/** The item lifecycle of `useGameLoop`: the weighted token/bomb draw, time-gated token colours,
    the 12-item spawn check on the count the spawner saw, the per-tick missed-item penalty with its `penalizedFruits` set,
    off-screen pruning and the trimming of the oldest items.

    Positions are reals. The vertical motion of a tick (gravity added to the velocity, the
    velocity added to the position) is modelled; the horizontal position after a tick (drift,
    wobble, clamping) is given per item, as is every random draw. */
module GameLoop {
  import opened Common
  import opened BladeTrail
  import GameState

  datatype ItemKind = Token | Bomb
  datatype TokenType = Yellow | Green | Blue | Red

  const MaxItems: nat := 12
  const ItemTrailMaxAgeMs: nat := 1000
  const ItemTrailMaxPoints: nat := 8
  const SpawnMargin: real := 80.0
  const SpawnY: real := -40.0
  const FallGravity: real := 0.15

  /** `ITEM_TYPES`, in table order. */
  const ItemTypes: seq<ItemKind> := [Token, Bomb]

  function SpawnWeight(k: ItemKind): real {
    match k
    case Token => 0.9
    case Bomb => 0.1
  }

  /** `TOKEN_TYPES[i].points`. */
  function TokenPoints(t: TokenType): (p: int)
    ensures 10 <= p <= 25
  {
    match t
    case Yellow => 10
    case Green => 15
    case Blue => 20
    case Red => 25
  }

  /** The sum of the spawn weights of a prefix of the table. */
  function SumWeights(ks: seq<ItemKind>): real {
    if ks == [] then 0.0 else SumWeights(ks[..|ks| - 1]) + SpawnWeight(ks[|ks| - 1])
  }

  /** `getRandomItemType(mode)` with the draw `random`: zen always gets a token; otherwise the
      first type whose cumulative weight reaches the draw, so a bomb exactly for draws in
      (0.9, 1.0], and a token as the fallback. */
  method GetRandomItemType(mode: Option<GameState.Mode>, random: real) returns (k: ItemKind)
    ensures mode == Some(GameState.Zen) ==> k == Token
    ensures mode != Some(GameState.Zen) ==> (k == Bomb <==> 0.9 < random <= 1.0)
  {
    if mode == Some(GameState.Zen) {
      return Token;
    }
    var cumulative := 0.0;
    var i := 0;
    while i < |ItemTypes|
      invariant 0 <= i <= |ItemTypes|
      invariant cumulative == SumWeights(ItemTypes[..i])
      invariant i > 0 ==> random > cumulative
    {
      assert ItemTypes[..i + 1][..i] == ItemTypes[..i];
      cumulative := cumulative + SpawnWeight(ItemTypes[i]);
      if random <= cumulative {
        return ItemTypes[i];
      }
      i := i + 1;
    }
    assert ItemTypes[..2] == ItemTypes;
    return Token;
  }

  /** The token colour of a new item after the time gating of `spawnItem`: only yellow before
      15 s, blue and red replaced by yellow or green (by the coin `coin`) before 45 s, and
      anything from 45 s on or when the start time is unknown. */
  function GateToken(isGood: bool, drawn: TokenType, elapsed: Option<int>, coin: real): (t: TokenType)
    ensures !isGood || elapsed.None? ==> t == drawn
    ensures isGood && elapsed.Some? && elapsed.value < 15000 ==> t == Yellow
    ensures isGood && elapsed.Some? && 15000 <= elapsed.value < 45000 ==>
              (t == Yellow || t == Green) && (drawn == Yellow || drawn == Green ==> t == drawn)
    ensures elapsed.Some? && elapsed.value >= 45000 ==> t == drawn
  {
    if !isGood || elapsed.None? then drawn
    else if elapsed.value < 15000 then Yellow
    else if elapsed.value < 45000 then
      match drawn
      case Blue | Red => if coin < 0.5 then Yellow else Green
      case Yellow | Green => drawn
    else drawn
  }

  datatype Item = Item(
    id: int,
    x: real,
    y: real,
    vx: real,
    vy: real,
    gravity: real,
    radius: int,
    kind: ItemKind,
    token: Option<TokenType>,
    points: int,
    slashed: bool,
    penaltyApplied: bool,
    trail: seq<TrailPoint>,
    hitBox: int,
    spawnedFromBottom: bool)

  predicate IsGood(it: Item) { it.kind == Token }

  /** The item record `spawnItem` builds: always from the top at y = -40 inside the 80-pixel
      side margins, a token's points taken from its (gated) colour, bombs worth nothing and
      given the smaller radius and hit box. `xDraw` is the horizontal draw in [0, 1). */
  function NewItem(id: int, kind: ItemKind, drawn: TokenType, elapsed: Option<int>, coin: real,
                   xDraw: real, width: real, vx: real, vy: real): (it: Item)
    ensures it.id == id && it.kind == kind && it.y == SpawnY && !it.spawnedFromBottom
    ensures !it.slashed && !it.penaltyApplied && it.trail == []
    ensures kind == Token ==> it.token == Some(GateToken(true, drawn, elapsed, coin)) && it.points == TokenPoints(it.token.value)
    ensures kind == Bomb ==> it.token == None && it.points == 0
    ensures it.radius == (if kind == Bomb then 28 else 38) && it.hitBox == (if kind == Bomb then 35 else 45)
    ensures 0.0 <= xDraw <= 1.0 && width >= 2.0 * SpawnMargin ==> SpawnMargin <= it.x <= width - SpawnMargin
  {
    var good := kind == Token;
    var token := if good then Some(GateToken(true, drawn, elapsed, coin)) else None;
    var points := if good then TokenPoints(token.value) else 0;
    var safeWidth := width - 2.0 * SpawnMargin;
    assert 0.0 <= xDraw <= 1.0 && safeWidth >= 0.0 ==> 0.0 <= xDraw * safeWidth <= safeWidth by {
      if 0.0 <= xDraw <= 1.0 && safeWidth >= 0.0 {
        assert xDraw * safeWidth <= 1.0 * safeWidth;
      }
    }
    Item(id, SpawnMargin + xDraw * safeWidth, SpawnY, vx, vy, FallGravity,
         if kind == Bomb then 28 else 38, kind, token, points, false, false, [],
         if kind == Bomb then 35 else 45, false)
  }

  /** What a tick needs to know about the world. */
  datatype Frame = Frame(width: real, height: real, now: int, visible: bool, hasMissedCallback: bool)

  /** The exit threshold of the missed-item check, on the item's new vertical position. */
  predicate Missed(it: Item, newY: real, height: real) {
    if it.spawnedFromBottom then newY > height + 100.0 && it.vy > 0.0 else newY > height + 50.0
  }

  /** Whether a tick charges the item a missed-item penalty. */
  predicate ShouldPenalize(it: Item, newY: real, f: Frame, penalized: set<int>) {
    Missed(it, newY, f.height) && IsGood(it) && !it.slashed && !it.penaltyApplied &&
    it.id !in penalized && f.hasMissedCallback
  }

  /** The item trail after a tick: while visible, the previous position is appended, points
      1000 ms old are dropped and the newest 8 are kept. */
  function ItemTrail(it: Item, f: Frame): (t: seq<TrailPoint>)
    ensures f.visible ==> |t| <= ItemTrailMaxPoints
    ensures !f.visible ==> t == it.trail
    ensures f.visible ==> forall i :: 0 <= i < |t| ==> f.now - t[i].timestamp < ItemTrailMaxAgeMs
  {
    if f.visible then
      var faded := Fade(it.trail + [TrailPoint(it.x, it.y, f.now)], f.now, ItemTrailMaxAgeMs);
      FadeKeepsYoung(it.trail + [TrailPoint(it.x, it.y, f.now)], f.now, ItemTrailMaxAgeMs);
      assert forall i :: 0 <= i < |faded| ==> faded[i] in faded;
      TakeLast(faded, ItemTrailMaxPoints)
    else it.trail
  }

  datatype Advance = Advance(item: Item, marked: bool)

  /** One item's part of the tick's `map`: vertical motion under gravity, the given new
      horizontal position, the trail, and the missed-item check on the new position. */
  function AdvanceItem(it: Item, newX: real, f: Frame, penalized: set<int>): (a: Advance)
    ensures a.item.vy == it.vy + it.gravity && a.item.y == it.y + it.vy + it.gravity && a.item.x == newX
    ensures a.marked == ShouldPenalize(it, a.item.y, f, penalized)
    ensures a.marked ==> IsGood(it) && !it.slashed && !it.penaltyApplied && it.id !in penalized
    ensures a.item.penaltyApplied == (it.penaltyApplied || a.marked)
    ensures a.item.(x := it.x, y := it.y, vy := it.vy, trail := it.trail, penaltyApplied := it.penaltyApplied) == it
  {
    var newVy := it.vy + it.gravity;
    var newY := it.y + newVy;
    var marked := ShouldPenalize(it, newY, f, penalized);
    Advance(it.(x := newX, y := newY, vy := newVy, trail := ItemTrail(it, f),
                penaltyApplied := it.penaltyApplied || marked), marked)
  }

  /** The tick's `map` over the list, with the ids it adds to `penalizedFruits` and the order in
      which it marked them. */
  datatype Advanced = Advanced(items: seq<Item>, penalized: set<int>, marked: seq<int>)

  function AdvanceAll(items: seq<Item>, newXs: seq<real>, f: Frame, penalized: set<int>): (r: Advanced)
    requires |newXs| == |items|
    ensures |r.items| == |items|
    decreases |items|
  {
    if items == [] then Advanced([], penalized, [])
    else
      var a := AdvanceItem(items[0], newXs[0], f, penalized);
      var pen := if a.marked then penalized + {items[0].id} else penalized;
      var rest := AdvanceAll(items[1..], newXs[1..], f, pen);
      Advanced([a.item] + rest.items, rest.penalized,
               (if a.marked then [items[0].id] else []) + rest.marked)
  }

  /** Facts about one `map` pass: each marked id is marked once, was not yet penalized, ends up
      in the set, and belongs to a good, unsliced item; nothing leaves the set. */
  lemma {:induction false} AdvanceAllMarks(items: seq<Item>, newXs: seq<real>, f: Frame, penalized: set<int>)
    requires |newXs| == |items|
    ensures var r := AdvanceAll(items, newXs, f, penalized);
      (forall i, j :: 0 <= i < j < |r.marked| ==> r.marked[i] != r.marked[j]) &&
      (forall id :: id in r.marked ==> id !in penalized && id in r.penalized) &&
      (forall id :: id in r.marked ==> exists it :: it in items && it.id == id && IsGood(it) && !it.slashed && !it.penaltyApplied) &&
      r.penalized == penalized + (set id | id in r.marked)
    decreases |items|
  {
    if items != [] {
      var a := AdvanceItem(items[0], newXs[0], f, penalized);
      var pen := if a.marked then penalized + {items[0].id} else penalized;
      AdvanceAllMarks(items[1..], newXs[1..], f, pen);
      var rest := AdvanceAll(items[1..], newXs[1..], f, pen);
      var r := AdvanceAll(items, newXs, f, penalized);
      assert r.marked == (if a.marked then [items[0].id] else []) + rest.marked;
      forall id | id in rest.marked
        ensures exists it :: it in items && it.id == id && IsGood(it) && !it.slashed && !it.penaltyApplied
      {
        var it :| it in items[1..] && it.id == id && IsGood(it) && !it.slashed && !it.penaltyApplied;
        assert it in items;
      }
      if a.marked {
        assert items[0] in items;
      }
    }
  }

  /** The condition of the tick's `filter`. */
  predicate Keep(it: Item, f: Frame) {
    it.y <= f.height + 100.0 && -100.0 <= it.x <= f.width + 100.0
  }

  /** Ids of the items the filter removes. */
  function PrunedIds(items: seq<Item>, f: Frame): (r: set<int>)
  {
    if items == [] then {}
    else
      var last := items[|items| - 1];
      PrunedIds(items[..|items| - 1], f) + (if Keep(last, f) then {} else {last.id})
  }

  /** Every pruned item's id is among the ids the filter removes. */
  lemma {:induction false} PrunedIdsCover(items: seq<Item>, f: Frame)
    ensures forall i :: 0 <= i < |items| && !Keep(items[i], f) ==> items[i].id in PrunedIds(items, f)
  {
    if items != [] {
      var init := items[..|items| - 1];
      PrunedIdsCover(init, f);
      assert forall i :: 0 <= i < |init| ==> init[i] == items[i];
    }
  }

  /** After a tick no pruned item's id is left in the set, and only items inside the
      pruning bounds remain. */
  lemma TickForgetsPruned(items: seq<Item>, penalized: set<int>, newXs: seq<real>, f: Frame)
    requires |newXs| == |items|
    ensures var moved := AdvanceAll(items, newXs, f, penalized).items;
      forall i :: 0 <= i < |moved| && !Keep(moved[i], f) ==>
        moved[i].id !in Tick(items, penalized, newXs, f).penalized &&
        moved[i] !in Tick(items, penalized, newXs, f).items
  {
    PrunedIdsCover(AdvanceAll(items, newXs, f, penalized).items, f);
  }

  datatype TickResult = TickResult(items: seq<Item>, penalized: set<int>, fired: nat)

  /** How many of the marked ids are still in the set when the deferred callbacks run. */
  function CountStillPenalized(marked: seq<int>, penalized: set<int>): (n: nat)
    ensures n <= |marked|
  {
    |Filter(marked, id => id in penalized)|
  }

  /** One `updateGame` tick as written: map, filter (removing pruned ids from the set), and then
      the deferred missed-item callbacks, each of which fires only if its id is still in the set. */
  function Tick(items: seq<Item>, penalized: set<int>, newXs: seq<real>, f: Frame): (r: TickResult)
    requires |newXs| == |items|
    ensures forall it :: it in r.items ==> Keep(it, f)
    ensures |r.items| <= |items|
    ensures r.fired <= |AdvanceAll(items, newXs, f, penalized).marked|
  {
    var adv := AdvanceAll(items, newXs, f, penalized);
    var kept := Filter(adv.items, it => Keep(it, f));
    var pen := adv.penalized - PrunedIds(adv.items, f);
    TickResult(kept, pen, CountStillPenalized(adv.marked, pen))
  }

  /** The missed-item callbacks of a tick with the deferred membership re-check dropped: one
      callback per marked item. */
  function TickFixed(items: seq<Item>, penalized: set<int>, newXs: seq<real>, f: Frame): (r: TickResult)
    requires |newXs| == |items|
    ensures r.items == Tick(items, penalized, newXs, f).items
    ensures r.penalized == Tick(items, penalized, newXs, f).penalized
  {
    var t := Tick(items, penalized, newXs, f);
    TickResult(t.items, t.penalized, |AdvanceAll(items, newXs, f, penalized).marked|)
  }

  /** With the fix, every good, unsliced item that crosses the exit line for the first time
      costs exactly one callback, and no other item does: the callbacks are exactly the marked
      ids, each once, each of a good and unsliced item, none already penalized. */
  lemma TickFixedChargesEachMissOnce(items: seq<Item>, penalized: set<int>, newXs: seq<real>, f: Frame)
    requires |newXs| == |items|
    ensures var m := AdvanceAll(items, newXs, f, penalized).marked;
      TickFixed(items, penalized, newXs, f).fired == |m| &&
      (forall i, j :: 0 <= i < j < |m| ==> m[i] != m[j]) &&
      (forall id :: id in m ==>
         id !in penalized &&
         exists it :: it in items && it.id == id && IsGood(it) && !it.slashed && !it.penaltyApplied)
  {
    AdvanceAllMarks(items, newXs, f, penalized);
  }

  /** A marked item is never marked again on a later tick: its `penaltyApplied` flag is set. */
  lemma PenaltyAtMostOnce(it: Item, newX: real, f: Frame, pen: set<int>, newX2: real, f2: Frame, pen2: set<int>)
    requires AdvanceItem(it, newX, f, pen).marked
    ensures !AdvanceItem(AdvanceItem(it, newX, f, pen).item, newX2, f2, pen2).marked
  {
  }

  /** A bomb is never charged as a missed item. */
  lemma BombsNeverMarked(it: Item, newX: real, f: Frame, pen: set<int>)
    requires it.kind == Bomb
    ensures !AdvanceItem(it, newX, f, pen).marked
  {
  }

  /** The example of the lost penalty: a token 40 pixels below the bottom edge falling at 60
      pixels per tick is marked, crosses the pruning line in the same tick, loses its id from
      the set before the deferred check, and so costs nothing. The fixed tick charges it. */
  lemma MissedPenaltyLostWhenPruned()
    ensures var f := Frame(800.0, 600.0, 0, false, true);
      var it := Item(7, 400.0, 640.0, 0.0, 60.0, FallGravity, 38, Token, Some(Yellow), 10,
                     false, false, [], 45, false);
      AdvanceAll([it], [400.0], f, {}).marked == [7] &&
      Tick([it], {}, [400.0], f).items == [] &&
      Tick([it], {}, [400.0], f).fired == 0 &&
      TickFixed([it], {}, [400.0], f).fired == 1
  {
    var f := Frame(800.0, 600.0, 0, false, true);
    var it := Item(7, 400.0, 640.0, 0.0, 60.0, FallGravity, 38, Token, Some(Yellow), 10,
                   false, false, [], 45, false);
    var adv := AdvanceAll([it], [400.0], f, {});
    assert [it][1..] == [] && [400.0][1..] == [];
    var a := AdvanceItem(it, 400.0, f, {});
    assert a.item.y == 700.15;
    assert a.marked;
    assert a.item == AdvanceItem([it][0], [400.0][0], f, {}).item;
    assert adv.marked == (if a.marked then [7] else []) + AdvanceAll([it][1..], [400.0][1..], f, {} + {7}).marked;
    assert adv.items == [AdvanceItem(it, 400.0, f, {}).item];
    assert adv.marked == [7];
    var moved := adv.items[0];
    assert !Keep(moved, f);
    assert Filter(adv.items, x => Keep(x, f)) == [];
    assert moved in adv.items;
    assert 7 in PrunedIds(adv.items, f);
    var pen := adv.penalized - PrunedIds(adv.items, f);
    assert 7 !in pen;
    assert Filter(adv.marked, id => id in pen) == [];
  }

  /** `cleanupExcessItems`: over the cap, the newest 12 items with their trails cleared;
      otherwise nothing changes. */
  function CleanupExcess(items: seq<Item>): (r: seq<Item>)
    ensures |items| <= MaxItems ==> r == items
    ensures |items| > MaxItems ==> |r| == MaxItems
    ensures |items| > MaxItems ==>
              forall i :: 0 <= i < MaxItems ==> r[i] == items[|items| - MaxItems + i].(trail := [])
  {
    if |items| > MaxItems then
      var last := TakeLast(items, MaxItems);
      seq(|last|, i requires 0 <= i < |last| => last[i].(trail := []))
    else items
  }

  /** After a cleanup the list is within the cap, and a second cleanup changes nothing. */
  lemma CleanupWithinCap(items: seq<Item>)
    ensures |CleanupExcess(items)| <= MaxItems
    ensures CleanupExcess(CleanupExcess(items)) == CleanupExcess(items)
  {
  }

  /** Every item's trail is within its 8-point bound. */
  ghost predicate TrailsBounded(items: seq<Item>) {
    forall i :: 0 <= i < |items| ==> |items[i].trail| <= ItemTrailMaxPoints
  }

  /** The state of the tick's `map` after `i` items: what is still to come, appended to what
      has been done, is the whole pass. */
  ghost predicate MapDone(items: seq<Item>, newXs: seq<real>, f: Frame, penalized: set<int>,
                          i: nat, moved: seq<Item>, pen: set<int>, marked: seq<int>)
    requires |newXs| == |items| && i <= |items|
  {
    var rest := AdvanceAll(items[i..], newXs[i..], f, pen);
    AdvanceAll(items, newXs, f, penalized) == Advanced(moved + rest.items, rest.penalized, marked + rest.marked)
  }

  /** One step of the tick's `map` keeps `MapDone`. */
  lemma MapStep(items: seq<Item>, newXs: seq<real>, f: Frame, penalized: set<int>,
                i: nat, moved: seq<Item>, pen: set<int>, marked: seq<int>)
    requires |newXs| == |items| && i < |items|
    requires MapDone(items, newXs, f, penalized, i, moved, pen, marked)
    ensures var a := AdvanceItem(items[i], newXs[i], f, pen);
      MapDone(items, newXs, f, penalized, i + 1, moved + [a.item],
              if a.marked then pen + {items[i].id} else pen,
              marked + if a.marked then [items[i].id] else [])
  {
    var a := AdvanceItem(items[i], newXs[i], f, pen);
    var pen' := if a.marked then pen + {items[i].id} else pen;
    var mark: seq<int> := if a.marked then [items[i].id] else [];
    assert items[i..][1..] == items[i + 1..] && newXs[i..][1..] == newXs[i + 1..];
    var rest := AdvanceAll(items[i + 1..], newXs[i + 1..], f, pen');
    assert AdvanceAll(items[i..], newXs[i..], f, pen) == Advanced([a.item] + rest.items, rest.penalized, mark + rest.marked);
    assert moved + ([a.item] + rest.items) == (moved + [a.item]) + rest.items;
    assert marked + (mark + rest.marked) == (marked + mark) + rest.marked;
  }

  /** The tick's `map`, which adds the ids of newly missed items to the set as it goes. */
  method MapItems(items: seq<Item>, newXs: seq<real>, f: Frame, penalized: set<int>) returns (r: Advanced)
    requires |newXs| == |items|
    ensures r == AdvanceAll(items, newXs, f, penalized)
  {
    var moved: seq<Item> := [];
    var marked: seq<int> := [];
    var pen := penalized;
    var i := 0;
    assert items[0..] == items && newXs[0..] == newXs;
    while i < |items|
      invariant 0 <= i <= |items|
      invariant MapDone(items, newXs, f, penalized, i, moved, pen, marked)
    {
      var a := AdvanceItem(items[i], newXs[i], f, pen);
      MapStep(items, newXs, f, penalized, i, moved, pen, marked);
      if a.marked {
        pen := pen + {items[i].id};
        marked := marked + [items[i].id];
      } else {
        assert marked + [] == marked;
      }
      moved := moved + [a.item];
      i := i + 1;
    }
    assert items[i..] == [] && newXs[i..] == [];
    r := Advanced(moved, pen, marked);
  }

  lemma PruneStep(moved: seq<Item>, j: nat, f: Frame)
    requires j < |moved|
    ensures Filter(moved[..j + 1], it => Keep(it, f)) ==
              Filter(moved[..j], it => Keep(it, f)) + (if Keep(moved[j], f) then [moved[j]] else [])
  {
    FilterSnoc(moved, j, it => Keep(it, f));
  }

  lemma PrunedIdsStep(moved: seq<Item>, j: nat, f: Frame)
    requires j < |moved|
    ensures PrunedIds(moved[..j + 1], f) ==
              PrunedIds(moved[..j], f) + (if Keep(moved[j], f) then {} else {moved[j].id})
  {
    assert moved[..j + 1][..j] == moved[..j];
  }

  /** The state of the tick's `filter` after `j` items: the kept items so far, and the set
      without the ids of the items dropped so far. */
  ghost predicate PruneDone(moved: seq<Item>, penalized: set<int>, f: Frame, j: nat,
                            kept: seq<Item>, pen: set<int>)
    requires j <= |moved|
  {
    kept == Filter(moved[..j], it => Keep(it, f)) && pen == penalized - PrunedIds(moved[..j], f)
  }

  /** One more item of the filter: it is kept, or its id leaves the set if it is there. */
  lemma PruneLoopStep(moved: seq<Item>, penalized: set<int>, f: Frame, j: nat,
                      kept: seq<Item>, pen: set<int>)
    requires j < |moved| && PruneDone(moved, penalized, f, j, kept, pen)
    ensures PruneDone(moved, penalized, f, j + 1,
                      if Keep(moved[j], f) then kept + [moved[j]] else kept,
                      if !Keep(moved[j], f) && moved[j].id in pen then pen - {moved[j].id} else pen)
  {
    PruneStep(moved, j, f);
    PrunedIdsStep(moved, j, f);
  }

  /** The tick's `filter`, which removes the ids of pruned items from the set. */
  method PruneItems(moved: seq<Item>, penalized: set<int>, f: Frame) returns (kept: seq<Item>, pen: set<int>)
    ensures kept == Filter(moved, it => Keep(it, f))
    ensures pen == penalized - PrunedIds(moved, f)
  {
    kept := [];
    pen := penalized;
    var j := 0;
    while j < |moved|
      invariant 0 <= j <= |moved|
      invariant PruneDone(moved, penalized, f, j, kept, pen)
    {
      var it := moved[j];
      PruneLoopStep(moved, penalized, f, j, kept, pen);
      if Keep(it, f) {
        kept := kept + [it];
      } else if it.id in pen {
        pen := pen - {it.id};
      }
      j := j + 1;
    }
    assert moved[..j] == moved;
  }

  /** Counting one more marked id adds one when it is still in the set. */
  lemma CountStillPenalizedStep(marked: seq<int>, k: nat, penalized: set<int>)
    requires k < |marked|
    ensures CountStillPenalized(marked[..k + 1], penalized) ==
              CountStillPenalized(marked[..k], penalized) + (if marked[k] in penalized then 1 else 0)
  {
    FilterSnoc(marked, k, id => id in penalized);
  }

  /** The deferred missed-item callbacks, each of which re-checks the set first. */
  method RunMissedCallbacks(marked: seq<int>, penalized: set<int>) returns (fired: nat)
    ensures fired == CountStillPenalized(marked, penalized)
  {
    fired := 0;
    var k := 0;
    assert marked[..0] == [];
    while k < |marked|
      invariant 0 <= k <= |marked|
      invariant fired == CountStillPenalized(marked[..k], penalized)
    {
      CountStillPenalizedStep(marked, k, penalized);
      if marked[k] in penalized {
        fired := fired + 1;
      }
      k := k + 1;
    }
    assert marked[..k] == marked;
  }

  /** The items and `penalizedFruits` set of the hook. */
  class ItemLoop {
    var items: seq<Item>
    var penalized: set<int>

    constructor ()
      ensures items == [] && penalized == {}
    {
      items := [];
      penalized := {};
    }

    /** `spawnItem`: appends one new item unless the game is not running, is paused, has no
        canvas or is hidden, or 12 items were live. The callback reads the game state, the
        visibility and `items.length` of the render it was created in: the spawner's wave
        timeouts call the callback captured when the wave was scheduled, so `g`, `visible` and
        `seenCount` (the item count that render saw) may be older than the live list, and a
        wave can then take the list past 12. `random` draws the item type, `drawn` is the token
        colour drawn, `coin` the replacement draw. */
    method SpawnItem(g: GameState.State, hasCanvas: bool, visible: bool, seenCount: nat, now: int,
                     random: real, drawn: TokenType, coin: real, id: int, xDraw: real, width: real,
                     vx: real, vy: real)
      returns (spawned: bool, kind: ItemKind)
      modifies this
      ensures spawned == (g.isGameRunning && !g.isPaused && hasCanvas && visible && seenCount < MaxItems)
      ensures spawned ==> g.mode == Some(GameState.Zen) ==> kind == Token
      ensures spawned ==> g.mode != Some(GameState.Zen) ==> (kind == Bomb <==> 0.9 < random <= 1.0)
      ensures spawned ==>
        var elapsed := if g.gameStartTime.Some? then Some(now - g.gameStartTime.value) else None;
        items == old(items) + [NewItem(id, kind, drawn, elapsed, coin, xDraw, width, vx, vy)]
      ensures !spawned ==> items == old(items)
      ensures seenCount == |old(items)| <= MaxItems ==> |items| <= MaxItems
      ensures TrailsBounded(old(items)) ==> TrailsBounded(items)
      ensures penalized == old(penalized)
    {
      kind := Token;
      if !g.isGameRunning || g.isPaused || !hasCanvas || !visible {
        return false, kind;
      }
      if seenCount >= MaxItems {
        return false, kind;
      }
      kind := GetRandomItemType(g.mode, random);
      var elapsed := if g.gameStartTime.Some? then Some(now - g.gameStartTime.value) else None;
      items := items + [NewItem(id, kind, drawn, elapsed, coin, xDraw, width, vx, vy)];
      spawned := true;
    }

    /** The effect on the visibility and the item count: on a visible tab, a list over the cap
        keeps only its newest 12 items. The dropped items cost nothing: no missed-item callback
        fires for them, and their ids stay in the penalty set. */
    method TrimOnVisible(visible: bool)
      modifies this
      ensures visible && |old(items)| > MaxItems ==> items == TakeLast(old(items), MaxItems)
      ensures !(visible && |old(items)| > MaxItems) ==> items == old(items)
      ensures visible ==> |items| <= MaxItems
      ensures TrailsBounded(old(items)) ==> TrailsBounded(items)
      ensures penalized == old(penalized)
    {
      if visible && |items| > MaxItems {
        items := TakeLast(items, MaxItems);
      }
    }

    /** The effect on the visibility: a hidden tab empties every item's trail and changes
        nothing else. */
    method ClearTrailsWhenHidden(visible: bool)
      modifies this
      ensures visible ==> items == old(items)
      ensures !visible ==> (|items| == |old(items)| &&
                             forall i :: 0 <= i < |items| ==> items[i] == old(items)[i].(trail := []))
      ensures !visible ==> TrailsBounded(items)
      ensures penalized == old(penalized)
    {
      if !visible {
        var before := items;
        items := seq(|before|, i requires 0 <= i < |before| => before[i].(trail := []));
      }
    }

    /** `updateGame`: one tick over all items, with one missed-item callback per marked item
        (the corrected `TickFixed`; `RunMissedCallbacks` is the loop as written). `newXs` holds
        each item's new horizontal position. */
    method UpdateGame(g: GameState.State, hasCanvas: bool, newXs: seq<real>, f: Frame) returns (fired: nat)
      requires |newXs| == |items|
      modifies this
      ensures !g.isGameRunning || g.isPaused || !hasCanvas ==>
                items == old(items) && penalized == old(penalized) && fired == 0
      ensures g.isGameRunning && !g.isPaused && hasCanvas ==>
                TickResult(items, penalized, fired) == TickFixed(old(items), old(penalized), newXs, f)
    {
      if !g.isGameRunning || g.isPaused || !hasCanvas {
        return 0;
      }
      var adv := MapItems(items, newXs, f, penalized);
      var kept, pen := PruneItems(adv.items, adv.penalized, f);
      items := kept;
      penalized := pen;
      fired := |adv.marked|;
    }

    /** `cleanupExcessItems`. */
    method CleanupExcessItems()
      modifies this
      ensures items == CleanupExcess(old(items)) && penalized == old(penalized)
    {
      items := CleanupExcess(items);
    }

    /** `clearAllItems`: no items and no penalty tracking. */
    method ClearAllItems()
      modifies this
      ensures items == [] && penalized == {}
    {
      items := [];
      penalized := {};
    }
  }
}
