/** Pointer gestures and collisions of `useSlashDetection`. The live items are objects that the
    collision check marks as slashed in place, so here they sit in an array. The detector owns
    the refs `lastMousePos`, `slashVelocity` and `slashedItems` (the ids hit during the current
    gesture); the `isSlashing` flag is the value the component rendered with, and the blade
    trail is the object of `BladeTrail`.

    Distances are compared squared: `sqrt(d2) < r` holds exactly when `r > 0 && d2 < r * r`.
    The pointer speed, a square root in the source, is given together with the velocity it is
    the length of. */
module SlashDetection {
  import opened Common
  import opened GameLoop
  import GameState
  import BladeTrail

  datatype Point = Point(x: real, y: real)
  datatype Rect = Rect(left: real, top: real, width: real, height: real)
  datatype Canvas = Canvas(width: real, height: real, rect: Rect)
  datatype Velocity = Velocity(vx: real, vy: real, speed: real)

  /** One axis of `getMousePos`: the offset from the rectangle's edge, scaled by the ratio of
      the canvas' pixel size to its displayed size. */
  function Scale(client: real, edge: real, pixels: real, shown: real): (v: real)
    requires shown > 0.0
    ensures client == edge ==> v == 0.0
    ensures client == edge + shown ==> v == pixels
  {
    var ratio := pixels / shown;
    assert ratio * shown == pixels;
    (client - edge) * ratio
  }

  /** Scaling by a ratio that is not negative keeps the order. */
  lemma ScaleMonotone(a: real, b: real, edge: real, pixels: real, shown: real)
    requires a <= b && pixels >= 0.0 && shown > 0.0
    ensures Scale(a, edge, pixels, shown) <= Scale(b, edge, pixels, shown)
  {
    var ratio := pixels / shown;
    assert ratio * shown == pixels;
    assert ratio >= 0.0;
    assert Scale(a, edge, pixels, shown) == (a - edge) * ratio;
    assert Scale(b, edge, pixels, shown) == (b - edge) * ratio;
    assert (b - edge) * ratio - (a - edge) * ratio == (b - a) * ratio;
    MulNonNegative(b - a, ratio);
  }

  lemma MulNonNegative(x: real, y: real)
    requires x >= 0.0 && y >= 0.0
    ensures x * y >= 0.0
  {
  }

  /** `getMousePos`: client coordinates scaled into canvas pixels; (0, 0) without a canvas. */
  function MousePos(canvas: Option<Canvas>, clientX: real, clientY: real): (p: Point)
    requires canvas.Some? ==> canvas.value.rect.width > 0.0 && canvas.value.rect.height > 0.0
    ensures canvas.None? ==> p == Point(0.0, 0.0)
    ensures canvas.Some? && clientX == canvas.value.rect.left ==> p.x == 0.0
    ensures canvas.Some? && clientY == canvas.value.rect.top ==> p.y == 0.0
    ensures canvas.Some? && clientX == canvas.value.rect.left + canvas.value.rect.width ==> p.x == canvas.value.width
    ensures canvas.Some? && clientY == canvas.value.rect.top + canvas.value.rect.height ==> p.y == canvas.value.height
  {
    match canvas
    case None => Point(0.0, 0.0)
    case Some(c) =>
      Point(Scale(clientX, c.rect.left, c.width, c.rect.width),
            Scale(clientY, c.rect.top, c.height, c.rect.height))
  }

  /** On a canvas whose pixels are not mirrored, moving the pointer right or down never moves
      the mapped point left or up. */
  lemma MousePosMonotone(c: Canvas, x1: real, y1: real, x2: real, y2: real)
    requires c.rect.width > 0.0 && c.rect.height > 0.0 && c.width >= 0.0 && c.height >= 0.0
    requires x1 <= x2 && y1 <= y2
    ensures MousePos(Some(c), x1, y1).x <= MousePos(Some(c), x2, y2).x
    ensures MousePos(Some(c), x1, y1).y <= MousePos(Some(c), x2, y2).y
  {
    ScaleMonotone(x1, x2, c.rect.left, c.width, c.rect.width);
    ScaleMonotone(y1, y2, c.rect.top, c.height, c.rect.height);
  }

  /** `item.hitBox || item.radius + 20`. */
  function HitRadius(it: Item): int {
    if it.hitBox != 0 then it.hitBox else it.radius + 20
  }

  function DistSq(p: Point, it: Item): real {
    (p.x - it.x) * (p.x - it.x) + (p.y - it.y) * (p.y - it.y)
  }

  /** The strict distance test of the collision check, on squared distances. */
  predicate Hits(p: Point, it: Item) {
    HitRadius(it) > 0 && DistSq(p, it) < (HitRadius(it) * HitRadius(it)) as real
  }

  /** The squared test agrees with the source's test on the true distance `d`. */
  lemma HitsIffCloserThanRadius(p: Point, it: Item, d: real)
    requires d >= 0.0 && d * d == DistSq(p, it)
    ensures Hits(p, it) <==> d < HitRadius(it) as real
  {
    var r := HitRadius(it) as real;
    assert (HitRadius(it) * HitRadius(it)) as real == r * r;
    if r > 0.0 {
      if d < r {
        assert d * d <= d * r < r * r;
      } else {
        assert d * d >= r * d >= r * r;
      }
    }
  }

  /** The callback a hit triggers: a good item scores its points, a bomb costs a life. */
  datatype Effect = ScoreUpdate(points: int) | LifeLost
  datatype Hit = Hit(id: int, effect: Effect)

  function EffectOf(it: Item): (e: Effect)
    ensures IsGood(it) <==> e == ScoreUpdate(it.points)
    ensures !IsGood(it) <==> e == LifeLost
  {
    if IsGood(it) then ScoreUpdate(it.points) else LifeLost
  }

  /** The items after a pass, the ids hit so far in the gesture, and the hits in order. */
  datatype Pass = Pass(items: seq<Item>, slashed: set<int>, hits: seq<Hit>)

  /** One `checkSlashCollisions` pass at point `p` once its guard has passed. */
  function CheckAll(items: seq<Item>, slashed: set<int>, p: Point): (r: Pass)
    ensures |r.items| == |items|
    decreases |items|
  {
    if items == [] then Pass([], slashed, [])
    else
      var it := items[0];
      var hit := !it.slashed && it.id !in slashed && Hits(p, it);
      var rest := CheckAll(items[1..], if hit then slashed + {it.id} else slashed, p);
      if hit then Pass([it.(slashed := true)] + rest.items, rest.slashed, [Hit(it.id, EffectOf(it))] + rest.hits)
      else Pass([it] + rest.items, rest.slashed, rest.hits)
  }

  /** The ids hit in a pass, as a set. */
  function HitIds(hits: seq<Hit>): set<int> {
    set k | 0 <= k < |hits| :: hits[k].id
  }

  lemma HitIdsAppend(a: seq<Hit>, b: seq<Hit>)
    ensures HitIds(a + b) == HitIds(a) + HitIds(b)
  {
    forall id | id in HitIds(a + b) ensures id in HitIds(a) + HitIds(b) {
      var k :| 0 <= k < |a + b| && (a + b)[k].id == id;
      if k >= |a| { assert b[k - |a|].id == id; }
    }
    forall id | id in HitIds(b) ensures id in HitIds(a + b) {
      var k :| 0 <= k < |b| && b[k].id == id;
      assert (a + b)[k + |a|].id == id;
    }
    forall id | id in HitIds(a) ensures id in HitIds(a + b) {
      var k :| 0 <= k < |a| && a[k].id == id;
      assert (a + b)[k].id == id;
    }
  }

  /** No item is hit twice. */
  predicate DistinctIds(hits: seq<Hit>) {
    forall k, l :: 0 <= k < l < |hits| ==> hits[k].id != hits[l].id
  }

  /** No hit names an id in `slashed`. */
  predicate AvoidsIds(hits: seq<Hit>, slashed: set<int>) {
    forall k :: 0 <= k < |hits| ==> hits[k].id !in slashed
  }

  /** Every hit names an item of `items` that was not yet slashed and calls that item's callback. */
  ghost predicate FromItems(items: seq<Item>, hits: seq<Hit>) {
    forall k :: 0 <= k < |hits| ==> HitOf(items, hits[k])
  }

  /** `h` names an item of `items` that was not yet slashed and calls that item's callback. */
  ghost predicate HitOf(items: seq<Item>, h: Hit) {
    exists i :: 0 <= i < |items| && items[i].id == h.id && !items[i].slashed && h.effect == EffectOf(items[i])
  }

  /** `after` is `items` with some of the items whose id is in `ids` marked as slashed. */
  ghost predicate MarksOnly(items: seq<Item>, after: seq<Item>, ids: set<int>) {
    |after| == |items| &&
    forall i :: 0 <= i < |items| ==>
      after[i] == items[i] || (after[i] == items[i].(slashed := true) && items[i].id in ids)
  }

  /** What a hit means, whatever the order of points: each hit names a distinct item not hit
      before in the gesture and not already slashed, with the callback its kind calls; the hit
      items, and only they, become slashed; the set grows by exactly the hit ids. */
  ghost predicate PassFacts(items: seq<Item>, slashed: set<int>, r: Pass) {
    DistinctIds(r.hits) && AvoidsIds(r.hits, slashed) && FromItems(items, r.hits) &&
    MarksOnly(items, r.items, HitIds(r.hits)) && r.slashed == slashed + HitIds(r.hits)
  }

  lemma DistinctCons(h: Hit, hs: seq<Hit>)
    requires DistinctIds(hs) && AvoidsIds(hs, {h.id})
    ensures DistinctIds([h] + hs)
  {
    var r := [h] + hs;
    forall k, l | 0 <= k < l < |r| ensures r[k].id != r[l].id {
      assert r[l] == hs[l - 1];
      if k > 0 { assert r[k] == hs[k - 1]; }
    }
  }

  lemma FromItemsCons(it: Item, tail: seq<Item>, hs: seq<Hit>, hit: bool)
    requires FromItems(tail, hs)
    requires hit ==> !it.slashed
    ensures FromItems([it] + tail, (if hit then [Hit(it.id, EffectOf(it))] else []) + hs)
  {
    var items := [it] + tail;
    var r := (if hit then [Hit(it.id, EffectOf(it))] else []) + hs;
    var off := if hit then 1 else 0;
    forall k | 0 <= k < |r| ensures HitOf(items, r[k]) {
      if k < off {
        assert r[k] == Hit(it.id, EffectOf(it)) && items[0] == it;
        assert items[0].id == r[k].id && !items[0].slashed && r[k].effect == EffectOf(items[0]);
      } else {
        assert r[k] == hs[k - off];
        assert HitOf(tail, hs[k - off]);
        var i :| 0 <= i < |tail| && tail[i].id == hs[k - off].id && !tail[i].slashed &&
                 hs[k - off].effect == EffectOf(tail[i]);
        assert items[i + 1] == tail[i];
      }
    }
  }

  lemma MarksOnlyCons(it: Item, first: Item, tail: seq<Item>, after: seq<Item>, ids: set<int>, all: set<int>)
    requires MarksOnly(tail, after, ids) && ids <= all
    requires first == it || (first == it.(slashed := true) && it.id in all)
    ensures MarksOnly([it] + tail, [first] + after, all)
  {
    var items := [it] + tail;
    var r := [first] + after;
    forall i | 0 <= i < |items|
      ensures r[i] == items[i] || (r[i] == items[i].(slashed := true) && items[i].id in all)
    {
      if i > 0 {
        assert r[i] == after[i - 1] && items[i] == tail[i - 1];
      }
    }
  }

  lemma {:induction false} CheckAllFacts(items: seq<Item>, slashed: set<int>, p: Point)
    ensures PassFacts(items, slashed, CheckAll(items, slashed, p))
    decreases |items|
  {
    if items != [] {
      var it := items[0];
      var tail := items[1..];
      assert items == [it] + tail;
      var hit := !it.slashed && it.id !in slashed && Hits(p, it);
      var s1 := if hit then slashed + {it.id} else slashed;
      var rest := CheckAll(tail, s1, p);
      CheckAllFacts(tail, s1, p);
      var r := CheckAll(items, slashed, p);
      CheckAllStep(it, tail, slashed, p);
      if hit {
        var h := [Hit(it.id, EffectOf(it))];
        assert r.hits == h + rest.hits;
        HitIdsAppend(h, rest.hits);
        HitIdsOne(h[0]);
        DistinctCons(h[0], rest.hits);
        MarksOnlyCons(it, it.(slashed := true), tail, rest.items, HitIds(rest.hits), HitIds(r.hits));
      } else {
        assert r.hits == rest.hits;
        MarksOnlyCons(it, it, tail, rest.items, HitIds(rest.hits), HitIds(r.hits));
        assert [] + rest.hits == rest.hits;
      }
      FromItemsCons(it, tail, rest.hits, hit);
    }
  }

  lemma HitIdsOne(h: Hit)
    ensures HitIds([h]) == {h.id}
  {
    assert [h][0] == h;
  }

  /** A run of passes, one per tested point, threading the items and the set through. */
  function CheckPoints(items: seq<Item>, slashed: set<int>, pts: seq<Point>): (r: Pass)
    ensures |r.items| == |items|
    decreases |pts|
  {
    if pts == [] then Pass(items, slashed, [])
    else
      var first := CheckAll(items, slashed, pts[0]);
      var rest := CheckPoints(first.items, first.slashed, pts[1..]);
      Pass(rest.items, rest.slashed, first.hits + rest.hits)
  }

  /** However many points a gesture tests, no id is hit twice, no id hit before in the gesture
      is hit again, and the set ends up holding exactly the ids hit: a bomb costs one life per
      gesture at most, and a token scores once. */
  lemma {:induction false} CheckPointsHitOnce(items: seq<Item>, slashed: set<int>, pts: seq<Point>)
    ensures var r := CheckPoints(items, slashed, pts);
      DistinctIds(r.hits) && AvoidsIds(r.hits, slashed) && r.slashed == slashed + HitIds(r.hits)
    decreases |pts|
  {
    if pts != [] {
      var first := CheckAll(items, slashed, pts[0]);
      CheckAllFacts(items, slashed, pts[0]);
      CheckPointsHitOnce(first.items, first.slashed, pts[1..]);
      var rest := CheckPoints(first.items, first.slashed, pts[1..]);
      var r := CheckPoints(items, slashed, pts);
      assert r.hits == first.hits + rest.hits;
      HitIdsAppend(first.hits, rest.hits);
      DistinctAppend(first.hits, rest.hits, slashed);
    }
  }

  /** Two runs of hits, the second avoiding the ids of the first, have distinct ids together
      and avoid what both avoid. */
  lemma DistinctAppend(a: seq<Hit>, b: seq<Hit>, slashed: set<int>)
    requires DistinctIds(a) && DistinctIds(b)
    requires AvoidsIds(a, slashed) && AvoidsIds(b, slashed + HitIds(a))
    ensures DistinctIds(a + b) && AvoidsIds(a + b, slashed)
  {
    var r := a + b;
    forall k, l | 0 <= k < l < |r| ensures r[k].id != r[l].id {
      if l >= |a| && k < |a| {
        assert r[l] == b[l - |a|];
        assert r[k].id in HitIds(a);
      } else if k >= |a| {
        assert r[k] == b[k - |a|] && r[l] == b[l - |a|];
      }
    }
    forall k | 0 <= k < |r| ensures r[k].id !in slashed {
      if k >= |a| {
        assert r[k] == b[k - |a|];
      }
    }
  }

  /** One step of a pass: the first item is tested, then the rest with the grown set. */
  lemma CheckAllStep(it: Item, tail: seq<Item>, slashed: set<int>, p: Point)
    ensures var hit := !it.slashed && it.id !in slashed && Hits(p, it);
      var rest := CheckAll(tail, if hit then slashed + {it.id} else slashed, p);
      CheckAll([it] + tail, slashed, p) ==
        if hit then Pass([it.(slashed := true)] + rest.items, rest.slashed, [Hit(it.id, EffectOf(it))] + rest.hits)
        else Pass([it] + rest.items, rest.slashed, rest.hits)
  {
    assert ([it] + tail)[0] == it && ([it] + tail)[1..] == tail;
  }

  /** The state of a pass after `i` items: the rest of the pass, appended to what has been
      done, is the whole pass. */
  ghost predicate PassDone(orig: seq<Item>, s0: set<int>, p: Point, i: nat,
                           done: seq<Item>, slashed: set<int>, hits: seq<Hit>)
    requires i <= |orig|
  {
    var rest := CheckAll(orig[i..], slashed, p);
    CheckAll(orig, s0, p) == Pass(done + rest.items, rest.slashed, hits + rest.hits)
  }

  /** Testing item `i` keeps `PassDone`. */
  lemma PassStep(orig: seq<Item>, s0: set<int>, p: Point, i: nat,
                 done: seq<Item>, slashed: set<int>, hits: seq<Hit>)
    requires i < |orig| && PassDone(orig, s0, p, i, done, slashed, hits)
    ensures var it := orig[i];
      if !it.slashed && it.id !in slashed && Hits(p, it) then
        PassDone(orig, s0, p, i + 1, done + [it.(slashed := true)], slashed + {it.id}, hits + [Hit(it.id, EffectOf(it))])
      else PassDone(orig, s0, p, i + 1, done + [it], slashed, hits)
  {
    var it := orig[i];
    assert orig[i..] == [it] + orig[i + 1..];
    CheckAllStep(it, orig[i + 1..], slashed, p);
    var hit := !it.slashed && it.id !in slashed && Hits(p, it);
    var rest := CheckAll(orig[i + 1..], if hit then slashed + {it.id} else slashed, p);
    var next := if hit then it.(slashed := true) else it;
    assert done + ([next] + rest.items) == (done + [next]) + rest.items;
    if hit {
      var h := [Hit(it.id, EffectOf(it))];
      assert hits + (h + rest.hits) == (hits + h) + rest.hits;
    }
  }

  /** Testing the points of `a` and then those of `b` is testing the points of `a + b`: a gesture
      split across several pointer events ends as if its points had been tested in one run. */
  lemma {:induction false} CheckPointsAppend(items: seq<Item>, slashed: set<int>, a: seq<Point>, b: seq<Point>)
    ensures var f := CheckPoints(items, slashed, a);
      var r := CheckPoints(f.items, f.slashed, b);
      CheckPoints(items, slashed, a + b) == Pass(r.items, r.slashed, f.hits + r.hits)
    decreases |a|
  {
    if a == [] {
      assert a + b == b;
    } else {
      assert (a + b)[0] == a[0] && (a + b)[1..] == a[1..] + b;
      var first := CheckAll(items, slashed, a[0]);
      CheckPointsAppend(first.items, first.slashed, a[1..], b);
    }
  }

  lemma CheckPointsOne(items: seq<Item>, slashed: set<int>, q: Point)
    ensures CheckPoints(items, slashed, [q]) == CheckAll(items, slashed, q)
  {
    var c := CheckAll(items, slashed, q);
    assert [q][1..] == [];
    assert c.hits + [] == c.hits;
  }

  /** `max(5, floor(speed / 2))`. */
  function Steps(speed: real): (n: int)
    ensures n >= 5
    ensures speed >= 10.0 ==> n as real <= speed / 2.0 < n as real + 1.0
  {
    var half := (speed / 2.0).Floor;
    if half > 5 then half else 5
  }

  function Lerp(a: Point, b: Point, t: real): Point {
    Point(a.x + (b.x - a.x) * t, a.y + (b.y - a.y) * t)
  }

  /** The points `t = i / steps`, `i = 0 .. steps`, on the segment from `a` to `b`. */
  function Samples(a: Point, b: Point, steps: int): (r: seq<Point>)
    requires steps > 0
    ensures |r| == steps + 1 && r[0] == a && r[steps] == b
    ensures forall i :: 0 <= i <= steps ==> r[i] == Lerp(a, b, i as real / steps as real)
  {
    var r := seq(steps + 1, i requires 0 <= i <= steps => Lerp(a, b, i as real / steps as real));
    DivSelf(steps as real);
    assert r[steps] == Lerp(a, b, 1.0);
    r
  }

  lemma DivSelf(x: real)
    requires x > 0.0
    ensures x / x == 1.0
  {
    assert 1.0 * x == x;
  }

  /** The points `updateSlash` tests, in order: the samples of the segment when the pointer moved
      more than one pixel, then the current position once more. */
  function SlashPoints(last: Point, current: Point, speed: real): (r: seq<Point>)
    ensures speed > 1.0 ==> |r| == Steps(speed) + 2 && r[0] == last
    ensures speed <= 1.0 ==> r == [current]
    ensures r[|r| - 1] == current
  {
    (if speed > 1.0 then Samples(last, current, Steps(speed)) else []) + [current]
  }

  /** The refs of the hook. */
  class SlashDetector {
    var lastMousePos: Point
    var velocity: Velocity
    var slashedItems: set<int>
    /** The 100 ms clearing timers scheduled by `endSlash` that have not fired yet. */
    var pendingClears: nat

    constructor ()
      ensures lastMousePos == Point(0.0, 0.0) && velocity == Velocity(0.0, 0.0, 0.0) && slashedItems == {}
      ensures pendingClears == 0
    {
      lastMousePos := Point(0.0, 0.0);
      velocity := Velocity(0.0, 0.0, 0.0);
      slashedItems := {};
      pendingClears := 0;
    }

    /** `checkSlashCollisions(pos, v)`: nothing unless a gesture is in progress at a speed of at
        least 2; otherwise one pass over the items, marking each hit item in place. */
    method CheckSlashCollisions(items: array<Item>, pos: Point, v: Velocity, isSlashing: bool) returns (hits: seq<Hit>)
      modifies this, items
      ensures lastMousePos == old(lastMousePos) && velocity == old(velocity) && pendingClears == old(pendingClears)
      ensures !isSlashing || v.speed < 2.0 ==> items[..] == old(items[..]) && slashedItems == old(slashedItems) && hits == []
      ensures isSlashing && v.speed >= 2.0 ==>
                Pass(items[..], slashedItems, hits) == CheckAll(old(items[..]), old(slashedItems), pos)
    {
      if !isSlashing || v.speed < 2.0 {
        return [];
      }
      ghost var orig := items[..];
      ghost var s0 := slashedItems;
      ghost var done: seq<Item> := [];
      hits := [];
      var i := 0;
      assert orig[0..] == orig;
      while i < items.Length
        invariant 0 <= i <= items.Length && |done| == i
        invariant forall k :: 0 <= k < i ==> items[k] == done[k]
        invariant forall k :: i <= k < items.Length ==> items[k] == orig[k]
        invariant lastMousePos == old(lastMousePos) && velocity == old(velocity) && pendingClears == old(pendingClears)
        invariant PassDone(orig, s0, pos, i, done, slashedItems, hits)
      {
        var it := items[i];
        PassStep(orig, s0, pos, i, done, slashedItems, hits);
        if !it.slashed && it.id !in slashedItems && Hits(pos, it) {
          items[i] := it.(slashed := true);
          slashedItems := slashedItems + {it.id};
          hits := hits + [Hit(it.id, EffectOf(it))];
        }
        done := done + [items[i]];
        i := i + 1;
      }
      assert items[..] == done;
      assert orig[i..] == [] && done + [] == done && hits + [] == hits;
      assert CheckAll(orig[i..], slashedItems, pos) == Pass([], slashedItems, []);
    }

    /** `startSlash(e)`: only in a running, unpaused game; remembers the position, zeroes the
        velocity, forgets the ids hit by the previous gesture and starts the trail there. */
    method StartSlash(g: GameState.State, pos: Point, now: int, trail: BladeTrail.Trail)
      requires trail.Valid()
      modifies this, trail
      ensures trail.Valid()
      ensures !(g.screen == GameState.Game && g.isGameRunning && !g.isPaused) ==>
                lastMousePos == old(lastMousePos) && velocity == old(velocity) &&
                slashedItems == old(slashedItems) && trail.points == old(trail.points)
      ensures g.screen == GameState.Game && g.isGameRunning && !g.isPaused ==>
                lastMousePos == pos && velocity == Velocity(0.0, 0.0, 0.0) && slashedItems == {} &&
                trail.points == BladeTrail.PushBounded(old(trail.points), BladeTrail.TrailPoint(pos.x, pos.y, now), BladeTrail.MaxTrailPoints)
      ensures trail.isSlashing == old(trail.isSlashing) && pendingClears == old(pendingClears)
    {
      if g.screen != GameState.Game || !g.isGameRunning || g.isPaused {
        return;
      }
      lastMousePos := pos;
      velocity := Velocity(0.0, 0.0, 0.0);
      slashedItems := {};
      trail.AddTrailPoint(pos.x, pos.y, now);
    }

    /** `updateSlash(e)`: in a running, unpaused game during a gesture, records the velocity,
        tests the sampled segment and then the current point, appends the current point to the
        trail and moves `lastMousePos` there. `speed` is the length of the movement. */
    method UpdateSlash(g: GameState.State, items: array<Item>, pos: Point, speed: real, now: int,
                       isSlashing: bool, trail: BladeTrail.Trail) returns (hits: seq<Hit>)
      requires trail.Valid()
      requires speed >= 0.0
      requires speed * speed == (pos.x - lastMousePos.x) * (pos.x - lastMousePos.x) + (pos.y - lastMousePos.y) * (pos.y - lastMousePos.y)
      modifies this, items, trail
      ensures trail.Valid() && trail.isSlashing == old(trail.isSlashing) && pendingClears == old(pendingClears)
      ensures !(isSlashing && g.screen == GameState.Game && g.isGameRunning && !g.isPaused) ==>
                lastMousePos == old(lastMousePos) && velocity == old(velocity) && slashedItems == old(slashedItems) &&
                items[..] == old(items[..]) && trail.points == old(trail.points) && hits == []
      ensures isSlashing && g.screen == GameState.Game && g.isGameRunning && !g.isPaused ==>
                velocity == Velocity(pos.x - old(lastMousePos).x, pos.y - old(lastMousePos).y, speed) &&
                lastMousePos == pos &&
                trail.points == BladeTrail.PushBounded(old(trail.points), BladeTrail.TrailPoint(pos.x, pos.y, now), BladeTrail.MaxTrailPoints)
      ensures isSlashing && g.screen == GameState.Game && g.isGameRunning && !g.isPaused && speed >= 2.0 ==>
                Pass(items[..], slashedItems, hits) == CheckPoints(old(items[..]), old(slashedItems), SlashPoints(old(lastMousePos), pos, speed))
      ensures speed < 2.0 ==> items[..] == old(items[..]) && slashedItems == old(slashedItems) && hits == []
    {
      if !isSlashing || g.screen != GameState.Game || !g.isGameRunning || g.isPaused {
        return [];
      }
      var last := lastMousePos;
      velocity := Velocity(pos.x - last.x, pos.y - last.y, speed);
      ghost var orig := items[..];
      ghost var s0 := slashedItems;
      ghost var segment: seq<Point> := [];
      hits := [];
      if speed > 1.0 {
        segment := Samples(last, pos, Steps(speed));
        hits := CheckSegment(items, last, pos, Steps(speed), velocity, isSlashing);
      }
      ghost var mid := items[..];
      ghost var s1 := slashedItems;
      trail.AddTrailPoint(pos.x, pos.y, now);
      var h := CheckSlashCollisions(items, pos, velocity, isSlashing);
      hits := hits + h;
      lastMousePos := pos;
      assert SlashPoints(last, pos, speed) == segment + [pos];
      CheckPointsAppend(orig, s0, segment, [pos]);
      CheckPointsOne(mid, s1, pos);
    }

    /** The sampling loop of `updateSlash`: tests the points `i / steps` of the segment from `last`
        to `pos`, for `i` from 0 to `steps`, with the velocity `v` of the current movement. */
    method CheckSegment(items: array<Item>, last: Point, pos: Point, steps: int, v: Velocity, isSlashing: bool)
      returns (hits: seq<Hit>)
      requires steps > 0
      modifies this, items
      ensures lastMousePos == old(lastMousePos) && velocity == old(velocity) && pendingClears == old(pendingClears)
      ensures !isSlashing || v.speed < 2.0 ==> items[..] == old(items[..]) && slashedItems == old(slashedItems) && hits == []
      ensures isSlashing && v.speed >= 2.0 ==>
                Pass(items[..], slashedItems, hits) == CheckPoints(old(items[..]), old(slashedItems), Samples(last, pos, steps))
    {
      ghost var orig := items[..];
      ghost var s0 := slashedItems;
      ghost var pts := Samples(last, pos, steps);
      hits := [];
      var i := 0;
      while i <= steps
        invariant 0 <= i <= steps + 1
        invariant lastMousePos == old(lastMousePos) && velocity == old(velocity) && pendingClears == old(pendingClears)
        invariant !isSlashing || v.speed < 2.0 ==> items[..] == orig && slashedItems == s0 && hits == []
        invariant isSlashing && v.speed >= 2.0 ==> Pass(items[..], slashedItems, hits) == CheckPoints(orig, s0, pts[..i])
      {
        var t := i as real / steps as real;
        var p := Lerp(last, pos, t);
        assert pts[i] == p;
        ghost var before := items[..];
        ghost var sBefore := slashedItems;
        var h := CheckSlashCollisions(items, p, v, isSlashing);
        if isSlashing && v.speed >= 2.0 {
          assert pts[..i + 1] == pts[..i] + [p];
          CheckPointsAppend(orig, s0, pts[..i], [p]);
          CheckPointsOne(before, sBefore, p);
        }
        hits := hits + h;
        i := i + 1;
      }
      assert pts[..i] == pts;
    }

    /** `endSlash()`: when a gesture was in progress, schedules one more 100 ms timer that
        clears the hit ids; otherwise does nothing. `ClearSlashedItems` is that timer firing. */
    method EndSlash(isSlashing: bool)
      modifies this
      ensures pendingClears == old(pendingClears) + (if isSlashing then 1 else 0)
      ensures slashedItems == old(slashedItems)
      ensures lastMousePos == old(lastMousePos) && velocity == old(velocity)
    {
      if isSlashing {
        pendingClears := pendingClears + 1;
      }
    }

    /** One scheduled clearing timer fires: the hit ids are forgotten, whatever gesture is in
        progress by then, and the timer is no longer pending. */
    method ClearSlashedItems()
      requires pendingClears > 0
      modifies this
      ensures slashedItems == {} && pendingClears == old(pendingClears) - 1
      ensures lastMousePos == old(lastMousePos) && velocity == old(velocity)
    {
      slashedItems := {};
      pendingClears := pendingClears - 1;
    }
  }
}
