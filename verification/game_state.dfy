/** The single-player match state of `useGameState`: a record that React replaces wholesale on
    every transition, plus the `lastPenaltyTime` ref that debounces missed-item penalties.
    The record-to-record transitions are functions; the hook, which owns the ref and scans a
    copy of the heart array backwards, is a class. Timers scheduled with `setTimeout` appear as
    an `endScheduled` flag on the transition's result. */
module GameState {
  import opened Common

  datatype Mode = Classic | Arcade | Zen
  datatype Screen = Start | Game | Results

  datatype State = State(
    screen: Screen,
    mode: Option<Mode>,
    score: int,
    lives: int,
    heartHealth: seq<int>,
    maxHealth: int,
    bestScore: int,
    bestScoreClassic: int,
    bestScoreArcade: int,
    bestScoreZen: int,
    totalScore: int,
    gamesPlayed: int,
    isGameRunning: bool,
    isPaused: bool,
    totalSlashes: int,
    // The record at mount holds `limesSlashed: 0` instead; `citreaSlashed` first appears
    // when `startGame` sets it to 0, and no transition reads `limesSlashed`.
    citreaSlashed: int,
    bombsHit: int,
    gameStartTime: Option<int>,
    timeRemaining: Option<int>,
    combo: int,
    maxCombo: int,
    lastSlashTime: int)

  /** A transition's new record, and whether it scheduled the end of the game. */
  datatype Step = Step(next: State, endScheduled: bool)

  /** A combo popup request: the new combo and the bonus points it earned. */
  datatype ComboPopup = ComboPopup(combo: int, bonus: int)

  datatype ScoreStep = ScoreStep(next: State, popup: Option<ComboPopup>)

  const FullHearts: seq<int> := [100, 100, 100]
  const ComboWindowMs := 2000
  const PenaltyDebounceMs := 1000

  function Max(a: int, b: int): int { if a >= b then a else b }

  /** Lives a mode starts with; the record before any game (no mode yet) holds 3. */
  function InitialLives(mode: Option<Mode>): (n: int)
    ensures n == 3 || n == 999
    ensures n == 999 <==> mode == Some(Zen)
  {
    if mode == Some(Zen) then 999 else 3
  }

  /** The countdown a mode starts with: none for classic, 60 s for arcade, 90 s for zen. */
  function InitialTime(mode: Mode): (t: Option<int>)
    ensures t.None? <==> mode == Classic
    ensures t.Some? ==> t.value > 0
  {
    match mode
    case Classic => None
    case Arcade => Some(60)
    case Zen => Some(90)
  }

  /** The record at mount; the stored values are the persisted counters (0 when absent). The
      source's record has a `limesSlashed` counter at 0 and no `citreaSlashed` yet; here the
      `citreaSlashed` slot holds that 0, which `startGame` resets to 0 before any read. */
  function Initial(best: nat, bestClassic: nat, bestArcade: nat, bestZen: nat, total: nat, games: nat): (s: State)
    ensures Inv(s)
    ensures s.screen == Start && !s.isGameRunning && s.mode == None
  {
    State(Start, None, 0, 3, FullHearts, 100, best, bestClassic, bestArcade, bestZen, total, games,
          false, false, 0, 0, 0, None, None, 0, 0, 0)
  }

  /** Number of hearts that still have health. */
  function CountPositive(h: seq<int>): (n: nat)
    ensures n <= |h|
  {
    if h == [] then 0 else CountPositive(h[..|h| - 1]) + (if h[|h| - 1] > 0 then 1 else 0)
  }

  /** The index of the last heart that still has health, if any. */
  function LastPositive(h: seq<int>): (r: Option<nat>)
    ensures r.Some? ==> r.value < |h| && h[r.value] > 0 && forall j :: r.value < j < |h| ==> h[j] <= 0
    ensures r.None? ==> forall j :: 0 <= j < |h| ==> h[j] <= 0
  {
    if h == [] then None
    else if h[|h| - 1] > 0 then Some(|h| - 1)
    else LastPositive(h[..|h| - 1])
  }

  /** The heart array after one heart is lost: the last positive heart becomes 0. */
  function ClearLast(h: seq<int>): (r: seq<int>)
    ensures |r| == |h|
  {
    match LastPositive(h)
    case None => h
    case Some(i) => h[i := 0]
  }

  /** Losing a heart removes exactly one heart that had health, or none when all are empty. */
  lemma {:induction false} ClearLastCount(h: seq<int>)
    ensures CountPositive(ClearLast(h)) == if CountPositive(h) > 0 then CountPositive(h) - 1 else 0
  {
    if h != [] {
      var init := h[..|h| - 1];
      if h[|h| - 1] > 0 {
        assert ClearLast(h) == h[|h| - 1 := 0];
        assert ClearLast(h)[..|h| - 1] == init;
      } else {
        ClearLastCount(init);
        assert LastPositive(h) == LastPositive(init);
        assert ClearLast(h) == ClearLast(init) + [h[|h| - 1]];
        assert ClearLast(h)[..|h| - 1] == ClearLast(init);
      }
    }
  }

  /** No heart is positive exactly when the count is zero. */
  lemma {:induction false} CountPositiveZero(h: seq<int>)
    ensures CountPositive(h) == 0 <==> forall j :: 0 <= j < |h| ==> h[j] <= 0
  {
    if h != [] {
      CountPositiveZero(h[..|h| - 1]);
    }
  }

  /** What every reachable record satisfies: three hearts of at most full health, the positive
      hearts tracking the lives lost since the mode's start, and a combo bounded by its maximum. */
  ghost predicate Inv(s: State) {
    |s.heartHealth| == 3 &&
    (forall j :: 0 <= j < 3 ==> 0 <= s.heartHealth[j] <= 100) &&
    s.lives >= 0 &&
    CountPositive(s.heartHealth) == Max(0, s.lives - (InitialLives(s.mode) - 3)) &&
    0 <= s.combo <= s.maxCombo &&
    (s.timeRemaining.Some? ==> s.timeRemaining.value >= 0)
  }

  /** `startGame(mode)`: a fresh run of the given mode; lifetime counters and bests are kept. */
  function StartGame(s: State, mode: Mode, now: int): (r: State)
    ensures r.screen == Game && r.mode == Some(mode) && r.isGameRunning && !r.isPaused
    ensures r.lives == InitialLives(Some(mode)) && r.timeRemaining == InitialTime(mode)
    ensures r.heartHealth == [100, 100, 100] && CountPositive(r.heartHealth) == 3
    ensures r.score == 0 && r.combo == 0 && r.maxCombo == 0 && r.lastSlashTime == 0
    ensures r.totalSlashes == 0 && r.citreaSlashed == 0 && r.bombsHit == 0 && r.gameStartTime == Some(now)
    ensures r.bestScore == s.bestScore && r.bestScoreClassic == s.bestScoreClassic
    ensures r.bestScoreArcade == s.bestScoreArcade && r.bestScoreZen == s.bestScoreZen
    ensures r.totalScore == s.totalScore && r.gamesPlayed == s.gamesPlayed
    ensures Inv(s) ==> Inv(r)
  {
    s.(screen := Game, mode := Some(mode), score := 0, lives := InitialLives(Some(mode)),
       heartHealth := FullHearts, isGameRunning := true, isPaused := false, totalSlashes := 0,
       citreaSlashed := 0, bombsHit := 0, gameStartTime := Some(now),
       timeRemaining := InitialTime(mode), combo := 0, maxCombo := 0, lastSlashTime := 0)
  }

  /** `endGame`: records the run in the per-mode best, the overall best and the lifetime
      counters, and shows the results screen. Nothing about the run itself changes. */
  function EndGame(s: State): (r: State)
    ensures r.bestScore == Max(s.score, s.bestScore)
    ensures r.bestScoreClassic == if s.mode == Some(Classic) then Max(s.score, s.bestScoreClassic) else s.bestScoreClassic
    ensures r.bestScoreArcade == if s.mode == Some(Arcade) then Max(s.score, s.bestScoreArcade) else s.bestScoreArcade
    ensures r.bestScoreZen == if s.mode == Some(Zen) then Max(s.score, s.bestScoreZen) else s.bestScoreZen
    ensures r.totalScore == s.totalScore + s.score && r.gamesPlayed == s.gamesPlayed + 1
    ensures r.screen == Results && !r.isGameRunning && !r.isPaused
    ensures r.score == s.score && r.mode == s.mode && r.lives == s.lives && r.heartHealth == s.heartHealth
    ensures r.combo == s.combo && r.maxCombo == s.maxCombo && r.timeRemaining == s.timeRemaining
    ensures r == s.(bestScore := r.bestScore, bestScoreClassic := r.bestScoreClassic,
                    bestScoreArcade := r.bestScoreArcade, bestScoreZen := r.bestScoreZen,
                    totalScore := r.totalScore, gamesPlayed := r.gamesPlayed,
                    screen := Results, isGameRunning := false, isPaused := false)
    ensures Inv(s) ==> Inv(r)
  {
    var classic := if s.mode == Some(Classic) && s.score > s.bestScoreClassic then s.score else s.bestScoreClassic;
    var arcade := if s.mode == Some(Arcade) && s.score > s.bestScoreArcade then s.score else s.bestScoreArcade;
    var zen := if s.mode == Some(Zen) && s.score > s.bestScoreZen then s.score else s.bestScoreZen;
    var best := if s.score > s.bestScore then s.score else s.bestScore;
    s.(bestScoreClassic := classic, bestScoreArcade := arcade, bestScoreZen := zen,
       totalScore := s.totalScore + s.score, gamesPlayed := s.gamesPlayed + 1,
       screen := Results, isGameRunning := false, isPaused := false, bestScore := best)
  }

  /** After `endGame` the stored best is at least the finished run's score. */
  lemma EndGameBestCoversScore(s: State)
    ensures EndGame(s).score <= EndGame(s).bestScore
    ensures EndGame(s).bestScore >= s.bestScore
  {
  }

  /** The combo multiplier: one more for every three consecutive hits, capped at 5. */
  function Multiplier(combo: int): (m: int)
    requires combo >= 0
    ensures 1 <= m <= 5
    ensures combo < 3 ==> m == 1
    ensures combo >= 12 ==> m == 5
  {
    if combo / 3 + 1 < 5 then combo / 3 + 1 else 5
  }

  lemma MultiplierMonotone(a: int, b: int)
    requires 0 <= a <= b
    ensures Multiplier(a) <= Multiplier(b)
  {
  }

  /** The combo after a hit at `now`: it continues strictly inside the 2000 ms window. */
  function NextCombo(s: State, now: int): (c: int)
    requires s.combo >= 0
    ensures c >= 1
    ensures now - s.lastSlashTime >= ComboWindowMs ==> c == 1
    ensures now - s.lastSlashTime < ComboWindowMs ==> c == s.combo + 1
  {
    if now - s.lastSlashTime < ComboWindowMs then s.combo + 1 else 1
  }

  /** `updateScore(points, onComboPopup)` at time `now`; `hasCallback` says whether a popup
      callback was given. */
  function UpdateScore(s: State, points: int, now: int, hasCallback: bool): (r: ScoreStep)
    requires s.combo >= 0
    ensures r.next.combo == NextCombo(s, now)
    ensures r.next.score == s.score + points * Multiplier(r.next.combo)
    ensures r.next.citreaSlashed == s.citreaSlashed + 1 && r.next.totalSlashes == s.totalSlashes + 1
    ensures r.next.maxCombo >= s.maxCombo && r.next.maxCombo >= r.next.combo
    ensures r.next.maxCombo == s.maxCombo || r.next.maxCombo == r.next.combo
    ensures r.next.lastSlashTime == now
    ensures r.popup.Some? <==> hasCallback && points > 0 && Multiplier(r.next.combo) > 1
    ensures r.popup.Some? ==> r.popup.value == ComboPopup(r.next.combo, points * (Multiplier(r.next.combo) - 1))
    ensures r.next.lives == s.lives && r.next.heartHealth == s.heartHealth && r.next.mode == s.mode
    ensures r.next.bombsHit == s.bombsHit && r.next.timeRemaining == s.timeRemaining
    ensures r.next == s.(score := r.next.score, citreaSlashed := r.next.citreaSlashed,
                         totalSlashes := r.next.totalSlashes, combo := r.next.combo,
                         maxCombo := r.next.maxCombo, lastSlashTime := now)
    ensures Inv(s) ==> Inv(r.next)
  {
    var combo := NextCombo(s, now);
    var mult := Multiplier(combo);
    var bonus := points * (mult - 1);
    var popup := if mult > 1 && bonus > 0 && hasCallback then Some(ComboPopup(combo, bonus)) else None;
    assert bonus > 0 <==> points > 0 && mult > 1;
    ScoreStep(s.(score := s.score + points + bonus, citreaSlashed := s.citreaSlashed + 1,
                 totalSlashes := s.totalSlashes + 1, combo := combo,
                 maxCombo := Max(s.maxCombo, combo), lastSlashTime := now),
              popup)
  }

  /** A hit exactly 2000 ms after the previous one starts a new combo. */
  lemma ComboWindowBoundary(s: State)
    requires s.combo >= 0
    ensures UpdateScore(s, 10, s.lastSlashTime + ComboWindowMs, false).next.combo == 1
    ensures UpdateScore(s, 10, s.lastSlashTime + ComboWindowMs - 1, false).next.combo == s.combo + 1
  {
  }

  /** The effect of losing one life, shared by a bomb hit and an accepted missed-item penalty:
      with no lives left nothing changes; otherwise one life and one heart go and the combo
      breaks, and the end of the game is scheduled when the last life went. */
  function LoseOne(s: State, byBomb: bool): (r: Step)
    ensures s.lives <= 0 ==> r == Step(s, false)
    ensures s.lives > 0 ==> r.next.lives == s.lives - 1 && r.next.combo == 0
    ensures s.lives > 0 ==> r.next.heartHealth == ClearLast(s.heartHealth)
    ensures s.lives > 0 ==> r.endScheduled == (s.lives - 1 <= 0)
    ensures s.lives > 0 ==> r.next.bombsHit == (if byBomb then s.bombsHit + 1 else s.bombsHit)
    ensures s.lives > 0 ==> r.next.totalSlashes == (if byBomb then s.totalSlashes + 1 else s.totalSlashes)
    ensures r.next.score == s.score && r.next.mode == s.mode && r.next.maxCombo == s.maxCombo
    ensures r.next.bestScore == s.bestScore && r.next.timeRemaining == s.timeRemaining
    ensures r.next == s.(lives := r.next.lives, heartHealth := r.next.heartHealth, combo := r.next.combo,
                         bombsHit := r.next.bombsHit, totalSlashes := r.next.totalSlashes)
    ensures Inv(s) ==> Inv(r.next)
  {
    if s.lives <= 0 then Step(s, false)
    else
      var hearts := ClearLast(s.heartHealth);
      ClearLastCount(s.heartHealth);
      var next := s.(lives := s.lives - 1, heartHealth := hearts, combo := 0,
                     bombsHit := if byBomb then s.bombsHit + 1 else s.bombsHit,
                     totalSlashes := if byBomb then s.totalSlashes + 1 else s.totalSlashes);
      Step(next, s.lives - 1 <= 0)
  }

  /** `loseLife`: a bomb hit. */
  function LoseLife(s: State): (r: Step)
    ensures r == LoseOne(s, true)
  {
    LoseOne(s, true)
  }

  /** In classic and arcade, where lives and hearts start equal, a lost life is always a lost heart. */
  lemma LoseLifeLosesHeart(s: State)
    requires Inv(s) && s.mode != Some(Zen) && s.lives > 0
    ensures CountPositive(LoseLife(s).next.heartHealth) == CountPositive(s.heartHealth) - 1
    ensures CountPositive(LoseLife(s).next.heartHealth) == LoseLife(s).next.lives
  {
    ClearLastCount(s.heartHealth);
  }

  /** `togglePause`: flips the pause flag and nothing else. */
  function TogglePause(s: State): (r: State)
    ensures r.isPaused == !s.isPaused
    ensures r.(isPaused := s.isPaused) == s
    ensures Inv(s) ==> Inv(r)
  {
    s.(isPaused := !s.isPaused)
  }

  /** `decrementTimer`: one second off a running countdown, clamped at zero; the end of the
      game is scheduled exactly when the countdown reaches zero. */
  function DecrementTimer(s: State): (r: Step)
    ensures s.timeRemaining.None? || s.timeRemaining.value <= 0 ==> r == Step(s, false)
    ensures s.timeRemaining.Some? && s.timeRemaining.value > 0 ==>
              r.next == s.(timeRemaining := Some(Max(0, s.timeRemaining.value - 1))) &&
              r.endScheduled == (s.timeRemaining.value == 1)
    ensures Inv(s) ==> Inv(r.next)
  {
    if s.timeRemaining.None? || s.timeRemaining.value <= 0 then Step(s, false)
    else
      var t := s.timeRemaining.value - 1;
      if t <= 0 then Step(s.(timeRemaining := Some(0)), true)
      else Step(s.(timeRemaining := Some(t)), false)
  }

  /** `n` timer ticks in a row, with the number of end-of-game schedules they made. */
  function Ticks(s: State, n: nat): (r: (State, nat))
    decreases n
  {
    if n == 0 then (s, 0)
    else
      var st := DecrementTimer(s);
      var rest := Ticks(st.next, n - 1);
      (rest.0, rest.1 + if st.endScheduled then 1 else 0)
  }

  /** A countdown of `t` seconds reaches zero after `t` ticks and schedules the end exactly
      once, however many further ticks arrive. */
  lemma {:induction false} CountdownEndsOnce(s: State, t: nat, extra: nat)
    requires s.timeRemaining == Some(t)
    ensures Ticks(s, t + extra).0 == s.(timeRemaining := Some(0))
    ensures Ticks(s, t + extra).1 == if t > 0 then 1 else 0
    decreases t + extra
  {
    if t == 0 {
      if extra > 0 {
        assert DecrementTimer(s) == Step(s, false);
        CountdownEndsOnce(s, 0, extra - 1);
      } else {
        assert s.(timeRemaining := Some(0)) == s;
      }
    } else {
      var st := DecrementTimer(s);
      assert st.next == s.(timeRemaining := Some(t - 1));
      CountdownEndsOnce(st.next, t - 1, extra);
      assert st.next.(timeRemaining := Some(0)) == s.(timeRemaining := Some(0));
    }
  }

  /** Zeroes the last heart that still has health, scanning from the end as the hook does. */
  method ClearLastActiveHeart(hearts: array<int>)
    modifies hearts
    ensures hearts[..] == ClearLast(old(hearts[..]))
  {
    ghost var h := hearts[..];
    var i := hearts.Length - 1;
    while i >= 0
      invariant -1 <= i < hearts.Length
      invariant hearts[..] == h
      invariant forall j :: i < j < hearts.Length ==> h[j] <= 0
      decreases i + 1
    {
      if hearts[i] > 0 {
        LastPositiveIs(h, i);
        hearts[i] := 0;
        return;
      }
      i := i - 1;
    }
    assert LastPositive(h) == None;
  }

  /** A positive heart with only empty hearts after it is the last positive one. */
  lemma {:induction false} LastPositiveIs(h: seq<int>, i: nat)
    requires i < |h| && h[i] > 0
    requires forall j :: i < j < |h| ==> h[j] <= 0
    ensures LastPositive(h) == Some(i)
  {
  }

  /** The hook: the current record, and the ref holding the time of the last accepted
      missed-item penalty. */
  class GameStateHook {
    var state: State
    var lastPenaltyTime: int

    constructor (best: nat, bestClassic: nat, bestArcade: nat, bestZen: nat, total: nat, games: nat)
      ensures state == Initial(best, bestClassic, bestArcade, bestZen, total, games)
      ensures lastPenaltyTime == 0
    {
      state := Initial(best, bestClassic, bestArcade, bestZen, total, games);
      lastPenaltyTime := 0;
    }

    /** `startGame`: resets the debounce and starts a fresh run. */
    method Start(mode: Mode, now: int)
      modifies this
      ensures lastPenaltyTime == 0
      ensures state == StartGame(old(state), mode, now)
    {
      lastPenaltyTime := 0;
      state := StartGame(state, mode, now);
    }

    /** Applies a lost life to the record, scanning a copy of the heart array. */
    method LoseOneInPlace(byBomb: bool) returns (endScheduled: bool)
      modifies this
      ensures Step(state, endScheduled) == LoseOne(old(state), byBomb)
      ensures lastPenaltyTime == old(lastPenaltyTime)
    {
      if state.lives <= 0 {
        return false;
      }
      var hs := state.heartHealth;
      var copy := new int[|hs|](j => if 0 <= j < |hs| then hs[j] else 0);
      assert copy[..] == hs;
      ClearLastActiveHeart(copy);
      state := state.(lives := state.lives - 1, heartHealth := copy[..], combo := 0,
                      bombsHit := if byBomb then state.bombsHit + 1 else state.bombsHit,
                      totalSlashes := if byBomb then state.totalSlashes + 1 else state.totalSlashes);
      endScheduled := state.lives <= 0;
    }

    /** `loseLife`: a bomb hit. */
    method LoseLifeToBomb() returns (endScheduled: bool)
      modifies this
      ensures Step(state, endScheduled) == LoseLife(old(state))
      ensures lastPenaltyTime == old(lastPenaltyTime)
    {
      endScheduled := LoseOneInPlace(true);
    }

    /** `loseLiveFromMissedToken` at time `now`: a call within 1000 ms of the last accepted
        one is ignored; an accepted call moves the debounce mark even when no life is left. */
    method LoseLiveFromMissedToken(now: int) returns (accepted: bool, endScheduled: bool)
      modifies this
      ensures accepted == (now - old(lastPenaltyTime) >= PenaltyDebounceMs)
      ensures !accepted ==> state == old(state) && lastPenaltyTime == old(lastPenaltyTime) && !endScheduled
      ensures accepted ==> lastPenaltyTime == now && Step(state, endScheduled) == LoseOne(old(state), false)
    {
      if now - lastPenaltyTime < PenaltyDebounceMs {
        return false, false;
      }
      lastPenaltyTime := now;
      accepted := true;
      endScheduled := LoseOneInPlace(false);
    }
  }

  /** Two missed-item penalties less than a second apart cost at most one life. */
  method DebouncedPair(hook: GameStateHook, t1: int, t2: int) returns (livesLost: int)
    requires t1 <= t2 < t1 + PenaltyDebounceMs
    modifies hook
    ensures livesLost <= 1
    ensures livesLost == old(hook.state.lives) - hook.state.lives
  {
    var before := hook.state.lives;
    var a1, e1 := hook.LoseLiveFromMissedToken(t1);
    var mid := hook.state.lives;
    assert mid >= before - 1;
    var a2, e2 := hook.LoseLiveFromMissedToken(t2);
    assert a1 ==> !a2;
    livesLost := before - hook.state.lives;
  }
}
