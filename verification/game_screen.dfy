/** The timing logic of the game screen: the difficulty bands of the dynamic spawner, the
    spawner's 50 ms check with its local `lastSpawn`, the guard under which the loops run, the
    auto-pause effect with its `wasVisibleRef`, and the excess-item threshold.

    Each scheduled spawn appears as its delay in milliseconds; `Math.random()` is the parameter
    `random` in [0, 1), and `Date.now()` is `now`. */
module GameScreen {
  import opened Common
  import GameState
  import GameLoop

  /** One row of the difficulty table: the possible wave sizes, the time between waves and the
      delay between the spawns of one wave. */
  datatype Band = Band(minWave: nat, maxWave: nat, interval: nat, stagger: nat)

  /** The band for `elapsed` milliseconds since the game started. */
  function BandAt(elapsed: int): (b: Band)
    ensures 1 <= b.minWave <= b.maxWave <= 5
    ensures 1500 <= b.interval <= 3000
    ensures b.stagger <= 200
    ensures elapsed < 15000 <==> b == Band(1, 1, 3000, 0)
    ensures elapsed >= 90000 <==> b == Band(3, 5, 1500, 100)
  {
    if elapsed < 15000 then Band(1, 1, 3000, 0)
    else if elapsed < 30000 then Band(1, 2, 2500, 200)
    else if elapsed < 50000 then Band(1, 2, 2200, 180)
    else if elapsed < 70000 then Band(1, 3, 2000, 150)
    else if elapsed < 90000 then Band(2, 4, 1800, 130)
    else Band(3, 5, 1500, 100)
  }

  /** The game only gets harder: later, waves come no less often and are no smaller, and from
      the end of the tutorial band onwards the spawns of a wave come no further apart. */
  lemma BandsHarden(e1: int, e2: int)
    requires e1 <= e2
    ensures BandAt(e2).interval <= BandAt(e1).interval
    ensures BandAt(e1).minWave <= BandAt(e2).minWave
    ensures BandAt(e1).maxWave <= BandAt(e2).maxWave
    ensures e1 >= 15000 ==> BandAt(e2).stagger <= BandAt(e1).stagger
  {
  }

  /** The wave size drawn from `random` in the band for `elapsed`. */
  function WaveSize(elapsed: int, random: real): (n: nat)
    requires 0.0 <= random < 1.0
    ensures BandAt(elapsed).minWave <= n <= BandAt(elapsed).maxWave
  {
    if elapsed < 15000 then 1
    else if elapsed < 30000 then (if random < 0.8 then 1 else 2)
    else if elapsed < 50000 then (if random < 0.5 then 1 else 2)
    else if elapsed < 70000 then (if random < 0.3 then 1 else if random < 0.7 then 2 else 3)
    else
      var k := ThirdOf(random);
      if elapsed < 90000 then 2 + k else 3 + k
  }

  /** `Math.floor(random * 3)` for a draw in [0, 1). */
  function ThirdOf(random: real): (k: nat)
    requires 0.0 <= random < 1.0
    ensures k <= 2
    ensures k as real <= random * 3.0 < k as real + 1.0
  {
    var f := (random * 3.0).Floor;
    assert 0 <= f <= 2;
    f
  }

  /** Every size a band allows is drawn for some value of the random draw. */
  lemma EveryWaveSizeOccurs(elapsed: int, n: nat)
    requires BandAt(elapsed).minWave <= n <= BandAt(elapsed).maxWave
    ensures exists random: real :: 0.0 <= random < 1.0 && WaveSize(elapsed, random) == n
  {
    var b := BandAt(elapsed);
    var r: real;
    if elapsed < 15000 {
      r := 0.0;
    } else if elapsed < 30000 {
      r := if n == 1 then 0.0 else 0.9;
    } else if elapsed < 50000 {
      r := if n == 1 then 0.0 else 0.6;
    } else if elapsed < 70000 {
      r := if n == 1 then 0.0 else if n == 2 then 0.5 else 0.9;
    } else {
      var k := n - b.minWave;
      r := k as real / 3.0;
      assert ThirdOf(r) == k;
    }
    assert WaveSize(elapsed, r) == n;
  }

  /** The delays of one wave of `n` spawns, `stagger` apart, the first at once. */
  function WaveDelays(n: nat, stagger: nat): (d: seq<int>)
    ensures |d| == n
    ensures forall i :: 0 <= i < n ==> d[i] == i * stagger
  {
    seq(n, i => i * stagger)
  }

  /** The loops of the game screen run only in a running, unpaused game on a visible tab. */
  predicate LoopsActive(g: GameState.State, visible: bool) {
    g.isGameRunning && !g.isPaused && visible
  }

  /** What one 50 ms check of the spawner does: the spawns it schedules and the new `lastSpawn`. */
  datatype SpawnCheck = SpawnCheck(delays: seq<int>, lastSpawn: int)

  /** The decision of one check of the spawner that runs while the loops are active. */
  function SpawnerStep(lastSpawn: int, gameStartTime: Option<int>, now: int, random: real): (r: SpawnCheck)
    requires 0.0 <= random < 1.0
    ensures gameStartTime.None? ==> r == SpawnCheck([], lastSpawn)
    ensures gameStartTime.Some? ==>
              var b := BandAt(now - gameStartTime.value);
              (now - lastSpawn >= b.interval <==> r.delays != []) &&
              (r.delays != [] ==> r.lastSpawn == now && b.minWave <= |r.delays| <= b.maxWave) &&
              (r.delays == [] ==> r.lastSpawn == lastSpawn)
    ensures forall i :: 0 <= i < |r.delays| ==> r.delays[i] == i * BandAt(now - gameStartTime.value).stagger
  {
    match gameStartTime
    case None => SpawnCheck([], lastSpawn)
    case Some(start) =>
      var elapsed := now - start;
      var b := BandAt(elapsed);
      if now - lastSpawn >= b.interval then SpawnCheck(WaveDelays(WaveSize(elapsed, random), b.stagger), now)
      else SpawnCheck([], lastSpawn)
  }

  /** Two waves are at least the later band's interval apart, and so never closer than 1.5 s;
      between two checks closer than 1.5 s, at most one fires. */
  lemma WavesSpaced(last0: int, start: int, now1: int, r1: real, now2: int, r2: real)
    requires 0.0 <= r1 < 1.0 && 0.0 <= r2 < 1.0
    requires SpawnerStep(last0, Some(start), now1, r1).delays != []
    ensures var s1 := SpawnerStep(last0, Some(start), now1, r1);
      var s2 := SpawnerStep(s1.lastSpawn, Some(start), now2, r2);
      s2.delays != [] ==> now2 - now1 >= BandAt(now2 - start).interval >= 1500
  {
  }

  /** A check that comes before the band's interval has passed since the spawner was (re)started
      at `restartAt` fires no wave and keeps `restartAt`; with intervals of at least 1.5 s, an
      effect re-run more often than that never lets a wave fire. */
  lemma WaveHeldOffByRestart(restartAt: int, start: int, now: int, r: real)
    requires 0.0 <= r < 1.0
    requires now - restartAt < 1500
    ensures SpawnerStep(restartAt, Some(start), now, r) == SpawnCheck([], restartAt)
  {
  }

  /** The local state of the `dynamicSpawner` interval. */
  class Spawner {
    var lastSpawn: int

    /** The effect starts the spawner with `lastSpawn = Date.now()`. */
    constructor (now: int)
      ensures lastSpawn == now
    {
      lastSpawn := now;
    }

    /** A re-run of the effect: the old interval is cleared and a new one starts with
        `lastSpawn = Date.now()`. The effect re-runs whenever one of its dependencies changes,
        among them `spawnItem`, whose identity follows the item count, so every spawn, slice or
        removal of an item restarts the wait for the next wave. Waves already scheduled with
        `setTimeout` are not cancelled. */
    method Restart(now: int)
      modifies this
      ensures lastSpawn == now
    {
      lastSpawn := now;
    }

    /** One check: schedules a staggered wave when the band's interval has passed since the last
        wave, and nothing while the loops are stopped or before the game has a start time. */
    method Check(g: GameState.State, visible: bool, now: int, random: real) returns (delays: seq<int>)
      requires 0.0 <= random < 1.0
      modifies this
      ensures !LoopsActive(g, visible) ==> delays == [] && lastSpawn == old(lastSpawn)
      ensures LoopsActive(g, visible) ==>
                SpawnCheck(delays, lastSpawn) == SpawnerStep(old(lastSpawn), g.gameStartTime, now, random)
    {
      delays := [];
      if !LoopsActive(g, visible) || g.gameStartTime.None? {
        return;
      }
      var elapsed := now - g.gameStartTime.value;
      var b := BandAt(elapsed);
      var waveSize := WaveSize(elapsed, random);
      if now - lastSpawn >= b.interval {
        var i := 0;
        while i < waveSize
          invariant 0 <= i <= waveSize
          invariant delays == WaveDelays(i, b.stagger)
        {
          delays := delays + [i * b.stagger];
          i := i + 1;
        }
        lastSpawn := now;
      }
    }
  }

  /** `wasVisibleRef` and the auto-pause effect. */
  class AutoPause {
    var wasVisible: bool

    constructor (isVisible: bool)
      ensures wasVisible == isVisible
    {
      wasVisible := isVisible;
    }

    /** The effect run for the current visibility: asks for a pause toggle exactly when a
        running, unpaused game's tab goes from visible to hidden, and remembers the visibility. */
    method OnVisibility(g: GameState.State, isVisible: bool) returns (toggle: bool)
      modifies this
      ensures toggle == AutoPauses(old(wasVisible), isVisible, g)
      ensures wasVisible == isVisible
    {
      toggle := false;
      if wasVisible != isVisible && g.isGameRunning {
        if !isVisible && !g.isPaused {
          toggle := true;
        }
      }
      wasVisible := isVisible;
    }
  }

  /** Whether the auto-pause effect toggles: only on a hide, only in a running game, and only
      when that toggle pauses it, so it never resumes a paused game. */
  function AutoPauses(wasVisible: bool, isVisible: bool, g: GameState.State): (r: bool)
    ensures r <==> wasVisible && !isVisible && g.isGameRunning && !g.isPaused
    ensures r ==> GameState.TogglePause(g).isPaused
  {
    wasVisible != isVisible && g.isGameRunning && !isVisible && !g.isPaused
  }

  /** The count above which the screen asks for a cleanup. */
  const CleanupThreshold: nat := 15

  predicate NeedsCleanup(itemCount: int) {
    itemCount > CleanupThreshold
  }

  /** A cleanup the threshold triggers brings the list back to the cap, so it is not triggered
      again until the list grows by more than three items. */
  lemma CleanupSettles(items: seq<GameLoop.Item>)
    requires NeedsCleanup(|items|)
    ensures |GameLoop.CleanupExcess(items)| == GameLoop.MaxItems
    ensures !NeedsCleanup(|GameLoop.CleanupExcess(items)| + 3)
  {
  }
}
