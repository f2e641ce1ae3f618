/** The results screen: the "new best" badge, the one-shot submission of a multiplayer score,
    and the timer-driven polling of the chain for the match result (`fetchResultWithRetry`).

    Each expiry of a polling timer is one call of `Fire`; what the chain answered to the read
    and to a finalize request are its parameters. The polling that the screen runs finalizes a
    stuck game at most once; `PollStep` keeps the restart as the screen's code writes it. */
module ResultsScreen {
  import opened Common
  import GameState
  import PushChainService

  type GameResult = PushChainService.GameResult

  /** The badge as written: the record the screen receives is the one `endGame` produced. */
  predicate IsNewBestAsWritten(shown: GameState.State) {
    shown.score > shown.bestScore
  }

  /** As written the badge never shows: `endGame` has already raised the best to the score. */
  lemma NewBestNeverShown(s: GameState.State)
    ensures !IsNewBestAsWritten(GameState.EndGame(s))
  {
    GameState.EndGameBestCoversScore(s);
  }

  /** A run that beat the stored best, for which the badge as written stays hidden. */
  lemma NewBestLostOnResults()
    ensures exists s: GameState.State :: NewBest(s) && !IsNewBestAsWritten(GameState.EndGame(s))
  {
    var s := GameState.Initial(5, 0, 0, 0, 0, 0).(score := 10);
    assert NewBest(s);
    NewBestNeverShown(s);
  }

  /** The badge computed from the finished run before `endGame` stores it: a new best exactly
      when `endGame` raises the stored best, which then becomes the run's score. */
  function NewBest(finished: GameState.State): (r: bool)
    ensures r <==> GameState.EndGame(finished).bestScore > finished.bestScore
    ensures r ==> GameState.EndGame(finished).bestScore == finished.score
    ensures !r ==> GameState.EndGame(finished).bestScore == finished.bestScore
  {
    finished.score > finished.bestScore
  }

  /** A pending timer of the polling: which attempt it runs and how many the round allows. */
  datatype Attempt = Attempt(attempt: int, maxAttempts: int)

  /** The polling state: the pending timer (none once polling has stopped), the result on
      screen, the finalize requests sent, and whether the one stuck-game repair has been used. */
  datatype Poll = Poll(pending: Option<Attempt>, shown: Option<GameResult>, finalizeCalls: nat,
                       repaired: bool)

  /** What one read of the game answered: the read threw (no contract), or it returned a
      result, `None` when the record could not be read. */
  datatype Fetch = FetchThrew | Fetched(result: Option<GameResult>)

  /** One timer expiry: the read's answer, and what a finalize request would answer. */
  datatype Event = Event(fetch: Fetch, finalize: PushChainService.FinalizeAnswer)

  /** The polling started after a submission: attempt 1 of 10, nothing shown. */
  const StartPoll: Poll := Poll(Some(Attempt(1, 10)), None, 0, false)

  /** The polling of a screen that has not submitted. */
  const NoPoll: Poll := Poll(None, None, 0, false)

  /** The delay before an attempt: 4 s before the first of a round, 2 s before the others. */
  function Delay(attempt: int): (d: int)
    ensures d == 4000 || d == 2000
    ensures d == 4000 <==> attempt == 1
  {
    if attempt == 1 then 4000 else 2000
  }

  /** Both players finished and the contract named the winner. */
  predicate Settled(r: GameResult) {
    r.bothPlayersFinished && r.hasWinner
  }

  /** Both players finished but the game was never finalized. */
  predicate Stuck(r: GameResult) {
    r.bothPlayersFinished && !r.hasWinner
  }

  /** Schedules the next attempt of the round, or stops when the round is used up. */
  function Retry(p: Poll, a: int, m: int): Poll {
    p.(pending := if a < m then Some(Attempt(a + 1, m)) else None)
  }

  /** The last attempt of a round that found no settled game: shows what was read, if anything. */
  function GiveUp(p: Poll, f: Fetch): Poll {
    p.(pending := None, shown := if f.Fetched? && f.result.Some? then f.result else p.shown)
  }

  /** One timer expiry as the screen's code is written: a stuck game is finalized and polling
      restarts at attempt 1 of 5 whenever the finalize request returns, and
      `finalizeStuckGame` returns for every answer but a missing contract. */
  function PollStep(p: Poll, e: Event): (q: Poll)
    requires p.pending.Some?
    ensures e.fetch.Fetched? && e.fetch.result.Some? && Stuck(e.fetch.result.value) &&
            e.finalize != PushChainService.NoContract ==>
              q.pending == Some(Attempt(1, 5)) && q.finalizeCalls == p.finalizeCalls + 1
  {
    var a := p.pending.value.attempt;
    var m := p.pending.value.maxAttempts;
    match e.fetch
    case FetchThrew => Retry(p, a, m)
    case Fetched(None) => if a < m then Retry(p, a, m) else GiveUp(p, e.fetch)
    case Fetched(Some(r)) =>
      if Settled(r) then p.(pending := None, shown := Some(r))
      else if Stuck(r) then
        var p1 := p.(finalizeCalls := p.finalizeCalls + 1);
        if e.finalize == PushChainService.NoContract then Retry(p1, a, m)
        else p1.(pending := Some(Attempt(1, 5)))
      else if a < m then Retry(p, a, m)
      else GiveUp(p, e.fetch)
  }

  /** The polling driven by a sequence of timer expiries; expiries after it stopped do nothing. */
  function Run(p: Poll, events: seq<Event>): Poll
    decreases |events|
  {
    if events == [] || p.pending.None? then p else Run(PollStep(p, events[0]), events[1..])
  }

  function Repeat(e: Event, n: nat): (s: seq<Event>)
    ensures |s| == n
  {
    if n == 0 then [] else [e] + Repeat(e, n - 1)
  }

  /** As written, a stuck game whose finalize request keeps failing (a reverted transaction,
      say) is polled forever: after any number of expiries polling is still pending, and every
      expiry has sent another finalize request. */
  lemma {:induction false} StuckGamePollsForever(p: Poll, r: GameResult, fin: PushChainService.FinalizeAnswer, n: nat)
    requires p.pending.Some?
    requires Stuck(r) && fin != PushChainService.NoContract
    ensures Run(p, Repeat(Event(Fetched(Some(r)), fin), n)).pending.Some?
    ensures Run(p, Repeat(Event(Fetched(Some(r)), fin), n)).finalizeCalls == p.finalizeCalls + n
    decreases n
  {
    var e := Event(Fetched(Some(r)), fin);
    if n > 0 {
      var q := PollStep(p, e);
      assert Repeat(e, n)[1..] == Repeat(e, n - 1);
      StuckGamePollsForever(q, r, fin, n - 1);
    }
  }

  /** The polling's invariant: attempts stay within their round, and a finalize request has
      been sent exactly when the repair has been used. */
  ghost predicate Wf(p: Poll) {
    (p.pending.Some? ==> 1 <= p.pending.value.attempt <= p.pending.value.maxAttempts) &&
    p.finalizeCalls == (if p.repaired then 1 else 0)
  }

  /** The expiries polling can still take: the rest of the round, plus a fresh round of five
      while the repair is unused. */
  function Budget(p: Poll): int {
    match p.pending
    case None => 0
    case Some(Attempt(a, m)) => m - a + 1 + (if p.repaired then 0 else 5)
  }

  /** One timer expiry of the screen's polling: a stuck game is finalized once and polling
      restarts at attempt 1 of 5; a game still stuck after that is treated as unsettled. A
      settled game is shown at once, and every expiry that keeps polling uses up budget. */
  function PollStepFixed(p: Poll, e: Event): (q: Poll)
    requires p.pending.Some?
    ensures e.fetch.Fetched? && e.fetch.result.Some? && Settled(e.fetch.result.value) ==>
              q.pending.None? && q.shown == e.fetch.result
    ensures q.shown != p.shown ==> q.pending.None? && e.fetch.Fetched? && q.shown == e.fetch.result
    ensures Wf(p) ==> Wf(q)
    ensures Wf(p) ==> Budget(q) < Budget(p)
  {
    var a := p.pending.value.attempt;
    var m := p.pending.value.maxAttempts;
    match e.fetch
    case FetchThrew => Retry(p, a, m)
    case Fetched(None) => if a < m then Retry(p, a, m) else GiveUp(p, e.fetch)
    case Fetched(Some(r)) =>
      if Settled(r) then p.(pending := None, shown := Some(r))
      else if Stuck(r) && !p.repaired then
        var p1 := p.(finalizeCalls := p.finalizeCalls + 1, repaired := true);
        if e.finalize == PushChainService.NoContract then Retry(p1, a, m)
        else p1.(pending := Some(Attempt(1, 5)))
      else if a < m then Retry(p, a, m)
      else GiveUp(p, e.fetch)
  }

  function RunFixed(p: Poll, events: seq<Event>): Poll
    decreases |events|
  {
    if events == [] || p.pending.None? then p else RunFixed(PollStepFixed(p, events[0]), events[1..])
  }

  /** The screen's polling stops after at most its budget of expiries, whatever the chain
      answers, and sends at most one finalize request. */
  lemma {:induction false} FixedPollingEnds(p: Poll, events: seq<Event>)
    requires Wf(p)
    requires |events| >= Budget(p)
    ensures RunFixed(p, events).pending.None?
    ensures RunFixed(p, events).finalizeCalls <= 1
    decreases |events|
  {
    if events != [] && p.pending.Some? {
      FixedPollingEnds(PollStepFixed(p, events[0]), events[1..]);
    }
  }

  /** From a submission, at most 15 expiries (10 of the first round, 5 after the repair). */
  lemma PollingFromSubmitEnds(events: seq<Event>)
    requires |events| >= 15
    ensures RunFixed(StartPoll, events).pending.None?
    ensures RunFixed(StartPoll, events).finalizeCalls <= 1
  {
    FixedPollingEnds(StartPoll, events);
  }

  /** The state of the screen that the submission effect and the polling timers update. */
  class ResultsView {
    var multiplayerSubmitted: bool
    var poll: Poll

    constructor ()
      ensures !multiplayerSubmitted && poll == NoPoll
    {
      multiplayerSubmitted := false;
      poll := NoPoll;
    }

    /** One run of the submission effect. It submits only for a multiplayer game (a game id of
        0 is falsy), a connected wallet and a score not yet submitted, sets the flag before the
        request, and starts polling whatever the submission answered. */
    method SubmitEffect(gameId: Option<int>, isConnected: bool, wallet: string, submissionSucceeded: bool)
      returns (submits: bool)
      modifies this
      ensures submits <==> gameId.Some? && gameId.value != 0 && isConnected && wallet != "" &&
                           !old(multiplayerSubmitted)
      ensures multiplayerSubmitted == (old(multiplayerSubmitted) || submits)
      ensures poll == if submits then StartPoll else old(poll)
    {
      submits := false;
      if gameId.Some? && gameId.value != 0 && isConnected && wallet != "" && !multiplayerSubmitted {
        multiplayerSubmitted := true;
        submits := true;
        poll := StartPoll;
      }
    }

    /** One polling timer expiry. */
    method Fire(e: Event)
      requires poll.pending.Some?
      modifies this
      ensures poll == PollStepFixed(old(poll), e)
      ensures multiplayerSubmitted == old(multiplayerSubmitted)
    {
      var a := poll.pending.value.attempt;
      var m := poll.pending.value.maxAttempts;
      match e.fetch
      case FetchThrew =>
        poll := Retry(poll, a, m);
      case Fetched(None) =>
        poll := if a < m then Retry(poll, a, m) else GiveUp(poll, e.fetch);
      case Fetched(Some(r)) =>
        if Settled(r) {
          poll := poll.(pending := None, shown := Some(r));
        } else if Stuck(r) && !poll.repaired {
          poll := poll.(finalizeCalls := poll.finalizeCalls + 1, repaired := true);
          poll := if e.finalize == PushChainService.NoContract then Retry(poll, a, m)
                  else poll.(pending := Some(Attempt(1, 5)));
        } else if a < m {
          poll := Retry(poll, a, m);
        } else {
          poll := GiveUp(poll, e.fetch);
        }
    }

    /** Lets the timers of `events` expire one after another until polling stops; the number
        that fired never exceeds the budget polling had. */
    method PollUntilStopped(events: seq<Event>) returns (fired: nat)
      requires Wf(poll)
      modifies this
      ensures poll == RunFixed(old(poll), events)
      ensures fired <= Budget(old(poll)) && fired <= |events|
      ensures multiplayerSubmitted == old(multiplayerSubmitted)
    {
      fired := 0;
      while fired < |events| && poll.pending.Some?
        invariant fired <= |events|
        invariant Wf(poll)
        invariant RunFixed(poll, events[fired..]) == RunFixed(old(poll), events)
        invariant fired + Budget(poll) <= Budget(old(poll))
        invariant multiplayerSubmitted == old(multiplayerSubmitted)
      {
        assert events[fired..][1..] == events[fired + 1..];
        Fire(events[fired]);
        fired := fired + 1;
      }
    }
  }

  /** The effect re-runs when the flag it sets changes; the second run submits nothing. */
  method EffectRunsTwice(gameId: Option<int>, isConnected: bool, wallet: string, succeeded: bool)
    returns (first: bool, second: bool)
    ensures first <==> gameId.Some? && gameId.value != 0 && isConnected && wallet != ""
    ensures !second
  {
    var view := new ResultsView();
    first := view.SubmitEffect(gameId, isConnected, wallet, succeeded);
    second := view.SubmitEffect(gameId, isConnected, wallet, succeeded);
  }
}
