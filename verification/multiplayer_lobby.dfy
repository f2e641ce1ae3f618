/** The multiplayer lobby: the checks before a game is created or joined, the lookups behind a
    listed game's card, and the host's wait for an opponent.

    The host learns of a join on two channels at once: a pushed database UPDATE and a poll
    of the game row every second. Each is a handler of the effect that watches the created
    game, and the effect's cleanup flips the shared `isActive` flag. Every delivery is one
    `LobbyEvent`; a poll is two events, because its read of the row is awaited: the tick that
    starts the read and the resolution that acts on it. */
module MultiplayerLobby {
  import opened Common
  import MultiplayerService

  type BetTier = MultiplayerService.BetTier

  /** The columns of a game row the host's handlers read; a missing player 2 is "". */
  datatype LobbyGame = LobbyGame(gameId: int, state: int, player2: string)

  /** The push channel's test: the game is active and has a second player who is not the host. */
  predicate PushSeesJoin(g: LobbyGame, wallet: string) {
    g.state == 1 && g.player2 != "" && Lower(g.player2) != Lower(wallet)
  }

  /** The poll's test: the row was read, the game is active and has a second player. */
  predicate PollSeesJoin(row: Option<LobbyGame>) {
    row.Some? && row.value.state == 1 && row.value.player2 != ""
  }

  /** The poll is the laxer test: whatever the push accepts the poll accepts, and the poll also
      accepts a row whose second player is the host. */
  lemma PollIsLaxer(g: LobbyGame, wallet: string)
    ensures PushSeesJoin(g, wallet) ==> PollSeesJoin(Some(g))
    ensures PollSeesJoin(Some(g)) && !PushSeesJoin(g, wallet) ==> Lower(g.player2) == Lower(wallet)
  {
  }

  /** The host's wait for one created game: the game watched (cleared on detection), the
      effect's `isActive` flag, whether the poll interval runs, the reads in flight and the
      game ids passed to `onStartGame`. */
  datatype Watch = Watch(created: Option<int>, isActive: bool, polling: bool, inFlight: nat,
                         starts: seq<int>)

  datatype LobbyEvent =
    | Push(row: LobbyGame)            // an UPDATE delivered by the subscription
    | PollTick                        // the interval fires and starts reading the row; its
                                      // closure holds the game it was created for, so only the
                                      // flag and the interval itself can stop it
    | PollResolve(read: Option<LobbyGame>)  // a read started by a tick completes
    | Cleanup                         // the effect is torn down after `myCreatedGame` changed

  /** The effect for a created game `id` has just started. */
  function Begin(id: int): (w: Watch)
    ensures w.created == Some(id) && w.isActive && w.polling && w.starts == []
  {
    Watch(Some(id), true, true, 0, [])
  }

  /** One delivery as the lobby's code is written: the poll's resolution does not look at
      `isActive` again after its read, and the interval being cleared does not stop a read
      already in flight. */
  function Step(w: Watch, wallet: string, e: LobbyEvent): (r: Watch)
    ensures |r.starts| <= |w.starts| + 1
    ensures e.Cleanup? ==> !r.isActive && !r.polling && r.starts == w.starts
  {
    match e
    case Push(g) =>
      if w.isActive && PushSeesJoin(g, wallet) then w.(created := None, starts := w.starts + [g.gameId])
      else w
    case PollTick =>
      if w.isActive && w.polling then w.(inFlight := w.inFlight + 1) else w
    case PollResolve(row) =>
      if w.inFlight == 0 then w
      else
        var w1 := w.(inFlight := w.inFlight - 1);
        if PollSeesJoin(row) then w1.(polling := false, created := None, starts := w1.starts + [row.value.gameId])
        else w1
    case Cleanup => w.(isActive := false, polling := false)
  }

  function Run(w: Watch, wallet: string, events: seq<LobbyEvent>): Watch
    decreases |events|
  {
    if events == [] then w else Run(Step(w, wallet, events[0]), wallet, events[1..])
  }

  /** As written, the host can start the same match twice: a poll read is in flight when the
      pushed UPDATE starts the game, the effect is cleaned up, and the read then resolves. */
  lemma HostStartsTwice()
    ensures Run(Begin(7), "0xa", [PollTick, Push(LobbyGame(7, 1, "0xb")), Cleanup,
                                  PollResolve(Some(LobbyGame(7, 1, "0xb")))]).starts == [7, 7]
  {
    var g := LobbyGame(7, 1, "0xb");
    assert Lower("0xb") == "0xb" && Lower("0xa") == "0xa";
    assert PushSeesJoin(g, "0xa");
    var w1 := Step(Begin(7), "0xa", PollTick);
    var w2 := Step(w1, "0xa", Push(g));
    assert w2.starts == [7];
    var w3 := Step(w2, "0xa", Cleanup);
    var w4 := Step(w3, "0xa", PollResolve(Some(g)));
    assert w4.starts == [7, 7];
    var evs := [PollTick, Push(g), Cleanup, PollResolve(Some(g))];
    assert evs[1..][1..][1..][1..] == [];
  }

  /** One delivery with the flag used as a latch: a detection on either channel clears it,
      and a poll's resolution acts only while it is still set. */
  function StepFixed(w: Watch, wallet: string, e: LobbyEvent): (r: Watch)
    ensures |r.starts| <= |w.starts| + 1
    ensures |r.starts| == |w.starts| + 1 ==> w.isActive && !r.isActive && r.created.None?
    ensures !w.isActive ==> r.starts == w.starts && !r.isActive
    ensures e.Cleanup? ==> !r.isActive && !r.polling && r.starts == w.starts
    ensures e.Cleanup? ==> r == w.(isActive := false, polling := false)
    ensures |r.starts| >= |w.starts| && r.starts[..|w.starts|] == w.starts
    ensures e.Push? && w.isActive ==> (|r.starts| == |w.starts| + 1 <==> PushSeesJoin(e.row, wallet))
    ensures e.Push? && |r.starts| == |w.starts| + 1 ==> r.starts == w.starts + [e.row.gameId]
    ensures e.PollTick? ==> r.starts == w.starts && r.isActive == w.isActive &&
                            r.inFlight == (if w.isActive && w.polling then w.inFlight + 1 else w.inFlight)
    ensures e.PollResolve? && w.inFlight == 0 ==> r == w
    ensures e.PollResolve? && w.inFlight > 0 ==> r.inFlight == w.inFlight - 1
    ensures e.PollResolve? && w.isActive && w.inFlight > 0 ==>
              (|r.starts| == |w.starts| + 1 <==> PollSeesJoin(e.read))
    ensures e.PollResolve? && |r.starts| == |w.starts| + 1 ==>
              e.read.Some? && r.starts == w.starts + [e.read.value.gameId] && !r.polling
    ensures e.Push? && |r.starts| == |w.starts| ==> r == w
    ensures e.Push? ==> r.inFlight == w.inFlight && r.polling == w.polling
    ensures e.PollTick? || (e.PollResolve? && |r.starts| == |w.starts|) ==> r == w.(inFlight := r.inFlight)
    ensures |r.starts| == |w.starts| + 1 ==> r.inFlight == (if e.PollResolve? then w.inFlight - 1 else w.inFlight)
  {
    match e
    case Push(g) =>
      if w.isActive && PushSeesJoin(g, wallet) then
        w.(isActive := false, created := None, starts := w.starts + [g.gameId])
      else w
    case PollTick =>
      if w.isActive && w.polling then w.(inFlight := w.inFlight + 1) else w
    case PollResolve(row) =>
      if w.inFlight == 0 then w
      else
        var w1 := w.(inFlight := w.inFlight - 1);
        if w.isActive && PollSeesJoin(row) then
          w1.(isActive := false, polling := false, created := None, starts := w1.starts + [row.value.gameId])
        else w1
    case Cleanup => w.(isActive := false, polling := false)
  }

  function RunFixed(w: Watch, wallet: string, events: seq<LobbyEvent>): Watch
    decreases |events|
  {
    if events == [] then w else RunFixed(StepFixed(w, wallet, events[0]), wallet, events[1..])
  }

  /** The latch's invariant: at most one start, and none while the flag is still set. */
  predicate StartedOnce(w: Watch) {
    |w.starts| <= 1 && (w.starts != [] ==> !w.isActive)
  }

  /** Whatever the order of deliveries, the host starts the match at most once. */
  lemma {:induction false} HostStartsAtMostOnce(w: Watch, wallet: string, events: seq<LobbyEvent>)
    requires StartedOnce(w)
    ensures StartedOnce(RunFixed(w, wallet, events))
    ensures w.starts != [] ==> RunFixed(w, wallet, events).starts == w.starts
    decreases |events|
  {
    if events != [] {
      HostStartsAtMostOnce(StepFixed(w, wallet, events[0]), wallet, events[1..]);
    }
  }

  /** The host's side of the lobby while it waits for an opponent. */
  class HostWatcher {
    var myCreatedGame: Option<int>
    var isActive: bool
    var polling: bool
    var inFlight: nat
    var starts: seq<int>

    function Snapshot(): Watch
      reads this
    {
      Watch(myCreatedGame, isActive, polling, inFlight, starts)
    }

    /** The effect starts watching the game the host just created. */
    constructor (id: int)
      ensures Snapshot() == Begin(id)
    {
      myCreatedGame := Some(id);
      isActive := true;
      polling := true;
      inFlight := 0;
      starts := [];
    }

    /** The subscription's UPDATE handler. */
    method OnUpdate(g: LobbyGame, wallet: string)
      modifies this
      ensures Snapshot() == StepFixed(old(Snapshot()), wallet, Push(g))
    {
      if isActive && g.state == 1 && g.player2 != "" && Lower(g.player2) != Lower(wallet) {
        isActive := false;
        myCreatedGame := None;
        starts := starts + [g.gameId];
      }
    }

    /** The poll interval fires and starts reading the row. */
    method OnPollTick()
      modifies this
      ensures Snapshot() == StepFixed(old(Snapshot()), "", PollTick)
    {
      if isActive && polling {
        inFlight := inFlight + 1;
      }
    }

    /** A poll's read completes. */
    method OnPollRead(row: Option<LobbyGame>)
      modifies this
      ensures Snapshot() == StepFixed(old(Snapshot()), "", PollResolve(row))
    {
      if inFlight > 0 {
        inFlight := inFlight - 1;
        if isActive && PollSeesJoin(row) {
          isActive := false;
          polling := false;
          myCreatedGame := None;
          starts := starts + [row.value.gameId];
        }
      }
    }

    /** The effect's cleanup. */
    method OnCleanup()
      modifies this
      ensures Snapshot() == StepFixed(old(Snapshot()), "", Cleanup)
    {
      isActive := false;
      polling := false;
    }
  }

  /** The first of the lobby's notices for a failed action. */
  datatype LobbyOutcome =
    | Rejected(notice: string)          // refused before any service call
    | Failed(notice: string)            // the service answered with an error
    | Watching(gameId: int)             // created; the host now waits for an opponent
    | Starting(gameId: int)             // joined; the joiner starts the match at once

  const FailureMark := "\U{274C} Failed: "

  /** `handleCreateGame`: a missing tier is reported before a missing wallet, and neither
      reaches the service; a created game is watched under the id the chain assigned. */
  function HandleCreate(tier: Option<BetTier>, wallet: string, initialized: bool,
                        chain: MultiplayerService.TxResult): (r: LobbyOutcome)
    ensures tier.None? ==> r == Rejected("Please select a bet tier")
    ensures tier.Some? && wallet == "" ==> r == Rejected("Please connect your wallet first")
    ensures r.Watching? <==> (tier.Some? && wallet != "" &&
                              MultiplayerService.CreateGame(initialized, wallet, tier.value.id, chain).Created?)
    ensures r.Watching? ==> r.gameId == chain.gameId
    ensures !r.Rejected? ==> r.Watching? || r.Failed?
  {
    if tier.None? then Rejected("Please select a bet tier")
    else if wallet == "" then Rejected("Please connect your wallet first")
    else
      match MultiplayerService.CreateGame(initialized, wallet, tier.value.id, chain)
      case Created(_, id, _) => Watching(id)
      case Failure(e) => Failed(FailureMark + e)
      case _ => Failed(FailureMark)
  }

  /** `handleJoinGame`: a missing wallet is refused; a successful join starts the match for
      the joiner under the id it asked for. */
  function HandleJoin(wallet: string, initialized: bool, gameId: int,
                      chain: MultiplayerService.TxResult): (r: LobbyOutcome)
    ensures wallet == "" ==> r == Rejected("Please connect your wallet first")
    ensures r.Starting? <==> wallet != "" && initialized && chain.TxOk?
    ensures r.Starting? ==> r.gameId == gameId
    ensures !r.Rejected? ==> r.Starting? || r.Failed?
  {
    if wallet == "" then Rejected("Please connect your wallet first")
    else
      match MultiplayerService.JoinGame(initialized, wallet, gameId, chain)
      case Joined(_, id) => Starting(id)
      case Failure(e) => Failed("Failed to join game: " + e)
      case _ => Failed("Failed to join game: ")
  }

  /** The lobby never asks the chain to create a game for a missing tier or wallet. */
  lemma CreateNeedsTierAndWallet(tier: Option<BetTier>, wallet: string, initialized: bool,
                                 c1: MultiplayerService.TxResult, c2: MultiplayerService.TxResult)
    requires tier.None? || wallet == ""
    ensures HandleCreate(tier, wallet, initialized, c1) == HandleCreate(tier, wallet, initialized, c2)
    ensures HandleCreate(tier, wallet, initialized, c1).Rejected?
  {
  }

  /** A listed game is the viewer's own when its host is the viewer's address. */
  predicate IsOwnGame(g: MultiplayerService.ListedGame, wallet: string) {
    MultiplayerService.CompareAddresses(g.player1, wallet)
  }

  /** A listed game's join button is enabled only for someone else's game while idle. */
  function CanJoin(g: MultiplayerService.ListedGame, wallet: string, loading: bool): (r: bool)
    ensures r ==> !MultiplayerService.CompareAddresses(g.player1, wallet)
    ensures wallet != "" && Lower(g.player1) == Lower(wallet) ==> !r
    ensures !loading && !IsOwnGame(g, wallet) ==> r
  {
    MultiplayerService.CompareIgnoresCaseAndPrefix(g.player1, wallet);
    !loading && !IsOwnGame(g, wallet)
  }

  /** The card's tier: the first bet tier whose wei string is the listed amount. */
  function TierForWei(wei: string): (r: Option<BetTier>)
    ensures r.Some? ==> r.value in MultiplayerService.BetTiers && r.value.wei == wei
    ensures r.None? <==> forall t :: t in MultiplayerService.BetTiers ==> t.wei != wei
  {
    TierForWeiFrom(wei, 0)
  }

  function TierForWeiFrom(wei: string, i: nat): (r: Option<BetTier>)
    requires i <= |MultiplayerService.BetTiers|
    ensures r.Some? ==> r.value in MultiplayerService.BetTiers[i..] && r.value.wei == wei
    ensures r.None? <==> forall t :: t in MultiplayerService.BetTiers[i..] ==> t.wei != wei
    decreases |MultiplayerService.BetTiers| - i
  {
    if i == |MultiplayerService.BetTiers| then None
    else if MultiplayerService.BetTiers[i].wei == wei then Some(MultiplayerService.BetTiers[i])
    else
      var r := TierForWeiFrom(wei, i + 1);
      assert MultiplayerService.BetTiers[i..] == [MultiplayerService.BetTiers[i]] + MultiplayerService.BetTiers[i + 1..];
      r
  }

  /** Every tier's own wei string finds that tier: the wei strings of the table are distinct. */
  lemma TierForOwnWei(i: nat)
    requires i < |MultiplayerService.BetTiers|
    ensures TierForWei(MultiplayerService.BetTiers[i].wei) == Some(MultiplayerService.BetTiers[i])
  {
    var ts := MultiplayerService.BetTiers;
    assert ts[0].wei != ts[1].wei && ts[0].wei != ts[2].wei && ts[0].wei != ts[3].wei;
    assert ts[1].wei != ts[2].wei && ts[1].wei != ts[3].wei && ts[2].wei != ts[3].wei;
    var r := TierForWei(ts[i].wei);
    assert r.Some?;
  }

  /** The prize a card shows for a known tier, in tenths of a PC: both stakes, which is more
      than the 1.9 stakes the chain pays a winner after its fee. */
  function PrizeTenths(t: BetTier): (p: nat)
    ensures t in MultiplayerService.BetTiers ==> p as real > t.amountTenths as real * 1.9
    ensures p / 2 == t.amountTenths && p % 2 == 0
  {
    2 * t.amountTenths
  }
}
