/** The backend's chain indexer: a pass over the blocks it has not yet seen, guarded against
    overlapping passes, that mirrors the multiplayer contract's events into the database.

    The chain and the database are given. The block height and the events a query returns are
    parameters of a pass, and the database is a value (`Db`) that the event handlers map to a
    new value. A pass is two methods, because its first await can interleave with the next
    cron tick: `BeginPass` takes the guard and decides the block range; `CompletePass` handles
    the queried events, moves the cursor and releases the guard. Amounts are in wei. */
module BlockchainIndexer {
  import opened Common
  import MultiplayerService
  import PushChainService

  /** The columns of a `games` row the indexer writes. */
  datatype GameRecord = GameRecord(betAmount: nat, betTier: int, player1: string,
                                   player2: Option<string>, state: int, winner: Option<string>,
                                   player1Finished: bool, player2Finished: bool)

  /** The aggregates of a `players` row. */
  datatype PlayerRecord = PlayerRecord(gamesPlayed: int, gamesWon: int, totalWagered: nat,
                                       totalWinnings: nat)

  /** A row of `event_log`. */
  datatype LogEntry = LogEntry(eventType: string, gameId: Option<int>, player: string)

  datatype Db = Db(games: map<int, GameRecord>, players: map<string, PlayerRecord>,
                   log: seq<LogEntry>)

  /** The events of the two contracts the indexer queries. */
  datatype ChainEvent =
    | NftGameCreated(tokenId: int, player: string)
    | NftMinted(tokenId: int, player: string, score: int)
    | GameCreated(gameId: int, creator: string, betAmount: nat)
    | GameJoined(gameId: int, player: string, betAmount: nat)
    | GameFinished(gameId: int, winner: string, prize: nat)

  /** The events of one pass in the order it handles them: per contract that is configured,
      its queries one kind after another. */
  function PassEvents(hasNft: bool, hasMultiplayer: bool,
                      nftCreated: seq<ChainEvent>, nftMinted: seq<ChainEvent>,
                      created: seq<ChainEvent>, joined: seq<ChainEvent>, finished: seq<ChainEvent>)
    : (es: seq<ChainEvent>)
    ensures |es| == (if hasNft then |nftCreated| + |nftMinted| else 0) +
                    (if hasMultiplayer then |created| + |joined| + |finished| else 0)
    ensures !hasNft && !hasMultiplayer ==> es == []
  {
    (if hasNft then nftCreated + nftMinted else []) +
    (if hasMultiplayer then created + joined + finished else [])
  }

  /** One ether in wei. */
  const Ether: nat := Pow10(18)

  /** `getBetTierFromAmount`: the tier whose stake is exactly the amount, tier 1 otherwise. */
  function BetTierFromAmount(amount: nat): (tier: int)
    ensures 1 <= tier <= 4
    ensures tier == 2 <==> amount == 5 * Pow10(17)
    ensures tier == 3 <==> amount == 10 * Pow10(17)
    ensures tier == 4 <==> amount == 50 * Pow10(17)
  {
    assert Ether == 10 * Pow10(17);
    if amount == Pow10(17) then 1
    else if amount == 5 * Pow10(17) then 2
    else if amount == Ether then 3
    else if amount == 5 * Ether then 4
    else 1
  }

  /** The indexer and the client agree on the tiers: the stake of each client tier, in wei,
      maps back to that tier. */
  lemma BetTierFromAmountMatchesTable(i: nat)
    requires i < |MultiplayerService.BetTiers|
    ensures BetTierFromAmount(MultiplayerService.BetTiers[i].amountTenths * Pow10(17)) == MultiplayerService.BetTiers[i].id
  {
    var t := MultiplayerService.BetTiers[i];
    var p := Pow10(17);
    if i == 0 {
      assert t.amountTenths * p == p && t.id == 1;
    } else if i == 1 {
      assert t.amountTenths * p == 5 * p && t.id == 2;
    } else if i == 2 {
      assert t.amountTenths * p == 10 * p && t.id == 3;
    } else {
      assert t.amountTenths * p == 50 * p && t.id == 4;
    }
  }

  /** What a call of `upsertPlayer` records. */
  datatype Upsert = Wagered | Won

  /** `upsertPlayer`: on an existing player a wager adds to the amount wagered and a win adds
      one game won and the prize; a new player is created with that one wager or win. The
      games played of an existing player are left alone. Every other player is unchanged. */
  function UpsertPlayer(players: map<string, PlayerRecord>, address: string, amount: nat, kind: Upsert)
    : (r: map<string, PlayerRecord>)
    ensures r.Keys == players.Keys + {address}
    ensures forall a :: a in players && a != address ==> r[a] == players[a]
    ensures address in players && kind == Wagered ==>
              r[address] == players[address].(totalWagered := players[address].totalWagered + amount)
    ensures address in players && kind == Won ==>
              r[address] == players[address].(gamesWon := players[address].gamesWon + 1,
                                               totalWinnings := players[address].totalWinnings + amount)
    ensures address !in players && kind == Wagered ==> r[address] == PlayerRecord(1, 0, amount, 0)
    ensures address !in players && kind == Won ==> r[address] == PlayerRecord(0, 1, 0, amount)
  {
    if address in players then
      var p := players[address];
      players[address := if kind == Wagered then p.(totalWagered := p.totalWagered + amount)
                         else p.(gamesWon := p.gamesWon + 1, totalWinnings := p.totalWinnings + amount)]
    else
      players[address := if kind == Wagered then PlayerRecord(1, 0, amount, 0) else PlayerRecord(0, 1, 0, amount)]
  }

  /** `incrementGamesPlayed`: one more game for a known player; nothing for an unknown one. */
  function IncrementGamesPlayed(players: map<string, PlayerRecord>, address: string)
    : (r: map<string, PlayerRecord>)
    ensures r.Keys == players.Keys
    ensures forall a :: a in players ==>
              r[a] == if a == address then players[a].(gamesPlayed := players[a].gamesPlayed + 1) else players[a]
  {
    if address in players then players[address := players[address].(gamesPlayed := players[address].gamesPlayed + 1)]
    else players
  }

  /** The games played recorded for an address, 0 when it has no row. */
  function GamesPlayed(players: map<string, PlayerRecord>, address: string): int {
    if address in players then players[address].gamesPlayed else 0
  }

  /** The row a `GameCreated` event inserts when the game has none yet. */
  function CreatedRecord(creator: string, amount: nat): (g: GameRecord)
    ensures g.state == 0 && g.player2.None? && g.winner.None? && g.player1 == creator
    ensures g.betAmount == amount && g.betTier == BetTierFromAmount(amount)
  {
    GameRecord(amount, BetTierFromAmount(amount), creator, None, 0, None, false, false)
  }

  /** The winner column of a finished game: none for the zero address. */
  function WinnerColumn(winner: string): (w: Option<string>)
    ensures w.None? <==> winner == PushChainService.ZeroAddress
    ensures w.Some? ==> w.value == winner
  {
    if winner != PushChainService.ZeroAddress then Some(winner) else None
  }

  /** A finished game's row: its winner, state 2, both players finished. */
  function FinishedRecord(g: GameRecord, winner: string): (f: GameRecord)
    ensures f.state == 2 && f.player1Finished && f.player2Finished
    ensures f.winner == WinnerColumn(winner)
    ensures f.betAmount == g.betAmount && f.player1 == g.player1 && f.player2 == g.player2
  {
    g.(winner := WinnerColumn(winner), state := 2, player1Finished := true, player2Finished := true)
  }

  /** The `event_log` row written for an event: its type, the game id for the multiplayer
      contract's events (none for the NFT contract's) and the address the event names. */
  function EventLogEntry(e: ChainEvent): (l: LogEntry)
    ensures l.eventType == "GameCreated" <==> e.NftGameCreated? || e.GameCreated?
    ensures l.eventType == "NFTMinted" <==> e.NftMinted?
    ensures l.eventType == "GameJoined" <==> e.GameJoined?
    ensures l.eventType == "GameFinished" <==> e.GameFinished?
    ensures l.gameId.None? <==> e.NftGameCreated? || e.NftMinted?
    ensures e.GameCreated? || e.GameJoined? || e.GameFinished? ==> l.gameId == Some(e.gameId)
    ensures e.NftGameCreated? || e.NftMinted? || e.GameJoined? ==> l.player == e.player
    ensures e.GameCreated? ==> l.player == e.creator
    ensures e.GameFinished? ==> l.player == e.winner
  {
    match e
    case NftGameCreated(_, player) => LogEntry("GameCreated", None, player)
    case NftMinted(_, player, _) => LogEntry("NFTMinted", None, player)
    case GameCreated(id, creator, _) => LogEntry("GameCreated", Some(id), creator)
    case GameJoined(id, player, _) => LogEntry("GameJoined", Some(id), player)
    case GameFinished(id, winner, _) => LogEntry("GameFinished", Some(id), winner)
  }

  /** The handlers as written: the creator is counted on creating, through a new player's
      row, and again when the game is joined; a returning joiner is not counted. */
  function Handle(db: Db, e: ChainEvent): (r: Db)
    ensures r.log == db.log + [EventLogEntry(e)]
  {
    match e
    case NftGameCreated(_, _) => db.(log := db.log + [EventLogEntry(e)])
    case NftMinted(_, _, _) => db.(log := db.log + [EventLogEntry(e)])
    case GameCreated(id, creator, amount) =>
      db.(games := if id in db.games then db.games else db.games[id := CreatedRecord(creator, amount)],
          players := UpsertPlayer(db.players, creator, amount, Wagered),
          log := db.log + [EventLogEntry(e)])
    case GameJoined(id, player, amount) =>
      var games := if id in db.games then db.games[id := db.games[id].(player2 := Some(player), state := 1)]
                   else db.games;
      var players := UpsertPlayer(db.players, player, amount, Wagered);
      db.(games := games,
          players := if id in games then IncrementGamesPlayed(players, games[id].player1) else players,
          log := db.log + [EventLogEntry(e)])
    case GameFinished(id, winner, prize) =>
      db.(games := if id in db.games then db.games[id := FinishedRecord(db.games[id], winner)] else db.games,
          players := if winner != "" && winner != PushChainService.ZeroAddress
                     then UpsertPlayer(db.players, winner, prize, Won) else db.players,
          log := db.log + [EventLogEntry(e)])
  }

  /** As written, one game counted twice for a first-time creator and not at all for a
      returning joiner. */
  lemma GamesPlayedMiscounted()
    ensures var db0 := Db(map[], map["0xb" := PlayerRecord(5, 0, 0, 0)], []);
      var db2 := Handle(Handle(db0, GameCreated(1, "0xa", Ether)), GameJoined(1, "0xb", Ether));
      GamesPlayed(db2.players, "0xa") == 2 && GamesPlayed(db2.players, "0xb") == 5
  {
    var db0 := Db(map[], map["0xb" := PlayerRecord(5, 0, 0, 0)], []);
    var db1 := Handle(db0, GameCreated(1, "0xa", Ether));
    assert db1.players["0xa"].gamesPlayed == 1;
    assert db1.games[1].player1 == "0xa";
    var db2 := Handle(db1, GameJoined(1, "0xb", Ether));
    assert db2.players["0xa"].gamesPlayed == 2;
  }

  /** `upsertPlayer` with games played counted only when a game is joined: a new player's row
      starts with none. */
  function UpsertPlayerFixed(players: map<string, PlayerRecord>, address: string, amount: nat, kind: Upsert)
    : (r: map<string, PlayerRecord>)
    ensures r.Keys == players.Keys + {address}
    ensures forall a :: a in players && a != address ==> r[a] == players[a]
    ensures GamesPlayed(r, address) == GamesPlayed(players, address)
    ensures address in players ==> r[address].gamesPlayed == players[address].gamesPlayed
    ensures kind == Wagered ==> r[address].totalWagered == (if address in players then players[address].totalWagered else 0) + amount
    ensures kind == Wagered ==> r[address].gamesWon == (if address in players then players[address].gamesWon else 0)
    ensures kind == Won ==> r[address].gamesWon == (if address in players then players[address].gamesWon else 0) + 1
    ensures kind == Won ==> r[address].totalWinnings == (if address in players then players[address].totalWinnings else 0) + amount
  {
    var base := if address in players then players[address] else PlayerRecord(0, 0, 0, 0);
    players[address := if kind == Wagered then base.(totalWagered := base.totalWagered + amount)
                       else base.(gamesWon := base.gamesWon + 1, totalWinnings := base.totalWinnings + amount)]
  }

  /** The creator of a game the database has. */
  function HostOf(games: map<int, GameRecord>, id: int): (h: Option<string>)
    ensures h.Some? <==> id in games
    ensures h.Some? ==> h.value == games[id].player1
  {
    if id in games then Some(games[id].player1) else None
  }

  /** The players after a corrected join: the joiner's wager is recorded and the joiner and a
      known host each count one more game; every other player is unchanged. */
  function JoinPlayersFixed(players: map<string, PlayerRecord>, joiner: string, host: Option<string>, amount: nat)
    : (r: map<string, PlayerRecord>)
    ensures r.Keys == players.Keys + {joiner}
    ensures r[joiner].totalWagered == (if joiner in players then players[joiner].totalWagered else 0) + amount
    ensures GamesPlayed(r, joiner) == GamesPlayed(players, joiner) + 1 + (if host == Some(joiner) then 1 else 0)
    ensures host.Some? && host.value != joiner ==>
              GamesPlayed(r, host.value) == GamesPlayed(players, host.value) + (if host.value in players then 1 else 0)
    ensures forall a :: a in players && a != joiner && host != Some(a) ==> r[a] == players[a]
  {
    var wagered := IncrementGamesPlayed(UpsertPlayerFixed(players, joiner, amount, Wagered), joiner);
    if host.Some? then IncrementGamesPlayed(wagered, host.value) else wagered
  }

  /** The handlers with every player of a joined game counted once, when it is joined. */
  function HandleFixed(db: Db, e: ChainEvent): (r: Db)
    ensures r.log == db.log + [EventLogEntry(e)]
    ensures e.GameCreated? && e.gameId !in db.games ==> r.games == db.games[e.gameId := CreatedRecord(e.creator, e.betAmount)]
    ensures e.GameCreated? && e.gameId in db.games ==> r.games == db.games
    ensures e.GameCreated? ==> r.players == UpsertPlayerFixed(db.players, e.creator, e.betAmount, Wagered)
    ensures e.GameJoined? && e.gameId in db.games ==>
              r.games == db.games[e.gameId := db.games[e.gameId].(player2 := Some(e.player), state := 1)]
    ensures e.GameJoined? && e.gameId !in db.games ==> r.games == db.games
    ensures e.GameJoined? ==>
              r.players == JoinPlayersFixed(db.players, e.player, HostOf(db.games, e.gameId), e.betAmount)
    ensures e.GameFinished? && e.gameId in db.games ==>
              r.games == db.games[e.gameId := FinishedRecord(db.games[e.gameId], e.winner)]
    ensures e.GameFinished? && e.gameId !in db.games ==> r.games == db.games
    ensures e.GameFinished? ==> (r.players == db.players <==> e.winner == "" || e.winner == PushChainService.ZeroAddress)
    ensures e.GameFinished? && e.winner != "" && e.winner != PushChainService.ZeroAddress ==>
              r.players == UpsertPlayerFixed(db.players, e.winner, e.prize, Won)
    ensures e.NftGameCreated? || e.NftMinted? ==> r.games == db.games && r.players == db.players
  {
    match e
    case NftGameCreated(_, _) => db.(log := db.log + [EventLogEntry(e)])
    case NftMinted(_, _, _) => db.(log := db.log + [EventLogEntry(e)])
    case GameCreated(id, creator, amount) =>
      db.(games := if id in db.games then db.games else db.games[id := CreatedRecord(creator, amount)],
          players := UpsertPlayerFixed(db.players, creator, amount, Wagered),
          log := db.log + [EventLogEntry(e)])
    case GameJoined(id, player, amount) =>
      var games := if id in db.games then db.games[id := db.games[id].(player2 := Some(player), state := 1)]
                   else db.games;
      db.(games := games,
          players := JoinPlayersFixed(db.players, player, HostOf(db.games, id), amount),
          log := db.log + [EventLogEntry(e)])
    case GameFinished(id, winner, prize) =>
      var players := if winner != "" && winner != PushChainService.ZeroAddress
                     then UpsertPlayerFixed(db.players, winner, prize, Won) else db.players;
      assert winner != "" && winner != PushChainService.ZeroAddress ==> winner in players;
      db.(games := if id in db.games then db.games[id := FinishedRecord(db.games[id], winner)] else db.games,
          players := players,
          log := db.log + [EventLogEntry(e)])
  }

  /** A game created and then joined by someone else counts exactly one more game played for
      each of its two players, whether or not they had a row before. */
  lemma CreatedThenJoinedCountsOnce(db: Db, id: int, a: string, b: string, amount: nat)
    requires id !in db.games && a != b
    ensures var db2 := HandleFixed(HandleFixed(db, GameCreated(id, a, amount)), GameJoined(id, b, amount));
      GamesPlayed(db2.players, a) == GamesPlayed(db.players, a) + 1 &&
      GamesPlayed(db2.players, b) == GamesPlayed(db.players, b) + 1 &&
      db2.games[id].state == 1 && db2.games[id].player2 == Some(b)
  {
    var db1 := HandleFixed(db, GameCreated(id, a, amount));
    assert HostOf(db1.games, id) == Some(a);
    assert a in db1.players;
    assert GamesPlayed(db1.players, a) == GamesPlayed(db.players, a);
    assert GamesPlayed(db1.players, b) == GamesPlayed(db.players, b);
  }

  /** The handlers applied in order. */
  function HandleAll(db: Db, es: seq<ChainEvent>): (r: Db)
    ensures |r.log| == |db.log| + |es|
    decreases |es|
  {
    if es == [] then db else HandleFixed(HandleAll(db, es[..|es| - 1]), es[|es| - 1])
  }

  /** The handlers only ever append to the event log. */
  lemma {:induction false} LogOnlyGrows(db: Db, es: seq<ChainEvent>)
    ensures HandleAll(db, es).log[..|db.log|] == db.log
    decreases |es|
  {
    if es != [] {
      LogOnlyGrows(db, es[..|es| - 1]);
      var mid := HandleAll(db, es[..|es| - 1]);
      assert HandleFixed(mid, es[|es| - 1]).log[..|mid.log|] == mid.log;
    }
  }

  /** An inclusive range of blocks. */
  datatype BlockRange = BlockRange(first: int, last: int)

  class Indexer {
    var isRunning: bool
    var lastProcessedBlock: int
    var db: Db

    /** After `initialize`: the cursor read from `indexer_state`, or the chain's height. */
    constructor (startBlock: int, db0: Db)
      ensures !isRunning && lastProcessedBlock == startBlock && db == db0
    {
      isRunning := false;
      lastProcessedBlock := startBlock;
      db := db0;
    }

    /** The start of `indexTransactions`: skipped while a pass runs; otherwise the pass covers
        the blocks after the cursor up to and including the current one, and ends at once,
        releasing the guard, when there are none. */
    method BeginPass(currentBlock: int) returns (range: Option<BlockRange>)
      modifies this
      ensures old(isRunning) ==> range.None? && isRunning
      ensures !old(isRunning) ==> (range.Some? <==> currentBlock > old(lastProcessedBlock))
      ensures !old(isRunning) ==> isRunning == range.Some?
      ensures range.Some? ==> range.value == BlockRange(old(lastProcessedBlock) + 1, currentBlock)
      ensures lastProcessedBlock == old(lastProcessedBlock) && db == old(db)
    {
      range := None;
      if isRunning {
        return;
      }
      isRunning := true;
      if currentBlock <= lastProcessedBlock {
        isRunning := false;
        return;
      }
      range := Some(BlockRange(lastProcessedBlock + 1, currentBlock));
    }

    /** The rest of the pass: handles the queried events in order and then stores the cursor.
        An error after `failAfter` events (or in storing the cursor) ends the pass with the
        cursor where it was; the guard is released in every case. */
    method CompletePass(currentBlock: int, events: seq<ChainEvent>, failAfter: Option<nat>)
      returns (processedCount: nat)
      requires isRunning && currentBlock > lastProcessedBlock
      modifies this
      ensures !isRunning
      ensures failAfter.None? ==> processedCount == |events| && lastProcessedBlock == currentBlock
      ensures failAfter.Some? ==> lastProcessedBlock == old(lastProcessedBlock)
      ensures failAfter.Some? ==>
                processedCount == if failAfter.value < |events| then failAfter.value else |events|
      ensures processedCount <= |events|
      ensures db == HandleAll(old(db), events[..processedCount])
      ensures lastProcessedBlock >= old(lastProcessedBlock)
    {
      var limit := if failAfter.Some? && failAfter.value < |events| then failAfter.value else |events|;
      processedCount := 0;
      while processedCount < limit
        invariant processedCount <= limit
        invariant db == HandleAll(old(db), events[..processedCount])
        invariant isRunning && lastProcessedBlock == old(lastProcessedBlock)
      {
        assert events[..processedCount + 1][..processedCount] == events[..processedCount];
        db := HandleFixed(db, events[processedCount]);
        processedCount := processedCount + 1;
      }
      if failAfter.None? {
        lastProcessedBlock := currentBlock;
      }
      isRunning := false;
    }
  }
}
