/** The client's database helpers: the display names of tiers and game states, the records
    written when a game is created or joined, the marking of a finished player, and the
    listing of open games. Each query's answer is a parameter; the listing is modelled by
    what it asks the database for (a filter and an order), computed here. Its
    `formatAddress` is the same function as the multiplayer service's
    (`MultiplayerService.FormatAddress`). Times are in milliseconds. */
module SupabaseService {
  import opened Common
  import MultiplayerService

  /** `getBetTierName`. */
  function BetTierName(tier: int): (name: string)
    ensures 1 <= tier <= 4 <==> name != "Unknown"
    ensures name != "Unknown" ==> name == PcText(MultiplayerService.BetTiers[tier - 1].amountTenths) + " PC"
  {
    if tier == 1 then "0.1 PC"
    else if tier == 2 then "0.5 PC"
    else if tier == 3 then "1 PC"
    else if tier == 4 then "5 PC"
    else "Unknown"
  }

  /** The decimal text of a whole number. */
  function DecimalText(n: nat): (s: string)
    ensures |s| >= 1
    ensures forall i :: 0 <= i < |s| ==> IsDigit(s[i])
    ensures DecimalValue(s) == n
    decreases n
  {
    if n < 10 then [('0' as int + n) as char]
    else
      var s := DecimalText(n / 10) + [('0' as int + n % 10) as char];
      assert s[..|s| - 1] == DecimalText(n / 10);
      s
  }

  /** An amount of tenths of a PC as a decimal, without a trailing ".0". */
  function PcText(tenths: nat): string {
    if tenths % 10 == 0 then DecimalText(tenths / 10)
    else DecimalText(tenths / 10) + "." + DecimalText(tenths % 10)
  }

  /** Every tier of the client's table has a display name, which states its stake. */
  lemma TierNamesStateStakes(i: nat)
    requires i < |MultiplayerService.BetTiers|
    ensures BetTierName(MultiplayerService.BetTiers[i].id) == PcText(MultiplayerService.BetTiers[i].amountTenths) + " PC"
    ensures BetTierName(MultiplayerService.BetTiers[i].id) != "Unknown"
  {
  }

  /** `getGameStateName`: the three states of a game have three different names. */
  function GameStateName(state: int): (name: string)
    ensures 0 <= state <= 2 <==> name != "Unknown"
  {
    if state == 0 then "Waiting for Player"
    else if state == 1 then "In Progress"
    else if state == 2 then "Finished"
    else "Unknown"
  }

  /** The three states of a game have three different names. */
  lemma GameStateNamesDistinct(a: int, b: int)
    requires 0 <= a <= 2 && 0 <= b <= 2 && a != b
    ensures GameStateName(a) != GameStateName(b)
  {
  }

  /** The columns of a `games` row these helpers write. */
  datatype GameRow = GameRow(gameId: int, betAmount: string, betTier: int, player1: string,
                             player2: Option<string>, state: int, createdAt: int,
                             creationTxHash: string, joinTxHash: Option<string>,
                             joinedAt: Option<int>, player1Finished: bool, player2Finished: bool,
                             player1Score: Option<int>, player2Score: Option<int>)

  /** `createGame`: the inserted row waits for a second player; the database stamps it. */
  function CreatedRow(gameId: int, betAmount: string, betTier: int, player1: string,
                      txHash: string, now: int): (r: GameRow)
    ensures r.state == 0 && r.player2.None? && r.createdAt == now
    ensures r.gameId == gameId && r.player1 == player1 && r.betTier == betTier
    ensures !r.player1Finished && !r.player2Finished
  {
    GameRow(gameId, betAmount, betTier, player1, None, 0, now, txHash, None, None,
            false, false, None, None)
  }

  /** `updateGameJoin`: the row gets its second player and becomes active. */
  function JoinedRow(g: GameRow, player2: string, joinTx: string, now: int): (r: GameRow)
    ensures r.state == 1 && r.player2 == Some(player2)
    ensures r.joinTxHash == Some(joinTx) && r.joinedAt == Some(now)
    ensures r.gameId == g.gameId && r.player1 == g.player1 && r.createdAt == g.createdAt
  {
    g.(player2 := Some(player2), state := 1, joinedAt := Some(now), joinTxHash := Some(joinTx))
  }

  /** `markPlayerFinished`: the host's columns when the address is exactly the stored host
      address, letter case included; the second player's columns for any other address. A
      game that could not be read is an error. */
  function MarkPlayerFinished(game: Option<GameRow>, player: string, score: int): (r: Option<GameRow>)
    ensures game.None? <==> r.None?
    ensures r.Some? && player == game.value.player1 ==>
              r.value == game.value.(player1Finished := true, player1Score := Some(score))
    ensures r.Some? && player != game.value.player1 ==>
              r.value == game.value.(player2Finished := true, player2Score := Some(score))
  {
    match game
    case None => None
    case Some(g) =>
      if g.player1 == player then Some(g.(player1Finished := true, player1Score := Some(score)))
      else Some(g.(player2Finished := true, player2Score := Some(score)))
  }

  /** Marking is case-sensitive: the host's address in other letter case marks the second
      player's columns and leaves the host unfinished. */
  lemma MarkingIsCaseSensitive(g: GameRow, score: int)
    requires g.player1 == "0xAb" && !g.player1Finished
    ensures var r := MarkPlayerFinished(Some(g), "0xab", score).value;
      !r.player1Finished && r.player2Finished &&
      MultiplayerService.CompareAddresses(g.player1, "0xab")
  {
    assert "0xAb" != "0xab" by { assert "0xAb"[2] != "0xab"[2]; }
    MultiplayerService.CompareIgnoresCaseAndPrefix("0xAb", "0xab");
    assert Lower("0xAb") == Lower("0xab");
  }

  /** How far back the lobby listing reaches. */
  const ListingWindowMs := 300000

  /** A row the listing asks for: waiting, recent, and of the tier when one is given (a tier
      of 0 counts as none). */
  predicate Listed(g: GameRow, now: int, betTier: Option<int>) {
    g.state == 0 && g.createdAt >= now - ListingWindowMs &&
    (betTier.Some? && betTier.value != 0 ==> g.betTier == betTier.value)
  }

  /** Newest first. */
  predicate NewestFirst(s: seq<GameRow>) {
    forall i, j :: 0 <= i < j < |s| ==> s[i].createdAt >= s[j].createdAt
  }

  /** No row of `s` is newer than `t`. */
  predicate NoNewerThan(s: seq<GameRow>, t: int) {
    forall k :: 0 <= k < |s| ==> s[k].createdAt <= t
  }

  /** Inserts a row into a list before the first row no newer than it. */
  function InsertByAge(g: GameRow, s: seq<GameRow>): (r: seq<GameRow>)
    ensures multiset(r) == multiset(s) + multiset{g}
    ensures |r| == |s| + 1
  {
    if s == [] || g.createdAt >= s[0].createdAt then [g] + s
    else
      assert s == [s[0]] + s[1..];
      [s[0]] + InsertByAge(g, s[1..])
  }

  /** A bound on the ages of a list and of a row bounds the ages after the insertion. */
  lemma {:induction false} InsertByAgeBound(g: GameRow, s: seq<GameRow>, t: int)
    requires NoNewerThan(s, t) && g.createdAt <= t
    ensures NoNewerThan(InsertByAge(g, s), t)
  {
    if s != [] && g.createdAt < s[0].createdAt {
      InsertByAgeBound(g, s[1..], t);
    }
  }

  /** Insertion keeps a list newest first. */
  lemma {:induction false} InsertByAgeSorted(g: GameRow, s: seq<GameRow>)
    requires NewestFirst(s)
    ensures NewestFirst(InsertByAge(g, s))
  {
    if s != [] && g.createdAt < s[0].createdAt {
      InsertByAgeSorted(g, s[1..]);
      InsertByAgeBound(g, s[1..], s[0].createdAt);
      var rest := InsertByAge(g, s[1..]);
      assert InsertByAge(g, s) == [s[0]] + rest;
    }
  }

  /** The rows ordered newest first. */
  function ByAge(s: seq<GameRow>): (r: seq<GameRow>)
    ensures NewestFirst(r)
    ensures multiset(r) == multiset(s)
  {
    if s == [] then []
    else
      assert s == [s[0]] + s[1..];
      var rest := ByAge(s[1..]);
      InsertByAgeSorted(s[0], rest);
      InsertByAge(s[0], rest)
  }

  /** `getAvailableGames`: exactly the rows it asks for, each as often as stored, newest
      first; a failed query lists nothing. */
  function AvailableGames(rows: Option<seq<GameRow>>, now: int, betTier: Option<int>): (r: seq<GameRow>)
    ensures NewestFirst(r)
    ensures rows.None? ==> r == []
    ensures rows.Some? ==> forall g :: g in r <==> g in rows.value && Listed(g, now, betTier)
    ensures rows.Some? ==> forall g :: Listed(g, now, betTier) ==> multiset(r)[g] == multiset(rows.value)[g]
  {
    match rows
    case None => []
    case Some(s) =>
      var kept := Filter(s, (g: GameRow) => Listed(g, now, betTier));
      var r := ByAge(kept);
      assert forall g :: g in r <==> g in multiset(kept);
      r
  }
}
