/** The client-side multiplayer service: the bet tiers, the guards that run before a game is
    created, joined or scored on chain, the mapping of listed games, and the address helpers.

    The chain and the database are given: a chain call's outcome is a parameter, consulted only
    once the guards have passed. Amounts are in tenths of a PC so that the table stays in
    integers; one PC is 10^18 wei. A missing (falsy) address is the empty string. */
module MultiplayerService {
  import opened Common

  /** A bet tier; `amountTenths` is the stake in tenths of a PC and `wei` its decimal string. */
  datatype BetTier = BetTier(id: nat, amountTenths: nat, title: string, wei: string)

  const BetTiers: seq<BetTier> := [
    BetTier(1, 1, "Casual", "100000000000000000"),
    BetTier(2, 5, "Standard", "500000000000000000"),
    BetTier(3, 10, "Competitive", "1000000000000000000"),
    BetTier(4, 50, "High Stakes", "5000000000000000000")
  ]

  predicate AllDigits(s: string) {
    forall i :: 0 <= i < |s| ==> IsDigit(s[i])
  }

  /** Tier `i` of the table has id `i + 1`, and its wei string is its stake times 10^18. */
  lemma BetTierWei(i: nat)
    requires i < |BetTiers|
    ensures BetTiers[i].id == i + 1
    ensures AllDigits(BetTiers[i].wei)
    ensures DecimalValue(BetTiers[i].wei) == BetTiers[i].amountTenths * Pow10(17)
  {
    if i == 0 {
      TierWei(0, '1', 17);
    } else if i == 1 {
      TierWei(1, '5', 17);
    } else if i == 2 {
      TierWei(2, '1', 18);
    } else {
      TierWei(3, '5', 18);
    }
  }

  /** A tier whose wei string is a digit followed by `n` zeros has the value of that digit
      times 10^n. */
  lemma TierWei(k: nat, d: char, n: nat)
    requires k < |BetTiers| && IsDigit(d) && BetTiers[k].wei == [d] + Zeros(n)
    requires (d as int - '0' as int) * Pow10(n) == BetTiers[k].amountTenths * Pow10(17)
    ensures AllDigits(BetTiers[k].wei)
    ensures DecimalValue(BetTiers[k].wei) == BetTiers[k].amountTenths * Pow10(17)
  {
    DigitThenZeros(d, Zeros(n));
  }

  /** A run of `n` zero digits. */
  function Zeros(n: nat): (z: string)
    ensures |z| == n && forall i :: 0 <= i < n ==> z[i] == '0'
  {
    seq(n, _ => '0')
  }

  /** `BET_TIERS.find(t => t.id === betTier)`. */
  function FindBetTier(id: int): (r: Option<BetTier>)
    ensures r.Some? <==> 1 <= id <= 4
    ensures r.Some? ==> r.value == BetTiers[id - 1] && r.value.id == id
  {
    FindBetTierFrom(id, 0)
  }

  function FindBetTierFrom(id: int, i: nat): (r: Option<BetTier>)
    requires i <= |BetTiers|
    ensures r.Some? <==> i + 1 <= id <= |BetTiers|
    ensures r.Some? ==> r.value == BetTiers[id - 1]
    decreases |BetTiers| - i
  {
    if i == |BetTiers| then None
    else if BetTiers[i].id == id then Some(BetTiers[i])
    else FindBetTierFrom(id, i + 1)
  }

  /** The outcome of a chain call: a transaction hash and, for a creation, the new game id; or
      the error the chain service reported. */
  datatype TxResult = TxOk(txHash: string, gameId: int) | TxFailed(error: string)

  /** What the service methods return. */
  datatype ServiceResult =
    | Created(txHash: string, gameId: int, tier: BetTier)
    | Joined(txHash: string, gameId: int)
    | Submitted(txHash: string)
    | Failure(error: string)

  const NotInitialized := "Push Chain service not initialized. Please connect your wallet."

  /** `error || fallback`. */
  function ErrorOr(error: string, fallback: string): (e: string)
    ensures e != ""
    ensures error != "" ==> e == error
  {
    if error != "" then error else if fallback != "" then fallback else "Error"
  }

  /** The guard of `createGame`: a ready service, a wallet and a known tier, in that order. */
  function CreateGuard(initialized: bool, wallet: string, betTier: int): (r: Option<string>)
    ensures r.None? <==> initialized && wallet != "" && FindBetTier(betTier).Some?
  {
    if !initialized then Some(NotInitialized)
    else if wallet == "" then Some("Wallet address is required to create a game")
    else if FindBetTier(betTier).None? then Some("Invalid bet tier")
    else None
  }

  /** `createGame`: after the guard, the chain creation; a failed database save does not change
      the outcome. */
  function CreateGame(initialized: bool, wallet: string, betTier: int, chain: TxResult): (r: ServiceResult)
    ensures r.Created? <==> CreateGuard(initialized, wallet, betTier).None? && chain.TxOk?
    ensures r.Created? ==> r.tier.id == betTier && r.gameId == chain.gameId && r.txHash == chain.txHash
    ensures !r.Created? ==> r.Failure?
  {
    match CreateGuard(initialized, wallet, betTier)
    case Some(e) => Failure(e)
    case None =>
      match chain
      case TxFailed(e) => Failure(ErrorOr(e, "Failed to create game on blockchain"))
      case TxOk(h, id) => Created(h, id, FindBetTier(betTier).value)
  }

  /** A rejected creation never depends on the chain: it is decided before any call is made. */
  lemma CreateRejectsBeforeChain(initialized: bool, wallet: string, betTier: int, c1: TxResult, c2: TxResult)
    requires CreateGuard(initialized, wallet, betTier).Some?
    ensures CreateGame(initialized, wallet, betTier, c1) == CreateGame(initialized, wallet, betTier, c2)
    ensures CreateGame(initialized, wallet, betTier, c1) == Failure(CreateGuard(initialized, wallet, betTier).value)
  {
  }

  function JoinGuard(initialized: bool, wallet: string): (r: Option<string>)
    ensures r.None? <==> initialized && wallet != ""
  {
    if !initialized then Some(NotInitialized)
    else if wallet == "" then Some("Wallet address is required to join a game")
    else None
  }

  /** `joinGame`: after the guard, the chain join. */
  function JoinGame(initialized: bool, wallet: string, gameId: int, chain: TxResult): (r: ServiceResult)
    ensures r.Joined? <==> JoinGuard(initialized, wallet).None? && chain.TxOk?
    ensures r.Joined? ==> r.gameId == gameId && r.txHash == chain.txHash
    ensures JoinGuard(initialized, wallet).Some? ==> r == Failure(JoinGuard(initialized, wallet).value)
    ensures !r.Joined? ==> r.Failure?
  {
    match JoinGuard(initialized, wallet)
    case Some(e) => Failure(e)
    case None =>
      match chain
      case TxFailed(e) => Failure(ErrorOr(e, "Failed to join game on blockchain"))
      case TxOk(h, _) => Joined(h, gameId)
  }

  function SubmitGuard(initialized: bool, wallet: string): (r: Option<string>)
    ensures r.None? <==> initialized && wallet != ""
  {
    if !initialized then Some(NotInitialized)
    else if wallet == "" then Some("Wallet address is required to submit score")
    else None
  }

  /** `submitScore`'s outcome and whether it notifies the backend that the game is finished. */
  datatype Submission = Submission(result: ServiceResult, notifiesFinish: bool)

  /** `submitScore`: success only when the chain reports success; only then is the backend told
      the game is finished, and a failure of that notification changes nothing. */
  function SubmitScore(initialized: bool, wallet: string, chain: TxResult): (r: Submission)
    ensures r.result.Submitted? <==> SubmitGuard(initialized, wallet).None? && chain.TxOk?
    ensures r.notifiesFinish <==> r.result.Submitted?
    ensures r.result.Submitted? ==> r.result.txHash == chain.txHash
    ensures !r.result.Submitted? ==> r.result.Failure?
  {
    match SubmitGuard(initialized, wallet)
    case Some(e) => Submission(Failure(e), false)
    case None =>
      match chain
      case TxFailed(e) => Submission(Failure(ErrorOr(e, "Failed to submit score")), false)
      case TxOk(h, _) => Submission(Submitted(h), true)
  }

  /** A game row as the database lists it; absent columns are `None`. */
  datatype GameRow = GameRow(gameId: int, betAmount: string, betTier: int, player1: string,
                             player2: Option<string>, state: Option<int>, createdAt: int)

  /** A listed game as the lobby receives it. */
  datatype ListedGame = ListedGame(gameId: int, betAmount: string, betTier: int, player1: string,
                                   player2: string, state: int, createdAt: int)

  /** `g.player2_address || '0x0'` and `g.state || 0`. */
  function ToListed(g: GameRow): (l: ListedGame)
    ensures l.player2 == "0x0" <==> g.player2.None? || g.player2 == Some("") || g.player2 == Some("0x0")
    ensures l.state == 0 <==> g.state.None? || g.state == Some(0)
    ensures g.player2.Some? && g.player2.value != "" ==> l.player2 == g.player2.value
    ensures g.state.Some? ==> l.state == g.state.value
    ensures l.gameId == g.gameId && l.betAmount == g.betAmount && l.betTier == g.betTier &&
            l.player1 == g.player1 && l.createdAt == g.createdAt
  {
    ListedGame(g.gameId, g.betAmount, g.betTier, g.player1,
               if g.player2.None? || g.player2 == Some("") then "0x0" else g.player2.value,
               if g.state.None? then 0 else g.state.value,
               g.createdAt)
  }

  /** `getAvailableGames`: every row mapped in order; a failed query lists nothing. */
  function AvailableGames(rows: Option<seq<GameRow>>): (r: seq<ListedGame>)
    ensures rows.None? ==> r == []
    ensures rows.Some? ==> |r| == |rows.value|
    ensures rows.Some? ==> forall i :: 0 <= i < |r| ==> r[i] == ToListed(rows.value[i])
  {
    match rows
    case None => []
    case Some(gs) => seq(|gs|, i requires 0 <= i < |gs| => ToListed(gs[i]))
  }

  /** `formatAddress`: the first six characters, an ellipsis and the last four. */
  function FormatAddress(address: string): (r: string)
    ensures address == "" ==> r == ""
    ensures address != "" ==>
              |r| == (if |address| <= 6 then |address| else 6) + 3 + (if |address| <= 4 then |address| else 4)
    ensures address != "" ==> |address| >= 6 ==> r[..6] == address[..6]
    ensures address != "" && |address| < 6 ==> r[..|address|] == address
    ensures address != "" && |address| < 4 ==> r[|r| - |address|..] == address
    ensures address != "" ==>
              var h := if |address| <= 6 then |address| else 6; r[h..h + 3] == "..."
    ensures address != "" ==> |address| >= 4 ==> r[|r| - 4..] == address[|address| - 4..]
    ensures address != "" && |address| >= 10 ==> |r| == 13
  {
    if address == "" then ""
    else
      var head := if |address| <= 6 then address else address[..6];
      head + "..." + TakeLast(address, 4)
  }

  /** `normalizeAddress`: lower case with a `0x` prefix; the empty string stays empty. */
  function NormalizeAddress(address: string): (r: string)
    ensures address == "" <==> r == ""
    ensures address != "" ==> IsLower(r) && StartsWith(r, "0x")
    ensures address != "" && StartsWith(Lower(address), "0x") ==> r == Lower(address)
    ensures address != "" && !StartsWith(Lower(address), "0x") ==> r == "0x" + Lower(address)
  {
    if address == "" then ""
    else
      var low := Lower(address);
      LowerIsLower(address);
      if StartsWith(low, "0x") then low
      else
        assert forall i :: 0 <= i < |"0x"| ==> !('A' <= "0x"[i] <= 'Z');
        "0x" + low
  }

  /** Normalising twice is normalising once. */
  lemma NormalizeIdempotent(address: string)
    ensures NormalizeAddress(NormalizeAddress(address)) == NormalizeAddress(address)
  {
    var n := NormalizeAddress(address);
    if n != "" {
      LowerIsLower(n);
    }
  }

  /** `compareAddresses`. */
  predicate CompareAddresses(a: string, b: string) {
    NormalizeAddress(a) == NormalizeAddress(b)
  }

  /** Comparison is an equivalence, and a missing address matches only a missing address. */
  lemma CompareIsEquivalence(a: string, b: string, c: string)
    ensures CompareAddresses(a, a)
    ensures CompareAddresses(a, b) ==> CompareAddresses(b, a)
    ensures CompareAddresses(a, b) && CompareAddresses(b, c) ==> CompareAddresses(a, c)
    ensures CompareAddresses(a, "") <==> a == ""
  {
  }

  /** Comparison ignores letter case and a missing `0x` prefix. */
  lemma CompareIgnoresCaseAndPrefix(a: string, b: string)
    ensures Lower(a) == Lower(b) ==> CompareAddresses(a, b)
    ensures a != "" && !StartsWith(Lower(a), "0x") ==> CompareAddresses(a, "0x" + a)
  {
    if a != "" && !StartsWith(Lower(a), "0x") {
      LowerAppend("0x", a);
      assert Lower("0x") == "0x";
      var l := Lower("0x" + a);
      assert l == "0x" + Lower(a);
      assert l[..2] == "0x";
    }
  }
}
