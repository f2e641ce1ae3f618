/** The decision logic of the push-chain game service: the pre-flight of a score submission,
    the interpretation of a game's on-chain record for the results screen, and the repair call
    for a game both players finished but nobody finalised.

    Contract reads and transactions are given: the game record the pre-flight fetched (absent
    when the read failed) and the outcome of the transaction the service would send. Prize
    amounts are reals in PC; their four-decimal rendering is not modelled. */
module PushChainService {
  import opened Common

  /** The game record `getGame` returns. */
  datatype ChainGame = ChainGame(player1: string, player2: string, state: int,
                                 player1Score: int, player2Score: int,
                                 player1Finished: bool, player2Finished: bool,
                                 winner: string, betAmount: real)

  const ZeroAddress := "0x0000000000000000000000000000000000000000"

  /** What sending a transaction and waiting for it gives: a mined receipt with its status, or
      an error with its message and whether its code is `CALL_EXCEPTION`. */
  datatype TxOutcome = Mined(status: int, hash: string) | TxError(message: string, callException: bool)

  /** `walletAddressOverride`, else the signer's address, else the stored wallet address; the
      signer's address is the empty string when there is no signer. */
  function ResolveWallet(override: string, signerAddress: string, stored: string): (w: string)
    ensures w == "" <==> override == "" && signerAddress == "" && stored == ""
    ensures override != "" ==> w == override
  {
    if override != "" then override else if signerAddress != "" then signerAddress else stored
  }

  /** The verdict of the pre-flight read: send the transaction, or answer without sending. */
  datatype PreFlight = Proceed | AlreadySubmitted | AlreadyFinished

  predicate SameAddress(a: string, b: string) {
    Lower(a) == Lower(b)
  }

  /** The pre-flight: a caller whose own finished flag is set has already submitted; a finished
      game (state 2) needs nothing more. A failed read, a caller who is not a player and a game
      still waiting (state 0) raise errors that the pre-flight swallows, so the transaction is
      sent anyway. */
  function PreFlightOf(game: Option<ChainGame>, wallet: string): (r: PreFlight)
    ensures game.None? ==> r == Proceed
    ensures game.Some? ==> var g := game.value;
      (r == AlreadySubmitted <==>
         (SameAddress(g.player1, wallet) && g.player1Finished) ||
         (SameAddress(g.player2, wallet) && g.player2Finished))
    ensures game.Some? ==> var g := game.value;
      (r == AlreadyFinished <==>
         (SameAddress(g.player1, wallet) || SameAddress(g.player2, wallet)) && r != AlreadySubmitted && g.state == 2)
  {
    match game
    case None => Proceed
    case Some(g) =>
      var isPlayer1 := SameAddress(g.player1, wallet);
      var isPlayer2 := SameAddress(g.player2, wallet);
      if !isPlayer1 && !isPlayer2 then Proceed
      else if isPlayer1 && g.player1Finished then AlreadySubmitted
      else if isPlayer2 && g.player2Finished then AlreadySubmitted
      else if g.state == 0 then Proceed
      else if g.state == 2 then AlreadyFinished
      else Proceed
  }

  /** What `submitMultiplayerScore` answers, and whether it sent a transaction. */
  datatype SubmitAnswer =
    | NotInitialized
    | Submitted(txHash: string)
    | ScoreAlreadySubmitted
    | GameAlreadyFinished
    | SubmitFailed(error: string)

  datatype SubmitResult = SubmitResult(answer: SubmitAnswer, sent: bool)

  /** Whether the answer reports `success: true`; `NotInitialized` is a thrown error. */
  predicate Succeeded(a: SubmitAnswer) {
    a.Submitted? || a.ScoreAlreadySubmitted? || a.GameAlreadyFinished?
  }

  const FriendlyRevert := "Transaction failed. The game may have already ended or you may have already submitted your score."

  /** The message shown for a failed transaction. */
  function TxErrorMessage(message: string, callException: bool): (m: string)
    ensures Contains(message, "execution reverted") || callException ==> m == FriendlyRevert
    ensures !(Contains(message, "execution reverted") || callException) ==> m == message
  {
    if Contains(message, "execution reverted") || callException then FriendlyRevert else message
  }

  /** `submitMultiplayerScore` for the resolved wallet address. */
  function SubmitMultiplayerScore(initialized: bool, wallet: string, game: Option<ChainGame>, tx: TxOutcome): (r: SubmitResult)
    ensures !initialized ==> r == SubmitResult(NotInitialized, false)
    ensures initialized && wallet == "" ==> !r.sent && r.answer.SubmitFailed?
    ensures r.sent <==> initialized && wallet != "" && PreFlightOf(game, wallet) == Proceed
    ensures r.answer == ScoreAlreadySubmitted <==> initialized && wallet != "" && PreFlightOf(game, wallet) == AlreadySubmitted
    ensures r.answer == GameAlreadyFinished <==> initialized && wallet != "" && PreFlightOf(game, wallet) == AlreadyFinished
    ensures r.answer.Submitted? <==> r.sent && tx.Mined? && tx.status != 0
    ensures r.answer.Submitted? ==> r.answer.txHash == tx.hash
  {
    if !initialized then SubmitResult(NotInitialized, false)
    else if wallet == "" then
      SubmitResult(SubmitFailed("Could not determine wallet address. Please ensure your wallet is connected."), false)
    else
      match PreFlightOf(game, wallet)
      case AlreadySubmitted => SubmitResult(ScoreAlreadySubmitted, false)
      case AlreadyFinished => SubmitResult(GameAlreadyFinished, false)
      case Proceed =>
        match tx
        case Mined(status, hash) =>
          if status == 0 then SubmitResult(SubmitFailed("Transaction reverted on-chain"), true)
          else SubmitResult(Submitted(hash), true)
        case TxError(message, callException) => SubmitResult(SubmitFailed(TxErrorMessage(message, callException)), true)
  }

  /** A second submission by a player whose flag the first one set sends nothing and reports
      success, even when the game has meanwhile finished: the already-submitted check comes
      first. */
  lemma ResubmissionIsIdempotent(wallet: string, g: ChainGame, tx: TxOutcome)
    requires wallet != ""
    requires SameAddress(g.player1, wallet) && g.player1Finished
    ensures var r := SubmitMultiplayerScore(true, wallet, Some(g), tx);
      r == SubmitResult(ScoreAlreadySubmitted, false) && Succeeded(r.answer)
  {
  }

  /** The swallowed pre-flight errors: a caller who is not a player, or a game still waiting
      for its second player, still sends the transaction. */
  lemma SwallowedErrorsStillSend(wallet: string, g: ChainGame, tx: TxOutcome)
    requires wallet != ""
    requires (!SameAddress(g.player1, wallet) && !SameAddress(g.player2, wallet)) ||
             (g.state == 0 && !(SameAddress(g.player1, wallet) && g.player1Finished) &&
              !(SameAddress(g.player2, wallet) && g.player2Finished))
    ensures SubmitMultiplayerScore(true, wallet, Some(g), tx).sent
  {
  }

  /** The answer `getMultiplayerGameResult` builds from the record. */
  datatype GameResult = GameResult(isWinner: bool, myScore: int, opponentScore: int, prize: real,
                                   hasWinner: bool, gameState: int, bothPlayersFinished: bool)

  /** `getMultiplayerGameResult`: `None` when the record could not be read. */
  function MultiplayerGameResult(game: Option<ChainGame>, player: string): (r: Option<GameResult>)
    ensures game.None? <==> r.None?
    ensures r.Some? ==> var g := game.value; var v := r.value;
      (v.hasWinner <==> g.winner != ZeroAddress) &&
      (v.isWinner <==> v.hasWinner && SameAddress(g.winner, player)) &&
      (v.isWinner ==> v.prize == g.betAmount * 1.9) &&
      (!v.isWinner ==> v.prize == 0.0) &&
      (v.bothPlayersFinished <==> g.player1Finished && g.player2Finished) &&
      v.gameState == g.state &&
      v.myScore + v.opponentScore == g.player1Score + g.player2Score &&
      (SameAddress(g.player1, player) ==> v.myScore == g.player1Score) &&
      (!SameAddress(g.player1, player) ==> v.myScore == g.player2Score)
  {
    match game
    case None => None
    case Some(g) =>
      var isPlayer1 := SameAddress(g.player1, player);
      var hasWinner := g.winner != ZeroAddress;
      var isWinner := hasWinner && SameAddress(g.winner, player);
      Some(GameResult(isWinner,
                      if isPlayer1 then g.player1Score else g.player2Score,
                      if isPlayer1 then g.player2Score else g.player1Score,
                      if hasWinner then (if isWinner then g.betAmount * 1.9 else 0.0) else 0.0,
                      hasWinner, g.state, g.player1Finished && g.player2Finished))
  }

  /** The two players of a game read the same record from opposite sides: their scores are
      swapped, they agree on whether there is a winner, and at most one of them has won. */
  lemma ResultsAreMirrored(g: ChainGame)
    requires !SameAddress(g.player1, g.player2)
    ensures var a := MultiplayerGameResult(Some(g), g.player1).value;
      var b := MultiplayerGameResult(Some(g), g.player2).value;
      a.myScore == b.opponentScore && a.opponentScore == b.myScore &&
      a.hasWinner == b.hasWinner && !(a.isWinner && b.isWinner)
  {
  }

  /** What `finalizeStuckGame` answers; `NoContract` is a thrown error. */
  datatype FinalizeAnswer = NoContract | Finalized(txHash: string) | FinalizeFailed(error: string)

  function FinalizeStuckGame(hasContract: bool, tx: TxOutcome): (r: FinalizeAnswer)
    ensures !hasContract <==> r == NoContract
    ensures r.Finalized? <==> hasContract && tx.Mined? && tx.status != 0
    ensures r.Finalized? ==> r.txHash == tx.hash
  {
    if !hasContract then NoContract
    else
      match tx
      case Mined(status, hash) =>
        if status == 0 then FinalizeFailed("Finalize transaction reverted") else Finalized(hash)
      case TxError(message, _) => FinalizeFailed(message)
  }
}
