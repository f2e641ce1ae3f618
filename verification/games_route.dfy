/** The backend's in-memory lobby: the `gamesCache` list that the game routes and the sweep
    interval share. Each handler is a method of `GamesCache`; the time a handler reads is
    its `now` parameter, in milliseconds. Game ids are held in their string form, which is how
    the routes match them; a game created without an id holds none, and a lookup that reaches
    it calls `toString` on nothing and throws. The broadcasts and the HTTP responses are left out; only the
    `success` flag of a finish is returned. */
module GamesRoute {
  import opened Common

  datatype CachedGame = CachedGame(gameId: Option<string>, betAmount: string, player1: string,
                                   player2: Option<string>, state: int, createdAt: int,
                                   transactionHash: string, joinedAt: Option<int>,
                                   joinTransactionHash: Option<string>)

  /** How long an unjoined game stays listed. */
  const TtlMs := 60000

  /** A game still waiting for its second player and created at most a minute ago. */
  predicate Open(g: CachedGame, now: int) {
    g.state == 0 && g.createdAt >= now - TtlMs
  }

  /** The open games of the cache, in their order. */
  function OpenGames(games: seq<CachedGame>, now: int): (r: seq<CachedGame>)
    ensures forall g :: g in r <==> g in games && Open(g, now)
    ensures |r| <= |games|
  {
    Filter(games, (g: CachedGame) => Open(g, now))
  }

  /** Listing the open games of a list of open games changes nothing: a sweep leaves exactly
      what `/available` would list at the same moment. */
  lemma OpenGamesIdempotent(games: seq<CachedGame>, now: int)
    ensures OpenGames(OpenGames(games, now), now) == OpenGames(games, now)
  {
    FilterIdempotent(games, (g: CachedGame) => Open(g, now));
  }

  /** `findIndex` on the id's string form, when it does not throw: the first position holding
      the id, or -1. */
  function FindGame(games: seq<CachedGame>, id: string): (i: int)
    ensures -1 <= i < |games|
    ensures i == -1 <==> forall g :: g in games ==> g.gameId != Some(id)
    ensures i >= 0 ==> games[i].gameId == Some(id) && forall j :: 0 <= j < i ==> games[j].gameId != Some(id)
  {
    if games == [] then -1
    else if games[0].gameId == Some(id) then 0
    else
      var k := FindGame(games[1..], id);
      assert forall g :: g in games ==> g == games[0] || g in games[1..];
      if k == -1 then -1 else k + 1
  }

  /** `findIndex` throws at position `k`: the game there has no id, and no game before it has
      `id`. */
  ghost predicate ThrowsAt(games: seq<CachedGame>, id: string, k: int) {
    0 <= k < |games| && games[k].gameId.None? && forall j :: 0 <= j < k ==> games[j].gameId != Some(id)
  }

  /** Whether `findIndex` throws: it meets a game without an id before any game with `id`. */
  function LookupThrows(games: seq<CachedGame>, id: string): (t: bool)
    ensures t <==> exists k :: ThrowsAt(games, id, k)
  {
    if games == [] then false
    else if games[0].gameId.None? then assert ThrowsAt(games, id, 0); true
    else if games[0].gameId == Some(id) then false
    else
      ThrowsAtShift(games, id);
      LookupThrows(games[1..], id)
  }

  /** Past a game with another id, the lookup throws exactly when it throws on the rest. */
  lemma ThrowsAtShift(games: seq<CachedGame>, id: string)
    requires games != [] && games[0].gameId.Some? && games[0].gameId != Some(id)
    ensures (exists k :: ThrowsAt(games, id, k)) <==> (exists k :: ThrowsAt(games[1..], id, k))
  {
    if k :| ThrowsAt(games, id, k) {
      assert ThrowsAt(games[1..], id, k - 1);
    }
    if k :| ThrowsAt(games[1..], id, k) {
      assert ThrowsAt(games, id, k + 1);
    }
  }

  /** Every cached game has an id. */
  predicate AllIdsPresent(games: seq<CachedGame>) {
    forall g :: g in games ==> g.gameId.Some?
  }

  /** A cache whose games all have ids never makes a lookup throw. */
  lemma IdsPresentNeverThrows(games: seq<CachedGame>, id: string)
    requires AllIdsPresent(games)
    ensures !LookupThrows(games, id)
  {

  }

  /** A game created without an id in front of a game makes every later lookup of that game
      throw. */
  lemma MissingIdBlocksLaterGames(g: CachedGame, h: CachedGame, id: string)
    requires g.gameId.None? && h.gameId == Some(id)
    ensures LookupThrows([g, h], id) && FindGame([g, h], id) == 1
  {
  }

  /** A joined game that the sweep removes before its removal timer fires leaves the timer's
      lookup to meet a waiting game created without an id: the join's own lookup succeeds, the
      timer's throws. */
  lemma SweptJoinThrowsInTimer(a: CachedGame, x: CachedGame, player2: string, tx: string, now: int)
    requires a.gameId == Some("5") && x.gameId.None? && Open(x, now)
    ensures var joined := [Joined(a, player2, tx, now), x];
      FindGame(joined, "5") == 0 && !LookupThrows(joined, "5") &&
      OpenGames(joined, now) == [x] && LookupThrows(OpenGames(joined, now), "5")
  {
    var joined := [Joined(a, player2, tx, now), x];
    assert ThrowsAt([x], "5", 0);
    assert !Open(joined[0], now);
    assert OpenGames(joined, now) == [x];
  }

  /** The list without its first game of id `id`; the list itself when there is none. */
  function RemoveFirst(games: seq<CachedGame>, id: string): (r: seq<CachedGame>)
    ensures FindGame(games, id) == -1 ==> r == games
    ensures FindGame(games, id) >= 0 ==> |r| == |games| - 1
    ensures forall g :: g in games && g.gameId != Some(id) ==> g in r
    ensures forall g :: g in r ==> g in games
  {
    var i := FindGame(games, id);
    if i == -1 then games
    else
      assert games == games[..i] + [games[i]] + games[i + 1..];
      games[..i] + games[i + 1..]
  }

  /** Every id occurs at most once. */
  predicate UniqueIds(games: seq<CachedGame>) {
    forall i, j :: 0 <= i < j < |games| ==> games[i].gameId != games[j].gameId
  }

  /** With unique ids, removing a game removes its id altogether, so finishing the same game a
      second time leaves the cache as the first finish left it. */
  lemma FinishTwiceIsFinishOnce(games: seq<CachedGame>, id: string)
    requires UniqueIds(games)
    ensures FindGame(RemoveFirst(games, id), id) == -1
    ensures RemoveFirst(RemoveFirst(games, id), id) == RemoveFirst(games, id)
  {
    var i := FindGame(games, id);
    if i >= 0 {
      var r := RemoveFirst(games, id);
      assert r == games[..i] + games[i + 1..];
      forall k | 0 <= k < |r| ensures r[k].gameId != Some(id) {
        if k < i {
          assert r[k] == games[k];
        } else {
          assert r[k] == games[k + 1];
        }
      }
      assert forall g :: g in r ==> g.gameId != Some(id);
    }
  }

  /** The entry a join leaves in the cache. */
  function Joined(g: CachedGame, player2: string, tx: string, now: int): (j: CachedGame)
    ensures j.state == 1 && j.player2 == Some(player2)
    ensures j.joinedAt == Some(now) && j.joinTransactionHash == Some(tx)
    ensures j.gameId == g.gameId && j.betAmount == g.betAmount && j.player1 == g.player1
    ensures j.createdAt == g.createdAt && j.transactionHash == g.transactionHash
  {
    g.(player2 := Some(player2), state := 1, joinedAt := Some(now), joinTransactionHash := Some(tx))
  }

  /** A joined game is never listed again: the sweep and `/available` both drop it. */
  lemma JoinedIsNotOpen(g: CachedGame, player2: string, tx: string, now: int, later: int)
    ensures !Open(Joined(g, player2, tx, now), later)
  {
  }

  /** The answer of a join: the joined game, a 404, or a 500 when the lookup threw. */
  datatype JoinStatus = JoinOk | JoinNotFound | JoinServerError

  class GamesCache {
    var games: seq<CachedGame>
    /** Whether an uncaught exception has ended the server process. The process has no
        handler for it, so the in-memory list is lost; a restarted process starts again from
        the empty list. */
    var crashed: bool

    constructor ()
      ensures games == [] && !crashed
    {
      games := [];
      crashed := false;
    }

    /** The sweep interval: keeps exactly the open games and reports how many it dropped. */
    method Sweep(now: int) returns (removed: int)
      modifies this
      ensures crashed == old(crashed)
      ensures games == OpenGames(old(games), now)
      ensures removed == |old(games)| - |games| && removed >= 0
    {
      var before := |games|;
      games := OpenGames(games, now);
      removed := before - |games|;
    }

    /** `GET /available`: the open games, leaving the cache as it is. */
    method Available(now: int) returns (list: seq<CachedGame>)
      ensures forall g :: g in list <==> g in games && Open(g, now)
      ensures list == OpenGames(games, now)
    {
      list := OpenGames(games, now);
    }

    /** `POST /`: appends a waiting game created now. */
    method Create(id: Option<string>, betAmount: string, player1: string, tx: string, now: int)
      returns (game: CachedGame)
      modifies this
      ensures crashed == old(crashed)
      ensures games == old(games) + [game]
      ensures game.gameId == id && game.betAmount == betAmount && game.player1 == player1
      ensures game.player2.None? && game.state == 0 && game.createdAt == now
      ensures Open(game, now)
      ensures id.Some? && AllIdsPresent(old(games)) ==> AllIdsPresent(games)
    {
      game := CachedGame(id, betAmount, player1, None, 0, now, tx, None, None);
      games := games + [game];
    }

    /** `POST /:gameId/join`: marks the first game of that id as joined; an unknown id is a
        404, and a lookup that throws is a 500; neither changes anything. */
    method Join(id: string, player2: string, tx: string, now: int) returns (status: JoinStatus)
      modifies this
      ensures crashed == old(crashed)
      ensures status == JoinServerError <==> LookupThrows(old(games), id)
      ensures status == JoinOk <==> !LookupThrows(old(games), id) && FindGame(old(games), id) >= 0
      ensures |games| == |old(games)|
      ensures status == JoinOk ==> var i := FindGame(old(games), id);
                games == old(games)[i := Joined(old(games)[i], player2, tx, now)]
      ensures status != JoinOk ==> games == old(games)
    {
      if LookupThrows(games, id) {
        return JoinServerError;
      }
      var i := FindGame(games, id);
      if i < 0 {
        return JoinNotFound;
      }
      games := games[i := Joined(games[i], player2, tx, now)];
      status := JoinOk;
    }

    /** The timer set by a join: removes the first game of that id only when it is still
        there and no longer waiting. Its lookup runs outside the route's `try`, so a throw
        there is uncaught and ends the process: `thrown` reports it, and every cached game,
        the other players' waiting games included, is lost. */
    method RemoveStarted(id: string) returns (thrown: bool)
      modifies this
      ensures thrown == LookupThrows(old(games), id)
      ensures thrown ==> crashed && games == []
      ensures !thrown ==> crashed == old(crashed)
      ensures !thrown ==> var i := FindGame(old(games), id);
        if i >= 0 && old(games)[i].state != 0 then games == RemoveFirst(old(games), id)
        else games == old(games)
    {
      thrown := LookupThrows(games, id);
      if thrown {
        crashed := true;
        games := [];
        return;
      }
      var i := FindGame(games, id);
      if i >= 0 && games[i].state != 0 {
        games := RemoveFirst(games, id);
      }
    }

    /** `POST /:gameId/finish`: removes the first game of that id, if any, and succeeds
        either way, unless the lookup throws, which is a 500 that changes nothing. */
    method Finish(id: string) returns (success: bool)
      modifies this
      ensures crashed == old(crashed)
      ensures success == !LookupThrows(old(games), id)
      ensures success ==> games == RemoveFirst(old(games), id)
      ensures !success ==> games == old(games)
    {
      success := !LookupThrows(games, id);
      if success {
        games := RemoveFirst(games, id);
      }
    }
  }

  /** A join leaves every id where it was, so the joined game is still the first of its id
      and the other games are all still there. */
  lemma JoinKeepsIds(games: seq<CachedGame>, id: string, player2: string, tx: string, now: int)
    requires FindGame(games, id) >= 0
    ensures var i := FindGame(games, id);
      var joined := games[i := Joined(games[i], player2, tx, now)];
      (UniqueIds(games) ==> UniqueIds(joined)) && FindGame(joined, id) == i && joined[i].state == 1 &&
      LookupThrows(joined, id) == LookupThrows(games, id) &&
      forall g :: g in games && g.gameId != Some(id) ==> g in joined
  {
    var i := FindGame(games, id);
    var joined := games[i := Joined(games[i], player2, tx, now)];
    assert forall k :: 0 <= k < |games| ==> joined[k].gameId == games[k].gameId;
    FindSameIds(games, joined, id);
    forall g | g in games && g.gameId != Some(id) ensures g in joined {
      var m :| 0 <= m < |games| && games[m] == g;
      assert joined[m] == g;
    }
  }

  /** Two lists with the same ids position by position find an id at the same place, and a
      lookup throws on both or on neither. */
  lemma {:induction false} FindSameIds(a: seq<CachedGame>, b: seq<CachedGame>, id: string)
    requires |a| == |b| && forall k :: 0 <= k < |a| ==> a[k].gameId == b[k].gameId
    ensures FindGame(a, id) == FindGame(b, id)
    ensures LookupThrows(a, id) == LookupThrows(b, id)
    decreases |a|
  {
    if a != [] && a[0].gameId.Some? && a[0].gameId != Some(id) {
      FindSameIds(a[1..], b[1..], id);
    }
  }

  /** Joining a game and letting its removal timer run takes it out of the cache when its id
      was unique, and leaves every other game in place; when the join's lookup throws, the
      join is a 500, no timer is set and the cache is unchanged. */
  method JoinThenRemove(cache: GamesCache, id: string, player2: string, tx: string, now: int)
    requires UniqueIds(cache.games) && FindGame(cache.games, id) >= 0
    modifies cache
    ensures !LookupThrows(old(cache.games), id) ==> forall g :: g in cache.games ==> g.gameId != Some(id)
    ensures forall g :: g in old(cache.games) && g.gameId != Some(id) ==> g in cache.games
    ensures LookupThrows(old(cache.games), id) ==> cache.games == old(cache.games)
    ensures cache.crashed == old(cache.crashed)
  {
    JoinKeepsIds(cache.games, id, player2, tx, now);
    var status := cache.Join(id, player2, tx, now);
    if status == JoinOk {
      ghost var joined := cache.games;
      var thrown := cache.RemoveStarted(id);
      FinishTwiceIsFinishOnce(joined, id);
    }
  }
}
