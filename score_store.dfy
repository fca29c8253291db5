/**
 * The score log of js/storage/games-storage.js (class GameStorage): for
 * every user id, for every game id, the list of {score, timestamp} entries
 * in the order they were saved. The browser's local storage and its JSON
 * encoding are the field `scores`; timestamps are milliseconds.
 */
module ScoreStore {
  import opened Wrappers

  type UserId = int
  type GameId = string

  datatype Entry = Entry(score: int, timestamp: int)

  /** An entry of a high-score table: `{userId, ...entry}`. */
  datatype Tagged = Tagged(userId: UserId, score: int, timestamp: int)

  type Scores = map<UserId, map<GameId, seq<Entry>>>

  /** The per-game figures of `getUserStats`. */
  datatype Stats = Stats(gamesPlayed: nat, highScore: int, averageScore: real, lastPlayed: int)

  const DefaultLimit := 10

  /** The user's games, or none for an unknown user (`scores[userId] || {}`). */
  function UserGames(m: Scores, u: UserId): map<GameId, seq<Entry>> {
    if u in m then m[u] else map[]
  }

  /** The list stored for (u, g), empty when there is none. */
  function Stored(m: Scores, u: UserId, g: GameId): seq<Entry> {
    var games := UserGames(m, u);
    if g in games then games[g] else []
  }

  /** Every stored list is non-empty: a list is only created by a push. */
  ghost predicate NoEmptyLists(m: Scores) {
    forall u, g :: u in m && g in m[u] ==> |m[u][g]| > 0
  }

  /**
   * The log after `saveScore(u, g, …)` appended `e`: the user map and the
   * game list are created when absent, `e` goes at the end of (u, g)'s
   * list, and every other list is as it was.
   */
  function WithEntry(m: Scores, u: UserId, g: GameId, e: Entry): (r: Scores)
    ensures r.Keys == m.Keys + {u}
    ensures r[u].Keys == UserGames(m, u).Keys + {g}
    ensures r[u][g] == Stored(m, u, g) + [e]
    ensures forall u' :: u' in m && u' != u ==> r[u'] == m[u']
    ensures forall g' :: g' in UserGames(m, u) && g' != g ==> r[u][g'] == m[u][g']
    ensures NoEmptyLists(m) ==> NoEmptyLists(r)
  {
    var games := UserGames(m, u);
    m[u := games[g := Stored(m, u, g) + [e]]]
  }

  /** Reading a user's scores after a save sees the new entry last, and nothing else moved. */
  lemma SaveThenRead(m: Scores, u: UserId, g: GameId, e: Entry, v: UserId, h: GameId)
    ensures Stored(WithEntry(m, u, g, e), v, h) ==
      if v == u && h == g then Stored(m, v, h) + [e] else Stored(m, v, h)
  {
  }

  /** How often tagged entry `t` occurs among game `g`'s stored entries. */
  function PoolCount(m: Scores, g: GameId, t: Tagged): nat {
    multiset(Stored(m, t.userId, g))[Entry(t.score, t.timestamp)]
  }

  /** `all` holds game `g`'s entries of every user except those still `pending`. */
  ghost predicate Gathered(all: seq<Tagged>, m: Scores, g: GameId, pending: set<UserId>) {
    forall t :: multiset(all)[t] == if t.userId in pending then 0 else PoolCount(m, g, t)
  }

  /** Some element of a non-empty set of user ids, in no particular order. */
  method Pick(s: set<UserId>) returns (u: UserId)
    requires s != {}
    ensures u in s
  {
    if forall x :: x !in s {
      assert false;
    }
    u :| u in s;
  }

  /** Adding user `u`'s list of game `g` (if any) moves `u` out of `pending`. */
  lemma GatherOne(all: seq<Tagged>, m: Scores, g: GameId, pending: set<UserId>, u: UserId)
    requires u in pending && u in m && Gathered(all, m, g, pending)
    ensures Gathered(all + (if g in m[u] then TagAll(u, m[u][g]) else []), m, g, pending - {u})
  {
    var added := if g in m[u] then TagAll(u, m[u][g]) else [];
    forall t ensures multiset(all + added)[t] ==
      if t.userId in pending - {u} then 0 else PoolCount(m, g, t)
    {
      if g in m[u] {
        TagAllCount(u, m[u][g], t);
      }
    }
  }

  /** The entries of one list, each tagged with its owner. */
  function TagAll(u: UserId, es: seq<Entry>): (ts: seq<Tagged>)
    ensures |ts| == |es|
    ensures forall k :: 0 <= k < |es| ==> ts[k] == Tagged(u, es[k].score, es[k].timestamp)
  {
    if es == [] then [] else [Tagged(u, es[0].score, es[0].timestamp)] + TagAll(u, es[1..])
  }

  lemma {:induction false} TagAllCount(u: UserId, es: seq<Entry>, t: Tagged)
    ensures multiset(TagAll(u, es))[t] ==
      if t.userId == u then multiset(es)[Entry(t.score, t.timestamp)] else 0
  {
    if es != [] {
      TagAllCount(u, es[1..], t);
      assert es == [es[0]] + es[1..];
    }
  }

  predicate SortedDesc(s: seq<Tagged>) {
    forall i, j :: 0 <= i < j < |s| ==> s[i].score >= s[j].score
  }

  /** An entry no lower than everything after it heads a sorted list. */
  lemma ConsSorted(h: Tagged, s: seq<Tagged>)
    requires SortedDesc(s)
    requires forall x :: x in s ==> x.score <= h.score
    ensures SortedDesc([h] + s)
  {
    var r := [h] + s;
    forall i, j | 0 <= i < j < |r| ensures r[i].score >= r[j].score {
      assert r[j] == s[j - 1];
      if i > 0 {
        assert r[i] == s[i - 1];
      } else {
        assert r[j] in s;
      }
    }
  }

  /** The head of a sorted list is its highest entry. */
  lemma HeadHighest(s: seq<Tagged>)
    requires SortedDesc(s)
    ensures s != [] ==> forall x :: x in s ==> x.score <= s[0].score
  {
    forall x | x in s ensures x.score <= s[0].score {
      var k :| 0 <= k < |s| && s[k] == x;
      if k > 0 {
        assert s[0].score >= s[k].score;
      }
    }
  }

  /** Place `t` in front of the first entry with a lower score. */
  function Insert(t: Tagged, s: seq<Tagged>): (r: seq<Tagged>)
    requires SortedDesc(s)
    ensures SortedDesc(r)
    ensures multiset(r) == multiset(s) + multiset{t}
    ensures forall x :: x in r ==> x == t || x in s
  {
    if s == [] || s[0].score < t.score then
      HeadHighest(s);
      ConsSorted(t, s);
      [t] + s
    else
      HeadHighest(s);
      assert s == [s[0]] + s[1..];
      var rest := Insert(t, s[1..]);
      ConsSorted(s[0], rest);
      [s[0]] + rest
  }

  /** `.sort((a, b) => b.score - a.score)`: by score, highest first. */
  function SortByScore(s: seq<Tagged>): (r: seq<Tagged>)
    ensures SortedDesc(r)
    ensures multiset(r) == multiset(s)
  {
    if s == [] then []
    else
      assert s == [s[0]] + s[1..];
      Insert(s[0], SortByScore(s[1..]))
  }

  /** Where `.slice(0, limit)` stops on a list of `n` entries. */
  function SliceEnd(n: nat, limit: int): (k: nat)
    ensures k <= n
    ensures 0 <= limit ==> k == if limit < n then limit else n
    ensures limit < 0 ==> k == if n + limit > 0 then n + limit else 0
  {
    if limit < 0 then (if n + limit > 0 then n + limit else 0)
    else if limit < n then limit else n
  }

  /**
   * `.slice(0, limit)` of a list sorted best first keeps a sorted part of
   * it, all of it when it comes out shorter than `limit`, and nothing it
   * leaves out scores higher than anything it keeps.
   */
  lemma TopOfSorted(s: seq<Tagged>, limit: int)
    requires SortedDesc(s)
    ensures var top := s[..SliceEnd(|s|, limit)];
      && SortedDesc(top)
      && (0 <= limit ==> |top| <= limit)
      && (forall t :: multiset(top)[t] <= multiset(s)[t])
      && (|top| < limit ==> top == s)
      && (forall t, i :: 0 <= i < |top| && multiset(top)[t] < multiset(s)[t] ==> t.score <= top[i].score)
  {
    var k := SliceEnd(|s|, limit);
    var top := s[..k];
    assert s == top + s[k..];
    assert multiset(s) == multiset(top) + multiset(s[k..]);
    forall t, i | 0 <= i < |top| && multiset(top)[t] < multiset(s)[t]
      ensures t.score <= top[i].score
    {
      assert t in multiset(s[k..]);
      assert t in s[k..];
    }
  }

  class GameStorage {
    var scores: Scores

    ghost predicate Valid()
      reads this
    {
      NoEmptyLists(scores)
    }

    /** A fresh store (`initStorage` on empty local storage). */
    constructor ()
      ensures Valid() && scores == map[]
    {
      scores := map[];
    }

    /** saveScore(userId, gameId, score); `now` is the moment of the call. */
    method SaveScore(userId: UserId, gameId: GameId, score: int, now: int)
      modifies this
      ensures scores == WithEntry(old(scores), userId, gameId, Entry(score, now))
      ensures old(Valid()) ==> Valid()
    {
      var games := if userId in scores then scores[userId] else map[];
      var list := if gameId in games then games[gameId] else [];
      list := list + [Entry(score, now)];
      scores := scores[userId := games[gameId := list]];
    }

    /** getUserScores(userId). */
    function GetUserScores(userId: UserId): (games: map<GameId, seq<Entry>>)
      reads this
      ensures userId !in scores ==> games == map[]
      ensures userId in scores ==> games == scores[userId]
    {
      UserGames(scores, userId)
    }

    /** The loop of getGameHighScores that gathers every entry of `gameId`, tagged with its owner. */
    method CollectEntries(gameId: GameId) returns (all: seq<Tagged>)
      ensures forall t :: multiset(all)[t] == PoolCount(scores, gameId, t)
    {
      all := [];
      var pending := scores.Keys;
      while pending != {}
        invariant pending <= scores.Keys
        invariant Gathered(all, scores, gameId, pending)
        decreases |pending|
      {
        var u := Pick(pending);
        ghost var before := all;
        if gameId in scores[u] {
          all := all + TagAll(u, scores[u][gameId]);
        }
        GatherOne(before, scores, gameId, pending, u);
        pending := pending - {u};
      }
    }

    /**
     * getGameHighScores(gameId, limit): every stored entry of `gameId`,
     * tagged with its owner, best first, cut to `limit`. The result is part
     * of the stored entries, sorted, at most `limit` long, complete when
     * shorter than `limit`, and no entry left out beats one kept.
     */
    method GetGameHighScores(gameId: GameId, limit: int := DefaultLimit) returns (top: seq<Tagged>)
      ensures 0 <= limit ==> |top| <= limit
      ensures SortedDesc(top)
      ensures forall t :: multiset(top)[t] <= PoolCount(scores, gameId, t)
      ensures |top| < limit ==> forall t :: multiset(top)[t] == PoolCount(scores, gameId, t)
      ensures forall t, i :: 0 <= i < |top| && multiset(top)[t] < PoolCount(scores, gameId, t) ==>
        t.score <= top[i].score
    {
      var all := CollectEntries(gameId);
      var sorted := SortByScore(all);
      top := sorted[..SliceEnd(|sorted|, limit)];
      TopOfSorted(sorted, limit);
    }

    /**
     * getUserStats(userId): one record per game the user has entries for,
     * computed from that game's list.
     */
    method GetUserStats(userId: UserId) returns (stats: map<GameId, Stats>)
      requires Valid()
      ensures stats.Keys == GetUserScores(userId).Keys
      ensures forall g :: g in stats ==>
        (|GetUserScores(userId)[g]| > 0 && stats[g] == GameStats(GetUserScores(userId)[g]))
    {
      var games := GetUserScores(userId);
      stats := map[];
      var pending := games.Keys;
      while pending != {}
        invariant pending <= games.Keys
        invariant stats.Keys == games.Keys - pending
        invariant forall g :: g in stats ==> |games[g]| > 0 && stats[g] == GameStats(games[g])
        decreases |pending|
      {
        var g :| g in pending;
        stats := stats[g := GameStats(games[g])];
        pending := pending - {g};
      }
    }
  }

  function SumScores(es: seq<Entry>): int {
    if es == [] then 0 else es[0].score + SumScores(es[1..])
  }

  /** `Math.max(...scores)` over a non-empty list. */
  function HighScore(es: seq<Entry>): (h: int)
    requires |es| > 0
    ensures forall k :: 0 <= k < |es| ==> es[k].score <= h
    ensures exists k :: 0 <= k < |es| && es[k].score == h
  {
    if |es| == 1 then es[0].score
    else
      var rest := HighScore(es[1..]);
      if es[0].score >= rest then es[0].score else rest
  }

  /**
   * The statistics of one game's list: its length, its highest score, the
   * mean score and the timestamp of the entry saved last.
   */
  function GameStats(es: seq<Entry>): (s: Stats)
    requires |es| > 0
    ensures s.gamesPlayed == |es| && s.lastPlayed == es[|es| - 1].timestamp
    ensures forall k :: 0 <= k < |es| ==> es[k].score <= s.highScore
    ensures exists k :: 0 <= k < |es| && es[k].score == s.highScore
    ensures s.averageScore * (|es| as real) == SumScores(es) as real
  {
    Stats(|es|, HighScore(es), (SumScores(es) as real) / (|es| as real), es[|es| - 1].timestamp)
  }
}
