/**
 * The bot's record store: registered players and played matches, kept in two
 * dictionaries keyed by player name and by match id. Python dictionaries remember
 * insertion order, so each map comes with the sequence of its keys in that order.
 * Reading and writing the JSON files is replaced by the in-memory maps.
 */
module DataStore {
  import opened Wrappers
  import opened Text
  import opened Sequences

  /** One player's record. */
  datatype User = User(
    tier: string, rank: string, mainPosition: string, subPosition: string,
    mmr: int, wins: nat, losses: nat, totalGames: nat)

  /** The keyword arguments passed to `update_user`; `None` is a key that was not passed. */
  datatype UserUpdate = UserUpdate(
    tier: Option<string>, rank: Option<string>, mainPosition: Option<string>,
    subPosition: Option<string>, mmr: Option<int>)

  /** One match record. The MVP is optional: the result command stores none. */
  datatype Match = Match(date: string, blueTeam: seq<string>, redTeam: seq<string>, winner: string, mvp: Option<string>)

  /**
   * A match handed to a caller: a copy of the record tagged with its id. Readers look up
   * an optional "result" key in it; `result` is that key, which the store never writes.
   */
  datatype MatchView = MatchView(matchId: string, info: Match, result: Option<string>)

  /** The rating `add_user` stores when the caller gives none. */
  const DefaultMmr: int := 1500

  /** `order` lists the keys of `m` once each. */
  predicate KeysInOrder<V>(m: map<string, V>, order: seq<string>)
  {
    Distinct(order) && (forall k :: k in m ==> k in order) && (forall k :: k in order ==> k in m)
  }

  /** A player who has played keeps wins and losses summing to the games played. */
  predicate Consistent(u: User)
  {
    u.totalGames == u.wins + u.losses
  }

  /** A snapshot of the whole store, for the logic that only reads it. */
  datatype Store = Store(users: map<string, User>, userOrder: seq<string>, matches: map<string, Match>, matchOrder: seq<string>)
  {
    predicate Valid()
    {
      && KeysInOrder(users, userOrder)
      && KeysInOrder(matches, matchOrder)
      && (forall n :: n in users ==> Consistent(users[n]))
    }
  }

  /** `users[name].update(kwargs)`: exactly the passed keys are overwritten. */
  function ApplyUpdate(u: User, upd: UserUpdate): (r: User)
    ensures r.tier == (if upd.tier.Some? then upd.tier.value else u.tier)
    ensures r.rank == (if upd.rank.Some? then upd.rank.value else u.rank)
    ensures r.mainPosition == (if upd.mainPosition.Some? then upd.mainPosition.value else u.mainPosition)
    ensures r.subPosition == (if upd.subPosition.Some? then upd.subPosition.value else u.subPosition)
    ensures r.mmr == (if upd.mmr.Some? then upd.mmr.value else u.mmr)
    ensures r.wins == u.wins && r.losses == u.losses && r.totalGames == u.totalGames
    ensures upd == UserUpdate(None, None, None, None, None) ==> r == u
  {
    User(upd.tier.GetOr(u.tier), upd.rank.GetOr(u.rank), upd.mainPosition.GetOr(u.mainPosition),
         upd.subPosition.GetOr(u.subPosition), upd.mmr.GetOr(u.mmr), u.wins, u.losses, u.totalGames)
  }

  /** One game added to a player's record. */
  function RecordGame(u: User, won: bool): (r: User)
    ensures r.totalGames == u.totalGames + 1
    ensures r.wins == u.wins + (if won then 1 else 0)
    ensures r.losses == u.losses + (if won then 0 else 1)
    ensures r.(wins := u.wins, losses := u.losses, totalGames := u.totalGames) == u
    ensures Consistent(u) ==> Consistent(r)
  {
    if won then u.(wins := u.wins + 1, totalGames := u.totalGames + 1)
    else u.(losses := u.losses + 1, totalGames := u.totalGames + 1)
  }

  /** `k` games, all won or all lost, added to a player's record. */
  function RecordGames(u: User, k: nat, won: bool): User
  {
    u.(wins := u.wins + (if won then k else 0), losses := u.losses + (if won then 0 else k),
       totalGames := u.totalGames + k)
  }

  /** `update_user_stats` on a map: unknown names are ignored. */
  function Credit(users: map<string, User>, name: string, won: bool): map<string, User>
  {
    if name in users then users[name := RecordGame(users[name], won)] else users
  }

  /** The effect of calling `update_user_stats(p, won)` for each `p` in `names`, in order. */
  function CreditAll(users: map<string, User>, names: seq<string>, won: bool): map<string, User>
    decreases |names|
  {
    if names == [] then users
    else Credit(CreditAll(users, names[..|names| - 1], won), names[|names| - 1], won)
  }

  /**
   * Crediting a list of names changes no key, and gives each registered player one game
   * per occurrence of their name, all won or all lost.
   */
  lemma {:induction false} CreditAllEffect(users: map<string, User>, names: seq<string>, won: bool, n: string)
    ensures CreditAll(users, names, won).Keys == users.Keys
    ensures n in users ==> CreditAll(users, names, won)[n] == RecordGames(users[n], Count(names, n), won)
    decreases |names|
  {
    if names != [] {
      CreditAllEffect(users, names[..|names| - 1], won, n);
    }
  }

  /** Crediting keeps every record consistent. */
  lemma {:induction false} CreditAllConsistent(users: map<string, User>, names: seq<string>, won: bool)
    requires forall n :: n in users ==> Consistent(users[n])
    ensures forall n :: n in CreditAll(users, names, won) ==> Consistent(CreditAll(users, names, won)[n])
    decreases |names|
  {
    if names != [] {
      CreditAllConsistent(users, names[..|names| - 1], won);
    }
  }

  /** Zero-pads to three digits: `f"{n:03d}"`. */
  function Pad3(n: nat): (r: string)
    ensures |r| >= 3 && AllDigits(r)
  {
    var s := NatToString(n);
    var r := ZeroPad(s, 3);
    forall k | 0 <= k < |r| ensures IsDigit(r[k]) {
      if k >= |r| - |s| {
        assert r[k] == r[|r| - |s|..][k - (|r| - |s|)];
      }
    }
    r
  }

  /** The match id for a count: `f"match_{n:03d}"`. */
  function MatchId(n: nat): (r: string)
    ensures |r| >= 9 && r[..6] == "match_" && AllDigits(r[6..])
  {
    assert ("match_" + Pad3(n))[6..] == Pad3(n);
    "match_" + Pad3(n)
  }

  /**
   * A match id is "match_" followed by at least three digits, and the number in it
   * reads back as the count it was made from.
   */
  lemma MatchIdNumber(n: nat)
    ensures StartsWith(MatchId(n), "match_") && |MatchId(n)| >= 9
    ensures AllDigits(MatchId(n)[6..]) && ParseNat(MatchId(n)[6..]) == n
  {
    var s := NatToString(n);
    var r := ZeroPad(s, 3);
    assert MatchId(n)[6..] == r;
    var z := r[..|r| - |s|];
    assert r == z + s;
    ParseNatLeadingZeros(z, s);
    ParseNatToString(n);
  }

  /** Different counts give different ids. */
  lemma MatchIdInjective(a: nat, b: nat)
    ensures MatchId(a) == MatchId(b) ==> a == b
  {
    MatchIdNumber(a);
    MatchIdNumber(b);
  }

  /** A key set holding the ids of `hi - lo` consecutive counts has at least that many keys. */
  lemma {:induction false} IdsBound(keys: set<string>, lo: nat, hi: nat)
    requires lo <= hi
    requires forall j: nat :: lo <= j < hi ==> MatchId(j) in keys
    ensures hi - lo <= |keys|
    decreases hi
  {
    if lo < hi {
      var last := MatchId(hi - 1);
      var rest := keys - {last};
      forall j: nat | lo <= j < hi - 1 ensures MatchId(j) in rest {
        MatchIdInjective(j, hi - 1);
      }
      IdsBound(rest, lo, hi - 1);
    }
  }

  /** `name in blue_team or name in red_team`. */
  predicate Plays(m: Match, name: string)
  {
    name in m.blueTeam || name in m.redTeam
  }

  /** `get_user_matches`: the matches in `order` that list `name` on either side, in order. */
  function UserMatchesOf(matches: map<string, Match>, order: seq<string>, name: string): (r: seq<MatchView>)
    ensures |r| <= |order|
    ensures forall k :: 0 <= k < |r| ==> r[k].result == None && Plays(r[k].info, name)
    decreases |order|
  {
    if order == [] then []
    else
      var rest := UserMatchesOf(matches, order[..|order| - 1], name);
      var id := order[|order| - 1];
      if id in matches && Plays(matches[id], name) then rest + [MatchView(id, matches[id], None)] else rest
  }

  /** A view is listed exactly when it is a copy of a stored match the player took part in. */
  lemma {:induction false} UserMatchesExact(matches: map<string, Match>, order: seq<string>, name: string, v: MatchView)
    ensures v in UserMatchesOf(matches, order, name) <==>
      v.matchId in order && v.matchId in matches && v.info == matches[v.matchId] &&
      Plays(v.info, name) && v.result == None
    decreases |order|
  {
    if order != [] {
      UserMatchesExact(matches, order[..|order| - 1], name, v);
      assert order == order[..|order| - 1] + [order[|order| - 1]];
    }
  }

  /** The listed matches keep the store's order and list each match once. */
  lemma {:induction false} UserMatchesOrdered(matches: map<string, Match>, order: seq<string>, name: string)
    requires Distinct(order)
    ensures |UserMatchesOf(matches, order, name)| <= |order|
    ensures Distinct(UserMatchesOf(matches, order, name))
    decreases |order|
  {
    if order != [] {
      var front := order[..|order| - 1];
      assert Distinct(front);
      UserMatchesOrdered(matches, front, name);
      var id := order[|order| - 1];
      if id in matches && Plays(matches[id], name) {
        var v := MatchView(id, matches[id], None);
        UserMatchesExact(matches, front, name, v);
        assert id !in front;
      }
    }
  }

  /** One row of the leaderboard: the record, its name, and the win rate computed for a "winrate" sort. */
  datatype LeaderRow = LeaderRow(name: string, user: User, winrate: Option<real>)

  /** The keys `get_leaderboard` sorts by. */
  const SortKeys: seq<string> := ["mmr", "wins", "total_games", "winrate"]

  /** The row `get_leaderboard` builds for a player. */
  function RowOf(name: string, u: User, sortBy: string): LeaderRow
  {
    LeaderRow(name, u,
      if sortBy == "winrate" then
        Some(if u.totalGames > 0 then (u.wins as real / u.totalGames as real) * 100.0 else 0.0)
      else None)
  }

  /** `x.get(sort_by, 0)` on a row. */
  function SortValue(row: LeaderRow, sortBy: string): real
  {
    if sortBy == "mmr" then row.user.mmr as real
    else if sortBy == "wins" then row.user.wins as real
    else if sortBy == "total_games" then row.user.totalGames as real
    else if sortBy == "winrate" then row.winrate.GetOr(0.0)
    else 0.0
  }

  /** The order of `sort(key=..., reverse=True)`: a larger value goes first. */
  function Descending(sortBy: string): (LeaderRow, LeaderRow) -> bool
  {
    (a: LeaderRow, b: LeaderRow) => SortValue(a, sortBy) > SortValue(b, sortBy)
  }

  lemma DescendingIsOrder(sortBy: string)
    ensures IsStrictWeakOrder(Descending(sortBy))
  {
  }

  /** The unsorted rows, one per registered player in insertion order. */
  function RowsOf(users: map<string, User>, order: seq<string>, sortBy: string): (r: seq<LeaderRow>)
    requires forall k :: k in order ==> k in users
    ensures |r| == |order|
    ensures forall i :: 0 <= i < |r| ==> r[i] == RowOf(order[i], users[order[i]], sortBy)
    decreases |order|
  {
    if order == [] then [] else RowsOf(users, order[..|order| - 1], sortBy) + [RowOf(order[|order| - 1], users[order[|order| - 1]], sortBy)]
  }

  /** `get_leaderboard(sort_by)`. */
  function LeaderboardOf(users: map<string, User>, order: seq<string>, sortBy: string): (r: seq<LeaderRow>)
    requires forall k :: k in order ==> k in users
    ensures |r| == |order|
    ensures forall k :: 0 <= k < |r| ==> r[k].name in order && r[k].user == users[r[k].name]
  {
    var rows := RowsOf(users, order, sortBy);
    assert forall row :: row in rows ==> row.name in order && row.user == users[row.name];
    if sortBy in SortKeys then
      DescendingIsOrder(sortBy);
      var sorted := SortBy(rows, Descending(sortBy));
      assert forall k :: 0 <= k < |sorted| ==> sorted[k] in multiset(rows);
      sorted
    else rows
  }

  /**
   * For a known key the leaderboard is the players' rows in non-increasing order of that
   * key; for any other key it is the rows in registration order.
   */
  lemma LeaderboardSorted(users: map<string, User>, order: seq<string>, sortBy: string)
    requires forall k :: k in order ==> k in users
    ensures multiset(LeaderboardOf(users, order, sortBy)) == multiset(RowsOf(users, order, sortBy))
    ensures sortBy in SortKeys ==> forall i, j :: 0 <= i < j < |LeaderboardOf(users, order, sortBy)| ==>
      SortValue(LeaderboardOf(users, order, sortBy)[i], sortBy) >= SortValue(LeaderboardOf(users, order, sortBy)[j], sortBy)
    ensures sortBy !in SortKeys ==> LeaderboardOf(users, order, sortBy) == RowsOf(users, order, sortBy)
  {
    if sortBy in SortKeys {
      DescendingIsOrder(sortBy);
      var r := LeaderboardOf(users, order, sortBy);
      assert SortedBy(r, Descending(sortBy));
      forall i, j | 0 <= i < j < |r| ensures SortValue(r[i], sortBy) >= SortValue(r[j], sortBy) {
        assert !Descending(sortBy)(r[j], r[i]);
      }
    }
  }

  /**
   * `sort(reverse=True)` is stable: the rows whose key equals that of any row `x` stay in
   * registration order.
   */
  lemma LeaderboardTiesKeepOrder(users: map<string, User>, order: seq<string>, sortBy: string, x: LeaderRow)
    requires forall k :: k in order ==> k in users
    requires sortBy in SortKeys
    ensures TiedWith(LeaderboardOf(users, order, sortBy), x, Descending(sortBy))
      == TiedWith(RowsOf(users, order, sortBy), x, Descending(sortBy))
  {
    DescendingIsOrder(sortBy);
    SortByStable(RowsOf(users, order, sortBy), x, Descending(sortBy));
  }

  /** A win rate, as a percentage, is between 0 and 100 for a consistent record. */
  lemma WinratePercent(u: User)
    requires Consistent(u) && u.totalGames > 0
    ensures 0.0 <= (u.wins as real / u.totalGames as real) * 100.0 <= 100.0
  {
    assert u.wins as real <= u.totalGames as real;
    assert u.wins as real / u.totalGames as real <= 1.0;
  }

  /** The order of `sorted(..., reverse=True)` on strings (match ids, dates): the larger string first. */
  function LaterFirst(): (string, string) -> bool
  {
    (a: string, b: string) => StrLess(b, a)
  }

  lemma LaterFirstIsOrder()
    ensures IsStrictWeakOrder(LaterFirst())
  {
    forall a: string ensures !StrLess(a, a) { StrLessIrreflexive(a); }
    forall a: string, b: string, c: string | StrLess(b, a) && StrLess(c, b) ensures StrLess(c, a) {
      StrLessTransitive(c, b, a);
    }
    forall a: string, b: string, c: string | !StrLess(b, a) && !StrLess(c, b) ensures !StrLess(c, a) {
      StrLessTotal(a, b);
      StrLessTotal(b, c);
      if StrLess(c, a) {
        if a == b { } else { StrLessTransitive(a, b, c); StrLessIrreflexive(c); }
      }
    }
  }

  /**
   * `sorted(keys, reverse=True)[:limit]`: the keys largest first, cut with Python's slice
   * rule. These are the ids `get_recent_matches(limit)` lists and the dates the recent-form
   * rating samples.
   */
  function Latest(order: seq<string>, limit: int): (r: seq<string>)
    ensures |r| <= |order|
    ensures forall id :: id in r ==> id in order
  {
    LaterFirstIsOrder();
    var sorted := SortBy(order, LaterFirst());
    var r := PyTake(sorted, limit);
    assert forall id :: id in r ==> id in order by {
      forall id | id in r ensures id in order {
        assert id in sorted;
        assert id in multiset(sorted);
      }
    }
    r
  }

  /**
   * The kept keys are keys, listed once each and strictly decreasing, and (for a
   * non-negative limit) every key left out is smaller than every key kept.
   */
  lemma LatestShape(order: seq<string>, limit: int)
    requires Distinct(order)
    ensures forall id :: id in Latest(order, limit) ==> id in order
    ensures forall i, j :: 0 <= i < j < |Latest(order, limit)| ==>
      StrLess(Latest(order, limit)[j], Latest(order, limit)[i])
    ensures limit >= 0 ==> |Latest(order, limit)| == if limit < |order| then limit else |order|
    ensures limit >= 0 ==> forall id, i ::
      id in order && id !in Latest(order, limit) && 0 <= i < |Latest(order, limit)| ==>
      StrLess(id, Latest(order, limit)[i])
  {
    LaterFirstIsOrder();
    var sorted := SortBy(order, LaterFirst());
    var ids := Latest(order, limit);
    assert ids == sorted[..|ids|];
    DistinctMultiset(order, sorted);
    LatestStored(order, limit);
    forall i, j | 0 <= i < j < |ids| ensures StrLess(ids[j], ids[i]) {
      assert !LaterFirst()(sorted[j], sorted[i]);
      StrLessTotal(sorted[i], sorted[j]);
    }
    if limit >= 0 {
      forall id, i | id in order && id !in ids && 0 <= i < |ids| ensures StrLess(id, ids[i]) {
        SortByMembers(order, LaterFirst(), id);
        var k :| 0 <= k < |sorted| && sorted[k] == id;
        assert k >= |ids|;
        assert !LaterFirst()(sorted[k], sorted[i]);
        StrLessTotal(sorted[i], sorted[k]);
      }
    }
  }

  /** `get_recent_matches(limit)`: a copy of each recent match, tagged with its id. */
  function RecentMatchesOf(matches: map<string, Match>, order: seq<string>, limit: int): (r: seq<MatchView>)
    requires forall k :: k in order ==> k in matches
    ensures |r| == |Latest(order, limit)|
    ensures forall i :: 0 <= i < |r| ==>
      r[i].matchId == Latest(order, limit)[i] && r[i].matchId in matches &&
      r[i].info == matches[r[i].matchId] && r[i].result == None
  {
    var ids := Latest(order, limit);
    LatestStored(order, limit);
    seq(|ids|, i requires 0 <= i < |ids| => MatchView(ids[i], matches[ids[i]], None))
  }

  /** Every kept key is a key. */
  lemma LatestStored(order: seq<string>, limit: int)
    ensures forall id :: id in Latest(order, limit) ==> id in order
  {
    LaterFirstIsOrder();
    forall id | id in Latest(order, limit) ensures id in order {
      SortByMembers(order, LaterFirst(), id);
    }
  }

  /** Reordering a sequence without repetitions gives one without repetitions. */
  lemma DistinctMultiset(s: seq<string>, t: seq<string>)
    requires Distinct(s) && multiset(s) == multiset(t)
    ensures Distinct(t)
  {
    forall i, j | 0 <= i < j < |t| ensures t[i] != t[j] {
      if t[i] == t[j] {
        assert multiset(t)[t[i]] >= 2 by {
          assert t == t[..i] + [t[i]] + t[i + 1..j] + [t[j]] + t[j + 1..];
        }
        CountDistinctMultiset(s, t[i]);
        assert false;
      }
    }
  }

  /** In a sequence without repetitions every element has multiplicity at most one. */
  lemma {:induction false} CountDistinctMultiset(s: seq<string>, x: string)
    requires Distinct(s)
    ensures multiset(s)[x] <= 1
    decreases |s|
  {
    if s != [] {
      assert s == [s[0]] + s[1..];
      assert Distinct(s[1..]);
      CountDistinctMultiset(s[1..], x);
      if x == s[0] {
        assert x !in s[1..];
      }
    }
  }

  /** The in-memory store behind the bot's commands. */
  class DataManager {
    var users: map<string, User>
    var userOrder: seq<string>
    var matches: map<string, Match>
    var matchOrder: seq<string>

    function State(): Store
      reads this
    {
      Store(users, userOrder, matches, matchOrder)
    }

    predicate Valid()
      reads this
    {
      State().Valid()
    }

    /** A store with no players and no matches. */
    constructor ()
      ensures Valid()
      ensures users == map[] && userOrder == [] && matches == map[] && matchOrder == []
    {
      users, userOrder, matches, matchOrder := map[], [], map[], [];
    }

    /** `get_user`. */
    function GetUser(name: string): (r: Option<User>)
      reads this
      ensures r.Some? <==> name in users
      ensures r.Some? ==> r.value == users[name]
    {
      if name in users then Some(users[name]) else None
    }

    /** `add_user`: a new name gets a fresh record; an existing name is refused and nothing changes. */
    method AddUser(name: string, tier: string, rank: string, mainPosition: string, subPosition: string,
                   mmr: int := DefaultMmr) returns (added: bool)
      requires Valid()
      modifies this
      ensures Valid()
      ensures added <==> name !in old(users)
      ensures added ==> users == old(users)[name := User(tier, rank, mainPosition, subPosition, mmr, 0, 0, 0)]
      ensures added ==> userOrder == old(userOrder) + [name]
      ensures !added ==> users == old(users) && userOrder == old(userOrder)
      ensures matches == old(matches) && matchOrder == old(matchOrder)
    {
      if name in users {
        return false;
      }
      users := users[name := User(tier, rank, mainPosition, subPosition, mmr, 0, 0, 0)];
      userOrder := userOrder + [name];
      added := true;
    }

    /** `update_user`: only the passed fields of that one record change; an unknown name is refused. */
    method UpdateUser(name: string, upd: UserUpdate) returns (updated: bool)
      requires Valid()
      modifies this
      ensures Valid()
      ensures updated <==> name in old(users)
      ensures updated ==> users == old(users)[name := ApplyUpdate(old(users)[name], upd)]
      ensures !updated ==> users == old(users)
      ensures userOrder == old(userOrder) && matches == old(matches) && matchOrder == old(matchOrder)
    {
      if name !in users {
        return false;
      }
      users := users[name := ApplyUpdate(users[name], upd)];
      updated := true;
    }

    /** `delete_user`: removes that one key; an unknown name is refused. */
    method DeleteUser(name: string) returns (deleted: bool)
      requires Valid()
      modifies this
      ensures Valid()
      ensures deleted <==> name in old(users)
      ensures users == old(users) - {name}
      ensures userOrder == Without(old(userOrder), name)
      ensures matches == old(matches) && matchOrder == old(matchOrder)
    {
      deleted := name in users;
      if deleted {
        users := users - {name};
        userOrder := Without(userOrder, name);
      }
    }

    /** `update_user_stats`: one more game, won or lost, for a registered player. */
    method UpdateUserStats(name: string, won: bool) returns (ok: bool)
      requires Valid()
      modifies this
      ensures Valid()
      ensures ok <==> name in old(users)
      ensures users == Credit(old(users), name, won)
      ensures userOrder == old(userOrder) && matches == old(matches) && matchOrder == old(matchOrder)
    {
      if name !in users {
        return false;
      }
      users := users[name := RecordGame(users[name], won)];
      ok := true;
    }

    /** `get_user_winrate`: `None` for an unknown player or one with no games, else a percentage. */
    function GetUserWinrate(name: string): (r: Option<real>)
      reads this
      requires Valid()
      ensures r.None? <==> name !in users || users[name].totalGames == 0
      ensures r.Some? ==> r.value == (users[name].wins as real / users[name].totalGames as real) * 100.0
      ensures r.Some? ==> 0.0 <= r.value <= 100.0
    {
      if name !in users || users[name].totalGames == 0 then None
      else
        WinratePercent(users[name]);
        Some((users[name].wins as real / users[name].totalGames as real) * 100.0)
    }

    /**
     * The id `add_match` picks: the first `match_NNN` not yet used, counting from the number
     * of stored matches plus one.
     */
    method NextMatchId() returns (matchId: string)
      ensures matchId !in matches
      ensures exists n: nat ::
        && n >= |matches| + 1 && matchId == MatchId(n)
        && (forall j: nat :: |matches| + 1 <= j < n ==> MatchId(j) in matches)
    {
      var start := |matches| + 1;
      var count := start;
      matchId := MatchId(count);
      while matchId in matches
        invariant count >= start
        invariant matchId == MatchId(count)
        invariant forall j: nat :: start <= j < count ==> MatchId(j) in matches
        decreases |matches| + start - count
      {
        IdsBound(matches.Keys, start, count + 1);
        count := count + 1;
        matchId := MatchId(count);
      }
    }

    /** `update_user_stats(p, won)` for each `p` in `names`, in order. */
    method CreditTeam(names: seq<string>, won: bool)
      requires Valid()
      modifies this
      ensures Valid()
      ensures users == CreditAll(old(users), names, won)
      ensures userOrder == old(userOrder) && matches == old(matches) && matchOrder == old(matchOrder)
    {
      var i := 0;
      while i < |names|
        invariant 0 <= i <= |names|
        invariant Valid()
        invariant users == CreditAll(old(users), names[..i], won)
        invariant userOrder == old(userOrder) && matches == old(matches) && matchOrder == old(matchOrder)
      {
        var _ := UpdateUserStats(names[i], won);
        assert names[..i + 1][..i] == names[..i];
        i := i + 1;
      }
      assert names[..i] == names;
    }

    /**
     * `add_match`: stores the match under a fresh id, then credits the winners with a win
     * and the losers with a loss.
     */
    method AddMatch(blueTeam: seq<string>, redTeam: seq<string>, winner: string, mvp: Option<string>, date: string)
      returns (matchId: string)
      requires Valid()
      modifies this
      ensures Valid()
      ensures matchId !in old(matches)
      ensures exists n: nat ::
        && n >= |old(matches)| + 1 && matchId == MatchId(n)
        && (forall j: nat :: |old(matches)| + 1 <= j < n ==> MatchId(j) in old(matches))
      ensures matches == old(matches)[matchId := Match(date, blueTeam, redTeam, winner, mvp)]
      ensures matchOrder == old(matchOrder) + [matchId]
      ensures |matches| == |old(matches)| + 1
      ensures users == CreditAll(CreditAll(old(users), if winner == "blue" then blueTeam else redTeam, true),
                                 if winner == "blue" then redTeam else blueTeam, false)
      ensures userOrder == old(userOrder)
    {
      matchId := NextMatchId();
      matches := matches[matchId := Match(date, blueTeam, redTeam, winner, mvp)];
      matchOrder := matchOrder + [matchId];
      var winning := if winner == "blue" then blueTeam else redTeam;
      var losing := if winner == "blue" then redTeam else blueTeam;
      CreditTeam(winning, true);
      CreditTeam(losing, false);
    }

    /** `get_user_matches`: copies of the matches listing `name`, tagged with their ids. */
    method GetUserMatches(name: string) returns (views: seq<MatchView>)
      ensures views == UserMatchesOf(matches, matchOrder, name)
    {
      views := [];
      var i := 0;
      while i < |matchOrder|
        invariant 0 <= i <= |matchOrder|
        invariant views == UserMatchesOf(matches, matchOrder[..i], name)
      {
        var id := matchOrder[i];
        assert matchOrder[..i + 1][..i] == matchOrder[..i];
        if id in matches && (name in matches[id].blueTeam || name in matches[id].redTeam) {
          views := views + [MatchView(id, matches[id], None)];
        }
        i := i + 1;
      }
      assert matchOrder[..i] == matchOrder;
    }

    /** `get_recent_matches(limit)`. */
    method GetRecentMatches(limit: int := 10) returns (recent: seq<MatchView>)
      requires Valid()
      ensures recent == RecentMatchesOf(matches, matchOrder, limit)
    {
      var ids := Latest(matchOrder, limit);
      LatestStored(matchOrder, limit);
      ghost var all := RecentMatchesOf(matches, matchOrder, limit);
      recent := [];
      var i := 0;
      while i < |ids|
        invariant 0 <= i <= |ids|
        invariant |recent| == i && forall k :: 0 <= k < i ==> recent[k] == all[k]
      {
        recent := recent + [MatchView(ids[i], matches[ids[i]], None)];
        i := i + 1;
      }
    }

    /** `get_leaderboard(sort_by)`. */
    method GetLeaderboard(sortBy: string := "mmr") returns (board: seq<LeaderRow>)
      requires Valid()
      ensures board == LeaderboardOf(users, userOrder, sortBy)
    {
      var rows := [];
      var i := 0;
      while i < |userOrder|
        invariant 0 <= i <= |userOrder|
        invariant rows == RowsOf(users, userOrder[..i], sortBy)
      {
        assert userOrder[..i + 1][..i] == userOrder[..i];
        rows := rows + [RowOf(userOrder[i], users[userOrder[i]], sortBy)];
        i := i + 1;
      }
      assert userOrder[..i] == userOrder;
      if sortBy in SortKeys {
        DescendingIsOrder(sortBy);
        rows := SortBy(rows, Descending(sortBy));
      }
      board := rows;
    }
  }

  /**
   * After `add_match` every registered player gains one win per time they are listed on the
   * winning side and one loss per time on the losing side; the set of players is unchanged.
   */
  lemma AddMatchCredits(users: map<string, User>, winning: seq<string>, losing: seq<string>, n: string)
    requires n in users
    ensures CreditAll(CreditAll(users, winning, true), losing, false).Keys == users.Keys
    ensures var u := CreditAll(CreditAll(users, winning, true), losing, false)[n];
      && u.wins == users[n].wins + Count(winning, n)
      && u.losses == users[n].losses + Count(losing, n)
      && u.totalGames == users[n].totalGames + Count(winning, n) + Count(losing, n)
      && u.mmr == users[n].mmr && u.tier == users[n].tier && u.rank == users[n].rank
      && u.mainPosition == users[n].mainPosition && u.subPosition == users[n].subPosition
  {
    CreditAllEffect(users, winning, true, n);
    CreditAllEffect(CreditAll(users, winning, true), losing, false, n);
  }
}
