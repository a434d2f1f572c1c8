/**
 * The counting behind `/통계` (cogs/utils/statistics_commands.py): how often the
 * player won with each teammate, the best and worst teammate, and how many of the
 * stored matches were balanced.
 */
module Statistics {
  import opened Wrappers
  import opened Sequences
  import opened DataStore
  import opened TeamRating

  // ----- teammates -----

  /** `user_team`: blue when the player is listed there, red otherwise. */
  function UserTeam(m: Match, user: string): (r: seq<string>)
    ensures user in m.blueTeam ==> r == m.blueTeam
    ensures user !in m.blueTeam ==> r == m.redTeam
  {
    if user in m.blueTeam then m.blueTeam else m.redTeam
  }

  /** `user_won`: the winner is the player's side. */
  predicate UserWon(m: Match, user: string)
  {
    m.winner == (if user in m.blueTeam then "blue" else "red")
  }

  /** How many times `t` was counted as the player's teammate: once per listing on the player's side. */
  function GamesWith(views: seq<MatchView>, user: string, t: string): (r: nat)
    ensures t == user ==> r == 0
    ensures r > 0 ==> exists k :: 0 <= k < |views| && t in UserTeam(views[k].info, user)
    decreases |views|
  {
    if views == [] then 0
    else
      var m := views[|views| - 1].info;
      CountBounds(UserTeam(m, user), t);
      assert forall k :: 0 <= k < |views| - 1 ==> views[..|views| - 1][k] == views[k];
      GamesWith(views[..|views| - 1], user, t) + (if t == user then 0 else Count(UserTeam(m, user), t))
  }

  /** The same count, over the matches the player won. */
  function WinsWith(views: seq<MatchView>, user: string, t: string): (r: nat)
    ensures t == user ==> r == 0
    ensures r > 0 ==> exists k :: 0 <= k < |views| && UserWon(views[k].info, user) && t in UserTeam(views[k].info, user)
    decreases |views|
  {
    if views == [] then 0
    else
      var m := views[|views| - 1].info;
      CountBounds(UserTeam(m, user), t);
      assert forall k :: 0 <= k < |views| - 1 ==> views[..|views| - 1][k] == views[k];
      WinsWith(views[..|views| - 1], user, t) + (if t == user || !UserWon(m, user) then 0 else Count(UserTeam(m, user), t))
  }

  /** `order` extended by the names of `team` it lacks, other than the player, in team order. */
  function Absorb(order: seq<string>, team: seq<string>, user: string): seq<string>
    decreases |team|
  {
    if team == [] then order
    else
      var o := Absorb(order, team[..|team| - 1], user);
      var x := team[|team| - 1];
      if x != user && x !in o then o + [x] else o
  }

  /** The order in which the `defaultdict` first sees each teammate. */
  function TeammateOrder(views: seq<MatchView>, user: string): (r: seq<string>)
    ensures user !in r && Distinct(r)
    decreases |views|
  {
    if views == [] then []
    else
      AbsorbMembers(TeammateOrder(views[..|views| - 1], user), UserTeam(views[|views| - 1].info, user), user, user);
      Absorb(TeammateOrder(views[..|views| - 1], user), UserTeam(views[|views| - 1].info, user), user)
  }

  /** `(wins / games) * 100 if games > 0 else 0`. */
  function Winrate(wins: nat, games: nat): (r: real)
    ensures wins <= games ==> 0.0 <= r <= 100.0
  {
    if games > 0 then
      var q := wins as real / games as real;
      assert wins <= games ==> 0.0 <= q <= 1.0 by {
        if wins <= games {
          RateFacts(wins as real, games as real);
        }
      }
      q * 100.0
    else 0.0
  }

  /** One entry of the returned dictionary. */
  datatype TeammateStat = TeammateStat(games: nat, wins: nat, winrate: real)

  /** A teammate's running counts while the matches are scanned. */
  datatype Tally = Tally(games: nat, wins: nat)

  /** The dictionary's keys are the names of `order`. */
  ghost predicate Keyed<V>(m: map<string, V>, order: seq<string>)
  {
    forall t :: t in m <==> t in order
  }

  function GamesOf(counts: map<string, Tally>, t: string): nat
  {
    if t in counts then counts[t].games else 0
  }

  function WinsOf(counts: map<string, Tally>, t: string): nat
  {
    if t in counts then counts[t].wins else 0
  }

  /** The inner loop `for teammate in user_team` over one match. */
  method CountTeam(counts: map<string, Tally>, order: seq<string>, team: seq<string>, user: string, won: bool)
    returns (counts': map<string, Tally>, order': seq<string>)
    requires Keyed(counts, order)
    ensures Keyed(counts', order')
    ensures order' == Absorb(order, team, user)
    ensures forall t :: GamesOf(counts', t) == GamesOf(counts, t) + (if t == user then 0 else Count(team, t))
    ensures forall t :: WinsOf(counts', t) == WinsOf(counts, t) + (if t == user || !won then 0 else Count(team, t))
  {
    counts', order' := counts, order;
    for j := 0 to |team|
      invariant Keyed(counts', order')
      invariant order' == Absorb(order, team[..j], user)
      invariant forall t :: GamesOf(counts', t) == GamesOf(counts, t) + (if t == user then 0 else Count(team[..j], t))
      invariant forall t :: WinsOf(counts', t) == WinsOf(counts, t) + (if t == user || !won then 0 else Count(team[..j], t))
    {
      var teammate := team[j];
      assert team[..j + 1][..j] == team[..j];
      if teammate != user {
        var old' := if teammate in counts' then counts'[teammate] else Tally(0, 0);
        if teammate !in counts' {
          order' := order' + [teammate];
        }
        counts' := counts'[teammate := Tally(old'.games + 1, if won then old'.wins + 1 else old'.wins)];
      }
    }
    assert team[..|team|] == team;
  }

  /** `calculate_teammate_stats(user_name, dm)`; `order` is the order of the returned dictionary. */
  method CalculateTeammateStats(user: string, dm: DataManager) returns (stats: map<string, TeammateStat>, order: seq<string>)
    ensures var views := UserMatchesOf(dm.matches, dm.matchOrder, user);
      && order == TeammateOrder(views, user)
      && Keyed(stats, order)
      && forall t :: t in stats ==>
           stats[t] == TeammateStat(GamesWith(views, user, t), WinsWith(views, user, t),
                                    Winrate(WinsWith(views, user, t), GamesWith(views, user, t)))
  {
    var views := dm.GetUserMatches(user);
    var counts: map<string, Tally> := map[];
    order := [];
    for i := 0 to |views|
      invariant Keyed(counts, order)
      invariant order == TeammateOrder(views[..i], user)
      invariant forall t :: GamesOf(counts, t) == GamesWith(views[..i], user, t)
      invariant forall t :: WinsOf(counts, t) == WinsWith(views[..i], user, t)
    {
      var m := views[i].info;
      var team := if user in m.blueTeam then m.blueTeam else m.redTeam;
      var won := if user in m.blueTeam then m.winner == "blue" else m.winner == "red";
      ViewStep(views, i, user);
      counts, order := CountTeam(counts, order, team, user, won);
    }
    assert views[..|views|] == views;
    stats := StatsOf(counts, order);
  }

  /** Counting one more match adds its listings on the player's side. */
  lemma ViewStep(views: seq<MatchView>, i: nat, user: string)
    requires i < |views|
    ensures TeammateOrder(views[..i + 1], user) == Absorb(TeammateOrder(views[..i], user), UserTeam(views[i].info, user), user)
    ensures forall t :: (GamesWith(views[..i + 1], user, t)
      == GamesWith(views[..i], user, t) + (if t == user then 0 else Count(UserTeam(views[i].info, user), t)))
    ensures forall t :: (WinsWith(views[..i + 1], user, t)
      == WinsWith(views[..i], user, t) + (if t == user || !UserWon(views[i].info, user) then 0 else Count(UserTeam(views[i].info, user), t)))
  {
    assert views[..i + 1][..i] == views[..i];
  }

  /** The final loop of `calculate_teammate_stats`: one entry per counted teammate. */
  method StatsOf(counts: map<string, Tally>, order: seq<string>) returns (stats: map<string, TeammateStat>)
    requires Keyed(counts, order)
    ensures Keyed(stats, order)
    ensures forall t :: t in stats ==>
      stats[t] == TeammateStat(GamesOf(counts, t), WinsOf(counts, t), Winrate(WinsOf(counts, t), GamesOf(counts, t)))
  {
    stats := map[];
    for k := 0 to |order|
      invariant forall t :: t in stats <==> t in order[..k]
      invariant forall t :: t in stats ==>
        stats[t] == TeammateStat(GamesOf(counts, t), WinsOf(counts, t), Winrate(WinsOf(counts, t), GamesOf(counts, t)))
    {
      var t := order[k];
      assert order[..k + 1] == order[..k] + [t];
      stats := stats[t := TeammateStat(counts[t].games, counts[t].wins, Winrate(counts[t].wins, counts[t].games))];
    }
    assert order[..|order|] == order;
  }

  /** Exactly the names other than the player seen on the player's side are teammates, each listed once. */
  lemma {:induction false} TeammateOrderMembers(views: seq<MatchView>, user: string, t: string)
    ensures t in TeammateOrder(views, user) <==> GamesWith(views, user, t) > 0
    ensures user !in TeammateOrder(views, user)
    ensures Distinct(TeammateOrder(views, user))
    decreases |views|
  {
    if views != [] {
      var front := views[..|views| - 1];
      TeammateOrderMembers(front, user, t);
      var team := UserTeam(views[|views| - 1].info, user);
      AbsorbMembers(TeammateOrder(front, user), team, user, t);
      CountBounds(team, t);
    }
  }

  lemma {:induction false} AbsorbMembers(order: seq<string>, team: seq<string>, user: string, t: string)
    requires user !in order && Distinct(order)
    ensures t in Absorb(order, team, user) <==> t in order || (t != user && t in team)
    ensures user !in Absorb(order, team, user)
    ensures Distinct(Absorb(order, team, user))
    decreases |team|
  {
    if team != [] {
      var front := team[..|team| - 1];
      AbsorbMembers(order, front, user, t);
      assert team == front + [team[|team| - 1]];
      var o := Absorb(order, front, user);
      var x := team[|team| - 1];
      if x != user && x !in o {
        assert Distinct(o + [x]) by {
          forall i, j | 0 <= i < j < |o + [x]| ensures (o + [x])[i] != (o + [x])[j] {
            if j == |o| {
              assert (o + [x])[i] == o[i];
            } else {
              assert (o + [x])[i] == o[i] && (o + [x])[j] == o[j];
            }
          }
        }
      }
    }
  }

  /** A teammate never has more wins than games with the player. */
  lemma {:induction false} WinsAtMostGames(views: seq<MatchView>, user: string, t: string)
    ensures WinsWith(views, user, t) <= GamesWith(views, user, t)
    decreases |views|
  {
    if views != [] {
      WinsAtMostGames(views[..|views| - 1], user, t);
    }
  }

  /** When no side lists a name twice, a teammate is counted at most once per match of the player. */
  lemma {:induction false} GamesAtMostMatches(views: seq<MatchView>, user: string, t: string)
    requires forall k :: 0 <= k < |views| ==> Distinct(UserTeam(views[k].info, user))
    ensures GamesWith(views, user, t) <= |views|
    decreases |views|
  {
    if views != [] {
      var front := views[..|views| - 1];
      assert forall k :: 0 <= k < |front| ==> front[k] == views[k];
      GamesAtMostMatches(front, user, t);
      CountDistinct(UserTeam(views[|views| - 1].info, user), t);
    }
  }

  /** A teammate playing on the player's winning side every time has a 100 percent win rate with them. */
  lemma {:induction false} AlwaysWonTogether(views: seq<MatchView>, user: string, t: string)
    requires forall k :: 0 <= k < |views| ==> UserWon(views[k].info, user)
    ensures WinsWith(views, user, t) == GamesWith(views, user, t)
    decreases |views|
  {
    if views != [] {
      var front := views[..|views| - 1];
      assert forall k :: 0 <= k < |front| ==> front[k] == views[k];
      AlwaysWonTogether(front, user, t);
    }
  }

  // ----- best and worst teammate -----

  /** `eligible_teammates`: the teammates with at least `minGames` games, in dictionary order. */
  function EligibleTeammates(stats: map<string, TeammateStat>, order: seq<string>, minGames: int): (r: seq<string>)
    ensures forall t :: t in r <==> t in order && t in stats && stats[t].games >= minGames
    decreases |order|
  {
    if order == [] then []
    else
      var t := order[|order| - 1];
      var rest := EligibleTeammates(stats, order[..|order| - 1], minGames);
      assert order == order[..|order| - 1] + [t];
      if t in stats && stats[t].games >= minGames then rest + [t] else rest
  }

  /** Python's `max(..., key=winrate)`: the first name with the highest win rate. */
  function FirstMax(names: seq<string>, stats: map<string, TeammateStat>): (r: string)
    requires names != [] && forall t :: t in names ==> t in stats
    ensures r in names
    ensures forall t :: t in names ==> stats[t].winrate <= stats[r].winrate
    ensures exists i :: 0 <= i < |names| && names[i] == r && forall j :: 0 <= j < i ==> stats[names[j]].winrate < stats[r].winrate
    decreases |names|
  {
    if |names| == 1 then names[0]
    else
      var front := names[..|names| - 1];
      var x := names[|names| - 1];
      assert names == front + [x];
      var m := FirstMax(front, stats);
      if stats[x].winrate > stats[m].winrate then x else m
  }

  /** Python's `min(..., key=winrate)`: the first name with the lowest win rate. */
  function FirstMin(names: seq<string>, stats: map<string, TeammateStat>): (r: string)
    requires names != [] && forall t :: t in names ==> t in stats
    ensures r in names
    ensures forall t :: t in names ==> stats[r].winrate <= stats[t].winrate
    ensures exists i :: 0 <= i < |names| && names[i] == r && forall j :: 0 <= j < i ==> stats[r].winrate < stats[names[j]].winrate
    decreases |names|
  {
    if |names| == 1 then names[0]
    else
      var front := names[..|names| - 1];
      var x := names[|names| - 1];
      assert names == front + [x];
      var m := FirstMin(front, stats);
      if stats[x].winrate < stats[m].winrate then x else m
  }

  /** An item of the dictionary, as `max` and `min` return it. */
  datatype Pick = Pick(name: string, stat: TeammateStat)

  /** `get_best_worst_teammates(teammate_stats, min_games)`; `order` is the dictionary's order. */
  function BestWorstTeammates(stats: map<string, TeammateStat>, order: seq<string>, minGames: int := 5): (r: (Option<Pick>, Option<Pick>))
    ensures r.0.None? <==> EligibleTeammates(stats, order, minGames) == []
    ensures r.0.None? <==> r.1.None?
    ensures r.0.Some? ==> (r.0.value.name in stats && r.0.value.stat == stats[r.0.value.name]
      && r.0.value.name in order && r.0.value.stat.games >= minGames)
    ensures r.1.Some? ==> (r.1.value.name in stats && r.1.value.stat == stats[r.1.value.name]
      && r.1.value.name in order && r.1.value.stat.games >= minGames)
  {
    var eligible := EligibleTeammates(stats, order, minGames);
    if eligible == [] then (None, None)
    else
      var best := FirstMax(eligible, stats);
      var worst := FirstMin(eligible, stats);
      (Some(Pick(best, stats[best])), Some(Pick(worst, stats[worst])))
  }

  /** The best teammate's win rate is the highest among the eligible ones and the worst's the lowest. */
  lemma BestWorstExtremes(stats: map<string, TeammateStat>, order: seq<string>, minGames: int, t: string)
    requires t in order && t in stats && stats[t].games >= minGames
    ensures var (best, worst) := BestWorstTeammates(stats, order, minGames);
      best.Some? && worst.Some?
      && worst.value.stat.winrate <= stats[t].winrate <= best.value.stat.winrate
  {
    assert t in EligibleTeammates(stats, order, minGames);
  }

  // ----- team formation reliability -----

  /** `sum(dm.get_user(p)['mmr'] for p in team if dm.get_user(p))`: registered players only. */
  function RegisteredSum(users: map<string, User>, team: seq<string>): (r: int)
    ensures (forall p :: p in team ==> p !in users) ==> r == 0
    decreases |team|
  {
    if team == [] then 0
    else
      var p := team[|team| - 1];
      RegisteredSum(users, team[..|team| - 1]) + (if p in users then users[p].mmr else 0)
  }

  /** A match counts as balanced when the registered ratings of the sides differ by at most 100. */
  predicate Balanced(users: map<string, User>, m: Match)
  {
    Abs(RegisteredSum(users, m.blueTeam) - RegisteredSum(users, m.redTeam)) <= 100
  }

  /** `balanced_games` over the matches of `order`. */
  function BalancedCount(users: map<string, User>, matches: map<string, Match>, order: seq<string>): (r: nat)
    ensures r <= |order|
    decreases |order|
  {
    if order == [] then 0
    else
      var id := order[|order| - 1];
      BalancedCount(users, matches, order[..|order| - 1]) + (if id in matches && Balanced(users, matches[id]) then 1 else 0)
  }

  /** `calculate_team_formation_reliability(dm)` as `(reliability, games_needed)`. */
  function ReliabilityOf(users: map<string, User>, matches: map<string, Match>, order: seq<string>): (r: (real, int))
    ensures r.1 >= 0 && (r.1 > 0 <==> |matches| < 50) && (r.1 > 0 ==> r.1 + |matches| == 50)
    ensures |matches| < 10 ==> r.0 == 0.0
    ensures |order| <= |matches| ==> 0.0 <= r.0 <= 100.0
  {
    var total := |matches|;
    if total < 10 then (0.0, 50 - total)
    else
      var balanced := BalancedCount(users, matches, order);
      var q := balanced as real / total as real;
      assert |order| <= total ==> 0.0 <= q <= 1.0 by {
        if |order| <= total {
          RateFacts(balanced as real, total as real);
        }
      }
      (q * 100.0, if 50 - total > 0 then 50 - total else 0)
  }

  /** A sequence without repetitions has as many distinct elements as entries. */
  lemma {:induction false} DistinctCard(s: seq<string>)
    requires Distinct(s)
    ensures |set x | x in s| == |s|
    decreases |s|
  {
    if s != [] {
      var front := s[..|s| - 1];
      var x := s[|s| - 1];
      assert Distinct(front);
      DistinctCard(front);
      assert (set y | y in s) == (set y | y in front) + {x} by {
        assert s == front + [x];
      }
      assert x !in (set y | y in front);
    }
  }

  /** The stored matches number as many as their ids in order. */
  lemma MatchCount(matches: map<string, Match>, order: seq<string>)
    requires KeysInOrder(matches, order)
    ensures |matches| == |order|
  {
    DistinctCard(order);
    assert (set x | x in order) == matches.Keys;
  }

  /**
   * With fewer than ten matches the reliability is 0 and the games needed are 50 minus the
   * count; otherwise the reliability is a percentage and the games needed `max(0, 50 - total)`.
   */
  lemma ReliabilityBounds(users: map<string, User>, matches: map<string, Match>, order: seq<string>)
    requires KeysInOrder(matches, order)
    ensures var (reliability, needed) := ReliabilityOf(users, matches, order);
      && 0.0 <= reliability <= 100.0
      && needed == (if 50 - |matches| > 0 then 50 - |matches| else 0)
      && (|matches| < 10 ==> reliability == 0.0 && needed == 50 - |matches|)
  {
    if |matches| >= 10 {
      MatchCount(matches, order);
      RateFacts(BalancedCount(users, matches, order) as real, |matches| as real);
    }
  }

  /** Scanning one more stored match counts it when it is balanced. */
  lemma BalancedStep(users: map<string, User>, matches: map<string, Match>, order: seq<string>, i: nat)
    requires i < |order|
    ensures BalancedCount(users, matches, order[..i + 1]) == BalancedCount(users, matches, order[..i])
      + (if order[i] in matches && Balanced(users, matches[order[i]]) then 1 else 0)
  {
    assert order[..i + 1][..i] == order[..i];
  }

  /** The loop of `calculate_team_formation_reliability` over the stored matches. */
  method TeamFormationReliability(dm: DataManager) returns (reliability: real, gamesNeeded: int)
    requires dm.Valid()
    ensures (reliability, gamesNeeded) == ReliabilityOf(dm.users, dm.matches, dm.matchOrder)
  {
    var total := |dm.matches|;
    if total < 10 {
      return 0.0, 50 - total;
    }
    var balanced := 0;
    for i := 0 to |dm.matchOrder|
      invariant balanced == BalancedCount(dm.users, dm.matches, dm.matchOrder[..i])
    {
      var id := dm.matchOrder[i];
      BalancedStep(dm.users, dm.matches, dm.matchOrder, i);
      var m := dm.matches[id];
      var blueMmr := RegisteredSum(dm.users, m.blueTeam);
      var redMmr := RegisteredSum(dm.users, m.redTeam);
      if Abs(blueMmr - redMmr) <= 100 {
        balanced := balanced + 1;
      }
    }
    assert dm.matchOrder[..|dm.matchOrder|] == dm.matchOrder;
    reliability := (balanced as real / total as real) * 100.0;
    gamesNeeded := if 50 - total > 0 then 50 - total else 0;
  }
}
