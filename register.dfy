/**
 * The older registration and balancing code of cogs/utils/register.py: English tier
 * names, a rating that folds the win rate in, an exhaustive enumeration of the
 * 5-versus-5 splits, and the players file that `/등록` and `/전적` update.
 * The file itself is a map held by `Ledger`; loading and saving it is not modelled.
 */
module Register {
  import opened Wrappers
  import opened Text
  import opened Sequences
  import opened TeamRating

  // ----- ratings -----

  /** `TIER_SCORES`. */
  const TierScores: map<string, map<string, int>> := map[
    "IRON" := map["IV" := 400, "III" := 450, "II" := 500, "I" := 550],
    "BRONZE" := map["IV" := 600, "III" := 650, "II" := 700, "I" := 750],
    "SILVER" := map["IV" := 800, "III" := 850, "II" := 900, "I" := 950],
    "GOLD" := map["IV" := 1000, "III" := 1050, "II" := 1100, "I" := 1150],
    "PLATINUM" := map["IV" := 1200, "III" := 1250, "II" := 1300, "I" := 1350],
    "EMERALD" := map["IV" := 1400, "III" := 1450, "II" := 1500, "I" := 1550],
    "DIAMOND" := map["IV" := 1600, "III" := 1650, "II" := 1700, "I" := 1750],
    "MASTER" := map["I" := 1800],
    "GRANDMASTER" := map["I" := 1900],
    "CHALLENGER" := map["I" := 2000]
  ]

  /** The tiers from lowest to highest. */
  const TierOrder: seq<string> := ["IRON", "BRONZE", "SILVER", "GOLD", "PLATINUM", "EMERALD", "DIAMOND", "MASTER", "GRANDMASTER", "CHALLENGER"]

  /** The ranks within a tier from lowest to highest. */
  const RankOrder: seq<string> := ["IV", "III", "II", "I"]

  /** The tiers that only have rank I. */
  const TopTiers: seq<string> := ["MASTER", "GRANDMASTER", "CHALLENGER"]

  /** The base of a name the table does not know. */
  const DefaultBase := 1000

  /**
   * The table row by row: tiers IRON to DIAMOND have ranks IV to I at
   * 400 + 200 * tier + 50 * rank, and MASTER, GRANDMASTER, CHALLENGER only rank I,
   * at 1800, 1900 and 2000.
   */
  lemma TierRow(i: nat)
    requires i < 10
    ensures TierOrder[i] in TierScores
    ensures i < 7 ==> TierScores[TierOrder[i]] == ScoreRow(400 + 200 * i)
    ensures i >= 7 ==> TierScores[TierOrder[i]] == map["I" := 1800 + 100 * (i - 7)]
  {
  }

  /** A tier below the top three: its ranks from lowest to highest at its base and 50, 100 and 150 above it. */
  function ScoreRow(base: int): (row: map<string, int>)
    ensures forall a :: 0 <= a < 4 ==> RankOrder[a] in row && row[RankOrder[a]] == base + 50 * a
  {
    map["IV" := base, "III" := base + 50, "II" := base + 100, "I" := base + 150]
  }

  /** Every rank of such a row is one of the ranks, at its place in their order. */
  lemma ScoreRowEntry(base: int, r: string)
    requires r in ScoreRow(base)
    ensures exists a :: 0 <= a < 4 && RankOrder[a] == r && ScoreRow(base)[r] == base + 50 * a
  {
    if r == "IV" {
      assert RankOrder[0] == r;
    } else if r == "III" {
      assert RankOrder[1] == r;
    } else if r == "II" {
      assert RankOrder[2] == r;
    } else {
      assert RankOrder[3] == r;
    }
  }

  /** The table has exactly the tiers of `TierOrder`. */
  lemma TierKeys()
    ensures TierScores.Keys == set t | t in TierOrder
  {
  }

  /** A higher tier, or a higher rank within a tier, always scores more. */
  lemma TierScoresIncrease(i: nat, r: string, j: nat, r': string)
    requires i < 10 && j < 10
    requires TierOrder[i] in TierScores && r in TierScores[TierOrder[i]]
    requires TierOrder[j] in TierScores && r' in TierScores[TierOrder[j]]
    requires i < j || (i == j && exists a, b :: 0 <= a < b < 4 && RankOrder[a] == r && RankOrder[b] == r')
    ensures TierScores[TierOrder[i]][r] < TierScores[TierOrder[j]][r']
  {
    TierRow(i);
    TierRow(j);
    if i < 7 {
      ScoreRowEntry(400 + 200 * i, r);
      var a :| 0 <= a < 4 && RankOrder[a] == r && TierScores[TierOrder[i]][r] == 400 + 200 * i + 50 * a;
      if j < 7 {
        ScoreRowEntry(400 + 200 * j, r');
        var b :| 0 <= b < 4 && RankOrder[b] == r' && TierScores[TierOrder[j]][r'] == 400 + 200 * j + 50 * b;
        if i == j {
          var a', b' :| 0 <= a' < b' < 4 && RankOrder[a'] == r && RankOrder[b'] == r';
          RanksDistinct();
          assert a' == a && b' == b;
        }
      }
    }
  }

  lemma RanksDistinct()
    ensures forall a, b :: 0 <= a < b < 4 ==> RankOrder[a] != RankOrder[b]
  {
  }

  /** Python's `str.upper()` on ASCII letters. */
  function AsciiUpper(s: string): (r: string)
    ensures |r| == |s|
    ensures forall k :: 0 <= k < |s| ==> r[k] == if 'a' <= s[k] <= 'z' then (s[k] as int - 32) as char else s[k]
  {
    seq(|s|, k requires 0 <= k < |s| => if 'a' <= s[k] <= 'z' then (s[k] as int - 32) as char else s[k])
  }

  /** `TIER_SCORES.get(tier.upper(), {}).get(rank.upper(), 1000)`. */
  function BaseScore(tier: string, rank: string): (r: int)
    ensures AsciiUpper(tier) in TierScores && AsciiUpper(rank) in TierScores[AsciiUpper(tier)] ==>
      r == TierScores[AsciiUpper(tier)][AsciiUpper(rank)]
    ensures !(AsciiUpper(tier) in TierScores && AsciiUpper(rank) in TierScores[AsciiUpper(tier)]) ==> r == DefaultBase
  {
    var t := AsciiUpper(tier);
    var k := AsciiUpper(rank);
    if t in TierScores && k in TierScores[t] then TierScores[t][k] else DefaultBase
  }

  /** `min(1.0, total_games / 50)`. */
  function GamesConfidence(games: nat): (c: real)
    ensures 0.0 <= c <= 1.0
  {
    if games as real / 50.0 < 1.0 then games as real / 50.0 else 1.0
  }

  /** More games never lower the confidence, and 50 games or more give full confidence. */
  lemma GamesConfidenceMonotone(a: nat, b: nat)
    requires a <= b
    ensures GamesConfidence(a) <= GamesConfidence(b)
    ensures a >= 50 ==> GamesConfidence(a) == 1.0
  {
  }

  /**
   * `calculate_mmr(tier, rank, wins, losses)`: the base moved by
   * `(win_rate - 0.5) * 200 * confidence`, truncated; the base itself with no games.
   */
  function CalculateMmr(tier: string, rank: string, wins: nat, losses: nat): (r: int)
    ensures wins + losses == 0 ==> r == BaseScore(tier, rank)
    ensures BaseScore(tier, rank) - 100 <= r <= BaseScore(tier, rank) + 100
    ensures wins == losses ==> r == BaseScore(tier, rank)
  {
    var base := BaseScore(tier, rank);
    var total := wins + losses;
    if total == 0 then base
    else Rated(base, wins, total, 100, GamesConfidence(total))
  }

  // ----- the players file -----

  /** One entry of the players file. */
  datatype Record = Record(tier: string, rank: string, wins: nat, losses: nat, discordId: int)

  /** The rating `find_balanced_teams` gives a player: from the record, or 1000 when unregistered. */
  function MmrOf(data: map<string, Record>, p: string): int
  {
    if p in data then CalculateMmr(data[p].tier, data[p].rank, data[p].wins, data[p].losses) else DefaultBase
  }

  // ----- exhaustive balancing -----

  /** The size of a team. */
  const TeamSize: nat := 5

  /** `itertools.combinations(s, k)`: every choice of `k` positions, in lexicographic order. */
  function Combinations<T>(s: seq<T>, k: nat): seq<seq<T>>
    decreases |s|
  {
    if k == 0 then [[]]
    else if s == [] then []
    else Prefixed(s[0], Combinations(s[1..], k - 1)) + Combinations(s[1..], k)
  }

  function Prefixed<T>(x: T, cs: seq<seq<T>>): (r: seq<seq<T>>)
    ensures |r| == |cs| && forall i :: 0 <= i < |cs| ==> r[i] == [x] + cs[i]
  {
    seq(|cs|, i requires 0 <= i < |cs| => [x] + cs[i])
  }

  /** `c` is `s` with some elements left out (order kept). */
  predicate IsSubseq<T(==)>(c: seq<T>, s: seq<T>)
    decreases |s|
  {
    c == [] || (s != [] && ((c[0] == s[0] && IsSubseq(c[1..], s[1..])) || IsSubseq(c, s[1..])))
  }

  /** The binomial coefficient, by Pascal's rule. */
  function Choose(n: nat, k: nat): nat
  {
    if k == 0 then 1 else if n == 0 then 0 else Choose(n - 1, k - 1) + Choose(n - 1, k)
  }

  /** Every combination is a subsequence of length `k`. */
  lemma {:induction false} CombinationsSound<T>(s: seq<T>, k: nat, c: seq<T>)
    requires c in Combinations(s, k)
    ensures |c| == k && IsSubseq(c, s)
    decreases |s|
  {
    if k > 0 {
      var rest := Combinations(s[1..], k - 1);
      var pre := Prefixed(s[0], rest);
      CombinationsSplit(s, k);
      if c in pre {
        PrefixedOf(s[0], rest, c);
        CombinationsSound(s[1..], k - 1, c[1..]);
      } else {
        assert c in Combinations(s[1..], k);
        CombinationsSound(s[1..], k, c);
      }
    }
  }

  /** The combinations of a non-empty sequence: those with its first element, then those without. */
  lemma CombinationsSplit<T>(s: seq<T>, k: nat)
    requires k > 0
    ensures s != [] ==> Combinations(s, k) == Prefixed(s[0], Combinations(s[1..], k - 1)) + Combinations(s[1..], k)
    ensures s == [] ==> Combinations(s, k) == []
  {
  }

  /** Every subsequence of length `k` is a combination. */
  lemma {:induction false} CombinationsComplete<T>(s: seq<T>, k: nat, c: seq<T>)
    requires |c| == k && IsSubseq(c, s)
    ensures c in Combinations(s, k)
    decreases |s|
  {
    if k > 0 {
      CombinationsSplit(s, k);
      if c[0] == s[0] && IsSubseq(c[1..], s[1..]) {
        CombinationsComplete(s[1..], k - 1, c[1..]);
        PrefixedHas(s[0], Combinations(s[1..], k - 1), c[1..]);
        assert c == [s[0]] + c[1..];
      } else {
        CombinationsComplete(s[1..], k, c);
      }
    }
  }

  /** A prefixed choice is the new first element followed by one of the choices. */
  lemma PrefixedOf<T>(x: T, cs: seq<seq<T>>, c: seq<T>)
    requires c in Prefixed(x, cs)
    ensures c != [] && c[0] == x && c[1..] in cs
  {
    var i :| 0 <= i < |cs| && Prefixed(x, cs)[i] == c;
    assert c == [x] + cs[i];
    assert c[1..] == cs[i];
  }

  /** Prefixing keeps every choice, with the new first element in front. */
  lemma PrefixedHas<T>(x: T, cs: seq<seq<T>>, d: seq<T>)
    requires d in cs
    ensures [x] + d in Prefixed(x, cs)
  {
    var i :| 0 <= i < |cs| && cs[i] == d;
    assert Prefixed(x, cs)[i] == [x] + d;
  }

  /** The combinations are exactly the subsequences of length `k`. */
  lemma CombinationsExact<T>(s: seq<T>, k: nat, c: seq<T>)
    ensures c in Combinations(s, k) <==> |c| == k && IsSubseq(c, s)
  {
    if c in Combinations(s, k) {
      CombinationsSound(s, k, c);
    }
    if |c| == k && IsSubseq(c, s) {
      CombinationsComplete(s, k, c);
    }
  }

  /** There are `Choose(|s|, k)` combinations. */
  lemma {:induction false} CombinationsCount<T>(s: seq<T>, k: nat)
    ensures |Combinations(s, k)| == Choose(|s|, k)
    decreases |s|
  {
    if k > 0 && s != [] {
      CombinationsCount(s[1..], k - 1);
      CombinationsCount(s[1..], k);
    }
  }

  /** `Choose(n, k)` is positive when `k <= n`. */
  lemma {:induction false} ChoosePositive(n: nat, k: nat)
    requires k <= n
    ensures Choose(n, k) > 0
  {
    if k > 0 {
      ChoosePositive(n - 1, k - 1);
    }
  }

  /** Ten players have 252 ways to pick team 1, worked out row by row of Pascal's triangle. */
  lemma TenChooseFive()
    ensures Choose(2 * TeamSize, TeamSize) == 252
  {
    var n := TeamSize - TeamSize;
    assert RowIs(n, 1, 0, 0, 0, 0, 0);
    PascalStep(n, 1, 0, 0, 0, 0, 0);
    PascalStep(n + 1, 1, 1, 0, 0, 0, 0);
    PascalStep(n + 2, 1, 2, 1, 0, 0, 0);
    PascalStep(n + 3, 1, 3, 3, 1, 0, 0);
    PascalStep(n + 4, 1, 4, 6, 4, 1, 0);
    PascalStep(n + 5, 1, 5, 10, 10, 5, 1);
    PascalStep(n + 6, 1, 6, 15, 20, 15, 6);
    PascalStep(n + 7, 1, 7, 21, 35, 35, 21);
    PascalStep(n + 8, 1, 8, 28, 56, 70, 56);
    PascalStep(n + 9, 1, 9, 36, 84, 126, 126);
  }

  /** The first six entries of row `n` of Pascal's triangle are `c0` to `c5`. */
  predicate RowIs(n: nat, c0: nat, c1: nat, c2: nat, c3: nat, c4: nat, c5: nat)
  {
    Choose(n, 0) == c0 && Choose(n, 1) == c1 && Choose(n, 2) == c2
      && Choose(n, 3) == c3 && Choose(n, 4) == c4 && Choose(n, 5) == c5
  }

  /** Pascal's rule takes the start of row `n` to the start of row `n + 1`. */
  lemma PascalStep(n: nat, c0: nat, c1: nat, c2: nat, c3: nat, c4: nat, c5: nat)
    requires RowIs(n, c0, c1, c2, c3, c4, c5)
    ensures RowIs(n + 1, 1, c0 + c1, c1 + c2, c2 + c3, c3 + c4, c4 + c5)
  {
  }

  /** `[p for p in players if p not in team1]`. */
  function Complement(players: seq<string>, team: seq<string>): (r: seq<string>)
    ensures forall p :: p in r <==> p in players && p !in team
    decreases |players|
  {
    if players == [] then []
    else
      var pre := players[..|players| - 1];
      var x := players[|players| - 1];
      assert players == pre + [x];
      Complement(pre, team) + (if x in team then [] else [x])
  }

  /** `sum(player_mmrs[p] for p in team)`. */
  function TeamSum(mmrs: map<string, int>, team: seq<string>): int
    requires forall p :: p in team ==> p in mmrs
    decreases |team|
  {
    if team == [] then 0 else TeamSum(mmrs, team[..|team| - 1]) + mmrs[team[|team| - 1]]
  }

  /** An entry of `team_options`, without its float-only `win_probability`. */
  datatype TeamOption = TeamOption(team1: seq<string>, team2: seq<string>, difference: nat)

  /** The ratings dictionary covers the players with the ratings `MmrOf` gives. */
  predicate Rates(mmrs: map<string, int>, data: map<string, Record>, players: seq<string>)
  {
    forall p :: p in players ==> p in mmrs && mmrs[p] == MmrOf(data, p)
  }

  /** The option built for one `team1`. */
  function OptionFor(players: seq<string>, mmrs: map<string, int>, team1: seq<string>): TeamOption
    requires forall p :: p in players ==> p in mmrs
    requires forall p :: p in team1 ==> p in players
  {
    var team2 := Complement(players, team1);
    TeamOption(team1, team2, Abs(TeamSum(mmrs, team1) - TeamSum(mmrs, team2)))
  }

  /** Every combination's members are players. */
  lemma CombinationMembers(players: seq<string>, c: seq<string>)
    requires c in Combinations(players, TeamSize)
    ensures forall p :: p in c ==> p in players
  {
    CombinationsSound(players, TeamSize, c);
    SubseqMembers(c, players);
  }

  lemma {:induction false} SubseqMembers<T>(c: seq<T>, s: seq<T>)
    requires IsSubseq(c, s)
    ensures forall x :: x in c ==> x in s
    decreases |s|
  {
    if c != [] {
      if c[0] == s[0] && IsSubseq(c[1..], s[1..]) {
        SubseqMembers(c[1..], s[1..]);
        assert c == [c[0]] + c[1..];
      } else {
        SubseqMembers(c, s[1..]);
      }
      assert s == [s[0]] + s[1..];
    }
  }

  /** Every candidate team 1 is made of players. */
  predicate DrawnFrom(combos: seq<seq<string>>, players: seq<string>)
  {
    forall i, p :: 0 <= i < |combos| && p in combos[i] ==> p in players
  }

  lemma CombinationsDrawn(players: seq<string>)
    ensures DrawnFrom(Combinations(players, TeamSize), players)
  {
    var combos := Combinations(players, TeamSize);
    forall i, p | 0 <= i < |combos| && p in combos[i] ensures p in players {
      CombinationMembers(players, combos[i]);
    }
  }

  /** One option per candidate team 1, in order. */
  function OptionsFor(players: seq<string>, mmrs: map<string, int>, combos: seq<seq<string>>): (r: seq<TeamOption>)
    requires forall p :: p in players ==> p in mmrs
    requires DrawnFrom(combos, players)
    ensures |r| == |combos|
  {
    seq(|combos|, i requires 0 <= i < |combos| => OptionFor(players, mmrs, combos[i]))
  }

  /** `team_options`: one option per combination, in the order of `itertools.combinations`. */
  function OptionsOf(players: seq<string>, mmrs: map<string, int>): seq<TeamOption>
    requires forall p :: p in players ==> p in mmrs
  {
    CombinationsDrawn(players);
    OptionsFor(players, mmrs, Combinations(players, TeamSize))
  }

  /** `key=lambda x: x[3]`: a smaller difference sorts first. */
  function ByDifference(): (TeamOption, TeamOption) -> bool
  {
    (a: TeamOption, b: TeamOption) => a.difference < b.difference
  }

  lemma ByDifferenceIsOrder()
    ensures IsStrictWeakOrder(ByDifference())
  {
  }

  /** Python's `len(set(a) & set(b))`. */
  function Overlap(a: seq<string>, b: seq<string>): nat
  {
    |(set x | x in a) * (set x | x in b)|
  }

  /** `is_diverse`: the option's team 1 shares at most three players with the team 1 of every selected option. */
  predicate IsDiverse(option: TeamOption, selected: seq<TeamOption>)
  {
    forall k :: 0 <= k < |selected| ==> Overlap(option.team1, selected[k].team1) < 4
  }

  /** The selection loop over the sorted options left in `rest`, stopping once `num` are selected. */
  function Greedy(selected: seq<TeamOption>, rest: seq<TeamOption>, num: int): (r: seq<TeamOption>)
    ensures |selected| <= |r| <= |selected| + |rest|
    decreases |rest|
  {
    if rest == [] || |selected| >= num then selected
    else Greedy(if IsDiverse(rest[0], selected) then selected + [rest[0]] else selected, rest[1..], num)
  }

  const NeedTen := "정확히 10명의 플레이어가 필요합니다."

  /** `find_balanced_teams(players, player_data, num_options)`; the `ValueError` is the failure. */
  function BalancedTeamsOf(players: seq<string>, data: map<string, Record>, num: int): (r: Result<seq<TeamOption>, string>)
    ensures r.Success? <==> |players| == 10
    ensures r.Failure? ==> r.error == NeedTen
    ensures r.Success? && num >= 0 ==> |r.value| <= num
  {
    if |players| != 10 then Failure(NeedTen)
    else
      var sorted := SortedOptions(players, MmrsOf(players, data));
      OptionsExist(players, MmrsOf(players, data));
      Success(PyTake(Greedy([sorted[0]], sorted[1..], num), num))
  }

  /** The loop filling `player_mmrs`. */
  method PlayerMmrs(players: seq<string>, data: map<string, Record>) returns (mmrs: map<string, int>)
    ensures mmrs == MmrsOf(players, data)
  {
    mmrs := map[];
    for i := 0 to |players|
      invariant mmrs == map p | p in players[..i] :: MmrOf(data, p)
    {
      assert players[..i + 1] == players[..i] + [players[i]];
      mmrs := mmrs[players[i] := MmrOf(data, players[i])];
    }
    assert players[..|players|] == players;
  }

  /** The loop over `itertools.combinations(players, 5)` appending to `team_options`. */
  method EnumerateOptions(players: seq<string>, mmrs: map<string, int>) returns (options: seq<TeamOption>)
    requires forall p :: p in players ==> p in mmrs
    ensures options == OptionsOf(players, mmrs)
  {
    var combos := Combinations(players, TeamSize);
    CombinationsDrawn(players);
    ghost var all := OptionsFor(players, mmrs, combos);
    options := [];
    for i := 0 to |combos|
      invariant options == all[..i]
    {
      var team1 := combos[i];
      var team2 := Complement(players, team1);
      var difference := Abs(TeamSum(mmrs, team1) - TeamSum(mmrs, team2));
      PrefixSnoc(all, i);
      options := options + [TeamOption(team1, team2, difference)];
    }
    assert all[..|combos|] == all;
  }

  /** The inner loop computing `is_diverse`, stopping at the first overlap of four or more. */
  method CheckDiverse(option: TeamOption, selected: seq<TeamOption>) returns (isDiverse: bool)
    ensures isDiverse == IsDiverse(option, selected)
  {
    isDiverse := true;
    var k := 0;
    while k < |selected|
      invariant 0 <= k <= |selected|
      invariant isDiverse && forall j :: 0 <= j < k ==> Overlap(option.team1, selected[j].team1) < 4
    {
      if Overlap(option.team1, selected[k].team1) >= 4 {
        return false;
      }
      k := k + 1;
    }
  }

  /** The selection loop: the best option, then each later option diverse from all selected, up to `num`. */
  method SelectDiverse(sorted: seq<TeamOption>, num: int) returns (selected: seq<TeamOption>)
    requires sorted != []
    ensures selected == Greedy([sorted[0]], sorted[1..], num)
  {
    selected := [sorted[0]];
    var i := 1;
    while i < |sorted|
      invariant 1 <= i <= |sorted|
      invariant Greedy(selected, sorted[i..], num) == Greedy([sorted[0]], sorted[1..], num)
    {
      if |selected| >= num {
        break;
      }
      var isDiverse := CheckDiverse(sorted[i], selected);
      assert sorted[i..][1..] == sorted[i + 1..];
      if isDiverse {
        selected := selected + [sorted[i]];
      }
      i := i + 1;
    }
  }

  /** `find_balanced_teams`. */
  method FindBalancedTeams(players: seq<string>, data: map<string, Record>, num: int := 3)
    returns (r: Result<seq<TeamOption>, string>)
    ensures r == BalancedTeamsOf(players, data, num)
  {
    if |players| != 10 {
      return Failure(NeedTen);
    }
    var mmrs := PlayerMmrs(players, data);
    var options := EnumerateOptions(players, mmrs);
    CombinationsCount(players, TeamSize);
    ChoosePositive(|players|, TeamSize);
    ByDifferenceIsOrder();
    var sorted := SortBy(options, ByDifference());
    var selected := SelectDiverse(sorted, num);
    r := Success(PyTake(selected, num));
  }

  /** The greedy selection keeps what was selected in front, and adds only options from `rest`. */
  lemma {:induction false} GreedyShape(selected: seq<TeamOption>, rest: seq<TeamOption>, num: int)
    ensures |Greedy(selected, rest, num)| >= |selected|
    ensures Greedy(selected, rest, num)[..|selected|] == selected
    ensures forall o :: o in Greedy(selected, rest, num) ==> o in selected || o in rest
    ensures |selected| <= num ==> |Greedy(selected, rest, num)| <= num
    decreases |rest|
  {
    if rest != [] && |selected| < num {
      var next := if IsDiverse(rest[0], selected) then selected + [rest[0]] else selected;
      GreedyShape(next, rest[1..], num);
      assert next[..|selected|] == selected;
      assert rest == [rest[0]] + rest[1..];
    }
  }

  /** Pairwise diversity of a selection, each option against every earlier one. */
  predicate PairwiseDiverse(selected: seq<TeamOption>)
  {
    forall i, j :: 0 <= i < j < |selected| ==> Overlap(selected[j].team1, selected[i].team1) < 4
  }

  /** Differences never decrease along `s`. */
  predicate Ascending(s: seq<TeamOption>)
  {
    forall i, j :: 0 <= i < j < |s| ==> s[i].difference <= s[j].difference
  }

  /** Every option the loop adds is diverse from every option selected before it. */
  lemma {:induction false} GreedyDiverse(selected: seq<TeamOption>, rest: seq<TeamOption>, num: int)
    requires PairwiseDiverse(selected)
    ensures PairwiseDiverse(Greedy(selected, rest, num))
    decreases |rest|
  {
    if rest != [] && |selected| < num {
      if IsDiverse(rest[0], selected) {
        var next := selected + [rest[0]];
        assert PairwiseDiverse(next) by {
          forall i, j | 0 <= i < j < |next| ensures Overlap(next[j].team1, next[i].team1) < 4 {
            if j == |selected| {
              assert next[j] == rest[0] && next[i] == selected[i];
            } else {
              assert next[j] == selected[j] && next[i] == selected[i];
            }
          }
        }
        GreedyDiverse(next, rest[1..], num);
      } else {
        GreedyDiverse(selected, rest[1..], num);
      }
    }
  }

  /** Selecting from options sorted by difference keeps the selection sorted by difference. */
  lemma {:induction false} GreedySorted(selected: seq<TeamOption>, rest: seq<TeamOption>, num: int)
    requires Ascending(selected) && Ascending(rest)
    requires forall i, j :: 0 <= i < |selected| && 0 <= j < |rest| ==> selected[i].difference <= rest[j].difference
    ensures Ascending(Greedy(selected, rest, num))
    decreases |rest|
  {
    if rest != [] && |selected| < num {
      var tail := rest[1..];
      assert Ascending(tail) by {
        forall i, j | 0 <= i < j < |tail| ensures tail[i].difference <= tail[j].difference {
          assert tail[i] == rest[i + 1] && tail[j] == rest[j + 1];
        }
      }
      var next := if IsDiverse(rest[0], selected) then selected + [rest[0]] else selected;
      assert Ascending(next) by {
        forall i, j | 0 <= i < j < |next| ensures next[i].difference <= next[j].difference {
          if j == |selected| {
            assert next[i] == selected[i] && next[j] == rest[0];
          } else {
            assert next[i] == selected[i] && next[j] == selected[j];
          }
        }
      }
      forall i, j | 0 <= i < |next| && 0 <= j < |tail| ensures next[i].difference <= tail[j].difference {
        assert tail[j] == rest[j + 1];
        if i == |selected| {
          assert next[i] == rest[0];
        } else {
          assert next[i] == selected[i];
        }
      }
      GreedySorted(next, tail, num);
    }
  }

  /** The options sorted by difference, as `team_options.sort(key=lambda x: x[3])` leaves them. */
  function SortedOptions(players: seq<string>, mmrs: map<string, int>): (r: seq<TeamOption>)
    requires forall p :: p in players ==> p in mmrs
    ensures multiset(r) == multiset(OptionsOf(players, mmrs))
    ensures |r| == |OptionsOf(players, mmrs)|
  {
    ByDifferenceIsOrder();
    SortBy(OptionsOf(players, mmrs), ByDifference())
  }

  /** At least five players give at least one option. */
  lemma OptionsExist(players: seq<string>, mmrs: map<string, int>)
    requires forall p :: p in players ==> p in mmrs
    requires |players| >= TeamSize
    ensures SortedOptions(players, mmrs) != []
  {
    CombinationsCount(players, TeamSize);
    ChoosePositive(|players|, TeamSize);
  }

  /** Sorting keeps exactly the enumerated options. */
  lemma SortedOptionsMembers(players: seq<string>, mmrs: map<string, int>, o: TeamOption)
    requires forall p :: p in players ==> p in mmrs
    ensures o in SortedOptions(players, mmrs) <==> o in OptionsOf(players, mmrs)
  {
    assert o in SortedOptions(players, mmrs) <==> o in multiset(SortedOptions(players, mmrs));
  }

  /** Starting from the first option, the selection only holds options of `sorted`. */
  lemma GreedyFrom(sorted: seq<TeamOption>, num: int, o: TeamOption)
    requires sorted != [] && o in Greedy([sorted[0]], sorted[1..], num)
    ensures o in sorted
  {
    GreedyShape([sorted[0]], sorted[1..], num);
    assert o in [sorted[0]] || o in sorted[1..];
  }

  /** Sorting by difference yields non-decreasing differences. */
  lemma SortedOptionsAscending(players: seq<string>, mmrs: map<string, int>)
    requires forall p :: p in players ==> p in mmrs
    ensures Ascending(SortedOptions(players, mmrs))
  {
    var s := SortedOptions(players, mmrs);
    ByDifferenceIsOrder();
    assert SortedBy(s, ByDifference());
    forall i, j | 0 <= i < j < |s| ensures s[i].difference <= s[j].difference {
      assert !ByDifference()(s[j], s[i]);
    }
  }

  /** The ratings dictionary built for ten players. */
  function MmrsOf(players: seq<string>, data: map<string, Record>): (m: map<string, int>)
    ensures forall p :: p in players ==> p in m
  {
    map p | p in players :: MmrOf(data, p)
  }

  /** What the selection returns for ten players, before the Python `[:num_options]`. */
  function SelectedOf(players: seq<string>, data: map<string, Record>, num: int): seq<TeamOption>
    requires |players| == 10
  {
    var sorted := SortedOptions(players, MmrsOf(players, data));
    OptionsExist(players, MmrsOf(players, data));
    Greedy([sorted[0]], sorted[1..], num)
  }

  /** For ten players the result is the first `num_options` of the selection. */
  lemma BalancedTeamsSelected(players: seq<string>, data: map<string, Record>, num: int)
    requires |players| == 10
    ensures BalancedTeamsOf(players, data, num) == Success(PyTake(SelectedOf(players, data, num), num))
  {
  }

  /** A selected option is one of the enumerated options. */
  lemma SelectedAreOptions(players: seq<string>, data: map<string, Record>, num: int, o: TeamOption)
    requires |players| == 10
    requires o in SelectedOf(players, data, num)
    ensures o in OptionsOf(players, MmrsOf(players, data))
  {
    var mmrs := MmrsOf(players, data);
    OptionsExist(players, mmrs);
    GreedyFrom(SortedOptions(players, mmrs), num, o);
    SortedOptionsMembers(players, mmrs, o);
  }

  /** Each option splits the ten players: team 1 is a combination of five, team 2 the others. */
  lemma OptionsSplit(players: seq<string>, mmrs: map<string, int>, o: TeamOption)
    requires forall p :: p in players ==> p in mmrs
    requires o in OptionsOf(players, mmrs)
    ensures o.team1 in Combinations(players, TeamSize)
    ensures forall p :: p in o.team2 <==> p in players && p !in o.team1
  {
    var options := OptionsOf(players, mmrs);
    var i :| 0 <= i < |options| && options[i] == o;
  }

  /** The selection from a sorted list of options is sorted and pairwise diverse. */
  lemma GreedyFromSorted(sorted: seq<TeamOption>, num: int)
    requires sorted != [] && Ascending(sorted)
    ensures Ascending(Greedy([sorted[0]], sorted[1..], num))
    ensures PairwiseDiverse(Greedy([sorted[0]], sorted[1..], num))
  {
    var tail := sorted[1..];
    forall i, j | 0 <= i < |[sorted[0]]| && 0 <= j < |tail|
      ensures [sorted[0]][i].difference <= tail[j].difference
    {
      assert tail[j] == sorted[j + 1];
    }
    assert Ascending(tail) by {
      forall i, j | 0 <= i < j < |tail| ensures tail[i].difference <= tail[j].difference {
        assert tail[i] == sorted[i + 1] && tail[j] == sorted[j + 1];
      }
    }
    GreedySorted([sorted[0]], tail, num);
    GreedyDiverse([sorted[0]], tail, num);
  }

  /** A prefix of a sorted, pairwise diverse selection is sorted and pairwise diverse. */
  lemma PrefixKeeps(s: seq<TeamOption>, n: nat)
    requires n <= |s| && Ascending(s) && PairwiseDiverse(s)
    ensures Ascending(s[..n]) && PairwiseDiverse(s[..n])
  {
    assert forall i :: 0 <= i < n ==> s[..n][i] == s[i];
  }

  /**
   * What `find_balanced_teams` promises for ten players: at most `num_options` options,
   * each a split of the players into a combination of five and the rest, in
   * non-decreasing difference, each team 1 sharing at most three players with every
   * earlier team 1.
   */
  lemma BalancedTeamsProperties(players: seq<string>, data: map<string, Record>, num: int)
    requires |players| == 10
    ensures BalancedTeamsOf(players, data, num).Success?
    ensures var r := BalancedTeamsOf(players, data, num).value;
      && (num >= 0 ==> |r| <= num)
      && (forall k :: 0 <= k < |r| ==> r[k].team1 in Combinations(players, TeamSize))
      && (forall k :: 0 <= k < |r| ==> forall p :: p in r[k].team2 <==> p in players && p !in r[k].team1)
      && Ascending(r)
      && PairwiseDiverse(r)
  {
    var mmrs := MmrsOf(players, data);
    var sorted := SortedOptions(players, mmrs);
    OptionsExist(players, mmrs);
    SortedOptionsAscending(players, mmrs);
    GreedyFromSorted(sorted, num);
    var g := SelectedOf(players, data, num);
    var r := PyTake(g, num);
    BalancedTeamsSelected(players, data, num);
    PrefixKeeps(g, |r|);
    forall k | 0 <= k < |r|
      ensures r[k].team1 in Combinations(players, TeamSize)
      ensures forall p :: p in r[k].team2 <==> p in players && p !in r[k].team1
    {
      assert r[k] == g[k];
      SelectedAreOptions(players, data, num, r[k]);
      OptionsSplit(players, mmrs, r[k]);
    }
  }

  /** The first option has the smallest difference of all the enumerated splits. */
  lemma BalancedTeamsBest(players: seq<string>, data: map<string, Record>, num: int, o: TeamOption)
    requires |players| == 10 && num > 0
    requires o in OptionsOf(players, MmrsOf(players, data))
    ensures var r := BalancedTeamsOf(players, data, num).value;
      var options := OptionsOf(players, MmrsOf(players, data));
      && r != [] && r[0].difference <= o.difference
      && exists k :: (0 <= k < |options| && r[0] == options[k]
                      && forall j :: 0 <= j < k ==> options[j].difference > r[0].difference)
  {
    var mmrs := MmrsOf(players, data);
    var options := OptionsOf(players, mmrs);
    var sorted := SortedOptions(players, mmrs);
    OptionsExist(players, mmrs);
    BalancedTeamsSelected(players, data, num);
    GreedyShape([sorted[0]], sorted[1..], num);
    SortedOptionsAscending(players, mmrs);
    SortedOptionsMembers(players, mmrs, o);
    var j :| 0 <= j < |sorted| && sorted[j] == o;
    ByDifferenceIsOrder();
    SortByFirst(options, ByDifference());
  }

  /**
   * Diversity is measured on team 1 alone: the mirror of a split, which swaps the teams,
   * shares no player of its team 1 with the split's team 1 and so counts as diverse.
   */
  lemma MirrorIsDiverse(o: TeamOption)
    requires forall p :: p in o.team1 ==> p !in o.team2
    ensures IsDiverse(TeamOption(o.team2, o.team1, o.difference), [o])
  {
    assert (set x | x in o.team2) * (set x | x in o.team1) == {};
  }

  // ----- the commands on the players file -----

  /** `[name.strip() for name in names.split(",")]`. */
  function Names(names: string): (r: seq<string>)
    ensures |r| == |Split(names, ',')|
  {
    var parts := Split(names, ',');
    seq(|parts|, i requires 0 <= i < |parts| => Strip(parts[i]))
  }

  /** The names of `names` missing from the file, in order. */
  function Unregistered(data: map<string, Record>, names: seq<string>): (r: seq<string>)
    ensures forall n :: n in r <==> n in names && n !in data
    decreases |names|
  {
    if names == [] then []
    else
      var pre := names[..|names| - 1];
      var x := names[|names| - 1];
      assert names == pre + [x];
      Unregistered(data, pre) + (if x in data then [] else [x])
  }

  /** `data[n]["wins" or "losses"] += 1` for each name in turn. */
  function Tally(data: map<string, Record>, names: seq<string>, won: bool): (r: map<string, Record>)
    requires forall n :: n in names ==> n in data
    ensures r.Keys == data.Keys
    decreases |names|
  {
    if names == [] then data
    else
      var pre := names[..|names| - 1];
      var x := names[|names| - 1];
      assert forall n :: n in pre ==> n in names;
      var d := Tally(data, pre, won);
      var rec := d[x];
      d[x := if won then rec.(wins := rec.wins + 1) else rec.(losses := rec.losses + 1)]
  }

  /** Each name gains one win (or loss) per occurrence; nothing else changes. */
  lemma {:induction false} TallyEffect(data: map<string, Record>, names: seq<string>, won: bool, n: string)
    requires forall m :: m in names ==> m in data
    requires n in data
    ensures var r := Tally(data, names, won)[n];
      && r.wins == data[n].wins + (if won then Count(names, n) else 0)
      && r.losses == data[n].losses + (if won then 0 else Count(names, n))
      && r.tier == data[n].tier && r.rank == data[n].rank && r.discordId == data[n].discordId
    decreases |names|
  {
    if names != [] {
      var pre := names[..|names| - 1];
      assert forall m :: m in pre ==> m in names;
      TallyEffect(data, pre, won, n);
    }
  }

  /** What `/전적` answers. */
  datatype RecordOutcome = WrongTeamSize | NotRegistered(names: seq<string>) | Recorded

  /** `/등록`'s answer; `mmr` is the rating it reports. */
  datatype RegisterOutcome = TopTierNeedsRankI | InvalidTierOrRank | Registered(updated: bool, mmr: int)

  /** `/전적`'s decision and the file it leaves. */
  function RecordMatchOf(data: map<string, Record>, winnerNames: string, loserNames: string): (r: (RecordOutcome, map<string, Record>))
    ensures r.1.Keys == data.Keys
    ensures r.0 != Recorded ==> r.1 == data
  {
    var winners := Names(winnerNames);
    var losers := Names(loserNames);
    if |winners| != 5 || |losers| != 5 then (WrongTeamSize, data)
    else if Unregistered(data, winners + losers) != [] then (NotRegistered(Unregistered(data, winners + losers)), data)
    else
      assert forall n :: n in winners ==> n in winners + losers;
      assert forall n :: n in losers ==> n in winners + losers;
      var d := Tally(data, winners, true);
      (Recorded, Tally(d, losers, false))
  }

  /**
   * `/전적` refuses a side that does not list five names, then any unregistered name, and
   * otherwise records the match. It changes the file only when it records the match, and
   * then only wins and losses.
   */
  lemma RecordMatchEffect(data: map<string, Record>, winnerNames: string, loserNames: string, n: string)
    ensures var (outcome, d) := RecordMatchOf(data, winnerNames, loserNames);
      var winners := Names(winnerNames);
      var losers := Names(loserNames);
      && (outcome == WrongTeamSize <==> |winners| != 5 || |losers| != 5)
      && (outcome.NotRegistered? <==>
           |winners| == 5 && |losers| == 5 && exists m :: m in winners + losers && m !in data)
      && (outcome.NotRegistered? ==> outcome.names == Unregistered(data, winners + losers))
      && (outcome == Recorded <==>
           |winners| == 5 && |losers| == 5 && forall m :: m in winners + losers ==> m in data)
      && (outcome != Recorded ==> d == data)
      && d.Keys == data.Keys
      && (outcome == Recorded && n in data ==>
           && d[n].wins == data[n].wins + Count(winners, n)
           && d[n].losses == data[n].losses + Count(losers, n)
           && d[n].tier == data[n].tier && d[n].rank == data[n].rank && d[n].discordId == data[n].discordId)
  {
    var winners := Names(winnerNames);
    var losers := Names(loserNames);
    var all := winners + losers;
    var missing := Unregistered(data, all);
    if |winners| == 5 && |losers| == 5 {
      if missing != [] {
        assert missing[0] in all && missing[0] !in data;
      } else {
        assert forall m :: m in all ==> m in data by {
          forall m | m in all ensures m in data {
            assert m !in missing;
          }
        }
        if n in data {
          assert forall m :: m in winners ==> m in all;
          assert forall m :: m in losers ==> m in all;
          TallyEffect(data, winners, true, n);
          TallyEffect(Tally(data, winners, true), losers, false, n);
        }
      }
    }
  }

  /** `/등록`'s decision and the file it leaves. */
  function RegisterOf(data: map<string, Record>, name: string, tier: string, rank: string, discordId: int): (r: (RegisterOutcome, map<string, Record>))
    ensures r.0.Registered? <==>
      !(tier in TopTiers && rank != "I") && tier in TierScores && rank in TierScores[tier]
    ensures r.0.Registered? ==> r.1.Keys == data.Keys + {name} && r.0.updated == (name in data)
    ensures !r.0.Registered? ==> r.1 == data
  {
    if tier in TopTiers && rank != "I" then (TopTierNeedsRankI, data)
    else if tier !in TierScores || rank !in TierScores[tier] then (InvalidTierOrRank, data)
    else
      var rec := if name in data then data[name].(tier := tier, rank := rank) else Record(tier, rank, 0, 0, discordId);
      (Registered(name in data, CalculateMmr(tier, rank, rec.wins, rec.losses)), data[name := rec])
  }

  /** `/등록` keeps the record of a known name apart from its tier and rank, and starts a new name at 0 wins and 0 losses. */
  lemma RegisterEffect(data: map<string, Record>, name: string, tier: string, rank: string, discordId: int)
    ensures var (outcome, d) := RegisterOf(data, name, tier, rank, discordId);
      && (tier in TopTiers && rank != "I" ==> outcome == TopTierNeedsRankI && d == data)
      && (!outcome.Registered? ==> d == data)
      && (outcome.Registered? ==>
           && tier in TierScores && rank in TierScores[tier]
           && d == data[name := d[name]]
           && d[name].tier == tier && d[name].rank == rank
           && (name in data ==> d[name] == data[name].(tier := tier, rank := rank))
           && (name !in data ==> d[name].wins == 0 && d[name].losses == 0)
           && outcome.mmr == CalculateMmr(tier, rank, d[name].wins, d[name].losses))
  {
  }

  /** The players file, as `load_data` returns it and `save_data` stores it. */
  class Ledger {
    var data: map<string, Record>

    constructor (data0: map<string, Record>)
      ensures data == data0
    {
      data := data0;
    }

    /** `/전적 winner_names loser_names`. */
    method RecordMatch(winnerNames: string, loserNames: string) returns (outcome: RecordOutcome)
      modifies this
      ensures (outcome, data) == RecordMatchOf(old(data), winnerNames, loserNames)
    {
      var winners := Names(winnerNames);
      var losers := Names(loserNames);
      if |winners| != 5 || |losers| != 5 {
        return WrongTeamSize;
      }
      var all := winners + losers;
      var unregistered := FindUnregistered(all);
      if unregistered != [] {
        return NotRegistered(unregistered);
      }
      assert forall n :: n in winners ==> n in all;
      assert forall n :: n in losers ==> n in all;
      Credit(winners, true);
      Credit(losers, false);
      outcome := Recorded;
    }

    /** The loop collecting `unregistered`, in order. */
    method FindUnregistered(all: seq<string>) returns (unregistered: seq<string>)
      ensures unregistered == Unregistered(data, all)
    {
      unregistered := [];
      for i := 0 to |all|
        invariant unregistered == Unregistered(data, all[..i])
      {
        assert all[..i + 1][..i] == all[..i];
        if all[i] !in data {
          unregistered := unregistered + [all[i]];
        }
      }
      assert all[..|all|] == all;
    }

    /** The loop `for n in names: data[n][...] += 1`. */
    method Credit(names: seq<string>, won: bool)
      requires forall n :: n in names ==> n in data
      modifies this
      ensures data == Tally(old(data), names, won)
    {
      for i := 0 to |names|
        invariant forall n :: n in names ==> n in old(data)
        invariant data == Tally(old(data), names[..i], won)
      {
        assert names[..i + 1][..i] == names[..i];
        assert forall n :: n in names[..i + 1] ==> n in names;
        var rec := data[names[i]];
        data := data[names[i] := if won then rec.(wins := rec.wins + 1) else rec.(losses := rec.losses + 1)];
      }
      assert names[..|names|] == names;
    }

    /** `/등록 real_name tier rank`; `discordId` is the caller's Discord id. */
    method RegisterPlayer(name: string, tier: string, rank: string, discordId: int) returns (outcome: RegisterOutcome)
      modifies this
      ensures (outcome, data) == RegisterOf(old(data), name, tier, rank, discordId)
    {
      if tier in TopTiers && rank != "I" {
        return TopTierNeedsRankI;
      }
      if tier !in TierScores || rank !in TierScores[tier] {
        return InvalidTierOrRank;
      }
      var updated := name in data;
      if updated {
        data := data[name := data[name].(tier := tier, rank := rank)];
      } else {
        data := data[name := Record(tier, rank, 0, 0, discordId)];
      }
      var mmr := CalculateMmr(tier, rank, data[name].wins, data[name].losses);
      outcome := Registered(updated, mmr);
    }
  }
}
