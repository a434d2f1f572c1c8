/**
 * The three randomized team-balancing options of cogs/utils/team_commands.py.
 * Each `random.sample` and `random.shuffle` is an arbitrary choice (`:|`), so
 * every property below holds whatever the random source returns. Each method
 * also hands back, as a ghost result, the trials it compared, in order.
 */
module TeamBalance {
  import opened Wrappers
  import opened Text
  import opened Sequences
  import opened DataStore
  import opened TeamRating
  import opened TeamPositions

  /** A blue team and a red team. */
  datatype Split = Split(blue: seq<string>, red: seq<string>)

  /** Why an option gave no teams: an error text it returns, or the `KeyError` of an unknown main position. */
  datatype BalanceError = Message(text: string) | MissingKey(key: string)

  /** The best trial so far and its rating difference (`best_blue`, `best_red`, `best_mmr_diff`). */
  datatype Kept = Kept(split: Split, diff: nat)

  const NeedTen := "정확히 10명의 플레이어가 필요합니다."
  const Option1Failed := "팀 밸런싱에 실패했습니다."
  const Option3Failed := "새로운 팀 구성을 찾지 못했습니다."
  const Option1Trials := 1500
  const ShuffleTrials := 2000

  /** `abs(blue_mmr - red_mmr)` with both totals in the "adjusted" mode. */
  function Diff(st: Store, t: Split): nat
  {
    Abs(TeamTotal(st, t.blue, "adjusted") - TeamTotal(st, t.red, "adjusted"))
  }

  /**
   * The trial the loops keep: the first one of smallest difference, because a later
   * trial replaces the kept one only when its difference is strictly smaller.
   */
  function BestOf(st: Store, trials: seq<Split>): (r: Option<nat>)
    ensures r.None? <==> trials == []
    ensures r.Some? ==> r.value < |trials|
    decreases |trials|
  {
    if trials == [] then None
    else
      var prev := BestOf(st, trials[..|trials| - 1]);
      if prev.None? || Diff(st, trials[|trials| - 1]) < Diff(st, trials[prev.value]) then Some(|trials| - 1)
      else prev
  }

  /** The kept trial has the smallest difference of all trials, and every earlier trial is strictly worse. */
  lemma {:induction false} BestOfIsFirstMinimum(st: Store, trials: seq<Split>)
    requires trials != []
    ensures forall k :: 0 <= k < |trials| ==> Diff(st, trials[BestOf(st, trials).value]) <= Diff(st, trials[k])
    ensures forall k :: 0 <= k < BestOf(st, trials).value ==> Diff(st, trials[k]) > Diff(st, trials[BestOf(st, trials).value])
    decreases |trials|
  {
    var pre := trials[..|trials| - 1];
    if pre != [] {
      BestOfIsFirstMinimum(st, pre);
      assert forall k :: 0 <= k < |pre| ==> pre[k] == trials[k];
    }
  }

  /** The loop variables agree with `BestOf` over the trials compared so far. */
  ghost predicate Tracks(st: Store, trials: seq<Split>, best: Option<Kept>)
  {
    match BestOf(st, trials)
    case None => best.None?
    case Some(i) => best == Some(Kept(trials[i], Diff(st, trials[i])))
  }

  /** The end of every trial: rate both teams and keep the split if it beats the best so far. */
  method Consider(dm: DataManager, ghost trials: seq<Split>, best: Option<Kept>, t: Split) returns (best': Option<Kept>)
    requires Tracks(dm.State(), trials, best)
    ensures Tracks(dm.State(), trials + [t], best')
  {
    assert (trials + [t])[..|trials|] == trials;
    var blueMmr := TeamMmr(t.blue, dm, "adjusted");
    var redMmr := TeamMmr(t.red, dm, "adjusted");
    var mmrDiff := Abs(blueMmr - redMmr);
    if best.None? || mmrDiff < best.value.diff {
      best' := Some(Kept(t, mmrDiff));
    } else {
      best' := best;
    }
  }

  /** The result of a finished search: the kept split, or `failure` when no trial was kept. */
  function Outcome(best: Option<Kept>, failure: string): Result<Split, BalanceError>
  {
    match best
    case Some(k) => Success(k.split)
    case None => Failure(Message(failure))
  }

  /** The split `BestOf` selects, as `Outcome` reports it. */
  function Selected(st: Store, trials: seq<Split>, failure: string): (r: Result<Split, BalanceError>)
    ensures r.Success? <==> trials != []
  {
    match BestOf(st, trials)
    case Some(i) => Success(trials[i])
    case None => Failure(Message(failure))
  }

  lemma TracksOutcome(st: Store, trials: seq<Split>, best: Option<Kept>, failure: string)
    requires Tracks(st, trials, best)
    ensures Outcome(best, failure) == Selected(st, trials, failure)
  {
  }

  // ----- option 1: roles and adjusted ratings -----

  /** `[p for p in candidates if p not in used_players]`. */
  function Unused(candidates: seq<string>, used: set<string>): (r: seq<string>)
    ensures forall y :: y in r <==> y in candidates && y !in used
    ensures Distinct(candidates) ==> Distinct(r)
    decreases |candidates|
  {
    if candidates == [] then []
    else
      var pre := candidates[..|candidates| - 1];
      var x := candidates[|candidates| - 1];
      assert candidates == pre + [x];
      var rest := Unused(pre, used);
      if x in used then rest else rest + [x]
  }

  /** Blue and red each hold one candidate of every role, in role order. */
  predicate FillsRoles(lists: PositionMap, t: Split)
    requires |lists| == 5
  {
    |t.blue| == 5 && |t.red| == 5 && forall i :: 0 <= i < 5 ==> t.blue[i] in lists[i] && t.red[i] in lists[i]
  }

  /** A split the option-1 trial can produce: every role filled, and no player twice. */
  predicate RoleAssignment(lists: PositionMap, t: Split)
    requires |lists| == 5
  {
    FillsRoles(lists, t) && Distinct(t.blue + t.red)
  }

  predicate AllDistinct(lists: PositionMap)
  {
    forall i :: 0 <= i < |lists| ==> Distinct(lists[i])
  }

  /**
   * One option-1 trial: for each role in order, two players not used yet are sampled
   * from its candidates, the first for blue and the second for red; the trial fails
   * when fewer than two remain.
   */
  method DrawTrial(lists: PositionMap) returns (ok: bool, t: Split)
    requires |lists| == 5
    ensures ok ==> FillsRoles(lists, t)
    ensures ok && AllDistinct(lists) ==> RoleAssignment(lists, t)
  {
    var blue: seq<string> := [];
    var red: seq<string> := [];
    var used: set<string> := {};
    for k := 0 to 5
      invariant |blue| == k && |red| == k
      invariant forall j :: 0 <= j < k ==> blue[j] in lists[j] && red[j] in lists[j]
      invariant forall y :: y in used <==> y in blue || y in red
      invariant AllDistinct(lists) ==> Distinct(blue + red)
    {
      var available := Unused(lists[k], used);
      if |available| < 2 {
        return false, Split(blue, red);
      }
      var a: nat, b: nat :| a < |available| && b < |available| && a != b;
      var x, y := available[a], available[b];
      assert AllDistinct(lists) ==> x != y;
      DistinctAppendTwo(blue, red, x, y);
      blue := blue + [x];
      red := red + [y];
      used := used + {x, y};
    }
    return true, Split(blue, red);
  }

  /** Adding two new, different players to the two teams keeps all ten distinct. */
  lemma DistinctAppendTwo(blue: seq<string>, red: seq<string>, x: string, y: string)
    ensures Distinct(blue + red) && x != y && x !in blue + red && y !in blue + red ==>
      Distinct((blue + [x]) + (red + [y]))
  {
    if Distinct(blue + red) && x != y && x !in blue + red && y !in blue + red {
      var s := (blue + [x]) + (red + [y]);
      forall i, j | 0 <= i < j < |s| ensures s[i] != s[j] {
        var c := blue + red;
        assert forall k :: 0 <= k < |blue| ==> s[k] == c[k];
        assert s[|blue|] == x;
        assert forall k :: |blue| < k < |s| - 1 ==> s[k] == c[k - 1];
        assert s[|s| - 1] == y;
      }
    }
  }

  /** The entry `f"{pos}({len(candidates)}명)"` of a role short of candidates. */
  function ShortageNote(lists: PositionMap, i: nat): string
    requires |lists| == 5 && i < 5
  {
    Roles[i] + "(" + NatToString(|lists[i]|) + "명)"
  }

  /** `insufficient_positions` after the first `n` roles. */
  function Shortages(lists: PositionMap, n: nat): (r: seq<string>)
    requires |lists| == 5 && n <= 5
    decreases n
  {
    if n == 0 then []
    else Shortages(lists, n - 1) + (if |lists[n - 1]| < 2 then [ShortageNote(lists, n - 1)] else [])
  }

  /** There is no shortage entry exactly when every role has two candidates. */
  lemma {:induction false} ShortagesEmpty(lists: PositionMap, n: nat)
    requires |lists| == 5 && n <= 5
    ensures Shortages(lists, n) == [] <==> forall i :: 0 <= i < n ==> |lists[i]| >= 2
    decreases n
  {
    if n > 0 {
      ShortagesEmpty(lists, n - 1);
    }
  }

  /** One line of `get_position_availability_info`. */
  function AvailabilityLine(lists: PositionMap, i: nat): string
    requires |lists| == 5 && i < 5
  {
    Roles[i] + ": " + NatToString(|lists[i]|) + "명 (" + Join(lists[i], ", ") + ")"
  }

  /** `get_position_availability_info(players, dm)`: one line per role. */
  function AvailabilityInfo(lists: PositionMap): string
    requires |lists| == 5
  {
    Join(seq(5, i requires 0 <= i < 5 => AvailabilityLine(lists, i)), "\n")
  }

  /** The error option 1 returns when some role has fewer than two candidates. */
  function ShortageMessage(lists: PositionMap): string
    requires |lists| == 5
  {
    "포지션별 플레이어가 부족합니다: " + Join(Shortages(lists, 5), ", ") + "\n\n현재 포지션별 가능 인원:\n" + AvailabilityInfo(lists)
  }

  /** The shortage loop over `position_map.items()`. */
  method FindShortages(lists: PositionMap) returns (short: seq<string>)
    requires |lists| == 5
    ensures short == Shortages(lists, 5)
  {
    short := [];
    for i := 0 to 5
      invariant short == Shortages(lists, i)
    {
      if |lists[i]| < 2 {
        short := short + [ShortageNote(lists, i)];
      }
    }
  }

  /** `balance_teams_option1(players, dm)`. */
  method BalanceOption1(players: seq<string>, dm: DataManager) returns (r: Result<Split, BalanceError>, ghost trials: seq<Split>)
    ensures |players| != 10 ==> r == Failure(Message(NeedTen))
    ensures |players| == 10 && PositionsOf(dm.users, players).Failure? ==>
      r == Failure(MissingKey(PositionsOf(dm.users, players).error))
    ensures |players| == 10 && PositionsOf(dm.users, players).Success? ==>
      var lists := PositionsOf(dm.users, players).value;
      && (Shortages(lists, 5) != [] ==> r == Failure(Message(ShortageMessage(lists))))
      && (Shortages(lists, 5) == [] ==>
           && |trials| <= Option1Trials
           && (forall k :: 0 <= k < |trials| ==> FillsRoles(lists, trials[k]))
           && (AllDistinct(lists) ==> forall k :: 0 <= k < |trials| ==> RoleAssignment(lists, trials[k]))
           && r == Selected(dm.State(), trials, Option1Failed))
  {
    trials := [];
    if |players| != 10 {
      return Failure(Message(NeedTen)), trials;
    }
    var positions := PlayerPositions(players, dm);
    if positions.Failure? {
      return Failure(MissingKey(positions.error)), trials;
    }
    var lists := positions.value;
    var short := FindShortages(lists);
    if short != [] {
      return Failure(Message(ShortageMessage(lists))), trials;
    }
    var best: Option<Kept> := None;
    for n := 0 to Option1Trials
      invariant |trials| <= n
      invariant forall k :: 0 <= k < |trials| ==> FillsRoles(lists, trials[k])
      invariant AllDistinct(lists) ==> forall k :: 0 <= k < |trials| ==> RoleAssignment(lists, trials[k])
      invariant Tracks(dm.State(), trials, best)
    {
      var ok, t := DrawTrial(lists);
      if ok {
        best := Consider(dm, trials, best, t);
        DrawTrialStep(lists, trials, t);
        trials := trials + [t];
      }
    }
    TracksOutcome(dm.State(), trials, best, Option1Failed);
    r := Outcome(best, Option1Failed);
  }

  /** A kept draw extends what the earlier kept draws satisfy. */
  lemma DrawTrialStep(lists: PositionMap, trials: seq<Split>, t: Split)
    requires |lists| == 5
    requires forall k :: 0 <= k < |trials| ==> FillsRoles(lists, trials[k])
    requires AllDistinct(lists) ==> forall k :: 0 <= k < |trials| ==> RoleAssignment(lists, trials[k])
    requires FillsRoles(lists, t)
    requires AllDistinct(lists) ==> RoleAssignment(lists, t)
    ensures forall k :: 0 <= k < |trials + [t]| ==> FillsRoles(lists, (trials + [t])[k])
    ensures AllDistinct(lists) ==> forall k :: 0 <= k < |trials + [t]| ==> RoleAssignment(lists, (trials + [t])[k])
  {
    assert (trials + [t])[|trials|] == t;
  }

  /** In a split that fills the roles, every player is a registered player of the call eligible for the role played. */
  lemma AssignedEligible(users: map<string, User>, players: seq<string>, t: Split)
    requires PositionsOf(users, players).Success?
    requires FillsRoles(PositionsOf(users, players).value, t)
    ensures forall i :: 0 <= i < 5 ==>
      && t.blue[i] in players && t.blue[i] in users && Eligible(users[t.blue[i]], i)
      && t.red[i] in players && t.red[i] in users && Eligible(users[t.red[i]], i)
  {
    PositionsMembers(users, players);
  }

  /** With distinct players no candidate list repeats a name, so option 1's trials put ten different players on the field. */
  lemma ListsDistinct(users: map<string, User>, players: seq<string>)
    requires Distinct(players)
    requires PositionsOf(users, players).Success?
    ensures AllDistinct(PositionsOf(users, players).value)
  {
    PositionsDistinct(users, players);
  }

  /**
   * The two checks before the trials do not make them succeed: each role below has two
   * candidates, yet top and jungle share the same two players, so no trial can fill
   * both and option 1 reports `Option1Failed`.
   */
  lemma TwoPerRoleNotEnough()
    ensures var lists := [["a", "b"], ["a", "b"], ["c", "d"], ["e", "f"], ["g", "h"]];
      && Shortages(lists, 5) == []
      && forall t :: !RoleAssignment(lists, t)
  {
    var lists := [["a", "b"], ["a", "b"], ["c", "d"], ["e", "f"], ["g", "h"]];
    ShortagesEmpty(lists, 5);
    forall t | FillsRoles(lists, t) ensures !Distinct(t.blue + t.red) {
      var s := t.blue + t.red;
      assert s[0] == t.blue[0] && s[1] == t.blue[1] && s[5] == t.red[0] && s[6] == t.red[1];
      assert s[0] in ["a", "b"] && s[1] in ["a", "b"] && s[5] in ["a", "b"] && s[6] in ["a", "b"];
    }
  }

  // ----- options 2 and 3: shuffles -----

  /** `shuffled[:5]` and `shuffled[5:]` of a shuffle of `players`: five blue, the rest red, every player once. */
  predicate SplitOf(players: seq<string>, t: Split)
  {
    |t.blue| == 5 && |t.red| == |players| - 5 && multiset(t.blue) + multiset(t.red) == multiset(players)
  }

  /** Cuts a shuffled list into the two teams. */
  function Cut(shuffled: seq<string>): (t: Split)
    requires |shuffled| >= 5
    ensures t.blue + t.red == shuffled
  {
    Split(shuffled[..5], shuffled[5..])
  }

  lemma CutSplits(players: seq<string>, shuffled: seq<string>)
    requires |shuffled| == |players| >= 5 && multiset(shuffled) == multiset(players)
    ensures SplitOf(players, Cut(shuffled))
  {
    assert shuffled == shuffled[..5] + shuffled[5..];
  }

  /** `balance_teams_option2(players, dm)`: 2000 shuffles, every one of them a trial. */
  method BalanceOption2(players: seq<string>, dm: DataManager) returns (r: Result<Split, BalanceError>, ghost trials: seq<Split>)
    ensures |players| != 10 ==> r == Failure(Message(NeedTen))
    ensures |players| == 10 ==>
      && |trials| == ShuffleTrials
      && (forall k :: 0 <= k < |trials| ==> SplitOf(players, trials[k]))
      && r.Success?
      && r == Selected(dm.State(), trials, "")
  {
    trials := [];
    if |players| != 10 {
      return Failure(Message(NeedTen)), trials;
    }
    var best: Option<Kept> := None;
    for n := 0 to ShuffleTrials
      invariant |trials| == n
      invariant forall k :: 0 <= k < |trials| ==> SplitOf(players, trials[k])
      invariant Tracks(dm.State(), trials, best)
    {
      var shuffled: seq<string> :| |shuffled| == |players| && multiset(shuffled) == multiset(players);
      var t := Cut(shuffled);
      CutSplits(players, shuffled);
      best := Consider(dm, trials, best, t);
      trials := trials + [t];
    }
    TracksOutcome(dm.State(), trials, best, "");
    r := Outcome(best, "");
  }

  /** A team as an earlier option returned it: `None`, or a list. */
  datatype Earlier = Earlier(first: Option<seq<string>>, second: Option<seq<string>>)

  /** Python truthiness of an optional list: present and non-empty. */
  predicate Truthy(team: Option<seq<string>>)
  {
    team.Some? && team.value != []
  }

  /** Python's ascending string order for `sorted`. */
  function EarlierFirst(): (string, string) -> bool
  {
    (a: string, b: string) => StrLess(a, b)
  }

  lemma EarlierFirstIsOrder()
    ensures IsStrictWeakOrder(EarlierFirst()) && IsTotal(EarlierFirst())
  {
    forall a: string ensures !StrLess(a, a) { StrLessIrreflexive(a); }
    forall a: string, b: string, c: string | StrLess(a, b) && StrLess(b, c) ensures StrLess(a, c) {
      StrLessTransitive(a, b, c);
    }
    forall a: string, b: string, c: string | !StrLess(a, b) && !StrLess(b, c) ensures !StrLess(a, c) {
      StrLessTotal(a, b);
      StrLessTotal(b, c);
      if StrLess(a, c) {
        if b == c { } else { StrLessTransitive(c, b, a); StrLessIrreflexive(a); }
      }
    }
    forall a: string, b: string ensures a == b || StrLess(a, b) || StrLess(b, a) { StrLessTotal(a, b); }
  }

  /** `tuple(sorted(team))`. */
  function SortedTeam(team: seq<string>): seq<string>
  {
    EarlierFirstIsOrder();
    SortBy(team, EarlierFirst())
  }

  /** Two teams sort to the same tuple exactly when they hold the same players the same number of times. */
  lemma SortedTeamEqual(a: seq<string>, b: seq<string>)
    ensures SortedTeam(a) == SortedTeam(b) <==> multiset(a) == multiset(b)
  {
    EarlierFirstIsOrder();
    if multiset(a) == multiset(b) {
      SortedUnique(SortedTeam(a), SortedTeam(b), EarlierFirst());
    }
  }

  /** The sorted tuples of the truthy pair of one earlier option. */
  function AvoidOf(e: Earlier): set<seq<string>>
  {
    if Truthy(e.first) && Truthy(e.second) then {SortedTeam(e.first.value), SortedTeam(e.second.value)} else {}
  }

  /** `avoid_teams`. */
  function AvoidSet(option1: Earlier, option2: Earlier): set<seq<string>>
  {
    AvoidOf(option1) + AvoidOf(option2)
  }

  /** The truthy pair of one earlier option, as a list of teams. */
  function AvoidedOf(e: Earlier): seq<seq<string>>
  {
    if Truthy(e.first) && Truthy(e.second) then [e.first.value, e.second.value] else []
  }

  /** The teams option 3 must not repeat. */
  function Avoided(option1: Earlier, option2: Earlier): seq<seq<string>>
  {
    AvoidedOf(option1) + AvoidedOf(option2)
  }

  /** `avoid_teams` holds the sorted tuples of exactly the avoided teams. */
  lemma AvoidSetElements(option1: Earlier, option2: Earlier)
    ensures forall x :: x in AvoidSet(option1, option2) <==> exists a :: a in Avoided(option1, option2) && x == SortedTeam(a)
  {
    AvoidOfElements(option1);
    AvoidOfElements(option2);
    var av := Avoided(option1, option2);
    assert forall a :: a in av <==> a in AvoidedOf(option1) || a in AvoidedOf(option2);
  }

  lemma AvoidOfElements(e: Earlier)
    ensures forall x :: x in AvoidOf(e) <==> exists a :: a in AvoidedOf(e) && x == SortedTeam(a)
  {
    if Truthy(e.first) && Truthy(e.second) {
      var a1, a2 := e.first.value, e.second.value;
      assert AvoidOf(e) == {SortedTeam(a1), SortedTeam(a2)};
      assert AvoidedOf(e) == [a1, a2];
      assert a1 in AvoidedOf(e) && a2 in AvoidedOf(e);
    }
  }

  /** A team is caught by `avoid_teams` exactly when it is set-equal, with multiplicity, to an avoided team. */
  lemma AvoidSetMeaning(option1: Earlier, option2: Earlier, team: seq<string>)
    ensures SortedTeam(team) in AvoidSet(option1, option2) <==>
      exists a :: a in Avoided(option1, option2) && multiset(a) == multiset(team)
  {
    AvoidSetElements(option1, option2);
    if SortedTeam(team) in AvoidSet(option1, option2) {
      var a :| a in Avoided(option1, option2) && SortedTeam(team) == SortedTeam(a);
      SortedTeamEqual(a, team);
    }
    if a :| a in Avoided(option1, option2) && multiset(a) == multiset(team) {
      SortedTeamEqual(a, team);
    }
  }

  /** `balance_teams_option3(players, dm, option1_teams, option2_teams)`: shuffles whose teams are not in `avoid_teams`. */
  method BalanceOption3(players: seq<string>, dm: DataManager, option1: Earlier, option2: Earlier)
    returns (r: Result<Split, BalanceError>, ghost trials: seq<Split>)
    ensures |players| != 10 ==> r == Failure(Message(NeedTen))
    ensures |players| == 10 ==>
      && |trials| <= ShuffleTrials
      && (forall k :: 0 <= k < |trials| ==> SplitOf(players, trials[k]))
      && AllPass(AvoidSet(option1, option2), trials)
      && r == Selected(dm.State(), trials, Option3Failed)
  {
    trials := [];
    if |players| != 10 {
      return Failure(Message(NeedTen)), trials;
    }
    var avoid := BuildAvoid(option1, option2);
    var best: Option<Kept> := None;
    for n := 0 to ShuffleTrials
      invariant |trials| <= n
      invariant forall k :: 0 <= k < |trials| ==> SplitOf(players, trials[k])
      invariant AllPass(avoid, trials)
      invariant Tracks(dm.State(), trials, best)
    {
      var passes, t := ShuffleAvoiding(players, avoid);
      if passes {
        best := Consider(dm, trials, best, t);
        ShuffleTrialStep(players, avoid, trials, t);
        trials := trials + [t];
      }
    }
    TracksOutcome(dm.State(), trials, best, Option3Failed);
    r := Outcome(best, Option3Failed);
  }

  /** A kept shuffle extends what the earlier kept shuffles satisfy. */
  lemma ShuffleTrialStep(players: seq<string>, avoid: set<seq<string>>, trials: seq<Split>, t: Split)
    requires forall k :: 0 <= k < |trials| ==> SplitOf(players, trials[k])
    requires AllPass(avoid, trials)
    requires SplitOf(players, t) && Passes(avoid, t)
    ensures forall k :: 0 <= k < |trials + [t]| ==> SplitOf(players, (trials + [t])[k])
    ensures AllPass(avoid, trials + [t])
  {
    assert (trials + [t])[..|trials|] == trials;
    assert (trials + [t])[|trials|] == t;
  }

  /** The construction of `avoid_teams` from the two earlier options. */
  method BuildAvoid(option1: Earlier, option2: Earlier) returns (avoid: set<seq<string>>)
    ensures avoid == AvoidSet(option1, option2)
  {
    avoid := {};
    if Truthy(option1.first) && Truthy(option1.second) {
      avoid := avoid + {SortedTeam(option1.first.value), SortedTeam(option1.second.value)};
    }
    if Truthy(option2.first) && Truthy(option2.second) {
      avoid := avoid + {SortedTeam(option2.first.value), SortedTeam(option2.second.value)};
    }
  }

  /** Neither team of `t` sorts to a tuple in `avoid`. */
  predicate Passes(avoid: set<seq<string>>, t: Split)
  {
    SortedTeam(t.blue) !in avoid && SortedTeam(t.red) !in avoid
  }

  /** Every trial passes the avoid test. */
  predicate AllPass(avoid: set<seq<string>>, trials: seq<Split>)
    decreases |trials|
  {
    trials == [] || (AllPass(avoid, trials[..|trials| - 1]) && Passes(avoid, trials[|trials| - 1]))
  }

  lemma {:induction false} AllPassEach(avoid: set<seq<string>>, trials: seq<Split>)
    requires AllPass(avoid, trials)
    ensures forall k :: 0 <= k < |trials| ==> Passes(avoid, trials[k])
    decreases |trials|
  {
    if trials != [] {
      var pre := trials[..|trials| - 1];
      AllPassEach(avoid, pre);
      forall k | 0 <= k < |trials|
        ensures Passes(avoid, trials[k])
      {
        if k < |pre| {
          assert trials[k] == pre[k];
        }
      }
    }
  }

  /** One option-3 trial: a shuffle, rejected when either team's sorted tuple is in `avoid`. */
  method ShuffleAvoiding(players: seq<string>, avoid: set<seq<string>>) returns (passes: bool, t: Split)
    requires |players| == 10
    ensures passes ==> SplitOf(players, t) && Passes(avoid, t)
  {
    var shuffled: seq<string> :| |shuffled| == |players| && multiset(shuffled) == multiset(players);
    t := Cut(shuffled);
    CutSplits(players, shuffled);
    passes := !(SortedTeam(t.blue) in avoid || SortedTeam(t.red) in avoid);
    assert passes ==> Passes(avoid, t);
  }

  /** No team option 3 returns is set-equal to a team of option 1 or option 2. */
  lemma Option3AvoidsEarlier(option1: Earlier, option2: Earlier, t: Split)
    requires Passes(AvoidSet(option1, option2), t)
    ensures forall a :: a in Avoided(option1, option2) ==> multiset(a) != multiset(t.blue) && multiset(a) != multiset(t.red)
  {
    AvoidSetMeaning(option1, option2, t.blue);
    AvoidSetMeaning(option1, option2, t.red);
  }

  /** When option 3 returns teams, neither is set-equal to a team of option 1 or option 2. */
  lemma Option3Result(st: Store, option1: Earlier, option2: Earlier, trials: seq<Split>)
    requires AllPass(AvoidSet(option1, option2), trials)
    requires Selected(st, trials, Option3Failed).Success?
    ensures var t := Selected(st, trials, Option3Failed).value;
      forall a :: a in Avoided(option1, option2) ==> multiset(a) != multiset(t.blue) && multiset(a) != multiset(t.red)
  {
    AllPassEach(AvoidSet(option1, option2), trials);
    Option3AvoidsEarlier(option1, option2, Selected(st, trials, Option3Failed).value);
  }

  /**
   * Only set-equal teams are avoided: swapping one player of option 1's blue team for one
   * of its red team gives a blue team that shares four of five players with it and is
   * still allowed.
   */
  lemma FourOfFiveNotAvoided(players: seq<string>)
    requires |players| == 10 && Distinct(players)
    ensures var option1 := Earlier(Some(players[..5]), Some(players[5..]));
      SortedTeam(players[..4] + [players[5]]) !in AvoidSet(option1, Earlier(None, None))
  {
    var option1 := Earlier(Some(players[..5]), Some(players[5..]));
    var team := players[..4] + [players[5]];
    AvoidSetMeaning(option1, Earlier(None, None), team);
    assert Avoided(option1, Earlier(None, None)) == [players[..5], players[5..]];
    SwapChangesBoth(players);
  }

  lemma SwapChangesBoth(players: seq<string>)
    requires |players| == 10 && Distinct(players)
    ensures forall a :: a in [players[..5], players[5..]] ==> multiset(a) != multiset(players[..4] + [players[5]])
  {
    var team := players[..4] + [players[5]];
    assert players[4] in multiset(players[..5]) && players[4] !in multiset(team);
    assert players[0] in multiset(team) && players[0] !in multiset(players[5..]);
  }
}
