/**
 * Role eligibility for position-aware balancing (`get_player_positions` in
 * cogs/utils/team_commands.py): which of the five roles each player may fill.
 */
module TeamPositions {
  import opened Wrappers
  import opened Text
  import opened Sequences
  import opened DataStore

  /** The five roles, in the key order of `position_map`. */
  const Roles: seq<string> := ["탑", "정글", "미드", "원딜", "서폿"]

  /** The sub position of a player who can fill every role. */
  const AnyRole := "모두가능"

  /** The ending of a sub position "X 빼고": every role except X. */
  const ExceptSuffix := " 빼고"

  /** `position_map`: one candidate list per role, indexed like `Roles`. */
  type PositionMap = seq<seq<string>>

  /** The index of a role name in `Roles`. */
  function RoleIndex(s: string): (i: nat)
    requires s in Roles
    ensures i < 5 && Roles[i] == s
  {
    if s == Roles[0] then 0
    else if s == Roles[1] then 1
    else if s == Roles[2] then 2
    else if s == Roles[3] then 3
    else 4
  }

  /** The role named by a sub position "X 빼고": the text with " 빼고" removed. */
  function Excluded(sub: string): string
  {
    ReplaceAll(sub, ExceptSuffix, "")
  }

  /**
   * Whether a player with record `u` may fill role `i`: always the main role;
   * nothing else when main and sub are equal; otherwise every role for "모두가능",
   * every role but X for "X 빼고", and the sub role when it names a role.
   */
  predicate Eligible(u: User, i: nat)
    requires i < 5
  {
    || Roles[i] == u.mainPosition
    || (&& u.mainPosition != u.subPosition
        && (|| u.subPosition == AnyRole
            || (EndsWith(u.subPosition, ExceptSuffix) && Roles[i] != Excluded(u.subPosition))
            || u.subPosition == Roles[i]))
  }

  /** The state of the first loop: the lists so far and the players kept for the second loop. */
  datatype Placement = Placement(lists: PositionMap, flexible: seq<string>)

  /** Appends `player` to the list of every role outside `skip` that does not hold it yet. */
  function AddExcept(lists: PositionMap, player: string, skip: set<string>): (r: PositionMap)
    requires |lists| == 5
    ensures |r| == 5
  {
    seq(5, i requires 0 <= i < 5 => if Roles[i] !in skip && player !in lists[i] then lists[i] + [player] else lists[i])
  }

  /** The first loop's work for one registered player; a main position that is no role is the `KeyError` of the source, carrying the key. */
  function PlaceOne(p: Placement, player: string, u: User): (r: Result<Placement, string>)
    requires |p.lists| == 5
    ensures r.Success? ==> |r.value.lists| == 5
    ensures r.Failure? <==> u.mainPosition !in Roles
    ensures r.Failure? ==> r.error == u.mainPosition
  {
    if u.mainPosition !in Roles then Failure(u.mainPosition)
    else
      var m := RoleIndex(u.mainPosition);
      var lists := p.lists[m := p.lists[m] + [player]];
      if u.mainPosition == u.subPosition then Success(Placement(lists, p.flexible))
      else if u.subPosition == AnyRole then Success(Placement(lists, p.flexible + [player]))
      else if EndsWith(u.subPosition, ExceptSuffix) then
        Success(Placement(AddExcept(lists, player, {Excluded(u.subPosition), u.mainPosition}), p.flexible))
      else if u.subPosition in Roles && u.subPosition != u.mainPosition then
        var s := RoleIndex(u.subPosition);
        Success(Placement(lists[s := lists[s] + [player]], p.flexible))
      else Success(Placement(lists, p.flexible))
  }

  /** The first loop over `players`; unregistered players are skipped. */
  function FirstPass(users: map<string, User>, players: seq<string>): (r: Result<Placement, string>)
    ensures r.Success? ==> |r.value.lists| == 5
    decreases |players|
  {
    if players == [] then Success(Placement([[], [], [], [], []], []))
    else
      match FirstPass(users, players[..|players| - 1])
      case Failure(e) => Failure(e)
      case Success(p) =>
        var player := players[|players| - 1];
        if player in users then PlaceOne(p, player, users[player]) else Success(p)
  }

  /** The second loop: each "모두가능" player joins every list it is not in yet. */
  function SecondPass(lists: PositionMap, flexible: seq<string>): (r: PositionMap)
    requires |lists| == 5
    ensures |r| == 5
    decreases |flexible|
  {
    if flexible == [] then lists
    else AddExcept(SecondPass(lists, flexible[..|flexible| - 1]), flexible[|flexible| - 1], {})
  }

  /** `get_player_positions(players, dm)` over the registered users. */
  function PositionsOf(users: map<string, User>, players: seq<string>): (r: Result<PositionMap, string>)
    ensures r.Success? ==> |r.value| == 5
  {
    match FirstPass(users, players)
    case Failure(e) => Failure(e)
    case Success(p) => Success(SecondPass(p.lists, p.flexible))
  }

  /** `get_player_positions`: the two loops of the source, appending into the lists in place. */
  method PlayerPositions(players: seq<string>, dm: DataManager) returns (r: Result<PositionMap, string>)
    ensures r == PositionsOf(dm.users, players)
  {
    var lists: PositionMap := [[], [], [], [], []];
    var flexible: seq<string> := [];
    var k := 0;
    while k < |players|
      invariant 0 <= k <= |players|
      invariant FirstPass(dm.users, players[..k]) == Success(Placement(lists, flexible))
    {
      assert players[..k + 1][..k] == players[..k];
      var player := players[k];
      var userData := dm.GetUser(player);
      if userData.Some? {
        var main := userData.value.mainPosition;
        var sub := userData.value.subPosition;
        if main !in Roles {
          FirstPassFailureSticks(dm.users, players, k + 1);
          return Failure(main);
        }
        var m := RoleIndex(main);
        lists := lists[m := lists[m] + [player]];
        if main == sub {
        } else if sub == AnyRole {
          flexible := flexible + [player];
        } else if EndsWith(sub, ExceptSuffix) {
          var excluded := Excluded(sub);
          lists := AddToRoles(lists, player, {excluded, main});
        } else if sub in Roles && sub != main {
          var s := RoleIndex(sub);
          lists := lists[s := lists[s] + [player]];
        }
      }
      k := k + 1;
    }
    assert players[..k] == players;
    var j := 0;
    ghost var first := lists;
    while j < |flexible|
      invariant 0 <= j <= |flexible|
      invariant lists == SecondPass(first, flexible[..j])
    {
      assert flexible[..j + 1][..j] == flexible[..j];
      lists := AddToRoles(lists, flexible[j], {});
      j := j + 1;
    }
    assert flexible[..j] == flexible;
    r := Success(lists);
  }

  /** The inner loop over `position_map.keys()`: append `player` where the role is not skipped and the player is absent. */
  method AddToRoles(lists: PositionMap, player: string, skip: set<string>) returns (r: PositionMap)
    requires |lists| == 5
    ensures r == AddExcept(lists, player, skip)
  {
    r := lists;
    for i := 0 to 5
      invariant |r| == 5
      invariant forall j :: 0 <= j < 5 ==> r[j] == (if j < i then AddExcept(lists, player, skip)[j] else lists[j])
    {
      if Roles[i] !in skip && player !in r[i] {
        r := r[i := r[i] + [player]];
      }
    }
  }

  /** Once the first loop fails on some prefix, the whole call fails with the same key. */
  lemma {:induction false} FirstPassFailureSticks(users: map<string, User>, players: seq<string>, k: nat)
    requires k <= |players|
    requires FirstPass(users, players[..k]).Failure?
    ensures FirstPass(users, players) == FirstPass(users, players[..k])
    decreases |players| - k
  {
    if k < |players| {
      assert players[..k + 1][..k] == players[..k];
      FirstPassFailureSticks(users, players, k + 1);
    } else {
      assert players[..k] == players;
    }
  }

  /** Whether the first loop puts a player with record `u` into the list of role `i`. */
  predicate FirstEligible(u: User, i: nat)
    requires i < 5
  {
    || Roles[i] == u.mainPosition
    || (&& u.mainPosition != u.subPosition
        && u.subPosition != AnyRole
        && (if EndsWith(u.subPosition, ExceptSuffix) then Roles[i] != Excluded(u.subPosition) else u.subPosition == Roles[i]))
  }

  /** Whether the first loop defers a player with record `u` to the second loop. */
  predicate Deferred(u: User)
  {
    u.mainPosition != u.subPosition && u.subPosition == AnyRole
  }

  lemma AddExceptMembers(lists: PositionMap, player: string, skip: set<string>)
    requires |lists| == 5
    ensures forall i, y :: 0 <= i < 5 ==>
      (y in AddExcept(lists, player, skip)[i] <==> y in lists[i] || (y == player && Roles[i] !in skip))
  {
  }

  /** One player's placement adds that player exactly where the first loop admits it. */
  lemma PlaceOneMembers(p: Placement, x: string, u: User)
    requires |p.lists| == 5
    requires PlaceOne(p, x, u).Success?
    ensures forall i, y :: 0 <= i < 5 ==>
      (y in PlaceOne(p, x, u).value.lists[i] <==> y in p.lists[i] || (y == x && FirstEligible(u, i)))
    ensures forall y :: y in PlaceOne(p, x, u).value.flexible <==> y in p.flexible || (y == x && Deferred(u))
  {
    var main, sub := u.mainPosition, u.subPosition;
    var m := RoleIndex(main);
    var lists := p.lists[m := p.lists[m] + [x]];
    forall i | 0 <= i < 5 {
      PlaceOneAt(p, x, u, i);
    }
  }

  /** `PlaceOneMembers` for the list of one role. */
  lemma PlaceOneAt(p: Placement, x: string, u: User, i: nat)
    requires |p.lists| == 5 && i < 5
    requires PlaceOne(p, x, u).Success?
    ensures forall y :: y in PlaceOne(p, x, u).value.lists[i] <==> y in p.lists[i] || (y == x && FirstEligible(u, i))
  {
    var main, sub := u.mainPosition, u.subPosition;
    var m := RoleIndex(main);
    var lists := p.lists[m := p.lists[m] + [x]];
    var r := PlaceOne(p, x, u).value;
    RoleIndexOf(i);
    assert Roles[i] == main <==> i == m;
    var li := if i == m then p.lists[i] + [x] else p.lists[i];
    assert lists[i] == li;
    assert forall y :: y in li <==> y in p.lists[i] || (y == x && i == m);
    if main == sub || sub == AnyRole {
      assert r.lists == lists;
      assert FirstEligible(u, i) <==> i == m;
    } else if EndsWith(sub, ExceptSuffix) {
      var skip := {Excluded(sub), main};
      assert r.lists == AddExcept(lists, x, skip);
      AddExceptMembers(lists, x, skip);
      assert FirstEligible(u, i) <==> i == m || Roles[i] != Excluded(sub);
      assert Roles[i] !in skip <==> i != m && Roles[i] != Excluded(sub);
    } else if sub in Roles {
      var t := RoleIndex(sub);
      assert r.lists == lists[t := lists[t] + [x]];
      assert Roles[i] == sub <==> i == t;
      assert FirstEligible(u, i) <==> i == m || i == t;
    } else {
      assert r.lists == lists;
      assert FirstEligible(u, i) <==> i == m;
    }
  }

  /** Role names are distinct, so a role's index is unique. */
  lemma RoleIndexOf(i: nat)
    requires i < 5
    ensures forall j :: 0 <= j < 5 && Roles[j] == Roles[i] ==> j == i
  {
    forall j | 0 <= j < 5 && Roles[j] == Roles[i] ensures j == i {
      assert Roles[j][0] == Roles[i][0];
    }
  }

  /** After the first loop, list `i` holds exactly the registered players the first loop admits to role `i`. */
  lemma {:induction false} FirstPassMembers(users: map<string, User>, players: seq<string>)
    requires FirstPass(users, players).Success?
    ensures forall i, y :: 0 <= i < 5 ==>
      (y in FirstPass(users, players).value.lists[i] <==> y in players && y in users && FirstEligible(users[y], i))
    ensures forall y :: y in FirstPass(users, players).value.flexible <==> y in players && y in users && Deferred(users[y])
    decreases |players|
  {
    if players != [] {
      var pre := players[..|players| - 1];
      var x := players[|players| - 1];
      assert players == pre + [x];
      FirstPassMembers(users, pre);
      if x in users {
        PlaceOneMembers(FirstPass(users, pre).value, x, users[x]);
      }
    }
  }

  lemma {:induction false} SecondPassMembers(lists: PositionMap, flexible: seq<string>)
    requires |lists| == 5
    ensures forall i, y :: 0 <= i < 5 ==> (y in SecondPass(lists, flexible)[i] <==> y in lists[i] || y in flexible)
    decreases |flexible|
  {
    if flexible != [] {
      var pre := flexible[..|flexible| - 1];
      assert flexible == pre + [flexible[|flexible| - 1]];
      SecondPassMembers(lists, pre);
      AddExceptMembers(SecondPass(lists, pre), flexible[|flexible| - 1], {});
    }
  }

  /** `SecondPassMembers` for one role and one name. */
  lemma SecondPassAt(lists: PositionMap, flexible: seq<string>, i: nat, y: string)
    requires |lists| == 5 && i < 5
    ensures y in SecondPass(lists, flexible)[i] <==> y in lists[i] || y in flexible
  {
    SecondPassMembers(lists, flexible);
  }

  /** A role name is too short to end with " 빼고". */
  lemma RoleNotExcept(i: nat)
    requires i < 5
    ensures !EndsWith(Roles[i], ExceptSuffix)
  {
    assert |Roles[i]| < |ExceptSuffix|;
  }

  /**
   * The lists of `get_player_positions`, when it succeeds, hold exactly the registered
   * players of `players` that are eligible for each role.
   */
  lemma PositionsMembers(users: map<string, User>, players: seq<string>)
    requires PositionsOf(users, players).Success?
    ensures forall i, y :: 0 <= i < 5 ==>
      (y in PositionsOf(users, players).value[i] <==> y in players && y in users && Eligible(users[y], i))
  {
    var p := FirstPass(users, players).value;
    FirstPassMembers(users, players);
    var r := PositionsOf(users, players).value;
    assert r == SecondPass(p.lists, p.flexible);
    forall i, y | 0 <= i < 5
      ensures y in r[i] <==> y in players && y in users && Eligible(users[y], i)
    {
      SecondPassAt(p.lists, p.flexible, i, y);
      if y in users {
        EligibleSplit(users[y], i);
      }
    }
  }

  /** A role is open to a player when the first loop admits it there or defers the player to the second loop. */
  lemma EligibleSplit(u: User, i: nat)
    requires i < 5
    ensures FirstEligible(u, i) || Deferred(u) <==> Eligible(u, i)
  {
    if EndsWith(u.subPosition, ExceptSuffix) {
      RoleNotExcept(i);
      assert u.subPosition != Roles[i];
      assert u.subPosition != AnyRole;
    }
  }

  /** `get_player_positions` raises `KeyError` exactly when some registered player has a main position that is no role. */
  lemma {:induction false} PositionsFailure(users: map<string, User>, players: seq<string>)
    ensures PositionsOf(users, players).Failure? <==>
      exists y :: y in players && y in users && users[y].mainPosition !in Roles
    decreases |players|
  {
    if players != [] {
      var pre := players[..|players| - 1];
      var x := players[|players| - 1];
      assert players == pre + [x];
      PositionsFailure(users, pre);
    }
  }

  /** The cases of `Eligible`, one per branch of the source. */
  lemma EligibleCases(u: User, i: nat)
    requires i < 5
    ensures Roles[i] == u.mainPosition ==> Eligible(u, i)
    ensures u.mainPosition == u.subPosition ==> (Eligible(u, i) <==> Roles[i] == u.mainPosition)
    ensures u.mainPosition != u.subPosition && u.subPosition == AnyRole ==> Eligible(u, i)
    ensures u.mainPosition != u.subPosition && EndsWith(u.subPosition, ExceptSuffix) ==>
      (Eligible(u, i) <==> Roles[i] == u.mainPosition || Roles[i] != Excluded(u.subPosition))
    ensures u.mainPosition != u.subPosition && u.subPosition in Roles ==>
      (Eligible(u, i) <==> Roles[i] == u.mainPosition || Roles[i] == u.subPosition)
  {
    if u.subPosition in Roles {
      RoleNotExcept(RoleIndex(u.subPosition));
    }
    if EndsWith(u.subPosition, ExceptSuffix) {
      RoleNotExcept(i);
    }
  }

  lemma AddExceptDistinct(lists: PositionMap, player: string, skip: set<string>)
    requires |lists| == 5
    requires forall i :: 0 <= i < 5 ==> Distinct(lists[i])
    ensures forall i :: 0 <= i < 5 ==> Distinct(AddExcept(lists, player, skip)[i])
  {
    forall i | 0 <= i < 5 ensures Distinct(AddExcept(lists, player, skip)[i]) {
      AppendAbsentDistinct(lists[i], player);
    }
  }

  lemma AppendAbsentDistinct(s: seq<string>, x: string)
    requires Distinct(s)
    ensures x !in s ==> Distinct(s + [x])
  {
  }

  lemma PlaceOneDistinct(p: Placement, x: string, u: User)
    requires |p.lists| == 5
    requires forall i :: 0 <= i < 5 ==> Distinct(p.lists[i]) && x !in p.lists[i]
    requires PlaceOne(p, x, u).Success?
    ensures forall i :: 0 <= i < 5 ==> Distinct(PlaceOne(p, x, u).value.lists[i])
  {
    forall i | 0 <= i < 5 ensures Distinct(PlaceOne(p, x, u).value.lists[i]) {
      PlaceOneAt(p, x, u, i);
      PlaceOneGrows(p, x, u, i);
      AppendAbsentDistinct(p.lists[i], x);
    }
  }

  /** Placing a player appends it at most once to each list. */
  lemma PlaceOneGrows(p: Placement, x: string, u: User, i: nat)
    requires |p.lists| == 5 && i < 5
    requires x !in p.lists[i]
    requires PlaceOne(p, x, u).Success?
    ensures var q := PlaceOne(p, x, u).value.lists[i]; q == p.lists[i] || q == p.lists[i] + [x]
  {
    var main, sub := u.mainPosition, u.subPosition;
    var m := RoleIndex(main);
    var lists := p.lists[m := p.lists[m] + [x]];
    var r := PlaceOne(p, x, u).value;
    assert lists[i] == (if i == m then p.lists[i] + [x] else p.lists[i]);
    if main == sub || sub == AnyRole {
      assert r.lists[i] == lists[i];
    } else if EndsWith(sub, ExceptSuffix) {
      assert r.lists == AddExcept(lists, x, {Excluded(sub), main});
      AddExceptGrows(p.lists, m, x, {Excluded(sub), main}, i);
    } else if sub in Roles {
      var t := RoleIndex(sub);
      assert r.lists == lists[t := lists[t] + [x]];
      AppendTwiceGrows(p.lists, m, t, x, i);
    } else {
      assert r.lists[i] == lists[i];
    }
  }

  /** The `… 빼고` case of `PlaceOneGrows`: the main role is skipped by the second addition. */
  lemma AddExceptGrows(lists: PositionMap, m: nat, x: string, skip: set<string>, i: nat)
    requires |lists| == 5 && m < 5 && i < 5 && Roles[m] in skip
    ensures var q := AddExcept(lists[m := lists[m] + [x]], x, skip)[i]; q == lists[i] || q == lists[i] + [x]
  {
    var once := lists[m := lists[m] + [x]];
    if i == m {
      assert AddExcept(once, x, skip)[i] == once[i];
    } else {
      assert once[i] == lists[i];
    }
  }

  /** The named-sub-role case of `PlaceOneGrows`: two different lists each gain the player once. */
  lemma AppendTwiceGrows(lists: PositionMap, m: nat, t: nat, x: string, i: nat)
    requires |lists| == 5 && m < 5 && t < 5 && i < 5 && m != t
    ensures var once := lists[m := lists[m] + [x]];
      var q := once[t := once[t] + [x]][i]; q == lists[i] || q == lists[i] + [x]
  {
  }

  lemma {:induction false} FirstPassDistinct(users: map<string, User>, players: seq<string>)
    requires Distinct(players)
    requires FirstPass(users, players).Success?
    ensures forall i :: 0 <= i < 5 ==> Distinct(FirstPass(users, players).value.lists[i])
    decreases |players|
  {
    if players != [] {
      var pre := players[..|players| - 1];
      var x := players[|players| - 1];
      assert players == pre + [x];
      assert x !in pre;
      FirstPassDistinct(users, pre);
      if x in users {
        FirstPassMembers(users, pre);
        PlaceOneDistinct(FirstPass(users, pre).value, x, users[x]);
      }
    }
  }

  lemma {:induction false} SecondPassDistinct(lists: PositionMap, flexible: seq<string>)
    requires |lists| == 5
    requires forall i :: 0 <= i < 5 ==> Distinct(lists[i])
    ensures forall i :: 0 <= i < 5 ==> Distinct(SecondPass(lists, flexible)[i])
    decreases |flexible|
  {
    if flexible != [] {
      SecondPassDistinct(lists, flexible[..|flexible| - 1]);
      AddExceptDistinct(SecondPass(lists, flexible[..|flexible| - 1]), flexible[|flexible| - 1], {});
    }
  }

  /** With distinct players, no player is listed twice for a role. */
  lemma PositionsDistinct(users: map<string, User>, players: seq<string>)
    requires Distinct(players)
    requires PositionsOf(users, players).Success?
    ensures forall i :: 0 <= i < 5 ==> Distinct(PositionsOf(users, players).value[i])
  {
    FirstPassDistinct(users, players);
    var p := FirstPass(users, players).value;
    SecondPassDistinct(p.lists, p.flexible);
  }
}
