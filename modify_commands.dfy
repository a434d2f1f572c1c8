/**
 * The decision logic of the `/수정` command of cogs/utils/modify_commands.py: which
 * fields are passed to `update_user`, when the rating is recomputed, and the list of
 * changes it reports. An option left out is `None`; Python treats it and `""` as false.
 */
module ModifyCommands {
  import opened Wrappers
  import opened Text
  import opened DataStore
  import opened RegisterCommands

  /** Python's truth value of an optional string. */
  predicate Truthy(o: Option<string>)
  {
    o.Some? && o.value != ""
  }

  /** `value if value else existing`. */
  function FinalValue(o: Option<string>, existing: string): (r: string)
    ensures Truthy(o) ==> r == o.value
    ensures !Truthy(o) ==> r == existing
  {
    if Truthy(o) then o.value else existing
  }

  /** The key `update_data` gets for an option: present exactly when the option is truthy. */
  function Passed(o: Option<string>): (r: Option<string>)
    ensures r.Some? <==> Truthy(o)
    ensures r.Some? ==> r == o
  {
    if Truthy(o) then o else None
  }

  /** What `/수정` answers. */
  datatype ModifyOutcome =
    | UnknownName                   // "'{name}' 이름으로 등록된 유저를 찾을 수 없습니다."
    | NothingToModify               // "수정할 정보를 하나 이상 입력해주세요."
    | RankNotAllowed(tier: string)  // "{final_tier} 티어는 1티어만 가능합니다."
    | Modified(update: UserUpdate, changes: seq<string>)

  /** One "field: old → new" line of `changes`. */
  function ChangeLine(field: string, was: string, now: string): (r: string)
    ensures StartsWith(r, field + ": ") && EndsWith(r, " → " + now)
  {
    assert (field + ": " + was + " → " + now)[..|field + ": "|] == field + ": ";
    assert (field + ": " + was + " → " + now)[|field + ": " + was|..] == " → " + now;
    field + ": " + was + " → " + now
  }

  /** The update `modify_command` builds for an existing player whose final tier and rank are allowed. */
  function UpdateFor(u: User, tier: Option<string>, rank: Option<string>,
                     mainPosition: Option<string>, subPosition: Option<string>): (r: UserUpdate)
    ensures r.mmr.Some? <==> Truthy(tier) || Truthy(rank)
    ensures RankAllowed(FinalValue(tier, u.tier), FinalValue(rank, u.rank)) ==>
      ModifiedRecord(u, tier, rank, mainPosition, subPosition, ApplyUpdate(u, r))
  {
    var finalTier := FinalValue(tier, u.tier);
    var finalRank := FinalValue(rank, u.rank);
    UserUpdate(Passed(tier), Passed(rank), Passed(mainPosition), Passed(subPosition),
               if Truthy(tier) || Truthy(rank) then Some(CalculateMmr(finalTier, finalRank)) else None)
  }

  /** One change line when `passed`, none otherwise. */
  function ChangeIf(passed: bool, field: string, was: string, now: string): (r: seq<string>)
    ensures |r| == if passed then 1 else 0
  {
    if passed then [ChangeLine(field, was, now)] else []
  }

  /** The `changes` lines, one per passed field and one for a recomputed rating, in that order. */
  function ChangesFor(u: User, tier: Option<string>, rank: Option<string>,
                      mainPosition: Option<string>, subPosition: Option<string>): (r: seq<string>)
    ensures r == [] <==> !Truthy(tier) && !Truthy(rank) && !Truthy(mainPosition) && !Truthy(subPosition)
    ensures Truthy(tier) ==> r[0] == ChangeLine("티어", u.tier, tier.value)
    ensures Truthy(tier) || Truthy(rank) ==>
      r[|r| - 1] == ChangeLine("MMR", IntToString(u.mmr),
                               IntToString(CalculateMmr(FinalValue(tier, u.tier), FinalValue(rank, u.rank))))
  {
    var newMmr := CalculateMmr(FinalValue(tier, u.tier), FinalValue(rank, u.rank));
    ChangeIf(Truthy(tier), "티어", u.tier, FinalValue(tier, u.tier))
    + ChangeIf(Truthy(rank), "랭크", u.rank, FinalValue(rank, u.rank))
    + ChangeIf(Truthy(mainPosition), "주포지션", u.mainPosition, FinalValue(mainPosition, u.mainPosition))
    + ChangeIf(Truthy(subPosition), "부포지션", u.subPosition, FinalValue(subPosition, u.subPosition))
    + ChangeIf(Truthy(tier) || Truthy(rank), "MMR", IntToString(u.mmr), IntToString(newMmr))
  }

  /** The checks of `modify_command`, in their order. */
  function ModifyDecision(users: map<string, User>, name: string, tier: Option<string>, rank: Option<string>,
                          mainPosition: Option<string>, subPosition: Option<string>): (r: ModifyOutcome)
    ensures r.UnknownName? <==> name !in users
    ensures r.RankNotAllowed? <==> (name in users
      && (Truthy(tier) || Truthy(rank) || Truthy(mainPosition) || Truthy(subPosition))
      && !RankAllowed(FinalValue(tier, users[name].tier), FinalValue(rank, users[name].rank)))
    ensures r.RankNotAllowed? ==> r.tier == FinalValue(tier, users[name].tier)
    ensures r.Modified? ==> r.changes != [] && r.update.mmr.Some? == (Truthy(tier) || Truthy(rank))
  {
    if name !in users then UnknownName
    else if !(Truthy(tier) || Truthy(rank) || Truthy(mainPosition) || Truthy(subPosition)) then NothingToModify
    else
      var u := users[name];
      var finalTier := FinalValue(tier, u.tier);
      var finalRank := FinalValue(rank, u.rank);
      if !RankAllowed(finalTier, finalRank) then RankNotAllowed(finalTier)
      else Modified(UpdateFor(u, tier, rank, mainPosition, subPosition),
                    ChangesFor(u, tier, rank, mainPosition, subPosition))
  }

  /**
   * An unknown name, then a call with no truthy option, then a disallowed final tier and
   * rank are refused; otherwise the player's new record takes each passed field, keeps
   * every other field including wins, losses and games, and has its rating recomputed
   * from the final tier and rank exactly when a tier or a rank was passed.
   */
  lemma ModifyDecisionCases(users: map<string, User>, name: string, tier: Option<string>, rank: Option<string>,
                            mainPosition: Option<string>, subPosition: Option<string>)
    ensures var o := ModifyDecision(users, name, tier, rank, mainPosition, subPosition);
      && (o.UnknownName? <==> name !in users)
      && (o.NothingToModify? <==> (name in users
            && !Truthy(tier) && !Truthy(rank) && !Truthy(mainPosition) && !Truthy(subPosition)))
      && (o.RankNotAllowed? ==> (name in users
            && !RankAllowed(FinalValue(tier, users[name].tier), FinalValue(rank, users[name].rank))))
      && (o.Modified? ==> name in users && ModifiedRecord(users[name], tier, rank, mainPosition, subPosition,
            ApplyUpdate(users[name], o.update)))
  {
    var o := ModifyDecision(users, name, tier, rank, mainPosition, subPosition);
    if o.Modified? {
      var u := users[name];
      var v := ApplyUpdate(u, UpdateFor(u, tier, rank, mainPosition, subPosition));
      assert ModifiedRecord(u, tier, rank, mainPosition, subPosition, v);
    }
  }

  /** `v` is `u` as `/수정` leaves it. */
  predicate ModifiedRecord(u: User, tier: Option<string>, rank: Option<string>,
                           mainPosition: Option<string>, subPosition: Option<string>, v: User)
  {
    && v.tier == FinalValue(tier, u.tier)
    && v.rank == FinalValue(rank, u.rank)
    && v.mainPosition == FinalValue(mainPosition, u.mainPosition)
    && v.subPosition == FinalValue(subPosition, u.subPosition)
    && RankAllowed(v.tier, v.rank)
    && v.mmr == (if Truthy(tier) || Truthy(rank) then CalculateMmr(v.tier, v.rank) else u.mmr)
    && v.wins == u.wins && v.losses == u.losses && v.totalGames == u.totalGames
  }

  /** One change line per passed field, plus one for the rating when a tier or rank was passed. */
  lemma ChangesCount(u: User, tier: Option<string>, rank: Option<string>,
                     mainPosition: Option<string>, subPosition: Option<string>)
    ensures |ChangesFor(u, tier, rank, mainPosition, subPosition)|
      == (if Truthy(tier) then 1 else 0) + (if Truthy(rank) then 1 else 0)
       + (if Truthy(mainPosition) then 1 else 0) + (if Truthy(subPosition) then 1 else 0)
       + (if Truthy(tier) || Truthy(rank) then 1 else 0)
  {
  }

  /** Modifying keeps every player table-rated. */
  lemma ModifyKeepsTableRated(users: map<string, User>, name: string, tier: Option<string>, rank: Option<string>,
                              mainPosition: Option<string>, subPosition: Option<string>)
    requires TableRated(users)
    ensures var o := ModifyDecision(users, name, tier, rank, mainPosition, subPosition);
      o.Modified? ==> TableRated(users[name := ApplyUpdate(users[name], o.update)])
  {
    ModifyDecisionCases(users, name, tier, rank, mainPosition, subPosition);
  }

  /** `modify_command` against the store: only the one record changes, and only on a modification. */
  method ModifyCommand(dm: DataManager, name: string, tier: Option<string>, rank: Option<string>,
                       mainPosition: Option<string>, subPosition: Option<string>) returns (outcome: ModifyOutcome)
    requires dm.Valid()
    modifies dm
    ensures dm.Valid()
    ensures outcome == ModifyDecision(old(dm.users), name, tier, rank, mainPosition, subPosition)
    ensures outcome.Modified? ==> dm.users == old(dm.users)[name := ApplyUpdate(old(dm.users)[name], outcome.update)]
    ensures !outcome.Modified? ==> dm.users == old(dm.users)
    ensures dm.userOrder == old(dm.userOrder) && dm.matches == old(dm.matches) && dm.matchOrder == old(dm.matchOrder)
  {
    ghost var decision := ModifyDecision(dm.users, name, tier, rank, mainPosition, subPosition);
    var found := dm.GetUser(name);
    if found.None? {
      assert decision == UnknownName;
      return UnknownName;
    }
    var existing := found.value;
    if !(Truthy(tier) || Truthy(rank) || Truthy(mainPosition) || Truthy(subPosition)) {
      return NothingToModify;
    }
    var finalTier := if Truthy(tier) then tier.value else existing.tier;
    var finalRank := if Truthy(rank) then rank.value else existing.rank;
    if finalTier in TopTiers && finalRank != "1" {
      return RankNotAllowed(finalTier);
    }
    var update, changes := BuildUpdate(existing, tier, rank, mainPosition, subPosition, finalTier, finalRank);
    assert decision == Modified(update, changes);
    var updated := dm.UpdateUser(name, update);
    assert updated;
    outcome := Modified(update, changes);
  }

  /** The sequential inserts into `update_data` and `changes`. */
  method BuildUpdate(existing: User, tier: Option<string>, rank: Option<string>,
                     mainPosition: Option<string>, subPosition: Option<string>,
                     finalTier: string, finalRank: string) returns (update: UserUpdate, changes: seq<string>)
    requires finalTier == FinalValue(tier, existing.tier) && finalRank == FinalValue(rank, existing.rank)
    ensures update == UpdateFor(existing, tier, rank, mainPosition, subPosition)
    ensures changes == ChangesFor(existing, tier, rank, mainPosition, subPosition)
  {
    update := UserUpdate(None, None, None, None, None);
    changes := [];
    if Truthy(tier) {
      update := update.(tier := tier);
      changes := changes + [ChangeLine("티어", existing.tier, tier.value)];
    }
    assert changes == ChangeIf(Truthy(tier), "티어", existing.tier, finalTier);
    if Truthy(rank) {
      update := update.(rank := rank);
      changes := changes + [ChangeLine("랭크", existing.rank, rank.value)];
    }
    assert changes == ChangeIf(Truthy(tier), "티어", existing.tier, finalTier)
      + ChangeIf(Truthy(rank), "랭크", existing.rank, finalRank);
    ghost var two := changes;
    if Truthy(mainPosition) {
      update := update.(mainPosition := mainPosition);
      changes := changes + [ChangeLine("주포지션", existing.mainPosition, mainPosition.value)];
    }
    assert changes == two + ChangeIf(Truthy(mainPosition), "주포지션", existing.mainPosition, FinalValue(mainPosition, existing.mainPosition));
    ghost var three := changes;
    if Truthy(subPosition) {
      update := update.(subPosition := subPosition);
      changes := changes + [ChangeLine("부포지션", existing.subPosition, subPosition.value)];
    }
    assert changes == three + ChangeIf(Truthy(subPosition), "부포지션", existing.subPosition, FinalValue(subPosition, existing.subPosition));
    ghost var four := changes;
    if Truthy(tier) || Truthy(rank) {
      var newMmr := CalculateMmr(finalTier, finalRank);
      update := update.(mmr := Some(newMmr));
      changes := changes + [ChangeLine("MMR", IntToString(existing.mmr), IntToString(newMmr))];
    }
    assert changes == four + ChangeIf(Truthy(tier) || Truthy(rank), "MMR", IntToString(existing.mmr), IntToString(CalculateMmr(finalTier, finalRank)));
  }
}
