/**
 * The decision logic of the `/등록` command of cogs/utils/register_commands.py: the
 * Korean tier table, the base rating it gives, the checks before a registration and
 * the record handed to the store.
 */
module RegisterCommands {
  import opened Wrappers
  import opened DataStore
  import Register

  /** `MMR_TABLE`, shared by `/등록` and `/수정`. */
  const MmrTable: map<string, map<string, int>> := map[
    "아이언" := map["4" := 400, "3" := 450, "2" := 500, "1" := 550],
    "브론즈" := map["4" := 600, "3" := 650, "2" := 700, "1" := 750],
    "실버" := map["4" := 800, "3" := 850, "2" := 900, "1" := 950],
    "골드" := map["4" := 1000, "3" := 1050, "2" := 1100, "1" := 1150],
    "플래티넘" := map["4" := 1200, "3" := 1250, "2" := 1300, "1" := 1350],
    "에메랄드" := map["4" := 1400, "3" := 1450, "2" := 1500, "1" := 1550],
    "다이아몬드" := map["4" := 1600, "3" := 1650, "2" := 1700, "1" := 1750],
    "마스터" := map["1" := 1800],
    "그랜드마스터" := map["1" := 1900],
    "챌린저" := map["1" := 2000]
  ]

  /** The tiers from lowest to highest. */
  const Tiers: seq<string> := ["아이언", "브론즈", "실버", "골드", "플래티넘", "에메랄드", "다이아몬드", "마스터", "그랜드마스터", "챌린저"]

  /** The ranks within a tier from lowest to highest. */
  const Ranks: seq<string> := ["4", "3", "2", "1"]

  /** The tiers that only have rank "1". */
  const TopTiers: seq<string> := ["마스터", "그랜드마스터", "챌린저"]

  /** The rating of a tier or rank the table does not know: that of 아이언 4. */
  const DefaultMmr := 400

  /**
   * The table row by row: 아이언 to 다이아몬드 have ranks 4 to 1 at
   * 400 + 200 * tier + 50 * rank, and the top three tiers only rank 1, at 1800, 1900, 2000.
   */
  lemma TableRow(i: nat)
    requires i < 10
    ensures Tiers[i] in MmrTable
    ensures i < 7 ==> MmrTable[Tiers[i]] == RankRow(400 + 200 * i)
    ensures i >= 7 ==> MmrTable[Tiers[i]] == map["1" := 1800 + 100 * (i - 7)]
  {
  }

  /** A tier below the top three: its ranks from lowest to highest at its base and 50, 100 and 150 above it. */
  function RankRow(base: int): (row: map<string, int>)
    ensures forall a :: 0 <= a < 4 ==> Ranks[a] in row && row[Ranks[a]] == base + 50 * a
  {
    map["4" := base, "3" := base + 50, "2" := base + 100, "1" := base + 150]
  }

  /** Every rank of such a row is one of the ranks, at its place in their order. */
  lemma RankRowEntry(base: int, r: string)
    requires r in RankRow(base)
    ensures exists a :: 0 <= a < 4 && Ranks[a] == r && RankRow(base)[r] == base + 50 * a
  {
    if r == "4" {
      assert Ranks[0] == r;
    } else if r == "3" {
      assert Ranks[1] == r;
    } else if r == "2" {
      assert Ranks[2] == r;
    } else {
      assert Ranks[3] == r;
    }
  }

  /** The table has exactly the tiers of `Tiers`. */
  lemma TableKeys()
    ensures MmrTable.Keys == set t | t in Tiers
  {
  }

  lemma RanksDistinct()
    ensures forall a, b :: 0 <= a < b < 4 ==> Ranks[a] != Ranks[b]
  {
  }

  /** A higher tier, or a higher rank within a tier, always rates more. */
  lemma TableIncreases(i: nat, r: string, j: nat, r': string)
    requires i < 10 && j < 10
    requires Tiers[i] in MmrTable && r in MmrTable[Tiers[i]]
    requires Tiers[j] in MmrTable && r' in MmrTable[Tiers[j]]
    requires i < j || (i == j && exists a, b :: 0 <= a < b < 4 && Ranks[a] == r && Ranks[b] == r')
    ensures MmrTable[Tiers[i]][r] < MmrTable[Tiers[j]][r']
  {
    TableRow(i);
    TableRow(j);
    if i < 7 {
      RankRowEntry(400 + 200 * i, r);
      var a :| 0 <= a < 4 && Ranks[a] == r && MmrTable[Tiers[i]][r] == 400 + 200 * i + 50 * a;
      if j < 7 {
        RankRowEntry(400 + 200 * j, r');
        var b :| 0 <= b < 4 && Ranks[b] == r' && MmrTable[Tiers[j]][r'] == 400 + 200 * j + 50 * b;
        if i == j {
          var a', b' :| 0 <= a' < b' < 4 && Ranks[a'] == r && Ranks[b'] == r';
          RanksDistinct();
          assert a' == a && b' == b;
        }
      }
    }
  }

  /** The ranks a tier has, and their scores, agree between the two tables. */
  predicate SameEntry(i: nat, j: nat)
    requires i < 10 && j < 4
  {
    && Tiers[i] in MmrTable && Register.TierOrder[i] in Register.TierScores
    && (Ranks[j] in MmrTable[Tiers[i]] <==> Register.RankOrder[j] in Register.TierScores[Register.TierOrder[i]])
    && (Ranks[j] in MmrTable[Tiers[i]] ==>
          MmrTable[Tiers[i]][Ranks[j]] == Register.TierScores[Register.TierOrder[i]][Register.RankOrder[j]])
  }

  /** The Korean table holds the same scores as the English one of cogs/utils/register.py, tier for tier and rank for rank. */
  lemma SameScoresAsRegister(i: nat, j: nat)
    requires i < 10 && j < 4
    ensures SameEntry(i, j)
  {
    if i < 7 {
      SameScoresBelowMaster(i, j);
    } else {
      SameScoresFromMaster(i, j);
    }
  }

  lemma SameScoresBelowMaster(i: nat, j: nat)
    requires i < 7 && j < 4
    ensures SameEntry(i, j)
  {
    TableRow(i);
    Register.TierRow(i);
    assert Ranks[j] in RankRow(400 + 200 * i);
    assert Register.RankOrder[j] in Register.ScoreRow(400 + 200 * i);
  }

  lemma SameScoresFromMaster(i: nat, j: nat)
    requires 7 <= i < 10 && j < 4
    ensures SameEntry(i, j)
  {
    TableRow(i);
    Register.TierRow(i);
    assert Ranks[j] == "1" <==> j == 3;
    assert Register.RankOrder[j] == "I" <==> j == 3;
  }

  /** `calculate_mmr(tier, rank)`: the table entry, or 400 for an unknown tier or rank. */
  function CalculateMmr(tier: string, rank: string): (r: int)
    ensures tier in MmrTable && rank in MmrTable[tier] ==> r == MmrTable[tier][rank]
    ensures !(tier in MmrTable && rank in MmrTable[tier]) ==> r == DefaultMmr
  {
    if tier in MmrTable && rank in MmrTable[tier] then MmrTable[tier][rank] else DefaultMmr
  }

  /** Every rating lies between that of 아이언 4 and that of 챌린저 1, so an unknown pair rates as the lowest entry. */
  lemma CalculateMmrBounds(tier: string, rank: string)
    ensures 400 <= CalculateMmr(tier, rank) <= 2000
    ensures CalculateMmr("아이언", "4") == DefaultMmr
  {
    TableKeys();
    if tier in MmrTable && rank in MmrTable[tier] {
      var i :| 0 <= i < 10 && Tiers[i] == tier;
      TableRow(i);
      if i < 7 {
        RankRowEntry(400 + 200 * i, rank);
      }
    }
    TableRow(0);
  }

  /** A top tier may only be held at rank "1". */
  predicate RankAllowed(tier: string, rank: string)
  {
    tier !in TopTiers || rank == "1"
  }

  /** What `/등록` answers. */
  datatype RegisterOutcome =
    | TopTierNeedsRankOne      // "{tier} 티어는 1티어만 가능합니다."
    | NameTaken(existing: User) // the duplicate-name embed, showing the stored record
    | Registered(user: User)    // the record passed to `add_user`

  /** The checks of `register_command`, in their order, and the record it stores. */
  function RegisterDecision(users: map<string, User>, name: string, tier: string, rank: string,
                            mainPosition: string, subPosition: string): (r: RegisterOutcome)
    ensures r.TopTierNeedsRankOne? <==> !RankAllowed(tier, rank)
    ensures r.NameTaken? <==> RankAllowed(tier, rank) && name in users
    ensures r.NameTaken? ==> r.existing == users[name]
    ensures r.Registered? ==> (name !in users && r.user.tier == tier && r.user.rank == rank
      && r.user.mainPosition == mainPosition && r.user.subPosition == subPosition
      && r.user.wins == 0 && r.user.losses == 0 && r.user.totalGames == 0
      && r.user.mmr == CalculateMmr(tier, rank) && 400 <= r.user.mmr <= 2000)
  {
    CalculateMmrBounds(tier, rank);
    if !RankAllowed(tier, rank) then TopTierNeedsRankOne
    else if name in users then NameTaken(users[name])
    else Registered(User(tier, rank, mainPosition, subPosition, CalculateMmr(tier, rank), 0, 0, 0))
  }

  /**
   * A top tier with a rank other than "1" is refused whether or not the name exists; an
   * existing name is refused next; otherwise the new record has the table rating and no
   * games.
   */
  lemma RegisterDecisionCases(users: map<string, User>, name: string, tier: string, rank: string,
                              mainPosition: string, subPosition: string)
    ensures var o := RegisterDecision(users, name, tier, rank, mainPosition, subPosition);
      && (o.TopTierNeedsRankOne? <==> tier in TopTiers && rank != "1")
      && (o.NameTaken? <==> RankAllowed(tier, rank) && name in users)
      && (o.NameTaken? ==> o.existing == users[name])
      && (o.Registered? <==> RankAllowed(tier, rank) && name !in users)
      && (o.Registered? ==> o.user == User(tier, rank, mainPosition, subPosition, CalculateMmr(tier, rank), 0, 0, 0))
  {
  }

  /**
   * The store's players all hold an allowed tier and rank and the rating the table gives
   * it. Only the two commands write tier, rank and mmr; recording games never does.
   */
  predicate TableRated(users: map<string, User>)
  {
    forall n :: n in users ==>
      RankAllowed(users[n].tier, users[n].rank) && users[n].mmr == CalculateMmr(users[n].tier, users[n].rank)
  }

  /** Registering keeps every player table-rated. */
  lemma RegisterKeepsTableRated(users: map<string, User>, name: string, tier: string, rank: string,
                                mainPosition: string, subPosition: string)
    requires TableRated(users)
    ensures var o := RegisterDecision(users, name, tier, rank, mainPosition, subPosition);
      o.Registered? ==> TableRated(users[name := o.user])
  {
  }

  /** `register_command` against the store: the store changes only on a registration, by that one new record. */
  method RegisterCommand(dm: DataManager, name: string, tier: string, rank: string,
                         mainPosition: string, subPosition: string) returns (outcome: RegisterOutcome)
    requires dm.Valid()
    modifies dm
    ensures dm.Valid()
    ensures outcome == RegisterDecision(old(dm.users), name, tier, rank, mainPosition, subPosition)
    ensures outcome.Registered? ==>
      dm.users == old(dm.users)[name := outcome.user] && dm.userOrder == old(dm.userOrder) + [name]
    ensures !outcome.Registered? ==> dm.users == old(dm.users) && dm.userOrder == old(dm.userOrder)
    ensures dm.matches == old(dm.matches) && dm.matchOrder == old(dm.matchOrder)
  {
    if tier in TopTiers && rank != "1" {
      return TopTierNeedsRankOne;
    }
    var existing := dm.GetUser(name);
    if existing.Some? {
      return NameTaken(existing.value);
    }
    var mmr := CalculateMmr(tier, rank);
    var added := dm.AddUser(name, tier, rank, mainPosition, subPosition, mmr);
    assert added;
    outcome := Registered(User(tier, rank, mainPosition, subPosition, mmr, 0, 0, 0));
  }
}
