/**
 * Ratings used to balance teams (cogs/utils/team_commands.py): the stored rating, a
 * rating adjusted by the player's whole match history, and a "recent form" rating
 * adjusted by one match per date over the five latest dates. Python floats are
 * exact reals here, and `int()` truncates toward zero.
 */
module TeamRating {
  import opened Wrappers
  import opened Text
  import opened Sequences
  import opened DataStore

  /** The rating of a name the store does not know. */
  const UnknownMmr: int := 1000

  /** Python's `int(x)` on a float: truncation toward zero. */
  function Trunc(x: real): (r: int)
    ensures x >= 0.0 ==> r as real <= x < r as real + 1.0
    ensures x < 0.0 ==> r as real - 1.0 < x <= r as real
  {
    if x >= 0.0 then x.Floor else -((-x).Floor)
  }

  /** Python's `abs` on an integer. */
  function Abs(x: int): (r: nat)
    ensures r == x || r == -x
  {
    if x < 0 then -x else x
  }

  /** A whole number is its own truncation. */
  lemma TruncWhole(n: int)
    ensures Trunc(n as real) == n
  {
  }

  /** Truncation is monotone. */
  lemma TruncMonotone(x: real, y: real)
    requires x <= y
    ensures Trunc(x) <= Trunc(y)
  {
  }

  /** A product of a factor in [-1, 1] with a scale in [0, cap] lies in [-cap, cap]. */
  lemma ScaledBound(x: real, m: real, cap: real)
    requires -1.0 <= x <= 1.0 && 0.0 <= m <= cap
    ensures -cap <= x * m <= cap
  {
    if x >= 0.0 {
      assert x * m <= 1.0 * m;
    } else {
      assert x * m >= -1.0 * m;
    }
  }

  /**
   * `int(base + (wins / games - 0.5) * 2 * (cap * confidence))`: the stored rating moved
   * by at most `cap` toward the win rate's side of one half.
   */
  function Rated(base: int, wins: nat, games: nat, cap: nat, confidence: real): (r: int)
    requires wins <= games && 0 < games && 0.0 <= confidence <= 1.0
    ensures base - cap <= r <= base + cap
    ensures 2 * wins == games ==> r == base
  {
    var winRate := WinRate(wins, games);
    var maxAdjustment := Scaled(cap, confidence);
    var x := (winRate - 0.5) * 2.0;
    ScaledBound(x, maxAdjustment, cap as real);
    var adjusted := base as real + x * maxAdjustment;
    RatedTrunc(base, cap, adjusted);
    TruncWhole(base);
    Trunc(adjusted)
  }

  /** `wins / games`: a rate between 0 and 1, exactly one half when half the games are won. */
  function WinRate(wins: nat, games: nat): (r: real)
    requires wins <= games && 0 < games
    ensures 0.0 <= r <= 1.0
    ensures 2 * wins == games ==> r == 0.5
    ensures wins == 0 ==> r == 0.0
  {
    RateFacts(wins as real, games as real);
    HalfRate(wins, games);
    wins as real / games as real
  }

  /** A quotient of a numerator between 0 and the denominator. */
  lemma RateFacts(w: real, g: real)
    requires 0.0 <= w <= g && 0.0 < g
    ensures 0.0 <= w / g <= 1.0
    ensures w == 0.0 ==> w / g == 0.0
  {
    var q := w / g;
    assert q * g == w;
  }

  /** `cap * confidence`, for a confidence in [0, 1]: between 0 and the cap. */
  function Scaled(cap: nat, confidence: real): (r: real)
    requires 0.0 <= confidence <= 1.0
    ensures 0.0 <= r <= cap as real
  {
    assert cap as real * confidence <= cap as real * 1.0;
    cap as real * confidence
  }

  /** A value within `cap` of `base` truncates to a whole number within `cap` of it. */
  lemma RatedTrunc(base: int, cap: nat, adjusted: real)
    requires (base - cap) as real <= adjusted <= (base + cap) as real
    ensures base - cap <= Trunc(adjusted) <= base + cap
  {
    TruncMonotone((base - cap) as real, adjusted);
    TruncMonotone(adjusted, (base + cap) as real);
    TruncWhole(base - cap);
    TruncWhole(base + cap);
  }

  /** With no win, the rating moves down by the whole scaled cap. */
  lemma RatedNoWins(base: int, games: nat, cap: nat, confidence: real)
    requires 0 < games && 0.0 <= confidence <= 1.0
    ensures Rated(base, 0, games, cap, confidence) == Trunc(base as real - Scaled(cap, confidence))
  {
    assert WinRate(0, games) == 0.0;
    var m := Scaled(cap, confidence);
    assert (0.0 - 0.5) * 2.0 * m == -m;
  }

  /** Winning half of the games is a win rate of exactly one half. */
  lemma HalfRate(wins: nat, games: nat)
    requires 0 < games
    ensures 2 * wins == games ==> wins as real / games as real == 0.5
  {
    if 2 * wins == games {
      assert games as real == 2.0 * wins as real;
    }
  }

  /** Views whose "result" key is "win". */
  function WinsIn(views: seq<MatchView>): (w: nat)
    ensures w <= |views|
    decreases |views|
  {
    if views == [] then 0
    else WinsIn(views[..|views| - 1]) + (if views[|views| - 1].result == Some("win") then 1 else 0)
  }

  /** The confidence in a whole history: a step function of the number of games. */
  function OverallConfidence(games: nat): (c: real)
    ensures 0.1 <= c <= 1.0
  {
    if games < 5 then 0.1
    else if games < 10 then 0.2
    else if games < 15 then 0.4
    else if games < 25 then 0.6
    else if games < 35 then 0.8
    else 1.0
  }

  /** More games never lower the confidence. */
  lemma OverallConfidenceMonotone(a: nat, b: nat)
    requires a <= b
    ensures OverallConfidence(a) <= OverallConfidence(b)
  {
  }

  /** `calculate_adjusted_mmr` for a registered player with stored rating `base` and history `views`. */
  function AdjustedFromHistory(base: int, views: seq<MatchView>): (r: int)
    ensures views == [] ==> r == base
    ensures base - 200 <= r <= base + 200
  {
    if views == [] then base
    else Rated(base, WinsIn(views), |views|, 200, OverallConfidence(|views|))
  }

  /** With no recorded win, a non-empty history lowers the rating by exactly 200 times the confidence. */
  lemma AdjustedWithoutWins(base: int, views: seq<MatchView>)
    requires views != [] && WinsIn(views) == 0
    ensures AdjustedFromHistory(base, views) as real == base as real - 200.0 * OverallConfidence(|views|)
    ensures AdjustedFromHistory(base, views) < base
  {
    var c := OverallConfidence(|views|);
    var drop: int := if |views| < 5 then 20 else if |views| < 10 then 40 else if |views| < 15 then 80
      else if |views| < 25 then 120 else if |views| < 35 then 160 else 200;
    assert Scaled(200, c) == drop as real;
    RatedNoWins(base, |views|, 200, c);
    TruncWhole(base - drop);
  }

  /** `calculate_adjusted_mmr(player, dm)`. */
  function AdjustedMmr(st: Store, player: string): (r: int)
    ensures player !in st.users ==> r == UnknownMmr
    ensures player in st.users && UserMatchesOf(st.matches, st.matchOrder, player) == [] ==> r == st.users[player].mmr
    ensures player in st.users ==> st.users[player].mmr - 200 <= r <= st.users[player].mmr + 200
  {
    if player !in st.users then UnknownMmr
    else AdjustedFromHistory(st.users[player].mmr, UserMatchesOf(st.matches, st.matchOrder, player))
  }

  /** The store never writes a "result" key, so no view it hands out counts as a win. */
  lemma {:induction false} StoreViewsHaveNoWins(matches: map<string, Match>, order: seq<string>, name: string)
    ensures WinsIn(UserMatchesOf(matches, order, name)) == 0
    decreases |order|
  {
    if order != [] {
      var front := order[..|order| - 1];
      StoreViewsHaveNoWins(matches, front, name);
      var rest := UserMatchesOf(matches, front, name);
      var id := order[|order| - 1];
      if id in matches && Plays(matches[id], name) {
        var vs := rest + [MatchView(id, matches[id], None)];
        assert vs[..|vs| - 1] == rest;
      }
    }
  }

  /**
   * As written, the adjustment is never positive: a registered player who has played
   * is rated exactly `200 * confidence` below the stored rating, whatever the results.
   */
  lemma AdjustedMmrNeverRaises(st: Store, player: string)
    requires player in st.users
    ensures AdjustedMmr(st, player) <= st.users[player].mmr
    ensures var views := UserMatchesOf(st.matches, st.matchOrder, player);
      views != [] ==> AdjustedMmr(st, player) as real == st.users[player].mmr as real - 200.0 * OverallConfidence(|views|)
  {
    var views := UserMatchesOf(st.matches, st.matchOrder, player);
    StoreViewsHaveNoWins(st.matches, st.matchOrder, player);
    if views != [] {
      AdjustedWithoutWins(st.users[player].mmr, views);
    }
  }

  // ----- recent form -----

  /** The dates of `views` in order of first appearance: the keys of `matches_by_date`. */
  function DatesOf(views: seq<MatchView>): (r: seq<string>)
    ensures Distinct(r)
    ensures forall i :: 0 <= i < |views| ==> views[i].info.date in r
    decreases |views|
  {
    if views == [] then []
    else
      var front := views[..|views| - 1];
      var r := DatesOf(front);
      var d := views[|views| - 1].info.date;
      forall i | 0 <= i < |views| - 1 ensures views[i].info.date in r {
        assert views[i] == front[i];
      }
      if d in r then r else r + [d]
  }

  /** The views of `views` on date `d`, in order: `matches_by_date[d]`. */
  function MatchesOn(views: seq<MatchView>, d: string): seq<MatchView>
    decreases |views|
  {
    if views == [] then []
    else
      var rest := MatchesOn(views[..|views| - 1], d);
      if views[|views| - 1].info.date == d then rest + [views[|views| - 1]] else rest
  }

  /** The group of a date holds exactly the history's views on that date. */
  lemma {:induction false} MatchesOnMembers(views: seq<MatchView>, d: string)
    ensures forall v :: v in MatchesOn(views, d) <==> v in views && v.info.date == d
    decreases |views|
  {
    if views != [] {
      var front := views[..|views| - 1];
      MatchesOnMembers(front, d);
      assert views == front + [views[|views| - 1]];
    }
  }

  /** Every date of the history has at least one view. */
  lemma {:induction false} DatesHaveMatches(views: seq<MatchView>)
    ensures forall d :: d in DatesOf(views) ==> MatchesOn(views, d) != []
    decreases |views|
  {
    if views != [] {
      var front := views[..|views| - 1];
      DatesHaveMatches(front);
      var last := views[|views| - 1];
      forall d | d in DatesOf(views) ensures MatchesOn(views, d) != [] {
        if d != last.info.date {
          assert d in DatesOf(front);
          var w := MatchesOn(front, d)[0];
          assert w in MatchesOn(views, d);
        }
      }
    }
  }

  /** The index of the last view on date `d`, or -1 when there is none. */
  function LastIndexOn(views: seq<MatchView>, d: string): (i: int)
    ensures -1 <= i < |views|
    ensures i >= 0 ==> views[i].info.date == d
    ensures forall j :: i < j < |views| ==> views[j].info.date != d
    decreases |views|
  {
    if views == [] then -1
    else if views[|views| - 1].info.date == d then |views| - 1
    else LastIndexOn(views[..|views| - 1], d)
  }

  /** `matches_by_date[d][-1]` is the last view of the history on date `d`. */
  lemma {:induction false} LastOfDateIsLatest(views: seq<MatchView>, d: string)
    requires MatchesOn(views, d) != []
    ensures LastIndexOn(views, d) >= 0
    ensures MatchesOn(views, d)[|MatchesOn(views, d)| - 1] == views[LastIndexOn(views, d)]
    decreases |views|
  {
    var front := views[..|views| - 1];
    if views[|views| - 1].info.date != d {
      LastOfDateIsLatest(front, d);
      assert views[LastIndexOn(front, d)] == front[LastIndexOn(front, d)];
    }
  }

  /** The dates of the sample, latest first: `sorted(matches_by_date.keys(), reverse=True)[:5]`. */
  function SampleDates(views: seq<MatchView>): (r: seq<string>)
    ensures forall d :: d in r ==> d in DatesOf(views)
  {
    LatestStored(DatesOf(views), 5);
    Latest(DatesOf(views), 5)
  }

  /** The last view of each date in `dates`: `matches_by_date[date][-1]` for each. */
  function LastsOf(views: seq<MatchView>, dates: seq<string>): (r: seq<MatchView>)
    requires forall d :: d in dates ==> MatchesOn(views, d) != []
    ensures |r| == |dates|
    decreases |dates|
  {
    if dates == [] then []
    else
      var on := MatchesOn(views, dates[|dates| - 1]);
      LastsOf(views, dates[..|dates| - 1]) + [on[|on| - 1]]
  }

  /** Entry `k` of `LastsOf` is the last view on the `k`-th date. */
  lemma {:induction false} LastsOfAt(views: seq<MatchView>, dates: seq<string>, k: nat)
    requires forall d :: d in dates ==> MatchesOn(views, d) != []
    requires k < |dates|
    ensures LastsOf(views, dates)[k] == MatchesOn(views, dates[k])[|MatchesOn(views, dates[k])| - 1]
    decreases |dates|
  {
    if k < |dates| - 1 {
      LastsOfAt(views, dates[..|dates| - 1], k);
    }
  }

  /** The matches the recent-form rating looks at: the latest match of each of the five latest dates, latest date first. */
  function RecentSample(views: seq<MatchView>): seq<MatchView>
  {
    DatesHaveMatches(views);
    LastsOf(views, SampleDates(views))
  }

  /** Entry `k` of the sample is the last view of the history on the `k`-th sampled date. */
  lemma SampleEntry(views: seq<MatchView>, k: nat)
    requires k < |RecentSample(views)|
    ensures |RecentSample(views)| == |SampleDates(views)|
    ensures RecentSample(views)[k].info.date == SampleDates(views)[k]
    ensures LastIndexOn(views, SampleDates(views)[k]) >= 0
    ensures views[LastIndexOn(views, SampleDates(views)[k])] == RecentSample(views)[k]
  {
    var dates := SampleDates(views);
    DatesHaveMatches(views);
    LastsOfAt(views, dates, k);
    LastOfDateIsLatest(views, dates[k]);
  }

  /** The sample has one match per date, for the five latest dates or all dates if there are fewer. */
  lemma RecentSampleSize(views: seq<MatchView>)
    ensures |RecentSample(views)| == if |DatesOf(views)| < 5 then |DatesOf(views)| else 5
    ensures views != [] ==> RecentSample(views) != []
  {
    LatestShape(DatesOf(views), 5);
    if views != [] {
      assert views[0].info.date in DatesOf(views);
    }
  }

  /** The sample's dates strictly decrease: latest date first, no date twice. */
  lemma RecentSampleOrdered(views: seq<MatchView>)
    ensures forall k, l :: 0 <= k < l < |RecentSample(views)| ==>
      StrLess(RecentSample(views)[l].info.date, RecentSample(views)[k].info.date)
  {
    var r := RecentSample(views);
    var dates := SampleDates(views);
    LatestShape(DatesOf(views), 5);
    forall k, l | 0 <= k < l < |r| ensures StrLess(r[l].info.date, r[k].info.date) {
      SampleEntry(views, k);
      SampleEntry(views, l);
    }
  }

  /** Each sampled match is the last match of its date in the history. */
  lemma RecentSampleLastOfDate(views: seq<MatchView>)
    ensures forall k :: 0 <= k < |RecentSample(views)| ==>
      var i := LastIndexOn(views, RecentSample(views)[k].info.date);
      0 <= i && views[i] == RecentSample(views)[k]
  {
    forall k | 0 <= k < |RecentSample(views)|
      ensures var i := LastIndexOn(views, RecentSample(views)[k].info.date); 0 <= i && views[i] == RecentSample(views)[k]
    {
      SampleEntry(views, k);
    }
  }

  /** A date of the history that is not sampled is earlier than every sampled date. */
  lemma RecentSampleNewestDates(views: seq<MatchView>)
    ensures forall i, k :: 0 <= i < |views| && views[i].info.date !in SampleDates(views) && 0 <= k < |RecentSample(views)| ==>
      StrLess(views[i].info.date, RecentSample(views)[k].info.date)
  {
    var r := RecentSample(views);
    var dates := SampleDates(views);
    LatestShape(DatesOf(views), 5);
    forall i, k | 0 <= i < |views| && views[i].info.date !in dates && 0 <= k < |r|
      ensures StrLess(views[i].info.date, r[k].info.date)
    {
      SampleEntry(views, k);
      assert views[i].info.date in DatesOf(views);
    }
  }

  /** The confidence in the recent sample: 0.2 per sampled match, at most 1. */
  function RecentConfidence(count: nat): (c: real)
    ensures 0.2 <= c <= 1.0
    ensures 1 <= count <= 5 ==> c == 0.2 * count as real
  {
    if count == 1 then 0.2
    else if count == 2 then 0.4
    else if count == 3 then 0.6
    else if count == 4 then 0.8
    else 1.0
  }

  /** `calculate_recent_form_mmr` for a registered player with stored rating `base` and history `views`. */
  function RecentFromHistory(base: int, views: seq<MatchView>): (r: int)
    ensures views == [] ==> r == base
    ensures base - 300 <= r <= base + 300
  {
    if views == [] then base
    else
      var recent := RecentSample(views);
      if recent == [] then base
      else Rated(base, WinsIn(recent), |recent|, 300, RecentConfidence(|recent|))
  }

  /** `calculate_recent_form_mmr(player, dm)`. */
  function RecentFormMmrOf(st: Store, player: string): (r: int)
    ensures player !in st.users ==> r == UnknownMmr
    ensures player in st.users ==> st.users[player].mmr - 300 <= r <= st.users[player].mmr + 300
  {
    if player !in st.users then UnknownMmr
    else RecentFromHistory(st.users[player].mmr, UserMatchesOf(st.matches, st.matchOrder, player))
  }

  /**
   * `calculate_recent_form_mmr`, grouping the history by date into a dictionary as the
   * source does, then sampling the latest match of each of the five latest dates.
   */
  method RecentFormMmr(player: string, dm: DataManager) returns (r: int)
    ensures r == RecentFormMmrOf(dm.State(), player)
  {
    var user := dm.GetUser(player);
    if user.None? {
      return UnknownMmr;
    }
    var base := user.value.mmr;
    var views := dm.GetUserMatches(player);
    if views == [] {
      return base;
    }
    var byDate, dateOrder := GroupByDate(views);
    var recentDates := Latest(dateOrder, 5);
    assert recentDates == SampleDates(views);
    DatesHaveMatches(views);
    var recent := LastOfEach(byDate, views, recentDates);
    if recent == [] {
      return base;
    }
    r := Rated(base, WinsIn(recent), |recent|, 300, RecentConfidence(|recent|));
  }

  /** The sampling loop of `calculate_recent_form_mmr`: `matches_by_date[d][-1]` for each `d` of `dates`. */
  method LastOfEach(byDate: map<string, seq<MatchView>>, ghost views: seq<MatchView>, dates: seq<string>)
    returns (recent: seq<MatchView>)
    requires forall d :: d in dates ==> d in byDate && byDate[d] == MatchesOn(views, d) && byDate[d] != []
    ensures recent == LastsOf(views, dates)
  {
    recent := [];
    var k := 0;
    while k < |dates|
      invariant 0 <= k <= |dates|
      invariant recent == LastsOf(views, dates[..k])
    {
      assert dates[..k + 1][..k] == dates[..k];
      var on := byDate[dates[k]];
      recent := recent + [on[|on| - 1]];
      k := k + 1;
    }
    assert dates[..k] == dates;
  }

  /** The `matches_by_date` loop: each date's views in order, and the dates in order of first appearance. */
  method GroupByDate(views: seq<MatchView>) returns (byDate: map<string, seq<MatchView>>, dateOrder: seq<string>)
    ensures Grouped(byDate, dateOrder, views)
  {
    byDate := map[];
    dateOrder := [];
    var i := 0;
    while i < |views|
      invariant 0 <= i <= |views|
      invariant Grouped(byDate, dateOrder, views[..i])
    {
      assert views[..i + 1] == views[..i] + [views[i]];
      byDate, dateOrder := GroupOne(byDate, dateOrder, views[..i], views[i]);
      i := i + 1;
    }
    assert views[..i] == views;
  }

  /** `byDate` and `dateOrder` are the grouping of `seen`. */
  ghost predicate Grouped(byDate: map<string, seq<MatchView>>, dateOrder: seq<string>, seen: seq<MatchView>)
  {
    && dateOrder == DatesOf(seen)
    && (forall d :: d in byDate <==> d in dateOrder)
    && (forall d :: d in byDate ==> byDate[d] == MatchesOn(seen, d))
  }

  /** One step of the grouping loop: file `v` under its date, opening the date when it is new. */
  method GroupOne(byDate: map<string, seq<MatchView>>, dateOrder: seq<string>, ghost seen: seq<MatchView>, v: MatchView)
    returns (byDate': map<string, seq<MatchView>>, dateOrder': seq<string>)
    requires Grouped(byDate, dateOrder, seen)
    ensures Grouped(byDate', dateOrder', seen + [v])
  {
    HistorySnoc(seen, v);
    byDate' := byDate;
    dateOrder' := dateOrder;
    if v.info.date !in byDate' {
      byDate' := byDate'[v.info.date := []];
      dateOrder' := dateOrder' + [v.info.date];
    }
    byDate' := byDate'[v.info.date := byDate'[v.info.date] + [v]];
  }

  /** A date with a view on it is among the history's dates. */
  lemma {:induction false} DatesOfComplete(views: seq<MatchView>, d: string)
    ensures MatchesOn(views, d) != [] ==> d in DatesOf(views)
    decreases |views|
  {
    if views != [] {
      DatesOfComplete(views[..|views| - 1], d);
    }
  }

  /** Grouping one more view: a new date is appended to the key order, and the view to its date's list. */
  lemma HistorySnoc(seen: seq<MatchView>, v: MatchView)
    ensures (seen + [v])[..|seen|] == seen
    ensures DatesOf(seen + [v]) == if v.info.date in DatesOf(seen) then DatesOf(seen) else DatesOf(seen) + [v.info.date]
    ensures forall d :: MatchesOn(seen + [v], d) == if v.info.date == d then MatchesOn(seen, d) + [v] else MatchesOn(seen, d)
    ensures v.info.date !in DatesOf(seen) ==> MatchesOn(seen, v.info.date) == []
  {
    assert (seen + [v])[..|seen|] == seen;
    DatesOfComplete(seen, v.info.date);
  }

  /** The rating of one player in a mode of `calculate_team_mmr_adjusted`. */
  function PlayerMmr(st: Store, player: string, mode: string): (r: int)
    ensures mode != "adjusted" && mode != "recent" ==>
      r == if player in st.users then st.users[player].mmr else UnknownMmr
    ensures player !in st.users ==> r == UnknownMmr
  {
    if mode == "adjusted" then AdjustedMmr(st, player)
    else if mode == "recent" then RecentFormMmrOf(st, player)
    else if player in st.users then st.users[player].mmr
    else UnknownMmr
  }

  /** The sum of the players' ratings in a mode. */
  function TeamTotal(st: Store, players: seq<string>, mode: string): int
    decreases |players|
  {
    if players == [] then 0
    else TeamTotal(st, players[..|players| - 1], mode) + PlayerMmr(st, players[|players| - 1], mode)
  }

  /** A team's total splits over any division of the team. */
  lemma {:induction false} TeamTotalConcat(st: Store, a: seq<string>, b: seq<string>, mode: string)
    ensures TeamTotal(st, a + b, mode) == TeamTotal(st, a, mode) + TeamTotal(st, b, mode)
    decreases |b|
  {
    if b == [] {
      assert a + b == a;
    } else {
      var b' := b[..|b| - 1];
      assert (a + b)[..|a + b| - 1] == a + b';
      TeamTotalConcat(st, a, b', mode);
    }
  }

  /** In the adjusted mode every player counts within 200 of their base rating (1000 when unknown). */
  lemma {:induction false} TeamTotalAdjustedBounds(st: Store, players: seq<string>)
    ensures TeamTotal(st, players, "base") - 200 * |players| <= TeamTotal(st, players, "adjusted")
    ensures TeamTotal(st, players, "adjusted") <= TeamTotal(st, players, "base") + 200 * |players|
    decreases |players|
  {
    if players != [] {
      TeamTotalAdjustedBounds(st, players[..|players| - 1]);
    }
  }

  /** `calculate_team_mmr_adjusted(players, dm, mmr_type)`. */
  method TeamMmr(players: seq<string>, dm: DataManager, mode: string) returns (total: int)
    ensures total == TeamTotal(dm.State(), players, mode)
  {
    total := 0;
    var i := 0;
    while i < |players|
      invariant 0 <= i <= |players|
      invariant total == TeamTotal(dm.State(), players[..i], mode)
    {
      var mmr: int;
      if mode == "adjusted" {
        mmr := AdjustedMmr(dm.State(), players[i]);
      } else if mode == "recent" {
        mmr := RecentFormMmr(players[i], dm);
      } else {
        var user := dm.GetUser(players[i]);
        mmr := if user.Some? then user.value.mmr else UnknownMmr;
      }
      assert players[..i + 1][..i] == players[..i];
      total := total + mmr;
      i := i + 1;
    }
    assert players[..i] == players;
  }
}
