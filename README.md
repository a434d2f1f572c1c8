# LANF_STUDY balancing core in Dafny

A Discord bot for 5-versus-5 League of Legends in-house games. It registers players with a tier, rank and positions, keeps player and match records, proposes balanced teams, records results and reports statistics. This project models the logic behind those commands and proves what the code guarantees:

- **Ratings** (`TeamRating`, `Register`, `RegisterCommands`). These are the Korean and English tier tables, the win-rate adjusted rating with its stepped confidence, the "recent form" rating (one match per date over the five latest dates), and team totals. Python floats are exact reals. `int()` is truncation toward zero.
- **Role eligibility** (`TeamPositions`). This is which of the five roles (탑, 정글, 미드, 원딜, 서폿) each player may fill, as `get_player_positions` builds the lists in two loops.
- **Team search** (`TeamBalance`, `Register`). The three randomized options are modelled with each `random.sample` or `random.shuffle` as an arbitrary choice, so every property holds for every outcome of the random source. The exhaustive `find_balanced_teams` enumerates all C(10,5) = 252 splits, sorts them and selects greedily for diversity.
- **Record store** (`DataStore`). `DataManager` is a class holding the users and matches dictionaries, each with its insertion order. It fixes the id of a new match and updates the win/loss counts.
- **Commands** (`Register`, `RegisterCommands`, `ModifyCommands`). These are the checks and store updates of `/등록`, `/수정` and `/전적`.
- **Statistics** (`Statistics`), covering:
  - the teammate counts;
  - the best and worst teammate;
  - the share of balanced matches.
- **Embed reading** (`MatchResult`), covering:
  - the two regular expressions of `extract_player_names`, written out as scanners;
  - `parse_team_from_embed`;
  - the formation-type classifier;
  - the team summary line;
  - the winner mapping.

  A formation embed, as `create_team_embed` writes it, reads back as the same two teams.

Shared helpers live in `Wrappers` (Option, Result), `Text` (Python string operations) and `Sequences`. `Sequences` provides counting, distinctness, Python slicing and a stable sort.

## Behaviour worth noting

Each point follows from the program's own lines, and the model keeps it:

- **The win-rate adjustment never raises a rating.** `calculate_adjusted_mmr` counts wins from the optional `result` key of a match view (cogs/utils/team_commands.py:36). The record `add_match` stores has no such key (cogs/utils/data_manager.py:197-203). So every registered player who has played is rated exactly `200 * confidence` below the stored rating (`TeamRating.AdjustedMmrNeverRaises`).
- **Option 1 can fail after its role check passes.** `balance_teams_option1` rejects the input only when some role has fewer than two candidates (cogs/utils/team_commands.py:197-206). Past that check it can still return its failure text "팀 밸런싱에 실패했습니다." (cogs/utils/team_commands.py:241): two roles can share the same two players, so no trial fills all five roles with ten different players (`TeamBalance.TwoPerRoleNotEnough`).
- **Option 3 avoids only identical teams.** Its docstring asks for a composition different from options 1 and 2 (cogs/utils/team_commands.py:278). The exhaustive search counts a split sharing four or more players with a chosen one as too similar (cogs/utils/register.py:123). Option 3 instead skips a team only when `tuple(sorted(team))` equals an earlier team's (cogs/utils/team_commands.py:304-306), so it may return a team sharing four of five players with option 1 (`TeamBalance.FourOfFiveNotAvoided`).
- **Options 2 and 3 check only the count.** They test `len(players) != 10` (cogs/utils/team_commands.py:246 and :280), not that the ten names are distinct registered players.

## Model

| member | source | states |
|---|---|---|
| TeamRating.Trunc | cogs/utils/team_commands.py:58 | `int()` on a float lies within one of it, toward zero, for either sign |
| TeamRating.WinRate | cogs/utils/team_commands.py:37 | the win rate is in [0, 1]; it is exactly 1/2 when half the games are won and 0 with no win |
| TeamRating.Rated | cogs/utils/team_commands.py:53-58 | the adjusted rating stays within `cap` of the base and equals it at a 50% win rate |
| TeamRating.OverallConfidence | cogs/utils/team_commands.py:39-51 | the stepped confidence lies between 0.1 and 1.0 |
| TeamRating.OverallConfidenceMonotone | cogs/utils/team_commands.py:39-51 | more games never lower the confidence |
| TeamRating.WinsIn | cogs/utils/team_commands.py:36 | at most one win per match view |
| TeamRating.AdjustedFromHistory | cogs/utils/team_commands.py:27-58 | with no matches the result is the base itself; it always lies within base ± 200 |
| TeamRating.AdjustedWithoutWins | cogs/utils/team_commands.py:36-58 | a history with no win lowers the rating by exactly 200 × confidence, so strictly |
| TeamRating.AdjustedMmr | cogs/utils/team_commands.py:21-58 | an unknown player rates 1000; a player without matches rates their stored mmr; otherwise the result lies within stored mmr ± 200 |
| TeamRating.StoreViewsHaveNoWins | cogs/utils/team_commands.py:36 | no match view the store hands out counts as a win |
| TeamRating.AdjustedMmrNeverRaises | cogs/utils/team_commands.py:30-58 | as written the adjusted rating never exceeds the stored one, and it is exactly stored − 200 × confidence once the player has played |
| TeamRating.DatesOf | cogs/utils/team_commands.py:75-80 | the dictionary's keys: distinct, and every match's date is among them |
| TeamRating.MatchesOnMembers | cogs/utils/team_commands.py:75-80 | a date's list holds exactly the history's matches on that date |
| TeamRating.DatesHaveMatches | cogs/utils/team_commands.py:75-80 | every key of the dictionary has a non-empty list |
| TeamRating.DatesOfComplete | cogs/utils/team_commands.py:75-80 | a date with a match on it is a key |
| TeamRating.LastIndexOn | cogs/utils/team_commands.py:87 | the index found is on that date and no later match is |
| TeamRating.LastOfDateIsLatest | cogs/utils/team_commands.py:87 | `matches_by_date[d][-1]` is the last match of the history on date `d` |
| TeamRating.SampleDates | cogs/utils/team_commands.py:83 | every sampled date is a date of the history |
| TeamRating.LastsOf | cogs/utils/team_commands.py:84-87 | one representative per sampled date |
| TeamRating.LastsOfAt | cogs/utils/team_commands.py:84-87 | representative k is the last match of the k-th date |
| TeamRating.SampleEntry | cogs/utils/team_commands.py:83-87 | the k-th sampled match is the history's last match on the k-th sampled date |
| TeamRating.RecentSampleSize | cogs/utils/team_commands.py:83-90 | the sample has min(5, number of dates) matches and is non-empty for a non-empty history |
| TeamRating.RecentSampleOrdered | cogs/utils/team_commands.py:83 | sampled dates strictly decrease: latest first, no date twice |
| TeamRating.RecentSampleLastOfDate | cogs/utils/team_commands.py:85-87 | each sampled match is the last match of its date |
| TeamRating.RecentSampleNewestDates | cogs/utils/team_commands.py:83 | every date left out is earlier than every sampled date |
| TeamRating.RecentConfidence | cogs/utils/team_commands.py:97-107 | confidence is 0.2 per sampled match (1→0.2 … 5→1.0) and lies in [0.2, 1] |
| TeamRating.RecentFromHistory | cogs/utils/team_commands.py:67-114 | with no matches the result is the base itself; it always lies within base ± 300 |
| TeamRating.RecentFormMmrOf | cogs/utils/team_commands.py:61-114 | an unknown player rates 1000; a registered one lies within stored mmr ± 300 |
| TeamRating.RecentFormMmr | cogs/utils/team_commands.py:61-114 | the dictionary-filling loops compute the recent-form rating of the specification function |
| TeamRating.GroupByDate | cogs/utils/team_commands.py:75-80 | the loop leaves each date's matches in order, and the dates in order of first appearance |
| TeamRating.GroupOne | cogs/utils/team_commands.py:76-80 | one loop step keeps the grouping invariant for one more match |
| TeamRating.HistorySnoc | cogs/utils/team_commands.py:76-80 | one more match opens its date when it is new and is appended to that date's list |
| TeamRating.LastOfEach | cogs/utils/team_commands.py:84-87 | the sampling loop takes `[-1]` of each date's list |
| TeamRating.PlayerMmr | cogs/utils/team_commands.py:120-127 | the base mode gives the stored mmr, or 1000 for an unknown player; every mode gives 1000 for an unknown player |
| TeamRating.TeamTotalConcat | cogs/utils/team_commands.py:119-129 | the team total is additive over a division of the team |
| TeamRating.TeamTotalAdjustedBounds | cogs/utils/team_commands.py:117-129 | the adjusted total is within 200 per player of the base total |
| TeamRating.TeamMmr | cogs/utils/team_commands.py:117-129 | the accumulation loop computes the sum of the per-player ratings in the chosen mode |
| TeamPositions.RoleIndex | cogs/utils/team_commands.py:134-140 | a role name's index names that role |
| TeamPositions.AddExcept | cogs/utils/team_commands.py:162-165 | adding a player keeps five lists |
| TeamPositions.AddExceptMembers | cogs/utils/team_commands.py:162-165 | the player joins exactly the lists of the roles not skipped |
| TeamPositions.AddToRoles | cogs/utils/team_commands.py:162-165 | the in-place loop over the keys computes `AddExcept` |
| TeamPositions.PlaceOne | cogs/utils/team_commands.py:144-167 | one player's placement fails exactly when the main position is not a role (the `KeyError`), and carries that key |
| TeamPositions.PlaceOneMembers | cogs/utils/team_commands.py:150-167 | the player joins exactly the roles the first loop admits, and the flexible list exactly when deferred |
| TeamPositions.PlaceOneAt | cogs/utils/team_commands.py:150-167 | the same, for one role's list |
| TeamPositions.PlaceOneGrows | cogs/utils/team_commands.py:150-167 | a list gains the player at most once |
| TeamPositions.PlaceOneDistinct | cogs/utils/team_commands.py:150-167 | a new player keeps every list without repetition |
| TeamPositions.FirstPass | cogs/utils/team_commands.py:144-167 | the first loop keeps five lists |
| TeamPositions.FirstPassFailureSticks | cogs/utils/team_commands.py:151 | once a prefix raises, the whole call raises with the same key |
| TeamPositions.FirstPassMembers | cogs/utils/team_commands.py:144-167 | list i after the first loop holds exactly the registered players the first loop admits to role i |
| TeamPositions.FirstPassDistinct | cogs/utils/team_commands.py:144-167 | with distinct players the first loop lists no one twice |
| TeamPositions.SecondPass | cogs/utils/team_commands.py:170-173 | the flexible loop keeps five lists |
| TeamPositions.SecondPassMembers | cogs/utils/team_commands.py:170-173 | a flexible player ends up in every list |
| TeamPositions.SecondPassDistinct | cogs/utils/team_commands.py:170-173 | the `not in` test keeps the lists without repetition |
| TeamPositions.RoleNotExcept | cogs/utils/team_commands.py:160 | no role name ends with " 빼고" |
| TeamPositions.PositionsOf | cogs/utils/team_commands.py:132-175 | a result has five lists |
| TeamPositions.PlayerPositions | cogs/utils/team_commands.py:132-175 | the two in-place loops compute `PositionsOf` |
| TeamPositions.PositionsMembers | cogs/utils/team_commands.py:132-175 | list i holds exactly the registered given players eligible for role i |
| TeamPositions.EligibleSplit | cogs/utils/team_commands.py:150-173 | eligibility is admission in the first loop or deferral to the second |
| TeamPositions.EligibleCases | cogs/utils/team_commands.py:150-173 | The rules, as if-and-only-ifs: the main role is always open; main = sub allows only the main role; 모두가능 opens all five; "X 빼고" opens every role but X, main kept; a distinct specific sub opens exactly main and sub |
| TeamPositions.PositionsFailure | cogs/utils/team_commands.py:151 | the call raises exactly when some registered given player has a main position that is not a role |
| TeamPositions.PositionsDistinct | cogs/utils/team_commands.py:132-175 | with distinct players no role lists a player twice |
| TeamPositions.AddExceptDistinct | cogs/utils/team_commands.py:164 | the `not in` test keeps the lists without repetition |
| TeamBalance.BestOf | cogs/utils/team_commands.py:236-239 | a trial is kept exactly when there was one, and it is one of them |
| TeamBalance.BestOfIsFirstMinimum | cogs/utils/team_commands.py:236-239 | the kept trial has the smallest difference, and every earlier trial is strictly worse, so the first one wins ties |
| TeamBalance.Consider | cogs/utils/team_commands.py:232-239 | rating a trial and the strict `<` update keep the loop variables equal to `BestOf` of the trials so far |
| TeamBalance.Selected | cogs/utils/team_commands.py:241 | the search succeeds exactly when some trial was kept |
| TeamBalance.TracksOutcome | cogs/utils/team_commands.py:241 | the returned teams are those `BestOf` selects, or the failure text |
| TeamBalance.Unused | cogs/utils/team_commands.py:219 | `available` holds exactly the candidates not used yet |
| TeamBalance.DrawTrial | cogs/utils/team_commands.py:212-230 | a successful trial puts a candidate of role i at place i on each side, and with repetition-free lists all ten are distinct |
| TeamBalance.DrawTrialStep | cogs/utils/team_commands.py:212-230 | the kept trials keep filling the roles |
| TeamBalance.DistinctAppendTwo | cogs/utils/team_commands.py:224-227 | two fresh sampled players keep the ten distinct |
| TeamBalance.ShortagesEmpty | cogs/utils/team_commands.py:197-200 | no shortage entry exactly when every role has at least two candidates |
| TeamBalance.FindShortages | cogs/utils/team_commands.py:197-200 | the loop collects the shortage entries in role order |
| TeamBalance.BalanceOption1 | cogs/utils/team_commands.py:189-241 | Failure cases: not ten players, the `KeyError`, or a role short of candidates (with the diagnostic text). Otherwise at most 1500 trials, each filling the roles, with ten distinct players when the lists repeat no one, and the result is `BestOf` of them |
| TeamBalance.AssignedEligible | cogs/utils/team_commands.py:218-226 | every player placed at role i is a given registered player eligible for role i |
| TeamBalance.ListsDistinct | cogs/utils/team_commands.py:194 | distinct players give repetition-free candidate lists |
| TeamBalance.TwoPerRoleNotEnough | cogs/utils/team_commands.py:197-241 | passing the shortage check does not guarantee a solution: a concrete case has two per role and no valid assignment |
| TeamBalance.Cut | cogs/utils/team_commands.py:262-263 | the two teams concatenate back to the shuffled list |
| TeamBalance.CutSplits | cogs/utils/team_commands.py:259-263 | the cut of a permutation is five blue and the rest red, every player once |
| TeamBalance.BalanceOption2 | cogs/utils/team_commands.py:244-274 | not ten players is an error; otherwise exactly 2000 trials, each a split of a permutation, and the result always succeeds with `BestOf` of them |
| TeamBalance.SortedTeamEqual | cogs/utils/team_commands.py:285-289 | two teams sort to the same tuple exactly when they have the same multiset |
| TeamBalance.AvoidOfElements | cogs/utils/team_commands.py:284-289 | one option contributes exactly the sorted tuples of its truthy pair |
| TeamBalance.AvoidSetElements | cogs/utils/team_commands.py:283-289 | `avoid_teams` holds exactly the sorted tuples of the avoided teams |
| TeamBalance.AvoidSetMeaning | cogs/utils/team_commands.py:304-306 | a team is caught exactly when it is set-equal to an avoided team |
| TeamBalance.BuildAvoid | cogs/utils/team_commands.py:283-289 | the construction computes `AvoidSet` |
| TeamBalance.ShuffleAvoiding | cogs/utils/team_commands.py:297-306 | an accepted shuffle is a split of the players neither of whose teams is in `avoid_teams` |
| TeamBalance.ShuffleTrialStep | cogs/utils/team_commands.py:296-306 | the kept shuffles stay splits that pass the avoid test |
| TeamBalance.AllPassEach | cogs/utils/team_commands.py:304-306 | every kept trial passes the avoid test |
| TeamBalance.BalanceOption3 | cogs/utils/team_commands.py:277-318 | not ten players is an error; otherwise at most 2000 kept trials, each a split passing the avoid test, and the result is `BestOf` of them or the failure text |
| TeamBalance.Option3AvoidsEarlier | cogs/utils/team_commands.py:304-306 | a passing split has no team set-equal to a team of option 1 or option 2 |
| TeamBalance.Option3Result | cogs/utils/team_commands.py:277-318 | the teams option 3 returns are never set-equal to a team of option 1 or option 2 |
| TeamBalance.FourOfFiveNotAvoided | cogs/utils/team_commands.py:304-306 | a team sharing four of five players with an earlier team is not avoided |
| TeamBalance.SwapChangesBoth | cogs/utils/team_commands.py:304-306 | that swap gives a team set-equal to neither earlier team |
| Register.TierRow | cogs/utils/register.py:20-31 | the table row by row: IRON…DIAMOND at 400 + 200·tier + 50·rank, the top three only at rank I (1800, 1900, 2000) |
| Register.ScoreRow | cogs/utils/register.py:21-27 | a lower tier's row holds IV, III, II, I at 50-point steps |
| Register.ScoreRowEntry | cogs/utils/register.py:21-27 | a row holds no other rank |
| Register.TierKeys | cogs/utils/register.py:20-31 | the table has exactly the ten tiers |
| Register.TierScoresIncrease | cogs/utils/register.py:20-31 | a higher tier, or a higher rank in the same tier, always scores strictly more |
| Register.AsciiUpper | cogs/utils/register.py:51 | `upper()` keeps the length and raises exactly the ASCII lower-case letters |
| Register.BaseScore | cogs/utils/register.py:51 | the upper-cased lookup, or 1000 for an unknown tier or rank |
| Register.GamesConfidence | cogs/utils/register.py:63 | `min(1, games/50)` lies in [0, 1] |
| Register.GamesConfidenceMonotone | cogs/utils/register.py:63 | the confidence is non-decreasing in games and is 1 from 50 games |
| Register.CalculateMmr | cogs/utils/register.py:49-66 | zero games returns the base; the result lies within base ± 100, and equals the base when wins = losses |
| Register.CombinationsSound | cogs/utils/register.py:92 | every combination is a subsequence of length 5 |
| Register.CombinationsComplete | cogs/utils/register.py:92 | every subsequence of length 5 is a combination |
| Register.CombinationsExact | cogs/utils/register.py:92 | the combinations are exactly the subsequences of length k |
| Register.CombinationsCount | cogs/utils/register.py:92 | there are C(n, k) of them |
| Register.TenChooseFive | cogs/utils/register.py:92 | C(10, 5) = 252: ten players give 252 candidate splits |
| Register.Complement | cogs/utils/register.py:93 | team 2 holds exactly the players not in team 1 |
| Register.CombinationMembers | cogs/utils/register.py:92-93 | a combination is made of players |
| Register.CombinationsDrawn | cogs/utils/register.py:92-93 | every candidate team 1 is made of players |
| Register.OptionsFor | cogs/utils/register.py:92-106 | one option per candidate team 1 |
| Register.ByDifferenceIsOrder | cogs/utils/register.py:109 | the sort key is a strict weak order |
| Register.SortedOptions | cogs/utils/register.py:109 | sorting keeps the options as a permutation |
| Register.SortedOptionsMembers | cogs/utils/register.py:109 | sorting keeps exactly the enumerated options |
| Register.SortedOptionsAscending | cogs/utils/register.py:109 | sorted options have non-decreasing differences |
| Register.OptionsExist | cogs/utils/register.py:71-113 | with at least five players there is an option, so `team_options[0]` exists |
| Register.MmrsOf | cogs/utils/register.py:75-87 | every player gets a rating |
| Register.PlayerMmrs | cogs/utils/register.py:75-87 | the loop builds the ratings dictionary |
| Register.EnumerateOptions | cogs/utils/register.py:89-106 | the loop over `itertools.combinations` builds `team_options` in order |
| Register.CheckDiverse | cogs/utils/register.py:121-126 | the inner loop's flag is exactly `IsDiverse` |
| Register.SelectDiverse | cogs/utils/register.py:112-129 | the selection loop computes the greedy selection from the best option |
| Register.Greedy | cogs/utils/register.py:116-129 | the selection keeps what was selected and adds at most the rest |
| Register.BalancedTeamsOf | cogs/utils/register.py:69-131 | success exactly for ten players, else the ten-players message; never more than `num_options` options |
| Register.FindBalancedTeams | cogs/utils/register.py:69-131 | the method computes `BalancedTeamsOf` |
| Register.GreedyShape | cogs/utils/register.py:116-131 | the selection extends what was selected, adds only options from the rest, and stops at `num_options` |
| Register.GreedyDiverse | cogs/utils/register.py:116-129 | every option added shares at most three players of team 1 with every earlier one |
| Register.GreedySorted | cogs/utils/register.py:109-129 | selecting from sorted options keeps differences non-decreasing |
| Register.GreedyFrom | cogs/utils/register.py:112-129 | a selected option is one of the sorted options |
| Register.GreedyFromSorted | cogs/utils/register.py:109-129 | the selection is sorted and pairwise diverse |
| Register.PrefixKeeps | cogs/utils/register.py:131 | the `[:num_options]` cut keeps both properties |
| Register.BalancedTeamsSelected | cogs/utils/register.py:131 | ten players give the first `num_options` of the selection |
| Register.SelectedAreOptions | cogs/utils/register.py:112-131 | a selected option is an enumerated option |
| Register.OptionsSplit | cogs/utils/register.py:92-93 | each option's team 1 is a combination of five and team 2 is its complement |
| Register.BalancedTeamsProperties | cogs/utils/register.py:71-131 | ten players always succeed, giving at most `num_options` options; each is a split of the players, the options run in non-decreasing difference, and each team 1 overlaps every earlier team 1 in at most three players |
| Register.BalancedTeamsBest | cogs/utils/register.py:92-113 | the first option has the minimal difference over all splits, and it is the first split of minimal difference in `itertools.combinations` order |
| Register.MirrorIsDiverse | cogs/utils/register.py:123 | diversity looks at team 1 only, so the mirror of a split counts as diverse |
| Register.Names | cogs/utils/register.py:211-212 | one name per comma-separated piece |
| Register.Unregistered | cogs/utils/register.py:219-222 | exactly the given names missing from the file |
| Register.Tally | cogs/utils/register.py:232-236 | the increments keep the file's keys |
| Register.TallyEffect | cogs/utils/register.py:232-236 | each name gains one win (or loss) per occurrence; tier, rank and id are unchanged |
| Register.RecordMatchOf | cogs/utils/register.py:205-236 | the file keeps its keys, and is unchanged unless the match is recorded |
| Register.RecordMatchEffect | cogs/utils/register.py:214-236 | exactly one outcome holds: a wrong team size when either side has not five names; otherwise the unregistered names, listed in order, when any is missing; otherwise recorded. Only a recorded match changes the file: it keeps the keys, and each player gains one win per listing among the winners and one loss per listing among the losers, with tier, rank and id unchanged |
| Register.RegisterEffect | cogs/utils/register.py:162-191 | Rejections: a top tier with a rank other than I, or an invalid tier or rank, leaves the file unchanged. An existing name keeps its record apart from tier and rank; a new name starts at 0/0. The reported mmr is `calculate_mmr` of the stored record |
| Register.RegisterOf | cogs/utils/register.py:158-197 | registered exactly for an allowed, known tier and rank, adding the name to the file's keys and reporting whether it was an update; a refusal leaves the file unchanged |
| Register.Ledger.RecordMatch | cogs/utils/register.py:209-236 | the in-place command leaves the outcome and file of `RecordMatchOf` |
| Register.Ledger.FindUnregistered | cogs/utils/register.py:219-222 | the loop collects `Unregistered` |
| Register.Ledger.Credit | cogs/utils/register.py:232-236 | the increment loop computes `Tally` |
| Register.Ledger.RegisterPlayer | cogs/utils/register.py:162-191 | the in-place command leaves the outcome and file of `RegisterOf` |
| RegisterCommands.TableRow | cogs/utils/register_commands.py:20-31 | the Korean table row by row, as for the English one |
| RegisterCommands.RankRow | cogs/utils/register_commands.py:21-27 | a lower tier's row holds "4" to "1" at 50-point steps |
| RegisterCommands.RankRowEntry | cogs/utils/register_commands.py:21-27 | a row holds no other rank |
| RegisterCommands.TableKeys | cogs/utils/register_commands.py:20-31 | the table has exactly the ten tiers |
| RegisterCommands.TableIncreases | cogs/utils/register_commands.py:20-31 | a higher tier, or rank "1" over "2" over "3" over "4" in a tier, always rates strictly more |
| RegisterCommands.SameScoresAsRegister | cogs/utils/register_commands.py:20-31 | the Korean table has the same ranks and scores as `TIER_SCORES`, tier for tier |
| RegisterCommands.CalculateMmr | cogs/utils/register_commands.py:34-41 | the table entry for a present pair, otherwise 400; `/수정` uses the same lookup and default (cogs/utils/modify_commands.py:34-41) |
| RegisterCommands.CalculateMmrBounds | cogs/utils/register_commands.py:34-41 | every result lies in [400, 2000], and the default is the rating of 아이언 4 |
| RegisterCommands.RegisterDecision | cogs/utils/register_commands.py:81-132 | a top tier needs rank "1"; then a taken name is refused with its stored record; otherwise the new record has the given fields, no games, and the table rating in [400, 2000] |
| RegisterCommands.RegisterDecisionCases | cogs/utils/register_commands.py:81-132 | Rejections, in order: a top tier with a rank other than "1", then an existing name, which shows the stored record. Otherwise the new record has the table rating and no games; each case is an if-and-only-if |
| RegisterCommands.RegisterKeepsTableRated | cogs/utils/register_commands.py:120-132 | a registration keeps every stored player table-rated |
| RegisterCommands.RegisterCommand | cogs/utils/register_commands.py:81-132 | the store changes only on a registration, by that one record appended in order |
| ModifyCommands.FinalValue | cogs/utils/modify_commands.py:103-104 | the supplied value when truthy, else the existing one |
| ModifyCommands.Passed | cogs/utils/modify_commands.py:119-133 | a field enters the update exactly when truthy |
| ModifyCommands.ChangeLine | cogs/utils/modify_commands.py:120-139 | a change line starts with the field name and ends with the new value |
| ModifyCommands.UpdateFor | cogs/utils/modify_commands.py:115-140 | the update rates the record anew exactly when tier or rank is passed, and, for an allowed final tier and rank, applying it gives the modified record |
| ModifyCommands.ChangesFor | cogs/utils/modify_commands.py:115-139 | no change line exactly when no option is truthy; the tier line comes first, and the MMR line last whenever tier or rank is passed |
| ModifyCommands.ModifyDecision | cogs/utils/modify_commands.py:81-140 | an unknown name exactly when the name is not stored; a disallowed rank exactly for a stored name with a truthy option whose final tier and rank are not allowed, reporting the final tier; a modification lists some change and rates anew exactly when tier or rank is passed |
| ModifyCommands.ModifyDecisionCases | cogs/utils/modify_commands.py:81-140 | Rejections: an unknown name, no truthy option, or a disallowed final tier and rank. Otherwise the new record takes the passed fields and keeps wins, losses and games; mmr is recomputed from the final tier and rank exactly when tier or rank was passed |
| ModifyCommands.ChangesCount | cogs/utils/modify_commands.py:117-139 | one change line per passed field, plus one for mmr |
| ModifyCommands.ModifyKeepsTableRated | cogs/utils/modify_commands.py:103-140 | a modification keeps every stored player table-rated |
| ModifyCommands.BuildUpdate | cogs/utils/modify_commands.py:116-140 | the sequential inserts build the update and the change list |
| ModifyCommands.ModifyCommand | cogs/utils/modify_commands.py:81-144 | only that one record changes, and only on a modification |
| DataStore.ApplyUpdate | cogs/utils/data_manager.py:118 | exactly the passed keys are overwritten |
| DataStore.RecordGame | cogs/utils/data_manager.py:139-144 | a win or a loss plus one game, nothing else; total = wins + losses is preserved |
| DataStore.CreditAllEffect | cogs/utils/data_manager.py:211-215 | crediting a list keeps the keys and gives each player one game per occurrence |
| DataStore.CreditAllConsistent | cogs/utils/data_manager.py:139-147 | crediting keeps every record consistent |
| DataStore.Pad3 | cogs/utils/data_manager.py:190 | at least three digits |
| DataStore.MatchIdNumber | cogs/utils/data_manager.py:190 | an id is "match_" then digits that read back as the count |
| DataStore.MatchId | cogs/utils/data_manager.py:190 | an id is "match_" followed by at least three digits |
| DataStore.MatchIdInjective | cogs/utils/data_manager.py:190-195 | different counts give different ids |
| DataStore.IdsBound | cogs/utils/data_manager.py:193-195 | the id loop ends, because each skipped count's id is a stored key |
| DataStore.UserMatchesExact | cogs/utils/data_manager.py:219-230 | a view is listed exactly when it copies a stored match that lists the player, tagged with its id |
| DataStore.UserMatchesOrdered | cogs/utils/data_manager.py:224-230 | each match is listed at most once |
| DataStore.UserMatchesOf | cogs/utils/data_manager.py:219-230 | no more views than matches; each lists the player and carries no `result` |
| DataStore.DescendingIsOrder | cogs/utils/data_manager.py:277 | the sort key is a strict weak order |
| DataStore.RowsOf | cogs/utils/data_manager.py:261-273 | one row per player in insertion order |
| DataStore.LeaderboardOf | cogs/utils/data_manager.py:249-279 | one row per player, each holding a stored player's record |
| DataStore.LeaderboardSorted | cogs/utils/data_manager.py:249-279 | The leaderboard is a permutation of the rows. For mmr, wins, total_games and winrate it is non-increasing in that key; for any other key it is insertion order |
| DataStore.LeaderboardTiesKeepOrder | cogs/utils/data_manager.py:276-277 | players tied on the sort key keep their insertion order |
| DataStore.WinratePercent | cogs/utils/data_manager.py:155 | a win rate percentage lies in [0, 100] |
| DataStore.LaterFirstIsOrder | cogs/utils/data_manager.py:237 | reverse string order is a strict weak order |
| DataStore.LatestShape | cogs/utils/data_manager.py:237-240 | the kept ids strictly decrease and there are min(limit, count) of them; every id left out is smaller than every kept id |
| DataStore.LatestStored | cogs/utils/data_manager.py:240 | every kept id is a stored id |
| DataStore.Latest | cogs/utils/data_manager.py:237-240 | no more ids than matches, each a stored id |
| DataStore.RecentMatchesOf | cogs/utils/data_manager.py:232-245 | one copy per kept id, in order, tagged with its id |
| DataStore.AddMatchCredits | cogs/utils/data_manager.py:207-215 | each registered player gains one win per listing on the winning side and one loss per listing on the losing side; nothing else changes |
| DataStore.DataManager.GetUser | cogs/utils/data_manager.py:60-63 | the record, exactly when the name is stored |
| DataStore.DataManager.AddUser | cogs/utils/data_manager.py:69-101 | a new name gets the given fields, no games and mmr 1500 by default; an existing name is refused and nothing changes |
| DataStore.DataManager.UpdateUser | cogs/utils/data_manager.py:103-120 | only the passed fields of that one record change; an unknown name is refused |
| DataStore.DataManager.DeleteUser | cogs/utils/data_manager.py:122-129 | only that key is removed; an unknown name is refused |
| DataStore.DataManager.UpdateUserStats | cogs/utils/data_manager.py:131-147 | one more game, won or lost, for a registered player; others unchanged |
| DataStore.DataManager.GetUserWinrate | cogs/utils/data_manager.py:149-155 | `None` exactly for an unknown player or one without games, otherwise wins/total × 100 in [0, 100] |
| DataStore.DataManager.NextMatchId | cogs/utils/data_manager.py:188-195 | the first unused `match_NNN` counting from the number of matches plus one |
| DataStore.DataManager.CreditTeam | cogs/utils/data_manager.py:211-215 | the update loop computes `CreditAll` |
| DataStore.DataManager.AddMatch | cogs/utils/data_manager.py:168-217 | the match is stored under a fresh id and the count grows by one; winners gain a win and losers a loss |
| DataStore.DataManager.GetUserMatches | cogs/utils/data_manager.py:219-230 | the loop computes `UserMatchesOf` |
| DataStore.DataManager.GetRecentMatches | cogs/utils/data_manager.py:232-245 | the loop computes `RecentMatchesOf` |
| DataStore.DataManager.GetLeaderboard | cogs/utils/data_manager.py:249-279 | the method computes `LeaderboardOf` |
| Statistics.UserTeam | cogs/utils/statistics_commands.py:33-38 | the player's side is blue when listed there, red otherwise |
| Statistics.GamesWith | cogs/utils/statistics_commands.py:27-45 | the player is never their own teammate, and a teammate with games shares the player's side in some match |
| Statistics.WinsWith | cogs/utils/statistics_commands.py:27-45 | the player is never their own teammate, and a teammate with wins shares the player's side in some match the player won |
| Statistics.TeammateOrder | cogs/utils/statistics_commands.py:41-43 | the teammates are distinct and never the player |
| Statistics.CountTeam | cogs/utils/statistics_commands.py:41-45 | the inner loop adds one game per listing other than the player, and one win when the player's side won |
| Statistics.ViewStep | cogs/utils/statistics_commands.py:27-45 | one more match adds its listings on the player's side |
| Statistics.StatsOf | cogs/utils/statistics_commands.py:48-51 | the final loop writes each teammate's games, wins and win rate |
| Statistics.CalculateTeammateStats | cogs/utils/statistics_commands.py:20-53 | each teammate's entry counts the games and wins with the player over the player's matches |
| Statistics.TeammateOrderMembers | cogs/utils/statistics_commands.py:41-43 | the teammates are exactly the names with a game, once each, and never the player |
| Statistics.AbsorbMembers | cogs/utils/statistics_commands.py:41-43 | one match adds exactly its new names other than the player |
| Statistics.WinsAtMostGames | cogs/utils/statistics_commands.py:41-45 | a teammate's wins never exceed their games |
| Statistics.GamesAtMostMatches | cogs/utils/statistics_commands.py:41-45 | a teammate's games never exceed the player's matches |
| Statistics.AlwaysWonTogether | cogs/utils/statistics_commands.py:35-45 | when the player won every match, wins equal games for every teammate |
| Statistics.Winrate | cogs/utils/statistics_commands.py:51 | the win rate lies in [0, 100] |
| Statistics.EligibleTeammates | cogs/utils/statistics_commands.py:58-61 | exactly the teammates with at least `min_games` games |
| Statistics.FirstMax | cogs/utils/statistics_commands.py:67 | `max` returns the first name of highest win rate |
| Statistics.FirstMin | cogs/utils/statistics_commands.py:70 | `min` returns the first name of lowest win rate |
| Statistics.BestWorstTeammates | cogs/utils/statistics_commands.py:56-72 | (None, None) exactly when no teammate is eligible; otherwise both picks are eligible items of the dictionary |
| Statistics.BestWorstExtremes | cogs/utils/statistics_commands.py:63-72 | every eligible teammate's win rate lies between the worst's and the best's |
| Statistics.BalancedCount | cogs/utils/statistics_commands.py:86-98 | at most one per match |
| Statistics.BalancedStep | cogs/utils/statistics_commands.py:86-98 | one more match counts when it is balanced |
| Statistics.ReliabilityBounds | cogs/utils/statistics_commands.py:79-105 | under ten matches the result is (0.0, 50 − count); otherwise the reliability is in [0, 100] and games needed is max(0, 50 − total) |
| Statistics.ReliabilityOf | cogs/utils/statistics_commands.py:75-105 | games needed is 50 minus the count below 50 matches and 0 from 50; under ten matches the reliability is 0.0; otherwise it lies in [0, 100] |
| Statistics.TeamFormationReliability | cogs/utils/statistics_commands.py:75-105 | the loop computes `ReliabilityOf` |
| MatchResult.CloseBold | cogs/utils/match_result_commands.py:86 | the lazy capture ends at a `**` |
| MatchResult.FindBold | cogs/utils/match_result_commands.py:86 | no capture spans a newline, and each capture uses at least four characters of the text |
| MatchResult.FindBoldSkips | cogs/utils/match_result_commands.py:86 | away from a `*` the scan moves on by one character |
| MatchResult.SkipPlain | cogs/utils/match_result_commands.py:86 | text without `*` captures nothing |
| MatchResult.CloseAfterName | cogs/utils/match_result_commands.py:86 | the first `**` after a plain name closes it |
| MatchResult.BoldFirst | cogs/utils/match_result_commands.py:86 | bold text at the start is the first capture |
| MatchResult.BoldThenRest | cogs/utils/match_result_commands.py:86 | bold text after plain text is the next capture, then scanning resumes after it |
| MatchResult.LeadingSpaces | cogs/utils/match_result_commands.py:91 | the greedy `\s*` takes no more than the text |
| MatchResult.CloseParen | cogs/utils/match_result_commands.py:91 | the lazy `.*?\)` ends just after a `)` |
| MatchResult.MmrMatch | cogs/utils/match_result_commands.py:91 | a match is non-empty and within the text |
| MatchResult.RemoveMmr | cogs/utils/match_result_commands.py:91 | the substitution never lengthens the text |
| MatchResult.RemoveMmrKeeps | cogs/utils/match_result_commands.py:91 | a name without `(MMR:` ending in a non-space passes through the substitution unchanged |
| MatchResult.RemoveMmrCopies | cogs/utils/match_result_commands.py:91 | where no match starts, the first character is copied |
| MatchResult.NoMmrMatch | cogs/utils/match_result_commands.py:91 | no match starts inside a non-empty name without `(MMR:` ending in a non-space |
| MatchResult.MmrSuffixRemoved | cogs/utils/match_result_commands.py:91 | " (MMR: n)" is removed entirely |
| MatchResult.MmrInsideBold | cogs/utils/match_result_commands.py:91 | a rating written inside the bold text is cleaned away, leaving the name |
| MatchResult.CleanNameKeeps | cogs/utils/match_result_commands.py:91-93 | a stripped, non-empty name without `*`, newline or `(MMR:` is cleaned to itself |
| MatchResult.CleanNames | cogs/utils/match_result_commands.py:88-93 | no kept name is empty, and at most one per capture |
| MatchResult.CleanNamesStep | cogs/utils/match_result_commands.py:89-93 | one more capture appends its cleaned form when non-empty |
| MatchResult.CleanNamesStripped | cogs/utils/match_result_commands.py:91-93 | every kept name is non-empty and already stripped |
| MatchResult.CleanNamesKeep | cogs/utils/match_result_commands.py:88-93 | names needing no cleaning are all kept as they are |
| MatchResult.PlayerNamesOf | cogs/utils/match_result_commands.py:76-97 | every name returned is non-empty and stripped, and there are no more names than captures |
| MatchResult.ExtractPlayerNames | cogs/utils/match_result_commands.py:76-97 | the loop computes `PlayerNamesOf` |
| MatchResult.FieldValueBold | cogs/utils/match_result_commands.py:80-86 | the captures of a team field are its players, in order |
| MatchResult.FieldLine | cogs/utils/team_commands.py:344-346 | a line of a well-formed name captures exactly that name |
| MatchResult.FieldRoundTrip | cogs/utils/match_result_commands.py:80-97 | reading back a field of "pos: **name** (MMR: n)" or "**name** (MMR: n)" lines gives exactly its names in order, for every stripped non-empty name without `*`, newline or `(MMR:` |
| MatchResult.TeamsOf | cogs/utils/match_result_commands.py:67-70 | a result has five names per side |
| MatchResult.LastHit | cogs/utils/match_result_commands.py:61-65 | the last field naming the side, or none when no field does |
| MatchResult.SideOf | cogs/utils/match_result_commands.py:61-65 | a side's team is read from the last field naming it, and is empty when none does |
| MatchResult.ParseTeamFromEmbed | cogs/utils/match_result_commands.py:50-70 | the loop over the fields computes `TeamsOf` |
| MatchResult.SideOfLater | cogs/utils/match_result_commands.py:61-65 | a later field of a side overwrites it; a field of the other side leaves it |
| MatchResult.BothMarkersMeanBlue | cogs/utils/match_result_commands.py:62-65 | a field naming both sides sets only blue, since the blue test is first |
| MatchResult.FieldNamesClassified | cogs/utils/match_result_commands.py:62-64 | the field names the embed writes are classified as their side |
| MatchResult.FormationRoundTrip | cogs/utils/match_result_commands.py:61-70 | a five-against-five formation embed reads back as the same two teams, for names as in `FieldRoundTrip` |
| MatchResult.FormationType | cogs/utils/match_result_commands.py:100-111 | one of the four labels, and "알 수 없는 방식" exactly when the title holds none of "MMR", "대안" and "다양성" |
| MatchResult.FormationTypeByWords | cogs/utils/match_result_commands.py:104-111 | the classifier's priority: both words, then MMR only, then the alternative words, otherwise unknown |
| MatchResult.ShortNamesShape | cogs/utils/match_result_commands.py:116-117 | up to three names are shown in full; past three only the first three show, then "...", whatever follows |
| MatchResult.ShortNames | cogs/utils/match_result_commands.py:116-117 | up to three names are joined in full; more end in "..." |
| MatchResult.TeamDisplay | cogs/utils/match_result_commands.py:114-118 | the line starts with "🔵 " and the shortened blue names, and ends with " vs 🔴 " and the shortened red names |
| MatchResult.WinnerOf | cogs/utils/match_result_commands.py:128 | the winner is "blue" or "red" |
| MatchResult.WinnerIsBlueIff | cogs/utils/match_result_commands.py:128 | blue wins exactly when its result is "승" |
| Text.Strip | cogs/utils/match_result_commands.py:91 | `strip()` leaves no whitespace at either end, and is empty exactly for an all-whitespace string |
| Text.Split | cogs/utils/register.py:211 | `split(',')` gives at least one piece, none holding a comma, and joining the pieces with commas gives back the text |
| Text.ZeroPad | cogs/utils/data_manager.py:190 | `:03d` padding puts only zeros before the digits and reaches the width |
| Sequences.SortBy | cogs/utils/register.py:109 | Python's `sorted` gives an ordered permutation of its input; `SortByStable` proves it stable |
| Sequences.TiedWith | cogs/utils/register.py:109 | the elements tied with a given one, in order: all drawn from the sequence and tied with it |
| Sequences.InsertTies | cogs/utils/register.py:109 | inserting an element tied with `x` into a sorted sequence puts it ahead of the elements already tied with `x`; inserting any other element leaves them as they were |
| Sequences.SortByStable | cogs/utils/register.py:109 | sorting keeps every group of tied elements in its input order |
| Sequences.FirstTied | cogs/utils/register.py:109 | the first tied element is the first element of the sequence tied with the given one |
| Sequences.SortByFirst | cogs/utils/register.py:109-113 | the head of the sorted sequence is an input element that strictly precedes every element before it in the input |
| Sequences.PyTake | cogs/utils/register.py:131 | the slice `[:n]` is the prefix of length min(n, length), counting from the end for a negative n |
| Sequences.SortedUnique | cogs/utils/team_commands.py:285 | under a total order, two sorted arrangements of the same multiset are equal, so `tuple(sorted(team))` depends only on the players |

## Left out

- The Discord transport is left out. That covers slash commands, embeds, views, selects, autocomplete, logging and reply texts beyond the error messages the decisions name. Only the decision logic is modelled.
- JSON file I/O (`_load_json`, `_save_json`, `load_data`, `save_data`) and the fallback to `{}` are replaced by in-memory maps. For the same reason `get_all_users`, `get_all_matches`, `get_match`, `user_exists`, `get_match_count` and `get_user_count` are plain reads of those maps.
- `datetime.now()` defaults are left out. The date of a match is a parameter, and the store always records one, so the `match.get('date', …)` fallback of the recent-form rating never applies.
- Several `.get` defaults are left out: `match.get('blue_team', [])` and its siblings in the statistics, and `data.get("tier", "GOLD")` and its siblings in `find_balanced_teams`. The modelled records always hold those keys.
- `win_probability` (a `math.exp` float) and `balance_score` are left out. Consequently `TeamOption` has no probability field.
- Randomness: only the outcome set of `random.sample` and `random.shuffle` is modelled, not their distribution.
- Option 2's pre-sort of the players by adjusted rating is left out. The shuffle that follows is an arbitrary permutation, so the sort cannot change which splits are possible.
- `get_recent_team_formations` is left out because it reads channel history asynchronously. The parsing of each embed is modelled.
- The `try`/`except` branches that print and return `None` or `[]` are left out. No modelled input raises there.
- `create_team_embed` is modelled only as the team field lines it writes (cogs/utils/team_commands.py:344-346), which `MatchResult.FieldLine` mirrors. Its thresholds and descriptions (cogs/utils/team_commands.py:388-399) are left out.
- Register.AsciiUpper: upper-cases ASCII letters only, where Python's `upper()` also maps other scripts' lower-case letters.
- MatchResult.FieldRoundTrip: it excludes names containing `(MMR:`. Such a name would still read back when no `)` follows it inside the bold text.
- MatchResult.FormationRoundTrip: it excludes names containing `(MMR:`, for the same reason as `FieldRoundTrip`.
- Statistics.GamesAtMostMatches: it requires that no side lists a name twice. With a repeated name the code counts that teammate twice in one match.
- TeamBalance.BalanceOption1: it promises ten distinct players only when no candidate list repeats a name (`TeamBalance.ListsDistinct` gives this for distinct players). With a name given twice, `random.sample` can place it on both sides.
- The `check_registration_command`, `match_result_command`, `statistics_command` and embed views are left out. They are Discord handlers around the modelled helpers.
