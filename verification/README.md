# California redistricting ensembles: statistics, Cal 3 aggregation, seats and regions

This project models, in Dafny, the deterministic part of `src/make_ensembles.py`, the script that
samples redistricting plans of California with a ReCom Markov chain and compares the state against
the "Cal 3" proposal (NorCal, Cal, SoCal). The chain itself is run by the gerrychain library, which
is not part of this model: here the chain is an input sequence of plans, each plan being its set of
cut edges and its per-district tallies indexed by district label.

What is modelled:

- **The two walks** (`DemographicWalk`, `VotingWalk`). For every plan in chain order the walk appends
  the cut-edge count and either the number of districts with a strict Hispanic or Latino majority
  (tract-level run) or the number of Republican seats and the efficiency gap (precinct-level run).
  Each walk is two methods: `Walk` loops over the chain and, for each plan, calls `PlanStatistics`,
  which loops over the districts; both are proved against prefix-recursive specification functions. The
  walk aborts on the first missing district tally (KeyError) or division by zero (ZeroDivisionError);
  this is modelled as a `Result` whose error is the first fault in chain and label order.
- **The ratio test** `x / t > 0.5` is evaluated over exact reals and proved equal to `2 * x > t`, so
  an exact half never counts.
- **Wasted votes**: a Republican win wastes `rep - tot/2` Republican votes and all Democratic votes, a
  Democratic win the reverse; a district where neither party has more than half wastes nothing but
  its votes still enter the plan total, which is the sum of every district's votes. The gap is
  `(wasted_democrat - wasted_republican) / total`, positive exactly when Democrats waste more votes (it favours Republicans).
- **Cal 3 aggregation** (`Cal3`): `zip`-and-sum of the three regional ensembles, truncated to the
  shortest one. Every entry of the summed majority and seat ensembles is the count of that step's
  merged plan. Summed efficiency gaps are not the merged plan's gap: the merged plan's gap is the vote-weighted mean of the regional gaps, and
  `SummedGapIsNotMergedGap` gives three regions with gap 0.3 whose Cal 3 entry is 0.9 (see Findings).
  The summed cut-edge counts leave out the edges between regions.
- **Seat apportionment** (`Apportionment`): `round(52 * pop / total)` with Python's half-to-even
  rounding, the precinct-level run's `+1` for Cal, the check that the seats add up to 52, and ideal
  populations `total / seats`. When the regions split the state, the rounded counts always add up to
  51, 52 or 53, so the check can fail by one seat either way.
- **Region split** (`Regions`): the literal Cal and SoCal county code sets, NorCal as every other code
  in the data, and regional totals that add up to the state total.

The code truncates the Cal 3 sums to the shortest regional ensemble (`zip`); it does not require the
regional chains to have equal length. Since every walk returns one entry per plan, chains of equal
length give Cal 3 ensembles of that same length.

## Model

| member | source | states |
|---|---|---|
| `Tallies.ExceedsHalfIff` | src/make_ensembles.py:282 | the ratio test `part / whole > 0.5` holds iff `2 * part > whole`; an exact half is not a majority |
| `Tallies.ExceedsHalf` | src/make_ensembles.py:282 | the share test itself; its meaning as an integer comparison is `Tallies.ExceedsHalfIff` |
| `Tallies.FirstFault` | src/make_ensembles.py:280-283 | reading districts 0..n-1 raises nothing iff every label has its tallies and a nonzero total (shared by both walks; lines 698-706 for the voting walk) |
| `Tallies.FirstFaultIsLowest` | src/make_ensembles.py:280-283 | a fault met is that of the lowest faulting label, `MissingDistrict(i)` carrying that label, and every label below it reads cleanly |
| `Tallies.FaultPersists` | src/make_ensembles.py:280-283 | once a district raises, the plan's fault is that first fault however many districts follow |
| `DemographicWalk.MajorityCount` | src/make_ensembles.py:279-285 | the majority count of K districts lies in [0, K] |
| `DemographicWalk.MajorityCountCounts` | src/make_ensembles.py:279-285 | the count is exactly the number of labels i with `2 * hisp[i] > tot[i]` |
| `DemographicWalk.MajorityAtTie` | src/make_ensembles.py:282 | a district of 51 of 100 counts once, a district of 50 of 100 counts zero times |
| `DemographicWalk.MajorityCountAdditive` | src/make_ensembles.py:341-350 | counting two disjoint groups of districts one after the other adds their counts |
| `DemographicWalk.PlanMajorityCount` | src/make_ensembles.py:279-285 | the statistic recorded for a plan with K districts is at most K |
| `DemographicWalk.PlanStatistics` | src/make_ensembles.py:279-285 | the per-plan loop returns the plan's majority count, or the first district fault when some tally is missing or zero |
| `DemographicWalk.Walk` | src/make_ensembles.py:275-286 | one cut-edge count and one majority count per plan, in chain order, equal lengths (the majority ensemble `Cal3.Cal3MajorityEnsemble` sums); fails iff some plan faults, with the first faulting plan's error |
| `VotingWalk.Contest` | src/make_ensembles.py:705-716 | one district's contribution, with "more than half" as the integer comparison: wasted votes are never negative; `VotingWalk.ContestCases` shows it takes the branches the source's ratio tests take |
| `VotingWalk.Tally` | src/make_ensembles.py:692-718 | the seat count of K districts is at most K; the plan's vote total is zero iff it has no district |
| `VotingWalk.Gap` | src/make_ensembles.py:720-721 | the efficiency gap is positive iff Democrats waste more votes, zero iff both waste the same |
| `VotingWalk.PlanFault` | src/make_ensembles.py:698-721 | a plan's statistics raise nothing iff all K tallies are readable and nonzero and K > 0 (the plan total divides) |
| `VotingWalk.ContestCases` | src/make_ensembles.py:701-716 | in terms of the ratio tests `x / tot > 0.5`: Republican seat iff their share exceeds half; then wasted R = rep - tot/2 and wasted D = dem; else a Democratic majority wastes R = rep and D = dem - tot/2; otherwise nothing is wasted; never both parties credited |
| `VotingWalk.ContestExamples` | src/make_ensembles.py:705-716 | R=60, D=40, T=100 wastes 10 and 40 and wins the seat; the mirror case wastes 40 and 10; a 50/50 split wastes nothing |
| `VotingWalk.ContestWastedBound` | src/make_ensembles.py:705-716 | when rep + dem <= tot, wasted votes are nonnegative and their difference is within half the district's votes |
| `VotingWalk.TallyVotes` | src/make_ensembles.py:698-718 | the plan's vote total is the sum of the votes of all its districts, including those where neither party has more than half |
| `VotingWalk.SeatsCount` | src/make_ensembles.py:706-708 | the seat count is exactly the number of districts with `2 * rep > tot` |
| `VotingWalk.TallyWastedBound` | src/make_ensembles.py:698-718 | the plan's wasted-vote difference is within half its votes cast |
| `VotingWalk.GapWithinHalf` | src/make_ensembles.py:721 | a wasted-vote difference within half the votes gives a gap in [-1/2, 1/2] |
| `VotingWalk.EfficiencyGapBound` | src/make_ensembles.py:720-721 | the efficiency gap of a plan whose districts have rep + dem <= tot lies in [-1/2, 1/2] |
| `VotingWalk.TallyAdditive` | src/make_ensembles.py:781-801 | seats, wasted votes and votes of two disjoint district groups add up |
| `VotingWalk.PlanStatistics` | src/make_ensembles.py:692-721 | the per-plan loop, branching on the source's ratio tests, returns the seat count and gap of the integer-comparison tally, or the plan's first fault |
| `VotingWalk.Walk` | src/make_ensembles.py:687-726 | one cut-edge count, seat count and gap per plan, in chain order, equal lengths (the seat ensemble `Cal3.Cal3SeatEnsemble` sums); fails iff some plan faults, with the first faulting plan's error |
| `Cal3.Zip3Sum` | src/make_ensembles.py:330-350 | entry j is `norcal[j] + cal[j] + socal[j]`; the length is the shortest input's |
| `Cal3.MergedMajorityCount` | src/make_ensembles.py:341-350 | the summed majority count of one step is the majority count of the merged plan |
| `Cal3.Cal3MajorityEnsemble` | src/make_ensembles.py:341-350 | every Cal 3 majority entry is the merged plan's count; the ensemble is as long as the shortest chain |
| `Cal3.Cal3SeatEnsemble` | src/make_ensembles.py:781-790 | every Cal 3 Republican seat entry is the merged plan's seat count; the ensemble is as long as the shortest chain |
| `Cal3.MergedTally` | src/make_ensembles.py:781-790 | seats, wasted votes and votes of the merged plan are the regional sums |
| `Cal3.MergedGapIsWeightedMean` | src/make_ensembles.py:792-801 | the merged plan's gap times its votes is the sum of regional gaps times their votes |
| `Cal3.SummedGapIsNotMergedGap` | src/make_ensembles.py:792-801 | three regions of gap 0.3 give a Cal 3 entry of 0.9 while the merged plan's gap is 0.3 |
| `Cal3.MergedGapBetweenRegionalGaps` | src/make_ensembles.py:792-801 | the merged plan's gap lies between the smallest and the largest regional gap, so within [-1/2, 1/2] when they are |
| `Apportionment.RoundHalfEven` | src/make_ensembles.py:148 | the result is within 1/2 of x, and even when exactly 1/2 away |
| `Apportionment.RoundHalfEvenUnique` | src/make_ensembles.py:148 | only one integer has those two properties |
| `Apportionment.Seats` | src/make_ensembles.py:147-150 | a region's rounded share of 52 seats lies in [0, 52] |
| `Apportionment.Ideal` | src/make_ensembles.py:156-162 | the ideal population times the seat count is the total |
| `Apportionment.Setup` | src/make_ensembles.py:531-569 | with Cal's increment 1 the precinct-level set-up, with increment 0 the tract-level one of lines 144-162: zero state total raises; the seat check raises iff the rounded seats plus Cal's increment do not add to 52; otherwise seats add to 52 and each ideal is total / seats (a zero seat count raises) |
| `Apportionment.RoundedSeatsNear52` | src/make_ensembles.py:147-153 | when the regions split the state, the rounded seats add up to 51, 52 or 53 |
| `Apportionment.SeatCheckExample` | src/make_ensembles.py:538-560 | totals 92, 77, 91 of 260 round to 18, 15, 18 and raise without the increment; with it Cal has 16 and the set-up succeeds |
| `Regions.NorCalFips` | src/make_ensembles.py:97-102 | NorCal is every county code of the data in neither literal set; its partition property is `Regions.SplitPartitionsCodes` |
| `Regions.LiteralSets` | src/make_ensembles.py:92-94 | Cal has 6 codes, SoCal 11 (12 with Kings), and Cal shares none with SoCal |
| `Regions.SplitPartitionsCodes` | src/make_ensembles.py:97-102 | NorCal, Cal and SoCal are pairwise disjoint and hold every county code of the data |
| `Regions.KingsCountyInNorCal` | src/make_ensembles.py:93-94 | as written, a Kings County unit ("031") falls in NorCal |
| `Regions.IntendedSplitPlacesKingsInSoCal` | src/make_ensembles.py:93 | with Kings in SoCal the split still partitions the codes and Kings is not in NorCal |
| `Regions.Total` | src/make_ensembles.py:134-141 | the state population; the regional totals add up to it (`Regions.RegionTotalsAddUp`) |
| `Regions.RegionTotal` | src/make_ensembles.py:134-141 | a region's total is at most the state's |
| `Regions.RegionTotalsAddUp` | src/make_ensembles.py:134-141 | the NorCal, Cal and SoCal totals add up to the state total |
| `Regions.SplitSeatsNear52` | src/make_ensembles.py:134-153 | for the derived split, the rounded regional seats add up to 51, 52 or 53 |

## Left out

- gerrychain (`recursive_tree_part`, `recom`, `MarkovChain`, `Partition`, the `Tally` and `cut_edges` updaters, `within_percent_of_ideal_population`, `always_accept`): foreign code whose source is not part of this model; the chain is an input sequence of plans with their tallies and cut edges.
- `__random_partitions` (initial plans) and `random.seed`: randomness and calls into gerrychain.
- Reading shapefiles and CSV files, pandas merges and renames, the precinct county code `pct16[:3]`, geometry repair with `buffer(0)`, building the dual graph and its regional subgraphs (the subgraph node filter appears only as `Regions.RegionTotal`), and all pickle loading and dumping: file and data I/O.
- The Cal 3 cut-edge entry is the sum of the regional cut-edge counts, as in the code; the edges between two regions, which a plan of the whole state would also cut, lie in no regional graph, and the model does not relate the entry to the cut edges of a statewide plan.
- Printing and timing, including the percentages printed at the end of each run.
- src/plot_ensembles.py: it only loads pickles and draws histograms.
- Tally dictionaries are modelled as sequences indexed by district label 0..K-1, the labels the initial partitions use; a tally keyed otherwise is not modelled.
- `Apportionment.Seats`: computes the share over exact reals; IEEE rounding of the float share before `round` is not modelled.
- `VotingWalk.Gap`: wasted votes, `tot / 2` and the gap are exact reals; floating-point rounding of the sums is not modelled.
- Populations and vote counts are unbounded naturals, as Python integers are.

## Findings

| source | as written | input that shows it | evidently intended | confidence | as-written member | corrected member |
|---|---|---|---|---|---|---|
| src/make_ensembles.py:93-94 | the SoCal literal holds 11 codes; Kings County ("031"), named in the comment above it, is missing (the same literal reappears at lines 472-473) | a unit with county code "031" is placed in NorCal | SoCal holds the twelve counties the comment names, Kings included | medium, not executed | `Regions.KingsCountyInNorCal` | `Regions.IntendedSplitPlacesKingsInSoCal` |
| src/make_ensembles.py:792-801 | the Cal 3 efficiency gap of a step is the sum of the three regional gaps, and src/plot_ensembles.py:173-189 plots it on one histogram against California's gap | three one-district regions with 60 Republican and 40 Democratic votes of 100 each have gap 0.3; their Cal 3 entry is 0.9, outside the [-1/2, 1/2] range of any plan's gap | the gap of the merged plan, the vote-weighted mean of the regional gaps (0.3 here) | medium, not executed | `Cal3.SummedGapIsNotMergedGap` | `Cal3.MergedGapBetweenRegionalGaps` |

The region lemmas (`SplitPartitionsCodes`, `RegionTotalsAddUp`, `SplitSeatsNear52`) take the Cal and SoCal sets as parameters, so they hold for the intended set as for the literal one.
