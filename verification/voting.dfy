/** The precinct-level walk of make_voting_ensembles: for every plan the chain
    yields, record its number of cut edges, the number of districts won by
    Republicans and the wasted-vote efficiency gap. */
module VotingWalk {
  import opened Results
  import opened Tallies
  import opened DualGraph

  /** One chain state as the walk sees it: the set of cut edges and, indexed
      by district label, the tallied total, Democratic and Republican votes. */
  datatype Plan = Plan(cutEdges: set<Edge>, totVotes: seq<nat>, demVotes: seq<nat>, repVotes: seq<nat>)

  /** The three ensembles one walk returns, one entry per plan in chain order. */
  datatype Ensembles = Ensembles(cutEdges: seq<nat>, republicanSeats: seq<nat>, efficiencyGap: seq<real>)

  /** What one district adds to the plan's counters. */
  datatype DistrictResult = DistrictResult(republicanSeat: bool, wastedRepublican: real, wastedDemocrat: real)

  /** The counters of one plan after some of its districts: Republican seats,
      wasted votes of each party and the votes cast. */
  datatype PlanTally = PlanTally(seats: nat, wastedRepublican: real, wastedDemocrat: real, totalVotes: nat)

  /** The labels below which both party tallies have an entry. */
  function Width(p: Plan): nat
  {
    if |p.repVotes| <= |p.demVotes| then |p.repVotes| else |p.demVotes|
  }

  /** Districts 0 .. n-1 can all be read and divided by. */
  predicate TalliesOk(p: Plan, n: nat)
  {
    DistrictsOk(Width(p), p.totVotes, n)
  }

  /** The Republicans win a district with more than half of its votes; the
      winner wastes the votes above half, the loser all of its votes; when
      neither party has more than half, nothing is wasted. "More than half"
      is written as the integer comparison the ratio test amounts to
      (`ContestCases` states the contest with the ratio tests themselves). */
  function Contest(rep: nat, dem: nat, tot: nat): (r: DistrictResult)
    requires tot > 0
    ensures r.republicanSeat <==> 2 * rep > tot
    ensures r.wastedRepublican >= 0.0 && r.wastedDemocrat >= 0.0
  {
    var needed := (tot as real) / 2.0;
    if 2 * rep > tot then DistrictResult(true, rep as real - needed, dem as real)
    else if 2 * dem > tot then DistrictResult(false, rep as real, dem as real - needed)
    else DistrictResult(false, 0.0, 0.0)
  }

  /** The counters after every district of the given tallies, in label order. */
  function Tally(tot: seq<nat>, rep: seq<nat>, dem: seq<nat>): (t: PlanTally)
    requires |rep| == |tot| && |dem| == |tot| && Positive(tot)
    ensures t.seats <= |tot|
    ensures t.totalVotes == 0 <==> |tot| == 0
  {
    if |tot| == 0 then PlanTally(0, 0.0, 0.0, 0)
    else
      var n := |tot| - 1;
      var before := Tally(tot[..n], rep[..n], dem[..n]);
      Count(before, Contest(rep[n], dem[n], tot[n]), tot[n])
  }

  /** The counters after one more district, whose result is `d` and whose
      votes cast are `votes`. */
  function Count(before: PlanTally, d: DistrictResult, votes: nat): PlanTally
  {
    PlanTally(before.seats + (if d.republicanSeat then 1 else 0),
              before.wastedRepublican + d.wastedRepublican,
              before.wastedDemocrat + d.wastedDemocrat,
              before.totalVotes + votes)
  }

  /** The efficiency gap of a tally: the wasted-vote difference over the votes
      cast; it is positive exactly when Democrats waste more votes. */
  function Gap(t: PlanTally): (g: real)
    requires t.totalVotes > 0
    ensures g > 0.0 <==> t.wastedDemocrat > t.wastedRepublican
    ensures g == 0.0 <==> t.wastedDemocrat == t.wastedRepublican
  {
    var g := (t.wastedDemocrat - t.wastedRepublican) / (t.totalVotes as real);
    assert g * (t.totalVotes as real) == t.wastedDemocrat - t.wastedRepublican;
    SignOfProduct(g, t.totalVotes as real);
    g
  }

  lemma SignOfProduct(a: real, b: real)
    requires b > 0.0
    ensures (a * b > 0.0 <==> a > 0.0) && (a * b == 0.0 <==> a == 0.0)
  {
    if a > 0.0 {
      PositiveProduct(a, b);
    } else if a < 0.0 {
      PositiveProduct(-a, b);
    }
  }

  /** What the walk raises for plan `p` with `k` districts, if anything: the
      first district fault (a district's total, Republican and Democratic
      tallies are read, then its total is divided by), or else the division by
      the plan's zero vote total. */
  function PlanFault(p: Plan, k: nat): (f: Option<WalkError>)
    ensures f == None <==> TalliesOk(p, k) && k > 0
  {
    if FirstFault(Width(p), p.totVotes, k).Some? then FirstFault(Width(p), p.totVotes, k)
    else if Tally(p.totVotes[..k], p.repVotes[..k], p.demVotes[..k]).totalVotes == 0 then Some(ZeroDivision)
    else None
  }

  /** The counters of plan `p` over districts 0 .. k-1. */
  function PlanTallyOf(p: Plan, k: nat): PlanTally
    requires TalliesOk(p, k)
  {
    Tally(p.totVotes[..k], p.repVotes[..k], p.demVotes[..k])
  }

  /** Plan j is the first plan of the chain whose statistics raise. */
  predicate FirstFaultAt(chain: seq<Plan>, k: nat, j: nat)
  {
    j < |chain| && PlanFault(chain[j], k).Some? &&
    forall l :: 0 <= l < j ==> PlanFault(chain[l], k) == None
  }

  /** The contest in terms of the source's ratio tests. Republicans take the
      seat iff their share exceeds one half; because of the `elif`, the
      Democratic branch applies only to districts the Republicans did not win,
      so no district is credited to both parties; a district where neither
      share exceeds one half wastes nothing. */
  lemma ContestCases(rep: nat, dem: nat, tot: nat)
    requires tot > 0
    ensures Contest(rep, dem, tot).republicanSeat <==> ExceedsHalf(rep, tot)
    ensures ExceedsHalf(rep, tot) ==>
      Contest(rep, dem, tot) == DistrictResult(true, rep as real - (tot as real) / 2.0, dem as real)
    ensures !ExceedsHalf(rep, tot) && ExceedsHalf(dem, tot) ==>
      Contest(rep, dem, tot) == DistrictResult(false, rep as real, dem as real - (tot as real) / 2.0)
    ensures !ExceedsHalf(rep, tot) && !ExceedsHalf(dem, tot) ==>
      Contest(rep, dem, tot) == DistrictResult(false, 0.0, 0.0)
  {
    ExceedsHalfIff(rep, tot);
    ExceedsHalfIff(dem, tot);
  }

  /** R = 60, D = 40 of 100: Republicans win, wasting 10 votes against the
      Democrats' 40. An exact 50/50 split wastes nothing and wins no seat. */
  lemma ContestExamples()
    ensures Contest(60, 40, 100) == DistrictResult(true, 10.0, 40.0)
    ensures Contest(40, 60, 100) == DistrictResult(false, 40.0, 10.0)
    ensures Contest(50, 50, 100) == DistrictResult(false, 0.0, 0.0)
  {
  }

  /** When the two parties' votes do not exceed the district total, wasted
      votes are never negative and their difference is at most half the total. */
  lemma ContestWastedBound(rep: nat, dem: nat, tot: nat)
    requires tot > 0 && rep + dem <= tot
    ensures Contest(rep, dem, tot).wastedRepublican >= 0.0
    ensures Contest(rep, dem, tot).wastedDemocrat >= 0.0
    ensures -(tot as real) / 2.0 <= Contest(rep, dem, tot).wastedDemocrat - Contest(rep, dem, tot).wastedRepublican <= (tot as real) / 2.0
  {
  }

  /** The districts the Republicans win. */
  function RepublicanDistricts(tot: seq<nat>, rep: seq<nat>): set<nat>
    requires |rep| == |tot|
  {
    set i: nat | i < |tot| && 2 * rep[i] > tot[i]
  }

  /** The seat count is exactly the number of districts with 2 * rep > tot. */
  lemma {:induction false} SeatsCount(tot: seq<nat>, rep: seq<nat>, dem: seq<nat>)
    requires |rep| == |tot| && |dem| == |tot| && Positive(tot)
    ensures Tally(tot, rep, dem).seats == |RepublicanDistricts(tot, rep)|
  {
    if |tot| > 0 {
      var n := |tot| - 1;
      SeatsCount(tot[..n], rep[..n], dem[..n]);
      var before := RepublicanDistricts(tot[..n], rep[..n]);
      if 2 * rep[n] > tot[n] {
        assert RepublicanDistricts(tot, rep) == before + {n};
      } else {
        assert RepublicanDistricts(tot, rep) == before;
      }
    }
  }

  /** The sum of a tally's entries. */
  function Sum(s: seq<nat>): nat
  {
    if |s| == 0 then 0 else Sum(s[..|s| - 1]) + s[|s| - 1]
  }

  /** The votes cast of a plan are the votes of every district, those where
      neither party has more than half included. */
  lemma {:induction false} TallyVotes(tot: seq<nat>, rep: seq<nat>, dem: seq<nat>)
    requires |rep| == |tot| && |dem| == |tot| && Positive(tot)
    ensures Tally(tot, rep, dem).totalVotes == Sum(tot)
  {
    if |tot| > 0 {
      var n := |tot| - 1;
      TallyVotes(tot[..n], rep[..n], dem[..n]);
    }
  }

  /** `ens` is what the walk records as Republican seat counts for `chain`. */
  predicate SeatEnsemble(chain: seq<Plan>, k: nat, ens: seq<nat>)
  {
    |ens| == |chain| &&
    forall j :: 0 <= j < |chain| ==> TalliesOk(chain[j], k) && ens[j] == PlanTallyOf(chain[j], k).seats
  }

  /** The wasted-vote difference of a whole plan is at most half its votes. */
  lemma {:induction false} TallyWastedBound(tot: seq<nat>, rep: seq<nat>, dem: seq<nat>)
    requires |rep| == |tot| && |dem| == |tot| && Positive(tot)
    requires forall i :: 0 <= i < |tot| ==> rep[i] + dem[i] <= tot[i]
    ensures -(Tally(tot, rep, dem).totalVotes as real) / 2.0
      <= Tally(tot, rep, dem).wastedDemocrat - Tally(tot, rep, dem).wastedRepublican
      <= (Tally(tot, rep, dem).totalVotes as real) / 2.0
  {
    if |tot| > 0 {
      var n := |tot| - 1;
      TallyWastedBound(tot[..n], rep[..n], dem[..n]);
      ContestWastedBound(rep[n], dem[n], tot[n]);
    }
  }

  /** A wasted-vote difference of at most half the votes cast gives a gap of
      at most one half either way. */
  lemma GapWithinHalf(t: PlanTally)
    requires t.totalVotes > 0
    requires -(t.totalVotes as real) / 2.0 <= t.wastedDemocrat - t.wastedRepublican <= (t.totalVotes as real) / 2.0
    ensures -0.5 <= Gap(t) <= 0.5
  {
    var g, total := Gap(t), t.totalVotes as real;
    assert g * total == t.wastedDemocrat - t.wastedRepublican;
    if g > 0.5 {
      PositiveProduct(g - 0.5, total);
    }
    if g < -0.5 {
      PositiveProduct(-0.5 - g, total);
    }
  }

  /** When no district has more Democratic plus Republican votes than votes
      cast, the efficiency gap lies in [-1/2, 1/2]. */
  lemma EfficiencyGapBound(p: Plan, k: nat)
    requires PlanFault(p, k) == None
    requires forall i :: 0 <= i < k ==> p.repVotes[i] + p.demVotes[i] <= p.totVotes[i]
    ensures -0.5 <= Gap(PlanTallyOf(p, k)) <= 0.5
  {
    TallyWastedBound(p.totVotes[..k], p.repVotes[..k], p.demVotes[..k]);
    GapWithinHalf(PlanTallyOf(p, k));
  }

  /** Component-wise sum of the counters of two disjoint groups of districts. */
  function Add(a: PlanTally, b: PlanTally): PlanTally
  {
    PlanTally(a.seats + b.seats, a.wastedRepublican + b.wastedRepublican,
              a.wastedDemocrat + b.wastedDemocrat, a.totalVotes + b.totalVotes)
  }

  /** The counters of two disjoint groups of districts, placed one after the
      other, are the sums of the groups' counters. */
  lemma {:induction false} TallyAdditive(t1: seq<nat>, r1: seq<nat>, d1: seq<nat>, t2: seq<nat>, r2: seq<nat>, d2: seq<nat>)
    requires |r1| == |t1| && |d1| == |t1| && Positive(t1)
    requires |r2| == |t2| && |d2| == |t2| && Positive(t2)
    ensures Positive(t1 + t2)
    ensures Tally(t1 + t2, r1 + r2, d1 + d2) == Add(Tally(t1, r1, d1), Tally(t2, r2, d2))
  {
    if |t2| > 0 {
      var n := |t2| - 1;
      TallyAdditive(t1, r1, d1, t2[..n], r2[..n], d2[..n]);
      var t, r, d := t1 + t2, r1 + r2, d1 + d2;
      var m := |t1| + n;
      assert t[..m] == t1 + t2[..n] && r[..m] == r1 + r2[..n] && d[..m] == d1 + d2[..n];
      assert t[m] == t2[n] && r[m] == r2[n] && d[m] == d2[n];
      TallyLast(t, r, d);
      TallyLast(t2, r2, d2);
      CountAdd(Tally(t1, r1, d1), Tally(t2[..n], r2[..n], d2[..n]), Contest(r2[n], d2[n], t2[n]), t2[n]);
    } else {
      assert t1 + t2 == t1 && r1 + r2 == r1 && d1 + d2 == d1;
    }
  }

  lemma TallyLast(tot: seq<nat>, rep: seq<nat>, dem: seq<nat>)
    requires |rep| == |tot| && |dem| == |tot| && Positive(tot) && |tot| > 0
    ensures Tally(tot, rep, dem) == Count(Tally(tot[..|tot| - 1], rep[..|tot| - 1], dem[..|tot| - 1]),
                                          Contest(rep[|tot| - 1], dem[|tot| - 1], tot[|tot| - 1]), tot[|tot| - 1])
  {
  }

  /** One more district of a plan: the counters over labels 0 .. i are those
      over 0 .. i-1 with district i counted. */
  lemma TallyStep(tot: seq<nat>, rep: seq<nat>, dem: seq<nat>, i: nat)
    requires i < |tot| && i < |rep| && i < |dem| && Positive(tot[..i + 1])
    ensures Positive(tot[..i]) && tot[i] > 0
    ensures Tally(tot[..i + 1], rep[..i + 1], dem[..i + 1])
      == Count(Tally(tot[..i], rep[..i], dem[..i]), Contest(rep[i], dem[i], tot[i]), tot[i])
  {
    assert tot[..i + 1][..i] == tot[..i] && rep[..i + 1][..i] == rep[..i] && dem[..i + 1][..i] == dem[..i];
    assert tot[..i + 1][i] == tot[i];
  }

  lemma CountAdd(a: PlanTally, b: PlanTally, c: DistrictResult, votes: nat)
    ensures Count(Add(a, b), c, votes) == Add(a, Count(b, c, votes))
  {
  }

  /** The body of the walk for one plan: reads districts 0 .. k-1 in label
      order, counts Republican seats and wasted votes, and divides the
      wasted-vote difference by the votes cast. */
  method PlanStatistics(part: Plan, numDistricts: nat) returns (r: Result<(nat, real), WalkError>)
    ensures r.Ok? <==> PlanFault(part, numDistricts) == None
    ensures r.Err? ==> PlanFault(part, numDistricts) == Some(r.error)
    ensures r.Ok? ==>
      && TalliesOk(part, numDistricts) && numDistricts > 0
      && r.value.0 == PlanTallyOf(part, numDistricts).seats
      && r.value.1 == Gap(PlanTallyOf(part, numDistricts))
  {
    var seats := 0;
    var wastedDemocrat := 0.0;
    var wastedRepublican := 0.0;
    var planTotvotes := 0;
    var i := 0;
    while i < numDistricts
      invariant i <= numDistricts
      invariant FirstFault(Width(part), part.totVotes, i) == None
      invariant PlanTally(seats, wastedRepublican, wastedDemocrat, planTotvotes)
        == Tally(part.totVotes[..i], part.repVotes[..i], part.demVotes[..i])
    {
      if i >= |part.totVotes| || i >= |part.repVotes| || i >= |part.demVotes| || part.totVotes[i] == 0 {
        var fault := DistrictFault(Width(part), part.totVotes, i);
        assert FirstFault(Width(part), part.totVotes, i + 1) == fault;
        FaultPersists(Width(part), part.totVotes, i + 1, numDistricts);
        return Err(fault.value);
      }
      ghost var before := PlanTally(seats, wastedRepublican, wastedDemocrat, planTotvotes);
      TallyStep(part.totVotes, part.repVotes, part.demVotes, i);
      assert FirstFault(Width(part), part.totVotes, i + 1) == None;
      var totvotes := part.totVotes[i];
      var votesNeeded := (totvotes as real) / 2.0;
      var votesRepublican := part.repVotes[i];
      var votesDemocrat := part.demVotes[i];
      ExceedsHalfIff(votesRepublican, totvotes);
      ExceedsHalfIff(votesDemocrat, totvotes);
      if ExceedsHalf(votesRepublican, totvotes) {
        seats := seats + 1;
        wastedRepublican := wastedRepublican + (votesRepublican as real - votesNeeded);
        wastedDemocrat := wastedDemocrat + votesDemocrat as real;
      } else if ExceedsHalf(votesDemocrat, totvotes) {
        wastedRepublican := wastedRepublican + votesRepublican as real;
        wastedDemocrat := wastedDemocrat + (votesDemocrat as real - votesNeeded);
      }
      planTotvotes := planTotvotes + totvotes;
      assert PlanTally(seats, wastedRepublican, wastedDemocrat, planTotvotes)
        == Count(before, Contest(votesRepublican, votesDemocrat, totvotes), totvotes);
      i := i + 1;
    }
    if planTotvotes == 0 {
      return Err(ZeroDivision);
    }
    var gap := (wastedDemocrat - wastedRepublican) / (planTotvotes as real);
    return Ok((seats, gap));
  }

  /** The walk over the chain: one cut-edge count, one Republican seat count
      and one efficiency gap per plan, appended in chain order; the first
      fault aborts the walk. */
  method Walk(chain: seq<Plan>, numDistricts: nat) returns (r: Result<Ensembles, WalkError>)
    ensures r.Ok? <==> forall j :: 0 <= j < |chain| ==> PlanFault(chain[j], numDistricts) == None
    ensures r.Err? ==> exists j: nat :: FirstFaultAt(chain, numDistricts, j) && PlanFault(chain[j], numDistricts) == Some(r.error)
    ensures r.Ok? ==> |r.value.cutEdges| == |chain| && |r.value.republicanSeats| == |chain| && |r.value.efficiencyGap| == |chain|
    ensures r.Ok? ==> forall j :: 0 <= j < |chain| ==>
      && PlanFault(chain[j], numDistricts) == None
      && TalliesOk(chain[j], numDistricts)
      && r.value.cutEdges[j] == |chain[j].cutEdges|
      && r.value.republicanSeats[j] == PlanTallyOf(chain[j], numDistricts).seats
      && r.value.efficiencyGap[j] == Gap(PlanTallyOf(chain[j], numDistricts))
    ensures r.Ok? ==> SeatEnsemble(chain, numDistricts, r.value.republicanSeats)
  {
    var cutedgesEns: seq<nat> := [];
    var seatsEns: seq<nat> := [];
    var gapEns: seq<real> := [];
    var j := 0;
    while j < |chain|
      invariant j <= |chain|
      invariant forall l :: 0 <= l < j ==> PlanFault(chain[l], numDistricts) == None
      invariant |cutedgesEns| == j && |seatsEns| == j && |gapEns| == j
      invariant forall l :: 0 <= l < j ==>
        && cutedgesEns[l] == |chain[l].cutEdges|
        && seatsEns[l] == PlanTallyOf(chain[l], numDistricts).seats
        && gapEns[l] == Gap(PlanTallyOf(chain[l], numDistricts))
    {
      var part := chain[j];
      var stats := PlanStatistics(part, numDistricts);
      if stats.Err? {
        assert FirstFaultAt(chain, numDistricts, j);
        return Err(stats.error);
      }
      cutedgesEns := cutedgesEns + [|part.cutEdges|];
      seatsEns := seatsEns + [stats.value.0];
      gapEns := gapEns + [stats.value.1];
      j := j + 1;
    }
    return Ok(Ensembles(cutedgesEns, seatsEns, gapEns));
  }
}
