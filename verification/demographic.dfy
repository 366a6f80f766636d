/** The tract-level walk of make_demographic_ensembles: for every plan the
    chain yields, record its number of cut edges and its number of districts
    with a strict Hispanic or Latino majority. */
module DemographicWalk {
  import opened Results
  import opened Tallies
  import opened DualGraph

  /** One chain state as the walk sees it: the set of cut edges and, indexed
      by district label, the tallied total and Hispanic or Latino populations. */
  datatype Plan = Plan(cutEdges: set<Edge>, totPop: seq<nat>, hispPop: seq<nat>)

  /** The two ensembles one walk returns, one entry per plan in chain order. */
  datatype Ensembles = Ensembles(cutEdges: seq<nat>, majorityMinority: seq<nat>)

  /** Districts 0 .. n-1 can all be read and divided by. */
  predicate TalliesOk(p: Plan, n: nat)
  {
    DistrictsOk(|p.hispPop|, p.totPop, n)
  }

  /** What reading districts 0 .. n-1 of `p` raises, if anything: the Hispanic
      or Latino tally is read, then the total, then the total is divided by. */
  function PlanFault(p: Plan, n: nat): Option<WalkError>
  {
    FirstFault(|p.hispPop|, p.totPop, n)
  }

  /** Number of districts whose subgroup share is strictly above one half. */
  function MajorityCount(hisp: seq<nat>, tot: seq<nat>): (c: nat)
    requires |hisp| == |tot| && Positive(tot)
    ensures c <= |tot|
  {
    if |tot| == 0 then 0
    else
      var n := |tot| - 1;
      MajorityCount(hisp[..n], tot[..n]) + (if ExceedsHalf(hisp[n], tot[n]) then 1 else 0)
  }

  /** The district labels counted as majority Hispanic or Latino. */
  function MajorityDistricts(hisp: seq<nat>, tot: seq<nat>): set<nat>
    requires |hisp| == |tot|
  {
    set i: nat | i < |tot| && 2 * hisp[i] > tot[i]
  }

  /** The count is exactly the number of labels i with 2 * hisp[i] > tot[i]:
      51 of 100 counts, 50 of 100 does not. */
  lemma {:induction false} MajorityCountCounts(hisp: seq<nat>, tot: seq<nat>)
    requires |hisp| == |tot| && Positive(tot)
    ensures MajorityCount(hisp, tot) == |MajorityDistricts(hisp, tot)|
  {
    if |tot| > 0 {
      var n := |tot| - 1;
      MajorityCountCounts(hisp[..n], tot[..n]);
      var before := MajorityDistricts(hisp[..n], tot[..n]);
      ExceedsHalfIff(hisp[n], tot[n]);
      if 2 * hisp[n] > tot[n] {
        assert MajorityDistricts(hisp, tot) == before + {n};
      } else {
        assert MajorityDistricts(hisp, tot) == before;
      }
    }
  }

  /** 51 of 100 is a majority, exactly 50 of 100 is not. */
  lemma MajorityAtTie()
    ensures MajorityCount([51], [100]) == 1
    ensures MajorityCount([50], [100]) == 0
  {
    ExceedsHalfIff(51, 100);
    ExceedsHalfIff(50, 100);
  }

  /** Counting over two disjoint groups of districts adds up. */
  lemma {:induction false} MajorityCountAdditive(h1: seq<nat>, t1: seq<nat>, h2: seq<nat>, t2: seq<nat>)
    requires |h1| == |t1| && Positive(t1) && |h2| == |t2| && Positive(t2)
    ensures Positive(t1 + t2)
    ensures MajorityCount(h1 + h2, t1 + t2) == MajorityCount(h1, t1) + MajorityCount(h2, t2)
  {
    if |t2| > 0 {
      var n := |t2| - 1;
      MajorityCountAdditive(h1, t1, h2[..n], t2[..n]);
      assert (h1 + h2)[..|h1| + n] == h1 + h2[..n];
      assert (t1 + t2)[..|t1| + n] == t1 + t2[..n];
    } else {
      assert h1 + h2 == h1 && t1 + t2 == t1;
    }
  }

  /** The statistic the walk records for plan `p` over districts 0 .. k-1. */
  function PlanMajorityCount(p: Plan, k: nat): (c: nat)
    requires TalliesOk(p, k)
    ensures c <= k
  {
    MajorityCount(p.hispPop[..k], p.totPop[..k])
  }

  /** Plan j is the first plan of the chain whose districts raise. */
  predicate FirstFaultAt(chain: seq<Plan>, k: nat, j: nat)
  {
    j < |chain| && PlanFault(chain[j], k).Some? &&
    forall l :: 0 <= l < j ==> TalliesOk(chain[l], k)
  }

  /** `ens` is what the walk records as majority counts for `chain`. */
  predicate MajorityEnsemble(chain: seq<Plan>, k: nat, ens: seq<nat>)
  {
    |ens| == |chain| &&
    forall j :: 0 <= j < |chain| ==> TalliesOk(chain[j], k) && ens[j] == PlanMajorityCount(chain[j], k)
  }

  /** The body of the walk for one plan: reads districts 0 .. k-1 in label
      order and counts those with a strict Hispanic or Latino majority. */
  method PlanStatistics(part: Plan, numDistricts: nat) returns (r: Result<nat, WalkError>)
    ensures r.Ok? <==> TalliesOk(part, numDistricts)
    ensures r.Err? ==> PlanFault(part, numDistricts) == Some(r.error)
    ensures r.Ok? ==> TalliesOk(part, numDistricts) && r.value == PlanMajorityCount(part, numDistricts)
  {
    var count := 0;
    var i := 0;
    while i < numDistricts
      invariant i <= numDistricts
      invariant PlanFault(part, i) == None
      invariant count == MajorityCount(part.hispPop[..i], part.totPop[..i])
    {
      if i >= |part.hispPop| || i >= |part.totPop| || part.totPop[i] == 0 {
        var fault := DistrictFault(|part.hispPop|, part.totPop, i);
        assert PlanFault(part, i + 1) == fault;
        FaultPersists(|part.hispPop|, part.totPop, i + 1, numDistricts);
        return Err(fault.value);
      }
      assert part.hispPop[..i + 1][..i] == part.hispPop[..i];
      assert part.totPop[..i + 1][..i] == part.totPop[..i];
      if ExceedsHalf(part.hispPop[i], part.totPop[i]) {
        count := count + 1;
      }
      i := i + 1;
    }
    return Ok(count);
  }

  /** The walk over the chain: one cut-edge count and one majority count per
      plan, appended in chain order; the first fault aborts the walk. */
  method Walk(chain: seq<Plan>, numDistricts: nat) returns (r: Result<Ensembles, WalkError>)
    ensures r.Ok? <==> forall j :: 0 <= j < |chain| ==> TalliesOk(chain[j], numDistricts)
    ensures r.Err? ==> exists j: nat :: FirstFaultAt(chain, numDistricts, j) && PlanFault(chain[j], numDistricts) == Some(r.error)
    ensures r.Ok? ==> |r.value.cutEdges| == |chain| && |r.value.majorityMinority| == |chain|
    ensures r.Ok? ==> forall j :: 0 <= j < |chain| ==>
      && TalliesOk(chain[j], numDistricts)
      && r.value.cutEdges[j] == |chain[j].cutEdges|
      && r.value.majorityMinority[j] == PlanMajorityCount(chain[j], numDistricts)
    ensures r.Ok? ==> MajorityEnsemble(chain, numDistricts, r.value.majorityMinority)
  {
    var cutedgesEns: seq<nat> := [];
    var majminEns: seq<nat> := [];
    var j := 0;
    while j < |chain|
      invariant j <= |chain|
      invariant forall l :: 0 <= l < j ==> TalliesOk(chain[l], numDistricts)
      invariant |cutedgesEns| == j && |majminEns| == j
      invariant forall l :: 0 <= l < j ==>
        cutedgesEns[l] == |chain[l].cutEdges| && majminEns[l] == PlanMajorityCount(chain[l], numDistricts)
    {
      var part := chain[j];
      var count := PlanStatistics(part, numDistricts);
      if count.Err? {
        assert FirstFaultAt(chain, numDistricts, j);
        return Err(count.error);
      }
      cutedgesEns := cutedgesEns + [|part.cutEdges|];
      majminEns := majminEns + [count.value];
      j := j + 1;
    }
    return Ok(Ensembles(cutedgesEns, majminEns));
  }
}
