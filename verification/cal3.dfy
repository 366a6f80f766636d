/** Aggregation of the NorCal, Cal and SoCal ensembles into Cal 3 ensembles:
    the three regional statistics of each step are summed. */
module Cal3 {
  import opened Tallies
  import opened Results
  import DemographicWalk
  import VotingWalk

  function Min3(a: nat, b: nat, c: nat): nat
  {
    if a <= b && a <= c then a else if b <= c then b else c
  }

  /** `[x + y + z for x, y, z in zip(a, b, c)]`, with the `+` of the summed
      values passed as `add`: zip stops at the shortest input. */
  function Zip3Sum<T>(a: seq<T>, b: seq<T>, c: seq<T>, add: (T, T) -> T): (r: seq<T>)
    ensures |r| == Min3(|a|, |b|, |c|)
    ensures forall j :: 0 <= j < |r| ==> r[j] == add(add(a[j], b[j]), c[j])
  {
    if |a| == 0 || |b| == 0 || |c| == 0 then []
    else [add(add(a[0], b[0]), c[0])] + Zip3Sum(a[1..], b[1..], c[1..], add)
  }

  function AddNat(x: nat, y: nat): nat { x + y }

  function AddReal(x: real, y: real): real { x + y }

  /** The three regional plans of one step read as one plan of the state:
      Cal's district labels follow NorCal's, SoCal's follow Cal's. Its cut
      edges are the union of the regional ones, which is what the Cal 3
      cut-edge entry counts; a plan of the whole state would also cut every
      edge between two regions, and those lie in no regional graph. */
  function MergeDemographic(n: DemographicWalk.Plan, kn: nat, c: DemographicWalk.Plan, kc: nat,
                            s: DemographicWalk.Plan, ks: nat): DemographicWalk.Plan
    requires DemographicWalk.TalliesOk(n, kn) && DemographicWalk.TalliesOk(c, kc) && DemographicWalk.TalliesOk(s, ks)
  {
    DemographicWalk.Plan(n.cutEdges + c.cutEdges + s.cutEdges,
                         n.totPop[..kn] + c.totPop[..kc] + s.totPop[..ks],
                         n.hispPop[..kn] + c.hispPop[..kc] + s.hispPop[..ks])
  }

  /** The summed majority count of a step is the majority count of the
      merged plan. */
  lemma MergedMajorityCount(n: DemographicWalk.Plan, kn: nat, c: DemographicWalk.Plan, kc: nat,
                            s: DemographicWalk.Plan, ks: nat)
    requires DemographicWalk.TalliesOk(n, kn) && DemographicWalk.TalliesOk(c, kc) && DemographicWalk.TalliesOk(s, ks)
    ensures DemographicWalk.TalliesOk(MergeDemographic(n, kn, c, kc, s, ks), kn + kc + ks)
    ensures DemographicWalk.PlanMajorityCount(MergeDemographic(n, kn, c, kc, s, ks), kn + kc + ks)
      == DemographicWalk.PlanMajorityCount(n, kn) + DemographicWalk.PlanMajorityCount(c, kc)
       + DemographicWalk.PlanMajorityCount(s, ks)
  {
    var m := MergeDemographic(n, kn, c, kc, s, ks);
    DemographicWalk.MajorityCountAdditive(n.hispPop[..kn], n.totPop[..kn], c.hispPop[..kc], c.totPop[..kc]);
    DemographicWalk.MajorityCountAdditive(n.hispPop[..kn] + c.hispPop[..kc], n.totPop[..kn] + c.totPop[..kc],
                                          s.hispPop[..ks], s.totPop[..ks]);
    assert m.totPop[..kn + kc + ks] == m.totPop;
    assert m.hispPop[..kn + kc + ks] == m.hispPop;
  }

  /** Entry j of the Cal 3 majority ensemble counts the majority districts of
      the merged plan of step j. */
  lemma Cal3MajorityEnsemble(chainN: seq<DemographicWalk.Plan>, kn: nat, en: seq<nat>,
                             chainC: seq<DemographicWalk.Plan>, kc: nat, ec: seq<nat>,
                             chainS: seq<DemographicWalk.Plan>, ks: nat, es: seq<nat>)
    requires DemographicWalk.MajorityEnsemble(chainN, kn, en)
    requires DemographicWalk.MajorityEnsemble(chainC, kc, ec)
    requires DemographicWalk.MajorityEnsemble(chainS, ks, es)
    ensures |Zip3Sum(en, ec, es, AddNat)| == Min3(|chainN|, |chainC|, |chainS|)
    ensures forall j :: 0 <= j < |Zip3Sum(en, ec, es, AddNat)| ==>
      && DemographicWalk.TalliesOk(MergeDemographic(chainN[j], kn, chainC[j], kc, chainS[j], ks), kn + kc + ks)
      && Zip3Sum(en, ec, es, AddNat)[j]
         == DemographicWalk.PlanMajorityCount(MergeDemographic(chainN[j], kn, chainC[j], kc, chainS[j], ks), kn + kc + ks)
  {
    var r := Zip3Sum(en, ec, es, AddNat);
    forall j | 0 <= j < |r|
      ensures DemographicWalk.TalliesOk(MergeDemographic(chainN[j], kn, chainC[j], kc, chainS[j], ks), kn + kc + ks)
      ensures r[j] == DemographicWalk.PlanMajorityCount(MergeDemographic(chainN[j], kn, chainC[j], kc, chainS[j], ks), kn + kc + ks)
    {
      MergedMajorityCount(chainN[j], kn, chainC[j], kc, chainS[j], ks);
    }
  }

  /** The counters of the three regional plans of one step, as one plan; as
      for the tract-level merge, edges between regions are not cut edges. */
  function MergeVoting(n: VotingWalk.Plan, kn: nat, c: VotingWalk.Plan, kc: nat,
                       s: VotingWalk.Plan, ks: nat): VotingWalk.Plan
    requires VotingWalk.TalliesOk(n, kn) && VotingWalk.TalliesOk(c, kc) && VotingWalk.TalliesOk(s, ks)
  {
    VotingWalk.Plan(n.cutEdges + c.cutEdges + s.cutEdges,
                    n.totVotes[..kn] + c.totVotes[..kc] + s.totVotes[..ks],
                    n.demVotes[..kn] + c.demVotes[..kc] + s.demVotes[..ks],
                    n.repVotes[..kn] + c.repVotes[..kc] + s.repVotes[..ks])
  }

  /** Seats, wasted votes and votes cast of the merged plan are the sums of
      the regional ones; so the summed Republican seat count of a step is the
      merged plan's seat count. */
  lemma MergedTally(n: VotingWalk.Plan, kn: nat, c: VotingWalk.Plan, kc: nat, s: VotingWalk.Plan, ks: nat)
    requires VotingWalk.TalliesOk(n, kn) && VotingWalk.TalliesOk(c, kc) && VotingWalk.TalliesOk(s, ks)
    ensures VotingWalk.TalliesOk(MergeVoting(n, kn, c, kc, s, ks), kn + kc + ks)
    ensures VotingWalk.PlanTallyOf(MergeVoting(n, kn, c, kc, s, ks), kn + kc + ks)
      == VotingWalk.Add(VotingWalk.Add(VotingWalk.PlanTallyOf(n, kn), VotingWalk.PlanTallyOf(c, kc)),
                        VotingWalk.PlanTallyOf(s, ks))
  {
    var m := MergeVoting(n, kn, c, kc, s, ks);
    var tn, rn, dn := n.totVotes[..kn], n.repVotes[..kn], n.demVotes[..kn];
    var tc, rc, dc := c.totVotes[..kc], c.repVotes[..kc], c.demVotes[..kc];
    var ts, rs, ds := s.totVotes[..ks], s.repVotes[..ks], s.demVotes[..ks];
    assert Positive(tn) && Positive(tc) && Positive(ts);
    VotingWalk.TallyAdditive(tn, rn, dn, tc, rc, dc);
    VotingWalk.TallyAdditive(tn + tc, rn + rc, dn + dc, ts, rs, ds);
    var k := kn + kc + ks;
    assert m.totVotes == tn + tc + ts && m.repVotes == rn + rc + rs && m.demVotes == dn + dc + ds;
    assert m.totVotes[..k] == m.totVotes && m.repVotes[..k] == m.repVotes && m.demVotes[..k] == m.demVotes;
  }

  /** Entry j of the Cal 3 Republican seat ensemble is the seat count of the
      merged plan of step j. */
  lemma Cal3SeatEnsemble(chainN: seq<VotingWalk.Plan>, kn: nat, en: seq<nat>,
                         chainC: seq<VotingWalk.Plan>, kc: nat, ec: seq<nat>,
                         chainS: seq<VotingWalk.Plan>, ks: nat, es: seq<nat>)
    requires VotingWalk.SeatEnsemble(chainN, kn, en)
    requires VotingWalk.SeatEnsemble(chainC, kc, ec)
    requires VotingWalk.SeatEnsemble(chainS, ks, es)
    ensures |Zip3Sum(en, ec, es, AddNat)| == Min3(|chainN|, |chainC|, |chainS|)
    ensures forall j :: 0 <= j < |Zip3Sum(en, ec, es, AddNat)| ==>
      && VotingWalk.TalliesOk(MergeVoting(chainN[j], kn, chainC[j], kc, chainS[j], ks), kn + kc + ks)
      && Zip3Sum(en, ec, es, AddNat)[j]
         == VotingWalk.PlanTallyOf(MergeVoting(chainN[j], kn, chainC[j], kc, chainS[j], ks), kn + kc + ks).seats
  {
    var r := Zip3Sum(en, ec, es, AddNat);
    forall j | 0 <= j < |r|
      ensures VotingWalk.TalliesOk(MergeVoting(chainN[j], kn, chainC[j], kc, chainS[j], ks), kn + kc + ks)
      ensures r[j] == VotingWalk.PlanTallyOf(MergeVoting(chainN[j], kn, chainC[j], kc, chainS[j], ks), kn + kc + ks).seats
    {
      MergedTally(chainN[j], kn, chainC[j], kc, chainS[j], ks);
    }
  }

  /** The efficiency gap of the merged plan is the mean of the regional gaps
      weighted by the regions' votes cast, not their sum. */
  lemma MergedGapIsWeightedMean(tn: VotingWalk.PlanTally, tc: VotingWalk.PlanTally, ts: VotingWalk.PlanTally)
    requires tn.totalVotes > 0 && tc.totalVotes > 0 && ts.totalVotes > 0
    ensures VotingWalk.Add(VotingWalk.Add(tn, tc), ts).totalVotes > 0
    ensures VotingWalk.Gap(VotingWalk.Add(VotingWalk.Add(tn, tc), ts)) * (VotingWalk.Add(VotingWalk.Add(tn, tc), ts).totalVotes as real)
      == VotingWalk.Gap(tn) * (tn.totalVotes as real) + VotingWalk.Gap(tc) * (tc.totalVotes as real)
       + VotingWalk.Gap(ts) * (ts.totalVotes as real)
  {
    var m := VotingWalk.Add(VotingWalk.Add(tn, tc), ts);
    assert VotingWalk.Gap(m) * (m.totalVotes as real) == m.wastedDemocrat - m.wastedRepublican;
    assert VotingWalk.Gap(tn) * (tn.totalVotes as real) == tn.wastedDemocrat - tn.wastedRepublican;
    assert VotingWalk.Gap(tc) * (tc.totalVotes as real) == tc.wastedDemocrat - tc.wastedRepublican;
    assert VotingWalk.Gap(ts) * (ts.totalVotes as real) == ts.wastedDemocrat - ts.wastedRepublican;
  }

  function MinReal3(a: real, b: real, c: real): real
  {
    if a <= b && a <= c then a else if b <= c then b else c
  }

  function MaxReal3(a: real, b: real, c: real): real
  {
    if a >= b && a >= c then a else if b >= c then b else c
  }

  /** The efficiency gap the Cal 3 comparison evidently intends, that of the
      merged plan, lies between the smallest and the largest regional gap; in
      particular it stays in [-1/2, 1/2] when the regional gaps do. */
  lemma MergedGapBetweenRegionalGaps(tn: VotingWalk.PlanTally, tc: VotingWalk.PlanTally, ts: VotingWalk.PlanTally)
    requires tn.totalVotes > 0 && tc.totalVotes > 0 && ts.totalVotes > 0
    ensures VotingWalk.Add(VotingWalk.Add(tn, tc), ts).totalVotes > 0
    ensures MinReal3(VotingWalk.Gap(tn), VotingWalk.Gap(tc), VotingWalk.Gap(ts))
      <= VotingWalk.Gap(VotingWalk.Add(VotingWalk.Add(tn, tc), ts))
      <= MaxReal3(VotingWalk.Gap(tn), VotingWalk.Gap(tc), VotingWalk.Gap(ts))
  {
    var m := VotingWalk.Add(VotingWalk.Add(tn, tc), ts);
    var gn, gc, gs, g := VotingWalk.Gap(tn), VotingWalk.Gap(tc), VotingWalk.Gap(ts), VotingWalk.Gap(m);
    var wn, wc, ws := tn.totalVotes as real, tc.totalVotes as real, ts.totalVotes as real;
    MergedGapIsWeightedMean(tn, tc, ts);
    assert g * (wn + wc + ws) == gn * wn + gc * wc + gs * ws;
    MeanAtLeast(g, MinReal3(gn, gc, gs), gn, gc, gs, wn, wc, ws);
    var hi := MaxReal3(gn, gc, gs);
    assert (-g) * (wn + wc + ws) == (-gn) * wn + (-gc) * wc + (-gs) * ws;
    MeanAtLeast(-g, -hi, -gn, -gc, -gs, wn, wc, ws);
  }

  /** A mean with positive weights is at least any lower bound of its terms. */
  lemma MeanAtLeast(g: real, lo: real, gn: real, gc: real, gs: real, wn: real, wc: real, ws: real)
    requires wn > 0.0 && wc > 0.0 && ws > 0.0
    requires lo <= gn && lo <= gc && lo <= gs
    requires g * (wn + wc + ws) == gn * wn + gc * wc + gs * ws
    ensures lo <= g
  {
    PositiveProduct(gn - lo, wn);
    PositiveProduct(gc - lo, wc);
    PositiveProduct(gs - lo, ws);
    assert (g - lo) * (wn + wc + ws) == (gn - lo) * wn + (gc - lo) * wc + (gs - lo) * ws;
    if g < lo {
      PositiveProduct(lo - g, wn + wc + ws);
    }
  }

  /** Three identical one-district regions where Republicans win 60 to 40
      each have a gap of 0.3; their Cal 3 entry is 0.9, while the merged plan's
      gap is 0.3. */
  lemma SummedGapIsNotMergedGap()
    ensures var p := VotingWalk.Plan({}, [100], [40], [60]);
      && VotingWalk.PlanFault(p, 1) == None
      && VotingWalk.Gap(VotingWalk.PlanTallyOf(p, 1)) == 0.3
      && Zip3Sum([VotingWalk.Gap(VotingWalk.PlanTallyOf(p, 1))], [VotingWalk.Gap(VotingWalk.PlanTallyOf(p, 1))],
                 [VotingWalk.Gap(VotingWalk.PlanTallyOf(p, 1))], AddReal) == [0.9]
      && VotingWalk.Gap(VotingWalk.PlanTallyOf(MergeVoting(p, 1, p, 1, p, 1), 3)) == 0.3
  {
    var p := VotingWalk.Plan({}, [100], [40], [60]);
    VotingWalk.ContestExamples();
    assert p.totVotes[..1] == [100] && p.repVotes[..1] == [60] && p.demVotes[..1] == [40];
    var t := VotingWalk.PlanTallyOf(p, 1);
    VotingWalk.TallyLast([100], [60], [40]);
    assert [100][..0] == [] && [60][..0] == [] && [40][..0] == [];
    assert t == VotingWalk.Count(VotingWalk.PlanTally(0, 0.0, 0.0, 0), VotingWalk.Contest(60, 40, 100), 100);
    assert t == VotingWalk.PlanTally(1, 10.0, 40.0, 100);
    MergedTally(p, 1, p, 1, p, 1);
    assert VotingWalk.PlanTallyOf(MergeVoting(p, 1, p, 1, p, 1), 3) == VotingWalk.PlanTally(3, 30.0, 120.0, 300);
  }
}
