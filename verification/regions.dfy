/** The Cal 3 region split: Cal and SoCal are literal sets of county FIPS
    codes, NorCal is every other county code in the data; each region's total
    is the sum over the units whose county is in its set. */
module Regions {
  import Apportionment

  /** San Benito, Monterey, San Luis Obispo, Santa Barbara, Ventura, Los Angeles. */
  const FipsCal: set<string> := {"069", "053", "079", "083", "111", "037"}

  /** The SoCal codes as the source lists them: eleven codes, without Kings
      County ("031"), which its comment names. */
  const FipsSoCal: set<string> := {"051", "039", "019", "107", "027", "029", "071", "065", "059", "073", "025"}

  /** The SoCal set with the twelve counties its comment names, Kings
      included. */
  const IntendedFipsSoCal: set<string> := FipsSoCal + {"031"}

  /** A geographic unit (tract or precinct): its county code and its
      population, or its votes cast in the precinct-level run. */
  datatype Unit = Unit(countyFp: string, pop: nat)

  /** The county code column of the data, unit by unit. */
  function CountyCodes(units: seq<Unit>): (codes: seq<string>)
    ensures |codes| == |units|
    ensures forall i :: 0 <= i < |units| ==> codes[i] == units[i].countyFp
  {
    if |units| == 0 then [] else [units[0].countyFp] + CountyCodes(units[1..])
  }

  /** The county codes present in the data that are in neither given set. */
  function NorCalFips(codes: seq<string>, cal: set<string>, socal: set<string>): set<string>
  {
    set fp | fp in codes && fp !in cal && fp !in socal
  }

  /** The literal sets have six and eleven distinct codes and share none. */
  lemma LiteralSets()
    ensures |FipsCal| == 6 && |FipsSoCal| == 11 && |IntendedFipsSoCal| == 12
    ensures FipsCal !! FipsSoCal && FipsCal !! IntendedFipsSoCal
  {
    CalSize();
    SoCalSize();
    NotSoCal("031");
    CalCodesNotSoCal();
    assert "031" !in FipsCal;
  }

  lemma CalCodesNotSoCal()
    ensures FipsCal !! FipsSoCal
  {
    NotSoCal("069");
    NotSoCal("053");
    NotSoCal("079");
    NotSoCal("083");
    NotSoCal("111");
    NotSoCal("037");
  }

  /** A code whose last two digits no SoCal code has is not a SoCal code. */
  lemma NotSoCal(fp: string)
    requires |fp| == 3
    requires fp[1..] !in {"51", "39", "19", "07", "27", "29", "71", "65", "59", "73", "25"}
    ensures fp !in FipsSoCal
  {
  }

  lemma CalSize()
    ensures |FipsCal| == 6
  {
    assert |{"069", "053"}| == 2;
    assert |{"069", "053", "079"}| == 3;
    assert |{"069", "053", "079", "083"}| == 4;
    assert |{"069", "053", "079", "083", "111"}| == 5;
    assert |{"069", "053", "079", "083", "111", "037"}| == 6;
  }

  lemma SoCalSize()
    ensures |FipsSoCal| == 11
  {
    assert |{"051", "039"}| == 2;
    assert |{"051", "039", "019"}| == 3;
    assert |{"051", "039", "019", "107"}| == 4;
    assert |{"051", "039", "019", "107", "027"}| == 5;
    assert |{"051", "039", "019", "107", "027", "029"}| == 6;
    assert |{"051", "039", "019", "107", "027", "029", "071"}| == 7;
    assert |{"051", "039", "019", "107", "027", "029", "071", "065"}| == 8;
    assert |{"051", "039", "019", "107", "027", "029", "071", "065", "059"}| == 9;
    assert |{"051", "039", "019", "107", "027", "029", "071", "065", "059", "073"}| == 10;
    assert |{"051", "039", "019", "107", "027", "029", "071", "065", "059", "073", "025"}| == 11;
  }

  /** NorCal, Cal and SoCal are pairwise disjoint and together hold every
      county code present in the data. */
  lemma SplitPartitionsCodes(codes: seq<string>, cal: set<string>, socal: set<string>)
    requires cal !! socal
    ensures NorCalFips(codes, cal, socal) !! cal && NorCalFips(codes, cal, socal) !! socal
    ensures forall fp :: fp in codes ==> fp in NorCalFips(codes, cal, socal) + cal + socal
  {
  }

  /** As written, a Kings County unit ("031") falls in NorCal, not in SoCal. */
  lemma KingsCountyInNorCal()
    ensures "031" in NorCalFips(["031"], FipsCal, FipsSoCal)
    ensures "031" !in FipsSoCal
  {
    assert "031" in ["031"];
  }

  /** With the intended SoCal set, Kings County is in SoCal and the split
      still partitions the county codes. */
  lemma IntendedSplitPlacesKingsInSoCal(codes: seq<string>)
    ensures "031" in IntendedFipsSoCal && "031" !in NorCalFips(codes, FipsCal, IntendedFipsSoCal)
    ensures NorCalFips(codes, FipsCal, IntendedFipsSoCal) !! FipsCal
    ensures NorCalFips(codes, FipsCal, IntendedFipsSoCal) !! IntendedFipsSoCal
    ensures forall fp :: fp in codes ==> fp in NorCalFips(codes, FipsCal, IntendedFipsSoCal) + FipsCal + IntendedFipsSoCal
  {
    LiteralSets();
    SplitPartitionsCodes(codes, FipsCal, IntendedFipsSoCal);
  }

  /** Sum of the population over all units. */
  function Total(units: seq<Unit>): nat
  {
    if |units| == 0 then 0 else units[0].pop + Total(units[1..])
  }

  /** Sum of the population over the units whose county is in `fips`: the
      total of the region's subgraph. */
  function RegionTotal(units: seq<Unit>, fips: set<string>): (t: nat)
    ensures t <= Total(units)
  {
    if |units| == 0 then 0
    else (if units[0].countyFp in fips then units[0].pop else 0) + RegionTotal(units[1..], fips)
  }

  /** Three disjoint code sets covering every unit split the total. */
  lemma {:induction false} TotalSplits(units: seq<Unit>, a: set<string>, b: set<string>, c: set<string>)
    requires a !! b && a !! c && b !! c
    requires forall i :: 0 <= i < |units| ==> units[i].countyFp in a + b + c
    ensures Total(units) == RegionTotal(units, a) + RegionTotal(units, b) + RegionTotal(units, c)
  {
    if |units| > 0 {
      TotalSplits(units[1..], a, b, c);
    }
  }

  /** The NorCal, Cal and SoCal totals add up to the state total. */
  lemma {:induction false} RegionTotalsAddUp(units: seq<Unit>, cal: set<string>, socal: set<string>)
    requires cal !! socal
    ensures Total(units)
      == RegionTotal(units, NorCalFips(CountyCodes(units), cal, socal)) + RegionTotal(units, cal) + RegionTotal(units, socal)
  {
    var codes := CountyCodes(units);
    SplitPartitionsCodes(codes, cal, socal);
    forall i | 0 <= i < |units|
      ensures units[i].countyFp in NorCalFips(codes, cal, socal) + cal + socal
    {
      assert codes[i] == units[i].countyFp;
    }
    TotalSplits(units, NorCalFips(codes, cal, socal), cal, socal);
  }

  /** So, whatever the two literal sets, the rounded seat counts of the three
      regions add up to 51, 52 or 53. */
  lemma SplitSeatsNear52(units: seq<Unit>, cal: set<string>, socal: set<string>)
    requires cal !! socal && Total(units) > 0
    ensures var n, c, s := RegionTotal(units, NorCalFips(CountyCodes(units), cal, socal)),
                           RegionTotal(units, cal), RegionTotal(units, socal);
      var sum := Apportionment.Seats(n, Total(units)) + Apportionment.Seats(c, Total(units)) + Apportionment.Seats(s, Total(units));
      51 <= sum <= 53
  {
    RegionTotalsAddUp(units, cal, socal);
    Apportionment.RoundedSeatsNear52(RegionTotal(units, NorCalFips(CountyCodes(units), cal, socal)),
                                     RegionTotal(units, cal), RegionTotal(units, socal));
  }
}
