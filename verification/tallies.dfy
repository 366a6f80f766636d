/** What both statistic walks share: the strict "more than half" ratio test
    applied to per-district tallies, and the errors reading those tallies can
    raise. */
module Tallies {
  import opened Results

  /** The exceptions a walk over the chain can raise: a tally without an entry
      for district label `district` (Python KeyError), or a division by a zero
      vote or population total (Python ZeroDivisionError). */
  datatype WalkError = MissingDistrict(district: nat) | ZeroDivision

  /** The source's test `part / whole > 0.5`, over exact reals. */
  predicate ExceedsHalf(part: nat, whole: nat)
    requires whole > 0
  {
    (part as real) / (whole as real) > 0.5
  }

  /** The ratio test is the integer comparison `2 * part > whole`: a share of
      exactly one half is not a majority. */
  lemma ExceedsHalfIff(part: nat, whole: nat)
    requires whole > 0
    ensures ExceedsHalf(part, whole) <==> 2 * part > whole
  {
    var p, w := part as real, whole as real;
    var q := p / w;
    assert q * w == p;
    var d := q - 0.5;
    assert d * w == p - 0.5 * w;
    if d > 0.0 {
      PositiveProduct(d, w);
    } else {
      PositiveProduct(-d, w);
    }
  }

  lemma PositiveProduct(a: real, b: real)
    requires a >= 0.0 && b > 0.0
    ensures a * b >= 0.0 && (a > 0.0 ==> a * b > 0.0)
  {
  }

  /** Districts 0 .. n-1 can all be read and divided by: every tally read
      before the division has an entry for labels below `width`, and `total`,
      the tally divided by, has a nonzero entry for each of them. */
  predicate DistrictsOk(width: nat, total: seq<nat>, n: nat)
  {
    n <= width && n <= |total| && forall i :: 0 <= i < n ==> total[i] > 0
  }

  /** What reading district `i` raises, if anything: a missing entry raises a
      KeyError for `i`, whichever tally misses it; then a zero total cannot be
      divided by. */
  function DistrictFault(width: nat, total: seq<nat>, i: nat): Option<WalkError>
  {
    if i >= width || i >= |total| then Some(MissingDistrict(i))
    else if total[i] == 0 then Some(ZeroDivision)
    else None
  }

  /** No district below label `i` faults. */
  predicate FaultFree(width: nat, total: seq<nat>, i: nat)
  {
    forall l :: 0 <= l < i ==> DistrictFault(width, total, l) == None
  }

  /** The fault met while reading districts 0 .. n-1 in label order: that of
      the lowest label that faults, the one at which the loop stops. */
  function FirstFault(width: nat, total: seq<nat>, n: nat): (f: Option<WalkError>)
    ensures f == None <==> DistrictsOk(width, total, n)
  {
    if n == 0 then None
    else if FirstFault(width, total, n - 1).Some? then FirstFault(width, total, n - 1)
    else DistrictFault(width, total, n - 1)
  }

  /** A fault met among districts 0 .. n-1 is that of the lowest label that
      faults: every label below it reads cleanly. */
  lemma {:induction false} FirstFaultIsLowest(width: nat, total: seq<nat>, n: nat)
    requires FirstFault(width, total, n).Some?
    ensures exists i :: 0 <= i < n && DistrictFault(width, total, i) == FirstFault(width, total, n) &&
                        FaultFree(width, total, i)
  {
    if FirstFault(width, total, n - 1).Some? {
      FirstFaultIsLowest(width, total, n - 1);
    } else {
      assert DistrictFault(width, total, n - 1) == FirstFault(width, total, n) && FaultFree(width, total, n - 1);
    }
  }

  /** Once a fault is met, reading more districts reports that same fault. */
  lemma {:induction false} FaultPersists(width: nat, total: seq<nat>, n: nat, m: nat)
    requires n <= m && FirstFault(width, total, n).Some?
    ensures FirstFault(width, total, m) == FirstFault(width, total, n)
  {
    if n < m {
      FaultPersists(width, total, n, m - 1);
    }
  }

  /** Every entry of a tally is positive, so each can be divided by. */
  predicate Positive(tally: seq<nat>)
  {
    forall i :: 0 <= i < |tally| ==> tally[i] > 0
  }
}
