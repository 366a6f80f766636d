/** Seat apportionment for the Cal 3 regions: each region receives its
    population share of the state's 52 seats, rounded; the three counts must
    add up to 52; each region's ideal district population is its total over
    its seats. */
module Apportionment {
  import opened Results

  /** California's number of congressional seats. */
  const StateSeats: nat := 52

  /** Python's `round` on a number: the nearest integer, a tie going to the
      even neighbour. */
  function RoundHalfEven(x: real): (n: int)
    ensures x - 0.5 <= n as real <= x + 0.5
    ensures (n as real - x == 0.5 || x - n as real == 0.5) ==> n % 2 == 0
  {
    var f := x.Floor;
    var frac := x - f as real;
    if frac < 0.5 then f
    else if frac > 0.5 then f + 1
    else if f % 2 == 0 then f
    else f + 1
  }

  /** The two properties above pin the rounding down: there is one such
      integer. */
  lemma RoundHalfEvenUnique(x: real, n: int)
    requires x - 0.5 <= n as real <= x + 0.5
    requires (n as real - x == 0.5 || x - n as real == 0.5) ==> n % 2 == 0
    ensures n == RoundHalfEven(x)
  {
  }

  /** `round(52 * (pop / total))`: a region's rounded share of the seats. */
  function Seats(pop: nat, total: nat): (s: int)
    requires total > 0
    ensures pop <= total ==> 0 <= s <= StateSeats as int
  {
    ShareBound(pop, total);
    RoundHalfEven(StateSeats as real * ((pop as real) / (total as real)))
  }

  lemma ShareBound(pop: nat, total: nat)
    requires total > 0
    ensures 0.0 <= (pop as real) / (total as real)
    ensures pop <= total ==> (pop as real) / (total as real) <= 1.0
  {
    var share := (pop as real) / (total as real);
    assert share * (total as real) == pop as real;
  }

  /** `total / seats`: the ideal population of one of `seats` districts. */
  function Ideal(total: nat, seats: int): (q: real)
    requires seats != 0
    ensures q * seats as real == total as real
  {
    (total as real) / (seats as real)
  }

  /** What the set-up raises: a division by a zero state or region total, or
      seat counts that do not add up to 52. */
  datatype SetupError = ZeroDivision | SeatMismatch(norcal: int, cal: int, socal: int)

  /** Seats and ideal district populations of the state and of its regions. */
  datatype RegionSetup = RegionSetup(
    idealState: real,
    seatsNorCal: int, seatsCal: int, seatsSoCal: int,
    idealNorCal: real, idealCal: real, idealSoCal: real)

  /** The set-up of one ensemble run from the state and regional totals.
      `calIncrement` is added to Cal's rounded seats before the check: 0 in
      the tract-level run, 1 in the precinct-level run. */
  function Setup(totState: nat, totNorCal: nat, totCal: nat, totSoCal: nat, calIncrement: nat)
    : (r: Result<RegionSetup, SetupError>)
    ensures totState == 0 ==> r == Err(ZeroDivision)
    ensures totState > 0 ==>
      var n, c, s := Seats(totNorCal, totState), Seats(totCal, totState) + calIncrement, Seats(totSoCal, totState);
      && (r.Err? && r.error.SeatMismatch? <==> n + c + s != StateSeats as int)
      && (r == Err(ZeroDivision) <==> n + c + s == StateSeats as int && (n == 0 || c == 0 || s == 0))
      && (r.Err? && r.error.SeatMismatch? ==> r.error == SeatMismatch(n, c, s))
      && (r.Ok? ==> r.value.seatsNorCal == n && r.value.seatsCal == c && r.value.seatsSoCal == s)
    ensures r.Ok? ==>
      && r.value.seatsNorCal + r.value.seatsCal + r.value.seatsSoCal == StateSeats as int
      && r.value.seatsNorCal != 0 && r.value.seatsCal != 0 && r.value.seatsSoCal != 0
      && r.value.idealState == Ideal(totState, StateSeats)
      && r.value.idealNorCal == Ideal(totNorCal, r.value.seatsNorCal)
      && r.value.idealCal == Ideal(totCal, r.value.seatsCal)
      && r.value.idealSoCal == Ideal(totSoCal, r.value.seatsSoCal)
  {
    var idealState := Ideal(totState, StateSeats);
    if totState == 0 then Err(ZeroDivision)
    else
      var n, c, s := Seats(totNorCal, totState), Seats(totCal, totState), Seats(totSoCal, totState);
      var c' := c + calIncrement;
      if n + c' + s != StateSeats as int then Err(SeatMismatch(n, c', s))
      else if n == 0 || c' == 0 || s == 0 then Err(ZeroDivision)
      else
        Ok(RegionSetup(idealState, n, c', s, Ideal(totNorCal, n), Ideal(totCal, c'), Ideal(totSoCal, s)))
  }

  /** When the regions split the state, the rounded seat counts add up to 51,
      52 or 53: each is within one half of its exact share, and the shares add
      up to 52. So the check can fail by one seat either way. */
  lemma RoundedSeatsNear52(totNorCal: nat, totCal: nat, totSoCal: nat)
    requires totNorCal + totCal + totSoCal > 0
    ensures var t := totNorCal + totCal + totSoCal;
      var sum := Seats(totNorCal, t) + Seats(totCal, t) + Seats(totSoCal, t);
      StateSeats as int - 1 <= sum <= StateSeats as int + 1
  {
    var t := totNorCal + totCal + totSoCal;
    var T := t as real;
    var a, b, c := (totNorCal as real) / T, (totCal as real) / T, (totSoCal as real) / T;
    assert a * T == totNorCal as real && b * T == totCal as real && c * T == totSoCal as real;
    assert (a + b + c) * T == a * T + b * T + c * T;
    assert a + b + c == 1.0;
    var sum := Seats(totNorCal, t) + Seats(totCal, t) + Seats(totSoCal, t);
    assert 52.0 * a + 52.0 * b + 52.0 * c == 52.0;
    assert 50.5 <= sum as real <= 53.5;
  }

  /** Regional totals 92, 77 and 91 of 260 have shares 18.4, 15.4 and 18.2
      seats, which round to 18, 15 and 18: 51 seats. The tract-level set-up
      raises; the precinct-level one, which adds Cal's missing seat, succeeds. */
  lemma SeatCheckExample()
    ensures Setup(260, 92, 77, 91, 0) == Err(SeatMismatch(18, 15, 18))
    ensures Setup(260, 92, 77, 91, 1).Ok?
    ensures Setup(260, 92, 77, 91, 1).value.seatsCal == 16
  {
    assert StateSeats as real * ((92 as real) / (260 as real)) == 18.4;
    assert StateSeats as real * ((77 as real) / (260 as real)) == 15.4;
    assert StateSeats as real * ((91 as real) / (260 as real)) == 18.2;
    assert (18.4).Floor == 18 && (15.4).Floor == 15 && (18.2).Floor == 18;
  }
}
