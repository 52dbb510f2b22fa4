/**
 * Day 7: crabs at integer positions must all move to one endpoint. Moving a
 * distance d costs d fuel in part 1 and 1 + 2 + ... + d in part 2; the answer
 * is the cheapest endpoint between the smallest and the largest position.
 */
module Day7 {
  import opened Base
  import opened Text

  /** The positions on the single input line, or None for the panics. */
  function Positions(data: seq<string>): Option<seq<int>>
  {
    if |data| != 1 then None else ParseAll(Split(data[0], ","))
  }

  /**
   * `counterize`: the one input line must hold comma-separated integers; the
   * result maps each position to the number of crabs there.
   */
  method Counterize(data: seq<string>) returns (r: Option<map<int, int>>)
    ensures r.Some? <==> Positions(data).Some?
    ensures r.Some? ==> r.value == Tally(Positions(data).value)
  {
    if |data| != 1 {
      return None;
    }
    var values := ParseAll(Split(data[0], ","));
    if values.None? {
      return None;
    }
    var res := TallyValues(values.value);
    return Some(res);
  }

  /** The fuel one crab at v spends to reach the endpoint in part 1. */
  function Distance(endpoint: int): int -> int
  {
    v => Abs(v - endpoint)
  }

  /** `get_abs_delta_sum`: count * |value - endpoint| summed over the map. */
  function AbsDeltaSum(counts: map<int, int>, endpoint: int): int
  {
    MapSumOf(counts, Weighted(Distance(endpoint)))
  }

  /** On a tally, the map sum is the total distance of the individual crabs. */
  lemma AbsDeltaSumOfCrabs(values: seq<int>, endpoint: int)
    ensures AbsDeltaSum(Tally(values), endpoint) == SumMapped(values, Distance(endpoint))
  {
    TallyWeighted(values, Distance(endpoint));
  }

  /** The total distance is never negative, and is zero exactly when every crab is already at the endpoint. */
  lemma AbsDeltaSumZero(values: seq<int>, endpoint: int)
    ensures AbsDeltaSum(Tally(values), endpoint) >= 0
    ensures AbsDeltaSum(Tally(values), endpoint) == 0 <==> forall i :: 0 <= i < |values| ==> values[i] == endpoint
  {
    AbsDeltaSumOfCrabs(values, endpoint);
    forall i | 0 <= i < |values|
      ensures Distance(endpoint)(values[i]) >= 0
      ensures Distance(endpoint)(values[i]) == 0 <==> values[i] == endpoint
    {
      assert Distance(endpoint)(values[i]) == Abs(values[i] - endpoint);
    }
    SumMappedZero(values, Distance(endpoint));
  }

  /**
   * `triangle`: val * (val + 1) / 2. The product of two consecutive integers is
   * even and never negative, so truncating and Euclidean division agree.
   */
  function Triangle(val: int): int
  {
    Product(val, val + 1) / 2
  }

  /** 0 + 1 + ... + n. */
  function Series(n: nat): nat
  {
    if n == 0 then 0 else Series(n - 1) + n
  }

  lemma {:induction false} DoubleSeries(n: nat)
    ensures 2 * Series(n) == Product(n, n + 1)
  {
    if n > 0 {
      DoubleSeries(n - 1);
      assert Product(n, n + 1) == Product(n - 1, n) + 2 * n;
    }
  }

  /** For n >= 0 the closed form is the sum 1 + 2 + ... + n. */
  lemma TriangleIsSeries(n: nat)
    ensures Triangle(n) == Series(n)
  {
    DoubleSeries(n);
  }

  lemma {:induction false} SeriesMonotone(a: nat, b: nat)
    requires a <= b
    ensures Series(a) <= Series(b)
    decreases b
  {
    if a < b {
      SeriesMonotone(a, b - 1);
    }
  }

  /** The fuel one crab at v spends to reach the endpoint in part 2. */
  function TriangleCost(endpoint: int): int -> int
  {
    v => Triangle(Abs(v - endpoint))
  }

  /** `get_abs_delta_triangle_sum`: count * triangle(|value - endpoint|) summed over the map. */
  function AbsDeltaTriangleSum(counts: map<int, int>, endpoint: int): int
  {
    MapSumOf(counts, Weighted(TriangleCost(endpoint)))
  }

  lemma AbsDeltaTriangleSumOfCrabs(values: seq<int>, endpoint: int)
    ensures AbsDeltaTriangleSum(Tally(values), endpoint) == SumMapped(values, TriangleCost(endpoint))
  {
    TallyWeighted(values, TriangleCost(endpoint));
  }

  /**
   * `(lo..=hi).map(cost).min()`: the least cost over the endpoints lo..hi,
   * which one of them attains.
   */
  function MinCost(lo: int, hi: int, cost: int -> int): (r: int)
    requires lo <= hi
    ensures exists e :: lo <= e <= hi && r == cost(e)
    ensures forall e :: lo <= e <= hi ==> r <= cost(e)
    decreases hi - lo
  {
    if lo == hi then
      assert lo <= lo <= hi && cost(lo) == cost(lo);
      cost(lo)
    else
      var rest := MinCost(lo, hi - 1, cost);
      if cost(hi) < rest then
        assert lo <= hi <= hi && cost(hi) == cost(hi);
        cost(hi)
      else
        rest
  }

  /** The cost functions of the two parts, as functions of the endpoint. */
  function Part1Cost(counts: map<int, int>): int -> int
  {
    e => AbsDeltaSum(counts, e)
  }

  function Part2Cost(counts: map<int, int>): int -> int
  {
    e => AbsDeltaTriangleSum(counts, e)
  }

  /** The answer for the counted positions with the given cost: min over min key ..= max key. */
  function Cheapest(counts: map<int, int>, cost: int -> int): (r: int)
    requires counts.Keys != {}
  {
    MinCost(MinKey(counts.Keys), MaxKey(counts.Keys), cost)
  }

  /** `solution_impl_1`. */
  method SolvePart1(data: seq<string>) returns (r: Option<int>)
    ensures r.Some? <==> Positions(data).Some?
    ensures r.Some? ==> Tally(Positions(data).value).Keys != {}
    ensures r.Some? ==> r.value == Cheapest(Tally(Positions(data).value), Part1Cost(Tally(Positions(data).value)))
  {
    var counts := Counterize(data);
    if counts.None? {
      return None;
    }
    assert |Positions(data).value| == |Split(data[0], ",")| >= 1;
    NonEmptyTally(Positions(data).value);
    r := Some(Cheapest(counts.value, Part1Cost(counts.value)));
  }

  /** `solution_impl_2`. */
  method SolvePart2(data: seq<string>) returns (r: Option<int>)
    ensures r.Some? <==> Positions(data).Some?
    ensures r.Some? ==> Tally(Positions(data).value).Keys != {}
    ensures r.Some? ==> r.value == Cheapest(Tally(Positions(data).value), Part2Cost(Tally(Positions(data).value)))
  {
    var counts := Counterize(data);
    if counts.None? {
      return None;
    }
    assert |Positions(data).value| == |Split(data[0], ",")| >= 1;
    NonEmptyTally(Positions(data).value);
    r := Some(Cheapest(counts.value, Part2Cost(counts.value)));
  }

  /** A line always splits into at least one piece, so a parsed line has at least one crab. */
  lemma NonEmptyTally(values: seq<int>)
    requires |values| >= 1
    ensures Tally(values).Keys != {}
  {
    TallyCounts(values);
    var t := Tally(values);
    var v := values[0];
    assert v in values;
    assert v in t;
    assert v in t.Keys;
  }

  /** Every crab sits between the smallest and the largest key of the tally. */
  lemma KeysBound(values: seq<int>)
    requires |values| >= 1
    ensures Tally(values).Keys != {}
    ensures forall i :: 0 <= i < |values| ==>
      MinKey(Tally(values).Keys) <= values[i] <= MaxKey(Tally(values).Keys)
  {
    NonEmptyTally(values);
    TallyCounts(values);
    forall i | 0 <= i < |values|
      ensures MinKey(Tally(values).Keys) <= values[i] <= MaxKey(Tally(values).Keys)
    {
      assert values[i] in Tally(values).Keys;
    }
  }

  /** The endpoint in lo..hi nearest to e. */
  function Clamp(lo: int, hi: int, e: int): (r: int)
    requires lo <= hi
    ensures lo <= r <= hi
  {
    if e < lo then lo else if e > hi then hi else e
  }

  /** A crab between lo and hi is no further from the clamped endpoint than from e. */
  lemma ClampIsCloser(v: int, lo: int, hi: int, e: int)
    requires lo <= v <= hi
    ensures Abs(v - Clamp(lo, hi, e)) <= Abs(v - e)
  {
  }

  lemma TriangleMonotone(a: nat, b: nat)
    requires a <= b
    ensures Triangle(a) <= Triangle(b)
  {
    TriangleIsSeries(a);
    TriangleIsSeries(b);
    SeriesMonotone(a, b);
  }

  /** The answer is at most the cost of any endpoint the range covers. */
  lemma CheapestBelow(counts: map<int, int>, cost: int -> int, e: int)
    requires counts.Keys != {}
    requires MinKey(counts.Keys) <= e <= MaxKey(counts.Keys)
    ensures Cheapest(counts, cost) <= cost(e)
  {
  }

  /** Moving the endpoint into lo..hi brings every crab of lo..hi closer, in part 1 ... */
  lemma ClampedDistance(values: seq<int>, lo: int, hi: int, e: int)
    requires lo <= hi
    requires forall i :: 0 <= i < |values| ==> lo <= values[i] <= hi
    ensures SumMapped(values, Distance(Clamp(lo, hi, e))) <= SumMapped(values, Distance(e))
  {
    var near := Clamp(lo, hi, e);
    forall i | 0 <= i < |values|
      ensures Distance(near)(values[i]) <= Distance(e)(values[i])
    {
      ClampIsCloser(values[i], lo, hi, e);
    }
    SumMappedMonotone(values, Distance(near), Distance(e));
  }

  /** ... and in part 2. */
  lemma ClampedTriangle(values: seq<int>, lo: int, hi: int, e: int)
    requires lo <= hi
    requires forall i :: 0 <= i < |values| ==> lo <= values[i] <= hi
    ensures SumMapped(values, TriangleCost(Clamp(lo, hi, e))) <= SumMapped(values, TriangleCost(e))
  {
    var near := Clamp(lo, hi, e);
    forall i | 0 <= i < |values|
      ensures TriangleCost(near)(values[i]) <= TriangleCost(e)(values[i])
    {
      ClampIsCloser(values[i], lo, hi, e);
      TriangleMonotone(Abs(values[i] - near), Abs(values[i] - e));
    }
    SumMappedMonotone(values, TriangleCost(near), TriangleCost(e));
  }

  /**
   * Part 1 finds the cheapest endpoint among ALL integers, not just among the
   * endpoints it tries: going below the smallest or above the largest crab only
   * moves every crab further.
   */
  lemma Part1IsOptimal(values: seq<int>, e: int)
    requires |values| >= 1
    ensures Tally(values).Keys != {}
    ensures Cheapest(Tally(values), Part1Cost(Tally(values))) <= AbsDeltaSum(Tally(values), e)
  {
    KeysBound(values);
    var counts := Tally(values);
    var lo := MinKey(counts.Keys);
    var hi := MaxKey(counts.Keys);
    CheapestBelow(counts, Part1Cost(counts), Clamp(lo, hi, e));
    AbsDeltaSumOfCrabs(values, Clamp(lo, hi, e));
    AbsDeltaSumOfCrabs(values, e);
    ClampedDistance(values, lo, hi, e);
  }

  /** The same for part 2: a triangle cost grows with the distance. */
  lemma Part2IsOptimal(values: seq<int>, e: int)
    requires |values| >= 1
    ensures Tally(values).Keys != {}
    ensures Cheapest(Tally(values), Part2Cost(Tally(values))) <= AbsDeltaTriangleSum(Tally(values), e)
  {
    KeysBound(values);
    var counts := Tally(values);
    var lo := MinKey(counts.Keys);
    var hi := MaxKey(counts.Keys);
    CheapestBelow(counts, Part2Cost(counts), Clamp(lo, hi, e));
    AbsDeltaTriangleSumOfCrabs(values, Clamp(lo, hi, e));
    AbsDeltaTriangleSumOfCrabs(values, e);
    ClampedTriangle(values, lo, hi, e);
  }
}
