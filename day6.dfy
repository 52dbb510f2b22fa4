/**
 * Day 6: a lanternfish population kept as a map from timer value to the
 * number of fish with that timer. Each day timers count down; fish at 0 reset
 * to 6 and each spawns a new fish at 8.
 */
module Day6 {
  import opened Base
  import opened Text

  /** The timer values 0..8 the step rewrites. */
  predicate IsTimer(k: int)
  {
    0 <= k <= 8
  }

  /** The counters after one step. */
  function Stepped(m: map<int, int>): map<int, int>
  {
    map k | k in m.Keys + {0, 1, 2, 3, 4, 5, 6, 7, 8} :: Shift(m, k)
  }

  /**
   * What one step does to the counters: timer k - 1 takes the old count at k,
   * timer 6 also gains the fish that were at 0, and timer 8 gets one new fish
   * for each of them. Keys outside 0..8 are left as they were; all of 0..8 are
   * present afterwards.
   */
  lemma SteppedEntries(m: map<int, int>)
    ensures forall k :: k in Stepped(m) <==> k in m || IsTimer(k)
    ensures 0 in Stepped(m) && Stepped(m)[0] == Get(m, 1)
    ensures 1 in Stepped(m) && Stepped(m)[1] == Get(m, 2)
    ensures 2 in Stepped(m) && Stepped(m)[2] == Get(m, 3)
    ensures 3 in Stepped(m) && Stepped(m)[3] == Get(m, 4)
    ensures 4 in Stepped(m) && Stepped(m)[4] == Get(m, 5)
    ensures 5 in Stepped(m) && Stepped(m)[5] == Get(m, 6)
    ensures 6 in Stepped(m) && Stepped(m)[6] == Get(m, 7) + Get(m, 0)
    ensures 7 in Stepped(m) && Stepped(m)[7] == Get(m, 8)
    ensures 8 in Stepped(m) && Stepped(m)[8] == Get(m, 0)
    ensures forall k :: k in m && !IsTimer(k) ==> Stepped(m)[k] == m[k]
  {
  }

  /** The count that timer k holds after one step. */
  function Shift(m: map<int, int>, k: int): int
    requires k in m || IsTimer(k)
  {
    match k
    case 0 => Get(m, 1)
    case 1 => Get(m, 2)
    case 2 => Get(m, 3)
    case 3 => Get(m, 4)
    case 4 => Get(m, 5)
    case 5 => Get(m, 6)
    case 6 => Get(m, 7) + Get(m, 0)
    case 7 => Get(m, 8)
    case 8 => Get(m, 0)
    case _ => m[k]
  }

  /** The counters after n steps. */
  function Iterate(m: map<int, int>, n: nat): map<int, int>
  {
    if n == 0 then m else Stepped(Iterate(m, n - 1))
  }

  /** Sum of the counts at timers 0..n-1. */
  function Low(m: map<int, int>, n: nat): int
  {
    if n == 0 then 0 else Low(m, n - 1) + Get(m, n - 1)
  }

  /** The entries at keys outside 0..n-1. */
  function Drop(m: map<int, int>, n: nat): map<int, int>
  {
    map k | k in m && !(0 <= k < n) :: m[k]
  }

  lemma {:induction false} SizeSplits(m: map<int, int>, n: nat)
    ensures MapSumOf(m, CountOf) == Low(m, n) + MapSumOf(Drop(m, n), CountOf)
  {
    if n == 0 {
      assert Drop(m, 0) == m;
    } else {
      SizeSplits(m, n - 1);
      var k := n - 1;
      if k in m {
        MapSumOfRemove(Drop(m, k), CountOf, k);
        assert Drop(m, k) - {k} == Drop(m, n);
      } else {
        assert Drop(m, k) == Drop(m, n);
      }
    }
  }

  lemma LowNine(m: map<int, int>)
    ensures Low(m, 9) == Get(m, 0) + Get(m, 1) + Get(m, 2) + Get(m, 3) + Get(m, 4)
                       + Get(m, 5) + Get(m, 6) + Get(m, 7) + Get(m, 8)
  {
    assert Low(m, 1) == Get(m, 0);
    assert Low(m, 2) == Low(m, 1) + Get(m, 1);
    assert Low(m, 3) == Low(m, 2) + Get(m, 2);
    assert Low(m, 4) == Low(m, 3) + Get(m, 3);
    assert Low(m, 5) == Low(m, 4) + Get(m, 4);
    assert Low(m, 6) == Low(m, 5) + Get(m, 5);
    assert Low(m, 7) == Low(m, 6) + Get(m, 6);
    assert Low(m, 8) == Low(m, 7) + Get(m, 7);
  }

  /** The sum of all counters: `size()`. */
  function Population(m: map<int, int>): int
  {
    MapSumOf(m, CountOf)
  }

  /** A step adds exactly one new fish for each fish whose timer was 0. */
  lemma SizeAfterStep(m: map<int, int>)
    ensures Population(Stepped(m)) == Population(m) + Get(m, 0)
  {
    var r := Stepped(m);
    SteppedEntries(m);
    SizeSplits(m, 9);
    SizeSplits(r, 9);
    LowNine(m);
    LowNine(r);
    assert Drop(r, 9) == Drop(m, 9);
  }

  /** No timer holds a negative count. */
  ghost predicate NonNegative(m: map<int, int>)
  {
    forall k :: k in m ==> m[k] >= 0
  }

  /** Counts that start non-negative stay non-negative. */
  lemma StepKeepsCountsNonNegative(m: map<int, int>)
    requires NonNegative(m)
    ensures NonNegative(Stepped(m))
    ensures Get(m, 0) >= 0
  {
    SteppedEntries(m);
  }

  /** Counts that start non-negative stay non-negative for any number of steps. */
  lemma {:induction false} IterateNonNegative(m: map<int, int>, n: nat)
    requires NonNegative(m)
    ensures NonNegative(Iterate(m, n))
  {
    if n > 0 {
      IterateNonNegative(m, n - 1);
      StepKeepsCountsNonNegative(Iterate(m, n - 1));
    }
  }

  /** Over n steps the population never shrinks, when the counts are non-negative. */
  lemma {:induction false} PopulationNeverShrinks(m: map<int, int>, n: nat)
    requires NonNegative(m)
    ensures Population(Iterate(m, n)) >= Population(m)
  {
    if n > 0 {
      var p := Iterate(m, n - 1);
      PopulationNeverShrinks(m, n - 1);
      IterateNonNegative(m, n - 1);
      StepKeepsCountsNonNegative(p);
      SizeAfterStep(p);
      assert Iterate(m, n) == Stepped(p);
    }
  }

  /** Timers 0..n-1 hold the old counts of 1..n; every other key is as it was. */
  ghost predicate ShiftedBelow(start: map<int, int>, c: map<int, int>, n: int)
  {
    && (forall k :: 0 <= k < n ==> k in c && c[k] == Get(start, k + 1))
    && (forall k :: !(0 <= k < n) ==> (k in c <==> k in start) && (k in c ==> c[k] == start[k]))
  }

  /** Moving the count at n + 1 down to n extends the shifted prefix by one. */
  lemma ShiftOne(start: map<int, int>, c: map<int, int>, n: int)
    requires 0 <= n < 8 && ShiftedBelow(start, c, n)
    ensures ShiftedBelow(start, c[n := Get(c, n + 1)], n + 1)
  {
    assert Get(c, n + 1) == Get(start, n + 1);
  }

  /** Once timers 1..8 have moved down one place, adding the spawning fish at 6 and 8 completes the step. */
  lemma ShiftedThenSpawned(start: map<int, int>, c: map<int, int>)
    requires ShiftedBelow(start, c, 8)
    ensures 6 in c && c[6 := c[6] + Get(start, 0)][8 := Get(start, 0)] == Stepped(start)
  {
    var r := Stepped(start);
    SteppedEntries(start);
    var d := c[6 := c[6] + Get(start, 0)][8 := Get(start, 0)];
    assert forall k :: k in d <==> k in r;
    assert forall k :: k in d ==> d[k] == r[k];
  }

  // A reference model: the school as a list of individual timers.

  /** One fish's timer after a day: 0 wraps to 6, anything else counts down. */
  function Age(t: int): int
  {
    if t == 0 then 6 else t - 1
  }

  function Aged(fish: seq<int>): (r: seq<int>)
    ensures |r| == |fish| && forall i :: 0 <= i < |fish| ==> r[i] == Age(fish[i])
  {
    if fish == [] then [] else Aged(fish[..|fish| - 1]) + [Age(fish[|fish| - 1])]
  }

  /** One day for the list: every fish ages and each fish that was at 0 adds a new fish at 8. */
  function FishStep(fish: seq<int>): seq<int>
  {
    Aged(fish) + seq(multiset(fish)[0], _ => 8)
  }

  function FishIterate(fish: seq<int>, n: nat): seq<int>
  {
    if n == 0 then fish else FishStep(FishIterate(fish, n - 1))
  }

  predicate AllTimers(fish: seq<int>)
  {
    forall i :: 0 <= i < |fish| ==> IsTimer(fish[i])
  }

  /** The fish the counters describe: every key holds the number of fish with that timer. */
  ghost predicate Describes(m: map<int, int>, fish: seq<int>)
  {
    forall k :: Get(m, k) == multiset(fish)[k]
  }

  lemma FishStepKeepsTimers(fish: seq<int>)
    requires AllTimers(fish)
    ensures AllTimers(FishStep(fish))
  {
  }

  /** Ageing moves the fish at k + 1 to k, and the fish at 0 to 6. */
  lemma {:induction false} AgedCounts(fish: seq<int>, k: int)
    ensures multiset(Aged(fish))[k]
         == (if k + 1 != 0 then multiset(fish)[k + 1] else 0) + (if k == 6 then multiset(fish)[0] else 0)
    decreases |fish|
  {
    if fish != [] {
      var init, x := fish[..|fish| - 1], fish[|fish| - 1];
      assert fish == init + [x];
      AgedCounts(init, k);
      AgedSnoc(init, x, k);
      assert Age(x) == k <==> (x == k + 1 && k + 1 != 0) || (k == 6 && x == 0);
    }
  }

  /** One more fish adds its aged timer to the aged counts. */
  lemma AgedSnoc(init: seq<int>, x: int, k: int)
    ensures multiset(Aged(init + [x]))[k] == multiset(Aged(init))[k] + (if Age(x) == k then 1 else 0)
    ensures multiset(init + [x])[k] == multiset(init)[k] + (if x == k then 1 else 0)
  {
    assert (init + [x])[..|init|] == init;
    assert Aged(init + [x]) == Aged(init) + [Age(x)];
  }

  lemma SpawnedCounts(n: nat, k: int)
    ensures multiset(seq(n, _ => 8))[k] == if k == 8 then n else 0
  {
    if n > 0 {
      SpawnedCounts(n - 1, k);
      assert seq(n, _ => 8) == seq(n - 1, _ => 8) + [8];
    }
  }

  /** A timer no fish has is counted zero times. */
  lemma Absent(fish: seq<int>, k: int)
    requires AllTimers(fish) && !IsTimer(k)
    ensures multiset(fish)[k] == 0
  {
    assert forall i :: 0 <= i < |fish| ==> fish[i] != k;
    assert k !in fish;
  }

  /** The step read through `Get`: timer k takes the count at k + 1, with the spawning fish added at 6 and 8. */
  lemma SteppedGet(m: map<int, int>, k: int)
    ensures Get(Stepped(m), k)
         == if k == 6 then Get(m, 7) + Get(m, 0)
            else if k == 8 then Get(m, 0)
            else if IsTimer(k) then Get(m, k + 1)
            else Get(m, k)
  {
    SteppedEntries(m);
    if !IsTimer(k) {
      assert k in Stepped(m) <==> k in m;
    }
  }

  lemma StepMatchesFishAt(m: map<int, int>, fish: seq<int>, k: int)
    requires AllTimers(fish) && Describes(m, fish)
    ensures Get(Stepped(m), k) == multiset(FishStep(fish))[k]
  {
    var next := FishStep(fish);
    SteppedGet(m, k);
    AgedCounts(fish, k);
    SpawnedCounts(multiset(fish)[0], k);
    assert multiset(next)[k] == multiset(Aged(fish))[k] + multiset(seq(multiset(fish)[0], _ => 8))[k];
    assert Get(m, k + 1) == multiset(fish)[k + 1];
    assert Get(m, 0) == multiset(fish)[0];
    if !IsTimer(k) {
      Absent(fish, k);
      if k != -1 {
        Absent(fish, k + 1);
      }
      assert Get(m, k) == 0;
    }
  }

  /** The counter step is the list step, seen through the counts. */
  lemma StepMatchesFish(m: map<int, int>, fish: seq<int>)
    requires AllTimers(fish) && Describes(m, fish)
    ensures Describes(Stepped(m), FishStep(fish))
  {
    forall k
      ensures Get(Stepped(m), k) == multiset(FishStep(fish))[k]
    {
      StepMatchesFishAt(m, fish, k);
    }
  }

  /** Sum of the multiplicities of 0..n-1. */
  function CountBelow(fish: seq<int>, n: nat): int
  {
    if n == 0 then 0 else CountBelow(fish, n - 1) + multiset(fish)[n - 1]
  }

  lemma {:induction false} CountBelowSnoc(fish: seq<int>, x: int, n: nat)
    ensures CountBelow(fish + [x], n) == CountBelow(fish, n) + (if 0 <= x < n then 1 else 0)
  {
    if n > 0 {
      CountBelowSnoc(fish, x, n - 1);
    }
  }

  lemma {:induction false} CountBelowEmpty(n: nat)
    ensures CountBelow([], n) == 0
  {
    if n > 0 {
      CountBelowEmpty(n - 1);
    }
  }

  lemma {:induction false} CountBelowNine(fish: seq<int>)
    requires AllTimers(fish)
    ensures CountBelow(fish, 9) == |fish|
    decreases |fish|
  {
    if fish != [] {
      var init := fish[..|fish| - 1];
      CountBelowNine(init);
      assert fish == init + [fish[|fish| - 1]];
      var x := fish[|fish| - 1];
      assert IsTimer(x);
      CountBelowSnoc(init, x, 9);
    } else {
      CountBelowEmpty(9);
    }
  }

  lemma {:induction false} LowIsCountBelow(m: map<int, int>, fish: seq<int>, n: nat)
    requires Describes(m, fish)
    ensures Low(m, n) == CountBelow(fish, n)
  {
    if n > 0 {
      LowIsCountBelow(m, fish, n - 1);
    }
  }

  lemma {:induction false} ZeroSum(m: map<int, int>)
    requires forall k :: k in m ==> m[k] == 0
    ensures MapSumOf(m, CountOf) == 0
    decreases |m.Keys|
  {
    if m.Keys != {} {
      var k := MinKey(m.Keys);
      assert (m - {k}).Keys == m.Keys - {k};
      ZeroSum(m - {k});
    }
  }

  /** Counters that describe a list of timers hold exactly as many fish as the list. */
  lemma PopulationIsFishCount(m: map<int, int>, fish: seq<int>)
    requires AllTimers(fish) && Describes(m, fish)
    ensures Population(m) == |fish|
  {
    SizeSplits(m, 9);
    LowIsCountBelow(m, fish, 9);
    CountBelowNine(fish);
    var rest := Drop(m, 9);
    forall k | k in rest
      ensures rest[k] == 0
    {
      assert Get(m, k) == multiset(fish)[k];
      Absent(fish, k);
    }
    ZeroSum(rest);
  }

  lemma {:induction false} IterateMatchesFish(m: map<int, int>, fish: seq<int>, n: nat)
    requires AllTimers(fish) && Describes(m, fish)
    ensures AllTimers(FishIterate(fish, n)) && Describes(Iterate(m, n), FishIterate(fish, n))
  {
    if n > 0 {
      IterateMatchesFish(m, fish, n - 1);
      FishStepKeepsTimers(FishIterate(fish, n - 1));
      StepMatchesFish(Iterate(m, n - 1), FishIterate(fish, n - 1));
    }
  }

  /**
   * The simulation counts the fish of the list model: starting from the tally of
   * valid timers, the population after n days is the length of the list after n days.
   */
  lemma SimulationCountsFish(fish: seq<int>, n: nat)
    requires AllTimers(fish)
    ensures Population(Iterate(Tally(fish), n)) == |FishIterate(fish, n)|
  {
    forall k
      ensures Get(Tally(fish), k) == multiset(fish)[k]
    {
      TallyGet(fish, k);
    }
    IterateMatchesFish(Tally(fish), fish, n);
    PopulationIsFishCount(Iterate(Tally(fish), n), FishIterate(fish, n));
  }

  class LanternfishAutomata {
    /** Timer value -> number of fish with that timer. */
    var counters: map<int, int>

    constructor (m: map<int, int>)
      ensures counters == m
    {
      counters := m;
    }

    /**
     * `from_input`: one fish per comma-separated timer; a piece that is not
     * an integer is the `unwrap` panic (None).
     */
    static method FromInput(s: string) returns (r: Option<LanternfishAutomata>)
      ensures r.Some? <==> ParseAll(Split(s, ",")).Some?
      ensures r.Some? ==> fresh(r.value) && r.value.counters == Tally(ParseAll(Split(s, ",")).value)
    {
      var values := ParseAll(Split(s, ","));
      if values.None? {
        return None;
      }
      var counters := TallyValues(values.value);
      var automata := new LanternfishAutomata(counters);
      return Some(automata);
    }

    /** `step`: shifts timers 1..8 down by one, then adds the spawning fish at 6 and 8. */
    method Step()
      modifies this
      ensures counters == Stepped(old(counters))
    {
      ghost var start := counters;
      var newFish := Get(counters, 0);
      for counter := 1 to 9
        invariant ShiftedBelow(start, counters, counter - 1)
      {
        ShiftOne(start, counters, counter - 1);
        counters := counters[counter - 1 := Get(counters, counter)];
      }
      ShiftedThenSpawned(start, counters);
      counters := counters[6 := counters[6] + newFish];
      counters := counters[8 := newFish];
    }

    /** `size()`: the number of fish, whichever list of timers the counters stand for. */
    function Size(): (n: int)
      reads this
      ensures n == Population(counters)
      ensures forall fish :: AllTimers(fish) && Describes(counters, fish) ==> n == |fish|
    {
      assert forall fish :: AllTimers(fish) && Describes(counters, fish) ==> Population(counters) == |fish| by {
        forall fish | AllTimers(fish) && Describes(counters, fish)
          ensures Population(counters) == |fish|
        {
          PopulationIsFishCount(counters, fish);
        }
      }
      MapSumOf(counters, CountOf)
    }
  }

  /** One line of comma-separated timers, simulated for `days` days. */
  method Simulate(data: seq<string>, days: nat) returns (r: Option<int>)
    ensures r.Some? <==> |data| == 1 && ParseAll(Split(data[0], ",")).Some?
    ensures r.Some? ==> r.value == Population(Iterate(Tally(ParseAll(Split(data[0], ",")).value), days))
  {
    if |data| != 1 {
      return None;
    }
    var automata := LanternfishAutomata.FromInput(data[0]);
    if automata.None? {
      return None;
    }
    var fish := automata.value;
    ghost var start := fish.counters;
    for day := 0 to days
      invariant fish.counters == Iterate(start, day)
    {
      fish.Step();
    }
    return Some(fish.Size());
  }

  /**
   * The population is at least the number of fish read: the tally counts each
   * parsed timer once and no step removes fish.
   */
  lemma SimulationAtLeastInput(values: seq<int>, days: nat)
    ensures Population(Iterate(Tally(values), days)) >= |values|
  {
    TallyCounts(values);
    TallyTotal(values);
    assert NonNegative(Tally(values));
    PopulationNeverShrinks(Tally(values), days);
  }

  /** Part 1: the number of fish after 80 days. */
  method SolvePart1(data: seq<string>) returns (r: Option<int>)
    ensures r.Some? <==> |data| == 1 && ParseAll(Split(data[0], ",")).Some?
    ensures r.Some? ==> r.value == Population(Iterate(Tally(ParseAll(Split(data[0], ",")).value), 80))
  {
    r := Simulate(data, 80);
  }

  /** Part 2: the number of fish after 256 days. */
  method SolvePart2(data: seq<string>) returns (r: Option<int>)
    ensures r.Some? <==> |data| == 1 && ParseAll(Split(data[0], ",")).Some?
    ensures r.Some? ==> r.value == Population(Iterate(Tally(ParseAll(Split(data[0], ",")).value), 256))
  {
    r := Simulate(data, 256);
  }
}
