/**
 * Day 1: counting depth increases, directly and over a sliding window whose
 * running sum is kept by a bounded FIFO queue.
 */
module Day1 {
  import opened Base
  import Text

  /** Number of positions i > 0 at which s[i] > s[i - 1]. */
  function Increases(s: seq<int>): nat
  {
    GapIncreases(s, 1)
  }

  /** Number of positions i >= gap at which s[i] > s[i - gap]. */
  function GapIncreases(s: seq<int>, gap: nat): nat
    requires gap >= 1
  {
    if |s| <= gap then 0
    else GapIncreases(s[..|s| - 1], gap) + (if s[|s| - 1] > s[|s| - 1 - gap] then 1 else 0)
  }

  /** At position i the value is larger than the one `gap` earlier. */
  predicate RisesAt(s: seq<int>, gap: nat, i: nat)
  {
    gap <= i < |s| && s[i] > s[i - gap]
  }

  /** The set of positions counted by `GapIncreases`. */
  ghost function IncreasePositions(s: seq<int>, gap: nat): set<nat>
  {
    set i: nat | i < |s| && RisesAt(s, gap, i)
  }

  /** `GapIncreases` counts exactly the positions where the value rose above the one `gap` earlier. */
  lemma {:induction false} GapIncreasesCountsPositions(s: seq<int>, gap: nat)
    requires gap >= 1
    ensures GapIncreases(s, gap) == |IncreasePositions(s, gap)|
    decreases |s|
  {
    if |s| <= gap {
      assert IncreasePositions(s, gap) == {};
    } else {
      var init := s[..|s| - 1];
      GapIncreasesCountsPositions(init, gap);
      var last: nat := |s| - 1;
      if s[last] > s[last - gap] {
        assert IncreasePositions(s, gap) == IncreasePositions(init, gap) + {last};
      } else {
        assert IncreasePositions(s, gap) == IncreasePositions(init, gap);
      }
    }
  }

  /** Sums of all full windows of width w, in order. */
  function WindowSums(s: seq<int>, w: nat): (r: seq<int>)
    requires w >= 1
    ensures |r| == if |s| >= w then |s| - w + 1 else 0
  {
    if |s| < w then [] else WindowSums(s[..|s| - 1], w) + [Sum(s[|s| - w..])]
  }

  /** Window i of `WindowSums` is the sum of s[i..i + w]. */
  lemma {:induction false} WindowSumsAt(s: seq<int>, w: nat, i: nat)
    requires w >= 1 && i + w <= |s|
    ensures WindowSums(s, w)[i] == Sum(s[i..i + w])
    decreases |s|
  {
    var init := s[..|s| - 1];
    assert WindowSums(s, w) == WindowSums(init, w) + [Sum(s[|s| - w..])];
    if i + w < |s| {
      WindowSumsAt(init, w, i);
      assert init[i..i + w] == s[i..i + w];
    } else {
      assert s[i..i + w] == s[|s| - w..];
    }
  }

  /** Consecutive windows differ by the element entering minus the element leaving. */
  lemma WindowStep(s: seq<int>, i: nat, w: nat)
    requires w >= 1 && i + w < |s|
    ensures Sum(s[i + 1..i + 1 + w]) - Sum(s[i..i + w]) == s[i + w] - s[i]
  {
    assert s[i..i + w] == [s[i]] + s[i + 1..i + w];
    assert s[i + 1..i + 1 + w] == s[i + 1..i + w] + [s[i + w]];
    SumAppend([s[i]], s[i + 1..i + w]);
    SumAppend(s[i + 1..i + w], [s[i + w]]);
    assert Sum([s[i]]) == s[i] by { assert [s[i]][..0] == []; }
    assert Sum([s[i + w]]) == s[i + w] by { assert [s[i + w]][..0] == []; }
  }

  /**
   * Comparing consecutive windows of width w is the same as comparing values
   * w apart: the shared middle of the two windows cancels.
   */
  lemma {:induction false} WindowIncreasesAreGapIncreases(s: seq<int>, w: nat)
    requires w >= 1
    ensures Increases(WindowSums(s, w)) == GapIncreases(s, w)
    decreases |s|
  {
    if |s| <= w {
      if |s| == w {
        assert |WindowSums(s, w)| == 1;
      }
    } else {
      var init := s[..|s| - 1];
      WindowIncreasesAreGapIncreases(init, w);
      var ws := WindowSums(s, w);
      assert ws[..|ws| - 1] == WindowSums(init, w);
      var j := |s| - 1 - w;
      WindowStep(s, j, w);
      WindowSumsAt(s, w, j + 1);
      WindowSumsAt(s, w, j);
    }
  }

  /**
   * A first-in first-out queue of at most `capacity` values that keeps the sum
   * of its contents. `testable` records that the queue has been full and has
   * evicted a value, i.e. that its sum is over a full window.
   */
  class SumQueue {
    const capacity: nat
    var vec: seq<int>
    var sum: int
    var testable: bool
    /** Every value pushed so far, oldest first. */
    ghost var pushed: seq<int>

    ghost predicate Valid()
      reads this
    {
      && LastOf(vec, pushed, capacity)
      && sum == Base.Sum(vec)
      && (testable <==> |pushed| > capacity)
    }

    /** `SumQueue::new(size)`. */
    constructor (size: nat)
      ensures Valid()
      ensures capacity == size && vec == [] && pushed == [] && sum == 0 && !testable
    {
      capacity := size;
      vec := [];
      sum := 0;
      testable := false;
      pushed := [];
    }

    /** `sum()`: the sum of the values currently queued. */
    function Sum(): (r: int)
      reads this
      requires Valid()
      ensures r == Base.Sum(vec)
    {
      sum
    }

    /** `testable()`: more values have been pushed than the queue holds. */
    function Testable(): (r: bool)
      reads this
      requires Valid()
      ensures r <==> |pushed| > capacity
    {
      testable
    }

    /** `at_capacity()`: the queue already holds `capacity` values. */
    function AtCapacity(): (r: bool)
      reads this
      requires Valid()
      ensures r <==> |pushed| >= capacity
    {
      |vec| == capacity
    }

    /**
     * `push(num)`: when full, evict the oldest value (subtracting it from the
     * sum) and mark the queue testable; then append `num` at the back. The
     * source unwraps the evicted value, so a queue of capacity 0 panics.
     */
    method Push(num: int)
      requires Valid() && capacity > 0
      modifies this
      ensures Valid()
      ensures pushed == old(pushed) + [num]
      ensures old(|vec|) == capacity ==> vec == old(vec)[1..] + [num]
      ensures old(|vec|) < capacity ==> vec == old(vec) + [num]
      ensures testable <==> old(testable) || old(|vec|) == capacity
    {
      var full := AtCapacity();
      var kept := vec;
      var total := sum;
      if full {
        var front := vec[0];
        assert Base.Sum(vec[1..]) == sum - front by {
          assert vec == [front] + vec[1..];
          SumAppend([front], vec[1..]);
          assert Base.Sum([front]) == front by { assert [front][..0] == []; }
        }
        kept := vec[1..];
        total := sum - front;
      }
      var newVec := kept + [num];
      assert Base.Sum(newVec) == total + num by {
        SumAppend(kept, [num]);
        assert Base.Sum([num]) == num by { assert [num][..0] == []; }
      }
      ghost var newPushed := pushed + [num];
      Slide(pushed, vec, num, capacity);
      vec, sum, testable, pushed := newVec, total + num, testable || full, newPushed;
    }
  }

  /** `vec` is the last `capacity` values of `pushed`, or all of them when fewer were pushed. */
  ghost predicate LastOf(vec: seq<int>, pushed: seq<int>, capacity: nat)
  {
    |vec| == Min(|pushed|, capacity) && vec == pushed[|pushed| - |vec|..]
  }

  /** The last `capacity` values pushed, after one more push. */
  lemma Slide(pushed: seq<int>, vec: seq<int>, num: int, capacity: nat)
    requires capacity > 0
    requires LastOf(vec, pushed, capacity)
    ensures LastOf(if |vec| == capacity then vec[1..] + [num] else vec + [num], pushed + [num], capacity)
  {
  }

  /** Part 1: how many readings are larger than the previous one. */
  method CountIncreases(values: seq<int>) returns (count: nat)
    ensures count == Increases(values)
  {
    var prev: Option<int> := None;
    count := 0;
    for i := 0 to |values|
      invariant prev == if i == 0 then None else Some(values[i - 1])
      invariant count == Increases(values[..i])
    {
      var parsed := values[i];
      if prev.None? {
        prev := Some(parsed);
      }
      PrefixStep(values, i);
      if parsed > prev.value {
        count := count + 1;
      }
      prev := Some(parsed);
    }
    assert values[..|values|] == values;
  }

  /** One more value adds an increase exactly when it beats the last one. */
  lemma IncreasesSnoc(s: seq<int>, v: int)
    ensures Increases(s + [v]) == Increases(s) + (if |s| >= 1 && v > s[|s| - 1] then 1 else 0)
  {
    assert (s + [v])[..|s|] == s;
  }

  /** The window sums of a longer sequence add the sum of its last w values. */
  lemma WindowSumsSnoc(seen: seq<int>, x: int, w: nat)
    requires w >= 1 && |seen| + 1 >= w
    ensures WindowSums(seen + [x], w) == WindowSums(seen, w) + [Sum((seen + [x])[|seen| + 1 - w..])]
  {
    assert (seen + [x])[..|seen|] == seen;
  }

  /** The last window sum is the sum of the last w values. */
  lemma LastWindow(seen: seq<int>, w: nat)
    requires w >= 1 && |seen| >= w
    ensures WindowSums(seen, w)[|seen| - w] == Sum(seen[|seen| - w..])
  {
  }

  /** The count of window increases after one more reading. */
  lemma WindowIncreasesSnoc(seen: seq<int>, x: int, w: nat)
    requires w >= 1
    ensures Increases(WindowSums(seen + [x], w))
      == Increases(WindowSums(seen, w))
         + (if |seen| >= w && Sum((seen + [x])[|seen| + 1 - w..]) > Sum(seen[|seen| - w..]) then 1 else 0)
  {
    if |seen| + 1 >= w {
      var ws := WindowSums(seen, w);
      var next := Sum((seen + [x])[|seen| + 1 - w..]);
      WindowSumsSnoc(seen, x, w);
      IncreasesSnoc(ws, next);
      if |seen| >= w {
        LastWindow(seen, w);
      }
    }
  }

  /**
   * One iteration of part 2: with `last` the queue after pushing x and
   * `previous` the queue before, the count goes up exactly when a full window's
   * sum beats the previous window's sum.
   */
  lemma CountStep(seen: seq<int>, x: int, previous: seq<int>, last: seq<int>)
    requires LastOf(previous, seen, 3)
    requires LastOf(last, seen + [x], 3)
    ensures Increases(WindowSums(seen + [x], 3))
      == Increases(WindowSums(seen, 3)) + (if |seen| >= 3 && Sum(last) > Sum(previous) then 1 else 0)
  {
    WindowIncreasesSnoc(seen, x, 3);
  }

  /**
   * The state of the part 2 loop after the readings `seen`: the queue holds
   * their last three, `prev` is its sum once a reading has been seen, and
   * `count` is the number of rises of the 3-window sums so far.
   */
  ghost predicate Window(queue: SumQueue, seen: seq<int>, prev: Option<int>, count: nat)
    reads queue
  {
    queue.Valid() && queue.capacity == 3 && queue.pushed == seen
    && prev == (if seen == [] then None else Some(Sum(queue.vec)))
    && count == Increases(WindowSums(seen, 3))
  }

  /**
   * The body of the part 2 loop: push the reading, then count it when the
   * queue is testable and its sum beats the previous sum.
   */
  method Observe(queue: SumQueue, x: int, count: nat, prev: Option<int>, ghost seen: seq<int>)
    returns (count': nat, prev': Option<int>)
    requires Window(queue, seen, prev, count)
    modifies queue
    ensures Window(queue, seen + [x], prev', count')
  {
    ghost var before := queue.vec;
    queue.Push(x);
    CountStep(seen, x, before, queue.vec);
    var newSum := queue.Sum();
    count' := count;
    if prev.None? {
      return count', Some(newSum);
    }
    if queue.Testable() && newSum > prev.value {
      count' := count + 1;
    }
    prev' := Some(newSum);
  }

  /** Part 2: how many sums of three consecutive readings are larger than the previous such sum. */
  method CountWindowIncreases(values: seq<int>) returns (count: nat)
    ensures count == Increases(WindowSums(values, 3))
  {
    var prev: Option<int> := None;
    count := 0;
    var queue := new SumQueue(3);
    for i := 0 to |values|
      invariant Window(queue, values[..i], prev, count)
    {
      PrefixStep(values, i);
      count, prev := Observe(queue, values[i], count, prev, values[..i]);
    }
    assert values[..|values|] == values;
  }

  /** `solution_impl_1`: the readings are the lines, each parsed as an `i64`, with a bad line the `unwrap` panic. */
  method SolvePart1(data: seq<string>) returns (r: Option<int>)
    ensures r.Some? <==> forall k :: 0 <= k < |data| ==> Text.ParseInt(data[k]).Some?
    ensures r.Some? ==> r.value == Increases(Text.ParseAll(data).value)
  {
    var values := Text.ParseAll(data);
    if values.None? {
      return None;
    }
    var count := CountIncreases(values.value);
    return Some(count);
  }

  /** `solution_impl_2`: the same readings, counted by the rises of their 3-window sums. */
  method SolvePart2(data: seq<string>) returns (r: Option<int>)
    ensures r.Some? <==> forall k :: 0 <= k < |data| ==> Text.ParseInt(data[k]).Some?
    ensures r.Some? ==> r.value == Increases(WindowSums(Text.ParseAll(data).value, 3))
    ensures r.Some? ==> r.value == GapIncreases(Text.ParseAll(data).value, 3)
  {
    var values := Text.ParseAll(data);
    if values.None? {
      return None;
    }
    var count := CountWindowIncreases(values.value);
    WindowIncreasesAreGapIncreases(values.value, 3);
    return Some(count);
  }
}
