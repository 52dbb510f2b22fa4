/**
 * Day 9: a height map of digits. Part 1 adds up the risk levels (height + 1)
 * of the low points; part 2 flood-fills the basins (regions bounded by 9s and
 * the edge) and multiplies the sizes of the three largest.
 */
module Day9 {
  import opened Base
  import opened Text

  /** Heights by row, then column. */
  type Grid = seq<seq<int>>

  /** A (row, column) position. */
  type Cell = (int, int)

  // ---------------------------------------------------------------------
  // The grid
  // ---------------------------------------------------------------------

  /** One row of `Grid::from_data`: each character parsed on its own, or None for the `unwrap` panic. */
  function ParseRow(s: string): (r: Option<seq<int>>)
    ensures r.Some? <==> AllDigits(s)
    ensures r.Some? ==> |r.value| == |s| && forall j :: 0 <= j < |s| ==> r.value[j] == DigitValue(s[j])
  {
    if s == [] then Some([])
    else
      match ParseRow(s[..|s| - 1])
      case None => None
      case Some(init) =>
        match ParseInt([s[|s| - 1]])
        case None => None
        case Some(v) =>
          assert Unsigned([s[|s| - 1]]) == [s[|s| - 1]];
          assert forall j :: 0 <= j < |s| - 1 ==> s[..|s| - 1][j] == s[j];
          Some(init + [v])
  }

  /** `Grid::from_data`: every line a row of digits. */
  function FromData(data: seq<string>): (r: Option<Grid>)
    ensures r.Some? <==> forall i :: 0 <= i < |data| ==> AllDigits(data[i])
    ensures r.Some? ==> |r.value| == |data|
    ensures r.Some? ==> forall i :: 0 <= i < |data| ==> r.value[i] == ParseRow(data[i]).value
  {
    if data == [] then Some([])
    else
      match FromData(data[..|data| - 1])
      case None => None
      case Some(init) =>
        match ParseRow(data[|data| - 1])
        case None => None
        case Some(row) => Some(init + [row])
  }

  /**
   * `at` checks the row against the number of rows and the column against the
   * width of row 0, then indexes row r: this is what keeps that index in range.
   */
  predicate CanLookUp(g: Grid, r: int, c: int)
  {
    |g| == 0 || !(0 <= r < |g| && 0 <= c < |g[0]|) || c < |g[r]|
  }

  /** No row is shorter than row 0, so every lookup is in range. */
  predicate Wide(g: Grid)
  {
    forall r :: 0 <= r < |g| ==> |g[r]| >= |g[0]|
  }

  /** A position `at` answers for: a row of the grid and a column of row 0. */
  predicate InGrid(g: Grid, p: Cell)
  {
    |g| > 0 && 0 <= p.0 < |g| && 0 <= p.1 < |g[0]|
  }

  /** `Grid::at`: the height at (r, c), or None outside the grid. */
  function At(g: Grid, r: int, c: int): (v: Option<int>)
    requires CanLookUp(g, r, c)
    ensures v.Some? <==> InGrid(g, (r, c))
    ensures v.Some? ==> v.value == g[r][c]
  {
    if |g| == 0 then None
    else if r < 0 || c < 0 || r >= |g| || c >= |g[0]| then None
    else Some(g[r][c])
  }

  /** `less_than`: a missing neighbour counts as higher. */
  function LessThan(lhs: int, rhs: Option<int>): bool
  {
    match rhs
    case Some(v) => lhs < v
    case None => true
  }

  // ---------------------------------------------------------------------
  // Part 1: low points
  // ---------------------------------------------------------------------

  /** The four orthogonal neighbours of p. */
  function Neighbours(p: Cell): set<Cell>
  {
    {(p.0 - 1, p.1), (p.0 + 1, p.1), (p.0, p.1 - 1), (p.0, p.1 + 1)}
  }

  /** The test of part 1's inner loop: lower than the left, right, upper and lower neighbour. */
  predicate IsLow(g: Grid, r: int, c: int)
    requires Wide(g) && 0 <= r < |g| && 0 <= c < |g[r]|
  {
    var v := g[r][c];
    LessThan(v, At(g, r, c - 1)) && LessThan(v, At(g, r, c + 1))
    && LessThan(v, At(g, r - 1, c)) && LessThan(v, At(g, r + 1, c))
  }

  /** A low point is strictly lower than every neighbour inside the grid, and only such a cell is one. */
  lemma LowIffBelowNeighbours(g: Grid, r: int, c: int)
    requires Wide(g) && 0 <= r < |g| && 0 <= c < |g[r]|
    ensures IsLow(g, r, c) <==> forall q :: q in Neighbours((r, c)) && InGrid(g, q) ==> g[r][c] < g[q.0][q.1]
  {
    var v := g[r][c];
    if IsLow(g, r, c) {
      forall q | q in Neighbours((r, c)) && InGrid(g, q)
        ensures v < g[q.0][q.1]
      {
        assert At(g, q.0, q.1) == Some(g[q.0][q.1]);
      }
    }
    if forall q :: q in Neighbours((r, c)) && InGrid(g, q) ==> v < g[q.0][q.1] {
      assert (r, c - 1) in Neighbours((r, c)) && (r, c + 1) in Neighbours((r, c));
      assert (r - 1, c) in Neighbours((r, c)) && (r + 1, c) in Neighbours((r, c));
    }
  }

  /** The risk of (r, c): height + 1 at a low point, nothing elsewhere. */
  function Risk(g: Grid, r: int, c: int): int
    requires Wide(g) && 0 <= r < |g| && 0 <= c < |g[r]|
  {
    if IsLow(g, r, c) then g[r][c] + 1 else 0
  }

  /** The risks of the first n cells of row r. */
  function RowRisk(g: Grid, r: int, n: int): int
    requires Wide(g) && 0 <= r < |g| && 0 <= n <= |g[r]|
  {
    if n == 0 then 0 else RowRisk(g, r, n - 1) + Risk(g, r, n - 1)
  }

  /** The risks of the first m rows: the answer of part 1 for m = |g|. */
  function TotalRisk(g: Grid, m: int): int
    requires Wide(g) && 0 <= m <= |g|
  {
    if m == 0 then 0 else TotalRisk(g, m - 1) + RowRisk(g, m - 1, |g[m - 1]|)
  }

  /** The loop of `solution_impl_1`: the risk levels of all low points, row by row. */
  method SumRisks(g: Grid) returns (total: int)
    requires Wide(g)
    ensures total == TotalRisk(g, |g|)
  {
    total := 0;
    for r := 0 to |g|
      invariant total == TotalRisk(g, r)
    {
      for c := 0 to |g[r]|
        invariant total == TotalRisk(g, r) + RowRisk(g, r, c)
      {
        var v := g[r][c];
        if LessThan(v, At(g, r, c - 1)) && LessThan(v, At(g, r, c + 1))
           && LessThan(v, At(g, r - 1, c)) && LessThan(v, At(g, r + 1, c))
        {
          total := total + (v + 1);
        }
      }
    }
  }

  // ---------------------------------------------------------------------
  // dfs_count: flood fill of a basin
  // ---------------------------------------------------------------------

  /** A cell `dfs_count` can enter: inside the grid and not a 9 (outside reads as 9). */
  predicate Open(g: Grid, p: Cell)
    requires Wide(g)
  {
    InGrid(g, p) && g[p.0][p.1] != 9
  }

  /** All the cells `dfs_count` can enter. */
  function Basin(g: Grid): (b: set<Cell>)
    requires Wide(g)
    ensures forall p :: p in b <==> Open(g, p)
  {
    var b := set r, c | 0 <= r < |g| && 0 <= c < |g[0]| && g[r][c] != 9 :: (r, c);
    assert forall p :: Open(g, p) ==> p in b by {
      forall p | Open(g, p)
        ensures p in b
      {
        var r, c := p.0, p.1;
        assert (r, c) in b;
      }
    }
    b
  }

  predicate Adjacent(a: Cell, b: Cell)
  {
    Abs(a.0 - b.0) + Abs(a.1 - b.1) == 1
  }

  lemma AdjacentIsNeighbour(a: Cell, b: Cell)
    ensures Adjacent(a, b) <==> b in Neighbours(a)
  {
  }

  /** A walk through basin cells outside `avoid`, one orthogonal step at a time. */
  ghost predicate IsPath(g: Grid, avoid: set<Cell>, p: seq<Cell>)
    requires Wide(g)
  {
    (forall i :: 0 <= i < |p| ==> Open(g, p[i]) && p[i] !in avoid)
    && (forall i :: 0 < i < |p| ==> Adjacent(p[i - 1], p[i]))
  }

  /** b can be reached from a without entering a 9, leaving the grid or entering `avoid`. */
  ghost predicate Reaches(g: Grid, avoid: set<Cell>, a: Cell, b: Cell)
    requires Wide(g)
  {
    exists p :: |p| > 0 && p[0] == a && p[|p| - 1] == b && IsPath(g, avoid, p)
  }

  /** The cells reachable from a outside `avoid`: the unseen part of a's basin. */
  ghost function Region(g: Grid, avoid: set<Cell>, a: Cell): set<Cell>
    requires Wide(g)
  {
    set b | b in Basin(g) && Reaches(g, avoid, a, b)
  }

  /** A walk that avoids a larger set, started one step earlier from an unavoided basin cell. */
  lemma ReachPrepend(g: Grid, small: set<Cell>, big: set<Cell>, a: Cell, n: Cell, x: Cell)
    requires Wide(g) && small <= big
    requires Open(g, a) && a !in small && Adjacent(a, n)
    requires Reaches(g, big, n, x)
    ensures Reaches(g, small, a, x)
  {
    var p :| |p| > 0 && p[0] == n && p[|p| - 1] == x && IsPath(g, big, p);
    var q := [a] + p;
    assert forall i :: 0 < i < |q| ==> q[i] == p[i - 1];
    assert IsPath(g, small, q);
  }

  lemma ReachSelf(g: Grid, avoid: set<Cell>, a: Cell)
    requires Wide(g) && Open(g, a) && a !in avoid
    ensures Reaches(g, avoid, a, a)
  {
    assert IsPath(g, avoid, [a]);
  }

  /** Splitting a chain of sets: what c adds to a is what c adds to b plus what b adds to a. */
  lemma CardChain(a: set<Cell>, b: set<Cell>, c: set<Cell>)
    requires a <= b <= c
    ensures |c - a| == |c - b| + |b - a|
  {
    assert c - a == (c - b) + (b - a);
    assert (c - b) * (b - a) == {};
  }

  /** Once p is marked, fewer unmarked basin cells are left: the recursion terminates. */
  lemma Shrinks(g: Grid, seen: set<Cell>, p: Cell, later: set<Cell>)
    requires Wide(g) && Open(g, p) && p !in seen && seen + {p} <= later
    ensures |Basin(g) - later| < |Basin(g) - seen|
  {
    assert Basin(g) - later < Basin(g) - seen by {
      assert p in Basin(g) - seen && p !in Basin(g) - later;
    }
    CardShrinks(Basin(g) - later, Basin(g) - seen);
  }

  lemma CardShrinks(a: set<Cell>, b: set<Cell>)
    requires a < b
    ensures |a| < |b|
  {
    assert b == a + (b - a);
    assert (b - a) != {};
  }

  /**
   * The recursive step of `dfs_count` for one neighbour: the new cells of the
   * call keep the properties the caller promises about its own new cells.
   */
  ghost predicate Grew(g: Grid, seen: set<Cell>, seen': set<Cell>, a: Cell)
    requires Wide(g)
  {
    seen <= seen'
    && (forall x {:trigger Reaches(g, seen, a, x)} :: x in seen' - seen ==> Reaches(g, seen, a, x))
    && (forall x, y {:trigger Adjacent(x, y)} :: x in seen' - seen && Open(g, y) && Adjacent(x, y) ==> y in seen')
  }

  /** The four cells `dfs_count` explores after p, in the order of its four recursive calls. */
  function Around(p: Cell): (ns: seq<Cell>)
    ensures forall q :: q in Neighbours(p) <==> q in ns
  {
    [(p.0 - 1, p.1), (p.0 + 1, p.1), (p.0, p.1 - 1), (p.0, p.1 + 1)]
  }

  /**
   * What holds part-way through the recursive calls from p: everything marked
   * since the call began is reachable from p, every marked cell but p has its
   * open neighbours marked, and so do the neighbours explored so far.
   */
  ghost predicate Partial(g: Grid, seen: set<Cell>, p: Cell, s: set<Cell>, done: nat)
    requires Wide(g)
  {
    seen + {p} <= s
    && (forall x {:trigger Reaches(g, seen, p, x)} :: x in s - seen ==> Reaches(g, seen, p, x))
    && (forall x, y {:trigger Adjacent(x, y)} :: x in s - seen && x != p && Open(g, y) && Adjacent(x, y) ==> y in s)
    && (forall i :: 0 <= i < done && i < 4 && Open(g, Around(p)[i]) ==> Around(p)[i] in s)
  }

  /**
   * `dfs_count`: 0 for a 9, a cell outside the grid or a seen cell; otherwise
   * the cell is marked seen, its four neighbours are explored in turn (the
   * four recursive calls, written here as a loop over them), and the result
   * counts every cell marked.
   */
  method DfsCount(g: Grid, r: int, c: int, seen: set<Cell>) returns (count: int, seen': set<Cell>)
    requires Wide(g)
    ensures Grew(g, seen, seen', (r, c))
    ensures Open(g, (r, c)) ==> (r, c) in seen'
    ensures count == |seen' - seen|
    decreases |Basin(g) - seen|
  {
    var v := At(g, r, c);
    if (if v.Some? then v.value else 9) == 9 || (r, c) in seen {
      return 0, seen;
    }
    var p := (r, c);
    count := 1;
    seen' := seen + {p};
    ReachSelf(g, seen, p);
    var ns := Around(p);
    for k := 0 to 4
      invariant Partial(g, seen, p, seen', k)
      invariant count == |seen' - seen|
    {
      Shrinks(g, seen, p, seen');
      var n, s' := DfsCount(g, ns[k].0, ns[k].1, seen');
      PartialStep(g, seen, p, seen', s', k);
      CardChain(seen, seen', s');
      count := count + n;
      seen' := s';
    }
    PartialDone(g, seen, p, seen');
  }

  /** One more explored neighbour keeps the part-way facts. */
  lemma PartialStep(g: Grid, seen: set<Cell>, p: Cell, s: set<Cell>, s': set<Cell>, k: nat)
    requires Wide(g) && Open(g, p) && p !in seen && k < 4
    requires Partial(g, seen, p, s, k)
    requires Grew(g, s, s', Around(p)[k]) && (Open(g, Around(p)[k]) ==> Around(p)[k] in s')
    ensures Partial(g, seen, p, s', k + 1)
  {
    var n := Around(p)[k];
    assert Adjacent(p, n);
    forall x | x in s' - seen
      ensures Reaches(g, seen, p, x)
    {
      if x !in s {
        ReachPrepend(g, seen, s, p, n, x);
      }
    }
  }

  /** Once all four neighbours are explored, the marked cells form a closed region. */
  lemma PartialDone(g: Grid, seen: set<Cell>, p: Cell, s: set<Cell>)
    requires Wide(g) && Partial(g, seen, p, s, 4)
    ensures Grew(g, seen, s, p)
  {
    forall x, y | x in s - seen && Open(g, y) && Adjacent(x, y)
      ensures y in s
    {
      if x == p {
        AdjacentIsNeighbour(x, y);
        assert y in Around(p);
        assert exists i :: 0 <= i < 4 && y == Around(p)[i];
      }
    }
  }

  /** Every cell reachable from the start outside the old `seen` has been marked. */
  lemma {:induction false} GrewCoversRegion(g: Grid, seen: set<Cell>, seen': set<Cell>, a: Cell, path: seq<Cell>, i: nat)
    requires Wide(g) && Grew(g, seen, seen', a)
    requires Open(g, a) ==> a in seen'
    requires |path| > 0 && path[0] == a && IsPath(g, seen, path) && i < |path|
    ensures path[i] in seen'
  {
    if i > 0 {
      GrewCoversRegion(g, seen, seen', a, path, i - 1);
      assert Adjacent(path[i - 1], path[i]);
    }
  }

  /** What `dfs_count` marks is exactly the unseen region of the start cell, and it returns its size. */
  lemma GrewIsRegion(g: Grid, seen: set<Cell>, seen': set<Cell>, a: Cell)
    requires Wide(g) && Grew(g, seen, seen', a)
    requires Open(g, a) ==> a in seen'
    ensures seen' - seen == Region(g, seen, a)
  {
    forall b | b in Region(g, seen, a)
      ensures b in seen' - seen
    {
      var path :| |path| > 0 && path[0] == a && path[|path| - 1] == b && IsPath(g, seen, path);
      GrewCoversRegion(g, seen, seen', a, path, |path| - 1);
    }
    forall b | b in seen' - seen
      ensures b in Region(g, seen, a)
    {
      assert Reaches(g, seen, a, b);
      var path :| |path| > 0 && path[0] == a && path[|path| - 1] == b && IsPath(g, seen, path);
      assert Open(g, path[|path| - 1]);
    }
  }

  /** The count `dfs_count` returns, in terms of the grid alone. */
  lemma DfsCountIsRegion(g: Grid, r: int, c: int, seen: set<Cell>, count: int, seen': set<Cell>)
    requires Wide(g) && Grew(g, seen, seen', (r, c))
    requires Open(g, (r, c)) ==> (r, c) in seen'
    requires count == |seen' - seen|
    ensures seen' == seen + Region(g, seen, (r, c))
    ensures count == |Region(g, seen, (r, c))|
  {
    GrewIsRegion(g, seen, seen', (r, c));
  }

  // ---------------------------------------------------------------------
  // Part 2: the three largest basins
  // ---------------------------------------------------------------------

  /** The distinct values a multiset holds. */
  function Values(m: multiset<int>): (s: set<int>)
    ensures forall y :: y in s <==> y in m
    ensures |m| > 0 ==> s != {}
  {
    var s := set z | z in m;
    if |m| > 0 then
      Occupied(m);
      var y :| y in m;
      assert y in s;
      s
    else s
  }

  lemma Occupied(m: multiset<int>)
    requires |m| > 0
    ensures exists y :: y in m
  {
    if forall y :: y !in m {
      assert false;
    }
  }

  /** The largest value held by a non-empty multiset: what `BinaryHeap::pop` returns. */
  function MaxOf(m: multiset<int>): (x: int)
    requires |m| > 0
    ensures x in m && forall y :: y in m ==> y <= x
  {
    var s := Values(m);
    MaxKey(s)
  }

  /** The smallest value held by a non-empty multiset. */
  function MinOf(m: multiset<int>): (x: int)
    requires |m| > 0
    ensures x in m && forall y :: y in m ==> x <= y
  {
    var s := Values(m);
    MinKey(s)
  }

  /** `BinaryHeap::pop` on a non-empty heap: a largest element and the heap without it. */
  method PopMax(heap: multiset<int>) returns (top: int, rest: multiset<int>)
    requires |heap| > 0
    ensures top in heap && forall y :: y in heap ==> y <= top
    ensures rest + multiset{top} == heap
  {
    top := MaxOf(heap);
    rest := heap - multiset{top};
  }

  /**
   * The trim of part 2's loop: once the heap holds four counts, the three
   * largest are popped into a fresh heap, so exactly a smallest one is dropped.
   */
  method Trim(heap: multiset<int>) returns (next: multiset<int>)
    requires |heap| == 4
    ensures next + multiset{MinOf(heap)} == heap
  {
    next := multiset{};
    var h := heap;
    for k := 0 to 3
      invariant next + h == heap && |next| == k
      invariant forall x, y :: x in next && y in h ==> y <= x
    {
      var top, rest := PopMax(h);
      assert forall y :: y in rest ==> y in h;
      next := next + multiset{top};
      h := rest;
    }
    Occupied(h);
    var z :| z in h;
    assert h == multiset{z} by {
      assert |h| == 1;
      SingleElement(h, z);
    }
    var m := MinOf(heap);
    assert m == z by {
      assert z in heap && m <= z;
    }
  }

  lemma SingleElement(h: multiset<int>, z: int)
    requires |h| == 1 && z in h
    ensures h == multiset{z}
  {
    var rest := h - multiset{z};
    assert h == rest + multiset{z};
    assert |rest| == 0;
  }

  /**
   * `largest` after the counts so far: at most three of them, no count left
   * out larger than one kept, and as many as there are up to three.
   */
  ghost predicate IsTop(top: multiset<int>, all: multiset<int>)
  {
    top <= all && |top| == Min(3, |all|)
    && forall x, y :: x in all - top && y in top ==> x <= y
  }

  /** Pushing one more count, then trimming at four, keeps the heap the top three. */
  lemma TopPush(top: multiset<int>, all: multiset<int>, v: int)
    requires IsTop(top, all)
    ensures var t := top + multiset{v};
      IsTop(if |t| == 4 then t - multiset{MinOf(t)} else t, all + multiset{v})
  {
    var t := top + multiset{v};
    var all' := all + multiset{v};
    if |top| < 3 {
      SameSize(top, all);
      assert all' == t;
    } else {
      var m := MinOf(t);
      var t' := t - multiset{m};
      assert t' <= all';
      forall x, y | x in all' - t' && y in t'
        ensures x <= y
      {
        assert y in t;
        if all[x] > top[x] {
          assert x in all - top;
          if y !in top {
            assert y == v && top[v] == 0;
            assert m in top;
          }
        } else {
          assert x == m;
        }
      }
    }
  }

  /** A sub-multiset of the same size is the whole multiset. */
  lemma SameSize(a: multiset<int>, b: multiset<int>)
    requires a <= b && |a| == |b|
    ensures a == b
  {
    var d := b - a;
    assert b == a + d;
    assert |d| == 0;
  }

  /** The heap's elements multiplied in the order `pop` yields them, largest first. */
  function MsProduct(m: multiset<int>): int
    decreases |m|
  {
    if |m| == 0 then 1
    else
      var x := MaxOf(m);
      assert |m - multiset{x}| < |m| by {
        assert m == (m - multiset{x}) + multiset{x};
      }
      Product(x, MsProduct(m - multiset{x}))
  }

  /** The product does not depend on the order: any element can be taken out first. */
  lemma {:induction false} MsProductRemove(m: multiset<int>, x: int)
    requires x in m
    ensures MsProduct(m) == Product(x, MsProduct(m - multiset{x}))
    decreases |m|
  {
    var top := MaxOf(m);
    if top != x {
      OtherThanMax(m, x);
      var rest := m - multiset{top} - multiset{x};
      MsProductRemove(m - multiset{top}, x);
      assert MsProduct(m) == Product(top, Product(x, MsProduct(rest)));
      assert MsProduct(m - multiset{x}) == Product(top, MsProduct(rest));
      ProductSwap(top, x, MsProduct(rest));
    }
  }

  /** Taking out an element other than the largest leaves the largest in place. */
  lemma OtherThanMax(m: multiset<int>, x: int)
    requires x in m && MaxOf(m) != x
    ensures x in m - multiset{MaxOf(m)} && |m - multiset{MaxOf(m)}| < |m|
    ensures |m - multiset{x}| > 0 && MaxOf(m - multiset{x}) == MaxOf(m)
    ensures m - multiset{x} - multiset{MaxOf(m)} == m - multiset{MaxOf(m)} - multiset{x}
  {
    var top := MaxOf(m);
    var mx := m - multiset{x};
    assert m == (m - multiset{top}) + multiset{top};
    assert m == mx + multiset{x};
    assert top in mx;
    var topx := MaxOf(mx);
    assert topx <= top && top <= topx;
  }

  lemma ProductSwap(a: int, b: int, c: int)
    ensures Product(a, Product(b, c)) == Product(b, Product(a, c))
  {
    assert a * (b * c) == b * (a * c);
  }

  /**
   * The push and trim of the scan loop: the count joins the heap, and a heap
   * of four is cut back to its three largest. The heap stays the top three
   * of the counts seen (`all`).
   */
  method Keep(largest: multiset<int>, count: int, ghost all: multiset<int>) returns (next: multiset<int>)
    requires IsTop(largest, all)
    ensures IsTop(next, all + multiset{count})
  {
    TopPush(largest, all, count);
    next := largest + multiset{count};
    if |next| == 4 {
      var t := next;
      next := Trim(t);
      assert next == t - multiset{MinOf(t)} by {
        assert next + multiset{MinOf(t)} == t;
      }
    }
  }

  /** The final loop: pop every element of the heap and multiply them together. */
  method Multiply(heap: multiset<int>) returns (product: int)
    ensures product == MsProduct(heap)
  {
    product := 1;
    var h := heap;
    for k := 0 to |heap|
      invariant Product(product, MsProduct(h)) == MsProduct(heap)
      invariant |h| == |heap| - k
    {
      var x, rest := PopMax(h);
      assert rest == h - multiset{x};
      MsProductRemove(h, x);
      ProductAssoc(product, x, MsProduct(rest));
      product := product * x;
      h := rest;
    }
  }

  lemma ProductAssoc(a: int, b: int, c: int)
    ensures Product(a, Product(b, c)) == Product(a * b, c)
  {
    assert a * (b * c) == (a * b) * c;
  }

  /**
   * The loops of `solution_impl_2`: flood-fill from every cell, keep the three largest
   * counts, multiply them. `cells` are the cells visited, in scan order, and
   * `counts` the values `dfs_count` returned for them; `top` is the heap at the
   * end. They are ghosts: the program keeps none of them.
   */
  method BasinProduct(g: Grid) returns (r: int, ghost cells: seq<Cell>, ghost counts: seq<int>, ghost top: multiset<int>)
    requires Wide(g)
    ensures InScanOrder(cells) && forall p :: p in cells <==> InGrid(g, p)
    ensures |counts| == |cells| && forall i :: 0 <= i < |cells| ==> counts[i] == BasinCount(g, cells[..i], cells[i])
    ensures forall i :: 0 <= i < |counts| ==> counts[i] >= 0
    ensures Sum(counts) == |Basin(g)|
    ensures forall i, j :: 0 <= i < j < |cells| && counts[j] > 0 ==> Region(g, {}, cells[i]) !! Region(g, {}, cells[j])
    ensures IsTop(top, multiset(counts))
    ensures r == MsProduct(top)
  {
    var seen: set<Cell> := {};
    var largest: multiset<int> := multiset{};
    cells, counts := [], [];
    for row := 0 to |g|
      invariant ScanState(g, row, 0, cells, seen, counts, largest)
    {
      for col := 0 to |g[0]|
        invariant ScanState(g, row, col, cells, seen, counts, largest)
      {
        var count, seen' := DfsCount(g, row, col, seen);
        var largest' := Keep(largest, count, multiset(counts));
        ScanAdvance(g, row, col, cells, seen, counts, largest, count, seen', largest');
        largest := largest';
        cells, counts := cells + [(row, col)], counts + [count];
        seen := seen';
      }
      ScanStateRow(g, row, cells, seen, counts, largest);
    }
    ScanStateDone(g, cells, seen, counts, largest);
    AllCountedOnce(g, cells, counts);
    top := largest;
    r := Multiply(largest);
  }

  /** The cells of `cs` in strictly increasing scan order. */
  predicate InScanOrder(cs: seq<Cell>)
  {
    forall i, j :: 0 <= i < j < |cs| ==> Before(cs[i], cs[j].0, cs[j].1)
  }

  /** The whole basins of the cells of `cs`: what the scan has marked once it has visited them. */
  ghost function Earlier(g: Grid, cs: seq<Cell>): set<Cell>
    requires Wide(g)
  {
    if cs == [] then {} else Earlier(g, cs[..|cs| - 1]) + Region(g, {}, cs[|cs| - 1])
  }

  /**
   * What `dfs_count` returns at p once the cells `before` have been visited:
   * 0 when p lies in the basin of one of them (or is a 9), otherwise the size
   * of p's whole basin.
   */
  ghost function BasinCount(g: Grid, before: seq<Cell>, p: Cell): int
    requires Wide(g)
  {
    if p in Earlier(g, before) then 0 else |Region(g, {}, p)|
  }

  /** Every open neighbour of a cell of `seen` is in `seen`: it is a union of whole basins. */
  ghost predicate Closed(g: Grid, seen: set<Cell>)
    requires Wide(g)
  {
    forall x, y {:trigger Adjacent(x, y)} :: x in seen && Open(g, y) && Adjacent(x, y) ==> y in seen
  }

  /**
   * The state of the scan of `solution_impl_2` before (row, col): the marked
   * cells are basin cells counted once each in `counts`, `largest` holds the
   * top three counts, and every open cell before (row, col) is marked.
   */
  ghost predicate Scanned(g: Grid, row: int, col: int, seen: set<Cell>, counts: seq<int>, largest: multiset<int>)
  {
    && Wide(g) && seen <= Basin(g) && Sum(counts) == |seen|
    && (forall i :: 0 <= i < |counts| ==> counts[i] >= 0)
    && IsTop(largest, multiset(counts))
    && (forall p :: Open(g, p) && Before(p, row, col) ==> p in seen)
  }

  /**
   * The visited cells are the grid's cells before (row, col), in scan order;
   * the marked cells are their whole basins; and each count is the
   * `BasinCount` of its cell.
   */
  ghost predicate Recorded(g: Grid, row: int, col: int, cells: seq<Cell>, seen: set<Cell>, counts: seq<int>)
    requires Wide(g)
  {
    && Closed(g, seen) && seen == Earlier(g, cells)
    && InScanOrder(cells) && (forall p :: p in cells <==> InGrid(g, p) && Before(p, row, col))
    && |counts| == |cells| && (forall i :: 0 <= i < |cells| ==> counts[i] == BasinCount(g, cells[..i], cells[i]))
  }

  /** The whole state of the scan before (row, col). */
  ghost predicate ScanState(g: Grid, row: int, col: int, cells: seq<Cell>, seen: set<Cell>, counts: seq<int>, largest: multiset<int>)
  {
    Scanned(g, row, col, seen, counts, largest) && Recorded(g, row, col, cells, seen, counts)
  }

  /** One `dfs_count` of the scan and its push into the heap keep the scan state, one cell further. */
  lemma ScanAdvance(g: Grid, row: int, col: int, cells: seq<Cell>, seen: set<Cell>, counts: seq<int>, largest: multiset<int>,
                    count: int, seen': set<Cell>, largest': multiset<int>)
    requires 0 <= row < |g| && 0 <= col < |g[0]| && ScanState(g, row, col, cells, seen, counts, largest)
    requires Grew(g, seen, seen', (row, col)) && count == |seen' - seen|
    requires Open(g, (row, col)) ==> (row, col) in seen'
    requires IsTop(largest', multiset(counts) + multiset{count})
    ensures ScanState(g, row, col + 1, cells + [(row, col)], seen', counts + [count], largest')
  {
    ScanTally(g, row, col, seen, counts, largest, count, seen', largest');
    RecordStep(g, row, col, cells, seen, counts, count, seen');
  }

  /** The marking, the counts and the heap of one cell of the scan. */
  lemma ScanTally(g: Grid, row: int, col: int, seen: set<Cell>, counts: seq<int>, largest: multiset<int>,
                    count: int, seen': set<Cell>, largest': multiset<int>)
    requires Scanned(g, row, col, seen, counts, largest)
    requires Grew(g, seen, seen', (row, col)) && count == |seen' - seen|
    requires Open(g, (row, col)) ==> (row, col) in seen'
    requires IsTop(largest', multiset(counts) + multiset{count})
    ensures Scanned(g, row, col + 1, seen', counts + [count], largest')
  {
    ScanStep(g, row, col, seen, count, seen');
    ScanCovers(g, row, col, seen, seen');
    SumAppend(counts, [count]);
    assert multiset(counts + [count]) == multiset(counts) + multiset{count};
  }

  /**
   * One `dfs_count` from a union of whole basins adds the whole basin of the
   * cell, or nothing when the cell is already marked, and counts it.
   */
  lemma RecordStep(g: Grid, row: int, col: int, cells: seq<Cell>, seen: set<Cell>, counts: seq<int>, count: int, seen': set<Cell>)
    requires Wide(g) && 0 <= row < |g| && 0 <= col < |g[0]| && Recorded(g, row, col, cells, seen, counts)
    requires Grew(g, seen, seen', (row, col)) && count == |seen' - seen|
    requires Open(g, (row, col)) ==> (row, col) in seen'
    ensures Recorded(g, row, col + 1, cells + [(row, col)], seen', counts + [count])
  {
    var p := (row, col);
    DfsCountIsRegion(g, row, col, seen, count, seen');
    ClosedRegion(g, seen, p);
    assert seen' == seen + Region(g, {}, p) && count == BasinCount(g, cells, p);
    ClosedGrows(g, seen, seen', p);
    EarlierSnoc(g, cells, p);
    OrderSnoc(g, row, col, cells);
    CountsSnoc(g, cells, counts, p, count);
  }

  /** What `dfs_count` adds to a union of whole basins keeps it one. */
  lemma ClosedGrows(g: Grid, seen: set<Cell>, seen': set<Cell>, p: Cell)
    requires Wide(g) && Closed(g, seen) && Grew(g, seen, seen', p)
    ensures Closed(g, seen')
  {
  }

  lemma EarlierSnoc(g: Grid, cells: seq<Cell>, p: Cell)
    requires Wide(g)
    ensures Earlier(g, cells + [p]) == Earlier(g, cells) + Region(g, {}, p)
  {
    assert (cells + [p])[..|cells|] == cells;
  }

  /** Visiting (row, col) next keeps the visited cells in scan order, one cell further. */
  lemma OrderSnoc(g: Grid, row: int, col: int, cells: seq<Cell>)
    requires Wide(g) && 0 <= row < |g| && 0 <= col < |g[0]|
    requires InScanOrder(cells) && forall p :: p in cells <==> InGrid(g, p) && Before(p, row, col)
    ensures InScanOrder(cells + [(row, col)])
    ensures forall p :: p in cells + [(row, col)] <==> InGrid(g, p) && Before(p, row, col + 1)
  {
    var cells' := cells + [(row, col)];
    forall i, j | 0 <= i < j < |cells'|
      ensures Before(cells'[i], cells'[j].0, cells'[j].1)
    {
      if j == |cells| {
        assert cells[i] in cells;
      }
    }
  }

  lemma CountsSnoc(g: Grid, cells: seq<Cell>, counts: seq<int>, p: Cell, count: int)
    requires Wide(g) && |counts| == |cells| && count == BasinCount(g, cells, p)
    requires forall i :: 0 <= i < |cells| ==> counts[i] == BasinCount(g, cells[..i], cells[i])
    ensures var cells', counts' := cells + [p], counts + [count];
      forall i :: 0 <= i < |cells'| ==> counts'[i] == BasinCount(g, cells'[..i], cells'[i])
  {
    var cells', counts' := cells + [p], counts + [count];
    forall i | 0 <= i < |cells'|
      ensures counts'[i] == BasinCount(g, cells'[..i], cells'[i])
    {
      if i < |cells| {
        assert cells'[..i] == cells[..i];
      } else {
        assert cells'[..i] == cells;
      }
    }
  }

  /** A walk from outside a closed set never enters it. */
  lemma {:induction false} PathStaysOut(g: Grid, seen: set<Cell>, path: seq<Cell>, i: nat)
    requires Wide(g) && Closed(g, seen) && IsPath(g, {}, path) && i < |path| && path[0] !in seen
    ensures path[i] !in seen
  {
    if i > 0 {
      PathStaysOut(g, seen, path, i - 1);
      assert Adjacent(path[i], path[i - 1]) by { assert Adjacent(path[i - 1], path[i]); }
    }
  }

  /** A walk from inside a closed set never leaves it. */
  lemma {:induction false} PathStaysIn(g: Grid, seen: set<Cell>, path: seq<Cell>, i: nat)
    requires Wide(g) && Closed(g, seen) && IsPath(g, {}, path) && i < |path| && path[0] in seen
    ensures path[i] in seen
  {
    if i > 0 {
      PathStaysIn(g, seen, path, i - 1);
      assert Adjacent(path[i - 1], path[i]);
    }
  }

  /**
   * From a union of whole basins, the unseen region of a cell outside it is the
   * cell's whole basin; a cell inside it has its whole basin inside and no unseen region.
   */
  lemma ClosedRegion(g: Grid, seen: set<Cell>, p: Cell)
    requires Wide(g) && Closed(g, seen)
    ensures p !in seen ==> Region(g, seen, p) == Region(g, {}, p)
    ensures p in seen ==> Region(g, {}, p) <= seen && Region(g, seen, p) == {}
  {
    forall b | b in Region(g, seen, p)
      ensures b in Region(g, {}, p) && p !in seen
    {
      var path :| |path| > 0 && path[0] == p && path[|path| - 1] == b && IsPath(g, seen, path);
      assert IsPath(g, {}, path);
    }
    forall b | b in Region(g, {}, p)
      ensures if p in seen then b in seen else b in Region(g, seen, p)
    {
      var path :| |path| > 0 && path[0] == p && path[|path| - 1] == b && IsPath(g, {}, path);
      if p in seen {
        PathStaysIn(g, seen, path, |path| - 1);
      } else {
        forall i | 0 <= i < |path|
          ensures path[i] !in seen
        {
          PathStaysOut(g, seen, path, i);
        }
        assert IsPath(g, seen, path);
      }
    }
  }

  /** A finished row of the scan is the start of the next one. */
  lemma ScanStateRow(g: Grid, row: int, cells: seq<Cell>, seen: set<Cell>, counts: seq<int>, largest: multiset<int>)
    requires 0 <= row < |g| && ScanState(g, row, |g[0]|, cells, seen, counts, largest)
    ensures ScanState(g, row + 1, 0, cells, seen, counts, largest)
  {
    RowDone(g, row, seen);
    RecordedRow(g, row, cells, seen, counts);
  }

  /** Once every row is scanned, every cell was visited and the marked cells are the whole basin set. */
  lemma ScanStateDone(g: Grid, cells: seq<Cell>, seen: set<Cell>, counts: seq<int>, largest: multiset<int>)
    requires ScanState(g, |g|, 0, cells, seen, counts, largest)
    ensures seen == Basin(g) && forall p :: p in cells <==> InGrid(g, p)
  {
    ScanDone(g, seen);
    RecordedAll(g, cells, seen, counts);
  }

  /** A basin has every open neighbour of its cells inside it. */
  lemma RegionClosed(g: Grid, p: Cell)
    requires Wide(g)
    ensures Closed(g, Region(g, {}, p))
  {
    forall x, y | x in Region(g, {}, p) && Open(g, y) && Adjacent(x, y)
      ensures y in Region(g, {}, p)
    {
      var path :| |path| > 0 && path[0] == p && path[|path| - 1] == x && IsPath(g, {}, path);
      var q := path + [y];
      assert forall i :: 0 <= i < |path| ==> q[i] == path[i];
      assert IsPath(g, {}, q);
    }
  }

  lemma {:induction false} EarlierClosed(g: Grid, cs: seq<Cell>)
    requires Wide(g)
    ensures Closed(g, Earlier(g, cs))
    decreases |cs|
  {
    if cs != [] {
      EarlierClosed(g, cs[..|cs| - 1]);
      RegionClosed(g, cs[|cs| - 1]);
    }
  }

  /** The marks after visiting the first j cells contain the basin of each of them. */
  lemma {:induction false} EarlierHas(g: Grid, cs: seq<Cell>, i: int, j: int)
    requires Wide(g) && 0 <= i < j <= |cs|
    ensures Region(g, {}, cs[i]) <= Earlier(g, cs[..j])
    decreases j
  {
    var e := cs[..j];
    assert e[..|e| - 1] == cs[..j - 1];
    if i < j - 1 {
      EarlierHas(g, cs, i, j - 1);
    } else {
      assert e[|e| - 1] == cs[i];
    }
  }

  /**
   * Each basin is counted once: the basin of a cell whose count is not zero
   * shares no cell with the basin of any cell visited before it.
   */
  lemma CountedOnce(g: Grid, cs: seq<Cell>, i: int, j: int)
    requires Wide(g) && 0 <= i < j < |cs| && BasinCount(g, cs[..j], cs[j]) > 0
    ensures Region(g, {}, cs[i]) !! Region(g, {}, cs[j])
  {
    var e := Earlier(g, cs[..j]);
    EarlierHas(g, cs, i, j);
    EarlierClosed(g, cs[..j]);
    ClosedRegion(g, e, cs[j]);
    forall b | b in Region(g, e, cs[j])
      ensures b !in e
    {
      var path :| |path| > 0 && path[0] == cs[j] && path[|path| - 1] == b && IsPath(g, e, path);
    }
  }

  /** Each basin with a non-zero count in `counts` is counted once. */
  lemma AllCountedOnce(g: Grid, cells: seq<Cell>, counts: seq<int>)
    requires Wide(g) && |counts| == |cells|
    requires forall i :: 0 <= i < |cells| ==> counts[i] == BasinCount(g, cells[..i], cells[i])
    ensures forall i, j :: 0 <= i < j < |cells| && counts[j] > 0 ==> Region(g, {}, cells[i]) !! Region(g, {}, cells[j])
  {
    forall i, j | 0 <= i < j < |cells| && counts[j] > 0
      ensures Region(g, {}, cells[i]) !! Region(g, {}, cells[j])
    {
      CountedOnce(g, cells, i, j);
    }
  }

  lemma RecordedRow(g: Grid, row: int, cells: seq<Cell>, seen: set<Cell>, counts: seq<int>)
    requires Wide(g) && 0 <= row < |g| && Recorded(g, row, |g[0]|, cells, seen, counts)
    ensures Recorded(g, row + 1, 0, cells, seen, counts)
  {
    forall p
      ensures p in cells <==> InGrid(g, p) && Before(p, row + 1, 0)
    {
      assert p in cells <==> InGrid(g, p) && Before(p, row, |g[0]|);
    }
  }

  lemma RecordedAll(g: Grid, cells: seq<Cell>, seen: set<Cell>, counts: seq<int>)
    requires Wide(g) && Recorded(g, |g|, 0, cells, seen, counts)
    ensures forall p :: p in cells <==> InGrid(g, p)
  {
  }

  /** p comes before (row, col) in the scan order. */
  predicate Before(p: Cell, row: int, col: int)
  {
    p.0 < row || (p.0 == row && p.1 < col)
  }

  /** After the call at (row, col), every open cell up to and including it is marked. */
  lemma ScanCovers(g: Grid, row: int, col: int, seen: set<Cell>, seen': set<Cell>)
    requires Wide(g) && seen <= seen' && (Open(g, (row, col)) ==> (row, col) in seen')
    requires forall p :: Open(g, p) && Before(p, row, col) ==> p in seen
    ensures forall p :: Open(g, p) && Before(p, row, col + 1) ==> p in seen'
  {
  }

  /** Open cells lie in row 0's columns, so a finished row is covered up to the next one. */
  lemma RowDone(g: Grid, row: int, seen: set<Cell>)
    requires Wide(g) && |g| > 0
    requires forall p :: Open(g, p) && Before(p, row, |g[0]|) ==> p in seen
    ensures forall p :: Open(g, p) && Before(p, row + 1, 0) ==> p in seen
  {
  }

  /** Once every row is scanned, the marked cells are the whole basin set. */
  lemma ScanDone(g: Grid, seen: set<Cell>)
    requires Wide(g) && seen <= Basin(g)
    requires forall p :: Open(g, p) && Before(p, |g|, 0) ==> p in seen
    ensures seen == Basin(g)
  {
  }

  /** One `dfs_count` of the scan: the new cells are basin cells, counted once each. */
  lemma ScanStep(g: Grid, r: int, c: int, seen: set<Cell>, count: int, seen': set<Cell>)
    requires Wide(g) && seen <= Basin(g)
    requires Grew(g, seen, seen', (r, c)) && count == |seen' - seen|
    requires Open(g, (r, c)) ==> (r, c) in seen'
    ensures seen' <= Basin(g) && |seen'| == |seen| + count && count >= 0
  {
    DfsCountIsRegion(g, r, c, seen, count, seen');
    assert seen' == seen + (seen' - seen);
    assert seen * (seen' - seen) == {};
  }

  /**
   * The grid parses and no row is shorter than row 0. Otherwise `unwrap`
   * panics, or a lookup that `at` lets through may index past the end of a
   * shorter row.
   */
  predicate Loads(data: seq<string>)
  {
    FromData(data).Some? && Wide(FromData(data).value)
  }

  /** `solution_impl_1`: parse the grid, then add up the risk levels of its low points. */
  method SolvePart1(data: seq<string>) returns (r: Option<int>)
    ensures r.Some? <==> Loads(data)
    ensures r.Some? ==> r.value == TotalRisk(FromData(data).value, |data|)
  {
    var g := FromData(data);
    if g.None? || !Wide(g.value) {
      return None;
    }
    var total := SumRisks(g.value);
    return Some(total);
  }

  /**
   * `solution_impl_2`: parse the grid, then the product of the three largest
   * flood-fill counts, which add up to the basin area.
   */
  method SolvePart2(data: seq<string>) returns (r: Option<int>, ghost cells: seq<Cell>, ghost counts: seq<int>, ghost top: multiset<int>)
    ensures r.Some? <==> Loads(data)
    ensures r.Some? ==> InScanOrder(cells) && forall p :: p in cells <==> InGrid(FromData(data).value, p)
    ensures r.Some? ==> |counts| == |cells|
    ensures r.Some? ==> forall i :: 0 <= i < |cells| ==> counts[i] == BasinCount(FromData(data).value, cells[..i], cells[i])
    ensures r.Some? ==> forall i :: 0 <= i < |counts| ==> counts[i] >= 0
    ensures r.Some? ==> Sum(counts) == |Basin(FromData(data).value)|
    ensures r.Some? ==> forall i, j :: 0 <= i < j < |cells| && counts[j] > 0 ==>
      Region(FromData(data).value, {}, cells[i]) !! Region(FromData(data).value, {}, cells[j])
    ensures r.Some? ==> IsTop(top, multiset(counts)) && r.value == MsProduct(top)
  {
    var g := FromData(data);
    if g.None? || !Wide(g.value) {
      return None, [], [], multiset{};
    }
    var product;
    product, cells, counts, top := BasinProduct(g.value);
    return Some(product), cells, counts, top;
  }
}
