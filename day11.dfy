/**
 * Day 11: a grid of octopus energy levels. A step raises every level by one;
 * an octopus that reaches 10 flashes and raises its eight neighbours (the code
 * raises the whole 3x3 block, itself included), which can make them flash in
 * turn. Every octopus that flashed is then reset to 0. Part 1 counts the
 * flashes of 100 steps, part 2 finds the first step after which all are 0.
 */
module Day11 {
  import opened Base
  import Day9

  type Cell = (int, int)

  /** The level at a cell that `at_mut` reaches. */
  function Val(d: Day9.Grid, p: Cell): int
    requires Day9.Wide(d) && Day9.InGrid(d, p)
  {
    d[p.0][p.1]
  }

  /** Same number of rows, each of the same length. */
  predicate Shaped(a: Day9.Grid, b: Day9.Grid)
  {
    |a| == |b| && forall r :: 0 <= r < |a| ==> |a[r]| == |b[r]|
  }

  /** q lies in the 3x3 block centred on p. */
  predicate InBlock(p: Cell, q: Cell)
  {
    -1 <= q.0 - p.0 <= 1 && -1 <= q.1 - p.1 <= 1
  }

  /**
   * b is a later state of a within one step: the same shape, no level lower,
   * and cells `at_mut` cannot reach (past the width of row 0) untouched.
   */
  ghost predicate Evolves(a: Day9.Grid, b: Day9.Grid)
  {
    Day9.Wide(a) && Shaped(a, b) && Day9.Wide(b)
    && (forall p :: Day9.InGrid(a, p) ==> Day9.InGrid(b, p) && Val(a, p) <= Val(b, p))
    && (forall r, c :: 0 <= r < |a| && |a[0]| <= c < |a[r]| ==> a[r][c] == b[r][c])
  }

  /** The cells below 10: the ones that can still start a cascade. */
  function Low(d: Day9.Grid): (s: set<Cell>)
    requires Day9.Wide(d)
    ensures forall p {:trigger p in s} :: p in s <==> Day9.InGrid(d, p) && Val(d, p) < 10
  {
    var s := set r, c | 0 <= r < |d| && 0 <= c < |d[0]| && d[r][c] < 10 :: (r, c);
    assert forall p :: Day9.InGrid(d, p) && Val(d, p) < 10 ==> p in s by {
      forall p | Day9.InGrid(d, p) && Val(d, p) < 10
        ensures p in s
      {
        var r, c := p.0, p.1;
        assert (r, c) in s;
      }
    }
    s
  }

  /** The cells raised between a and b that are now at 10 or more: what `overflowed` collects. */
  function Overflowed(a: Day9.Grid, b: Day9.Grid): (s: set<Cell>)
    requires Evolves(a, b)
    ensures forall p {:trigger p in s} :: p in s <==> Day9.InGrid(a, p) && Val(b, p) >= 10 && Val(a, p) < Val(b, p)
  {
    var s := set r, c | 0 <= r < |a| && 0 <= c < |a[0]| && b[r][c] >= 10 && a[r][c] < b[r][c] :: (r, c);
    assert forall p :: Day9.InGrid(a, p) && Val(b, p) >= 10 && Val(a, p) < Val(b, p) ==> p in s by {
      forall p | Day9.InGrid(a, p) && Val(b, p) >= 10 && Val(a, p) < Val(b, p)
        ensures p in s
      {
        var r, c := p.0, p.1;
        assert (r, c) in s;
      }
    }
    s
  }

  /** The cells that crossed from below 10 to 10 or more between a and b: the ones that flashed. */
  function Crossed(a: Day9.Grid, b: Day9.Grid): (s: set<Cell>)
    requires Evolves(a, b)
    ensures forall p {:trigger p in s} :: p in s <==> Day9.InGrid(a, p) && Val(a, p) < 10 <= Val(b, p)
  {
    var s := set r, c | 0 <= r < |a| && 0 <= c < |a[0]| && a[r][c] < 10 <= b[r][c] :: (r, c);
    assert forall p :: Day9.InGrid(a, p) && Val(a, p) < 10 <= Val(b, p) ==> p in s by {
      forall p | Day9.InGrid(a, p) && Val(a, p) < 10 <= Val(b, p)
        ensures p in s
      {
        var r, c := p.0, p.1;
        assert (r, c) in s;
      }
    }
    s
  }

  /** How many cells of s have q in their block: the raises q gets when the cells of s flash. */
  function CountIn(s: set<Cell>, q: Cell): nat
  {
    |Around(s, q)|
  }

  /** The cells of s whose block holds q. */
  function Around(s: set<Cell>, q: Cell): (r: set<Cell>)
    ensures forall f {:trigger f in r} :: f in r <==> f in s && InBlock(f, q)
  {
    set f | f in s && InBlock(f, q)
  }

  /** The 3x3 block centred on p, the cells `increment_adjacent(p)` raises. */
  function BlockSet(p: Cell): (s: set<Cell>)
    ensures forall q {:trigger q in s} :: q in s <==> InBlock(p, q)
  {
    var s := set i, j | p.0 - 1 <= i <= p.0 + 1 && p.1 - 1 <= j <= p.1 + 1 :: (i, j);
    assert forall q :: InBlock(p, q) ==> q in s by {
      forall q | InBlock(p, q)
        ensures q in s
      {
        var i, j := q.0, q.1;
        assert (i, j) in s;
      }
    }
    s
  }

  /** The cells of p's block that come before (row, col), row by row. */
  function BlockBefore(p: Cell, row: int, col: int): (s: set<Cell>)
    ensures forall q {:trigger q in s} :: q in s <==> InBlock(p, q) && Day9.Before(q, row, col)
  {
    var s := set i, j | p.0 - 1 <= i <= p.0 + 1 && p.1 - 1 <= j <= p.1 + 1
      && Day9.Before((i, j), row, col) :: (i, j);
    assert forall q :: InBlock(p, q) && Day9.Before(q, row, col) ==> q in s by {
      forall q | InBlock(p, q) && Day9.Before(q, row, col)
        ensures q in s
      {
        var i, j := q.0, q.1;
        assert (i, j) in s;
      }
    }
    s
  }

  /** The cells of the grid. */
  function Cells(d: Day9.Grid): (s: set<Cell>)
    ensures forall q {:trigger q in s} :: q in s <==> Day9.InGrid(d, q)
  {
    var s := set r, c | 0 <= r < |d| && 0 <= c < |d[0]| :: (r, c);
    assert forall q :: Day9.InGrid(d, q) ==> q in s by {
      forall q | Day9.InGrid(d, q)
        ensures q in s
      {
        var r, c := q.0, q.1;
        assert (r, c) in s;
      }
    }
    s
  }

  /** The cells of the grid that come before (row, col) in the scan order. */
  function CellsBefore(d: Day9.Grid, row: int, col: int): (s: set<Cell>)
    ensures forall q {:trigger q in s} :: q in s <==> Day9.InGrid(d, q) && Day9.Before(q, row, col)
  {
    var s := set r, c | 0 <= r < |d| && 0 <= c < |d[0]| && Day9.Before((r, c), row, col) :: (r, c);
    assert forall q :: Day9.InGrid(d, q) && Day9.Before(q, row, col) ==> q in s by {
      forall q | Day9.InGrid(d, q) && Day9.Before(q, row, col)
        ensures q in s
      {
        var r, c := q.0, q.1;
        assert (r, c) in s;
      }
    }
    s
  }

  /**
   * g is closed under flashing from d when the cells of t are raised once:
   * a cell below 10 outside g stays below 10 even after its own raise and
   * one more from every cell of g in its block.
   */
  ghost predicate ClosedFrom(d: Day9.Grid, t: set<Cell>, g: set<Cell>)
    requires Day9.Wide(d)
  {
    forall x {:trigger CountIn(g, x)} :: Day9.InGrid(d, x) && Val(d, x) < 10 && x !in g
      ==> Val(d, x) + (if x in t then 1 else 0) + CountIn(g, x) < 10
  }

  /** A cell that its own raise and the flashes of g push to 10 is in any g closed from d and t. */
  lemma MustFlash(d: Day9.Grid, t: set<Cell>, g: set<Cell>, x: Cell)
    requires Day9.Wide(d) && ClosedFrom(d, t, g) && Day9.InGrid(d, x) && Val(d, x) < 10
    requires Val(d, x) + (if x in t then 1 else 0) + CountIn(g, x) >= 10
    ensures x in g
  {
  }

  /** f is the least set closed under flashing from d when the cells of t are raised. */
  ghost predicate LeastClosed(d: Day9.Grid, t: set<Cell>, f: set<Cell>)
    requires Day9.Wide(d)
  {
    ClosedFrom(d, t, f) && forall g {:trigger ClosedFrom(d, t, g)} :: ClosedFrom(d, t, g) ==> f <= g
  }

  /** Every cell rose by one if it is in s, and by one for each flash in its block. */
  ghost predicate Exact(d: Day9.Grid, e: Day9.Grid, s: set<Cell>)
    requires Evolves(d, e)
  {
    forall q {:trigger CountIn(Crossed(d, e), q)} :: Day9.InGrid(d, q) ==>
      Val(e, q) == Val(d, q) + (if q in s then 1 else 0) + CountIn(Crossed(d, e), q)
  }

  /** Only what had to flash did: the flashes lie inside every set closed from d and t. */
  ghost predicate Least(d: Day9.Grid, e: Day9.Grid, t: set<Cell>)
    requires Evolves(d, e)
  {
    forall g {:trigger ClosedFrom(d, t, g)} :: ClosedFrom(d, t, g) ==> Crossed(d, e) <= g
  }

  /**
   * e is what raising the cells of s once each, with every cascade they
   * set off, makes of d, where s is part of t: each cell rose by its own
   * raise and one per flash in its block, and no cell flashed that raising
   * all of t would not have made flash.
   */
  ghost predicate Cascaded(d: Day9.Grid, e: Day9.Grid, s: set<Cell>, t: set<Cell>)
  {
    Evolves(d, e) && Exact(d, e, s) && Least(d, e, t)
  }

  /** e is what raising the single cell (r, c), with its cascade, makes of d. */
  ghost predicate RaisedAt(d: Day9.Grid, e: Day9.Grid, r: int, c: int)
  {
    Cascaded(d, e, {(r, c)}, {(r, c)})
  }

  /** Two later states compose. */
  lemma EvolvesTrans(a: Day9.Grid, b: Day9.Grid, c: Day9.Grid)
    requires Evolves(a, b) && Evolves(b, c)
    ensures Evolves(a, c)
    ensures Overflowed(a, c) == Overflowed(a, b) + Overflowed(b, c)
  {
    assert forall p :: Day9.InGrid(a, p) ==> Day9.InGrid(b, p);
  }

  /** The flashes of two stretches in a row are those of each, and no cell flashes in both. */
  lemma CrossedSplit(a: Day9.Grid, b: Day9.Grid, c: Day9.Grid)
    requires Evolves(a, b) && Evolves(b, c)
    ensures Evolves(a, c)
    ensures Crossed(a, c) == Crossed(a, b) + Crossed(b, c)
    ensures Crossed(a, b) * Crossed(b, c) == {}
  {
    EvolvesTrans(a, b, c);
    assert forall p :: Day9.InGrid(b, p) ==> Day9.InGrid(a, p);
    assert forall p :: Day9.InGrid(a, p) ==> Day9.InGrid(b, p);
  }

  lemma CountInUnion(a: set<Cell>, b: set<Cell>, q: Cell)
    requires a * b == {}
    ensures CountIn(a + b, q) == CountIn(a, q) + CountIn(b, q)
  {
    assert Around(a + b, q) == Around(a, q) + Around(b, q);
    assert Around(a, q) * Around(b, q) == {};
  }

  lemma CountInOne(p: Cell, q: Cell)
    ensures CountIn({p}, q) == if InBlock(p, q) then 1 else 0
  {
    if InBlock(p, q) {
      assert Around({p}, q) == {p};
    } else {
      assert Around({p}, q) == {};
    }
  }

  lemma CountInEmpty(q: Cell)
    ensures CountIn({}, q) == 0
  {
    assert Around({}, q) == {};
  }

  lemma CountInSub(a: set<Cell>, b: set<Cell>, q: Cell)
    requires a <= b
    ensures CountIn(a, q) <= CountIn(b, q)
  {
    assert b == a + (b - a);
    CountInUnion(a, b - a, q);
  }

  /** Nothing raised yet: nothing flashed. */
  lemma CascadeStart(d: Day9.Grid, t: set<Cell>)
    requires Day9.Wide(d)
    ensures Cascaded(d, d, {}, t)
  {
    assert Crossed(d, d) == {};
    forall q | Day9.InGrid(d, q)
      ensures Val(d, q) == Val(d, q) + CountIn(Crossed(d, d), q)
    {
      CountInEmpty(q);
    }
  }

  /** Raising a cell `at_mut` does not reach changes nothing. */
  lemma CascadeOutside(d: Day9.Grid, q: Cell)
    requires Day9.Wide(d) && !Day9.InGrid(d, q)
    ensures Cascaded(d, d, {q}, {q}) && Overflowed(d, d) == {}
  {
    assert Crossed(d, d) == {};
    forall x | Day9.InGrid(d, x)
      ensures Val(d, x) == Val(d, x) + (if x in {q} then 1 else 0) + CountIn(Crossed(d, d), x)
    {
      CountInEmpty(x);
    }
  }

  /** After a raise of q past the cascades of s, a set closed from d0 and t, less what flashed, is closed for q. */
  lemma ClosedAfter(d0: Day9.Grid, d: Day9.Grid, s: set<Cell>, t: set<Cell>, q: Cell, g: set<Cell>)
    requires Cascaded(d0, d, s, t) && q !in s && s + {q} <= t
    requires ClosedFrom(d0, t, g) && Crossed(d0, d) <= g
    ensures ClosedFrom(d, {q}, g - Crossed(d0, d))
  {
    var c0 := Crossed(d0, d);
    forall x | Day9.InGrid(d, x) && Val(d, x) < 10 && x !in g - c0
      ensures Val(d, x) + (if x in {q} then 1 else 0) + CountIn(g - c0, x) < 10
    {
      assert Day9.InGrid(d0, x);
      assert x !in c0;
      assert g == c0 + (g - c0);
      CountInUnion(c0, g - c0, x);
    }
  }

  /** A raise of q, with its cascade, after the raises of s and theirs, is the raise of s and q. */
  lemma CascadeThen(d0: Day9.Grid, d: Day9.Grid, e: Day9.Grid, s: set<Cell>, t: set<Cell>, q: Cell)
    requires Cascaded(d0, d, s, t) && Cascaded(d, e, {q}, {q}) && q !in s && s + {q} <= t
    ensures Cascaded(d0, e, s + {q}, t)
  {
    CrossedSplit(d0, d, e);
    var c0, c1 := Crossed(d0, d), Crossed(d, e);
    forall x | Day9.InGrid(d0, x)
      ensures Val(e, x) == Val(d0, x) + (if x in s + {q} then 1 else 0) + CountIn(Crossed(d0, e), x)
    {
      assert Day9.InGrid(d, x);
      CountInUnion(c0, c1, x);
    }
    forall g | ClosedFrom(d0, t, g)
      ensures Crossed(d0, e) <= g
    {
      ClosedAfter(d0, d, s, t, q, g);
    }
  }

  /** What a flash leaves closed: a set closed from the raise of q, less q, is closed for q's block. */
  lemma ClosedAfterFlash(e0: Day9.Grid, q: Cell, g: set<Cell>)
    requires Day9.Wide(e0) && Day9.InGrid(e0, q) && Val(e0, q) == 9
    requires ClosedFrom(e0, {q}, g) && q in g
    ensures ClosedFrom(Bump(e0, q), BlockSet(q), g - {q})
  {
    var e1 := Bump(e0, q);
    forall x | Day9.InGrid(e1, x) && Val(e1, x) < 10 && x !in g - {q}
      ensures Val(e1, x) + (if x in BlockSet(q) then 1 else 0) + CountIn(g - {q}, x) < 10
    {
      assert Day9.InGrid(e0, x) && x != q;
      assert g == (g - {q}) + {q};
      CountInUnion(g - {q}, {q}, x);
      CountInOne(q, x);
    }
  }

  /**
   * One raise of q as `increment_adjacent` does it: `at_mut` raises q; at
   * exactly 10 the whole block is raised with its cascades, otherwise
   * nothing more happens.
   */
  lemma RaiseThen(e0: Day9.Grid, e1: Day9.Grid, e: Day9.Grid, q: Cell)
    requires Day9.Wide(e0) && Day9.InGrid(e0, q) && e1 == Bump(e0, q)
    requires Val(e1, q) == 10 ==> Cascaded(e1, e, BlockSet(q), BlockSet(q))
    requires Val(e1, q) != 10 ==> e == e1
    ensures Cascaded(e0, e, {q}, {q})
  {
    if Val(e1, q) != 10 {
      RaiseQuiet(e0, q);
    } else {
      RaiseFlash(e0, e, q);
    }
  }

  /** A raise that does not reach exactly 10 sets nothing off. */
  lemma RaiseQuiet(e0: Day9.Grid, q: Cell)
    requires Day9.Wide(e0) && Day9.InGrid(e0, q) && Val(e0, q) != 9
    ensures Cascaded(e0, Bump(e0, q), {q}, {q})
  {
    var e1 := Bump(e0, q);
    assert Crossed(e0, e1) == {};
    forall x | Day9.InGrid(e0, x)
      ensures Val(e1, x) == Val(e0, x) + (if x in {q} then 1 else 0) + CountIn(Crossed(e0, e1), x)
    {
      CountInEmpty(x);
    }
  }

  /** A raise to exactly 10 flashes q, then its block is raised with the cascades. */
  lemma RaiseFlash(e0: Day9.Grid, e: Day9.Grid, q: Cell)
    requires Day9.Wide(e0) && Day9.InGrid(e0, q) && Val(e0, q) == 9
    requires Cascaded(Bump(e0, q), e, BlockSet(q), BlockSet(q))
    ensures Cascaded(e0, e, {q}, {q})
  {
    var e1 := Bump(e0, q);
    CrossedSplit(e0, e1, e);
    var c1 := Crossed(e1, e);
    assert Crossed(e0, e1) == {q};
    forall x | Day9.InGrid(e0, x)
      ensures Val(e, x) == Val(e0, x) + (if x in {q} then 1 else 0) + CountIn(Crossed(e0, e), x)
    {
      assert Day9.InGrid(e1, x);
      CountInUnion({q}, c1, x);
      CountInOne(q, x);
      assert Val(e, x) == Val(e1, x) + (if x in BlockSet(q) then 1 else 0) + CountIn(c1, x);
    }
    forall g | ClosedFrom(e0, {q}, g)
      ensures Crossed(e0, e) <= g
    {
      MustFlash(e0, {q}, g, q);
      ClosedAfterFlash(e0, q, g);
    }
  }

  /** Raising all of t with its cascades flashes exactly the least set closed from d and t. */
  lemma CascadedLeastClosed(d: Day9.Grid, e: Day9.Grid, t: set<Cell>)
    requires Cascaded(d, e, t, t)
    ensures LeastClosed(d, t, Crossed(d, e))
  {
    forall x | Day9.InGrid(d, x) && Val(d, x) < 10 && x !in Crossed(d, e)
      ensures Val(d, x) + (if x in t then 1 else 0) + CountIn(Crossed(d, e), x) < 10
    {
      assert Day9.InGrid(e, x);
    }
  }

  /** Two grids of d's shape that agree with each other on the grid and with d past the width of row 0 are equal. */
  lemma SameGrid(d: Day9.Grid, b1: Day9.Grid, b2: Day9.Grid)
    requires Day9.Wide(d) && Shaped(d, b1) && Shaped(d, b2)
    requires forall r, c :: 0 <= r < |d| && |d[0]| <= c < |d[r]| ==> b1[r][c] == d[r][c] && b2[r][c] == d[r][c]
    requires forall q :: Day9.InGrid(d, q) ==> b1[q.0][q.1] == b2[q.0][q.1]
    ensures b1 == b2
  {
    forall r | 0 <= r < |d|
      ensures b1[r] == b2[r]
    {
      forall c | 0 <= c < |b1[r]|
        ensures b1[r][c] == b2[r][c]
      {
        if c < |d[0]| {
          assert Day9.InGrid(d, (r, c));
        }
      }
    }
  }

  /** A cascade has one outcome: the order of the raises does not matter. */
  lemma CascadedUnique(d: Day9.Grid, e1: Day9.Grid, e2: Day9.Grid, t: set<Cell>)
    requires Cascaded(d, e1, t, t) && Cascaded(d, e2, t, t)
    ensures e1 == e2
  {
    CascadedLeastClosed(d, e1, t);
    CascadedLeastClosed(d, e2, t);
    assert Crossed(d, e1) == Crossed(d, e2);
    forall q | Day9.InGrid(d, q)
      ensures e1[q.0][q.1] == e2[q.0][q.1]
    {
      assert CountIn(Crossed(d, e1), q) == CountIn(Crossed(d, e2), q);
    }
    SameGrid(d, e1, e2);
  }

  /** Levels only rise, so the cells below 10 only go; a crossing takes one away. */
  lemma LowShrinks(a: Day9.Grid, b: Day9.Grid, p: Cell)
    requires Evolves(a, b)
    ensures Low(b) <= Low(a) && |Low(b)| <= |Low(a)|
    ensures Day9.InGrid(a, p) && Val(a, p) < 10 <= Val(b, p) ==> |Low(b)| < |Low(a)|
  {
    assert Low(b) <= Low(a);
    assert Low(a) == Low(b) + (Low(a) - Low(b));
    assert Low(b) * (Low(a) - Low(b)) == {};
    if Day9.InGrid(a, p) && Val(a, p) < 10 <= Val(b, p) {
      assert p in Low(a) - Low(b);
    }
  }

  /** `*at_mut(p) += 1`. */
  function Bump(d: Day9.Grid, p: Cell): (e: Day9.Grid)
    requires Day9.Wide(d) && Day9.InGrid(d, p)
    ensures Evolves(d, e) && Val(e, p) == Val(d, p) + 1
    ensures forall q :: Day9.InGrid(d, q) && q != p ==> Val(e, q) == Val(d, q)
  {
    d[p.0 := d[p.0][p.1 := d[p.0][p.1] + 1]]
  }

  /** `*at_mut(p) = 0`. */
  function Reset(d: Day9.Grid, p: Cell): (e: Day9.Grid)
    requires Day9.Wide(d) && Day9.InGrid(d, p)
    ensures Day9.Wide(e) && Shaped(d, e) && Day9.InGrid(e, p) && Val(e, p) == 0
    ensures forall q :: Day9.InGrid(d, q) && q != p ==> Day9.InGrid(e, q) && Val(e, q) == Val(d, q)
    ensures forall r, c :: 0 <= r < |d| && |d[0]| <= c < |d[r]| ==> d[r][c] == e[r][c]
  {
    d[p.0 := d[p.0][p.1 := 0]]
  }

  /** The octopus levels of a parsed grid are digits. */
  ghost predicate Digits(d: Day9.Grid)
    requires Day9.Wide(d)
  {
    forall p :: Day9.InGrid(d, p) ==> 0 <= Val(d, p) <= 9
  }

  /** The cells at level 0. */
  function Zeros(d: Day9.Grid): (s: set<Cell>)
    requires Day9.Wide(d)
    ensures forall p {:trigger p in s} :: p in s <==> Day9.InGrid(d, p) && Val(d, p) == 0
  {
    var s := set r, c | 0 <= r < |d| && 0 <= c < |d[0]| && d[r][c] == 0 :: (r, c);
    assert forall p :: Day9.InGrid(d, p) && Val(d, p) == 0 ==> p in s by {
      forall p | Day9.InGrid(d, p) && Val(d, p) == 0
        ensures p in s
      {
        var r, c := p.0, p.1;
        assert (r, c) in s;
      }
    }
    s
  }

  /** After a step that flashed the cells of f: those are 0, every other cell rose by one and once per flash in its block. */
  ghost predicate Settles(a: Day9.Grid, b: Day9.Grid, f: set<Cell>)
    requires Day9.Wide(a) && Day9.Wide(b)
  {
    forall q {:trigger CountIn(f, q)} :: Day9.InGrid(a, q) ==>
      Day9.InGrid(b, q) && Val(b, q) == (if q in f then 0 else Val(a, q) + 1 + CountIn(f, q))
  }

  /**
   * What one step does to a grid of digits, as a relation between the grid
   * before and after and the count it returns. The cells now at 0 are the
   * ones that flashed: the least set closed under flashing when every cell
   * is raised once. They were reset; every other cell rose by one and once
   * per flash in its block; cells past the width of row 0 are untouched; the
   * count is the number of flashes.
   */
  ghost predicate StepTo(a: Day9.Grid, b: Day9.Grid, count: int)
  {
    Day9.Wide(a) && Digits(a) && Day9.Wide(b) && Shaped(a, b)
    && (forall r, c :: 0 <= r < |a| && |a[0]| <= c < |a[r]| ==> b[r][c] == a[r][c])
    && LeastClosed(a, Cells(a), Zeros(b)) && Settles(a, b, Zeros(b))
    && count == |Zeros(b)|
  }

  /** b is what one step makes of a, whatever count it returned. */
  ghost predicate Stepped(a: Day9.Grid, b: Day9.Grid)
  {
    Day9.Wide(b) && StepTo(a, b, |Zeros(b)|)
  }

  /** A step has one outcome: the grid and the count it returns are determined by the grid before. */
  lemma StepToUnique(a: Day9.Grid, b1: Day9.Grid, n1: int, b2: Day9.Grid, n2: int)
    requires StepTo(a, b1, n1) && StepTo(a, b2, n2)
    ensures b1 == b2 && n1 == n2
  {
    assert Zeros(b1) == Zeros(b2);
    forall q | Day9.InGrid(a, q)
      ensures b1[q.0][q.1] == b2[q.0][q.1]
    {
      assert CountIn(Zeros(b1), q) == CountIn(Zeros(b2), q);
    }
    SameGrid(a, b1, b2);
  }

  /** A step leaves digits: a cell that did not flash stayed below 10. */
  lemma StepDigits(a: Day9.Grid, b: Day9.Grid, n: int)
    requires StepTo(a, b, n)
    ensures Digits(b)
  {
    forall q | Day9.InGrid(b, q)
      ensures 0 <= Val(b, q) <= 9
    {
      assert Day9.InGrid(a, q);
      if q !in Zeros(b) {
        assert q in Cells(a) && Val(b, q) == Val(a, q) + 1 + CountIn(Zeros(b), q);
      }
    }
  }

  /** A cell at 1 with nothing around it does not flash: it rises to 2. */
  lemma StepQuiet(b: Day9.Grid, n: int)
    requires StepTo([[1]], b, n)
    ensures b == [[2]] && n == 0
  {
    var a: Day9.Grid := [[1]];
    var w: Day9.Grid := [[2]];
    assert Zeros(w) == {};
    forall q | Day9.InGrid(a, q)
      ensures Val(w, q) == Val(a, q) + 1 + CountIn({}, q)
    {
      CountInEmpty(q);
    }
    forall x | Day9.InGrid(a, x) && Val(a, x) < 10
      ensures Val(a, x) + (if x in Cells(a) then 1 else 0) + CountIn({}, x) < 10
    {
      CountInEmpty(x);
    }
    assert StepTo(a, w, 0);
    StepToUnique(a, b, n, w, 0);
  }

  /** A 9 flashes and raises its neighbour once more: [[9, 1]] becomes [[0, 3]] with one flash. */
  lemma StepOneFlash(b: Day9.Grid, n: int)
    requires StepTo([[9, 1]], b, n)
    ensures b == [[0, 3]] && n == 1
  {
    var a: Day9.Grid := [[9, 1]];
    var w: Day9.Grid := [[0, 3]];
    assert Zeros(w) == {(0, 0)} by {
      assert forall q :: q in Zeros(w) ==> q == (0, 0);
    }
    CountInOne((0, 0), (0, 1));
    forall g | ClosedFrom(a, Cells(a), g)
      ensures {(0, 0)} <= g
    {
      MustFlash(a, Cells(a), g, (0, 0));
    }
    assert StepTo(a, w, 1);
    StepToUnique(a, b, n, w, 1);
  }

  /** A flash that pushes its neighbour to 10 makes it flash too: [[9, 8]] becomes [[0, 0]] with two flashes. */
  lemma StepChainFlash(b: Day9.Grid, n: int)
    requires StepTo([[9, 8]], b, n)
    ensures b == [[0, 0]] && n == 2
  {
    var a: Day9.Grid := [[9, 8]];
    var w: Day9.Grid := [[0, 0]];
    assert Zeros(w) == {(0, 0), (0, 1)} by {
      assert forall q :: q in Zeros(w) ==> q == (0, 0) || q == (0, 1);
      assert Day9.InGrid(w, (0, 0)) && Day9.InGrid(w, (0, 1));
    }
    forall g | ClosedFrom(a, Cells(a), g)
      ensures {(0, 0), (0, 1)} <= g
    {
      MustFlash(a, Cells(a), g, (0, 0));
      CountInSub({(0, 0)}, g, (0, 1));
      CountInOne((0, 0), (0, 1));
      MustFlash(a, Cells(a), g, (0, 1));
    }
    assert StepTo(a, w, 2);
    StepToUnique(a, b, n, w, 2);
  }

  /** `is_all_zeroes`: every level of every row is 0. */
  function IsAllZeroes(d: Day9.Grid): (r: bool)
  {
    forall i, j :: 0 <= i < |d| && 0 <= j < |d[i]| ==> d[i][j] == 0
  }

  /** On a rectangular grid, all zero means every cell flashed. */
  lemma AllZeroesIffAllFlashed(d: Day9.Grid)
    requires Day9.Wide(d) && forall i :: 0 <= i < |d| ==> |d[i]| == |d[0]|
    ensures IsAllZeroes(d) <==> forall p :: Day9.InGrid(d, p) ==> p in Zeros(d)
  {
    if forall p :: Day9.InGrid(d, p) ==> p in Zeros(d) {
      forall i, j | 0 <= i < |d| && 0 <= j < |d[i]|
        ensures d[i][j] == 0
      {
        assert Day9.InGrid(d, (i, j));
      }
    }
  }

  /**
   * The invariant of the block loop of `increment_adjacent` around (r, c),
   * from d0 at its start to d now: the cells of the block before offset
   * (dr, dc) have been raised with their cascades, and the set collected is
   * what overflowed.
   */
  ghost predicate BlockLoop(d0: Day9.Grid, d: Day9.Grid, overflowed: set<Cell>, r: int, c: int, dr: int, dc: int)
  {
    Day9.Wide(d) && Cascaded(d0, d, BlockBefore((r, c), r + dr, c + dc), BlockSet((r, c)))
    && overflowed == Overflowed(d0, d) && |Low(d)| <= |Low(d0)|
  }

  lemma BlockStart(d0: Day9.Grid, r: int, c: int)
    requires Day9.Wide(d0)
    ensures BlockLoop(d0, d0, {}, r, c, -1, -1)
  {
    assert BlockBefore((r, c), r - 1, c - 1) == {};
    CascadeStart(d0, BlockSet((r, c)));
  }

  /** One pass of the block loop keeps its invariant, one cell further on. */
  lemma BlockStep(d0: Day9.Grid, b: Day9.Grid, e: Day9.Grid, overflowed: set<Cell>, more: set<Cell>, r: int, c: int, dr: int, dc: int)
    requires -1 <= dr <= 1 && -1 <= dc <= 1 && BlockLoop(d0, b, overflowed, r, c, dr, dc)
    requires RaisedAt(b, e, r + dr, c + dc) && more == Overflowed(b, e)
    ensures BlockLoop(d0, e, overflowed + more, r, c, dr, dc + 1)
  {
    EvolvesTrans(d0, b, e);
    LowShrinks(b, e, (r, c));
    BlockNext(r, c, dr, dc);
    CascadeThen(d0, b, e, BlockBefore((r, c), r + dr, c + dc), BlockSet((r, c)), (r + dr, c + dc));
  }

  /** The block walked one cell further. */
  lemma BlockNext(r: int, c: int, dr: int, dc: int)
    requires -1 <= dr <= 1 && -1 <= dc <= 1
    ensures (r + dr, c + dc) !in BlockBefore((r, c), r + dr, c + dc)
    ensures BlockBefore((r, c), r + dr, c + dc) + {(r + dr, c + dc)} == BlockBefore((r, c), r + dr, c + (dc + 1))
    ensures BlockBefore((r, c), r + dr, c + (dc + 1)) <= BlockSet((r, c))
  {
  }

  /** A finished row of the block is the start of the next one. */
  lemma BlockRow(d0: Day9.Grid, d: Day9.Grid, overflowed: set<Cell>, r: int, c: int, dr: int)
    requires BlockLoop(d0, d, overflowed, r, c, dr, 2)
    ensures BlockLoop(d0, d, overflowed, r, c, dr + 1, -1)
  {
    assert BlockBefore((r, c), r + dr, c + 2) == BlockBefore((r, c), r + (dr + 1), c + -1);
  }

  /** After the last row, the whole block has been raised. */
  lemma BlockDone(d0: Day9.Grid, d: Day9.Grid, overflowed: set<Cell>, r: int, c: int)
    requires BlockLoop(d0, d, overflowed, r, c, 2, -1)
    ensures Cascaded(d0, d, BlockSet((r, c)), BlockSet((r, c)))
  {
    assert BlockBefore((r, c), r + 2, c + -1) == BlockSet((r, c));
  }

  /**
   * The invariant of the scan of `step`, from d0 at its start to d now: every
   * cell before (row, col) has been raised with its cascades, and the set
   * collected is what overflowed.
   */
  ghost predicate ScanLoop(d0: Day9.Grid, d: Day9.Grid, overflowed: set<Cell>, row: int, col: int)
  {
    Day9.Wide(d0) && Digits(d0) && Cascaded(d0, d, CellsBefore(d0, row, col), Cells(d0))
    && overflowed == Overflowed(d0, d)
  }

  lemma ScanStart(d0: Day9.Grid)
    requires Day9.Wide(d0) && Digits(d0)
    ensures ScanLoop(d0, d0, {}, 0, 0)
  {
    assert CellsBefore(d0, 0, 0) == {};
    assert Overflowed(d0, d0) == {};
    CascadeStart(d0, Cells(d0));
  }

  /**
   * One cell of the scan: `increment` raises it; if it reached exactly 10 it
   * is collected and cascades. A cell pushed past 10 here had already
   * overflowed, since every level started as a digit.
   */
  lemma ScanStep(d0: Day9.Grid, b: Day9.Grid, m: Day9.Grid, e: Day9.Grid, overflowed: set<Cell>, more: set<Cell>, row: int, col: int)
    requires ScanLoop(d0, b, overflowed, row, col) && Day9.InGrid(b, (row, col)) && m == Bump(b, (row, col))
    requires Val(m, (row, col)) == 10 ==> Cascaded(m, e, BlockSet((row, col)), BlockSet((row, col))) && more == Overflowed(m, e)
    requires Val(m, (row, col)) != 10 ==> e == m && more == {}
    ensures ScanLoop(d0, e, overflowed + (if Val(m, (row, col)) == 10 then {(row, col)} else {}) + more, row, col + 1)
  {
    var pos := (row, col);
    assert Evolves(m, e);
    EvolvesTrans(d0, b, m);
    EvolvesTrans(d0, m, e);
    ScanOverflow(d0, b, m, overflowed, pos);
    RaiseThen(b, m, e, pos);
    assert Day9.InGrid(d0, pos);
    CellsNext(d0, row, col);
    CascadeThen(d0, b, e, CellsBefore(d0, row, col), Cells(d0), pos);
  }

  /** The scan walked one cell further. */
  lemma CellsNext(d: Day9.Grid, row: int, col: int)
    requires Day9.InGrid(d, (row, col))
    ensures (row, col) !in CellsBefore(d, row, col)
    ensures CellsBefore(d, row, col) + {(row, col)} == CellsBefore(d, row, col + 1)
    ensures CellsBefore(d, row, col + 1) <= Cells(d)
  {
  }

  /** The cell just raised joins the overflowed ones exactly when it reached 10. */
  lemma ScanOverflow(d0: Day9.Grid, b: Day9.Grid, m: Day9.Grid, overflowed: set<Cell>, pos: Cell)
    requires Evolves(d0, b) && Digits(d0) && overflowed == Overflowed(d0, b)
    requires Day9.InGrid(b, pos) && m == Bump(b, pos) && Evolves(d0, m)
    ensures Overflowed(d0, m) == overflowed + (if Val(m, pos) == 10 then {pos} else {})
  {
    assert Day9.InGrid(d0, pos);
  }

  /** A finished row of the scan is the start of the next one. */
  lemma ScanRow(d0: Day9.Grid, d: Day9.Grid, overflowed: set<Cell>, row: int)
    requires |d0| > 0 && ScanLoop(d0, d, overflowed, row, |d0[0]|)
    ensures ScanLoop(d0, d, overflowed, row + 1, 0)
  {
    assert CellsBefore(d0, row, |d0[0]|) == CellsBefore(d0, row + 1, 0);
  }

  /** After the last row, every cell has been raised. */
  lemma ScanDone(d0: Day9.Grid, d: Day9.Grid, overflowed: set<Cell>)
    requires ScanLoop(d0, d, overflowed, |d0|, 0)
    ensures Cascaded(d0, d, Cells(d0), Cells(d0))
  {
    assert CellsBefore(d0, |d0|, 0) == Cells(d0);
  }

  /** The reset loop so far: the cells in `done` are 0, every other cell as the scan left it. */
  ghost predicate ResetLoop(mid: Day9.Grid, d: Day9.Grid, done: set<Cell>)
  {
    Day9.Wide(mid) && Day9.Wide(d) && Shaped(mid, d)
    && (forall q :: Day9.InGrid(mid, q) ==> Day9.InGrid(d, q) && Val(d, q) == (if q in done then 0 else Val(mid, q)))
    && (forall r, c :: 0 <= r < |mid| && |mid[0]| <= c < |mid[r]| ==> d[r][c] == mid[r][c])
  }

  lemma ResetStep(mid: Day9.Grid, d: Day9.Grid, done: set<Cell>, q: Cell)
    requires ResetLoop(mid, d, done) && Day9.InGrid(d, q)
    ensures ResetLoop(mid, Reset(d, q), done + {q})
  {
  }

  /**
   * After raising every cell of a grid of digits with the cascades and
   * resetting what overflowed, the grid is the one step makes of it and the
   * count is the number of flashes.
   */
  lemma StepResult(d0: Day9.Grid, mid: Day9.Grid, d: Day9.Grid, overflowed: set<Cell>)
    requires Day9.Wide(d0) && Digits(d0) && Cascaded(d0, mid, Cells(d0), Cells(d0))
    requires overflowed == Overflowed(d0, mid) && ResetLoop(mid, d, overflowed)
    ensures StepTo(d0, d, |overflowed|)
  {
    CascadedLeastClosed(d0, mid, Cells(d0));
    var f := Crossed(d0, mid);
    assert overflowed == f;
    assert Zeros(d) == f by {
      forall q | Day9.InGrid(d, q)
        ensures q in f <==> Val(d, q) == 0
      {
        assert Day9.InGrid(d0, q) && Day9.InGrid(mid, q) && q in Cells(d0);
        assert Val(mid, q) == Val(d0, q) + 1 + CountIn(f, q);
      }
    }
    assert Shaped(d0, d);
  }

  /** The grid of `Grid::from_data`, updated in place by the steps. */
  class Grid {
    var data: Day9.Grid

    constructor(d: Day9.Grid)
      ensures data == d
    {
      data := d;
    }

    predicate Valid()
      reads this
    {
      Day9.Wide(data)
    }

    /** `increment`: raise an in-grid cell and say whether it just reached 10; nothing outside the grid. */
    method Increment(r: int, c: int) returns (reached: bool)
      requires Valid()
      modifies this
      ensures Day9.InGrid(old(data), (r, c)) ==> data == Bump(old(data), (r, c)) && reached == (Val(data, (r, c)) == 10)
      ensures !Day9.InGrid(old(data), (r, c)) ==> data == old(data) && !reached
    {
      if Day9.InGrid(data, (r, c)) {
        data := Bump(data, (r, c));
        reached := data[r][c] == 10;
      } else {
        reached := false;
      }
    }

    /**
     * `increment_adjacent`: raise every in-grid cell of the block around
     * (r, c); a cell that reaches 10 or more is reported, and one that reaches
     * exactly 10 cascades from itself. Levels only rise, so each cell reaches
     * exactly 10 at most once: the cells below 10 bound the recursion.
     */
    method IncrementAdjacent(r: int, c: int) returns (overflowed: set<Cell>)
      requires Valid()
      modifies this
      ensures Valid() && Cascaded(old(data), data, BlockSet((r, c)), BlockSet((r, c)))
      ensures overflowed == Overflowed(old(data), data)
      decreases |Low(data)|, 1
    {
      ghost var d0 := data;
      overflowed := {};
      BlockStart(d0, r, c);
      for dr := -1 to 2
        invariant BlockLoop(d0, data, overflowed, r, c, dr, -1)
      {
        for dc := -1 to 2
          invariant BlockLoop(d0, data, overflowed, r, c, dr, dc)
        {
          ghost var before := data;
          var more := Raise(r + dr, c + dc);
          BlockStep(d0, before, data, overflowed, more, r, c, dr, dc);
          overflowed := overflowed + more;
        }
        BlockRow(d0, data, overflowed, r, c, dr);
      }
      BlockDone(d0, data, overflowed, r, c);
    }

    /**
     * One pass of the inner loop of `increment_adjacent`: raise the cell if
     * `at_mut` reaches it, report it at 10 or more, cascade at exactly 10.
     */
    method Raise(r: int, c: int) returns (overflowed: set<Cell>)
      requires Valid()
      modifies this
      ensures Valid() && RaisedAt(old(data), data, r, c)
      ensures overflowed == Overflowed(old(data), data)
      decreases |Low(data)|, 0
    {
      overflowed := {};
      ghost var d0 := data;
      if Day9.InGrid(data, (r, c)) {
        data := Bump(data, (r, c));
        ghost var d1 := data;
        if data[r][c] >= 10 {
          overflowed := {(r, c)};
        }
        assert overflowed == Overflowed(d0, d1);
        if data[r][c] == 10 {
          LowShrinks(d0, d1, (r, c));
          var more := IncrementAdjacent(r, c);
          EvolvesTrans(d0, d1, data);
          overflowed := overflowed + more;
        }
        RaiseThen(d0, d1, data, (r, c));
      } else {
        CascadeOutside(d0, (r, c));
      }
    }

    /**
     * `step`: `increment` every cell (row by row, over the width of row 0)
     * and cascade from each one that reaches exactly 10, collecting what
     * overflowed; then reset those cells to 0 and return how many there were.
     */
    method Step() returns (count: int)
      requires Valid() && Digits(data)
      modifies this
      ensures Valid() && StepTo(old(data), data, count)
    {
      ghost var d0 := data;
      var overflowed := ScanAll();
      ghost var mid := data;
      ResetAll(overflowed);
      StepResult(d0, mid, data, overflowed);
      count := |overflowed|;
    }

    /** The first half of `step`: the scan over every cell, with its cascades. */
    method ScanAll() returns (overflowed: set<Cell>)
      requires Valid() && Digits(data)
      modifies this
      ensures Valid() && Cascaded(old(data), data, Cells(old(data)), Cells(old(data)))
      ensures overflowed == Overflowed(old(data), data)
    {
      ghost var d0 := data;
      overflowed := {};
      ScanStart(d0);
      for row := 0 to |data|
        invariant Valid() && ScanLoop(d0, data, overflowed, row, 0)
      {
        for col := 0 to |data[0]|
          invariant Valid() && ScanLoop(d0, data, overflowed, row, col)
        {
          ghost var b := data;
          ghost var before := overflowed;
          var reached := Increment(row, col);
          ghost var m := data;
          if reached {
            overflowed := overflowed + {(row, col)};
            var more := IncrementAdjacent(row, col);
            ScanStep(d0, b, m, data, before, more, row, col);
            overflowed := overflowed + more;
          } else {
            ScanStep(d0, b, m, data, before, {}, row, col);
          }
        }
        ScanRow(d0, data, overflowed, row);
      }
      ScanDone(d0, data, overflowed);
    }

    /**
     * The second half of `step`: every collected cell back to 0, in any
     * order, as a `HashSet` iterates.
     */
    method ResetAll(overflowed: set<Cell>)
      requires Valid()
      modifies this
      ensures Valid() && ResetLoop(old(data), data, overflowed)
    {
      ghost var mid := data;
      var rest := overflowed;
      while rest != {}
        invariant Valid() && rest <= overflowed && ResetLoop(mid, data, overflowed - rest)
        decreases |rest|
      {
        var q :| q in rest;
        if Day9.InGrid(data, q) {
          ResetStep(mid, data, overflowed - rest, q);
          data := Reset(data, q);
        }
        assert overflowed - (rest - {q}) == (overflowed - rest) + {q};
        rest := rest - {q};
      }
    }
  }

  /** A parsed grid holds digits. */
  lemma ParsedDigits(data: seq<string>)
    requires Day9.FromData(data).Some? && Day9.Wide(Day9.FromData(data).value)
    ensures Digits(Day9.FromData(data).value)
  {
    var g := Day9.FromData(data).value;
    forall p | Day9.InGrid(g, p)
      ensures 0 <= Val(g, p) <= 9
    {
      assert g[p.0] == Day9.ParseRow(data[p.0]).value;
    }
  }

  /** Each grid of `states` is the step from the one before, which returned the matching count. */
  ghost predicate Steps(states: seq<Day9.Grid>, counts: seq<int>)
  {
    |states| == |counts| + 1 && forall k :: 0 <= k < |counts| ==> StepTo(states[k], states[k + 1], counts[k])
  }

  lemma StepsSnoc(states: seq<Day9.Grid>, counts: seq<int>, next: Day9.Grid, n: int)
    requires Steps(states, counts) && StepTo(states[|states| - 1], next, n)
    ensures Steps(states + [next], counts + [n])
  {
    var s', c' := states + [next], counts + [n];
    forall k | 0 <= k < |c'|
      ensures StepTo(s'[k], s'[k + 1], c'[k])
    {
      if k < |counts| {
        assert s'[k] == states[k] && s'[k + 1] == states[k + 1] && c'[k] == counts[k];
      } else {
        assert s'[k] == states[|states| - 1];
      }
    }
  }

  /** Step sequences from the same grid agree up to k, as each step has one outcome. */
  lemma {:induction false} StepsAgree(s1: seq<Day9.Grid>, c1: seq<int>, s2: seq<Day9.Grid>, c2: seq<int>, k: nat)
    requires Steps(s1, c1) && Steps(s2, c2) && |c1| == |c2| && s1[0] == s2[0] && k <= |c1|
    ensures s1[k] == s2[k]
    ensures k < |c1| ==> c1[k] == c2[k]
  {
    if k > 0 {
      StepsAgree(s1, c1, s2, c2, k - 1);
      StepToUnique(s1[k - 1], s1[k], c1[k - 1], s2[k], c2[k - 1]);
    }
    if k < |c1| {
      StepToUnique(s1[k], s1[k + 1], c1[k], s2[k + 1], c2[k]);
    }
  }

  /** The grids and counts of a run of steps are determined by the first grid. */
  lemma StepsUnique(s1: seq<Day9.Grid>, c1: seq<int>, s2: seq<Day9.Grid>, c2: seq<int>)
    requires Steps(s1, c1) && Steps(s2, c2) && |c1| == |c2| && s1[0] == s2[0]
    ensures s1 == s2 && c1 == c2
  {
    forall k | 0 <= k < |s1|
      ensures s1[k] == s2[k]
    {
      StepsAgree(s1, c1, s2, c2, k);
    }
    forall k | 0 <= k < |c1|
      ensures c1[k] == c2[k]
    {
      StepsAgree(s1, c1, s2, c2, k);
    }
  }

  /**
   * `solution_impl_1`: the flashes of 100 steps added up. `states` are the
   * grids after 0, 1, ..., 100 steps and `counts` what each step returned.
   */
  method SolvePart1(data: seq<string>) returns (r: Option<int>, ghost states: seq<Day9.Grid>, ghost counts: seq<int>)
    ensures r.Some? <==> Day9.Loads(data)
    ensures r.Some? ==> |states| == 101 && |counts| == 100 && states[0] == Day9.FromData(data).value
    ensures r.Some? ==> forall k :: 0 <= k < 100 ==> StepTo(states[k], states[k + 1], counts[k])
    ensures r.Some? ==> r.value == Sum(counts)
  {
    var parsed := Day9.FromData(data);
    states, counts := [], [];
    if parsed.None? || !Day9.Wide(parsed.value) {
      return None, states, counts;
    }
    ParsedDigits(data);
    var grid := new Grid(parsed.value);
    states := [grid.data];
    var res := 0;
    for i := 0 to 100
      invariant grid.Valid() && Digits(grid.data)
      invariant Steps(states, counts) && |counts| == i
      invariant states[0] == parsed.value && states[i] == grid.data
      invariant res == Sum(counts)
    {
      ghost var prev := grid.data;
      var n := grid.Step();
      StepDigits(prev, grid.data, n);
      SumAppend(counts, [n]);
      StepsSnoc(states, counts, grid.data, n);
      states := states + [grid.data];
      counts := counts + [n];
      res := res + n;
    }
    return Some(res), states, counts;
  }

  /** Each grid of `states` is the full step from the one before. */
  ghost predicate Chain(states: seq<Day9.Grid>)
  {
    forall k :: 0 <= k < |states| - 1 ==> Stepped(states[k], states[k + 1])
  }

  lemma ChainSnoc(states: seq<Day9.Grid>, next: Day9.Grid)
    requires states != [] && Chain(states) && Stepped(states[|states| - 1], next)
    ensures Chain(states + [next])
  {
    var s' := states + [next];
    forall k | 0 <= k < |s'| - 1
      ensures Stepped(s'[k], s'[k + 1])
    {
      if k < |states| - 1 {
        assert s'[k] == states[k] && s'[k + 1] == states[k + 1];
      } else {
        assert s'[k] == states[|states| - 1];
      }
    }
  }

  /** Chains of steps from the same grid agree up to k. */
  lemma {:induction false} ChainAgree(s1: seq<Day9.Grid>, s2: seq<Day9.Grid>, k: nat)
    requires Chain(s1) && Chain(s2) && s1 != [] && s2 != [] && s1[0] == s2[0] && k < |s1| && k < |s2|
    ensures s1[k] == s2[k]
  {
    if k > 0 {
      ChainAgree(s1, s2, k - 1);
      assert Stepped(s1[k - 1], s1[k]) && Stepped(s2[k - 1], s2[k]);
      StepToUnique(s1[k - 1], s1[k], |Zeros(s1[k])|, s2[k], |Zeros(s2[k])|);
    }
  }

  /** None of the first n grids of `states` is all zero. */
  ghost predicate NoneZero(states: seq<Day9.Grid>, n: nat)
  {
    n <= |states| && forall k :: 0 <= k < n ==> !IsAllZeroes(states[k])
  }

  lemma NoneZeroSnoc(states: seq<Day9.Grid>, next: Day9.Grid)
    requires NoneZero(states, |states|)
    ensures NoneZero(states + [next], |states|)
  {
    var s' := states + [next];
    forall k | 0 <= k < |states|
      ensures !IsAllZeroes(s'[k])
    {
      assert s'[k] == states[k];
    }
  }

  /**
   * `solution_impl_2`: the first number of steps after which every level is 0.
   * The source loops without bound; here at most `fuel` steps are taken and
   * None means none of the grids after 0 .. fuel - 1 steps was all zero (or a
   * step would have panicked).
   */
  method SolvePart2(data: seq<string>, fuel: nat) returns (r: Option<int>, ghost states: seq<Day9.Grid>)
    requires Day9.FromData(data).Some?
    ensures r.Some? ==> Day9.Loads(data) || (r.value == 0 && IsAllZeroes(Day9.FromData(data).value))
    ensures r.Some? ==> 0 <= r.value < |states| && states[0] == Day9.FromData(data).value
    ensures r.Some? ==> IsAllZeroes(states[r.value]) && forall k :: 0 <= k < r.value ==> !IsAllZeroes(states[k])
    ensures r.Some? ==> forall k :: 0 <= k < r.value ==> Stepped(states[k], states[k + 1])
    ensures r.None? && Day9.Loads(data) ==> |states| == fuel + 1 && states[0] == Day9.FromData(data).value && Chain(states)
    ensures r.None? && Day9.Loads(data) ==> forall k :: 0 <= k < fuel ==> !IsAllZeroes(states[k])
    ensures !Day9.Wide(Day9.FromData(data).value) ==> (r.Some? <==> IsAllZeroes(Day9.FromData(data).value))
  {
    var g := Day9.FromData(data).value;
    states := [g];
    if !Day9.Wide(g) {
      if IsAllZeroes(g) {
        return Some(0), states;
      }
      return None, states;
    }
    ParsedDigits(data);
    var grid := new Grid(g);
    for step := 0 to fuel
      invariant grid.Valid() && Digits(grid.data)
      invariant |states| == step + 1 && states[0] == g && states[step] == grid.data
      invariant NoneZero(states, step) && Chain(states)
    {
      if IsAllZeroes(grid.data) {
        return Some(step), states;
      }
      ghost var prev := grid.data;
      var n := grid.Step();
      StepDigits(prev, grid.data, n);
      ChainSnoc(states, grid.data);
      NoneZeroSnoc(states, grid.data);
      states := states + [grid.data];
    }
    return None, states;
  }
}
