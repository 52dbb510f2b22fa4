/**
 * Shared building blocks: optional values, error results, sums and powers.
 */
module Base {

  /** Rust's `Option<T>`. */
  datatype Option<+T> = None | Some(value: T)

  /** A computation that either produced a value or hit one of the source's panics. */
  datatype Result<+T> = Ok(value: T) | Err(reason: string)

  /** Sum of a sequence, peeling the last element (matches left-to-right accumulation). */
  function Sum(s: seq<int>): int
  {
    if s == [] then 0 else Sum(s[..|s| - 1]) + s[|s| - 1]
  }

  /** The prefix one longer is the prefix with one more element, and cut back gives the prefix again. */
  lemma PrefixStep<T>(s: seq<T>, i: nat)
    requires i < |s|
    ensures s[..i + 1] == s[..i] + [s[i]] && s[..i + 1][..i] == s[..i]
  {
  }

  lemma {:induction false} SumAppend(a: seq<int>, b: seq<int>)
    ensures Sum(a + b) == Sum(a) + Sum(b)
    decreases |b|
  {
    if b == [] {
      assert a + b == a;
    } else {
      assert (a + b)[..|a + b| - 1] == a + b[..|b| - 1];
      SumAppend(a, b[..|b| - 1]);
    }
  }

  /** Sum of the elements of a sequence that are all non-negative is non-negative. */
  lemma {:induction false} SumNonNegative(s: seq<int>)
    requires forall i :: 0 <= i < |s| ==> s[i] >= 0
    ensures Sum(s) >= 0
    decreases |s|
  {
    if s != [] {
      SumNonNegative(s[..|s| - 1]);
    }
  }

  function Pow2(k: nat): (r: nat)
    ensures r >= 1
  {
    if k == 0 then 1 else 2 * Pow2(k - 1)
  }

  function Pow10(k: nat): (r: nat)
    ensures r >= 1
  {
    if k == 0 then 1 else 10 * Pow10(k - 1)
  }

  function Abs(x: int): (r: nat)
    ensures r == x || r == -x
  {
    if x < 0 then -x else x
  }

  /** a * b; a named product keeps the solver's nonlinear reasoning to the places that unfold it. */
  function Product(a: int, b: int): int
  {
    a * b
  }

  lemma ProductStep(a: int, b: int)
    ensures Product(a + 1, b) == Product(a, b) + b
  {
  }

  function Min(a: int, b: int): (r: int)
    ensures r <= a && r <= b && (r == a || r == b)
  {
    if a <= b then a else b
  }

  /** `*m.get(&k).unwrap_or(&0)`. */
  function Get(m: map<int, int>, k: int): int
  {
    if k in m then m[k] else 0
  }

  /** The smallest element of a non-empty finite set of integers. */
  function MinKey(s: set<int>): (k: int)
    requires s != {}
    ensures k in s && forall j :: j in s ==> k <= j
  {
    MinExists(s);
    var k :| k in s && forall j :: j in s ==> k <= j;
    k
  }

  lemma HasElement(s: set<int>)
    requires s != {}
    ensures exists x: int :: x in s
  {
    if forall x: int :: x !in s {
      assert false;
    }
  }

  lemma {:induction false} MinExists(s: set<int>)
    requires s != {}
    ensures exists k :: k in s && forall j :: j in s ==> k <= j
    decreases |s|
  {
    HasElement(s);
    var x :| x in s;
    var rest := s - {x};
    if rest != {} {
      MinExists(rest);
      var y :| y in rest && forall j :: j in rest ==> y <= j;
      var m := if x < y then x else y;
      forall j | j in s
        ensures m <= j
      {
        if j != x {
          assert j in rest;
        }
      }
      assert m in s;
    } else {
      assert s == {x};
    }
  }

  /** The largest element of a non-empty finite set of integers. */
  function MaxKey(s: set<int>): (k: int)
    requires s != {}
    ensures k in s && forall j :: j in s ==> j <= k
  {
    MaxExists(s);
    var k :| k in s && forall j :: j in s ==> j <= k;
    k
  }

  lemma {:induction false} MaxExists(s: set<int>)
    requires s != {}
    ensures exists k :: k in s && forall j :: j in s ==> j <= k
    decreases |s|
  {
    HasElement(s);
    var x :| x in s;
    var rest := s - {x};
    if rest != {} {
      MaxExists(rest);
      var y :| y in rest && forall j :: j in rest ==> j <= y;
      var m := if x > y then x else y;
      forall j | j in s
        ensures j <= m
      {
        if j != x {
          assert j in rest;
        }
      }
      assert m in s;
    } else {
      assert s == {x};
    }
  }

  /** The sum of f(key, value) over the entries of a map (keys taken in increasing order). */
  function MapSumOf(m: map<int, int>, f: (int, int) -> int): int
    decreases |m.Keys|
  {
    if m.Keys == {} then 0
    else
      var k := MinKey(m.Keys);
      assert (m - {k}).Keys == m.Keys - {k};
      f(k, m[k]) + MapSumOf(m - {k}, f)
  }

  /** The entry of any key can be split off the sum, whatever order the keys are visited in. */
  lemma {:induction false} MapSumOfRemove(m: map<int, int>, f: (int, int) -> int, k: int)
    requires k in m
    ensures MapSumOf(m, f) == f(k, m[k]) + MapSumOf(m - {k}, f)
    decreases |m.Keys|
  {
    var j := MinKey(m.Keys);
    if j != k {
      var mj := m - {j};
      assert mj.Keys == m.Keys - {j};
      MapSumOfRemove(mj, f, k);
      var mk := m - {k};
      assert mk.Keys == m.Keys - {k};
      assert j in mk.Keys && forall i :: i in mk.Keys ==> i in m.Keys;
      var jk := MinKey(mk.Keys);
      assert jk <= j && j <= jk;
      assert mj - {k} == mk - {j};
    }
  }

  /** Replacing (or adding) one entry changes the sum by the difference of that entry. */
  lemma MapSumOfUpdate(m: map<int, int>, f: (int, int) -> int, k: int, v: int)
    ensures MapSumOf(m[k := v], f) == MapSumOf(m, f) - (if k in m then f(k, m[k]) else 0) + f(k, v)
  {
    MapSumOfRemove(m[k := v], f, k);
    assert m[k := v] - {k} == m - {k};
    if k in m {
      MapSumOfRemove(m, f, k);
    } else {
      assert m - {k} == m;
    }
  }

  /** Occurrences of each value: the map every `Entry` counting loop builds. */
  function Tally(values: seq<int>): map<int, int>
  {
    if values == [] then map[]
    else
      var m := Tally(values[..|values| - 1]);
      var v := values[|values| - 1];
      m[v := Get(m, v) + 1]
  }

  /** The tally has exactly the input values as keys, each mapped to its multiplicity. */
  lemma {:induction false} TallyCounts(values: seq<int>)
    ensures forall k :: k in Tally(values) <==> k in values
    ensures forall k :: k in Tally(values) ==> Tally(values)[k] == multiset(values)[k] > 0
    decreases |values|
  {
    if values != [] {
      var init := values[..|values| - 1];
      TallyCounts(init);
      assert values == init + [values[|values| - 1]];
    }
  }

  /** Looking a value up in the tally gives its multiplicity, zero for values never seen. */
  lemma TallyGet(values: seq<int>, k: int)
    ensures Get(Tally(values), k) == multiset(values)[k]
  {
    TallyCounts(values);
  }

  /** The value of a map entry, ignoring its key: summing it gives the total of the counts. */
  function CountOf(key: int, count: int): int
  {
    count
  }

  /** The counts of a tally add up to the number of values counted. */
  lemma {:induction false} TallyTotal(values: seq<int>)
    ensures MapSumOf(Tally(values), CountOf) == |values|
    decreases |values|
  {
    if values != [] {
      var init := values[..|values| - 1];
      TallyTotal(init);
      var v := values[|values| - 1];
      MapSumOfUpdate(Tally(init), CountOf, v, Get(Tally(init), v) + 1);
    }
  }

  /** Sum of g(v) over the values, in order. */
  function SumMapped(values: seq<int>, g: int -> int): int
  {
    if values == [] then 0 else SumMapped(values[..|values| - 1], g) + g(values[|values| - 1])
  }

  /** The entry weight `count * g(value)` that the map sums of the crab puzzle use. */
  function Weighted(g: int -> int): (int, int) -> int
  {
    (v, c) => Product(c, g(v))
  }

  /** Summing count * g(value) over a tally is summing g over the values themselves. */
  lemma {:induction false} TallyWeighted(values: seq<int>, g: int -> int)
    ensures MapSumOf(Tally(values), Weighted(g)) == SumMapped(values, g)
    decreases |values|
  {
    if values != [] {
      var init := values[..|values| - 1];
      TallyWeighted(init, g);
      var m := Tally(init);
      var v := values[|values| - 1];
      var c := Get(m, v);
      var f := Weighted(g);
      MapSumOfUpdate(m, f, v, c + 1);
      assert f(v, c + 1) == Product(c + 1, g(v));
      assert (if v in m then f(v, m[v]) else 0) == Product(c, g(v));
      ProductStep(c, g(v));
    }
  }

  /** A sum of values mapped by g is no larger than the same values mapped by a larger h. */
  lemma {:induction false} SumMappedMonotone(values: seq<int>, g: int -> int, h: int -> int)
    requires forall i :: 0 <= i < |values| ==> g(values[i]) <= h(values[i])
    ensures SumMapped(values, g) <= SumMapped(values, h)
    decreases |values|
  {
    if values != [] {
      SumMappedMonotone(values[..|values| - 1], g, h);
    }
  }

  /** A sum of non-negative terms is non-negative, and zero exactly when every term is. */
  lemma {:induction false} SumMappedZero(values: seq<int>, g: int -> int)
    requires forall i :: 0 <= i < |values| ==> g(values[i]) >= 0
    ensures SumMapped(values, g) >= 0
    ensures SumMapped(values, g) == 0 <==> forall i :: 0 <= i < |values| ==> g(values[i]) == 0
    decreases |values|
  {
    if values != [] {
      var init := values[..|values| - 1];
      SumMappedZero(init, g);
      if SumMapped(values, g) == 0 {
        forall i | 0 <= i < |values|
          ensures g(values[i]) == 0
        {
          if i < |init| {
            assert values[i] == init[i];
          }
        }
      }
      if forall i :: 0 <= i < |values| ==> g(values[i]) == 0 {
        assert forall i :: 0 <= i < |init| ==> g(init[i]) == g(values[i]);
      }
    }
  }

  /** Builds the tally with one map update per value (`entry().or_insert`-style). */
  method TallyValues(values: seq<int>) returns (m: map<int, int>)
    ensures m == Tally(values)
  {
    m := map[];
    for i := 0 to |values|
      invariant m == Tally(values[..i])
    {
      PrefixStep(values, i);
      var v := values[i];
      if v in m {
        m := m[v := m[v] + 1];
      } else {
        m := m[v := 1];
      }
    }
    assert values[..|values|] == values;
  }
}
