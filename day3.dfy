/**
 * Day 3: binary diagnostics. Lines of `0`/`1` are read most significant bit
 * first; part 1 builds numbers from per-column majorities, part 2 filters the
 * list bit by bit.
 */
module Day3 {
  import opened Base

  // ---------------------------------------------------------------------
  // Bits, most significant first

  /** The number whose binary digits, most significant first, are `bs`. */
  function FromBits(bs: seq<bool>): (r: nat)
    ensures r < Pow2(|bs|)
  {
    if bs == [] then 0 else 2 * FromBits(bs[..|bs| - 1]) + (if bs[|bs| - 1] then 1 else 0)
  }

  /** Bit i of n counted from the most significant end of a `width`-bit word. */
  function Bit(n: nat, width: nat, i: nat): nat
    requires i < width
  {
    (n / Pow2(width - 1 - i)) % 2
  }

  lemma MulBound(k: int, d: nat)
    requires d > 0 && k >= 1
    ensures k * d >= d
  {
  }

  /** Quotient and remainder are unique. */
  lemma DivUnique(x: nat, d: nat, q: nat, r: nat)
    requires d > 0 && r < d && x == q * d + r
    ensures x / d == q
  {
    var k := x / d - q;
    assert x == (x / d) * d + x % d;
    assert k * d == r - x % d;
    if k >= 1 {
      MulBound(k, d);
    } else if k <= -1 {
      MulBound(-k, d);
    }
  }

  /** Dividing by 2m is halving and then dividing by m. */
  lemma DivTwice(x: nat, m: nat)
    requires m > 0
    ensures x / (2 * m) == (x / 2) / m
  {
    var q := x / 2;
    var r := x % 2;
    var q1, r1 := q / m, q % m;
    assert q == q1 * m + r1;
    assert x == 2 * q + r;
    assert x == q1 * (2 * m) + (2 * r1 + r);
    DivUnique(x, 2 * m, q1, 2 * r1 + r);
  }

  /** Appending bit b below v shifts every bit of v one place up. */
  lemma BitOfShift(v: nat, b: nat, width: nat, i: nat)
    requires b < 2 && i <= width
    ensures Bit(2 * v + b, width + 1, i) == if i == width then b else Bit(v, width, i)
  {
    var n := 2 * v + b;
    if i < width {
      var e: nat := width - i;
      var m := Pow2(e - 1);
      assert Pow2(e) == 2 * m;
      DivTwice(n, m);
      DivUnique(n, 2, v, b);
    } else {
      assert Pow2(0) == 1;
    }
  }

  /** Bit i of `FromBits(bs)` is bs[i]. */
  lemma {:induction false} FromBitsBit(bs: seq<bool>, i: nat)
    requires i < |bs|
    ensures Bit(FromBits(bs), |bs|, i) == if bs[i] then 1 else 0
    decreases |bs|
  {
    var init := bs[..|bs| - 1];
    var b := if bs[|bs| - 1] then 1 else 0;
    BitOfShift(FromBits(init), b, |init|, i);
    if i < |init| {
      FromBitsBit(init, i);
      assert init[i] == bs[i];
    }
  }

  // ---------------------------------------------------------------------
  // to_i64

  predicate IsBinary(s: string)
  {
    forall k :: 0 <= k < |s| ==> s[k] == '0' || s[k] == '1'
  }

  /** The digits of a binary string as booleans (`1` is true). */
  function BitsOf(s: string): (r: seq<bool>)
    ensures |r| == |s|
    ensures forall k :: 0 <= k < |s| ==> r[k] == (s[k] == '1')
  {
    if s == [] then [] else BitsOf(s[..|s| - 1]) + [s[|s| - 1] == '1']
  }

  /** One more digit read: the prefix stays binary exactly when it is a digit, and its value shifts in. */
  lemma BinaryStep(s: string, i: nat)
    requires i < |s|
    ensures IsBinary(s[..i + 1]) <==> IsBinary(s[..i]) && (s[i] == '0' || s[i] == '1')
    ensures FromBits(BitsOf(s[..i + 1])) == 2 * FromBits(BitsOf(s[..i])) + (if s[i] == '1' then 1 else 0)
  {
    PrefixStep(s, i);
    var bs := BitsOf(s[..i + 1]);
    assert bs[..|bs| - 1] == BitsOf(s[..i]);
  }

  /** The bits of the value of a string are its digits. */
  lemma BitsOfValue(s: string)
    ensures forall i :: 0 <= i < |s| ==> Bit(FromBits(BitsOf(s)), |s|, i) == if s[i] == '1' then 1 else 0
  {
    forall i | 0 <= i < |s|
      ensures Bit(FromBits(BitsOf(s)), |s|, i) == if s[i] == '1' then 1 else 0
    {
      FromBitsBit(BitsOf(s), i);
    }
  }

  /**
   * `to_i64`: shift left and add each digit; any character other than `0` or
   * `1` is the "bad bit" panic (None). 64-bit overflow is not modelled.
   */
  method ToI64(s: string) returns (r: Option<nat>)
    ensures r.Some? <==> IsBinary(s)
    ensures r.Some? ==> r.value == FromBits(BitsOf(s))
    ensures r.Some? ==> r.value < Pow2(|s|)
    ensures r.Some? ==> forall i :: 0 <= i < |s| ==> Bit(r.value, |s|, i) == if s[i] == '1' then 1 else 0
  {
    var result: nat := 0;
    for i := 0 to |s|
      invariant IsBinary(s[..i])
      invariant result == FromBits(BitsOf(s[..i]))
    {
      BinaryStep(s, i);
      result := result * 2;
      match s[i] {
        case '0' =>
        case '1' => result := result + 1;
        case _ =>
          assert !IsBinary(s[..i + 1]);
          NotBinaryPrefix(s, i + 1);
          return None;
      }
    }
    assert s[..|s|] == s;
    BitsOfValue(s);
    return Some(result);
  }

  /** A string with a non-binary prefix is not binary. */
  lemma NotBinaryPrefix(s: string, n: nat)
    requires n <= |s| && !IsBinary(s[..n])
    ensures !IsBinary(s)
  {
    var k :| 0 <= k < n && s[..n][k] != '0' && s[..n][k] != '1';
    assert s[k] == s[..n][k];
  }

  // ---------------------------------------------------------------------
  // extractor

  /** rule applied to every count, in order. */
  function Classify(counts: seq<int>, rule: int -> bool): (r: seq<bool>)
    ensures |r| == |counts|
    ensures forall k :: 0 <= k < |counts| ==> r[k] == rule(counts[k])
  {
    if counts == [] then [] else Classify(counts[..|counts| - 1], rule) + [rule(counts[|counts| - 1])]
  }

  /**
   * `extractor`: the number whose i-th bit from the most significant end is 1
   * exactly when `rule(counts[i])` holds.
   */
  method Extractor(counts: seq<int>, rule: int -> bool) returns (result: nat)
    ensures result == FromBits(Classify(counts, rule))
    ensures result < Pow2(|counts|)
    ensures forall i :: 0 <= i < |counts| ==> Bit(result, |counts|, i) == if rule(counts[i]) then 1 else 0
  {
    result := 0;
    for i := 0 to |counts|
      invariant result == FromBits(Classify(counts[..i], rule))
    {
      PrefixStep(counts, i);
      result := result * 2;
      if rule(counts[i]) {
        result := result + 1;
      }
    }
    assert counts[..|counts|] == counts;
    forall i | 0 <= i < |counts|
      ensures Bit(result, |counts|, i) == if rule(counts[i]) then 1 else 0
    {
      FromBitsBit(Classify(counts, rule), i);
    }
  }

  /** The gamma rule: more ones than zeros. */
  predicate Positive(n: int) { n > 0 }

  /** The epsilon rule: more zeros than ones. */
  predicate Negative(n: int) { n < 0 }

  /**
   * Gamma and epsilon never share a set bit, and when no column is tied they
   * are bitwise complements: their sum is 2^L - 1.
   */
  lemma {:induction false} GammaEpsilonComplement(counts: seq<int>)
    ensures var gamma, epsilon := FromBits(Classify(counts, Positive)), FromBits(Classify(counts, Negative));
      (forall i :: 0 <= i < |counts| ==> Bit(gamma, |counts|, i) + Bit(epsilon, |counts|, i) <= 1)
      && ((forall k :: 0 <= k < |counts| ==> counts[k] != 0) ==> gamma + epsilon == Pow2(|counts|) - 1)
    decreases |counts|
  {
    var gs, es := Classify(counts, Positive), Classify(counts, Negative);
    forall i | 0 <= i < |counts|
      ensures Bit(FromBits(gs), |counts|, i) + Bit(FromBits(es), |counts|, i) <= 1
    {
      FromBitsBit(gs, i);
      FromBitsBit(es, i);
    }
    if counts != [] {
      var init := counts[..|counts| - 1];
      GammaEpsilonComplement(init);
      assert gs[..|gs| - 1] == Classify(init, Positive);
      assert es[..|es| - 1] == Classify(init, Negative);
    }
  }

  // ---------------------------------------------------------------------
  // Column counts

  /** Length of the longest line (0 for no lines). */
  function MaxLength(data: seq<string>): (r: nat)
    ensures forall k :: 0 <= k < |data| ==> |data[k]| <= r
    ensures data != [] ==> exists k :: 0 <= k < |data| && |data[k]| == r
  {
    if data == [] then 0
    else
      var m := MaxLength(data[..|data| - 1]);
      if |data[|data| - 1]| > m then |data[|data| - 1]| else m
  }

  /** +1 for a `1`, -1 for a `0`. */
  function Weight(c: char): int
  {
    if c == '1' then 1 else if c == '0' then -1 else 0
  }

  /**
   * What the first `upto` characters of `line`, right-aligned in a field of
   * width L, add to column j.
   */
  function PartialContribution(line: string, width: nat, j: int, upto: nat): int
    requires upto <= |line|
  {
    var offset := width - |line|;
    if offset <= j < offset + upto then Weight(line[j - offset]) else 0
  }

  /** Column j of the right-aligned lines: ones minus zeros. */
  function ColumnCount(lines: seq<string>, width: nat, j: int): int
  {
    if lines == [] then 0
    else
      var last := lines[|lines| - 1];
      ColumnCount(lines[..|lines| - 1], width, j) + PartialContribution(last, width, j, |last|)
  }

  predicate AllBinary(lines: seq<string>)
  {
    forall k :: 0 <= k < |lines| ==> IsBinary(lines[k])
  }

  /** All column counts of the lines in a field of width L. */
  function Counts(lines: seq<string>, width: nat): (r: seq<int>)
    ensures |r| == width
    ensures forall j :: 0 <= j < width ==> r[j] == ColumnCount(lines, width, j)
  {
    seq(width, j => ColumnCount(lines, width, j))
  }

  /**
   * The counting loop of part 1: every line, right-aligned to the longest,
   * adds +1 or -1 to the column of each of its characters; any other
   * character is the "bad binary character" panic (None).
   */
  method ColumnCounts(data: seq<string>) returns (r: Option<seq<int>>)
    ensures r.Some? <==> AllBinary(data)
    ensures r.Some? ==> r.value == Counts(data, MaxLength(data))
  {
    var width := MaxLength(data);
    var counts := new int[width](_ => 0);
    for i := 0 to |data|
      invariant AllBinary(data[..i])
      invariant forall j :: 0 <= j < width ==> counts[j] == ColumnCount(data[..i], width, j)
    {
      var line := data[i];
      var offset := width - |line|;
      for idx := 0 to |line|
        invariant IsBinary(line[..idx])
        invariant forall j :: 0 <= j < width ==>
          counts[j] == ColumnCount(data[..i], width, j) + PartialContribution(line, width, j, idx)
      {
        assert line[..idx + 1][..idx] == line[..idx];
        match line[idx] {
          case '0' => counts[idx + offset] := counts[idx + offset] - 1;
          case '1' => counts[idx + offset] := counts[idx + offset] + 1;
          case _ =>
            assert !IsBinary(data[..|data|][i]);
            return None;
        }
      }
      assert line[..|line|] == line;
      PrefixStep(data, i);
    }
    assert data[..|data|] == data;
    return Some(counts[..]);
  }

  /** Column j of `line`, right-aligned in a field of width L, holds c. */
  predicate HasAt(line: string, width: nat, j: int, c: char)
  {
    var offset := width - |line|;
    offset <= j < offset + |line| && line[j - offset] == c
  }

  /** Indices of the lines whose column j holds c. */
  ghost function LinesWith(lines: seq<string>, width: nat, j: int, c: char): set<nat>
  {
    set k: nat | k < |lines| && HasAt(lines[k], width, j, c)
  }

  lemma LinesWithSnoc(lines: seq<string>, width: nat, j: int, c: char)
    requires lines != []
    ensures var init, last := lines[..|lines| - 1], |lines| - 1;
      |LinesWith(lines, width, j, c)|
        == |LinesWith(init, width, j, c)| + (if HasAt(lines[last], width, j, c) then 1 else 0)
  {
    var init, last := lines[..|lines| - 1], |lines| - 1;
    var before := LinesWith(init, width, j, c);
    assert last !in before;
    if HasAt(lines[last], width, j, c) {
      assert LinesWith(lines, width, j, c) == before + {last};
    } else {
      assert LinesWith(lines, width, j, c) == before;
    }
  }

  /** For binary lines a column count is the number of ones minus the number of zeros. */
  lemma {:induction false} ColumnCountIsOnesMinusZeros(lines: seq<string>, width: nat, j: int)
    requires AllBinary(lines)
    ensures ColumnCount(lines, width, j) == |LinesWith(lines, width, j, '1')| - |LinesWith(lines, width, j, '0')|
    decreases |lines|
  {
    if lines == [] {
      assert LinesWith(lines, width, j, '1') == {};
      assert LinesWith(lines, width, j, '0') == {};
    } else {
      var init := lines[..|lines| - 1];
      var last := lines[|lines| - 1];
      assert AllBinary(init) by {
        forall k | 0 <= k < |init| ensures IsBinary(init[k]) { assert init[k] == lines[k]; }
      }
      ColumnCountIsOnesMinusZeros(init, width, j);
      LinesWithSnoc(lines, width, j, '1');
      LinesWithSnoc(lines, width, j, '0');
      assert IsBinary(last);
    }
  }

  /** The part-1 rate for a rule: gamma for `Positive`, epsilon for `Negative`. */
  function Rate(data: seq<string>, rule: int -> bool): nat
  {
    FromBits(Classify(Counts(data, MaxLength(data)), rule))
  }

  /**
   * Part 1: gamma times epsilon. Empty input is the source's failed assert
   * and a character other than `0`/`1` its panic; both give None.
   */
  method SolvePart1(data: seq<string>) returns (r: Option<int>)
    ensures r.Some? <==> data != [] && AllBinary(data)
    ensures r.Some? ==> r.value == Product(Rate(data, Positive), Rate(data, Negative))
  {
    if |data| == 0 {
      return None;
    }
    var counts := ColumnCounts(data);
    if counts.None? {
      return None;
    }
    var gamma := Extractor(counts.value, Positive);
    var epsilon := Extractor(counts.value, Negative);
    return Some(Product(gamma, epsilon));
  }

  // ---------------------------------------------------------------------
  // Oxygen and CO2 filters

  /**
   * `val & mask > 0`, for a mask that is a power of two (bit k of val when
   * mask = 2^k) or zero.
   */
  predicate BitSet(val: nat, mask: nat)
  {
    mask > 0 && (val / mask) % 2 == 1
  }

  /** The elements of `list` whose masked bit equals `bit`, in order (one half of `partition`). */
  function Select(list: seq<nat>, mask: nat, bit: bool): (r: seq<nat>)
    ensures |r| <= |list|
    ensures forall x :: x in r ==> x in list && BitSet(x, mask) == bit
  {
    if list == [] then []
    else
      var rest := Select(list[..|list| - 1], mask, bit);
      if BitSet(list[|list| - 1], mask) == bit then rest + [list[|list| - 1]] else rest
  }

  /** `partition` splits the list into its two halves, losing and duplicating nothing. */
  lemma {:induction false} SelectSplits(list: seq<nat>, mask: nat)
    ensures multiset(Select(list, mask, true)) + multiset(Select(list, mask, false)) == multiset(list)
    ensures |Select(list, mask, true)| + |Select(list, mask, false)| == |list|
    decreases |list|
  {
    if list != [] {
      var init, x := list[..|list| - 1], list[|list| - 1];
      SelectSplits(init, mask);
      SelectSnoc(init, x, mask);
      assert list == init + [x];
    }
  }

  /** One more value joins exactly the half its bit selects. */
  lemma SelectSnoc(init: seq<nat>, x: nat, mask: nat)
    ensures Select(init + [x], mask, BitSet(x, mask)) == Select(init, mask, BitSet(x, mask)) + [x]
    ensures Select(init + [x], mask, !BitSet(x, mask)) == Select(init, mask, !BitSet(x, mask))
  {
    assert (init + [x])[..|init|] == init;
  }

  /** With a zero mask no value has the bit set. */
  lemma {:induction false} SelectZeroMask(list: seq<nat>)
    ensures Select(list, 0, true) == [] && Select(list, 0, false) == list
    decreases |list|
  {
    if list != [] {
      SelectZeroMask(list[..|list| - 1]);
      assert list == list[..|list| - 1] + [list[|list| - 1]];
    }
  }

  /** One oxygen round: keep the set group when it is at least as large, else the unset group. */
  function OxygenKeep(list: seq<nat>, mask: nat): seq<nat>
  {
    var ones, zeroes := Select(list, mask, true), Select(list, mask, false);
    if |ones| >= |zeroes| then ones else zeroes
  }

  /** One CO2 round as the source writes it: keep the unset group when the set group is at least as large. */
  function Co2KeepAsWritten(list: seq<nat>, mask: nat): seq<nat>
  {
    var ones, zeroes := Select(list, mask, true), Select(list, mask, false);
    if |ones| >= |zeroes| then zeroes else ones
  }

  /** One CO2 round keeping the less common group, 0 on ties, and never an empty group. */
  function Co2Keep(list: seq<nat>, mask: nat): seq<nat>
  {
    var ones, zeroes := Select(list, mask, true), Select(list, mask, false);
    if zeroes == [] then ones
    else if ones == [] then zeroes
    else if |ones| >= |zeroes| then zeroes else ones
  }

  /**
   * The oxygen `while` loop from `mask` on. None stands for the source's
   * endless loop: once the mask is 0 with two or more values left, every
   * round keeps the whole list (`OxygenStuck`).
   */
  function OxygenRating(list: seq<nat>, mask: nat): Option<seq<nat>>
    decreases mask
  {
    if |list| <= 1 then Some(list)
    else if mask == 0 then None
    else OxygenRating(OxygenKeep(list, mask), mask / 2)
  }

  /** The corrected CO2 loop; None is the endless loop as for oxygen. */
  function Co2Rating(list: seq<nat>, mask: nat): Option<seq<nat>>
    decreases mask
  {
    if |list| <= 1 then Some(list)
    else if mask == 0 then None
    else Co2Rating(Co2Keep(list, mask), mask / 2)
  }

  /** The CO2 loop as the source writes it; it always stops, possibly with no value left. */
  function Co2RatingAsWritten(list: seq<nat>, mask: nat): seq<nat>
    decreases mask, |list|
  {
    if |list| <= 1 then list
    else
      var next := Co2KeepAsWritten(list, mask);
      assert mask == 0 ==> next == [] by {
        if mask == 0 {
          SelectZeroMask(list);
        }
      }
      Co2RatingAsWritten(next, mask / 2)
  }

  /** Once the mask is 0, a round of either corrected filter returns the list unchanged. */
  lemma OxygenStuck(list: seq<nat>)
    requires |list| > 1
    ensures OxygenKeep(list, 0) == list && Co2Keep(list, 0) == list && 0 / 2 == 0
  {
    SelectZeroMask(list);
  }

  /** The as-written CO2 filter can end with nothing: both values share the first bit. */
  lemma Co2AsWrittenEmpties()
    ensures Co2RatingAsWritten([3, 2], 2) == []
  {
    assert Select([3, 2], 2, false) == [] by {
      assert Select([3], 2, false) == [];
    }
    assert Select([3, 2], 2, true) == [3, 2] by {
      assert Select([3], 2, true) == [3];
    }
  }

  // Properties of one round

  /** Each kept group is one half of the partition, so every survivor agrees on the tested bit. */
  lemma KeepIsHalf(list: seq<nat>, mask: nat)
    ensures var ones, zeroes := Select(list, mask, true), Select(list, mask, false);
      OxygenKeep(list, mask) == Select(list, mask, |ones| >= |zeroes|)
      && exists b :: Co2Keep(list, mask) == Select(list, mask, b)
  {
    var ones, zeroes := Select(list, mask, true), Select(list, mask, false);
    if Co2Keep(list, mask) == ones {
      assert Co2Keep(list, mask) == Select(list, mask, true);
    } else {
      assert Co2Keep(list, mask) == Select(list, mask, false);
    }
  }

  /** A round of either corrected filter never empties a non-empty list. */
  lemma KeepNonEmpty(list: seq<nat>, mask: nat)
    requires list != []
    ensures OxygenKeep(list, mask) != [] && Co2Keep(list, mask) != []
  {
    SelectSplits(list, mask);
  }

  /** When every value has the tested bit set, the set half is the whole list and the unset half is empty. */
  lemma {:induction false} SelectUniform(list: seq<nat>, mask: nat)
    requires forall x :: x in list ==> BitSet(x, mask)
    ensures Select(list, mask, true) == list && Select(list, mask, false) == []
    decreases |list|
  {
    if list != [] {
      var init, x := list[..|list| - 1], list[|list| - 1];
      assert list == init + [x];
      assert forall y :: y in init ==> y in list;
      SelectUniform(init, mask);
      assert BitSet(x, mask);
      SelectSnoc(init, x, mask);
    }
  }

  /** A round of the as-written CO2 filter leaves nothing when every value has the tested bit set. */
  lemma Co2AsWrittenRoundEmpties(list: seq<nat>, mask: nat)
    requires forall x :: x in list ==> BitSet(x, mask)
    ensures Co2KeepAsWritten(list, mask) == []
  {
    SelectUniform(list, mask);
  }

  /** The sub-multiset relation that survival in a filter preserves. */
  lemma HalfIsSubMultiset(list: seq<nat>, mask: nat, b: bool)
    ensures multiset(Select(list, mask, b)) <= multiset(list)
  {
    SelectSplits(list, mask);
  }

  /**
   * A non-empty list filtered to completion ends with exactly one of its
   * values (oxygen).
   */
  lemma {:induction false} OxygenRatingSingle(list: seq<nat>, mask: nat)
    requires list != [] && OxygenRating(list, mask).Some?
    ensures |OxygenRating(list, mask).value| == 1
    ensures multiset(OxygenRating(list, mask).value) <= multiset(list)
    decreases mask
  {
    if |list| > 1 {
      var keep := OxygenKeep(list, mask);
      KeepNonEmpty(list, mask);
      KeepIsHalf(list, mask);
      HalfIsSubMultiset(list, mask, |Select(list, mask, true)| >= |Select(list, mask, false)|);
      OxygenRatingSingle(keep, mask / 2);
    }
  }

  /** The same for the corrected CO2 filter. */
  lemma {:induction false} Co2RatingSingle(list: seq<nat>, mask: nat)
    requires list != [] && Co2Rating(list, mask).Some?
    ensures |Co2Rating(list, mask).value| == 1
    ensures multiset(Co2Rating(list, mask).value) <= multiset(list)
    decreases mask
  {
    if |list| > 1 {
      var keep := Co2Keep(list, mask);
      KeepNonEmpty(list, mask);
      KeepIsHalf(list, mask);
      var b :| keep == Select(list, mask, b);
      HalfIsSubMultiset(list, mask, b);
      Co2RatingSingle(keep, mask / 2);
    }
  }

  // Termination for distinct values

  predicate NoDuplicates(list: seq<nat>)
  {
    forall x | x in multiset(list) :: multiset(list)[x] == 1
  }

  /** All values agree above the bits below d: they have the same quotient by d. */
  predicate Agree(list: seq<nat>, d: nat)
    requires d > 0
  {
    forall x, y | x in list && y in list :: x / d == y / d
  }

  lemma DivTwiceRight(x: nat, m: nat)
    requires m > 0
    ensures x / (2 * m) == (x / m) / 2
  {
    var q := x / m;
    var r := x % m;
    assert x == q * m + r;
    assert x == (q / 2) * (2 * m) + ((q % 2) * m + r);
    DivUnique(x, 2 * m, q / 2, (q % 2) * m + r);
  }

  /** Values with the same quotient by 2m and the same parity of quotient by m have the same quotient by m. */
  lemma SameQuotient(x: nat, y: nat, m: nat)
    requires m > 0 && x / (2 * m) == y / (2 * m) && (x / m) % 2 == (y / m) % 2
    ensures x / m == y / m
  {
    DivTwiceRight(x, m);
    DivTwiceRight(y, m);
    var qx, qy := x / m, y / m;
    assert qx == 2 * (qx / 2) + qx % 2;
    assert qy == 2 * (qy / 2) + qy % 2;
  }

  /**
   * Filtering on bit k of values that agree above bit k leaves values that
   * agree from bit k up, still without duplicates.
   */
  lemma RoundRefines(list: seq<nat>, k: nat, b: bool)
    requires NoDuplicates(list) && Agree(list, Pow2(k + 1))
    ensures NoDuplicates(Select(list, Pow2(k), b)) && Agree(Select(list, Pow2(k), b), Pow2(k))
  {
    var m := Pow2(k);
    assert Pow2(k + 1) == 2 * m;
    HalfAgrees(list, m, b);
    HalfIsSubMultiset(list, m, b);
    SubMultisetNoDuplicates(Select(list, m, b), list);
  }

  lemma HalfAgrees(list: seq<nat>, m: nat, b: bool)
    requires m > 0 && Agree(list, 2 * m)
    ensures Agree(Select(list, m, b), m)
  {
    var keep := Select(list, m, b);
    forall x, y | x in keep && y in keep
      ensures x / m == y / m
    {
      assert x / (2 * m) == y / (2 * m);
      assert BitSet(x, m) == BitSet(y, m);
      SameQuotient(x, y, m);
    }
  }

  lemma SubMultisetNoDuplicates(sub: seq<nat>, list: seq<nat>)
    requires multiset(sub) <= multiset(list) && NoDuplicates(list)
    ensures NoDuplicates(sub)
  {
    forall x | x in multiset(sub) ensures multiset(sub)[x] == 1 {
      assert x in multiset(list);
    }
  }

  /** A list whose values all equal v holds v as many times as its length. */
  lemma {:induction false} AllEqualCount(list: seq<nat>, v: nat)
    requires forall x :: x in list ==> x == v
    ensures multiset(list)[v] == |list|
    decreases |list|
  {
    if list != [] {
      var init := list[..|list| - 1];
      assert forall x :: x in init ==> x in list;
      AllEqualCount(init, v);
      assert list == init + [list[|list| - 1]];
      assert list[|list| - 1] in list;
      assert multiset(list) == multiset(init) + multiset{list[|list| - 1]};
    }
  }

  /** Distinct values that agree on every bit are at most one. */
  lemma AgreeOnAllBits(list: seq<nat>)
    requires NoDuplicates(list) && Agree(list, 1)
    ensures |list| <= 1
  {
    if list != [] {
      var v := list[0];
      assert v in list;
      assert forall x :: x in list ==> x == v by {
        forall x | x in list ensures x == v {
          assert x / 1 == v / 1;
        }
      }
      AllEqualCount(list, v);
      assert v in multiset(list);
    }
  }

  /**
   * Oxygen filtering of distinct values that agree above bit k stops, once
   * started with mask 2^k.
   */
  lemma {:induction false} OxygenTerminates(list: seq<nat>, k: nat)
    requires NoDuplicates(list) && Agree(list, Pow2(k + 1))
    ensures OxygenRating(list, Pow2(k)).Some?
    decreases k
  {
    if |list| > 1 {
      KeepIsHalf(list, Pow2(k));
      var b := |Select(list, Pow2(k), true)| >= |Select(list, Pow2(k), false)|;
      RoundRefines(list, k, b);
      var keep := OxygenKeep(list, Pow2(k));
      if k == 0 {
        AgreeOnAllBits(keep);
      } else {
        assert Pow2(k) / 2 == Pow2(k - 1);
        OxygenTerminates(keep, k - 1);
      }
    }
  }

  /** The same for the corrected CO2 filter. */
  lemma {:induction false} Co2Terminates(list: seq<nat>, k: nat)
    requires NoDuplicates(list) && Agree(list, Pow2(k + 1))
    ensures Co2Rating(list, Pow2(k)).Some?
    decreases k
  {
    if |list| > 1 {
      KeepIsHalf(list, Pow2(k));
      var keep := Co2Keep(list, Pow2(k));
      var b :| keep == Select(list, Pow2(k), b);
      RoundRefines(list, k, b);
      if k == 0 {
        AgreeOnAllBits(keep);
      } else {
        assert Pow2(k) / 2 == Pow2(k - 1);
        Co2Terminates(keep, k - 1);
      }
    }
  }

  // The loops

  /** The oxygen `while` loop; None where it would run forever. */
  method FilterOxygen(numbers: seq<nat>, mask: nat) returns (r: Option<seq<nat>>)
    ensures r == OxygenRating(numbers, mask)
  {
    var oxygen := numbers;
    var m := mask;
    while |oxygen| > 1
      invariant OxygenRating(oxygen, m) == OxygenRating(numbers, mask)
      decreases m
    {
      if m == 0 {
        OxygenStuck(oxygen);
        return None;
      }
      var ones, zeroes := Select(oxygen, m, true), Select(oxygen, m, false);
      if |ones| >= |zeroes| {
        oxygen := ones;
      } else {
        oxygen := zeroes;
      }
      m := m / 2;
    }
    return Some(oxygen);
  }

  /** The corrected CO2 `while` loop; None where it would run forever. */
  method FilterCo2(numbers: seq<nat>, mask: nat) returns (r: Option<seq<nat>>)
    ensures r == Co2Rating(numbers, mask)
  {
    var co2 := numbers;
    var m := mask;
    while |co2| > 1
      invariant Co2Rating(co2, m) == Co2Rating(numbers, mask)
      decreases m
    {
      if m == 0 {
        OxygenStuck(co2);
        return None;
      }
      var ones, zeroes := Select(co2, m, true), Select(co2, m, false);
      if zeroes == [] {
        co2 := ones;
      } else if ones == [] {
        co2 := zeroes;
      } else if |ones| >= |zeroes| {
        co2 := zeroes;
      } else {
        co2 := ones;
      }
      m := m / 2;
    }
    return Some(co2);
  }

  /** The values of the lines, when every line is binary. */
  function ParseNumbers(data: seq<string>): (r: Option<seq<nat>>)
    ensures r.Some? <==> AllBinary(data)
    ensures r.Some? ==> |r.value| == |data| && forall k :: 0 <= k < |data| ==> r.value[k] == FromBits(BitsOf(data[k]))
  {
    if data == [] then Some([])
    else if !IsBinary(data[|data| - 1]) then None
    else
      match ParseNumbers(data[..|data| - 1])
      case None => None
      case Some(ns) => Some(ns + [FromBits(BitsOf(data[|data| - 1]))])
  }

  /** Part 2 on values: the oxygen and CO2 ratings, None where the source panics or loops forever. */
  function Ratings(data: seq<string>): Option<(nat, nat)>
  {
    if data == [] || !AllBinary(data) || MaxLength(data) == 0 then None
    else
      var numbers := ParseNumbers(data).value;
      var mask := Pow2(MaxLength(data) - 1);
      var oxygen, co2 := OxygenRating(numbers, mask), Co2Rating(numbers, mask);
      if oxygen.Some? && co2.Some? && |oxygen.value| == 1 && |co2.value| == 1
      then Some((oxygen.value[0], co2.value[0]))
      else None
  }

  /**
   * With distinct line values, part 2 has an answer, and both ratings are
   * values of input lines.
   */
  lemma RatingsDefined(data: seq<string>)
    requires data != [] && AllBinary(data) && MaxLength(data) > 0
    requires NoDuplicates(ParseNumbers(data).value)
    ensures Ratings(data).Some?
    ensures Ratings(data).value.0 in ParseNumbers(data).value
    ensures Ratings(data).value.1 in ParseNumbers(data).value
  {
    var numbers := ParseNumbers(data).value;
    var width := MaxLength(data);
    var k: nat := width - 1;
    assert Agree(numbers, Pow2(k + 1)) by {
      forall x | x in numbers ensures x / Pow2(width) == 0 {
        var i :| 0 <= i < |numbers| && numbers[i] == x;
        assert x < Pow2(|data[i]|);
        Pow2Monotone(|data[i]|, width);
        DivUnique(x, Pow2(width), 0, x);
      }
    }
    OxygenTerminates(numbers, k);
    Co2Terminates(numbers, k);
    OxygenRatingSingle(numbers, Pow2(k));
    Co2RatingSingle(numbers, Pow2(k));
    var o := OxygenRating(numbers, Pow2(k)).value;
    var c := Co2Rating(numbers, Pow2(k)).value;
    assert o[0] in multiset(numbers) && c[0] in multiset(numbers);
  }

  lemma {:induction false} Pow2Monotone(a: nat, b: nat)
    requires a <= b
    ensures Pow2(a) <= Pow2(b)
    decreases b
  {
    if a < b {
      Pow2Monotone(a, b - 1);
    }
  }

  /** `Ratings` once the lines are known to parse. */
  lemma RatingsOfNumbers(data: seq<string>, numbers: seq<nat>)
    requires data != [] && ParseNumbers(data) == Some(numbers) && MaxLength(data) > 0
    ensures var mask := Pow2(MaxLength(data) - 1);
      var oxygen, co2 := OxygenRating(numbers, mask), Co2Rating(numbers, mask);
      Ratings(data) == if oxygen.Some? && co2.Some? && |oxygen.value| == 1 && |co2.value| == 1
        then Some((oxygen.value[0], co2.value[0])) else None
  {
  }

  /** `data.iter().map(to_i64).collect()`: None at the first line that is not binary. */
  method ParseLines(data: seq<string>) returns (r: Option<seq<nat>>)
    ensures r == ParseNumbers(data)
  {
    var numbers: seq<nat> := [];
    for i := 0 to |data|
      invariant ParseNumbers(data[..i]) == Some(numbers)
    {
      PrefixStep(data, i);
      var n := ToI64(data[i]);
      if n.None? {
        assert !AllBinary(data);
        return None;
      }
      numbers := numbers + [n.value];
    }
    assert data[..|data|] == data;
    return Some(numbers);
  }

  /** Part 2: oxygen rating times CO2 rating, with the corrected CO2 filter. */
  method SolvePart2(data: seq<string>) returns (r: Option<int>)
    ensures r.Some? <==> Ratings(data).Some?
    ensures r.Some? ==> r.value == Product(Ratings(data).value.0, Ratings(data).value.1)
  {
    if |data| == 0 {
      return None;
    }
    var width := MaxLength(data);
    var parsed := ParseLines(data);
    if parsed.None? || width == 0 {
      return None;
    }
    var numbers := parsed.value;
    var mask := Pow2(width - 1);
    var oxygen := FilterOxygen(numbers, mask);
    var co2 := FilterCo2(numbers, mask);
    RatingsOfNumbers(data, numbers);
    if oxygen.None? || co2.None? || |oxygen.value| != 1 || |co2.value| != 1 {
      return None;
    }
    return Some(Product(oxygen.value[0], co2.value[0]));
  }
}
