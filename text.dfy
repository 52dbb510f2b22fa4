/**
 * The few pieces of Rust's string library the puzzles use: `str::split` with a
 * string separator, `str::trim`, splitting into non-empty words, and
 * `str::parse::<i64>` (without the 64-bit overflow check).
 */
module Text {
  import opened Base

  /** Does `sep` occur in `s` starting at index `i`? */
  predicate OccursAt(s: string, sep: string, i: nat)
  {
    i + |sep| <= |s| && s[i..i + |sep|] == sep
  }

  predicate Contains(s: string, sep: string)
  {
    exists i: nat | i <= |s| :: OccursAt(s, sep, i)
  }

  /** Index of the leftmost occurrence of `sep` at or after `from`. */
  function FindFrom(s: string, sep: string, from: nat): (r: Option<nat>)
    requires |sep| > 0
    ensures r.Some? ==> from <= r.value && OccursAt(s, sep, r.value)
    ensures r.Some? ==> forall j: nat :: from <= j < r.value ==> !OccursAt(s, sep, j)
    ensures r.None? ==> forall j: nat :: from <= j ==> !OccursAt(s, sep, j)
    decreases |s| - from
  {
    if from + |sep| > |s| then None
    else if s[from..from + |sep|] == sep then Some(from)
    else FindFrom(s, sep, from + 1)
  }

  /** `s.split(sep)`: the pieces between the leftmost non-overlapping occurrences of `sep`. */
  function Split(s: string, sep: string): (r: seq<string>)
    requires |sep| > 0
    ensures |r| >= 1
    decreases |s|
  {
    match FindFrom(s, sep, 0)
    case None => [s]
    case Some(i) => [s[..i]] + Split(s[i + |sep|..], sep)
  }

  /** `pieces.join(sep)`. */
  function Join(pieces: seq<string>, sep: string): string
    requires |pieces| >= 1
  {
    if |pieces| == 1 then pieces[0] else pieces[0] + sep + Join(pieces[1..], sep)
  }

  /** One step of `Split`: the first piece ends at the leftmost separator. */
  lemma SplitStep(s: string, sep: string, i: nat)
    requires |sep| > 0
    requires FindFrom(s, sep, 0) == Some(i)
    ensures s == s[..i] + sep + s[i + |sep|..]
    ensures Split(s, sep) == [s[..i]] + Split(s[i + |sep|..], sep)
  {
    AroundOccurrence(s, sep, i);
  }

  /** Text with `sep` at `i` is what comes before it, `sep`, and what comes after it. */
  lemma AroundOccurrence(s: string, sep: string, i: nat)
    requires OccursAt(s, sep, i)
    ensures s == s[..i] + sep + s[i + |sep|..]
  {
    assert s == s[..i] + s[i..i + |sep|] + s[i + |sep|..];
  }

  /** Splitting and joining again gives back the original text. */
  lemma {:induction false} JoinSplit(s: string, sep: string)
    requires |sep| > 0
    ensures Join(Split(s, sep), sep) == s
    decreases |s|
  {
    var f := FindFrom(s, sep, 0);
    if f.Some? {
      var i := f.value;
      var rest := s[i + |sep|..];
      SplitStep(s, sep, i);
      JoinSplit(rest, sep);
    }
  }

  /** No piece of a split contains the separator. */
  lemma {:induction false} SplitPiecesAvoidSeparator(s: string, sep: string)
    requires |sep| > 0
    ensures forall k :: 0 <= k < |Split(s, sep)| ==> !Contains(Split(s, sep)[k], sep)
    decreases |s|
  {
    var f := FindFrom(s, sep, 0);
    if f.None? {
      assert Split(s, sep) == [s];
    } else {
      var i := f.value;
      var rest := s[i + |sep|..];
      SplitStep(s, sep, i);
      SplitPiecesAvoidSeparator(rest, sep);
      PrefixAvoidsSeparator(s, sep, i);
    }
  }

  lemma PrefixAvoidsSeparator(s: string, sep: string, i: nat)
    requires |sep| > 0 && i <= |s|
    requires forall j: nat :: j < i ==> !OccursAt(s, sep, j)
    ensures !Contains(s[..i], sep)
  {
    var head := s[..i];
    forall j: nat | j <= |head| && OccursAt(head, sep, j)
      ensures false
    {
      assert head[j..j + |sep|] == s[j..j + |sep|];
      assert OccursAt(s, sep, j);
    }
  }

  /** `s.split(sep)` has exactly two pieces when `sep` occurs once, at `i`. */
  lemma SplitInTwo(s: string, sep: string, i: nat)
    requires |sep| > 0
    requires OccursAt(s, sep, i)
    requires forall j: nat :: j != i ==> !OccursAt(s, sep, j)
    ensures Split(s, sep) == [s[..i], s[i + |sep|..]]
  {
    var rest := s[i + |sep|..];
    assert FindFrom(s, sep, 0) == Some(i);
    SplitStep(s, sep, i);
    NoneAfter(s, sep, i + |sep|);
    assert Split(rest, sep) == [rest];
  }

  /** With no occurrence at or after `start`, none is found in the text from `start` on. */
  lemma NoneAfter(s: string, sep: string, start: nat)
    requires |sep| > 0 && start <= |s|
    requires forall j: nat :: start <= j ==> !OccursAt(s, sep, j)
    ensures FindFrom(s[start..], sep, 0).None?
  {
    var rest := s[start..];
    forall j: nat
      ensures !OccursAt(rest, sep, j)
    {
      assert !OccursAt(s, sep, start + j);
      if j + |sep| <= |rest| {
        assert rest[j..j + |sep|] == s[start + j..start + j + |sep|];
      }
    }
  }

  /** `s.split(' ').filter(|w| !w.is_empty())`. */
  function Words(s: string): (r: seq<string>)
    ensures forall k :: 0 <= k < |r| ==> r[k] != [] && ' ' !in r[k]
  {
    SplitPiecesAvoidSeparator(s, " ");
    var pieces := Split(s, " ");
    NonEmpty(pieces, " ")
  }

  function NonEmpty(ps: seq<string>, sep: string): (r: seq<string>)
    requires forall k :: 0 <= k < |ps| ==> !Contains(ps[k], sep)
    requires |sep| == 1
    ensures forall k :: 0 <= k < |r| ==> r[k] != [] && sep[0] !in r[k]
  {
    if ps == [] then []
    else
      var tail := NonEmpty(ps[1..], sep);
      if ps[0] == [] then tail
      else
        assert sep[0] !in ps[0] by {
          if sep[0] in ps[0] {
            var j :| 0 <= j < |ps[0]| && ps[0][j] == sep[0];
            assert ps[0][j..j + 1] == [sep[0]] == sep;
            assert OccursAt(ps[0], sep, j);
            assert Contains(ps[0], sep);
          }
        }
        [ps[0]] + tail
  }

  /**
   * The characters `str::trim` removes: those with the Unicode White_Space
   * property (U+0009 to U+000D, the space, U+0085, U+00A0, U+1680, U+2000 to
   * U+200A, U+2028, U+2029, U+202F, U+205F and U+3000).
   */
  predicate IsSpace(c: char)
  {
    || c == ' ' || '\t' <= c <= '\r'
    || c == '\U{0085}' || c == '\U{00A0}' || c == '\U{1680}'
    || '\U{2000}' <= c <= '\U{200A}'
    || c == '\U{2028}' || c == '\U{2029}' || c == '\U{202F}' || c == '\U{205F}' || c == '\U{3000}'
  }

  /** Number of leading whitespace characters. */
  function LeadingSpaces(s: string): (n: nat)
    ensures n <= |s|
    ensures forall k :: 0 <= k < n ==> IsSpace(s[k])
    ensures n < |s| ==> !IsSpace(s[n])
  {
    if s != [] && IsSpace(s[0]) then 1 + LeadingSpaces(s[1..]) else 0
  }

  /** Number of trailing whitespace characters. */
  function TrailingSpaces(s: string): (n: nat)
    ensures n <= |s|
    ensures forall k :: |s| - n <= k < |s| ==> IsSpace(s[k])
    ensures n < |s| ==> !IsSpace(s[|s| - 1 - n])
  {
    if s != [] && IsSpace(s[|s| - 1]) then 1 + TrailingSpaces(s[..|s| - 1]) else 0
  }

  /**
   * `s.trim()`: removes leading and trailing whitespace. The result is the
   * slice of s that starts after its leading whitespace and has only
   * whitespace after it, and it neither starts nor ends with whitespace.
   */
  function Trim(s: string): (r: string)
    ensures r == [] || (!IsSpace(r[0]) && !IsSpace(r[|r| - 1]))
    ensures LeadingSpaces(s) + |r| <= |s| && r == s[LeadingSpaces(s)..LeadingSpaces(s) + |r|]
    ensures forall k :: LeadingSpaces(s) + |r| <= k < |s| ==> IsSpace(s[k])
  {
    var i := LeadingSpaces(s);
    var j := |s| - TrailingSpaces(s[i..]);
    TrailingSpacesOf(s, i);
    s[i..j]
  }

  /** The trailing whitespace of a suffix of s is trailing whitespace of s. */
  lemma TrailingSpacesOf(s: string, i: nat)
    requires i <= |s|
    ensures forall k :: |s| - TrailingSpaces(s[i..]) <= k < |s| ==> IsSpace(s[k])
    ensures TrailingSpaces(s[i..]) < |s| - i ==> !IsSpace(s[|s| - 1 - TrailingSpaces(s[i..])])
  {
    var t := s[i..];
    var n := TrailingSpaces(t);
    forall k | |s| - n <= k < |s|
      ensures IsSpace(s[k])
    {
      assert s[k] == t[k - i];
    }
    if n < |t| {
      assert s[|s| - 1 - n] == t[|t| - 1 - n];
    }
  }

  predicate IsDigit(c: char)
  {
    '0' <= c <= '9'
  }

  predicate AllDigits(ds: string)
  {
    forall k :: 0 <= k < |ds| ==> IsDigit(ds[k])
  }

  function DigitValue(c: char): (d: nat)
    requires IsDigit(c)
    ensures d <= 9
  {
    c as int - '0' as int
  }

  /** Decimal value of a string of digits, most significant first. */
  function DigitsValue(ds: string): (r: nat)
    requires AllDigits(ds)
    ensures r < Pow10(|ds|)
  {
    if ds == [] then 0
    else
      var init := ds[..|ds| - 1];
      assert AllDigits(init) by {
        forall k | 0 <= k < |init| ensures IsDigit(init[k]) { assert init[k] == ds[k]; }
      }
      DigitsValue(init) * 10 + DigitValue(ds[|ds| - 1])
  }

  /** The text after an optional leading sign. */
  function Unsigned(s: string): string
  {
    if s != [] && (s[0] == '+' || s[0] == '-') then s[1..] else s
  }

  /** The strings `str::parse::<i64>` accepts: an optional sign, then one or more digits. */
  predicate IsIntLiteral(s: string)
  {
    Unsigned(s) != [] && AllDigits(Unsigned(s))
  }

  /** `str::parse::<i64>`, with integers unbounded (no overflow error). */
  function ParseInt(s: string): (r: Option<int>)
    ensures r.Some? <==> IsIntLiteral(s)
    ensures r.Some? && s[0] == '-' ==> r.value <= 0
    ensures r.Some? && s[0] != '-' ==> r.value >= 0
  {
    if IsIntLiteral(s) then
      var v: int := DigitsValue(Unsigned(s));
      Some(if s[0] == '-' then -v else v)
    else None
  }

  /** The number of bytes UTF-8 takes for c. */
  function Utf8Width(c: char): (n: nat)
    ensures 1 <= n <= 4
    ensures n == 1 <==> IsAscii(c)
  {
    if c < '\U{0080}' then 1 else if c < '\U{0800}' then 2 else if c < '\U{10000}' then 3 else 4
  }

  predicate IsAscii(c: char)
  {
    c < '\U{0080}'
  }

  /**
   * `str::len`: the length of the text in UTF-8 bytes. It is at least the
   * number of characters, and equal to it exactly when every character is ASCII.
   */
  function Utf8Len(s: string): (n: nat)
    ensures |s| <= n <= 4 * |s|
    ensures n == |s| <==> forall k :: 0 <= k < |s| ==> IsAscii(s[k])
  {
    if s == [] then 0
    else
      var rest := Utf8Len(s[1..]);
      assert forall k :: 0 < k < |s| ==> s[k] == s[1..][k - 1];
      Utf8Width(s[0]) + rest
  }

  /** A single non-ASCII letter takes two bytes: `"é".len() == 2`. */
  lemma Utf8LenAcute()
    ensures Utf8Len("\U{00E9}") == 2
  {
    assert "\U{00E9}"[1..] == [];
  }

  /** A single digit parses as its value. */
  lemma ParseDigit(c: char)
    requires IsDigit(c)
    ensures ParseInt([c]) == Some(DigitValue(c))
  {
    assert Unsigned([c]) == [c];
    assert [c][..0] == [];
  }

  /** A digit after one whitespace character parses once trimmed. */
  lemma TrimmedDigit(c: char, d: char)
    requires IsSpace(c) && IsDigit(d)
    ensures ParseInt(Trim([c, d])) == Some(DigitValue(d))
  {
    assert [c, d][1..] == [d];
    assert LeadingSpaces([c, d]) == 1;
    ParseDigit(d);
  }

  /** Parses every piece, failing if any piece is not an integer literal. */
  function ParseAll(pieces: seq<string>): (r: Option<seq<int>>)
    ensures r.Some? <==> forall k :: 0 <= k < |pieces| ==> ParseInt(pieces[k]).Some?
    ensures r.Some? ==> |r.value| == |pieces|
    ensures r.Some? ==> forall k :: 0 <= k < |pieces| ==> r.value[k] == ParseInt(pieces[k]).value
  {
    if pieces == [] then Some([])
    else
      match ParseInt(pieces[0])
      case None => None
      case Some(v) =>
        match ParseAll(pieces[1..])
        case None => None
        case Some(vs) => Some([v] + vs)
  }
}
