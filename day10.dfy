/**
 * Day 10: lines of brackets. A line is corrupted when a closer does not match
 * the innermost open bracket; part 1 scores the first bad closer of each line.
 * An uncorrupted line that leaves brackets open is incomplete; part 2 scores the
 * unclosed openers, innermost first, in base 5 and takes the median score.
 */
module Day10 {
  import opened Base

  predicate IsOpener(c: char)
  {
    c == '(' || c == '[' || c == '{' || c == '<'
  }

  predicate IsCloser(c: char)
  {
    c == ')' || c == ']' || c == '}' || c == '>'
  }

  predicate AllOpeners(s: string)
  {
    forall i :: 0 <= i < |s| ==> IsOpener(s[i])
  }

  /** `pairs`: the opener a closer matches. */
  function Partner(c: char): (o: char)
    requires IsCloser(c)
    ensures IsOpener(o)
  {
    match c
    case ')' => '('
    case ']' => '['
    case '}' => '{'
    case _ => '<'
  }

  /** The closer that matches an opener. */
  function Closer(o: char): (c: char)
    requires IsOpener(o)
    ensures IsCloser(c) && Partner(c) == o
  {
    match o
    case '(' => ')'
    case '[' => ']'
    case '{' => '}'
    case _ => '>'
  }

  /** `value_of`: the part 1 points of the first bad closer, 0 when there is none. */
  function ValueOf(c: Option<char>): (v: int)
    ensures v >= 0
    ensures v > 0 <==> c.Some? && IsCloser(c.value)
  {
    match c
    case Some(')') => 3
    case Some(']') => 57
    case Some('}') => 1197
    case Some('>') => 25137
    case _ => 0
  }

  // ---------------------------------------------------------------------
  // The stack scan shared by first_unmatched and all_unmatched
  // ---------------------------------------------------------------------

  /**
   * Where the scan of a prefix stands: still going with a stack of open
   * brackets (innermost last), stopped at a corrupting closer, or stopped at
   * a character that is not a bracket (the panic).
   */
  datatype Scan = Going(stack: seq<char>) | Corrupted(closer: char) | Unsupported(ch: char)

  /** Only openers are ever pushed, and only a closer can corrupt. */
  predicate WellFormed(st: Scan)
  {
    (st.Going? ==> AllOpeners(st.stack)) && (st.Corrupted? ==> IsCloser(st.closer))
  }

  /** One character of the loop: push an opener, pop a matching closer, stop otherwise. */
  function Feed(st: Scan, c: char): (r: Scan)
    ensures WellFormed(st) ==> WellFormed(r)
  {
    if !st.Going? then st
    else if IsOpener(c) then Going(st.stack + [c])
    else if IsCloser(c) then
      if st.stack == [] || st.stack[|st.stack| - 1] != Partner(c) then Corrupted(c)
      else Going(st.stack[..|st.stack| - 1])
    else Unsupported(c)
  }

  /** The scan after feeding every character of t, left to right. */
  function FeedAll(st: Scan, t: string): (r: Scan)
    ensures WellFormed(st) ==> WellFormed(r)
  {
    if t == [] then st else Feed(FeedAll(st, t[..|t| - 1]), t[|t| - 1])
  }

  /** The scan of a whole line, from an empty stack. */
  function Run(s: string): (r: Scan)
    ensures WellFormed(r)
  {
    FeedAll(Going([]), s)
  }

  /** Feeding a concatenation is feeding one part after the other. */
  lemma {:induction false} FeedAllAppend(st: Scan, a: string, b: string)
    ensures FeedAll(st, a + b) == FeedAll(FeedAll(st, a), b)
    decreases |b|
  {
    if b == [] {
      assert a + b == a;
    } else {
      assert (a + b)[..|a + b| - 1] == a + b[..|b| - 1];
      FeedAllAppend(st, a, b[..|b| - 1]);
    }
  }

  /** A stopped scan stays stopped, whatever follows. */
  lemma {:induction false} StoppedSticks(st: Scan, t: string)
    requires !st.Going?
    ensures FeedAll(st, t) == st
    decreases |t|
  {
    if t != [] {
      StoppedSticks(st, t[..|t| - 1]);
    }
  }

  /** Once a prefix is corrupted, the whole line is, at the same closer. */
  lemma PrefixStops(s: string, i: nat)
    requires i <= |s| && !Run(s[..i]).Going?
    ensures Run(s) == Run(s[..i])
  {
    assert s == s[..i] + s[i..];
    FeedAllAppend(Going([]), s[..i], s[i..]);
    StoppedSticks(Run(s[..i]), s[i..]);
  }

  lemma RunStep(s: string, i: nat)
    requires i < |s|
    ensures Run(s[..i + 1]) == Feed(Run(s[..i]), s[i])
  {
    PrefixStep(s, i);
  }

  /** `first_unmatched`: the first corrupting closer, None when there is none, Err for the panic. */
  function FirstUnmatched(s: string): (r: Result<Option<char>>)
    ensures r.Ok? && r.value.Some? ==> IsCloser(r.value.value)
  {
    match Run(s)
    case Going(_) => Ok(None)
    case Corrupted(c) => Ok(Some(c))
    case Unsupported(_) => Err("unsupported char")
  }

  /**
   * The closer `first_unmatched` reports is the first one that breaks the
   * scan: up to it the line scans cleanly, and it corrupts the stack found there.
   */
  lemma {:induction false} FirstIsEarliest(s: string)
    requires FirstUnmatched(s).Ok? && FirstUnmatched(s).value.Some?
    ensures exists i ::
      0 <= i < |s| && s[i] == FirstUnmatched(s).value.value && Run(s[..i]).Going? && Run(s[..i + 1]) == Run(s)
    decreases |s|
  {
    var init := s[..|s| - 1];
    var c := FirstUnmatched(s).value.value;
    assert s != [];
    if Run(init).Going? {
      assert s[..|s| - 1 + 1] == s;
      assert Run(s) == Feed(Run(init), s[|s| - 1]);
    } else {
      assert Run(s) == Run(init);
      FirstIsEarliest(init);
      var i :| 0 <= i < |init| && init[i] == c && Run(init[..i]).Going? && Run(init[..i + 1]) == Run(init);
      assert init[..i] == s[..i] && init[..i + 1] == s[..i + 1];
    }
  }

  /** The stack reversed: the unclosed openers, innermost first. */
  function Reverse(s: string): (r: string)
    ensures |r| == |s| && forall i :: 0 <= i < |s| ==> r[i] == s[|s| - 1 - i]
  {
    if s == [] then [] else [s[|s| - 1]] + Reverse(s[..|s| - 1])
  }

  /**
   * `all_unmatched`: the unclosed openers innermost first for an incomplete
   * line; None for a corrupted or a balanced line; Err for the panic.
   */
  function AllUnmatched(s: string): (r: Result<Option<string>>)
    ensures r.Ok? && r.value.Some? ==> |r.value.value| > 0 && AllOpeners(r.value.value)
    ensures FirstUnmatched(s).Ok? && FirstUnmatched(s).value.Some? ==> r == Ok(None)
    ensures r.Err? <==> FirstUnmatched(s).Err?
  {
    match Run(s)
    case Going(st) => if st == [] then Ok(None) else Ok(Some(Reverse(st)))
    case Corrupted(_) => Ok(None)
    case Unsupported(_) => Err("unsupported char")
  }

  /** The closers for a list of openers, in the same order. */
  function Closers(u: string): (r: string)
    requires AllOpeners(u)
    ensures |r| == |u| && forall i :: 0 <= i < |u| ==> r[i] == Closer(u[i])
  {
    if u == [] then [] else [Closer(u[0])] + Closers(u[1..])
  }

  /** Closing the openers of the stack from the innermost out empties it. */
  lemma {:induction false} CloseStack(st: seq<char>)
    requires AllOpeners(st)
    ensures FeedAll(Going(st), Closers(Reverse(st))) == Going([])
    decreases |st|
  {
    if st != [] {
      var init := st[..|st| - 1];
      var o := st[|st| - 1];
      var rest := Closers(Reverse(init));
      assert Reverse(st) == [o] + Reverse(init);
      assert Closers(Reverse(st)) == [Closer(o)] + rest;
      FeedAllAppend(Going(st), [Closer(o)], rest);
      assert FeedAll(Going(st), [Closer(o)]) == Feed(Going(st), Closer(o));
      assert Feed(Going(st), Closer(o)) == Going(init);
      CloseStack(init);
    }
  }

  /**
   * What `all_unmatched` returns is the completion of the line: appending the
   * matching closers, in its order, leaves nothing open and nothing corrupted.
   */
  lemma Completes(s: string)
    requires AllUnmatched(s).Ok? && AllUnmatched(s).value.Some?
    ensures Run(s + Closers(AllUnmatched(s).value.value)) == Going([])
  {
    var st := Run(s).stack;
    FeedAllAppend(Going([]), s, Closers(Reverse(st)));
    CloseStack(st);
  }

  /** The loop of `first_unmatched`, with a stack and an early return. */
  method FirstUnmatchedOf(s: string) returns (r: Result<Option<char>>)
    ensures r == FirstUnmatched(s)
  {
    var stack: seq<char> := [];
    for i := 0 to |s|
      invariant Run(s[..i]) == Going(stack)
    {
      var c := s[i];
      RunStep(s, i);
      if IsOpener(c) {
        stack := stack + [c];
      } else if IsCloser(c) {
        if stack == [] || stack[|stack| - 1] != Partner(c) {
          PrefixStops(s, i + 1);
          return Ok(Some(c));
        }
        stack := stack[..|stack| - 1];
      } else {
        PrefixStops(s, i + 1);
        return Err("unsupported char");
      }
    }
    assert s[..|s|] == s;
    return Ok(None);
  }

  /** The loop of `all_unmatched`: the same scan, then the stack read from the top. */
  method AllUnmatchedOf(s: string) returns (r: Result<Option<string>>)
    ensures r == AllUnmatched(s)
  {
    var stack: seq<char> := [];
    for i := 0 to |s|
      invariant Run(s[..i]) == Going(stack)
    {
      var c := s[i];
      RunStep(s, i);
      if IsOpener(c) {
        stack := stack + [c];
      } else if IsCloser(c) {
        if stack == [] || stack[|stack| - 1] != Partner(c) {
          PrefixStops(s, i + 1);
          return Ok(None);
        }
        stack := stack[..|stack| - 1];
      } else {
        PrefixStops(s, i + 1);
        return Err("unsupported char");
      }
    }
    assert s[..|s|] == s;
    if stack != [] {
      var rev := [];
      var k := |stack|;
      while k > 0
        invariant 0 <= k <= |stack| && rev == Reverse(stack[k..])
        decreases k
      {
        assert stack[k - 1..] == [stack[k - 1]] + stack[k..];
        ReverseCons(stack[k - 1], stack[k..]);
        rev := rev + [stack[k - 1]];
        k := k - 1;
      }
      assert stack[0..] == stack;
      return Ok(Some(rev));
    }
    return Ok(None);
  }

  lemma ReverseCons(c: char, s: string)
    ensures Reverse([c] + s) == Reverse(s) + [c]
  {
    var a := Reverse([c] + s);
    var b := Reverse(s) + [c];
    assert |a| == |b|;
    forall i | 0 <= i < |a|
      ensures a[i] == b[i]
    {
      if i < |s| {
        assert ([c] + s)[|s| - i] == s[|s| - 1 - i];
      }
    }
  }

  // ---------------------------------------------------------------------
  // Scores
  // ---------------------------------------------------------------------

  /** `scores` of `part2_score`: 1 to 4 by opener. */
  function Points(c: char): (p: int)
    requires IsOpener(c)
    ensures 1 <= p <= 4
  {
    match c
    case '(' => 1
    case '[' => 2
    case '{' => 3
    case _ => 4
  }

  /** The openers read as the digits of a base-5 number, first digit most significant. */
  function Score(u: string): int
    requires AllOpeners(u)
  {
    if u == [] then 0 else 5 * Score(u[..|u| - 1]) + Points(u[|u| - 1])
  }

  /** `part2_score`: multiply by 5 and add each opener's points. */
  method Part2Score(u: string) returns (score: int)
    requires AllOpeners(u)
    ensures score == Score(u)
  {
    score := 0;
    for i := 0 to |u|
      invariant score == Score(u[..i])
    {
      PrefixStep(u, i);
      score := score * 5;
      score := score + Points(u[i]);
    }
    assert u[..|u|] == u;
  }

  /** The score of a non-empty completion is positive. */
  lemma {:induction false} ScorePositive(u: string)
    requires AllOpeners(u)
    ensures Score(u) >= 0
    ensures u != [] ==> Score(u) > 0
    decreases |u|
  {
    if u != [] {
      ScorePositive(u[..|u| - 1]);
    }
  }

  /** No digit is 0, so different completions never share a score. */
  lemma {:induction false} ScoreInjective(a: string, b: string)
    requires AllOpeners(a) && AllOpeners(b) && Score(a) == Score(b)
    ensures a == b
    decreases |a|
  {
    ScorePositive(a);
    ScorePositive(b);
    if a != [] && b != [] {
      var x, y := a[|a| - 1], b[|b| - 1];
      var sa, sb := Score(a[..|a| - 1]), Score(b[..|b| - 1]);
      DigitsAgree(sa, Points(x), sb, Points(y));
      ScoreInjective(a[..|a| - 1], b[..|b| - 1]);
      assert a == a[..|a| - 1] + [x] && b == b[..|b| - 1] + [y];
    }
  }

  /** The last base-5 digit, when digits run 1 to 4, fixes both it and the rest. */
  lemma DigitsAgree(x: int, d: int, y: int, e: int)
    requires 1 <= d <= 4 && 1 <= e <= 4 && 5 * x + d == 5 * y + e
    ensures d == e && x == y
  {
  }

  // ---------------------------------------------------------------------
  // The two parts
  // ---------------------------------------------------------------------

  /** The part 1 total of the lines: Err as soon as one line panics. */
  function Part1Total(data: seq<string>): (r: Result<int>)
    ensures r.Ok? <==> forall i :: 0 <= i < |data| ==> FirstUnmatched(data[i]).Ok?
    ensures r.Ok? ==> r.value >= 0
  {
    if data == [] then Ok(0)
    else
      match Part1Total(data[..|data| - 1])
      case Err(e) => Err(e)
      case Ok(t) =>
        match FirstUnmatched(data[|data| - 1])
        case Err(e) => Err(e)
        case Ok(c) => Ok(t + ValueOf(c))
  }

  /** A total of 0 means no line is corrupted, and the other way round. */
  lemma {:induction false} Part1Zero(data: seq<string>)
    requires Part1Total(data).Ok?
    ensures Part1Total(data).value == 0 <==> forall i :: 0 <= i < |data| ==> FirstUnmatched(data[i]) == Ok(None)
    decreases |data|
  {
    if data != [] {
      var init := data[..|data| - 1];
      Part1Zero(init);
      assert forall i :: 0 <= i < |init| ==> init[i] == data[i];
      var c := FirstUnmatched(data[|data| - 1]).value;
      assert ValueOf(c) == 0 <==> c == None;
    }
  }

  /** `solution_impl_1`: the points of every line's first bad closer, added up. */
  method SolvePart1(data: seq<string>) returns (r: Result<int>)
    ensures r == Part1Total(data)
  {
    var total := 0;
    for i := 0 to |data|
      invariant Part1Total(data[..i]) == Ok(total)
    {
      PrefixStep(data, i);
      var c := FirstUnmatchedOf(data[i]);
      if c.Err? {
        assert Part1Total(data[..i + 1]).Err?;
        PrefixErr1(data, i + 1);
        return Err(c.reason);
      }
      total := total + ValueOf(c.value);
    }
    assert data[..|data|] == data;
    return Ok(total);
  }

  lemma PrefixErr1(data: seq<string>, n: nat)
    requires n <= |data| && Part1Total(data[..n]).Err?
    ensures Part1Total(data) == Part1Total(data[..n])
    decreases |data| - n
  {
    if n < |data| {
      PrefixStep(data, n);
      PrefixErr1(data, n + 1);
    } else {
      assert data[..n] == data;
    }
  }

  /** The scores of the incomplete lines in order; Err as soon as one line panics. */
  function Completions(data: seq<string>): (r: Result<seq<int>>)
    ensures r.Ok? <==> forall i :: 0 <= i < |data| ==> AllUnmatched(data[i]).Ok?
    ensures r.Ok? ==> forall k :: 0 <= k < |r.value| ==> r.value[k] > 0
  {
    if data == [] then Ok([])
    else
      match Completions(data[..|data| - 1])
      case Err(e) => Err(e)
      case Ok(sc) =>
        match AllUnmatched(data[|data| - 1])
        case Err(e) => Err(e)
        case Ok(None) => Ok(sc)
        case Ok(Some(u)) =>
          ScorePositive(u);
          Ok(sc + [Score(u)])
  }

  lemma PrefixErr2(data: seq<string>, n: nat)
    requires n <= |data| && Completions(data[..n]).Err?
    ensures Completions(data) == Completions(data[..n])
    decreases |data| - n
  {
    if n < |data| {
      assert data[..n + 1][..n] == data[..n];
      PrefixErr2(data, n + 1);
    } else {
      assert data[..n] == data;
    }
  }

  predicate IsSorted(s: seq<int>)
  {
    forall i, j :: 0 <= i < j < |s| ==> s[i] <= s[j]
  }

  /** x put in its place in a sorted sequence. */
  function Insert(x: int, s: seq<int>): (r: seq<int>)
    requires IsSorted(s)
    ensures IsSorted(r) && multiset(r) == multiset(s) + multiset{x}
    ensures r[0] == x || (s != [] && r[0] == s[0])
  {
    if s == [] then [x]
    else if x <= s[0] then
      ConsSorted(x, s);
      [x] + s
    else
      var rest := Insert(x, s[1..]);
      assert s == [s[0]] + s[1..];
      ConsSorted(s[0], rest);
      [s[0]] + rest
  }

  lemma ConsSorted(h: int, t: seq<int>)
    requires IsSorted(t) && (t != [] ==> h <= t[0])
    ensures IsSorted([h] + t)
  {
    var u := [h] + t;
    forall i, j | 0 <= i < j < |u|
      ensures u[i] <= u[j]
    {
      if i == 0 {
        assert t[0] <= t[j - 1];
      }
    }
  }

  /** The head of a sorted sequence is its smallest value. */
  lemma HeadIsLeast(a: seq<int>, x: int)
    requires IsSorted(a) && x in multiset(a)
    ensures a[0] <= x
  {
    var i :| 0 <= i < |a| && a[i] == x;
  }

  lemma TailMultiset(a: seq<int>)
    requires a != []
    ensures multiset(a[1..]) == multiset(a) - multiset{a[0]}
  {
    assert a == [a[0]] + a[1..];
  }

  /** `sort_unstable`, as a function: the scores in increasing order. */
  function SortSeq(s: seq<int>): (r: seq<int>)
    ensures IsSorted(r) && multiset(r) == multiset(s)
  {
    if s == [] then []
    else
      assert s == s[..|s| - 1] + [s[|s| - 1]];
      Insert(s[|s| - 1], SortSeq(s[..|s| - 1]))
  }

  /** Any two sorted arrangements of the same values are equal, so the median does not depend on the sort. */
  lemma {:induction false} SortedUnique(a: seq<int>, b: seq<int>)
    requires IsSorted(a) && IsSorted(b) && multiset(a) == multiset(b)
    ensures a == b
    decreases |a|
  {
    if a != [] {
      assert b != [] by {
        assert a[0] in multiset(b);
      }
      assert a[0] == b[0] by {
        HeadIsLeast(a, b[0]);
        HeadIsLeast(b, a[0]);
      }
      assert a[1..] == b[1..] by {
        TailMultiset(a);
        TailMultiset(b);
        TailSorted(a);
        TailSorted(b);
        SortedUnique(a[1..], b[1..]);
      }
      assert a == [a[0]] + a[1..];
      assert b == [b[0]] + b[1..];
    } else {
      assert |b| == |multiset(b)| == 0;
    }
  }

  lemma TailSorted(a: seq<int>)
    requires a != [] && IsSorted(a)
    ensures IsSorted(a[1..])
  {
    forall i, j | 0 <= i < j < |a| - 1
      ensures a[1..][i] <= a[1..][j]
    {
      assert a[1..][i] == a[i + 1] && a[1..][j] == a[j + 1];
    }
  }

  /** The part 2 answer: the middle of the sorted scores; Err when no line is incomplete. */
  function Part2Answer(data: seq<string>): (r: Result<int>)
    ensures r.Ok? ==> Completions(data).Ok? && r.value in Completions(data).value
    ensures Completions(data).Ok? && |Completions(data).value| > 0 ==> r.Ok?
  {
    match Completions(data)
    case Err(e) => Err(e)
    case Ok(sc) =>
      if |sc| == 0 then Err("index out of bounds")
      else
        var t := SortSeq(sc);
        assert |t| == |multiset(t)| == |sc|;
        assert t[|t| / 2] in multiset(sc);
        Ok(t[|t| / 2])
  }

  /** The median splits the scores: no more than half lie below it and no more than half above. */
  lemma MedianSplits(sc: seq<int>)
    requires |sc| > 0
    ensures var t := SortSeq(sc); var m := t[|t| / 2];
      |t| == |sc|
      && (forall i :: 0 <= i < |t| / 2 ==> t[i] <= m)
      && (forall i :: |t| / 2 < i < |t| ==> m <= t[i])
  {
    var t := SortSeq(sc);
    assert |t| == |multiset(t)| == |sc|;
  }

  /** `solution_impl_2`: score every incomplete line, sort, take the middle one. */
  method SolvePart2(data: seq<string>) returns (r: Result<int>)
    ensures r == Part2Answer(data)
  {
    var scores: seq<int> := [];
    for i := 0 to |data|
      invariant Completions(data[..i]) == Ok(scores)
    {
      PrefixStep(data, i);
      var u := AllUnmatchedOf(data[i]);
      if u.Err? {
        PrefixErr2(data, i + 1);
        return Err(u.reason);
      }
      if u.value.Some? {
        var score := Part2Score(u.value.value);
        scores := scores + [score];
      }
    }
    assert data[..|data|] == data;
    if |scores| == 0 {
      return Err("index out of bounds");
    }
    var sorted := SortSeq(scores);
    return Ok(sorted[|sorted| / 2]);
  }
}
