/**
 * Day 5: hydrothermal vent lines. Each line is rasterised into the integer
 * points it covers (horizontal, vertical and, in part 2, diagonal lines), and
 * the answer counts the points covered more than once.
 */
module Day5 {
  import opened Base
  import opened Text

  datatype Point = XY(x: int, y: int)

  datatype Line = Line(start: Point, end: Point)

  /** `lo..hi`: the integers from lo up to, and not including, hi. */
  function Ascending(lo: int, hi: int): (r: seq<int>)
    ensures |r| == if hi > lo then hi - lo else 0
    ensures forall i :: 0 <= i < |r| ==> r[i] == lo + i
  {
    if hi <= lo then [] else seq(hi - lo, i => lo + i)
  }

  /** `.rev()`. */
  function Reverse<T>(s: seq<T>): (r: seq<T>)
    ensures |r| == |s|
    ensures forall i :: 0 <= i < |s| ==> r[i] == s[|s| - 1 - i]
  {
    seq(|s|, i requires 0 <= i < |s| => s[|s| - 1 - i])
  }

  /**
   * `range` as written: the integers between the smaller and the larger
   * bound (the larger one included when `includeEnd`), reversed when start is
   * the larger bound.
   */
  function RangeAsWritten(start: int, end: int, includeEnd: bool): seq<int>
  {
    var (lo, hi) := if start < end then (start, end) else (end, start);
    var v := if includeEnd then Ascending(lo, hi + 1) else Ascending(lo, hi);
    if start == lo then v else Reverse(v)
  }

  /**
   * `range` with the end excluded in both directions: the inclusive range
   * without its last element. It agrees with `RangeAsWritten` whenever the end
   * is included, the only way the puzzle calls it.
   */
  function Range(start: int, end: int, includeEnd: bool): seq<int>
  {
    var full := RangeAsWritten(start, end, true);
    if includeEnd then full else full[..|full| - 1]
  }

  /** Walking from s toward e: i steps up, down or (when s == e) nowhere. */
  function Toward(s: int, e: int, i: int): int
  {
    if s < e then s + i else if s > e then s - i else s
  }

  /**
   * `range(s, e, true)` runs from s to e one step at a time, with |e - s| + 1
   * elements; excluding the end drops exactly the last one, so the result
   * still starts at s and never reaches e.
   */
  lemma RangeWalks(start: int, end: int, includeEnd: bool)
    ensures var r := Range(start, end, includeEnd);
      && |r| == Abs(end - start) + (if includeEnd then 1 else 0)
      && (forall i :: 0 <= i < |r| ==> r[i] == Toward(start, end, i))
      && (r != [] ==> r[0] == start)
      && (includeEnd ==> r[|r| - 1] == end)
      && (!includeEnd ==> end !in r)
  {
    var r := Range(start, end, includeEnd);
    if !includeEnd {
      assert forall i :: 0 <= i < |r| ==> r[i] != end;
    }
  }

  /** Consecutive elements of a range differ by exactly one, in the direction from start to end. */
  lemma RangeSteps(start: int, end: int, includeEnd: bool, i: nat)
    requires i + 1 < |Range(start, end, includeEnd)|
    ensures var r := Range(start, end, includeEnd);
      r[i + 1] - r[i] == (if start < end then 1 else -1)
  {
    RangeWalks(start, end, includeEnd);
  }

  /** Both definitions agree when the end is included. */
  lemma RangeAgreesInclusive(start: int, end: int)
    ensures RangeAsWritten(start, end, true) == Range(start, end, true)
  {
  }

  /**
   * As written, a descending range without its end skips the start and
   * reaches the end: `range(3, 1, false)` is [2, 1], not [3, 2].
   */
  lemma RangeAsWrittenSkipsStart()
    ensures RangeAsWritten(3, 1, false) == [2, 1]
    ensures Range(3, 1, false) == [3, 2]
  {
    assert Ascending(1, 3) == [1, 2];
    assert Ascending(1, 4) == [1, 2, 3];
  }

  /** Reversing the direction of an inclusive range reverses the range. */
  lemma RangeReversed(start: int, end: int)
    ensures Range(end, start, true) == Reverse(Range(start, end, true))
  {
    RangeWalks(start, end, true);
    RangeWalks(end, start, true);
  }

  /** `iter.map(|y| XY::new(x, y))`. */
  function Column(x: int, ys: seq<int>): (r: seq<Point>)
    ensures |r| == |ys|
    ensures forall i :: 0 <= i < |ys| ==> r[i] == XY(x, ys[i])
  {
    seq(|ys|, i requires 0 <= i < |ys| => XY(x, ys[i]))
  }

  /** `iter.map(|x| XY::new(x, y))`. */
  function Row(xs: seq<int>, y: int): (r: seq<Point>)
    ensures |r| == |xs|
    ensures forall i :: 0 <= i < |xs| ==> r[i] == XY(xs[i], y)
  {
    seq(|xs|, i requires 0 <= i < |xs| => XY(xs[i], y))
  }

  /** `xs.zip(ys)`: pairs up to the shorter length. */
  function Zip(xs: seq<int>, ys: seq<int>): (r: seq<Point>)
    ensures |r| == Min(|xs|, |ys|)
    ensures forall i :: 0 <= i < |r| ==> r[i] == XY(xs[i], ys[i])
  {
    seq(Min(|xs|, |ys|), i requires 0 <= i < Min(|xs|, |ys|) => XY(xs[i], ys[i]))
  }

  /** The set of elements of a sequence. */
  function Elems(ps: seq<Point>): set<Point>
  {
    set p | p in ps
  }

  predicate IsAxis(line: Line)
  {
    line.start.x == line.end.x || line.start.y == line.end.y
  }

  /** `Line::get_points`. */
  function GetPoints(line: Line, allowDiagonals: bool): seq<Point>
  {
    var (s, e) := (line.start, line.end);
    if s.x == e.x then Column(s.x, Range(s.y, e.y, true))
    else if s.y == e.y then Row(Range(s.x, e.x, true), s.y)
    else if !allowDiagonals then []
    else Zip(Range(s.x, e.x, true), Range(s.y, e.y, true))
  }

  /** A vertical line keeps x; it covers |dy| + 1 points from start to end. */
  lemma VerticalPoints(line: Line, allowDiagonals: bool)
    requires line.start.x == line.end.x
    ensures var pts := GetPoints(line, allowDiagonals);
      && |pts| == Abs(line.end.y - line.start.y) + 1
      && (forall i :: 0 <= i < |pts| ==> pts[i].x == line.start.x)
      && pts[0] == line.start && pts[|pts| - 1] == line.end
  {
    RangeWalks(line.start.y, line.end.y, true);
  }

  /** A horizontal line keeps y; it covers |dx| + 1 points from start to end. */
  lemma HorizontalPoints(line: Line, allowDiagonals: bool)
    requires line.start.y == line.end.y
    ensures var pts := GetPoints(line, allowDiagonals);
      && |pts| == Abs(line.end.x - line.start.x) + 1
      && (forall i :: 0 <= i < |pts| ==> pts[i].y == line.start.y)
      && pts[0] == line.start && pts[|pts| - 1] == line.end
  {
    RangeWalks(line.start.x, line.end.x, true);
    RangeWalks(line.start.y, line.end.y, true);
  }

  /** A line whose ends coincide is one point. */
  lemma PointLine(p: Point, allowDiagonals: bool)
    ensures GetPoints(Line(p, p), allowDiagonals) == [p]
  {
    VerticalPoints(Line(p, p), allowDiagonals);
  }

  /** Without diagonals, a slanted line covers nothing. */
  lemma SlantedIgnored(line: Line)
    requires !IsAxis(line)
    ensures GetPoints(line, false) == []
  {
  }

  /**
   * A slanted line covers min(|dx|, |dy|) + 1 points from its start, each
   * moving one step in both coordinates toward the end.
   */
  lemma DiagonalPoints(line: Line)
    requires !IsAxis(line)
    ensures var pts := GetPoints(line, true);
      && |pts| == Min(Abs(line.end.x - line.start.x), Abs(line.end.y - line.start.y)) + 1
      && pts[0] == line.start
      && forall i :: 0 <= i < |pts| ==>
           pts[i] == XY(Toward(line.start.x, line.end.x, i), Toward(line.start.y, line.end.y, i))
  {
    RangeWalks(line.start.x, line.end.x, true);
    RangeWalks(line.start.y, line.end.y, true);
  }

  /** Horizontal, vertical or at 45 degrees: the lines the puzzle input contains. */
  predicate IsStraight(line: Line)
  {
    IsAxis(line) || Abs(line.end.x - line.start.x) == Abs(line.end.y - line.start.y)
  }

  /**
   * Swapping the ends of a straight line reverses its points, so the set of
   * points covered does not depend on the direction.
   */
  lemma SwappedLineSamePoints(line: Line, allowDiagonals: bool)
    requires IsStraight(line)
    ensures GetPoints(Line(line.end, line.start), allowDiagonals) == Reverse(GetPoints(line, allowDiagonals))
    ensures Elems(GetPoints(Line(line.end, line.start), allowDiagonals)) == Elems(GetPoints(line, allowDiagonals))
  {
    var a := GetPoints(line, allowDiagonals);
    var b := GetPoints(Line(line.end, line.start), allowDiagonals);
    if line.start.x == line.end.x {
      SwappedVertical(line, allowDiagonals);
    } else if line.start.y == line.end.y {
      SwappedHorizontal(line, allowDiagonals);
    } else if allowDiagonals {
      SwappedDiagonal(line);
    }
    ReverseSameElements(a);
  }

  lemma SwappedVertical(line: Line, allowDiagonals: bool)
    requires line.start.x == line.end.x
    ensures GetPoints(Line(line.end, line.start), allowDiagonals) == Reverse(GetPoints(line, allowDiagonals))
  {
    var ys := Range(line.start.y, line.end.y, true);
    RangeReversed(line.start.y, line.end.y);
    assert GetPoints(line, allowDiagonals) == Column(line.start.x, ys);
    assert GetPoints(Line(line.end, line.start), allowDiagonals) == Column(line.start.x, Reverse(ys));
    assert Column(line.start.x, Reverse(ys)) == Reverse(Column(line.start.x, ys));
  }

  lemma SwappedHorizontal(line: Line, allowDiagonals: bool)
    requires line.start.x != line.end.x && line.start.y == line.end.y
    ensures GetPoints(Line(line.end, line.start), allowDiagonals) == Reverse(GetPoints(line, allowDiagonals))
  {
    var xs := Range(line.start.x, line.end.x, true);
    RangeReversed(line.start.x, line.end.x);
    assert GetPoints(line, allowDiagonals) == Row(xs, line.start.y);
    assert GetPoints(Line(line.end, line.start), allowDiagonals) == Row(Reverse(xs), line.start.y);
    assert Row(Reverse(xs), line.start.y) == Reverse(Row(xs, line.start.y));
  }

  lemma SwappedDiagonal(line: Line)
    requires !IsAxis(line) && IsStraight(line)
    ensures GetPoints(Line(line.end, line.start), true) == Reverse(GetPoints(line, true))
  {
    var s, e := line.start, line.end;
    var xs, ys := Range(s.x, e.x, true), Range(s.y, e.y, true);
    assert GetPoints(line, true) == Zip(xs, ys);
    assert GetPoints(Line(e, s), true) == Zip(Range(e.x, s.x, true), Range(e.y, s.y, true));
    RangeReversed(s.x, e.x);
    RangeReversed(s.y, e.y);
    SameLength(line);
    ZipReversed(xs, ys);
  }

  /** Both coordinates of a 45-degree line take the same number of steps. */
  lemma SameLength(line: Line)
    requires !IsAxis(line) && IsStraight(line)
    ensures |Range(line.start.x, line.end.x, true)| == |Range(line.start.y, line.end.y, true)|
  {
    RangeWalks(line.start.x, line.end.x, true);
    RangeWalks(line.start.y, line.end.y, true);
  }

  /** Pairing two reversed sequences of one length reverses the pairs. */
  lemma ZipReversed(xs: seq<int>, ys: seq<int>)
    requires |xs| == |ys|
    ensures Zip(Reverse(xs), Reverse(ys)) == Reverse(Zip(xs, ys))
  {
  }

  lemma ReverseSameElements(a: seq<Point>)
    ensures Elems(Reverse(a)) == Elems(a)
  {
    var b := Reverse(a);
    forall p | p in a ensures p in b {
      var i :| 0 <= i < |a| && a[i] == p;
      assert b[|a| - 1 - i] == p;
    }
  }

  // ---------------------------------------------------------------------
  // Parsing

  /** The values of the pieces that parse as integers; the others are dropped (`flat_map`). */
  function ParsedPieces(pieces: seq<string>): (r: seq<int>)
    ensures |r| <= |pieces|
  {
    if pieces == [] then []
    else
      var rest := ParsedPieces(pieces[1..]);
      match ParseInt(Trim(pieces[0]))
      case Some(v) => [v] + rest
      case None => rest
  }

  /** `XY::from`: a comma-separated pair; anything but exactly two numbers is the assertion panic. */
  function ParsePoint(s: string): (r: Option<Point>)
    ensures r.Some? <==> |ParsedPieces(Split(s, ","))| == 2
  {
    var values := ParsedPieces(Split(s, ","));
    if |values| == 2 then Some(XY(values[0], values[1])) else None
  }

  /** A piece that parses to v contributes v ahead of the values of the pieces after it. */
  lemma PieceValue(p: string, v: int, rest: seq<string>)
    requires ParseInt(Trim(p)) == Some(v)
    ensures ParsedPieces([p] + rest) == [v] + ParsedPieces(rest)
  {
    assert ([p] + rest)[1..] == rest;
  }

  /** Text with a single comma parses as the point of the trimmed numbers on either side of it. */
  lemma PointAt(s: string, i: nat, x: int, y: int)
    requires OccursAt(s, ",", i) && forall j: nat :: j != i ==> !OccursAt(s, ",", j)
    requires ParseInt(Trim(s[..i])) == Some(x) && ParseInt(Trim(s[i + 1..])) == Some(y)
    ensures ParsePoint(s) == Some(XY(x, y))
  {
    var a, b := s[..i], s[i + 1..];
    SplitInTwo(s, ",", i);
    PieceValue(b, y, []);
    PieceValue(a, x, [b]);
    assert [b] + [] == [b];
    assert [a] + [b] == [a, b];
    var values := ParsedPieces(Split(s, ","));
    assert values == [x, y];
  }

  lemma CommaAtTwo(c: char, d: char, e: char)
    requires c != ',' && d != ',' && e != ','
    ensures var s := [c, d, ',', e];
      OccursAt(s, ",", 2) && (forall j: nat :: j != 2 ==> !OccursAt(s, ",", j)) && s[..2] == [c, d] && s[3..] == [e]
  {
    var s := [c, d, ',', e];
    forall j: nat | j != 2
      ensures !OccursAt(s, ",", j)
    {
      if j + 1 <= |s| {
        assert s[j..j + 1][0] == s[j] != ',';
      }
    }
  }

  /** A point written after a no-break space (U+00A0) parses, as `str::trim` removes it. */
  lemma ParsePointAfterNoBreakSpace(s: string)
    requires s == "\U{00A0}0,9"
    ensures ParsePoint(s) == Some(XY(0, 9))
  {
    CommaAtTwo('\U{00A0}', '0', '9');
    TrimmedDigit('\U{00A0}', '0');
    ParseDigit('9');
    assert Trim(['9']) == ['9'];
    PointAt(s, 2, 0, 9);
  }

  /**
   * `Line::from_string`: two points separated by " -> ". Popping from the
   * parsed pair takes the second point first, so it becomes `start`.
   */
  function FromString(s: string): (r: Option<Line>)
  {
    var splits := Split(s, " -> ");
    if |splits| != 2 then None
    else
      match (ParsePoint(splits[0]), ParsePoint(splits[1]))
      case (Some(first), Some(second)) => Some(Line(second, first))
      case _ => None
  }

  /**
   * A line "a -> b" whose halves contain no '>' and parse as points becomes the
   * line from b to a.
   */
  lemma FromStringSwaps(a: string, b: string)
    requires '>' !in a && '>' !in b
    requires ParsePoint(a).Some? && ParsePoint(b).Some?
    ensures FromString(a + " -> " + b) == Some(Line(ParsePoint(b).value, ParsePoint(a).value))
  {
    var line := a + " -> " + b;
    var i := |a|;
    assert OccursAt(line, " -> ", i) by { assert line[i..i + 4] == " -> "; }
    forall j: nat | j != i
      ensures !OccursAt(line, " -> ", j)
    {
      if j + 4 <= |line| {
        assert line[j..j + 4][2] == line[j + 2];
        if j + 2 < i {
          assert line[j + 2] == a[j + 2];
        } else if j + 2 >= i + 4 {
          assert line[j + 2] == b[j + 2 - i - 4];
        } else {
          assert line[i..i + 4] == " -> ";
          assert line[j + 2] == line[i..i + 4][j + 2 - i];
        }
      }
    }
    SplitInTwo(line, " -> ", i);
    assert line[..i] == a && line[i + 4..] == b;
  }

  /** Parses every line; None when some line panics. */
  function ParseLines(data: seq<string>): (r: Option<seq<Line>>)
    ensures r.Some? <==> forall k :: 0 <= k < |data| ==> FromString(data[k]).Some?
    ensures r.Some? ==> |r.value| == |data|
    ensures r.Some? ==> forall k :: 0 <= k < |data| ==> r.value[k] == FromString(data[k]).value
  {
    if data == [] then Some([])
    else
      match FromString(data[0])
      case None => None
      case Some(line) =>
        match ParseLines(data[1..])
        case None => None
        case Some(rest) => Some([line] + rest)
  }

  // ---------------------------------------------------------------------
  // Counting overlaps

  /** The points of all lines, in order. */
  function AllPoints(lines: seq<Line>, allowDiagonals: bool): seq<Point>
  {
    if lines == [] then []
    else AllPoints(lines[..|lines| - 1], allowDiagonals) + GetPoints(lines[|lines| - 1], allowDiagonals)
  }

  /** `p` appears at two different positions of `ps`. */
  predicate Repeated(ps: seq<Point>, p: Point)
  {
    exists i, j :: 0 <= i < j < |ps| && ps[i] == p && ps[j] == p
  }

  /** The points covered at least twice. */
  ghost function Dups(ps: seq<Point>): set<Point>
  {
    set p | p in ps && Repeated(ps, p)
  }

  /** One more point is a new duplicate exactly when it was already present. */
  lemma DupsSnoc(ps: seq<Point>, q: Point)
    ensures Dups(ps + [q]) == if q in ps then Dups(ps) + {q} else Dups(ps)
    ensures Elems(ps + [q]) == Elems(ps) + {q}
  {
    var qs := ps + [q];
    forall p ensures Repeated(qs, p) <==> Repeated(ps, p) || (p == q && q in ps) {
      if Repeated(qs, p) && !Repeated(ps, p) {
        var i, j :| 0 <= i < j < |qs| && qs[i] == p && qs[j] == p;
        assert j == |ps|;
        assert ps[i] == p;
      }
      if Repeated(ps, p) {
        var i, j :| 0 <= i < j < |ps| && ps[i] == p && ps[j] == p;
        assert qs[i] == p && qs[j] == p;
      }
      if p == q && q in ps {
        var i :| 0 <= i < |ps| && ps[i] == q;
        assert qs[i] == p && qs[|ps|] == p;
      }
    }
  }

  lemma DupsStep(before: seq<Point>, points: seq<Point>, j: nat)
    requires j < |points|
    ensures var ps := before + points[..j];
      && Dups(before + points[..j + 1]) == (if points[j] in ps then Dups(ps) + {points[j]} else Dups(ps))
      && Elems(before + points[..j + 1]) == Elems(ps) + {points[j]}
      && (points[j] in ps <==> points[j] in Elems(ps))
  {
    assert before + points[..j + 1] == (before + points[..j]) + [points[j]];
    DupsSnoc(before + points[..j], points[j]);
  }

  lemma AllPointsStep(lines: seq<Line>, allowDiagonals: bool, i: nat)
    requires i < |lines|
    ensures AllPoints(lines[..i + 1], allowDiagonals) == AllPoints(lines[..i], allowDiagonals) + GetPoints(lines[i], allowDiagonals)
  {
    PrefixStep(lines, i);
  }

  /** `seen` and `duped` are the points of `ps` and its points covered twice. */
  ghost predicate Counted(seen: set<Point>, duped: set<Point>, ps: seq<Point>)
  {
    seen == Elems(ps) && duped == Dups(ps)
  }

  /**
   * The inner loop of both parts: every point of one line goes into `seen`
   * the first time and into `duped` every later time.
   */
  method AddPoints(seen: set<Point>, duped: set<Point>, points: seq<Point>, ghost before: seq<Point>)
    returns (seen': set<Point>, duped': set<Point>)
    requires Counted(seen, duped, before)
    ensures Counted(seen', duped', before + points)
  {
    seen', duped' := seen, duped;
    assert before + points[..0] == before;
    for j := 0 to |points|
      invariant Counted(seen', duped', before + points[..j])
    {
      var point := points[j];
      DupsStep(before, points, j);
      if point in seen' {
        duped' := duped' + {point};
      } else {
        seen' := seen' + {point};
      }
    }
    assert points[..|points|] == points;
  }

  /** The outer loop of both parts; the answer is the number of points covered twice. */
  method CountOverlaps(lines: seq<Line>, allowDiagonals: bool) returns (count: nat)
    ensures count == |Dups(AllPoints(lines, allowDiagonals))|
  {
    var seen: set<Point> := {};
    var duped: set<Point> := {};
    for i := 0 to |lines|
      invariant Counted(seen, duped, AllPoints(lines[..i], allowDiagonals))
    {
      var points := GetPoints(lines[i], allowDiagonals);
      seen, duped := AddPoints(seen, duped, points, AllPoints(lines[..i], allowDiagonals));
      AllPointsStep(lines, allowDiagonals, i);
    }
    assert lines[..|lines|] == lines;
    count := |duped|;
  }

  /** Part 1: points covered at least twice by horizontal and vertical lines. */
  method SolvePart1(data: seq<string>) returns (r: Option<int>)
    ensures r.Some? <==> ParseLines(data).Some?
    ensures r.Some? ==> r.value == |Dups(AllPoints(ParseLines(data).value, false))|
  {
    var lines := ParseLines(data);
    if lines.None? {
      return None;
    }
    var count := CountOverlaps(lines.value, false);
    return Some(count);
  }

  /** Part 2: the same count with diagonal lines included. */
  method SolvePart2(data: seq<string>) returns (r: Option<int>)
    ensures r.Some? <==> ParseLines(data).Some?
    ensures r.Some? ==> r.value == |Dups(AllPoints(ParseLines(data).value, true))|
  {
    var lines := ParseLines(data);
    if lines.None? {
      return None;
    }
    var count := CountOverlaps(lines.value, true);
    return Some(count);
  }
}
