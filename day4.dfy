/**
 * Day 4: bingo on 5x5 boards. A board keeps a 5x5 matrix of marks that calls
 * update in place; a call wins when it completes the row or the column of the
 * cell it marks. Part 1 scores the board that wins first, part 2 the board
 * that wins last.
 */
module Day4 {
  import opened Base
  import opened Text

  /** A board position (row, column): the source's `XY { x: row, y: column }`. */
  type Cell = (nat, nat)

  /** A 5x5 matrix of marks. */
  predicate IsMarks(marks: seq<seq<bool>>)
  {
    |marks| == 5 && forall i :: 0 <= i < 5 ==> |marks[i]| == 5
  }

  /** A board with five rows of five numbers. */
  predicate IsBoard(spaces: seq<seq<int>>)
  {
    |spaces| == 5 && forall i :: 0 <= i < 5 ==> |spaces[i]| == 5
  }

  /** `vec![vec![false; 5]; 5]`. */
  function NoMarks(): (r: seq<seq<bool>>)
    ensures IsMarks(r)
    ensures forall i, j :: 0 <= i < 5 && 0 <= j < 5 ==> !r[i][j]
  {
    seq(5, _ => seq(5, _ => false))
  }

  /** The marks with `cell` marked as well. */
  function Mark(marks: seq<seq<bool>>, cell: Cell): (r: seq<seq<bool>>)
    requires IsMarks(marks) && cell.0 < 5 && cell.1 < 5
    ensures IsMarks(r)
    ensures forall i, j :: 0 <= i < 5 && 0 <= j < 5 ==>
      (r[i][j] <==> marks[i][j] || (i == cell.0 && j == cell.1))
  {
    marks[cell.0 := marks[cell.0][cell.1 := true]]
  }

  predicate RowFull(marks: seq<seq<bool>>, x: nat)
    requires IsMarks(marks) && x < 5
  {
    forall j :: 0 <= j < 5 ==> marks[x][j]
  }

  predicate ColFull(marks: seq<seq<bool>>, y: nat)
    requires IsMarks(marks) && y < 5
  {
    forall i :: 0 <= i < 5 ==> marks[i][y]
  }

  /** The main diagonal `\` is fully marked. */
  predicate DiagFull(marks: seq<seq<bool>>)
    requires IsMarks(marks)
  {
    forall i :: 0 <= i < 5 ==> marks[i][i]
  }

  /** The anti-diagonal `/` is fully marked. */
  predicate AntiDiagFull(marks: seq<seq<bool>>)
    requires IsMarks(marks)
  {
    forall i :: 0 <= i < 5 ==> marks[i][4 - i]
  }

  // ---------------------------------------------------------------------
  // Locations of the values on a board

  /** The map after inserting `row`'s values, left to right, as found in row `r`. */
  function RowInto(m: map<int, Cell>, row: seq<int>, r: nat): map<int, Cell>
    decreases |row|
  {
    if row == [] then m else RowInto(m, row[..|row| - 1], r)[row[|row| - 1] := (r, |row| - 1)]
  }

  /** The map `get_locations` builds: every value inserted in row-major order. */
  function Locations(spaces: seq<seq<int>>): map<int, Cell>
    decreases |spaces|
  {
    if spaces == [] then map[]
    else RowInto(Locations(spaces[..|spaces| - 1]), spaces[|spaces| - 1], |spaces| - 1)
  }

  /** The value `v` is written somewhere on the board. */
  predicate Occurs(spaces: seq<seq<int>>, v: int)
  {
    exists r, c :: 0 <= r < |spaces| && 0 <= c < |spaces[r]| && spaces[r][c] == v
  }

  /** Cell `a` comes after cell `b` in row-major order. */
  predicate After(a: Cell, b: Cell)
  {
    a.0 > b.0 || (a.0 == b.0 && a.1 > b.1)
  }

  lemma {:induction false} RowIntoFinds(m: map<int, Cell>, row: seq<int>, r: nat, v: int)
    ensures v in RowInto(m, row, r) <==> v in m || v in row
    ensures v in row ==> var c := RowInto(m, row, r)[v];
      c.0 == r && c.1 < |row| && row[c.1] == v && forall k :: c.1 < k < |row| ==> row[k] != v
    ensures v !in row && v in m ==> RowInto(m, row, r)[v] == m[v]
    decreases |row|
  {
    if row != [] {
      var init := row[..|row| - 1];
      RowIntoFinds(m, init, r, v);
      assert row == init + [row[|row| - 1]];
      if v != row[|row| - 1] && v in row {
        assert v in init;
        var c := RowInto(m, row, r)[v];
        assert c == RowInto(m, init, r)[v];
        assert forall k :: c.1 < k < |init| ==> row[k] == init[k];
      }
    }
  }

  /**
   * `get_locations` maps exactly the values on the board, each to a cell that
   * holds it; with duplicates the last occurrence in row-major order wins.
   */
  lemma {:induction false} LocationsAreLastOccurrences(spaces: seq<seq<int>>, v: int)
    ensures v in Locations(spaces) <==> Occurs(spaces, v)
    ensures v in Locations(spaces) ==> var c := Locations(spaces)[v];
      && c.0 < |spaces| && c.1 < |spaces[c.0]| && spaces[c.0][c.1] == v
      && forall r, k :: 0 <= r < |spaces| && 0 <= k < |spaces[r]| && spaces[r][k] == v ==> !After((r, k), c)
    decreases |spaces|
  {
    if spaces != [] {
      var init := spaces[..|spaces| - 1];
      var last := spaces[|spaces| - 1];
      var n := |spaces| - 1;
      LocationsAreLastOccurrences(init, v);
      RowIntoFinds(Locations(init), last, n, v);
      assert forall r :: 0 <= r < n ==> spaces[r] == init[r];
      if Occurs(spaces, v) {
        var r, c :| 0 <= r < |spaces| && 0 <= c < |spaces[r]| && spaces[r][c] == v;
        if r == n {
          assert v in last;
        } else {
          assert Occurs(init, v);
        }
      }
      if v in last {
        var c :| 0 <= c < |last| && last[c] == v;
        assert spaces[n][c] == v;
      }
    }
  }

  /** On a 5x5 board every location is a cell of the board. */
  lemma LocationsInBounds(spaces: seq<seq<int>>, v: int)
    requires IsBoard(spaces) && v in Locations(spaces)
    ensures Locations(spaces)[v].0 < 5 && Locations(spaces)[v].1 < 5
  {
    LocationsAreLastOccurrences(spaces, v);
  }

  // ---------------------------------------------------------------------
  // The unmarked sum

  /** Sum of the first n values of `row` whose mark is false. */
  function RowUnmarked(row: seq<int>, marked: seq<bool>, n: nat): int
    requires n <= |row| && n <= |marked|
  {
    if n == 0 then 0 else RowUnmarked(row, marked, n - 1) + (if marked[n - 1] then 0 else row[n - 1])
  }

  /** Sum of the unmarked values in the first n rows. */
  function UnmarkedRows(spaces: seq<seq<int>>, marks: seq<seq<bool>>, n: nat): int
    requires IsBoard(spaces) && IsMarks(marks) && n <= 5
  {
    if n == 0 then 0 else UnmarkedRows(spaces, marks, n - 1) + RowUnmarked(spaces[n - 1], marks[n - 1], 5)
  }

  /** `unmarked_sum`: the sum of the values whose cells are not marked. */
  function Unmarked(spaces: seq<seq<int>>, marks: seq<seq<bool>>): int
    requires IsBoard(spaces) && IsMarks(marks)
  {
    UnmarkedRows(spaces, marks, 5)
  }

  /** Sum of all values on the board. */
  function Total(spaces: seq<seq<int>>): int
  {
    if spaces == [] then 0 else Total(spaces[..|spaces| - 1]) + Sum(spaces[|spaces| - 1])
  }

  lemma {:induction false} RowUnmarkedMark(row: seq<int>, marked: seq<bool>, y: nat, n: nat)
    requires n <= |row| && n <= |marked| && y < |marked|
    ensures RowUnmarked(row, marked[y := true], n)
      == RowUnmarked(row, marked, n) - (if y < n && !marked[y] then row[y] else 0)
  {
    if n > 0 {
      RowUnmarkedMark(row, marked, y, n - 1);
    }
  }

  lemma {:induction false} UnmarkedRowsMark(spaces: seq<seq<int>>, marks: seq<seq<bool>>, cell: Cell, n: nat)
    requires IsBoard(spaces) && IsMarks(marks) && cell.0 < 5 && cell.1 < 5 && n <= 5
    ensures UnmarkedRows(spaces, Mark(marks, cell), n)
      == UnmarkedRows(spaces, marks, n) - (if cell.0 < n && !marks[cell.0][cell.1] then spaces[cell.0][cell.1] else 0)
  {
    if n > 0 {
      UnmarkedRowsMark(spaces, marks, cell, n - 1);
      var marked := Mark(marks, cell);
      if n - 1 == cell.0 {
        assert marked[n - 1] == marks[n - 1][cell.1 := true];
        RowUnmarkedMark(spaces[n - 1], marks[n - 1], cell.1, 5);
      } else {
        assert marked[n - 1] == marks[n - 1];
      }
    }
  }

  /** Marking a cell takes its value out of the unmarked sum, once. */
  lemma MarkLowersUnmarked(spaces: seq<seq<int>>, marks: seq<seq<bool>>, cell: Cell)
    requires IsBoard(spaces) && IsMarks(marks) && cell.0 < 5 && cell.1 < 5
    ensures Unmarked(spaces, Mark(marks, cell))
      == Unmarked(spaces, marks) - (if marks[cell.0][cell.1] then 0 else spaces[cell.0][cell.1])
  {
    UnmarkedRowsMark(spaces, marks, cell, 5);
  }

  lemma {:induction false} RowUnmarkedNone(row: seq<int>, marked: seq<bool>, n: nat)
    requires n <= |row| && n <= |marked|
    requires forall j :: 0 <= j < n ==> !marked[j]
    ensures RowUnmarked(row, marked, n) == Sum(row[..n])
  {
    if n > 0 {
      RowUnmarkedNone(row, marked, n - 1);
      assert row[..n][..n - 1] == row[..n - 1];
    }
  }

  lemma {:induction false} UnmarkedRowsNone(spaces: seq<seq<int>>, n: nat)
    requires IsBoard(spaces) && n <= 5
    ensures UnmarkedRows(spaces, NoMarks(), n) == Total(spaces[..n])
  {
    if n > 0 {
      UnmarkedRowsNone(spaces, n - 1);
      RowUnmarkedNone(spaces[n - 1], NoMarks()[n - 1], 5);
      assert spaces[n - 1][..5] == spaces[n - 1];
      assert spaces[..n][..n - 1] == spaces[..n - 1];
    }
  }

  /** Before any call the unmarked sum is the sum of the whole board. */
  lemma UnmarkedAtStart(spaces: seq<seq<int>>)
    requires IsBoard(spaces)
    ensures Unmarked(spaces, NoMarks()) == Total(spaces)
  {
    UnmarkedRowsNone(spaces, 5);
    assert spaces[..5] == spaces;
  }

  // ---------------------------------------------------------------------
  // Reading a board

  /** Count of the non-empty lines. */
  function Filled(lines: seq<string>): nat
  {
    if lines == [] then 0 else (if lines[0] != "" then 1 else 0) + Filled(lines[1..])
  }

  /** Adds `rows` in front of the rows of a successful read. */
  function Prepend(rows: seq<seq<int>>, r: Result<Option<(seq<seq<int>>, nat)>>): Result<Option<(seq<seq<int>>, nat)>>
  {
    match r
    case Ok(Some((rest, next))) => Ok(Some((rows + rest, next)))
    case _ => r
  }

  /**
   * Reading `need` rows from line `pos` on: blank lines are skipped, every other
   * line is split into words parsed as integers (a word that is not a number is
   * the `unwrap` panic, `Err`), and running out of lines gives `None`. A
   * successful read also gives the position after the last line taken.
   */
  function TakeRows(lines: seq<string>, pos: nat, need: nat): (r: Result<Option<(seq<seq<int>>, nat)>>)
    ensures r.Ok? && r.value.Some? ==> |r.value.value.0| == need && pos + need <= r.value.value.1
    ensures r.Ok? && r.value.Some? && need > 0 ==> r.value.value.1 <= |lines|
    decreases |lines| - pos, need
  {
    if need == 0 then Ok(Some(([], pos)))
    else if pos >= |lines| then Ok(None)
    else if lines[pos] == "" then TakeRows(lines, pos + 1, need)
    else
      match ParseAll(Words(lines[pos]))
      case None => Err("invalid digit found in string")
      case Some(row) => Prepend([row], TakeRows(lines, pos + 1, need - 1))
  }

  lemma PrependTwice(a: seq<seq<int>>, b: seq<seq<int>>, r: Result<Option<(seq<seq<int>>, nat)>>)
    ensures Prepend(a, Prepend(b, r)) == Prepend(a + b, r)
  {
    if r.Ok? && r.value.Some? {
      assert a + (b + r.value.value.0) == (a + b) + r.value.value.0;
    }
  }

  lemma PrependNothing(r: Result<Option<(seq<seq<int>>, nat)>>)
    ensures Prepend([], r) == r
  {
    if r.Ok? && r.value.Some? {
      assert [] + r.value.value.0 == r.value.value.0;
    }
  }

  lemma FilledSplit(lines: seq<string>, pos: nat)
    requires pos < |lines|
    ensures Filled(lines[pos..]) == (if lines[pos] != "" then 1 else 0) + Filled(lines[pos + 1..])
  {
    assert lines[pos..][1..] == lines[pos + 1..];
  }

  /**
   * Past the first line, a successful read goes on as the read of the rest of
   * the lines and stops at the same place, and a read that runs out does too.
   */
  lemma TakeRowsTail(lines: seq<string>, pos: nat, need: nat)
    requires pos < |lines| && need > 0
    ensures var r := TakeRows(lines, pos, need);
      var rest := TakeRows(lines, pos + 1, if lines[pos] == "" then need else need - 1);
      && (r.Ok? && r.value.Some? ==> rest.Ok? && rest.value.Some? && rest.value.value.1 == r.value.value.1)
      && (r == Ok(None) ==> rest == Ok(None))
  {
  }

  /** How many non-empty lines lie between pos and next, by the first line. */
  lemma FilledBetween(lines: seq<string>, pos: nat, next: nat)
    requires pos < next <= |lines|
    ensures Filled(lines[pos..next]) == (if lines[pos] != "" then 1 else 0) + Filled(lines[pos + 1..next])
  {
    FilledSplit(lines[..next], pos);
    assert lines[..next][pos..] == lines[pos..next];
    assert lines[..next][pos + 1..] == lines[pos + 1..next];
  }

  /**
   * A read that gives rows took exactly `need` non-empty lines and stopped
   * right after the last of them.
   */
  lemma {:induction false} TakeRowsCountsLines(lines: seq<string>, pos: nat, need: nat, rows: seq<seq<int>>, next: nat)
    requires pos <= |lines| && TakeRows(lines, pos, need) == Ok(Some((rows, next)))
    ensures next <= |lines| && Filled(lines[pos..next]) == need && (need > 0 ==> lines[next - 1] != "")
    decreases |lines| - pos, need
  {
    if need == 0 {
      assert lines[pos..pos] == [];
    } else {
      var need' := if lines[pos] == "" then need else need - 1;
      var rest := TakeRows(lines, pos + 1, need');
      TakeRowsTail(lines, pos, need);
      var rows' := rest.value.value.0;
      assert rest == Ok(Some((rows', next)));
      TakeRowsCountsLines(lines, pos + 1, need', rows', next);
      TakenThrough(lines, pos, next, need, need');
    }
  }

  /** The count of a read, from the count of its read past the first line. */
  lemma TakenThrough(lines: seq<string>, pos: nat, next: nat, need: nat, need': nat)
    requires pos < next <= |lines| && need > 0 && need' == (if lines[pos] == "" then need else need - 1)
    requires need' == 0 ==> next == pos + 1
    requires need' > 0 ==> Filled(lines[pos + 1..next]) == need' && lines[next - 1] != ""
    ensures Filled(lines[pos..next]) == need && lines[next - 1] != ""
  {
    FilledBetween(lines, pos, next);
    if need' == 0 {
      assert lines[pos + 1..next] == [];
    }
  }

  /** A read that gives `None` found fewer than `need` non-empty lines. */
  lemma {:induction false} TakeRowsRunsOut(lines: seq<string>, pos: nat, need: nat)
    requires pos <= |lines|
    ensures TakeRows(lines, pos, need) == Ok(None) ==> Filled(lines[pos..]) < need
    decreases |lines| - pos, need
  {
    if pos == |lines| {
      assert lines[pos..] == [];
    } else if need > 0 && TakeRows(lines, pos, need) == Ok(None) {
      var need' := if lines[pos] == "" then need else need - 1;
      TakeRowsTail(lines, pos, need);
      TakeRowsRunsOut(lines, pos + 1, need');
      FilledSplit(lines, pos);
    }
  }

  /**
   * The state of the reading loop: `rows` were read from the lines between
   * pos and next, and the read from pos is those rows followed by the read of
   * the rows still missing from next.
   */
  ghost predicate Reading(lines: seq<string>, pos: nat, next: nat, rows: seq<seq<int>>)
  {
    |rows| <= 5 && TakeRows(lines, pos, 5) == Prepend(rows, TakeRows(lines, next, 5 - |rows|))
  }

  lemma ReadStart(lines: seq<string>, pos: nat)
    ensures Reading(lines, pos, pos, [])
  {
    PrependNothing(TakeRows(lines, pos, 5));
  }

  lemma ReadEnd(lines: seq<string>, pos: nat, next: nat, rows: seq<seq<int>>)
    requires next == |lines| && |rows| < 5 && Reading(lines, pos, next, rows)
    ensures TakeRows(lines, pos, 5) == Ok(None)
  {
  }

  lemma ReadBlank(lines: seq<string>, pos: nat, next: nat, rows: seq<seq<int>>)
    requires next < |lines| && lines[next] == "" && |rows| < 5 && Reading(lines, pos, next, rows)
    ensures Reading(lines, pos, next + 1, rows)
  {
  }

  lemma ReadFails(lines: seq<string>, pos: nat, next: nat, rows: seq<seq<int>>)
    requires next < |lines| && lines[next] != "" && |rows| < 5 && Reading(lines, pos, next, rows)
    requires ParseAll(Words(lines[next])).None?
    ensures TakeRows(lines, pos, 5).Err?
  {
  }

  lemma ReadRow(lines: seq<string>, pos: nat, next: nat, rows: seq<seq<int>>)
    requires next < |lines| && lines[next] != "" && |rows| < 5 && Reading(lines, pos, next, rows)
    requires ParseAll(Words(lines[next])).Some?
    ensures Reading(lines, pos, next + 1, rows + [ParseAll(Words(lines[next])).value])
  {
    var row := ParseAll(Words(lines[next])).value;
    PrependTwice(rows, [row], TakeRows(lines, next + 1, 5 - |rows| - 1));
  }

  lemma ReadDone(lines: seq<string>, pos: nat, next: nat, rows: seq<seq<int>>)
    requires |rows| == 5 && Reading(lines, pos, next, rows)
    ensures TakeRows(lines, pos, 5) == Ok(Some((rows, next)))
  {
    assert rows + [] == rows;
  }

  // ---------------------------------------------------------------------
  // The board

  class BingoBoard {
    const spaces: seq<seq<int>>
    var called: seq<seq<bool>>

    ghost predicate Valid()
      reads this
    {
      IsMarks(called)
    }

    constructor (rows: seq<seq<int>>)
      ensures Valid() && spaces == rows && called == NoMarks()
    {
      spaces := rows;
      called := NoMarks();
    }

    /**
     * `from_data_iter`: reads five rows from the lines starting at `pos`, with
     * every mark false. `next` is where the iterator stands afterwards.
     */
    static method FromDataIter(lines: seq<string>, pos: nat) returns (r: Result<Option<BingoBoard>>, next: nat)
      requires pos <= |lines|
      ensures next <= |lines|
      ensures r.Err? <==> TakeRows(lines, pos, 5).Err?
      ensures r == Ok(None) <==> TakeRows(lines, pos, 5) == Ok(None)
      ensures r.Ok? && r.value.Some? ==>
        && fresh(r.value.value) && r.value.value.Valid() && r.value.value.called == NoMarks()
        && TakeRows(lines, pos, 5) == Ok(Some((r.value.value.spaces, next)))
    {
      var rows: seq<seq<int>> := [];
      var taken := 0;
      next := pos;
      ReadStart(lines, pos);
      while taken < 5
        invariant taken == |rows| && pos <= next <= |lines| && Reading(lines, pos, next, rows)
        decreases |lines| - next
      {
        if next == |lines| {
          ReadEnd(lines, pos, next, rows);
          return Ok(None), next;
        }
        var line := lines[next];
        next := next + 1;
        if line == "" {
          ReadBlank(lines, pos, next - 1, rows);
          continue;
        }
        var numbers := ParseAll(Words(line));
        if numbers.None? {
          ReadFails(lines, pos, next - 1, rows);
          return Err("invalid digit found in string"), next;
        }
        ReadRow(lines, pos, next - 1, rows);
        rows := rows + [numbers.value];
        taken := taken + 1;
      }
      ReadDone(lines, pos, next, rows);
      var board := new BingoBoard(rows);
      return Ok(Some(board)), next;
    }

    /** `get_locations`: every value of the board, mapped to where it was last seen. */
    method GetLocations() returns (res: map<int, Cell>)
      ensures res == Locations(spaces)
    {
      res := map[];
      for r := 0 to |spaces|
        invariant res == Locations(spaces[..r])
      {
        var row := spaces[r];
        for c := 0 to |row|
          invariant res == RowInto(Locations(spaces[..r]), row[..c], r)
        {
          assert row[..c + 1][..c] == row[..c];
          res := res[row[c] := (r, c)];
        }
        assert row[..|row|] == row;
        assert spaces[..r + 1][..r] == spaces[..r];
      }
      assert spaces[..|spaces|] == spaces;
    }

    /**
     * `call_value`: a value that is not on the board changes nothing and does
     * not win; otherwise its cell is marked and the call wins when that cell's
     * row or column (or, when allowed, a diagonal through it) is complete.
     */
    method CallValue(value: int, locations: map<int, Cell>, allowDiagonals: bool) returns (bingo: bool)
      requires Valid()
      requires value in locations ==> locations[value].0 < 5 && locations[value].1 < 5
      modifies this
      ensures Valid()
      ensures value !in locations ==> !bingo && called == old(called)
      ensures value in locations ==> called == Mark(old(called), locations[value])
      ensures value in locations ==> var (x, y) := locations[value];
        bingo <==> || RowFull(called, x) || ColFull(called, y)
                   || (allowDiagonals && x == y && DiagFull(called))
                   || (allowDiagonals && x + y == 4 && AntiDiagFull(called))
    {
      if value !in locations {
        return false;
      }
      var (x, y) := locations[value];
      called := called[x := called[x][y := true]];
      if RowFull(called, x) {
        return true;
      } else if ColFull(called, y) {
        return true;
      } else if allowDiagonals && x == y && DiagFull(called) {
        return true;
      } else if allowDiagonals && x + y == 4 && AntiDiagFull(called) {
        return true;
      }
      return false;
    }

    /** `unmarked_sum`: the sum of the values on cells not yet marked. */
    method UnmarkedSum() returns (sum: int)
      requires Valid() && IsBoard(spaces)
      ensures sum == Unmarked(spaces, called)
    {
      sum := 0;
      for row := 0 to 5
        invariant sum == UnmarkedRows(spaces, called, row)
      {
        for col := 0 to 5
          invariant sum == UnmarkedRows(spaces, called, row) + RowUnmarked(spaces[row], called[row], col)
        {
          if !called[row][col] {
            sum := sum + spaces[row][col];
          }
        }
      }
    }
  }

  // ---------------------------------------------------------------------
  // Playing the call order on one board

  /** The marks after calling each value of `calls` in turn on a fresh board. */
  function MarksAfter(spaces: seq<seq<int>>, calls: seq<int>): (r: seq<seq<bool>>)
    requires IsBoard(spaces)
    ensures IsMarks(r)
  {
    if calls == [] then NoMarks()
    else
      var before := MarksAfter(spaces, calls[..|calls| - 1]);
      var v := calls[|calls| - 1];
      if v in Locations(spaces) then
        LocationsInBounds(spaces, v);
        Mark(before, Locations(spaces)[v])
      else before
  }

  /** The last value of `calls` wins: it is on the board and completes its cell's row or column. */
  predicate BingoAt(spaces: seq<seq<int>>, calls: seq<int>)
    requires IsBoard(spaces) && calls != []
  {
    var v := calls[|calls| - 1];
    && v in Locations(spaces)
    && var (x, y) := Locations(spaces)[v];
    LocationsInBounds(spaces, v);
    RowFull(MarksAfter(spaces, calls), x) || ColFull(MarksAfter(spaces, calls), y)
  }

  /** Number of values called, from number k on, until the first bingo. */
  function FirstWinFrom(spaces: seq<seq<int>>, order: seq<int>, k: nat): Option<nat>
    requires IsBoard(spaces)
    decreases |order| - k
  {
    if k >= |order| then None
    else if BingoAt(spaces, order[..k + 1]) then Some(k + 1)
    else FirstWinFrom(spaces, order, k + 1)
  }

  /** How many values are called before the board wins (diagonals not counted). */
  function FirstWin(spaces: seq<seq<int>>, order: seq<int>): Option<nat>
    requires IsBoard(spaces)
  {
    FirstWinFrom(spaces, order, 0)
  }

  lemma {:induction false} FirstWinFromIsFirst(spaces: seq<seq<int>>, order: seq<int>, k: nat)
    requires IsBoard(spaces) && k <= |order|
    ensures var w := FirstWinFrom(spaces, order, k);
      && (w.Some? ==> k < w.value <= |order| && BingoAt(spaces, order[..w.value])
                      && forall m :: k < m < w.value ==> !BingoAt(spaces, order[..m]))
      && (w.None? ==> forall m :: k < m <= |order| ==> !BingoAt(spaces, order[..m]))
    decreases |order| - k
  {
    if k < |order| && !BingoAt(spaces, order[..k + 1]) {
      FirstWinFromIsFirst(spaces, order, k + 1);
    }
  }

  /**
   * `FirstWin` is the length of the shortest prefix of the call order that
   * ends in a bingo, and `None` when no prefix does.
   */
  lemma FirstWinIsFirst(spaces: seq<seq<int>>, order: seq<int>)
    requires IsBoard(spaces)
    ensures var w := FirstWin(spaces, order);
      && (w.Some? ==> 0 < w.value <= |order| && BingoAt(spaces, order[..w.value])
                      && forall m :: 0 < m < w.value ==> !BingoAt(spaces, order[..m]))
      && (w.None? ==> forall m :: 0 < m <= |order| ==> !BingoAt(spaces, order[..m]))
  {
    FirstWinFromIsFirst(spaces, order, 0);
  }

  lemma PlayStep(spaces: seq<seq<int>>, order: seq<int>, i: nat)
    requires IsBoard(spaces) && i < |order|
    ensures var calls := order[..i + 1];
      && calls[..|calls| - 1] == order[..i] && calls[|calls| - 1] == order[i]
  {
  }

  /** The inner loop of both parts: calls the order on one board until it wins. */
  method PlayBoard(board: BingoBoard, order: seq<int>) returns (calls: Option<nat>)
    requires board.Valid() && board.called == NoMarks() && IsBoard(board.spaces)
    modifies board
    ensures board.Valid()
    ensures calls == FirstWin(board.spaces, order)
    ensures calls.Some? ==> calls.value <= |order| && board.called == MarksAfter(board.spaces, order[..calls.value])
  {
    for i := 0 to |order|
      invariant board.Valid()
      invariant board.called == MarksAfter(board.spaces, order[..i])
      invariant FirstWin(board.spaces, order) == FirstWinFrom(board.spaces, order, i)
    {
      PlayStep(board.spaces, order, i);
      var locations := board.GetLocations();
      if order[i] in locations {
        LocationsInBounds(board.spaces, order[i]);
      }
      var bingo := board.CallValue(order[i], locations, false);
      if bingo {
        return Some(i + 1);
      }
    }
    return None;
  }

  // ---------------------------------------------------------------------
  // Choosing the winning board

  /** Part 1 prefers fewer calls, part 2 more. */
  predicate Better(a: nat, b: nat, latest: bool)
  {
    if latest then a > b else a < b
  }

  /**
   * The board chosen by the selection loop: a board that wins replaces the
   * current choice only when it wins strictly earlier (or, for `latest`,
   * strictly later).
   */
  function Select(turns: seq<Option<nat>>, latest: bool): (r: Option<nat>)
    ensures r.Some? ==> r.value < |turns| && turns[r.value].Some?
  {
    if turns == [] then None
    else
      var chosen := Select(turns[..|turns| - 1], latest);
      var t := turns[|turns| - 1];
      if t.Some? && (chosen.None? || Better(t.value, turns[chosen.value].value, latest)) then Some(|turns| - 1)
      else chosen
  }

  /**
   * The chosen board wins, no winning board wins strictly better, and every
   * earlier winning board wins strictly worse, so ties keep the earlier board.
   * Nothing is chosen exactly when no board wins.
   */
  lemma {:induction false} SelectIsExtreme(turns: seq<Option<nat>>, latest: bool)
    ensures var r := Select(turns, latest);
      && (r.None? <==> forall j :: 0 <= j < |turns| ==> turns[j].None?)
      && (r.Some? ==> forall j :: 0 <= j < |turns| && turns[j].Some? ==> !Better(turns[j].value, turns[r.value].value, latest))
      && (r.Some? ==> forall j :: 0 <= j < r.value && turns[j].Some? ==> Better(turns[r.value].value, turns[j].value, latest))
    decreases |turns|
  {
    if turns != [] {
      var init := turns[..|turns| - 1];
      SelectIsExtreme(init, latest);
      assert forall j :: 0 <= j < |init| ==> turns[j] == init[j];
    }
  }

  /** The number of calls each board needs to win. */
  function Turns(order: seq<int>, boards: seq<seq<seq<int>>>): (r: seq<Option<nat>>)
    requires forall i :: 0 <= i < |boards| ==> IsBoard(boards[i])
    ensures |r| == |boards|
  {
    seq(|boards|, i requires 0 <= i < |boards| => FirstWin(boards[i], order))
  }

  /** A board's score after its first `n` calls: the last value called times the unmarked sum. */
  function BoardScore(spaces: seq<seq<int>>, order: seq<int>, n: nat): int
    requires IsBoard(spaces) && 0 < n <= |order|
  {
    Product(order[n - 1], Unmarked(spaces, MarksAfter(spaces, order[..n])))
  }

  /** Score of the chosen board; 0 when no board wins. */
  function GameScore(order: seq<int>, boards: seq<seq<seq<int>>>, latest: bool): int
    requires forall i :: 0 <= i < |boards| ==> IsBoard(boards[i])
  {
    match Select(Turns(order, boards), latest)
    case None => 0
    case Some(i) =>
      FirstWinFromIsFirst(boards[i], order, 0);
      BoardScore(boards[i], order, FirstWin(boards[i], order).value)
  }

  lemma TurnsSnoc(order: seq<int>, boards: seq<seq<seq<int>>>, i: nat)
    requires forall k :: 0 <= k < |boards| ==> IsBoard(boards[k])
    requires i < |boards|
    ensures Turns(order, boards[..i + 1]) == Turns(order, boards[..i]) + [FirstWin(boards[i], order)]
  {
  }

  /**
   * The state of the selection loop after the first i boards: `chosen` is the
   * board selected among them, `best` its number of calls, `score` its score.
   */
  ghost predicate WinnerLoop(order: seq<int>, boards: seq<seq<seq<int>>>, latest: bool, i: nat,
                             chosen: Option<nat>, best: Option<nat>, score: int)
    requires forall k :: 0 <= k < |boards| ==> IsBoard(boards[k])
  {
    && i <= |boards|
    && chosen == Select(Turns(order, boards[..i]), latest)
    && (chosen.Some? ==> chosen.value < i)
    && best == (if chosen.None? then None else FirstWin(boards[chosen.value], order))
    && score == GameScore(order, boards[..i], latest)
  }

  /**
   * One board of the selection loop: when board i wins better than the one
   * chosen so far it becomes the choice, with its own score; otherwise the
   * choice stays.
   */
  lemma WinnerStep(order: seq<int>, boards: seq<seq<seq<int>>>, latest: bool, i: nat,
                   chosen: Option<nat>, best: Option<nat>, score: int, calls: Option<nat>)
    requires forall k :: 0 <= k < |boards| ==> IsBoard(boards[k])
    requires i < |boards| && WinnerLoop(order, boards, latest, i, chosen, best, score)
    requires calls == FirstWin(boards[i], order)
    ensures calls.Some? && (best.None? || Better(calls.value, best.value, latest)) ==>
      0 < calls.value <= |order|
      && WinnerLoop(order, boards, latest, i + 1, Some(i), calls, BoardScore(boards[i], order, calls.value))
    ensures !(calls.Some? && (best.None? || Better(calls.value, best.value, latest))) ==>
      WinnerLoop(order, boards, latest, i + 1, chosen, best, score)
  {
    TurnsSnoc(order, boards, i);
    FirstWinFromIsFirst(boards[i], order, 0);
    assert forall k :: 0 <= k < i ==> boards[..i + 1][k] == boards[..i][k] == boards[k];
  }

  /**
   * The selection loop of both parts: plays every board and keeps the score of
   * the board chosen so far, replacing it only when a board wins strictly
   * earlier (`latest` false) or strictly later (`latest` true).
   */
  method Winner(order: seq<int>, boards: seq<seq<seq<int>>>, latest: bool) returns (score: int)
    requires forall i :: 0 <= i < |boards| ==> IsBoard(boards[i])
    ensures score == GameScore(order, boards, latest)
  {
    var best: Option<nat> := None;
    ghost var chosen: Option<nat> := None;
    score := 0;
    for i := 0 to |boards|
      invariant WinnerLoop(order, boards, latest, i, chosen, best, score)
    {
      var board := new BingoBoard(boards[i]);
      var calls := PlayBoard(board, order);
      WinnerStep(order, boards, latest, i, chosen, best, score, calls);
      if calls.Some? && (best.None? || Better(calls.value, best.value, latest)) {
        var unmarked := board.UnmarkedSum();
        best := calls;
        chosen := Some(i);
        score := Product(order[calls.value - 1], unmarked);
      }
    }
    assert boards[..|boards|] == boards;
  }

  // ---------------------------------------------------------------------
  // The game

  datatype Game = Game(order: seq<int>, boards: seq<seq<seq<int>>>)

  /** `BingoGame::from_data_iter`'s board loop: boards are read until the lines run out. */
  function ParseBoards(lines: seq<string>, pos: nat): (r: Result<seq<seq<seq<int>>>>)
    requires pos <= |lines|
    ensures r.Ok? ==> forall i :: 0 <= i < |r.value| ==> |r.value[i]| == 5
    decreases |lines| - pos
  {
    match TakeRows(lines, pos, 5)
    case Err(e) => Err(e)
    case Ok(None) => Ok([])
    case Ok(Some((rows, next))) =>
      match ParseBoards(lines, next)
      case Err(e) => Err(e)
      case Ok(rest) => Ok([rows] + rest)
  }

  /** `BingoGame::from_data_iter`: the comma-separated call order, then the boards. */
  function ParseGame(data: seq<string>): Result<Game>
  {
    if data == [] then Err("no call order")
    else
      match ParseAll(Split(data[0], ","))
      case None => Err("invalid digit found in string")
      case Some(order) =>
        match ParseBoards(data, 1)
        case Err(e) => Err(e)
        case Ok(boards) => Ok(Game(order, boards))
  }

  /** Every board of a parsed game is 5x5, as `call_value` and `unmarked_sum` index it. */
  predicate Playable(data: seq<string>)
  {
    ParseGame(data).Ok? ==> forall i :: 0 <= i < |ParseGame(data).value.boards| ==> IsBoard(ParseGame(data).value.boards[i])
  }

  /**
   * `solution_impl_1`: parse the game, then the score of the board that wins
   * first. A panic while parsing is the error.
   */
  method SolvePart1(data: seq<string>) returns (r: Result<int>)
    requires Playable(data)
    ensures ParseGame(data).Err? ==> r == Err(ParseGame(data).reason)
    ensures ParseGame(data).Ok? ==> r == Ok(GameScore(ParseGame(data).value.order, ParseGame(data).value.boards, false))
  {
    var game := ParseGame(data);
    if game.Err? {
      return Err(game.reason);
    }
    var score := Winner(game.value.order, game.value.boards, false);
    return Ok(score);
  }

  /** `solution_impl_2`: parse the game, then the score of the board that wins last. */
  method SolvePart2(data: seq<string>) returns (r: Result<int>)
    requires Playable(data)
    ensures ParseGame(data).Err? ==> r == Err(ParseGame(data).reason)
    ensures ParseGame(data).Ok? ==> r == Ok(GameScore(ParseGame(data).value.order, ParseGame(data).value.boards, true))
  {
    var game := ParseGame(data);
    if game.Err? {
      return Err(game.reason);
    }
    var score := Winner(game.value.order, game.value.boards, true);
    return Ok(score);
  }
}
