/**
 * Day 2: steering a submarine with `forward`, `down` and `up` commands, first
 * as plain position changes and then with an `aim` that `forward` follows.
 */
module Day2 {
  import opened Base
  import opened Text

  datatype Command = Forward(amount: int) | Down(amount: int) | Up(amount: int)

  /**
   * One input line: a keyword and an integer separated by one space. Anything
   * else is the "Unexpected command" panic (or a failed `parse().unwrap()`).
   */
  function ParseCommand(line: string): (r: Option<Command>)
    ensures r.Some? <==> IsCommand(Split(line, " "))
    ensures r.Some? ==> Describes(r.value, Split(line, " "))
  {
    var pieces := Split(line, " ");
    if |pieces| != 2 || ParseInt(pieces[1]).None? then None
    else
      var v := ParseInt(pieces[1]).value;
      if pieces[0] == "forward" then Some(Forward(v))
      else if pieces[0] == "down" then Some(Down(v))
      else if pieces[0] == "up" then Some(Up(v))
      else None
  }

  /** The pieces of a line form a command: a keyword and an integer literal. */
  predicate IsCommand(pieces: seq<string>)
  {
    |pieces| == 2 && pieces[0] in Keywords && IsIntLiteral(pieces[1])
  }

  /** `c` is the command that the keyword and number in `pieces` denote. */
  predicate Describes(c: Command, pieces: seq<string>)
  {
    && |pieces| == 2
    && ParseInt(pieces[1]) == Some(c.amount)
    && (c.Forward? <==> pieces[0] == "forward")
    && (c.Down? <==> pieces[0] == "down")
    && (c.Up? <==> pieces[0] == "up")
  }

  const Keywords: set<string> := {"forward", "down", "up"}

  /** A line made of a keyword, one space and an integer literal parses to that command. */
  lemma ParseKeywordLine(keyword: string, number: string)
    requires keyword in Keywords && IsIntLiteral(number)
    ensures var r := ParseCommand(keyword + " " + number);
      && r.Some? && r.value.amount == ParseInt(number).value
      && (r.value.Forward? <==> keyword == "forward")
      && (r.value.Down? <==> keyword == "down")
      && (r.value.Up? <==> keyword == "up")
  {
    KeywordLineSplits(keyword, number);
  }

  /** Such a line splits at its one space into the keyword and the number. */
  lemma KeywordLineSplits(keyword: string, number: string)
    requires keyword in Keywords && IsIntLiteral(number)
    ensures Split(keyword + " " + number, " ") == [keyword, number]
  {
    var line := keyword + " " + number;
    var i := |keyword|;
    assert OccursAt(line, " ", i) by { assert line[i..i + 1] == " "; }
    assert forall k :: 0 <= k < |keyword| ==> keyword[k] != ' ';
    LiteralHasNoSpace(number);
    forall j: nat | j != i
      ensures !OccursAt(line, " ", j)
    {
      if j + 1 <= |line| {
        assert line[j..j + 1] == [line[j]];
        if j < i {
          assert line[j] == keyword[j];
        } else {
          assert line[j] == number[j - i - 1];
        }
      }
    }
    SplitInTwo(line, " ", i);
    assert line[..i] == keyword && line[i + 1..] == number;
  }

  /** An integer literal has no space in it. */
  lemma LiteralHasNoSpace(number: string)
    requires IsIntLiteral(number)
    ensures forall k :: 0 <= k < |number| ==> number[k] != ' '
  {
    forall k | 0 <= k < |number| ensures number[k] != ' ' {
      if k > 0 || (number[0] != '+' && number[0] != '-') {
        var m := if number[0] == '+' || number[0] == '-' then k - 1 else k;
        assert number[k] == Unsigned(number)[m];
      }
    }
  }

  /** Part-1 effect of one command on (horizontal, depth). */
  function Move(p: (int, int), c: Command): (int, int)
  {
    match c
    case Forward(v) => (p.0 + v, p.1)
    case Down(v) => (p.0, p.1 + v)
    case Up(v) => (p.0, p.1 - v)
  }

  /** Position after the part-1 commands, starting from (0, 0). */
  function Position(cmds: seq<Command>): (int, int)
  {
    if cmds == [] then (0, 0) else Move(Position(cmds[..|cmds| - 1]), cmds[|cmds| - 1])
  }

  /** Part-2 effect of one command on (horizontal, depth, aim). */
  function Steer(p: (int, int, int), c: Command): (int, int, int)
  {
    match c
    case Down(v) => (p.0, p.1, p.2 + v)
    case Up(v) => (p.0, p.1, p.2 - v)
    case Forward(v) => (p.0 + v, p.1 + p.2 * v, p.2)
  }

  /** Position and aim after the part-2 commands, starting from (0, 0, 0). */
  function AimedPosition(cmds: seq<Command>): (int, int, int)
  {
    if cmds == [] then (0, 0, 0) else Steer(AimedPosition(cmds[..|cmds| - 1]), cmds[|cmds| - 1])
  }

  /** Sum of all `forward` amounts. */
  function ForwardTotal(cmds: seq<Command>): int
  {
    if cmds == [] then 0
    else ForwardTotal(cmds[..|cmds| - 1]) + (if cmds[|cmds| - 1].Forward? then cmds[|cmds| - 1].amount else 0)
  }

  /** Net `down` minus `up`. */
  function NetDive(cmds: seq<Command>): int
  {
    if cmds == [] then 0
    else NetDive(cmds[..|cmds| - 1]) + match cmds[|cmds| - 1]
      case Forward(_) => 0
      case Down(v) => v
      case Up(v) => -v
  }

  /** Part 1: the horizontal position is the forward total and the depth is the net dive. */
  lemma {:induction false} PositionIsTotals(cmds: seq<Command>)
    ensures Position(cmds) == (ForwardTotal(cmds), NetDive(cmds))
    decreases |cmds|
  {
    if cmds != [] {
      PositionIsTotals(cmds[..|cmds| - 1]);
    }
  }

  /**
   * Part 2 moves horizontally exactly as part 1 does, and its aim is part 1's
   * depth: `down` and `up` change only the aim.
   */
  lemma {:induction false} AimIsPlainDepth(cmds: seq<Command>)
    ensures AimedPosition(cmds).0 == Position(cmds).0 == ForwardTotal(cmds)
    ensures AimedPosition(cmds).2 == Position(cmds).1 == NetDive(cmds)
    decreases |cmds|
  {
    if cmds != [] {
      AimIsPlainDepth(cmds[..|cmds| - 1]);
    }
  }

  /** Part-2 depth: each `forward v` adds v times the net dive of the commands before it. */
  function AimedDepth(cmds: seq<Command>): int
  {
    if cmds == [] then 0
    else
      var init := cmds[..|cmds| - 1];
      AimedDepth(init) + (if cmds[|cmds| - 1].Forward? then NetDive(init) * cmds[|cmds| - 1].amount else 0)
  }

  lemma {:induction false} AimedDepthIsWeighted(cmds: seq<Command>)
    ensures AimedPosition(cmds).1 == AimedDepth(cmds)
    decreases |cmds|
  {
    if cmds != [] {
      var init := cmds[..|cmds| - 1];
      AimedDepthIsWeighted(init);
      AimIsPlainDepth(init);
    }
  }

  /** Parses every line; None when some line is not a command. */
  function ParseCommands(data: seq<string>): (r: Option<seq<Command>>)
    ensures r.Some? <==> forall k :: 0 <= k < |data| ==> ParseCommand(data[k]).Some?
    ensures r.Some? ==> |r.value| == |data|
    ensures r.Some? ==> forall k :: 0 <= k < |data| ==> r.value[k] == ParseCommand(data[k]).value
  {
    if data == [] then Some([])
    else
      var init := data[..|data| - 1];
      assert forall k :: 0 <= k < |init| ==> init[k] == data[k];
      match ParseCommand(data[|data| - 1])
      case None => None
      case Some(c) =>
        match ParseCommands(init)
        case None => None
        case Some(cs) => Some(cs + [c])
  }

  /** The part-1 loop on lines: None once a line fails to parse, else the position so far. */
  function Run1(data: seq<string>): Option<(int, int)>
  {
    if data == [] then Some((0, 0))
    else
      match Run1(data[..|data| - 1])
      case None => None
      case Some(p) =>
        match ParseCommand(data[|data| - 1])
        case None => None
        case Some(c) => Some(Move(p, c))
  }

  /** The part-2 loop on lines. */
  function Run2(data: seq<string>): Option<(int, int, int)>
  {
    if data == [] then Some((0, 0, 0))
    else
      match Run2(data[..|data| - 1])
      case None => None
      case Some(p) =>
        match ParseCommand(data[|data| - 1])
        case None => None
        case Some(c) => Some(Steer(p, c))
  }

  lemma RunStep1(data: seq<string>, i: nat)
    requires i < |data|
    ensures Run1(data[..i + 1]) == match Run1(data[..i])
      case None => None
      case Some(p) => match ParseCommand(data[i]) case None => None case Some(c) => Some(Move(p, c))
  {
    PrefixStep(data, i);
  }

  lemma RunStep2(data: seq<string>, i: nat)
    requires i < |data|
    ensures Run2(data[..i + 1]) == match Run2(data[..i])
      case None => None
      case Some(p) => match ParseCommand(data[i]) case None => None case Some(c) => Some(Steer(p, c))
  {
    PrefixStep(data, i);
  }

  /** Once a prefix of the lines fails, the whole input fails. */
  lemma {:induction false} RunFailsOnward(data: seq<string>, i: nat)
    requires i <= |data|
    ensures Run1(data[..i]).None? ==> Run1(data).None?
    ensures Run2(data[..i]).None? ==> Run2(data).None?
    decreases |data| - i
  {
    if i < |data| {
      RunStep1(data, i);
      RunStep2(data, i);
      RunFailsOnward(data, i + 1);
    } else {
      assert data[..i] == data;
    }
  }

  /**
   * The loops fail exactly when some line is not a command; otherwise they
   * end at the positions of the parsed commands.
   */
  lemma {:induction false} RunsFollowCommands(data: seq<string>)
    ensures Run1(data).Some? <==> ParseCommands(data).Some?
    ensures Run2(data).Some? <==> ParseCommands(data).Some?
    ensures ParseCommands(data).Some? ==> Run1(data).value == Position(ParseCommands(data).value)
    ensures ParseCommands(data).Some? ==> Run2(data).value == AimedPosition(ParseCommands(data).value)
    decreases |data|
  {
    if data != [] {
      var init := data[..|data| - 1];
      RunsFollowCommands(init);
      if ParseCommands(data).Some? {
        var cmds := ParseCommands(data).value;
        assert ParseCommands(init) == Some(cmds[..|cmds| - 1]);
      }
    }
  }

  /** A line that is not a command, after lines that were, fails the whole input. */
  lemma StopsAt(data: seq<string>, i: nat)
    requires i < |data| && ParseCommand(data[i]).None?
    requires Run1(data[..i]).Some? || Run2(data[..i]).Some?
    ensures ParseCommands(data).None?
  {
    RunStep1(data, i);
    RunStep2(data, i);
    RunFailsOnward(data, i + 1);
    RunsFollowCommands(data);
  }

  /** Where the part-1 loop ends, when every line parsed. */
  lemma Part1Ends(data: seq<string>, x: int, y: int)
    requires Run1(data) == Some((x, y))
    ensures ParseCommands(data).Some?
    ensures x == ForwardTotal(ParseCommands(data).value) && y == NetDive(ParseCommands(data).value)
  {
    RunsFollowCommands(data);
    PositionIsTotals(ParseCommands(data).value);
  }

  /** Where the part-2 loop ends, when every line parsed. */
  lemma Part2Ends(data: seq<string>, x: int, y: int, aim: int)
    requires Run2(data) == Some((x, y, aim))
    ensures ParseCommands(data).Some?
    ensures x == ForwardTotal(ParseCommands(data).value) && y == AimedDepth(ParseCommands(data).value)
  {
    RunsFollowCommands(data);
    AimIsPlainDepth(ParseCommands(data).value);
    AimedDepthIsWeighted(ParseCommands(data).value);
  }

  /** Part 1: x * y after the plain commands; None where the source panics. */
  method SolvePart1(data: seq<string>) returns (r: Option<int>)
    ensures r.Some? <==> ParseCommands(data).Some?
    ensures r.Some? ==> r.value == ForwardTotal(ParseCommands(data).value) * NetDive(ParseCommands(data).value)
  {
    var x, y := 0, 0;
    for i := 0 to |data|
      invariant Run1(data[..i]) == Some((x, y))
    {
      var parsed := ParseCommand(data[i]);
      if parsed.None? {
        StopsAt(data, i);
        return None;
      }
      assert Run1(data[..i + 1]) == Some(Move((x, y), parsed.value)) by {
        RunStep1(data, i);
      }
      // the body's match on the command is `Move`
      var next := Move((x, y), parsed.value);
      x, y := next.0, next.1;
    }
    assert data[..|data|] == data;
    Part1Ends(data, x, y);
    return Some(x * y);
  }

  /** Part 2: x * y after the aimed commands; None where the source panics. */
  method SolvePart2(data: seq<string>) returns (r: Option<int>)
    ensures r.Some? <==> ParseCommands(data).Some?
    ensures r.Some? ==> r.value == ForwardTotal(ParseCommands(data).value) * AimedDepth(ParseCommands(data).value)
  {
    var x, y, aim := 0, 0, 0;
    for i := 0 to |data|
      invariant Run2(data[..i]) == Some((x, y, aim))
    {
      var parsed := ParseCommand(data[i]);
      if parsed.None? {
        StopsAt(data, i);
        return None;
      }
      assert Run2(data[..i + 1]) == Some(Steer((x, y, aim), parsed.value)) by {
        RunStep2(data, i);
      }
      // the body's match on the command is `Steer`
      var next := Steer((x, y, aim), parsed.value);
      x, y, aim := next.0, next.1, next.2;
    }
    assert data[..|data|] == data;
    Part2Ends(data, x, y, aim);
    return Some(x * y);
  }
}
