/**
 * Day 8: seven-segment displays with scrambled wires. Each line lists the ten
 * digit patterns of one display and then four output patterns; the wiring is
 * deduced from the patterns' lengths and set inclusions.
 */
module Day8 {
  import opened Base
  import opened Text

  /** `to_set`: the letters of a pattern, order and repetition forgotten. */
  function ToSet(s: string): (r: set<char>)
    ensures forall c :: c in r <==> c in s
  {
    set c | c in s
  }

  /** One line: the ten patterns before " | " and the outputs after it. */
  datatype Splits = Splits(inputs: seq<string>, outputs: seq<string>)

  /**
   * `Splits::from_input`: exactly one " | " and exactly ten patterns before it;
   * anything else is one of the source's asserts (None).
   */
  function FromInput(s: string): (r: Option<Splits>)
    ensures r.Some? <==> |Split(s, " | ")| == 2 && |Split(Split(s, " | ")[0], " ")| == 10
    ensures r.Some? ==> r.value.inputs == Split(Split(s, " | ")[0], " ")
    ensures r.Some? ==> r.value.outputs == Split(Split(s, " | ")[1], " ")
  {
    var splits := Split(s, " | ");
    if |splits| != 2 then None
    else
      var inputs := Split(splits[0], " ");
      if |inputs| != 10 then None
      else Some(Splits(inputs, Split(splits[1], " ")))
  }

  // ---------------------------------------------------------------------
  // derive_mappings, as a specification
  // ---------------------------------------------------------------------

  /** The two maps `derive_mappings` fills: pattern -> digit (`res`) and digit -> pattern (`res_rev`). */
  datatype Tables = Tables(res: map<set<char>, int>, rev: map<int, set<char>>)

  function Record(t: Tables, s: string, digit: int): Tables
  {
    Tables(t.res[ToSet(s) := digit], t.rev[digit := ToSet(s)])
  }

  /** The digit a pattern's byte length alone reveals: lengths 2, 4, 3 and 7 are 1, 4, 7 and 8. */
  function EasyDigit(len: int): Option<int>
  {
    if len == 2 then Some(1)
    else if len == 4 then Some(4)
    else if len == 3 then Some(7)
    else if len == 7 then Some(8)
    else None
  }

  /** The first loop: every pattern with a revealing length is recorded, a later one overwriting an earlier. */
  function Easy(inputs: seq<string>): (t: Tables)
    ensures forall d :: d in t.rev ==> d in {1, 4, 7, 8}
  {
    if inputs == [] then Tables(map[], map[])
    else
      var t := Easy(inputs[..|inputs| - 1]);
      var s := inputs[|inputs| - 1];
      match EasyDigit(Utf8Len(s))
      case None => t
      case Some(d) => Record(t, s, d)
  }

  /**
   * One deduction loop: the first pattern of the given length (not yet
   * recorded, when `unrecorded`) whose letters include `needs`.
   */
  datatype Rule = Rule(len: nat, unrecorded: bool, needs: set<char>)

  predicate Fits(rule: Rule, t: Tables, s: string)
  {
    Utf8Len(s) == rule.len && (!rule.unrecorded || ToSet(s) !in t.res) && rule.needs <= ToSet(s)
  }

  function FirstFitFrom(inputs: seq<string>, rule: Rule, t: Tables, i: nat): (r: Option<nat>)
    requires i <= |inputs|
    ensures r.Some? ==> i <= r.value < |inputs| && Fits(rule, t, inputs[r.value])
    ensures r.Some? ==> forall j :: i <= j < r.value ==> !Fits(rule, t, inputs[j])
    ensures r.None? ==> forall j :: i <= j < |inputs| ==> !Fits(rule, t, inputs[j])
    decreases |inputs| - i
  {
    if i == |inputs| then None
    else if Fits(rule, t, inputs[i]) then Some(i)
    else FirstFitFrom(inputs, rule, t, i + 1)
  }

  function FirstFit(inputs: seq<string>, rule: Rule, t: Tables): Option<nat>
  {
    FirstFitFrom(inputs, rule, t, 0)
  }

  /** A deduction loop records the digit for the first fitting pattern, and changes nothing if none fits. */
  function Infer(t: Tables, inputs: seq<string>, digit: int, rule: Rule): (r: Tables)
    ensures forall d :: d in t.rev ==> d in r.rev && (d != digit ==> r.rev[d] == t.rev[d])
    ensures forall d :: d in r.rev ==> d in t.rev || d == digit
    ensures digit in r.rev <==> digit in t.rev || FirstFit(inputs, rule, t).Some?
  {
    match FirstFit(inputs, rule, t)
    case None => t
    case Some(i) => Record(t, inputs[i], digit)
  }

  /**
   * The maps after the deductions of 6, 9, 0, 5, 3 and 2, or None when one of
   * the asserts up to and including the one for 3 fails.
   */
  function Stages(inputs: seq<string>): Option<Tables>
  {
    var t0 := Easy(inputs);
    if !(1 in t0.rev && 4 in t0.rev && 7 in t0.rev && 8 in t0.rev) then None
    else FromSix(t0, inputs)
  }

  /** 6 is the first length-6 pattern containing the letters of 8 that 7 lacks. */
  function FromSix(t0: Tables, inputs: seq<string>): Option<Tables>
    requires 1 in t0.rev && 4 in t0.rev && 7 in t0.rev && 8 in t0.rev
  {
    var t1 := Infer(t0, inputs, 6, Rule(6, false, t0.rev[8] - t0.rev[7]));
    if 6 !in t1.rev then None
    else FromNine(t1, inputs, t1.rev[4] - t1.rev[1])
  }

  /** 9 is the first unrecorded length-6 pattern containing the letters of 4 that 1 lacks (`bd`). */
  function FromNine(t1: Tables, inputs: seq<string>, bd: set<char>): Option<Tables>
    requires 1 in t1.rev
  {
    var t2 := Infer(t1, inputs, 9, Rule(6, true, bd));
    if 9 !in t2.rev then None
    else FromZero(t2, inputs, bd)
  }

  /** 0 is the first length-6 pattern still unrecorded. */
  function FromZero(t2: Tables, inputs: seq<string>, bd: set<char>): Option<Tables>
    requires 1 in t2.rev
  {
    var t3 := Infer(t2, inputs, 0, Rule(6, true, {}));
    if 0 !in t3.rev then None
    else FromFive(t3, inputs, bd)
  }

  /** 5 is the first length-5 pattern containing `bd`, recorded or not. */
  function FromFive(t3: Tables, inputs: seq<string>, bd: set<char>): Option<Tables>
    requires 1 in t3.rev
  {
    var t4 := Infer(t3, inputs, 5, Rule(5, false, bd));
    if 5 !in t4.rev then None
    else FromThree(t4, inputs)
  }

  /** 3 is the first unrecorded length-5 pattern containing the letters of 1; 2 is the next unrecorded one. */
  function FromThree(t4: Tables, inputs: seq<string>): Option<Tables>
    requires 1 in t4.rev
  {
    var t5 := Infer(t4, inputs, 3, Rule(5, true, t4.rev[1]));
    if 3 !in t5.rev then None
    else Some(Infer(t5, inputs, 2, Rule(5, true, {})))
  }

  /** `derive_mappings` as written: its last assert tests for 3 again, so a missing 2 is not reported. */
  function DeriveAsWritten(inputs: seq<string>): Option<map<set<char>, int>>
  {
    match Stages(inputs)
    case None => None
    case Some(t) => if 3 in t.rev then Some(t.res) else None
  }

  /** `derive_mappings` with its last assert testing for 2, as its message says. */
  function Derive(inputs: seq<string>): (r: Option<map<set<char>, int>>)
    ensures r.Some? <==> Stages(inputs).Some? && 2 in Stages(inputs).value.rev
  {
    match Stages(inputs)
    case None => None
    case Some(t) => if 2 in t.rev then Some(t.res) else None
  }

  /** After the deduction of 3 the map always holds 3, so the as-written last assert can never fail. */
  lemma ThreeKept(t4: Tables, inputs: seq<string>)
    requires 1 in t4.rev
    ensures FromThree(t4, inputs).Some? ==> 3 in FromThree(t4, inputs).value.rev
  {
  }

  lemma {:induction false} StagesKeepThree(inputs: seq<string>)
    ensures Stages(inputs).Some? ==> 3 in Stages(inputs).value.rev
  {
    var t0 := Easy(inputs);
    if Stages(inputs).Some? {
      var t1 := Infer(t0, inputs, 6, Rule(6, false, t0.rev[8] - t0.rev[7]));
      var bd := t1.rev[4] - t1.rev[1];
      var t2 := Infer(t1, inputs, 9, Rule(6, true, bd));
      var t3 := Infer(t2, inputs, 0, Rule(6, true, {}));
      var t4 := Infer(t3, inputs, 5, Rule(5, false, bd));
      assert Stages(inputs) == FromThree(t4, inputs);
      ThreeKept(t4, inputs);
    }
  }

  /** The as-written check accepts every input that got past the deduction of 3, whether 2 was found or not. */
  lemma AsWrittenIgnoresTwo(inputs: seq<string>)
    ensures DeriveAsWritten(inputs).Some? <==> Stages(inputs).Some?
    ensures Stages(inputs).Some? && 2 !in Stages(inputs).value.rev ==>
      DeriveAsWritten(inputs).Some? && Derive(inputs).None?
  {
    StagesKeepThree(inputs);
  }

  // ---------------------------------------------------------------------
  // The deduction is right for every wiring
  // ---------------------------------------------------------------------

  /** Segments a..g are 0..6; the segments each digit lights on an unscrambled display. */
  function Std(d: int): set<int>
  {
    match d
    case 0 => {0, 1, 2, 4, 5, 6}
    case 1 => {2, 5}
    case 2 => {0, 2, 3, 4, 6}
    case 3 => {0, 2, 3, 5, 6}
    case 4 => {1, 2, 3, 5}
    case 5 => {0, 1, 3, 5, 6}
    case 6 => {0, 1, 3, 4, 5, 6}
    case 7 => {0, 2, 5}
    case 8 => {0, 1, 2, 3, 4, 5, 6}
    case 9 => {0, 1, 2, 3, 5, 6}
    case _ => {}
  }

  /** The number of segments digit d lights. */
  function StdLen(d: int): nat
  {
    match d
    case 0 => 6
    case 1 => 2
    case 2 => 5
    case 3 => 5
    case 4 => 4
    case 5 => 5
    case 6 => 6
    case 7 => 3
    case 8 => 7
    case 9 => 6
    case _ => 0
  }

  /**
   * A scrambled wiring: wires[k] is the letter that drives segment k; no letter
   * drives two, and the letters are ASCII (the puzzle's are `a` to `g`).
   */
  predicate IsWiring(wires: seq<char>)
  {
    |wires| == 7 && (forall i, j :: 0 <= i < j < 7 ==> wires[i] != wires[j])
    && forall k :: 0 <= k < 7 ==> IsAscii(wires[k])
  }

  /** The letters a set of segments shows under a wiring. */
  function Img(wires: seq<char>, segments: set<int>): set<char>
  {
    set k | k in segments && 0 <= k < |wires| :: wires[k]
  }

  /** The pattern s is what digit d looks like under the wiring. */
  predicate Shows(s: string, wires: seq<char>, d: int)
  {
    0 <= d < 10 && |s| == StdLen(d) && ToSet(s) == Img(wires, Std(d))
  }

  /** A pattern that shows a digit has as many bytes as the digit has segments. */
  lemma ShowsLength(s: string, wires: seq<char>, d: int)
    requires IsWiring(wires) && Shows(s, wires, d)
    ensures Utf8Len(s) == StdLen(d)
  {
    forall k | 0 <= k < |s|
      ensures IsAscii(s[k])
    {
      assert s[k] in ToSet(s);
    }
  }

  /** labels lists every digit 0..9 exactly once. */
  predicate IsDigitPermutation(labels: seq<int>)
  {
    |labels| == 10
    && (forall j :: 0 <= j < 10 ==> 0 <= labels[j] < 10)
    && (forall i, j :: 0 <= i < j < 10 ==> labels[i] != labels[j])
    && (forall d :: 0 <= d < 10 ==> d in labels)
  }

  /** Ten patterns from one display: input j is digit labels[j] under the wiring. */
  predicate Shown(inputs: seq<string>, wires: seq<char>, labels: seq<int>)
  {
    IsWiring(wires) && |inputs| == 10 && |labels| == 10
    && forall j :: 0 <= j < 10 ==> Shows(inputs[j], wires, labels[j])
  }

  /** The ten patterns of a display, one for each digit, in any order. */
  predicate Relabelled(inputs: seq<string>, wires: seq<char>, labels: seq<int>)
  {
    Shown(inputs, wires, labels) && IsDigitPermutation(labels)
  }

  /** Inclusion of segment sets survives the wiring, in both directions. */
  lemma ImgSubset(wires: seq<char>, a: set<int>, b: set<int>)
    requires IsWiring(wires)
    requires forall k :: k in a ==> 0 <= k < 7
    requires forall k :: k in b ==> 0 <= k < 7
    ensures Img(wires, a) <= Img(wires, b) <==> a <= b
  {
    if Img(wires, a) <= Img(wires, b) {
      forall k | k in a
        ensures k in b
      {
        assert wires[k] in Img(wires, a);
        var k' :| k' in b && 0 <= k' < |wires| && wires[k'] == wires[k];
        assert k' == k;
      }
    }
  }

  lemma ImgDiff(wires: seq<char>, a: set<int>, b: set<int>)
    requires IsWiring(wires)
    requires forall k :: k in a ==> 0 <= k < 7
    requires forall k :: k in b ==> 0 <= k < 7
    ensures Img(wires, a) - Img(wires, b) == Img(wires, a - b)
  {
    forall c | c in Img(wires, a) - Img(wires, b)
      ensures c in Img(wires, a - b)
    {
      var k :| k in a && 0 <= k < |wires| && wires[k] == c;
      assert k !in b;
    }
    forall c | c in Img(wires, a - b)
      ensures c in Img(wires, a) - Img(wires, b)
    {
      var k :| k in a - b && 0 <= k < |wires| && wires[k] == c;
      assert forall k' :: k' in b && 0 <= k' < |wires| ==> wires[k'] != c;
    }
  }

  lemma StdInRange(d: int)
    ensures forall k :: k in Std(d) ==> 0 <= k < 7
  {
  }

  /** Different digits light different segments. */
  lemma StdDistinct(d: int, e: int)
    requires 0 <= d < 10 && 0 <= e < 10 && d != e
    ensures Std(d) != Std(e)
  {
    var witnesses := [
      [0, 0, 1, 1, 0, 2, 2, 1, 3, 3],
      [0, 0, 0, 0, 1, 0, 0, 0, 0, 0],
      [1, 0, 0, 4, 0, 1, 1, 3, 1, 1],
      [1, 0, 4, 0, 0, 1, 1, 3, 1, 1],
      [0, 1, 0, 0, 0, 0, 0, 0, 0, 0],
      [2, 0, 1, 1, 0, 0, 4, 1, 2, 2],
      [2, 0, 1, 1, 0, 4, 0, 1, 2, 2],
      [1, 0, 3, 3, 0, 1, 1, 0, 1, 1],
      [3, 0, 1, 1, 0, 2, 2, 1, 0, 4],
      [3, 0, 1, 1, 0, 2, 2, 1, 4, 0]
    ];
    var w := witnesses[d][e];
    assert (w in Std(d)) != (w in Std(e));
  }

  /** Different digits show different letter sets under a wiring. */
  lemma ImgDistinct(wires: seq<char>, d: int, e: int)
    requires IsWiring(wires) && 0 <= d < 10 && 0 <= e < 10 && d != e
    ensures Img(wires, Std(d)) != Img(wires, Std(e))
  {
    StdDistinct(d, e);
    StdInRange(d);
    StdInRange(e);
    if Img(wires, Std(d)) == Img(wires, Std(e)) {
      ImgSubset(wires, Std(d), Std(e));
      ImgSubset(wires, Std(e), Std(d));
    }
  }

  /**
   * The maps record exactly the digits in D, each with the letters it shows
   * under the wiring, in both directions.
   */
  ghost predicate Holds(t: Tables, wires: seq<char>, D: set<int>)
  {
    (forall d :: d in D ==> 0 <= d < 10)
    && (forall d :: d in t.rev <==> d in D)
    && (forall d :: d in D ==> t.rev[d] == Img(wires, Std(d)))
    && (forall d :: d in D ==> Img(wires, Std(d)) in t.res && t.res[Img(wires, Std(d))] == d)
    && (forall x :: x in t.res ==> exists d :: d in D && x == Img(wires, Std(d)))
  }

  lemma HoldsEmpty(wires: seq<char>)
    ensures Holds(Tables(map[], map[]), wires, {})
  {
  }

  /** Recording a new digit under its own pattern keeps the maps exact. */
  lemma RecordHolds(t: Tables, wires: seq<char>, D: set<int>, s: string, d: int)
    requires IsWiring(wires) && Holds(t, wires, D)
    requires 0 <= d < 10 && ToSet(s) == Img(wires, Std(d))
    ensures Holds(Record(t, s, d), wires, D + {d})
  {
    var r := Record(t, s, d);
    forall e | e in D && e != d
      ensures Img(wires, Std(e)) in r.res && r.res[Img(wires, Std(e))] == e
    {
      ImgDistinct(wires, d, e);
    }
    forall x | x in r.res
      ensures exists e :: e in D + {d} && x == Img(wires, Std(e))
    {
      if x != ToSet(s) {
        var e :| e in D && x == Img(wires, Std(e));
        assert e in D + {d};
      } else {
        assert d in D + {d};
      }
    }
  }

  /** A recorded pattern is one of a recorded digit: membership in `res` tells whether a digit was recorded. */
  lemma RecordedIff(t: Tables, wires: seq<char>, D: set<int>, d: int)
    requires IsWiring(wires) && Holds(t, wires, D) && 0 <= d < 10
    ensures Img(wires, Std(d)) in t.res <==> d in D
  {
    if Img(wires, Std(d)) in t.res {
      var e :| e in D && Img(wires, Std(d)) == Img(wires, Std(e));
      if e != d {
        ImgDistinct(wires, d, e);
      }
    }
  }

  /** The digits among labels that the first loop recognises by length. */
  function EasyLabels(labels: seq<int>): set<int>
  {
    if labels == [] then {}
    else
      var l := labels[|labels| - 1];
      EasyLabels(labels[..|labels| - 1]) + (if l in {1, 4, 7, 8} then {l} else {})
  }

  lemma {:induction false} EasyLabelsMembers(labels: seq<int>)
    ensures forall d :: d in EasyLabels(labels) <==> d in labels && d in {1, 4, 7, 8}
    decreases |labels|
  {
    if labels != [] {
      var init := labels[..|labels| - 1];
      EasyLabelsMembers(init);
      assert labels == init + [labels[|labels| - 1]];
    }
  }

  lemma EasyDigitOfShown(d: int)
    requires 0 <= d < 10
    ensures EasyDigit(StdLen(d)) == if d in {1, 4, 7, 8} then Some(d) else None
  {
  }

  /** After the first loop over the first n patterns, exactly the recognisable digits among them are recorded. */
  lemma {:induction false} EasyHolds(inputs: seq<string>, wires: seq<char>, labels: seq<int>, n: nat)
    requires Shown(inputs, wires, labels) && n <= 10
    ensures Holds(Easy(inputs[..n]), wires, EasyLabels(labels[..n]))
  {
    if n == 0 {
      assert inputs[..0] == [];
      assert labels[..0] == [];
    } else {
      EasyHolds(inputs, wires, labels, n - 1);
      assert inputs[..n][..n - 1] == inputs[..n - 1];
      assert labels[..n][..n - 1] == labels[..n - 1];
      var t := Easy(inputs[..n - 1]);
      var D := EasyLabels(labels[..n - 1]);
      var d := labels[n - 1];
      assert Shows(inputs[n - 1], wires, d);
      ShowsLength(inputs[n - 1], wires, d);
      EasyDigitOfShown(d);
      if d in {1, 4, 7, 8} {
        assert Easy(inputs[..n]) == Record(t, inputs[n - 1], d);
        assert EasyLabels(labels[..n]) == D + {d};
        RecordHolds(t, wires, D, inputs[n - 1], d);
      } else {
        assert Easy(inputs[..n]) == t;
        assert EasyLabels(labels[..n]) == D;
      }
    }
  }

  /** When 1, 4, 7 and 8 are all shown, the first loop records exactly those. */
  lemma EasyComplete(inputs: seq<string>, wires: seq<char>, labels: seq<int>)
    requires Shown(inputs, wires, labels)
    requires 1 in labels && 4 in labels && 7 in labels && 8 in labels
    ensures Holds(Easy(inputs), wires, {1, 4, 7, 8})
  {
    EasyHolds(inputs, wires, labels, 10);
    assert inputs[..10] == inputs;
    assert labels[..10] == labels;
    EasyLabelsAll(labels);
  }

  lemma EasyLabelsAll(labels: seq<int>)
    requires 1 in labels && 4 in labels && 7 in labels && 8 in labels
    ensures EasyLabels(labels) == {1, 4, 7, 8}
  {
    EasyLabelsMembers(labels);
    forall d
      ensures d in EasyLabels(labels) <==> d in {1, 4, 7, 8}
    {
      if d in {1, 4, 7, 8} {
        assert d in labels;
      }
    }
  }

  /** A rule, read on the unscrambled digits: digit l would fit it. */
  predicate StdFits(len: nat, unrecorded: bool, D: set<int>, needs: set<int>, l: int)
  {
    StdLen(l) == len && (!unrecorded || l !in D) && needs <= Std(l)
  }

  /** A pattern fits a rule exactly when the digit it shows fits the rule on the unscrambled display. */
  lemma FitsShown(inputs: seq<string>, wires: seq<char>, labels: seq<int>, t: Tables, D: set<int>,
                  rule: Rule, needs: set<int>, target: int)
    requires Shown(inputs, wires, labels) && Holds(t, wires, D)
    requires forall k :: k in needs ==> 0 <= k < 7
    requires rule.needs == Img(wires, needs)
    requires forall l :: 0 <= l < 10 ==> (StdFits(rule.len, rule.unrecorded, D, needs, l) <==> l == target)
    ensures forall j :: 0 <= j < 10 ==> (Fits(rule, t, inputs[j]) <==> labels[j] == target)
  {
    forall j | 0 <= j < 10
      ensures Fits(rule, t, inputs[j]) <==> labels[j] == target
    {
      var l := labels[j];
      StdInRange(l);
      ImgSubset(wires, needs, Std(l));
      RecordedIff(t, wires, D, l);
      ShowsLength(inputs[j], wires, l);
      assert Fits(rule, t, inputs[j]) <==> StdFits(rule.len, rule.unrecorded, D, needs, l);
    }
  }

  /**
   * When exactly one digit fits a rule on the unscrambled display and the
   * display shows it, the deduction loop records that digit with its own
   * pattern, in whatever order the patterns come.
   */
  lemma RuleSelects(inputs: seq<string>, wires: seq<char>, labels: seq<int>, t: Tables, D: set<int>,
                    rule: Rule, needs: set<int>, target: int, D': set<int>)
    requires Shown(inputs, wires, labels) && Holds(t, wires, D)
    requires forall k :: k in needs ==> 0 <= k < 7
    requires rule.needs == Img(wires, needs)
    requires 0 <= target < 10 && target in labels
    requires forall l :: 0 <= l < 10 ==> (StdFits(rule.len, rule.unrecorded, D, needs, l) <==> l == target)
    requires D' == D + {target}
    ensures Holds(Infer(t, inputs, target, rule), wires, D')
  {
    FitsShown(inputs, wires, labels, t, D, rule, needs, target);
    var jt :| 0 <= jt < |labels| && labels[jt] == target;
    assert Fits(rule, t, inputs[jt]);
    var found := FirstFit(inputs, rule, t).value;
    RecordHolds(t, wires, D, inputs[found], target);
  }

  /** When the digit that would fit is not shown, the deduction loop finds nothing. */
  lemma RuleFindsNothing(inputs: seq<string>, wires: seq<char>, labels: seq<int>, t: Tables, D: set<int>,
                         rule: Rule, needs: set<int>, target: int)
    requires Shown(inputs, wires, labels) && Holds(t, wires, D)
    requires forall k :: k in needs ==> 0 <= k < 7
    requires rule.needs == Img(wires, needs)
    requires 0 <= target < 10 && target !in labels
    requires forall l :: 0 <= l < 10 ==> (StdFits(rule.len, rule.unrecorded, D, needs, l) <==> l == target)
    ensures FirstFit(inputs, rule, t).None?
  {
    FitsShown(inputs, wires, labels, t, D, rule, needs, target);
    assert forall j :: 0 <= j < 10 ==> labels[j] != target;
  }

  /**
   * For the ten patterns of any wiring, in any order, `derive_mappings`
   * succeeds and maps every pattern to the digit it shows, and maps nothing else.
   */
  lemma DeriveIsCorrect(inputs: seq<string>, wires: seq<char>, labels: seq<int>)
    requires Relabelled(inputs, wires, labels)
    ensures Derive(inputs).Some?
    ensures forall j :: 0 <= j < 10 ==>
      ToSet(inputs[j]) in Derive(inputs).value && Derive(inputs).value[ToSet(inputs[j])] == labels[j]
    ensures forall x :: x in Derive(inputs).value ==> exists d :: 0 <= d < 10 && x == Img(wires, Std(d))
    ensures forall d :: 0 <= d < 10 ==>
      Img(wires, Std(d)) in Derive(inputs).value && Derive(inputs).value[Img(wires, Std(d))] == d
  {
    assert 2 in labels;
    StagesHold(inputs, wires, labels);
    AllRecorded(inputs, wires, labels, Stages(inputs).value);
  }

  /**
   * The as-written final check is wrong: a list of patterns that shows every
   * digit but 2 (one of them twice) gets past it, while the corrected check
   * refuses it.
   */
  lemma MissingTwoAccepted(inputs: seq<string>, wires: seq<char>, labels: seq<int>)
    requires Shown(inputs, wires, labels)
    requires forall d :: 0 <= d < 10 && d != 2 ==> d in labels
    requires 2 !in labels
    ensures DeriveAsWritten(inputs).Some?
    ensures Derive(inputs).None?
  {
    StagesFindTwo(inputs, wires, labels);
    AsWrittenIgnoresTwo(inputs);
  }

  /** When every digit but perhaps 2 is shown, every stage up to 3 succeeds and records the digits it names. */
  lemma StagesHold(inputs: seq<string>, wires: seq<char>, labels: seq<int>)
    requires Shown(inputs, wires, labels)
    requires forall d :: 0 <= d < 10 && d != 2 ==> d in labels
    ensures Stages(inputs).Some?
    ensures Holds(Stages(inputs).value, wires, Final(labels))
  {
    StdInRange(1); StdInRange(4); StdInRange(7); StdInRange(8);
    var t0 := Easy(inputs);
    assert 1 in labels && 4 in labels && 7 in labels && 8 in labels;
    EasyComplete(inputs, wires, labels);
    SixOnward(inputs, wires, labels, t0);
  }

  /** The stages record 2 exactly when the display shows it. */
  lemma StagesFindTwo(inputs: seq<string>, wires: seq<char>, labels: seq<int>)
    requires Shown(inputs, wires, labels)
    requires forall d :: 0 <= d < 10 && d != 2 ==> d in labels
    ensures Stages(inputs).Some?
    ensures 2 in Stages(inputs).value.rev <==> 2 in labels
  {
    StagesHold(inputs, wires, labels);
    RecordedOnly(Stages(inputs).value, wires, Final(labels), 2);
    FinalHasTwo(labels);
  }

  lemma FinalHasTwo(labels: seq<int>)
    ensures 2 in Final(labels) <==> 2 in labels
  {
  }

  /** The recorded digits are those of D. */
  lemma RecordedOnly(t: Tables, wires: seq<char>, D: set<int>, d: int)
    requires Holds(t, wires, D)
    ensures d in t.rev <==> d in D
  {
  }

  /** One such list: an unscrambled display whose ten patterns show 3 twice and never 2. */
  function MissingTwoPatterns(): seq<string>
  {
    ["abcefg", "cf", "acdfg", "acdfg", "bcdf", "abdfg", "abdefg", "acf", "abcdefg", "abcdfg"]
  }

  lemma MissingTwoExample()
    ensures DeriveAsWritten(MissingTwoPatterns()).Some?
    ensures Derive(MissingTwoPatterns()).None?
  {
    var labels := MissingTwoLabels();
    MissingTwoShown();
    assert forall d :: 0 <= d < 10 && d != 2 ==> d in labels by {
      assert labels[0] == 0 && labels[1] == 1 && labels[2] == 3 && labels[4] == 4 && labels[5] == 5;
      assert labels[6] == 6 && labels[7] == 7 && labels[8] == 8 && labels[9] == 9;
    }
    assert 2 !in labels;
    MissingTwoAccepted(MissingTwoPatterns(), "abcdefg", labels);
  }

  /** The digits the patterns of the example show, in order. */
  function MissingTwoLabels(): seq<int>
  {
    [0, 1, 3, 3, 4, 5, 6, 7, 8, 9]
  }

  lemma MissingTwoShown()
    ensures Shown(MissingTwoPatterns(), "abcdefg", MissingTwoLabels())
  {
    forall j | 0 <= j < 10
      ensures Shows(MissingTwoPatterns()[j], "abcdefg", MissingTwoLabels()[j])
    {
      MissingTwoShows(j);
    }
    assert IsWiring("abcdefg");
  }

  lemma MissingTwoShows(j: int)
    requires 0 <= j < 10
    ensures Shows(MissingTwoPatterns()[j], "abcdefg", MissingTwoLabels()[j])
  {
    match j
    case 0 => ExampleShows0();
    case 1 => ExampleShows1();
    case 2 => ExampleShows3();
    case 3 => ExampleShows3();
    case 4 => ExampleShows4();
    case 5 => ExampleShows5();
    case 6 => ExampleShows6();
    case 7 => ExampleShows7();
    case 8 => ExampleShows8();
    case 9 => ExampleShows9();
  }

  lemma ExampleShows0()
    ensures Shows("abcefg", "abcdefg", 0)
  {
    ShowsOn("abcefg", "abcdefg", 0, {'a', 'b', 'c', 'e', 'f', 'g'});
  }

  lemma ExampleShows1()
    ensures Shows("cf", "abcdefg", 1)
  {
    ShowsOn("cf", "abcdefg", 1, {'c', 'f'});
  }

  lemma ExampleShows3()
    ensures Shows("acdfg", "abcdefg", 3)
  {
    ShowsOn("acdfg", "abcdefg", 3, {'a', 'c', 'd', 'f', 'g'});
  }

  lemma ExampleShows4()
    ensures Shows("bcdf", "abcdefg", 4)
  {
    ShowsOn("bcdf", "abcdefg", 4, {'b', 'c', 'd', 'f'});
  }

  lemma ExampleShows5()
    ensures Shows("abdfg", "abcdefg", 5)
  {
    ShowsOn("abdfg", "abcdefg", 5, {'a', 'b', 'd', 'f', 'g'});
  }

  lemma ExampleShows6()
    ensures Shows("abdefg", "abcdefg", 6)
  {
    ShowsOn("abdefg", "abcdefg", 6, {'a', 'b', 'd', 'e', 'f', 'g'});
  }

  lemma ExampleShows7()
    ensures Shows("acf", "abcdefg", 7)
  {
    ShowsOn("acf", "abcdefg", 7, {'a', 'c', 'f'});
  }

  lemma ExampleShows8()
    ensures Shows("abcdefg", "abcdefg", 8)
  {
    ShowsOn("abcdefg", "abcdefg", 8, {'a', 'b', 'c', 'd', 'e', 'f', 'g'});
  }

  lemma ExampleShows9()
    ensures Shows("abcdfg", "abcdefg", 9)
  {
    ShowsOn("abcdfg", "abcdefg", 9, {'a', 'b', 'c', 'd', 'f', 'g'});
  }

  /** On the unscrambled display, a pattern with the letters of digit d (and no repeats) shows d. */
  lemma ShowsOn(s: string, wires: seq<char>, d: int, letters: set<char>)
    requires wires == "abcdefg" && 0 <= d < 10
    requires |s| == StdLen(d) && ToSet(s) == letters
    requires letters == set k | k in Std(d) :: "abcdefg"[k]
    ensures Shows(s, wires, d)
  {
  }

  /**
   * The facts every stage lemma below needs: the display shows every digit
   * except perhaps 2, and the maps record exactly D.
   */
  ghost predicate Ready(inputs: seq<string>, wires: seq<char>, labels: seq<int>, t: Tables, D: set<int>)
  {
    Shown(inputs, wires, labels) && Holds(t, wires, D)
    && forall d :: 0 <= d < 10 && d != 2 ==> d in labels
  }

  /** The digits recorded at the end: all ten, or all but 2 when the display does not show 2. */
  function Final(labels: seq<int>): set<int>
  {
    if 2 in labels then {1, 4, 7, 8, 6, 9, 0, 5, 3, 2} else {1, 4, 7, 8, 6, 9, 0, 5, 3}
  }

  lemma SixOnward(inputs: seq<string>, wires: seq<char>, labels: seq<int>, t0: Tables)
    requires Ready(inputs, wires, labels, t0, {1, 4, 7, 8})
    ensures 1 in t0.rev && 4 in t0.rev && 7 in t0.rev && 8 in t0.rev
    ensures FromSix(t0, inputs).Some?
    ensures Holds(FromSix(t0, inputs).value, wires, Final(labels))
  {
    StdInRange(1); StdInRange(4); StdInRange(7); StdInRange(8);
    assert 6 in labels;
    var r6 := Rule(6, false, t0.rev[8] - t0.rev[7]);
    ImgDiff(wires, Std(8), Std(7));
    SixFits({1, 4, 7, 8});
    RuleSelects(inputs, wires, labels, t0, {1, 4, 7, 8}, r6, Std(8) - Std(7), 6, {1, 4, 7, 8, 6});
    var t1 := Infer(t0, inputs, 6, r6);
    ImgDiff(wires, Std(4), Std(1));
    NineOnward(inputs, wires, labels, t1, t1.rev[4] - t1.rev[1]);
  }

  lemma NineOnward(inputs: seq<string>, wires: seq<char>, labels: seq<int>, t1: Tables, bd: set<char>)
    requires Ready(inputs, wires, labels, t1, {1, 4, 7, 8, 6})
    requires bd == Img(wires, Std(4) - Std(1))
    ensures 1 in t1.rev && FromNine(t1, inputs, bd).Some?
    ensures Holds(FromNine(t1, inputs, bd).value, wires, Final(labels))
  {
    assert 9 in labels;
    StdInRange(4); StdInRange(1);
    var r9 := Rule(6, true, bd);
    NineFits({1, 4, 7, 8, 6});
    RuleSelects(inputs, wires, labels, t1, {1, 4, 7, 8, 6}, r9, Std(4) - Std(1), 9, {1, 4, 7, 8, 6, 9});
    ZeroOnward(inputs, wires, labels, Infer(t1, inputs, 9, r9), bd);
  }

  lemma ZeroOnward(inputs: seq<string>, wires: seq<char>, labels: seq<int>, t2: Tables, bd: set<char>)
    requires Ready(inputs, wires, labels, t2, {1, 4, 7, 8, 6, 9})
    requires bd == Img(wires, Std(4) - Std(1))
    ensures 1 in t2.rev && FromZero(t2, inputs, bd).Some?
    ensures Holds(FromZero(t2, inputs, bd).value, wires, Final(labels))
  {
    assert 0 in labels;
    var r0 := Rule(6, true, {});
    assert Img(wires, {}) == {};
    ZeroFits({1, 4, 7, 8, 6, 9});
    RuleSelects(inputs, wires, labels, t2, {1, 4, 7, 8, 6, 9}, r0, {}, 0, {1, 4, 7, 8, 6, 9, 0});
    FiveOnward(inputs, wires, labels, Infer(t2, inputs, 0, r0), bd);
  }

  lemma FiveOnward(inputs: seq<string>, wires: seq<char>, labels: seq<int>, t3: Tables, bd: set<char>)
    requires Ready(inputs, wires, labels, t3, {1, 4, 7, 8, 6, 9, 0})
    requires bd == Img(wires, Std(4) - Std(1))
    ensures 1 in t3.rev && FromFive(t3, inputs, bd).Some?
    ensures Holds(FromFive(t3, inputs, bd).value, wires, Final(labels))
  {
    assert 5 in labels;
    StdInRange(4); StdInRange(1);
    var r5 := Rule(5, false, bd);
    FiveFits({1, 4, 7, 8, 6, 9, 0});
    RuleSelects(inputs, wires, labels, t3, {1, 4, 7, 8, 6, 9, 0}, r5, Std(4) - Std(1), 5, {1, 4, 7, 8, 6, 9, 0, 5});
    ThreeOnward(inputs, wires, labels, Infer(t3, inputs, 5, r5));
  }

  lemma ThreeOnward(inputs: seq<string>, wires: seq<char>, labels: seq<int>, t4: Tables)
    requires Ready(inputs, wires, labels, t4, {1, 4, 7, 8, 6, 9, 0, 5})
    ensures 1 in t4.rev && FromThree(t4, inputs).Some?
    ensures Holds(FromThree(t4, inputs).value, wires, Final(labels))
  {
    assert 3 in labels;
    StdInRange(1);
    var r3 := Rule(5, true, t4.rev[1]);
    ThreeFits({1, 4, 7, 8, 6, 9, 0, 5});
    RuleSelects(inputs, wires, labels, t4, {1, 4, 7, 8, 6, 9, 0, 5}, r3, Std(1), 3, {1, 4, 7, 8, 6, 9, 0, 5, 3});
    TwoLast(inputs, wires, labels, Infer(t4, inputs, 3, r3));
  }

  lemma TwoLast(inputs: seq<string>, wires: seq<char>, labels: seq<int>, t5: Tables)
    requires Ready(inputs, wires, labels, t5, {1, 4, 7, 8, 6, 9, 0, 5, 3})
    ensures 3 in t5.rev
    ensures Holds(Infer(t5, inputs, 2, Rule(5, true, {})), wires, Final(labels))
  {
    assert Img(wires, {}) == {};
    TwoFits({1, 4, 7, 8, 6, 9, 0, 5, 3});
    if 2 in labels {
      RuleSelects(inputs, wires, labels, t5, {1, 4, 7, 8, 6, 9, 0, 5, 3}, Rule(5, true, {}), {}, 2, {1, 4, 7, 8, 6, 9, 0, 5, 3, 2});
    } else {
      RuleFindsNothing(inputs, wires, labels, t5, {1, 4, 7, 8, 6, 9, 0, 5, 3}, Rule(5, true, {}), {}, 2);
    }
  }

  lemma AllRecorded(inputs: seq<string>, wires: seq<char>, labels: seq<int>, t: Tables)
    requires Relabelled(inputs, wires, labels)
    requires Holds(t, wires, {1, 4, 7, 8, 6, 9, 0, 5, 3, 2})
    ensures 2 in t.rev
    ensures forall j :: 0 <= j < 10 ==> ToSet(inputs[j]) in t.res && t.res[ToSet(inputs[j])] == labels[j]
    ensures forall x :: x in t.res ==> exists d :: 0 <= d < 10 && x == Img(wires, Std(d))
    ensures forall d :: 0 <= d < 10 ==> Img(wires, Std(d)) in t.res && t.res[Img(wires, Std(d))] == d
  {
    forall d | 0 <= d < 10
      ensures Img(wires, Std(d)) in t.res && t.res[Img(wires, Std(d))] == d
    {
      assert d in {1, 4, 7, 8, 6, 9, 0, 5, 3, 2};
    }
    forall j | 0 <= j < 10
      ensures ToSet(inputs[j]) in t.res && t.res[ToSet(inputs[j])] == labels[j]
    {
      assert labels[j] in {1, 4, 7, 8, 6, 9, 0, 5, 3, 2};
    }
  }

  lemma SixFits(D: set<int>)
    requires D == {1, 4, 7, 8}
    ensures forall l :: 0 <= l < 10 ==> (StdFits(6, false, D, Std(8) - Std(7), l) <==> l == 6)
  {
    assert 3 in Std(8) - Std(7) && 3 !in Std(0);
    assert 4 in Std(8) - Std(7) && 4 !in Std(9);
  }

  lemma NineFits(D: set<int>)
    requires D == {1, 4, 7, 8, 6}
    ensures forall l :: 0 <= l < 10 ==> (StdFits(6, true, D, Std(4) - Std(1), l) <==> l == 9)
  {
    assert 3 in Std(4) - Std(1) && 3 !in Std(0);
  }

  lemma ZeroFits(D: set<int>)
    requires D == {1, 4, 7, 8, 6, 9}
    ensures forall l :: 0 <= l < 10 ==> (StdFits(6, true, D, {}, l) <==> l == 0)
  {
  }

  lemma FiveFits(D: set<int>)
    requires D == {1, 4, 7, 8, 6, 9, 0}
    ensures forall l :: 0 <= l < 10 ==> (StdFits(5, false, D, Std(4) - Std(1), l) <==> l == 5)
  {
    assert 1 in Std(4) - Std(1) && 1 !in Std(2) && 1 !in Std(3);
  }

  lemma ThreeFits(D: set<int>)
    requires D == {1, 4, 7, 8, 6, 9, 0, 5}
    ensures forall l :: 0 <= l < 10 ==> (StdFits(5, true, D, Std(1), l) <==> l == 3)
  {
    assert 5 in Std(1) && 5 !in Std(2);
  }

  lemma TwoFits(D: set<int>)
    requires D == {1, 4, 7, 8, 6, 9, 0, 5, 3}
    ensures forall l :: 0 <= l < 10 ==> (StdFits(5, true, D, {}, l) <==> l == 2)
  {
  }

  // ---------------------------------------------------------------------
  // derive_mappings and the two parts, as loops
  // ---------------------------------------------------------------------

  /**
   * One deduction loop over the patterns: skip those that do not fit, record
   * the first that does and stop.
   */
  method InferLoop(inputs: seq<string>, rule: Rule, digit: int, res0: map<set<char>, int>, rev0: map<int, set<char>>)
    returns (res: map<set<char>, int>, rev: map<int, set<char>>)
    ensures Tables(res, rev) == Infer(Tables(res0, rev0), inputs, digit, rule)
  {
    res, rev := res0, rev0;
    var i := 0;
    while i < |inputs|
      invariant 0 <= i <= |inputs|
      invariant FirstFitFrom(inputs, rule, Tables(res0, rev0), i) == FirstFit(inputs, rule, Tables(res0, rev0))
    {
      var s := inputs[i];
      if Utf8Len(s) == rule.len && (!rule.unrecorded || ToSet(s) !in res) && rule.needs <= ToSet(s) {
        res := res[ToSet(s) := digit];
        rev := rev[digit := ToSet(s)];
        return;
      }
      i := i + 1;
    }
  }

  /**
   * `derive_mappings`: the first loop over the patterns, then the six
   * deduction loops, each followed by its assert (None when one fails).
   */
  method DeriveMappings(inputs: seq<string>) returns (r: Option<map<set<char>, int>>)
    ensures r == Derive(inputs)
  {
    var res: map<set<char>, int> := map[];
    var rev: map<int, set<char>> := map[];
    for i := 0 to |inputs|
      invariant Tables(res, rev) == Easy(inputs[..i])
    {
      PrefixStep(inputs, i);
      var s := inputs[i];
      var len := Utf8Len(s);
      if len == 2 || len == 4 || len == 3 || len == 7 {
        var d := if len == 2 then 1 else if len == 4 then 4 else if len == 3 then 7 else 8;
        res := res[ToSet(s) := d];
        rev := rev[d := ToSet(s)];
      }
    }
    assert inputs[..|inputs|] == inputs;
    if !(1 in rev && 4 in rev && 7 in rev && 8 in rev) {
      return None;
    }
    ghost var t0 := Tables(res, rev);
    res, rev := InferLoop(inputs, Rule(6, false, rev[8] - rev[7]), 6, res, rev);
    if 6 !in rev {
      return None;
    }
    var bd := rev[4] - rev[1];
    ghost var t1 := Tables(res, rev);
    assert Stages(inputs) == FromNine(t1, inputs, bd);
    res, rev := InferLoop(inputs, Rule(6, true, bd), 9, res, rev);
    if 9 !in rev {
      return None;
    }
    ghost var t2 := Tables(res, rev);
    assert Stages(inputs) == FromZero(t2, inputs, bd);
    res, rev := InferLoop(inputs, Rule(6, true, {}), 0, res, rev);
    if 0 !in rev {
      return None;
    }
    ghost var t3 := Tables(res, rev);
    assert Stages(inputs) == FromFive(t3, inputs, bd);
    res, rev := InferLoop(inputs, Rule(5, false, bd), 5, res, rev);
    if 5 !in rev {
      return None;
    }
    ghost var t4 := Tables(res, rev);
    assert Stages(inputs) == FromThree(t4, inputs);
    res, rev := InferLoop(inputs, Rule(5, true, rev[1]), 3, res, rev);
    if 3 !in rev {
      return None;
    }
    res, rev := InferLoop(inputs, Rule(5, true, {}), 2, res, rev);
    assert Stages(inputs) == Some(Tables(res, rev));
    if 2 !in rev {
      return None;
    }
    return Some(res);
  }

  /** Every line parsed by `Splits::from_input`, or None when one of them fails. */
  function ParseLines(data: seq<string>): (r: Option<seq<Splits>>)
    ensures r.Some? <==> forall i :: 0 <= i < |data| ==> FromInput(data[i]).Some?
    ensures r.Some? ==> |r.value| == |data| && forall i :: 0 <= i < |data| ==> r.value[i] == FromInput(data[i]).value
  {
    if data == [] then Some([])
    else
      match ParseLines(data[..|data| - 1])
      case None => None
      case Some(init) =>
        match FromInput(data[|data| - 1])
        case None => None
        case Some(last) => Some(init + [last])
  }

  /** The output byte lengths part 1 counts: those of 1, 7, 4 and 8. */
  predicate IsEasyLength(n: int)
  {
    n == 2 || n == 3 || n == 4 || n == 7
  }

  /** The number of outputs of one line with an easy byte length. */
  function EasyCount(outputs: seq<string>): nat
  {
    if outputs == [] then 0
    else EasyCount(outputs[..|outputs| - 1]) + (if IsEasyLength(Utf8Len(outputs[|outputs| - 1])) then 1 else 0)
  }

  /** An output `é` is two bytes long, so part 1 counts it as easy. */
  lemma AcuteOutputIsEasy(outputs: seq<string>)
    requires outputs == ["\U{00E9}"]
    ensures EasyCount(outputs) == 1
  {
    Utf8LenAcute();
    assert outputs[..0] == [];
  }

  /** The pattern `aé` is three bytes long, so the first loop takes it for 7. */
  lemma AcutePatternIsSeven(s: string)
    requires s == "a\U{00E9}"
    ensures EasyDigit(Utf8Len(s)) == Some(7)
  {
    Utf8LenAcute();
    assert s[1..] == "\U{00E9}";
  }

  /** The number of digits among ds that are 1, 4, 7 or 8. */
  function EasyDigits(ds: seq<int>): nat
  {
    if ds == [] then 0
    else EasyDigits(ds[..|ds| - 1]) + (if ds[|ds| - 1] in {1, 4, 7, 8} then 1 else 0)
  }

  /** Counting easy lengths counts the outputs that show 1, 4, 7 or 8, under any wiring. */
  lemma {:induction false} EasyCountShown(outputs: seq<string>, wires: seq<char>, ds: seq<int>)
    requires IsWiring(wires) && |ds| == |outputs|
    requires forall i :: 0 <= i < |outputs| ==> Shows(outputs[i], wires, ds[i])
    ensures EasyCount(outputs) == EasyDigits(ds)
    decreases |outputs|
  {
    if outputs != [] {
      var n := |outputs| - 1;
      assert Shows(outputs[n], wires, ds[n]);
      ShowsLength(outputs[n], wires, ds[n]);
      EasyDigitOfShown(ds[n]);
      EasyCountShown(outputs[..n], wires, ds[..n]);
    }
  }

  /** The part 1 sum over all lines. */
  function EasyTotal(all: seq<Splits>): nat
  {
    if all == [] then 0 else EasyTotal(all[..|all| - 1]) + EasyCount(all[|all| - 1].outputs)
  }

  /** `solution_impl_1`: parse every line, then add up the easy outputs of each. */
  method SolvePart1(data: seq<string>) returns (r: Option<int>)
    ensures r.Some? <==> ParseLines(data).Some?
    ensures r.Some? ==> r.value == EasyTotal(ParseLines(data).value)
  {
    var all := ParseAllLines(data);
    if all.None? {
      return None;
    }
    var lines := all.value;
    var total := 0;
    for k := 0 to |lines|
      invariant total == EasyTotal(lines[..k])
    {
      assert lines[..k + 1][..k] == lines[..k];
      var count := CountEasy(lines[k].outputs);
      total := total + count;
    }
    assert lines[..|lines|] == lines;
    return Some(total);
  }

  /** The `filter(...).count()` of part 1 for one line. */
  method CountEasy(outputs: seq<string>) returns (count: nat)
    ensures count == EasyCount(outputs)
  {
    count := 0;
    for i := 0 to |outputs|
      invariant count == EasyCount(outputs[..i])
    {
      PrefixStep(outputs, i);
      if IsEasyLength(Utf8Len(outputs[i])) {
        count := count + 1;
      }
    }
    assert outputs[..|outputs|] == outputs;
  }

  /** A line that does not parse makes the whole input fail. */
  lemma ParseLinesStops(data: seq<string>, k: nat)
    requires k < |data| && FromInput(data[k]).None?
    ensures ParseLines(data).None?
  {
  }

  /** Parsing one more line appends its parse. */
  lemma ParseLinesSnoc(data: seq<string>, k: nat)
    requires k < |data| && FromInput(data[k]).Some?
    ensures ParseLines(data[..k + 1]) ==
      match ParseLines(data[..k])
      case None => None
      case Some(init) => Some(init + [FromInput(data[k]).value])
  {
    assert data[..k + 1][..k] == data[..k];
  }

  /** The `map(Splits::from_input).collect()` of both parts. */
  method ParseAllLines(data: seq<string>) returns (r: Option<seq<Splits>>)
    ensures r == ParseLines(data)
  {
    var lines: seq<Splits> := [];
    for k := 0 to |data|
      invariant ParseLines(data[..k]) == Some(lines)
    {
      var line := FromInput(data[k]);
      if line.None? {
        ParseLinesStops(data, k);
        return None;
      }
      ParseLinesSnoc(data, k);
      lines := lines + [line.value];
    }
    assert data[..|data|] == data;
    return Some(lines);
  }

  /** The number the digits ds spell, most significant first. */
  function Number(ds: seq<int>): int
  {
    if ds == [] then 0 else Number(ds[..|ds| - 1]) * 10 + ds[|ds| - 1]
  }

  /**
   * The decoding loop of part 2: look each output's letters up in the
   * mapping, most significant first; a missing one is the `unwrap` panic.
   */
  function Decode(mapping: map<set<char>, int>, outputs: seq<string>): (r: Option<int>)
    ensures r.Some? <==> forall i :: 0 <= i < |outputs| ==> ToSet(outputs[i]) in mapping
  {
    if outputs == [] then Some(0)
    else
      var last := ToSet(outputs[|outputs| - 1]);
      match Decode(mapping, outputs[..|outputs| - 1])
      case None => None
      case Some(v) => if last in mapping then Some(v * 10 + mapping[last]) else None
  }

  /**
   * On a display whose ten patterns show every digit once, outputs that show
   * the digits ds decode to the number ds spells, whatever the wiring.
   */
  lemma DecodeShown(inputs: seq<string>, wires: seq<char>, labels: seq<int>,
                    outputs: seq<string>, ds: seq<int>)
    requires Relabelled(inputs, wires, labels)
    requires |ds| == |outputs|
    requires forall i :: 0 <= i < |outputs| ==> Shows(outputs[i], wires, ds[i])
    ensures Derive(inputs).Some?
    ensures Decode(Derive(inputs).value, outputs) == Some(Number(ds))
  {
    DeriveIsCorrect(inputs, wires, labels);
    DecodeWith(Derive(inputs).value, wires, outputs, ds);
  }

  /** Decoding with a mapping that sends each digit's pattern to the digit reads the digits back. */
  lemma {:induction false} DecodeWith(mapping: map<set<char>, int>, wires: seq<char>, outputs: seq<string>, ds: seq<int>)
    requires forall d :: 0 <= d < 10 ==> Img(wires, Std(d)) in mapping && mapping[Img(wires, Std(d))] == d
    requires |ds| == |outputs|
    requires forall i :: 0 <= i < |outputs| ==> Shows(outputs[i], wires, ds[i])
    ensures Decode(mapping, outputs) == Some(Number(ds))
    decreases |outputs|
  {
    if outputs != [] {
      var n := |outputs| - 1;
      DecodeWith(mapping, wires, outputs[..n], ds[..n]);
      assert Shows(outputs[n], wires, ds[n]);
    }
  }

  /** One line's part 2 value: derive the mapping, then decode the outputs with it. */
  function LineValue(line: Splits): Option<int>
  {
    match Derive(line.inputs)
    case None => None
    case Some(mapping) => Decode(mapping, line.outputs)
  }

  /** The sum of the lines' values, or None when one of them is None. */
  function OptionSum(values: seq<Option<int>>): (r: Option<int>)
    ensures r.Some? <==> forall i :: 0 <= i < |values| ==> values[i].Some?
  {
    if values == [] then Some(0)
    else
      match OptionSum(values[..|values| - 1])
      case None => None
      case Some(total) =>
        match values[|values| - 1]
        case None => None
        case Some(v) => Some(total + v)
  }

  lemma {:induction false} OptionSumStep(values: seq<Option<int>>, k: int, total: int, v: int)
    requires 0 <= k < |values| && OptionSum(values[..k]) == Some(total) && values[k] == Some(v)
    ensures OptionSum(values[..k + 1]) == Some(total + v)
  {
    assert values[..k + 1][..k] == values[..k];
  }

  lemma OptionSumStops(values: seq<Option<int>>, k: int)
    requires 0 <= k < |values| && values[k].None?
    ensures OptionSum(values).None?
  {
  }

  /** The part 2 answer for the parsed lines: None when a line's deduction or decoding fails. */
  function DecodedTotal(all: seq<Splits>): Option<int>
  {
    OptionSum(seq(|all|, i requires 0 <= i < |all| => LineValue(all[i])))
  }

  /** The inner loop of part 2: `cur_sum = cur_sum * 10 + mapping[output]` for each output. */
  method DecodeOutputs(mapping: map<set<char>, int>, outputs: seq<string>) returns (r: Option<int>)
    ensures r == Decode(mapping, outputs)
  {
    var cur := 0;
    for i := 0 to |outputs|
      invariant Decode(mapping, outputs[..i]) == Some(cur)
    {
      PrefixStep(outputs, i);
      var key := ToSet(outputs[i]);
      if key !in mapping {
        assert !(ToSet(outputs[i]) in mapping);
        return None;
      }
      cur := cur * 10 + mapping[key];
    }
    assert outputs[..|outputs|] == outputs;
    return Some(cur);
  }

  /** `solution_impl_2`: parse every line, then derive, decode and add up each. */
  method SolvePart2(data: seq<string>) returns (r: Option<int>)
    ensures r == if ParseLines(data).None? then None else DecodedTotal(ParseLines(data).value)
  {
    var all := ParseAllLines(data);
    if all.None? {
      return None;
    }
    r := SumLineValues(all.value);
  }

  /** The outer loop of part 2: `sum += ...` over the parsed lines. */
  method SumLineValues(lines: seq<Splits>) returns (r: Option<int>)
    ensures r == DecodedTotal(lines)
  {
    ghost var values := seq(|lines|, i requires 0 <= i < |lines| => LineValue(lines[i]));
    var sum := 0;
    for k := 0 to |lines|
      invariant OptionSum(values[..k]) == Some(sum)
    {
      var v := LineValueOf(lines[k]);
      assert values[k] == v;
      if v.None? {
        OptionSumStops(values, k);
        return None;
      }
      OptionSumStep(values, k, sum, v.value);
      sum := sum + v.value;
    }
    assert values[..|values|] == values;
    return Some(sum);
  }

  /** The body of the part 2 loop for one line. */
  method LineValueOf(line: Splits) returns (r: Option<int>)
    ensures r == LineValue(line)
  {
    var mappings := DeriveMappings(line.inputs);
    if mappings.None? {
      return None;
    }
    r := DecodeOutputs(mappings.value, line.outputs);
  }
}
