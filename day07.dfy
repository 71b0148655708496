/**
 * Day 7: bridge repair. Each line gives a result and operands; it counts
 * when some choice of operators, applied strictly left to right, turns the
 * operands into the result. Part 1 offers `+` and `*`, part 2 also `||`,
 * which writes the digits of its operands one after the other.
 */
module Day07 {
  import opened Wrappers
  import opened Text

  const U64_MAX: nat := 0xffff_ffff_ffff_ffff

  // ----- Parsing -----

  /** A run of digits whose value fits in a `u64`. */
  function ParseU64(s: string): (r: Option<nat>)
    ensures r.Some? <==> |s| > 0 && AllDigits(s) && DigitsValue(s) <= U64_MAX
    ensures r.Some? ==> r.value == DigitsValue(s)
  {
    match ParseNat(s)
    case Some(n) => if n <= U64_MAX then Some(n) else None
    case None => None
  }

  function ParseU64s(pieces: seq<string>): (r: Option<seq<nat>>)
    ensures r.Some? <==> forall i :: 0 <= i < |pieces| ==> ParseU64(pieces[i]).Some?
    ensures r.Some? ==> |r.value| == |pieces| && forall i :: 0 <= i < |pieces| ==> Some(r.value[i]) == ParseU64(pieces[i])
  {
    if forall i :: 0 <= i < |pieces| ==> ParseU64(pieces[i]).Some? then
      Some(seq(|pieces|, i requires 0 <= i < |pieces| => ParseU64(pieces[i]).value))
    else None
  }

  /**
   * `result: a b c`: the result, a colon and one space, then one or more
   * operands separated by single spaces, and nothing after them.
   */
  function ParseLine(line: string): (r: Option<(nat, seq<nat>)>)
    ensures r.Some? ==> |r.value.1| >= 1
  {
    var halves := Split(line, ':');
    if |halves| != 2 || |halves[1]| == 0 || halves[1][0] != ' ' then None
    else
      match (ParseU64(halves[0]), ParseU64s(Split(halves[1][1..], ' ')))
      case (Some(result), Some(operands)) => Some((result, operands))
      case _ => None
  }

  /** A line written out in this form reads back. */
  lemma ParseLineRoundTrip(result: nat, operands: seq<nat>)
    requires result <= U64_MAX && |operands| >= 1
    requires forall i :: 0 <= i < |operands| ==> operands[i] <= U64_MAX
    ensures ParseLine(Decimal(result) + ": " + Join(Decimals(operands), ' ')) == Some((result, operands))
  {
    var list := Join(Decimals(operands), ' ');
    OperandsRoundTrip(operands);
    assert ':' !in Decimal(result);
    ColonSplit(Decimal(result), list);
    assert (" " + list)[1..] == list;
    DecimalValue(result);
  }

  /** Text without colons on either side of `": "` splits at that colon. */
  lemma ColonSplit(left: string, right: string)
    requires ':' !in left && ':' !in right
    ensures Split(left + ": " + right, ':') == [left, " " + right]
  {
    var halves := [left, " " + right];
    assert Join(halves[1..], ':') == " " + right;
    SplitJoin(halves, ':');
    assert left + ": " + right == Join(halves, ':');
  }

  /** The operands written with single spaces read back, and the list holds no colon. */
  lemma OperandsRoundTrip(operands: seq<nat>)
    requires |operands| >= 1
    requires forall i :: 0 <= i < |operands| ==> operands[i] <= U64_MAX
    ensures ':' !in Join(Decimals(operands), ' ')
    ensures ParseU64s(Split(Join(Decimals(operands), ' '), ' ')) == Some(operands)
  {
    var pieces := Decimals(operands);
    forall i | 0 <= i < |pieces|
      ensures ' ' !in pieces[i] && ':' !in pieces[i]
    {
      assert AllDigits(pieces[i]);
    }
    JoinAvoids(pieces, ' ', ':');
    SplitJoin(pieces, ' ');
    forall i | 0 <= i < |operands|
      ensures ParseU64(pieces[i]) == Some(operands[i])
    {
      DecimalValue(operands[i]);
    }
    assert ParseU64s(pieces).value == operands;
  }

  // ----- Operators -----

  /** The operators; `ConcatAsWritten` is the source's `concatenate`, which drops a zero right operand. */
  datatype Operator = Add | Mul | Concat | ConcatAsWritten

  /** `floor(log10(b))`, as `ilog10` computes it. */
  function ILog10(b: nat): nat
    requires b > 0
  {
    if b < 10 then 0 else 1 + ILog10(b / 10)
  }

  /** `ilog10(b) + 1` is the number of decimal digits of `b`. */
  lemma {:induction false} ILog10Digits(b: nat)
    requires b > 0
    ensures ILog10(b) + 1 == |Decimal(b)|
    decreases b
  {
    if b >= 10 {
      ILog10Digits(b / 10);
    }
  }

  /** The source's `concatenate`: a zero right operand leaves the left one as it is. */
  function ConcatenateAsWritten(a: nat, b: nat): nat
  {
    if b == 0 then a else a * Pow10(ILog10(b) + 1) + b
  }

  /** `a || b`: the digits of `a` followed by those of `b`, zero included. */
  function Concatenate(a: nat, b: nat): nat
  {
    a * Pow10(|Decimal(b)|) + b
  }

  /** `a || b` is the number its operands' digits spell when written one after the other. */
  lemma ConcatenateDigits(a: nat, b: nat)
    ensures ParseNat(Decimal(a) + Decimal(b)) == Some(Concatenate(a, b))
  {
    DigitsValueAppend(Decimal(a), Decimal(b));
    DecimalValue(a);
    DecimalValue(b);
  }

  /** The two agree except on a zero right operand. */
  lemma ConcatenateAgrees(a: nat, b: nat)
    requires b > 0
    ensures ConcatenateAsWritten(a, b) == Concatenate(a, b)
  {
    ILog10Digits(b);
  }

  /** `12 || 0` gives 12 as written, where the digits `120` spell 120. */
  lemma ConcatenateZero()
    ensures ConcatenateAsWritten(12, 0) == 12
    ensures Concatenate(12, 0) == 120
  {
    assert Decimal(0) == "0";
  }

  function Apply(op: Operator, a: nat, b: nat): nat
  {
    match op
    case Add => a + b
    case Mul => a * b
    case Concat => Concatenate(a, b)
    case ConcatAsWritten => ConcatenateAsWritten(a, b)
  }

  // ----- Reachability -----

  /** Some choice of operators from `ops`, applied left to right, takes `acc` through `rest` to `target`. */
  predicate Reaches(ops: seq<Operator>, acc: nat, rest: seq<nat>, target: nat)
    decreases |rest|
  {
    if rest == [] then acc == target
    else exists op :: op in ops && Reaches(ops, Apply(op, acc, rest[0]), rest[1..], target)
  }

  /** The value of `acc` combined left to right with `rest` by the operators `choice`. */
  function Evaluate(choice: seq<Operator>, acc: nat, rest: seq<nat>): nat
    requires |choice| == |rest|
    decreases |rest|
  {
    if rest == [] then acc else Evaluate(choice[1..], Apply(choice[0], acc, rest[0]), rest[1..])
  }

  /** Every operator of `choice` is offered. */
  predicate Offered(ops: seq<Operator>, choice: seq<Operator>)
  {
    forall i :: 0 <= i < |choice| ==> choice[i] in ops
  }

  /** Reachability is exactly: some sequence of operators from `ops` evaluates to the target. */
  lemma ReachesMeans(ops: seq<Operator>, acc: nat, rest: seq<nat>, target: nat)
    ensures Reaches(ops, acc, rest, target) <==>
            exists choice :: |choice| == |rest| && Offered(ops, choice) && Evaluate(choice, acc, rest) == target
  {
    if Reaches(ops, acc, rest, target) {
      var choice := ReachesChoice(ops, acc, rest, target);
    }
    if exists choice :: |choice| == |rest| && Offered(ops, choice) && Evaluate(choice, acc, rest) == target {
      var choice :| |choice| == |rest| && Offered(ops, choice) && Evaluate(choice, acc, rest) == target;
      ReachesBy(ops, choice, acc, rest, target);
    }
  }

  /** A reachable target is reached by some choice of offered operators. */
  lemma {:induction false} ReachesChoice(ops: seq<Operator>, acc: nat, rest: seq<nat>, target: nat) returns (choice: seq<Operator>)
    requires Reaches(ops, acc, rest, target)
    ensures |choice| == |rest| && Offered(ops, choice) && Evaluate(choice, acc, rest) == target
    decreases |rest|
  {
    if rest == [] {
      choice := [];
    } else {
      var op :| op in ops && Reaches(ops, Apply(op, acc, rest[0]), rest[1..], target);
      var tail := ReachesChoice(ops, Apply(op, acc, rest[0]), rest[1..], target);
      choice := [op] + tail;
      assert choice[1..] == tail;
    }
  }

  /** A choice of offered operators that evaluates to the target shows the target reachable. */
  lemma {:induction false} ReachesBy(ops: seq<Operator>, choice: seq<Operator>, acc: nat, rest: seq<nat>, target: nat)
    requires |choice| == |rest| && Offered(ops, choice)
    requires Evaluate(choice, acc, rest) == target
    ensures Reaches(ops, acc, rest, target)
    decreases |rest|
  {
    if rest != [] {
      var tail := choice[1..];
      assert Offered(ops, tail) by {
        forall i | 0 <= i < |tail|
          ensures tail[i] in ops
        {
          assert tail[i] == choice[i + 1];
        }
      }
      ReachesBy(ops, tail, Apply(choice[0], acc, rest[0]), rest[1..], target);
    }
  }

  /** Offering more operators never loses a line. */
  lemma {:induction false} ReachesMonotone(ops: seq<Operator>, more: seq<Operator>, acc: nat, rest: seq<nat>, target: nat)
    requires forall op :: op in ops ==> op in more
    requires Reaches(ops, acc, rest, target)
    ensures Reaches(more, acc, rest, target)
    decreases |rest|
  {
    if rest != [] {
      var op :| op in ops && Reaches(ops, Apply(op, acc, rest[0]), rest[1..], target);
      ReachesMonotone(ops, more, Apply(op, acc, rest[0]), rest[1..], target);
    }
  }

  /** Whether the equation holds for some operators, starting from the first operand. */
  predicate Solvable(ops: seq<Operator>, result: nat, operands: seq<nat>)
    requires |operands| >= 1
  {
    Reaches(ops, operands[0], operands[1..], result)
  }

  /** The results of the equations that hold, added up. */
  function Calibration(ops: seq<Operator>, equations: seq<(nat, seq<nat>)>): nat
    requires forall i :: 0 <= i < |equations| ==> |equations[i].1| >= 1
  {
    if equations == [] then 0
    else
      var (result, operands) := equations[|equations| - 1];
      Calibration(ops, equations[..|equations| - 1]) + (if Solvable(ops, result, operands) then result else 0)
  }

  lemma {:induction false} CalibrationMonotone(ops: seq<Operator>, more: seq<Operator>, equations: seq<(nat, seq<nat>)>)
    requires forall op :: op in ops ==> op in more
    requires forall i :: 0 <= i < |equations| ==> |equations[i].1| >= 1
    ensures Calibration(ops, equations) <= Calibration(more, equations)
  {
    if equations != [] {
      var (result, operands) := equations[|equations| - 1];
      CalibrationMonotone(ops, more, equations[..|equations| - 1]);
      if Solvable(ops, result, operands) {
        ReachesMonotone(ops, more, operands[0], operands[1..], result);
      }
    }
  }

  function ParseLines(lines: seq<string>): (r: Option<seq<(nat, seq<nat>)>>)
    ensures r.Some? ==> |r.value| == |lines| && forall i :: 0 <= i < |lines| ==> Some(r.value[i]) == ParseLine(lines[i])
    ensures r.Some? ==> forall i :: 0 <= i < |r.value| ==> |r.value[i].1| >= 1
  {
    if forall i :: 0 <= i < |lines| ==> ParseLine(lines[i]).Some? then
      Some(seq(|lines|, i requires 0 <= i < |lines| => ParseLine(lines[i]).value))
    else None
  }

  /** The calibration with the given operators, or `None` where a line does not parse. */
  function Solve(ops: seq<Operator>, lines: seq<string>): (r: Option<nat>)
    ensures r.Some? <==> forall i :: 0 <= i < |lines| ==> ParseLine(lines[i]).Some?
  {
    match ParseLines(lines)
    case None => None
    case Some(equations) => Some(Calibration(ops, equations))
  }

  const PART1: seq<Operator> := [Add, Mul]
  const PART2: seq<Operator> := [Add, Mul, Concat]

  function Part1(lines: seq<string>): (r: Option<nat>)
    ensures r.Some? <==> forall i :: 0 <= i < |lines| ==> ParseLine(lines[i]).Some?
  {
    Solve(PART1, lines)
  }

  function Part2(lines: seq<string>): (r: Option<nat>)
    ensures r.Some? <==> forall i :: 0 <= i < |lines| ==> ParseLine(lines[i]).Some?
  {
    Solve(PART2, lines)
  }

  /** Part 2 with the source's `concatenate`. */
  const PART2_AS_WRITTEN: seq<Operator> := [Add, Mul, ConcatAsWritten]

  function Part2AsWritten(lines: seq<string>): (r: Option<nat>)
    ensures r.Some? <==> forall i :: 0 <= i < |lines| ==> ParseLine(lines[i]).Some?
  {
    Solve(PART2_AS_WRITTEN, lines)
  }

  /** Where no operand after the first is zero, the source's `concatenate` reaches the same targets. */
  lemma ReachesAsWritten(acc: nat, rest: seq<nat>, target: nat)
    requires forall i :: 0 <= i < |rest| ==> rest[i] > 0
    ensures Reaches(PART2_AS_WRITTEN, acc, rest, target) <==> Reaches(PART2, acc, rest, target)
  {
    if Reaches(PART2, acc, rest, target) {
      CorrectedReachesAsWritten(acc, rest, target);
    }
    if Reaches(PART2_AS_WRITTEN, acc, rest, target) {
      AsWrittenReachesFewer(acc, rest, target);
    }
  }

  lemma {:induction false} CorrectedReachesAsWritten(acc: nat, rest: seq<nat>, target: nat)
    requires forall i :: 0 <= i < |rest| ==> rest[i] > 0
    requires Reaches(PART2, acc, rest, target)
    ensures Reaches(PART2_AS_WRITTEN, acc, rest, target)
    decreases |rest|
  {
    if rest != [] {
      var op :| op in PART2 && Reaches(PART2, Apply(op, acc, rest[0]), rest[1..], target);
      var op' := if op == Concat then ConcatAsWritten else op;
      if op == Concat {
        ConcatenateAgrees(acc, rest[0]);
      }
      assert Apply(op', acc, rest[0]) == Apply(op, acc, rest[0]);
      CorrectedReachesAsWritten(Apply(op, acc, rest[0]), rest[1..], target);
      assert op' in PART2_AS_WRITTEN;
    }
  }

  /** Every target the source's operators reach is reached by the corrected ones: `concatenate(a, 0)` is `a + 0`. */
  lemma {:induction false} AsWrittenReachesFewer(acc: nat, rest: seq<nat>, target: nat)
    requires Reaches(PART2_AS_WRITTEN, acc, rest, target)
    ensures Reaches(PART2, acc, rest, target)
    decreases |rest|
  {
    if rest != [] {
      var op :| op in PART2_AS_WRITTEN && Reaches(PART2_AS_WRITTEN, Apply(op, acc, rest[0]), rest[1..], target);
      var op' := if op != ConcatAsWritten then op else if rest[0] == 0 then Add else Concat;
      if op == ConcatAsWritten && rest[0] > 0 {
        ConcatenateAgrees(acc, rest[0]);
      }
      assert Apply(op', acc, rest[0]) == Apply(op, acc, rest[0]);
      AsWrittenReachesFewer(Apply(op, acc, rest[0]), rest[1..], target);
      assert op' in PART2;
    }
  }

  lemma {:induction false} CalibrationAsWritten(equations: seq<(nat, seq<nat>)>)
    requires forall i :: 0 <= i < |equations| ==> |equations[i].1| >= 1
    ensures Calibration(PART2_AS_WRITTEN, equations) <= Calibration(PART2, equations)
  {
    if equations != [] {
      var (result, operands) := equations[|equations| - 1];
      CalibrationAsWritten(equations[..|equations| - 1]);
      if Solvable(PART2_AS_WRITTEN, result, operands) {
        AsWrittenReachesFewer(operands[0], operands[1..], result);
      }
    }
  }

  /** The source's part 2 never counts more than the corrected one. */
  lemma Part2AsWrittenAtMost(lines: seq<string>)
    ensures Part2AsWritten(lines).Some? <==> Part2(lines).Some?
    ensures Part2AsWritten(lines).Some? ==> Part2AsWritten(lines).value <= Part2(lines).value
  {
    if ParseLines(lines).Some? {
      CalibrationAsWritten(ParseLines(lines).value);
    }
  }

  /**
   * `10: 1 0` holds as `1 || 0`, but the source's `concatenate(1, 0)` is 1,
   * and neither `1 + 0` nor `1 * 0` is 10, so the source's part 2 leaves it out.
   */
  lemma ZeroOperand()
    ensures Solvable(PART2, 10, [1, 0])
    ensures !Solvable(PART2_AS_WRITTEN, 10, [1, 0])
  {
    assert Decimal(0) == "0";
    ReachesBy(PART2, [Concat], 1, [0], 10);
    assert !Reaches(PART2_AS_WRITTEN, 1, [], 10) && !Reaches(PART2_AS_WRITTEN, 0, [], 10);
  }

  /** Part 2 offers every operator of part 1, so its answer is never smaller. */
  lemma Part1AtMostPart2(lines: seq<string>)
    ensures Part1(lines).Some? <==> Part2(lines).Some?
    ensures Part1(lines).Some? ==> Part1(lines).value <= Part2(lines).value
  {
    if ParseLines(lines).Some? {
      CalibrationMonotone(PART1, PART2, ParseLines(lines).value);
    }
  }

  // ----- The example -----

  /** `190: 10 19` holds as `10 * 19`. */
  lemma Example190()
    ensures Solvable(PART1, 190, [10, 19])
  {
    ReachesBy(PART1, [Mul], 10, [19], 190);
  }

  /** `3267: 81 40 27` holds as `81 + 40 * 27`. */
  lemma Example3267()
    ensures Solvable(PART1, 3267, [81, 40, 27])
  {
    ReachesBy(PART1, [Add, Mul], 81, [40, 27], 3267);
  }

  /** `292: 11 6 16 20` holds as `11 + 6 * 16 + 20`. */
  lemma Example292()
    ensures Solvable(PART1, 292, [11, 6, 16, 20])
  {
    ReachesBy(PART1, [Add, Mul, Add], 11, [6, 16, 20], 292);
  }

  /** `156: 15 6` needs `||`: neither `15 + 6` nor `15 * 6` is 156. */
  lemma Example156()
    ensures !Solvable(PART1, 156, [15, 6])
    ensures Solvable(PART2, 156, [15, 6])
  {
    assert Decimal(6) == "6";
    ReachesBy(PART2, [Concat], 15, [6], 156);
    assert !Reaches(PART1, 21, [], 156) && !Reaches(PART1, 90, [], 156);
  }
}
