/**
 * Day 2: reactor reports. A report is safe when its levels change in one
 * direction by 1 to 3 at every step; part 2 also accepts a report that
 * becomes safe once one level is removed.
 */
module Day02 {
  import opened Wrappers
  import opened Text

  /** The levels of a line: numbers separated by single spaces. Any piece that is not an `i32` fails. */
  function ParseReport(line: string): Option<seq<int>>
  {
    ParseI32s(Split(line, ' '))
  }

  function Signum(x: int): int
  {
    if x > 0 then 1 else if x < 0 then -1 else 0
  }

  /** One step from `a` to `b` changes by 1 to 3 in the direction `signum`. */
  predicate ValidPair(a: int, b: int, signum: int)
    ensures ValidPair(a, b, signum) <==> (signum == 1 && a + 1 <= b <= a + 3) || (signum == -1 && a - 3 <= b <= a - 1)
  {
    var diff := b - a;
    var size := if diff < 0 then -diff else diff;
    1 <= size <= 3 && Signum(diff) == signum
  }

  /** Every two neighbouring levels form a valid step. */
  predicate ValidList(levels: seq<int>, signum: int)
    ensures |levels| < 2 ==> ValidList(levels, signum)
    ensures ValidList(levels, signum) && |levels| >= 2 ==> ValidPair(levels[0], levels[1], signum) && (signum == 1 || signum == -1)
  {
    forall i :: 0 < i < |levels| ==> ValidPair(levels[i - 1], levels[i], signum)
  }

  /** A valid rising list rises between any two positions, by at most 3 per step. */
  lemma {:induction false} ValidListGradual(levels: seq<int>, signum: int, i: nat, j: nat)
    requires ValidList(levels, signum) && i < j < |levels|
    ensures signum == 1 ==> levels[i] < levels[j] <= levels[i] + 3 * (j - i)
    ensures signum == -1 ==> levels[i] > levels[j] >= levels[i] - 3 * (j - i)
    ensures signum != 1 && signum != -1 ==> false
    decreases j - i
  {
    assert ValidPair(levels[j - 1], levels[j], signum);
    if i < j - 1 {
      ValidListGradual(levels, signum, i, j - 1);
    }
  }

  /** Part 1: the direction is fixed by the first two levels. */
  predicate Safe(levels: seq<int>)
    requires |levels| >= 2
  {
    ValidList(levels, Signum(levels[1] - levels[0]))
  }

  /** A safe report keeps one direction and steps by 1 to 3, whichever the direction. */
  lemma SafeMeans(levels: seq<int>)
    requires |levels| >= 2
    ensures Safe(levels) <==>
              (forall i :: 0 < i < |levels| ==> 1 <= levels[i] - levels[i - 1] <= 3) ||
              (forall i :: 0 < i < |levels| ==> 1 <= levels[i - 1] - levels[i] <= 3)
  {
    var up := forall i :: 0 < i < |levels| ==> 1 <= levels[i] - levels[i - 1] <= 3;
    var down := forall i :: 0 < i < |levels| ==> 1 <= levels[i - 1] - levels[i] <= 3;
    if up {
      assert Signum(levels[1] - levels[0]) == 1;
      assert forall i :: 0 < i < |levels| ==> ValidPair(levels[i - 1], levels[i], 1);
    } else if down {
      assert Signum(levels[1] - levels[0]) == -1;
      assert forall i :: 0 < i < |levels| ==> ValidPair(levels[i - 1], levels[i], -1);
    }
    if Safe(levels) {
      assert ValidPair(levels[0], levels[1], Signum(levels[1] - levels[0]));
    }
  }

  /** The levels without the one at `exclude`; an index past the end removes nothing. */
  function Without(levels: seq<int>, exclude: nat): (r: seq<int>)
    ensures exclude >= |levels| ==> r == levels
    ensures exclude < |levels| ==> (|r| == |levels| - 1 &&
              forall i :: 0 <= i < |r| ==> r[i] == (if i < exclude then levels[i] else levels[i + 1]))
  {
    if exclude >= |levels| then levels else levels[..exclude] + levels[exclude + 1..]
  }

  /** Whether removing the level at some index from `from` up to `|levels|` gives a safe report. */
  predicate SafeFrom(levels: seq<int>, from: nat)
    requires |levels| >= 3
    decreases |levels| + 1 - from
  {
    from <= |levels| && (Safe(Without(levels, from)) || SafeFrom(levels, from + 1))
  }

  /** Part 2: some removal, or none (`exclude == |levels|`), leaves a safe report. */
  predicate Dampened(levels: seq<int>)
    requires |levels| >= 3
  {
    SafeFrom(levels, 0)
  }

  lemma {:induction false} SafeFromMeans(levels: seq<int>, from: nat)
    requires |levels| >= 3
    ensures SafeFrom(levels, from) <==> exists e :: from <= e <= |levels| && Safe(Without(levels, e))
    decreases |levels| + 1 - from
  {
    if from <= |levels| {
      SafeFromMeans(levels, from + 1);
      if SafeFrom(levels, from + 1) {
        var e :| from + 1 <= e <= |levels| && Safe(Without(levels, e));
        assert from <= e;
      }
      if exists e :: from <= e <= |levels| && Safe(Without(levels, e)) {
        var e :| from <= e <= |levels| && Safe(Without(levels, e));
        if e != from {
          assert from + 1 <= e <= |levels| && Safe(Without(levels, e));
          assert SafeFrom(levels, from + 1);
        }
      }
    }
  }

  /** A report passes the dampener iff removing at most one level makes it safe. */
  lemma DampenedMeans(levels: seq<int>)
    requires |levels| >= 3
    ensures Dampened(levels) <==> Safe(levels) || exists e :: 0 <= e < |levels| && Safe(Without(levels, e))
  {
    SafeFromMeans(levels, 0);
    if Dampened(levels) && !Safe(levels) {
      var e :| 0 <= e <= |levels| && Safe(Without(levels, e));
      assert e < |levels|;
    }
    if Safe(levels) {
      assert Safe(Without(levels, |levels|));
    }
  }

  /** Every report safe for part 1 is safe for part 2. */
  lemma SafeIsDampened(levels: seq<int>)
    requires |levels| >= 3 && Safe(levels)
    ensures Dampened(levels)
  {
    DampenedMeans(levels);
  }

  /** The reports of the lines, or `None` when a line does not parse or is shorter than `minimum`. */
  function Reports(lines: seq<string>, minimum: nat): (r: Option<seq<seq<int>>>)
    ensures r.Some? ==> |r.value| == |lines| && forall i :: 0 <= i < |lines| ==> |r.value[i]| >= minimum
  {
    if lines == [] then Some([])
    else
      match ParseReport(lines[|lines| - 1])
      case None => None
      case Some(last) =>
        if |last| < minimum then None
        else
          match Reports(lines[..|lines| - 1], minimum)
          case None => None
          case Some(rest) => Some(rest + [last])
  }

  function CountSafe(reports: seq<seq<int>>): (n: nat)
    requires forall i :: 0 <= i < |reports| ==> |reports[i]| >= 2
    ensures n <= |reports|
  {
    if reports == [] then 0
    else CountSafe(reports[..|reports| - 1]) + (if Safe(reports[|reports| - 1]) then 1 else 0)
  }

  function CountDampened(reports: seq<seq<int>>): (n: nat)
    requires forall i :: 0 <= i < |reports| ==> |reports[i]| >= 3
    ensures n <= |reports|
  {
    if reports == [] then 0
    else CountDampened(reports[..|reports| - 1]) + (if Dampened(reports[|reports| - 1]) then 1 else 0)
  }

  /** Dampening never lowers the count. */
  lemma {:induction false} CountSafeAtMostDampened(reports: seq<seq<int>>)
    requires forall i :: 0 <= i < |reports| ==> |reports[i]| >= 3
    ensures CountSafe(reports) <= CountDampened(reports)
  {
    if reports != [] {
      CountSafeAtMostDampened(reports[..|reports| - 1]);
      if Safe(reports[|reports| - 1]) {
        SafeIsDampened(reports[|reports| - 1]);
      }
    }
  }

  /**
   * Part 1, or `None` where the source panics: a line that does not parse,
   * or a report with fewer than two levels.
   */
  function Part1(lines: seq<string>): (r: Option<nat>)
    ensures r.Some? ==> r.value <= |lines|
  {
    match Reports(lines, 2)
    case None => None
    case Some(reports) => Some(CountSafe(reports))
  }

  /**
   * Part 2, or `None` where the source panics: a line that does not parse,
   * or a report with fewer than three levels, whose first removal leaves
   * fewer than two.
   */
  function Part2(lines: seq<string>): (r: Option<nat>)
    ensures r.Some? ==> r.value <= |lines|
  {
    match Reports(lines, 3)
    case None => None
    case Some(reports) => Some(CountDampened(reports))
  }

  /** A report list that parses with three levels each parses with two each, to the same reports. */
  lemma {:induction false} ReportsMinimum(lines: seq<string>)
    requires Reports(lines, 3).Some?
    ensures Reports(lines, 2) == Reports(lines, 3)
  {
    if lines != [] {
      ReportsMinimum(lines[..|lines| - 1]);
    }
  }

  /** Where both parts have an answer, part 2's is at least part 1's. */
  lemma Part1AtMostPart2(lines: seq<string>)
    requires Part2(lines).Some?
    ensures Part1(lines).Some? && Part1(lines).value <= Part2(lines).value
  {
    ReportsMinimum(lines);
    CountSafeAtMostDampened(Reports(lines, 3).value);
  }

  // ----- The example -----

  const R0: seq<int> := [7, 6, 4, 2, 1]
  const R1: seq<int> := [1, 2, 7, 8, 9]
  const R2: seq<int> := [9, 7, 6, 2, 1]
  const R3: seq<int> := [1, 3, 2, 4, 5]
  const R4: seq<int> := [8, 6, 4, 4, 1]
  const R5: seq<int> := [1, 3, 6, 7, 9]

  /** Of the example's six reports, the first and the last are safe. */
  lemma ExampleSafe()
    ensures Safe(R0) && !Safe(R1) && !Safe(R2) && !Safe(R3) && !Safe(R4) && Safe(R5)
  {
    assert !ValidPair(R1[1], R1[2], 1);
    assert !ValidPair(R2[2], R2[3], -1);
    assert !ValidPair(R3[1], R3[2], 1);
    assert !ValidPair(R4[2], R4[3], -1);
  }
}
