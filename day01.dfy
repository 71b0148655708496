/**
 * Day 1: two columns of location ids. Part 1 pairs the columns up in
 * sorted order and adds the distances; part 2 weighs each left id by how
 * often it appears on the right.
 */
module Day01 {
  import opened Wrappers
  import opened Text

  // ----- Parsing -----

  /** The length of the run of digits `s` starts with. */
  function DigitRun(s: string): (n: nat)
    ensures n <= |s| && AllDigits(s[..n]) && (n < |s| ==> !IsDigit(s[n]))
  {
    if s == [] || !IsDigit(s[0]) then 0
    else
      var n := 1 + DigitRun(s[1..]);
      assert s[..n] == [s[0]] + s[1..][..n - 1];
      n
  }

  predicate IsBlank(c: char)
  {
    c == ' ' || c == '\t'
  }

  /** The length of the run of spaces and tabs `s` starts with. */
  function BlankRun(s: string): (n: nat)
    ensures n <= |s| && (forall i :: 0 <= i < n ==> IsBlank(s[i])) && (n < |s| ==> !IsBlank(s[n]))
  {
    if s == [] || !IsBlank(s[0]) then 0 else 1 + BlankRun(s[1..])
  }

  /** A run of digits read as an `i32`, and what follows it; no digits or a value out of range is an error. */
  function Number(s: string): (r: Option<(int, string)>)
    ensures r.Some? ==> 0 <= r.value.0 <= I32_MAX && |r.value.1| < |s|
  {
    var n := DigitRun(s);
    if n == 0 || DigitsValue(s[..n]) > I32_MAX then None
    else Some((DigitsValue(s[..n]), s[n..]))
  }

  /**
   * A line holds two numbers separated by spaces or tabs; whatever follows
   * the second number is ignored. A line that does not start this way
   * makes the whole input fail.
   */
  function ParseLine(line: string): Option<(int, int)>
  {
    var first := Number(line);
    if first.None? then None
    else
      var rest := first.value.1;
      var gap := BlankRun(rest);
      if gap == 0 then None
      else
        var second := Number(rest[gap..]);
        if second.None? then None else Some((first.value.0, second.value.0))
  }

  /** A line written as two numbers, a gap and anything not starting with a digit reads back. */
  lemma ParseLineRoundTrip(a: nat, b: nat, gap: string, tail: string)
    requires a <= I32_MAX && b <= I32_MAX
    requires |gap| > 0 && forall i :: 0 <= i < |gap| ==> IsBlank(gap[i])
    requires tail == [] || !IsDigit(tail[0])
    ensures ParseLine(Decimal(a) + gap + Decimal(b) + tail) == Some((a, b))
  {
    DecimalValue(a);
    DecimalValue(b);
    ParseLineOf(Decimal(a), gap, Decimal(b), tail);
  }

  lemma ParseLineOf(first: string, gap: string, second: string, tail: string)
    requires |first| > 0 && AllDigits(first) && DigitsValue(first) <= I32_MAX
    requires |second| > 0 && AllDigits(second) && DigitsValue(second) <= I32_MAX
    requires |gap| > 0 && forall i :: 0 <= i < |gap| ==> IsBlank(gap[i])
    requires tail == [] || !IsDigit(tail[0])
    ensures ParseLine(first + gap + second + tail) == Some((DigitsValue(first), DigitsValue(second)))
  {
    var rest := gap + (second + tail);
    assert first + gap + second + tail == first + rest;
    assert rest[0] == gap[0] && IsBlank(gap[0]);
    NumberOf(first, rest);
    BlankRunOf(gap, second + tail);
    NumberOf(second, tail);
    ParseLineParts(first + rest, DigitsValue(first), rest, DigitsValue(second), tail);
  }

  lemma ParseLineParts(line: string, a: int, rest: string, b: int, tail: string)
    requires Number(line) == Some((a, rest)) && BlankRun(rest) > 0
    requires Number(rest[BlankRun(rest)..]) == Some((b, tail))
    ensures ParseLine(line) == Some((a, b))
  {
  }

  /** A run of digits followed by a non-digit is read as its value. */
  lemma NumberOf(digits: string, rest: string)
    requires |digits| > 0 && AllDigits(digits) && DigitsValue(digits) <= I32_MAX
    requires rest == [] || !IsDigit(rest[0])
    ensures Number(digits + rest) == Some((DigitsValue(digits), rest))
  {
    DigitRunOf(digits, rest);
  }

  lemma {:induction false} DigitRunOf(digits: string, rest: string)
    requires AllDigits(digits) && (rest == [] || !IsDigit(rest[0]))
    ensures DigitRun(digits + rest) == |digits|
    ensures (digits + rest)[..|digits|] == digits && (digits + rest)[|digits|..] == rest
    decreases |digits|
  {
    if digits != [] {
      assert (digits + rest)[1..] == digits[1..] + rest;
      DigitRunOf(digits[1..], rest);
    }
  }

  lemma {:induction false} BlankRunOf(gap: string, rest: string)
    requires (forall i :: 0 <= i < |gap| ==> IsBlank(gap[i])) && |rest| > 0 && IsDigit(rest[0])
    ensures BlankRun(gap + rest) == |gap| && (gap + rest)[|gap|..] == rest
    decreases |gap|
  {
    if gap == [] {
      assert gap + rest == rest;
    } else {
      assert (gap + rest)[1..] == gap[1..] + rest;
      BlankRunOf(gap[1..], rest);
    }
  }

  /** The left and right columns, or `None` when some line is malformed. */
  function Parse(lines: seq<string>): (r: Option<(seq<int>, seq<int>)>)
    ensures r.Some? ==> |r.value.0| == |lines| && |r.value.1| == |lines|
  {
    if forall i :: 0 <= i < |lines| ==> ParseLine(lines[i]).Some? then
      Some((seq(|lines|, i requires 0 <= i < |lines| => ParseLine(lines[i]).value.0),
            seq(|lines|, i requires 0 <= i < |lines| => ParseLine(lines[i]).value.1)))
    else None
  }

  // ----- Sorting -----

  predicate Sorted(s: seq<int>)
  {
    forall i :: 0 < i < |s| ==> s[i - 1] <= s[i]
  }

  /** In a sorted sequence no element is larger than a later one. */
  lemma {:induction false} SortedPairwise(s: seq<int>, i: nat, j: nat)
    requires Sorted(s) && i <= j < |s|
    ensures s[i] <= s[j]
    decreases j - i
  {
    if i < j {
      SortedPairwise(s, i + 1, j);
    }
  }

  /** `x` placed before the first larger element of `s`. */
  function Insert(x: int, s: seq<int>): (r: seq<int>)
    requires Sorted(s)
    ensures Sorted(r) && multiset(r) == multiset(s) + multiset{x}
    ensures |r| > 0 && (r[0] == x || (s != [] && r[0] == s[0]))
  {
    if s == [] || x <= s[0] then [x] + s
    else
      assert s == [s[0]] + s[1..];
      [s[0]] + Insert(x, s[1..])
  }

  /** The ascending order of `s`, as `sort_unstable` leaves it. */
  function Sort(s: seq<int>): (r: seq<int>)
    ensures Sorted(r) && multiset(r) == multiset(s)
  {
    if s == [] then []
    else
      assert s == [s[0]] + s[1..];
      Insert(s[0], Sort(s[1..]))
  }

  lemma SortedTail(s: seq<int>)
    requires Sorted(s) && s != []
    ensures Sorted(s[1..])
  {
  }

  /** The elements of `s` after its first. */
  lemma TailMultiset(s: seq<int>)
    requires s != []
    ensures multiset(s[1..]) == multiset(s) - multiset{s[0]}
    ensures s[0] in multiset(s)
  {
    assert s == [s[0]] + s[1..];
  }

  /** The first element of a sorted sequence is its least. */
  lemma SortedLeast(s: seq<int>, x: int)
    requires Sorted(s) && x in multiset(s)
    ensures s != [] && s[0] <= x
  {
    var j :| 0 <= j < |s| && s[j] == x;
    SortedPairwise(s, 0, j);
  }

  /** Two sorted sequences with the same elements are equal: sorting forgets the order. */
  lemma {:induction false} SortedUnique(a: seq<int>, b: seq<int>)
    requires Sorted(a) && Sorted(b) && multiset(a) == multiset(b)
    ensures a == b
    decreases |a|
  {
    assert |a| == |multiset(a)| == |b|;
    if a != [] {
      HeadsAgree(a, b);
      SortedTail(a);
      SortedTail(b);
      SortedUnique(a[1..], b[1..]);
      assert a == [a[0]] + a[1..];
      assert b == [b[0]] + b[1..];
    }
  }

  /** Sorted sequences with the same elements start alike, and so do their remainders' elements. */
  lemma HeadsAgree(a: seq<int>, b: seq<int>)
    requires Sorted(a) && Sorted(b) && multiset(a) == multiset(b) && a != []
    ensures b != [] && a[0] == b[0] && multiset(a[1..]) == multiset(b[1..])
  {
    TailMultiset(a);
    SortedLeast(b, a[0]);
    TailMultiset(b);
    SortedLeast(a, b[0]);
  }

  // ----- Part 1 -----

  function Abs(x: int): nat
  {
    if x < 0 then -x else x
  }

  /** The distances of the pairs at equal positions, over the shorter length, as `zip` does. */
  function Distance(a: seq<int>, b: seq<int>): int
    decreases |a|
  {
    if a == [] || b == [] then 0 else Abs(a[0] - b[0]) + Distance(a[1..], b[1..])
  }

  /** The total distance between the columns, each sorted. */
  function TotalDistance(left: seq<int>, right: seq<int>): int
  {
    Distance(Sort(left), Sort(right))
  }

  /** Reordering either column, as reordering the lines does, leaves the total distance unchanged. */
  lemma TotalDistanceReorder(left: seq<int>, right: seq<int>, left': seq<int>, right': seq<int>)
    requires multiset(left) == multiset(left') && multiset(right) == multiset(right')
    ensures TotalDistance(left, right) == TotalDistance(left', right')
  {
    SortedUnique(Sort(left), Sort(left'));
    SortedUnique(Sort(right), Sort(right'));
  }

  /** The distance of equal sorted columns is zero, and it is never negative. */
  lemma {:induction false} DistanceBounds(a: seq<int>, b: seq<int>)
    ensures Distance(a, b) >= 0
    ensures a == b ==> Distance(a, b) == 0
    decreases |a|
  {
    if a != [] && b != [] {
      DistanceBounds(a[1..], b[1..]);
    }
  }

  /** The total distance is never negative, and zero when both columns hold the same ids. */
  lemma TotalDistanceBounds(left: seq<int>, right: seq<int>)
    ensures TotalDistance(left, right) >= 0
    ensures multiset(left) == multiset(right) ==> TotalDistance(left, right) == 0
  {
    DistanceBounds(Sort(left), Sort(right));
    if multiset(left) == multiset(right) {
      TotalDistanceReorder(left, right, left, left);
      DistanceBounds(Sort(left), Sort(left));
    }
  }

  function Part1(lines: seq<string>): (r: Option<int>)
    ensures r.Some? <==> forall i :: 0 <= i < |lines| ==> ParseLine(lines[i]).Some?
    ensures r.Some? ==> r.value >= 0
    ensures r.Some? && multiset(Parse(lines).value.0) == multiset(Parse(lines).value.1) ==> r.value == 0
  {
    match Parse(lines)
    case None => None
    case Some((left, right)) => TotalDistanceBounds(left, right); Some(TotalDistance(left, right))
  }

  // ----- Part 2 -----

  /** How often `x` occurs in `s`. */
  function Count(s: seq<int>, x: int): nat
  {
    if s == [] then 0 else (if s[0] == x then 1 else 0) + Count(s[1..], x)
  }

  /** The count is the multiplicity of `x` among the elements of `s`. */
  lemma {:induction false} CountMultiset(s: seq<int>, x: int)
    ensures Count(s, x) == multiset(s)[x]
  {
    if s != [] {
      CountMultiset(s[1..], x);
      assert s == [s[0]] + s[1..];
    }
  }

  /** Each left id times its number of occurrences on the right, added up. */
  function Similarity(left: seq<int>, right: seq<int>): int
  {
    if left == [] then 0 else left[0] * Count(right, left[0]) + Similarity(left[1..], right)
  }

  lemma {:induction false} SimilarityAppend(a: seq<int>, b: seq<int>, right: seq<int>)
    ensures Similarity(a + b, right) == Similarity(a, right) + Similarity(b, right)
    decreases |a|
  {
    if a == [] {
      assert a + b == b;
    } else {
      assert (a + b)[0] == a[0] && (a + b)[1..] == a[1..] + b;
      SimilarityAppend(a[1..], b, right);
    }
  }

  /** Only how often each id occurs on the right matters. */
  lemma {:induction false} SimilarityRight(left: seq<int>, right: seq<int>, right': seq<int>)
    requires multiset(right) == multiset(right')
    ensures Similarity(left, right) == Similarity(left, right')
    decreases |left|
  {
    if left != [] {
      CountMultiset(right, left[0]);
      CountMultiset(right', left[0]);
      SimilarityRight(left[1..], right, right');
    }
  }

  /** `s` without its element at `k`. */
  lemma RemoveAt(s: seq<int>, k: nat)
    requires k < |s|
    ensures multiset(s[..k] + s[k + 1..]) == multiset(s) - multiset{s[k]}
  {
    assert s == s[..k] + [s[k]] + s[k + 1..];
    assert multiset(s) == multiset(s[..k]) + multiset{s[k]} + multiset(s[k + 1..]);
  }

  lemma SimilarityCons(x: int, s: seq<int>, right: seq<int>)
    ensures Similarity([x] + s, right) == x * Count(right, x) + Similarity(s, right)
  {
    assert ([x] + s)[1..] == s;
  }

  /** The similarity of `s` with the element at `k` moved to the front. */
  lemma SimilarityRemoveAt(s: seq<int>, k: nat, right: seq<int>)
    requires k < |s|
    ensures Similarity(s, right) == s[k] * Count(right, s[k]) + Similarity(s[..k] + s[k + 1..], right)
  {
    var before, after := s[..k], s[k + 1..];
    assert s == before + ([s[k]] + after);
    SimilarityAppend(before, [s[k]] + after, right);
    SimilarityCons(s[k], after, right);
    SimilarityAppend(before, after, right);
  }

  lemma {:induction false} SimilarityLeft(left: seq<int>, left': seq<int>, right: seq<int>)
    requires multiset(left) == multiset(left')
    ensures Similarity(left, right) == Similarity(left', right)
    decreases |left|
  {
    if left == [] {
      assert |left'| == |multiset(left')| == 0;
    } else {
      TailMultiset(left);
      var k :| 0 <= k < |left'| && left'[k] == left[0];
      RemoveAt(left', k);
      SimilarityLeft(left[1..], left'[..k] + left'[k + 1..], right);
      SimilarityRemoveAt(left', k, right);
    }
  }

  /** The similarity depends only on which ids each column holds, not on their order. */
  lemma SimilarityReorder(left: seq<int>, right: seq<int>, left': seq<int>, right': seq<int>)
    requires multiset(left) == multiset(left') && multiset(right) == multiset(right')
    ensures Similarity(left, right) == Similarity(left', right')
  {
    SimilarityLeft(left, left', right);
    SimilarityRight(left', right, right');
  }

  function Part2(lines: seq<string>): (r: Option<int>)
    ensures r.Some? <==> forall i :: 0 <= i < |lines| ==> ParseLine(lines[i]).Some?
    ensures r.Some? && (forall x :: x in Parse(lines).value.0 ==> x !in Parse(lines).value.1) ==> r.value == 0
  {
    match Parse(lines)
    case None => None
    case Some((left, right)) =>
      SimilarityDisjoint(left, right);
      Some(Similarity(left, right))
  }

  /** No left id occurring on the right gives similarity zero. */
  lemma {:induction false} SimilarityDisjoint(left: seq<int>, right: seq<int>)
    ensures (forall x :: x in left ==> x !in right) ==> Similarity(left, right) == 0
  {
    if left != [] && forall x :: x in left ==> x !in right {
      CountMultiset(right, left[0]);
      assert left[0] in left && multiset(right)[left[0]] == 0;
      assert forall x :: x in left[1..] ==> x in left;
      SimilarityDisjoint(left[1..], right);
    }
  }

  // ----- The example -----

  const EXAMPLE_LEFT: seq<int> := [3, 4, 2, 1, 3, 3]
  const EXAMPLE_RIGHT: seq<int> := [4, 3, 5, 3, 9, 3]

  const SORTED_LEFT: seq<int> := [1, 2, 3, 3, 3, 4]
  const SORTED_RIGHT: seq<int> := [3, 3, 3, 4, 5, 9]

  lemma ExampleSorted(s: seq<int>, sorted: seq<int>)
    requires Sorted(sorted) && multiset(s) == multiset(sorted)
    ensures Sort(s) == sorted
  {
    SortedUnique(Sort(s), sorted);
  }

  lemma ExampleLeftMultiset()
    ensures multiset(EXAMPLE_LEFT) == multiset(SORTED_LEFT)
  {
  }

  lemma ExampleRightMultiset()
    ensures multiset(EXAMPLE_RIGHT) == multiset(SORTED_RIGHT)
  {
  }

  lemma ExampleSortedColumns()
    ensures Sorted(SORTED_LEFT) && Sorted(SORTED_RIGHT)
  {
  }

  lemma ExampleSortedDistance()
    ensures Distance(SORTED_LEFT, SORTED_RIGHT) == 11
  {
  }

  /** The example's total distance is 11. */
  lemma ExampleDistance(left: seq<int>, right: seq<int>)
    requires left == EXAMPLE_LEFT && right == EXAMPLE_RIGHT
    ensures TotalDistance(left, right) == 11
  {
    ExampleLeftMultiset();
    ExampleRightMultiset();
    ExampleSortedColumns();
    ExampleSortedDistance();
    ExampleSorted(left, SORTED_LEFT);
    ExampleSorted(right, SORTED_RIGHT);
  }

  lemma ExampleCounts()
    ensures Count(EXAMPLE_RIGHT, 3) == 3 && Count(EXAMPLE_RIGHT, 4) == 1
    ensures Count(EXAMPLE_RIGHT, 2) == 0 && Count(EXAMPLE_RIGHT, 1) == 0
  {
  }

  /** The example's similarity is 31. */
  lemma ExampleSimilarity()
    ensures Similarity(EXAMPLE_LEFT, EXAMPLE_RIGHT) == 31
  {
    ExampleCounts();
    assert Similarity([3], EXAMPLE_RIGHT) == 9;
    assert Similarity([3, 3], EXAMPLE_RIGHT) == 18;
    assert Similarity([1, 3, 3], EXAMPLE_RIGHT) == 18;
    assert Similarity([2, 1, 3, 3], EXAMPLE_RIGHT) == 18;
    assert Similarity([4, 2, 1, 3, 3], EXAMPLE_RIGHT) == 22;
  }
}
