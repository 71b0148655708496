/**
 * Day 5: print queues. Rules `a|b` say page `a` must come before page `b`.
 * Part 1 adds the middle pages of the prints that break no rule; part 2
 * sorts the other prints by the rules and adds their middle pages.
 */
module Day05 {
  import opened Wrappers
  import opened Text

  /** `(before, after)`: page `before` must be printed before page `after`. */
  type Rule = (int, int)

  // ----- Parsing -----

  /** `before|after`: the first two pieces around `|`, each an `i32`; further pieces are ignored. */
  function ParseRule(line: string): Option<Rule>
  {
    var pieces := Split(line, '|');
    if |pieces| < 2 then None
    else
      match (ParseI32(pieces[0]), ParseI32(pieces[1]))
      case (Some(before), Some(after)) => Some((before, after))
      case _ => None
  }

  /** A rule written out as `before|after` reads back. */
  lemma ParseRuleRoundTrip(before: nat, after: nat)
    requires before <= I32_MAX && after <= I32_MAX
    ensures ParseRule(Decimal(before) + "|" + Decimal(after)) == Some((before, after))
  {
    var parts := [Decimal(before), Decimal(after)];
    assert '|' !in Decimal(before) && '|' !in Decimal(after);
    assert Join(parts[1..], '|') == Decimal(after);
    SplitJoin(parts, '|');
    ParseI32Signed(before);
    ParseI32Signed(after);
  }

  /** A print: pages separated by commas, each an `i32`. */
  function ParsePrint(line: string): (r: Option<seq<int>>)
    ensures r.Some? ==> |r.value| >= 1
  {
    ParseI32s(Split(line, ','))
  }

  /** A print written out with commas reads back. */
  lemma ParsePrintRoundTrip(pages: seq<nat>)
    requires |pages| >= 1 && forall i :: 0 <= i < |pages| ==> pages[i] <= I32_MAX
    ensures ParsePrint(Join(Decimals(pages), ',')) == Some(pages)
  {
    var parts := Decimals(pages);
    forall i | 0 <= i < |parts|
      ensures ',' !in parts[i]
    {
      assert AllDigits(parts[i]);
    }
    SplitJoin(parts, ',');
    ParseI32sDecimals(pages);
  }

  /**
   * Where `split("\n\n")` first cuts the input, counted in its lines (the
   * input split at every `\n`): the first blank line that has a line before
   * it and a line after it. A blank first or last line is no cut.
   */
  function Separator(lines: seq<string>): (r: Option<nat>)
    ensures r.None? <==> forall j :: 1 <= j < |lines| - 1 ==> lines[j] != ""
    ensures r.Some? ==> 1 <= r.value < |lines| - 1 && lines[r.value] == ""
    ensures r.Some? ==> forall j :: 1 <= j < r.value ==> lines[j] != ""
  {
    SeparatorFrom(lines, 1)
  }

  function SeparatorFrom(lines: seq<string>, j: nat): (r: Option<nat>)
    requires j >= 1
    ensures r.None? <==> forall k :: j <= k < |lines| - 1 ==> lines[k] != ""
    ensures r.Some? ==> j <= r.value < |lines| - 1 && lines[r.value] == ""
    ensures r.Some? ==> forall k :: j <= k < r.value ==> lines[k] != ""
    decreases |lines| - j
  {
    if j >= |lines| - 1 then None
    else if lines[j] == "" then Some(j)
    else SeparatorFrom(lines, j + 1)
  }

  /** Rust's `lines` on the text of `pieces` joined by `\n`: a final empty piece is no line. */
  function TextLines(pieces: seq<string>): (r: seq<string>)
    ensures r == pieces || (pieces != [] && pieces[|pieces| - 1] == "" && r == pieces[..|pieces| - 1])
  {
    if |pieces| > 0 && pieces[|pieces| - 1] == "" then pieces[..|pieces| - 1] else pieces
  }

  /**
   * The lines of the first two pieces of `split("\n\n")`: the text before
   * the first cut, and the text after it up to the next cut or the end.
   * Without a cut there is no second piece, which is an error. A piece may
   * still start with a blank line (three newlines in a row), which then
   * fails to parse, as in the source.
   */
  function Sections(lines: seq<string>): (r: Option<(seq<string>, seq<string>)>)
    ensures r.Some? <==> exists j :: 1 <= j < |lines| - 1 && lines[j] == ""
    ensures r.Some? ==> |r.value.0| + 1 + |r.value.1| <= |lines|
    ensures r.Some? ==> forall k :: 1 <= k < |r.value.0| ==> r.value.0[k] != ""
    ensures r.Some? ==> forall k :: 1 <= k < |r.value.1| ==> r.value.1[k] != ""
  {
    match Separator(lines)
    case None => None
    case Some(j) =>
      var rest := lines[j + 1..];
      var second := match Separator(rest) case None => rest case Some(m) => rest[..m];
      Some((TextLines(lines[..j]), TextLines(second)))
  }

  /** Two non-empty sections written out with one blank line between them are read back. */
  lemma SectionsRoundTrip(first: seq<string>, second: seq<string>)
    requires "" !in first && "" !in second && first != [] && second != []
    ensures Sections(first + [""] + second) == Some((first, second))
  {
    var lines := first + [""] + second;
    assert lines[|first|] == "";
    var j := Separator(lines).value;
    assert j == |first|;
    assert lines[..j] == first;
    assert lines[j + 1..] == second;
  }

  /** A blank line right after the cut starts the prints with an empty
    * line, which does not parse: the source panics on it. */
  lemma ThreeNewlines()
    ensures Sections(["1|2", "", "", "1"]) == Some((["1|2"], ["", "1"]))
    ensures Parse(["1|2", "", "", "1"]) == None
  {
    var lines := ["1|2", "", "", "1"];
    assert Separator(lines) == Some(1);
    var rest := lines[2..];
    assert rest == ["", "1"];
    assert Separator(rest) == None;
    assert lines[..1] == ["1|2"];
    assert ParsePrint("") == None by {
      assert Split("", ',') == [""];
      assert ParseI32([""][0]) == None;
    }
    assert !ParsePrints(["", "1"]).Some? by {
      assert ["", "1"][0] == "";
    }
  }

  function ParseRules(lines: seq<string>): (r: Option<seq<Rule>>)
    ensures r.Some? <==> forall i :: 0 <= i < |lines| ==> ParseRule(lines[i]).Some?
    ensures r.Some? ==> |r.value| == |lines| && forall i :: 0 <= i < |lines| ==> Some(r.value[i]) == ParseRule(lines[i])
  {
    if forall i :: 0 <= i < |lines| ==> ParseRule(lines[i]).Some? then
      Some(seq(|lines|, i requires 0 <= i < |lines| => ParseRule(lines[i]).value))
    else None
  }

  function ParsePrints(lines: seq<string>): (r: Option<seq<seq<int>>>)
    ensures r.Some? <==> forall i :: 0 <= i < |lines| ==> ParsePrint(lines[i]).Some?
    ensures r.Some? ==> |r.value| == |lines| && forall i :: 0 <= i < |lines| ==> Some(r.value[i]) == ParsePrint(lines[i])
  {
    if forall i :: 0 <= i < |lines| ==> ParsePrint(lines[i]).Some? then
      Some(seq(|lines|, i requires 0 <= i < |lines| => ParsePrint(lines[i]).value))
    else None
  }

  /** The rules and the prints; any malformed line or a missing section fails the whole input. */
  function Parse(lines: seq<string>): (r: Option<(seq<Rule>, seq<seq<int>>)>)
    ensures r.Some? ==> forall i :: 0 <= i < |r.value.1| ==> |r.value.1[i]| >= 1
  {
    match Sections(lines)
    case None => None
    case Some((ruleLines, printLines)) =>
      match (ParseRules(ruleLines), ParsePrints(printLines))
      case (Some(rules), Some(prints)) => Some((rules, prints))
      case _ => None
  }

  // ----- Part 1 -----

  /** Where `x` first appears in `p`, as `position` finds it. */
  function Position(p: seq<int>, x: int): (r: Option<nat>)
    ensures r.Some? <==> x in p
    ensures r.Some? ==> r.value < |p| && p[r.value] == x && x !in p[..r.value]
  {
    if x in p then Some(IndexOf(p, x)) else None
  }

  /** Both pages of the rule are in the print, and the first `before` comes after the first `after`. */
  predicate Violates(rule: Rule, p: seq<int>)
  {
    match (Position(p, rule.0), Position(p, rule.1))
    case (Some(before), Some(after)) => before > after
    case _ => false
  }

  /** No rule is broken by the print. */
  predicate Correct(rules: seq<Rule>, p: seq<int>)
  {
    forall k :: 0 <= k < |rules| ==> !Violates(rules[k], p)
  }

  /** The first `i` of a print with no repeated page is at `i`. */
  lemma PositionDistinct(p: seq<int>, i: nat)
    requires i < |p| && forall a, b :: 0 <= a < b < |p| ==> p[a] != p[b]
    ensures Position(p, p[i]) == Some(i)
  {
  }

  /**
   * For a print that repeats no page, being correct means that no rule asks
   * for a later page to come before an earlier one.
   */
  lemma CorrectMeans(rules: seq<Rule>, p: seq<int>)
    requires forall a, b :: 0 <= a < b < |p| ==> p[a] != p[b]
    ensures Correct(rules, p) <==> forall i, j :: 0 <= i < j < |p| ==> (p[j], p[i]) !in rules
  {
    if Correct(rules, p) {
      forall i, j | 0 <= i < j < |p|
        ensures (p[j], p[i]) !in rules
      {
        PositionDistinct(p, i);
        PositionDistinct(p, j);
        assert Violates((p[j], p[i]), p);
      }
    }
    if !Correct(rules, p) {
      var k :| 0 <= k < |rules| && Violates(rules[k], p);
      var before := Position(p, rules[k].0).value;
      var after := Position(p, rules[k].1).value;
      assert (p[before], p[after]) in rules;
    }
  }

  lemma CorrectPrefix(rules: seq<Rule>, r: nat, p: seq<int>)
    requires r < |rules|
    ensures Correct(rules[..r + 1], p) <==> Correct(rules[..r], p) && !Violates(rules[r], p)
  {
    assert rules[..r + 1][r] == rules[r];
  }

  /** Whether each print is correct, found rule by rule as the source's loops do. */
  method CorrectPrints(rules: seq<Rule>, prints: seq<seq<int>>) returns (correct: seq<bool>)
    ensures |correct| == |prints|
    ensures forall i :: 0 <= i < |prints| ==> correct[i] == Correct(rules, prints[i])
  {
    correct := seq(|prints|, _ => true);
    for r := 0 to |rules|
      invariant |correct| == |prints|
      invariant forall i :: 0 <= i < |prints| ==> correct[i] == Correct(rules[..r], prints[i])
    {
      var checked := CheckRule(rules[r], prints, correct);
      forall i | 0 <= i < |prints|
        ensures checked[i] == Correct(rules[..r + 1], prints[i])
      {
        CorrectPrefix(rules, r, prints[i]);
      }
      correct := checked;
    }
    assert rules[..|rules|] == rules;
  }

  /** Clears the flag of every print the rule is broken by. */
  method CheckRule(rule: Rule, prints: seq<seq<int>>, correct: seq<bool>) returns (checked: seq<bool>)
    requires |correct| == |prints|
    ensures |checked| == |prints|
    ensures forall i :: 0 <= i < |prints| ==> checked[i] == (correct[i] && !Violates(rule, prints[i]))
  {
    var (before, after) := rule;
    checked := correct;
    for i := 0 to |prints|
      invariant |checked| == |prints|
      invariant forall k :: 0 <= k < i ==> checked[k] == (correct[k] && !Violates(rule, prints[k]))
      invariant forall k :: i <= k < |prints| ==> checked[k] == correct[k]
    {
      var b, a := Position(prints[i], before), Position(prints[i], after);
      if b.Some? && a.Some? && b.value > a.value {
        checked := checked[i := false];
      }
    }
  }

  function Middle(p: seq<int>): int
    requires |p| >= 1
  {
    p[|p| / 2]
  }

  /** The middle pages of the correct prints, added up. */
  function CorrectMiddles(rules: seq<Rule>, prints: seq<seq<int>>): int
    requires forall i :: 0 <= i < |prints| ==> |prints[i]| >= 1
  {
    if prints == [] then 0
    else
      var last := prints[|prints| - 1];
      CorrectMiddles(rules, prints[..|prints| - 1]) + (if Correct(rules, last) then Middle(last) else 0)
  }

  /** The middle pages of the prints whose flag is set, added up. */
  function FlaggedMiddles(flags: seq<bool>, prints: seq<seq<int>>): int
    requires |flags| == |prints| && forall i :: 0 <= i < |prints| ==> |prints[i]| >= 1
  {
    if prints == [] then 0
    else
      var n := |prints| - 1;
      FlaggedMiddles(flags[..n], prints[..n]) + (if flags[n] then Middle(prints[n]) else 0)
  }

  lemma {:induction false} FlaggedCorrect(rules: seq<Rule>, flags: seq<bool>, prints: seq<seq<int>>)
    requires |flags| == |prints| && forall i :: 0 <= i < |prints| ==> |prints[i]| >= 1
    requires forall i :: 0 <= i < |prints| ==> flags[i] == Correct(rules, prints[i])
    ensures FlaggedMiddles(flags, prints) == CorrectMiddles(rules, prints)
  {
    if prints != [] {
      var n := |prints| - 1;
      FlaggedCorrect(rules, flags[..n], prints[..n]);
    }
  }

  /** Part 1, or `None` where the source panics on malformed input. */
  method Part1(lines: seq<string>) returns (r: Option<int>)
    ensures Parse(lines).None? ==> r.None?
    ensures Parse(lines).Some? ==> r == Some(CorrectMiddles(Parse(lines).value.0, Parse(lines).value.1))
  {
    var parsed := Parse(lines);
    if parsed.None? {
      return None;
    }
    var (rules, prints) := parsed.value;
    var correct := CorrectPrints(rules, prints);
    FlaggedCorrect(rules, correct, prints);
    return Some(FlaggedMiddles(correct, prints));
  }

  // ----- Part 2 -----

  datatype Ordering = Less | Equal | Greater

  /** The first rule mentioning both pages decides their order; with none they are equal. */
  function Compare(rules: seq<Rule>, a: int, b: int): Ordering
  {
    if rules == [] then Equal
    else if a == rules[0].0 && b == rules[0].1 then Less
    else if a == rules[0].1 && b == rules[0].0 then Greater
    else Compare(rules[1..], a, b)
  }

  /** `Less` and `Greater` come only from a rule in that direction, and `Equal` only when no rule relates the pages. */
  lemma {:induction false} CompareMeans(rules: seq<Rule>, a: int, b: int)
    ensures Compare(rules, a, b) == Less ==> (a, b) in rules
    ensures Compare(rules, a, b) == Greater ==> (b, a) in rules
    ensures Compare(rules, a, b) == Equal <==> (a, b) !in rules && (b, a) !in rules
  {
    if rules != [] {
      CompareMeans(rules[1..], a, b);
      assert rules == [rules[0]] + rules[1..];
    }
  }

  /** Swapping the pages turns `Greater` into `Less`. */
  lemma {:induction false} CompareFlip(rules: seq<Rule>, a: int, b: int)
    ensures Compare(rules, a, b) == Greater ==> Compare(rules, b, a) == Less
    ensures a != b ==> (Compare(rules, b, a) == Less ==> Compare(rules, a, b) == Greater)
  {
    if rules != [] {
      CompareFlip(rules[1..], a, b);
    }
  }

  /** No two neighbouring pages are in the wrong order. */
  predicate LocallySorted(rules: seq<Rule>, p: seq<int>)
  {
    forall i :: 0 < i < |p| ==> Compare(rules, p[i - 1], p[i]) != Greater
  }

  /** `x` moved back from the end of `sorted` past every page that should follow it. */
  function InsertBack(rules: seq<Rule>, sorted: seq<int>, x: int): (r: seq<int>)
    ensures |r| == |sorted| + 1
    ensures r[|r| - 1] == x || (sorted != [] && r[|r| - 1] == sorted[|sorted| - 1])
  {
    if sorted == [] || Compare(rules, sorted[|sorted| - 1], x) != Greater then sorted + [x]
    else InsertBack(rules, sorted[..|sorted| - 1], x) + [sorted[|sorted| - 1]]
  }

  /** The print sorted by the comparator, one page at a time from the left. */
  function SortByRules(rules: seq<Rule>, p: seq<int>): (r: seq<int>)
    ensures |r| == |p|
  {
    if p == [] then [] else InsertBack(rules, SortByRules(rules, p[..|p| - 1]), p[|p| - 1])
  }

  lemma {:induction false} InsertBackPermutation(rules: seq<Rule>, sorted: seq<int>, x: int)
    ensures multiset(InsertBack(rules, sorted, x)) == multiset(sorted) + multiset{x}
  {
    if sorted != [] && Compare(rules, sorted[|sorted| - 1], x) == Greater {
      var n := |sorted| - 1;
      InsertBackPermutation(rules, sorted[..n], x);
      assert sorted == sorted[..n] + [sorted[n]];
    }
  }

  lemma {:induction false} InsertBackSorted(rules: seq<Rule>, sorted: seq<int>, x: int)
    requires LocallySorted(rules, sorted)
    ensures LocallySorted(rules, InsertBack(rules, sorted, x))
  {
    if sorted != [] && Compare(rules, sorted[|sorted| - 1], x) == Greater {
      var n := |sorted| - 1;
      InsertBackSorted(rules, sorted[..n], x);
      CompareFlip(rules, sorted[n], x);
      var front := InsertBack(rules, sorted[..n], x);
      if front[|front| - 1] != x {
        assert front[|front| - 1] == sorted[n - 1];
      }
    }
  }

  /** Sorting keeps the pages of the print, each as often as it occurs. */
  lemma {:induction false} SortByRulesPermutation(rules: seq<Rule>, p: seq<int>)
    ensures multiset(SortByRules(rules, p)) == multiset(p)
  {
    if p != [] {
      var n := |p| - 1;
      SortByRulesPermutation(rules, p[..n]);
      InsertBackPermutation(rules, SortByRules(rules, p[..n]), p[n]);
      assert p == p[..n] + [p[n]];
    }
  }

  /** After sorting, no neighbouring pages break a rule the comparator sees. */
  lemma {:induction false} SortByRulesSorted(rules: seq<Rule>, p: seq<int>)
    ensures LocallySorted(rules, SortByRules(rules, p))
  {
    if p != [] {
      var n := |p| - 1;
      SortByRulesSorted(rules, p[..n]);
      InsertBackSorted(rules, SortByRules(rules, p[..n]), p[n]);
    }
  }

  /** A print already in order is left as it is. */
  lemma {:induction false} SortByRulesSortedInput(rules: seq<Rule>, p: seq<int>)
    requires LocallySorted(rules, p)
    ensures SortByRules(rules, p) == p
  {
    if p != [] {
      var n := |p| - 1;
      SortByRulesSortedInput(rules, p[..n]);
      assert p == p[..n] + [p[n]];
    }
  }

  /** A correct print that repeats no page is unchanged by the sort. */
  lemma SortCorrect(rules: seq<Rule>, p: seq<int>)
    requires Correct(rules, p) && forall a, b :: 0 <= a < b < |p| ==> p[a] != p[b]
    ensures SortByRules(rules, p) == p
  {
    CorrectMeans(rules, p);
    forall i | 0 < i < |p|
      ensures Compare(rules, p[i - 1], p[i]) != Greater
    {
      CompareMeans(rules, p[i - 1], p[i]);
    }
    SortByRulesSortedInput(rules, p);
  }

  /** Moves `a[i]` back over the earlier pages that should follow it. */
  method InsertAt(a: array<int>, i: nat, rules: seq<Rule>)
    requires i < a.Length
    modifies a
    ensures a[..i + 1] == InsertBack(rules, old(a[..i]), old(a[i]))
    ensures a[i + 1..] == old(a[i + 1..])
  {
    var x := a[i];
    var j := i;
    assert a[..i + 1] == a[..i] + [x];
    while j > 0 && Compare(rules, a[j - 1], x) == Greater
      invariant 0 <= j <= i && a[j] == x
      invariant a[i + 1..] == old(a[i + 1..])
      invariant InsertBack(rules, old(a[..i]), x) == InsertBack(rules, a[..j], x) + a[j + 1..i + 1]
      decreases j
    {
      ghost var pre := a[..];
      assert a[..j] == a[..j - 1] + [a[j - 1]];
      assert InsertBack(rules, a[..j], x) + a[j + 1..i + 1] == InsertBack(rules, a[..j - 1], x) + ([a[j - 1]] + a[j + 1..i + 1]);
      a[j - 1], a[j] := a[j], a[j - 1];
      assert a[..j - 1] == pre[..j - 1];
      assert a[j..i + 1] == [pre[j - 1]] + pre[j + 1..i + 1];
      j := j - 1;
    }
    assert a[..i + 1] == a[..j] + [x] + a[j + 1..i + 1];
  }

  /** Sorts the print in place by the comparator. */
  method SortPrint(a: array<int>, rules: seq<Rule>)
    modifies a
    ensures a[..] == SortByRules(rules, old(a[..]))
  {
    ghost var input := a[..];
    for i := 0 to a.Length
      invariant a[..i] == SortByRules(rules, input[..i])
      invariant a[i..] == input[i..]
    {
      assert input[..i + 1][..i] == input[..i];
      InsertAt(a, i, rules);
    }
    assert input[..a.Length] == input;
  }

  /** The middle pages of the incorrect prints once sorted, added up. */
  function SortedMiddles(rules: seq<Rule>, prints: seq<seq<int>>): int
    requires forall i :: 0 <= i < |prints| ==> |prints[i]| >= 1
  {
    if prints == [] then 0
    else
      var last := prints[|prints| - 1];
      SortedMiddles(rules, prints[..|prints| - 1]) +
      (if Correct(rules, last) then 0 else Middle(SortByRules(rules, last)))
  }

  /** The middle page of the print once sorted in place. */
  method SortedMiddle(p: seq<int>, rules: seq<Rule>) returns (m: int)
    requires |p| >= 1
    ensures m == Middle(SortByRules(rules, p))
  {
    var a := new int[|p|](k requires 0 <= k < |p| => p[k]);
    assert a[..] == p;
    SortPrint(a, rules);
    m := a[a.Length / 2];
  }

  /** The sum over the parsed prints: the incorrect ones are sorted and their middles added. */
  method SumSortedMiddles(rules: seq<Rule>, prints: seq<seq<int>>) returns (total: int)
    requires forall i :: 0 <= i < |prints| ==> |prints[i]| >= 1
    ensures total == SortedMiddles(rules, prints)
  {
    var correct := CorrectPrints(rules, prints);
    total := 0;
    for i := 0 to |prints|
      invariant total == SortedMiddles(rules, prints[..i])
    {
      assert prints[..i + 1][..i] == prints[..i];
      if !correct[i] {
        var m := SortedMiddle(prints[i], rules);
        total := total + m;
      }
    }
    assert prints[..|prints|] == prints;
  }

  /** Part 2, or `None` where the source panics on malformed input. */
  method Part2(lines: seq<string>) returns (r: Option<int>)
    ensures Parse(lines).None? ==> r.None?
    ensures Parse(lines).Some? ==> r == Some(SortedMiddles(Parse(lines).value.0, Parse(lines).value.1))
  {
    var parsed := Parse(lines);
    if parsed.None? {
      return None;
    }
    var total := SumSortedMiddles(parsed.value.0, parsed.value.1);
    return Some(total);
  }
}
