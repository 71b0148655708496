/**
 * Day 19: linen layout. Towels are short stripes of colours; a design can
 * be made when it is a sequence of towels laid end to end. Part 1 counts
 * the designs that can be made, part 2 adds up the number of ways to make
 * each, found from the end of the design with a memo.
 */
module Day19 {
  import opened Wrappers
  import opened Text

  datatype Color = White | Blue | Black | Red | Green

  /** `w`, `u`, `b`, `r` and `g`; any other character is an error. */
  function FromChar(c: char): (r: Option<Color>)
    ensures r.Some? <==> c == 'w' || c == 'u' || c == 'b' || c == 'r' || c == 'g'
  {
    match c
    case 'w' => Some(White)
    case 'u' => Some(Blue)
    case 'b' => Some(Black)
    case 'r' => Some(Red)
    case 'g' => Some(Green)
    case _ => None
  }

  function ToChar(c: Color): char
  {
    match c
    case White => 'w'
    case Blue => 'u'
    case Black => 'b'
    case Red => 'r'
    case Green => 'g'
  }

  /** Each colour has exactly one letter. */
  lemma FromCharToChar(c: Color, x: char)
    ensures FromChar(ToChar(c)) == Some(c)
    ensures FromChar(x) == Some(c) ==> x == ToChar(c)
  {
  }

  type Pattern = seq<Color>

  /** A non-empty run of colour letters. */
  function ParsePattern(s: string): (r: Option<Pattern>)
    ensures r.Some? <==> |s| > 0 && forall i :: 0 <= i < |s| ==> FromChar(s[i]).Some?
    ensures r.Some? ==> |r.value| == |s| && forall i :: 0 <= i < |s| ==> Some(r.value[i]) == FromChar(s[i])
  {
    if |s| > 0 && forall i :: 0 <= i < |s| ==> FromChar(s[i]).Some? then
      Some(seq(|s|, i requires 0 <= i < |s| => FromChar(s[i]).value))
    else None
  }

  /** The characters `alpha1` takes: ASCII letters only. */
  predicate IsLetter(c: char)
  {
    'a' <= c <= 'z' || 'A' <= c <= 'Z'
  }

  /** The characters `multispace1` takes. */
  predicate IsSpace(c: char)
  {
    c == ' ' || c == '\t' || c == '\r' || c == '\n'
  }

  /** The length of the run of letters that starts `s`. */
  function Letters(s: string): (n: nat)
    ensures n <= |s|
    ensures forall k :: 0 <= k < n ==> IsLetter(s[k])
    ensures n < |s| ==> !IsLetter(s[n])
  {
    if |s| > 0 && IsLetter(s[0]) then 1 + Letters(s[1..]) else 0
  }

  /** The length of the run of blanks that starts `s`. */
  function Blanks(s: string): (n: nat)
    ensures n <= |s|
    ensures forall k :: 0 <= k < n ==> IsSpace(s[k])
    ensures n < |s| ==> !IsSpace(s[n])
  {
    if |s| > 0 && IsSpace(s[0]) then 1 + Blanks(s[1..]) else 0
  }

  /** A prefix of letters that stops at the end or before a non-letter is the run. */
  lemma {:induction false} LettersExact(s: string, n: nat)
    requires n <= |s|
    requires forall k :: 0 <= k < n ==> IsLetter(s[k])
    requires n == |s| || !IsLetter(s[n])
    ensures Letters(s) == n
  {
    if n > 0 {
      LettersExact(s[1..], n - 1);
    }
  }

  /**
   * What one step of the parser did to the rest of the input: read a value
   * and left `rest`, matched nothing (so the caller backtracks), or hit a
   * letter that is not a colour (so the whole program panics).
   */
  datatype Step<T> = Got(value: T, rest: string) | NoMatch | Panic

  /** `alpha1` mapped through the colour letters: a run of letters, which must all be colours. */
  function Pat(s: string): (r: Step<Pattern>)
    ensures r.NoMatch? <==> |s| == 0 || !IsLetter(s[0])
    ensures r.Got? ==> 0 < |r.value| <= |s| && r.rest == s[|r.value|..]
    ensures r.Got? ==> |r.rest| == 0 || !IsLetter(r.rest[0])
  {
    var n := Letters(s);
    if n == 0 then NoMatch
    else
      match ParsePattern(s[..n])
      case Some(p) => Got(p, s[n..])
      case None => Panic
  }

  /**
   * `separated(0.., pat, sep)`: no pattern at all gives the empty list;
   * otherwise further patterns are read while a separator is followed by
   * one, and a separator with no pattern after it is left unread.
   */
  function Separated(s: string, sep: string): (r: Option<(seq<Pattern>, string)>)
    ensures r.Some? ==> NonEmpty(r.value.0) && |r.value.1| <= |s|
  {
    match Pat(s)
    case NoMatch => Some(([], s))
    case Panic => None
    case Got(p, rest) => More(rest, sep, [p])
  }

  /** The loop of `separated` after its first pattern, with the patterns read so far in `acc`. */
  function More(s: string, sep: string, acc: seq<Pattern>): (r: Option<(seq<Pattern>, string)>)
    requires NonEmpty(acc)
    ensures r.Some? ==> NonEmpty(r.value.0) && |r.value.1| <= |s|
    decreases |s|
  {
    if |sep| <= |s| && s[..|sep|] == sep then
      match Pat(s[|sep|..])
      case NoMatch => Some((acc, s))
      case Panic => None
      case Got(p, rest) => More(rest, sep, acc + [p])
    else Some((acc, s))
  }

  /**
   * The whole input: towels separated by `, ` (possibly none), one or more
   * blanks of any kind, designs separated by line breaks (possibly none),
   * and one final line break ending the input. Anything else, or a letter
   * that is not a colour, fails the whole input.
   */
  function Parse(input: string): (r: Option<(seq<Pattern>, seq<Pattern>)>)
    ensures r.Some? ==> NonEmpty(r.value.0) && NonEmpty(r.value.1)
  {
    match Separated(input, ", ")
    case None => None
    case Some((towels, rest)) =>
      var n := Blanks(rest);
      if n == 0 then None
      else
        match Separated(rest[n..], "\n")
        case None => None
        case Some((designs, tail)) => if tail == "\n" then Some((towels, designs)) else None
  }

  // ----- Printing an input, and reading it back -----

  function Show(p: Pattern): string
  {
    seq(|p|, i requires 0 <= i < |p| => ToChar(p[i]))
  }

  /** Every pattern after the first, each behind its separator. */
  function Tail(ps: seq<Pattern>, sep: string): string
  {
    if ps == [] then [] else sep + Show(ps[0]) + Tail(ps[1..], sep)
  }

  /** The patterns joined by `sep`. */
  function Listing(ps: seq<Pattern>, sep: string): string
  {
    if ps == [] then [] else Show(ps[0]) + Tail(ps[1..], sep)
  }

  /** The input the puzzle gives: the towel line, a blank line, one design per line. */
  function Print(towels: seq<Pattern>, designs: seq<Pattern>): string
  {
    Listing(towels, ", ") + Below(Listing(designs, "\n"))
  }

  /** What follows the towel line: a blank line, the designs and a last line break. */
  function Below(body: string): string
  {
    "\n\n" + body + "\n"
  }

  /** What may follow a list so that `separated` stops before it. */
  predicate Stops(rest: string, sep: string)
  {
    (|rest| == 0 || !IsLetter(rest[0])) &&
    !(|sep| < |rest| && rest[..|sep|] == sep && IsLetter(rest[|sep|]))
  }

  lemma ShowPattern(p: Pattern, rest: string)
    requires |p| > 0
    requires |rest| == 0 || !IsLetter(rest[0])
    ensures Pat(Show(p) + rest) == Got(p, rest)
  {
    var s := Show(p) + rest;
    forall k | 0 <= k < |p|
      ensures IsLetter(s[k]) && FromChar(s[k]) == Some(p[k])
    {
      FromCharToChar(p[k], s[k]);
    }
    LettersExact(s, |p|);
    assert s[..|p|] == Show(p);
    var q := ParsePattern(Show(p));
    assert q.Some?;
    forall k | 0 <= k < |p|
      ensures q.value[k] == p[k]
    {
      assert Some(q.value[k]) == FromChar(s[k]);
    }
    assert q.value == p;
    assert s[|p|..] == rest;
  }

  /** What follows a printed list's separators cannot start a pattern. */
  lemma TailStart(ps: seq<Pattern>, sep: string, rest: string)
    requires |sep| > 0 && !IsLetter(sep[0])
    requires Stops(rest, sep)
    ensures var t := Tail(ps, sep) + rest; |t| == 0 || !IsLetter(t[0])
  {
    if ps != [] {
      assert (Tail(ps, sep) + rest)[0] == sep[0];
    }
  }

  /** One turn of `separated`'s loop, on any input: a separator and the pattern after it are read. */
  lemma MoreRead(s: string, sep: string, acc: seq<Pattern>, p: Pattern, after: string)
    requires NonEmpty(acc)
    requires |sep| <= |s| && s[..|sep|] == sep
    requires Pat(s[|sep|..]) == Got(p, after)
    ensures More(s, sep, acc) == More(after, sep, acc + [p])
  {
  }

  /** `separated`'s loop stops before a separator that no pattern follows. */
  lemma MoreStop(s: string, sep: string, acc: seq<Pattern>)
    requires NonEmpty(acc)
    requires Stops(s, sep)
    ensures More(s, sep, acc) == Some((acc, s))
  {
    if |sep| <= |s| && s[..|sep|] == sep {
      assert |s[|sep|..]| == 0 || !IsLetter(s[|sep|..][0]);
    }
  }

  /** One turn of `separated`'s loop over a printed separator and pattern. */
  lemma MoreStep(p: Pattern, after: string, sep: string, acc: seq<Pattern>)
    requires NonEmpty(acc) && |p| > 0
    requires |after| == 0 || !IsLetter(after[0])
    ensures More(sep + (Show(p) + after), sep, acc) == More(after, sep, acc + [p])
  {
    var s := sep + (Show(p) + after);
    assert s[..|sep|] == sep && s[|sep|..] == Show(p) + after;
    ShowPattern(p, after);
    MoreRead(s, sep, acc, p, after);
  }

  lemma {:induction false} MoreTail(ps: seq<Pattern>, sep: string, acc: seq<Pattern>, rest: string)
    requires NonEmpty(acc) && NonEmpty(ps)
    requires |sep| > 0 && !IsLetter(sep[0])
    requires Stops(rest, sep)
    ensures More(Tail(ps, sep) + rest, sep, acc) == Some((acc + ps, rest))
  {
    if ps == [] {
      assert Tail(ps, sep) + rest == rest;
      MoreStop(rest, sep, acc);
      assert acc + ps == acc;
    } else {
      var after := Tail(ps[1..], sep) + rest;
      assert Tail(ps, sep) + rest == sep + (Show(ps[0]) + after);
      TailStart(ps[1..], sep, rest);
      MoreStep(ps[0], after, sep, acc);
      MoreTail(ps[1..], sep, acc + [ps[0]], rest);
      AppendFirst(acc, ps);
    }
  }

  lemma AppendFirst<T>(acc: seq<T>, ps: seq<T>)
    requires |ps| > 0
    ensures acc + [ps[0]] + ps[1..] == acc + ps
  {
    assert acc + [ps[0]] + ps[1..] == acc + ([ps[0]] + ps[1..]);
    assert [ps[0]] + ps[1..] == ps;
  }

  /** `separated` reads back exactly the patterns `Listing` joined. */
  lemma SeparatedListing(ps: seq<Pattern>, sep: string, rest: string)
    requires NonEmpty(ps)
    requires |sep| > 0 && !IsLetter(sep[0])
    requires Stops(rest, sep)
    ensures Separated(Listing(ps, sep) + rest, sep) == Some((ps, rest))
  {
    if ps == [] {
      assert Listing(ps, sep) + rest == rest;
      SeparatedNone(rest, sep);
    } else {
      var after := Tail(ps[1..], sep) + rest;
      assert Listing(ps, sep) + rest == Show(ps[0]) + after;
      TailStart(ps[1..], sep, rest);
      SeparatedFirst(ps[0], after, sep);
      MoreTail(ps[1..], sep, [ps[0]], rest);
      AppendFirst([], ps);
      assert [] + [ps[0]] == [ps[0]] && [] + ps == ps;
    }
  }

  /** `separated` gives the empty list where no pattern starts. */
  lemma SeparatedNone(s: string, sep: string)
    requires |s| == 0 || !IsLetter(s[0])
    ensures Separated(s, sep) == Some(([], s))
  {
  }

  /** `separated` reads its first pattern and goes on to its loop. */
  lemma SeparatedFirst(p: Pattern, after: string, sep: string)
    requires |p| > 0
    requires |after| == 0 || !IsLetter(after[0])
    ensures Separated(Show(p) + after, sep) == More(after, sep, [p])
  {
    ShowPattern(p, after);
  }

  /** The three parts of the input, read in turn, on any input. */
  lemma ParseSteps(input: string, rest: string, n: nat, towels: seq<Pattern>, designs: seq<Pattern>)
    requires Separated(input, ", ") == Some((towels, rest))
    requires 0 < n <= |rest| && Blanks(rest) == n
    requires Separated(rest[n..], "\n") == Some((designs, "\n"))
    ensures Parse(input) == Some((towels, designs))
  {
  }

  /** A printed input with at least one design parses back to its towels and designs. */
  lemma ParsePrint(towels: seq<Pattern>, designs: seq<Pattern>)
    requires NonEmpty(towels) && NonEmpty(designs) && |designs| > 0
    ensures Parse(Print(towels, designs)) == Some((towels, designs))
  {
    var body := Listing(designs, "\n");
    var rest := Below(body);
    ListingStart(designs, "\n");
    BelowParts(body);
    SeparatedListing(towels, ", ", rest);
    SeparatedListing(designs, "\n", "\n");
    ParseSteps(Print(towels, designs), rest, 2, towels, designs);
  }

  /** A list of non-empty patterns, when there is one, starts with a letter. */
  lemma ListingStart(ps: seq<Pattern>, sep: string)
    requires NonEmpty(ps) && |ps| > 0
    ensures |Listing(ps, sep)| > 0 && IsLetter(Listing(ps, sep)[0])
  {
    assert Listing(ps, sep)[0] == Show(ps[0])[0] == ToChar(ps[0][0]);
  }

  /** The blank line below the towels is a run of two blanks, then the designs. */
  lemma BelowParts(body: string)
    requires |body| > 0 && IsLetter(body[0])
    ensures Stops(Below(body), ", ")
    ensures Blanks(Below(body)) == 2 && Below(body)[2..] == body + "\n"
  {
    var rest := Below(body);
    assert rest[..2] == "\n\n" && rest[2] == body[0];
    BlanksExact(rest, 2);
    assert rest[2..] == body + "\n";
  }

  /** A prefix of blanks that stops at the end or before another character is the run. */
  lemma {:induction false} BlanksExact(s: string, n: nat)
    requires n <= |s|
    requires forall k :: 0 <= k < n ==> IsSpace(s[k])
    requires n == |s| || !IsSpace(s[n])
    ensures Blanks(s) == n
  {
    if n > 0 {
      BlanksExact(s[1..], n - 1);
    }
  }

  /** The blanks between the towels and the designs may be a single line break. */
  lemma SingleBreak()
    ensures Parse("r\nwr\n") == Some(([[Red]], [[White, Red]]))
  {
    ShowPattern([Red], "\nwr\n");
    assert Show([Red]) + "\nwr\n" == "r\nwr\n";
    MoreStop("\nwr\n", ", ", [[Red]]);
    ShowPattern([White, Red], "\n");
    assert Show([White, Red]) + "\n" == "wr\n";
    MoreStop("\n", "\n", [[White, Red]]);
    BlanksExact("\nwr\n", 1);
    assert "\nwr\n"[1..] == "wr\n";
    ParseSteps("r\nwr\n", "\nwr\n", 1, [[Red]], [[White, Red]]);
  }

  /** The towel list may be empty, and the blanks after it may span several lines. */
  lemma NoTowels()
    ensures Parse("\n \n\nwr\n") == Some(([], [[White, Red]]))
  {
    SeparatedNone("\n \n\nwr\n", ", ");
    ShowPattern([White, Red], "\n");
    assert Show([White, Red]) + "\n" == "wr\n";
    MoreStop("\n", "\n", [[White, Red]]);
    BlanksExact("\n \n\nwr\n", 4);
    assert "\n \n\nwr\n"[4..] == "wr\n";
    ParseSteps("\n \n\nwr\n", "\n \n\nwr\n", 4, [], [[White, Red]]);
  }

  /** With no design at all, every blank is read as the separator and the last line break is missing. */
  lemma NoDesigns()
    ensures Parse("r\n\n") == None
  {
    ShowPattern([Red], "\n\n");
    assert Show([Red]) + "\n\n" == "r\n\n";
    MoreStop("\n\n", ", ", [[Red]]);
    BlanksExact("\n\n", 2);
    assert "\n\n"[2..] == "";
    SeparatedNone("", "\n");
  }

  // ----- Counting the ways -----

  predicate NonEmpty(towels: seq<Pattern>)
  {
    forall i :: 0 <= i < |towels| ==> |towels[i]| > 0
  }

  /** `towel` is what `p` ends with. */
  predicate EndsWith(p: Pattern, towel: Pattern)
  {
    |towel| <= |p| && p[|p| - |towel|..] == towel
  }

  /** The ways to make `p`: one for nothing at all, else a sum over the towels it ends with. */
  function Ways(p: Pattern, towels: seq<Pattern>): nat
    requires NonEmpty(towels)
    decreases |p|, 1
  {
    if p == [] then 1 else WaysEnding(p, towels, |towels|)
  }

  /** The sum, over the first `k` towels that `p` ends with, of the ways to make what is left. */
  function WaysEnding(p: Pattern, towels: seq<Pattern>, k: nat): nat
    requires NonEmpty(towels) && k <= |towels|
    decreases |p|, 0, k
  {
    if k == 0 then 0
    else
      var towel := towels[k - 1];
      WaysEnding(p, towels, k - 1) + (if EndsWith(p, towel) then Ways(p[..|p| - |towel|], towels) else 0)
  }

  /** Towels laid end to end, as chosen by `choice`. */
  function Lay(towels: seq<Pattern>, choice: seq<nat>): Pattern
    requires forall i :: 0 <= i < |choice| ==> choice[i] < |towels|
  {
    if choice == [] then [] else Lay(towels, choice[..|choice| - 1]) + towels[choice[|choice| - 1]]
  }

  /** Some choice of towels laid end to end gives `p`. */
  ghost predicate Makeable(p: Pattern, towels: seq<Pattern>)
  {
    exists choice :: (forall i :: 0 <= i < |choice| ==> choice[i] < |towels|) && Lay(towels, choice) == p
  }

  lemma {:induction false} WaysEndingPositive(p: Pattern, towels: seq<Pattern>, k: nat)
    requires NonEmpty(towels) && k <= |towels| && p != []
    ensures WaysEnding(p, towels, k) > 0 <==>
            exists j :: 0 <= j < k && EndsWith(p, towels[j]) && Ways(p[..|p| - |towels[j]|], towels) > 0
  {
    if k > 0 {
      WaysEndingPositive(p, towels, k - 1);
    }
  }

  /** A design has some way to be made exactly when towels laid end to end give it. */
  lemma WaysMeans(p: Pattern, towels: seq<Pattern>)
    requires NonEmpty(towels)
    ensures Ways(p, towels) > 0 <==> Makeable(p, towels)
  {
    if Ways(p, towels) > 0 {
      var choice := WaysChoice(p, towels);
    }
    if Makeable(p, towels) {
      var choice: seq<nat> :| (forall i :: 0 <= i < |choice| ==> choice[i] < |towels|) && Lay(towels, choice) == p;
      MakeableWays(towels, choice);
    }
  }

  /** A design with some way to be made is laid by some choice of towels. */
  lemma {:induction false} WaysChoice(p: Pattern, towels: seq<Pattern>) returns (choice: seq<nat>)
    requires NonEmpty(towels) && Ways(p, towels) > 0
    ensures (forall i :: 0 <= i < |choice| ==> choice[i] < |towels|) && Lay(towels, choice) == p
    decreases |p|
  {
    if p == [] {
      choice := [];
      assert Lay(towels, []) == [];
    } else {
      WaysEndingPositive(p, towels, |towels|);
      var j :| 0 <= j < |towels| && EndsWith(p, towels[j]) && Ways(p[..|p| - |towels[j]|], towels) > 0;
      var rest := p[..|p| - |towels[j]|];
      var shorter := WaysChoice(rest, towels);
      choice := shorter + [j];
      assert choice[..|choice| - 1] == shorter;
      assert p == rest + p[|p| - |towels[j]|..];
      assert Lay(towels, choice) == rest + towels[j];
    }
  }

  lemma {:induction false} MakeableWays(towels: seq<Pattern>, choice: seq<nat>)
    requires NonEmpty(towels) && forall i :: 0 <= i < |choice| ==> choice[i] < |towels|
    ensures Ways(Lay(towels, choice), towels) > 0
    decreases |choice|
  {
    var p := Lay(towels, choice);
    if choice != [] {
      var j := choice[|choice| - 1];
      var shorter := choice[..|choice| - 1];
      var rest := Lay(towels, shorter);
      assert p == rest + towels[j];
      assert p[..|p| - |towels[j]|] == rest;
      MakeableWays(towels, shorter);
      WaysEndingPositive(p, towels, |towels|);
    }
  }

  // ----- The memo -----

  /** Every remembered count is the true number of ways. */
  predicate CacheSound(cache: map<Pattern, nat>, towels: seq<Pattern>)
    requires NonEmpty(towels)
  {
    forall p :: p in cache ==> cache[p] == Ways(p, towels)
  }

  /** The ways to make `pattern`, found with and added to the memo. */
  method WaysToMake(pattern: Pattern, towels: seq<Pattern>, cache: map<Pattern, nat>)
    returns (output: nat, cache': map<Pattern, nat>)
    requires NonEmpty(towels) && CacheSound(cache, towels)
    ensures output == Ways(pattern, towels) && CacheSound(cache', towels)
    decreases |pattern|
  {
    if pattern in cache {
      return cache[pattern], cache;
    }
    if pattern == [] {
      return 1, cache;
    }
    output, cache' := 0, cache;
    for k := 0 to |towels|
      invariant output == WaysEnding(pattern, towels, k) && CacheSound(cache', towels)
    {
      var towel := towels[k];
      if |towel| <= |pattern| && pattern[|pattern| - |towel|..] == towel {
        var n;
        n, cache' := WaysToMake(pattern[..|pattern| - |towel|], towels, cache');
        output := output + n;
      }
    }
    cache' := cache'[pattern := output];
  }

  function CountMakeable(designs: seq<Pattern>, towels: seq<Pattern>): nat
    requires NonEmpty(towels)
  {
    if designs == [] then 0
    else CountMakeable(designs[..|designs| - 1], towels) + (if Ways(designs[|designs| - 1], towels) > 0 then 1 else 0)
  }

  function SumWays(designs: seq<Pattern>, towels: seq<Pattern>): nat
    requires NonEmpty(towels)
  {
    if designs == [] then 0 else SumWays(designs[..|designs| - 1], towels) + Ways(designs[|designs| - 1], towels)
  }

  /** A design with some way to be made adds at least one to the sum. */
  lemma {:induction false} CountAtMostSum(designs: seq<Pattern>, towels: seq<Pattern>)
    requires NonEmpty(towels)
    ensures CountMakeable(designs, towels) <= SumWays(designs, towels)
    ensures CountMakeable(designs, towels) <= |designs|
  {
    if designs != [] {
      CountAtMostSum(designs[..|designs| - 1], towels);
    }
  }

  /** Part 1: how many designs can be made, sharing one memo. */
  method CountPossible(designs: seq<Pattern>, towels: seq<Pattern>) returns (count: nat)
    requires NonEmpty(towels)
    ensures count == CountMakeable(designs, towels)
  {
    var cache: map<Pattern, nat> := map[];
    count := 0;
    for i := 0 to |designs|
      invariant count == CountMakeable(designs[..i], towels) && CacheSound(cache, towels)
    {
      var n;
      n, cache := WaysToMake(designs[i], towels, cache);
      assert designs[..i + 1][..i] == designs[..i];
      if n > 0 {
        count := count + 1;
      }
    }
    assert designs[..|designs|] == designs;
  }

  /** Part 2: the number of ways over all designs, sharing one memo. */
  method CountWays(designs: seq<Pattern>, towels: seq<Pattern>) returns (total: nat)
    requires NonEmpty(towels)
    ensures total == SumWays(designs, towels)
  {
    var cache: map<Pattern, nat> := map[];
    total := 0;
    for i := 0 to |designs|
      invariant total == SumWays(designs[..i], towels) && CacheSound(cache, towels)
    {
      var n;
      n, cache := WaysToMake(designs[i], towels, cache);
      assert designs[..i + 1][..i] == designs[..i];
      total := total + n;
    }
    assert designs[..|designs|] == designs;
  }

  method Part1(input: string) returns (r: Option<nat>)
    ensures Parse(input).None? ==> r.None?
    ensures Parse(input).Some? ==> r == Some(CountMakeable(Parse(input).value.1, Parse(input).value.0))
  {
    var parsed := Parse(input);
    if parsed.None? {
      return None;
    }
    var count := CountPossible(parsed.value.1, parsed.value.0);
    return Some(count);
  }

  method Part2(input: string) returns (r: Option<nat>)
    ensures Parse(input).None? ==> r.None?
    ensures Parse(input).Some? ==> r == Some(SumWays(Parse(input).value.1, Parse(input).value.0))
  {
    var parsed := Parse(input);
    if parsed.None? {
      return None;
    }
    var total := CountWays(parsed.value.1, parsed.value.0);
    return Some(total);
  }
}
