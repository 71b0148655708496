/**
 * Day 11: plutonian pebbles. At every blink each stone is replaced by the
 * stones a rule gives it; the answer is how many stones there are after a
 * number of blinks, counted stone by stone with a memo.
 */
module Day11 {
  import opened Wrappers
  import opened Text

  const U64_MAX: nat := 0xffff_ffff_ffff_ffff

  /** The number of decimal digits of `n`. */
  function Digits(n: nat): (d: nat)
    ensures d >= 1
  {
    |Decimal(n)|
  }

  /** `n` is `q * p + r` with `r` below `p` exactly when `q` and `r` are its quotient and remainder. */
  lemma DivModUnique(n: nat, p: nat, q: nat, r: nat)
    requires p > 0 && r < p && n == q * p + r
    ensures n / p == q && n % p == r
  {
    var q', r' := n / p, n % p;
    assert n == q' * p + r';
    MulMonotone(q + 1, q', p);
    MulMonotone(q' + 1, q, p);
    assert (q + 1) * p == q * p + p;
    assert (q' + 1) * p == q' * p + p;
  }

  lemma MulMonotone(a: int, b: int, p: nat)
    ensures a <= b ==> a * p <= b * p
  {
  }

  function SplitAt(n: nat, p: nat): (r: Option<(nat, nat)>)
    requires p > 0
    ensures r.Some?
  {
    Some((n / p, n % p))
  }

  /** A stone with an even number of digits splits into its left and right halves of digits. */
  function Halves(n: nat): (r: Option<(nat, nat)>)
    ensures r.Some? <==> Digits(n) % 2 == 0
  {
    if Digits(n) % 2 != 0 then None else SplitAt(n, Pow10(Digits(n) / 2))
  }

  /** The halves are the numbers the two halves of the stone's digits spell. */
  lemma HalvesDigits(n: nat)
    requires Digits(n) % 2 == 0
    ensures ParseNat(Decimal(n)[..Digits(n) / 2]) == Some(Halves(n).value.0)
    ensures ParseNat(Decimal(n)[Digits(n) / 2..]) == Some(Halves(n).value.1)
  {
    var s := Decimal(n);
    var k := |s| / 2;
    assert s == s[..k] + s[k..];
    DigitsValueAppend(s[..k], s[k..]);
    DigitsValueBound(s[k..]);
    DecimalValue(n);
    DivModUnique(n, Pow10(k), DigitsValue(s[..k]), DigitsValue(s[k..]));
  }

  /** What one stone becomes in one blink. */
  function Children(stone: nat): (r: seq<nat>)
    ensures 1 <= |r| <= 2
  {
    if stone == 0 then [1]
    else
      match Halves(stone)
      case Some((a, b)) => [a, b]
      case None => [stone * 2024]
  }

  /** The number of stones `stone` has become after `blinks` more blinks. */
  function Count(stone: nat, blinks: nat): (n: nat)
    ensures n >= 1
    decreases blinks
  {
    if blinks == 0 then 1
    else if stone == 0 then Count(1, blinks - 1)
    else
      match Halves(stone)
      case Some((a, b)) => Count(a, blinks - 1) + Count(b, blinks - 1)
      case None => Count(stone * 2024, blinks - 1)
  }

  /** The counts of all the stones, added up. */
  function Total(stones: seq<nat>, blinks: nat): nat
  {
    if stones == [] then 0 else Total(stones[..|stones| - 1], blinks) + Count(stones[|stones| - 1], blinks)
  }

  // ----- The line of stones, blink by blink -----

  /** The whole line after one blink, each stone replaced in place by its children. */
  function Blink(stones: seq<nat>): (r: seq<nat>)
    ensures |stones| <= |r| <= 2 * |stones|
  {
    if stones == [] then [] else Blink(stones[..|stones| - 1]) + Children(stones[|stones| - 1])
  }

  function Simulate(stones: seq<nat>, blinks: nat): seq<nat>
    decreases blinks
  {
    if blinks == 0 then stones else Simulate(Blink(stones), blinks - 1)
  }

  lemma {:induction false} TotalAppend(a: seq<nat>, b: seq<nat>, blinks: nat)
    ensures Total(a + b, blinks) == Total(a, blinks) + Total(b, blinks)
    decreases |b|
  {
    if b == [] {
      assert a + b == a;
    } else {
      var n := |b| - 1;
      assert (a + b)[..|a + b| - 1] == a + b[..n];
      TotalAppend(a, b[..n], blinks);
    }
  }

  lemma ChildrenCount(stone: nat, blinks: nat)
    requires blinks > 0
    ensures Count(stone, blinks) == Total(Children(stone), blinks - 1)
  {
    var c := Children(stone);
    if |c| == 1 {
      TotalSingle(c[0], blinks - 1);
    } else {
      TotalPair(c[0], c[1], blinks - 1);
    }
  }

  lemma TotalSingle(a: nat, blinks: nat)
    ensures Total([a], blinks) == Count(a, blinks)
  {
    assert [a][..0] == [];
  }

  lemma TotalPair(a: nat, b: nat, blinks: nat)
    ensures Total([a, b], blinks) == Count(a, blinks) + Count(b, blinks)
  {
    assert [a, b][..1] == [a];
    TotalSingle(a, blinks);
  }

  lemma {:induction false} BlinkTotal(stones: seq<nat>, blinks: nat)
    requires blinks > 0
    ensures Total(stones, blinks) == Total(Blink(stones), blinks - 1)
    decreases |stones|
  {
    if stones != [] {
      var n := |stones| - 1;
      BlinkTotal(stones[..n], blinks);
      ChildrenCount(stones[n], blinks);
      TotalAppend(Blink(stones[..n]), Children(stones[n]), blinks - 1);
    }
  }

  lemma {:induction false} TotalZero(stones: seq<nat>)
    ensures Total(stones, 0) == |stones|
  {
    if stones != [] {
      TotalZero(stones[..|stones| - 1]);
    }
  }

  /** Counting stone by stone gives the length of the line the blinks produce. */
  lemma {:induction false} TotalSimulate(stones: seq<nat>, blinks: nat)
    ensures Total(stones, blinks) == |Simulate(stones, blinks)|
    decreases blinks
  {
    if blinks == 0 {
      TotalZero(stones);
    } else {
      BlinkTotal(stones, blinks);
      TotalSimulate(Blink(stones), blinks - 1);
    }
  }

  // ----- The memo -----

  /** Every cached count is the true count for its stone and blink. */
  predicate CacheSound(cache: map<(nat, nat), nat>, totalBlinks: nat)
  {
    forall key :: key in cache ==> key.1 <= totalBlinks && cache[key] == Count(key.0, totalBlinks - key.1)
  }

  /** The stones `stone` becomes from `blink` up to `totalBlinks`, remembering every count it finds. */
  method Explore(stone: nat, blink: nat, totalBlinks: nat, cache: map<(nat, nat), nat>)
    returns (output: nat, cache': map<(nat, nat), nat>)
    requires blink <= totalBlinks && CacheSound(cache, totalBlinks)
    ensures output == Count(stone, totalBlinks - blink)
    ensures CacheSound(cache', totalBlinks) && cache.Keys <= cache'.Keys
    decreases totalBlinks - blink, 1
  {
    if (stone, blink) in cache {
      return cache[(stone, blink)], cache;
    }
    if blink == totalBlinks {
      return 1, cache;
    }
    output, cache' := ExploreBlink(stone, blink, totalBlinks, cache);
    Remember(cache', totalBlinks, stone, blink, output);
    cache' := cache'[(stone, blink) := output];
  }

  /** The uncached case of `Explore`: blink `stone` once and explore what it becomes. */
  method ExploreBlink(stone: nat, blink: nat, totalBlinks: nat, cache: map<(nat, nat), nat>)
    returns (output: nat, cache': map<(nat, nat), nat>)
    requires blink < totalBlinks && CacheSound(cache, totalBlinks)
    ensures output == Count(stone, totalBlinks - blink)
    ensures CacheSound(cache', totalBlinks) && cache.Keys <= cache'.Keys
    decreases totalBlinks - blink, 0
  {
    var rest := totalBlinks - (blink + 1);
    if stone == 0 {
      output, cache' := Explore(1, blink + 1, totalBlinks, cache);
      ZeroBlink(rest);
    } else if Halves(stone).Some? {
      var halves := Halves(stone).value;
      var a, b := halves.0, halves.1;
      var left, right;
      left, cache' := Explore(a, blink + 1, totalBlinks, cache);
      right, cache' := Explore(b, blink + 1, totalBlinks, cache');
      output := left + right;
      SplitBlink(stone, a, b, rest);
    } else {
      output, cache' := Explore(stone * 2024, blink + 1, totalBlinks, cache);
      GrowBlink(stone, rest);
    }
  }

  /** A blink turns a 0 into a 1. */
  lemma ZeroBlink(blinks: nat)
    ensures Count(0, blinks + 1) == Count(1, blinks)
  {
  }

  /** A blink splits a stone with an even number of digits in two. */
  lemma SplitBlink(stone: nat, a: nat, b: nat, blinks: nat)
    requires stone != 0 && Halves(stone) == Some((a, b))
    ensures Count(stone, blinks + 1) == Count(a, blinks) + Count(b, blinks)
  {
  }

  /** A blink multiplies any other stone by 2024. */
  lemma GrowBlink(stone: nat, blinks: nat)
    requires stone != 0 && Halves(stone).None?
    ensures Count(stone, blinks + 1) == Count(stone * 2024, blinks)
  {
  }

  /** Recording a count the memo did not have keeps it sound. */
  lemma Remember(cache: map<(nat, nat), nat>, totalBlinks: nat, stone: nat, blink: nat, output: nat)
    requires CacheSound(cache, totalBlinks) && blink <= totalBlinks && output == Count(stone, totalBlinks - blink)
    ensures CacheSound(cache[(stone, blink) := output], totalBlinks)
  {
  }

  /** The stones after `totalBlinks` blinks, one shared memo for the whole line. */
  method CountStones(stones: seq<nat>, totalBlinks: nat) returns (sum: nat)
    ensures sum == Total(stones, totalBlinks)
  {
    var cache: map<(nat, nat), nat> := map[];
    sum := 0;
    for i := 0 to |stones|
      invariant sum == Total(stones[..i], totalBlinks) && CacheSound(cache, totalBlinks)
    {
      var n;
      n, cache := Explore(stones[i], 0, totalBlinks, cache);
      assert stones[..i + 1][..i] == stones[..i];
      sum := sum + n;
    }
    assert stones[..|stones|] == stones;
  }

  /** `u64::from_str`: an optional `+`, then decimal digits, at most 2^64 - 1. */
  function ParseU64(word: string): (r: Option<nat>)
    ensures r.Some? ==> r.value <= U64_MAX
    ensures r.Some? <==> var digits := if |word| > 0 && word[0] == '+' then word[1..] else word;
                          ParseNat(digits).Some? && ParseNat(digits).value <= U64_MAX
  {
    var digits := if |word| > 0 && word[0] == '+' then word[1..] else word;
    match ParseNat(digits)
    case None => None
    case Some(n) => if n <= U64_MAX then Some(n) else None
  }

  /** A leading `+` is read as `u64::from_str` reads it; `-` is not. */
  lemma PlusSign()
    ensures ParseU64("+7") == Some(7)
    ensures ParseU64("-7") == None
  {
    assert ParseNat("7") == Some(7) by {
      assert DigitsValue("7") == 7 by {
        assert "7"[..0] == "";
      }
    }
    assert "+7"[1..] == "7";
    assert !AllDigits("-7") by {
      assert "-7"[0] == '-';
    }
  }

  /** The stones of the input: numbers separated by whitespace, each a `u64`. */
  function ParseStones(input: string): (r: Option<seq<nat>>)
    ensures r.Some? <==> forall i :: 0 <= i < |Words(input)| ==> ParseU64(Words(input)[i]).Some?
    ensures r.Some? ==> |r.value| == |Words(input)|
    ensures r.Some? ==> forall i :: 0 <= i < |r.value| ==> Some(r.value[i]) == ParseU64(Words(input)[i])
  {
    var words := Words(input);
    if forall i :: 0 <= i < |words| ==> ParseU64(words[i]).Some? then
      Some(seq(|words|, i requires 0 <= i < |words| => ParseU64(words[i]).value))
    else
      assert exists i :: 0 <= i < |words| && ParseU64(words[i]).None?;
      None
  }

  /** Stones written with single spaces between them read back. */
  lemma ParseStonesRoundTrip(stones: seq<nat>)
    requires |stones| >= 1 && forall i :: 0 <= i < |stones| ==> stones[i] <= U64_MAX
    ensures ParseStones(Join(Decimals(stones), ' ')) == Some(stones)
  {
    var words := Decimals(stones);
    forall i | 0 <= i < |words|
      ensures |words[i]| > 0 && forall j :: 0 <= j < |words[i]| ==> !IsAsciiSpace(words[i][j])
    {
      assert AllDigits(words[i]);
    }
    WordsJoin(words);
    forall i | 0 <= i < |words|
      ensures ParseU64(words[i]) == Some(stones[i])
    {
      ParseNatDecimal(stones[i]);
      assert words[i][0] != '+' by {
        assert AllDigits(words[i]);
      }
    }
    assert ParseStones(Join(words, ' ')).value == stones;
  }

  /** The number of stones after `totalBlinks` blinks, or `None` where a stone does not parse. */
  method Solve(input: string, totalBlinks: nat) returns (r: Option<nat>)
    ensures ParseStones(input).None? ==> r.None?
    ensures ParseStones(input).Some? ==> r == Some(|Simulate(ParseStones(input).value, totalBlinks)|)
  {
    var stones := ParseStones(input);
    if stones.None? {
      return None;
    }
    var sum := CountStones(stones.value, totalBlinks);
    TotalSimulate(stones.value, totalBlinks);
    return Some(sum);
  }

  /** Part 1: the stones after 25 blinks. */
  method Part1(input: string) returns (r: Option<nat>)
    ensures ParseStones(input).None? ==> r.None?
    ensures ParseStones(input).Some? ==> r == Some(|Simulate(ParseStones(input).value, 25)|)
  {
    r := Solve(input, 25);
  }

  /** Part 2: the stones after 75 blinks. */
  method Part2(input: string) returns (r: Option<nat>)
    ensures ParseStones(input).None? ==> r.None?
    ensures ParseStones(input).Some? ==> r == Some(|Simulate(ParseStones(input).value, 75)|)
  {
    r := Solve(input, 75);
  }

  // ----- The example -----

  /** `125 17` becomes `253000 1 7` in one blink. */
  lemma ExampleBlink()
    ensures Blink([125, 17]) == [253000, 1, 7]
  {
    assert Decimal(125) == "125";
    assert Decimal(17) == "17";
    assert Halves(17) == Some((1, 7));
    assert [125, 17][..1] == [125];
  }
}
