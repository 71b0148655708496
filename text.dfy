/**
 * Text helpers the puzzle parsers share: decimal digits, numbers in
 * decimal, and splitting a line on a separator character.
 */
module Text {
  import opened Wrappers

  predicate IsDigit(c: char)
  {
    '0' <= c <= '9'
  }

  predicate AllDigits(s: string)
  {
    forall i :: 0 <= i < |s| ==> IsDigit(s[i])
  }

  function DigitValue(c: char): (d: nat)
    requires IsDigit(c)
    ensures d < 10
  {
    c as int - '0' as int
  }

  function DigitChar(d: nat): (c: char)
    requires d < 10
    ensures IsDigit(c) && DigitValue(c) == d
  {
    ('0' as int + d) as char
  }

  /** The decimal digits of `n`, most significant first, without leading zeros. */
  function Decimal(n: nat): (s: string)
    ensures |s| >= 1 && AllDigits(s)
    ensures (n >= 10 ==> |s| >= 2) && (n >= 1 ==> s[0] != '0')
    decreases n
  {
    if n < 10 then [DigitChar(n)] else Decimal(n / 10) + [DigitChar(n % 10)]
  }

  /** The number a string of decimal digits spells. */
  function DigitsValue(s: string): nat
    requires AllDigits(s)
  {
    if s == [] then 0 else 10 * DigitsValue(s[..|s| - 1]) + DigitValue(s[|s| - 1])
  }

  /** Writing a number in decimal and reading it back gives the number. */
  lemma {:induction false} DecimalValue(n: nat)
    ensures DigitsValue(Decimal(n)) == n
    decreases n
  {
    if n >= 10 {
      DecimalValue(n / 10);
      assert Decimal(n)[..|Decimal(n)| - 1] == Decimal(n / 10);
    }
  }

  /** Different numbers have different decimal forms. */
  lemma DecimalInjective(m: nat, n: nat)
    requires Decimal(m) == Decimal(n)
    ensures m == n
  {
    DecimalValue(m);
    DecimalValue(n);
  }

  function Pow10(k: nat): (p: nat)
    ensures p >= 1
  {
    if k == 0 then 1 else 10 * Pow10(k - 1)
  }

  /** Reading `s + t` shifts the value of `s` past the digits of `t`. */
  lemma {:induction false} DigitsValueAppend(s: string, t: string)
    requires AllDigits(s) && AllDigits(t)
    ensures AllDigits(s + t)
    ensures DigitsValue(s + t) == DigitsValue(s) * Pow10(|t|) + DigitsValue(t)
    decreases |t|
  {
    assert AllDigits(s + t) by {
      assert forall i :: 0 <= i < |s + t| ==> (s + t)[i] == if i < |s| then s[i] else t[i - |s|];
    }
    if t == [] {
      assert s + t == s;
    } else {
      var n := |t| - 1;
      assert (s + t)[..|s + t| - 1] == s + t[..n];
      DigitsValueAppend(s, t[..n]);
      var a, b, d := DigitsValue(s), DigitsValue(t[..n]), DigitValue(t[n]);
      assert DigitsValue(s + t) == 10 * (a * Pow10(n) + b) + d;
      assert DigitsValue(t) == 10 * b + d;
      ShiftDigit(a, b, d, Pow10(n));
    }
  }

  lemma ShiftDigit(a: nat, b: nat, d: nat, p: nat)
    ensures 10 * (a * p + b) + d == a * (10 * p) + (10 * b + d)
  {
  }

  /** A run of `k` digits is worth less than `10^k`. */
  lemma {:induction false} DigitsValueBound(s: string)
    requires AllDigits(s)
    ensures DigitsValue(s) < Pow10(|s|)
  {
    if s != [] {
      DigitsValueBound(s[..|s| - 1]);
    }
  }

  /** Numbers of `k` decimal digits are those from `10^(k-1)`, or 0, up to below `10^k`. */
  lemma {:induction false} DecimalLength(n: nat)
    ensures n < Pow10(|Decimal(n)|)
    ensures n >= 10 ==> Pow10(|Decimal(n)| - 1) <= n
    decreases n
  {
    if n >= 10 {
      DecimalLength(n / 10);
    }
  }

  /** A non-empty run of digits, read as a number. */
  function ParseNat(s: string): (r: Option<nat>)
    ensures r.Some? <==> |s| > 0 && AllDigits(s)
  {
    if |s| > 0 && AllDigits(s) then Some(DigitsValue(s)) else None
  }

  /** A number written in decimal parses back to itself. */
  lemma ParseNatDecimal(n: nat)
    ensures ParseNat(Decimal(n)) == Some(n)
  {
    DecimalValue(n);
  }

  const I32_MIN: int := -0x8000_0000
  const I32_MAX: int := 0x7fff_ffff

  /**
   * A signed 32-bit integer the way Rust's `str::parse::<i32>` reads it: an
   * optional `+` or `-`, then one or more digits, within the type's range.
   */
  function ParseI32(s: string): (r: Option<int>)
    ensures r.Some? ==> I32_MIN <= r.value <= I32_MAX
  {
    var negative := |s| > 0 && s[0] == '-';
    var digits := if |s| > 0 && (s[0] == '-' || s[0] == '+') then s[1..] else s;
    match ParseNat(digits)
    case None => None
    case Some(n) =>
      var v: int := if negative then 0 - n as int else n;
      if I32_MIN <= v <= I32_MAX then Some(v) else None
  }

  /** A signed number written out reads back with `ParseI32`. */
  lemma ParseI32Signed(v: int)
    requires I32_MIN <= v <= I32_MAX
    ensures ParseI32(if v < 0 then "-" + Decimal(-v) else Decimal(v)) == Some(v)
  {
    if v < 0 {
      assert ("-" + Decimal(-v))[1..] == Decimal(-v);
      ParseNatDecimal(-v);
    } else {
      ParseNatDecimal(v);
    }
  }

  /** Each piece read as an `i32`; one piece that does not read fails them all. */
  function ParseI32s(pieces: seq<string>): (r: Option<seq<int>>)
    ensures r.Some? <==> forall i :: 0 <= i < |pieces| ==> ParseI32(pieces[i]).Some?
    ensures r.Some? ==> (|r.value| == |pieces| &&
                         forall i :: 0 <= i < |pieces| ==> Some(r.value[i]) == ParseI32(pieces[i]))
  {
    if forall i :: 0 <= i < |pieces| ==> ParseI32(pieces[i]).Some? then
      Some(seq(|pieces|, i requires 0 <= i < |pieces| => ParseI32(pieces[i]).value))
    else None
  }

  /** Each number written in decimal. */
  function Decimals(xs: seq<nat>): (r: seq<string>)
    ensures |r| == |xs| && forall i :: 0 <= i < |xs| ==> r[i] == Decimal(xs[i])
  {
    seq(|xs|, i requires 0 <= i < |xs| => Decimal(xs[i]))
  }

  /** Numbers written in decimal read back with `ParseI32s`. */
  lemma ParseI32sDecimals(xs: seq<nat>)
    requires forall i :: 0 <= i < |xs| ==> xs[i] <= I32_MAX
    ensures ParseI32s(Decimals(xs)) == Some(xs)
  {
    var pieces := Decimals(xs);
    forall i | 0 <= i < |xs|
      ensures ParseI32(pieces[i]) == Some(xs[i] as int)
    {
      ParseI32Signed(xs[i]);
    }
    var r := ParseI32s(pieces);
    assert r.Some?;
    assert forall i :: 0 <= i < |xs| ==> r.value[i] == xs[i];
    assert r.value == xs;
  }

  /**
   * The pieces of `s` between occurrences of `sep`, as Rust's `split`
   * with a character gives them: `k` separators give `k + 1` pieces.
   */
  function Split(s: string, sep: char): (parts: seq<string>)
    ensures |parts| >= 1
    ensures forall i :: 0 <= i < |parts| ==> sep !in parts[i]
    decreases |s|
  {
    if sep !in s then [s]
    else
      var i := IndexOf(s, sep);
      [s[..i]] + Split(s[i + 1..], sep)
  }

  /** The position of the first `c` in `s`. */
  function IndexOf<T(==)>(s: seq<T>, c: T): (i: nat)
    requires c in s
    ensures i < |s| && s[i] == c && c !in s[..i]
  {
    if s[0] == c then 0
    else
      assert c in s[1..] by {
        var k :| 0 <= k < |s| && s[k] == c;
        assert s[1..][k - 1] == c;
      }
      var k := IndexOf(s[1..], c);
      assert s[..k + 1] == [s[0]] + s[1..][..k];
      k + 1
  }

  /** The pieces joined with `sep` between them. */
  function Join(parts: seq<string>, sep: char): string
    requires |parts| >= 1
  {
    if |parts| == 1 then parts[0] else parts[0] + [sep] + Join(parts[1..], sep)
  }

  /** A character in none of the pieces and other than the separator is not in their join. */
  lemma {:induction false} JoinAvoids(parts: seq<string>, sep: char, c: char)
    requires |parts| >= 1 && c != sep && forall i :: 0 <= i < |parts| ==> c !in parts[i]
    ensures c !in Join(parts, sep)
    decreases |parts|
  {
    if |parts| > 1 {
      JoinAvoids(parts[1..], sep, c);
    }
  }

  /** The characters Rust's `split_ascii_whitespace` splits on. */
  predicate IsAsciiSpace(c: char)
  {
    c == ' ' || c == '\t' || c == '\n' || c == '\r' || c == 12 as char
  }

  /** `s` without its leading ASCII whitespace. */
  function TrimStart(s: string): (r: string)
    ensures |r| <= |s|
  {
    if |s| > 0 && IsAsciiSpace(s[0]) then TrimStart(s[1..]) else s
  }

  /** `s` without its trailing ASCII whitespace. */
  function TrimEnd(s: string): (r: string)
    ensures |r| <= |s|
  {
    if |s| > 0 && IsAsciiSpace(s[|s| - 1]) then TrimEnd(s[..|s| - 1]) else s
  }

  /** Removes leading and trailing ASCII whitespace (space, tab, `\n`, `\r`, form feed), as Rust's `trim_ascii` does; `trim` also removes U+000B. */
  function Trim(s: string): string
  {
    TrimEnd(TrimStart(s))
  }

  /** The length of the run of non-blank characters `s` starts with. */
  function WordRun(s: string): (n: nat)
    ensures n <= |s| && (forall i :: 0 <= i < n ==> !IsAsciiSpace(s[i])) && (n < |s| ==> IsAsciiSpace(s[n]))
  {
    if s == [] || IsAsciiSpace(s[0]) then 0 else 1 + WordRun(s[1..])
  }

  /** The maximal runs of non-blank characters, as `split_ascii_whitespace` yields them. */
  function Words(s: string): (ws: seq<string>)
    ensures forall i :: 0 <= i < |ws| ==> |ws[i]| > 0 && forall j :: 0 <= j < |ws[i]| ==> !IsAsciiSpace(ws[i][j])
    decreases |s|
  {
    if s == [] then []
    else if IsAsciiSpace(s[0]) then Words(s[1..])
    else
      var n := WordRun(s);
      [s[..n]] + Words(s[n..])
  }

  lemma {:induction false} WordRunOf(w: string, rest: string)
    requires forall i :: 0 <= i < |w| ==> !IsAsciiSpace(w[i])
    requires rest == [] || IsAsciiSpace(rest[0])
    ensures WordRun(w + rest) == |w|
    decreases |w|
  {
    if w != [] {
      assert (w + rest)[1..] == w[1..] + rest;
      WordRunOf(w[1..], rest);
    } else {
      assert w + rest == rest;
    }
  }

  /** Words written with single spaces between them are split back into the same words. */
  lemma {:induction false} WordsJoin(ws: seq<string>)
    requires |ws| >= 1
    requires forall i :: 0 <= i < |ws| ==> |ws[i]| > 0 && forall j :: 0 <= j < |ws[i]| ==> !IsAsciiSpace(ws[i][j])
    ensures Words(Join(ws, ' ')) == ws
    decreases |ws|
  {
    var s := Join(ws, ' ');
    if |ws| == 1 {
      WordRunOf(ws[0], []);
      assert ws[0] + [] == ws[0];
      assert s[|ws[0]|..] == [];
    } else {
      var rest := Join(ws[1..], ' ');
      assert s == ws[0] + ([' '] + rest);
      WordRunOf(ws[0], [' '] + rest);
      assert s[..|ws[0]|] == ws[0];
      assert s[|ws[0]|..] == [' '] + rest;
      assert ([' '] + rest)[1..] == rest;
      WordsJoin(ws[1..]);
    }
  }

  /** Splitting the joined pieces gives the pieces back when no piece holds the separator. */
  lemma {:induction false} SplitJoin(parts: seq<string>, sep: char)
    requires |parts| >= 1 && forall i :: 0 <= i < |parts| ==> sep !in parts[i]
    ensures Split(Join(parts, sep), sep) == parts
    decreases |parts|
  {
    if |parts| > 1 {
      var rest := Join(parts[1..], sep);
      var s := parts[0] + [sep] + rest;
      var n := |parts[0]|;
      assert s[..n] == parts[0];
      assert s[n] == sep;
      var i := IndexOf(s, sep);
      assert i == n;
      assert s[i + 1..] == rest;
      SplitJoin(parts[1..], sep);
      assert Split(s, sep) == [parts[0]] + Split(rest, sep);
      assert parts == [parts[0]] + parts[1..];
    }
  }

  /** Joining the pieces of a split gives the text back. */
  lemma {:induction false} JoinSplit(s: string, sep: char)
    ensures Join(Split(s, sep), sep) == s
    decreases |s|
  {
    if sep in s {
      var i := IndexOf(s, sep);
      var rest := Split(s[i + 1..], sep);
      var parts := [s[..i]] + rest;
      assert Split(s, sep) == parts;
      assert parts[1..] == rest;
      JoinSplit(s[i + 1..], sep);
      assert Join(parts, sep) == s[..i] + [sep] + Join(rest, sep);
      assert s == s[..i] + [sep] + s[i + 1..];
    }
  }
  /** Byte-wise lexicographic order on strings, the order Rust's `&str` uses. */
  predicate LexLess(s: string, t: string)
  {
    if |t| == 0 then false
    else if |s| == 0 then true
    else if s[0] != t[0] then s[0] < t[0]
    else LexLess(s[1..], t[1..])
  }

  lemma {:induction false} LexLessAsymmetric(s: string, t: string)
    ensures !(LexLess(s, t) && LexLess(t, s))
  {
    if |s| > 0 && |t| > 0 && s[0] == t[0] {
      LexLessAsymmetric(s[1..], t[1..]);
    }
  }

  lemma {:induction false} LexLessTotal(s: string, t: string)
    ensures s == t || LexLess(s, t) || LexLess(t, s)
  {
    if |s| > 0 && |t| > 0 && s[0] == t[0] {
      LexLessTotal(s[1..], t[1..]);
      if s[1..] == t[1..] {
        assert s == [s[0]] + s[1..] && t == [t[0]] + t[1..];
      }
    }
  }

  lemma {:induction false} LexLessTransitive(r: string, s: string, t: string)
    requires LexLess(r, s) && LexLess(s, t)
    ensures LexLess(r, t)
  {
    if |r| > 0 && r[0] == s[0] && s[0] == t[0] {
      LexLessTransitive(r[1..], s[1..], t[1..]);
    }
  }

  /** No string is followed by a smaller one. */
  predicate Ordered(s: seq<string>)
  {
    forall i, j :: 0 <= i < j < |s| ==> !LexLess(s[j], s[i])
  }

  /** Every string of a rearrangement of `s` plus `x` is at least what all of them are. */
  lemma AtLeast(rest: seq<string>, s: seq<string>, x: string, low: string)
    requires multiset(rest) == multiset(s) + multiset{x}
    requires !LexLess(x, low) && forall k :: 0 <= k < |s| ==> !LexLess(s[k], low)
    ensures forall j :: 0 <= j < |rest| ==> !LexLess(rest[j], low)
  {
    forall j | 0 <= j < |rest|
      ensures !LexLess(rest[j], low)
    {
      assert rest[j] in multiset(rest);
      if rest[j] != x {
        assert rest[j] in multiset(s);
      }
    }
  }

  /** `x` put into the ordered `s` before the first string it is smaller than. */
  function InsertString(x: string, s: seq<string>): (r: seq<string>)
    requires Ordered(s)
    ensures Ordered(r) && multiset(r) == multiset(s) + multiset{x}
  {
    if s == [] then [x]
    else if LexLess(x, s[0]) then
      assert forall j :: 0 < j < |s| ==> !LexLess(s[j], x) by {
        forall j | 0 < j < |s| && LexLess(s[j], x)
          ensures false
        {
          LexLessTransitive(s[j], x, s[0]);
        }
      }
      LexLessAsymmetric(x, s[0]);
      [x] + s
    else
      var rest := InsertString(x, s[1..]);
      assert s == [s[0]] + s[1..];
      AtLeast(rest, s[1..], x, s[0]);
      [s[0]] + rest
  }

  /** The strings of `s` in order, as Rust's `sort` leaves them. */
  function SortStrings(s: seq<string>): (r: seq<string>)
    ensures Ordered(r) && multiset(r) == multiset(s)
  {
    if s == [] then []
    else
      assert s == [s[0]] + s[1..];
      InsertString(s[0], SortStrings(s[1..]))
  }

  /** Two ordered arrangements of the same strings start with the same string. */
  lemma OrderedHeads(a: seq<string>, b: seq<string>)
    requires Ordered(a) && Ordered(b) && multiset(a) == multiset(b) && a != []
    ensures b != [] && a[0] == b[0]
  {
    assert a[0] in multiset(b) && b[0] in multiset(a);
    var i :| 0 <= i < |a| && a[i] == b[0];
    var j :| 0 <= j < |b| && b[j] == a[0];
    LexLessAsymmetric(a[0], a[0]);
    LexLessAsymmetric(b[0], b[0]);
    assert !LexLess(a[i], a[0]) && !LexLess(b[j], b[0]);
    LexLessTotal(a[0], b[0]);
  }

  /** The strings after the first are all of them but that one. */
  lemma TailMultiset(a: seq<string>)
    requires a != []
    ensures multiset(a[1..]) == multiset(a) - multiset{a[0]}
  {
    assert a == [a[0]] + a[1..];
  }

  /** Two ordered arrangements of the same strings are the same sequence. */
  lemma {:induction false} OrderedUnique(a: seq<string>, b: seq<string>)
    requires Ordered(a) && Ordered(b) && multiset(a) == multiset(b)
    ensures a == b
    decreases |a|
  {
    if a != [] {
      OrderedHeads(a, b);
      TailMultiset(a);
      TailMultiset(b);
      assert Ordered(a[1..]) && Ordered(b[1..]);
      OrderedUnique(a[1..], b[1..]);
      assert a == [a[0]] + a[1..] && b == [b[0]] + b[1..];
    } else {
      assert |b| == |multiset(b)| == 0;
    }
  }

  /** Sorting depends only on which strings there are, and how often. */
  lemma SortStringsUnique(a: seq<string>, b: seq<string>)
    ensures SortStrings(a) == SortStrings(b) <==> multiset(a) == multiset(b)
  {
    if multiset(a) == multiset(b) {
      OrderedUnique(SortStrings(a), SortStrings(b));
    }
  }

  /** Sorting strings already in order changes nothing. */
  lemma SortOrdered(s: seq<string>)
    requires Ordered(s)
    ensures SortStrings(s) == s
  {
    OrderedUnique(SortStrings(s), s);
  }

}
