/**
 * The puzzle text of the crossed-wires circuit: a block of initial wire
 * values, a blank line, then one gate equation per line. The whole text is
 * trimmed of ASCII whitespace first and must be consumed completely;
 * anything else is a hard failure (`None`).
 */
module CircuitParse {
  import opened Wrappers
  import opened CircuitTypes
  import Text

  datatype Circuit = Circuit(initial: map<Wire, bool>, equations: map<Wire, Equation>)

  /** What a parser returns: the value read and the input left after it. */
  type Parsed<T> = Option<(T, string)>

  predicate IsWireChar(c: char) { 'a' <= c <= 'z' || '0' <= c <= '9' }
  predicate IsSpace(c: char) { c == ' ' || c == '\t' }

  /** A wire name as the puzzle writes it: three lower-case letters or digits. */
  predicate ValidWire(w: string) { |w| == 3 && forall i :: 0 <= i < 3 ==> IsWireChar(w[i]) }

  /** A parser that never returns more input than it was given. */
  ghost predicate Shrinks<T>(p: string -> Parsed<T>)
  {
    forall s :: p(s).Some? ==> |p(s).value.1| <= |s|
  }

  /** The input after `lit`, if the input starts with `lit`. */
  function Literal(lit: string, s: string): (r: Option<string>)
  {
    if lit <= s then Some(s[|lit|..]) else None
  }

  /** The input after the longest run of spaces and tabs at its start. */
  function SkipSpaces(s: string): (r: string)
    ensures |r| <= |s|
  {
    if |s| > 0 && IsSpace(s[0]) then SkipSpaces(s[1..]) else s
  }

  /** One or more spaces or tabs. */
  function Space1(s: string): (r: Option<string>)
    ensures r.Some? ==> |r.value| < |s|
  {
    if |s| > 0 && IsSpace(s[0]) then Some(SkipSpaces(s[1..])) else None
  }

  /** Exactly three wire characters. */
  function WireName(s: string): (r: Parsed<Wire>)
    ensures r.Some? ==> ValidWire(r.value.0) && s == r.value.0 + r.value.1
  {
    if |s| >= 3 && IsWireChar(s[0]) && IsWireChar(s[1]) && IsWireChar(s[2])
    then Some((s[..3], s[3..]))
    else None
  }

  /** `wire ":" space1 ('0' | '1')`, where `1` reads as true. */
  function InitialValue(s: string): (r: Parsed<(Wire, bool)>)
    ensures r.Some? ==> |r.value.1| < |s|
  {
    match WireName(s)
    case None => None
    case Some((w, s1)) =>
      match Literal(":", s1)
      case None => None
      case Some(s2) =>
        match Space1(s2)
        case None => None
        case Some(s3) =>
          if |s3| > 0 && (s3[0] == '0' || s3[0] == '1') then Some(((w, s3[0] == '1'), s3[1..]))
          else None
  }

  /** One of the keywords AND, OR, XOR, tried in that order. */
  function GateKeyword(s: string): (r: Parsed<Gate>)
    ensures r.Some? ==> |r.value.1| < |s|
  {
    if "AND" <= s then Some((And, s[3..]))
    else if "OR" <= s then Some((Or, s[2..]))
    else if "XOR" <= s then Some((Xor, s[3..]))
    else None
  }

  /** `a space1 gate space1 b space1 "->" space1 result`, read as `result <- gate(a, b)`. */
  function EquationLine(s: string): (r: Parsed<(Wire, Equation)>)
    ensures r.Some? ==> |r.value.1| < |s|
  {
    match WireName(s)
    case None => None
    case Some((a, s1)) =>
      match Space1(s1)
      case None => None
      case Some(s2) =>
        match GateKeyword(s2)
        case None => None
        case Some((g, s3)) =>
          match Space1(s3)
          case None => None
          case Some(s4) =>
            match OperandAndTarget(s4)
            case None => None
            case Some(((b, result), s9)) => Some(((result, Equation(a, b, g)), s9))
  }

  /** The tail of an equation line: `b space1 "->" space1 result`. */
  function OperandAndTarget(s: string): (r: Parsed<(Wire, Wire)>)
    ensures r.Some? ==> |r.value.1| < |s|
  {
    match WireName(s)
    case None => None
    case Some((b, s5)) =>
      match Space1(s5)
      case None => None
      case Some(s6) =>
        match Literal("->", s6)
        case None => None
        case Some(s7) =>
          match Space1(s7)
          case None => None
          case Some(s8) =>
            match WireName(s8)
            case None => None
            case Some((result, s9)) => Some(((b, result), s9))
  }

  /**
   * Zero or more items separated by single newlines. A newline that is not
   * followed by an item is left unread.
   */
  function Separated<T>(p: string -> Parsed<T>, s: string): (r: (seq<T>, string))
    requires Shrinks(p)
    ensures |r.1| <= |s|
  {
    match p(s)
    case None => ([], s)
    case Some((x, rest)) => SeparatedTail(p, [x], rest)
  }

  function SeparatedTail<T>(p: string -> Parsed<T>, acc: seq<T>, s: string): (r: (seq<T>, string))
    requires Shrinks(p)
    ensures |r.1| <= |s|
    decreases |s|
  {
    if |s| > 0 && s[0] == '\n' then
      match p(s[1..])
      case None => (acc, s)
      case Some((x, rest)) => SeparatedTail(p, acc + [x], rest)
    else (acc, s)
  }

  /** Collects key/value pairs into a map; a later pair replaces an earlier one with the same key. */
  function MapOf<K(!new), V>(pairs: seq<(K, V)>): (m: map<K, V>)
    ensures forall k :: k in m <==> exists i :: 0 <= i < |pairs| && pairs[i].0 == k
  {
    if |pairs| == 0 then map[]
    else
      var m := MapOf(pairs[..|pairs| - 1]);
      assert forall i :: 0 <= i < |pairs| - 1 ==> pairs[..|pairs| - 1][i] == pairs[i];
      m[pairs[|pairs| - 1].0 := pairs[|pairs| - 1].1]
  }

  /** Reads a whole puzzle text; `None` wherever the source's parser fails. */
  function Parse(input: string): (r: Option<Circuit>)
  {
    assert Shrinks(InitialValue) && Shrinks(EquationLine);
    var t := Text.Trim(input);
    var (values, r1) := Separated(InitialValue, t);
    match Literal("\n\n", r1)
    case None => None
    case Some(r2) =>
      var (eqs, r3) := Separated(EquationLine, r2);
      if r3 == [] then Some(Circuit(MapOf(values), MapOf(eqs))) else None
  }

  // ----- The text the parser accepts, written out -----

  function ValueText(v: (Wire, bool)): string
  {
    v.0 + ": " + (if v.1 then "1" else "0")
  }

  function GateText(g: Gate): string
  {
    match g
    case And => "AND"
    case Or => "OR"
    case Xor => "XOR"
  }

  function EquationText(e: (Wire, Equation)): string
  {
    e.1.a + " " + GateText(e.1.gate) + " " + e.1.b + " -> " + e.0
  }

  /** The rendering of each item, joined by newlines. */
  function Joined<T>(items: seq<T>, render: T -> string): string
  {
    if |items| == 0 then ""
    else if |items| == 1 then render(items[0])
    else render(items[0]) + "\n" + Joined(items[1..], render)
  }

  /** The puzzle text for the given initial values and equations. */
  function Render(values: seq<(Wire, bool)>, eqs: seq<(Wire, Equation)>): string
  {
    Joined(values, ValueText) + "\n\n" + Joined(eqs, EquationText)
  }

  predicate ValidEquation(e: (Wire, Equation))
  {
    ValidWire(e.0) && ValidWire(e.1.a) && ValidWire(e.1.b)
  }

  /** A line end or the end of the input. */
  predicate AtLineEnd(r: string) { r == [] || r[0] == '\n' }

  lemma SkipSpacesStops(s: string)
    requires |s| > 0 && !IsSpace(s[0])
    ensures SkipSpaces(s) == s
  {
  }

  lemma ValueRoundTrip(v: (Wire, bool), r: string)
    requires ValidWire(v.0) && AtLineEnd(r)
    ensures InitialValue(ValueText(v) + r) == Some((v, r))
  {
    var s := ValueText(v) + r;
    var digit := if v.1 then "1" else "0";
    assert s == v.0 + (":" + (" " + (digit + r)));
    assert WireName(s) == Some((v.0, ":" + (" " + (digit + r))));
    assert Literal(":", ":" + (" " + (digit + r))) == Some(" " + (digit + r));
    SkipSpacesStops(digit + r);
    assert Space1(" " + (digit + r)) == Some(digit + r);
  }

  lemma GateRoundTrip(g: Gate, r: string)
    requires |r| > 0 && r[0] == ' '
    ensures GateKeyword(GateText(g) + r) == Some((g, r))
  {
    var s := GateText(g) + r;
    match g
    case And =>
      assert s[..3] == "AND";
    case Or =>
      assert s[..2] == "OR";
      assert !("AND" <= s) by { assert s[0] == 'O'; }
    case Xor =>
      assert s[..3] == "XOR";
      assert !("AND" <= s) && !("OR" <= s) by { assert s[0] == 'X'; }
  }

  lemma OperandAndTargetRoundTrip(b: Wire, res: Wire, r: string)
    requires ValidWire(b) && ValidWire(res) && AtLineEnd(r)
    ensures OperandAndTarget(b + " -> " + res + r) == Some(((b, res), r))
  {
    var t8 := res + r;
    var t7 := " " + t8;
    var t6 := "->" + t7;
    var t5 := " " + t6;
    assert b + " -> " + res + r == b + t5;
    assert WireName(b + t5) == Some((b, t5));
    SkipSpacesStops(t6);
    assert Literal("->", t6) == Some(t7);
    SkipSpacesStops(t8);
    assert WireName(t8) == Some((res, r));
  }

  lemma EquationRoundTrip(e: (Wire, Equation), r: string)
    requires ValidEquation(e) && AtLineEnd(r)
    ensures EquationLine(EquationText(e) + r) == Some((e, r))
  {
    var (res, eq) := e;
    var t4 := eq.b + " -> " + res + r;
    var t3 := " " + t4;
    var t2 := GateText(eq.gate) + t3;
    var t1 := " " + t2;
    assert EquationText(e) + r == eq.a + t1;
    assert WireName(eq.a + t1) == Some((eq.a, t1));
    SkipSpacesStops(t2);
    GateRoundTrip(eq.gate, t3);
    SkipSpacesStops(t4);
    OperandAndTargetRoundTrip(eq.b, res, r);
  }

  /** `p` reads back the rendering of `x` when a line end or the end of input follows it. */
  ghost predicate ReadsBack<T>(p: string -> Parsed<T>, render: T -> string, x: T)
  {
    forall r :: AtLineEnd(r) ==> p(render(x) + r) == Some((x, r))
  }

  lemma UseReadsBack<T>(p: string -> Parsed<T>, render: T -> string, x: T, r: string)
    requires ReadsBack(p, render, x) && AtLineEnd(r)
    ensures p(render(x) + r) == Some((x, r))
  {
  }

  lemma {:induction false} SeparatedTailRoundTrip<T>(p: string -> Parsed<T>, render: T -> string,
                                                   acc: seq<T>, items: seq<T>, suffix: string)
    requires Shrinks(p) && |items| > 0
    requires forall x :: x in items ==> ReadsBack(p, render, x)
    requires suffix == [] || (suffix[0] == '\n' && p(suffix[1..]).None?)
    ensures SeparatedTail(p, acc, "\n" + Joined(items, render) + suffix) == (acc + items, suffix)
    decreases |items|
  {
    var s := "\n" + Joined(items, render) + suffix;
    if |items| == 1 {
      assert s[1..] == render(items[0]) + suffix;
      UseReadsBack(p, render, items[0], suffix);
      assert acc + items == acc + [items[0]];
      assert SeparatedTail(p, acc + [items[0]], suffix) == (acc + [items[0]], suffix);
    } else {
      var rest := "\n" + Joined(items[1..], render) + suffix;
      assert s[1..] == render(items[0]) + rest;
      UseReadsBack(p, render, items[0], rest);
      assert forall x :: x in items[1..] ==> x in items;
      SeparatedTailRoundTrip(p, render, acc + [items[0]], items[1..], suffix);
      assert acc + [items[0]] + items[1..] == acc + items;
    }
  }

  lemma {:induction false} SeparatedRoundTrip<T>(p: string -> Parsed<T>, render: T -> string, items: seq<T>, suffix: string)
    requires Shrinks(p) && |items| > 0
    requires forall x :: x in items ==> ReadsBack(p, render, x)
    requires suffix == [] || (suffix[0] == '\n' && p(suffix[1..]).None?)
    ensures Separated(p, Joined(items, render) + suffix) == (items, suffix)
  {
    var s := Joined(items, render) + suffix;
    var rest;
    if |items| == 1 {
      rest := suffix;
    } else {
      rest := "\n" + Joined(items[1..], render) + suffix;
      assert Joined(items, render) == render(items[0]) + "\n" + Joined(items[1..], render);
    }
    assert s == render(items[0]) + rest;
    UseReadsBack(p, render, items[0], rest);
    assert Separated(p, s) == SeparatedTail(p, [items[0]], rest);
    if |items| > 1 {
      assert forall x :: x in items[1..] ==> x in items;
      SeparatedTailRoundTrip(p, render, [items[0]], items[1..], suffix);
      assert [items[0]] + items[1..] == items;
    } else {
      assert [items[0]] == items;
    }
  }

  lemma {:induction false} JoinedEnds<T>(items: seq<T>, render: T -> string)
    requires |items| > 0
    requires forall x :: x in items ==> |render(x)| > 0
    ensures |Joined(items, render)| > 0
    ensures Joined(items, render)[0] == render(items[0])[0]
    ensures var j := Joined(items, render); var last := render(items[|items| - 1]);
            j[|j| - 1] == last[|last| - 1]
  {
    if |items| > 1 {
      JoinedEnds(items[1..], render);
    }
  }

  lemma NoValueAtNewline(t: string)
    requires |t| > 0 && t[0] == '\n'
    ensures InitialValue(t).None?
  {
    assert WireName(t).None?;
  }

  lemma TrimIdentity(s: string)
    requires |s| > 0 && !Text.IsAsciiSpace(s[0]) && !Text.IsAsciiSpace(s[|s| - 1])
    ensures Text.Trim(s) == s
  {
  }

  lemma ValuesReadBack(values: seq<(Wire, bool)>)
    requires forall v :: v in values ==> ValidWire(v.0)
    ensures forall x :: x in values ==> ReadsBack(InitialValue, ValueText, x)
  {
    forall x | x in values ensures ReadsBack(InitialValue, ValueText, x) {
      forall r | AtLineEnd(r) ensures InitialValue(ValueText(x) + r) == Some((x, r)) {
        ValueRoundTrip(x, r);
      }
    }
  }

  lemma EquationsReadBack(eqs: seq<(Wire, Equation)>)
    requires forall e :: e in eqs ==> ValidEquation(e)
    ensures forall x :: x in eqs ==> ReadsBack(EquationLine, EquationText, x)
  {
    forall x | x in eqs ensures ReadsBack(EquationLine, EquationText, x) {
      forall r | AtLineEnd(r) ensures EquationLine(EquationText(x) + r) == Some((x, r)) {
        EquationRoundTrip(x, r);
      }
    }
  }

  lemma RenderIsTrimmed(values: seq<(Wire, bool)>, eqs: seq<(Wire, Equation)>)
    requires |values| > 0 && |eqs| > 0
    requires forall v :: v in values ==> ValidWire(v.0)
    requires forall e :: e in eqs ==> ValidEquation(e)
    ensures Text.Trim(Render(values, eqs)) == Render(values, eqs)
  {
    var text := Render(values, eqs);
    var et := Joined(eqs, EquationText);
    JoinedEnds(values, ValueText);
    JoinedEnds(eqs, EquationText);
    assert values[0] in values;
    assert text[0] == values[0].0[0];
    var lastEq := eqs[|eqs| - 1];
    assert lastEq in eqs;
    assert EquationText(lastEq)[|EquationText(lastEq)| - 1] == lastEq.0[2];
    assert text[|text| - 1] == et[|et| - 1];
    TrimIdentity(text);
  }

  /**
   * Reading back the text of any non-empty set of initial values and
   * equations over well-formed wire names gives those values and equations,
   * a later line replacing an earlier one for the same wire.
   */
  lemma {:induction false} ParseRender(values: seq<(Wire, bool)>, eqs: seq<(Wire, Equation)>)
    requires |values| > 0 && |eqs| > 0
    requires forall v :: v in values ==> ValidWire(v.0)
    requires forall e :: e in eqs ==> ValidEquation(e)
    ensures Parse(Render(values, eqs)) == Some(Circuit(MapOf(values), MapOf(eqs)))
  {
    var vt := Joined(values, ValueText);
    var et := Joined(eqs, EquationText);
    var text := Render(values, eqs);
    var suffix := "\n\n" + et;
    assert text == vt + suffix;
    RenderIsTrimmed(values, eqs);
    // The values stop at the blank line, the equations at the end.
    assert suffix[1..] == "\n" + et;
    NoValueAtNewline("\n" + et);
    ValuesReadBack(values);
    SeparatedRoundTrip(InitialValue, ValueText, values, suffix);
    assert Literal("\n\n", suffix) == Some(et);
    EquationsReadBack(eqs);
    SeparatedRoundTrip(EquationLine, EquationText, eqs, []);
    assert et + [] == et;
  }
}
