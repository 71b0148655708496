/**
 * Day 14: robots on a wrapping floor. Each robot has a position and a
 * velocity; after a number of seconds it has moved by the velocity that
 * many times, wrapping around the edges. Part 1 counts the robots in each
 * quadrant of the floor (robots on the middle row or column belong to
 * none) and multiplies the counts of the quadrants that hold any robot.
 */
module Day14 {
  import opened Wrappers
  import opened Text

  const I64_MAX: int := 0x7fff_ffff_ffff_ffff

  /** A vector as (x, y). */
  type Vec2 = (int, int)

  /** A robot as read: position, then velocity. */
  type Spec = (Vec2, Vec2)

  // ----- Parsing -----

  /** The number of digits at the front of `s`. */
  function DigitRun(s: string): (n: nat)
    ensures n <= |s| && AllDigits(s[..n]) && (n < |s| ==> !IsDigit(s[n]))
  {
    if s == [] || !IsDigit(s[0]) then 0
    else
      var n := 1 + DigitRun(s[1..]);
      assert forall i :: 1 <= i < n ==> s[..n][i] == s[1..][..n - 1][i - 1];
      n
  }

  /** One or more digits read as an `i64`, and the text after them. */
  function Natural(s: string): (r: Option<(int, string)>)
    ensures r.Some? ==> 0 <= r.value.0 <= I64_MAX && |r.value.1| < |s|
  {
    var n := DigitRun(s);
    if n == 0 || DigitsValue(s[..n]) > I64_MAX then None
    else Some((DigitsValue(s[..n]) as int, s[n..]))
  }

  /** A number with an optional leading minus sign, and the text after it. */
  function Number(s: string): (r: Option<(int, string)>)
    ensures r.Some? ==> -I64_MAX <= r.value.0 <= I64_MAX && |r.value.1| < |s|
  {
    if |s| > 0 && s[0] == '-' then
      match Natural(s[1..])
      case Some((n, rest)) => Some((-n, rest))
      case None => None
    else Natural(s)
  }

  /** Two numbers separated by a comma, and the text after them. */
  function Pair(s: string): (r: Option<(Vec2, string)>)
  {
    match Number(s)
    case Some((x, rest)) =>
      if |rest| > 0 && rest[0] == ',' then
        match Number(rest[1..])
        case Some((y, rest')) => Some(((x, y), rest'))
        case None => None
      else None
    case None => None
  }

  /** The number of spaces and tabs at the front of `s`. */
  function SpaceRun(s: string): (n: nat)
    ensures n <= |s|
  {
    if s != [] && (s[0] == ' ' || s[0] == '\t') then 1 + SpaceRun(s[1..]) else 0
  }

  /** `p=x,y v=dx,dy`, with any number of spaces or tabs before `v=` and nothing after. */
  function ParseRobot(line: string): (r: Option<Spec>)
  {
    if |line| < 2 || line[0] != 'p' || line[1] != '=' then None
    else
      match Pair(line[2..])
      case None => None
      case Some((position, rest)) =>
        var after := rest[SpaceRun(rest)..];
        if |after| < 2 || after[0] != 'v' || after[1] != '=' then None
        else
          match Pair(after[2..])
          case Some((velocity, end)) => if end == [] then Some((position, velocity)) else None
          case None => None
  }

  /** Every line as a robot; one malformed line fails the whole input. */
  function Parse(lines: seq<string>): (r: Option<seq<Spec>>)
    ensures r.Some? <==> forall i :: 0 <= i < |lines| ==> ParseRobot(lines[i]).Some?
    ensures r.Some? ==> (|r.value| == |lines| && forall i :: 0 <= i < |lines| ==> ParseRobot(lines[i]) == Some(r.value[i]))
  {
    if forall i :: 0 <= i < |lines| ==> ParseRobot(lines[i]).Some? then
      Some(seq(|lines|, i requires 0 <= i < |lines| => ParseRobot(lines[i]).value))
    else None
  }

  /** A number written in decimal, with a minus sign when negative. */
  function Show(n: int): string
  {
    if n < 0 then "-" + Decimal(-n) else Decimal(n)
  }

  /** Two numbers with a comma between them. */
  function PairText(v: Vec2): string
  {
    Show(v.0) + ("," + Show(v.1))
  }

  /** A robot written in the input's form, `p=x,y v=dx,dy`. */
  function Line(robot: Spec): string
  {
    "p=" + (PairText(robot.0) + (" v=" + PairText(robot.1)))
  }

  /** Digits followed by something that is not a digit end the run there. */
  lemma {:induction false} DigitRunOf(w: string, rest: string)
    requires AllDigits(w) && (rest == [] || !IsDigit(rest[0]))
    ensures DigitRun(w + rest) == |w|
    decreases |w|
  {
    if w != [] {
      assert (w + rest)[1..] == w[1..] + rest;
      DigitRunOf(w[1..], rest);
    }
  }

  /** A number written out, then text not starting with a digit, reads back. */
  lemma NumberShow(n: int, rest: string)
    requires -I64_MAX <= n <= I64_MAX && (rest == [] || !IsDigit(rest[0]))
    ensures Number(Show(n) + rest) == Some((n, rest))
  {
    var m := if n < 0 then -n else n;
    NaturalDecimal(m, rest);
    if n < 0 {
      Drop("-", Decimal(m) + rest);
      Assoc3("-", Decimal(m), rest);
    } else {
      assert IsDigit(Decimal(m)[0]);
    }
  }

  /** A number's digits, then text not starting with a digit, read back as the number. */
  lemma NaturalDecimal(m: nat, rest: string)
    requires m <= I64_MAX && (rest == [] || !IsDigit(rest[0]))
    ensures Natural(Decimal(m) + rest) == Some((m, rest))
  {
    DigitRunOf(Decimal(m), rest);
    DecimalValue(m);
    assert (Decimal(m) + rest)[..|Decimal(m)|] == Decimal(m);
    Drop(Decimal(m), rest);
  }

  lemma Assoc(a: string, b: string, c: string, d: string)
    ensures a + (b + c) + d == a + (b + (c + d))
  {
  }

  lemma Assoc3(a: string, b: string, c: string)
    ensures a + b + c == a + (b + c)
  {
  }

  lemma Drop(x: string, y: string)
    ensures (x + y)[|x|..] == y
  {
  }

  lemma DropTwice(s: string, i: nat, j: nat)
    requires i + j <= |s|
    ensures s[i..][j..] == s[i + j..]
  {
  }

  /** Two numbers that read back, with a comma between them, read back as a pair. */
  lemma PairOf(a: string, b: string, rest: string, x: int, y: int)
    requires Number(a + ("," + (b + rest))) == Some((x, "," + (b + rest)))
    requires Number(b + rest) == Some((y, rest))
    ensures Pair(a + ("," + b) + rest) == Some(((x, y), rest))
  {
    Assoc(a, ",", b, rest);
    Drop(",", b + rest);
  }

  /** Two numbers written with a comma, then text not starting with a digit, read back. */
  lemma PairShow(v: Vec2, rest: string)
    requires -I64_MAX <= v.0 <= I64_MAX && -I64_MAX <= v.1 <= I64_MAX
    requires rest == [] || !IsDigit(rest[0])
    ensures Pair(PairText(v) + rest) == Some((v, rest))
  {
    NumberShow(v.1, rest);
    NumberShow(v.0, "," + (Show(v.1) + rest));
    PairOf(Show(v.0), Show(v.1), rest, v.0, v.1);
  }

  /** Two pairs that read back, with ` v=` between them, read back as a robot. */
  lemma RobotOf(a: string, b: string, p: Vec2, v: Vec2)
    requires Pair(a + (" v=" + b)) == Some((p, " v=" + b))
    requires Pair(b + []) == Some((v, []))
    ensures ParseRobot("p=" + (a + (" v=" + b))) == Some((p, v))
  {
    var tail := " v=" + b;
    Drop("p=", a + tail);
    SpaceThenV(b);
    assert b + [] == b;
  }

  /** One space, then `v=`: the spaces end before the `v`, and `b` follows the `=`. */
  lemma SpaceThenV(b: string)
    ensures var tail := " v=" + b;
              SpaceRun(tail) == 1 && |tail| >= 3 && tail[1..][0] == 'v' && tail[1..][1] == '=' && tail[1..][2..] == b
  {
    var tail := " v=" + b;
    var after := tail[1..];
    assert after[0] == 'v' && tail[0] == ' ';
    assert SpaceRun(after) == 0;
    assert SpaceRun(tail) == 1 + SpaceRun(after);
    DropTwice(tail, 1, 2);
    Drop(" v=", b);
  }

  /** A robot written out reads back as the same robot. */
  lemma ParseRobotLine(robot: Spec)
    requires -I64_MAX <= robot.0.0 <= I64_MAX && -I64_MAX <= robot.0.1 <= I64_MAX
    requires -I64_MAX <= robot.1.0 <= I64_MAX && -I64_MAX <= robot.1.1 <= I64_MAX
    ensures ParseRobot(Line(robot)) == Some(robot)
  {
    var b := PairText(robot.1);
    PairShow(robot.0, " v=" + b);
    PairShow(robot.1, []);
    RobotOf(PairText(robot.0), b, robot.0, robot.1);
  }

  // ----- Moving -----

  /** Where a robot at `p` with velocity `v` is after `steps` seconds on a floor of `size`. */
  function Moved(p: Vec2, v: Vec2, steps: nat, size: Vec2): (q: Vec2)
    requires size.0 > 0 && size.1 > 0
    ensures 0 <= q.0 < size.0 && 0 <= q.1 < size.1
  {
    (Wrap(p.0, v.0, steps, size.0), Wrap(p.1, v.1, steps, size.1))
  }

  /** One coordinate after `steps` seconds, wrapped into [0, s) as `rem_euclid` wraps it. */
  function Wrap(p: int, v: int, steps: nat, s: int): (r: int)
    requires s > 0
    ensures 0 <= r < s
  {
    (p + v * steps) % s
  }

  /** The remainder is the one `r` in [0, s) with `x == k * s + r` for some `k`. */
  lemma ModUnique(x: int, s: int, k: int, r: int)
    requires s > 0 && 0 <= r < s && x == k * s + r
    ensures x % s == r
  {
    var d := k - x / s;
    assert d * s == x % s - r;
  }

  /** Wrapping an intermediate position does not change where the sum wraps to. */
  lemma ModAdd(a: int, b: int, s: int)
    requires s > 0
    ensures (a % s + b) % s == (a + b) % s
  {
    var q, k := a / s, (a % s + b) / s;
    var r := (a % s + b) % s;
    assert a + b == (q + k) * s + r;
    ModUnique(a + b, s, q + k, r);
  }

  /** Moving `a` seconds and then `b` seconds ends where moving `a + b` seconds does. */
  lemma MovedTwice(p: Vec2, v: Vec2, a: nat, b: nat, size: Vec2)
    requires size.0 > 0 && size.1 > 0
    ensures Moved(Moved(p, v, a, size), v, b, size) == Moved(p, v, a + b, size)
  {
    MovedAxis(p.0, v.0, a, b, size.0);
    MovedAxis(p.1, v.1, a, b, size.1);
  }

  /** Moving along one axis `a` seconds, then `b` seconds, wrapping at `s`. */
  lemma MovedAxis(p: int, v: int, a: nat, b: nat, s: int)
    requires s > 0
    ensures Wrap(Wrap(p, v, a, s), v, b, s) == Wrap(p, v, a + b, s)
  {
    ModAdd(p + v * a, v * b, s);
    assert v * (a + b) == v * a + v * b;
  }

  /** A robot: it moves in place. */
  class Robot {
    var position: Vec2
    var velocity: Vec2

    constructor (position: Vec2, velocity: Vec2)
      ensures this.position == position && this.velocity == velocity
    {
      this.position := position;
      this.velocity := velocity;
    }

    /** Moves the robot `steps` seconds on a floor of `size`; its velocity stays. */
    method Advance(steps: nat, size: Vec2)
      requires size.0 > 0 && size.1 > 0
      modifies this
      ensures velocity == old(velocity)
      ensures position == Moved(old(position), velocity, steps, size)
    {
      position := ((position.0 + velocity.0 * steps) % size.0, (position.1 + velocity.1 * steps) % size.1);
      assert position == Moved(old(position), velocity, steps, size);
    }
  }

  // ----- Quadrants -----

  /** The middle column and row of a floor of `size`. */
  function Middle(size: Vec2): Vec2
  {
    (size.0 / 2, size.1 / 2)
  }

  /** Right of the middle column, below the middle row. */
  type Quadrant = (bool, bool)

  /** The quadrant of `p`, or none on the middle row or column. */
  function QuadrantOf(p: Vec2, center: Vec2): (r: Option<Quadrant>)
    ensures r.None? <==> p.0 == center.0 || p.1 == center.1
  {
    if p.0 == center.0 || p.1 == center.1 then None else Some((p.0 > center.0, p.1 > center.1))
  }

  /** How many of the positions are in quadrant `q`. */
  function Count(ps: seq<Vec2>, center: Vec2, q: Quadrant): (n: nat)
    ensures n <= |ps|
  {
    if ps == [] then 0
    else Count(ps[..|ps| - 1], center, q) + if QuadrantOf(ps[|ps| - 1], center) == Some(q) then 1 else 0
  }

  /** How many of the positions are on the middle row or column. */
  function OnMiddle(ps: seq<Vec2>, center: Vec2): (n: nat)
    ensures n <= |ps|
  {
    if ps == [] then 0
    else OnMiddle(ps[..|ps| - 1], center) + if QuadrantOf(ps[|ps| - 1], center).None? then 1 else 0
  }

  /** Every position is in exactly one quadrant or on the middle lines. */
  lemma {:induction false} CountsPartition(ps: seq<Vec2>, center: Vec2)
    ensures Count(ps, center, (false, false)) + Count(ps, center, (true, false)) +
            Count(ps, center, (false, true)) + Count(ps, center, (true, true)) + OnMiddle(ps, center) == |ps|
  {
    if ps != [] {
      CountsPartition(ps[..|ps| - 1], center);
    }
  }

  /** A quadrant's count, or 1 when it holds no robot and so takes no part in the product. */
  function Factor(n: nat): (f: nat)
    ensures f >= 1
  {
    if n == 0 then 1 else n
  }

  /** The product of the robot counts of the quadrants that hold a robot. */
  function SafetyFactor(ps: seq<Vec2>, center: Vec2): (f: nat)
    ensures f >= 1
  {
    Product4(Factor(Count(ps, center, (false, false))), Factor(Count(ps, center, (true, false))),
             Factor(Count(ps, center, (false, true))), Factor(Count(ps, center, (true, true))))
  }

  /** The product of four factors; positive factors give a positive product. */
  function Product4(a: nat, b: nat, c: nat, d: nat): (p: nat)
    ensures a >= 1 && b >= 1 && c >= 1 && d >= 1 ==> p >= 1
  {
    assert a >= 1 && b >= 1 ==> a * b >= 1;
    assert c >= 1 && d >= 1 ==> c * d >= 1;
    a * b * (c * d)
  }

  /** Where every robot is after `steps` seconds. */
  function Finals(robots: seq<Spec>, size: Vec2, steps: nat): (ps: seq<Vec2>)
    requires size.0 > 0 && size.1 > 0
    ensures |ps| == |robots|
  {
    seq(|robots|, i requires 0 <= i < |robots| => Moved(robots[i].0, robots[i].1, steps, size))
  }

  /** The tally holds each quadrant that has a robot, with its count. */
  ghost predicate Tallies(quadrants: map<Quadrant, nat>, ps: seq<Vec2>, center: Vec2)
  {
    forall q: Quadrant :: (q in quadrants <==> Count(ps, center, q) > 0) &&
                          (q in quadrants ==> quadrants[q] == Count(ps, center, q))
  }

  /** Adding one robot's position to the tally. */
  lemma TallyStep(quadrants: map<Quadrant, nat>, ps: seq<Vec2>, center: Vec2, p: Vec2)
    requires Tallies(quadrants, ps, center)
    ensures QuadrantOf(p, center).None? ==> Tallies(quadrants, ps + [p], center)
    ensures QuadrantOf(p, center).Some? ==>
              var q := QuadrantOf(p, center).value;
              Tallies(quadrants[q := if q in quadrants then quadrants[q] + 1 else 1], ps + [p], center)
  {
    assert (ps + [p])[..|ps|] == ps;
  }

  /** A quadrant's tally, or 1 when it has none. */
  function Value(quadrants: map<Quadrant, nat>, q: Quadrant): nat
  {
    if q in quadrants then quadrants[q] else 1
  }

  /** The product of the values the tally holds, in a fixed order of the quadrants. */
  function Product(quadrants: map<Quadrant, nat>): nat
  {
    Product4(Value(quadrants, (false, false)), Value(quadrants, (true, false)),
             Value(quadrants, (false, true)), Value(quadrants, (true, true)))
  }

  /**
   * Moves every robot, tallies the quadrants, and multiplies the tallies.
   * The floor must have a positive size in both directions.
   */
  method Solve(robots: seq<Spec>, size: Vec2, steps: nat) returns (r: nat)
    requires size.0 > 0 && size.1 > 0
    ensures r == SafetyFactor(Finals(robots, size, steps), Middle(size))
  {
    var center := Middle(size);
    var quadrants: map<Quadrant, nat> := map[];
    ghost var finals := Finals(robots, size, steps);
    for i := 0 to |robots|
      invariant Tallies(quadrants, finals[..i], center)
    {
      var robot := new Robot(robots[i].0, robots[i].1);
      robot.Advance(steps, size);
      var p := robot.position;
      assert finals[..i + 1] == finals[..i] + [p];
      TallyStep(quadrants, finals[..i], center, p);
      if p.0 == center.0 || p.1 == center.1 {
        continue;
      }
      var q := (p.0 > center.0, p.1 > center.1);
      quadrants := quadrants[q := if q in quadrants then quadrants[q] + 1 else 1];
    }
    assert finals[..|robots|] == finals;
    assert forall q: Quadrant :: Value(quadrants, q) == Factor(Count(finals, center, q));
    r := Product(quadrants);
  }

  /** The floor is 101 wide and 103 tall, and part 1 looks 100 seconds ahead. */
  const FLOOR: Vec2 := (101, 103)
  const SECONDS: nat := 100

  /** The robots' safety factor. */
  method Part1(lines: seq<string>) returns (r: Option<nat>)
    ensures r.Some? <==> Parse(lines).Some?
    ensures r.Some? ==> r.value == SafetyFactor(Finals(Parse(lines).value, FLOOR, SECONDS), Middle(FLOOR))
  {
    var robots := Parse(lines);
    if robots.None? {
      return None;
    }
    var factor := Solve(robots.value, FLOOR, SECONDS);
    return Some(factor);
  }

}
