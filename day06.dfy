/**
 * Day 6: a guard patrols a lab. Each round the guard turns right if an
 * obstacle is on the cell ahead and steps onto it otherwise, for as long as
 * the cell ahead is on the map. Part 1 counts the cells the guard steps
 * onto; part 2 counts the cells where one extra obstacle makes the guard
 * repeat a position and heading before leaving.
 */
module Day06 {
  import opened Wrappers
  import opened Sets

  /** A point as (x, y): x grows to the right, y downwards. */
  type Pos = (int, int)

  /** The guard's position and velocity. */
  datatype Guard = Guard(pos: Pos, vel: Pos)

  /** The obstacles, and the map's width (the first line's length) and height (the number of lines). */
  datatype Lab = Lab(obstacles: set<Pos>, width: int, height: int)

  const UP: Pos := (0, -1)

  function Plus(p: Pos, v: Pos): Pos
  {
    (p.0 + v.0, p.1 + v.1)
  }

  predicate Inside(lab: Lab, p: Pos)
  {
    0 <= p.0 < lab.width && 0 <= p.1 < lab.height
  }

  predicate IsDir(v: Pos)
  {
    v == (0, -1) || v == (1, 0) || v == (0, 1) || v == (-1, 0)
  }

  function Ahead(g: Guard): Pos
  {
    Plus(g.pos, g.vel)
  }

  /** A quarter turn to the guard's right, (vx, vy) to (-vy, vx). */
  function Turn(v: Pos): Pos
  {
    (-v.1, v.0)
  }

  function Turns(v: Pos, t: nat): Pos
  {
    if t == 0 then v else Turn(Turns(v, t - 1))
  }

  /** Turning right goes up, right, down, left and back to up. */
  lemma TurnOrder(v: Pos)
    ensures Turn(UP) == (1, 0) && Turn((1, 0)) == (0, 1) && Turn((0, 1)) == (-1, 0) && Turn((-1, 0)) == UP
    ensures IsDir(v) ==> IsDir(Turn(v))
  {
  }

  /** Four quarter turns face the same way again. */
  lemma TurnsFour(v: Pos)
    ensures Turns(v, 4) == v
  {
    assert Turns(v, 1) == Turn(v);
    assert Turns(v, 2) == Turn(Turn(v));
    assert Turns(v, 4) == Turn(Turn(Turns(v, 2)));
  }

  // ----- The walk -----

  /** The walk ends when the cell ahead is off the map. */
  predicate Over(lab: Lab, g: Guard)
  {
    !Inside(lab, Ahead(g))
  }

  /** This round is a step onto the cell ahead. */
  predicate Steps(lab: Lab, g: Guard)
  {
    !Over(lab, g) && Ahead(g) !in lab.obstacles
  }

  /** One round: turn at an obstacle, otherwise step; a finished walk stays where it is. */
  function Tick(lab: Lab, g: Guard): Guard
  {
    if Over(lab, g) then g
    else if Ahead(g) in lab.obstacles then Guard(g.pos, Turn(g.vel))
    else Guard(Ahead(g), g.vel)
  }

  /** The guard after `n` rounds. */
  function Walk(lab: Lab, g: Guard, n: nat): Guard
  {
    if n == 0 then g else Tick(lab, Walk(lab, g, n - 1))
  }

  /** The cells stepped onto in the first `n` rounds. */
  function Entered(lab: Lab, g: Guard, n: nat): set<Pos>
  {
    if n == 0 then {}
    else
      var s := Walk(lab, g, n - 1);
      Entered(lab, g, n - 1) + if Steps(lab, s) then {Ahead(s)} else {}
  }

  /** The guard starts at `start` facing up. */
  function Start(start: Pos): Guard
  {
    Guard(start, UP)
  }

  /** The walk never ends. */
  ghost predicate Endless(lab: Lab, start: Pos)
  {
    forall n: nat :: !Over(lab, Walk(lab, Start(start), n))
  }

  /** One round keeps a heading of one unit along an axis, and a step lands on the map. */
  lemma TickShape(lab: Lab, s: Guard)
    requires IsDir(s.vel)
    ensures IsDir(Tick(lab, s).vel)
    ensures Tick(lab, s).pos == s.pos || Inside(lab, Tick(lab, s).pos)
  {
    TurnOrder(s.vel);
  }

  /** The guard keeps a heading of one unit along an axis, and never leaves the map once it has stepped. */
  lemma {:induction false} WalkShape(lab: Lab, g: Guard, n: nat)
    requires IsDir(g.vel)
    ensures IsDir(Walk(lab, g, n).vel)
    ensures Walk(lab, g, n).pos == g.pos || Inside(lab, Walk(lab, g, n).pos)
  {
    if n > 0 {
      WalkShape(lab, g, n - 1);
      TickShape(lab, Walk(lab, g, n - 1));
    }
  }

  /** Every cell stepped onto is on the map and free of obstacles. */
  lemma {:induction false} EnteredFree(lab: Lab, g: Guard, n: nat)
    ensures forall p :: p in Entered(lab, g, n) ==> Inside(lab, p) && p !in lab.obstacles
  {
    if n > 0 {
      EnteredFree(lab, g, n - 1);
    }
  }

  /** Walking `a + b` rounds is walking `a` rounds and then `b` more. */
  lemma {:induction false} WalkAdd(lab: Lab, g: Guard, a: nat, b: nat)
    ensures Walk(lab, g, a + b) == Walk(lab, Walk(lab, g, a), b)
  {
    if b > 0 {
      WalkAdd(lab, g, a, b - 1);
    }
  }

  /** A walk that is still going on was going on at every earlier round. */
  lemma {:induction false} GoingBefore(lab: Lab, g: Guard, m: nat, n: nat)
    requires m <= n && !Over(lab, Walk(lab, g, n))
    ensures !Over(lab, Walk(lab, g, m))
  {
    if m < n {
      GoingBefore(lab, g, m, n - 1);
    }
  }

  /** A position and heading that come back while the walk goes on come back forever: the walk never ends. */
  lemma RepeatIsEndless(lab: Lab, start: Pos, i: nat, j: nat)
    requires i < j && Walk(lab, Start(start), i) == Walk(lab, Start(start), j)
    requires !Over(lab, Walk(lab, Start(start), j))
    ensures Endless(lab, start)
  {
    forall n: nat
      ensures !Over(lab, Walk(lab, Start(start), n))
    {
      RepeatGoing(lab, Start(start), i, j, n);
    }
  }

  lemma {:induction false} RepeatGoing(lab: Lab, g: Guard, i: nat, j: nat, n: nat)
    requires i < j && Walk(lab, g, i) == Walk(lab, g, j) && !Over(lab, Walk(lab, g, j))
    ensures !Over(lab, Walk(lab, g, n))
    decreases n
  {
    if n <= j {
      GoingBefore(lab, g, n, j);
    } else {
      var back := n - (j - i);
      WalkAdd(lab, g, j, n - j);
      WalkAdd(lab, g, i, n - j);
      assert back == i + (n - j);
      RepeatGoing(lab, g, i, j, back);
    }
  }

  // ----- Reading the map -----

  /** The character at `p` (column p.0 of line p.1) is `c`. */
  predicate IsAt(lines: seq<string>, p: Pos, c: char)
  {
    0 <= p.1 < |lines| && 0 <= p.0 < |lines[p.1]| && lines[p.1][p.0] == c
  }

  /** `p` comes before (`x`, `y`) in reading order. */
  predicate Before(p: Pos, x: int, y: int)
  {
    p.1 < y || (p.1 == y && p.0 < x)
  }

  /**
   * The obstacles (`#`) and the guard's start: the last `^` in reading
   * order, or (0, 0) when there is none.
   */
  method Scan(lines: seq<string>) returns (obstacles: set<Pos>, start: Pos)
    ensures forall p :: p in obstacles <==> IsAt(lines, p, '#')
    ensures forall p :: IsAt(lines, p, '^') ==> IsAt(lines, start, '^') && (p == start || Before(p, start.0, start.1))
    ensures !IsAt(lines, start, '^') ==> start == (0, 0)
  {
    obstacles, start := {}, (0, 0);
    var y := 0;
    while y < |lines|
      invariant y <= |lines|
      invariant forall p :: p in obstacles <==> IsAt(lines, p, '#') && Before(p, 0, y)
      invariant forall p :: IsAt(lines, p, '^') && Before(p, 0, y) ==>
                  IsAt(lines, start, '^') && (p == start || Before(p, start.0, start.1))
      invariant start == (0, 0) || (IsAt(lines, start, '^') && Before(start, 0, y))
    {
      var x := 0;
      while x < |lines[y]|
        invariant x <= |lines[y]|
        invariant forall p :: p in obstacles <==> IsAt(lines, p, '#') && Before(p, x, y)
        invariant forall p :: IsAt(lines, p, '^') && Before(p, x, y) ==>
                    IsAt(lines, start, '^') && (p == start || Before(p, start.0, start.1))
        invariant start == (0, 0) || (IsAt(lines, start, '^') && Before(start, x, y))
      {
        if lines[y][x] == '#' {
          obstacles := obstacles + {(x, y)};
        } else if lines[y][x] == '^' {
          start := (x, y);
        }
        x := x + 1;
      }
      y := y + 1;
    }
  }

  /** The obstacles the lines show. */
  ghost function Obstacles(lines: seq<string>): set<Pos>
  {
    set y, x | 0 <= y < |lines| && 0 <= x < |lines[y]| && lines[y][x] == '#' :: (x, y)
  }

  /** The lab the lines describe; the source takes the first line's length, so there must be one. */
  ghost function LabOf(lines: seq<string>): Lab
    requires lines != []
  {
    Lab(Obstacles(lines), |lines[0]|, |lines|)
  }

  /** The guard starts on the last `^` in reading order, or at (0, 0) when there is none. */
  ghost predicate IsStart(lines: seq<string>, p: Pos)
  {
    if exists q :: IsAt(lines, q, '^') then
      IsAt(lines, p, '^') && forall q :: IsAt(lines, q, '^') ==> q == p || Before(q, p.0, p.1)
    else p == (0, 0)
  }

  /** The lines fix one start. */
  lemma StartUnique(lines: seq<string>, p: Pos, q: Pos)
    requires IsStart(lines, p) && IsStart(lines, q)
    ensures p == q
  {
  }

  method ReadLab(lines: seq<string>) returns (r: Option<(Lab, Pos)>)
    ensures r.None? <==> lines == []
    ensures r.Some? ==> r.value.0 == LabOf(lines) && IsStart(lines, r.value.1)
  {
    if lines == [] {
      return None;
    }
    var obstacles, start := Scan(lines);
    assert obstacles == Obstacles(lines);
    return Some((Lab(obstacles, |lines[0]|, |lines|), start));
  }

  // ----- Part 1 -----

  /**
   * The cells the guard steps onto before the walk ends. A walk that never
   * ends would run forever; the model gives up after `fuel` rounds.
   */
  method Patrol(lab: Lab, start: Pos, fuel: nat) returns (hit: Option<set<Pos>>, ghost rounds: nat)
    ensures hit.Some? ==> Over(lab, Walk(lab, Start(start), rounds)) && hit.value == Entered(lab, Start(start), rounds)
    ensures hit.Some? ==> forall m: nat :: m < rounds ==> !Over(lab, Walk(lab, Start(start), m))
    ensures hit.None? ==> forall m: nat :: m <= fuel ==> !Over(lab, Walk(lab, Start(start), m))
  {
    var position, velocity := start, UP;
    var cells: set<Pos> := {};
    var k: nat := 0;
    while Inside(lab, Plus(position, velocity))
      invariant k <= fuel
      invariant Guard(position, velocity) == Walk(lab, Start(start), k)
      invariant cells == Entered(lab, Start(start), k)
      invariant forall m: nat :: m < k ==> !Over(lab, Walk(lab, Start(start), m))
      decreases fuel - k
    {
      if k == fuel {
        return None, k;
      }
      if Plus(position, velocity) in lab.obstacles {
        velocity := (-velocity.1, velocity.0);
      } else {
        position := Plus(position, velocity);
        cells := cells + {position};
      }
      k := k + 1;
    }
    return Some(cells), k;
  }

  /** Part 1: the number of distinct cells entered, or `None` for an empty input or a walk longer than `fuel` rounds. */
  method Part1(lines: seq<string>, fuel: nat) returns (r: Option<nat>)
    ensures lines == [] ==> r.None?
    ensures r.Some? ==> lines != [] && (exists start, n: nat :: IsStart(lines, start) && Over(LabOf(lines), Walk(LabOf(lines), Start(start), n)) && r.value == |Entered(LabOf(lines), Start(start), n)|)
    ensures r.None? && lines != [] ==> (exists start :: IsStart(lines, start) && forall m: nat :: m <= fuel ==> !Over(LabOf(lines), Walk(LabOf(lines), Start(start), m)))
  {
    var read := ReadLab(lines);
    if read.None? {
      return None;
    }
    var (lab, start) := read.value;
    var hit, rounds := Patrol(lab, start, fuel);
    if hit.None? {
      return None;
    }
    return Some(|hit.value|);
  }

  // ----- Part 2 -----

  /** How a walk with the extra obstacle turns out. */
  datatype Verdict =
    | Leaves   // the cell ahead goes off the map
    | Loops    // a position and heading the guard stepped from comes round again
    | Spins    // obstacles on all four sides: the source's loop turns on the spot forever

  /** Every state the walk can go on from, and some more: heading one unit along an axis, at most one cell off the map. */
  const DIRS: set<Pos> := {(0, -1), (1, 0), (0, 1), (-1, 0)}

  function Going(lab: Lab): set<Guard>
  {
    set x, y, v | -1 <= x <= lab.width && -1 <= y <= lab.height && v in DIRS :: Guard((x, y), v)
  }

  lemma InGoing(lab: Lab, g: Guard)
    requires IsDir(g.vel) && !Over(lab, g)
    ensures g in Going(lab)
  {
    assert g.vel in DIRS;
    assert -1 <= g.pos.0 <= lab.width && -1 <= g.pos.1 <= lab.height;
  }

  /** The cell next to `p` towards `v` is an obstacle on the map. */
  predicate BlockedTowards(lab: Lab, p: Pos, v: Pos)
  {
    Inside(lab, Plus(p, v)) && Plus(p, v) in lab.obstacles
  }

  /** All four cells around `p` are obstacles on the map. */
  ghost predicate Boxed(lab: Lab, p: Pos)
  {
    forall v :: IsDir(v) ==> BlockedTowards(lab, p, v)
  }

  /** The walk reaches a cell boxed in on all four sides. */
  ghost predicate Spinning(lab: Lab, start: Pos)
  {
    exists n: nat :: Boxed(lab, Walk(lab, Start(start), n).pos)
  }

  /**
   * Walks with a record of the (position, heading) pairs stepped from and
   * stops at the first that comes round again. `turns` counts the rounds
   * since the last step; a fourth turn in a row is the spin.
   */
  method Trapped(lab: Lab, start: Pos) returns (r: Verdict, ghost rounds: nat)
    ensures r == Leaves ==> Over(lab, Walk(lab, Start(start), rounds))
    ensures r != Leaves ==> Endless(lab, start)
    ensures r == Spins ==> Boxed(lab, Walk(lab, Start(start), rounds).pos)
  {
    var position, velocity := start, UP;
    var visited: set<Guard> := {};
    ghost var when: map<Guard, nat> := map[];
    var turns: nat := 0;
    ghost var last, heading := 0, UP;
    rounds := 0;
    while Inside(lab, Plus(position, velocity))
      invariant Patrolling(lab, start, position, velocity, visited, when, rounds, turns, last, heading)
      decreases |Going(lab)| - |visited|, 3 - turns
    {
      var here := Guard(position, velocity);
      if here in visited {
        RepeatIsEndless(lab, start, when[here], rounds);
        return Loops, rounds;
      }
      if Plus(position, velocity) in lab.obstacles && turns == 3 {
        Spin(lab, start, last, position, heading);
        return Spins, rounds;
      }
      position, velocity, visited, turns, when, last, heading :=
        Advance(lab, start, position, velocity, visited, turns, when, last, heading, rounds);
      rounds := rounds + 1;
    }
    return Leaves, rounds;
  }

  /** One round of `Trapped`'s walk that neither repeats a state nor spins: a turn at an obstacle, otherwise a step. */
  method Advance(lab: Lab, start: Pos, position: Pos, velocity: Pos, visited: set<Guard>, turns: nat,
                 ghost when: map<Guard, nat>, ghost last: nat, ghost heading: Pos, ghost rounds: nat)
    returns (position': Pos, velocity': Pos, visited': set<Guard>, turns': nat,
             ghost when': map<Guard, nat>, ghost last': nat, ghost heading': Pos)
    requires Patrolling(lab, start, position, velocity, visited, when, rounds, turns, last, heading)
    requires Inside(lab, Plus(position, velocity)) && Guard(position, velocity) !in visited
    requires Plus(position, velocity) in lab.obstacles ==> turns < 3
    ensures Patrolling(lab, start, position', velocity', visited', when', rounds + 1, turns', last', heading')
    ensures |visited'| <= |Going(lab)|
    ensures |visited'| > |visited| || (visited' == visited && turns' > turns)
  {
    if Plus(position, velocity) in lab.obstacles {
      PatrolTurn(lab, start, position, velocity, visited, when, rounds, turns, last, heading);
      SubsetCard(visited, Going(lab));
      return position, (-velocity.1, velocity.0), visited, turns + 1, when, last, heading;
    }
    var here := Guard(position, velocity);
    PatrolStep(lab, start, position, velocity, visited, when, rounds, turns, last, heading);
    return Plus(position, velocity), velocity, visited + {here}, 0, when[here := rounds], rounds + 1, velocity;
  }

  /** The loop state of `Trapped` after `rounds` rounds. */
  ghost predicate Patrolling(lab: Lab, start: Pos, position: Pos, velocity: Pos, visited: set<Guard>,
                             when: map<Guard, nat>, rounds: nat, turns: nat, last: nat, heading: Pos)
  {
    && Guard(position, velocity) == Walk(lab, Start(start), rounds)
    && Recorded(lab, start, visited, when, rounds)
    && Turning(lab, start, rounds, last, heading, position, velocity, turns)
  }

  /** A turn at an obstacle ahead: one more turn on the spot. */
  lemma PatrolTurn(lab: Lab, start: Pos, position: Pos, velocity: Pos, visited: set<Guard>,
                   when: map<Guard, nat>, rounds: nat, turns: nat, last: nat, heading: Pos)
    requires Patrolling(lab, start, position, velocity, visited, when, rounds, turns, last, heading)
    requires BlockedTowards(lab, position, velocity) && turns < 3
    ensures Patrolling(lab, start, position, (-velocity.1, velocity.0), visited, when, rounds + 1, turns + 1, last, heading)
  {
    TurnNext(lab, start, rounds, last, heading, position, velocity, turns);
    RecordedLater(lab, start, visited, when, rounds);
  }

  /** A step onto a free cell ahead: the state stepped from is recorded, and the count of states left to see drops. */
  lemma PatrolStep(lab: Lab, start: Pos, position: Pos, velocity: Pos, visited: set<Guard>,
                   when: map<Guard, nat>, rounds: nat, turns: nat, last: nat, heading: Pos)
    requires Patrolling(lab, start, position, velocity, visited, when, rounds, turns, last, heading)
    requires Inside(lab, Plus(position, velocity)) && Plus(position, velocity) !in lab.obstacles
    requires Guard(position, velocity) !in visited
    ensures var here := Guard(position, velocity);
            && Patrolling(lab, start, Plus(position, velocity), velocity, visited + {here}, when[here := rounds],
                          rounds + 1, 0, rounds + 1, velocity)
            && |visited + {here}| <= |Going(lab)|
  {
    var here := Guard(position, velocity);
    StepNext(lab, start, rounds, last, heading, position, velocity, turns);
    RecordStep(lab, start, visited, when, rounds);
    SubsetCard(visited + {here}, Going(lab));
  }

  /** Every state stepped from is recorded with the round it was seen in, before `rounds`. */
  ghost predicate Recorded(lab: Lab, start: Pos, visited: set<Guard>, when: map<Guard, nat>, rounds: nat)
  {
    && visited <= Going(lab)
    && forall s :: s in visited ==> s in when && when[s] < rounds && Walk(lab, Start(start), when[s]) == s
  }

  lemma RecordedLater(lab: Lab, start: Pos, visited: set<Guard>, when: map<Guard, nat>, rounds: nat)
    requires Recorded(lab, start, visited, when, rounds)
    ensures Recorded(lab, start, visited, when, rounds + 1)
  {
  }

  lemma RecordStep(lab: Lab, start: Pos, visited: set<Guard>, when: map<Guard, nat>, rounds: nat)
    requires Recorded(lab, start, visited, when, rounds)
    requires IsDir(Walk(lab, Start(start), rounds).vel) && !Over(lab, Walk(lab, Start(start), rounds))
    requires Walk(lab, Start(start), rounds) !in visited
    ensures var here := Walk(lab, Start(start), rounds);
            Recorded(lab, start, visited + {here}, when[here := rounds], rounds + 1)
  {
    InGoing(lab, Walk(lab, Start(start), rounds));
  }

  /**
   * The guard has turned `turns` times on the spot since the step that
   * ended round `last` with heading `heading`, each time at an obstacle on
   * the map.
   */
  ghost predicate Turning(lab: Lab, start: Pos, rounds: nat, last: nat, heading: Pos, position: Pos, velocity: Pos, turns: nat)
  {
    && IsDir(velocity) && IsDir(heading)
    && turns <= 3 && rounds == last + turns
    && Walk(lab, Start(start), last) == Guard(position, heading)
    && velocity == Turns(heading, turns)
    && forall t :: 0 <= t < turns ==> BlockedTowards(lab, position, Turns(heading, t))
  }

  lemma TurnNext(lab: Lab, start: Pos, rounds: nat, last: nat, heading: Pos, position: Pos, velocity: Pos, turns: nat)
    requires Turning(lab, start, rounds, last, heading, position, velocity, turns) && turns < 3
    requires BlockedTowards(lab, position, velocity)
    ensures Turning(lab, start, rounds + 1, last, heading, position, (-velocity.1, velocity.0), turns + 1)
  {
    TurnOrder(velocity);
  }

  lemma StepNext(lab: Lab, start: Pos, rounds: nat, last: nat, heading: Pos, position: Pos, velocity: Pos, turns: nat)
    requires Turning(lab, start, rounds, last, heading, position, velocity, turns)
    requires Guard(position, velocity) == Walk(lab, Start(start), rounds) && Steps(lab, Guard(position, velocity))
    ensures Turning(lab, start, rounds + 1, rounds + 1, velocity, Plus(position, velocity), velocity, 0)
  {
  }

  /** A fourth turn in a row brings back the state of the last step, with the guard boxed in. */
  lemma Spin(lab: Lab, start: Pos, last: nat, p: Pos, heading: Pos)
    requires IsDir(heading)
    requires Walk(lab, Start(start), last) == Guard(p, heading)
    requires Walk(lab, Start(start), last + 3) == Guard(p, Turns(heading, 3))
    requires forall t :: 0 <= t < 4 ==> BlockedTowards(lab, p, Turns(heading, t))
    ensures Endless(lab, start) && Boxed(lab, p)
  {
    TurnsFour(heading);
    assert BlockedTowards(lab, p, Turns(heading, 3));
    assert Walk(lab, Start(start), last + 4) == Guard(p, Turns(heading, 4));
    RepeatIsEndless(lab, start, last, last + 4);
    SpinBoxed(lab, p, heading);
  }

  /** Obstacles ahead in four headings a quarter turn apart box the cell in. */
  lemma SpinBoxed(lab: Lab, p: Pos, v: Pos)
    requires IsDir(v)
    requires forall t :: 0 <= t < 4 ==> BlockedTowards(lab, p, Turns(v, t))
    ensures Boxed(lab, p)
  {
    assert Turns(v, 1) == Turn(v) && Turns(v, 2) == Turn(Turn(v)) && Turns(v, 3) == Turn(Turn(Turn(v)));
    forall u | IsDir(u)
      ensures BlockedTowards(lab, p, u)
    {
      assert u == Turns(v, 0) || u == Turns(v, 1) || u == Turns(v, 2) || u == Turns(v, 3);
    }
  }

  /** The lab with one more obstacle at `p`. */
  function Place(lab: Lab, p: Pos): Lab
  {
    lab.(obstacles := lab.obstacles + {p})
  }

  /** The cells on the map where an extra obstacle makes the walk endless. */
  ghost function Traps(lab: Lab, start: Pos): set<Pos>
  {
    set x, y | 0 <= x < lab.width && 0 <= y < lab.height && Endless(Place(lab, (x, y)), start) :: (x, y)
  }

  /** The placements tried so far: columns before `x`, and rows before `y` in column `x`. */
  predicate Tried(lab: Lab, p: Pos, x: int, y: int)
  {
    Inside(lab, p) && (p.0 < x || (p.0 == x && p.1 < y))
  }

  /**
   * Part 2: the number of cells where an extra obstacle traps the guard.
   * Where the guard would spin on the spot the source never returns, and
   * the model returns `None`.
   */
  method CountTraps(lab: Lab, start: Pos) returns (r: Option<nat>)
    ensures r.Some? ==> r.value == |Traps(lab, start)|
    ensures r.None? ==> exists x, y :: Inside(lab, (x, y)) && Spinning(Place(lab, (x, y)), start)
  {
    var count := 0;
    ghost var found: set<Pos> := {};
    var x := 0;
    while x < lab.width
      invariant count == |found| && Counted(lab, start, found, x, 0)
    {
      var y := 0;
      while y < lab.height
        invariant 0 <= x < lab.width
        invariant count == |found| && Counted(lab, start, found, x, y)
      {
        var verdict, rounds := Trapped(Place(lab, (x, y)), start);
        if verdict == Spins {
          return None;
        }
        CountedNext(lab, start, found, x, y, verdict == Loops);
        if verdict == Loops {
          found := found + {(x, y)};
          count := count + 1;
        }
        y := y + 1;
      }
      CountedColumn(lab, start, found, x);
      x := x + 1;
    }
    CountedAll(lab, start, found);
    return Some(count);
  }

  /** `found` holds exactly the trapping placements tried so far. */
  ghost predicate Counted(lab: Lab, start: Pos, found: set<Pos>, x: int, y: int)
  {
    forall p :: p in found <==> Tried(lab, p, x, y) && Endless(Place(lab, p), start)
  }

  lemma CountedNext(lab: Lab, start: Pos, found: set<Pos>, x: int, y: int, hit: bool)
    requires 0 <= x < lab.width && 0 <= y < lab.height && Counted(lab, start, found, x, y)
    requires hit <==> Endless(Place(lab, (x, y)), start)
    ensures (x, y) !in found
    ensures Counted(lab, start, if hit then found + {(x, y)} else found, x, y + 1)
  {
  }

  lemma CountedColumn(lab: Lab, start: Pos, found: set<Pos>, x: int)
    requires Counted(lab, start, found, x, lab.height)
    ensures Counted(lab, start, found, x + 1, 0)
  {
  }

  lemma CountedAll(lab: Lab, start: Pos, found: set<Pos>)
    requires Counted(lab, start, found, lab.width, 0)
    ensures found == Traps(lab, start)
  {
  }

  /** Part 2 from the map's lines. */
  method Part2(lines: seq<string>) returns (r: Option<nat>)
    ensures lines == [] ==> r.None?
    ensures r.Some? ==> lines != [] && exists start :: IsStart(lines, start) && r.value == |Traps(LabOf(lines), start)|
    ensures r.None? && lines != [] ==> (exists start, x, y :: IsStart(lines, start) && Inside(LabOf(lines), (x, y)) && Spinning(Place(LabOf(lines), (x, y)), start))
  {
    var read := ReadLab(lines);
    if read.None? {
      return None;
    }
    var (lab, start) := read.value;
    r := CountTraps(lab, start);
  }
}
