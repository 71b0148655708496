/**
 * Day 15: a robot walks a warehouse and pushes rocks. Part 1 has one-cell
 * rocks; part 2 doubles the map's width and every rock becomes a left and a
 * right half that move together. The answer is the sum of the rocks' GPS
 * coordinates after all the moves.
 *
 * Positions are pairs of 64-bit unsigned words and moves add with
 * wrap-around, so "one step left" is the addition of 2^64 - 1. The grid is
 * one flat array in which cell (x, y) sits at x + y * width, as the source's
 * strides lay it out.
 */
module Day15 {
  import opened Wrappers
  import opened Text
  import opened Sets

  // ----- Positions and moves -----

  const USIZE: nat := 0x1_0000_0000_0000_0000
  const USIZE_MAX: nat := USIZE - 1

  datatype Vec2 = Vec2(x: nat, y: nat)

  predicate IsUsize(p: Vec2)
  {
    p.x < USIZE && p.y < USIZE
  }

  /** A move is one of the four unit steps, written as wrapping words. */
  datatype Move = Move(delta: Vec2)

  predicate IsMove(m: Move)
  {
    m.delta in {Vec2(1, 0), Vec2(USIZE_MAX, 0), Vec2(0, 1), Vec2(0, USIZE_MAX)}
  }

  /** The move a character stands for; any other character is an error. */
  function FromChar(c: char): (r: Option<Move>)
    ensures r.Some? <==> c in {'>', '<', 'v', '^'}
    ensures r.Some? ==> IsMove(r.value)
    ensures c == '>' ==> r == Some(Move(Vec2(1, 0)))
    ensures c == '<' ==> r == Some(Move(Vec2(USIZE_MAX, 0)))
    ensures c == 'v' ==> r == Some(Move(Vec2(0, 1)))
    ensures c == '^' ==> r == Some(Move(Vec2(0, USIZE_MAX)))
  {
    match c
    case '>' => Some(Move(Vec2(1, 0)))
    case '<' => Some(Move(Vec2(USIZE_MAX, 0)))
    case 'v' => Some(Move(Vec2(0, 1)))
    case '^' => Some(Move(Vec2(0, USIZE_MAX)))
    case _ => None
  }

  /** `wrapping_add` on two words: the sum modulo 2^64. */
  function WrappingAdd(a: nat, b: nat): (r: nat)
    requires a < USIZE && b < USIZE
    ensures r < USIZE
  {
    if a + b < USIZE then a + b else a + b - USIZE
  }

  /** `WrappingAdd` is addition modulo 2^64. */
  lemma WrappingAddMod(a: nat, b: nat)
    requires a < USIZE && b < USIZE
    ensures WrappingAdd(a, b) == (a + b) % USIZE
  {
  }

  /** Componentwise wrapping addition of a move. */
  function Add(p: Vec2, m: Move): (r: Vec2)
    requires IsUsize(p) && IsUsize(m.delta)
    ensures IsUsize(r)
  {
    Vec2(WrappingAdd(p.x, m.delta.x), WrappingAdd(p.y, m.delta.y))
  }

  /** Negation of a word: `-(x as isize) as usize`. */
  function NegWord(x: nat): (r: nat)
    requires x < USIZE
    ensures r < USIZE && WrappingAdd(x, r) == 0
  {
    if x == 0 then 0 else USIZE - x
  }

  function Neg(m: Move): (r: Move)
    requires IsUsize(m.delta)
  {
    Move(Vec2(NegWord(m.delta.x), NegWord(m.delta.y)))
  }

  /** Subtraction of a move is the addition of its negation. */
  function Sub(p: Vec2, m: Move): (r: Vec2)
    requires IsUsize(p) && IsUsize(m.delta)
    ensures IsUsize(r)
  {
    Add(p, Neg(m))
  }

  lemma WordRoundTrip(a: nat, d: nat)
    requires a < USIZE && d < USIZE
    ensures WrappingAdd(WrappingAdd(a, d), NegWord(d)) == a
    ensures WrappingAdd(WrappingAdd(a, NegWord(d)), d) == a
  {
  }

  /** Stepping back undoes a step, and a step undoes stepping back. */
  lemma AddSub(p: Vec2, m: Move)
    requires IsUsize(p) && IsUsize(m.delta)
    ensures Sub(Add(p, m), m) == p
    ensures Add(Sub(p, m), m) == p
  {
    WordRoundTrip(p.x, m.delta.x);
    WordRoundTrip(p.y, m.delta.y);
  }

  // ----- Tiles and rocks -----

  /** Part 1's rock fills one cell; part 2's is the left or the right half. */
  datatype Rock = Rock1 | Rock2(left: bool)

  datatype Tile = Wall | Robot | Boulder(rock: Rock)

  type Cell = Option<Tile>

  const RIGHT := Move(Vec2(1, 0))

  /** Where the other half of a part-2 rock lies. */
  function Partner(left: bool, p: Vec2): (r: Vec2)
    requires IsUsize(p)
    ensures IsUsize(r)
    ensures left ==> r == Add(p, RIGHT)
    ensures !left ==> Add(r, RIGHT) == p
  {
    if left then Add(p, RIGHT)
    else
      AddSub(p, RIGHT);
      Sub(p, RIGHT)
  }

  /** The two halves of a part-2 rock name each other as partners. */
  lemma PartnerInvolution(left: bool, p: Vec2)
    requires IsUsize(p)
    ensures Partner(!left, Partner(left, p)) == p
  {
    AddSub(p, RIGHT);
  }

  /** The positions that must be cleared before `rock` at `p` can move. */
  function PushesInto(rock: Rock, p: Vec2, m: Move): (r: seq<Vec2>)
    requires IsUsize(p) && IsMove(m)
    ensures rock.Rock1? ==> r == [Add(p, m)]
    ensures rock.Rock2? ==> r == [Add(p, m), Add(Partner(rock.left, p), m)]
  {
    match rock
    case Rock1 => [Add(p, m)]
    case Rock2(left) => [Add(p, m), Add(Partner(left, p), m)]
  }

  /** Each position a rock pushes into is one step from the rock or from its
    * partner, so stepping back from it lands on one of the two halves. */
  lemma PushesIntoStep(rock: Rock, p: Vec2, m: Move, q: Vec2)
    requires IsUsize(p) && IsMove(m) && q in PushesInto(rock, p, m)
    ensures Sub(q, m) == p || (rock.Rock2? && Sub(q, m) == Partner(rock.left, p))
  {
    AddSub(p, m);
    if rock.Rock2? {
      AddSub(Partner(rock.left, p), m);
    }
  }

  /** The position a rock reports for the GPS sum. */
  function GpsPosition(rock: Rock, p: Vec2): (r: Vec2)
    ensures rock == Rock2(false) ==> r == Vec2(0, 0)
    ensures rock != Rock2(false) ==> r == p
  {
    match rock
    case Rock1 => p
    case Rock2(left) => if left then p else Vec2(0, 0)
  }

  /** What a cell adds to the GPS sum at (x, y). */
  function CellGps(c: Cell, x: nat, y: nat): nat
  {
    if c.Some? && c.value.Boulder? then
      var g := GpsPosition(c.value.rock, Vec2(x, y));
      g.x + 100 * g.y
    else 0
  }

  /** A part-1 rock and the left half of a part-2 rock count x + 100 * y;
    * a right half counts nothing. */
  lemma GpsHalves(x: nat, y: nat)
    ensures CellGps(Some(Boulder(Rock1)), x, y) == x + 100 * y
    ensures CellGps(Some(Boulder(Rock2(true))), x, y) == x + 100 * y
    ensures CellGps(Some(Boulder(Rock2(false))), x, y) == 0
    ensures CellGps(None, x, y) == 0 && CellGps(Some(Wall), x, y) == 0 && CellGps(Some(Robot), x, y) == 0
  {
  }

  // ----- Parsing -----

  /** Part 1's cell for a map character; anything else is an error. */
  function ParseCell1(c: char): (r: Option<Cell>)
    ensures r.Some? <==> c in {'#', 'O', '@', '.'}
  {
    match c
    case '#' => Some(Some(Wall))
    case 'O' => Some(Some(Boulder(Rock1)))
    case '@' => Some(Some(Robot))
    case '.' => Some(None)
    case _ => None
  }

  /** Part 2's pair of cells for a map character; anything else is an error. */
  function ParseCell2(c: char): (r: Option<seq<Cell>>)
    ensures r.Some? <==> c in {'#', 'O', '@', '.'}
    ensures r.Some? ==> |r.value| == 2
    ensures c == 'O' ==> r == Some([Some(Boulder(Rock2(true))), Some(Boulder(Rock2(false)))])
    ensures c == '@' ==> r == Some([Some(Robot), None])
  {
    match c
    case '#' => Some([Some(Wall), Some(Wall)])
    case 'O' => Some([Some(Boulder(Rock2(true))), Some(Boulder(Rock2(false)))])
    case '@' => Some([Some(Robot), None])
    case '.' => Some([None, None])
    case _ => None
  }

  /** Part 1's cells for the map text, whitespace dropped. */
  function Cells1(s: string): (r: Option<seq<Cell>>)
    ensures r.Some? ==> |r.value| <= |s|
  {
    if s == [] then Some([])
    else if IsAsciiSpace(s[0]) then Cells1(s[1..])
    else
      match ParseCell1(s[0])
      case None => None
      case Some(c) =>
        match Cells1(s[1..])
        case None => None
        case Some(rest) => Some([c] + rest)
  }

  /** Part 2's cells for the map text: each character becomes two cells. */
  function Cells2(s: string): (r: Option<seq<Cell>>)
    ensures r.Some? ==> |r.value| % 2 == 0
  {
    if s == [] then Some([])
    else if IsAsciiSpace(s[0]) then Cells2(s[1..])
    else
      match ParseCell2(s[0])
      case None => None
      case Some(pair) =>
        match Cells2(s[1..])
        case None => None
        case Some(rest) => Some(pair + rest)
  }

  lemma {:induction false} Cells2Length(s: string)
    requires Cells2(s).Some?
    ensures |Cells2(s).value| == 2 * |NonBlank(s)|
  {
    if s != [] {
      Cells2Length(s[1..]);
    }
  }

  function NonBlank(s: string): (r: string)
    ensures |r| <= |s|
  {
    if s == [] then []
    else if IsAsciiSpace(s[0]) then NonBlank(s[1..])
    else [s[0]] + NonBlank(s[1..])
  }

  /** The part-2 layout: `width` is twice the first line's length, one row per line. */
  function Layout2(lines: seq<string>): (r: Option<(nat, nat, seq<Cell>)>)
    ensures r.Some? ==> r.value.0 * r.value.1 == |r.value.2|
  {
    if |lines| == 0 then None
    else
      var width := 2 * |lines[0]|;
      match Cells2(JoinLines(lines))
      case None => None
      case Some(cells) =>
        if |cells| == width * |lines| then Some((width, |lines|, cells)) else None
  }

  /** The part-1 layout. The shape is (number of lines, first line's length)
    * with x stride 1, so only a square map lays out as rows. */
  function Layout1(lines: seq<string>): (r: Option<(nat, nat, seq<Cell>)>)
    ensures r.Some? ==> r.value.0 * r.value.1 == |r.value.2| && r.value.0 == r.value.1
  {
    if |lines| == 0 || |lines| != |lines[0]| then None
    else
      match Cells1(JoinLines(lines))
      case None => None
      case Some(cells) =>
        if |cells| == |lines| * |lines| then Some((|lines|, |lines|, cells)) else None
  }

  function JoinLines(lines: seq<string>): string
  {
    if lines == [] then [] else lines[0] + "\n" + JoinLines(lines[1..])
  }

  // ----- The warehouse -----

  /** Outcome of one move: the robot moved from `from`, was blocked, or the
    * source would have panicked (a position outside the grid, a robot in the
    * way of itself, or a destination that was not empty). */
  datatype Outcome = Moved(from: Vec2) | Blocked | Failed

  /** Outcome of growing the push list. */
  datatype Closure = HitWall | Clear | Broken

  predicate Distinct(ps: seq<Vec2>)
  {
    forall a, b :: 0 <= a < b < |ps| ==> ps[a] != ps[b]
  }

  lemma IndexBound(x: nat, y: nat, width: nat, height: nat)
    requires x < width && y < height
    ensures x + y * width < width * height
  {
    assert y * width <= (height - 1) * width by {
      MulLe(y, height - 1, width);
    }
  }

  lemma MulLe(a: nat, b: nat, c: nat)
    requires a <= b
    ensures a * c <= b * c
  {
  }

  /** The flat index x + y * width, as repeated addition so that the
    * verifier does not see a product. */
  function Flat(x: nat, y: nat, width: nat): nat
  {
    if y == 0 then x else width + Flat(x, y - 1, width)
  }

  lemma {:induction false} FlatProduct(x: nat, y: nat, width: nat)
    ensures Flat(x, y, width) == x + y * width
  {
    if y > 0 {
      FlatProduct(x, y - 1, width);
    }
  }

  lemma FlatBound(x: nat, y: nat, width: nat, height: nat)
    requires x < width && y < height
    ensures Flat(x, y, width) < Flat(0, height, width)
  {
    FlatProduct(x, y, width);
    FlatProduct(0, height, width);
    IndexBound(x, y, width, height);
  }

  lemma FlatInjective(x: nat, y: nat, x': nat, y': nat, width: nat)
    requires x < width && x' < width && Flat(x, y, width) == Flat(x', y', width)
    ensures x == x' && y == y'
  {
    FlatProduct(x, y, width);
    FlatProduct(x', y', width);
    IndexInjective(x, y, x', y', width);
  }

  lemma IndexInjective(x: nat, y: nat, x': nat, y': nat, width: nat)
    requires x < width && x' < width
    requires x + y * width == x' + y' * width
    ensures x == x' && y == y'
  {
    if y < y' {
      MulLe(y + 1, y', width);
      assert false;
    } else if y' < y {
      MulLe(y' + 1, y, width);
      assert false;
    }
  }

  class Warehouse {
    var cells: array<Cell>
    var width: nat
    var height: nat

    predicate Valid()
      reads this
    {
      cells.Length == Flat(0, height, width) && width <= USIZE && height <= USIZE
    }

    constructor(width: nat, height: nat, contents: seq<Cell>)
      requires |contents| == width * height && width <= USIZE && height <= USIZE
      ensures Valid() && this.width == width && this.height == height
      ensures cells[..] == contents && fresh(cells)
    {
      this.width := width;
      this.height := height;
      FlatProduct(0, height, width);
      cells := new Cell[|contents|](i requires 0 <= i < |contents| => contents[i]);
    }

    predicate InGrid(p: Vec2)
      reads this
    {
      p.x < width && p.y < height
    }

    function Index(p: Vec2): (i: nat)
      requires Valid() && InGrid(p)
      reads this
      ensures i < cells.Length
    {
      FlatBound(p.x, p.y, width, height);
      Flat(p.x, p.y, width)
    }

    lemma IndexOneToOne(p: Vec2, q: Vec2)
      requires Valid() && InGrid(p) && InGrid(q) && Index(p) == Index(q)
      ensures p == q
    {
      FlatInjective(p.x, p.y, q.x, q.y, width);
    }

    /** The tile at `p`, or None when `p` is outside the grid (where the
      * source's indexing panics). */
    function At(p: Vec2): (r: Option<Cell>)
      requires Valid()
      reads this, cells
      ensures r.Some? <==> InGrid(p)
      ensures r.Some? ==> r.value == cells[Index(p)]
    {
      if InGrid(p) then Some(cells[Index(p)]) else None
    }

    /** The first robot in (x, y) order, with x the outer index. */
    method FindRobot() returns (r: Option<Vec2>)
      requires Valid()
      ensures r.Some? ==> IsUsize(r.value) && InGrid(r.value) && cells[Index(r.value)] == Some(Robot)
      ensures r.None? ==> forall i :: 0 <= i < cells.Length ==> cells[i] != Some(Robot)
      ensures r == RobotFrom(cells[..], width, height, 0, 0)
    {
      var x := 0;
      while x < width
        invariant x <= width
        invariant forall a, b :: 0 <= a < x && 0 <= b < height ==> cells[Index(Vec2(a, b))] != Some(Robot)
        invariant RobotFrom(cells[..], width, height, x, 0) == RobotFrom(cells[..], width, height, 0, 0)
      {
        var y := 0;
        while y < height
          invariant y <= height
          invariant RobotFrom(cells[..], width, height, x, y) == RobotFrom(cells[..], width, height, 0, 0)
          invariant forall a, b :: 0 <= a < x && 0 <= b < height ==> cells[Index(Vec2(a, b))] != Some(Robot)
          invariant forall b :: 0 <= b < y ==> cells[Index(Vec2(x, b))] != Some(Robot)
        {
          if cells[Index(Vec2(x, y))] == Some(Robot) {
            return Some(Vec2(x, y));
          }
          y := y + 1;
        }
        x := x + 1;
      }
      forall i | 0 <= i < cells.Length
        ensures cells[i] != Some(Robot)
      {
        var p := Unindex(i);
      }
      return None;
    }

    /** Every array slot is the index of a grid position. */
    lemma Unindex(i: nat) returns (p: Vec2)
      requires Valid() && i < cells.Length
      ensures InGrid(p) && Index(p) == i
    {
      var x, y := Unflatten(i, width, height);
      p := Vec2(x, y);
    }

    static lemma {:induction false} Unflatten(i: nat, width: nat, height: nat) returns (x: nat, y: nat)
      requires i < Flat(0, height, width)
      ensures x < width && y < height && Flat(x, y, width) == i
    {
      if i < width {
        x, y := i, 0;
      } else {
        x, y := Unflatten(i - width, width, height - 1);
        y := y + 1;
      }
    }

    /** Grows the list of positions the move pushes into, starting from the
      * cell in front of the robot: every rock met adds the cells it pushes
      * into, each position once. Stops at the first wall. */
    method PushClosure(start: Vec2, mov: Move) returns (pushes: seq<Vec2>, status: Closure)
      requires Valid() && IsMove(mov)
      ensures |pushes| >= 1 && pushes[0] == start && Distinct(pushes)
      ensures status == HitWall ==> exists k :: 0 <= k < |pushes| && At(pushes[k]) == Some(Some(Wall))
      ensures status == Clear ==> Checked(pushes) && Expanded(pushes, pushes, mov)
      ensures (pushes, status) == ClosureF(cells[..], width, height, mov, [start], 0, 2 * cells.Length + 2)
    {
      pushes := [start];
      var i := 0;
      ghost var seen: set<nat> := {};
      ghost var floor := cells[..];
      ghost var closure := ClosureF(floor, width, height, mov, [start], 0, 2 * cells.Length + 2);
      while i < |pushes|
        invariant floor == cells[..] && Searching(pushes, i, seen, start, mov, floor, closure)
        decreases 3 * (cells.Length - |seen|) + |pushes| - i
      {
        BoundedCard(seen, cells.Length);
        var stop;
        ghost var seen';
        pushes, seen', stop := VisitPush(pushes, i, seen, start, mov, floor, closure);
        if stop.Some? {
          return pushes, stop.value;
        }
        BoundedCard(seen', cells.Length);
        i, seen := i + 1, seen';
      }
      assert pushes[..i] == pushes;
      return pushes, Clear;
    }

    /** Visits `pushes[i]`: stops the search at a wall, at a position
      * outside the grid or at the robot, passes over an empty cell and
      * adds the positions a rock pushes into. */
    method VisitPush(pushes: seq<Vec2>, i: nat, ghost seen: set<nat>, start: Vec2, mov: Move, ghost floor: seq<Cell>, ghost closure: (seq<Vec2>, Closure))
      returns (next: seq<Vec2>, ghost seen': set<nat>, stop: Option<Closure>)
      requires Valid() && IsMove(mov) && i < |pushes| && floor == cells[..]
      requires Searching(pushes, i, seen, start, mov, floor, closure)
      ensures stop.Some? ==> next == pushes && (next, stop.value) == closure && stop != Some(Clear)
      ensures stop == Some(HitWall) ==> exists k :: 0 <= k < |next| && At(next[k]) == Some(Some(Wall))
      ensures stop.None? ==> Searching(next, i + 1, seen', start, mov, floor, closure)
      ensures stop.None? ==> |seen| <= |seen'| && |pushes| + 2 * (|seen'| - |seen|) >= |next|
    {
      BoundedCard(seen, cells.Length);
      var left := 2 * cells.Length + 2 - i;
      ClosureVisit(pushes, i, left, mov);
      var pos := pushes[i];
      if !InGrid(pos) {
        return pushes, seen, Some(Broken);
      }
      var cell := cells[Index(pos)];
      if cell == Some(Wall) {
        assert At(pushes[i]) == Some(Some(Wall));
        return pushes, seen, Some(HitWall);
      } else if cell == Some(Robot) {
        return pushes, seen, Some(Broken);
      } else if cell == None {
        SkipEmpty(pushes, i, seen, start, mov);
        return pushes, seen, None;
      } else {
        assert Carries(pos);
        next, seen' := PushRock(pushes, i, seen, start, mov);
        return next, seen', None;
      }
    }

    /** One visit of `ClosureF`, unfolded for `PushClosure`. */
    lemma ClosureVisit(pushes: seq<Vec2>, i: nat, fuel: nat, mov: Move)
      requires Valid() && IsMove(mov) && i < |pushes| && fuel > 0
      ensures var pos := pushes[i];
        var c := ClosureF(cells[..], width, height, mov, pushes, i, fuel);
        && (!InGrid(pos) ==> c == (pushes, Broken))
        && (InGrid(pos) && cells[Index(pos)] == Some(Wall) ==> c == (pushes, HitWall))
        && (InGrid(pos) && cells[Index(pos)] == Some(Robot) ==> c == (pushes, Broken))
        && (InGrid(pos) && cells[Index(pos)] == None ==> c == ClosureF(cells[..], width, height, mov, pushes, i + 1, fuel - 1))
        && (Carries(pos) ==> c == ClosureF(cells[..], width, height, mov, ExtendF(pushes, PushesInto(cells[Index(pos)].value.rock, pos, mov)), i + 1, fuel - 1))
    {
    }

    /** `Visited`, and what is left of the search ends as `closure` does. */
    ghost predicate Searching(pushes: seq<Vec2>, i: nat, seen: set<nat>, start: Vec2, mov: Move, floor: seq<Cell>, closure: (seq<Vec2>, Closure))
      requires Valid() && IsMove(mov) && floor == cells[..]
      reads this, cells
    {
      Visited(pushes, i, seen, start, mov) && i <= 2 * cells.Length + 2 &&
      ClosureF(floor, width, height, mov, pushes, i, 2 * cells.Length + 2 - i) == closure
    }

    /** The loop invariant of `PushClosure` after visiting `i` positions. */
    ghost predicate Visited(pushes: seq<Vec2>, i: nat, seen: set<nat>, start: Vec2, mov: Move)
      requires Valid() && IsMove(mov)
      reads this, cells
    {
      i <= |pushes| && |pushes| >= 1 && pushes[0] == start && Distinct(pushes) &&
      Checked(pushes[..i]) && Expanded(pushes[..i], pushes, mov) &&
      SeenIn(seen, pushes[..i]) && |pushes| <= 1 + 2 * |seen|
    }

    lemma SkipEmpty(pushes: seq<Vec2>, i: nat, seen: set<nat>, start: Vec2, mov: Move)
      requires Valid() && IsMove(mov) && i < |pushes| && Visited(pushes, i, seen, start, mov)
      requires InGrid(pushes[i]) && cells[Index(pushes[i])] == None
      ensures Visited(pushes, i + 1, seen, start, mov)
    {
      var done, pos := pushes[..i], pushes[i];
      assert pushes[..i + 1] == done + [pos];
      ExpandedEmpty(done, pos, pushes, mov);
      CheckedGrow(done, pos);
      SeenGrow(seen, done, pos);
    }

    /** Visits a rock: appends the positions it pushes into. */
    method PushRock(pushes: seq<Vec2>, i: nat, ghost seen: set<nat>, start: Vec2, mov: Move)
      returns (next: seq<Vec2>, ghost seen': set<nat>)
      requires Valid() && IsMove(mov) && i < |pushes| && Visited(pushes, i, seen, start, mov)
      requires Carries(pushes[i])
      ensures Visited(next, i + 1, seen', start, mov)
      ensures |seen'| == |seen| + 1 && |pushes| <= |next| <= |pushes| + 2
      ensures next == ExtendF(pushes, PushesInto(cells[Index(pushes[i])].value.rock, pushes[i], mov))
    {
      var done, pos := pushes[..i], pushes[i];
      var j := Index(pos);
      assert j !in seen by {
        if j in seen {
          var k :| 0 <= k < |done| && InGrid(done[k]) && j == Index(done[k]);
          IndexOneToOne(done[k], pos);
        }
      }
      next := Extend(pushes, PushesInto(cells[j].value.rock, pos, mov));
      assert next[..i + 1] == done + [pos] by {
        assert next[..|pushes|] == pushes;
      }
      ExpandedRock(done, pos, pushes, next, mov);
      CheckedGrow(done, pos);
      SeenGrow(seen, done, pos);
      seen' := seen + {j};
    }

    /** Every position of `ps` is on the grid, holding neither a wall nor the robot. */
    ghost predicate Checked(ps: seq<Vec2>)
      requires Valid()
      reads this, cells
    {
      forall k :: 0 <= k < |ps| ==> InGrid(ps[k]) && cells[Index(ps[k])] != Some(Wall) && cells[Index(ps[k])] != Some(Robot)
    }

    /** Every rock in `ps` has the positions it pushes into listed in `all`. */
    ghost predicate Expanded(ps: seq<Vec2>, all: seq<Vec2>, mov: Move)
      requires Valid() && IsMove(mov)
      reads this, cells
    {
      forall k, q :: 0 <= k < |ps| && Carries(ps[k]) && q in PushesInto(cells[Index(ps[k])].value.rock, ps[k], mov) ==> q in all
    }

    /** Each index in `seen` is that of a position of `ps`. */
    ghost predicate SeenIn(seen: set<nat>, ps: seq<Vec2>)
      requires Valid()
      reads this
    {
      forall j :: j in seen ==> j < cells.Length && exists k :: 0 <= k < |ps| && InGrid(ps[k]) && j == Index(ps[k])
    }

    lemma CheckedGrow(done: seq<Vec2>, pos: Vec2)
      requires Valid() && Checked(done) && InGrid(pos)
      requires cells[Index(pos)] != Some(Wall) && cells[Index(pos)] != Some(Robot)
      ensures Checked(done + [pos])
    {
    }

    lemma SeenGrow(seen: set<nat>, done: seq<Vec2>, pos: Vec2)
      requires Valid() && SeenIn(seen, done) && InGrid(pos)
      ensures SeenIn(seen, done + [pos]) && SeenIn(seen + {Index(pos)}, done + [pos])
    {
      var ps := done + [pos];
      forall j | j in seen + {Index(pos)}
        ensures j < cells.Length && exists k :: 0 <= k < |ps| && InGrid(ps[k]) && j == Index(ps[k])
      {
        if j == Index(pos) {
          assert ps[|done|] == pos;
        } else {
          var k :| 0 <= k < |done| && InGrid(done[k]) && j == Index(done[k]);
          assert ps[k] == done[k];
        }
      }
      assert SeenIn(seen + {Index(pos)}, ps);
      assert SeenIn(seen, ps);
    }

    lemma ExpandedEmpty(done: seq<Vec2>, pos: Vec2, all: seq<Vec2>, mov: Move)
      requires Valid() && IsMove(mov) && Expanded(done, all, mov) && InGrid(pos) && cells[Index(pos)] == None
      ensures Expanded(done + [pos], all, mov)
    {
    }

    lemma ExpandedRock(done: seq<Vec2>, pos: Vec2, before: seq<Vec2>, after: seq<Vec2>, mov: Move)
      requires Valid() && IsMove(mov) && Expanded(done, before, mov) && Carries(pos)
      requires forall q :: q in after <==> q in before || q in PushesInto(cells[Index(pos)].value.rock, pos, mov)
      ensures Expanded(done + [pos], after, mov)
    {
    }

    /** Appends each of `into` that `pushes` does not hold yet. */
    static method Extend(pushes: seq<Vec2>, into: seq<Vec2>) returns (r: seq<Vec2>)
      requires Distinct(pushes)
      ensures Distinct(r) && |pushes| <= |r| <= |pushes| + |into| && r[..|pushes|] == pushes
      ensures forall q :: q in r <==> q in pushes || q in into
      ensures r == ExtendF(pushes, into)
    {
      r := pushes;
      var n := 0;
      while n < |into|
        invariant n <= |into| && Distinct(r) && |pushes| <= |r| <= |pushes| + n && r[..|pushes|] == pushes
        invariant forall q :: q in r <==> q in pushes || q in into[..n]
        invariant ExtendF(r, into[n..]) == ExtendF(pushes, into)
      {
        assert into[n..][1..] == into[n + 1..];
        if into[n] !in r {
          r := r + [into[n]];
        }
        n := n + 1;
      }
      assert into[..n] == into;
    }

    /** The cell at `p` holds a rock. */
    predicate Carries(p: Vec2)
      requires Valid()
      reads this, cells
    {
      InGrid(p) && cells[Index(p)].Some? && cells[Index(p)].value.Boulder?
    }

    /** Swaps every pushed cell with the one behind it, last push first. The
      * source asserts each destination is empty; a failed assertion is
      * `false`. The robot sits behind the first push and moves last. */
    method SwapBack(pushes: seq<Vec2>, mov: Move, robot: Vec2) returns (ok: bool)
      requires Valid() && IsMove(mov) && |pushes| >= 1 && Distinct(pushes) && Checked(pushes)
      requires IsUsize(robot) && InGrid(robot) && cells[Index(robot)] == Some(Robot)
      requires pushes[0] == Add(robot, mov)
      modifies cells
      ensures multiset(cells[..]) == old(multiset(cells[..]))
      ensures ok ==> InGrid(pushes[0]) && cells[Index(pushes[0])] == Some(Robot) && cells[Index(robot)] == None
      ensures ok <==> SwapBackF(old(cells[..]), width, height, pushes, |pushes|, mov).Some?
      ensures ok ==> SwapBackF(old(cells[..]), width, height, pushes, |pushes|, mov).value == cells[..]
    {
      var k := |pushes|;
      CheckedUsize(pushes);
      ghost var swapped := SwapBackF(cells[..], width, height, pushes, |pushes|, mov);
      while k > 0
        invariant 0 <= k <= |pushes|
        invariant multiset(cells[..]) == old(multiset(cells[..]))
        invariant SwapBackF(cells[..], width, height, pushes, k, mov) == swapped
        invariant k > 0 ==> cells[Index(robot)] == Some(Robot)
        invariant k == 0 ==> InGrid(pushes[0]) && cells[Index(pushes[0])] == Some(Robot) && cells[Index(robot)] == None
      {
        var moved := SwapOne(pushes, k, mov, robot);
        if !moved {
          return false;
        }
        k := k - 1;
      }
      return true;
    }

    /** Positions on the grid are pairs of words. */
    lemma CheckedUsize(ps: seq<Vec2>)
      requires Valid() && Checked(ps)
      ensures AllUsize(ps)
    {
      forall q | q in ps
        ensures IsUsize(q)
      {
        var j :| 0 <= j < |ps| && ps[j] == q;
      }
    }

    /** The swap of `pushes[k - 1]` with the cell behind it, or `false`
      * where the source's assertion fails. */
    method SwapOne(pushes: seq<Vec2>, k: nat, mov: Move, robot: Vec2) returns (ok: bool)
      requires Valid() && IsMove(mov) && 0 < k <= |pushes| && Distinct(pushes) && AllUsize(pushes)
      requires IsUsize(robot) && InGrid(robot) && cells[Index(robot)] == Some(Robot)
      requires pushes[0] == Add(robot, mov)
      modifies cells
      ensures multiset(cells[..]) == old(multiset(cells[..]))
      ensures !ok ==> SwapBackF(old(cells[..]), width, height, pushes, k, mov).None?
      ensures ok ==> SwapBackF(old(cells[..]), width, height, pushes, k, mov) == SwapBackF(cells[..], width, height, pushes, k - 1, mov)
      ensures ok && k > 1 ==> cells[Index(robot)] == Some(Robot)
      ensures ok && k == 1 ==> InGrid(pushes[0]) && cells[Index(pushes[0])] == Some(Robot) && cells[Index(robot)] == None
    {
      var to := pushes[k - 1];
      var from := Sub(to, mov);
      if !InGrid(to) || !InGrid(from) || cells[Index(to)] != None {
        return false;
      }
      var f, t := Index(from), Index(to);
      assert t != Index(robot);
      if k > 1 {
        assert f != Index(robot) by {
          if f == Index(robot) {
            IndexOneToOne(from, robot);
            AddSub(to, mov);
            assert false;
          }
        }
      } else {
        AddSub(robot, mov);
        assert from == robot;
      }
      Exchange(f, t);
      return true;
    }

    /** Exchanges the contents of two cells. */
    method Exchange(f: nat, t: nat)
      requires f < cells.Length && t < cells.Length
      modifies cells
      ensures multiset(cells[..]) == old(multiset(cells[..]))
      ensures cells[..] == old(cells[..])[f := old(cells[t])][t := old(cells[f])]
    {
      cells[f], cells[t] := cells[t], cells[f];
    }

    /** One move of the robot. */
    method Apply(mov: Move) returns (outcome: Outcome)
      requires Valid() && IsMove(mov)
      modifies cells
      ensures multiset(cells[..]) == old(multiset(cells[..]))
      ensures outcome.Blocked? ==> cells[..] == old(cells[..])
      ensures outcome.Moved? ==> InGrid(outcome.from) && InGrid(Add(outcome.from, mov))
      ensures outcome.Moved? ==> old(cells[Index(outcome.from)]) == Some(Robot) && cells[Index(outcome.from)] == None
      ensures outcome.Moved? ==> cells[Index(Add(outcome.from, mov))] == Some(Robot)
      ensures outcome.Failed? <==> Step(old(cells[..]), width, height, mov).None?
      ensures !outcome.Failed? ==> Step(old(cells[..]), width, height, mov) == Some(cells[..])
    {
      var robot := FindRobot();
      if robot.None? {
        return Failed;
      }
      var pushes, status := PushClosure(Add(robot.value, mov), mov);
      if status == HitWall {
        return Blocked;
      } else if status == Broken {
        return Failed;
      }
      var ok := SwapBack(pushes, mov, robot.value);
      if ok {
        return Moved(robot.value);
      }
      return Failed;
    }

    /** Sum of the rocks' GPS coordinates. */
    method SumOfGps() returns (total: nat)
      requires Valid()
      ensures total == GpsTotal(cells[..], width, height)
    {
      total := 0;
      var x := 0;
      while x < width
        invariant x <= width
        invariant total == Columns(cells[..], width, height, x)
      {
        var y := 0;
        var column := 0;
        while y < height
          invariant y <= height
          invariant column == Column(cells[..], width, height, x, y)
        {
          column := column + CellGps(cells[Index(Vec2(x, y))], x, y);
          y := y + 1;
        }
        total := total + column;
        x := x + 1;
      }
    }

    /** Runs every move in turn; walls and rocks are neither created nor
      * destroyed by the run. */
    method Run(moves: seq<Move>) returns (failed: bool)
      requires Valid() && forall k :: 0 <= k < |moves| ==> IsMove(moves[k])
      modifies cells
      ensures multiset(cells[..]) == old(multiset(cells[..]))
      ensures failed <==> Simulate(old(cells[..]), width, height, moves).None?
      ensures !failed ==> Simulate(old(cells[..]), width, height, moves) == Some(cells[..])
    {
      var k := 0;
      while k < |moves|
        invariant k <= |moves|
        invariant multiset(cells[..]) == old(multiset(cells[..]))
        invariant Simulate(cells[..], width, height, moves[k..]) == Simulate(old(cells[..]), width, height, moves)
      {
        assert moves[k..][1..] == moves[k + 1..];
        var outcome := Apply(moves[k]);
        if outcome.Failed? {
          return true;
        }
        k := k + 1;
      }
      return false;
    }
  }

  /** The GPS sum of column x, rows below `y`. */
  function Column(cells: seq<Cell>, width: nat, height: nat, x: nat, y: nat): nat
    requires x < width && y <= height && |cells| == Flat(0, height, width)
  {
    if y == 0 then 0
    else
      FlatBound(x, y - 1, width, height);
      Column(cells, width, height, x, y - 1) + CellGps(cells[Flat(x, y - 1, width)], x, y - 1)
  }

  /** The GPS sum of the columns left of `x`. */
  function Columns(cells: seq<Cell>, width: nat, height: nat, x: nat): nat
    requires x <= width && |cells| == Flat(0, height, width)
  {
    if x == 0 then 0 else Columns(cells, width, height, x - 1) + Column(cells, width, height, x - 1, height)
  }

  function GpsTotal(cells: seq<Cell>, width: nat, height: nat): nat
    requires |cells| == Flat(0, height, width)
  {
    Columns(cells, width, height, width)
  }

  // ----- One move and a run of moves, on the cells as a sequence -----

  /** A flat grid of `width` × `height` cells that word positions can index. */
  predicate Floor(cells: seq<Cell>, width: nat, height: nat)
  {
    |cells| == Flat(0, height, width) && width <= USIZE && height <= USIZE
  }

  predicate InFloor(p: Vec2, width: nat, height: nat)
  {
    p.x < width && p.y < height
  }

  /** Every position of `ps` is a pair of words. */
  predicate AllUsize(ps: seq<Vec2>)
  {
    forall q :: q in ps ==> IsUsize(q)
  }

  /** The cell at `p`. */
  function CellAt(cells: seq<Cell>, width: nat, height: nat, p: Vec2): Cell
    requires |cells| == Flat(0, height, width) && InFloor(p, width, height)
  {
    FlatBound(p.x, p.y, width, height);
    cells[Flat(p.x, p.y, width)]
  }

  /** The first robot at column `x` from row `y` on, or in a later column:
    * the source's `indexed_iter` order, x outermost. */
  function RobotFrom(cells: seq<Cell>, width: nat, height: nat, x: nat, y: nat): (r: Option<Vec2>)
    requires Floor(cells, width, height)
    ensures r.Some? ==> InFloor(r.value, width, height) && IsUsize(r.value)
    ensures r.Some? ==> CellAt(cells, width, height, r.value) == Some(Robot)
    decreases (width as int) - (x as int), (height as int) - (y as int)
  {
    if x >= width then None
    else if y >= height then RobotFrom(cells, width, height, x + 1, 0)
    else if CellAt(cells, width, height, Vec2(x, y)) == Some(Robot) then Some(Vec2(x, y))
    else RobotFrom(cells, width, height, x, y + 1)
  }

  /** `pushes` with each position of `into` appended unless already there. */
  function ExtendF(pushes: seq<Vec2>, into: seq<Vec2>): (r: seq<Vec2>)
    decreases |into|
  {
    if into == [] then pushes
    else ExtendF(if into[0] in pushes then pushes else pushes + [into[0]], into[1..])
  }

  /** The extended list holds exactly the old positions and the new ones. */
  lemma {:induction false} ExtendMembers(pushes: seq<Vec2>, into: seq<Vec2>)
    ensures forall q :: q in ExtendF(pushes, into) <==> q in pushes || q in into
    decreases |into|
  {
    if into != [] {
      var next := if into[0] in pushes then pushes else pushes + [into[0]];
      ExtendMembers(next, into[1..]);
      assert into == [into[0]] + into[1..];
    }
  }

  /** The source's push list, grown from position `i` on: a wall ends the
    * search (`HitWall`), a position outside the grid or the robot itself is
    * a panic (`Broken`), an empty cell adds nothing and a rock adds the
    * positions it pushes into. `fuel` bounds the visits;
    * `Warehouse.PushClosure` shows that 2 |cells| + 2 is never used up. */
  function ClosureF(cells: seq<Cell>, width: nat, height: nat, mov: Move, pushes: seq<Vec2>, i: nat, fuel: nat): (seq<Vec2>, Closure)
    requires Floor(cells, width, height) && IsMove(mov)
    decreases fuel
  {
    if i >= |pushes| then (pushes, Clear)
    else if fuel == 0 then (pushes, Broken)
    else
      var pos := pushes[i];
      if !InFloor(pos, width, height) then (pushes, Broken)
      else
        var cell := CellAt(cells, width, height, pos);
        if cell == Some(Wall) then (pushes, HitWall)
        else if cell == Some(Robot) then (pushes, Broken)
        else if cell == None then ClosureF(cells, width, height, mov, pushes, i + 1, fuel - 1)
        else ClosureF(cells, width, height, mov, ExtendF(pushes, PushesInto(cell.value.rock, pos, mov)), i + 1, fuel - 1)
  }

  /** Every position the push list ever holds is a pair of words. */
  lemma {:induction false} ClosureUsize(cells: seq<Cell>, width: nat, height: nat, mov: Move, pushes: seq<Vec2>, i: nat, fuel: nat)
    requires Floor(cells, width, height) && IsMove(mov) && AllUsize(pushes)
    ensures AllUsize(ClosureF(cells, width, height, mov, pushes, i, fuel).0)
    decreases fuel
  {
    if i < |pushes| && fuel > 0 {
      var pos := pushes[i];
      if InFloor(pos, width, height) {
        var cell := CellAt(cells, width, height, pos);
        if cell.Some? && cell.value.Boulder? {
          var into := PushesInto(cell.value.rock, pos, mov);
          ExtendMembers(pushes, into);
          ClosureUsize(cells, width, height, mov, ExtendF(pushes, into), i + 1, fuel - 1);
        } else if cell == None {
          ClosureUsize(cells, width, height, mov, pushes, i + 1, fuel - 1);
        }
      }
    }
  }

  /** The source's swaps of `pushes[..k]`, last first: each pushed-into
    * cell trades places with the cell one step behind it. The source
    * asserts the pushed-into cell is empty; a failed assertion or a
    * position outside the grid is `None`. */
  function SwapBackF(cells: seq<Cell>, width: nat, height: nat, pushes: seq<Vec2>, k: nat, mov: Move): (r: Option<seq<Cell>>)
    requires Floor(cells, width, height) && IsMove(mov) && k <= |pushes| && AllUsize(pushes)
    ensures r.Some? ==> |r.value| == |cells|
    decreases k
  {
    if k == 0 then Some(cells)
    else
      var to := pushes[k - 1];
      var from := Sub(to, mov);
      if !InFloor(to, width, height) || !InFloor(from, width, height) || CellAt(cells, width, height, to) != None then None
      else
        FlatBound(from.x, from.y, width, height);
        FlatBound(to.x, to.y, width, height);
        var f, t := Flat(from.x, from.y, width), Flat(to.x, to.y, width);
        SwapBackF(cells[f := cells[t]][t := cells[f]], width, height, pushes, k - 1, mov)
  }

  /** One move as the source makes it: `None` where the source panics (no
    * robot, a position outside the grid, the robot in its own way, a
    * pushed-into cell that is not empty); the cells unchanged when a wall
    * blocks the push. */
  function Step(cells: seq<Cell>, width: nat, height: nat, mov: Move): (r: Option<seq<Cell>>)
    requires Floor(cells, width, height) && IsMove(mov)
    ensures r.Some? ==> |r.value| == |cells|
  {
    match RobotFrom(cells, width, height, 0, 0)
    case None => None
    case Some(robot) =>
      var start := [Add(robot, mov)];
      ClosureUsize(cells, width, height, mov, start, 0, 2 * |cells| + 2);
      var (pushes, status) := ClosureF(cells, width, height, mov, start, 0, 2 * |cells| + 2);
      match status
      case HitWall => Some(cells)
      case Broken => None
      case Clear => SwapBackF(cells, width, height, pushes, |pushes|, mov)
  }

  /** Every move in turn; `None` once a move panics. */
  function Simulate(cells: seq<Cell>, width: nat, height: nat, moves: seq<Move>): (r: Option<seq<Cell>>)
    requires Floor(cells, width, height) && forall k :: 0 <= k < |moves| ==> IsMove(moves[k])
    ensures r.Some? ==> |r.value| == |cells|
    decreases |moves|
  {
    if moves == [] then Some(cells)
    else
      match Step(cells, width, height, moves[0])
      case None => None
      case Some(next) => Simulate(next, width, height, moves[1..])
  }

  /** The swaps only rearrange the cells. */
  lemma {:induction false} SwapBackMultiset(cells: seq<Cell>, width: nat, height: nat, pushes: seq<Vec2>, k: nat, mov: Move)
    requires Floor(cells, width, height) && IsMove(mov) && k <= |pushes| && AllUsize(pushes)
    requires SwapBackF(cells, width, height, pushes, k, mov).Some?
    ensures multiset(SwapBackF(cells, width, height, pushes, k, mov).value) == multiset(cells)
    decreases k
  {
    if k > 0 {
      var to := pushes[k - 1];
      var from := Sub(to, mov);
      FlatBound(from.x, from.y, width, height);
      FlatBound(to.x, to.y, width, height);
      var f, t := Flat(from.x, from.y, width), Flat(to.x, to.y, width);
      var next := cells[f := cells[t]][t := cells[f]];
      assert multiset(next) == multiset(cells);
      SwapBackMultiset(next, width, height, pushes, k - 1, mov);
    }
  }

  /** The swaps leave every cell that is neither a pushed-into position
    * nor one step behind one as it was. */
  lemma {:induction false} SwapBackFrame(cells: seq<Cell>, width: nat, height: nat, pushes: seq<Vec2>, k: nat, mov: Move, q: Vec2)
    requires Floor(cells, width, height) && IsMove(mov) && k <= |pushes| && AllUsize(pushes)
    requires SwapBackF(cells, width, height, pushes, k, mov).Some? && InFloor(q, width, height)
    requires IsUsize(q) && q !in pushes[..k] && Add(q, mov) !in pushes[..k]
    ensures CellAt(SwapBackF(cells, width, height, pushes, k, mov).value, width, height, q) == CellAt(cells, width, height, q)
    decreases k
  {
    if k > 0 {
      var to := pushes[k - 1];
      var from := Sub(to, mov);
      assert to in pushes[..k];
      AddSub(to, mov);
      assert q != to && q != from;
      FlatBound(from.x, from.y, width, height);
      FlatBound(to.x, to.y, width, height);
      FlatBound(q.x, q.y, width, height);
      var f, t := Flat(from.x, from.y, width), Flat(to.x, to.y, width);
      assert Flat(q.x, q.y, width) != f by {
        if Flat(q.x, q.y, width) == f { FlatInjective(q.x, q.y, from.x, from.y, width); }
      }
      assert Flat(q.x, q.y, width) != t by {
        if Flat(q.x, q.y, width) == t { FlatInjective(q.x, q.y, to.x, to.y, width); }
      }
      var next := cells[f := cells[t]][t := cells[f]];
      assert pushes[..k - 1] == pushes[..k][..k - 1];
      SwapBackFrame(next, width, height, pushes, k - 1, mov, q);
    }
  }

  /** A move only rearranges the cells: walls, rocks and the robot are
    * neither created nor destroyed. */
  lemma StepMultiset(cells: seq<Cell>, width: nat, height: nat, mov: Move)
    requires Floor(cells, width, height) && IsMove(mov) && Step(cells, width, height, mov).Some?
    ensures multiset(Step(cells, width, height, mov).value) == multiset(cells)
  {
    var robot := RobotFrom(cells, width, height, 0, 0).value;
    var start := [Add(robot, mov)];
    ClosureUsize(cells, width, height, mov, start, 0, 2 * |cells| + 2);
    var (pushes, status) := ClosureF(cells, width, height, mov, start, 0, 2 * |cells| + 2);
    if status == Clear {
      SwapBackMultiset(cells, width, height, pushes, |pushes|, mov);
    }
  }

  /** A move leaves every cell that is neither pushed into nor one step
    * behind a pushed-into cell as it was. */
  lemma StepFrame(cells: seq<Cell>, width: nat, height: nat, mov: Move, q: Vec2)
    requires Floor(cells, width, height) && IsMove(mov) && Step(cells, width, height, mov).Some?
    requires InFloor(q, width, height)
    ensures var robot := RobotFrom(cells, width, height, 0, 0).value;
      var pushes := ClosureF(cells, width, height, mov, [Add(robot, mov)], 0, 2 * |cells| + 2).0;
      q !in pushes && Add(q, mov) !in pushes ==>
        CellAt(Step(cells, width, height, mov).value, width, height, q) == CellAt(cells, width, height, q)
  {
    var robot := RobotFrom(cells, width, height, 0, 0).value;
    var start := [Add(robot, mov)];
    ClosureUsize(cells, width, height, mov, start, 0, 2 * |cells| + 2);
    var (pushes, status) := ClosureF(cells, width, height, mov, start, 0, 2 * |cells| + 2);
    if status == Clear && q !in pushes && Add(q, mov) !in pushes {
      assert pushes[..|pushes|] == pushes;
      SwapBackFrame(cells, width, height, pushes, |pushes|, mov, q);
    }
  }

  /** A run of moves only rearranges the cells. */
  lemma {:induction false} SimulateMultiset(cells: seq<Cell>, width: nat, height: nat, moves: seq<Move>)
    requires Floor(cells, width, height) && forall k :: 0 <= k < |moves| ==> IsMove(moves[k])
    requires Simulate(cells, width, height, moves).Some?
    ensures multiset(Simulate(cells, width, height, moves).value) == multiset(cells)
    decreases |moves|
  {
    if moves != [] {
      var next := Step(cells, width, height, moves[0]).value;
      StepMultiset(cells, width, height, moves[0]);
      SimulateMultiset(next, width, height, moves[1..]);
    }
  }

  // ----- The input: map, blank line, moves -----

  /** `s` holds no blank line: no two newlines in a row. */
  predicate NoBlankLine(s: string)
  {
    forall k :: 0 <= k < |s| - 1 ==> !(s[k] == '\n' && s[k + 1] == '\n')
  }

  /** Where the first blank line, two newlines in a row, starts; `|s|` when there is none. */
  function BlankAt(s: string): (i: nat)
    ensures i <= |s|
    ensures i < |s| ==> i + 1 < |s| && s[i] == '\n' && s[i + 1] == '\n'
    ensures NoBlankLine(s[..i]) && (0 < i < |s| ==> s[i - 1] != '\n')
  {
    if |s| < 2 then |s|
    else if s[0] == '\n' && s[1] == '\n' then 0
    else
      var i := 1 + BlankAt(s[1..]);
      assert s[..i] == [s[0]] + s[1..][..i - 1];
      i
  }

  /** Text with no blank line and no newline at its end, then a blank line or nothing: the blank line is found right after the text. */
  lemma {:induction false} BlankAtOf(a: string, rest: string)
    requires NoBlankLine(a) && (a == [] || a[|a| - 1] != '\n')
    requires rest == [] || (|rest| >= 2 && rest[..2] == "\n\n")
    ensures BlankAt(a + rest) == |a|
  {
    if a != [] {
      assert (a + rest)[1..] == a[1..] + rest;
      BlankAtOf(a[1..], rest);
    } else if rest != [] {
      assert rest[0] == '\n' && rest[1] == '\n';
    }
  }

  /** The map and the moves: the text before the first blank line, and the text after it up to the next one (any further sections are ignored). No blank line is an error. */
  function Sections(input: string): (r: Option<(string, string)>)
    ensures r.Some? <==> BlankAt(input) < |input|
    ensures r.Some? ==> NoBlankLine(r.value.0) && NoBlankLine(r.value.1)
    ensures r.Some? ==> |r.value.0| + 2 + |r.value.1| <= |input|
    ensures r.Some? ==> input[..|r.value.0| + 2 + |r.value.1|] == r.value.0 + "\n\n" + r.value.1
  {
    var i := BlankAt(input);
    if i == |input| then None
    else
      var rest := input[i + 2..];
      var j := BlankAt(rest);
      assert input[..i + 2 + j] == input[..i] + "\n\n" + rest[..j];
      Some((input[..i], rest[..j]))
  }

  /** A map and moves written with a blank line between them read back as those two sections. */
  lemma SectionsOf(grid: string, moves: string, rest: string)
    requires NoBlankLine(grid) && (grid == [] || grid[|grid| - 1] != '\n')
    requires NoBlankLine(moves) && (moves == [] || moves[|moves| - 1] != '\n')
    requires rest == [] || (|rest| >= 2 && rest[..2] == "\n\n")
    ensures Sections(grid + "\n\n" + moves + rest) == Some((grid, moves))
  {
    var tail := moves + rest;
    assert grid + "\n\n" + moves + rest == grid + "\n\n" + tail;
    FirstSection(grid, tail);
    BlankAtOf(moves, rest);
    assert tail[..|moves|] == moves;
  }

  /** The map section ends at the first blank line; the moves section runs to the next one. */
  lemma FirstSection(grid: string, tail: string)
    requires NoBlankLine(grid) && (grid == [] || grid[|grid| - 1] != '\n')
    ensures Sections(grid + "\n\n" + tail) == Some((grid, tail[..BlankAt(tail)]))
  {
    var after := "\n\n" + tail;
    var input := grid + after;
    assert grid + "\n\n" + tail == input;
    assert after[..2] == "\n\n";
    BlankAtOf(grid, after);
    assert input[..|grid|] == grid;
    assert input[|grid|..] == after;
    assert after[2..] == tail;
    assert input[|grid| + 2..] == tail;
  }

  /** The moves the non-blank characters of `s` stand for; any other character is an error. */
  function Moves(s: string): (r: Option<seq<Move>>)
    ensures r.Some? <==> forall k :: 0 <= k < |s| && !IsAsciiSpace(s[k]) ==> s[k] in {'>', '<', 'v', '^'}
    ensures r.Some? ==> |r.value| == |NonBlank(s)| && forall k :: 0 <= k < |r.value| ==> IsMove(r.value[k])
  {
    if s == [] then Some([])
    else
      var tail := Moves(s[1..]);
      assert forall k :: 1 <= k < |s| ==> s[k] == s[1..][k - 1];
      if IsAsciiSpace(s[0]) then tail
      else
        match FromChar(s[0])
        case None => None
        case Some(m) =>
          match tail
          case None => None
          case Some(ms) => Some([m] + ms)
  }

  /** A parsed puzzle: the grid's width and height, its cells column-major in rows of `width`, and the moves. */
  datatype Puzzle = Puzzle(width: nat, height: nat, cells: seq<Cell>, moves: seq<Move>)

  predicate ValidPuzzle(p: Puzzle)
  {
    && |p.cells| == p.width * p.height
    && (forall k :: 0 <= k < |p.moves| ==> IsMove(p.moves[k]))
  }

  /** The puzzle for part 1 (`wide` false) or part 2 (`wide` true): the map's lines laid out, and the moves. */
  function Parse(input: string, wide: bool): (r: Option<Puzzle>)
    ensures r.Some? ==> ValidPuzzle(r.value)
    ensures r.Some? ==> Sections(input).Some? && Moves(Sections(input).value.1).Some?
    ensures r.Some? ==> r.value.moves == Moves(Sections(input).value.1).value
  {
    match Sections(input)
    case None => None
    case Some((grid, instructions)) =>
      var layout := if wide then Layout2(Split(grid, '\n')) else Layout1(Split(grid, '\n'));
      match layout
      case None => None
      case Some((width, height, cells)) =>
        match Moves(instructions)
        case None => None
        case Some(moves) => Some(Puzzle(width, height, cells, moves))
  }

  /** The answer to a puzzle: the GPS total of the warehouse after every
    * move. `None` where the source would panic, and for a grid wider or
    * taller than a word can index. */
  function Answer(p: Puzzle): Option<nat>
    requires ValidPuzzle(p)
  {
    if p.width > USIZE || p.height > USIZE then None
    else
      FlatProduct(0, p.height, p.width);
      match Simulate(p.cells, p.width, p.height, p.moves)
      case None => None
      case Some(final) => Some(GpsTotal(final, p.width, p.height))
  }

  /** An answer is the GPS total of a rearrangement of the starting cells:
    * walls, rocks and the robot are neither created nor destroyed. */
  lemma AnswerMeans(p: Puzzle)
    requires ValidPuzzle(p) && Answer(p).Some?
    ensures p.width <= USIZE && p.height <= USIZE
    ensures exists final: seq<Cell> ::
              && |final| == Flat(0, p.height, p.width)
              && multiset(final) == multiset(p.cells)
              && Answer(p).value == GpsTotal(final, p.width, p.height)
  {
    FlatProduct(0, p.height, p.width);
    var final := Simulate(p.cells, p.width, p.height, p.moves).value;
    SimulateMultiset(p.cells, p.width, p.height, p.moves);
    assert |final| == Flat(0, p.height, p.width) && multiset(final) == multiset(p.cells);
  }

  /** Runs the moves on the puzzle's warehouse and sums the GPS coordinates. */
  method Solve(p: Puzzle) returns (r: Option<nat>)
    requires ValidPuzzle(p)
    ensures r == Answer(p)
  {
    if p.width > USIZE || p.height > USIZE {
      return None;
    }
    var warehouse := new Warehouse(p.width, p.height, p.cells);
    var failed := warehouse.Run(p.moves);
    if failed {
      return None;
    }
    var total := warehouse.SumOfGps();
    return Some(total);
  }

  /** Part 1: one-cell rocks on the map as drawn. */
  method Part1(input: string) returns (r: Option<nat>)
    ensures r == if Parse(input, false).None? then None else Answer(Parse(input, false).value)
  {
    var p := Parse(input, false);
    if p.None? {
      return None;
    }
    r := Solve(p.value);
  }

  /** Part 2: the map drawn twice as wide, every rock in two halves. */
  method Part2(input: string) returns (r: Option<nat>)
    ensures r == if Parse(input, true).None? then None else Answer(Parse(input, true).value)
  {
    var p := Parse(input, true);
    if p.None? {
      return None;
    }
    r := Solve(p.value);
  }
}
