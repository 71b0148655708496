/**
 * Day 20: a race track through a maze of walls. The track is labelled with
 * each cell's distance from the start, walking from the start to the end;
 * part 1 counts two-step cheats through a wall and part 2 cheats of up to
 * 20 steps that save at least 100 steps of track.
 */
module Day20 {
  import opened Wrappers
  import opened Text
  import opened Grids
  import opened Sets

  /** A position as (x, y): x the column, y the row. */
  type Pos = (int, int)

  /** Every track cell with its label, `None` until the labelling reaches it. */
  type Labels = map<Pos, Option<nat>>

  /** The track cells, where the race starts and where it ends. */
  datatype Race = Race(start: Pos, end: Pos, track: set<Pos>)

  /** The four unit offsets, in the order neighbours are tried (the order of the pathfinding crate's `DIRECTIONS_4`, whose source is not part of this model). */
  const DELTAS: seq<Pos> := [(-1, 0), (0, 1), (1, 0), (0, -1)]

  /** The longest cheat of part 2. */
  const CHEAT_TIME: nat := 20

  /** The least saving a cheat must make to be counted. */
  const MIN_SAVING: int := 100

  function Plus(p: Pos, d: Pos): Pos
  {
    (p.0 + d.0, p.1 + d.1)
  }

  /** The four cells next to `p`, in the order of DELTAS. */
  function Neighbours(p: Pos): (ns: seq<Pos>)
    ensures |ns| == 4 && forall k :: 0 <= k < 4 ==> ns[k] == Plus(p, DELTAS[k])
  {
    [Plus(p, DELTAS[0]), Plus(p, DELTAS[1]), Plus(p, DELTAS[2]), Plus(p, DELTAS[3])]
  }

  function Manhattan(p: Pos, q: Pos): nat
  {
    (if q.0 < p.0 then p.0 - q.0 else q.0 - p.0) + (if q.1 < p.1 then p.1 - q.1 else q.1 - p.1)
  }

  predicate Adjacent(p: Pos, q: Pos)
  {
    Manhattan(p, q) == 1
  }

  // ----- Reading the map -----

  /** The characters of `s` that are not ASCII whitespace, in order. */
  function Cells(s: string): (r: string)
    ensures |r| <= |s| && forall i :: 0 <= i < |r| ==> !IsAsciiSpace(r[i])
  {
    if s == [] then []
    else if IsAsciiSpace(s[0]) then Cells(s[1..])
    else [s[0]] + Cells(s[1..])
  }

  /** The index of the last occurrence of `c` in `s`, if there is one. */
  function Last(s: string, c: char): (r: Option<nat>)
    ensures r.Some? ==> r.value < |s| && s[r.value] == c && forall j :: r.value < j < |s| ==> s[j] != c
    ensures r.None? ==> forall j :: 0 <= j < |s| ==> s[j] != c
  {
    if s == [] then None
    else if s[|s| - 1] == c then Some(|s| - 1)
    else Last(s[..|s| - 1], c)
  }

  /** The `i`-th cell in reading order on a map `width` cells wide. */
  function Position(i: nat, width: nat): (p: Pos)
    requires width > 0
    ensures p.0 < width && i == p.1 * width + p.0
  {
    (i % width, i / width)
  }

  /**
   * The race the lines describe. Whitespace is dropped and the remaining
   * cells are laid out in rows as wide as the first line; every cell but
   * `#` is track, and the last `S` and `E` are the start and the end. No
   * line, an empty first line, or no `S` or no `E` is an error.
   */
  function Parse(lines: seq<string>): (r: Option<Race>)
    ensures r.Some? ==> r.value.start in r.value.track && r.value.end in r.value.track
  {
    if lines == [] || |lines[0]| == 0 then None
    else
      var cells := Cells(Concat(lines));
      var width := |lines[0]|;
      match (Last(cells, 'S'), Last(cells, 'E'))
      case (Some(s), Some(e)) =>
        var track := set i | 0 <= i < |cells| && cells[i] != '#' :: Position(i, width);
        assert Position(s, width) in track && Position(e, width) in track;
        Some(Race(Position(s, width), Position(e, width), track))
      case _ => None
  }

  lemma {:induction false} CellsKeep(s: string)
    requires forall i :: 0 <= i < |s| ==> !IsAsciiSpace(s[i])
    ensures Cells(s) == s
  {
    if s != [] {
      CellsKeep(s[1..]);
    }
  }

  /** The cell at column `x` of row `y` comes `y * width + x` characters into the rows. */
  lemma {:induction false} ConcatAt(lines: seq<string>, width: nat, y: nat, x: nat)
    requires forall k :: 0 <= k < |lines| ==> |lines[k]| == width
    requires y < |lines| && x < width
    ensures y * width + x < |Concat(lines)| && Concat(lines)[y * width + x] == lines[y][x]
  {
    var init := lines[..|lines| - 1];
    ConcatLength(init, width);
    ConcatLength(lines, width);
    if y < |lines| - 1 {
      ConcatAt(init, width, y, x);
      MulLe(y + 1, |lines| - 1, width);
    }
  }

  lemma MulLe(a: nat, b: nat, w: nat)
    requires a <= b
    ensures a * w <= b * w
  {
    assert b * w == a * w + (b - a) * w;
  }

  /** Reading order and (column, row) agree. */
  lemma ReadingOrder(width: nat, x: nat, y: nat)
    requires x < width
    ensures Position(y * width + x, width) == (x, y)
  {
    var i := y * width + x;
    var q, r := i / width, i % width;
    assert i == q * width + r;
    if q < y {
      MulLe(q + 1, y, width);
      assert false;
    } else if q > y {
      MulLe(y + 1, q, width);
      assert false;
    }
  }

  lemma RowOf(i: nat, width: nat, rows: nat)
    requires width > 0 && i < rows * width
    ensures i / width < rows
  {
    var q := i / width;
    assert i == q * width + i % width;
    if q >= rows {
      MulLe(rows, q, width);
      assert false;
    }
  }

  /** Lines of one width, at least one character wide, holding no whitespace. */
  predicate Rectangle(lines: seq<string>)
  {
    && |lines| > 0 && |lines[0]| > 0
    && (forall y :: 0 <= y < |lines| ==> |lines[y]| == |lines[0]|)
    && (forall y, x :: 0 <= y < |lines| && 0 <= x < |lines[y]| ==> !IsAsciiSpace(lines[y][x]))
  }

  /** The `i`-th character of a rectangle is at column `i % width` of row `i / width`. */
  lemma CellAt(lines: seq<string>, i: nat) returns (x: nat, y: nat)
    requires Rectangle(lines) && i < |Concat(lines)|
    ensures y < |lines| && x < |lines[0]| && Position(i, |lines[0]|) == (x, y) && Concat(lines)[i] == lines[y][x]
  {
    var width := |lines[0]|;
    ConcatLength(lines, width);
    RowOf(i, width, |lines|);
    x, y := Position(i, width).0, Position(i, width).1;
    ConcatAt(lines, width, y, x);
  }

  /** The character at column `x` of row `y` of a rectangle comes `y * width + x` into it. */
  lemma IndexOf(lines: seq<string>, x: nat, y: nat) returns (i: nat)
    requires Rectangle(lines) && y < |lines| && x < |lines[0]|
    ensures i < |Concat(lines)| && Position(i, |lines[0]|) == (x, y) && Concat(lines)[i] == lines[y][x]
  {
    var width := |lines[0]|;
    i := y * width + x;
    ConcatAt(lines, width, y, x);
    ReadingOrder(width, x, y);
  }

  /** A rectangle holds no whitespace, so all of it is cells. */
  lemma RectangleCells(lines: seq<string>)
    requires Rectangle(lines)
    ensures Cells(Concat(lines)) == Concat(lines)
  {
    var flat := Concat(lines);
    forall i | 0 <= i < |flat|
      ensures !IsAsciiSpace(flat[i])
    {
      var x, y := CellAt(lines, i);
    }
    CellsKeep(flat);
  }

  /** There is a race exactly when some cell of the rectangle is `S` and some cell is `E`. */
  lemma ParseFinds(lines: seq<string>)
    requires Rectangle(lines)
    ensures Parse(lines).Some? <==> (exists y, x :: 0 <= y < |lines| && 0 <= x < |lines[y]| && lines[y][x] == 'S') && (exists y, x :: 0 <= y < |lines| && 0 <= x < |lines[y]| && lines[y][x] == 'E')
  {
    RectangleCells(lines);
    var cells := Cells(Concat(lines));
    if exists y, x :: 0 <= y < |lines| && 0 <= x < |lines[y]| && lines[y][x] == 'S' {
      var y, x :| 0 <= y < |lines| && 0 <= x < |lines[y]| && lines[y][x] == 'S';
      var i := IndexOf(lines, x, y);
      assert cells[i] == 'S';
    }
    if exists y, x :: 0 <= y < |lines| && 0 <= x < |lines[y]| && lines[y][x] == 'E' {
      var y, x :| 0 <= y < |lines| && 0 <= x < |lines[y]| && lines[y][x] == 'E';
      var i := IndexOf(lines, x, y);
      assert cells[i] == 'E';
    }
    if Last(cells, 'S').Some? {
      var x, y := CellAt(lines, Last(cells, 'S').value);
    }
    if Last(cells, 'E').Some? {
      var x, y := CellAt(lines, Last(cells, 'E').value);
    }
  }

  /**
   * In a rectangle the track is every cell that is not `#`, addressed by
   * column and row, and the race starts on an `S` and ends on an `E`.
   */
  lemma ParseRectangle(lines: seq<string>)
    requires Rectangle(lines) && Parse(lines).Some?
    ensures forall x, y :: (x, y) in Parse(lines).value.track <==> 0 <= y < |lines| && 0 <= x < |lines[0]| && lines[y][x] != '#'
    ensures var r := Parse(lines).value; 0 <= r.start.1 < |lines| && 0 <= r.start.0 < |lines[0]| && lines[r.start.1][r.start.0] == 'S'
    ensures var r := Parse(lines).value; 0 <= r.end.1 < |lines| && 0 <= r.end.0 < |lines[0]| && lines[r.end.1][r.end.0] == 'E'
  {
    RectangleCells(lines);
    var cells := Cells(Concat(lines));
    var width := |lines[0]|;
    var race := Parse(lines).value;
    forall x, y
      ensures (x, y) in race.track <==> 0 <= y < |lines| && 0 <= x < width && lines[y][x] != '#'
    {
      if (x, y) in race.track {
        var i :| 0 <= i < |cells| && cells[i] != '#' && Position(i, width) == (x, y);
        var x', y' := CellAt(lines, i);
      }
      if 0 <= y < |lines| && 0 <= x < width && lines[y][x] != '#' {
        var i := IndexOf(lines, x, y);
      }
    }
    var xs, ys := CellAt(lines, Last(cells, 'S').value);
    var xe, ye := CellAt(lines, Last(cells, 'E').value);
  }

  // ----- The debug check -----

  /** How many of the first `k` neighbours of `p` are track. */
  function TrackAround(track: set<Pos>, p: Pos, k: nat): nat
    requires k <= 4
  {
    if k == 0 then 0
    else TrackAround(track, p, k - 1) + (if Plus(p, DELTAS[k - 1]) in track then 1 else 0)
  }

  /** No track cell has more than two track neighbours: the track has no forks. */
  predicate Narrow(track: set<Pos>)
  {
    forall p :: p in track ==> TrackAround(track, p, 4) <= 2
  }

  /** The debug builds' check that no track cell has more than two track neighbours. */
  method EnsureNeighbours(track: set<Pos>) returns (ok: bool)
    ensures ok <==> Narrow(track)
  {
    var todo := track;
    while todo != {}
      invariant todo <= track
      invariant forall p :: p in track - todo ==> TrackAround(track, p, 4) <= 2
      decreases |todo|
    {
      var pos :| pos in todo;
      var count := 0;
      var k := 0;
      while k < 4
        invariant k <= 4 && count == TrackAround(track, pos, k)
      {
        if Plus(pos, DELTAS[k]) in track {
          count := count + 1;
        }
        k := k + 1;
      }
      if count > 2 {
        return false;
      }
      todo := todo - {pos};
    }
    return true;
  }

  // ----- Labelling the track -----

  /** The first of `ns` that is in `open`. */
  function FirstIn(ns: seq<Pos>, open: set<Pos>): (r: Option<Pos>)
    ensures r.Some? ==> r.value in ns && r.value in open
    ensures r.None? ==> forall i :: 0 <= i < |ns| ==> ns[i] !in open
  {
    if ns == [] then None
    else if ns[0] in open then Some(ns[0])
    else FirstIn(ns[1..], open)
  }

  /**
   * The cells the labelling steps onto after `pos`, when `open` holds the
   * track cells not labelled yet: each step moves to the first unlabelled
   * track neighbour, until the end is reached. `None` when a step finds
   * no unlabelled neighbour before the end.
   */
  function Steps(open: set<Pos>, end: Pos, pos: Pos): Option<seq<Pos>>
    decreases |open|
  {
    if pos == end then Some([])
    else
      match FirstIn(Neighbours(pos), open)
      case None => None
      case Some(n) =>
        match Steps(open - {n}, end, n)
        case None => None
        case Some(rest) => Some([n] + rest)
  }

  /** The walk from the start: the start itself, then each step. */
  function Route(race: Race): Option<seq<Pos>>
  {
    match Steps(race.track - {race.start}, race.end, race.start)
    case None => None
    case Some(rest) => Some([race.start] + rest)
  }

  /** Every track cell unlabelled. */
  function Blank(track: set<Pos>): Labels
  {
    map p | p in track :: None
  }

  /** `grid` with the `k`-th cell of `path` labelled `k`, later labels overriding earlier ones. */
  function Marked(grid: Labels, path: seq<Pos>): Labels
  {
    if path == [] then grid
    else Marked(grid, path[..|path| - 1])[path[|path| - 1] := Some(|path| - 1)]
  }

  /** The labels after the walk, or `None` when the walk gets stuck. */
  function LabelsOf(race: Race): Option<Labels>
  {
    match Route(race)
    case None => None
    case Some(route) => Some(Marked(Blank(race.track), route))
  }

  /** The track cells that have no label yet. */
  function Unlabelled(grid: Labels): set<Pos>
  {
    set p | p in grid && grid[p].None?
  }

  /** `path` followed by what a walk yields, if it yields anything. */
  function Then(path: seq<Pos>, rest: Option<seq<Pos>>): Option<seq<Pos>>
  {
    match rest
    case None => None
    case Some(r) => Some(path + r)
  }

  /**
   * The labelling loop's state: `path` is the walk so far, ending at
   * `position`, `grid` labels each of its cells with its index, `open`
   * holds the unlabelled track cells, and the walk still to come completes
   * the route.
   */
  ghost predicate Walking(race: Race, grid: Labels, path: seq<Pos>, open: set<Pos>, position: Pos)
  {
    && |path| > 0 && path[|path| - 1] == position
    && grid == Marked(Blank(race.track), path)
    && Unlabelled(grid) == open
    && Route(race) == Then(path, Steps(open, race.end, position))
  }

  lemma WalkStart(race: Race)
    ensures Walking(race, Blank(race.track)[race.start := Some(0)], [race.start], race.track - {race.start}, race.start)
  {
    var grid := Blank(race.track)[race.start := Some(0)];
    assert [race.start][..0] == [];
    assert Unlabelled(grid) == race.track - {race.start};
  }

  /** Labelling the first unlabelled neighbour one more keeps the walk going. */
  lemma WalkStep(race: Race, grid: Labels, path: seq<Pos>, open: set<Pos>, position: Pos, n: Pos)
    requires Walking(race, grid, path, open, position) && position != race.end
    requires FirstIn(Neighbours(position), Unlabelled(grid)) == Some(n)
    ensures Walking(race, grid[n := Some(|path|)], path + [n], open - {n}, n)
  {
    assert (path + [n])[..|path|] == path;
    RouteStep(race, path, open, position, n);
    LabelOne(grid, n, |path|);
  }

  /** The route from a walk's position goes on through its next cell. */
  lemma RouteStep(race: Race, path: seq<Pos>, open: set<Pos>, position: Pos, n: Pos)
    requires position != race.end && FirstIn(Neighbours(position), open) == Some(n)
    requires Route(race) == Then(path, Steps(open, race.end, position))
    ensures Route(race) == Then(path + [n], Steps(open - {n}, race.end, n))
  {
    assert Steps(open, race.end, position) == Then([n], Steps(open - {n}, race.end, n));
    match Steps(open - {n}, race.end, n) {
      case None =>
      case Some(rest) => assert path + ([n] + rest) == path + [n] + rest;
    }
  }

  /** Labelling an unlabelled cell takes it out of the unlabelled ones. */
  lemma LabelOne(grid: Labels, n: Pos, k: nat)
    requires n in Unlabelled(grid)
    ensures Unlabelled(grid[n := Some(k)]) == Unlabelled(grid) - {n}
  {
  }

  /** A walk with no unlabelled neighbour before the end has no route. */
  lemma WalkStuck(race: Race, grid: Labels, path: seq<Pos>, open: set<Pos>, position: Pos)
    requires Walking(race, grid, path, open, position) && position != race.end
    requires FirstIn(Neighbours(position), Unlabelled(grid)).None?
    ensures LabelsOf(race).None?
  {
  }

  /** A walk that reached the end has labelled the whole route. */
  lemma WalkDone(race: Race, grid: Labels, path: seq<Pos>, open: set<Pos>)
    requires Walking(race, grid, path, open, race.end)
    ensures LabelsOf(race) == Some(grid)
  {
    assert path + [] == path;
  }

  /**
   * The labelling loop: the start gets 0 and each round moves to the first
   * unlabelled track neighbour and labels it one more, until the end.
   */
  method Label(race: Race) returns (r: Option<Labels>)
    ensures r == LabelsOf(race)
  {
    var grid := Blank(race.track);
    var position := race.start;
    var i := 0;
    grid := grid[race.start := Some(i)];
    ghost var path := [race.start];
    ghost var open := race.track - {race.start};
    WalkStart(race);
    while position != race.end
      invariant |path| == i + 1 && Walking(race, grid, path, open, position)
      decreases |open|
    {
      i := i + 1;
      var neighbour := FirstIn(Neighbours(position), Unlabelled(grid));
      if neighbour.None? {
        WalkStuck(race, grid, path, open, position);
        return None;
      }
      WalkStep(race, grid, path, open, position, neighbour.value);
      grid := grid[neighbour.value := Some(i)];
      path := path + [neighbour.value];
      open := open - {neighbour.value};
      position := neighbour.value;
    }
    WalkDone(race, grid, path, open);
    return Some(grid);
  }

  // ----- What the labels mean -----

  lemma NeighboursAdjacent(p: Pos, n: Pos)
    requires n in Neighbours(p)
    ensures Adjacent(p, n)
  {
  }

  /** The steps of a walk: distinct unlabelled cells, each next to the one before, stopping at the end. */
  lemma {:induction false} StepsWalk(open: set<Pos>, end: Pos, pos: Pos, rest: seq<Pos>)
    requires Steps(open, end, pos) == Some(rest)
    ensures rest == [] <==> pos == end
    ensures rest != [] ==> rest[|rest| - 1] == end && Adjacent(pos, rest[0])
    ensures forall i :: 0 <= i < |rest| ==> rest[i] in open
    ensures forall i, j :: 0 <= i < j < |rest| ==> rest[i] != rest[j]
    ensures forall i :: 0 <= i < |rest| - 1 ==> Adjacent(rest[i], rest[i + 1]) && rest[i] != end
    decreases |open|
  {
    if pos != end {
      var n := FirstIn(Neighbours(pos), open).value;
      var more := Steps(open - {n}, end, n).value;
      assert rest == [n] + more;
      StepsWalk(open - {n}, end, n, more);
      NeighboursAdjacent(pos, n);
      forall i | 0 <= i < |rest| - 1
        ensures Adjacent(rest[i], rest[i + 1]) && rest[i] != end
      {
        if i > 0 {
          assert rest[i] == more[i - 1] && rest[i + 1] == more[i];
        }
      }
      forall i, j | 0 <= i < j < |rest|
        ensures rest[i] != rest[j]
      {
        assert rest[j] == more[j - 1] && rest[j] in open - {n};
        if i > 0 {
          assert rest[i] == more[i - 1];
        }
      }
    }
  }

  /**
   * The route is a walk along the track from the start to the end: no cell
   * twice, each cell next to the one before, and the end only at the end.
   */
  lemma RouteWalk(race: Race, route: seq<Pos>)
    requires race.start in race.track && Route(race) == Some(route)
    ensures route[0] == race.start && route[|route| - 1] == race.end
    ensures forall i :: 0 <= i < |route| ==> route[i] in race.track
    ensures forall i, j :: 0 <= i < j < |route| ==> route[i] != route[j]
    ensures forall i :: 0 <= i < |route| - 1 ==> Adjacent(route[i], route[i + 1]) && route[i] != race.end
  {
    var open := race.track - {race.start};
    var rest := Steps(open, race.end, race.start).value;
    assert route == [race.start] + rest;
    StepsWalk(open, race.end, race.start, rest);
    forall i | 0 <= i < |route| - 1
      ensures Adjacent(route[i], route[i + 1]) && route[i] != race.end
    {
      if i > 0 {
        assert route[i] == rest[i - 1];
      }
    }
    forall i, j | 0 <= i < j < |route|
      ensures route[i] != route[j]
    {
      assert route[j] == rest[j - 1] && route[j] in open;
      if i > 0 {
        assert route[i] == rest[i - 1];
      }
    }
  }

  /** Labelling the cells of a path with no repeats gives each cell its index and leaves the rest alone. */
  lemma {:induction false} MarkedPath(track: set<Pos>, path: seq<Pos>)
    requires forall i, j :: 0 <= i < j < |path| ==> path[i] != path[j]
    requires forall i :: 0 <= i < |path| ==> path[i] in track
    ensures Marked(Blank(track), path).Keys == track
    ensures forall k :: 0 <= k < |path| ==> Marked(Blank(track), path)[path[k]] == Some(k)
    ensures forall p :: p in track && p !in path ==> Marked(Blank(track), path)[p] == None
  {
    if path != [] {
      var init := path[..|path| - 1];
      MarkedPath(track, init);
      forall k | 0 <= k < |path| - 1
        ensures Marked(Blank(track), path)[path[k]] == Some(k)
      {
        assert path[k] == init[k];
      }
      forall p | p in track && p !in path
        ensures Marked(Blank(track), path)[p] == None
      {
        assert p !in init;
      }
    }
  }

  /**
   * After a walk that reaches the end, every track cell of the route holds
   * its distance from the start along the route, and the other track
   * cells hold no label.
   */
  lemma LabelsAlongRoute(race: Race, route: seq<Pos>)
    requires race.start in race.track && Route(race) == Some(route)
    ensures LabelsOf(race).Some? && LabelsOf(race).value.Keys == race.track
    ensures forall k :: 0 <= k < |route| ==> route[k] in LabelsOf(race).value && LabelsOf(race).value[route[k]] == Some(k)
    ensures forall p :: p in race.track && p !in route ==> LabelsOf(race).value[p] == None
    ensures Labelled(LabelsOf(race).value) <==> forall p :: p in race.track ==> p in route
  {
    RouteWalk(race, route);
    MarkedPath(race.track, route);
    var grid := LabelsOf(race).value;
    if !(forall p :: p in race.track ==> p in route) {
      var p :| p in race.track && p !in route;
      assert grid[p] == None;
    } else {
      forall p | p in grid
        ensures grid[p].Some?
      {
        var k :| 0 <= k < |route| && route[k] == p;
      }
    }
  }

  /** The offset of a cell next to `p` is one of the four. */
  lemma AdjacentIndex(p: Pos, n: Pos) returns (k: nat)
    requires Adjacent(p, n)
    ensures k < 4 && n == Plus(p, DELTAS[k])
  {
    if n.0 < p.0 {
      k := 0;
    } else if n.1 > p.1 {
      k := 1;
    } else if n.0 > p.0 {
      k := 2;
    } else {
      k := 3;
    }
  }

  /** Three different track cells next to `p` fail the debug check. */
  lemma Crowded(track: set<Pos>, p: Pos, x: Pos, y: Pos, z: Pos)
    requires x in track && y in track && z in track && x != y && y != z && x != z
    requires Adjacent(p, x) && Adjacent(p, y) && Adjacent(p, z)
    ensures TrackAround(track, p, 4) >= 3
  {
    var kx := AdjacentIndex(p, x);
    var ky := AdjacentIndex(p, y);
    var kz := AdjacentIndex(p, z);
    assert TrackAround(track, p, 1) == (if Plus(p, DELTAS[0]) in track then 1 else 0);
    assert TrackAround(track, p, 2) == (if Plus(p, DELTAS[0]) in track then 1 else 0) + (if Plus(p, DELTAS[1]) in track then 1 else 0);
    assert TrackAround(track, p, 3) == TrackAround(track, p, 2) + (if Plus(p, DELTAS[2]) in track then 1 else 0);
    assert TrackAround(track, p, 4) == TrackAround(track, p, 2) + (if Plus(p, DELTAS[2]) in track then 1 else 0) + (if Plus(p, DELTAS[3]) in track then 1 else 0);
  }

  /**
   * On a track that passes the debug check, every step after the first
   * goes to the only unlabelled track cell next to the current one, so the
   * order the neighbours are tried in does not matter.
   */
  lemma OnlyChoice(race: Race, route: seq<Pos>, k: nat, n: Pos)
    requires race.start in race.track && Route(race) == Some(route) && Narrow(race.track)
    requires 0 < k < |route| - 1
    requires n in race.track && Adjacent(route[k], n) && n !in route[..k + 1]
    ensures n == route[k + 1]
  {
    RouteWalk(race, route);
    if n != route[k + 1] {
      assert route[k - 1] in route[..k + 1];
      assert Adjacent(route[k], route[k - 1]);
      Crowded(race.track, route[k], route[k - 1], route[k + 1], n);
      assert false;
    }
  }

  // ----- Counting cheats -----

  /** Every track cell labelled. */
  predicate Labelled(grid: Labels)
  {
    forall p :: p in grid ==> grid[p].Some?
  }

  /**
   * Part 1's test for a cheat from `p` through its `a`-th neighbour to that
   * cell's `b`-th neighbour `q`: `q` is another labelled track cell whose
   * label is at least 100 more than `p`'s. The two steps of the cheat are
   * not taken off the saving.
   */
  predicate Jump(grid: Labels, p: Pos, a: nat, b: nat)
    requires a < 4 && b < 4
  {
    var q := Plus(Plus(p, DELTAS[a]), DELTAS[b]);
    && q != p && p in grid && q in grid && grid[p].Some? && grid[q].Some?
    && grid[q].value - grid[p].value >= MIN_SAVING
  }

  /** Jumps from `p` through its `a`-th neighbour, over the first `b` second steps. */
  function JumpsVia(grid: Labels, p: Pos, a: nat, b: nat): nat
    requires a < 4 && b <= 4
  {
    if b == 0 then 0 else JumpsVia(grid, p, a, b - 1) + (if Jump(grid, p, a, b - 1) then 1 else 0)
  }

  /** Jumps from `p` through its first `a` neighbours. */
  function JumpsAt(grid: Labels, p: Pos, a: nat): nat
    requires a <= 4
  {
    if a == 0 then 0 else JumpsAt(grid, p, a - 1) + JumpsVia(grid, p, a - 1, 4)
  }

  function JumpsFrom(grid: Labels): Pos -> nat
  {
    p => JumpsAt(grid, p, 4)
  }

  /** Part 1's answer: the jumps from every track cell. */
  ghost function ShortCheats(grid: Labels): nat
  {
    Sum(grid.Keys, JumpsFrom(grid))
  }

  /**
   * Part 1's counting loop over the track cells, in any order, and the two
   * steps from each. A missing label is an error.
   */
  method CountShortCheats(grid: Labels) returns (r: Option<nat>)
    ensures r.None? <==> !Labelled(grid)
    ensures r.Some? ==> r.value == ShortCheats(grid)
  {
    var saves: nat := 0;
    var todo := grid.Keys;
    ghost var done: set<Pos> := {};
    TallyStart(grid.Keys, JumpsFrom(grid));
    while todo != {}
      invariant Tallied(grid.Keys, todo, done, JumpsFrom(grid), saves)
      invariant forall p :: p in done ==> grid[p].Some?
      decreases |todo|
    {
      var position :| position in todo;
      if grid[position].None? {
        return None;
      }
      var distance := grid[position].value;
      var here := CountJumps(grid, position, distance);
      if here.None? {
        return None;
      }
      TallyStep(grid.Keys, todo, done, JumpsFrom(grid), saves, position);
      saves := saves + here.value;
      done := done + {position};
      todo := todo - {position};
    }
    TallyDone(grid.Keys, done, JumpsFrom(grid), saves);
    return Some(saves);
  }

  /** The two nested loops over the steps from one track cell labelled `distance`. */
  method CountJumps(grid: Labels, position: Pos, distance: nat) returns (r: Option<nat>)
    requires position in grid && grid[position] == Some(distance)
    ensures r.None? ==> !Labelled(grid)
    ensures r.Some? ==> r.value == JumpsAt(grid, position, 4)
  {
    var saves: nat := 0;
    var a := 0;
    while a < 4
      invariant a <= 4 && saves == JumpsAt(grid, position, a)
    {
      var neighbour1 := Plus(position, DELTAS[a]);
      var b := 0;
      while b < 4
        invariant b <= 4 && saves == JumpsAt(grid, position, a) + JumpsVia(grid, position, a, b)
      {
        var neighbour2 := Plus(neighbour1, DELTAS[b]);
        if neighbour2 != position && neighbour2 in grid {
          if grid[neighbour2].None? {
            return None;
          }
          if grid[neighbour2].value - distance >= MIN_SAVING {
            saves := saves + 1;
          }
        }
        b := b + 1;
      }
      a := a + 1;
    }
    return Some(saves);
  }

  /**
   * Part 2's test for a cheat from `s` to `e`: both labelled track cells
   * at most 20 apart, and the label of `e` exceeds that of `s` by the
   * cheat's length plus at least 100.
   */
  predicate LongCheat(grid: Labels, s: Pos, e: Pos)
  {
    && s in grid && e in grid && grid[s].Some? && grid[e].Some?
    && Manhattan(s, e) <= CHEAT_TIME
    && grid[e].value - grid[s].value - Manhattan(s, e) >= MIN_SAVING
  }

  function Ends(grid: Labels, s: Pos): Pos -> nat
  {
    e => if LongCheat(grid, s, e) then 1 else 0
  }

  /** The ends of the long cheats from `s`. */
  ghost function CheatEnds(grid: Labels, s: Pos): set<Pos>
  {
    set e | e in grid && LongCheat(grid, s, e)
  }

  /** Summing the test over every end counts the ends. */
  lemma EndsCount(grid: Labels, s: Pos)
    ensures Sum(grid.Keys, Ends(grid, s)) == |CheatEnds(grid, s)|
  {
    SumOnes(grid.Keys, Ends(grid, s), CheatEnds(grid, s));
  }

  ghost function EndsFrom(grid: Labels): Pos -> nat
  {
    s => |CheatEnds(grid, s)|
  }

  /** Part 2's answer: every ordered pair of track cells that makes a long cheat. */
  ghost function LongCheats(grid: Labels): nat
  {
    Sum(grid.Keys, EndsFrom(grid))
  }

  /**
   * Part 2's counting loop over every start and every end, in any order.
   * A missing label is an error.
   */
  method CountLongCheats(grid: Labels) returns (r: Option<nat>)
    ensures r.None? <==> !Labelled(grid)
    ensures r.Some? ==> r.value == LongCheats(grid)
  {
    var saves: nat := 0;
    var todo := grid.Keys;
    ghost var done: set<Pos> := {};
    TallyStart(grid.Keys, EndsFrom(grid));
    while todo != {}
      invariant Tallied(grid.Keys, todo, done, EndsFrom(grid), saves)
      invariant forall p :: p in done ==> grid[p].Some?
      decreases |todo|
    {
      var start :| start in todo;
      if grid[start].None? {
        return None;
      }
      var here := CountEnds(grid, start, grid[start].value);
      if here.None? {
        return None;
      }
      assert EndsFrom(grid)(start) == here.value;
      TallyStep(grid.Keys, todo, done, EndsFrom(grid), saves, start);
      saves := saves + here.value;
      done := done + {start};
      todo := todo - {start};
    }
    TallyDone(grid.Keys, done, EndsFrom(grid), saves);
    return Some(saves);
  }

  /** The inner loop over every end for one start labelled `dStart`. */
  method CountEnds(grid: Labels, start: Pos, dStart: nat) returns (r: Option<nat>)
    requires start in grid && grid[start] == Some(dStart)
    ensures r.None? ==> !Labelled(grid)
    ensures r.Some? ==> r.value == |CheatEnds(grid, start)|
  {
    var saves: nat := 0;
    var ends := grid.Keys;
    ghost var checked: set<Pos> := {};
    TallyStart(grid.Keys, Ends(grid, start));
    while ends != {}
      invariant Tallied(grid.Keys, ends, checked, Ends(grid, start), saves)
      decreases |ends|
    {
      var end :| end in ends;
      var save := EndSaves(grid, start, dStart, end);
      if save.None? {
        return None;
      }
      TallyStep(grid.Keys, ends, checked, Ends(grid, start), saves, end);
      saves := saves + save.value;
      checked := checked + {end};
      ends := ends - {end};
    }
    TallyDone(grid.Keys, checked, Ends(grid, start), saves);
    EndsCount(grid, start);
    return Some(saves);
  }

  /** Whether the cheat from `start` to `end` counts, or `None` when it ends on an unlabelled cell. */
  method EndSaves(grid: Labels, start: Pos, dStart: nat, end: Pos) returns (r: Option<nat>)
    requires start in grid && grid[start] == Some(dStart) && end in grid
    ensures r.None? ==> !Labelled(grid)
    ensures r.Some? ==> r.value == Ends(grid, start)(end)
  {
    var manhattan := Manhattan(start, end);
    if manhattan <= CHEAT_TIME {
      if grid[end].None? {
        return None;
      }
      if grid[end].value - dStart - manhattan >= MIN_SAVING {
        return Some(1);
      }
    }
    return Some(0);
  }

  /**
   * On the labels a route leaves, a part 1 jump between two cells of the
   * route lands at least 100 cells further along it, two cells away.
   */
  lemma JumpOnRoute(race: Race, route: seq<Pos>, i: nat, j: nat, a: nat, b: nat)
    requires race.start in race.track && Route(race) == Some(route)
    requires i < |route| && j < |route| && a < 4 && b < 4
    requires Plus(Plus(route[i], DELTAS[a]), DELTAS[b]) == route[j]
    ensures Jump(LabelsOf(race).value, route[i], a, b) <==> j >= i + MIN_SAVING
    ensures Jump(LabelsOf(race).value, route[i], a, b) ==> Manhattan(route[i], route[j]) == 2
  {
    LabelsAlongRoute(race, route);
    RouteWalk(race, route);
  }

  /**
   * On the labels a route leaves, a part 2 cheat between two cells of the
   * route is one at most 20 long that skips at least 100 more cells of the
   * route than its own length.
   */
  lemma LongCheatOnRoute(race: Race, route: seq<Pos>, i: nat, j: nat)
    requires race.start in race.track && Route(race) == Some(route)
    requires i < |route| && j < |route|
    ensures LongCheat(LabelsOf(race).value, route[i], route[j]) <==> Manhattan(route[i], route[j]) <= CHEAT_TIME && j - i - Manhattan(route[i], route[j]) >= MIN_SAVING
  {
    LabelsAlongRoute(race, route);
  }

  /** A long cheat goes forwards: never from a cell to itself, and never both ways. */
  lemma LongCheatForward(grid: Labels, s: Pos, e: Pos)
    requires LongCheat(grid, s, e)
    ensures s != e && grid[e].value > grid[s].value && !LongCheat(grid, e, s)
  {
  }

  /**
   * A part 1 jump whose labels differ by at least 102 is also a part 2
   * cheat: part 2 takes the cheat's two steps off the saving, part 1 does not.
   */
  lemma ShortWithinLong(grid: Labels, p: Pos, a: nat, b: nat)
    requires a < 4 && b < 4 && Jump(grid, p, a, b)
    requires grid[Plus(Plus(p, DELTAS[a]), DELTAS[b])].value >= grid[p].value + MIN_SAVING + 2
    ensures LongCheat(grid, p, Plus(Plus(p, DELTAS[a]), DELTAS[b]))
  {
    var q := Plus(Plus(p, DELTAS[a]), DELTAS[b]);
    assert Manhattan(p, q) <= 2;
  }

  // ----- Both parts -----

  /** The labels both parts count on, or `None` on an error. */
  ghost function Prepared(lines: seq<string>, debug: bool): Option<Labels>
  {
    match Parse(lines)
    case None => None
    case Some(race) => if debug && !Narrow(race.track) then None else LabelsOf(race)
  }

  /** Reading the race, the debug check when `debug` is set, and labelling the track. */
  method Prepare(lines: seq<string>, debug: bool) returns (r: Option<Labels>)
    ensures r == Prepared(lines, debug)
  {
    var race := Parse(lines);
    if race.None? {
      return None;
    }
    if debug {
      var ok := EnsureNeighbours(race.value.track);
      if !ok {
        return None;
      }
    }
    r := Label(race.value);
  }

  method Part1(lines: seq<string>, debug: bool) returns (r: Option<nat>)
    ensures r.None? <==> Prepared(lines, debug).None? || !Labelled(Prepared(lines, debug).value)
    ensures r.Some? ==> r.value == ShortCheats(Prepared(lines, debug).value)
  {
    var grid := Prepare(lines, debug);
    if grid.None? {
      return None;
    }
    r := CountShortCheats(grid.value);
  }

  method Part2(lines: seq<string>, debug: bool) returns (r: Option<nat>)
    ensures r.None? <==> Prepared(lines, debug).None? || !Labelled(Prepared(lines, debug).value)
    ensures r.Some? ==> r.value == LongCheats(Prepared(lines, debug).value)
  {
    var grid := Prepare(lines, debug);
    if grid.None? {
      return None;
    }
    r := CountLongCheats(grid.value);
  }
}
