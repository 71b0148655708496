/**
 * Day 12: garden regions. A region is a set of same-plant cells joined by
 * orthogonal steps. Part 1 prices a region at area times perimeter, part 2
 * at area times the number of straight sides of its fence.
 */
module Day12 {
  import opened Wrappers
  import opened Grids
  import opened Sets
  import opened Graphs

  /** A cell as (row, column). */
  type Pos = (int, int)

  /** A piece of fence: the cell just outside the region and the step that leads out to it. */
  type Edge = (Pos, Pos)

  /** The four unit steps: up, right, down, left. */
  const DELTAS: seq<Pos> := [(-1, 0), (0, 1), (1, 0), (0, -1)]
  const DIRS: set<Pos> := {(-1, 0), (0, 1), (1, 0), (0, -1)}

  function Plus(p: Pos, d: Pos): Pos
  {
    (p.0 + d.0, p.1 + d.1)
  }

  predicate Adjacent(a: Pos, b: Pos)
  {
    b == (a.0 - 1, a.1) || b == (a.0, a.1 + 1) || b == (a.0 + 1, a.1) || b == (a.0, a.1 - 1)
  }

  lemma AdjacentSymmetric()
    ensures Symmetric(Adjacent)
  {
  }

  predicate InGrid(g: Grid, p: Pos)
  {
    Inside(g, p.0, p.1)
  }

  /** The plant at `p`, or `None` off the grid. */
  function At(g: Grid, p: Pos): Option<char>
  {
    Get(g, p.0, p.1)
  }

  /** The cells growing plant `c`. */
  ghost function Plants(g: Grid, c: char): set<Pos>
  {
    set r, col | 0 <= r < |g| && 0 <= col < |g[r]| && g[r][col] == c :: (r, col)
  }

  /** The region of `p`: the cells of its plant linked to it by orthogonal steps. */
  ghost function Region(g: Grid, p: Pos): set<Pos>
    requires InGrid(g, p)
  {
    Component(Plants(g, g[p.0][p.1]), Adjacent, p)
  }

  /** The fence around `cells` of plant `c`: one piece for each cell and step that leads off the plant. */
  ghost function Edges(g: Grid, cells: set<Pos>, c: char): set<Edge>
  {
    set v, d | v in cells && d in DIRS && At(g, Plus(v, d)) != Some(c) :: (Plus(v, d), d)
  }

  /** Two pieces of fence are touching when they face the same way from neighbouring cells. */
  predicate Touching(a: Edge, b: Edge)
  {
    a.1 == b.1 && Adjacent(a.0, b.0)
  }

  lemma TouchingSymmetric()
    ensures Symmetric(Touching)
  {
  }

  // ----- Facts about regions and fences -----

  /** A region holds its own cell, and only cells of the same plant. */
  lemma RegionHas(g: Grid, p: Pos)
    requires InGrid(g, p)
    ensures p in Region(g, p)
    ensures forall x :: x in Region(g, p) ==> InGrid(g, x) && g[x.0][x.1] == g[p.0][p.1]
  {
    LinkedSelf(Plants(g, g[p.0][p.1]), Adjacent, p);
  }

  /** `x` is in the region of `p` exactly when `p` is in the region of `x`, and then the regions are the same. */
  lemma RegionSym(g: Grid, p: Pos, x: Pos)
    requires InGrid(g, p) && InGrid(g, x)
    ensures x in Region(g, p) <==> p in Region(g, x)
    ensures x in Region(g, p) ==> Region(g, p) == Region(g, x)
  {
    AdjacentSymmetric();
    var c := g[p.0][p.1];
    if x in Region(g, p) {
      assert g[x.0][x.1] == c;
      LinkedBack(Plants(g, c), Adjacent, p, x);
      SameComponent(Plants(g, c), Adjacent, p, x);
    }
    if p in Region(g, x) {
      var d := g[x.0][x.1];
      assert (p.0, p.1) in Plants(g, d);
      LinkedBack(Plants(g, d), Adjacent, x, p);
    }
  }

  /** Adding a cell adds its own pieces of fence, none of which were there before. */
  lemma EdgesAdd(g: Grid, cells: set<Pos>, v: Pos, c: char)
    requires v !in cells
    ensures Edges(g, cells + {v}, c) == Edges(g, cells, c) + Edges(g, {v}, c)
    ensures |Edges(g, cells + {v}, c)| == |Edges(g, cells, c)| + |Edges(g, {v}, c)|
  {
    var old_, own := Edges(g, cells, c), Edges(g, {v}, c);
    assert Edges(g, cells + {v}, c) == old_ + own;
    assert old_ !! own;
  }

  // ----- Looking around one cell -----

  /** The four cells next to `p`, in the order of `DELTAS`. */
  function Around(p: Pos): (ns: seq<Pos>)
    ensures forall n :: n in ns <==> Adjacent(p, n)
  {
    [Plus(p, DELTAS[0]), Plus(p, DELTAS[1]), Plus(p, DELTAS[2]), Plus(p, DELTAS[3])]
  }

  /** The same-plant neighbours of `v` found by the first `k` steps. */
  ghost function SameAround(g: Grid, v: Pos, c: char, k: nat): seq<Pos>
    requires k <= 4
  {
    if k == 0 then []
    else SameAround(g, v, c, k - 1) + if At(g, Plus(v, DELTAS[k - 1])) == Some(c) then [Plus(v, DELTAS[k - 1])] else []
  }

  /** The fence pieces of `v` found by the first `k` steps. */
  ghost function OwnEdges(g: Grid, v: Pos, c: char, k: nat): set<Edge>
    requires k <= 4
  {
    if k == 0 then {}
    else OwnEdges(g, v, c, k - 1) + if At(g, Plus(v, DELTAS[k - 1])) == Some(c) then {} else {(Plus(v, DELTAS[k - 1]), DELTAS[k - 1])}
  }

  /** A step not yet taken has found no fence piece. */
  lemma {:induction false} OwnEdgesLater(g: Grid, v: Pos, c: char, k: nat)
    requires k < 4
    ensures (Plus(v, DELTAS[k]), DELTAS[k]) !in OwnEdges(g, v, c, k)
  {
    if k > 0 {
      OwnEdgesLater(g, v, c, k - 1);
      if k > 1 {
        OwnEdgesLater(g, v, c, k - 2);
      }
      if k > 2 {
        OwnEdgesLater(g, v, c, k - 3);
      }
    }
  }

  /** What the first `k` steps find: the neighbours of plant `c`, and the fence pieces towards other cells. */
  lemma {:induction false} StepsFind(g: Grid, v: Pos, c: char, k: nat)
    requires k <= 4
    ensures forall n :: n in SameAround(g, v, c, k) <==> (exists j :: 0 <= j < k && n == Plus(v, DELTAS[j])) && At(g, n) == Some(c)
    ensures forall e :: e in OwnEdges(g, v, c, k) <==> (exists j :: 0 <= j < k && e == (Plus(v, DELTAS[j]), DELTAS[j])) && At(g, e.0) != Some(c)
  {
    if k > 0 {
      StepsFind(g, v, c, k - 1);
      forall n
        ensures n in SameAround(g, v, c, k) <==> (exists j :: 0 <= j < k && n == Plus(v, DELTAS[j])) && At(g, n) == Some(c)
      {
        if n == Plus(v, DELTAS[k - 1]) && At(g, n) == Some(c) {
          assert n in SameAround(g, v, c, k);
        }
      }
      forall e
        ensures e in OwnEdges(g, v, c, k) <==> (exists j :: 0 <= j < k && e == (Plus(v, DELTAS[j]), DELTAS[j])) && At(g, e.0) != Some(c)
      {
        if e == (Plus(v, DELTAS[k - 1]), DELTAS[k - 1]) && At(g, e.0) != Some(c) {
          assert e in OwnEdges(g, v, c, k);
        }
      }
    }
  }

  /** All four steps find exactly the cell's plant neighbours and its whole fence. */
  lemma AllSteps(g: Grid, v: Pos, c: char)
    ensures forall n :: n in SameAround(g, v, c, 4) <==> Adjacent(v, n) && At(g, n) == Some(c)
    ensures OwnEdges(g, v, c, 4) == Edges(g, {v}, c)
  {
    StepsFind(g, v, c, 4);
    forall n | Adjacent(v, n)
      ensures exists j :: 0 <= j < 4 && n == Plus(v, DELTAS[j])
    {
      assert n in Around(v);
    }
    forall e | e in Edges(g, {v}, c)
      ensures e in OwnEdges(g, v, c, 4)
    {
      var d :| d in DIRS && e == (Plus(v, d), d);
      assert d in DELTAS;
    }
  }

  /** Part 1's look at the neighbours of `v`: same-plant neighbours to explore, and the count of fence pieces. */
  method Look(g: Grid, v: Pos, c: char) returns (same: seq<Pos>, walls: nat)
    ensures forall n :: n in same <==> Adjacent(v, n) && At(g, n) == Some(c)
    ensures walls == |Edges(g, {v}, c)|
  {
    same, walls := [], 0;
    for i := 0 to 4
      invariant same == SameAround(g, v, c, i)
      invariant walls == |OwnEdges(g, v, c, i)|
    {
      var n := Plus(v, DELTAS[i]);
      OwnEdgesLater(g, v, c, i);
      if At(g, n) == Some(c) {
        same := same + [n];
      } else {
        walls := walls + 1;
      }
    }
    AllSteps(g, v, c);
  }

  /** Part 2's look at the neighbours of `v`: same-plant neighbours to explore, and the fence pieces themselves. */
  method LookEdges(g: Grid, v: Pos, c: char) returns (same: seq<Pos>, fence: set<Edge>)
    ensures forall n :: n in same <==> Adjacent(v, n) && At(g, n) == Some(c)
    ensures fence == Edges(g, {v}, c)
  {
    same, fence := [], {};
    for i := 0 to 4
      invariant same == SameAround(g, v, c, i)
      invariant fence == OwnEdges(g, v, c, i)
    {
      var n := Plus(v, DELTAS[i]);
      if At(g, n) == Some(c) {
        same := same + [n];
      } else {
        fence := fence + {(n, DELTAS[i])};
      }
    }
    AllSteps(g, v, c);
  }

  // ----- Exploring a region -----

  /** Cells already visited before the search are none of the region's. */
  lemma RegionApart(g: Grid, pos: Pos, visited: set<Pos>)
    requires InGrid(g, pos) && pos !in visited
    requires Closed(Plants(g, g[pos.0][pos.1]), Adjacent, visited)
    ensures Region(g, pos) !! visited
  {
    var plants := Plants(g, g[pos.0][pos.1]);
    AdjacentSymmetric();
    forall x | x in Region(g, pos) && x in visited
      ensures false
    {
      LinkedBack(plants, Adjacent, pos, x);
      ClosedReach(plants, Adjacent, visited, x, pos);
    }
  }

  lemma SplitLast(s: seq<Pos>)
    requires s != []
    ensures s == s[..|s| - 1] + [s[|s| - 1]]
  {
  }

  /** The cells of plant `c` are the cells where `At` finds it. */
  lemma PlantsAt(g: Grid, c: char)
    ensures forall n :: n in Plants(g, c) <==> At(g, n) == Some(c)
  {
  }

  /**
   * A region search from `pos`, part way: `visited` is what was visited
   * before, none of it in the region, together with the region's cells
   * reached so far, and the search of the region goes on from `pending`.
   */
  ghost predicate Exploring(g: Grid, pos: Pos, visited0: set<Pos>, visited: set<Pos>, reached: set<Pos>, pending: seq<Pos>)
    requires InGrid(g, pos)
  {
    && Region(g, pos) !! visited0
    && visited == visited0 + reached
    && Searching(Plants(g, g[pos.0][pos.1]), Adjacent, Region(g, pos), pos, reached, pending)
  }

  lemma ExploreStart(g: Grid, pos: Pos, visited0: set<Pos>)
    requires InGrid(g, pos) && Region(g, pos) !! visited0
    ensures Exploring(g, pos, visited0, visited0, {}, [pos])
  {
    SearchStart(Plants(g, g[pos.0][pos.1]), Adjacent, Region(g, pos), pos);
  }

  /** A cell visited before, by this search or an earlier one, is one this search has reached. */
  lemma ExploreSkip(g: Grid, pos: Pos, visited0: set<Pos>, visited: set<Pos>, reached: set<Pos>, pending: seq<Pos>)
    requires InGrid(g, pos) && pending != [] && Exploring(g, pos, visited0, visited, reached, pending)
    requires pending[|pending| - 1] in visited
    ensures Exploring(g, pos, visited0, visited, reached, pending[..|pending| - 1])
  {
    var rest, v := pending[..|pending| - 1], pending[|pending| - 1];
    assert pending == rest + [v];
    SearchSkip(Plants(g, g[pos.0][pos.1]), Adjacent, Region(g, pos), pos, reached, rest, v);
  }

  /** A new cell of the region reached: the search goes on, and the cell's own fence joins the region's so far. */
  lemma ExploreReach(g: Grid, pos: Pos, visited0: set<Pos>, visited: set<Pos>, reached: set<Pos>, pending: seq<Pos>, v: Pos, same: seq<Pos>)
    requires InGrid(g, pos) && pending != [] && Exploring(g, pos, visited0, visited, reached, pending)
    requires v == pending[|pending| - 1] && v !in visited
    requires forall n :: n in same <==> Adjacent(v, n) && At(g, n) == Some(g[pos.0][pos.1])
    ensures Exploring(g, pos, visited0, visited + {v}, reached + {v}, pending[..|pending| - 1] + same)
    ensures Edges(g, reached + {v}, g[pos.0][pos.1]) == Edges(g, reached, g[pos.0][pos.1]) + Edges(g, {v}, g[pos.0][pos.1])
    ensures |reached + {v}| == |reached| + 1 <= |Region(g, pos)|
  {
    var c := g[pos.0][pos.1];
    var rest := pending[..|pending| - 1];
    assert pending == rest + [v];
    PlantsAt(g, c);
    EdgesAdd(g, reached, v, c);
    SearchReach(Plants(g, c), Adjacent, Region(g, pos), pos, reached, rest, v, same);
    SubsetCard(reached + {v}, Region(g, pos));
  }

  /** Part 1's count of fence pieces grows by the new cell's own. */
  lemma CountEdges(g: Grid, c: char, reached: set<Pos>, v: Pos, perimeter: nat, walls: nat)
    requires v !in reached && perimeter == |Edges(g, reached, c)| && walls == |Edges(g, {v}, c)|
    ensures perimeter + walls == |Edges(g, reached + {v}, c)|
  {
    EdgesAdd(g, reached, v, c);
  }

  /** One round of part 1's search: the cell on top of the stack is skipped when visited, otherwise counted and its neighbours pushed. */
  method ExploreTop(g: Grid, pos: Pos, visited0: set<Pos>, perimeter: nat, area: nat, visited: set<Pos>, ghost reached: set<Pos>, stack: seq<Pos>)
    returns (perimeter': nat, area': nat, visited': set<Pos>, ghost reached': set<Pos>, stack': seq<Pos>)
    requires InGrid(g, pos) && stack != [] && Exploring(g, pos, visited0, visited, reached, stack)
    requires area == |reached| && perimeter == |Edges(g, reached, g[pos.0][pos.1])|
    ensures Exploring(g, pos, visited0, visited', reached', stack')
    ensures area' == |reached'| && perimeter' == |Edges(g, reached', g[pos.0][pos.1])|
    ensures |reached'| <= |Region(g, pos)|
    ensures (reached' == reached && |stack'| < |stack|) || |reached'| > |reached|
  {
    var c := g[pos.0][pos.1];
    var v := stack[|stack| - 1];
    var rest := stack[..|stack| - 1];
    if v in visited {
      ExploreSkip(g, pos, visited0, visited, reached, stack);
      SubsetCard(reached, Region(g, pos));
      return perimeter, area, visited, reached, rest;
    }
    var same, walls := Look(g, v, c);
    ExploreReach(g, pos, visited0, visited, reached, stack, v, same);
    CountEdges(g, c, reached, v, perimeter, walls);
    return perimeter + walls, area + 1, visited + {v}, reached + {v}, rest + same;
  }

  /** With nothing pending the whole region is reached. */
  lemma ExploreDone(g: Grid, pos: Pos, visited0: set<Pos>, visited: set<Pos>, reached: set<Pos>)
    requires InGrid(g, pos) && Exploring(g, pos, visited0, visited, reached, [])
    ensures reached == Region(g, pos) && visited == visited0 + Region(g, pos)
  {
    SearchDone(Plants(g, g[pos.0][pos.1]), Adjacent, Region(g, pos), pos, reached);
  }

  /**
   * Part 1's region search, depth first from `pos`: the region's cells are
   * added to `visited`, and its area and perimeter are counted.
   */
  method ExploreRegion(g: Grid, pos: Pos, visited0: set<Pos>) returns (perimeter: nat, area: nat, visited: set<Pos>)
    requires InGrid(g, pos)
    requires Region(g, pos) !! visited0
    ensures visited == visited0 + Region(g, pos)
    ensures area == |Region(g, pos)|
    ensures perimeter == |Edges(g, Region(g, pos), g[pos.0][pos.1])|
  {
    ExploreStart(g, pos, visited0);
    ghost var reached: set<Pos> := {};
    ghost var region := Region(g, pos);
    var stack := [pos];
    visited, perimeter, area := visited0, 0, 0;
    while stack != []
      invariant Exploring(g, pos, visited0, visited, reached, stack)
      invariant area == |reached| && perimeter == |Edges(g, reached, g[pos.0][pos.1])|
      decreases |region| - |reached|, |stack|
    {
      perimeter, area, visited, reached, stack := ExploreTop(g, pos, visited0, perimeter, area, visited, reached, stack);
    }
    ExploreDone(g, pos, visited0, visited, reached);
  }

  /**
   * Part 2's region search, breadth first from `pos`: the region's cells are
   * added to `visited`, its area is counted and the straight sides of its
   * fence.
   */
  method ExploreSides(g: Grid, pos: Pos, visited0: set<Pos>) returns (sides: nat, area: nat, visited: set<Pos>)
    requires InGrid(g, pos)
    requires Region(g, pos) !! visited0
    ensures visited == visited0 + Region(g, pos)
    ensures area == |Region(g, pos)|
    ensures sides == Count(Edges(g, Region(g, pos), g[pos.0][pos.1]), Touching)
  {
    ExploreStart(g, pos, visited0);
    ghost var reached: set<Pos> := {};
    ghost var region := Region(g, pos);
    var queue := [pos];
    var fence: set<Edge> := {};
    visited, area := visited0, 0;
    while queue != []
      invariant Exploring(g, pos, visited0, visited, reached, queue)
      invariant area == |reached| && fence == Edges(g, reached, g[pos.0][pos.1])
      decreases |region| - |reached|, |queue|
    {
      fence, area, visited, reached, queue := ExploreFront(g, pos, visited0, fence, area, visited, reached, queue);
    }
    ExploreDone(g, pos, visited0, visited, reached);
    sides := CountSides(fence);
  }

  /** One round of part 2's search: the cell at the front of the queue is skipped when visited, otherwise counted with its fence and its neighbours queued. */
  method ExploreFront(g: Grid, pos: Pos, visited0: set<Pos>, fence: set<Edge>, area: nat, visited: set<Pos>, ghost reached: set<Pos>, queue: seq<Pos>)
    returns (fence': set<Edge>, area': nat, visited': set<Pos>, ghost reached': set<Pos>, queue': seq<Pos>)
    requires InGrid(g, pos) && queue != [] && Exploring(g, pos, visited0, visited, reached, queue)
    requires area == |reached| && fence == Edges(g, reached, g[pos.0][pos.1])
    ensures Exploring(g, pos, visited0, visited', reached', queue')
    ensures area' == |reached'| && fence' == Edges(g, reached', g[pos.0][pos.1])
    ensures |reached'| <= |Region(g, pos)|
    ensures (reached' == reached && |queue'| < |queue|) || |reached'| > |reached|
  {
    var c := g[pos.0][pos.1];
    var v := queue[0];
    FrontToBack(g, pos, visited0, visited, reached, queue);
    ghost var rotated := queue[1..] + [v];
    if v in visited {
      ExploreSkip(g, pos, visited0, visited, reached, rotated);
      SubsetCard(reached, Region(g, pos));
      return fence, area, visited, reached, queue[1..];
    }
    var same, own := LookEdges(g, v, c);
    ExploreReach(g, pos, visited0, visited, reached, rotated, v, same);
    return fence + own, area + 1, visited + {v}, reached + {v}, queue[1..] + same;
  }

  /** Taking from the front of the queue is, for the search, the same as taking from the back. */
  lemma FrontToBack(g: Grid, pos: Pos, visited0: set<Pos>, visited: set<Pos>, reached: set<Pos>, pending: seq<Pos>)
    requires InGrid(g, pos) && pending != [] && Exploring(g, pos, visited0, visited, reached, pending)
    ensures Exploring(g, pos, visited0, visited, reached, pending[1..] + [pending[0]])
    ensures (pending[1..] + [pending[0]])[..|pending| - 1] == pending[1..]
    ensures (pending[1..] + [pending[0]])[|pending| - 1] == pending[0]
  {
    assert pending == [pending[0]] + pending[1..];
    SearchRotate(Plants(g, g[pos.0][pos.1]), Adjacent, Region(g, pos), pos, reached, pending[1..], pending[0]);
  }

  // ----- Counting sides -----

  /** Touching pieces of fence face the same way, so a side faces one way throughout. */
  lemma SideFacing(fence: set<Edge>, e: Edge)
    ensures forall x :: x in Component(fence, Touching, e) ==> x in fence && x.1 == e.1
  {
    var facing := set x | x in fence && x.1 == e.1;
    forall x | x in Component(fence, Touching, e)
      ensures x in fence && x.1 == e.1
    {
      LinkedEnds(fence, Touching, e, x);
      ClosedReach(fence, Touching, facing, e, x);
    }
  }

  /**
   * Removing a side part way: the removed pieces belong to the side of `e`,
   * `e` is removed or its cell is still to visit, every stacked cell whose
   * piece facing `e`'s way is in the fence names a piece of the side, and
   * every piece touching a removed one is removed or its cell is stacked.
   */
  ghost predicate Flooding(fence: set<Edge>, side: set<Edge>, e: Edge, removed: set<Edge>, stack: seq<Pos>)
  {
    && removed <= side
    && (e in removed || e.0 in stack)
    && (forall q :: q in stack && (q, e.1) in fence ==> (q, e.1) in side)
    && (forall r, s :: r in removed && s in fence && Touching(r, s) ==> s in removed || s.0 in stack)
  }

  /** The inner loop of the side count: the side of `e` is removed from the fence, piece by piece. */
  method RemoveSide(fence: set<Edge>, e: Edge) returns (rest: set<Edge>)
    requires e in fence
    ensures rest == fence - Component(fence, Touching, e)
  {
    ghost var side := Component(fence, Touching, e);
    SideFacing(fence, e);
    LinkedSelf(fence, Touching, e);
    var delta := e.1;
    rest := fence;
    var stack := [e.0];
    ghost var removed: set<Edge> := {};
    while stack != []
      invariant removed <= fence && rest == fence - removed
      invariant Flooding(fence, side, e, removed, stack)
      decreases |rest|, |stack|
    {
      var q := stack[|stack| - 1];
      SplitLast(stack);
      stack := stack[..|stack| - 1];
      if (q, delta) !in rest {
        FloodSkip(fence, side, e, removed, stack, q);
        continue;
      }
      FloodStep(fence, side, e, removed, stack, q);
      rest := rest - {(q, delta)};
      removed := removed + {(q, delta)};
      stack := stack + Around(q);
    }
    FloodDone(fence, side, e, removed);
  }

  lemma FloodSkip(fence: set<Edge>, side: set<Edge>, e: Edge, removed: set<Edge>, stack: seq<Pos>, q: Pos)
    requires side == Component(fence, Touching, e) && Flooding(fence, side, e, removed, stack + [q])
    requires e in fence && ((q, e.1) in fence ==> (q, e.1) in removed)
    ensures Flooding(fence, side, e, removed, stack)
  {
    SideFacing(fence, e);
    forall r, s | r in removed && s in fence && Touching(r, s)
      ensures s in removed || s.0 in stack
    {
      assert s in removed || s.0 in stack + [q];
      if s.0 == q {
        assert s == (q, e.1);
      }
    }
    forall p | p in stack && (p, e.1) in fence
      ensures (p, e.1) in side
    {
      assert p in stack + [q];
    }
    assert e in removed || e.0 in stack + [q];
    if e.0 == q {
      assert e == (q, e.1);
    }
  }

  lemma FloodStep(fence: set<Edge>, side: set<Edge>, e: Edge, removed: set<Edge>, stack: seq<Pos>, q: Pos)
    requires side == Component(fence, Touching, e) && Flooding(fence, side, e, removed, stack + [q])
    requires (q, e.1) in fence && (q, e.1) !in removed
    ensures (q, e.1) in side
    ensures Flooding(fence, side, e, removed + {(q, e.1)}, stack + Around(q))
  {
    SideFacing(fence, e);
    var r0 := (q, e.1);
    assert q in stack + [q];
    var next := stack + Around(q);
    forall p | p in next && (p, e.1) in fence
      ensures (p, e.1) in side
    {
      if p in Around(q) {
        LinkedStep(fence, Touching, e, r0, (p, e.1));
      } else {
        assert p in stack + [q];
      }
    }
    forall r, s | r in removed + {r0} && s in fence && Touching(r, s)
      ensures s in removed + {r0} || s.0 in next
    {
      if r != r0 {
        assert s in removed || s.0 in stack + [q];
      }
    }
    assert e in removed || e.0 in stack + [q];
  }

  lemma FloodDone(fence: set<Edge>, side: set<Edge>, e: Edge, removed: set<Edge>)
    requires side == Component(fence, Touching, e) && Flooding(fence, side, e, removed, [])
    ensures removed == side
  {
    forall x | x in side
      ensures x in removed
    {
      ClosedReach(fence, Touching, removed, e, x);
    }
  }

  /** The outer loop of the side count: one side per round until the fence is gone. */
  method CountSides(fence: set<Edge>) returns (sides: nat)
    ensures sides == Count(fence, Touching)
  {
    TouchingSymmetric();
    var rest := fence;
    sides := 0;
    while rest != {}
      invariant sides + Count(rest, Touching) == Count(fence, Touching)
      decreases |rest|
    {
      var e :| e in rest;
      CountRemove(rest, Touching, e);
      LinkedSelf(rest, Touching, e);
      var smaller := RemoveSide(rest, e);
      assert e in rest && e !in smaller && smaller <= rest;
      SubsetCard(smaller, rest - {e});
      sides := sides + 1;
      rest := smaller;
    }
  }
  // ----- Pricing every region once -----

  /** `q` comes before `p` in reading order. */
  predicate Earlier(q: Pos, p: Pos)
  {
    q.0 < p.0 || (q.0 == p.0 && q.1 < p.1)
  }

  /** Some cell of `x`'s region comes before `cursor`: a scan up to `cursor` has explored it. */
  ghost predicate Seen(g: Grid, x: Pos, cursor: Pos)
    requires InGrid(g, x)
  {
    exists q :: q in Region(g, x) && Earlier(q, cursor)
  }

  /** `p` is the first cell of its region in reading order, where the scan prices the region. */
  ghost predicate Leader(g: Grid, p: Pos)
    requires InGrid(g, p)
  {
    !Seen(g, p, p)
  }

  /** Part 1 prices a region by its fence pieces, part 2 by its sides. */
  datatype Pricing = ByPerimeter | BySides

  /** A region's price: its fence measure times its area. */
  function Cost(measure: nat, area: nat): nat
  {
    measure * area
  }

  ghost function Price(g: Grid, p: Pos, how: Pricing): nat
    requires InGrid(g, p)
  {
    var fence := Edges(g, Region(g, p), g[p.0][p.1]);
    Cost(if how == ByPerimeter then |fence| else Count(fence, Touching), |Region(g, p)|)
  }

  /** The prices of the regions led by the first `cols` cells of row `row`. */
  ghost function RowTotal(g: Grid, how: Pricing, row: nat, cols: nat): nat
    requires row < |g| && cols <= |g[row]|
  {
    if cols == 0 then 0
    else RowTotal(g, how, row, cols - 1) + if Leader(g, (row, cols - 1)) then Price(g, (row, cols - 1), how) else 0
  }

  /** The prices of the regions led by cells of the first `rows` rows. */
  ghost function GridTotal(g: Grid, how: Pricing, rows: nat): nat
    requires rows <= |g|
  {
    if rows == 0 then 0 else GridTotal(g, how, rows - 1) + RowTotal(g, how, rows - 1, |g[rows - 1]|)
  }

  /** The answer: the price of every region, each priced once at its leader. */
  ghost function Total(g: Grid, how: Pricing): nat
  {
    GridTotal(g, how, |g|)
  }

  /** Every region has exactly one leader. */
  lemma LeaderUnique(g: Grid, p: Pos, q: Pos)
    requires InGrid(g, p) && InGrid(g, q) && Leader(g, p) && Leader(g, q) && q in Region(g, p)
    ensures p == q
  {
    RegionSym(g, p, q);
    RegionHas(g, p);
    RegionHas(g, q);
  }

  lemma {:induction false} FirstCell(s: set<Pos>) returns (m: Pos)
    requires s != {}
    ensures m in s && forall q :: q in s ==> !Earlier(q, m)
    decreases |s|
  {
    var x :| x in s;
    if s == {x} {
      m := x;
    } else {
      var m' := FirstCell(s - {x});
      m := if Earlier(x, m') then x else m';
      forall q | q in s
        ensures !Earlier(q, m)
      {
        if q != x {
          assert q in s - {x};
        }
      }
    }
  }

  lemma LeaderExists(g: Grid, p: Pos) returns (m: Pos)
    requires InGrid(g, p)
    ensures m in Region(g, p) && InGrid(g, m) && Leader(g, m)
  {
    RegionHas(g, p);
    m := FirstCell(Region(g, p));
    RegionSym(g, p, m);
  }

  /**
   * The scan so far, up to `cursor`: a cell is visited exactly when a cell of
   * its region comes before the cursor.
   */
  ghost predicate Scanned(g: Grid, visited: set<Pos>, cursor: Pos)
  {
    forall x :: x in visited <==> InGrid(g, x) && Seen(g, x, cursor)
  }

  /** An unvisited cell leads its region, which is unvisited; exploring the region moves the scan on. */
  lemma ScanLeader(g: Grid, visited: set<Pos>, p: Pos)
    requires InGrid(g, p) && Scanned(g, visited, p) && p !in visited
    ensures Leader(g, p) && Region(g, p) !! visited
    ensures Scanned(g, visited + Region(g, p), (p.0, p.1 + 1))
  {
    RegionHas(g, p);
    forall x | x in Region(g, p) && x in visited
      ensures false
    {
      RegionSym(g, p, x);
    }
    forall x
      ensures x in visited + Region(g, p) <==> InGrid(g, x) && Seen(g, x, (p.0, p.1 + 1))
    {
      if x in visited {
        var q :| q in Region(g, x) && Earlier(q, p);
        assert Earlier(q, (p.0, p.1 + 1));
      } else if x in Region(g, p) {
        RegionSym(g, p, x);
        assert Earlier(p, (p.0, p.1 + 1));
      } else if InGrid(g, x) && Seen(g, x, (p.0, p.1 + 1)) {
        var q :| q in Region(g, x) && Earlier(q, (p.0, p.1 + 1));
        if q == p {
          RegionSym(g, x, p);
          RegionSym(g, p, x);
        } else {
          assert Seen(g, x, p);
        }
      }
    }
  }

  /** A visited cell does not lead its region; the scan moves on with nothing new. */
  lemma ScanSkip(g: Grid, visited: set<Pos>, p: Pos)
    requires InGrid(g, p) && Scanned(g, visited, p) && p in visited
    ensures !Leader(g, p)
    ensures Scanned(g, visited, (p.0, p.1 + 1))
  {
    forall x
      ensures x in visited <==> InGrid(g, x) && Seen(g, x, (p.0, p.1 + 1))
    {
      if x in visited {
        var q :| q in Region(g, x) && Earlier(q, p);
        assert Earlier(q, (p.0, p.1 + 1));
      } else if InGrid(g, x) && Seen(g, x, (p.0, p.1 + 1)) {
        var q :| q in Region(g, x) && Earlier(q, (p.0, p.1 + 1));
        if q == p {
          RegionSym(g, x, p);
        } else {
          assert Seen(g, x, p);
        }
      }
    }
  }

  /** The end of a row is the start of the next one: all cells of the grid compare alike against both. */
  lemma ScanRow(g: Grid, visited: set<Pos>, row: nat)
    requires row < |g| && Scanned(g, visited, (row, |g[row]|))
    ensures Scanned(g, visited, (row + 1, 0))
  {
    forall x | InGrid(g, x)
      ensures Seen(g, x, (row, |g[row]|)) <==> Seen(g, x, (row + 1, 0))
    {
      RegionHas(g, x);
      if Seen(g, x, (row + 1, 0)) {
        var q :| q in Region(g, x) && Earlier(q, (row + 1, 0));
        assert Earlier(q, (row, |g[row]|));
      }
    }
  }

  /**
   * The scan up to cell (`row`, `col`): `visited` as `Scanned` says, and
   * `total` the price of the regions led by the cells before it.
   */
  ghost predicate Priced(g: Grid, how: Pricing, visited: set<Pos>, row: nat, col: nat, total: nat)
    requires row < |g| && col <= |g[row]|
  {
    Scanned(g, visited, (row, col)) && total == GridTotal(g, how, row) + RowTotal(g, how, row, col)
  }

  /** A visited cell adds nothing. */
  lemma PriceSkip(g: Grid, how: Pricing, visited: set<Pos>, row: nat, col: nat, total: nat)
    requires row < |g| && col < |g[row]| && Priced(g, how, visited, row, col, total) && (row, col) in visited
    ensures Priced(g, how, visited, row, col + 1, total)
  {
    ScanSkip(g, visited, (row, col));
  }

  /** An unvisited cell's region is unvisited, and exploring it adds its price. */
  lemma PriceLeader(g: Grid, how: Pricing, visited: set<Pos>, row: nat, col: nat, total: nat)
    requires row < |g| && col < |g[row]| && Priced(g, how, visited, row, col, total) && (row, col) !in visited
    ensures Region(g, (row, col)) !! visited
    ensures Priced(g, how, visited + Region(g, (row, col)), row, col + 1, total + Price(g, (row, col), how))
  {
    ScanLeader(g, visited, (row, col));
  }

  /** The end of a row is the start of the next. */
  lemma PriceRow(g: Grid, how: Pricing, visited: set<Pos>, row: nat, total: nat)
    requires row < |g| && Priced(g, how, visited, row, |g[row]|, total)
    ensures row + 1 < |g| ==> Priced(g, how, visited, row + 1, 0, total)
    ensures total == GridTotal(g, how, row + 1)
  {
    ScanRow(g, visited, row);
  }

  /** Part 1's scan: every cell in reading order, each unvisited one exploring and pricing its region. */
  method Part1Total(g: Grid) returns (total: nat)
    ensures total == Total(g, ByPerimeter)
  {
    var visited: set<Pos> := {};
    total := 0;
    for row := 0 to |g|
      invariant total == GridTotal(g, ByPerimeter, row)
      invariant row < |g| ==> Priced(g, ByPerimeter, visited, row, 0, total)
    {
      for col := 0 to |g[row]|
        invariant Priced(g, ByPerimeter, visited, row, col, total)
      {
        if (row, col) in visited {
          PriceSkip(g, ByPerimeter, visited, row, col, total);
        } else {
          PriceLeader(g, ByPerimeter, visited, row, col, total);
          var perimeter, area, now := ExploreRegion(g, (row, col), visited);
          total := total + Cost(perimeter, area);
          visited := now;
        }
      }
      PriceRow(g, ByPerimeter, visited, row, total);
    }
  }

  /** Part 2's scan: the same, pricing each region by its sides. */
  method Part2Total(g: Grid) returns (total: nat)
    ensures total == Total(g, BySides)
  {
    var visited: set<Pos> := {};
    total := 0;
    for row := 0 to |g|
      invariant total == GridTotal(g, BySides, row)
      invariant row < |g| ==> Priced(g, BySides, visited, row, 0, total)
    {
      for col := 0 to |g[row]|
        invariant Priced(g, BySides, visited, row, col, total)
      {
        if (row, col) in visited {
          PriceSkip(g, BySides, visited, row, col, total);
        } else {
          PriceLeader(g, BySides, visited, row, col, total);
          var sides, area, now := ExploreSides(g, (row, col), visited);
          total := total + Cost(sides, area);
          visited := now;
        }
      }
      PriceRow(g, BySides, visited, row, total);
    }
  }
}

/** Reading the puzzle input as a grid and pricing it. */
module Day12Input {
  import opened Wrappers
  import opened Grids
  import opened Day12
  /** Part 1: the total price by area and perimeter, or `None` when the input is not a grid. */
  method Part1(lines: seq<string>) returns (r: Option<nat>)
    ensures r.None? <==> ParseGrid(lines).None?
    ensures r.Some? ==> r.value == Total(ParseGrid(lines).value, ByPerimeter)
  {
    var parsed := ParseGrid(lines);
    if parsed.None? {
      return None;
    }
    var total := Part1Total(parsed.value);
    return Some(total);
  }

  /** Part 2: the total price by area and sides, or `None` when the input is not a grid. */
  method Part2(lines: seq<string>) returns (r: Option<nat>)
    ensures r.None? <==> ParseGrid(lines).None?
    ensures r.Some? ==> r.value == Total(ParseGrid(lines).value, BySides)
  {
    var parsed := ParseGrid(lines);
    if parsed.None? {
      return None;
    }
    var total := Part2Total(parsed.value);
    return Some(total);
  }
}
