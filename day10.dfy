/**
 * Day 10: hiking trails on a height map, one height per character. A trail starts
 * at a cell of height 0 and climbs by exactly one with every orthogonal
 * step until it reaches height 9. Part 1 scores a trailhead by the number
 * of height-9 cells it can reach, part 2 rates it by the number of
 * distinct trails from it; each part adds up over all trailheads.
 */
module Day10 {
  import opened Wrappers
  import opened Text
  import opened Grids
  import opened Sets
  import opened Graphs

  /** A cell as (row, column). */
  type Pos = (int, int)

  /** The height of every cell, row by row. */
  type Heights = seq<seq<nat>>

  /** The four unit steps, the order a search tries them in. */
  const DELTAS: seq<Pos> := [(-1, 0), (0, 1), (1, 0), (0, -1)]

  function Plus(p: Pos, d: Pos): Pos
  {
    (p.0 + d.0, p.1 + d.1)
  }

  /** Heights stay below the value of the first non-ASCII character. */
  const HEIGHT_LIMIT: nat := 128 - '0' as nat

  /** Every height is the value of an ASCII character at or above `0`. */
  predicate Bounded(g: Heights)
  {
    forall r, c :: 0 <= r < |g| && 0 <= c < |g[r]| ==> g[r][c] < HEIGHT_LIMIT
  }

  // ----- Reading the map -----

  /**
   * A character whose byte the source can turn into a height: `c - b'0'`
   * underflows (a panic) below `'0'`, and non-ASCII characters are not
   * modelled. A digit is one, and so is every letter and `:`.
   */
  predicate HeightChar(c: char)
  {
    '0' <= c && c as int < 128
  }

  /** The height the source reads from `c`: its code minus that of `'0'`. */
  function HeightValue(c: char): (h: nat)
    requires HeightChar(c)
    ensures h < HEIGHT_LIMIT
    ensures IsDigit(c) ==> h == DigitValue(c)
    ensures h < 10 <==> IsDigit(c)
  {
    c as int - '0' as int
  }

  /** Every character of the grid can be read as a height. */
  predicate HeightGrid(g: Grid)
  {
    forall r, c :: 0 <= r < |g| && 0 <= c < |g[r]| ==> HeightChar(g[r][c])
  }

  /** Every character of the grid is a decimal digit. */
  predicate DigitGrid(g: Grid)
  {
    forall r, c :: 0 <= r < |g| && 0 <= c < |g[r]| ==> IsDigit(g[r][c])
  }

  /** The heights of a grid of height characters, cell by cell. */
  function HeightsOf(g: Grid): (h: Heights)
    requires HeightGrid(g)
    ensures Bounded(h) && |h| == |g| && forall r :: 0 <= r < |g| ==> |h[r]| == |g[r]|
    ensures forall r, c :: 0 <= r < |g| && 0 <= c < |g[r]| ==> h[r][c] == HeightValue(g[r][c])
  {
    seq(|g|, r requires 0 <= r < |g| => seq(|g[r]|, c requires 0 <= c < |g[r]| => HeightValue(g[r][c])))
  }

  /**
   * The height map the lines spell: the grid their characters fill, with
   * each character read as its code minus that of `'0'`. A grid the
   * characters do not fill, and a character below `'0'` or outside ASCII,
   * give `None`.
   */
  function Parse(lines: seq<string>): (r: Option<Heights>)
    ensures r.Some? <==> ParseGrid(lines).Some? && HeightGrid(ParseGrid(lines).value)
    ensures r.Some? ==> Bounded(r.value)
  {
    match ParseGrid(lines)
    case None => None
    case Some(g) => if HeightGrid(g) then Some(HeightsOf(g)) else None
  }

  /** Lines of digits, all as wide as the first, are read as the heights they spell. */
  lemma ParseDigits(lines: seq<string>)
    requires Rectangular(lines) && DigitGrid(lines)
    ensures Parse(lines).Some? && |Parse(lines).value| == |lines|
    ensures forall r, c :: 0 <= r < |lines| && 0 <= c < |lines[r]| ==> Parse(lines).value[r][c] == DigitValue(lines[r][c])
  {
    ParseRectangular(lines);
  }

  /** A colon is read as height 10, on no trail, and a dot fails, as its byte lies below `'0'`. */
  lemma ColonAndDot()
    ensures Parse(["0:"]) == Some([[0, 10]])
    ensures Parse(["0."]) == None
  {
    ParseRectangular(["0:"]);
    assert HeightGrid(["0:"]);
    var h := HeightsOf(["0:"]);
    assert |h| == 1 && |h[0]| == 2 && h[0][0] == 0 && h[0][1] == 10;
    assert h[0] == [0, 10];
    assert h == [[0, 10]];
    assert Parse(["0:"]) == Some(h);
    ParseRectangular(["0."]);
    assert ParseGrid(["0."]).value[0][1] == '.';
  }

  // ----- Climbing -----

  /** The height at `p`, or `None` off the map. */
  function HeightAt(g: Heights, p: Pos): (r: Option<nat>)
    ensures r.Some? <==> 0 <= p.0 < |g| && 0 <= p.1 < |g[p.0]|
  {
    if 0 <= p.0 < |g| && 0 <= p.1 < |g[p.0]| then Some(g[p.0][p.1]) else None
  }

  predicate Adjacent(a: Pos, b: Pos)
  {
    b == (a.0 - 1, a.1) || b == (a.0, a.1 + 1) || b == (a.0 + 1, a.1) || b == (a.0, a.1 - 1)
  }

  /** A step of a trail: from a cell of the map to a neighbour exactly one higher. */
  predicate Climb(g: Heights, a: Pos, b: Pos)
  {
    Adjacent(a, b) && HeightAt(g, a).Some? && HeightAt(g, b) == Some(HeightAt(g, a).value + 1)
  }

  function Uphill(g: Heights): (Pos, Pos) -> bool
  {
    (a, b) => Climb(g, a, b)
  }

  /** The cells of the map. */
  ghost function Cells(g: Heights): set<Pos>
  {
    set r, c | 0 <= r < |g| && 0 <= c < |g[r]| :: (r, c)
  }

  lemma CellsHeight(g: Heights, p: Pos)
    ensures p in Cells(g) <==> HeightAt(g, p).Some?
  {
    if HeightAt(g, p).Some? {
      assert p == (p.0, p.1);
    }
  }

  /** The cells of height 0, where trails start. */
  function Trailheads(g: Heights): (heads: set<Pos>)
    ensures forall p :: p in heads <==> HeightAt(g, p) == Some(0)
  {
    set r, c | 0 <= r < |g| && 0 <= c < |g[r]| && g[r][c] == 0 :: (r, c)
  }

  /** The neighbours of `v` among the first `k` steps that a trail can climb to. */
  function Ups(g: Heights, v: Pos, k: nat): (ns: seq<Pos>)
    requires k <= 4
    ensures forall n :: n in ns ==> Climb(g, v, n)
  {
    if k == 0 then []
    else
      var n := Plus(v, DELTAS[k - 1]);
      Ups(g, v, k - 1) + (if HeightAt(g, v).Some? && HeightAt(g, n) == Some(HeightAt(g, v).value + 1) then [n] else [])
  }

  lemma UpsAll(g: Heights, v: Pos)
    ensures forall n :: n in Ups(g, v, 4) <==> n in Cells(g) && Climb(g, v, n)
  {
    forall n | Climb(g, v, n)
      ensures n in Ups(g, v, 4)
    {
      assert n in Ups(g, v, 1) || n in Ups(g, v, 2) || n in Ups(g, v, 3) || n in Ups(g, v, 4);
    }
    forall n | Climb(g, v, n)
      ensures n in Cells(g)
    {
      CellsHeight(g, n);
    }
  }

  /** The neighbours of `v` one higher than it, in the order of DELTAS. */
  method Climbs(g: Heights, v: Pos) returns (next: seq<Pos>)
    requires HeightAt(g, v).Some?
    ensures forall n :: n in next <==> n in Cells(g) && Climb(g, v, n)
  {
    var h := g[v.0][v.1];
    next := [];
    for i := 0 to 4
      invariant next == Ups(g, v, i)
    {
      var n := Plus(v, DELTAS[i]);
      if 0 <= n.0 < |g| && 0 <= n.1 < |g[n.0]| && g[n.0][n.1] == h + 1 {
        next := next + [n];
      }
    }
    UpsAll(g, v);
  }

  // ----- Part 1 -----

  /** The cells a trail from `t` can reach. */
  ghost function Reachable(g: Heights, t: Pos): set<Pos>
  {
    Component(Cells(g), Uphill(g), t)
  }

  /** The cells of `s` at height 9. */
  ghost function Nines(g: Heights, s: set<Pos>): set<Pos>
  {
    set p | p in s && HeightAt(g, p) == Some(9)
  }

  /** The score of `t`: the height-9 cells trails from it reach. */
  ghost function ScoreOf(g: Heights): Pos -> nat
  {
    t => |Nines(g, Reachable(g, t))|
  }

  /** Part 1's answer: the scores of all trailheads added up. */
  ghost function TotalScore(g: Heights): nat
  {
    Sum(Trailheads(g), ScoreOf(g))
  }

  /**
   * Part 1's search from `t`, part way: `visited` and `stack` are a search
   * of the cells reachable from `t`, and `score` counts the height-9 cells
   * visited.
   */
  ghost predicate Hiking(g: Heights, t: Pos, visited: set<Pos>, stack: seq<Pos>, score: nat)
  {
    && Searching(Cells(g), Uphill(g), Reachable(g, t), t, visited, stack)
    && score == |Nines(g, visited)|
  }

  /** A new cell counts when it is at height 9. */
  lemma NinesAdd(g: Heights, s: set<Pos>, v: Pos)
    requires v !in s
    ensures |Nines(g, s + {v})| == |Nines(g, s)| + (if HeightAt(g, v) == Some(9) then 1 else 0)
  {
    if HeightAt(g, v) == Some(9) {
      assert Nines(g, s + {v}) == Nines(g, s) + {v};
    } else {
      assert Nines(g, s + {v}) == Nines(g, s);
    }
  }

  /** One round of part 1's search: the cell popped off the stack is skipped when visited, otherwise counted and its climbs pushed. */
  method HikeTop(g: Heights, t: Pos, visited: set<Pos>, stack: seq<Pos>, score: nat)
    returns (visited': set<Pos>, stack': seq<Pos>, score': nat)
    requires stack != [] && Hiking(g, t, visited, stack, score)
    ensures Hiking(g, t, visited', stack', score')
    ensures visited <= visited' <= Reachable(g, t)
    ensures (visited' == visited && |stack'| < |stack|) || |visited'| > |visited|
    ensures visited' == visited || (stack[|stack| - 1] !in visited && visited' == visited + {stack[|stack| - 1]})
  {
    var v := stack[|stack| - 1];
    var rest := stack[..|stack| - 1];
    assert stack == rest + [v];
    if v in visited {
      SearchSkip(Cells(g), Uphill(g), Reachable(g, t), t, visited, rest, v);
      return visited, rest, score;
    }
    assert v in Reachable(g, t);
    CellsHeight(g, v);
    var next := Climbs(g, v);
    SearchReach(Cells(g), Uphill(g), Reachable(g, t), t, visited, rest, v, next);
    NinesAdd(g, visited, v);
    score' := score + if g[v.0][v.1] == 9 then 1 else 0;
    return visited + {v}, rest + next, score';
  }

  /** The score of trailhead `t`: a depth-first search over the climbs from it, each cell visited once. */
  method Score(g: Heights, t: Pos) returns (score: nat)
    requires t in Cells(g)
    ensures score == ScoreOf(g)(t)
  {
    SearchStart(Cells(g), Uphill(g), Reachable(g, t), t);
    var visited: set<Pos> := {};
    var stack := [t];
    score := 0;
    ghost var all := Reachable(g, t);
    while stack != []
      invariant Hiking(g, t, visited, stack, score) && visited <= all
      decreases |all| - |visited|, |stack|
    {
      visited, stack, score := HikeTop(g, t, visited, stack, score);
      SubsetCard(visited, all);
    }
    SearchDone(Cells(g), Uphill(g), Reachable(g, t), t, visited);
  }

  /** Part 1 on a height map: every trailhead's score, added up. */
  method TotalScores(g: Heights) returns (total: nat)
    ensures total == TotalScore(g)
  {
    var heads := Trailheads(g);
    ghost var done: set<Pos> := {};
    total := 0;
    TallyStart(heads, ScoreOf(g));
    while heads != {}
      invariant Tallied(Trailheads(g), heads, done, ScoreOf(g), total)
      decreases |heads|
    {
      var t :| t in heads;
      CellsHeight(g, t);
      var score := Score(g, t);
      TallyStep(Trailheads(g), heads, done, ScoreOf(g), total, t);
      total := total + score;
      done := done + {t};
      heads := heads - {t};
    }
    TallyDone(Trailheads(g), done, ScoreOf(g), total);
  }

  /** Part 1: the total score, or `None` when the lines are not a map of heights. */
  method Part1(lines: seq<string>) returns (r: Option<nat>)
    ensures Parse(lines).None? ==> r.None?
    ensures Parse(lines).Some? ==> r == Some(TotalScore(Parse(lines).value))
  {
    var g := Parse(lines);
    if g.None? {
      return None;
    }
    var total := TotalScores(g.value);
    return Some(total);
  }

  // ----- Part 2 -----

  /** The number of trails from `p` to a height-9 cell. */
  function Rating(g: Heights, p: Pos): nat
    requires Bounded(g) && HeightAt(g, p).Some?
    decreases HEIGHT_LIMIT - HeightAt(g, p).value, 5
  {
    (if g[p.0][p.1] == 9 then 1 else 0) + RatingVia(g, p, 4)
  }

  /** The trails from `p` through its first `k` neighbours. */
  function RatingVia(g: Heights, p: Pos, k: nat): nat
    requires Bounded(g) && HeightAt(g, p).Some? && k <= 4
    decreases HEIGHT_LIMIT - HeightAt(g, p).value, k
  {
    if k == 0 then 0
    else
      var n := Plus(p, DELTAS[k - 1]);
      RatingVia(g, p, k - 1) + if Climb(g, p, n) then Rating(g, n) else 0
  }

  /** Part 2's recursive count of the trails from `p`, one direction at a time. */
  method Explore(g: Heights, p: Pos) returns (rating: nat)
    requires Bounded(g) && HeightAt(g, p).Some?
    ensures rating == Rating(g, p)
    decreases HEIGHT_LIMIT - HeightAt(g, p).value
  {
    var h := g[p.0][p.1];
    rating := if h == 9 then 1 else 0;
    for i := 0 to 4
      invariant rating == (if h == 9 then 1 else 0) + RatingVia(g, p, i)
    {
      var n := Plus(p, DELTAS[i]);
      if 0 <= n.0 < |g| && 0 <= n.1 < |g[n.0]| && g[n.0][n.1] == h + 1 {
        var more := Explore(g, n);
        rating := rating + more;
      }
    }
  }

  /** Part 2 on a height map: every trailhead's rating, added up. */
  ghost function TotalRating(g: Heights): nat
    requires Bounded(g)
  {
    Sum(Trailheads(g), RatingOf(g))
  }

  ghost function RatingOf(g: Heights): Pos -> nat
    requires Bounded(g)
  {
    t => if HeightAt(g, t).Some? then Rating(g, t) else 0
  }

  /** Part 2 on a height map: every trailhead's rating, added up. */
  method TotalRatings(g: Heights) returns (total: nat)
    requires Bounded(g)
    ensures total == TotalRating(g)
  {
    var heads := Trailheads(g);
    ghost var done: set<Pos> := {};
    total := 0;
    TallyStart(heads, RatingOf(g));
    while heads != {}
      invariant Tallied(Trailheads(g), heads, done, RatingOf(g), total)
      decreases |heads|
    {
      var t :| t in heads;
      var rating := Explore(g, t);
      TallyStep(Trailheads(g), heads, done, RatingOf(g), total, t);
      total := total + rating;
      done := done + {t};
      heads := heads - {t};
    }
    TallyDone(Trailheads(g), done, RatingOf(g), total);
  }

  /** Part 2: the total rating, or `None` when the lines are not a map of heights. */
  method Part2(lines: seq<string>) returns (r: Option<nat>)
    ensures Parse(lines).None? ==> r.None?
    ensures Parse(lines).Some? ==> r == Some(TotalRating(Parse(lines).value))
  {
    var g := Parse(lines);
    if g.None? {
      return None;
    }
    var total := TotalRatings(g.value);
    return Some(total);
  }

  // ----- What a rating counts -----

  /** A trail: climbs over the map from its first cell up to a cell of height 9. */
  ghost predicate Trail(g: Heights, ps: seq<Pos>)
  {
    && |ps| > 0 && HeightAt(g, ps[0]).Some?
    && (forall i :: 0 <= i < |ps| - 1 ==> Climb(g, ps[i], ps[i + 1]))
    && HeightAt(g, ps[|ps| - 1]) == Some(9)
  }

  /** No walk is listed twice. */
  ghost predicate NoRepeats(s: seq<seq<Pos>>)
  {
    forall i, j :: 0 <= i < j < |s| ==> s[i] != s[j]
  }

  /** Each of `tails` with `p` in front. */
  ghost function Prefixed(p: Pos, tails: seq<seq<Pos>>): seq<seq<Pos>>
  {
    seq(|tails|, i requires 0 <= i < |tails| => [p] + tails[i])
  }

  /** Every trail from `p`, listed direction by direction. */
  ghost function Trails(g: Heights, p: Pos): seq<seq<Pos>>
    requires Bounded(g) && HeightAt(g, p).Some?
    decreases HEIGHT_LIMIT - HeightAt(g, p).value, 5
  {
    (if g[p.0][p.1] == 9 then [[p]] else []) + TrailsVia(g, p, 4)
  }

  /** The trails from `p` whose first step is one of the first `k`. */
  ghost function TrailsVia(g: Heights, p: Pos, k: nat): seq<seq<Pos>>
    requires Bounded(g) && HeightAt(g, p).Some? && k <= 4
    decreases HEIGHT_LIMIT - HeightAt(g, p).value, k
  {
    if k == 0 then []
    else
      var n := Plus(p, DELTAS[k - 1]);
      TrailsVia(g, p, k - 1) + if Climb(g, p, n) then Prefixed(p, Trails(g, n)) else []
  }

  lemma {:induction false} RatingTrails(g: Heights, p: Pos)
    requires Bounded(g) && HeightAt(g, p).Some?
    ensures Rating(g, p) == |Trails(g, p)|
    decreases HEIGHT_LIMIT - HeightAt(g, p).value, 5
  {
    RatingViaTrails(g, p, 4);
  }

  lemma {:induction false} RatingViaTrails(g: Heights, p: Pos, k: nat)
    requires Bounded(g) && HeightAt(g, p).Some? && k <= 4
    ensures RatingVia(g, p, k) == |TrailsVia(g, p, k)|
    decreases HEIGHT_LIMIT - HeightAt(g, p).value, k
  {
    if k > 0 {
      RatingViaTrails(g, p, k - 1);
      var n := Plus(p, DELTAS[k - 1]);
      if Climb(g, p, n) {
        RatingTrails(g, n);
      }
    }
  }

  /** A trail from `n` with a climb to `n` in front is a trail. */
  lemma TrailCons(g: Heights, p: Pos, t: seq<Pos>)
    requires Trail(g, t) && Climb(g, p, t[0])
    ensures Trail(g, [p] + t)
  {
    var q := [p] + t;
    forall j | 0 <= j < |q| - 1
      ensures Climb(g, q[j], q[j + 1])
    {
      if j > 0 {
        assert q[j] == t[j - 1] && q[j + 1] == t[j];
      }
    }
  }

  /** A trail of more than one cell goes on as a trail from its second cell. */
  lemma TrailTail(g: Heights, q: seq<Pos>)
    requires Trail(g, q) && |q| > 1
    ensures Trail(g, q[1..]) && Climb(g, q[0], q[1])
  {
    var t := q[1..];
    forall j | 0 <= j < |t| - 1
      ensures Climb(g, t[j], t[j + 1])
    {
      assert t[j] == q[j + 1] && t[j + 1] == q[j + 2];
    }
  }

  lemma {:induction false} TrailsSound(g: Heights, p: Pos)
    requires Bounded(g) && HeightAt(g, p).Some?
    ensures forall q :: q in Trails(g, p) ==> Trail(g, q) && q[0] == p
    decreases HEIGHT_LIMIT - HeightAt(g, p).value, 5
  {
    TrailsViaSound(g, p, 4);
  }

  lemma {:induction false} TrailsViaSound(g: Heights, p: Pos, k: nat)
    requires Bounded(g) && HeightAt(g, p).Some? && k <= 4
    ensures forall q :: q in TrailsVia(g, p, k) ==> Trail(g, q) && q[0] == p
    decreases HEIGHT_LIMIT - HeightAt(g, p).value, k
  {
    if k > 0 {
      TrailsViaSound(g, p, k - 1);
      var n := Plus(p, DELTAS[k - 1]);
      if Climb(g, p, n) {
        TrailsSound(g, n);
        var tails := Trails(g, n);
        forall q | q in Prefixed(p, tails)
          ensures Trail(g, q) && q[0] == p
        {
          var i :| 0 <= i < |tails| && q == [p] + tails[i];
          assert tails[i] in tails;
          TrailCons(g, p, tails[i]);
        }
      }
    }
  }

  /** The step from `p` to a neighbour `n` is one of the four. */
  lemma Direction(p: Pos, n: Pos) returns (k: nat)
    requires Adjacent(p, n)
    ensures k < 4 && n == Plus(p, DELTAS[k])
  {
    if n == (p.0 - 1, p.1) {
      k := 0;
    } else if n == (p.0, p.1 + 1) {
      k := 1;
    } else if n == (p.0 + 1, p.1) {
      k := 2;
    } else {
      k := 3;
    }
  }

  /** A trail that starts with the `k`-th step is listed among those through the first `j > k` steps. */
  lemma {:induction false} ViaHas(g: Heights, p: Pos, k: nat, j: nat, tail: seq<Pos>)
    requires Bounded(g) && HeightAt(g, p).Some? && k < j <= 4
    requires Climb(g, p, Plus(p, DELTAS[k])) && tail in Trails(g, Plus(p, DELTAS[k]))
    ensures [p] + tail in TrailsVia(g, p, j)
    decreases j
  {
    if j == k + 1 {
      var tails := Trails(g, Plus(p, DELTAS[k]));
      var i :| 0 <= i < |tails| && tails[i] == tail;
      assert Prefixed(p, tails)[i] == [p] + tail;
    } else {
      ViaHas(g, p, k, j - 1, tail);
    }
  }

  lemma {:induction false} TrailsComplete(g: Heights, q: seq<Pos>)
    requires Bounded(g) && Trail(g, q)
    ensures q in Trails(g, q[0])
    decreases |q|
  {
    var p := q[0];
    if |q| == 1 {
      assert q == [p];
    } else {
      TrailTail(g, q);
      TrailsComplete(g, q[1..]);
      var k := Direction(p, q[1]);
      ViaHas(g, p, k, 4, q[1..]);
      assert q == [p] + q[1..];
    }
  }

  lemma PrefixedNoRepeats(p: Pos, tails: seq<seq<Pos>>)
    requires NoRepeats(tails)
    ensures NoRepeats(Prefixed(p, tails))
  {
    var r := Prefixed(p, tails);
    forall i, j | 0 <= i < j < |r|
      ensures r[i] != r[j]
    {
      assert r[i][1..] == tails[i] && r[j][1..] == tails[j];
    }
  }

  lemma AppendNoRepeats(a: seq<seq<Pos>>, b: seq<seq<Pos>>)
    requires NoRepeats(a) && NoRepeats(b) && forall x :: x in a ==> x !in b
    ensures NoRepeats(a + b)
  {
    var c := a + b;
    forall i, j | 0 <= i < j < |c|
      ensures c[i] != c[j]
    {
      if i < |a| && j >= |a| {
        assert c[i] in a && c[j] == b[j - |a|];
      } else if i >= |a| {
        assert c[i] == b[i - |a|] && c[j] == b[j - |a|];
      }
    }
  }

  /** The first `k` steps from `p`. */
  ghost function FirstSteps(p: Pos, k: nat): set<Pos>
    requires k <= 4
  {
    set j | 0 <= j < k :: Plus(p, DELTAS[j])
  }

  lemma {:induction false} TrailsDistinct(g: Heights, p: Pos)
    requires Bounded(g) && HeightAt(g, p).Some?
    ensures NoRepeats(Trails(g, p))
    decreases HEIGHT_LIMIT - HeightAt(g, p).value, 5
  {
    TrailsViaDistinct(g, p, 4);
    AppendNoRepeats(if g[p.0][p.1] == 9 then [[p]] else [], TrailsVia(g, p, 4));
  }

  lemma {:induction false} TrailsViaDistinct(g: Heights, p: Pos, k: nat)
    requires Bounded(g) && HeightAt(g, p).Some? && k <= 4
    ensures NoRepeats(TrailsVia(g, p, k))
    ensures forall q :: q in TrailsVia(g, p, k) ==> |q| > 1 && q[1] in FirstSteps(p, k)
    decreases HEIGHT_LIMIT - HeightAt(g, p).value, k
  {
    if k > 0 {
      TrailsViaDistinct(g, p, k - 1);
      var n := Plus(p, DELTAS[k - 1]);
      if Climb(g, p, n) {
        var tails := Trails(g, n);
        TrailsDistinct(g, n);
        TrailsSound(g, n);
        StepThrough(g, p, n, tails);
        NewStep(p, k);
        AppendSteps(TrailsVia(g, p, k - 1), Prefixed(p, tails), FirstSteps(p, k - 1), n);
      }
    }
  }

  /** Walks whose second cells differ are different walks. */
  lemma AppendSteps(a: seq<seq<Pos>>, b: seq<seq<Pos>>, steps: set<Pos>, n: Pos)
    requires NoRepeats(a) && NoRepeats(b) && n !in steps
    requires forall q :: q in a ==> |q| > 1 && q[1] in steps
    requires forall q :: q in b ==> |q| > 1 && q[1] == n
    ensures NoRepeats(a + b)
    ensures forall q :: q in a + b ==> |q| > 1 && q[1] in steps + {n}
  {
    AppendNoRepeats(a, b);
  }

  /** Distinct trails from `n` stay distinct with `p` in front, and all go from `p` to `n`. */
  lemma StepThrough(g: Heights, p: Pos, n: Pos, tails: seq<seq<Pos>>)
    requires NoRepeats(tails) && forall t :: t in tails ==> Trail(g, t) && t[0] == n
    ensures NoRepeats(Prefixed(p, tails))
    ensures forall q :: q in Prefixed(p, tails) ==> |q| > 1 && q[1] == n
  {
    PrefixedNoRepeats(p, tails);
    forall q | q in Prefixed(p, tails)
      ensures |q| > 1 && q[1] == n
    {
      var i :| 0 <= i < |tails| && q == [p] + tails[i];
      assert tails[i] in tails;
    }
  }

  /** The `k`-th step is new among the first `k`, and the first steps only grow. */
  lemma NewStep(p: Pos, k: nat)
    requires 0 < k <= 4
    ensures Plus(p, DELTAS[k - 1]) !in FirstSteps(p, k - 1)
    ensures FirstSteps(p, k) == FirstSteps(p, k - 1) + {Plus(p, DELTAS[k - 1])}
  {
  }

  /**
   * A rating counts the trails from its cell: the listed walks are exactly
   * the trails from `p`, none twice, and there are as many as the rating.
   */
  lemma RatingCountsTrails(g: Heights, p: Pos)
    requires Bounded(g) && HeightAt(g, p).Some?
    ensures Rating(g, p) == |Trails(g, p)| && NoRepeats(Trails(g, p))
    ensures forall q :: q in Trails(g, p) <==> Trail(g, q) && q[0] == p
  {
    RatingTrails(g, p);
    TrailsDistinct(g, p);
    TrailsSound(g, p);
    forall q | Trail(g, q) && q[0] == p
      ensures q in Trails(g, p)
    {
      TrailsComplete(g, q);
    }
  }
}
