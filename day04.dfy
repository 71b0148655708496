/**
 * Day 4: a word search. Part 1 counts the ways `XMAS` can be read from a
 * cell in one of the directions of the 3x3 neighbourhood; part 2 counts the
 * `A` cells crossed by two diagonal `MAS` words.
 */
module Day04 {
  import opened Wrappers
  import opened Grids

  const WORD: string := "XMAS"

  /**
   * `XMAS` reads from (`row`, `col`) stepping by (`dr`, `dc`). A position off
   * the grid matches nothing; a negative one, which wraps round in the
   * source's unsigned arithmetic, is off the grid too.
   */
  predicate WordAt(g: Grid, row: int, col: int, dr: int, dc: int)
  {
    forall i :: 0 <= i < 4 ==> Step(g, row, col, dr, dc, i) == Some(WORD[i])
  }

  /** The cell `i` steps of (`dr`, `dc`) away from (`row`, `col`). */
  function Step(g: Grid, row: int, col: int, dr: int, dc: int, i: int): Option<char>
  {
    Get(g, row + i * dr, col + i * dc)
  }

  /** Every cell and direction from which `XMAS` reads. */
  function Matches(g: Grid): set<(int, int, int, int)>
  {
    set row, col, dr, dc | 0 <= row < |g| && 0 <= col < |g[row]| && -1 <= dr <= 1 && -1 <= dc <= 1 &&
                           WordAt(g, row, col, dr, dc) :: (row, col, dr, dc)
  }

  /** Part 1 answers zero exactly when `XMAS` reads from no cell in any direction, and never on a grid without an `X`. */
  function Part1(g: Grid): (r: nat)
    ensures r > 0 <==> exists row, col, dr, dc :: 0 <= row < |g| && 0 <= col < |g[row]| && -1 <= dr <= 1 && -1 <= dc <= 1 &&
                                             WordAt(g, row, col, dr, dc)
    ensures r > 0 ==> exists row, col :: 0 <= row < |g| && 0 <= col < |g[row]| && g[row][col] == 'X'
  {
    AnyMatch(g);
    |Matches(g)|
  }

  lemma AnyMatch(g: Grid)
    ensures |Matches(g)| > 0 <==> exists row, col, dr, dc :: 0 <= row < |g| && 0 <= col < |g[row]| && -1 <= dr <= 1 && -1 <= dc <= 1 &&
                                                        WordAt(g, row, col, dr, dc)
    ensures |Matches(g)| > 0 ==> exists row, col :: 0 <= row < |g| && 0 <= col < |g[row]| && g[row][col] == 'X'
  {
    if |Matches(g)| > 0 {
      var m :| m in Matches(g);
      MatchShape(g, m.0, m.1, m.2, m.3);
    }
    if exists row, col, dr, dc :: 0 <= row < |g| && 0 <= col < |g[row]| && -1 <= dr <= 1 && -1 <= dc <= 1 &&
                                  WordAt(g, row, col, dr, dc) {
      var row, col, dr, dc :| 0 <= row < |g| && 0 <= col < |g[row]| && -1 <= dr <= 1 && -1 <= dc <= 1 &&
                              WordAt(g, row, col, dr, dc);
      assert (row, col, dr, dc) in Matches(g);
    }
  }

  /** A match covers four cells of the grid, starts on an `X` and never stands still. */
  lemma MatchShape(g: Grid, row: int, col: int, dr: int, dc: int)
    requires (row, col, dr, dc) in Matches(g)
    ensures forall i :: 0 <= i < 4 ==> Inside(g, row + i * dr, col + i * dc)
    ensures g[row][col] == 'X'
    ensures dr != 0 || dc != 0
  {
    assert WordAt(g, row, col, dr, dc);
    assert Step(g, row, col, dr, dc, 0) == Some('X');
    assert Step(g, row, col, dr, dc, 1) == Some('M');
    forall i | 0 <= i < 4
      ensures Inside(g, row + i * dr, col + i * dc)
    {
      assert Step(g, row, col, dr, dc, i).Some?;
    }
  }

  /** `SAMX` reads from (`row`, `col`) stepping by (`dr`, `dc`). */
  predicate ReversedWordAt(g: Grid, row: int, col: int, dr: int, dc: int)
  {
    forall i :: 0 <= i < 4 ==> Step(g, row, col, dr, dc, i) == Some(WORD[3 - i])
  }

  /** `XMAS` reads forwards exactly when `SAMX` reads back from the far end in the opposite direction. */
  lemma WordBackwards(g: Grid, row: int, col: int, dr: int, dc: int)
    ensures WordAt(g, row, col, dr, dc) <==> ReversedWordAt(g, row + 3 * dr, col + 3 * dc, -dr, -dc)
  {
    var endRow, endCol, backRow, backCol := row + 3 * dr, col + 3 * dc, -dr, -dc;
    forall i | 0 <= i < 4
      ensures Step(g, endRow, endCol, backRow, backCol, i) == Step(g, row, col, dr, dc, 3 - i)
    {
      assert endRow + i * backRow == row + (3 - i) * dr;
      assert endCol + i * backCol == col + (3 - i) * dc;
    }
    if ReversedWordAt(g, endRow, endCol, backRow, backCol) {
      forall i | 0 <= i < 4
        ensures Step(g, row, col, dr, dc, i) == Some(WORD[i])
      {
        assert Step(g, endRow, endCol, backRow, backCol, 3 - i) == Some(WORD[3 - (3 - i)]);
      }
    }
  }

  // ----- Part 2 -----

  /** The diagonal neighbours in the order up-left, up-right, down-right, down-left. */
  function Corners(g: Grid, row: int, col: int): (r: seq<Option<char>>)
    ensures |r| == 4
  {
    [Get(g, row - 1, col - 1), Get(g, row - 1, col + 1), Get(g, row + 1, col + 1), Get(g, row + 1, col - 1)]
  }

  function Occurrences(s: seq<Option<char>>, x: Option<char>): nat
  {
    if s == [] then 0 else (if s[0] == x then 1 else 0) + Occurrences(s[1..], x)
  }

  /**
   * An `A` whose corners hold two `M` and two `S`, with the first corner
   * equal to the second or the second equal to the third.
   */
  predicate IsCross(g: Grid, row: int, col: int)
  {
    var corners := Corners(g, row, col);
    && Get(g, row, col) == Some('A')
    && (corners[0] == corners[1] || corners[1] == corners[2])
    && Occurrences(corners, Some('M')) == 2
    && Occurrences(corners, Some('S')) == 2
  }

  /** `a` and `b` are one `M` and one `S`, in either order. */
  predicate MasEnds(a: Option<char>, b: Option<char>)
  {
    (a == Some('M') && b == Some('S')) || (a == Some('S') && b == Some('M'))
  }

  /** The source's test is exactly: both diagonals through the `A` read `MAS` one way or the other. */
  lemma IsCrossMeans(g: Grid, row: int, col: int)
    ensures IsCross(g, row, col) <==>
            Get(g, row, col) == Some('A') &&
            MasEnds(Get(g, row - 1, col - 1), Get(g, row + 1, col + 1)) &&
            MasEnds(Get(g, row - 1, col + 1), Get(g, row + 1, col - 1))
  {
    var c := Corners(g, row, col);
    OccurrencesOfFour(c, Some('M'));
    OccurrencesOfFour(c, Some('S'));
  }

  lemma OccurrencesOfFour(c: seq<Option<char>>, x: Option<char>)
    requires |c| == 4
    ensures Occurrences(c, x) ==
            (if c[0] == x then 1 else 0) + (if c[1] == x then 1 else 0) +
            (if c[2] == x then 1 else 0) + (if c[3] == x then 1 else 0)
  {
    var c1 := c[1..];
    var c2 := c1[1..];
    var c3 := c2[1..];
    assert c3[1..] == [];
    assert Occurrences(c3, x) == (if c[3] == x then 1 else 0);
    assert Occurrences(c2, x) == (if c[2] == x then 1 else 0) + Occurrences(c3, x);
    assert Occurrences(c1, x) == (if c[1] == x then 1 else 0) + Occurrences(c2, x);
  }

  /** Part 2 answers zero exactly when no `A` has both of its diagonals reading `MAS`, either way round. */
  function Part2(g: Grid): (r: nat)
    ensures r > 0 <==> exists row, col :: 0 <= row < |g| && 0 <= col < |g[row]| && g[row][col] == 'A' &&
                                         MasEnds(Get(g, row - 1, col - 1), Get(g, row + 1, col + 1)) &&
                                         MasEnds(Get(g, row - 1, col + 1), Get(g, row + 1, col - 1))
  {
    var crosses := set row, col | 0 <= row < |g| && 0 <= col < |g[row]| && IsCross(g, row, col) :: (row, col);
    AnyCross(g, crosses);
    |crosses|
  }

  lemma AnyCross(g: Grid, crosses: set<(int, int)>)
    requires crosses == set row, col | 0 <= row < |g| && 0 <= col < |g[row]| && IsCross(g, row, col) :: (row, col)
    ensures |crosses| > 0 <==> exists row, col :: 0 <= row < |g| && 0 <= col < |g[row]| && g[row][col] == 'A' &&
                                                 MasEnds(Get(g, row - 1, col - 1), Get(g, row + 1, col + 1)) &&
                                                 MasEnds(Get(g, row - 1, col + 1), Get(g, row + 1, col - 1))
  {
    if |crosses| > 0 {
      var c :| c in crosses;
      IsCrossMeans(g, c.0, c.1);
    }
    if exists row, col :: 0 <= row < |g| && 0 <= col < |g[row]| && g[row][col] == 'A' &&
                          MasEnds(Get(g, row - 1, col - 1), Get(g, row + 1, col + 1)) &&
                          MasEnds(Get(g, row - 1, col + 1), Get(g, row + 1, col - 1)) {
      var row, col :| 0 <= row < |g| && 0 <= col < |g[row]| && g[row][col] == 'A' &&
                      MasEnds(Get(g, row - 1, col - 1), Get(g, row + 1, col + 1)) &&
                      MasEnds(Get(g, row - 1, col + 1), Get(g, row + 1, col - 1));
      IsCrossMeans(g, row, col);
      assert (row, col) in crosses;
    }
  }
}
