/**
 * Character grids as the puzzles read them: the lines' bytes, newlines
 * dropped, reshaped into as many rows as there are lines, each as wide as
 * the first line. Cells are addressed by row and column.
 */
module Grids {
  import opened Wrappers

  type Grid = seq<string>

  /** Every row as wide as the first, and at least one row. */
  predicate Rectangular(g: Grid)
  {
    |g| > 0 && forall i :: 0 <= i < |g| ==> |g[i]| == |g[0]|
  }

  function Concat(lines: seq<string>): (s: string)
  {
    if lines == [] then [] else Concat(lines[..|lines| - 1]) + lines[|lines| - 1]
  }

  /** `flat` cut into `n` rows of `width` characters. */
  function Chunks(flat: string, width: nat, n: nat): (rows: seq<string>)
    requires |flat| == n * width
    ensures |rows| == n && forall i :: 0 <= i < n ==> |rows[i]| == width
  {
    if n == 0 then []
    else
      assert |flat[width..]| == (n - 1) * width;
      [flat[..width]] + Chunks(flat[width..], width, n - 1)
  }

  /**
   * The grid the lines make. There must be a first line, and the number of
   * characters must fill the shape exactly; lines of different widths are
   * cut again at the first line's width.
   */
  function ParseGrid(lines: seq<string>): (r: Option<Grid>)
    ensures r.Some? ==> |r.value| == |lines| && forall i :: 0 <= i < |lines| ==> |r.value[i]| == |lines[0]|
  {
    if lines == [] || |Concat(lines)| != |lines| * |lines[0]| then None
    else Some(Chunks(Concat(lines), |lines[0]|, |lines|))
  }

  lemma {:induction false} ConcatLength(lines: seq<string>, width: nat)
    requires forall i :: 0 <= i < |lines| ==> |lines[i]| == width
    ensures |Concat(lines)| == |lines| * width
  {
    if lines != [] {
      ConcatLength(lines[..|lines| - 1], width);
    }
  }

  lemma {:induction false} ConcatFront(lines: seq<string>)
    requires lines != []
    ensures Concat(lines) == lines[0] + Concat(lines[1..])
  {
    if |lines| > 1 {
      ConcatFront(lines[..|lines| - 1]);
      assert lines[..|lines| - 1][1..] == lines[1..][..|lines[1..]| - 1];
    } else {
      assert lines[1..] == [];
    }
  }

  lemma {:induction false} ChunksOfRows(lines: seq<string>, width: nat)
    requires forall i :: 0 <= i < |lines| ==> |lines[i]| == width
    ensures |Concat(lines)| == |lines| * width
    ensures Chunks(Concat(lines), width, |lines|) == lines
  {
    ConcatLength(lines, width);
    if lines != [] {
      ConcatFront(lines);
      var flat := Concat(lines);
      assert flat[..width] == lines[0];
      assert flat[width..] == Concat(lines[1..]);
      ChunksOfRows(lines[1..], width);
    }
  }

  /** Lines of equal width are read back as the grid they spell. */
  lemma ParseRectangular(lines: seq<string>)
    requires Rectangular(lines)
    ensures ParseGrid(lines) == Some(lines)
  {
    ChunksOfRows(lines, |lines[0]|);
  }

  predicate Inside(g: Grid, row: int, col: int)
  {
    0 <= row < |g| && 0 <= col < |g[row]|
  }

  /** The character at `row` and `col`, or `None` off the grid. */
  function Get(g: Grid, row: int, col: int): (r: Option<char>)
    ensures r.Some? <==> Inside(g, row, col)
    ensures r.Some? ==> r.value == g[row][col]
  {
    if Inside(g, row, col) then Some(g[row][col]) else None
  }
}
