/**
 * Day 25: locks and keys. The schematics come in blocks separated by a
 * blank line; `#` is a filled cell. A block whose top-left cell is filled
 * is a lock, any other a key. Each column gets a height: the row of the
 * first cell that differs from the top-left cell, minus one. Part 1 counts
 * the key and lock pairs where no lock column is higher than the key's.
 */
module Day25 {
  import opened Wrappers
  import opened Text
  import opened Grids

  /** A schematic's cells, row by row; `true` is `#`. */
  type Pattern = seq<seq<bool>>

  /** A column height per column. */
  type Heights = seq<int>

  // ----- Reading the schematics -----

  /** The lines cut at blank lines, as cutting the text at every "\n\n" does. */
  function Blocks(lines: seq<string>): (blocks: seq<seq<string>>)
    ensures |blocks| >= 1
    ensures forall i :: 0 <= i < |blocks| ==> "" !in blocks[i]
    decreases |lines|
  {
    if "" !in lines then [lines]
    else
      var i := IndexOf(lines, "");
      [lines[..i]] + Blocks(lines[i + 1..])
  }

  /** The blocks with a blank line between each two. */
  function Unblock(blocks: seq<seq<string>>): seq<string>
    requires |blocks| >= 1
  {
    if |blocks| == 1 then blocks[0] else blocks[0] + [""] + Unblock(blocks[1..])
  }

  /** Cutting at blank lines loses nothing: putting the blank lines back gives the lines. */
  lemma {:induction false} UnblockBlocks(lines: seq<string>)
    ensures Unblock(Blocks(lines)) == lines
    decreases |lines|
  {
    if "" in lines {
      var i := IndexOf(lines, "");
      var rest := Blocks(lines[i + 1..]);
      assert Blocks(lines) == [lines[..i]] + rest;
      assert Unblock(Blocks(lines)) == lines[..i] + [""] + Unblock(rest);
      UnblockBlocks(lines[i + 1..]);
      assert lines == lines[..i] + [""] + lines[i + 1..];
    }
  }

  /** Every row as wide as the first, and at least one row, as in a two-dimensional array. */
  predicate Shaped(p: Pattern)
  {
    |p| > 0 && forall r :: 0 <= r < |p| ==> |p[r]| == |p[0]|
  }

  /** The cells of a grid, `#` as filled and every other character as empty. */
  function PatternOf(g: Grid): (p: Pattern)
    ensures |p| == |g| && forall r :: 0 <= r < |g| ==> |p[r]| == |g[r]|
  {
    seq(|g|, r requires 0 <= r < |g| => seq(|g[r]|, c requires 0 <= c < |g[r]| => g[r][c] == '#'))
  }

  /**
   * One block as a schematic: it must have a first line, and its characters
   * must fill as many rows of the first line's width as it has lines.
   */
  function ParsePattern(block: seq<string>): (r: Option<Pattern>)
    ensures r.Some? <==> ParseGrid(block).Some?
    ensures r.Some? ==> Shaped(r.value) && |r.value| == |block| && |r.value[0]| == |block[0]|
  {
    match ParseGrid(block)
    case None => None
    case Some(g) => Some(PatternOf(g))
  }

  /** Rectangular blocks are read cell for cell. */
  lemma ParsePatternCells(block: seq<string>)
    requires Rectangular(block)
    ensures ParsePattern(block).Some?
    ensures forall row, c :: 0 <= row < |block| && 0 <= c < |block[row]| ==>
              (ParsePattern(block).value[row][c] <==> block[row][c] == '#')
  {
    ParseRectangular(block);
  }

  /** Every block as a schematic; one malformed block fails them all. */
  function ParseAll(blocks: seq<seq<string>>): (r: Option<seq<Pattern>>)
    ensures r.Some? <==> forall i :: 0 <= i < |blocks| ==> ParsePattern(blocks[i]).Some?
    ensures r.Some? ==> (|r.value| == |blocks| && forall i :: 0 <= i < |blocks| ==> ParsePattern(blocks[i]) == Some(r.value[i]))
  {
    if forall i :: 0 <= i < |blocks| ==> ParsePattern(blocks[i]).Some? then
      Some(seq(|blocks|, i requires 0 <= i < |blocks| => ParsePattern(blocks[i]).value))
    else None
  }

  /** The schematics of the input. */
  function Parse(lines: seq<string>): Option<seq<Pattern>>
  {
    ParseAll(Blocks(lines))
  }

  // ----- Heights -----

  /** Column `c` from top to bottom. */
  function Column(p: Pattern, c: nat): (col: seq<bool>)
    requires Shaped(p) && c < |p[0]|
    ensures |col| == |p| && forall r :: 0 <= r < |p| ==> col[r] == p[r][c]
  {
    seq(|p|, r requires 0 <= r < |p| => p[r][c])
  }

  /**
   * The height of column `c`: one less than the first row whose cell differs
   * from the top-left cell, or nothing when the column has no such cell.
   */
  function Height(p: Pattern, c: nat): (h: Option<int>)
    requires Shaped(p) && c < |p[0]|
    ensures h.Some? <==> exists r :: 0 <= r < |p| && p[r][c] != p[0][0]
    ensures h.Some? ==> (0 <= h.value + 1 < |p| && p[h.value + 1][c] != p[0][0] &&
              forall r :: 0 <= r <= h.value ==> p[r][c] == p[0][0])
  {
    var col := Column(p, c);
    if !p[0][0] in col then
      var i := IndexOf(col, !p[0][0]);
      assert forall r :: 0 <= r < i ==> col[..i][r] == col[r];
      Some(i - 1)
    else
      assert forall r :: 0 <= r < |p| ==> col[r] == p[r][c];
      None
  }

  /** The search down one column, stopping at the first cell unlike the top-left one. */
  method ColumnHeight(p: Pattern, c: nat) returns (h: Option<int>)
    requires Shaped(p) && c < |p[0]|
    ensures h == Height(p, c)
  {
    var tile := p[0][0];
    var i := 0;
    while i < |p|
      invariant 0 <= i <= |p|
      invariant forall r :: 0 <= r < i ==> p[r][c] == tile
    {
      if p[i][c] != tile {
        return Some(i - 1);
      }
      i := i + 1;
    }
    return None;
  }

  /**
   * Whether the schematic is a lock (its top-left cell is filled) and its
   * column heights; nothing when it has no top-left cell or a column is
   * uniform.
   */
  function HeightsOf(p: Pattern): (r: Option<(bool, Heights)>)
    requires Shaped(p)
    ensures r.Some? <==> |p[0]| > 0 && forall c :: 0 <= c < |p[0]| ==> Height(p, c).Some?
    ensures r.Some? ==> (r.value.0 == p[0][0] && |r.value.1| == |p[0]| &&
              forall c :: 0 <= c < |p[0]| ==> Height(p, c) == Some(r.value.1[c]))
  {
    if |p[0]| == 0 || exists c :: 0 <= c < |p[0]| && Height(p, c).None? then None
    else Some((p[0][0], seq(|p[0]|, c requires 0 <= c < |p[0]| => Height(p, c).value)))
  }

  /** The heights of every column, column by column. */
  method PatternHeights(p: Pattern) returns (r: Option<(bool, Heights)>)
    requires Shaped(p)
    ensures r == HeightsOf(p)
  {
    if |p[0]| == 0 {
      return None;
    }
    var heights := [];
    for c := 0 to |p[0]|
      invariant |heights| == c && forall k :: 0 <= k < c ==> Height(p, k) == Some(heights[k])
    {
      var h := ColumnHeight(p, c);
      if h.None? {
        return None;
      }
      heights := heights + [h.value];
    }
    assert heights == HeightsOf(p).value.1;
    return Some((p[0][0], heights));
  }

  // ----- Sorting keys from locks -----

  /**
   * The keys and the locks of the schematics, each in input order, or
   * nothing when some schematic has no heights.
   */
  function Sorted(ps: seq<Pattern>): (r: Option<(seq<Heights>, seq<Heights>)>)
    requires forall i :: 0 <= i < |ps| ==> Shaped(ps[i])
    ensures r.Some? <==> forall i :: 0 <= i < |ps| ==> HeightsOf(ps[i]).Some?
    ensures r.Some? ==> |r.value.0| + |r.value.1| == |ps|
  {
    if ps == [] then Some(([], []))
    else
      var n := |ps| - 1;
      match (Sorted(ps[..n]), HeightsOf(ps[n]))
      case (Some((keys, locks)), Some((lock, heights))) =>
        if lock then Some((keys, locks + [heights])) else Some((keys + [heights], locks))
      case _ => None
  }

  /**
   * Every key is the heights of a schematic whose top-left cell is empty,
   * every lock of one whose top-left cell is filled, and every schematic's
   * heights are among its kind.
   */
  lemma {:induction false} SortedMembers(ps: seq<Pattern>)
    requires forall i :: 0 <= i < |ps| ==> Shaped(ps[i])
    requires Sorted(ps).Some?
    ensures forall h :: h in Sorted(ps).value.0 <==> exists i :: 0 <= i < |ps| && HeightsOf(ps[i]) == Some((false, h))
    ensures forall h :: h in Sorted(ps).value.1 <==> exists i :: 0 <= i < |ps| && HeightsOf(ps[i]) == Some((true, h))
  {
    if ps != [] {
      var n := |ps| - 1;
      SortedMembers(ps[..n]);
      assert forall i :: 0 <= i < n ==> ps[..n][i] == ps[i];
    }
  }

  /** Sorting schematics one at a time, as the source pushes each onto its list. */
  method Sort(ps: seq<Pattern>) returns (r: Option<(seq<Heights>, seq<Heights>)>)
    requires forall i :: 0 <= i < |ps| ==> Shaped(ps[i])
    ensures r == Sorted(ps)
  {
    var keys, locks := [], [];
    for i := 0 to |ps|
      invariant Sorted(ps[..i]) == Some((keys, locks))
    {
      assert ps[..i + 1][..i] == ps[..i];
      var heights := PatternHeights(ps[i]);
      if heights.None? {
        SortedNone(ps, i + 1);
        return None;
      }
      if heights.value.0 {
        locks := locks + [heights.value.1];
      } else {
        keys := keys + [heights.value.1];
      }
    }
    assert ps[..|ps|] == ps;
    r := Some((keys, locks));
  }

  /** A prefix that cannot be sorted leaves the whole input unsorted. */
  lemma {:induction false} SortedNone(ps: seq<Pattern>, k: nat)
    requires forall i :: 0 <= i < |ps| ==> Shaped(ps[i])
    requires k <= |ps| && Sorted(ps[..k]).None?
    ensures Sorted(ps).None?
  {
    var i :| 0 <= i < k && HeightsOf(ps[..k][i]).None?;
    assert ps[i] == ps[..k][i];
  }

  // ----- Part 1 -----

  /** No lock column higher than the key's, over the columns both have. */
  predicate Fits(key: Heights, lock: Heights)
  {
    forall i :: 0 <= i < |key| && i < |lock| ==> lock[i] - key[i] <= 0
  }

  /** The key and lock pairs, by index, that fit. */
  function FitPairs(keys: seq<Heights>, locks: seq<Heights>): set<(nat, nat)>
  {
    set k: nat, l: nat | k < |keys| && l < |locks| && Fits(keys[k], locks[l]) :: (k, l)
  }

  /** The fitting pairs whose key comes before key `k`, or is key `k` with a lock before lock `l`. */
  ghost function FitsBefore(keys: seq<Heights>, locks: seq<Heights>, k: nat, l: nat): set<(nat, nat)>
  {
    set a: nat, b: nat | a < |keys| && b < |locks| && (a < k || (a == k && b < l)) && Fits(keys[a], locks[b]) :: (a, b)
  }

  lemma FitsNext(keys: seq<Heights>, locks: seq<Heights>, k: nat, l: nat)
    requires k < |keys| && l < |locks|
    ensures (k, l) !in FitsBefore(keys, locks, k, l)
    ensures FitsBefore(keys, locks, k, l + 1) ==
              FitsBefore(keys, locks, k, l) + if Fits(keys[k], locks[l]) then {(k, l)} else {}
  {
  }

  lemma FitsRow(keys: seq<Heights>, locks: seq<Heights>, k: nat)
    ensures FitsBefore(keys, locks, k, |locks|) == FitsBefore(keys, locks, k + 1, 0)
  {
  }

  /** Counting every key against every lock. */
  method CountFits(keys: seq<Heights>, locks: seq<Heights>) returns (count: nat)
    ensures count == |FitPairs(keys, locks)|
  {
    count := 0;
    for k := 0 to |keys|
      invariant count == |FitsBefore(keys, locks, k, 0)|
    {
      for l := 0 to |locks|
        invariant count == |FitsBefore(keys, locks, k, l)|
      {
        FitsNext(keys, locks, k, l);
        if forall i :: 0 <= i < |keys[k]| && i < |locks[l]| ==> locks[l][i] - keys[k][i] <= 0 {
          count := count + 1;
        }
      }
      FitsRow(keys, locks, k);
    }
    assert FitsBefore(keys, locks, |keys|, 0) == FitPairs(keys, locks);
  }

  /**
   * The number of fitting key and lock pairs, or nothing when a block is
   * malformed or a schematic has a uniform column or no cells.
   */
  method Part1(lines: seq<string>) returns (r: Option<nat>)
    ensures r.Some? <==> Parse(lines).Some? && Sorted(Parse(lines).value).Some?
    ensures r.Some? ==> r.value == |FitPairs(Sorted(Parse(lines).value).value.0, Sorted(Parse(lines).value).value.1)|
  {
    var ps := Parse(lines);
    if ps.None? {
      return None;
    }
    var sorted := Sort(ps.value);
    if sorted.None? {
      return None;
    }
    var count := CountFits(sorted.value.0, sorted.value.1);
    return Some(count);
  }

  // ----- What fitting means -----

  /** Filled cells run down from the top of every column, then empty ones. */
  ghost predicate LockShape(p: Pattern)
  {
    Shaped(p) && forall r, s, c :: 0 <= r < s < |p| && 0 <= c < |p[0]| && p[s][c] ==> p[r][c]
  }

  /** Empty cells run down from the top of every column, then filled ones. */
  ghost predicate KeyShape(p: Pattern)
  {
    Shaped(p) && forall r, s, c :: 0 <= r < s < |p| && 0 <= c < |p[0]| && p[r][c] ==> p[s][c]
  }

  /** A cell filled in both, in a column both have. */
  ghost predicate Overlap(lock: Pattern, key: Pattern)
  {
    exists r, c :: 0 <= r < |lock| && r < |key| && 0 <= c < |lock[r]| && c < |key[r]| && lock[r][c] && key[r][c]
  }

  /** In a lock column, the height counts the filled cells below the top one. */
  lemma LockColumn(p: Pattern, c: nat)
    requires LockShape(p) && c < |p[0]| && p[0][0] && Height(p, c).Some?
    ensures forall r :: 0 <= r < |p| ==> (p[r][c] <==> r <= Height(p, c).value)
  {
    var h := Height(p, c).value;
    forall r | 0 <= r < |p|
      ensures p[r][c] <==> r <= h
    {
      if r > h + 1 && p[r][c] {
        assert false;
      }
    }
  }

  /** In a key column, the height counts the empty cells below the top one. */
  lemma KeyColumn(p: Pattern, c: nat)
    requires KeyShape(p) && c < |p[0]| && !p[0][0] && Height(p, c).Some?
    ensures forall r :: 0 <= r < |p| ==> (p[r][c] <==> r > Height(p, c).value)
  {
    var h := Height(p, c).value;
    forall r | 0 <= r < |p|
      ensures p[r][c] <==> r > h
    {
      if r > h + 1 && !p[r][c] {
        assert false;
      }
    }
  }

  /** No row filled in both, in column `c`. */
  ghost predicate ColumnApart(lock: Pattern, key: Pattern, c: nat)
    requires Shaped(lock) && Shaped(key) && |lock| == |key| && c < |lock[0]| && c < |key[0]|
  {
    forall r :: 0 <= r < |lock| ==> !(lock[r][c] && key[r][c])
  }

  /** In one column of a lock and a key, the heights fit exactly when no row is filled in both. */
  lemma ColumnOverlap(lock: Pattern, key: Pattern, c: nat)
    requires LockShape(lock) && KeyShape(key) && |lock| == |key|
    requires c < |lock[0]| && c < |key[0]| && lock[0][0] && !key[0][0]
    requires Height(lock, c).Some? && Height(key, c).Some?
    ensures Height(lock, c).value <= Height(key, c).value <==> ColumnApart(lock, key, c)
  {
    LockColumn(lock, c);
    KeyColumn(key, c);
    var h := Height(lock, c).value;
    if h > Height(key, c).value {
      assert lock[h][c] && key[h][c];
    }
  }

  /** Heights that fit column by column exactly where the columns are apart fit exactly when nothing overlaps. */
  lemma ApartEverywhere(lock: Pattern, key: Pattern, lh: Heights, kh: Heights)
    requires Shaped(lock) && Shaped(key) && |lock| == |key| && |lh| == |lock[0]| && |kh| == |key[0]|
    requires forall c :: 0 <= c < |lh| && c < |kh| ==> (lh[c] <= kh[c] <==> ColumnApart(lock, key, c))
    ensures Fits(kh, lh) <==> !Overlap(lock, key)
  {
    if Fits(kh, lh) {
      forall r, c | 0 <= r < |lock| && r < |key| && 0 <= c < |lock[r]| && c < |key[r]|
        ensures !(lock[r][c] && key[r][c])
      {
        assert c < |lh| && c < |kh| && lh[c] <= kh[c];
      }
    } else {
      var c :| 0 <= c < |kh| && c < |lh| && lh[c] - kh[c] > 0;
      var r :| 0 <= r < |lock| && lock[r][c] && key[r][c];
      assert |lock[r]| == |lock[0]| && |key[r]| == |key[0]|;
    }
  }

  /**
   * For a lock and a key of the same number of rows, shaped as locks and
   * keys are, the heights fit exactly when no cell is filled in both.
   */
  lemma FitsMeansNoOverlap(lock: Pattern, key: Pattern)
    requires LockShape(lock) && KeyShape(key) && |lock| == |key|
    requires HeightsOf(lock).Some? && HeightsOf(lock).value.0
    requires HeightsOf(key).Some? && !HeightsOf(key).value.0
    ensures Fits(HeightsOf(key).value.1, HeightsOf(lock).value.1) <==> !Overlap(lock, key)
  {
    var lh, kh := HeightsOf(lock).value.1, HeightsOf(key).value.1;
    forall c | 0 <= c < |lh| && c < |kh|
      ensures lh[c] <= kh[c] <==> ColumnApart(lock, key, c)
    {
      ColumnOverlap(lock, key, c);
    }
    ApartEverywhere(lock, key, lh, kh);
  }
}
