/**
 * Day 9: a disk map of digits that alternate between a file's size and the
 * free space after it; files get ids 0, 1, 2, ... in order. Part 1 moves
 * single blocks from the end of the disk into the leftmost free block; part
 * 2 moves whole files, highest position first, into the leftmost free span
 * that is large enough. Both answers are the checksum: the sum over
 * occupied blocks of position times file id.
 */
module Day09 {
  import opened Wrappers
  import opened Text

  /** A disk block: the id of the file stored there, or None when free. */
  type Block = Option<nat>

  const FREE: Block := None

  // ----- Layout -----

  function Repeat<T>(x: T, n: nat): (r: seq<T>)
    ensures |r| == n
  {
    if n == 0 then [] else [x] + Repeat(x, n - 1)
  }

  lemma {:induction false} RepeatSnoc<T>(x: T, n: nat)
    ensures Repeat(x, n + 1) == Repeat(x, n) + [x]
  {
    if n > 0 {
      RepeatSnoc(x, n - 1);
    }
  }

  lemma {:induction false} RepeatAt<T>(x: T, n: nat, k: nat)
    requires k < n
    ensures Repeat(x, n)[k] == x
  {
    if k > 0 {
      RepeatAt(x, n - 1, k - 1);
    }
  }

  function Sum(xs: seq<nat>): nat
  {
    if xs == [] then 0 else xs[0] + Sum(xs[1..])
  }

  /** The blocks for the disk map `sizes`, whose first file has id `id`:
    * file, free space, file, free space, ... */
  function Blocks(sizes: seq<nat>, id: nat): seq<Block>
  {
    if sizes == [] then []
    else if |sizes| == 1 then Repeat(Some(id), sizes[0])
    else Repeat(Some(id), sizes[0]) + Repeat(FREE, sizes[1]) + Blocks(sizes[2..], id + 1)
  }

  /** A character whose byte the source can turn into a size: `c - b'0'`
    * underflows (a panic) below `'0'`, and non-ASCII characters are not
    * modelled. */
  predicate SizeChar(c: char)
  {
    '0' <= c && c as int < 128
  }

  /** The disk map's sizes, one per character of the trimmed input, each the
    * character's code minus that of `'0'`. */
  function DiskMap(input: string): (r: Option<seq<nat>>)
    ensures r.Some? <==> forall k :: 0 <= k < |Trim(input)| ==> SizeChar(Trim(input)[k])
    ensures r.Some? ==> |r.value| == |Trim(input)|
    ensures r.Some? ==> forall k :: 0 <= k < |Trim(input)| ==> r.value[k] == Trim(input)[k] as int - '0' as int < 80
  {
    var t := Trim(input);
    if forall k :: 0 <= k < |t| ==> SizeChar(t[k])
    then Some(seq(|t|, k requires 0 <= k < |t| && SizeChar(t[k]) => t[k] as int - '0' as int))
    else None
  }

  /** A disk map of digits reads as those digits' values, with or without a
    * trailing newline. */
  lemma DiskMapDigits(s: string)
    requires |s| > 0 && AllDigits(s)
    ensures DiskMap(s) == DiskMap(s + "\n")
    ensures DiskMap(s).Some? && forall k :: 0 <= k < |s| ==> DiskMap(s).value[k] == DigitValue(s[k])
  {
    var t := s + "\n";
    assert !IsAsciiSpace(s[0]) && !IsAsciiSpace(s[|s| - 1]);
    assert Trim(s) == s;
    assert t[0] == s[0] && t[|t| - 1] == '\n' && t[..|t| - 1] == s;
    assert Trim(t) == s;
  }

  lemma {:induction false} SumSplit(xs: seq<nat>)
    requires |xs| >= 2
    ensures Sum(xs) == xs[0] + xs[1] + Sum(xs[2..])
  {
    assert xs[1..][1..] == xs[2..];
  }

  /** The layout holds exactly as many blocks as the digits add up to. */
  lemma {:induction false} BlocksLength(sizes: seq<nat>, id: nat)
    ensures |Blocks(sizes, id)| == Sum(sizes)
  {
    if |sizes| == 1 {
      assert sizes[1..] == [];
    } else if |sizes| >= 2 {
      BlocksLength(sizes[2..], id + 1);
      SumSplit(sizes);
    }
  }

  lemma RunsAt(id: nat, a: nat, b: nat, k: nat)
    requires k < a + b
    ensures (Repeat(Some(id), a) + Repeat(FREE, b))[k] == if k < a then Some(id) else FREE
  {
    if k < a {
      RepeatAt(Some(id), a, k);
    } else {
      RepeatAt(FREE, b, k - a);
    }
  }

  /** File ids run from `id` up to one id per file, and never decrease from
    * left to right. */
  lemma {:induction false} BlocksIds(sizes: seq<nat>, id: nat)
    ensures forall k :: 0 <= k < |Blocks(sizes, id)| && Blocks(sizes, id)[k].Some? ==>
      id <= Blocks(sizes, id)[k].value < id + (|sizes| + 1) / 2
    ensures forall j, k :: 0 <= j < k < |Blocks(sizes, id)| && Blocks(sizes, id)[j].Some? && Blocks(sizes, id)[k].Some? ==>
      Blocks(sizes, id)[j].value <= Blocks(sizes, id)[k].value
  {
    if |sizes| == 1 {
      forall k | 0 <= k < sizes[0] {
        RepeatAt(Some(id), sizes[0], k);
      }
    } else if |sizes| >= 2 {
      BlocksIds(sizes[2..], id + 1);
      var head: seq<Block> := Repeat(Some(id), sizes[0]) + Repeat(FREE, sizes[1]);
      var tail: seq<Block> := Blocks(sizes[2..], id + 1);
      assert Blocks(sizes, id) == head + tail;
      forall k | 0 <= k < |head + tail|
        ensures (head + tail)[k] == if k < |head| then (if k < sizes[0] then Some(id) else FREE) else tail[k - |head|]
      {
        if k < |head| {
          RunsAt(id, sizes[0], sizes[1], k);
        }
      }
    }
  }

  lemma BlocksSingle(size: nat, id: nat)
    ensures Blocks([size], id) == Repeat(Some(id), size)
  {
  }

  lemma LayoutStep(before: seq<Block>, rest: seq<nat>, id: nat)
    requires |rest| >= 2
    ensures before + Repeat(Some(id), rest[0]) + Repeat(FREE, rest[1]) + Blocks(rest[2..], id + 1) == before + Blocks(rest, id)
  {
  }

  /** Builds the block layout by pushing each file's and each free span's
    * blocks in turn. */
  method Layout(sizes: seq<nat>) returns (memory: seq<Block>)
    ensures memory == Blocks(sizes, 0)
  {
    memory := [];
    var rest := sizes;
    var id := 0;
    while rest != []
      invariant memory + Blocks(rest, id) == Blocks(sizes, 0)
      decreases |rest|
    {
      ghost var before := memory;
      memory := PushRun(memory, Some(id), rest[0]);
      if |rest| >= 2 {
        memory := PushRun(memory, FREE, rest[1]);
        LayoutStep(before, rest, id);
        rest := rest[2..];
      } else {
        assert rest == [rest[0]];
        BlocksSingle(rest[0], id);
        rest := [];
      }
      id := id + 1;
    }
  }

  /** Pushes `n` copies of `b`. */
  method PushRun(memory: seq<Block>, b: Block, n: nat) returns (r: seq<Block>)
    ensures r == memory + Repeat(b, n)
  {
    r := memory;
    var k := 0;
    while k < n
      invariant k <= n && r == memory + Repeat(b, k)
    {
      r := r + [b];
      RepeatSnoc(b, k);
      k := k + 1;
    }
  }

  // ----- Checksum -----

  /** Σ position × id over the occupied blocks, positions counted from `start`. */
  function Checksum(memory: seq<Block>, start: nat): nat
  {
    if memory == [] then 0
    else (if memory[0].Some? then start * memory[0].value else 0) + Checksum(memory[1..], start + 1)
  }

  lemma {:induction false} ChecksumAppend(a: seq<Block>, b: seq<Block>, start: nat)
    ensures Checksum(a + b, start) == Checksum(a, start) + Checksum(b, start + |a|)
  {
    if a == [] {
      assert a + b == b;
    } else {
      assert (a + b)[0] == a[0] && (a + b)[1..] == a[1..] + b;
      ChecksumAppend(a[1..], b, start + 1);
    }
  }

  /** Free blocks add nothing to the checksum. */
  lemma {:induction false} ChecksumFree(n: nat, start: nat)
    ensures Checksum(Repeat(FREE, n), start) == 0
  {
    if n > 0 {
      assert Repeat(FREE, n)[1..] == Repeat(FREE, n - 1);
      ChecksumFree(n - 1, start + 1);
    }
  }

  // ----- Part 1: block by block -----

  /** No free block lies before an occupied one. */
  predicate Compact(memory: seq<Block>)
  {
    forall i, j :: 0 <= i < j < |memory| && memory[i].None? ==> memory[j].None?
  }

  /** Every block before `previous` is occupied. */
  predicate FullBelow(m: seq<Block>, previous: nat)
  {
    forall k :: 0 <= k < previous && k < |m| ==> m[k].Some?
  }

  /** No free block lies before an occupied block at `from` or later. */
  predicate CompactFrom(m: seq<Block>, from: nat)
  {
    forall i, j :: 0 <= i < j < |m| && from <= j && m[i].None? ==> m[j].None?
  }

  /** The first free block in [from, to); a position not below `to` when
    * there is none. */
  function FirstFree(m: seq<Block>, from: nat, to: nat): (c: nat)
    requires to <= |m|
    ensures from <= c && (c <= to || c == from)
    ensures c < to ==> m[c].None?
    ensures forall k :: from <= k < c && k < to ==> m[k].Some?
    decreases (to as int) - (from as int)
  {
    if from >= to || m[from].None? then from else FirstFree(m, from + 1, to)
  }

  /** The source's visit of position `r`: a file block there trades places
    * with the first free block from `previous` on, when one lies before
    * it, and the next search starts from that free block. */
  function Visit(m: seq<Block>, r: nat, previous: nat): (v: (seq<Block>, nat))
    requires r < |m|
    ensures |v.0| == |m|
  {
    if m[r].None? then (m, previous)
    else
      var c := FirstFree(m, previous, r);
      if c < r then (m[r := m[c]][c := m[r]], c) else (m, previous)
  }

  /** The source's part-1 compaction: positions `removing - 1` down to 0
    * visited in turn. */
  function CompactAll(m: seq<Block>, removing: nat, previous: nat): (r: seq<Block>)
    requires removing <= |m|
    ensures |r| == |m|
    decreases removing
  {
    if removing == 0 then m
    else
      var v := Visit(m, removing - 1, previous);
      CompactAll(v.0, removing - 1, v.1)
  }

  lemma SwapMultiset(m: seq<Block>, r: nat, c: nat)
    requires r < |m| && c < |m|
    ensures multiset(m[r := m[c]][c := m[r]]) == multiset(m)
  {
  }

  /** One visit keeps the blocks and the compaction invariants: blocks below
    * the search start are occupied, and no free block lies before an
    * occupied one from the visited position on. */
  lemma VisitKeeps(m: seq<Block>, r: nat, previous: nat)
    requires r < |m| && previous <= |m|
    requires FullBelow(m, previous) && CompactFrom(m, r + 1)
    ensures var v := Visit(m, r, previous);
      multiset(v.0) == multiset(m) && v.1 <= |m| && FullBelow(v.0, v.1) && CompactFrom(v.0, r)
  {
    if m[r].None? {
      CompactFree(m, r);
    } else {
      var c := FirstFree(m, previous, r);
      if c < r {
        SwapMultiset(m, r, c);
        CompactSwap(m, r, c, previous);
      } else {
        CompactStay(m, r, previous);
      }
    }
  }

  /** The compaction keeps every block and leaves no free block before an
    * occupied one. */
  lemma {:induction false} CompactAllSound(m: seq<Block>, removing: nat, previous: nat)
    requires removing <= |m| && previous <= |m|
    requires FullBelow(m, previous) && CompactFrom(m, removing)
    ensures multiset(CompactAll(m, removing, previous)) == multiset(m)
    ensures Compact(CompactAll(m, removing, previous))
    decreases removing
  {
    if removing > 0 {
      var r := removing - 1;
      var v := Visit(m, r, previous);
      assert CompactAll(m, removing, previous) == CompactAll(v.0, r, v.1);
      VisitKeeps(m, r, previous);
      CompactAllSound(v.0, r, v.1);
    }
  }

  /** The source's compaction of a whole disk is a compact rearrangement of
    * its blocks. */
  lemma Compacted(m: seq<Block>)
    ensures multiset(CompactAll(m, |m|, 0)) == multiset(m) && Compact(CompactAll(m, |m|, 0))
  {
    CompactAllSound(m, |m|, 0);
  }

  /** A file block moves only into the first free block from the search
    * start on, and only to a lower position. */
  lemma VisitMoves(m: seq<Block>, r: nat, previous: nat)
    requires r < |m|
    ensures var v := Visit(m, r, previous);
      v.0 == m || (m[r].Some? && previous <= v.1 < r && m[v.1].None? &&
        (forall k :: previous <= k < v.1 ==> m[k].Some?) &&
        v.0 == m[r := FREE][v.1 := m[r]])
  {
  }

  /** Moves blocks from the end into the leftmost free block, remembering
    * where the previous search stopped, as `CompactAll` describes. */
  method CompactBlocks(memory: array<Block>)
    modifies memory
    ensures memory[..] == CompactAll(old(memory[..]), memory.Length, 0)
    ensures multiset(memory[..]) == old(multiset(memory[..])) && Compact(memory[..])
  {
    ghost var initial := memory[..];
    var previous: nat := 0;
    var removing: nat := memory.Length;
    while removing > 0
      invariant removing <= memory.Length
      invariant CompactAll(memory[..], removing, previous) == CompactAll(initial, memory.Length, 0)
    {
      removing := removing - 1;
      previous := MoveBlock(memory, removing, previous);
    }
    Compacted(initial);
  }

  /** Visits the block at `removing`: a file block goes to the first free
    * block from `previous` on, if there is one before it. */
  method MoveBlock(memory: array<Block>, removing: nat, previous: nat) returns (next: nat)
    requires removing < memory.Length
    modifies memory
    ensures (memory[..], next) == Visit(old(memory[..]), removing, previous)
  {
    if memory[removing].Some? {
      var candidate := FreeSlot(memory, previous, removing);
      if candidate < removing {
        Exchange(memory, removing, candidate);
        return candidate;
      }
    }
    return previous;
  }

  /** Exchanges two blocks. */
  method Exchange(memory: array<Block>, i: nat, j: nat)
    requires i < memory.Length && j < memory.Length
    modifies memory
    ensures memory[..] == old(memory[..])[i := old(memory[j])][j := old(memory[i])]
    ensures multiset(memory[..]) == old(multiset(memory[..]))
  {
    memory[i], memory[j] := memory[j], memory[i];
  }

  lemma CompactFree(m: seq<Block>, r: nat)
    requires r < |m| && CompactFrom(m, r + 1) && m[r].None?
    ensures CompactFrom(m, r)
  {
  }

  lemma CompactStay(m: seq<Block>, r: nat, previous: nat)
    requires r < |m| && CompactFrom(m, r + 1) && FullBelow(m, previous)
    requires forall k :: previous <= k < r ==> m[k].Some?
    ensures CompactFrom(m, r)
  {
  }

  lemma CompactSwap(m: seq<Block>, r: nat, c: nat, previous: nat)
    requires previous <= c < r < |m| && m[r].Some? && m[c].None?
    requires CompactFrom(m, r + 1) && FullBelow(m, previous)
    requires forall k :: previous <= k < c ==> m[k].Some?
    ensures FullBelow(m[r := m[c]][c := m[r]], c) && CompactFrom(m[r := m[c]][c := m[r]], r)
  {
  }

  /** The first free block in [from, to), found by scanning. */
  method FreeSlot(memory: array<Block>, from: nat, to: nat) returns (c: nat)
    requires to <= memory.Length
    ensures c == FirstFree(memory[..], from, to)
  {
    c := from;
    while c < to && memory[c].Some?
      invariant from <= c && (c <= to || c == from)
      invariant FirstFree(memory[..], c, to) == FirstFree(memory[..], from, to)
      decreases (to as int) - (c as int)
    {
      c := c + 1;
    }
  }

  /** The answer is the checksum of the disk after the source's compaction;
    * `Compacted` shows that disk is a compact rearrangement of the layout. */
  method Part1(input: string) returns (r: Option<nat>)
    ensures r.Some? <==> DiskMap(input).Some?
    ensures r.Some? ==> var blocks := Blocks(DiskMap(input).value, 0);
      r.value == Checksum(CompactAll(blocks, |blocks|, 0), 0)
  {
    var sizes := DiskMap(input);
    if sizes.None? {
      return None;
    }
    var blocks := Layout(sizes.value);
    var memory := new Block[|blocks|](k requires 0 <= k < |blocks| => blocks[k]);
    assert memory[..] == blocks;
    CompactBlocks(memory);
    return Some(Checksum(memory[..], 0));
  }

  // ----- Part 2: whole files -----

  /** A span of `size` blocks, holding file `id` or free. */
  type Span = (Option<nat>, nat)

  function Spans(sizes: seq<nat>, id: nat): seq<Span>
  {
    if sizes == [] then []
    else if |sizes| == 1 then [(Some(id), sizes[0])]
    else [(Some(id), sizes[0]), (None, sizes[1])] + Spans(sizes[2..], id + 1)
  }

  /** The blocks a list of spans stands for. */
  function Expand(spans: seq<Span>): seq<Block>
  {
    if spans == [] then [] else Repeat(spans[0].0, spans[0].1) + Expand(spans[1..])
  }

  /** The span layout expands to the block layout of part 1. */
  lemma {:induction false} ExpandSpans(sizes: seq<nat>, id: nat)
    ensures Expand(Spans(sizes, id)) == Blocks(sizes, id)
  {
    if |sizes| == 1 {
      assert Expand(Spans(sizes, id)) == Repeat(Some(id), sizes[0]) + Expand([]);
    } else if |sizes| >= 2 {
      ExpandSpans(sizes[2..], id + 1);
      var s := Spans(sizes, id);
      assert s[1..][1..] == Spans(sizes[2..], id + 1);
    }
  }

  /** The sum of all span sizes. */
  function TotalSize(spans: seq<Span>): nat
  {
    if spans == [] then 0 else spans[0].1 + TotalSize(spans[1..])
  }

  /** The files among the spans, as (id, size) pairs. */
  function Files(spans: seq<Span>): multiset<(nat, nat)>
  {
    if spans == [] then multiset{}
    else (if spans[0].0.Some? then multiset{(spans[0].0.value, spans[0].1)} else multiset{}) + Files(spans[1..])
  }

  lemma {:induction false} SizeAppend(a: seq<Span>, b: seq<Span>)
    ensures TotalSize(a + b) == TotalSize(a) + TotalSize(b)
  {
    if a == [] {
      assert a + b == b;
    } else {
      assert (a + b)[0] == a[0] && (a + b)[1..] == a[1..] + b;
      SizeAppend(a[1..], b);
    }
  }

  lemma {:induction false} FilesAppend(a: seq<Span>, b: seq<Span>)
    ensures Files(a + b) == Files(a) + Files(b)
  {
    if a == [] {
      assert a + b == b;
    } else {
      assert (a + b)[0] == a[0] && (a + b)[1..] == a[1..] + b;
      FilesAppend(a[1..], b);
    }
  }

  /** Totals of a list cut into a prefix, one span and a suffix. */
  lemma Around(p: seq<Span>, v: Span, q: seq<Span>)
    ensures TotalSize(p + [v] + q) == TotalSize(p) + v.1 + TotalSize(q)
    ensures Files(p + [v] + q) == Files(p) + Files([v]) + Files(q)
  {
    SizeAppend(p + [v], q);
    SizeAppend(p, [v]);
    FilesAppend(p + [v], q);
    FilesAppend(p, [v]);
    assert [v][1..] == [];
  }

  lemma UpdateSpan(s: seq<Span>, k: nat, v: Span)
    requires k < |s|
    ensures TotalSize(s[k := v]) + s[k].1 == TotalSize(s) + v.1
    ensures Files(s[k := v]) + Files([s[k]]) == Files(s) + Files([v])
  {
    assert s == s[..k] + [s[k]] + s[k + 1..];
    assert s[k := v] == s[..k] + [v] + s[k + 1..];
    Around(s[..k], s[k], s[k + 1..]);
    Around(s[..k], v, s[k + 1..]);
  }

  lemma InsertSpan(s: seq<Span>, k: nat, v: Span)
    requires k <= |s|
    ensures TotalSize(s[..k] + [v] + s[k..]) == TotalSize(s) + v.1
    ensures Files(s[..k] + [v] + s[k..]) == Files(s) + Files([v])
  {
    Around(s[..k], v, s[k..]);
    Rejoin(s, k);
  }

  lemma Rejoin(s: seq<Span>, k: nat)
    requires k <= |s|
    ensures TotalSize(s) == TotalSize(s[..k]) + TotalSize(s[k..])
    ensures Files(s) == Files(s[..k]) + Files(s[k..])
  {
    assert s == s[..k] + s[k..];
    SizeAppend(s[..k], s[k..]);
    FilesAppend(s[..k], s[k..]);
  }

  lemma SingleSpan(v: Span)
    ensures TotalSize([v]) == v.1
    ensures Files([v]) == if v.0.Some? then multiset{(v.0.value, v.1)} else multiset{}
  {
    assert [v][1..] == [];
  }

  /** Turning a file's span into free space of the same size removes exactly that file. */
  lemma FreeFile(s: seq<Span>, k: nat)
    requires k < |s| && s[k].0.Some?
    ensures TotalSize(s[k := (None, s[k].1)]) == TotalSize(s)
    ensures Files(s[k := (None, s[k].1)]) + multiset{(s[k].0.value, s[k].1)} == Files(s)
  {
    UpdateSpan(s, k, (None, s[k].1));
    SingleSpan(s[k]);
    SingleSpan((None, s[k].1));
  }

  /** Resizing a free span changes the total by the difference and no file. */
  lemma ShrinkFree(s: seq<Span>, k: nat, room: nat)
    requires k < |s| && s[k].0.None?
    ensures TotalSize(s[k := (None, room)]) + s[k].1 == TotalSize(s) + room
    ensures Files(s[k := (None, room)]) == Files(s)
  {
    UpdateSpan(s, k, (None, room));
    SingleSpan(s[k]);
    SingleSpan((None, room));
    var m, n := Files(s[k := (None, room)]), Files(s);
    assert m + multiset{} == n + multiset{};
    assert m + multiset{} == m && n + multiset{} == n;
  }

  /** One file move: the file at `removing` leaves a free span of its size,
    * the free span at `space` shrinks by that size, and the file is
    * inserted just before it. No block is created or lost and every file
    * keeps its size. */
  function MoveFile(spans: seq<Span>, removing: nat, space: nat): (r: seq<Span>)
    requires space < removing < |spans| && spans[removing].0.Some? && spans[space].0.None?
    requires spans[space].1 >= spans[removing].1
    ensures |r| == |spans| + 1
    ensures TotalSize(r) == TotalSize(spans)
    ensures Files(r) == Files(spans)
  {
    var (id, size) := (spans[removing].0.value, spans[removing].1);
    var freed := spans[removing := (None, size)];
    var shrunk := freed[space := (None, freed[space].1 - size)];
    FreeFile(spans, removing);
    ShrinkFree(freed, space, freed[space].1 - size);
    InsertSpan(shrunk, space, (Some(id), size));
    SingleSpan((Some(id), size));
    shrunk[..space] + [(Some(id), size)] + shrunk[space..]
  }

  /** The first free span in [from, to) with room for `size` blocks; `to`
    * when there is none. */
  function FirstFit(m: seq<Span>, from: nat, to: nat, size: nat): (c: nat)
    requires to <= |m|
    ensures c == to || (from <= c < to && m[c].0.None? && m[c].1 >= size)
    ensures forall k :: from <= k < c && k < to ==> !(m[k].0.None? && m[k].1 >= size)
    decreases (to as int) - (from as int)
  {
    if from >= to then to
    else if m[from].0.None? && m[from].1 >= size then from
    else FirstFit(m, from + 1, to, size)
  }

  /** The source's visit of position `r` of the current list: a file there
    * moves into the first free span before it that is large enough, if
    * there is one. */
  function VisitFile(m: seq<Span>, r: nat): (m': seq<Span>)
    requires r < |m|
    ensures |m| <= |m'| <= |m| + 1
    ensures TotalSize(m') == TotalSize(m) && Files(m') == Files(m)
  {
    if m[r].0.None? then m
    else
      var c := FirstFit(m, 0, r, m[r].1);
      if c < r then MoveFile(m, r, c) else m
  }

  /** The source's part-2 compaction: the positions `removing - 1` down to 0
    * of the original list are visited in turn, in the list as the earlier
    * moves have shifted it. No block is created or lost and every file
    * keeps its size. */
  function MoveFiles(m: seq<Span>, removing: nat): (m': seq<Span>)
    requires removing <= |m|
    ensures TotalSize(m') == TotalSize(m) && Files(m') == Files(m)
    decreases removing
  {
    if removing == 0 then m else MoveFiles(VisitFile(m, removing - 1), removing - 1)
  }

  /** A moved file lands in the leftmost free span before it that is large
    * enough: that span shrinks by the file's size, the file sits just
    * before it, and its old place becomes free space of the same size. */
  lemma VisitFileMoves(m: seq<Span>, r: nat) returns (c: nat)
    requires r < |m|
    ensures VisitFile(m, r) != m ==>
      c < r && m[r].0.Some? && m[c].0.None? && m[c].1 >= m[r].1 &&
      (forall k :: 0 <= k < c ==> !(m[k].0.None? && m[k].1 >= m[r].1)) &&
      var emptied := m[r := (None, m[r].1)][c := (None, m[c].1 - m[r].1)];
      VisitFile(m, r) == emptied[..c] + [m[r]] + emptied[c..]
  {
    c := 0;
    if m[r].0.Some? {
      c := FirstFit(m, 0, r, m[r].1);
      if c < r {
        assert m[r := (None, m[r].1)][c] == m[c];
      }
    }
  }

  /** Moves whole files, last position first, each into the leftmost free
    * span before it that is large enough, as `MoveFiles` describes. */
  method CompactFiles(initial: seq<Span>) returns (memory: seq<Span>)
    ensures memory == MoveFiles(initial, |initial|)
  {
    memory := initial;
    var removing: nat := |initial|;
    while removing > 0
      invariant removing <= |memory|
      invariant MoveFiles(memory, removing) == MoveFiles(initial, |initial|)
    {
      removing := removing - 1;
      if memory[removing].0.Some? {
        var candidate := FitSlot(memory, removing, memory[removing].1);
        if candidate < removing {
          memory := MoveFile(memory, removing, candidate);
        }
      }
    }
  }

  /** The first free span before `to` with room for `size` blocks, found by
    * scanning from the start. */
  method FitSlot(memory: seq<Span>, to: nat, size: nat) returns (c: nat)
    requires to <= |memory|
    ensures c == FirstFit(memory, 0, to, size)
  {
    c := 0;
    while c < to && (memory[c].0.Some? || memory[c].1 < size)
      invariant c <= to
      invariant FirstFit(memory, c, to, size) == FirstFit(memory, 0, to, size)
    {
      c := c + 1;
    }
  }

  lemma {:induction false} ExpandAppend(a: seq<Span>, b: seq<Span>)
    ensures Expand(a + b) == Expand(a) + Expand(b)
  {
    if a == [] {
      assert a + b == b;
    } else {
      assert (a + b)[0] == a[0] && (a + b)[1..] == a[1..] + b;
      ExpandAppend(a[1..], b);
    }
  }

  lemma ExpandStep(m: seq<Span>, k: nat)
    requires k < |m|
    ensures Expand(m[k..]) == Repeat(m[k].0, m[k].1) + Expand(m[k + 1..])
    ensures |Expand(m[..k + 1])| == |Expand(m[..k])| + m[k].1
  {
    assert m[k..][1..] == m[k + 1..];
    assert m[..k + 1] == m[..k] + [m[k]];
    ExpandAppend(m[..k], [m[k]]);
    assert Expand([m[k]]) == Repeat(m[k].0, m[k].1) + Expand([]);
  }

  /** The part-2 checksum walks the spans, skipping free ones and counting
    * `position × id` for each block of a file. It is the part-1 checksum of
    * the blocks the spans stand for. */
  /** The checksum contribution of one file of `size` blocks starting at position `start`. */
  method FileChecksum(id: nat, size: nat, start: nat) returns (c: nat)
    ensures c == Checksum(Repeat(Some(id), size), start)
  {
    c := 0;
    var n := 0;
    while n < size
      invariant n <= size
      invariant c + Checksum(Repeat(Some(id), size - n), start + n) == Checksum(Repeat(Some(id), size), start)
    {
      assert Repeat(Some(id), size - n)[1..] == Repeat(Some(id), size - n - 1);
      c := c + id * (start + n);
      n := n + 1;
    }
  }

  method SpanChecksum(memory: seq<Span>) returns (checksum: nat)
    ensures checksum == Checksum(Expand(memory), 0)
  {
    checksum := 0;
    var i := 0;
    var k := 0;
    assert memory[0..] == memory;
    while k < |memory|
      invariant k <= |memory| && i == |Expand(memory[..k])|
      invariant checksum + Checksum(Expand(memory[k..]), i) == Checksum(Expand(memory), 0)
    {
      var (id, size) := memory[k];
      ExpandStep(memory, k);
      ChecksumAppend(Repeat(id, size), Expand(memory[k + 1..]), i);
      if id.None? {
        ChecksumFree(size, i);
        i := i + size;
      } else {
        var c := FileChecksum(id.value, size, i);
        checksum := checksum + c;
        i := i + size;
      }
      k := k + 1;
    }
  }

  /** Builds the span list: one span per digit, files and free space in turn. */
  method SpanLayout(sizes: seq<nat>) returns (memory: seq<Span>)
    ensures memory == Spans(sizes, 0)
  {
    memory := [];
    var rest := sizes;
    var id := 0;
    while rest != []
      invariant memory + Spans(rest, id) == Spans(sizes, 0)
      decreases |rest|
    {
      memory := memory + [(Some(id), rest[0])];
      if |rest| >= 2 {
        memory := memory + [(None, rest[1])];
        rest := rest[2..];
      } else {
        rest := [];
      }
      id := id + 1;
    }
  }

  /** The answer is the checksum of the blocks after the source's file
    * moves; `MoveFiles` keeps every file and the disk's size. */
  method Part2(input: string) returns (r: Option<nat>)
    ensures r.Some? <==> DiskMap(input).Some?
    ensures r.Some? ==> var spans := Spans(DiskMap(input).value, 0);
      r.value == Checksum(Expand(MoveFiles(spans, |spans|)), 0)
  {
    var sizes := DiskMap(input);
    if sizes.None? {
      return None;
    }
    var spans := SpanLayout(sizes.value);
    var memory := CompactFiles(spans);
    var checksum := SpanChecksum(memory);
    return Some(checksum);
  }
}
