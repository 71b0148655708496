/**
 * Day 21: keypad conundrum. A code is typed on a numeric keypad by a robot
 * arm, which is steered from a directional keypad by another robot, and so
 * on up a chain of robots to the person at the top. Every move of an arm
 * from one key to the next is spelled out as presses on the keypad above
 * it; the cost of a move is the fewest presses the person makes for it,
 * found recursively with a memo. A code's complexity is its presses times
 * the number its digits spell.
 */
module Day21 {
  import opened Wrappers
  import opened Text

  /** A position as (x, y), with y growing upwards. */
  type Vec2 = (int, int)

  // ----- The keypads -----

  /** A key of the numeric keypad. */
  datatype Key = A | Digit(n: nat)

  /**
   * Where a numeric key is: 7 8 9 on top, then 4 5 6, then 1 2 3, then a
   * gap, 0 and `A` on the bottom row, with 5 at (0, 0).
   */
  function KeyPosition(k: Key): Vec2
  {
    match k
    case A => (1, -2)
    case Digit(n) => if n == 0 then (0, -2) else ((n - 1) % 3 - 1, (n - 1) / 3 - 1)
  }

  /** `A` and the ten digits; any other character is an error. */
  function KeyOf(c: char): (r: Option<Key>)
    ensures r.Some? <==> c == 'A' || IsDigit(c)
    ensures r.Some? && r.value.Digit? ==> IsDigit(c) && r.value.n == DigitValue(c)
  {
    if c == 'A' then Some(A) else if IsDigit(c) then Some(Digit(DigitValue(c))) else None
  }

  /** A key of a directional keypad. */
  datatype DirKey = Apply | Up | Down | Left | Right

  /** Where a directional key is: a gap, up and apply on top; left, down and right below. */
  function DirPosition(d: DirKey): Vec2
  {
    match d
    case Apply => (1, 1)
    case Up => (0, 1)
    case Down => (0, 0)
    case Left => (-1, 0)
    case Right => (1, 0)
  }

  /** The gap an arm must never point at: on the numeric keypad or on a directional one. */
  function Illegal(keypad: bool): Vec2
  {
    if keypad then (-1, -2) else (-1, 1)
  }

  /** The cells of a keypad, its gap excluded. */
  predicate OnPad(p: Vec2, keypad: bool)
  {
    -1 <= p.0 <= 1 && (if keypad then -2 <= p.1 <= 1 else 0 <= p.1 <= 1) && p != Illegal(keypad)
  }

  /** Every key of the numeric keypad is on it, and different keys are in different places. */
  lemma KeysOnPad(k: Key, l: Key)
    requires k.Digit? ==> k.n < 10
    requires l.Digit? ==> l.n < 10
    ensures OnPad(KeyPosition(k), true)
    ensures KeyPosition(k) == KeyPosition(l) ==> k == l
  {
  }

  /** Every directional key is on its keypad, and different keys are in different places. */
  lemma DirKeysOnPad(d: DirKey, e: DirKey)
    ensures OnPad(DirPosition(d), false)
    ensures DirPosition(d) == DirPosition(e) ==> d == e
  {
  }

  // ----- Spelling out a move -----

  function Abs(x: int): nat
  {
    if x < 0 then -x else x
  }

  /** `n` presses of `d`. */
  function Repeat(d: DirKey, n: nat): (r: seq<DirKey>)
    ensures |r| == n && forall i :: 0 <= i < n ==> r[i] == d
  {
    if n == 0 then [] else Repeat(d, n - 1) + [d]
  }

  /** Presses moving the arm `delta` columns: right when positive, left otherwise. */
  function MapX(delta: int): (r: seq<DirKey>)
    ensures |r| == Abs(delta)
  {
    Repeat(if delta > 0 then Right else Left, Abs(delta))
  }

  /** Presses moving the arm `delta` rows: up when positive, down otherwise. */
  function MapY(delta: int): (r: seq<DirKey>)
    ensures |r| == Abs(delta)
  {
    Repeat(if delta > 0 then Up else Down, Abs(delta))
  }

  /**
   * The ways to press the arm from `origin` to `target` and then press the
   * key there: straight when the move keeps a row or a column, otherwise
   * columns first and rows first, leaving out an order whose corner is the
   * gap.
   */
  function Realizations(origin: Vec2, target: Vec2, keypad: bool): (rs: seq<seq<DirKey>>)
    ensures 1 <= |rs| <= 2
    ensures forall i :: 0 <= i < |rs| ==>
              |rs[i]| == Abs(target.0 - origin.0) + Abs(target.1 - origin.1) + 1 && rs[i][|rs[i]| - 1] == Apply
  {
    var dx, dy := target.0 - origin.0, target.1 - origin.1;
    if dx == 0 then [MapY(dy) + [Apply]]
    else if dy == 0 then [MapX(dx) + [Apply]]
    else
      if (origin.0 + dx, origin.1) == Illegal(keypad) then [RowsFirst(dx, dy)]
      else if (origin.0, origin.1 + dy) == Illegal(keypad) then [ColumnsFirst(dx, dy)]
      else [ColumnsFirst(dx, dy), RowsFirst(dx, dy)]
  }

  /** Move along the row, then along the column, then press. */
  function ColumnsFirst(dx: int, dy: int): (r: seq<DirKey>)
    ensures |r| == Abs(dx) + Abs(dy) + 1 && r[|r| - 1] == Apply
  {
    MapX(dx) + MapY(dy) + [Apply]
  }

  /** Move along the column, then along the row, then press. */
  function RowsFirst(dx: int, dy: int): (r: seq<DirKey>)
    ensures |r| == Abs(dx) + Abs(dy) + 1 && r[|r| - 1] == Apply
  {
    MapY(dy) + MapX(dx) + [Apply]
  }

  /** A straight move is spelled the same whichever order is taken. */
  lemma Straight(dx: int, dy: int)
    ensures dx == 0 ==> MapY(dy) + [Apply] == ColumnsFirst(dx, dy)
    ensures dy == 0 ==> MapX(dx) + [Apply] == ColumnsFirst(dx, dy)
  {
    if dx == 0 {
      assert MapX(dx) == [];
    }
    if dy == 0 {
      assert MapY(dy) == [];
    }
  }

  // ----- Where the presses take the arm -----

  /** Where pressing `d` moves the arm from `p`; pressing `Apply` leaves it. */
  function Step(p: Vec2, d: DirKey): Vec2
  {
    match d
    case Apply => p
    case Up => (p.0, p.1 + 1)
    case Down => (p.0, p.1 - 1)
    case Left => (p.0 - 1, p.1)
    case Right => (p.0 + 1, p.1)
  }

  /** Where the arm points after each press. */
  function Trace(p: Vec2, presses: seq<DirKey>): (cells: seq<Vec2>)
    ensures |cells| == |presses|
    decreases |presses|
  {
    if presses == [] then [] else [Step(p, presses[0])] + Trace(Step(p, presses[0]), presses[1..])
  }

  /** Where the arm points after all the presses. */
  function End(p: Vec2, presses: seq<DirKey>): Vec2
    decreases |presses|
  {
    if presses == [] then p else End(Step(p, presses[0]), presses[1..])
  }

  lemma {:induction false} TraceAppend(p: Vec2, a: seq<DirKey>, b: seq<DirKey>)
    ensures Trace(p, a + b) == Trace(p, a) + Trace(End(p, a), b)
    ensures End(p, a + b) == End(End(p, a), b)
    decreases |a|
  {
    if a == [] {
      assert a + b == b;
    } else {
      assert (a + b)[0] == a[0] && (a + b)[1..] == a[1..] + b;
      TraceAppend(Step(p, a[0]), a[1..], b);
    }
  }

  /** `n` steps of `d` from `p`, in one go. */
  function Far(p: Vec2, d: DirKey, n: nat): Vec2
  {
    match d
    case Apply => p
    case Up => (p.0, p.1 + n)
    case Down => (p.0, p.1 - n)
    case Left => (p.0 - n, p.1)
    case Right => (p.0 + n, p.1)
  }

  /** Pressing the same key `n` times passes one cell further each time. */
  lemma {:induction false} TraceRepeat(p: Vec2, d: DirKey, n: nat)
    ensures forall k :: 0 <= k < n ==> Trace(p, Repeat(d, n))[k] == Far(p, d, k + 1)
    ensures End(p, Repeat(d, n)) == Far(p, d, n)
  {
    if n > 0 {
      TraceRepeat(p, d, n - 1);
      TraceAppend(p, Repeat(d, n - 1), [d]);
    }
  }

  /** `n` cells from `a` in the direction of the sign of `delta`. */
  function Toward(a: int, delta: int, n: nat): int
  {
    if delta > 0 then a + n else a - n
  }

  /** Where the column presses take the arm, and what they pass. */
  lemma TraceX(p: Vec2, dx: int)
    ensures End(p, MapX(dx)) == (p.0 + dx, p.1)
    ensures forall k :: 0 <= k < Abs(dx) ==> Trace(p, MapX(dx))[k] == (Toward(p.0, dx, k + 1), p.1)
  {
    TraceRepeat(p, if dx > 0 then Right else Left, Abs(dx));
  }

  /** Where the row presses take the arm, and what they pass. */
  lemma TraceY(p: Vec2, dy: int)
    ensures End(p, MapY(dy)) == (p.0, p.1 + dy)
    ensures forall k :: 0 <= k < Abs(dy) ==> Trace(p, MapY(dy))[k] == (p.0, Toward(p.1, dy, k + 1))
  {
    TraceRepeat(p, if dy > 0 then Up else Down, Abs(dy));
  }

  /** Pressing `Apply` last leaves the arm where the moves took it. */
  lemma TraceApply(p: Vec2, moves: seq<DirKey>)
    ensures Trace(p, moves + [Apply]) == Trace(p, moves) + [End(p, moves)]
    ensures End(p, moves + [Apply]) == End(p, moves)
  {
    TraceAppend(p, moves, [Apply]);
  }

  /**
   * The `k`-th cell passed when moving `dx` columns and then `dy` rows
   * from `p` (or rows first, when `rowsFirst`), the final `Apply` included.
   */
  function Corner(p: Vec2, dx: int, dy: int, rowsFirst: bool, k: nat): Vec2
  {
    if !rowsFirst then
      if k < Abs(dx) then (Toward(p.0, dx, k + 1), p.1)
      else (p.0 + dx, Toward(p.1, dy, if k < Abs(dx) + Abs(dy) then k - Abs(dx) + 1 else Abs(dy)))
    else
      if k < Abs(dy) then (p.0, Toward(p.1, dy, k + 1))
      else (Toward(p.0, dx, if k < Abs(dx) + Abs(dy) then k - Abs(dy) + 1 else Abs(dx)), p.1 + dy)
  }

  /** The cells passed by moving along columns, then rows. */
  lemma TraceXY(p: Vec2, dx: int, dy: int)
    ensures |Trace(p, ColumnsFirst(dx, dy))| == Abs(dx) + Abs(dy) + 1
    ensures forall k :: 0 <= k < Abs(dx) + Abs(dy) + 1 ==>
              Trace(p, ColumnsFirst(dx, dy))[k] == Corner(p, dx, dy, false, k)
    ensures End(p, ColumnsFirst(dx, dy)) == (p.0 + dx, p.1 + dy)
  {
    TraceX(p, dx);
    TraceY((p.0 + dx, p.1), dy);
    TraceAppend(p, MapX(dx), MapY(dy));
    TraceApply(p, MapX(dx) + MapY(dy));
  }

  /** The cells passed by moving along rows, then columns. */
  lemma TraceYX(p: Vec2, dx: int, dy: int)
    ensures |Trace(p, RowsFirst(dx, dy))| == Abs(dx) + Abs(dy) + 1
    ensures forall k :: 0 <= k < Abs(dx) + Abs(dy) + 1 ==>
              Trace(p, RowsFirst(dx, dy))[k] == Corner(p, dx, dy, true, k)
    ensures End(p, RowsFirst(dx, dy)) == (p.0 + dx, p.1 + dy)
  {
    TraceY(p, dy);
    TraceX((p.0, p.1 + dy), dx);
    TraceAppend(p, MapY(dy), MapX(dx));
    TraceApply(p, MapY(dy) + MapX(dx));
  }

  /** Every way of spelling out a move takes the arm from the origin to the target. */
  lemma RealizationsReach(origin: Vec2, target: Vec2, keypad: bool)
    ensures forall i :: 0 <= i < |Realizations(origin, target, keypad)| ==>
              End(origin, Realizations(origin, target, keypad)[i]) == target
  {
    var dx, dy := target.0 - origin.0, target.1 - origin.1;
    Straight(dx, dy);
    TraceXY(origin, dx, dy);
    TraceYX(origin, dx, dy);
  }

  /**
   * Between two keys of a keypad, a move whose corner is not the gap
   * passes only cells of the keypad: the gap is in a corner of the
   * keypad, so a straight run reaches it only at its end.
   */
  lemma CornerSafe(p: Vec2, dx: int, dy: int, rowsFirst: bool, keypad: bool)
    requires OnPad(p, keypad) && OnPad((p.0 + dx, p.1 + dy), keypad)
    requires (if rowsFirst then (p.0, p.1 + dy) else (p.0 + dx, p.1)) != Illegal(keypad)
    ensures forall k :: 0 <= k < Abs(dx) + Abs(dy) + 1 ==> Corner(p, dx, dy, rowsFirst, k) != Illegal(keypad)
  {
  }

  /** Columns first, then rows, avoids the gap when the corner is not the gap. */
  lemma SafeXY(p: Vec2, dx: int, dy: int, keypad: bool)
    requires OnPad(p, keypad) && OnPad((p.0 + dx, p.1 + dy), keypad) && (p.0 + dx, p.1) != Illegal(keypad)
    ensures Illegal(keypad) !in Trace(p, ColumnsFirst(dx, dy))
  {
    TraceXY(p, dx, dy);
    CornerSafe(p, dx, dy, false, keypad);
  }

  /** Rows first, then columns, avoids the gap when the corner is not the gap. */
  lemma SafeYX(p: Vec2, dx: int, dy: int, keypad: bool)
    requires OnPad(p, keypad) && OnPad((p.0 + dx, p.1 + dy), keypad) && (p.0, p.1 + dy) != Illegal(keypad)
    ensures Illegal(keypad) !in Trace(p, RowsFirst(dx, dy))
  {
    TraceYX(p, dx, dy);
    CornerSafe(p, dx, dy, true, keypad);
  }

  /** Between two keys of a keypad, no way of spelling out the move passes over the gap. */
  lemma RealizationsSafe(origin: Vec2, target: Vec2, keypad: bool)
    requires OnPad(origin, keypad) && OnPad(target, keypad)
    ensures forall i :: 0 <= i < |Realizations(origin, target, keypad)| ==>
              Illegal(keypad) !in Trace(origin, Realizations(origin, target, keypad)[i])
  {
    var dx, dy := target.0 - origin.0, target.1 - origin.1;
    var rs := Realizations(origin, target, keypad);
    if dx == 0 || dy == 0 {
      Straight(dx, dy);
      SafeXY(origin, dx, dy, keypad);
      assert rs == [ColumnsFirst(dx, dy)];
    } else if (origin.0 + dx, origin.1) == Illegal(keypad) {
      SafeYX(origin, dx, dy, keypad);
      assert rs == [RowsFirst(dx, dy)];
    } else if (origin.0, origin.1 + dy) == Illegal(keypad) {
      SafeXY(origin, dx, dy, keypad);
      assert rs == [ColumnsFirst(dx, dy)];
    } else {
      SafeXY(origin, dx, dy, keypad);
      SafeYX(origin, dx, dy, keypad);
      assert rs == [ColumnsFirst(dx, dy), RowsFirst(dx, dy)];
    }
  }

  // ----- The fewest presses -----

  function Min(a: nat, b: nat): nat
  {
    if a <= b then a else b
  }

  /**
   * The fewest presses the person makes so that the arm at `depth` moves
   * from `origin` to `target` and presses the key there. The person's own
   * keypad is at `maxDepth`, where a move costs as many presses as it
   * takes; the numeric keypad is at depth 0.
   */
  function Cost(origin: Vec2, target: Vec2, depth: nat, maxDepth: nat): nat
    requires depth <= maxDepth
    decreases maxDepth - depth, 1, 0
  {
    var rs := Realizations(origin, target, depth == 0);
    if depth == maxDepth then |rs[0]|
    else
      var first := Presses(rs[0], DirPosition(Apply), depth + 1, maxDepth);
      if |rs| == 1 then first else Min(first, Presses(rs[1], DirPosition(Apply), depth + 1, maxDepth))
  }

  /** The fewest presses for the arm at `depth` to press `keys` in turn, starting at `from`. */
  function Presses(keys: seq<DirKey>, from: Vec2, depth: nat, maxDepth: nat): nat
    requires depth <= maxDepth
    decreases maxDepth - depth + 1, 0, |keys|
  {
    if keys == [] then 0
    else Cost(from, DirPosition(keys[0]), depth, maxDepth) + Presses(keys[1..], DirPosition(keys[0]), depth, maxDepth)
  }

  /** Above the person's own keypad, a move costs the cheapest of its spellings, one level up. */
  lemma CostIsCheapest(origin: Vec2, target: Vec2, depth: nat, maxDepth: nat)
    requires depth < maxDepth
    ensures var rs := Realizations(origin, target, depth == 0);
      (forall i :: 0 <= i < |rs| ==> Cost(origin, target, depth, maxDepth) <= Presses(rs[i], DirPosition(Apply), depth + 1, maxDepth)) &&
      (exists i :: 0 <= i < |rs| && Cost(origin, target, depth, maxDepth) == Presses(rs[i], DirPosition(Apply), depth + 1, maxDepth))
  {
    var rs := Realizations(origin, target, depth == 0);
    if Cost(origin, target, depth, maxDepth) == Presses(rs[0], DirPosition(Apply), depth + 1, maxDepth) {
      assert 0 < |rs|;
    } else {
      assert Cost(origin, target, depth, maxDepth) == Presses(rs[1], DirPosition(Apply), depth + 1, maxDepth);
    }
  }

  /** Each level of robots costs at least the presses of the level below it. */
  lemma {:induction false} CostAtLeast(origin: Vec2, target: Vec2, depth: nat, maxDepth: nat)
    requires depth <= maxDepth
    ensures Cost(origin, target, depth, maxDepth) >= Abs(target.0 - origin.0) + Abs(target.1 - origin.1) + 1
    decreases maxDepth - depth, 1, 0
  {
    var rs := Realizations(origin, target, depth == 0);
    if depth < maxDepth {
      PressesAtLeast(rs[0], DirPosition(Apply), depth + 1, maxDepth);
      if |rs| == 2 {
        PressesAtLeast(rs[1], DirPosition(Apply), depth + 1, maxDepth);
      }
    }
  }

  /** Pressing a sequence of keys takes at least one press per key. */
  lemma {:induction false} PressesAtLeast(keys: seq<DirKey>, from: Vec2, depth: nat, maxDepth: nat)
    requires depth <= maxDepth
    ensures Presses(keys, from, depth, maxDepth) >= |keys|
    decreases maxDepth - depth + 1, 0, |keys|
  {
    if keys != [] {
      CostAtLeast(from, DirPosition(keys[0]), depth, maxDepth);
      PressesAtLeast(keys[1..], DirPosition(keys[0]), depth, maxDepth);
    }
  }

  /** Every cached cost is the true cost for its move and depth. */
  ghost predicate CacheSound(cache: map<(Vec2, Vec2, nat), nat>, maxDepth: nat)
  {
    forall key :: key in cache ==> key.2 <= maxDepth && cache[key] == Cost(key.0, key.1, key.2, maxDepth)
  }

  /** The fewest presses for one move, looked up in or added to the cache. */
  method OptimalMove(origin: Vec2, target: Vec2, depth: nat, maxDepth: nat, cache: map<(Vec2, Vec2, nat), nat>)
    returns (output: nat, cache': map<(Vec2, Vec2, nat), nat>)
    requires depth <= maxDepth && CacheSound(cache, maxDepth)
    ensures output == Cost(origin, target, depth, maxDepth) && CacheSound(cache', maxDepth)
    decreases maxDepth - depth, 1, 0
  {
    var key := (origin, target, depth);
    if key in cache {
      return cache[key], cache;
    }
    var rs := Realizations(origin, target, depth == 0);
    if depth == maxDepth {
      return |rs[0]|, cache;
    }
    cache' := cache;
    output := 0;
    for i := 0 to |rs|
      invariant CacheSound(cache', maxDepth)
      invariant i == 1 ==> output == Presses(rs[0], DirPosition(Apply), depth + 1, maxDepth)
      invariant i == 2 ==> output == Min(Presses(rs[0], DirPosition(Apply), depth + 1, maxDepth),
                                         Presses(rs[1], DirPosition(Apply), depth + 1, maxDepth))
    {
      var result;
      result, cache' := SequencePresses(rs[i], depth + 1, maxDepth, cache');
      if i == 0 || result < output {
        output := result;
      }
    }
    cache' := cache'[key := output];
  }

  /** The presses for the arm at `depth` to press `sequence` in turn, starting at `Apply`. */
  method SequencePresses(sequence: seq<DirKey>, depth: nat, maxDepth: nat, cache: map<(Vec2, Vec2, nat), nat>)
    returns (result: nat, cache': map<(Vec2, Vec2, nat), nat>)
    requires depth <= maxDepth && CacheSound(cache, maxDepth)
    ensures result == Presses(sequence, DirPosition(Apply), depth, maxDepth) && CacheSound(cache', maxDepth)
    decreases maxDepth - depth + 1, 0, |sequence|
  {
    result := 0;
    var position := DirPosition(Apply);
    cache' := cache;
    for i := 0 to |sequence|
      invariant CacheSound(cache', maxDepth)
      invariant result + Presses(sequence[i..], position, depth, maxDepth) == Presses(sequence, DirPosition(Apply), depth, maxDepth)
    {
      assert sequence[i..][1..] == sequence[i + 1..];
      var length;
      length, cache' := OptimalMove(position, DirPosition(sequence[i]), depth, maxDepth, cache');
      position := DirPosition(sequence[i]);
      result := result + length;
    }
  }

  // ----- Codes -----

  /** The keys of a line; a character other than `A` or a digit is an error. */
  function ParseCode(line: string): (r: Option<seq<Key>>)
    ensures r.Some? <==> forall i :: 0 <= i < |line| ==> KeyOf(line[i]).Some?
    ensures r.Some? ==> (|r.value| == |line| && forall i :: 0 <= i < |line| ==> KeyOf(line[i]) == Some(r.value[i]))
  {
    if forall i :: 0 <= i < |line| ==> KeyOf(line[i]).Some? then
      Some(seq(|line|, i requires 0 <= i < |line| => KeyOf(line[i]).value))
    else None
  }

  /** The `i`-th key from the end of `ds` times `10^i`, summed from `i` on. */
  function PowerSum(ds: seq<Key>, i: nat): nat
    requires i <= |ds| && forall k :: 0 <= k < |ds| ==> ds[k].Digit?
    decreases |ds| - i
  {
    if i == |ds| then 0 else ds[|ds| - 1 - i].n * Pow10(i) + PowerSum(ds, i + 1)
  }

  /**
   * The number the keys before the last spell; an empty code or an `A`
   * before the last key is an error.
   */
  function Numeric(code: seq<Key>): (r: Option<nat>)
    ensures r.Some? <==> code != [] && forall i :: 0 <= i < |code| - 1 ==> code[i].Digit?
  {
    if code == [] then None
    else
      var front := code[..|code| - 1];
      if A in front then None
      else Some(PowerSum(front, 0))
  }

  /** Dropping the last digit divides the power sum past position 0 by ten. */
  lemma {:induction false} PowerSumShift(ds: seq<Key>, i: nat)
    requires |ds| >= 1 && i <= |ds| - 1 && forall k :: 0 <= k < |ds| ==> ds[k].Digit?
    ensures PowerSum(ds, i + 1) == 10 * PowerSum(ds[..|ds| - 1], i)
    decreases |ds| - i
  {
    var front := ds[..|ds| - 1];
    if i < |ds| - 1 {
      PowerSumShift(ds, i + 1);
      assert ds[|ds| - 1 - (i + 1)] == front[|front| - 1 - i];
      var d := front[|front| - 1 - i].n;
      assert d * Pow10(i + 1) == 10 * (d * Pow10(i));
    }
  }

  /** The keys of a run of digits. */
  function DigitKeys(s: string): (ds: seq<Key>)
    requires AllDigits(s)
    ensures |ds| == |s| && forall k :: 0 <= k < |s| ==> ds[k] == Digit(DigitValue(s[k]))
  {
    seq(|s|, k requires 0 <= k < |s| => Digit(DigitValue(s[k])))
  }

  /** The power sum of digit keys is the decimal value of the digits. */
  lemma {:induction false} PowerSumValue(s: string)
    requires AllDigits(s)
    ensures PowerSum(DigitKeys(s), 0) == DigitsValue(s)
    decreases |s|
  {
    if s != [] {
      var ds := DigitKeys(s);
      var n := |s| - 1;
      PowerSumShift(ds, 0);
      assert ds[..n] == DigitKeys(s[..n]);
      PowerSumValue(s[..n]);
    }
  }

  /** A code of digits followed by `A` has the digits' decimal value as its number. */
  lemma NumericOfDigits(s: string)
    requires AllDigits(s)
    ensures ParseCode(s + "A").Some? && Numeric(ParseCode(s + "A").value) == Some(DigitsValue(s))
  {
    var line := s + "A";
    assert forall i :: 0 <= i < |s| ==> line[i] == s[i];
    assert ParseCode(line).Some?;
    var code := ParseCode(line).value;
    assert code[..|s|] == DigitKeys(s);
    PowerSumValue(s);
  }

  /** The presses for the numeric arm to type `code` from `from`. */
  function KeyPresses(code: seq<Key>, from: Vec2, robots: nat): nat
  {
    if code == [] then 0
    else Cost(from, KeyPosition(code[0]), 0, robots) + KeyPresses(code[1..], KeyPosition(code[0]), robots)
  }

  /** The presses to type a whole code, starting at `A`, with a fresh cache. */
  method CodePresses(code: seq<Key>, robots: nat) returns (result: nat)
    ensures result == KeyPresses(code, KeyPosition(A), robots)
  {
    result := 0;
    var position := KeyPosition(A);
    var cache: map<(Vec2, Vec2, nat), nat> := map[];
    for i := 0 to |code|
      invariant CacheSound(cache, robots)
      invariant result + KeyPresses(code[i..], position, robots) == KeyPresses(code, KeyPosition(A), robots)
    {
      assert code[i..][1..] == code[i + 1..];
      var movement;
      movement, cache := OptimalMove(position, KeyPosition(code[i]), 0, robots, cache);
      position := KeyPosition(code[i]);
      result := result + movement;
    }
  }

  /** A line's complexity: its presses times its number. */
  function Complexity(line: string, robots: nat): Option<nat>
  {
    var code := ParseCode(line);
    var numeric := if code.Some? then Numeric(code.value) else None;
    if numeric.None? then None else Some(KeyPresses(code.value, KeyPosition(A), robots) * numeric.value)
  }

  /** The sum of the values, or nothing when one of them is missing. */
  function SumAll(cs: seq<Option<nat>>): (r: Option<nat>)
    ensures r.Some? <==> forall i :: 0 <= i < |cs| ==> cs[i].Some?
  {
    if cs == [] then Some(0)
    else
      var sum := SumAll(cs[..|cs| - 1]);
      var c := cs[|cs| - 1];
      if sum.None? || c.None? then None else Some(sum.value + c.value)
  }

  /** The complexity of each line. */
  function Complexities(lines: seq<string>, robots: nat): (cs: seq<Option<nat>>)
    ensures |cs| == |lines|
  {
    if lines == [] then [] else Complexities(lines[..|lines| - 1], robots) + [Complexity(lines[|lines| - 1], robots)]
  }

  /** Each line has its own complexity. */
  lemma {:induction false} ComplexitiesAt(lines: seq<string>, robots: nat, i: nat)
    requires i < |lines|
    ensures Complexities(lines, robots)[i] == Complexity(lines[i], robots)
    decreases |lines|
  {
    var n := |lines| - 1;
    if i < n {
      ComplexitiesAt(lines[..n], robots, i);
    }
  }

  /** The sum of the lines' complexities, or nothing when a line is malformed. */
  function Total(lines: seq<string>, robots: nat): Option<nat>
  {
    SumAll(Complexities(lines, robots))
  }

  /** The input has a total exactly when every line is a code with a number. */
  lemma TotalSome(lines: seq<string>, robots: nat)
    ensures Total(lines, robots).Some? <==> forall i :: 0 <= i < |lines| ==> Complexity(lines[i], robots).Some?
  {
    forall i | 0 <= i < |lines| {
      ComplexitiesAt(lines, robots, i);
    }
  }

  /** The complexity of line `i`, with the presses found by `CodePresses`. */
  method LineComplexity(lines: seq<string>, i: nat, robots: nat) returns (r: Option<nat>)
    requires i < |lines|
    ensures r == Complexities(lines, robots)[i]
  {
    ComplexitiesAt(lines, robots, i);
    var code := ParseCode(lines[i]);
    var numeric := if code.Some? then Numeric(code.value) else None;
    if numeric.None? {
      return None;
    }
    var result := CodePresses(code.value, robots);
    return Some(result * numeric.value);
  }

  /** One more value adds to the sum. */
  lemma SumAllStep(cs: seq<Option<nat>>, i: nat, sum: nat)
    requires i < |cs| && SumAll(cs[..i]) == Some(sum) && cs[i].Some?
    ensures SumAll(cs[..i + 1]) == Some(sum + cs[i].value)
  {
    assert cs[..i + 1][..i] == cs[..i];
  }

  /** The sum of the complexities of the codes, one line per code. */
  method Solve(lines: seq<string>, robots: nat) returns (r: Option<nat>)
    ensures r == Total(lines, robots)
  {
    var complexities := 0;
    for i := 0 to |lines|
      invariant SumAll(Complexities(lines, robots)[..i]) == Some(complexities)
    {
      var complexity := LineComplexity(lines, i, robots);
      if complexity.None? {
        return None;
      }
      SumAllStep(Complexities(lines, robots), i, complexities);
      complexities := complexities + complexity.value;
    }
    assert Complexities(lines, robots)[..|lines|] == Complexities(lines, robots);
    return Some(complexities);
  }

  /** Two robots between the person and the numeric keypad. */
  method Part1(lines: seq<string>) returns (r: Option<nat>)
    ensures r == Total(lines, 2)
  {
    r := Solve(lines, 2);
  }

  /** Twenty-five robots between the person and the numeric keypad. */
  method Part2(lines: seq<string>) returns (r: Option<nat>)
    ensures r == Total(lines, 25)
  {
    r := Solve(lines, 25);
  }
}
