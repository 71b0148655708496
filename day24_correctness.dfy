/**
 * Evaluating the circuit and probing whether it adds: the memoising wire
 * evaluator, the bit-by-bit adder check, the sum of all output wires for
 * one assignment of the inputs, and the first output bit that disagrees
 * with true addition over a batch of sampled inputs.
 */
module Correctness {
  import opened Wrappers
  import opened CircuitTypes

  type Equations = map<Wire, Equation>
  type Values = map<Wire, bool>

  /** The number of adder bits the repair works with. */
  const NUM_BITS: nat := 44
  /** The number of random input assignments one probe draws. */
  const SAMPLE_SIZE: nat := 100

  // ----- What a wire's value is -----

  /**
   * The value of `w` given the known wires `base`, when every wire met on
   * the way down is known or has an equation, and no wire on the current
   * `path` is met again (a cycle gives no value).
   */
  function Eval(w: Wire, eqs: Equations, base: Values, path: set<Wire>): Option<bool>
    decreases eqs.Keys - path
  {
    if w in base then Some(base[w])
    else if w in path then None
    else if w !in eqs then None
    else
      var e := eqs[w];
      match Eval(e.a, eqs, base, path + {w})
      case None => None
      case Some(x) =>
        match Eval(e.b, eqs, base, path + {w})
        case None => None
        case Some(y) => Some(e.gate.Compute(x, y))
  }

  /** The value of `w` when nothing is being evaluated yet. */
  function Value(w: Wire, eqs: Equations, base: Values): Option<bool>
  {
    Eval(w, eqs, base, {})
  }

  /** A value found with some wires ruled out is also found with fewer ruled out. */
  lemma {:induction false} EvalPathAntitone(w: Wire, eqs: Equations, base: Values, path: set<Wire>, fewer: set<Wire>)
    requires Eval(w, eqs, base, path).Some? && fewer <= path
    ensures Eval(w, eqs, base, fewer) == Eval(w, eqs, base, path)
    decreases eqs.Keys - path
  {
    if w !in base {
      var e := eqs[w];
      EvalPathAntitone(e.a, eqs, base, path + {w}, fewer + {w});
      EvalPathAntitone(e.b, eqs, base, path + {w}, fewer + {w});
    }
  }

  /** Every memoised wire is an input or has an equation whose operands are memoised too. */
  ghost predicate Closed(values: Values, eqs: Equations, base: Values)
  {
    // Triggered on the memo lookup, so that an operand being memoised does
    // not set off another instance of this or of the other memo quantifiers.
    forall k {:trigger values[k]} :: k in values ==>
      k in base || (k in eqs && eqs[k].a in values && eqs[k].b in values)
  }

  lemma ClosedAt(values: Values, eqs: Equations, base: Values, k: Wire)
    requires Closed(values, eqs, base) && k in values && k !in base
    ensures k in eqs && eqs[k].a in values && eqs[k].b in values
  {
    assert values[k] == values[k];
  }

  /** For a memoised wire, only the memoised part of the path matters. */
  lemma {:induction false} MemoPathIrrelevant(m: Wire, eqs: Equations, base: Values, values: Values,
                                               path: set<Wire>, other: set<Wire>)
    requires Closed(values, eqs, base) && m in values
    requires forall k :: k in values ==> (k in path <==> k in other)
    ensures Eval(m, eqs, base, path) == Eval(m, eqs, base, other)
    decreases eqs.Keys - path
  {
    if m !in base && m !in path {
      ClosedAt(values, eqs, base, m);
      var e := eqs[m];
      MemoPathIrrelevant(e.a, eqs, base, values, path + {m}, other + {m});
      MemoPathIrrelevant(e.b, eqs, base, values, path + {m}, other + {m});
    }
  }

  /**
   * The state the evaluator keeps between calls: the inputs are memoised
   * unchanged, nothing memoised is pending, and every memoised value is the
   * wire's value.
   */
  ghost predicate MemoInv(values: Values, pending: set<Wire>, eqs: Equations, base: Values)
  {
    && (forall k :: k in base ==> k in values && values[k] == base[k])
    && (forall k :: k in values ==> k !in pending)
    && Closed(values, eqs, base)
    && Sound(values, eqs, base)
  }

  ghost predicate Sound(values: Values, eqs: Equations, base: Values)
  {
    // Triggered only by a mention of the wire's value, which evaluating a wire never creates.
    forall k {:trigger Value(k, eqs, base)} :: k in values ==> Value(k, eqs, base) == Some(values[k])
  }

  lemma InputsStartMemo(eqs: Equations, base: Values)
    ensures MemoInv(base, {}, eqs, base)
  {
  }

  /**
   * Computes the value of `wire`, memoising it in `values`; `pending` holds
   * the wires whose evaluation has started and not succeeded. The result is
   * the wire's value with the pending wires ruled out; the memo only grows,
   * and a success leaves `pending` as it was.
   */
  method ComputeWireValue(wire: Wire, eqs: Equations, values: Values, pending: set<Wire>, ghost base: Values)
    returns (r: Option<bool>, values': Values, pending': set<Wire>)
    requires MemoInv(values, pending, eqs, base)
    ensures MemoInv(values', pending', eqs, base)
    ensures r == Eval(wire, eqs, base, pending)
    ensures forall k {:trigger values[k]} :: k in values ==> k in values' && values'[k] == values[k]
    ensures pending <= pending'
    ensures wire in values ==> r == Some(values[wire]) && values' == values && pending' == pending
    ensures wire !in values && wire in pending ==> r == None && values' == values && pending' == pending
    ensures r.Some? ==> wire in values' && values'[wire] == r.value && pending' == pending
    decreases eqs.Keys - pending
  {
    if wire in values {
      assert Value(wire, eqs, base) == Some(values[wire]);
      MemoPathIrrelevant(wire, eqs, base, values, pending, {});
      return Some(values[wire]), values, pending;
    }
    if wire in pending {
      return None, values, pending;
    }
    var started := pending + {wire};
    if wire !in eqs {
      return None, values, started;
    }
    var eq := eqs[wire];
    MemoStart(values, pending, wire, eqs, base);
    var a, v1, p1 := ComputeWireValue(eq.a, eqs, values, started, base);
    if a.None? {
      return None, v1, p1;
    }
    var b, v2, p2 := ComputeWireValue(eq.b, eqs, v1, started, base);
    if b.None? {
      return None, v2, p2;
    }
    var result := eq.gate.Compute(a.value, b.value);
    assert Eval(wire, eqs, base, pending) == Some(result);
    MemoAfterSuccess(wire, eqs, base, v2, pending, result);
    r, values', pending' := Some(result), v2[wire := result], pending;
  }

  lemma MemoStart(values: Values, pending: set<Wire>, wire: Wire, eqs: Equations, base: Values)
    requires MemoInv(values, pending, eqs, base) && wire !in values
    ensures MemoInv(values, pending + {wire}, eqs, base)
  {
  }

  lemma MemoAfterSuccess(wire: Wire, eqs: Equations, base: Values, values: Values, pending: set<Wire>, result: bool)
    requires MemoInv(values, pending + {wire}, eqs, base)
    requires wire !in values && wire !in pending && wire in eqs
    requires eqs[wire].a in values && eqs[wire].b in values
    requires Eval(wire, eqs, base, pending) == Some(result)
    ensures forall k :: k in base ==> k in values[wire := result] && values[wire := result][k] == base[k]
    ensures forall k :: k in values[wire := result] ==> k !in pending
    ensures Closed(values[wire := result], eqs, base)
    ensures Sound(values[wire := result], eqs, base)
  {
    EvalPathAntitone(wire, eqs, base, pending, {});
    ClosedAfterInsert(wire, eqs, base, values, result);
    SoundAfterInsert(wire, eqs, base, values, result);
    SeparateAfterInsert(wire, base, values, pending, result);
  }

  lemma SeparateAfterInsert(wire: Wire, base: Values, values: Values, pending: set<Wire>, result: bool)
    requires forall k :: k in base ==> k in values && values[k] == base[k]
    requires forall k :: k in values ==> k !in pending + {wire}
    requires wire !in values && wire !in pending
    ensures forall k :: k in base ==> k in values[wire := result] && values[wire := result][k] == base[k]
    ensures forall k :: k in values[wire := result] ==> k !in pending
  {
  }

  lemma ClosedAfterInsert(wire: Wire, eqs: Equations, base: Values, values: Values, result: bool)
    requires Closed(values, eqs, base)
    requires wire in eqs && eqs[wire].a in values && eqs[wire].b in values
    ensures Closed(values[wire := result], eqs, base)
  {
    var memo := values[wire := result];
    forall k | k in memo ensures k in base || (k in eqs && eqs[k].a in memo && eqs[k].b in memo) {
      if k != wire && k !in base { ClosedAt(values, eqs, base, k); }
    }
  }

  lemma SoundAfterInsert(wire: Wire, eqs: Equations, base: Values, values: Values, result: bool)
    requires Sound(values, eqs, base) && Value(wire, eqs, base) == Some(result)
    ensures Sound(values[wire := result], eqs, base)
  {
    var memo := values[wire := result];
    forall k | k in memo ensures Value(k, eqs, base) == Some(memo[k]) {
      if k != wire { assert values[k] == memo[k]; }
    }
  }

  // ----- Properties of a wire's value -----

  /** A known value of a computed wire is its gate applied to its operands' values. */
  lemma ValueOfGate(w: Wire, eqs: Equations, base: Values)
    requires Value(w, eqs, base).Some? && w !in base
    ensures w in eqs
    ensures Value(eqs[w].a, eqs, base).Some? && Value(eqs[w].b, eqs, base).Some?
    ensures Value(w, eqs, base).value
            == eqs[w].gate.Compute(Value(eqs[w].a, eqs, base).value, Value(eqs[w].b, eqs, base).value)
  {
    var e := eqs[w];
    var none: set<Wire> := {};
    assert none + {w} == {w};
    EvalPathAntitone(e.a, eqs, base, {w}, {});
    EvalPathAntitone(e.b, eqs, base, {w}, {});
  }

  /**
   * A chain of computed wires, each an operand of the one before, that
   * returns to its first wire.
   */
  ghost predicate DependencyCycle(cycle: seq<Wire>, eqs: Equations, base: Values)
  {
    && |cycle| >= 2 && cycle[0] == cycle[|cycle| - 1]
    && forall i :: 0 <= i < |cycle| - 1 ==>
         cycle[i] !in base && cycle[i] in eqs
         && (cycle[i + 1] == eqs[cycle[i]].a || cycle[i + 1] == eqs[cycle[i]].b)
  }

  lemma {:induction false} CycleFrom(cycle: seq<Wire>, eqs: Equations, base: Values, i: nat, path: set<Wire>)
    requires DependencyCycle(cycle, eqs, base)
    requires 1 <= i < |cycle| && cycle[0] in path
    ensures Eval(cycle[i], eqs, base, path) == None
    decreases |cycle| - i
  {
    if i < |cycle| - 1 && cycle[i] !in path {
      var e := eqs[cycle[i]];
      CycleFrom(cycle, eqs, base, i + 1, path + {cycle[i]});
      if cycle[i + 1] != e.a && Eval(e.a, eqs, base, path + {cycle[i]}).Some? {
        assert cycle[i + 1] == e.b;
      }
    }
  }

  /** A wire that depends on itself, however indirectly, has no value. */
  lemma CycleHasNoValue(cycle: seq<Wire>, eqs: Equations, base: Values)
    requires DependencyCycle(cycle, eqs, base)
    ensures Value(cycle[0], eqs, base) == None
  {
    var e := eqs[cycle[0]];
    var none: set<Wire> := {};
    assert none + {cycle[0]} == {cycle[0]};
    CycleFrom(cycle, eqs, base, 1, {cycle[0]});
    if cycle[1] != e.a && Eval(e.a, eqs, base, {cycle[0]}).Some? {
      assert cycle[1] == e.b;
    }
  }

  // ----- The bit-by-bit adder check -----

  /**
   * The value given to the inputs of bit `i` when probing bit `bit`: the
   * bit below carries, bit `bit` gets the case under test, the rest are 0.
   */
  function ProbeBits(i: nat, bit: nat, x: bool, y: bool, carry: bool): (bool, bool)
    requires bit > 0
  {
    if i == bit - 1 then (carry, carry)
    else if i == bit then (x, y)
    else (false, false)
  }

  /** The input wires of bits `0 .. n` set as in the probe of bit `bit`. */
  function ProbeValues(inputs: seq<(Wire, Wire)>, n: nat, bit: nat, x: bool, y: bool, carry: bool): (m: Values)
    requires bit > 0 && n <= |inputs|
    ensures forall i :: 0 <= i < n ==> inputs[i].0 in m && inputs[i].1 in m
  {
    if n == 0 then map[]
    else
      var bits := ProbeBits(n - 1, bit, x, y, carry);
      ProbeValues(inputs, n - 1, bit, x, y, carry)[inputs[n - 1].0 := bits.0][inputs[n - 1].1 := bits.1]
  }

  /** Output `bit` is the sum bit of `x`, `y` and an incoming `carry`. */
  predicate ProbeCase(bit: nat, eqs: Equations, inputs: seq<(Wire, Wire)>, outputs: seq<Wire>,
                      x: bool, y: bool, carry: bool)
    requires 0 < bit < |inputs| && bit < |outputs|
  {
    Value(outputs[bit], eqs, ProbeValues(inputs, bit + 1, bit, x, y, carry))
      == Some(Xor.Compute(Xor.Compute(x, y), carry))
  }

  /**
   * Every bit from 1 to `bit` adds its two inputs and a carry from the bit
   * below, each probed with the lower bits at 0. Bit 0 itself is not probed.
   */
  predicate AdderUpTo(bit: nat, eqs: Equations, inputs: seq<(Wire, Wire)>, outputs: seq<Wire>)
    requires bit == 0 || (bit < |inputs| && bit < |outputs|)
  {
    bit == 0 ||
    (AdderUpTo(bit - 1, eqs, inputs, outputs)
     && forall x: bool, y: bool, carry: bool :: ProbeCase(bit, eqs, inputs, outputs, x, y, carry))
  }

  /** Passing the check for a bit means passing it for every lower bit. */
  lemma {:induction false} AdderUpToLower(bit: nat, lower: nat, eqs: Equations, inputs: seq<(Wire, Wire)>, outputs: seq<Wire>)
    requires bit == 0 || (bit < |inputs| && bit < |outputs|)
    requires lower <= bit && AdderUpTo(bit, eqs, inputs, outputs)
    ensures AdderUpTo(lower, eqs, inputs, outputs)
    decreases bit
  {
    if lower < bit {
      AdderUpToLower(bit - 1, lower, eqs, inputs, outputs);
    }
  }

  /** The check for `bit` holds exactly when every probed sum bit from 1 to `bit` is right. */
  lemma {:induction false} AdderUpToMeans(bit: nat, eqs: Equations, inputs: seq<(Wire, Wire)>, outputs: seq<Wire>)
    requires bit < |inputs| && bit < |outputs|
    ensures AdderUpTo(bit, eqs, inputs, outputs) <==>
            forall k, x: bool, y: bool, carry: bool :: 0 < k <= bit ==> ProbeCase(k, eqs, inputs, outputs, x, y, carry)
    decreases bit
  {
    if bit > 0 {
      AdderUpToMeans(bit - 1, eqs, inputs, outputs);
    }
  }

  const TRUTH_TABLE: seq<(bool, bool)> := [(false, false), (true, false), (false, true), (true, true)]

  /**
   * Evaluates output `bit` with fresh memo and pending set on the inputs of
   * bits `0 ..= bit` set for the probe, and compares it with the sum bit.
   */
  method Probe(bit: nat, eqs: Equations, inputs: seq<(Wire, Wire)>, outputs: seq<Wire>, x: bool, y: bool, carry: bool)
    returns (ok: bool)
    requires 0 < bit < |inputs| && bit < |outputs|
    ensures ok == ProbeCase(bit, eqs, inputs, outputs, x, y, carry)
  {
    var values := ProbeValues(inputs, bit + 1, bit, x, y, carry);
    InputsStartMemo(eqs, values);
    var z, _, _ := ComputeWireValue(outputs[bit], eqs, values, {}, values);
    ok := z.Some? && Xor.Compute(Xor.Compute(x, y), carry) == z.value;
  }

  /**
   * The recursive check as the source runs it, on any number of wires: the
   * check for bit 0 passes; a failure below `bit` is passed up; a bit with
   * no input pair or no output to probe indexes past the end of its list,
   * which panics, and is `None`.
   */
  function AdderCheck(bit: nat, eqs: Equations, inputs: seq<(Wire, Wire)>, outputs: seq<Wire>): Option<bool>
  {
    if bit == 0 then Some(true)
    else
      match AdderCheck(bit - 1, eqs, inputs, outputs)
      case Some(true) =>
        if bit < |inputs| && bit < |outputs| then
          Some(forall x: bool, y: bool, carry: bool :: ProbeCase(bit, eqs, inputs, outputs, x, y, carry))
        else None
      case lower => lower
  }

  /** Where every probed bit has its wires, the check never panics and gives `AdderUpTo`. */
  lemma {:induction false} AdderCheckAgrees(bit: nat, eqs: Equations, inputs: seq<(Wire, Wire)>, outputs: seq<Wire>)
    requires bit == 0 || (bit < |inputs| && bit < |outputs|)
    ensures AdderCheck(bit, eqs, inputs, outputs) == Some(AdderUpTo(bit, eqs, inputs, outputs))
    decreases bit
  {
    if bit > 0 {
      AdderCheckAgrees(bit - 1, eqs, inputs, outputs);
    }
  }

  /** Runs the adder check for `bit`, evaluating each probe with a fresh memo. */
  method IsAdderUpTo(bit: nat, eqs: Equations, inputs: seq<(Wire, Wire)>, outputs: seq<Wire>) returns (ok: Option<bool>)
    ensures ok == AdderCheck(bit, eqs, inputs, outputs)
    decreases bit
  {
    if bit == 0 {
      return Some(true);
    }
    var lower := IsAdderUpTo(bit - 1, eqs, inputs, outputs);
    if lower != Some(true) {
      return lower;
    }
    if bit >= |inputs| || bit >= |outputs| {
      return None;
    }
    var passed := ProbeAll(bit, eqs, inputs, outputs);
    ok := Some(passed);
  }

  /** Every probe of the truth table and both carries, stopping at the first one that fails. */
  method ProbeAll(bit: nat, eqs: Equations, inputs: seq<(Wire, Wire)>, outputs: seq<Wire>) returns (ok: bool)
    requires 0 < bit < |inputs| && bit < |outputs|
    ensures ok <==> forall x: bool, y: bool, carry: bool :: ProbeCase(bit, eqs, inputs, outputs, x, y, carry)
  {
    var t := 0;
    while t < |TRUTH_TABLE|
      invariant 0 <= t <= |TRUTH_TABLE|
      invariant forall u, carry: bool :: 0 <= u < t ==>
                  ProbeCase(bit, eqs, inputs, outputs, TRUTH_TABLE[u].0, TRUTH_TABLE[u].1, carry)
    {
      var (x, y) := TRUTH_TABLE[t];
      var carries := [false, true];
      var c := 0;
      while c < |carries|
        invariant 0 <= c <= |carries|
        invariant forall v :: 0 <= v < c ==> ProbeCase(bit, eqs, inputs, outputs, x, y, carries[v])
      {
        var passed := Probe(bit, eqs, inputs, outputs, x, y, carries[c]);
        if !passed {
          return false;
        }
        c := c + 1;
      }
      assert ProbeCase(bit, eqs, inputs, outputs, x, y, carries[0]);
      assert ProbeCase(bit, eqs, inputs, outputs, x, y, carries[1]);
      t := t + 1;
    }
    assert forall x: bool, y: bool :: (x, y) in TRUTH_TABLE;
    ok := true;
  }

  /**
   * The check for all `NUM_BITS` bits as the source calls it. With the
   * `NUM_BITS` input pairs the source builds, probing bit `NUM_BITS` reads
   * one input pair past the end.
   */
  method IsAdderAsWritten(eqs: Equations, inputs: seq<(Wire, Wire)>, outputs: seq<Wire>) returns (ok: Option<bool>)
    ensures ok == AdderCheck(NUM_BITS, eqs, inputs, outputs)
  {
    ok := IsAdderUpTo(NUM_BITS, eqs, inputs, outputs);
  }

  /**
   * With `NUM_BITS` input pairs, the check as written never passes: a
   * circuit that passes every bit below panics at bit `NUM_BITS`.
   */
  lemma AsWrittenNeverPasses(eqs: Equations, inputs: seq<(Wire, Wire)>, outputs: seq<Wire>)
    requires |inputs| == NUM_BITS
    ensures AdderCheck(NUM_BITS - 1, eqs, inputs, outputs) == Some(true) ==> AdderCheck(NUM_BITS, eqs, inputs, outputs).None?
    ensures AdderCheck(NUM_BITS, eqs, inputs, outputs) != Some(true)
  {
  }

  /**
   * The check over the bits that have input pairs, 1 to `NUM_BITS - 1`.
   * With the wires the source builds it never panics.
   */
  method IsAdder(eqs: Equations, inputs: seq<(Wire, Wire)>, outputs: seq<Wire>) returns (ok: Option<bool>)
    ensures ok == AdderCheck(NUM_BITS - 1, eqs, inputs, outputs)
    ensures NUM_BITS <= |inputs| && NUM_BITS <= |outputs| ==> ok == Some(AdderUpTo(NUM_BITS - 1, eqs, inputs, outputs))
  {
    ok := IsAdderUpTo(NUM_BITS - 1, eqs, inputs, outputs);
    if NUM_BITS <= |inputs| && NUM_BITS <= |outputs| {
      AdderCheckAgrees(NUM_BITS - 1, eqs, inputs, outputs);
    }
  }

  // ----- Sums over sampled inputs -----

  /**
   * The input wires of the first `n` bits paired with the values at the
   * same positions; where a wire occurs twice the later value wins.
   */
  function Assignment(wires: seq<(Wire, Wire)>, vals: seq<(bool, bool)>, n: nat): (m: Values)
    requires n <= |wires| && n <= |vals|
    ensures forall i :: 0 <= i < n ==> wires[i].0 in m && wires[i].1 in m
  {
    if n == 0 then map[]
    else Assignment(wires, vals, n - 1)[wires[n - 1].0 := vals[n - 1].0][wires[n - 1].1 := vals[n - 1].1]
  }

  /** The assignment of the bits that both `wires` and `vals` describe. */
  function Zipped(wires: seq<(Wire, Wire)>, vals: seq<(bool, bool)>): Values
  {
    Assignment(wires, vals, if |wires| <= |vals| then |wires| else |vals|)
  }

  /** No wire name occurs twice among the first `n` input pairs. */
  predicate DistinctInputs(wires: seq<(Wire, Wire)>, n: nat)
    requires n <= |wires|
  {
    (forall i :: 0 <= i < n ==> wires[i].0 != wires[i].1) &&
    (forall i, j :: 0 <= i < j < n ==>
       wires[i].0 != wires[j].0 && wires[i].0 != wires[j].1 &&
       wires[i].1 != wires[j].0 && wires[i].1 != wires[j].1)
  }

  /** With distinct wire names every input wire reads back the value given for it. */
  lemma {:induction false} AssignmentReadsBack(wires: seq<(Wire, Wire)>, vals: seq<(bool, bool)>, n: nat)
    requires n <= |wires| && n <= |vals| && DistinctInputs(wires, n)
    ensures forall i :: 0 <= i < n ==>
              Assignment(wires, vals, n)[wires[i].0] == vals[i].0 &&
              Assignment(wires, vals, n)[wires[i].1] == vals[i].1
  {
    if n > 0 {
      AssignmentReadsBack(wires, vals, n - 1);
    }
  }

  /**
   * The value of every output wire under one assignment of the inputs,
   * sharing one memo across the outputs and starting each with nothing
   * pending.
   */
  method CalculateSum(eqs: Equations, wires: seq<(Wire, Wire)>, vals: seq<(bool, bool)>, outputs: seq<Wire>)
    returns (zs: seq<Option<bool>>)
    ensures |zs| == |outputs|
    ensures forall i :: 0 <= i < |outputs| ==> zs[i] == Value(outputs[i], eqs, Zipped(wires, vals))
  {
    var base := Zipped(wires, vals);
    var values := base;
    InputsStartMemo(eqs, base);
    zs := [];
    var i := 0;
    while i < |outputs|
      invariant 0 <= i <= |outputs| && |zs| == i
      invariant MemoInv(values, {}, eqs, base)
      invariant forall j :: 0 <= j < i ==> zs[j] == Value(outputs[j], eqs, base)
    {
      var z, values', pending' := ComputeWireValue(outputs[i], eqs, values, {}, base);
      MemoForget(values', pending', eqs, base);
      values := values';
      zs := zs + [z];
      i := i + 1;
    }
  }

  /** The memo stays valid when the pending wires are dropped. */
  lemma MemoForget(values: Values, pending: set<Wire>, eqs: Equations, base: Values)
    requires MemoInv(values, pending, eqs, base)
    ensures MemoInv(values, {}, eqs, base)
  {
  }

  /** The number whose binary digits, lowest first, are `bits`. */
  function Number(bits: seq<bool>): nat
  {
    if bits == [] then 0 else Bit(bits[0]) + 2 * Number(bits[1..])
  }

  /** Bit `i` of `n`: the lowest digit after `i` halvings. */
  function BitOf(n: nat, i: nat): bool
  {
    if i == 0 then n % 2 == 1 else BitOf(n / 2, i - 1)
  }

  /** Reading back the digits of `Number(bits)` gives `bits`. */
  lemma {:induction false} NumberBits(bits: seq<bool>, i: nat)
    requires i < |bits|
    ensures BitOf(Number(bits), i) == bits[i]
  {
    if i > 0 {
      NumberBits(bits[1..], i - 1);
      assert Number(bits) / 2 == Number(bits[1..]);
    }
  }

  /** The first component of every pair, and the second. */
  function Firsts(vals: seq<(bool, bool)>): (r: seq<bool>)
    ensures |r| == |vals| && forall i :: 0 <= i < |vals| ==> r[i] == vals[i].0
  {
    seq(|vals|, i requires 0 <= i < |vals| => vals[i].0)
  }

  function Seconds(vals: seq<(bool, bool)>): (r: seq<bool>)
    ensures |r| == |vals| && forall i :: 0 <= i < |vals| ==> r[i] == vals[i].1
  {
    seq(|vals|, i requires 0 <= i < |vals| => vals[i].1)
  }

  /** The true sum of the two numbers a sample sets on the inputs. */
  function SampleTotal(sample: seq<(bool, bool)>): nat
  {
    Number(Firsts(sample)) + Number(Seconds(sample))
  }

  /** Output bit `i` is present and equal to bit `i` of the true sum `z`. */
  predicate BitCorrect(zs: seq<Option<bool>>, z: nat, i: nat)
    requires i < |zs|
  {
    zs[i] == Some(BitOf(z, i))
  }

  /** The first wrong output bit at or after `from`, if there is one. */
  function FirstMismatch(zs: seq<Option<bool>>, z: nat, from: nat): (r: Option<nat>)
    requires from <= |zs|
    ensures r.None? <==> forall i :: from <= i < |zs| ==> BitCorrect(zs, z, i)
    ensures r.Some? ==> from <= r.value < |zs| && !BitCorrect(zs, z, r.value) &&
                        forall i :: from <= i < r.value ==> BitCorrect(zs, z, i)
    decreases |zs| - from
  {
    if from == |zs| then None
    else if !BitCorrect(zs, z, from) then Some(from)
    else FirstMismatch(zs, z, from + 1)
  }

  /** The lower of two optional bit positions, where no position is above every position. */
  function Earlier(a: Option<nat>, b: Option<nat>): (r: Option<nat>)
    ensures r.None? <==> a.None? && b.None?
    ensures r == a || r == b
    ensures r.Some? ==> (a.Some? ==> r.value <= a.value) && (b.Some? ==> r.value <= b.value)
  {
    match (a, b)
    case (None, _) => b
    case (_, None) => a
    case (Some(i), Some(j)) => if j < i then b else a
  }

  /** The output bits obtained for one sample, with the true sum they should spell. */
  datatype Observation = Observation(zs: seq<Option<bool>>, z: nat)

  /** The outputs the circuit gives for one sample. */
  function SampleSum(eqs: Equations, inputs: seq<(Wire, Wire)>, outputs: seq<Wire>, sample: seq<(bool, bool)>): (zs: seq<Option<bool>>)
    ensures |zs| == |outputs|
    ensures forall i :: 0 <= i < |outputs| ==> zs[i] == Value(outputs[i], eqs, Zipped(inputs, sample))
  {
    seq(|outputs|, i requires 0 <= i < |outputs| => Value(outputs[i], eqs, Zipped(inputs, sample)))
  }

  /** What each sample makes of the circuit. */
  function Observations(eqs: Equations, inputs: seq<(Wire, Wire)>, outputs: seq<Wire>, samples: seq<seq<(bool, bool)>>): (obs: seq<Observation>)
    ensures |obs| == |samples|
    ensures forall s :: 0 <= s < |samples| ==>
              obs[s] == Observation(SampleSum(eqs, inputs, outputs, samples[s]), SampleTotal(samples[s]))
  {
    seq(|samples|, s requires 0 <= s < |samples| =>
        Observation(SampleSum(eqs, inputs, outputs, samples[s]), SampleTotal(samples[s])))
  }

  /** The outputs of one evaluation of every output wire are what sample `s` observes. */
  lemma ObservedSample(eqs: Equations, inputs: seq<(Wire, Wire)>, outputs: seq<Wire>, samples: seq<seq<(bool, bool)>>,
                       s: nat, zs: seq<Option<bool>>)
    requires s < |samples| && |zs| == |outputs|
    requires forall i :: 0 <= i < |outputs| ==> zs[i] == Value(outputs[i], eqs, Zipped(inputs, samples[s]))
    ensures Observations(eqs, inputs, outputs, samples)[s] == Observation(zs, SampleTotal(samples[s]))
  {
    assert zs == SampleSum(eqs, inputs, outputs, samples[s]);
  }

  /** The lowest output bit that some observation gets wrong. */
  function Earliest(obs: seq<Observation>): Option<nat>
  {
    if obs == [] then None
    else
      var last := obs[|obs| - 1];
      Earlier(Earliest(obs[..|obs| - 1]), FirstMismatch(last.zs, last.z, 0))
  }

  /** Output bit `i` is right in observation `o`. */
  predicate Right(o: Observation, i: nat)
  {
    i < |o.zs| && BitCorrect(o.zs, o.z, i)
  }

  /** No bit is reported exactly when every observation has every output bit right. */
  lemma {:induction false} EarliestNone(obs: seq<Observation>)
    ensures Earliest(obs).None? <==>
            forall s, i :: 0 <= s < |obs| && 0 <= i < |obs[s].zs| ==> Right(obs[s], i)
  {
    if obs != [] {
      var init := obs[..|obs| - 1];
      var last := obs[|obs| - 1];
      EarliestNone(init);
      assert forall s :: 0 <= s < |init| ==> obs[s] == init[s];
      if Earliest(obs).None? {
        forall s, i | 0 <= s < |obs| && 0 <= i < |obs[s].zs|
          ensures Right(obs[s], i)
        {
          if s < |init| {
            assert Right(init[s], i);
          } else {
            assert BitCorrect(last.zs, last.z, i);
          }
        }
      } else if Earliest(init).None? {
        var k := FirstMismatch(last.zs, last.z, 0).value;
        assert !Right(obs[|obs| - 1], k);
      }
    }
  }

  /**
   * A reported bit is a bit some observation gets wrong, and every lower
   * bit is right in every observation.
   */
  lemma {:induction false} EarliestSome(obs: seq<Observation>)
    requires Earliest(obs).Some?
    ensures var k := Earliest(obs).value;
            (exists s :: 0 <= s < |obs| && k < |obs[s].zs| && !Right(obs[s], k)) &&
            (forall s, i :: 0 <= s < |obs| && 0 <= i < k && i < |obs[s].zs| ==> Right(obs[s], i))
  {
    var init := obs[..|obs| - 1];
    var last := obs[|obs| - 1];
    var k := Earliest(obs).value;
    var before := Earliest(init);
    assert forall s :: 0 <= s < |init| ==> obs[s] == init[s];
    if before.Some? {
      EarliestSome(init);
    } else {
      EarliestNone(init);
    }
    forall s, i | 0 <= s < |obs| && 0 <= i < k && i < |obs[s].zs|
      ensures Right(obs[s], i)
    {
      if s < |init| {
        assert Right(init[s], i);
      } else {
        assert BitCorrect(last.zs, last.z, i);
      }
    }
    if before == Some(k) {
      var s :| 0 <= s < |init| && k < |init[s].zs| && !Right(init[s], k);
      assert obs[s] == init[s];
    } else {
      assert k < |last.zs| && !Right(last, k);
    }
  }

  /** The lowest output bit that some sample gets wrong. */
  function WorstBit(eqs: Equations, inputs: seq<(Wire, Wire)>, outputs: seq<Wire>, samples: seq<seq<(bool, bool)>>): Option<nat>
  {
    Earliest(Observations(eqs, inputs, outputs, samples))
  }

  /**
   * Lowers `output` to the first wrong bit of one sample's outputs when
   * that bit is below it, stopping at that bit.
   */
  method ScanSample(zs: seq<Option<bool>>, z: nat, output: Option<nat>) returns (output': Option<nat>)
    ensures output' == Earlier(output, FirstMismatch(zs, z, 0))
  {
    output' := output;
    var i := 0;
    while i < |zs|
      invariant 0 <= i <= |zs|
      invariant Earlier(output, FirstMismatch(zs, z, 0)) == Earlier(output, FirstMismatch(zs, z, i))
    {
      if !(zs[i] == Some(BitOf(z, i))) {
        if output.None? || i < output.value {
          output' := Some(i);
          return;
        }
      }
      i := i + 1;
    }
  }

  /**
   * The lowest output bit that one of the given samples gets wrong, trying
   * the samples in order and, within a sample, stopping at the first wrong
   * bit below the best found so far. The samples stand for the random
   * assignments drawn one per round.
   */
  method FirstIncorrectBit(eqs: Equations, inputs: seq<(Wire, Wire)>, outputs: seq<Wire>, samples: seq<seq<(bool, bool)>>)
    returns (output: Option<nat>)
    requires |samples| == SAMPLE_SIZE
    requires forall s :: 0 <= s < |samples| ==> |samples[s]| == |inputs|
    ensures output == WorstBit(eqs, inputs, outputs, samples)
  {
    ghost var obs := Observations(eqs, inputs, outputs, samples);
    output := None;
    var s := 0;
    while s < SAMPLE_SIZE
      invariant 0 <= s <= SAMPLE_SIZE
      invariant output == Earliest(obs[..s])
    {
      var sample := samples[s];
      var z := Number(Firsts(sample)) + Number(Seconds(sample));
      var zs := CalculateSum(eqs, inputs, sample, outputs);
      ObservedSample(eqs, inputs, outputs, samples, s, zs);
      output := ScanSample(zs, z, output);
      assert obs[..s + 1][..s] == obs[..s];
      assert Earliest(obs[..s + 1]) == Earlier(Earliest(obs[..s]), FirstMismatch(zs, z, 0));
      s := s + 1;
    }
    assert obs[..SAMPLE_SIZE] == obs;
  }
}
