/**
 * Depth-first search for output swaps that turn the circuit into an adder:
 * a swap is followed only when it moves the first incorrect output bit up,
 * and at most `MAX_DEPTH` swaps are stacked.
 */
module Search {
  import opened Wrappers
  import opened CircuitTypes
  import opened Correctness
  import opened PairsAndSwaps

  const MAX_DEPTH: nat := 4

  /**
   * Applying `chain` swap by swap, each swap is possible and moves the
   * first wrong bit up or removes it, and the last leaves no wrong bit.
   */
  ghost predicate RepairChain(eqs: Equations, chain: seq<Pair>, inputs: seq<(Wire, Wire)>, outputs: seq<Wire>,
                              samples: seq<seq<(bool, bool)>>)
    decreases |chain|
  {
    if chain == [] then WorstBit(eqs, inputs, outputs, samples).None?
    else
      var next := Swapped(chain[0], eqs);
      var before := WorstBit(eqs, inputs, outputs, samples);
      && next.Some?
      && before.Some?
      && (var after := WorstBit(next.value, inputs, outputs, samples);
          after.None? || after.value > before.value)
      && RepairChain(next.value, chain[1..], inputs, outputs, samples)
  }

  /** Swapping `pair` does not by itself remove every wrong bit. */
  ghost predicate NoFix(pair: Pair, eqs: Equations, inputs: seq<(Wire, Wire)>, outputs: seq<Wire>,
                        samples: seq<seq<(bool, bool)>>)
  {
    Swapped(pair, eqs).None? || WorstBit(Swapped(pair, eqs).value, inputs, outputs, samples).Some?
  }

  /** A repair chain ends in a circuit that the samples find no fault in. */
  lemma {:induction false} RepairChainRepairs(eqs: Equations, chain: seq<Pair>, inputs: seq<(Wire, Wire)>,
                                              outputs: seq<Wire>, samples: seq<seq<(bool, bool)>>)
    requires RepairChain(eqs, chain, inputs, outputs, samples)
    ensures var fixed := SwapAll(eqs, chain);
            fixed.Some? && WorstBit(fixed.value, inputs, outputs, samples).None?
    decreases |chain|
  {
    if chain != [] {
      RepairChainRepairs(Swapped(chain[0], eqs).value, chain[1..], inputs, outputs, samples);
    }
  }

  /** The circuit after the swaps of `chain`, in order, when each is possible. */
  function SwapAll(eqs: Equations, chain: seq<Pair>): Option<Equations>
    decreases |chain|
  {
    if chain == [] then Some(eqs)
    else
      match Swapped(chain[0], eqs)
      case None => None
      case Some(next) => SwapAll(next, chain[1..])
  }

  /**
   * Follows the swap of `pair` when it removes every wrong bit or moves the
   * first wrong bit above `first`; nothing found means the swap alone does
   * not repair the circuit.
   */
  method TrySwap(pair: Pair, eqs: Equations, wires: seq<Wire>, inputs: seq<(Wire, Wire)>, outputs: seq<Wire>,
                 samples: seq<seq<(bool, bool)>>, first: nat, depth: nat)
    returns (r: Option<set<Pair>>, ghost chain: seq<Pair>)
    requires |samples| == SAMPLE_SIZE
    requires forall s :: 0 <= s < |samples| ==> |samples[s]| == |inputs|
    requires depth < MAX_DEPTH && pair.a in wires && pair.b in wires
    requires WorstBit(eqs, inputs, outputs, samples) == Some(first)
    ensures r.Some? ==>
              RepairChain(eqs, chain, inputs, outputs, samples) &&
              r.value == (set p | p in chain) &&
              depth + |chain| <= MAX_DEPTH &&
              forall p :: p in chain ==> p.a in wires && p.b in wires
    ensures r.None? ==> NoFix(pair, eqs, inputs, outputs, samples)
    decreases MAX_DEPTH - depth, 0
  {
    chain := [];
    r := None;
    var swapped := Swapped(pair, eqs);
    if swapped.Some? {
      var next := FirstIncorrectBit(swapped.value, inputs, outputs, samples);
      if next.None? {
        chain := [pair];
        return Some({pair}), chain;
      }
      if next.value > first {
        var sub, subchain := FindSwaps(swapped.value, wires, inputs, outputs, samples, depth + 1);
        if sub.Some? {
          chain := [pair] + subchain;
          assert chain[1..] == subchain;
          return Some(sub.value + {pair}), chain;
        }
      }
    }
  }

  /**
   * Searches the swaps of distinct wires of `wires`, each unordered pair
   * once. A found set comes with the chain of swaps it was found along;
   * when nothing is found, no single swap of two listed wires repairs the
   * circuit. The samples stand for the random inputs of each probe.
   */
  method FindSwaps(eqs: Equations, wires: seq<Wire>, inputs: seq<(Wire, Wire)>, outputs: seq<Wire>,
                   samples: seq<seq<(bool, bool)>>, depth: nat)
    returns (r: Option<set<Pair>>, ghost chain: seq<Pair>)
    requires |samples| == SAMPLE_SIZE
    requires forall s :: 0 <= s < |samples| ==> |samples[s]| == |inputs|
    ensures depth >= MAX_DEPTH ==> r.None?
    ensures depth < MAX_DEPTH && WorstBit(eqs, inputs, outputs, samples).None? ==> r == Some({})
    ensures r.Some? ==>
              RepairChain(eqs, chain, inputs, outputs, samples) &&
              r.value == (set p | p in chain) &&
              depth + |chain| <= MAX_DEPTH &&
              forall p :: p in chain ==> p.a in wires && p.b in wires
    ensures r.None? && depth < MAX_DEPTH ==>
              WorstBit(eqs, inputs, outputs, samples).Some? &&
              forall a, b :: a in wires && b in wires && a != b ==>
                NoFix(NewPair(a, b), eqs, inputs, outputs, samples)
    decreases MAX_DEPTH - depth, 1
  {
    chain := [];
    if depth >= MAX_DEPTH {
      return None, chain;
    }
    var first := FirstIncorrectBit(eqs, inputs, outputs, samples);
    if first.None? {
      return Some({}), chain;
    }
    var visited: set<Pair> := {};
    var i := 0;
    while i < |wires|
      invariant 0 <= i <= |wires|
      invariant forall a, b :: a in wires[..i] && b in wires && a != b ==> NewPair(a, b) in visited
      invariant forall p :: p in visited ==> NoFix(p, eqs, inputs, outputs, samples)
    {
      var j := 0;
      while j < |wires|
        invariant 0 <= j <= |wires|
        invariant forall a, b :: a in wires[..i] && b in wires && a != b ==> NewPair(a, b) in visited
        invariant forall b :: b in wires[..j] && b != wires[i] ==> NewPair(wires[i], b) in visited
        invariant forall p :: p in visited ==> NoFix(p, eqs, inputs, outputs, samples)
      {
        var a, b := wires[i], wires[j];
        if a != b && NewPair(a, b) !in visited {
          var pair := NewPair(a, b);
          visited := visited + {pair};
          r, chain := TrySwap(pair, eqs, wires, inputs, outputs, samples, first.value, depth);
          if r.Some? {
            return;
          }
        }
        assert wires[..j + 1] == wires[..j] + [wires[j]];
        j := j + 1;
      }
      assert wires[..j] == wires;
      assert wires[..i + 1] == wires[..i] + [wires[i]];
      i := i + 1;
    }
    assert wires[..i] == wires;
    return None, chain;
  }
}
