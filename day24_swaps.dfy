/**
 * Candidate swaps of gate outputs: all unordered pairs drawn from two lists
 * of wires, and the circuit in which two wires trade the equations that
 * drive them.
 */
module PairsAndSwaps {
  import opened Wrappers
  import opened CircuitTypes
  import opened Correctness
  import opened Text

  /** Every unordered pair with one wire from `left` and one from `right`. */
  method GetPairs(left: seq<Wire>, right: seq<Wire>) returns (pairs: set<Pair>)
    ensures forall a, b :: a in left && b in right ==> NewPair(a, b) in pairs
    ensures forall p :: p in pairs ==>
              (!LexLess(p.b, p.a) && exists a, b :: a in left && b in right && p == NewPair(a, b))
  {
    pairs := {};
    var i := 0;
    while i < |left|
      invariant 0 <= i <= |left|
      invariant forall a, b :: a in left[..i] && b in right ==> NewPair(a, b) in pairs
      invariant forall p :: p in pairs ==> exists a, b :: a in left && b in right && p == NewPair(a, b)
    {
      ghost var before := pairs;
      pairs := AddRow(pairs, left[i], right);
      assert left[..i + 1] == left[..i] + [left[i]];
      forall p | p in pairs
        ensures exists a, b :: a in left && b in right && p == NewPair(a, b)
      {
        if p !in before {
          var b :| b in right && p == NewPair(left[i], b);
        }
      }
      i := i + 1;
    }
    assert left[..i] == left;
  }

  /** The pairs of `a` with each wire of `right`, added to `pairs`. */
  method AddRow(pairs: set<Pair>, a: Wire, right: seq<Wire>) returns (pairs': set<Pair>)
    ensures forall p :: p in pairs' <==> p in pairs || exists b :: b in right && p == NewPair(a, b)
  {
    pairs' := pairs;
    for j := 0 to |right|
      invariant forall p :: p in pairs' <==> p in pairs || exists b :: b in right[..j] && p == NewPair(a, b)
    {
      assert right[..j + 1] == right[..j] + [right[j]];
      pairs' := pairs' + {NewPair(a, right[j])};
    }
    assert right[..|right|] == right;
  }

  /**
   * The circuit where wires `pair.a` and `pair.b` trade their equations.
   * Either wire lacking an equation leaves nothing to swap; so does a pair
   * of one wire, whose second removal finds nothing.
   */
  function Swapped(pair: Pair, eqs: Equations): (r: Option<Equations>)
    ensures r.Some? <==> pair.a in eqs && pair.b in eqs && pair.a != pair.b
    ensures r.Some? ==>
              r.value.Keys == eqs.Keys &&
              r.value[pair.a] == eqs[pair.b] && r.value[pair.b] == eqs[pair.a] &&
              forall w :: w in eqs && w != pair.a && w != pair.b ==> r.value[w] == eqs[w]
  {
    if pair.a !in eqs then None
    else
      var eqA := eqs[pair.a];
      var rest := eqs - {pair.a};
      if pair.b !in rest then None
      else
        var eqB := rest[pair.b];
        Some((rest - {pair.b})[pair.a := eqB][pair.b := eqA])
  }

  /** Swapping the same pair again restores the circuit. */
  lemma SwappedTwice(pair: Pair, eqs: Equations)
    requires Swapped(pair, eqs).Some?
    ensures Swapped(pair, Swapped(pair, eqs).value) == Some(eqs)
  {
    var once := Swapped(pair, eqs).value;
    var twice := Swapped(pair, once).value;
    assert twice.Keys == eqs.Keys;
    assert forall w :: w in eqs ==> twice[w] == eqs[w];
    assert twice == eqs;
  }

  /** Which wire of the pair is named first does not matter. */
  lemma SwappedOrderless(a: Wire, b: Wire, eqs: Equations)
    ensures Swapped(Pair(a, b), eqs) == Swapped(Pair(b, a), eqs)
  {
    if Swapped(Pair(a, b), eqs).Some? {
      var ab := Swapped(Pair(a, b), eqs).value;
      var ba := Swapped(Pair(b, a), eqs).value;
      assert ab.Keys == ba.Keys;
      assert forall w :: w in ab ==> ab[w] == ba[w];
      assert ab == ba;
    }
  }
}
