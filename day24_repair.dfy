/**
 * Helpers of the circuit repair: the names of the adder's input and output
 * wires, the wires the equations read, the swappable wires, the cone of
 * gates behind each output, and the ways of picking one wire from each cone.
 */
module CircuitRepair {
  import opened CircuitTypes
  import opened Correctness
  import opened Text

  // ----- Wire names -----

  /** `n` in decimal, padded with zeros to at least two digits. */
  function Padded(n: nat): string
  {
    if n < 10 then "0" + Decimal(n) else Decimal(n)
  }

  /** The wire named by `prefix` and the zero-padded bit number `n`. */
  function Label(prefix: char, n: nat): Wire
  {
    [prefix] + Padded(n)
  }

  /** Labels of different prefixes or bit numbers are different wires. */
  lemma LabelInjective(c: char, d: char, m: nat, n: nat)
    requires Label(c, m) == Label(d, n)
    ensures c == d && m == n
  {
    assert Label(c, m)[0] == c && Label(d, n)[0] == d;
    assert Label(c, m)[1..] == Padded(m) && Label(d, n)[1..] == Padded(n);
    if m < 10 && n < 10 {
      assert Padded(m)[1..] == Decimal(m) && Padded(n)[1..] == Decimal(n);
      DecimalInjective(m, n);
    } else if m >= 10 && n >= 10 {
      DecimalInjective(m, n);
    } else {
      assert false;
    }
  }

  /** The concrete names of the low bits. */
  lemma LabelExamples()
    ensures Label('x', 0) == "x00" && Label('y', 7) == "y07" && Label('z', 44) == "z44"
  {
    assert Decimal(44) == Decimal(4) + [DigitChar(4)];
  }

  /** The two input wires of each of the first `n` bits. */
  function InputNames(n: nat): (r: seq<(Wire, Wire)>)
    ensures |r| == n && forall i :: 0 <= i < n ==> r[i] == (Label('x', i), Label('y', i))
  {
    seq(n, i requires 0 <= i < n => (Label('x', i), Label('y', i)))
  }

  /** The sum wires of an `n`-bit adder: one per bit and the carry out, `z{n}`. */
  function OutputNames(n: nat): (r: seq<Wire>)
    ensures |r| == n + 1 && forall i :: 0 <= i <= n ==> r[i] == Label('z', i)
  {
    seq(n + 1, i requires 0 <= i <= n => Label('z', i))
  }

  /** The sum wires as the source lists them: the last one is numbered `n + 1`. */
  function OutputNamesAsWritten(n: nat): (r: seq<Wire>)
    ensures |r| == n + 1 && r[n] == Label('z', n + 1) && r[..n] == OutputNames(n)[..n]
  {
    seq(n, i requires 0 <= i < n => Label('z', i)) + [Label('z', n + 1)]
  }

  /** The corrected outputs name every sum bit and the carry out, each once. */
  lemma OutputNamesDistinct(n: nat)
    ensures forall i, j :: 0 <= i < j <= n ==> OutputNames(n)[i] != OutputNames(n)[j]
    ensures Label('z', n) in OutputNames(n)
  {
    forall i, j | 0 <= i < j <= n
      ensures OutputNames(n)[i] != OutputNames(n)[j]
    {
      if OutputNames(n)[i] == OutputNames(n)[j] {
        LabelInjective('z', 'z', i, j);
      }
    }
  }

  /** As written, the carry out of an `n`-bit adder, `z{n}`, is never listed. */
  lemma AsWrittenSkipsCarry(n: nat)
    ensures Label('z', n) !in OutputNamesAsWritten(n)
  {
    if Label('z', n) in OutputNamesAsWritten(n) {
      var k :| 0 <= k < |OutputNamesAsWritten(n)| && OutputNamesAsWritten(n)[k] == Label('z', n);
      if k < n {
        assert OutputNamesAsWritten(n)[k] == OutputNames(n)[..n][k];
        LabelInjective('z', 'z', k, n);
      } else {
        LabelInjective('z', 'z', n + 1, n);
      }
    }
  }

  /** For one bit the outputs are `z00` and `z02`. */
  lemma AsWrittenOneBit()
    ensures OutputNamesAsWritten(1) == ["z00", "z02"]
  {
    assert Label('z', 0) == "z00";
    assert Label('z', 2) == "z02";
  }

  /** The names of the inputs and outputs, built bit by bit, as the source does. */
  method InputsAndOutputsAsWritten(numBits: nat) returns (inputs: seq<(Wire, Wire)>, outputs: seq<Wire>)
    ensures inputs == InputNames(numBits) && outputs == OutputNamesAsWritten(numBits)
  {
    inputs, outputs := [], [];
    var i := 0;
    while i < numBits
      invariant 0 <= i <= numBits && inputs == InputNames(numBits)[..i] && outputs == OutputNames(numBits)[..i]
    {
      assert InputNames(numBits)[..i + 1] == InputNames(numBits)[..i] + [InputNames(numBits)[i]];
      assert OutputNames(numBits)[..i + 1] == OutputNames(numBits)[..i] + [OutputNames(numBits)[i]];
      inputs := inputs + [(Label('x', i), Label('y', i))];
      outputs := outputs + [Label('z', i)];
      i := i + 1;
    }
    outputs := outputs + [Label('z', numBits + 1)];
    assert outputs[..numBits] == OutputNames(numBits)[..numBits];
    assert InputNames(numBits)[..numBits] == InputNames(numBits);
  }

  /** The names of the inputs and outputs, with the carry out named `z{numBits}`. */
  method InputsAndOutputs(numBits: nat) returns (inputs: seq<(Wire, Wire)>, outputs: seq<Wire>)
    ensures inputs == InputNames(numBits) && outputs == OutputNames(numBits)
  {
    inputs, outputs := [], [];
    var i := 0;
    while i < numBits
      invariant 0 <= i <= numBits && inputs == InputNames(numBits)[..i] && outputs == OutputNames(numBits)[..i]
    {
      assert InputNames(numBits)[..i + 1] == InputNames(numBits)[..i] + [InputNames(numBits)[i]];
      assert OutputNames(numBits)[..i + 1] == OutputNames(numBits)[..i] + [OutputNames(numBits)[i]];
      inputs := inputs + [(Label('x', i), Label('y', i))];
      outputs := outputs + [Label('z', i)];
      i := i + 1;
    }
    assert OutputNames(numBits) == OutputNames(numBits)[..numBits] + [OutputNames(numBits)[numBits]];
    assert InputNames(numBits)[..numBits] == InputNames(numBits);
    outputs := outputs + [Label('z', numBits)];
  }

  // ----- Wire sets -----

  /** Every wire some equation reads. */
  function AllWires(eqs: Equations): (r: set<Wire>)
    ensures forall w :: w in r <==> exists k :: k in eqs && (eqs[k].a == w || eqs[k].b == w)
  {
    (set k | k in eqs :: eqs[k].a) + (set k | k in eqs :: eqs[k].b)
  }

  predicate StartsWith(w: Wire, c: char)
  {
    |w| > 0 && w[0] == c
  }

  /** The wires a swap may touch: read wires that are not inputs, and every output. */
  function SwappableWires(eqs: Equations, outputs: seq<Wire>): (r: set<Wire>)
    ensures forall w :: w in r <==>
              (w in AllWires(eqs) && !StartsWith(w, 'x') && !StartsWith(w, 'y')) || w in outputs
  {
    (set w | w in AllWires(eqs) && !StartsWith(w, 'x') && !StartsWith(w, 'y')) + (set w | w in outputs)
  }

  // ----- The cone of gates behind an output -----

  /**
   * `rank` orders the wires with equations so that each one's operands
   * come strictly earlier: the circuit has no cycle.
   */
  ghost predicate Ranked(eqs: Equations, rank: map<Wire, nat>)
  {
    forall w :: w in eqs ==>
      w in rank &&
      (eqs[w].a in eqs ==> eqs[w].a in rank && rank[eqs[w].a] < rank[w]) &&
      (eqs[w].b in eqs ==> eqs[w].b in rank && rank[eqs[w].b] < rank[w])
  }

  /** The wires with equations that `w` depends on, itself included. */
  ghost function Cone(w: Wire, eqs: Equations, rank: map<Wire, nat>): set<Wire>
    requires Ranked(eqs, rank)
    decreases if w in eqs then rank[w] + 1 else 0
  {
    if w !in eqs then {}
    else {w} + Cone(eqs[w].a, eqs, rank) + Cone(eqs[w].b, eqs, rank)
  }

  /** A cone holds only wires with equations, and `w` itself when it has one. */
  lemma {:induction false} ConeHasEquations(w: Wire, eqs: Equations, rank: map<Wire, nat>)
    requires Ranked(eqs, rank)
    ensures Cone(w, eqs, rank) <= eqs.Keys
    ensures w in eqs <==> w in Cone(w, eqs, rank)
    decreases if w in eqs then rank[w] + 1 else 0
  {
    if w in eqs {
      ConeHasEquations(eqs[w].a, eqs, rank);
      ConeHasEquations(eqs[w].b, eqs, rank);
    }
  }

  /** The cones of every wire in `queue`, together. */
  ghost function ConeOfAll(queue: seq<Wire>, eqs: Equations, rank: map<Wire, nat>): set<Wire>
    requires Ranked(eqs, rank)
  {
    if queue == [] then {}
    else ConeOfAll(queue[..|queue| - 1], eqs, rank) + Cone(queue[|queue| - 1], eqs, rank)
  }

  function Pow3(n: nat): (r: nat)
    ensures r >= 1
  {
    if n == 0 then 1 else 3 * Pow3(n - 1)
  }

  lemma {:induction false} Pow3Monotone(m: nat, n: nat)
    requires m <= n
    ensures Pow3(m) <= Pow3(n)
    decreases n
  {
    if m < n {
      Pow3Monotone(m, n - 1);
    }
  }

  /** What is left to explore: a wire with an equation weighs more than both its operands. */
  ghost function Weight(w: Wire, eqs: Equations, rank: map<Wire, nat>): nat
  {
    if w in eqs && w in rank then Pow3(rank[w] + 1) else 1
  }

  ghost function QueueWeight(queue: seq<Wire>, eqs: Equations, rank: map<Wire, nat>): nat
  {
    if queue == [] then 0
    else QueueWeight(queue[..|queue| - 1], eqs, rank) + Weight(queue[|queue| - 1], eqs, rank)
  }

  lemma OperandsWeighLess(w: Wire, eqs: Equations, rank: map<Wire, nat>)
    requires Ranked(eqs, rank) && w in eqs
    ensures Weight(eqs[w].a, eqs, rank) + Weight(eqs[w].b, eqs, rank) < Weight(w, eqs, rank)
  {
    var r := rank[w];
    if eqs[w].a in eqs {
      Pow3Monotone(rank[eqs[w].a] + 1, r);
    }
    if eqs[w].b in eqs {
      Pow3Monotone(rank[eqs[w].b] + 1, r);
    }
  }

  /**
   * The wires with equations that one output depends on, found with a
   * stack of wires still to explore. A wire reached twice is explored
   * twice; the circuit must have no cycle for the search to end.
   */
  method MandatorySubset(eqs: Equations, output: Wire, ghost rank: map<Wire, nat>) returns (subset: set<Wire>)
    requires Ranked(eqs, rank)
    ensures subset == Cone(output, eqs, rank)
  {
    var queue := [output];
    subset := {};
    assert queue[..0] == [];
    while |queue| > 0
      invariant Cone(output, eqs, rank) == subset + ConeOfAll(queue, eqs, rank)
      decreases QueueWeight(queue, eqs, rank)
    {
      var wire := queue[|queue| - 1];
      var rest := queue[..|queue| - 1];
      queue := rest;
      if wire in eqs {
        subset := subset + {wire};
        queue := rest + [eqs[wire].a, eqs[wire].b];
        assert queue[..|queue| - 1] == rest + [eqs[wire].a];
        assert (rest + [eqs[wire].a])[..|rest|] == rest;
        assert QueueWeight(queue, eqs, rank) ==
               QueueWeight(rest, eqs, rank) + Weight(eqs[wire].a, eqs, rank) + Weight(eqs[wire].b, eqs, rank);
        OperandsWeighLess(wire, eqs, rank);
      }
    }
  }

  /** The subsets ordered by size, largest first: no subset is larger than the one before it. */
  predicate SortedBySize(s: seq<set<Wire>>)
  {
    forall i :: 0 < i < |s| ==> |s[i - 1]| >= |s[i]|
  }

  /** In a sorted sequence every subset is at least as large as any later one. */
  lemma {:induction false} SortedBySizePairwise(s: seq<set<Wire>>, i: nat, j: nat)
    requires SortedBySize(s) && i <= j < |s|
    ensures |s[i]| >= |s[j]|
    decreases j - i
  {
    if i < j {
      SortedBySizePairwise(s, i + 1, j);
    }
  }

  /** `x` inserted into `sorted` before the first smaller subset. */
  function InsertBySize(x: set<Wire>, sorted: seq<set<Wire>>): (r: seq<set<Wire>>)
    requires SortedBySize(sorted)
    ensures multiset(r) == multiset(sorted) + multiset{x}
    ensures SortedBySize(r)
    ensures |r| > 0 && (r[0] == x || (sorted != [] && r[0] == sorted[0]))
    decreases |sorted|
  {
    if sorted == [] || |sorted[0]| <= |x| then [x] + sorted
    else
      assert sorted == [sorted[0]] + sorted[1..];
      var rest := InsertBySize(x, sorted[1..]);
      assert |rest[0]| <= |sorted[0]|;
      [sorted[0]] + rest
  }

  /** The subsets sorted by decreasing size. */
  function SortBySize(s: seq<set<Wire>>): (r: seq<set<Wire>>)
    ensures SortedBySize(r) && multiset(r) == multiset(s)
  {
    if s == [] then []
    else
      assert s == [s[0]] + s[1..];
      InsertBySize(s[0], SortBySize(s[1..]))
  }

  /** The cone of every output, as the worklist search builds them. */
  method MandatorySubsets(eqs: Equations, outputs: seq<Wire>, ghost rank: map<Wire, nat>) returns (subsets: seq<set<Wire>>)
    requires Ranked(eqs, rank)
    ensures SortedBySize(subsets)
    ensures multiset(subsets) == multiset(seq(|outputs|, i requires 0 <= i < |outputs| => Cone(outputs[i], eqs, rank)))
  {
    var cones: seq<set<Wire>> := [];
    var i := 0;
    while i < |outputs|
      invariant 0 <= i <= |outputs| && |cones| == i
      invariant forall j :: 0 <= j < i ==> cones[j] == Cone(outputs[j], eqs, rank)
    {
      var cone := MandatorySubset(eqs, outputs[i], rank);
      cones := cones + [cone];
      i := i + 1;
    }
    assert cones == seq(|outputs|, i requires 0 <= i < |outputs| => Cone(outputs[i], eqs, rank));
    subsets := SortBySize(cones);
  }

  // ----- Representatives -----

  /** Each set of `sets` with `w` added. */
  function AddToEach(w: Wire, sets: seq<set<Wire>>): (r: seq<set<Wire>>)
    ensures |r| == |sets| && forall i :: 0 <= i < |sets| ==> r[i] == sets[i] + {w}
  {
    seq(|sets|, i requires 0 <= i < |sets| => sets[i] + {w})
  }

  /** For each wire of `wires` in order, every set of `next` with that wire added. */
  function Extend(wires: seq<Wire>, next: seq<set<Wire>>): seq<set<Wire>>
  {
    if wires == [] then [] else AddToEach(wires[0], next) + Extend(wires[1..], next)
  }

  /** Each extended set is a set of `next` with a wire of `wires` added. */
  lemma {:induction false} ExtendMember(wires: seq<Wire>, next: seq<set<Wire>>, s: set<Wire>)
    requires s in Extend(wires, next)
    ensures exists w, t :: w in wires && t in next && s == t + {w}
  {
    var head := AddToEach(wires[0], next);
    if s in head {
      var i :| 0 <= i < |head| && head[i] == s;
      assert next[i] in next && s == next[i] + {wires[0]};
    } else {
      ExtendMember(wires[1..], next, s);
      var w, t :| w in wires[1..] && t in next && s == t + {w};
      assert w in wires;
    }
  }

  /** Every set of `next` with every wire of `wires` added is extended. */
  lemma {:induction false} ExtendComplete(wires: seq<Wire>, next: seq<set<Wire>>, w: Wire, t: set<Wire>)
    requires w in wires && t in next
    ensures t + {w} in Extend(wires, next)
  {
    if w == wires[0] {
      var i :| 0 <= i < |next| && next[i] == t;
      assert AddToEach(wires[0], next)[i] == t + {w};
    } else {
      ExtendComplete(wires[1..], next, w, t);
    }
  }

  lemma {:induction false} ExtendCount(wires: seq<Wire>, next: seq<set<Wire>>)
    ensures |Extend(wires, next)| == |wires| * |next|
  {
    if wires != [] {
      ExtendCount(wires[1..], next);
      assert |wires| * |next| == |next| + (|wires| - 1) * |next|;
    }
  }

  /**
   * The sets that take one wire from each non-empty subset, in the order
   * the subsets and their wires are listed. No subsets give the one empty
   * set.
   */
  function Representatives(subsets: seq<seq<Wire>>): seq<set<Wire>>
    decreases |subsets|
  {
    if subsets == [] then [{}]
    else if subsets[0] == [] then Representatives(subsets[1..])
    else Extend(subsets[0], Representatives(subsets[1..]))
  }

  /** Every representative holds a wire of each non-empty subset. */
  lemma {:induction false} RepresentativesHit(subsets: seq<seq<Wire>>, r: set<Wire>, i: nat)
    requires r in Representatives(subsets) && i < |subsets| && subsets[i] != []
    ensures exists w :: w in subsets[i] && w in r
    decreases |subsets|
  {
    var rest := subsets[1..];
    if subsets[0] == [] {
      assert i > 0 && subsets[i] == rest[i - 1];
      RepresentativesHit(rest, r, i - 1);
    } else {
      ExtendMember(subsets[0], Representatives(rest), r);
      var w0, t :| w0 in subsets[0] && t in Representatives(rest) && r == t + {w0};
      if i == 0 {
        assert w0 in subsets[i] && w0 in r;
      } else {
        assert subsets[i] == rest[i - 1];
        RepresentativesHit(rest, t, i - 1);
        var w :| w in rest[i - 1] && w in t;
        assert w in r;
      }
    }
  }

  /** A representative holds only wires of the subsets. */
  lemma {:induction false} RepresentativesWithin(subsets: seq<seq<Wire>>, r: set<Wire>, w: Wire)
    requires r in Representatives(subsets) && w in r
    ensures exists i :: 0 <= i < |subsets| && w in subsets[i]
    decreases |subsets|
  {
    var rest := subsets[1..];
    if subsets[0] == [] {
      RepresentativesWithin(rest, r, w);
      var i :| 0 <= i < |rest| && w in rest[i];
      assert w in subsets[i + 1];
    } else {
      ExtendMember(subsets[0], Representatives(rest), r);
      var w0, t :| w0 in subsets[0] && t in Representatives(rest) && r == t + {w0};
      if w == w0 {
        assert w in subsets[0];
      } else {
        RepresentativesWithin(rest, t, w);
        var i :| 0 <= i < |rest| && w in rest[i];
        assert w in subsets[i + 1];
      }
    }
  }

  /** The set of the wires `choice` picks from the non-empty subsets. */
  function Chosen(subsets: seq<seq<Wire>>, choice: seq<Wire>): set<Wire>
    requires |choice| == |subsets|
    decreases |subsets|
  {
    if subsets == [] then {}
    else if subsets[0] == [] then Chosen(subsets[1..], choice[1..])
    else Chosen(subsets[1..], choice[1..]) + {choice[0]}
  }

  /** Picking one wire from each non-empty subset, in any way, gives a representative. */
  lemma {:induction false} RepresentativesComplete(subsets: seq<seq<Wire>>, choice: seq<Wire>)
    requires |choice| == |subsets|
    requires forall i :: 0 <= i < |subsets| && subsets[i] != [] ==> choice[i] in subsets[i]
    ensures Chosen(subsets, choice) in Representatives(subsets)
    decreases |subsets|
  {
    if subsets != [] {
      assert forall i :: 1 <= i < |subsets| ==> subsets[1..][i - 1] == subsets[i] && choice[1..][i - 1] == choice[i];
      RepresentativesComplete(subsets[1..], choice[1..]);
      if subsets[0] != [] {
        ExtendComplete(subsets[0], Representatives(subsets[1..]), choice[0], Chosen(subsets[1..], choice[1..]));
      }
    }
  }

  /** How many representatives there are: the product of the non-empty subsets' sizes. */
  function Combinations(subsets: seq<seq<Wire>>): nat
  {
    if subsets == [] then 1
    else if subsets[0] == [] then Combinations(subsets[1..])
    else |subsets[0]| * Combinations(subsets[1..])
  }

  lemma {:induction false} RepresentativesCount(subsets: seq<seq<Wire>>)
    ensures |Representatives(subsets)| == Combinations(subsets)
    decreases |subsets|
  {
    if subsets != [] {
      RepresentativesCount(subsets[1..]);
      if subsets[0] != [] {
        ExtendCount(subsets[0], Representatives(subsets[1..]));
      }
    }
  }
}
