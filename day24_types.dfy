/**
 * The vocabulary of the crossed-wires circuit: gates, the equation that
 * drives one wire, and unordered pairs of wires (a candidate output swap).
 */
module CircuitTypes {
  import opened Text

  type Wire = string

  function Bit(b: bool): nat { if b then 1 else 0 }

  datatype Gate = And | Xor | Or {
    /** The output of the gate for inputs `a` and `b`. */
    function Compute(a: bool, b: bool): (r: bool)
      // XOR is the sum bit and AND the carry of adding two bits;
      // OR holds exactly when at least one input does.
      ensures this == Xor ==> Bit(r) == (Bit(a) + Bit(b)) % 2
      ensures this == And ==> Bit(r) == (Bit(a) + Bit(b)) / 2
      ensures this == Or ==> r == (Bit(a) + Bit(b) >= 1)
    {
      match this
      case And => a && b
      case Or => a || b
      case Xor => a != b
    }
  }

  lemma GateCommutes(g: Gate, a: bool, b: bool)
    ensures g.Compute(a, b) == g.Compute(b, a)
  {
  }

  /** `result <- gate(a, b)`: the gate that drives one wire and its two operands. */
  datatype Equation = Equation(a: Wire, b: Wire, gate: Gate) {
    function Operands(): (ops: seq<Wire>)
      ensures |ops| == 2 && ops[0] == a && ops[1] == b
    {
      [a, b]
    }
  }

  /** An unordered pair of wires, stored smaller first. */
  datatype Pair = Pair(a: Wire, b: Wire)

  /** Builds the pair of `a` and `b`, swapping them when `a` sorts after `b`. */
  function NewPair(a: Wire, b: Wire): (p: Pair)
    ensures !LexLess(p.b, p.a)
    ensures (p.a == a && p.b == b) || (p.a == b && p.b == a)
  {
    LexLessAsymmetric(a, b);
    if LexLess(b, a) then Pair(b, a) else Pair(a, b)
  }

  /** A pair does not depend on the order its wires are given in. */
  lemma NewPairSymmetric(a: Wire, b: Wire)
    ensures NewPair(a, b) == NewPair(b, a)
  {
    LexLessTotal(a, b);
    LexLessAsymmetric(a, b);
  }
}
