/**
 * Day 17: a 3-bit computer. A program is a list of 3-bit numbers, read as
 * opcode/operand pairs; three 64-bit registers A, B and C and an
 * instruction pointer make up the machine, which outputs 3-bit values.
 *
 * The machine is a class whose fields the instructions update in place;
 * `State` is its value, and the pure functions over `State` say what each
 * step does.
 */
module Day17 {
  import opened Wrappers
  import opened Text

  // ----- 3-bit numbers -----

  /** A 3-bit number, lowest bit first. */
  datatype Usize = Usize(bit0: bool, bit1: bool, bit2: bool)

  function BitValue(b: bool): nat
  {
    if b then 1 else 0
  }

  /** The sum of bit i times 2^i. */
  function Value(u: Usize): (r: nat)
    ensures r < 8
  {
    BitValue(u.bit0) + 2 * BitValue(u.bit1) + 4 * BitValue(u.bit2)
  }

  /** The 3-bit number with value `v`, or `None` when `v` does not fit in 3 bits. */
  function TryFrom(v: nat): (r: Option<Usize>)
  {
    match v
    case 0 => Some(Usize(false, false, false))
    case 1 => Some(Usize(true, false, false))
    case 2 => Some(Usize(false, true, false))
    case 3 => Some(Usize(true, true, false))
    case 4 => Some(Usize(false, false, true))
    case 5 => Some(Usize(true, false, true))
    case 6 => Some(Usize(false, true, true))
    case 7 => Some(Usize(true, true, true))
    case _ => None
  }

  /** `TryFrom` fails exactly from 8 up and is undone by `Value`; every 3-bit number arises from its value. */
  lemma TryFromValue(v: nat, u: Usize)
    ensures TryFrom(v).Some? <==> v < 8
    ensures TryFrom(v).Some? ==> Value(TryFrom(v).value) == v
    ensures TryFrom(Value(u)) == Some(u)
  {
  }

  /** The number `v` stands for where `v < 8` is known. */
  function Digit(v: nat): (u: Usize)
    requires v < 8
    ensures Value(u) == v && TryFrom(v) == Some(u)
  {
    match v
    case 0 => Usize(false, false, false)
    case 1 => Usize(true, false, false)
    case 2 => Usize(false, true, false)
    case 3 => Usize(true, true, false)
    case 4 => Usize(false, false, true)
    case 5 => Usize(true, false, true)
    case 6 => Usize(false, true, true)
    case 7 => Usize(true, true, true)
  }

  // ----- 64-bit registers -----


  function Pow2(k: nat): (p: nat)
    ensures p >= 1
  {
    if k == 0 then 1 else 2 * Pow2(k - 1)
  }

  /** Register values are the source's `u64`: below 2^64. */
  const WORD: nat := 0x1_0000_0000_0000_0000

  lemma WordBits(k: nat)
    requires k == 64
    ensures Pow2(k) == WORD
  {
    assert Pow2(4) == 16;
    Pow2Add(4, 4);
    assert Pow2(8) == 0x100;
    Pow2Add(8, 8);
    assert Pow2(16) == 0x1_0000;
    Pow2Add(16, 16);
    assert Pow2(32) == 0x1_0000_0000;
    Pow2Add(32, 32);
  }

  lemma {:induction false} Pow2Add(j: nat, k: nat)
    ensures Pow2(j + k) == Pow2(j) * Pow2(k)
    decreases j
  {
    if j > 0 {
      Pow2Add(j - 1, k);
      assert Pow2(j + k) == 2 * Pow2(j - 1 + k);
    }
  }

  /** Bitwise exclusive or, lowest bit first. */
  function Xor(a: nat, b: nat): nat
    decreases a + b
  {
    if a == 0 && b == 0 then 0 else 2 * Xor(a / 2, b / 2) + (a % 2 + b % 2) % 2
  }

  /** Exclusive or of two numbers below 2^k stays below 2^k. */
  lemma {:induction false} XorBound(a: nat, b: nat, k: nat)
    requires a < Pow2(k) && b < Pow2(k)
    ensures Xor(a, b) < Pow2(k)
    decreases a + b
  {
    if a != 0 || b != 0 {
      assert k > 0;
      XorBound(a / 2, b / 2, k - 1);
    }
  }

  // ----- Instructions -----

  datatype Instruction = Adv | Bxl | Bst | Jnz | Bxc | Out | Bdv | Cdv

  /** Opcodes 0 to 7 in the order adv, bxl, bst, jnz, bxc, out, bdv, cdv. */
  function Decode(opcode: Usize): (r: Instruction)
    ensures r == [Adv, Bxl, Bst, Jnz, Bxc, Out, Bdv, Cdv][Value(opcode)]
  {
    match opcode
    case Usize(false, false, false) => Adv
    case Usize(true, false, false) => Bxl
    case Usize(false, true, false) => Bst
    case Usize(true, true, false) => Jnz
    case Usize(false, false, true) => Bxc
    case Usize(true, false, true) => Out
    case Usize(false, true, true) => Bdv
    case Usize(true, true, true) => Cdv
  }

  /** The registers and the instruction pointer. */
  datatype State = State(a: nat, b: nat, c: nat, ip: nat)

  /** Every register holds a `u64`. */
  predicate Fits(s: State)
  {
    s.a < WORD && s.b < WORD && s.c < WORD
  }

  /**
   * The combo operand: 0 to 3 stand for themselves, 4, 5 and 6 for
   * registers A, B and C; 7 makes the source panic, here `None`.
   */
  function Combo(s: State, operand: Usize): (r: Option<nat>)
    ensures r.None? <==> Value(operand) == 7
    ensures Value(operand) <= 3 ==> r == Some(Value(operand))
    ensures Value(operand) == 4 ==> r == Some(s.a)
    ensures Value(operand) == 5 ==> r == Some(s.b)
    ensures Value(operand) == 6 ==> r == Some(s.c)
  {
    if !operand.bit2 then Some(Value(operand))
    else if !operand.bit1 then (if !operand.bit0 then Some(s.a) else Some(s.b))
    else if !operand.bit0 then Some(s.c)
    else None
  }

  /**
   * What an instruction did: the source panics on combo operand 7 and,
   * where overflow checks are on, on a shift by 64 or more (`Fault`);
   * otherwise the new state and the value output, if any.
   */
  datatype Executed = Fault | Done(state: State, output: Option<Usize>)

  /** `a >> k`: dividing by 2^k never makes a number larger. */
  function Shr(a: nat, k: nat): (r: nat)
    ensures r <= a
  {
    var p := Pow2(k);
    DivLe(a, p);
    a / p
  }

  /** Register A shifted right by a combo operand, or `None` where the source panics. */
  function ShiftA(s: State, operand: Usize): (r: Option<nat>)
  {
    match Combo(s, operand)
    case None => None
    case Some(k) => if k < 64 then Some(Shr(s.a, k)) else None
  }

  /** One instruction applied to the registers; the instruction pointer has already moved past it. */
  function Execute(instruction: Instruction, operand: Usize, s: State): Executed
  {
    match instruction
    case Adv => (match ShiftA(s, operand) case None => Fault case Some(v) => Done(s.(a := v), None))
    case Bdv => (match ShiftA(s, operand) case None => Fault case Some(v) => Done(s.(b := v), None))
    case Cdv => (match ShiftA(s, operand) case None => Fault case Some(v) => Done(s.(c := v), None))
    case Bxl => Done(s.(b := Xor(s.b, Value(operand))), None)
    case Bxc => Done(s.(b := Xor(s.b, s.c)), None)
    case Bst => (match Combo(s, operand) case None => Fault case Some(v) => Done(s.(b := v % 8), None))
    case Jnz => Done(if s.a != 0 then s.(ip := Value(operand)) else s, None)
    case Out => (match Combo(s, operand) case None => Fault case Some(v) => Done(s, Some(Digit(v % 8))))
  }

  /**
   * Only `out` outputs, and it outputs the combo operand modulo 8; only `jnz`
   * moves the instruction pointer, to the operand, exactly when A is not
   * zero; only `adv` writes A, and C is written by `cdv` alone.
   */
  lemma ExecuteFrame(instruction: Instruction, operand: Usize, s: State)
    ensures Execute(instruction, operand, s).Done? ==>
              var t := Execute(instruction, operand, s);
              (t.output.Some? <==> instruction == Out) &&
              (t.output.Some? ==> Value(t.output.value) == Combo(s, operand).value % 8) &&
              (instruction == Jnz ==> t.state.ip == (if s.a != 0 then Value(operand) else s.ip)) &&
              (instruction != Jnz ==> t.state.ip == s.ip) &&
              (instruction != Adv ==> t.state.a == s.a) &&
              (instruction != Cdv ==> t.state.c == s.c)
    ensures Execute(instruction, operand, s).Fault? <==>
              ((instruction in {Adv, Bdv, Cdv, Bst, Out} && Value(operand) == 7) ||
               (instruction in {Adv, Bdv, Cdv} && Value(operand) != 7 && Combo(s, operand).value >= 64))
  {
  }

  /** No instruction takes a register out of the `u64` range. */
  lemma ExecuteFits(instruction: Instruction, operand: Usize, s: State)
    requires Fits(s)
    ensures Execute(instruction, operand, s).Done? ==> Fits(Execute(instruction, operand, s).state)
  {
    var bits := 64;
    WordBits(bits);
    match instruction
    case Bxl => XorBound(s.b, Value(operand), bits);
    case Bxc => XorBound(s.b, s.c, bits);
    case Bst =>
      assert Pow2(3) == 8;
      Pow2AtLeast(bits, 3);
    case Adv | Bdv | Cdv =>
    case Jnz =>
    case Out =>
  }

  lemma DivLe(a: nat, d: nat)
    requires d >= 1
    ensures 0 <= a / d <= a
  {
  }

  lemma {:induction false} Pow2AtLeast(k: nat, j: nat)
    requires j <= k
    ensures Pow2(j) <= Pow2(k)
    decreases k
  {
    if j < k {
      Pow2AtLeast(k - 1, j);
    }
  }

  /**
   * One fetch: `Halt` when the opcode or its operand is past the end of the
   * program (the pointer has already moved past an opcode that has no
   * operand), `Fault` where the instruction panics, otherwise the new state.
   */
  datatype Fetched = Halt(state: State) | Faulted | Stepped(state: State, output: Option<Usize>)

  function TryNext(program: seq<Usize>, s: State): (r: Fetched)
    ensures r.Halt? <==> s.ip + 1 >= |program|
    ensures r.Halt? ==> r.state.ip >= |program|
  {
    if s.ip >= |program| then Halt(s)
    else if s.ip + 1 >= |program| then Halt(s.(ip := s.ip + 1))
    else
      match Execute(Decode(program[s.ip]), program[s.ip + 1], s.(ip := s.ip + 2))
      case Fault => Faulted
      case Done(t, out) => Stepped(t, out)
  }

  /**
   * The outputs of a whole run, with at most `fuel` instructions executed:
   * `Finished` when the program halts, `Crashed` where the source panics,
   * `Exhausted` when the fuel runs out first (the source would go on).
   */
  datatype Run = Finished(outputs: seq<Usize>, last: State) | Crashed | Exhausted

  function RunFrom(program: seq<Usize>, s: State, fuel: nat): (r: Run)
    ensures r.Finished? ==> r.last.ip >= |program| && |r.outputs| <= fuel
    decreases fuel
  {
    match TryNext(program, s)
    case Halt(t) => Finished([], t)
    case Faulted => Crashed
    case Stepped(t, out) =>
      if fuel == 0 then Exhausted
      else
        match RunFrom(program, t, fuel - 1)
        case Finished(rest, last) => Finished((if out.Some? then [out.value] else []) + rest, last)
        case other => other
  }

  // ----- The machine -----

  class Machine {
    var regA: nat
    var regB: nat
    var regC: nat
    var instructionPointer: nat

    function Current(): State
      reads this
    {
      State(regA, regB, regC, instructionPointer)
    }

    constructor (a: nat, b: nat, c: nat)
      ensures Current() == State(a, b, c, 0)
    {
      regA, regB, regC := a, b, c;
      instructionPointer := 0;
    }

    method SetState(s: State)
      modifies this
      ensures Current() == s
    {
      regA, regB, regC, instructionPointer := s.a, s.b, s.c, s.ip;
    }

    /** Carries out one instruction on the registers, as `Execute` says; a fault leaves the machine as it was. */
    method ExecuteOn(instruction: Instruction, operand: Usize) returns (r: Executed)
      modifies this
      ensures r == Execute(instruction, operand, old(Current()))
      ensures r.Done? ==> Current() == r.state
      ensures r.Fault? ==> Current() == old(Current())
    {
      match instruction {
      case Adv => r := Divide(instruction, operand);
      case Bdv => r := Divide(instruction, operand);
      case Cdv => r := Divide(instruction, operand);
      case Bxl =>
        regB := Xor(regB, Value(operand));
        r := Done(Current(), None);
      case Bxc =>
        regB := Xor(regB, regC);
        r := Done(Current(), None);
      case Bst =>
        var v := Combo(Current(), operand);
        if v.None? {
          return Fault;
        }
        regB := v.value % 8;
        r := Done(Current(), None);
      case Jnz =>
        if regA != 0 {
          instructionPointer := Value(operand);
        }
        r := Done(Current(), None);
      case Out =>
        var v := Combo(Current(), operand);
        if v.None? {
          return Fault;
        }
        r := Done(Current(), Some(Digit(v.value % 8)));
      }
    }

    /** `adv`, `bdv` and `cdv`: register A shifted right by the combo operand, into A, B or C. */
    method Divide(instruction: Instruction, operand: Usize) returns (r: Executed)
      requires instruction == Adv || instruction == Bdv || instruction == Cdv
      modifies this
      ensures r == Execute(instruction, operand, old(Current()))
      ensures r.Done? ==> Current() == r.state
      ensures r.Fault? ==> Current() == old(Current())
    {
      var v := ShiftA(Current(), operand);
      if v.None? {
        return Fault;
      }
      if instruction == Adv {
        regA := v.value;
      } else if instruction == Bdv {
        regB := v.value;
      } else {
        regC := v.value;
      }
      r := Done(Current(), None);
    }

    /** Fetches the opcode and the operand, moving the pointer past each, and executes, as `TryNext` says. */
    method Step(program: seq<Usize>) returns (r: Fetched)
      modifies this
      ensures r == TryNext(program, old(Current()))
      ensures r.Halt? || r.Stepped? ==> Current() == r.state
    {
      if instructionPointer >= |program| {
        return Halt(Current());
      }
      var opcode := program[instructionPointer];
      instructionPointer := instructionPointer + 1;
      var instruction := Decode(opcode);
      if instructionPointer >= |program| {
        return Halt(Current());
      }
      var operand := program[instructionPointer];
      instructionPointer := instructionPointer + 1;
      var e := ExecuteOn(instruction, operand);
      match e
      case Fault => r := Faulted;
      case Done(t, out) => r := Stepped(t, out);
    }

    /**
     * The iterator's `next`: steps until an instruction outputs or the
     * program halts, with at most `fuel` instructions, as `NextFrom` says.
     */
    method Next(program: seq<Usize>, fuel: nat) returns (r: Emission)
      modifies this
      ensures r == NextFrom(program, old(Current()), fuel)
      ensures r.Emitted? || r.Stopped? ==> Current() == r.state
    {
      var left: nat := fuel;
      while true
        invariant left <= fuel
        invariant NextFrom(program, old(Current()), fuel) == NextFrom(program, Current(), left)
        decreases left
      {
        var s := Step(program);
        match s
        case Halt(t) => return Stopped(t);
        case Faulted => return Broke;
        case Stepped(t, out) =>
          if left == 0 {
            return OutOfFuel;
          }
          if out.Some? {
            return Emitted(out.value, t, left - 1);
          }
          left := left - 1;
      }
    }
  }

  /** What `next` gives: an output with the state and fuel after it, the end of the program, a panic, or no fuel left. */
  datatype Emission = Emitted(value: Usize, state: State, left: nat) | Stopped(state: State) | Broke | OutOfFuel

  function NextFrom(program: seq<Usize>, s: State, fuel: nat): (r: Emission)
    ensures r.Emitted? ==> r.left < fuel
    decreases fuel
  {
    match TryNext(program, s)
    case Halt(t) => Stopped(t)
    case Faulted => Broke
    case Stepped(t, out) =>
      if fuel == 0 then OutOfFuel
      else if out.Some? then Emitted(out.value, t, fuel - 1)
      else NextFrom(program, t, fuel - 1)
  }

  /** `outputs` put in front of the outputs of a finished run. */
  function Prepend(outputs: seq<Usize>, r: Run): Run
  {
    match r
    case Finished(rest, last) => Finished(outputs + rest, last)
    case other => other
  }

  /** A run is its first output, as `next` finds it, followed by the run from where `next` stopped. */
  lemma {:induction false} NextFromRun(program: seq<Usize>, s: State, fuel: nat)
    ensures match NextFrom(program, s, fuel)
            case Emitted(v, t, left) => RunFrom(program, s, fuel) == Prepend([v], RunFrom(program, t, left))
            case Stopped(t) => RunFrom(program, s, fuel) == Finished([], t)
            case Broke => RunFrom(program, s, fuel) == Crashed
            case OutOfFuel => RunFrom(program, s, fuel) == Exhausted
    decreases fuel
  {
    var next := TryNext(program, s);
    if next.Halt? {
      HaltStep(program, s, fuel);
    } else if next.Faulted? {
      FaultStep(program, s, fuel);
    } else if fuel == 0 {
      FuelStep(program, s);
    } else if next.output.Some? {
      EmitStep(program, s, fuel);
    } else {
      NextFromRun(program, next.state, fuel - 1);
      SilentStep(program, s, fuel);
    }
  }

  /** A halt ends both the run and the search for an output. */
  lemma HaltStep(program: seq<Usize>, s: State, fuel: nat)
    requires TryNext(program, s).Halt?
    ensures var t := TryNext(program, s).state;
            NextFrom(program, s, fuel) == Stopped(t) && RunFrom(program, s, fuel) == Finished([], t)
  {
  }

  /** A fault ends both the run and the search for an output. */
  lemma FaultStep(program: seq<Usize>, s: State, fuel: nat)
    requires TryNext(program, s).Faulted?
    ensures NextFrom(program, s, fuel) == Broke && RunFrom(program, s, fuel) == Crashed
  {
  }

  /** A step with no fuel left exhausts both. */
  lemma FuelStep(program: seq<Usize>, s: State)
    requires TryNext(program, s).Stepped?
    ensures NextFrom(program, s, 0) == OutOfFuel && RunFrom(program, s, 0) == Exhausted
  {
  }

  /** A step that outputs `v` is the first output, and the run continues from after it. */
  lemma EmitStep(program: seq<Usize>, s: State, fuel: nat)
    requires fuel > 0 && TryNext(program, s).Stepped? && TryNext(program, s).output.Some?
    ensures var next := TryNext(program, s);
            NextFrom(program, s, fuel) == Emitted(next.output.value, next.state, fuel - 1) &&
            RunFrom(program, s, fuel) == Prepend([next.output.value], RunFrom(program, next.state, fuel - 1))
  {
  }

  /** A step that outputs nothing changes neither the rest of the run nor the next output. */
  lemma SilentStep(program: seq<Usize>, s: State, fuel: nat)
    requires fuel > 0 && TryNext(program, s).Stepped? && TryNext(program, s).output.None?
    ensures var t := TryNext(program, s).state;
            NextFrom(program, s, fuel) == NextFrom(program, t, fuel - 1) &&
            RunFrom(program, s, fuel) == RunFrom(program, t, fuel - 1)
  {
    var t := TryNext(program, s).state;
    match RunFrom(program, t, fuel - 1)
    case Finished(rest, last) =>
      assert [] + rest == rest;
    case Crashed =>
    case Exhausted =>
  }

  lemma PrependAppend(a: seq<Usize>, b: seq<Usize>, r: Run)
    ensures Prepend(a, Prepend(b, r)) == Prepend(a + b, r)
  {
    match r
    case Finished(rest, last) => assert a + (b + rest) == (a + b) + rest;
    case Crashed =>
    case Exhausted =>
  }

  /** The outputs written in decimal and joined by commas, as `join(",")` does. */
  function Joined(outputs: seq<Usize>): string
  {
    if outputs == [] then "" else Join(seq(|outputs|, i requires 0 <= i < |outputs| => Decimal(Value(outputs[i]))), ',')
  }

  /**
   * Part 1: runs the program from registers `a`, `b`, `c` and joins the
   * outputs; `None` where the source panics or where `fuel` instructions
   * do not finish the run.
   */
  method Part1(a: nat, b: nat, c: nat, program: seq<Usize>, fuel: nat) returns (r: Option<string>)
    ensures RunFrom(program, State(a, b, c, 0), fuel).Finished? ==>
              r == Some(Joined(RunFrom(program, State(a, b, c, 0), fuel).outputs))
    ensures !RunFrom(program, State(a, b, c, 0), fuel).Finished? ==> r.None?
  {
    var machine := new Machine(a, b, c);
    var outputs: seq<Usize> := [];
    var left: nat := fuel;
    while true
      invariant RunFrom(program, State(a, b, c, 0), fuel) == Prepend(outputs, RunFrom(program, machine.Current(), left))
      decreases left
    {
      ghost var before := machine.Current();
      var e := machine.Next(program, left);
      NextFromRun(program, before, left);
      match e
      case Emitted(v, t, rest) =>
        PrependAppend(outputs, [v], RunFrom(program, t, rest));
        outputs := outputs + [v];
        left := rest;
      case Stopped(t) =>
        assert outputs + [] == outputs;
        return Some(Joined(outputs));
      case Broke => return None;
      case OutOfFuel => return None;
    }
  }

  // ----- The unit tests -----

  /** If register C holds 9, the program 2,6 sets register B to 1. */
  lemma ExampleBst()
    ensures RunFrom([Digit(2), Digit(6)], State(0, 0, 9, 0), 1) == Finished([], State(0, 1, 9, 2))
  {
  }

  /** If register B holds 29, the program 1,7 sets register B to 26. */
  lemma ExampleBxl()
    ensures RunFrom([Digit(1), Digit(7)], State(0, 29, 0, 0), 1) == Finished([], State(0, 26, 0, 2))
  {
  }

  /** If register B holds 2024 and register C 43690, the program 4,0 sets register B to 44354. */
  lemma ExampleBxc(b: nat, c: nat)
    requires b == 2024 && c == 43690
    ensures RunFrom([Digit(4), Digit(0)], State(0, b, c, 0), 1) == Finished([], State(0, 44354, c, 2))
  {
    BxcRun(b, c);
    XorExample();
  }

  /** The program 4,0 sets register B to B xor C and halts. */
  lemma BxcRun(b: nat, c: nat)
    ensures RunFrom([Digit(4), Digit(0)], State(0, b, c, 0), 1) == Finished([], State(0, Xor(b, c), c, 2))
  {
    var program := [Digit(4), Digit(0)];
    var t := State(0, Xor(b, c), c, 2);
    assert Decode(program[0]) == Bxc;
    assert TryNext(program, State(0, b, c, 0)) == Stepped(t, None);
    assert RunFrom(program, t, 0) == Finished([], t);
  }

  lemma XorExample()
    ensures Xor(2024, 43690) == 44354
  {
    assert Xor(0, 1) == 1;
    assert Xor(0, 2) == 2;
    assert Xor(0, 5) == 5;
    assert Xor(0, 10) == 10;
    assert Xor(0, 21) == 21;
    assert Xor(1, 42) == 43;
    assert Xor(3, 85) == 86;
    assert Xor(7, 170) == 173;
    assert Xor(15, 341) == 346;
    assert Xor(31, 682) == 693;
    assert Xor(63, 1365) == 1386;
    assert Xor(126, 2730) == 2772;
    assert Xor(253, 5461) == 5544;
    assert Xor(506, 10922) == 11088;
    assert Xor(1012, 21845) == 22177;
    assert Xor(2024, 43690) == 44354;
  }

  /** If register A holds 10, the program 5,0,5,1,5,4 outputs 0,1,2. */
  lemma ExampleOut()
    ensures RunFrom(OutProgram, State(10, 0, 0, 0), 3) == Finished([Digit(0), Digit(1), Digit(2)], State(10, 0, 0, 6))
  {
    assert 0 % 8 == 0 && 1 % 8 == 1 && 10 % 8 == 2;
    assert TryNext(OutProgram, State(10, 0, 0, 0)) == Stepped(State(10, 0, 0, 2), Some(Digit(0)));
    assert TryNext(OutProgram, State(10, 0, 0, 2)) == Stepped(State(10, 0, 0, 4), Some(Digit(1)));
    assert TryNext(OutProgram, State(10, 0, 0, 4)) == Stepped(State(10, 0, 0, 6), Some(Digit(2)));
    assert TryNext(OutProgram, State(10, 0, 0, 6)) == Halt(State(10, 0, 0, 6));
  }

  const OutProgram: seq<Usize> := [Digit(5), Digit(0), Digit(5), Digit(1), Digit(5), Digit(4)]

  /** The program 0,1,5,4,3,0: halve A, output A modulo 8, repeat while A is not zero. */
  const HalvingProgram: seq<Usize> := [Digit(0), Digit(1), Digit(5), Digit(4), Digit(3), Digit(0)]

  /** What the halving program outputs from register A. */
  function HalvingOutputs(a: nat): (r: seq<Usize>)
    ensures |r| >= 1
    decreases a
  {
    if a / 2 == 0 then [Digit(0)] else [Digit((a / 2) % 8)] + HalvingOutputs(a / 2)
  }

  /** One pass of the loop: three instructions, one output, and back to the start with A halved. */
  lemma HalvingPass(a: nat, b: nat, c: nat)
    ensures TryNext(HalvingProgram, State(a, b, c, 0)) == Stepped(State(a / 2, b, c, 2), None)
    ensures TryNext(HalvingProgram, State(a / 2, b, c, 2)) == Stepped(State(a / 2, b, c, 4), Some(Digit((a / 2) % 8)))
    ensures TryNext(HalvingProgram, State(a / 2, b, c, 4)) ==
            Stepped(State(a / 2, b, c, if a / 2 != 0 then 0 else 6), None)
  {
    assert Pow2(1) == 2;
  }

  /** From any A, the halving program outputs `HalvingOutputs(A)` and stops with A at zero. */
  lemma {:induction false} HalvingRun(a: nat, b: nat, c: nat, fuel: nat)
    requires fuel >= 3 * |HalvingOutputs(a)|
    ensures RunFrom(HalvingProgram, State(a, b, c, 0), fuel) == Finished(HalvingOutputs(a), State(0, b, c, 6))
    decreases a
  {
    HalvingPass(a, b, c);
    var s1, s2, s3 := State(a / 2, b, c, 2), State(a / 2, b, c, 4), State(a / 2, b, c, if a / 2 != 0 then 0 else 6);
    var out := Digit((a / 2) % 8);
    if a / 2 == 0 {
      assert TryNext(HalvingProgram, s3) == Halt(s3);
      assert RunFrom(HalvingProgram, s2, fuel - 2) == Finished([], s3);
      assert RunFrom(HalvingProgram, s1, fuel - 1) == Finished([out], s3);
    } else {
      HalvingRun(a / 2, b, c, fuel - 3);
      var rest := RunFrom(HalvingProgram, s3, fuel - 3);
      assert RunFrom(HalvingProgram, s2, fuel - 2) == rest;
      assert RunFrom(HalvingProgram, s1, fuel - 1) == Finished([out] + rest.outputs, State(0, b, c, 6));
    }
  }

  /** The 3-bit numbers for a list of values below 8. */
  function Digits(vs: seq<nat>): (r: seq<Usize>)
    requires forall i :: 0 <= i < |vs| ==> vs[i] < 8
    ensures |r| == |vs| && forall i :: 0 <= i < |vs| ==> Value(r[i]) == vs[i]
  {
    if vs == [] then [] else [Digit(vs[0])] + Digits(vs[1..])
  }

  /** The values the halving program outputs from register A. */
  function HalvingValues(a: nat): (r: seq<nat>)
    ensures |r| >= 1 && forall i :: 0 <= i < |r| ==> r[i] < 8
    decreases a
  {
    if a / 2 == 0 then [0] else [(a / 2) % 8] + HalvingValues(a / 2)
  }

  lemma {:induction false} HalvingDigits(a: nat)
    ensures HalvingOutputs(a) == Digits(HalvingValues(a))
    decreases a
  {
    if a / 2 != 0 {
      HalvingDigits(a / 2);
      var vs := HalvingValues(a);
      assert vs[1..] == HalvingValues(a / 2);
    }
  }

  /** The part-1 example: A = 729 outputs 4,6,3,5,6,3,5,2,1,0. */
  lemma ExamplePart1(a: nat, fuel: nat)
    requires a == 729 && fuel == 30
    ensures RunFrom(HalvingProgram, State(a, 0, 0, 0), fuel) == Finished(Digits([4, 6, 3, 5, 6, 3, 5, 2, 1, 0]), State(0, 0, 0, 6))
  {
    Values729(a);
    HalvingDigits(a);
    HalvingRun(a, 0, 0, fuel);
  }

  /** A = 2024 with the same program outputs 4,2,5,6,7,7,7,7,3,1,0 and leaves 0 in A. */
  lemma ExampleHalving2024(a: nat, fuel: nat)
    requires a == 2024 && fuel == 33
    ensures RunFrom(HalvingProgram, State(a, 0, 0, 0), fuel) == Finished(Digits([4, 2, 5, 6, 7, 7, 7, 7, 3, 1, 0]), State(0, 0, 0, 6))
  {
    Values2024(a);
    HalvingDigits(a);
    HalvingRun(a, 0, 0, fuel);
  }

  lemma Values729(a: nat)
    requires a == 729
    ensures HalvingValues(a) == [4, 6, 3, 5, 6, 3, 5, 2, 1, 0]
  {
  }

  lemma Values2024(a: nat)
    requires a == 2024
    ensures HalvingValues(a) == [4, 2, 5, 6, 7, 7, 7, 7, 3, 1, 0]
  {
  }
}
