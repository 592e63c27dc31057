/** A model of the `Brainfck` interpreter class: a 30000-cell byte tape, a data pointer,
    the program text and an instruction index, driven by a fetch–execute loop.

    The abstract value of an interpreter is a `State`; the functions `Execute`, `Cycle`
    and `Run` give the meaning of one dispatched symbol, one iteration of the main loop and
    a bounded number of iterations. The class `Brainfck` keeps the source's fields and its
    methods are proved to follow those functions. */
module Brainfck {

  /** Number of tape cells. */
  const MemorySize: nat := 30000

  /** One tape cell: the element type of a `Uint8Array`. */
  newtype Byte = x: int | 0 <= x < 256

  /** `++` on a `Uint8Array` element: the sum is stored modulo 256. */
  function Increment(v: Byte): (r: Byte)
    ensures v < 255 ==> r as int == v as int + 1
    ensures v == 255 ==> r == 0
  {
    ((v as int + 1) % 256) as Byte
  }

  /** `--` on a `Uint8Array` element: the difference is stored modulo 256. */
  function Decrement(v: Byte): (r: Byte)
    ensures v > 0 ==> r as int == v as int - 1
    ensures v == 0 ==> r == 255
  {
    ((v as int - 1) % 256) as Byte
  }

  /** The value of a cell after `n` consecutive increments. */
  function IncrementTimes(v: Byte, n: nat): (r: Byte)
    ensures r as int == (v as int + n) % 256
    decreases n
  {
    if n == 0 then v else IncrementTimes(Increment(v), n - 1)
  }

  /** The eight operator symbols. */
  const MoveLeft := '<'
  const MoveRight := '>'
  const IncrementCell := '+'
  const DecrementCell := '-'
  const Output := '.'
  const Input := ','
  const JumpZero := '['
  const JumpNoZero := ']'

  predicate IsOperator(c: char) {
    c in [MoveLeft, MoveRight, IncrementCell, DecrementCell, Output, Input, JumpZero, JumpNoZero]
  }

  /** The symbols whose effect reads or writes `memory[pointer]`. */
  predicate TouchesMemory(c: char) {
    c in [IncrementCell, DecrementCell, Output, JumpZero, JumpNoZero]
  }

  /** The state of an interpreter. `output` holds the character codes handed to the output
      callback, oldest first. */
  datatype State = State(memory: seq<Byte>, pointer: int, code: string, codeIndexer: nat, output: seq<Byte>)

  /** A freshly constructed interpreter. */
  function Initial(): (s: State)
    ensures |s.memory| == MemorySize && forall i :: 0 <= i < MemorySize ==> s.memory[i] == 0
    ensures s.pointer == 0 && s.code == "" && s.codeIndexer == 0 && s.output == []
  {
    State(seq(MemorySize, _ => 0), 0, "", 0, [])
  }

  predicate PointerInRange(s: State) {
    0 <= s.pointer < |s.memory|
  }

  /** Some `]` occurs at or after index `i`. */
  predicate CloseAhead(code: string, i: nat)
    decreases |code| - i
  {
    i < |code| && (code[i] == JumpNoZero || CloseAhead(code, i + 1))
  }

  /** Some `[` occurs at or before index `i`. */
  predicate OpenBehind(code: string, i: nat)
    decreases i
  {
    i < |code| && (code[i] == JumpZero || (i > 0 && OpenBehind(code, i - 1)))
  }

  /** The forward scan of `[`: the nearest `]` at or after index `i`. Brackets are not
      matched by nesting depth. */
  function NextClose(code: string, i: nat): (j: nat)
    requires CloseAhead(code, i)
    ensures i <= j < |code| && code[j] == JumpNoZero
    ensures forall k :: i <= k < j ==> code[k] != JumpNoZero
    decreases |code| - i
  {
    if code[i] == JumpNoZero then i else NextClose(code, i + 1)
  }

  /** The backward scan of `]`: the nearest `[` at or before index `i`. Brackets are not
      matched by nesting depth. */
  function PrevOpen(code: string, i: nat): (j: nat)
    requires OpenBehind(code, i)
    ensures j <= i && code[j] == JumpZero
    ensures forall k :: j < k <= i ==> code[k] != JumpZero
    decreases i
  {
    if code[i] == JumpZero then i else PrevOpen(code, i - 1)
  }

  /** A bracket scan that `symbol` starts in state `s` reaches its target; the source's scan
      loops run forever otherwise. */
  predicate ScanTerminates(s: State, symbol: char)
    requires s.codeIndexer < |s.code|
    requires TouchesMemory(symbol) ==> PointerInRange(s)
  {
    (symbol == JumpZero && s.memory[s.pointer] == 0 ==> CloseAhead(s.code, s.codeIndexer)) &&
    (symbol == JumpNoZero && s.memory[s.pointer] != 0 ==> OpenBehind(s.code, s.codeIndexer))
  }

  /** Dispatching `symbol` in state `s` is within the model: the instruction index is inside
      the program (as the main loop guarantees), a memory-touching symbol finds the pointer on
      the tape, and a bracket scan terminates. */
  predicate Executable(s: State, symbol: char) {
    s.codeIndexer < |s.code| &&
    (TouchesMemory(symbol) ==> PointerInRange(s)) &&
    ScanTerminates(s, symbol)
  }

  /** The effect of `executeSymbol(symbol)`. It leaves the program text and the tape length
      alone and only ever appends to the output. */
  function Execute(s: State, symbol: char): (t: State)
    requires Executable(s, symbol)
    ensures t.code == s.code && |t.memory| == |s.memory|
    ensures s.output <= t.output && |t.output| <= |s.output| + 1
  {
    match symbol
    case '<' => s.(pointer := s.pointer - 1)
    case '>' => s.(pointer := s.pointer + 1)
    case '+' => s.(memory := s.memory[s.pointer := Increment(s.memory[s.pointer])])
    case '-' => s.(memory := s.memory[s.pointer := Decrement(s.memory[s.pointer])])
    case '.' => s.(output := s.output + [s.memory[s.pointer]])
    case ',' => s
    case '[' =>
      if s.memory[s.pointer] == 0 then s.(codeIndexer := NextClose(s.code, s.codeIndexer)) else s
    case ']' =>
      if s.memory[s.pointer] != 0 then s.(codeIndexer := PrevOpen(s.code, s.codeIndexer)) else s
    case _ => s
  }

  /** One iteration of the main loop can be taken within the model. */
  predicate CanStep(s: State) {
    s.codeIndexer < |s.code| && Executable(s, s.code[s.codeIndexer])
  }

  /** One iteration of the main loop: dispatch the current symbol, then advance the index. */
  function Cycle(s: State): (t: State)
    requires CanStep(s)
    ensures t.code == s.code && |t.memory| == |s.memory| && s.output <= t.output
  {
    var u := Execute(s, s.code[s.codeIndexer]);
    u.(codeIndexer := u.codeIndexer + 1)
  }

  /** How a bounded run of the main loop ended. */
  datatype Outcome =
    | Finished           // the loop condition failed: the index is past the program
    | FuelExhausted      // the step bound was reached first
    | PointerOutOfRange  // the next symbol touches memory with the pointer off the tape
    | ScanDiverges       // the next symbol starts a bracket scan that never finds its target

  datatype Result = Result(final: State, outcome: Outcome)

  /** At most `fuel` iterations of the main loop of `interpret`, starting in `s`. */
  function Run(s: State, fuel: nat): (r: Result)
    ensures r.final.code == s.code && |r.final.memory| == |s.memory|
    ensures s.output <= r.final.output
    ensures r.outcome == Finished <==> r.final.codeIndexer >= |s.code|
    ensures r.outcome == FuelExhausted ==> CanStep(r.final)
    ensures r.outcome == PointerOutOfRange ==>
      r.final.codeIndexer < |s.code| && TouchesMemory(s.code[r.final.codeIndexer]) && !PointerInRange(r.final)
    ensures r.outcome == ScanDiverges ==>
      r.final.codeIndexer < |s.code| && PointerInRange(r.final) &&
      !ScanTerminates(r.final, s.code[r.final.codeIndexer])
    decreases fuel
  {
    if s.codeIndexer >= |s.code| then Result(s, Finished)
    else
      var symbol := s.code[s.codeIndexer];
      if TouchesMemory(symbol) && !PointerInRange(s) then Result(s, PointerOutOfRange)
      else if !ScanTerminates(s, symbol) then Result(s, ScanDiverges)
      else if fuel == 0 then Result(s, FuelExhausted)
      else Run(Cycle(s), fuel - 1)
  }

  /** The interpreter object. The output callback is represented by the record `output` of
      the character codes it has been handed. */
  class Brainfck {
    const memory: array<Byte>
    var pointer: int
    var code: string
    var codeIndexer: nat
    var output: seq<Byte>

    ghost predicate Valid()
      reads this
    {
      memory.Length == MemorySize
    }

    /** The abstract value of the interpreter. */
    function Snapshot(): State
      reads this, memory
    {
      State(memory[..], pointer, code, codeIndexer, output)
    }

    constructor ()
      ensures Valid() && fresh(memory)
      ensures Snapshot() == Initial()
    {
      memory := new Byte[MemorySize](_ => 0);
      pointer := 0;
      code := "";
      codeIndexer := 0;
      output := [];
    }

    /** `executeSymbol`: the effect of one symbol; the two bracket cases scan `code` one index
        at a time. */
    method ExecuteSymbol(symbol: char)
      requires Valid() && Executable(Snapshot(), symbol)
      modifies this, memory
      ensures Valid()
      ensures Snapshot() == Execute(old(Snapshot()), symbol)
    {
      match symbol
      case '<' => pointer := pointer - 1;
      case '>' => pointer := pointer + 1;
      case '+' => memory[pointer] := Increment(memory[pointer]);
      case '-' => memory[pointer] := Decrement(memory[pointer]);
      case '.' => output := output + [memory[pointer]];
      case ',' =>
      case '[' =>
        if memory[pointer] == 0 {
          ghost var target := NextClose(code, codeIndexer);
          while code[codeIndexer] != JumpNoZero
            invariant old(codeIndexer) <= codeIndexer <= target
            invariant Snapshot() == old(Snapshot()).(codeIndexer := codeIndexer)
            decreases target - codeIndexer
          {
            codeIndexer := codeIndexer + 1;
          }
        }
      case ']' =>
        if memory[pointer] != 0 {
          ghost var target := PrevOpen(code, codeIndexer);
          while code[codeIndexer] != JumpZero
            invariant target <= codeIndexer <= old(codeIndexer)
            invariant Snapshot() == old(Snapshot()).(codeIndexer := codeIndexer)
            decreases codeIndexer - target
          {
            codeIndexer := codeIndexer - 1;
          }
        }
      case _ =>
    }

    /** `interpret(code)`: installs the program and runs the fetch–execute loop for at most
        `fuel` iterations. Pointer, tape, output and instruction index carry over from the
        previous call. */
    method Interpret(code: string, fuel: nat) returns (outcome: Outcome)
      requires Valid()
      modifies this, memory
      ensures Valid()
      ensures Result(Snapshot(), outcome) == Run(old(Snapshot()).(code := code), fuel)
      ensures outcome == Finished <==> codeIndexer >= |code|
    {
      ghost var expected := Run(old(Snapshot()).(code := code), fuel);
      this.code := code;
      var remaining := fuel;
      while codeIndexer < |this.code|
        invariant Valid() && this.code == code
        invariant Run(Snapshot(), remaining) == expected
        decreases remaining
      {
        var s := Snapshot();
        var symbol := this.code[codeIndexer];
        if TouchesMemory(symbol) && !PointerInRange(s) {
          assert Run(s, remaining) == Result(s, PointerOutOfRange);
          return PointerOutOfRange;
        }
        if !ScanTerminates(s, symbol) {
          assert Run(s, remaining) == Result(s, ScanDiverges);
          return ScanDiverges;
        }
        if remaining == 0 {
          assert Run(s, remaining) == Result(s, FuelExhausted);
          return FuelExhausted;
        }
        assert Run(s, remaining) == Run(Cycle(s), remaining - 1);
        ExecuteSymbol(symbol);
        codeIndexer := codeIndexer + 1;
        assert Snapshot() == Cycle(s);
        remaining := remaining - 1;
      }
      assert Run(Snapshot(), remaining) == Result(Snapshot(), Finished);
      return Finished;
    }
  }
}
