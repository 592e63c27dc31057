/** Properties of the interpreter model: the effect of each symbol in one iteration of the
    main loop, the wrap-around of cell arithmetic, and how bounded runs compose. */
module BrainfckProperties {
  import opened Brainfck

  // ---------------------------------------------------------------------------
  // Cell arithmetic

  /** `+` and `-` undo each other on every cell value. */
  lemma IncrementDecrementInverse(v: Byte)
    ensures Decrement(Increment(v)) == v
    ensures Increment(Decrement(v)) == v
  {
  }

  /** 256 increments bring every cell back to its starting value. */
  lemma IncrementPeriod(v: Byte)
    ensures IncrementTimes(v, 256) == v
  {
    var sum := v as int + 256;
    assert sum % 256 == sum - 256 by { ReduceOnce(sum); }
  }

  /** No positive number of increments smaller than 256 brings a cell back to its value. */
  lemma IncrementPeriodMinimal(v: Byte, n: nat)
    requires 0 < n < 256
    ensures IncrementTimes(v, n) != v
  {
    var sum := v as int + n;
    ReduceOnce(sum);
  }

  /** Reduction modulo 256 of a value below 512. */
  lemma ReduceOnce(x: int)
    requires 0 <= x < 512
    ensures x % 256 == if x < 256 then x else x - 256
  {
  }

  // ---------------------------------------------------------------------------
  // One iteration of the main loop, symbol by symbol

  /** `+` replaces the current cell by its successor modulo 256 and changes nothing else
      but the instruction index, which advances by one. */
  lemma CycleIncrement(s: State)
    requires CanStep(s) && s.code[s.codeIndexer] == IncrementCell
    ensures var t := Cycle(s);
      |t.memory| == |s.memory| && t.memory[s.pointer] == Increment(s.memory[s.pointer]) &&
      (forall i :: 0 <= i < |s.memory| && i != s.pointer ==> t.memory[i] == s.memory[i]) &&
      t.pointer == s.pointer && t.output == s.output && t.code == s.code &&
      t.codeIndexer == s.codeIndexer + 1
  {
  }

  /** `-` replaces the current cell by its predecessor modulo 256 and changes nothing else
      but the instruction index, which advances by one. */
  lemma CycleDecrement(s: State)
    requires CanStep(s) && s.code[s.codeIndexer] == DecrementCell
    ensures var t := Cycle(s);
      |t.memory| == |s.memory| && t.memory[s.pointer] == Decrement(s.memory[s.pointer]) &&
      (forall i :: 0 <= i < |s.memory| && i != s.pointer ==> t.memory[i] == s.memory[i]) &&
      t.pointer == s.pointer && t.output == s.output && t.code == s.code &&
      t.codeIndexer == s.codeIndexer + 1
  {
  }

  /** `<` and `>` move the pointer by exactly one, with no clamping and no wrap-around, and
      leave tape and output alone. */
  lemma CycleMove(s: State)
    requires CanStep(s) && s.code[s.codeIndexer] in [MoveLeft, MoveRight]
    ensures var t := Cycle(s);
      t.pointer == (if s.code[s.codeIndexer] == MoveLeft then s.pointer - 1 else s.pointer + 1) &&
      t.memory == s.memory && t.output == s.output && t.code == s.code &&
      t.codeIndexer == s.codeIndexer + 1
  {
  }

  /** `,` and every character that is not one of the eight operators only advance the
      instruction index. */
  lemma CycleNoEffect(s: State)
    requires CanStep(s)
    requires s.code[s.codeIndexer] == Input || !IsOperator(s.code[s.codeIndexer])
    ensures Cycle(s) == s.(codeIndexer := s.codeIndexer + 1)
  {
  }

  /** `.` appends the current cell's value to the output, after everything output so far,
      and changes no tape state. */
  lemma CycleOutput(s: State)
    requires CanStep(s) && s.code[s.codeIndexer] == Output
    ensures var t := Cycle(s);
      t.output == s.output + [s.memory[s.pointer]] &&
      t.memory == s.memory && t.pointer == s.pointer && t.code == s.code &&
      t.codeIndexer == s.codeIndexer + 1
  {
  }

  /** `[` on a zero cell resumes just after the nearest `]` that follows it; on a non-zero
      cell it resumes at the next symbol. Tape, pointer and output are unchanged. */
  lemma CycleJumpZero(s: State)
    requires CanStep(s) && s.code[s.codeIndexer] == JumpZero
    ensures var t := Cycle(s);
      t.memory == s.memory && t.pointer == s.pointer && t.output == s.output && t.code == s.code &&
      (s.memory[s.pointer] == 0 <==> t.codeIndexer != s.codeIndexer + 1) &&
      (s.memory[s.pointer] == 0 ==>
        var j := t.codeIndexer - 1;
        s.codeIndexer < j < |s.code| && s.code[j] == JumpNoZero &&
        forall k :: s.codeIndexer <= k < j ==> s.code[k] != JumpNoZero)
  {
  }

  /** `]` on a non-zero cell resumes just after the nearest `[` that precedes it; on a zero
      cell it resumes at the next symbol. Tape, pointer and output are unchanged. */
  lemma CycleJumpNoZero(s: State)
    requires CanStep(s) && s.code[s.codeIndexer] == JumpNoZero
    ensures var t := Cycle(s);
      t.memory == s.memory && t.pointer == s.pointer && t.output == s.output && t.code == s.code &&
      (s.memory[s.pointer] == 0 <==> t.codeIndexer == s.codeIndexer + 1) &&
      (s.memory[s.pointer] != 0 ==>
        var j := t.codeIndexer - 1;
        0 <= j < s.codeIndexer && s.code[j] == JumpZero &&
        forall k :: j < k <= s.codeIndexer ==> s.code[k] != JumpZero)
  {
  }

  /** `CloseAhead` holds exactly when some `]` occurs at or after index `i`. */
  lemma {:induction false} CloseAheadExists(code: string, i: nat)
    ensures CloseAhead(code, i) <==> exists j :: i <= j < |code| && code[j] == JumpNoZero
    decreases |code| - i
  {
    if i < |code| && code[i] != JumpNoZero {
      CloseAheadExists(code, i + 1);
      assert (exists j :: i + 1 <= j < |code| && code[j] == JumpNoZero) <==>
             (exists j :: i <= j < |code| && code[j] == JumpNoZero);
    }
  }

  /** `OpenBehind` holds exactly when some `[` occurs at or before index `i` of the program. */
  lemma {:induction false} OpenBehindExists(code: string, i: nat)
    requires i < |code|
    ensures OpenBehind(code, i) <==> exists j :: 0 <= j <= i && code[j] == JumpZero
    decreases i
  {
    if code[i] != JumpZero && i > 0 {
      OpenBehindExists(code, i - 1);
      assert (exists j :: 0 <= j <= i - 1 && code[j] == JumpZero) <==>
             (exists j :: 0 <= j <= i && code[j] == JumpZero);
    }
  }

  /** The scans pair brackets by proximity, not by nesting: in `[[]]` the outer `[` jumps to
      the inner `]` and the outer `]` jumps back to the inner `[`. */
  lemma ScansIgnoreNesting()
    ensures NextClose("[[]]", 0) == 2
    ensures PrevOpen("[[]]", 3) == 1
  {
  }

  // ---------------------------------------------------------------------------
  // Bounded runs of the main loop

  /** Running with `f + g` steps is running with `f` steps and then, if those ran out,
      with `g` more from where they stopped. So splitting a run over several calls with
      the same program gives the same final state and output. */
  lemma {:induction false} RunAdditive(s: State, f: nat, g: nat)
    ensures Run(s, f + g) ==
      (var r := Run(s, f); if r.outcome == FuelExhausted then Run(r.final, g) else r)
    decreases f
  {
    if !CanStep(s) {
      assert Run(s, f + g) == Run(s, f);
    } else if f == 0 {
      assert Run(s, f) == Result(s, FuelExhausted);
    } else {
      var t := Cycle(s);
      RunAdditive(t, f - 1, g);
      assert Run(s, f + g) == Run(t, (f - 1) + g);
      assert Run(s, f) == Run(t, f - 1);
    }
  }

  /** Once a run has stopped for any reason but the step bound, more steps change nothing. */
  lemma RunMoreFuel(s: State, f: nat, g: nat)
    requires Run(s, f).outcome != FuelExhausted && f <= g
    ensures Run(s, g) == Run(s, f)
  {
    RunAdditive(s, f, g - f);
  }

  /** A run that starts with the instruction index at or past the end of the program does
      nothing: `interpret` does not reset the index, so a second call with a program no
      longer than the first executes nothing. */
  lemma RunPastEnd(s: State, f: nat)
    requires s.codeIndexer >= |s.code|
    ensures Run(s, f) == Result(s, Finished)
  {
  }

  /** Interpreting the same program again after it finished leaves every field as it is. */
  lemma RerunAfterFinish(s: State, code: string, f: nat, g: nat)
    requires Run(s.(code := code), f).outcome == Finished
    ensures var r := Run(s.(code := code), f); Run(r.final.(code := code), g) == r
  {
  }

  /** `n` consecutive `+` symbols add `n` modulo 256 to the current cell and change nothing
      else but the instruction index. */
  lemma {:induction false} RunIncrements(s: State, n: nat)
    requires PointerInRange(s) && s.codeIndexer + n <= |s.code|
    requires forall k :: s.codeIndexer <= k < s.codeIndexer + n ==> s.code[k] == IncrementCell
    ensures var r := Run(s, n);
      r.final == s.(memory := s.memory[s.pointer := IncrementTimes(s.memory[s.pointer], n)],
                    codeIndexer := s.codeIndexer + n)
    decreases n
  {
    if n == 0 {
      assert s.memory[s.pointer := s.memory[s.pointer]] == s.memory;
    } else {
      var t := Cycle(s);
      CycleIncrement(s);
      assert t == s.(memory := s.memory[s.pointer := Increment(s.memory[s.pointer])],
                     codeIndexer := s.codeIndexer + 1);
      RunIncrements(t, n - 1);
      assert t.memory[s.pointer := IncrementTimes(t.memory[s.pointer], n - 1)]
          == s.memory[s.pointer := IncrementTimes(s.memory[s.pointer], n)];
    }
  }

  /** 256 `+` symbols in a row leave the current cell at its starting value. */
  lemma TwoHundredFiftySixIncrements(s: State)
    requires PointerInRange(s) && s.codeIndexer + 256 <= |s.code|
    requires forall k :: s.codeIndexer <= k < s.codeIndexer + 256 ==> s.code[k] == IncrementCell
    ensures Run(s, 256).final.memory == s.memory
  {
    RunIncrements(s, 256);
    IncrementPeriod(s.memory[s.pointer]);
    assert s.memory[s.pointer := s.memory[s.pointer]] == s.memory;
  }

  /** An empty loop `[]` reached at its `]` with a non-zero current cell jumps back to the
      `]` itself, so every bounded run from there is cut off by the step bound with the
      state unchanged: the source's `interpret` never returns. */
  lemma {:induction false} EmptyLoopSpins(s: State, f: nat)
    requires 0 < s.codeIndexer < |s.code| && PointerInRange(s) && s.memory[s.pointer] != 0
    requires s.code[s.codeIndexer - 1] == JumpZero && s.code[s.codeIndexer] == JumpNoZero
    ensures Run(s, f) == Result(s, FuelExhausted)
    decreases f
  {
    assert PrevOpen(s.code, s.codeIndexer - 1) == s.codeIndexer - 1;
    assert OpenBehind(s.code, s.codeIndexer) && CanStep(s);
    assert Cycle(s) == s;
    if f > 0 {
      EmptyLoopSpins(s, f - 1);
      assert Run(s, f) == Run(Cycle(s), f - 1);
    }
  }

  /** The program `+[]` on a fresh interpreter never finishes: every bounded run ends on
      the step bound. */
  lemma PlusEmptyLoopDiverges(f: nat)
    ensures Run(Initial().(code := "+[]"), f).outcome == FuelExhausted
  {
    var s0 := Initial().(code := "+[]");
    if f >= 2 {
      var s1 := Cycle(s0);
      var s2 := Cycle(s1);
      assert s2.codeIndexer == 2 && s2.memory[0] == 1 && s2.pointer == 0;
      RunAdditive(s0, 2, f - 2);
      EmptyLoopSpins(s2, f - 2);
    }
  }

  /** The program `]` on a fresh interpreter falls through: the cell is zero, so the
      backward scan is not started, and the run finishes after one step. */
  lemma LoneCloseFallsThrough(f: nat)
    requires f >= 1
    ensures Run(Initial().(code := "]"), f) == Result(Initial().(code := "]", codeIndexer := 1), Finished)
  {
  }

  /** The program `+.` on a fresh interpreter outputs the single character code 1. */
  lemma PlusDotOutputsOne(f: nat)
    requires f >= 2
    ensures Run(Initial().(code := "+."), f).outcome == Finished
    ensures Run(Initial().(code := "+."), f).final.output == [1]
  {
    var s0 := Initial().(code := "+.");
    var s1 := Cycle(s0);
    assert s1.memory[0] == 1 && s1.codeIndexer == 1;
    var s2 := Cycle(s1);
    assert s2.output == [1] && s2.codeIndexer == 2;
    assert Run(s0, f) == Run(s1, f - 1) == Run(s2, f - 2) == Result(s2, Finished);
  }

  /** A client of the class: `interpret` keeps its instruction index between calls, so a
      second call with the same program resumes where a step-bounded first call stopped. */
  method ResumeAcrossCalls() returns (first: Outcome, second: Outcome, output: seq<Byte>)
    ensures first == FuelExhausted && second == Finished && output == [1]
  {
    var b := new Brainfck();
    first := b.Interpret("+.", 1);
    assert b.codeIndexer == 1 && b.output == [];
    second := b.Interpret("+.", 1);
    output := b.output;
  }
}
