# Brainfck interpreter model

This project models the `Brainfck` class of Brainfck.js, an interpreter for the
eight-instruction tape language usually called Brainfuck, and proves properties of the model.

The interpreter holds a 30000-cell `Uint8Array` tape, a data `pointer`, the program text `code`,
an instruction index `codeIndexer` and an output callback. `interpret(code)` installs the
program and runs a fetch–execute loop: it dispatches `code[codeIndexer]` through
`executeSymbol` and then increments `codeIndexer`, while `codeIndexer < code.length`. The
symbols behave as follows:

- `<` and `>` decrement and increment the pointer, with no bound checks.
- `+` and `-` change the current cell modulo 256.
- `.` hands the current cell's character to the callback.
- `,` does nothing, and neither does any other character.
- `[` on a zero cell scans forward to the nearest `]`.
- `]` on a non-zero cell scans backward to the nearest `[`.

The bracket scans do not track nesting, so a `[` is not paired with its nested match. Nothing is
reset between calls of `interpret`. A second call therefore continues with the previous tape,
pointer and instruction index.

The model follows `src/index.ts` as written. The file has no pointer clamping, newline
stripping, nesting-aware loop table or error sink, and the model adds none.

Files:

- `brainfck.dfy`, module `Brainfck`, holds three parts:
  - the byte arithmetic;
  - the abstract state `State` and the functions that specify the interpreter: `Execute` for
    `executeSymbol`, `Cycle` for one iteration of the main loop, and `Run` for a step-bounded
    run of `interpret`;
  - the class `Brainfck`. Its fields are the source's fields, and its methods `ExecuteSymbol`
    and `Interpret` are proved to follow `Execute` and `Run`.
- `properties.dfy`, module `BrainfckProperties`, holds lemmas about the model:
  - the effect of each symbol;
  - the wrap-around of cell arithmetic;
  - how bounded runs compose;
  - that the empty loop `[]` never terminates;
  - small concrete programs;
  - a client of the class.

The output callback is modelled by the field `output`. It records the character codes handed to
the callback, oldest first. The main loop can run forever, for example on `+[]`. For that
reason `Interpret` takes a step bound `fuel` and reports why it stopped, as an `Outcome`:

- `Finished`: the loop condition failed, as when the source's call returns.
- `FuelExhausted`: the step bound was reached.
- `PointerOutOfRange`: the next symbol would touch memory with the pointer off the tape.
- `ScanDiverges`: the next symbol would start a bracket scan that never ends.

## Model

| member | source | states |
|---|---|---|
| `Brainfck.Increment` | src/index.ts:47-49 | `++` on a tape cell gives v+1, and 255 wraps to 0 |
| `Brainfck.Decrement` | src/index.ts:50-52 | `--` on a tape cell gives v-1, and 0 wraps to 255 |
| `Brainfck.IncrementTimes` | src/index.ts:47-49 | n increments of a cell add n modulo 256 to its value |
| `Brainfck.Initial` | src/index.ts:23-29 | a fresh interpreter has 30000 zero cells, pointer 0, index 0, empty program and no output |
| `Brainfck.NextClose` | src/index.ts:59-63 | the forward scan of `[` stops at the first `]` at or after the index, with no `]` in between |
| `Brainfck.PrevOpen` | src/index.ts:64-68 | the backward scan of `]` stops at the last `[` at or before the index, with no `[` in between |
| `Brainfck.Execute` | src/index.ts:39-70 | a dispatched symbol never changes the program text or the tape length, and appends at most one output at the end |
| `Brainfck.Cycle` | src/index.ts:33-36 | one loop iteration keeps the program and the tape length, and only extends the output |
| `Brainfck.Run` | src/index.ts:31-37 | a bounded run keeps the program and the tape length and extends the output. It finishes exactly when the index is at or past the end of the program. It ends by the step bound only where a step could still be taken, and ends otherwise only at a pointer off the tape or a scan with no target |
| `Brainfck.Brainfck.constructor` | src/index.ts:23-29 | the new interpreter has a fresh tape and is in the `Initial` state |
| `Brainfck.Brainfck.ExecuteSymbol` | src/index.ts:39-70 | the method, with its in-place tape update and the two scan loops, leaves the object in `Execute` of its previous state |
| `Brainfck.Brainfck.Interpret` | src/index.ts:31-37 | the method installs the program without resetting anything else, and ends in the state and outcome `Run` gives from the previous state. It finishes exactly when `codeIndexer >= code.length` |
| `BrainfckProperties.IncrementDecrementInverse` | src/index.ts:47-52 | `+` and `-` undo each other on every cell value |
| `BrainfckProperties.IncrementPeriod` | src/index.ts:17 | 256 increments return a cell to its starting value |
| `BrainfckProperties.IncrementPeriodMinimal` | src/index.ts:17 | no positive number of increments below 256 returns a cell to its value |
| `BrainfckProperties.CycleIncrement` | src/index.ts:47-49 | `+` sets only `memory[pointer]` to its successor modulo 256. Pointer, output and program are unchanged, and the index advances by one |
| `BrainfckProperties.CycleDecrement` | src/index.ts:50-52 | `-` sets only `memory[pointer]` to its predecessor modulo 256. Pointer, output and program are unchanged, and the index advances by one |
| `BrainfckProperties.CycleMove` | src/index.ts:41-46 | `<` and `>` change the pointer by exactly -1 or +1, with no clamping. Tape and output are unchanged |
| `BrainfckProperties.CycleNoEffect` | src/index.ts:56-58 | `,` and any non-operator character only advance the index by one |
| `BrainfckProperties.CycleOutput` | src/index.ts:53-55 | `.` appends exactly `memory[pointer]` after the earlier output. Tape and pointer are unchanged |
| `BrainfckProperties.CycleJumpZero` | src/index.ts:59-63 | `[` on a non-zero cell only advances the index by one. On a zero cell it resumes just after the first `]` that follows, with no `]` in between. The tape is unchanged |
| `BrainfckProperties.CycleJumpNoZero` | src/index.ts:64-68 | `]` on a zero cell only advances the index by one. On a non-zero cell it resumes just after the last `[` before it, with no `[` in between. The tape is unchanged |
| `BrainfckProperties.CloseAheadExists` | src/index.ts:61 | the forward scan terminates exactly when some `]` occurs at or after the index |
| `BrainfckProperties.OpenBehindExists` | src/index.ts:66 | the backward scan terminates exactly when some `[` occurs at or before the index |
| `BrainfckProperties.ScansIgnoreNesting` | src/index.ts:59-68 | in `[[]]` the outer brackets jump to the inner ones, so pairing is by proximity, not nesting |
| `BrainfckProperties.RunAdditive` | src/index.ts:31-37 | running f+g steps equals running f steps, then g more if the bound was hit |
| `BrainfckProperties.RunMoreFuel` | src/index.ts:31-37 | once a run stops for a reason other than the bound, more steps change nothing |
| `BrainfckProperties.RunPastEnd` | src/index.ts:31-33 | with the index at or past the end of the program, `interpret` does nothing |
| `BrainfckProperties.RerunAfterFinish` | src/index.ts:31-37 | interpreting a program again after it finished changes nothing, because the index is not reset |
| `BrainfckProperties.RunIncrements` | src/index.ts:33-36 | n consecutive `+` add n modulo 256 to the current cell and change nothing else but the index |
| `BrainfckProperties.TwoHundredFiftySixIncrements` | src/index.ts:47-49 | running 256 consecutive `+` leaves the whole tape as it was |
| `BrainfckProperties.EmptyLoopSpins` | src/index.ts:64-67 | `[]` reached at its `]` with a non-zero cell returns to the same state, so every bounded run from there hits the bound |
| `BrainfckProperties.PlusEmptyLoopDiverges` | src/index.ts:31-37 | `+[]` on a fresh interpreter never finishes, for every step bound |
| `BrainfckProperties.LoneCloseFallsThrough` | src/index.ts:64-68 | the program `]` on a fresh interpreter falls through its zero cell and finishes |
| `BrainfckProperties.ResumeAcrossCalls` | src/index.ts:31-37 | a client: `Interpret("+.", 1)` stops on the bound after `+`, and a second `Interpret("+.", 1)` on the same object resumes at `.` (nothing is reset), finishes and has output exactly [1] |
| `BrainfckProperties.PlusDotOutputsOne` | src/index.ts:47-55 | the program `+.` on a fresh interpreter finishes and outputs exactly the code 1 |

## Left out

- The `lodash` import (src/index.ts:1) is unused and is not modelled.
- The output callback and `String.fromCharCode` (src/index.ts:21, src/index.ts:54) are foreign
  I/O. The model appends the cell's value, which is the character code, to the field `output`.
- The callback argument of the constructor is dropped for the same reason.
- Brainfck.Brainfck.ExecuteSymbol: requires the pointer to be on the tape for `+`, `-`, `.`,
  `[` and `]`. JavaScript gives `undefined` for typed-array reads off the tape, and its rule for
  writes off the tape differs between ECMAScript editions: older ones throw in strict code. So
  those steps are not modelled. `Run` and `Interpret` stop with `PointerOutOfRange` there
  instead.
- Brainfck.Brainfck.ExecuteSymbol: requires the scan of `[` to have a `]` ahead and the scan of
  `]` to have a `[` behind. Without one, the scan loops at src/index.ts:61 and
  src/index.ts:66 never end. `Run` and `Interpret` stop with `ScanDiverges` there instead.
- Brainfck.Brainfck.ExecuteSymbol: requires `codeIndexer < code.length`, which its only caller
  guarantees at src/index.ts:33.
- Brainfck.Brainfck.Interpret: takes a step bound `fuel` and returns an `Outcome`, neither of
  which the source has. The source's loop can run forever, and the bound stands in for that. An
  outcome other than `Finished` means the source call would not have returned at that point, or
  would have left the model.
- `pointer` and `codeIndexer` are JavaScript numbers. The model uses unbounded integers, so loss
  of precision beyond 2^53 is not modelled.
- JavaScript indexes strings by UTF-16 code unit, and the model indexes `string` by character.
  The two agree on every program without characters outside the Basic Multilingual Plane.
