# Twiddle: the first stack virtual machine

Twiddle is a stack virtual machine built for language discovery. This model
covers its earliest interpreter, `run` in `twiddle.c`, together with the machine
state `struct vm`. That state holds an instruction pointer, a stack pointer, a
borrowed bytecode array and a 4096-slot integer stack. `run` resets
`ip` to 0 and `sp` to -1. It then repeats fetch, advance and dispatch until it
fetches opcode 0 (`END`) or executes `HALT`. It knows four opcodes:

- `END` (0) terminates the program.
- `HALT` (1) stops execution.
- `IPUSH` (2) pushes the word that follows it.
- `PRINT` (3) pops the top of the stack and prints it.

Any other opcode falls through the `switch`, so its only effect is to advance `ip`.

The project has two modules:

- `semantics.dfy` (module `Semantics`) gives the meaning of a run as pure
  functions. `Step` is one pass of the loop and `Exec` repeats it until the
  machine stops. The module also holds a static check of the bytecode, `SafeFrom`
  and `WellFormed`, and the lemmas about these definitions.
- `interpreter.dfy` (module `Interpreter`) holds the class `Vm`. It has the fields
  `ip`, `sp`, `code` and `stack`, where `stack` is an array of 4096 slots. A
  field `out` stands for standard output. The methods `Step` and `Run` update
  these fields in place and are proved against `Semantics.Step` and
  `Semantics.Exec`. `Demo` runs the literal program of `main`.

The C code never checks three things:

- that a fetch of an opcode or an operand stays inside the code;
- that a push fits in the stack;
- that `PRINT` has a value to pop.

In each of these cases the original reads or writes out of bounds. The model
instead stops the machine with an explicit fault: `CodeOverrun`,
`StackOverflow` or `StackUnderflow`. The machine has no jumps, so the stack
depth at every instruction is known statically. `SafeIffNoFault` proves that
the static check `SafeFrom` accepts exactly the programs that run without a fault.

## Model

| member | source | states |
|---|---|---|
| `Semantics.Step` | twiddle.c:26-47 | Any step that leaves the machine running moves `ip` forward, by 1 or by 2, and never past the end of the code. The stack changes only at its top, by at most one slot, and never grows beyond 4096 slots. The output either stays the same or gains the value that was on top of the stack. |
| `Semantics.Exec` | twiddle.c:26-48 | The loop always stops, in END, HALT or a fault, and never in a running state. `ip` never moves backwards or past the end of the code. Output printed before the run is kept as a prefix of the final output. The stack stays within its 4096 slots. |
| `Semantics.ExecOutputShift` | twiddle.c:45 | Printing only appends to standard output. Output printed before a run changes neither the status, `ip` nor stack the run ends with. It only appears in front of the run's own output. |
| `Semantics.RunAfterOutput` | twiddle.c:24-48 | Because `run` resets `ip` and `sp`, a run that starts after earlier output ends exactly like a fresh run. Its output is the earlier output followed by the fresh run's output. |
| `Semantics.SafeIffNoFault` | twiddle.c:26-46 | The static check accepts a configuration if and only if running from it never faults. It checks three things: every `IPUSH` has its operand inside the code and room on the stack, every `PRINT` has a value to pop, and END or HALT comes before the code runs out. |
| `Semantics.WellFormedIffClean` | twiddle.c:20-49 | A program is well formed if and only if its run from a fresh machine ends at END or HALT. |
| `Semantics.PushPrintHalt` | twiddle.c:54-63 | `IPUSH v, PRINT, HALT, END` prints exactly `[v]`, for every `v`. It stops at HALT with `ip` = 4 and an empty stack. |
| `Interpreter.Vm.constructor` | twiddle.c:61-62 | A new machine borrows the given code array, owns a fresh 4096-slot stack and has printed nothing. Its registers are left unset. |
| `Interpreter.Vm.Step` | twiddle.c:26-47 | One pass of the loop, in place. On END nothing changes. On HALT only `ip` advances by 1. On `IPUSH`, `ip` advances by 2, `sp` grows by 1 and `stack[sp]` is the operand. On `PRINT`, the old top is appended to the output, `sp` drops by 1 and `ip` advances by 1. Any other opcode only advances `ip` by 1. Only the new top slot of the stack array is ever written. The new abstract state is `Semantics.Step` of the old one. |
| `Interpreter.Vm.Run` | twiddle.c:20-49 | Whatever `ip` and `sp` held before, the run is the run of a fresh machine (`ip` = 0, empty stack) after the output so far. It ends in a stopped status, and its final state is `Semantics.Exec` of that start. |
| `Interpreter.Demo` | twiddle.c:51-65 | The literal program of `main` prints exactly `[42]`, stops at HALT and leaves `sp` = -1. |

Two runs of the same code end in the same state and print the same output.
This follows from `Interpreter.Vm.Run`, whose final state is a function of the
code and the earlier output only.

## Left out

- The `trace` flag and all `fprintf(stderr, …)` diagnostics: the per-step `[ip] op` line, the per-opcode lines and the banner (twiddle.c:27-29, 34, 39, 44, 52). They have no effect on the machine state or the program output. The `TRACE`/`NOTRACE` flags are not modelled.
- The decimal formatting of `printf("%d\n", …)`. Standard output is modelled as the sequence `out` of printed integers.
- The undefined behaviour of out-of-bounds reads and writes (code past its end, `stack[4096]`, `stack[-1]`). Each becomes a fault status that stops the run. The original goes on with whatever memory it touched.
- The width of C `int`. Values are only copied from the code to the stack and on to the output, never computed with, and `ip` never exceeds the length of the code. So unbounded integers change nothing.
- `main`'s process plumbing and exit status (twiddle.c:51-65). Only its literal program is modelled, as `Demo`.
