/**
 * Twiddle: a stack virtual machine for language discovery.
 *
 * This module gives the meaning of one run of the interpreter as pure
 * functions over an abstract machine configuration: `Step` is one pass of
 * the fetch / advance / dispatch loop, `Exec` repeats it until the machine
 * stops.  The class in module Interpreter is proved against these functions.
 *
 * The machine has four opcodes.  The bytecode is a flat sequence of integers
 * in which `IPUSH` is followed by its immediate operand and a 0 (`END`)
 * terminates the program.  The original never checks that a fetch stays inside
 * the code, that a push fits in the 4096-slot stack, or that `PRINT` has
 * something to pop; here each of those situations stops the machine with an
 * explicit fault instead.
 */
module Semantics {

  const END := 0
  const HALT := 1
  const IPUSH := 2
  const PRINT := 3

  /** Number of slots in the operand stack. */
  const STACK_SIZE := 4096

  /** The situations the original leaves undefined. */
  datatype Fault =
    | CodeOverrun     // an opcode or an operand fetched past the end of the code
    | StackOverflow   // IPUSH with all STACK_SIZE slots in use
    | StackUnderflow  // PRINT with an empty stack

  datatype Status = Running | Ended | Halted | Faulted(fault: Fault)

  /**
   * The machine seen abstractly: the instruction pointer, the live part of the
   * operand stack (bottom first, so the stack pointer is |stack| - 1) and
   * everything printed so far.
   */
  datatype Config = Config(ip: nat, stack: seq<int>, out: seq<int>)

  datatype Outcome = Outcome(status: Status, config: Config)

  /** The configuration at the start of a run that has printed `out` before. */
  function Start(out: seq<int>): Config {
    Config(0, [], out)
  }

  /**
   * One pass of the interpreter loop: fetch the opcode at `ip`; stop on END;
   * otherwise advance `ip` and dispatch.  Opcodes other than the four known
   * ones fall through the dispatch and only advance `ip`.
   */
  function Step(code: seq<int>, c: Config): (r: Outcome)
    // every step that keeps the machine running moves forward through the code
    ensures r.status == Running ==> c.ip < r.config.ip <= c.ip + 2 && r.config.ip <= |code|
    ensures c.ip <= |code| ==> r.config.ip <= |code|
    // the stack changes only at its top, by at most one slot
    ensures r.config.stack == c.stack
            || (|r.config.stack| == |c.stack| + 1 && r.config.stack[..|c.stack|] == c.stack)
            || (|r.config.stack| + 1 == |c.stack| && r.config.stack == c.stack[..|r.config.stack|])
    ensures |c.stack| <= STACK_SIZE ==> |r.config.stack| <= STACK_SIZE
    // output only grows, by the value that was on top of the stack
    ensures r.config.out == c.out
            || (c.stack != [] && r.config.out == c.out + [c.stack[|c.stack| - 1]])
  {
    if c.ip >= |code| then
      Outcome(Faulted(CodeOverrun), c)
    else
      var op := code[c.ip];
      var ip := c.ip + 1;
      if op == END then
        Outcome(Ended, c)
      else if op == HALT then
        Outcome(Halted, c.(ip := ip))
      else if op == IPUSH then
        if ip >= |code| then
          Outcome(Faulted(CodeOverrun), c.(ip := ip))
        else if |c.stack| >= STACK_SIZE then
          Outcome(Faulted(StackOverflow), c.(ip := ip + 1))
        else
          Outcome(Running, c.(ip := ip + 1, stack := c.stack + [code[ip]]))
      else if op == PRINT then
        if c.stack == [] then
          Outcome(Faulted(StackUnderflow), c.(ip := ip))
        else
          var top := |c.stack| - 1;
          Outcome(Running, c.(ip := ip, stack := c.stack[..top], out := c.out + [c.stack[top]]))
      else
        Outcome(Running, c.(ip := ip))
  }

  /** Repeat `Step` until the machine stops; `ip` only grows, so this terminates. */
  function Exec(code: seq<int>, c: Config): (r: Outcome)
    ensures r.status != Running
    ensures c.ip <= r.config.ip
    ensures c.ip <= |code| ==> r.config.ip <= |code|
    ensures c.out <= r.config.out
    ensures |c.stack| <= STACK_SIZE ==> |r.config.stack| <= STACK_SIZE
    decreases |code| - c.ip
  {
    var s := Step(code, c);
    if s.status == Running then Exec(code, s.config) else s
  }

  /** A whole run of `code` from a fresh machine. */
  function Run(code: seq<int>): Outcome {
    Exec(code, Start([]))
  }

  /** `c` with `p` printed before everything it has printed. */
  function PrefixOutput(c: Config, p: seq<int>): Config {
    c.(out := p + c.out)
  }

  lemma StepOutputShift(code: seq<int>, c: Config, p: seq<int>)
    ensures Step(code, PrefixOutput(c, p))
            == Outcome(Step(code, c).status, PrefixOutput(Step(code, c).config, p))
  {
  }

  /** What was printed before a run has no influence on the run itself. */
  lemma {:induction false} ExecOutputShift(code: seq<int>, c: Config, p: seq<int>)
    ensures Exec(code, PrefixOutput(c, p))
            == Outcome(Exec(code, c).status, PrefixOutput(Exec(code, c).config, p))
    decreases |code| - c.ip
  {
    StepOutputShift(code, c, p);
    var s := Step(code, c);
    if s.status == Running {
      ExecOutputShift(code, s.config, p);
    }
  }

  /**
   * A run that starts after `out` has been printed ends exactly as a fresh run
   * does, with `out` in front of the fresh run's output.
   */
  lemma RunAfterOutput(code: seq<int>, out: seq<int>)
    ensures Exec(code, Start(out)).status == Run(code).status
    ensures Exec(code, Start(out)).config.ip == Run(code).config.ip
    ensures Exec(code, Start(out)).config.stack == Run(code).config.stack
    ensures Exec(code, Start(out)).config.out == out + Run(code).config.out
  {
    ExecOutputShift(code, Start([]), out);
    assert PrefixOutput(Start([]), out) == Start(out);
  }

  /**
   * A static check of the bytecode: walking the instruction stream from `ip`
   * with `depth` values on the stack, every IPUSH has its operand inside the
   * code and room on the stack, every PRINT has a value to pop, and an END or
   * a HALT is reached before the code runs out.  There are no jumps, so the
   * stack depth at every instruction is known without running the program.
   */
  predicate SafeFrom(code: seq<int>, ip: nat, depth: nat)
    decreases |code| - ip
  {
    ip < |code| &&
    var op := code[ip];
    if op == END || op == HALT then
      true
    else if op == IPUSH then
      ip + 1 < |code| && depth < STACK_SIZE && SafeFrom(code, ip + 2, depth + 1)
    else if op == PRINT then
      depth > 0 && SafeFrom(code, ip + 1, depth - 1)
    else
      SafeFrom(code, ip + 1, depth)
  }

  /** A program that can be handed to the interpreter from a fresh machine. */
  predicate WellFormed(code: seq<int>) {
    SafeFrom(code, 0, 0)
  }

  /** The static check is exact: it accepts a configuration iff running from it never faults. */
  lemma {:induction false} SafeIffNoFault(code: seq<int>, c: Config)
    ensures SafeFrom(code, c.ip, |c.stack|) <==> !Exec(code, c).status.Faulted?
    decreases |code| - c.ip
  {
    var s := Step(code, c);
    if s.status == Running {
      SafeIffNoFault(code, s.config);
    }
  }

  /** A well-formed program ends at END or HALT, and only a well-formed one does. */
  lemma WellFormedIffClean(code: seq<int>)
    ensures WellFormed(code) <==> Run(code).status in {Ended, Halted}
  {
    SafeIffNoFault(code, Start([]));
  }

  /** `IPUSH v, PRINT, HALT, END` prints `v` and stops at HALT with an empty stack. */
  lemma PushPrintHalt(v: int)
    ensures Run([IPUSH, v, PRINT, HALT, END]) == Outcome(Halted, Config(4, [], [v]))
  {
    var code := [IPUSH, v, PRINT, HALT, END];
    var c1 := Config(2, [v], []);
    var c2 := Config(3, [], [v]);
    assert Step(code, Start([])) == Outcome(Running, c1);
    assert Step(code, c1) == Outcome(Running, c2);
    assert Exec(code, c2) == Outcome(Halted, Config(4, [], [v]));
    assert Exec(code, c1) == Exec(code, c2);
    assert Exec(code, Start([])) == Exec(code, c1);
  }
}
