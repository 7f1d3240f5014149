/**
 * The interpreter itself: the machine state of Twiddle as an object whose
 * registers and stack are updated in place, proved against the functions of
 * module Semantics.  Standard output is the field `out`, to which every
 * PRINT appends the value it pops.
 */
module Interpreter {
  import S = Semantics

  class Vm {
    var ip: int
    var sp: int             // index of the top of the stack, -1 when empty
    const code: array<int>  // borrowed from the caller and never written
    const stack: array<int>
    var out: seq<int>       // everything printed so far

    /** The shape of the object, which holds whatever the registers contain. */
    ghost predicate Valid()
      reads this
    {
      stack.Length == S.STACK_SIZE && stack != code
    }

    /** The registers describe a machine that can take a step. */
    ghost predicate Ready()
      reads this
    {
      Valid() && 0 <= ip && -1 <= sp < S.STACK_SIZE
    }

    /** The abstract configuration: the live stack is `stack[0..sp]`. */
    ghost function Config(): S.Config
      reads this, stack
      requires Ready()
    {
      S.Config(ip, stack[..sp + 1], out)
    }

    /** A machine over `code` that has printed nothing; its registers are left unset. */
    constructor (code: array<int>)
      ensures Valid() && this.code == code && fresh(stack) && out == []
    {
      this.code := code;
      stack := new int[S.STACK_SIZE];
      out := [];
    }

    /** One pass of the interpreter loop: fetch, advance, dispatch. */
    method Step() returns (st: S.Status)
      requires Ready()
      modifies this`ip, this`sp, this`out, stack
      ensures Ready()
      ensures S.Outcome(st, Config()) == S.Step(code[..], old(Config()))
      ensures old(ip) < code.Length && code[old(ip)] == S.END ==>
                st == S.Ended && ip == old(ip) && sp == old(sp) && out == old(out)
      ensures old(ip) < code.Length && code[old(ip)] == S.HALT ==>
                st == S.Halted && ip == old(ip) + 1 && sp == old(sp) && out == old(out)
      ensures old(ip) + 1 < code.Length && code[old(ip)] == S.IPUSH && old(sp) + 1 < S.STACK_SIZE ==>
                st == S.Running && ip == old(ip) + 2 && sp == old(sp) + 1 &&
                stack[sp] == code[old(ip) + 1] && out == old(out)
      ensures old(ip) < code.Length && code[old(ip)] == S.PRINT && old(sp) >= 0 ==>
                st == S.Running && ip == old(ip) + 1 && sp == old(sp) - 1 &&
                out == old(out) + [old(stack[sp])]
      ensures old(ip) < code.Length && code[old(ip)] !in {S.END, S.HALT, S.IPUSH, S.PRINT} ==>
                st == S.Running && ip == old(ip) + 1 && sp == old(sp) && out == old(out)
      // only a push writes to the stack, and only to the new top slot
      ensures forall k :: 0 <= k < stack.Length && k != sp ==> stack[k] == old(stack[k])
    {
      if ip >= code.Length {
        return S.Faulted(S.CodeOverrun);
      }
      var op := code[ip];
      if op == S.END {
        return S.Ended;
      }
      ip := ip + 1;
      if op == S.HALT {
        st := S.Halted;
      } else if op == S.IPUSH {
        if ip >= code.Length {
          return S.Faulted(S.CodeOverrun);
        }
        var a := code[ip];
        ip := ip + 1;
        if sp + 1 >= S.STACK_SIZE {
          return S.Faulted(S.StackOverflow);
        }
        sp := sp + 1;
        stack[sp] := a;
        assert stack[..sp + 1] == old(stack[..sp + 1]) + [a];
        st := S.Running;
      } else if op == S.PRINT {
        if sp < 0 {
          return S.Faulted(S.StackUnderflow);
        }
        out := out + [stack[sp]];
        sp := sp - 1;
        st := S.Running;
      } else {
        st := S.Running;
      }
    }

    /**
     * Reset the registers and run until END, HALT or a fault.  Whatever the
     * registers held before, the run is the run of a fresh machine, after
     * the output printed so far.
     */
    method Run() returns (st: S.Status)
      requires Valid()
      modifies this`ip, this`sp, this`out, stack
      ensures Ready() && st != S.Running
      ensures S.Outcome(st, Config()) == S.Exec(code[..], S.Start(old(out)))
    {
      ip := 0;
      sp := -1;
      st := S.Running;
      while st == S.Running
        invariant Ready() && ip <= code.Length
        invariant st == S.Running ==> S.Exec(code[..], Config()) == S.Exec(code[..], S.Start(old(out)))
        invariant st != S.Running ==> S.Outcome(st, Config()) == S.Exec(code[..], S.Start(old(out)))
        decreases code.Length - ip + (if st == S.Running then 1 else 0)
      {
        st := Step();
      }
    }
  }

  /**
   * The program of the original's entry point: IPUSH 42, PRINT, HALT, END on
   * a new machine prints 42 and stops at HALT with the stack empty.
   */
  method Demo() returns (st: S.Status, output: seq<int>, sp: int)
    ensures st == S.Halted && output == [42] && sp == -1
  {
    var prog := new int[5] [S.IPUSH, 42, S.PRINT, S.HALT, S.END];
    var vm := new Vm(prog);
    st := vm.Run();
    assert prog[..] == [S.IPUSH, 42, S.PRINT, S.HALT, S.END];
    S.PushPrintHalt(42);
    output, sp := vm.out, vm.sp;
  }
}
