/** The virtual machine object: its register file, flags, memory and break offset, changed
    in place by the handlers, `execinstr`, `execute` and the loader `exampleprogram`. */
module Machine {
  import opened Types
  import opened SizeTable
  import opened Opcodes
  import opened Flags
  import opened Move
  import opened Codec
  import opened Semantics

  class VM {
    var ax: Word
    var bx: Word
    var cx: Word
    var dx: Word
    var sp: Word
    var ip: Ip
    var flags: Byte
    /** The break: how many bytes of `m` the loaded program occupies. */
    var b: nat
    /** The memory the program is loaded into and fetched from. */
    const m: array<Byte>
    /** The instruction-size table `map` searches. */
    const table: seq<SizeEntry>
    /** The opcode values the dispatcher switches on. */
    const codes: Codes

    /** The register file as a value. */
    function Regs(): Cpu
      reads this
    {
      Cpu(ax, bx, cx, dx, sp, ip, flags)
    }

    /** `virtualmachine`: a machine whose registers, flags, break and memory are all zero. */
    constructor (memSize: nat, table: seq<SizeEntry>, codes: Codes)
      ensures Regs() == ZERO_CPU && b == 0
      ensures fresh(m) && m.Length == memSize && forall k :: 0 <= k < memSize ==> m[k] == 0
      ensures this.table == table && this.codes == codes
    {
      ax, bx, cx, dx, sp, ip, flags, b := 0, 0, 0, 0, 0, 0, 0, 0;
      m := new Byte[memSize](_ => 0);
      this.table := table;
      this.codes := codes;
    }

    /** `__ste` */
    method SetEqual()
      modifies this`flags
      ensures flags == FlagStep(Ste, old(flags))
      ensures forall f :: IsSet(flags, f) == Apply(Effect(Ste, f), IsSet(old(flags), f))
    {
      FlagStepEffects(Ste, flags);
      flags := flags | 0x08;
    }

    /** `__stg` */
    method SetGreater()
      modifies this`flags
      ensures flags == FlagStep(Stg, old(flags))
      ensures forall f :: IsSet(flags, f) == Apply(Effect(Stg, f), IsSet(old(flags), f))
    {
      FlagStepEffects(Stg, flags);
      flags := flags | 0x04;
    }

    /** `__sth` */
    method SetHigher()
      modifies this`flags
      ensures flags == FlagStep(Sth, old(flags))
      ensures forall f :: IsSet(flags, f) == Apply(Effect(Sth, f), IsSet(old(flags), f))
    {
      FlagStepEffects(Sth, flags);
      flags := flags | 0x02;
    }

    /** `__stl` */
    method SetLower()
      modifies this`flags
      ensures flags == FlagStep(Stl, old(flags))
      ensures forall f :: IsSet(flags, f) == Apply(Effect(Stl, f), IsSet(old(flags), f))
    {
      FlagStepEffects(Stl, flags);
      flags := flags | 0x01;
    }

    /** `__cle` */
    method ClearEqual()
      modifies this`flags
      ensures flags == FlagStep(Cle, old(flags))
      ensures forall f :: IsSet(flags, f) == Apply(Effect(Cle, f), IsSet(old(flags), f))
    {
      FlagStepEffects(Cle, flags);
      flags := flags & 0x07;
    }

    /** `__clg`, with the mask as written (it keeps G and clears H and L). */
    method ClearGreater()
      modifies this`flags
      ensures flags == FlagStep(Clg, old(flags))
      ensures forall f :: IsSet(flags, f) == Apply(Effect(Clg, f), IsSet(old(flags), f))
    {
      FlagStepEffects(Clg, flags);
      flags := flags & 0x0c;
    }

    /** `__clh` */
    method ClearHigher()
      modifies this`flags
      ensures flags == FlagStep(Clh, old(flags))
      ensures forall f :: IsSet(flags, f) == Apply(Effect(Clh, f), IsSet(old(flags), f))
    {
      FlagStepEffects(Clh, flags);
      flags := flags & 0x0d;
    }

    /** `__cll` */
    method ClearLower()
      modifies this`flags
      ensures flags == FlagStep(Cll, old(flags))
      ensures forall f :: IsSet(flags, f) == Apply(Effect(Cll, f), IsSet(old(flags), f))
    {
      FlagStepEffects(Cll, flags);
      flags := flags & 0x0e;
    }

    /** `__mov`: `fault` is the illegal-instruction error, raised before any register changes. */
    method Mov(op: Byte, a1: Word) returns (fault: bool)
      modifies this`ax, this`bx, this`cx, this`dx, this`sp
      ensures MovStep(op, old(Regs()), a1) == if fault then None else Some(Regs())
      ensures fault ==> Regs() == old(Regs())
    {
      var higher := flags & HIGHER != 0;
      var lower := flags & LOWER != 0;
      if higher && lower {
        return true;
      }
      if op == 0x08 {
        ax := MoveByte(higher, lower, ax, a1);
      } else if op == 0x09 {
        bx := MoveByte(higher, lower, bx, a1);
      } else if op == 0x0a {
        cx := MoveByte(higher, lower, cx, a1);
      } else if op == 0x0b {
        dx := MoveByte(higher, lower, dx, a1);
      } else if op == 0x0c {
        sp := a1;
      } else if op == 0x0f {
      } else {
        return true;
      }
      return false;
    }

    /** The eight flag cases of the dispatch `switch`. */
    method FlagHandler(f: FlagOp)
      modifies this`flags
      ensures flags == FlagStep(f, old(flags))
      ensures forall g :: IsSet(flags, g) == Apply(Effect(f, g), IsSet(old(flags), g))
    {
      FlagStepEffects(f, flags);
      match f
      case Ste => SetEqual();
      case Stg => SetGreater();
      case Sth => SetHigher();
      case Stl => SetLower();
      case Cle => ClearEqual();
      case Clg => ClearGreater();
      case Clh => ClearHigher();
      case Cll => ClearLower();
    }

    /** The dispatch `switch` of `execinstr`: run the handler of `op` on its first argument. */
    method Handle(op: Byte, a1: Word) returns (stop: Option<Outcome>)
      modifies this`ax, this`bx, this`cx, this`dx, this`sp, this`flags
      ensures Dispatch(codes, op, Args(a1, 0), old(Regs())) ==
              if stop.Some? then Stop(stop.value, Regs()) else Continue(Regs())
    {
      match Classify(codes, op)
      case MoveKind =>
        var fault := Mov(op, a1);
        stop := if fault then Some(Instr) else None;
      case NopKind =>
        stop := None;
      case HaltKind =>
        stop := Some(Halt);
      case FlagKind(f) =>
        FlagHandler(f);
        stop := None;
      case Unmapped =>
        stop := None;
    }

    /** `execinstr` on the instruction at offset `p`: decode its arguments by size, then
        dispatch; `stop` is the `error` call that ends the machine, if any. */
    method ExecInstr(p: nat) returns (stop: Option<Outcome>)
      requires p + 5 <= m.Length
      modifies this`ax, this`bx, this`cx, this`dx, this`sp, this`flags
      ensures Step(table, codes, m[..], p, old(Regs())) ==
              if stop.Some? then Stop(stop.value, Regs()) else Continue(Regs())
    {
      var size := Map(table, m[p]);
      var a1: Word, a2: Word := 0, 0;
      if size == 1 {
      } else if size == 2 {
        a1 := m[p + 1] as Word;
      } else if size == 3 {
        a1 := Word16(m[p + 1], m[p + 2]);
      } else if size == 5 {
        a1 := Word16(m[p + 1], m[p + 2]);
        a2 := Word16(m[p + 3], m[p + 4]);
      } else {
        return Some(Segv);
      }
      assert Decode(m[..], p, size) == Some(Args(a1, a2));
      stop := Handle(m[p], a1);
    }

    /** `execute`: fetch, check the break, execute, until an instruction stops the machine.
        The outcome and the final registers are those of the reference run. */
    method Execute() returns (outcome: Outcome)
      requires b + 5 <= m.Length && m[0] != 0
      modifies this
      ensures b == old(b)
      ensures var r := Run(table, codes, m[..], b, 0, 0, old(Regs()));
              outcome == r.outcome && Regs() == r.cpu
    {
      ghost var mem := m[..];
      ghost var target := Run(table, codes, mem, b, 0, 0, Regs());
      var size: nat := 0;
      var cursor: nat := 0;
      while true
        invariant b == old(b) && m[..] == mem
        invariant Run(table, codes, mem, b, cursor, size, Regs()) == target
        decreases Remaining(b, cursor + size)
      {
        ghost var before, previous := Regs(), cursor;
        ip := Advance(ip, size);
        cursor := cursor + size;
        if cursor > b {
          RunPastBreak(table, codes, mem, b, previous, size, before);
          return Segv;
        }
        var s := Map(table, m[cursor]);
        var stop := ExecInstr(cursor);
        if stop.Some? {
          RunStop(table, codes, mem, b, previous, size, before);
          return stop.value;
        }
        RunContinue(table, codes, mem, b, previous, size, before);
        size := s as nat;
      }
    }

    /** `copy`: write the first `n` bytes of `src` into memory at offset `p`. */
    method Copy(p: nat, src: seq<Byte>, n: nat)
      requires n <= |src| && p + n <= m.Length
      modifies m
      ensures forall t :: 0 <= t < m.Length ==> m[t] == if p <= t < p + n then src[t - p] else old(m[t])
    {
      var j := 0;
      while j < n
        invariant j <= n
        invariant forall t :: 0 <= t < m.Length ==> m[t] == if p <= t < p + j then src[t - p] else old(m[t])
      {
        m[p + j] := src[j];
        j := j + 1;
      }
    }

    /** The body of the loader loop for instruction `k`: look up its size, grow the break
        by it and copy that many bytes right after the `done` bytes already placed over the
        initial memory `init`. */
    method LoadInstr(instrs: seq<Encoding>, k: nat, p: nat, ghost done: seq<Byte>, ghost init: seq<Byte>) returns (size: nat)
      requires Encoded(table, instrs) && k < |instrs|
      requires |done| == p && p + SizeOf(table, instrs[k][0]) as nat <= m.Length == |init|
      requires m[..] == done + init[p..]
      modifies this`b, m
      ensures size == SizeOf(table, instrs[k][0]) as nat && b == old(b) + size
      ensures m[..] == done + Chunk(table, instrs[k]) + init[p + size..]
    {
      var s := Map(table, instrs[k][0]);
      size := s as nat;
      ghost var before := m[..];
      Copy(p, instrs[k], size);
      PlaceChunk(init, before, m[..], done, Chunk(table, instrs[k]), p);
      b := b + size;
    }

    /** `exampleprogram`: copy the encoded instructions into memory one after another, up to
        and including the first `hlt` (at index `h`), growing the break by each one's size;
        the rest of memory keeps its contents. `end` is the offset just past the program. */
    method Load(instrs: seq<Encoding>, ghost h: nat) returns (end: nat)
      requires Encoded(table, instrs)
      requires h < |instrs| && instrs[h][0] == codes.hlt
      requires forall k :: 0 <= k < h ==> instrs[k][0] != codes.hlt
      requires TotalSize(table, instrs, h + 1) <= m.Length
      modifies this`b, m
      ensures end == TotalSize(table, instrs, h + 1)
      ensures b == old(b) + end && m[..] == Concat(table, instrs, h + 1) + old(m[..])[end..]
    {
      ghost var init := m[..];
      ghost var done: seq<Byte> := [];
      var p: nat := 0;
      var k: nat := 0;
      var halted := false;
      while !halted
        invariant if halted then k == h + 1 else k <= h
        invariant p == TotalSize(table, instrs, k) == |done| && p <= m.Length
        invariant done == Concat(table, instrs, k)
        invariant m[..] == done + init[p..]
        invariant b == old(b) + p
        decreases h + 1 - k
      {
        var opc := instrs[k][0];
        TotalSizeMono(table, instrs, k + 1, h + 1);
        var size := LoadInstr(instrs, k, p, done, init);
        assert Concat(table, instrs, k + 1) == done + Chunk(table, instrs[k]);
        assert TotalSize(table, instrs, k + 1) == p + size;
        done := done + Chunk(table, instrs[k]);
        p := p + size;
        k := k + 1;
        halted := opc == codes.hlt;
      }
      end := p;
    }
  }

  /** Writing `chunk` at offset `p` right after `done`, over memory that still holds its
      initial contents from `p` on, extends `done` by `chunk` and keeps the rest. */
  lemma PlaceChunk(init: seq<Byte>, before: seq<Byte>, after: seq<Byte>, done: seq<Byte>, chunk: seq<Byte>, p: nat)
    requires |done| == p && p + |chunk| <= |init|
    requires before == done + init[p..] && |after| == |before|
    requires forall t :: 0 <= t < |after| ==> after[t] == if p <= t < p + |chunk| then chunk[t - p] else before[t]
    ensures after == done + chunk + init[p + |chunk|..]
  {
    var want := done + chunk + init[p + |chunk|..];
    assert |want| == |after|;
    forall t | 0 <= t < |after|
      ensures after[t] == want[t]
    {
      if t < p {
        assert before[t] == done[t];
      } else if t >= p + |chunk| {
        assert before[t] == init[t];
      }
    }
  }

  /** The bytes the encoder gives for `mov ax, 0x04; ste; hlt` and their layout once
      loaded: five bytes, `hlt` last. */
  lemma ExampleLayout(table: seq<SizeEntry>, codes: Codes, prog: seq<Encoding>)
    requires codes.Valid()
    requires SizeOf(table, MOV) == 3 && SizeOf(table, codes.ste) == 1 && SizeOf(table, codes.hlt) == 1
    requires prog == [Encode(table, Instruction(MOV, 0x0004, 0)),
                      Encode(table, Instruction(codes.ste, 0, 0)),
                      Encode(table, Instruction(codes.hlt, 0, 0))]
    ensures Encoded(table, prog) && prog[2][0] == codes.hlt
    ensures forall k :: 0 <= k < 2 ==> prog[k][0] != codes.hlt
    ensures TotalSize(table, prog, 3) == 5
    ensures Concat(table, prog, 3) == [MOV, 0x04, 0x00, codes.ste, codes.hlt]
  {
    ListedElements(codes);
    var mov, ste, hlt := [MOV, 0x04, 0x00], [codes.ste], [codes.hlt];
    assert prog[0] == mov by { assert Lo(0x0004) == 0x04 && Hi(0x0004) == 0x00; }
    assert prog[1] == ste && prog[2] == hlt;
    assert prog[0][0] == MOV && prog[1][0] == codes.ste && prog[2][0] == codes.hlt;
    calc {
      TotalSize(table, prog, 3);
      TotalSize(table, prog, 2) + SizeOf(table, codes.hlt) as nat;
      TotalSize(table, prog, 1) + SizeOf(table, codes.ste) as nat + 1;
      TotalSize(table, prog, 0) + SizeOf(table, MOV) as nat + 2;
    }
    calc {
      Concat(table, prog, 3);
      Concat(table, prog, 2) + Chunk(table, hlt);
      Concat(table, prog, 1) + Chunk(table, ste) + hlt;
      Concat(table, prog, 0) + Chunk(table, mov) + ste + hlt;
      mov + ste + hlt;
    }
  }

  /** The machine `main` builds: zeroed, with `mov ax, 0x04; ste; hlt` encoded and loaded
      at address 0 and the break just past it. */
  method ExampleMachine(memSize: nat, table: seq<SizeEntry>, codes: Codes) returns (vm: VM)
    requires codes.Valid() && memSize >= 10
    requires SizeOf(table, MOV) == 3 && SizeOf(table, codes.ste) == 1 && SizeOf(table, codes.hlt) == 1
    ensures fresh(vm) && fresh(vm.m) && vm.table == table && vm.codes == codes
    ensures vm.Regs() == ZERO_CPU && vm.b == 5 && vm.m.Length == memSize
    ensures vm.m[0] == MOV && vm.m[1] == 0x04 && vm.m[2] == 0x00 && vm.m[3] == codes.ste && vm.m[4] == codes.hlt
  {
    vm := new VM(memSize, table, codes);
    var prog: seq<Encoding> := [Encode(table, Instruction(MOV, 0x0004, 0)),
                                Encode(table, Instruction(codes.ste, 0, 0)),
                                Encode(table, Instruction(codes.hlt, 0, 0))];
    ExampleLayout(table, codes, prog);
    var end := vm.Load(prog, 2);
    assert vm.m[..5] == Concat(table, prog, 3);
  }

  /** The example program of `main` halts with exit code 0, ax = 4, E set and G clear.
      The opcode values and sizes are those of the header, given as parameters. */
  method ExampleRun(memSize: nat, table: seq<SizeEntry>, codes: Codes) returns (outcome: Outcome, ax: Word, flags: Byte)
    requires codes.Valid() && memSize >= 10
    requires SizeOf(table, MOV) == 3 && SizeOf(table, codes.ste) == 1 && SizeOf(table, codes.hlt) == 1
    ensures outcome == Halt && ExitCode(outcome) == 0
    ensures ax == 0x0004 && IsSet(flags, E) && !IsSet(flags, G)
  {
    var vm := ExampleMachine(memSize, table, codes);
    ScenarioMoveSte(table, codes, vm.m[..]);
    outcome := vm.Execute();
    ax, flags := vm.ax, vm.flags;
  }
}
