/** Reference semantics of one `execinstr` call and of the whole `execute` loop, as
    functions of the memory image, the break offset and the register file. */
module Semantics {
  import opened Types
  import opened SizeTable
  import opened Opcodes
  import opened Flags
  import opened Move
  import opened Codec

  /** The result of one instruction: carry on with new registers, or stop with an outcome
      (the handler called `error`) and the registers as they were at that point. */
  datatype Status = Continue(cpu: Cpu) | Stop(outcome: Outcome, cpu: Cpu)

  /** Dispatch of a decoded instruction to its handler. */
  function Dispatch(codes: Codes, op: Byte, args: Args, cpu: Cpu): (r: Status)
    ensures r.cpu.ip == cpu.ip
    ensures r.Stop? ==> r.cpu == cpu && r.outcome != Segv
    ensures r.Stop? && r.outcome == Instr ==> IsMove(op)
    ensures r.Stop? && r.outcome == Halt ==> op == codes.hlt
    ensures !IsMove(op) && !Classify(codes, op).FlagKind? ==> r.cpu == cpu
  {
    match Classify(codes, op)
    case MoveKind =>
      (match MovStep(op, cpu, args.a1)
       case None => Stop(Instr, cpu)
       case Some(c) => Continue(c))
    case NopKind => Continue(cpu)
    case HaltKind => Stop(Halt, cpu)
    case FlagKind(f) => Continue(cpu.(flags := FlagStep(f, cpu.flags)))
    case Unmapped => Continue(cpu)
  }

  /** One `execinstr` on the instruction at offset `p`: look up its size, decode its
      arguments, dispatch. */
  function Step(table: seq<SizeEntry>, codes: Codes, mem: seq<Byte>, p: nat, cpu: Cpu): (r: Status)
    requires p + 5 <= |mem|
    ensures r.cpu.ip == cpu.ip
    ensures r.Continue? ==> ValidSize(SizeOf(table, mem[p]))
    ensures r.Stop? ==> r.cpu == cpu
  {
    var size := SizeOf(table, mem[p]);
    match Decode(mem, p, size)
    case None => Stop(Segv, cpu)
    case Some(args) => Dispatch(codes, mem[p], args, cpu)
  }

  /** An opcode without a valid size is a segmentation fault, before any dispatch. */
  lemma StepSegv(table: seq<SizeEntry>, codes: Codes, mem: seq<Byte>, p: nat, cpu: Cpu)
    requires p + 5 <= |mem|
    ensures Step(table, codes, mem, p, cpu) == Stop(Segv, cpu) <==> !ValidSize(SizeOf(table, mem[p]))
  {
  }

  /** The illegal-instruction fault comes only from the move family: both H and L set,
      or one of the two move opcodes without a case (0x0d, 0x0e). */
  lemma StepInstr(table: seq<SizeEntry>, codes: Codes, mem: seq<Byte>, p: nat, cpu: Cpu)
    requires p + 5 <= |mem|
    ensures Step(table, codes, mem, p, cpu) == Stop(Instr, cpu) <==>
              ValidSize(SizeOf(table, mem[p])) && IsMove(mem[p]) &&
              ((cpu.flags & HIGHER != 0 && cpu.flags & LOWER != 0) || mem[p] == 0x0d || mem[p] == 0x0e)
  {
  }

  /** A validly sized `hlt` stops the machine with a halt, and nothing else does. */
  lemma StepHalt(table: seq<SizeEntry>, codes: Codes, mem: seq<Byte>, p: nat, cpu: Cpu)
    requires p + 5 <= |mem| && codes.Valid()
    ensures Step(table, codes, mem, p, cpu) == Stop(Halt, cpu) <==>
              ValidSize(SizeOf(table, mem[p])) && mem[p] == codes.hlt
  {
    ClassifyNopHalt(codes);
  }

  /** A validly sized opcode with no dispatch case changes nothing. */
  lemma StepUnmapped(table: seq<SizeEntry>, codes: Codes, mem: seq<Byte>, p: nat, cpu: Cpu)
    requires p + 5 <= |mem|
    requires ValidSize(SizeOf(table, mem[p])) && Classify(codes, mem[p]) == Unmapped
    ensures Step(table, codes, mem, p, cpu) == Continue(cpu)
  {
  }

  /** No instruction sets any of bits 4-7 of the flags: the flag handlers keep or clear them
      and the move handler does not write the flags. */
  lemma StepKeepsHighBitsZero(table: seq<SizeEntry>, codes: Codes, mem: seq<Byte>, p: nat, cpu: Cpu)
    requires p + 5 <= |mem| && cpu.flags & 0xF0 == 0
    ensures Step(table, codes, mem, p, cpu).cpu.flags & 0xF0 == 0
  {
    var size := SizeOf(table, mem[p]);
    if ValidSize(size) {
      StepDecoded(table, codes, mem, p, cpu);
      match Classify(codes, mem[p])
      case FlagKind(f) =>
        if SetTarget(f).Some? {
          SetOps(f, cpu.flags);
        } else {
          ClearOps(f, cpu.flags);
        }
      case _ =>
    }
  }

  /** Where a run ended: the outcome, the registers and the offset of the last fetch. */
  datatype Final = Final(outcome: Outcome, cpu: Cpu, cursor: nat)

  /** Distance still to go before the cursor passes the break offset. */
  function Remaining(b: nat, next: nat): nat {
    if next > b then 0 else b + 1 - next
  }

  /** The `execute` loop from the state where the previous instruction sat at `cursor`
      and had `size` bytes (0 before the first fetch): advance cursor and `ip`, check the
      break offset, execute, repeat. */
  function Run(table: seq<SizeEntry>, codes: Codes, mem: seq<Byte>, b: nat, cursor: nat, size: nat, cpu: Cpu): (r: Final)
    requires b + 5 <= |mem|
    ensures r.cursor >= cursor + size
    decreases Remaining(b, cursor + size)
  {
    var at := cursor + size;
    var moved := cpu.(ip := Advance(cpu.ip, size));
    if at > b then Final(Segv, moved, at)
    else match Step(table, codes, mem, at, moved)
      case Stop(o, c) => Final(o, c, at)
      case Continue(c) => Run(table, codes, mem, b, at, SizeOf(table, mem[at]) as nat, c)
  }

  /** One turn of the loop that passes the break offset ends the run with a segmentation fault. */
  lemma RunPastBreak(table: seq<SizeEntry>, codes: Codes, mem: seq<Byte>, b: nat, cursor: nat, size: nat, cpu: Cpu)
    requires b + 5 <= |mem| && cursor + size > b
    ensures Run(table, codes, mem, b, cursor, size, cpu) == Final(Segv, cpu.(ip := Advance(cpu.ip, size)), cursor + size)
  {
  }

  /** One turn of the loop whose instruction carries on continues the run from there. */
  lemma RunContinue(table: seq<SizeEntry>, codes: Codes, mem: seq<Byte>, b: nat, cursor: nat, size: nat, cpu: Cpu)
    requires b + 5 <= |mem| && cursor + size <= b
    requires Step(table, codes, mem, cursor + size, cpu.(ip := Advance(cpu.ip, size))).Continue?
    ensures var at := cursor + size;
            var c := Step(table, codes, mem, at, cpu.(ip := Advance(cpu.ip, size))).cpu;
            Run(table, codes, mem, b, cursor, size, cpu) == Run(table, codes, mem, b, at, SizeOf(table, mem[at]) as nat, c)
  {
  }

  /** One turn of the loop whose instruction stops ends the run with that stop. */
  lemma RunStop(table: seq<SizeEntry>, codes: Codes, mem: seq<Byte>, b: nat, cursor: nat, size: nat, cpu: Cpu)
    requires b + 5 <= |mem| && cursor + size <= b
    requires Step(table, codes, mem, cursor + size, cpu.(ip := Advance(cpu.ip, size))).Stop?
    ensures var at := cursor + size;
            var st := Step(table, codes, mem, at, cpu.(ip := Advance(cpu.ip, size)));
            Run(table, codes, mem, b, cursor, size, cpu) == Final(st.outcome, st.cpu, at)
  {
  }

  /** The run stops with a segmentation fault exactly when the cursor passes the break
      offset or lands on an opcode without a valid size. */
  lemma {:induction false} RunSegv(table: seq<SizeEntry>, codes: Codes, mem: seq<Byte>, b: nat, cursor: nat, size: nat, cpu: Cpu)
    requires b + 5 <= |mem|
    ensures var r := Run(table, codes, mem, b, cursor, size, cpu);
            (r.cursor > b ==> r.outcome == Segv) &&
            (r.outcome == Segv <==> r.cursor > b || !ValidSize(SizeOf(table, mem[r.cursor])))
    decreases Remaining(b, cursor + size)
  {
    var at := cursor + size;
    if at <= b {
      var moved := cpu.(ip := Advance(cpu.ip, size));
      StepSegv(table, codes, mem, at, moved);
      if Step(table, codes, mem, at, moved).Continue? {
        RunSegv(table, codes, mem, b, at, SizeOf(table, mem[at]) as nat, Step(table, codes, mem, at, moved).cpu);
      }
    }
  }

  /** An illegal-instruction stop happens at a move opcode inside the loaded program. */
  lemma {:induction false} RunInstr(table: seq<SizeEntry>, codes: Codes, mem: seq<Byte>, b: nat, cursor: nat, size: nat, cpu: Cpu)
    requires b + 5 <= |mem|
    ensures var r := Run(table, codes, mem, b, cursor, size, cpu);
            r.outcome == Instr ==> r.cursor <= b && IsMove(mem[r.cursor])
    decreases Remaining(b, cursor + size)
  {
    var at := cursor + size;
    if at <= b {
      var moved := cpu.(ip := Advance(cpu.ip, size));
      var st := Step(table, codes, mem, at, moved);
      if st.Continue? {
        RunInstr(table, codes, mem, b, at, SizeOf(table, mem[at]) as nat, st.cpu);
      } else {
        StepInstr(table, codes, mem, at, moved);
      }
    }
  }

  /** The run halts exactly when it fetches a validly sized `hlt` inside the loaded program. */
  lemma {:induction false} RunHalt(table: seq<SizeEntry>, codes: Codes, mem: seq<Byte>, b: nat, cursor: nat, size: nat, cpu: Cpu)
    requires b + 5 <= |mem| && codes.Valid()
    ensures var r := Run(table, codes, mem, b, cursor, size, cpu);
            r.outcome == Halt <==> r.cursor <= b && mem[r.cursor] == codes.hlt && ValidSize(SizeOf(table, codes.hlt))
    decreases Remaining(b, cursor + size)
  {
    var at := cursor + size;
    if at <= b {
      var moved := cpu.(ip := Advance(cpu.ip, size));
      var st := Step(table, codes, mem, at, moved);
      StepHalt(table, codes, mem, at, moved);
      if st.Continue? {
        RunHalt(table, codes, mem, b, at, SizeOf(table, mem[at]) as nat, st.cpu);
      }
    }
  }

  /** Bits 4-7 of the flags, zero in a fresh machine, are still zero when a run ends. */
  lemma {:induction false} RunKeepsHighBitsZero(table: seq<SizeEntry>, codes: Codes, mem: seq<Byte>, b: nat, cursor: nat, size: nat, cpu: Cpu)
    requires b + 5 <= |mem| && cpu.flags & 0xF0 == 0
    ensures Run(table, codes, mem, b, cursor, size, cpu).cpu.flags & 0xF0 == 0
    decreases Remaining(b, cursor + size)
  {
    var at := cursor + size;
    if at <= b {
      var moved := cpu.(ip := Advance(cpu.ip, size));
      var st := Step(table, codes, mem, at, moved);
      StepKeepsHighBitsZero(table, codes, mem, at, moved);
      if st.Continue? {
        RunKeepsHighBitsZero(table, codes, mem, b, at, SizeOf(table, mem[at]) as nat, st.cpu);
      }
    }
  }

  /** Moving `ip` and the cursor by the same size keeps `ip` equal to the cursor modulo 2^16. */
  lemma AdvanceTracks(ip: Ip, cursor: nat, size: nat)
    requires ip == cursor % 0x1_0000
    ensures Advance(ip, size) == (cursor + size) % 0x1_0000
  {
    var q := cursor / 0x1_0000;
    assert cursor == q * 0x1_0000 + ip;
    assert cursor + size == q * 0x1_0000 + (ip + size);
  }

  /** `ip` follows the fetch cursor: at the end of a run it is the last fetch offset
      modulo 2^16, so it equals that offset whenever the program is under 64 KiB. */
  lemma {:induction false} RunIp(table: seq<SizeEntry>, codes: Codes, mem: seq<Byte>, b: nat, cursor: nat, size: nat, cpu: Cpu)
    requires b + 5 <= |mem|
    requires cpu.ip == cursor % 0x1_0000
    ensures var r := Run(table, codes, mem, b, cursor, size, cpu);
            r.cpu.ip == r.cursor % 0x1_0000
    decreases Remaining(b, cursor + size)
  {
    var at := cursor + size;
    var moved := cpu.(ip := Advance(cpu.ip, size));
    AdvanceTracks(cpu.ip, cursor, size);
    if at <= b {
      var st := Step(table, codes, mem, at, moved);
      if st.Continue? {
        RunIp(table, codes, mem, b, at, SizeOf(table, mem[at]) as nat, st.cpu);
      }
    }
  }

  /** A validly sized instruction is dispatched on the arguments its size decodes. */
  lemma StepDecoded(table: seq<SizeEntry>, codes: Codes, mem: seq<Byte>, p: nat, cpu: Cpu)
    requires p + 5 <= |mem| && ValidSize(SizeOf(table, mem[p]))
    ensures Step(table, codes, mem, p, cpu) == Dispatch(codes, mem[p], Decode(mem, p, SizeOf(table, mem[p])).value, cpu)
  {
  }

  /** `mov ax` writes its first argument into ax through MoveByte and changes nothing else. */
  lemma DispatchMoveAx(codes: Codes, args: Args, cpu: Cpu)
    requires !(cpu.flags & HIGHER != 0 && cpu.flags & LOWER != 0)
    ensures Dispatch(codes, MOV, args, cpu) ==
            Continue(cpu.(ax := MoveByte(cpu.flags & HIGHER != 0, cpu.flags & LOWER != 0, cpu.ax, args.a1)))
  {
    assert Classify(codes, MOV) == MoveKind;
  }

  /** A three-byte move to ax at `p` loads the little-endian word after the opcode,
      through MoveByte. */
  lemma StepMoveAx(table: seq<SizeEntry>, codes: Codes, mem: seq<Byte>, p: nat, cpu: Cpu)
    requires p + 5 <= |mem| && mem[p] == MOV && SizeOf(table, MOV) == 3
    requires !(cpu.flags & HIGHER != 0 && cpu.flags & LOWER != 0)
    ensures Step(table, codes, mem, p, cpu) ==
            Continue(cpu.(ax := MoveByte(cpu.flags & HIGHER != 0, cpu.flags & LOWER != 0, cpu.ax, Word16(mem[p + 1], mem[p + 2]))))
  {
    StepDecoded(table, codes, mem, p, cpu);
    assert Decode(mem, p, 3) == Some(Args(Word16(mem[p + 1], mem[p + 2]), 0));
    DispatchMoveAx(codes, Args(Word16(mem[p + 1], mem[p + 2]), 0), cpu);
  }

  /** A one-byte flag instruction at `p` changes the flags byte as FlagStep says and
      nothing else. */
  lemma StepFlag(table: seq<SizeEntry>, codes: Codes, mem: seq<Byte>, p: nat, cpu: Cpu, f: FlagOp)
    requires p + 5 <= |mem| && codes.Valid()
    requires mem[p] == codes.Code(f) && SizeOf(table, codes.Code(f)) == 1
    ensures Step(table, codes, mem, p, cpu) == Continue(cpu.(flags := FlagStep(f, cpu.flags)))
  {
    ClassifyFlag(codes, f);
  }

  /** A one-byte `hlt` at `p` halts. */
  lemma StepHaltAt(table: seq<SizeEntry>, codes: Codes, mem: seq<Byte>, p: nat, cpu: Cpu)
    requires p + 5 <= |mem| && codes.Valid()
    requires mem[p] == codes.hlt && SizeOf(table, codes.hlt) == 1
    ensures Step(table, codes, mem, p, cpu) == Stop(Halt, cpu)
  {
    ClassifyNopHalt(codes);
  }

  /** `mov ax, 0x04; ste; hlt` from a fresh register file halts with ax = 4, E set and G clear. */
  lemma ScenarioMoveSte(table: seq<SizeEntry>, codes: Codes, mem: seq<Byte>)
    requires codes.Valid()
    requires SizeOf(table, MOV) == 3 && SizeOf(table, codes.ste) == 1 && SizeOf(table, codes.hlt) == 1
    requires |mem| >= 10
    requires mem[0] == MOV && mem[1] == 0x04 && mem[2] == 0x00 && mem[3] == codes.ste && mem[4] == codes.hlt
    ensures var r := Run(table, codes, mem, 5, 0, 0, ZERO_CPU);
            r.outcome == Halt && r.cursor == 4 && r.cpu.ax == 0x0004 &&
            IsSet(r.cpu.flags, E) && !IsSet(r.cpu.flags, G) && ExitCode(r.outcome) == 0
  {
    StepMoveAx(table, codes, mem, 0, ZERO_CPU);
    var c1 := ZERO_CPU.(ax := 0x0004, ip := 3);
    StepFlag(table, codes, mem, 3, c1, Ste);
    var c2 := c1.(flags := 0x08, ip := 4);
    StepHaltAt(table, codes, mem, 4, c2);
    assert Run(table, codes, mem, 5, 3, 1, c1.(flags := 0x08)) == Final(Halt, c2, 4);
  }

  /** `mov ax, 0xFF; sth; mov ax, 0x12; hlt`: the second move replaces only the high byte,
      so ax ends at 0x12FF. */
  lemma ScenarioHighByte(table: seq<SizeEntry>, codes: Codes, mem: seq<Byte>)
    requires codes.Valid()
    requires SizeOf(table, MOV) == 3 && SizeOf(table, codes.sth) == 1 && SizeOf(table, codes.hlt) == 1
    requires |mem| >= 13
    requires mem[0] == MOV && mem[1] == 0xFF && mem[2] == 0x00 && mem[3] == codes.sth
    requires mem[4] == MOV && mem[5] == 0x12 && mem[6] == 0x00 && mem[7] == codes.hlt
    ensures var r := Run(table, codes, mem, 8, 0, 0, ZERO_CPU);
            r.outcome == Halt && r.cursor == 7 && r.cpu.ax == 0x12FF
  {
    StepMoveAx(table, codes, mem, 0, ZERO_CPU);
    var c1 := ZERO_CPU.(ax := 0x00FF, ip := 3);
    StepFlag(table, codes, mem, 3, c1, Sth);
    var c2 := c1.(flags := 0x02, ip := 4);
    StepMoveAx(table, codes, mem, 4, c2);
    var c3 := c2.(ax := 0x12FF, ip := 7);
    StepHaltAt(table, codes, mem, 7, c3);
    assert Run(table, codes, mem, 8, 4, 3, c2.(ax := 0x12FF)) == Final(Halt, c3, 7);
    assert Run(table, codes, mem, 8, 3, 1, c1.(flags := 0x02)) == Final(Halt, c3, 7);
  }

  /** A lone `hlt` is a valid program: it halts at once with every register still zero. */
  lemma ScenarioHaltOnly(table: seq<SizeEntry>, codes: Codes, mem: seq<Byte>)
    requires codes.Valid()
    requires SizeOf(table, codes.hlt) == 1
    requires |mem| >= 6 && mem[0] == codes.hlt
    ensures Run(table, codes, mem, 1, 0, 0, ZERO_CPU) == Final(Halt, ZERO_CPU, 0)
  {
    StepHaltAt(table, codes, mem, 0, ZERO_CPU);
  }
}
