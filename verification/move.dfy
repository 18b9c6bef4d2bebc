/** The move handler `__mov`: full, high-byte or low-byte writes chosen by the H and L flags. */
module Move {
  import opened Types
  import opened Opcodes

  lemma HighWrite(reg: Word, arg: Word)
    ensures var r := (arg << 8) | (reg & 0xFF); Lo(r) == Lo(reg) && Hi(r) == Lo(arg)
  {
  }

  lemma LowWrite(reg: Word, arg: Word)
    ensures var r := arg | (reg & 0xFF00); Lo(r) == Lo(arg) && Hi(r) == Hi(reg) | Hi(arg)
    ensures arg < 0x100 ==> Hi(arg | (reg & 0xFF00)) == Hi(reg)
  {
  }

  /** The value a general register (ax, bx, cx, dx) receives from a move of `arg`.
      With H the argument's low byte becomes the register's high byte; with L the argument
      is OR-ed, unmasked, onto the register's high byte. */
  function MoveByte(higher: bool, lower: bool, reg: Word, arg: Word): (r: Word)
    requires !(higher && lower)
    ensures !higher && !lower ==> r == arg
    ensures higher ==> Lo(r) == Lo(reg) && Hi(r) == Lo(arg)
    ensures lower ==> Lo(r) == Lo(arg) && Hi(r) == Hi(reg) | Hi(arg)
    ensures lower && arg < 0x100 ==> Hi(r) == Hi(reg)
  {
    if higher then HighWrite(reg, arg); (arg << 8) | (reg & 0xFF)
    else if lower then LowWrite(reg, arg); arg | (reg & 0xFF00)
    else arg
  }

  /** The move handler on the register file: `None` is the illegal-instruction fault. */
  function MovStep(op: Byte, cpu: Cpu, a1: Word): (r: Option<Cpu>)
    ensures r.None? <==> (cpu.flags & HIGHER != 0 && cpu.flags & LOWER != 0) || !(op in {0x08, 0x09, 0x0a, 0x0b, 0x0c, 0x0f})
    ensures r.Some? ==> r.value.ip == cpu.ip && r.value.flags == cpu.flags
    ensures r.Some? && op == 0x08 ==> r.value == cpu.(ax := r.value.ax)
    ensures r.Some? && op == 0x09 ==> r.value == cpu.(bx := r.value.bx)
    ensures r.Some? && op == 0x0a ==> r.value == cpu.(cx := r.value.cx)
    ensures r.Some? && op == 0x0b ==> r.value == cpu.(dx := r.value.dx)
    ensures r.Some? && op == 0x0c ==> r.value == cpu.(sp := a1)
    ensures r.Some? && op == 0x0f ==> r.value == cpu
  {
    var higher := cpu.flags & HIGHER != 0;
    var lower := cpu.flags & LOWER != 0;
    if higher && lower then None
    else if op == 0x08 then Some(cpu.(ax := MoveByte(higher, lower, cpu.ax, a1)))
    else if op == 0x09 then Some(cpu.(bx := MoveByte(higher, lower, cpu.bx, a1)))
    else if op == 0x0a then Some(cpu.(cx := MoveByte(higher, lower, cpu.cx, a1)))
    else if op == 0x0b then Some(cpu.(dx := MoveByte(higher, lower, cpu.dx, a1)))
    else if op == 0x0c then Some(cpu.(sp := a1))
    else if op == 0x0f then Some(cpu)
    else None
  }

  /** Moves to ax..dx honour the H and L flags as MoveByte describes; the stack pointer
      takes the whole argument whatever the flags say. */
  lemma MovStepRegister(op: Byte, cpu: Cpu, a1: Word)
    requires 0x08 <= op <= 0x0c
    requires !(cpu.flags & HIGHER != 0 && cpu.flags & LOWER != 0)
    ensures MovStep(op, cpu, a1).Some?
    ensures var h, l := cpu.flags & HIGHER != 0, cpu.flags & LOWER != 0;
            var c := MovStep(op, cpu, a1).value;
            (op == 0x08 ==> c.ax == MoveByte(h, l, cpu.ax, a1)) &&
            (op == 0x09 ==> c.bx == MoveByte(h, l, cpu.bx, a1)) &&
            (op == 0x0a ==> c.cx == MoveByte(h, l, cpu.cx, a1)) &&
            (op == 0x0b ==> c.dx == MoveByte(h, l, cpu.dx, a1)) &&
            (op == 0x0c ==> c.sp == a1)
  {
  }
}
