/** The eight flag handlers `__ste` ... `__cll`: one mask operation each on the flags byte. */
module Flags {
  import opened Types
  import opened Opcodes

  /** The four meaningful bits of the flags register. */
  datatype Flag = E | G | H | L

  function Mask(f: Flag): Byte {
    match f
    case E => EQUAL
    case G => GREATER
    case H => HIGHER
    case L => LOWER
  }

  predicate IsSet(flags: Byte, f: Flag) {
    flags & Mask(f) != 0
  }

  /** The flag a set instruction names; `None` for the four clear instructions. */
  function SetTarget(op: FlagOp): Option<Flag> {
    match op
    case Ste => Some(E)
    case Stg => Some(G)
    case Sth => Some(H)
    case Stl => Some(L)
    case _ => None
  }

  /** The bit a set handler ORs in, or the mask a clear handler ANDs with (the clear
      masks are the literals of the handlers, 0x0c for `clg` included). */
  function Operand(op: FlagOp): Byte {
    match op
    case Ste => EQUAL
    case Stg => GREATER
    case Sth => HIGHER
    case Stl => LOWER
    case Cle => 0x07
    case Clg => 0x0c
    case Clh => 0x0d
    case Cll => 0x0e
  }

  /** The flags byte after one flag handler. */
  function FlagStep(op: FlagOp, flags: Byte): (r: Byte)
    ensures SetTarget(op).Some? ==> IsSet(r, SetTarget(op).value) && r & 0xF0 == flags & 0xF0
    ensures SetTarget(op).None? ==> r & 0xF0 == 0 && r & 0x0F == flags & Operand(op)
  {
    if SetTarget(op).Some? then flags | Operand(op) else flags & Operand(op)
  }

  lemma OrBit(flags: Byte, m: Byte)
    ensures (flags | m) & m == m && (flags | m) & !m == flags & !m
  {
  }

  lemma SingleBit(flags: Byte, c: Byte, m: Byte)
    requires m == 0x08 || m == 0x04 || m == 0x02 || m == 0x01
    ensures ((flags | c) & m != 0) == (c & m != 0 || flags & m != 0)
    ensures ((flags & c) & m != 0) == (c & m != 0 && flags & m != 0)
  {
  }

  /** A set instruction turns its own flag on and leaves the other seven bits as they were. */
  lemma SetOps(op: FlagOp, flags: Byte)
    requires SetTarget(op).Some?
    ensures var m := Mask(SetTarget(op).value); var r := FlagStep(op, flags);
            r & m == m && r & !m == flags & !m
  {
    OrBit(flags, Mask(SetTarget(op).value));
  }

  /** A clear instruction leaves bits 4-7 zero, whatever they were before. */
  lemma ClearOps(op: FlagOp, flags: Byte)
    requires SetTarget(op).None?
    ensures FlagStep(op, flags) & 0xF0 == 0
  {
  }

  /** `clg` as written: G and E keep their value while H and L are cleared. */
  lemma ClgKeepsGreater(flags: Byte)
    ensures var r := FlagStep(Clg, flags);
            IsSet(r, G) == IsSet(flags, G) && IsSet(r, E) == IsSet(flags, E) && !IsSet(r, H) && !IsSet(r, L)
  {
  }

  /** Per-flag reference table of what each instruction, as written, does:
      `Some(v)` forces the flag to `v`, `None` leaves it alone. */
  function Effect(op: FlagOp, f: Flag): Option<bool> {
    match op
    case Ste => if f == E then Some(true) else None
    case Stg => if f == G then Some(true) else None
    case Sth => if f == H then Some(true) else None
    case Stl => if f == L then Some(true) else None
    case Cle => if f == E then Some(false) else None
    case Clg => if f == H || f == L then Some(false) else None
    case Clh => if f == H then Some(false) else None
    case Cll => if f == L then Some(false) else None
  }

  function Apply(e: Option<bool>, current: bool): bool {
    match e
    case Some(v) => v
    case None => current
  }

  /** The byte-level handlers agree with the per-flag table on every flag. */
  lemma FlagStepBit(op: FlagOp, flags: Byte, f: Flag)
    ensures IsSet(FlagStep(op, flags), f) == Apply(Effect(op, f), IsSet(flags, f))
  {
    SingleBit(flags, Operand(op), Mask(f));
  }

  /** The same agreement, for all four flags at once. */
  lemma FlagStepEffects(op: FlagOp, flags: Byte)
    ensures forall f :: IsSet(FlagStep(op, flags), f) == Apply(Effect(op, f), IsSet(flags, f))
  {
    forall f {
      FlagStepBit(op, flags, f);
    }
  }

  /** The flags byte after a sequence of flag instructions, run in order. */
  function RunFlags(ops: seq<FlagOp>, flags: Byte): Byte
    decreases |ops|
  {
    if ops == [] then flags else RunFlags(ops[1..], FlagStep(ops[0], flags))
  }

  /** The value of a flag after a sequence: the effect of the last instruction that
      touches it, or its initial value when none does. */
  function LastEffect(ops: seq<FlagOp>, f: Flag, initial: bool): bool
    decreases |ops|
  {
    if ops == [] then initial else LastEffect(ops[1..], f, Apply(Effect(ops[0], f), initial))
  }

  /** Each flag reflects the most recent instruction affecting it, independently of the
      other three. */
  lemma {:induction false} RunFlagsBit(ops: seq<FlagOp>, flags: Byte, f: Flag)
    ensures IsSet(RunFlags(ops, flags), f) == LastEffect(ops, f, IsSet(flags, f))
    decreases |ops|
  {
    if ops != [] {
      FlagStepBit(ops[0], flags, f);
      RunFlagsBit(ops[1..], FlagStep(ops[0], flags), f);
    }
  }

  /** Bits 4-7 stay zero under every sequence of flag instructions. */
  lemma {:induction false} RunFlagsHighBitsZero(ops: seq<FlagOp>, flags: Byte)
    requires flags & 0xF0 == 0
    ensures RunFlags(ops, flags) & 0xF0 == 0
    decreases |ops|
  {
    if ops != [] {
      if SetTarget(ops[0]).Some? {
        SetOps(ops[0], flags);
      } else {
        ClearOps(ops[0], flags);
      }
      RunFlagsHighBitsZero(ops[1..], FlagStep(ops[0], flags));
    }
  }

  /** Because `clg` keeps G, no flag instruction ever clears G once it is set. */
  lemma {:induction false} GreaterIsSticky(ops: seq<FlagOp>, flags: Byte)
    requires IsSet(flags, G)
    ensures IsSet(RunFlags(ops, flags), G)
    decreases |ops|
  {
    if ops != [] {
      FlagStepBit(ops[0], flags, G);
      GreaterIsSticky(ops[1..], FlagStep(ops[0], flags));
    }
  }
}
