/** Machine-level value types shared by every part of the model: bytes, 16-bit words,
    the register file and the three ways a run can end. */
module Types {

  /** One byte of VM memory, an opcode, the flags register, a size-table entry. */
  type Byte = bv8

  /** A 16-bit register or decoded argument. */
  type Word = bv16

  /** The low and high bytes of a word. */
  function Lo(w: Word): Byte { (w & 0xFF) as Byte }
  function Hi(w: Word): Byte { (w >> 8) as Byte }

  /** The 16-bit instruction pointer, kept as a number because it only ever moves by addition. */
  type Ip = x: int | 0 <= x < 0x1_0000

  datatype Option<T> = None | Some(value: T)

  /** Masks of the four meaningful bits of the flags register. */
  const EQUAL: Byte := 0x08
  const GREATER: Byte := 0x04
  const HIGHER: Byte := 0x02
  const LOWER: Byte := 0x01

  /** The register file of the VM: four general registers, the stack pointer,
      the instruction pointer and the flags byte. */
  datatype Cpu = Cpu(ax: Word, bx: Word, cx: Word, dx: Word, sp: Word, ip: Ip, flags: Byte)

  /** The register file of a freshly created VM. */
  const ZERO_CPU: Cpu := Cpu(0, 0, 0, 0, 0, 0, 0)

  /** The reasons `error` is called: a segmentation fault, an illegal instruction, a halt. */
  datatype Outcome = Segv | Instr | Halt

  /** The exit code `error` hands to the process: success only for a halt. */
  function ExitCode(o: Outcome): (code: int)
    ensures code == 0 <==> o == Halt
    ensures o != Halt ==> code == -1
  {
    match o
    case Halt => 0
    case _ => -1
  }

  /** The instruction pointer after it moves forward by `size` bytes, wrapping at 16 bits. */
  function Advance(ip: Ip, size: nat): (r: Ip)
    ensures ip + size < 0x1_0000 ==> r == ip + size
    ensures (ip + size - r) % 0x1_0000 == 0
  {
    (ip + size) % 0x1_0000
  }
}
