/** The instruction encoding: argument decoding in `execinstr`, the encoder `i` and the
    layout `exampleprogram` gives a list of encoded instructions in memory. */
module Codec {
  import opened Types
  import opened SizeTable

  /** The two decoded arguments; unused ones stay 0. */
  datatype Args = Args(a1: Word, a2: Word)

  /** An instruction before encoding: an opcode and the values of its (up to two) arguments. */
  datatype Instruction = Instruction(op: Byte, a1: Word, a2: Word)

  /** A 16-bit argument read low byte first. */
  function Word16(lo: Byte, hi: Byte): (w: Word)
    ensures Lo(w) == lo && Hi(w) == hi
  {
    (hi as Word << 8) | lo as Word
  }

  lemma Word16Split(w: Word)
    ensures Word16(Lo(w), Hi(w)) == w
  {
  }

  /** The arguments of the instruction at offset `p`, decoded by its encoded size:
      `None` is the segmentation fault for a size outside {1, 2, 3, 5}. */
  function Decode(mem: seq<Byte>, p: nat, size: Byte): (r: Option<Args>)
    requires ValidSize(size) ==> p + size as nat <= |mem|
    ensures r.Some? <==> ValidSize(size)
    ensures size == 1 ==> r == Some(Args(0, 0))
    ensures size == 2 ==> r == Some(Args(mem[p + 1] as Word, 0))
    ensures size == 3 ==> r.Some? && Lo(r.value.a1) == mem[p + 1] && Hi(r.value.a1) == mem[p + 2] && r.value.a2 == 0
    ensures size == 5 ==> r.Some? && Lo(r.value.a1) == mem[p + 1] && Hi(r.value.a1) == mem[p + 2] &&
                          Lo(r.value.a2) == mem[p + 3] && Hi(r.value.a2) == mem[p + 4]
  {
    if size == 1 then Some(Args(0, 0))
    else if size == 2 then Some(Args(mem[p + 1] as Word, 0))
    else if size == 3 then Some(Args(Word16(mem[p + 1], mem[p + 2]), 0))
    else if size == 5 then Some(Args(Word16(mem[p + 1], mem[p + 2]), Word16(mem[p + 3], mem[p + 4])))
    else None
  }

  /** The encoding `i` produces: the opcode, then the first size-1 bytes of the argument
      array (two little-endian words). */
  function Encode(table: seq<SizeEntry>, ins: Instruction): (r: seq<Byte>)
    requires 1 <= SizeOf(table, ins.op) <= 5
    ensures |r| == SizeOf(table, ins.op) as nat && r[0] == ins.op
  {
    var size := SizeOf(table, ins.op) as nat;
    [ins.op] + [Lo(ins.a1), Hi(ins.a1), Lo(ins.a2), Hi(ins.a2)][..size - 1]
  }

  /** The arguments an encoding of `size` bytes can carry: a one-byte argument keeps only
      the low byte of the first word. */
  function Carried(size: Byte, ins: Instruction): Args {
    if size == 2 then Args(Lo(ins.a1) as Word, 0)
    else if size == 3 then Args(ins.a1, 0)
    else if size == 5 then Args(ins.a1, ins.a2)
    else Args(0, 0)
  }

  /** Decoding an encoded instruction gives back the arguments its size carries,
      whatever follows it in memory. */
  lemma DecodeEncode(table: seq<SizeEntry>, ins: Instruction, rest: seq<Byte>)
    requires ValidSize(SizeOf(table, ins.op))
    ensures Decode(Encode(table, ins) + rest, 0, SizeOf(table, ins.op)) == Some(Carried(SizeOf(table, ins.op), ins))
  {
    var size := SizeOf(table, ins.op);
    var mem := Encode(table, ins) + rest;
    if size == 3 || size == 5 {
      Word16Split(ins.a1);
    }
    if size == 5 {
      Word16Split(ins.a2);
    }
  }

  /** An encoded instruction: at least its opcode byte. */
  type Encoding = s: seq<Byte> | |s| >= 1 witness [0]

  /** What the loader may be given: each encoded instruction holds at least as many bytes
      as its opcode's size. */
  predicate Encoded(table: seq<SizeEntry>, instrs: seq<Encoding>) {
    forall k :: 0 <= k < |instrs| ==> |instrs[k]| >= SizeOf(table, instrs[k][0]) as nat
  }

  /** The bytes the loader copies for one encoded instruction. */
  function Chunk(table: seq<SizeEntry>, ins: Encoding): (c: seq<Byte>)
    requires |ins| >= SizeOf(table, ins[0]) as nat
    ensures |c| == SizeOf(table, ins[0]) as nat
  {
    ins[..SizeOf(table, ins[0])]
  }

  /** The first `n` encoded instructions one after another, each cut to its size: exactly
      as long as the sum of their sizes. */
  function Concat(table: seq<SizeEntry>, instrs: seq<Encoding>, n: nat): (r: seq<Byte>)
    requires Encoded(table, instrs) && n <= |instrs|
    ensures |r| == TotalSize(table, instrs, n)
  {
    if n == 0 then [] else Concat(table, instrs, n - 1) + Chunk(table, instrs[n - 1])
  }

  /** The sum of the sizes of the first `n` instructions: at most 255 bytes each, since a
      size is one byte. */
  function TotalSize(table: seq<SizeEntry>, instrs: seq<Encoding>, n: nat): (r: nat)
    requires n <= |instrs|
    ensures r <= 0xFF * n
  {
    if n == 0 then 0 else TotalSize(table, instrs, n - 1) + SizeOf(table, instrs[n - 1][0]) as nat
  }

  /** A longer prefix of the list never takes fewer bytes. */
  lemma {:induction false} TotalSizeMono(table: seq<SizeEntry>, instrs: seq<Encoding>, i: nat, j: nat)
    requires i <= j <= |instrs|
    ensures TotalSize(table, instrs, i) <= TotalSize(table, instrs, j)
    decreases j
  {
    if i < j {
      TotalSizeMono(table, instrs, i, j - 1);
    }
  }

  /** A slice that lies inside the left operand of a concatenation is a slice of it. */
  lemma SliceLeft(a: seq<Byte>, b: seq<Byte>, i: nat, j: nat)
    requires i <= j <= |a|
    ensures (a + b)[i..j] == a[i..j]
  {
    assert forall t :: 0 <= t < j - i ==> (a + b)[i..j][t] == a[i..j][t];
  }

  /** The right operand of a concatenation is the slice after the left one. */
  lemma SliceRight(a: seq<Byte>, b: seq<Byte>)
    ensures (a + b)[|a|..|a| + |b|] == b
  {
    assert forall t :: 0 <= t < |b| ==> (a + b)[|a|..|a| + |b|][t] == b[t];
  }

  /** Instruction `k` sits at offset TotalSize of the ones before it, in every longer prefix. */
  lemma {:induction false} ConcatAt(table: seq<SizeEntry>, instrs: seq<Encoding>, n: nat, k: nat)
    requires Encoded(table, instrs) && k < n <= |instrs|
    ensures var off := TotalSize(table, instrs, k);
            var c := Chunk(table, instrs[k]);
            off + |c| <= |Concat(table, instrs, n)| &&
            Concat(table, instrs, n)[off..off + |c|] == c
  {
    var front := Concat(table, instrs, n - 1);
    var last := Chunk(table, instrs[n - 1]);
    var off := TotalSize(table, instrs, k);
    var c := Chunk(table, instrs[k]);
    assert Concat(table, instrs, n) == front + last;
    if k < n - 1 {
      ConcatAt(table, instrs, n - 1, k);
      assert off + |c| <= |front| && front[off..off + |c|] == c;
      SliceLeft(front, last, off, off + |c|);
    } else {
      assert off == |front| && c == last;
      SliceRight(front, last);
    }
  }

  /** The index of the first instruction at or after `i` whose opcode is `hlt`. */
  function FirstHaltFrom(hlt: Byte, instrs: seq<Encoding>, i: nat): (h: nat)
    requires exists k :: i <= k < |instrs| && instrs[k][0] == hlt
    ensures i <= h < |instrs| && instrs[h][0] == hlt
    ensures forall k :: i <= k < h ==> instrs[k][0] != hlt
    decreases |instrs| - i
  {
    if instrs[i][0] == hlt then i
    else
      assert exists k :: i + 1 <= k < |instrs| && instrs[k][0] == hlt by {
        var k :| i <= k < |instrs| && instrs[k][0] == hlt;
        assert k != i;
      }
      FirstHaltFrom(hlt, instrs, i + 1)
  }

  /** The index of the first instruction whose opcode is `hlt`, the one the loader stops after. */
  function FirstHalt(hlt: Byte, instrs: seq<Encoding>): (h: nat)
    requires exists k :: 0 <= k < |instrs| && instrs[k][0] == hlt
    ensures h < |instrs| && instrs[h][0] == hlt
    ensures forall k :: 0 <= k < h ==> instrs[k][0] != hlt
  {
    FirstHaltFrom(hlt, instrs, 0)
  }

  /** The index the loader is given (a `hlt` with none before it) is the first `hlt`:
      the list alone decides where loading stops. */
  lemma FirstHaltIs(hlt: Byte, instrs: seq<Encoding>, h: nat)
    requires h < |instrs| && instrs[h][0] == hlt
    requires forall k :: 0 <= k < h ==> instrs[k][0] != hlt
    ensures exists k :: 0 <= k < |instrs| && instrs[k][0] == hlt
    ensures FirstHalt(hlt, instrs) == h
  {
  }
}
