/** Opcodes and the dispatch decision of `execinstr`. The numeric values of every opcode
    except the `mov` family live in a header that is not part of this model, so they are
    a parameter here; only their distinctness is assumed, which the C `switch` needs to compile. */
module Opcodes {
  import opened Types

  /** The primary `mov` opcode (move to ax); 0x09..0x0f share its handler. */
  const MOV: Byte := 0x08

  /** True for the range `case mov: case 0x09 ... 0x0f` routes to the move handler. */
  predicate IsMove(o: Byte) {
    MOV <= o <= 0x0f
  }

  /** The eight flag instructions. */
  datatype FlagOp = Ste | Stg | Sth | Stl | Cle | Clg | Clh | Cll

  /** The values of the opcodes the dispatcher names. */
  datatype Codes = Codes(nop: Byte, hlt: Byte,
                         ste: Byte, stg: Byte, sth: Byte, stl: Byte,
                         cle: Byte, clg: Byte, clh: Byte, cll: Byte)
  {
    /** The opcode of a flag instruction. */
    function Code(f: FlagOp): Byte {
      match f
      case Ste => ste case Stg => stg case Sth => sth case Stl => stl
      case Cle => cle case Clg => clg case Clh => clh case Cll => cll
    }

    function Listed(): seq<Byte> {
      [nop, hlt, ste, stg, sth, stl, cle, clg, clh, cll]
    }

    /** The case labels of the dispatch switch: pairwise distinct and outside the `mov` range. */
    predicate Valid() {
      var s := Listed();
      (forall i, j :: 0 <= i < j < |s| ==> s[i] != s[j]) &&
      (forall i :: 0 <= i < |s| ==> !IsMove(s[i]))
    }
  }

  /** The handler an opcode is dispatched to. */
  datatype Kind = MoveKind | NopKind | HaltKind | FlagKind(f: FlagOp) | Unmapped

  /** The dispatch `switch (*p)` of `execinstr`, as a classification of the opcode. */
  function Classify(codes: Codes, o: Byte): (k: Kind)
    ensures k == MoveKind <==> IsMove(o)
    ensures k == NopKind ==> o == codes.nop
    ensures k == HaltKind ==> o == codes.hlt
    ensures k.FlagKind? ==> o == codes.Code(k.f)
    ensures k == Unmapped <==> !IsMove(o) && o !in codes.Listed()
  {
    if IsMove(o) then MoveKind
    else if o == codes.nop then NopKind
    else if o == codes.hlt then HaltKind
    else if o == codes.ste then FlagKind(Ste)
    else if o == codes.stg then FlagKind(Stg)
    else if o == codes.sth then FlagKind(Sth)
    else if o == codes.stl then FlagKind(Stl)
    else if o == codes.cle then FlagKind(Cle)
    else if o == codes.clg then FlagKind(Clg)
    else if o == codes.clh then FlagKind(Clh)
    else if o == codes.cll then FlagKind(Cll)
    else Unmapped
  }

  /** The ten case labels, spelled out for the lemmas below. */
  lemma ListedElements(codes: Codes)
    ensures var s := codes.Listed();
      s[0] == codes.nop && s[1] == codes.hlt && s[2] == codes.ste && s[3] == codes.stg &&
      s[4] == codes.sth && s[5] == codes.stl && s[6] == codes.cle && s[7] == codes.clg &&
      s[8] == codes.clh && s[9] == codes.cll
  {
  }

  /** With distinct case labels `nop` and `hlt` reach their own cases. */
  lemma ClassifyNopHalt(codes: Codes)
    requires codes.Valid()
    ensures Classify(codes, codes.nop) == NopKind
    ensures Classify(codes, codes.hlt) == HaltKind
  {
    ListedElements(codes);
  }

  /** With distinct case labels each flag opcode reaches its own handler. */
  lemma ClassifyFlag(codes: Codes, f: FlagOp)
    requires codes.Valid()
    ensures Classify(codes, codes.Code(f)) == FlagKind(f)
  {
    ListedElements(codes);
  }
}
