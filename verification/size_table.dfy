/** The static instruction-size table and its lookup (`map` in the C source). */
module SizeTable {
  import opened Types

  /** One row of the table: an opcode and the total length of its encoding in bytes. */
  datatype SizeEntry = SizeEntry(op: Byte, size: Byte)

  /** The encoded lengths the decoder understands. */
  predicate ValidSize(s: Byte) {
    s == 1 || s == 2 || s == 3 || s == 5
  }

  /** No row has size 0, the value the lookup reserves for "absent". */
  predicate WellFormed(table: seq<SizeEntry>) {
    forall j :: 0 <= j < |table| ==> table[j].size != 0
  }

  /** Reference definition of the lookup: the size of the first row for `o`, 0 if none. */
  function SizeOf(table: seq<SizeEntry>, o: Byte): (r: Byte)
    ensures r != 0 ==> SizeEntry(o, r) in table
  {
    if table == [] then 0
    else if table[0].op == o then table[0].size
    else SizeOf(table[1..], o)
  }

  /** The first matching row decides the size. */
  lemma {:induction false} SizeOfFirstMatch(table: seq<SizeEntry>, o: Byte, k: nat)
    requires k < |table| && table[k].op == o
    requires forall j :: 0 <= j < k ==> table[j].op != o
    ensures SizeOf(table, o) == table[k].size
  {
    if k > 0 {
      SizeOfFirstMatch(table[1..], o, k - 1);
    }
  }

  /** An opcode absent from the table has size 0. */
  lemma {:induction false} SizeOfAbsent(table: seq<SizeEntry>, o: Byte)
    requires forall j :: 0 <= j < |table| ==> table[j].op != o
    ensures SizeOf(table, o) == 0
  {
    if table != [] {
      SizeOfAbsent(table[1..], o);
    }
  }

  /** In a table without zero sizes, size 0 means exactly "no row for this opcode". */
  lemma {:induction false} SizeOfZeroIffAbsent(table: seq<SizeEntry>, o: Byte)
    requires WellFormed(table)
    ensures SizeOf(table, o) == 0 <==> forall j :: 0 <= j < |table| ==> table[j].op != o
  {
    if table != [] && table[0].op != o {
      SizeOfZeroIffAbsent(table[1..], o);
      assert forall j :: 1 <= j < |table| ==> table[j] == table[1..][j - 1];
    }
  }

  /** The linear search of `map`: walk the rows in order, stop at the first match. */
  method Map(table: seq<SizeEntry>, o: Byte) returns (s: Byte)
    ensures s == SizeOf(table, o)
  {
    s := 0;
    var k := 0;
    while k < |table|
      invariant k <= |table|
      invariant forall j :: 0 <= j < k ==> table[j].op != o
    {
      if table[k].op == o {
        s := table[k].size;
        SizeOfFirstMatch(table, o, k);
        return;
      }
      k := k + 1;
    }
    SizeOfAbsent(table, o);
  }
}
