/**
 The byte lookup tables of rvmini: the generator (abstract-machine/tools/rvmini/gen-lut.c) and the
 small tables of inst-replace.h, as the memory contents that the macros rely on.
 */
module RvLut {
  import opened Bits
  import opened RvMachine

  datatype Table = AndTable | OrTable | XorTable | SllTable | SrlTable | SraTable

  /** An arithmetic right shift of a 32-bit word. */
  function Sra(x: Word, k: nat): Word {
    if x < 0x8000_0000 then ShrWord(x, k) else 0xFFFF_FFFF - ShrWord(0xFFFF_FFFF - x, k)
  }

  function ShrWord(x: Word, k: nat): Word {
    ShrShrinks(x, k);
    Shr(x, k)
  }

  /** The value written for row `j`, column `i`. */
  function Entry(t: Table, j: nat, i: Byte): Word {
    match t
    case AndTable => Wrap(And(j, i))
    case OrTable => Wrap(Or(j, i))
    case XorTable => Wrap(Xor(j, i))
    case SllTable => Wrap(Shl(i, j))
    case SrlTable => ShrWord(i * 0x100_0000, j)
    case SraTable => Sra(i * 0x100_0000, j)
  }

  function Rows(t: Table): nat {
    match t
    case AndTable | OrTable | XorTable => 256
    case SllTable | SrlTable | SraTable => 32
  }

  function EntrySize(t: Table): nat {
    match t
    case AndTable | OrTable | XorTable => 1
    case SllTable | SrlTable | SraTable => 4
  }

  function TableSize(t: Table): nat {
    Rows(t) * 256 * EntrySize(t)
  }

  /** Where the tables start in the file; these are the offsets in the `#define`s of inst-replace.h. */
  function Offset(t: Table): nat {
    match t
    case AndTable => 0
    case OrTable => 256 * 256
    case XorTable => 2 * 256 * 256
    case SllTable => 3 * 256 * 256
    case SrlTable => 3 * 256 * 256 + 32 * 256 * 4
    case SraTable => 3 * 256 * 256 + 2 * 32 * 256 * 4
  }

  const LUT_SIZE: nat := 3 * 256 * 256 + 3 * 32 * 256 * 4

  /** Byte `b` of the entry in row `j`, column `i`, counted from the start of the file. */
  function Position(t: Table, j: nat, i: nat, b: nat): nat {
    Offset(t) + (if EntrySize(t) == 1 then j * 256 + i else (j * 256 + i) * 4) + b
  }

  /** A file that holds the tables. */
  ghost predicate HoldsTables(file: seq<Byte>) {
    && |file| == LUT_SIZE
    && forall t: Table, j: nat, i: nat, b: nat | j < Rows(t) && i < 256 && b < EntrySize(t) ::
         Position(t, j, i, b) < |file| && file[Position(t, j, i, b)] == ByteOf(Entry(t, j, i), b)
  }

  /** Memory that holds the tables from address `lut` on. */
  ghost predicate TablesAt(m: map<Word, Byte>, lut: Word) {
    forall t: Table, j: nat, i: nat, b: nat | j < Rows(t) && i < 256 && b < EntrySize(t) ::
      MemByte(m, Wrap(lut + Position(t, j, i, b))) == ByteOf(Entry(t, j, i), b)
  }

  /** Including the file in the image (`.incbin`) puts the tables in memory. */
  lemma IncludedTables(file: seq<Byte>, m: map<Word, Byte>, lut: Word)
    requires HoldsTables(file)
    requires forall k: nat | k < |file| :: MemByte(m, Wrap(lut + k)) == file[k]
    ensures TablesAt(m, lut)
  {
  }

  /** One `gen_table` block: rows by columns, `entry_size` bytes of each entry. */
  method GenTable(t: Table, file: seq<Byte>) returns (file': seq<Byte>)
    requires |file| == Offset(t)
    ensures |file'| == Offset(t) + TableSize(t) && file <= file'
    ensures forall j: nat, i: nat, b: nat | j < Rows(t) && i < 256 && b < EntrySize(t) ::
              Position(t, j, i, b) < |file'| && file'[Position(t, j, i, b)] == ByteOf(Entry(t, j, i), b)
  {
    file' := file;
    var j := 0;
    while j < Rows(t)
      invariant 0 <= j <= Rows(t)
      invariant |file'| == Offset(t) + j * 256 * EntrySize(t) && file <= file'
      invariant forall j': nat, i: nat, b: nat | j' < j && i < 256 && b < EntrySize(t) ::
                  Position(t, j', i, b) < |file'| && file'[Position(t, j', i, b)] == ByteOf(Entry(t, j', i), b)
    {
      file' := GenRow(t, j, file');
      j := j + 1;
    }
  }

  method GenRow(t: Table, j: nat, file: seq<Byte>) returns (file': seq<Byte>)
    requires |file| == Position(t, j, 0, 0)
    ensures |file'| == Position(t, j + 1, 0, 0) && file <= file'
    ensures forall i: nat, b: nat | i < 256 && b < EntrySize(t) ::
              Position(t, j, i, b) < |file'| && file'[Position(t, j, i, b)] == ByteOf(Entry(t, j, i), b)
  {
    file' := file;
    var i := 0;
    while i < 256
      invariant 0 <= i <= 256
      invariant |file'| == Position(t, j, i, 0) && file <= file'
      invariant forall i': nat, b: nat | i' < i && b < EntrySize(t) ::
                  Position(t, j, i', b) < |file'| && file'[Position(t, j, i', b)] == ByteOf(Entry(t, j, i'), b)
    {
      var res := Entry(t, j, i);
      if EntrySize(t) == 1 {
        file' := file' + [ByteOf(res, 0)];
      } else {
        file' := file' + [ByteOf(res, 0), ByteOf(res, 1), ByteOf(res, 2), ByteOf(res, 3)];
      }
      i := i + 1;
    }
  }

  /** The file lut.bin holds the six tables at the offsets the macros use. */
  method GenLut() returns (file: seq<Byte>)
    ensures HoldsTables(file)
  {
    hide ByteOf, Entry;
    file := GenTable(AndTable, []);
    file := GenTable(OrTable, file);
    file := GenTable(XorTable, file);
    file := GenTable(SllTable, file);
    file := GenTable(SrlTable, file);
    file := GenTable(SraTable, file);
  }
}
