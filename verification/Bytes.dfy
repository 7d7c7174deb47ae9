/** Disk blocks as bytes, and the 32-bit little-endian words that the log header
    and the indirect blocks keep in them. */
module Bytes {

  const BSIZE: nat := 1024
  const WORDS: nat := 256  // BSIZE / sizeof(uint)
  const U32_LIMIT: nat := 0x1_0000_0000

  type byte = x: int | 0 <= x < 256

  type Block = b: seq<byte> | |b| == BSIZE witness seq(BSIZE, _ => 0)

  function ZeroBlock(): Block { seq(BSIZE, _ => 0) }

  /** The i-th uint of a block, read as the C code reads it: ((uint*)data)[i]. */
  function GetU32(b: Block, i: nat): (v: nat)
    requires i < WORDS
    ensures v < U32_LIMIT
  {
    Join(b[4 * i], b[4 * i + 1], b[4 * i + 2], b[4 * i + 3])
  }

  function Join(b0: byte, b1: byte, b2: byte, b3: byte): (v: nat)
    ensures v < U32_LIMIT
  {
    var x0: int, x1: int, x2: int, x3: int := b0, b1, b2, b3;
    x0 + 0x100 * x1 + 0x1_0000 * x2 + 0x100_0000 * x3
  }

  lemma JoinSplit(v: nat)
    requires v < U32_LIMIT
    ensures Join(ByteOf(v, 0), ByteOf(v, 1), ByteOf(v, 2), ByteOf(v, 3)) == v
  {
    var a := v / 0x100;
    var b := a / 0x100;
    var c := b / 0x100;
    assert b == v / 0x1_0000 && c == v / 0x100_0000 && c < 256;
    assert v == v % 256 + 256 * a;
    assert a == a % 256 + 256 * b;
    assert b == b % 256 + 256 * c;
  }

  /** Byte k of a 32-bit value. */
  function ByteOf(v: nat, k: nat): byte
    requires k < 4
  {
    if k == 0 then v % 256
    else if k == 1 then v / 0x100 % 256
    else if k == 2 then v / 0x1_0000 % 256
    else v / 0x100_0000 % 256
  }

  /** ((uint*)data)[i] = v. */
  function PutU32(b: Block, i: nat, v: nat): (r: Block)
    requires i < WORDS && v < U32_LIMIT
    ensures GetU32(r, i) == v
    ensures forall j | 0 <= j < WORDS && j != i :: GetU32(r, j) == GetU32(b, j)
  {
    JoinSplit(v);
    b[4 * i := ByteOf(v, 0)][4 * i + 1 := ByteOf(v, 1)][4 * i + 2 := ByteOf(v, 2)][4 * i + 3 := ByteOf(v, 3)]
  }

  /** Writes the words ws into words at, at + 1, ... of the block. */
  function PutWords(b: Block, at: nat, ws: seq<nat>): (r: Block)
    requires at + |ws| <= WORDS
    requires forall k | 0 <= k < |ws| :: ws[k] < U32_LIMIT
    ensures forall k | 0 <= k < |ws| :: GetU32(r, at + k) == ws[k]
    ensures forall j | 0 <= j < at :: GetU32(r, j) == GetU32(b, j)
    ensures forall j | at + |ws| <= j < WORDS :: GetU32(r, j) == GetU32(b, j)
    decreases |ws|
  {
    if ws == [] then b
    else
      var n := |ws| - 1;
      var r := PutU32(PutWords(b, at, ws[..n]), at + n, ws[n]);
      assert forall k | 0 <= k < n :: ws[..n][k] == ws[k];
      r
  }
}
