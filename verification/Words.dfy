/**
 Disk blocks as the byte arrays the kernel sees, and the little-endian 32-bit
 words it reads out of them: the log header (`struct logheader`) and indirect
 blocks (`uint *a = (uint*)bp->data`) are both views of such an array.
 */
module Words {
  const BSIZE: nat := 1024
  const WORDS: nat := 256

  type byte = x: int | 0 <= x < 256
  type uint = x: int | 0 <= x < 0x1_0000_0000

  type Block = b: seq<byte> | |b| == BSIZE witness seq(BSIZE, _ => 0)

  function ZeroBlock(): Block { seq(BSIZE, _ => 0) }

  function Min(a: nat, b: nat): nat { if a < b then a else b }

  /** The i-th 32-bit word of a block. */
  function Word(b: Block, i: nat): uint
    requires i < WORDS
  {
    var b0: int, b1: int, b2: int, b3: int := b[4 * i], b[4 * i + 1], b[4 * i + 2], b[4 * i + 3];
    b0 + 0x100 * b1 + 0x1_0000 * b2 + 0x100_0000 * b3
  }

  /** The block after storing v in its i-th word. */
  function SetWord(b: Block, i: nat, v: uint): Block
    requires i < WORDS
  {
    b[4 * i := v % 0x100]
     [4 * i + 1 := v / 0x100 % 0x100]
     [4 * i + 2 := v / 0x1_0000 % 0x100]
     [4 * i + 3 := v / 0x100_0000]
  }

  lemma Digits(v: uint)
    ensures v / 0x100_0000 < 0x100
    ensures v == v % 0x100 + 0x100 * (v / 0x100 % 0x100) + 0x1_0000 * (v / 0x1_0000 % 0x100)
                 + 0x100_0000 * (v / 0x100_0000)
  {
    assert v / 0x1_0000 == v / 0x100 / 0x100;
    assert v / 0x100_0000 == v / 0x1_0000 / 0x100;
  }

  /** Storing a word changes that word and no other. */
  lemma WordAfterSet(b: Block, i: nat, v: uint, j: nat)
    requires i < WORDS && j < WORDS
    ensures Word(SetWord(b, i, v), j) == if i == j then v else Word(b, j)
  {
    Digits(v);
  }

  lemma ZeroWord(i: nat)
    requires i < WORDS
    ensures Word(ZeroBlock(), i) == 0
  {}
}
