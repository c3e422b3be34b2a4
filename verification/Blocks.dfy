/** Disk blocks as the kernel sees them through `(uint*)bp->data`. */
module Blocks {
  import opened Common

  const WORDS := BSIZE / 4

  type Words = s: seq<uint32> | |s| == WORDS witness seq(WORDS, _ => 0)

  /** The contents of one disk block, as its 32-bit words. */
  datatype Block = Block(words: Words)

  function Word(b: Block, k: nat): uint32
    requires k < WORDS
  {
    b.words[k]
  }

  function PutWord(b: Block, k: nat, v: uint32): Block
    requires k < WORDS
  {
    Block(b.words[k := v])
  }
}
