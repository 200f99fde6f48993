/** What `generate_random` (PROJECT.c:96-102) writes: the RNG's 32-bit words,
    copied four bytes at a time in memory order (the STM32G4 is little-endian),
    with a shorter copy for the last chunk. */
module Random {
  import opened Types

  /** Byte `k` of `w` as `memcpy` copies it: the least significant byte first. */
  function ByteOf(w: word, k: nat): byte
    requires k < 4
  {
    var v := w as int;
    (if k == 0 then v % 0x100
     else if k == 1 then v / 0x100 % 0x100
     else if k == 2 then v / 0x1_0000 % 0x100
     else v / 0x100_0000 % 0x100) as byte
  }

  /** Number of RNG words drawn to fill `len` bytes: one per started chunk of four. */
  function WordsFor(len: nat): nat
  {
    (len + 3) / 4
  }

  /** The bytes written by filling `len` bytes from the RNG words `rng(first)`,
      `rng(first + 1)`, ...: byte `i` is byte `i % 4` of word `i / 4`. */
  function RandomBytes(rng: nat -> word, first: nat, len: nat): (r: seq<byte>)
    ensures |r| == len
  {
    seq(len, i requires 0 <= i < len => ByteOf(rng(first + i / 4), i % 4))
  }

  /** The fill takes one word per chunk of four bytes: offset `k` of chunk `m`
      is byte `k` of word `m`, so a last, shorter chunk holds the first
      `len % 4` bytes of its word. */
  lemma RandomBytesAt(rng: nat -> word, first: nat, len: nat, m: nat, k: nat)
    requires k < 4 && 4 * m + k < len
    ensures RandomBytes(rng, first, len)[4 * m + k] == ByteOf(rng(first + m), k)
  {
    InChunk(m, k);
  }

  /** Offset `k` of chunk `m` is byte `4 * m + k` of the buffer: an
      arithmetic step for `RandomBytesAt`, not a property of the firmware. */
  lemma InChunk(m: nat, k: nat)
    requires k < 4
    ensures (4 * m + k) / 4 == m && (4 * m + k) % 4 == k
  {
  }
}
