// Byte strings, 20-byte addresses and 32-byte words, with the program's
// left-pad-or-crop conversion into a word.
module ByteStrings {
  import opened Digits

  type Byte = b: nat | b < 256
  type Bytes = seq<Byte>
  type Hash = h: Bytes | |h| == 32 witness seq(32, i => 0)
  type Address = a: Bytes | |a| == 20 witness seq(20, i => 0)
  type Uint64 = n: nat | n < 0x1_0000_0000_0000_0000
  const TWO_256: nat := 0x1_0000_0000_0000_0000_0000_0000_0000_0000_0000_0000_0000_0000_0000_0000_0000_0000
  type Uint256 = n: nat | n < TWO_256

  /** common.BytesToHash: keep the last 32 bytes, or pad with zeros on the left. */
  function ToHash(b: Bytes): Hash {
    if |b| > 32 then b[|b| - 32..] else seq(32 - |b|, i => 0) + b
  }

  const ZERO_HASH := ToHash([])

  lemma PowIsTwo256()
    ensures Pow(256, 32) == TWO_256
  {
    assert Pow(256, 8) == 0x1_0000_0000_0000_0000;
    assert Pow(256, 16) == 0x1_0000_0000_0000_0000_0000_0000_0000_0000;
    assert Pow(256, 24) == 0x1_0000_0000_0000_0000_0000_0000_0000_0000_0000_0000_0000_0000;
  }

  lemma ToHashIsFixed(b: Bytes)
    ensures ToHash(b) == Fixed(Value(b, 256), 256, 32)
  {
    FixedOfPadOrCrop(b, 256, 32);
  }

  /** Two keys name the same slot exactly when they are congruent as big-endian
      numbers modulo 2^256. */
  lemma {:induction false} SameWord(j: Bytes, k: Bytes)
    ensures ToHash(j) == ToHash(k) <==> Value(j, 256) % TWO_256 == Value(k, 256) % TWO_256
  {
    PowIsTwo256();
    ToHashIsFixed(j);
    ToHashIsFixed(k);
    SameFixed(Value(j, 256), Value(k, 256), 256, 32);
  }
}
