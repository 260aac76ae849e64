/**
 * Little-endian numbers in byte sequences.
 */
module Bytes {
  import opened Config
  import opened Netip

  function Power256(width: nat): nat {
    if width == 0 then 1 else 256 * Power256(width - 1)
  }

  function LittleEndian(n: nat, width: nat): (s: seq<byte>)
    ensures |s| == width
    decreases width
  {
    if width == 0 then [] else [(n % 256) as byte] + LittleEndian(n / 256, width - 1)
  }

  function Number(s: seq<byte>): nat {
    if s == [] then 0 else s[0] as nat + 256 * Number(s[1..])
  }

  lemma {:induction false} NumberOfLittleEndian(n: nat, width: nat)
    requires n < Power256(width)
    ensures Number(LittleEndian(n, width)) == n
    decreases width
  {
    if width == 0 {
    } else {
      NumberOfLittleEndian(n / 256, width - 1);
    }
  }

  const TWO_16 := 0x1_0000

  lemma {:induction false} Powers()
    ensures Power256(1) == 256 && Power256(2) == TWO_16 && Power256(4) == TWO_32 && Power256(16) == TWO_128
  {
    assert Power256(3) == 256 * Power256(2);
    assert Power256(6) == 256 * 256 * Power256(4);
    assert Power256(8) == 256 * 256 * Power256(6);
    assert Power256(10) == 256 * 256 * Power256(8);
    assert Power256(12) == 256 * 256 * Power256(10);
    assert Power256(14) == 256 * 256 * Power256(12);
  }

  function U16(n: nat): (s: seq<byte>)
    ensures |s| == 2
  {
    LittleEndian(n, 2)
  }

  function U32(n: nat): (s: seq<byte>)
    ensures |s| == 4
  {
    LittleEndian(n, 4)
  }

  lemma {:induction false} NumberOfU32(n: nat)
    requires n < TWO_32
    ensures Number(U32(n)) == n
  {
    Powers();
    NumberOfLittleEndian(n, 4);
  }

  lemma {:induction false} NumberOfU16(n: nat)
    requires n < TWO_16
    ensures Number(U16(n)) == n
  {
    Powers();
    NumberOfLittleEndian(n, 2);
  }

  function BigEndian(n: nat, width: nat): (s: seq<byte>)
    ensures |s| == width
    decreases width
  {
    if width == 0 then [] else BigEndian(n / 256, width - 1) + [(n % 256) as byte]
  }

  function BigNumber(s: seq<byte>): nat {
    if s == [] then 0 else BigNumber(s[..|s| - 1]) * 256 + s[|s| - 1] as nat
  }

  lemma {:induction false} BigNumberOfBigEndian(n: nat, width: nat)
    requires n < Power256(width)
    ensures BigNumber(BigEndian(n, width)) == n
    decreases width
  {
    if width == 0 {
    } else {
      BigNumberOfBigEndian(n / 256, width - 1);
    }
  }

  /** A part of a record in the middle. */
  lemma {:induction false} SubSlice(before: seq<byte>, record: seq<byte>, after: seq<byte>, i: nat, j: nat)
    requires i <= j <= |record|
    ensures (before + record + after)[|before| + i..|before| + j] == record[i..j]
  {
  }

  function Zeros(n: nat): (s: seq<byte>)
    ensures |s| == n
  {
    seq(n, _ => 0 as byte)
  }
}
