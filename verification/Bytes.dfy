/** Fixed-width integer encodings and the primitive reads over a byte sequence. */
module Bytes {
  import opened Prelude

  /** 256^n */
  function Radix(n: nat): nat {
    if n == 0 then 1 else 256 * Radix(n - 1)
  }

  function ToLittleEndian(x: nat, n: nat): (s: seq<byte>)
    ensures |s| == n
  {
    if n == 0 then [] else [(x % 256) as byte] + ToLittleEndian(x / 256, n - 1)
  }

  function FromLittleEndian(s: seq<byte>): nat {
    if s == [] then 0 else s[0] as int + 256 * FromLittleEndian(s[1..])
  }

  lemma {:induction false} FromLittleEndianBound(s: seq<byte>)
    ensures FromLittleEndian(s) < Radix(|s|)
  {
    if s != [] { FromLittleEndianBound(s[1..]); }
  }

  lemma {:induction false} DecodeEncoded(x: nat, n: nat)
    requires x < Radix(n)
    ensures FromLittleEndian(ToLittleEndian(x, n)) == x
  {
    if n > 0 {
      DecodeEncoded(x / 256, n - 1);
      assert ToLittleEndian(x, n)[1..] == ToLittleEndian(x / 256, n - 1);
    }
  }

  lemma {:induction false} EncodeDecoded(s: seq<byte>)
    ensures ToLittleEndian(FromLittleEndian(s), |s|) == s
  {
    if s != [] {
      EncodeDecoded(s[1..]);
      var low, high := s[0] as int, FromLittleEndian(s[1..]);
      assert (low + 256 * high) % 256 == low && (low + 256 * high) / 256 == high;
    }
  }

  function Reversed(s: seq<byte>): (r: seq<byte>)
    ensures |r| == |s|
    ensures forall i :: 0 <= i < |s| ==> r[i] == s[|s| - 1 - i]
  {
    if s == [] then [] else Reversed(s[1..]) + [s[0]]
  }

  lemma ReversedTwice(s: seq<byte>)
    ensures Reversed(Reversed(s)) == s
  {
  }

  function U32Bytes(x: u32): seq<byte> { ToLittleEndian(x, 4) }

  function U64Bytes(x: u64): seq<byte> { ToLittleEndian(x, 8) }

  /** Targets travel as 32 big-endian bytes. */
  function TargetBytes(x: u256): seq<byte> { Reversed(ToLittleEndian(x, 32)) }

  lemma RadixValues()
    ensures Radix(1) == 256 && Radix(2) == U16_MAX + 1
    ensures Radix(4) == U32_MAX + 1
    ensures Radix(8) == U64_MAX + 1
    ensures Radix(32) == TWO_256
  {
    assert Radix(4) == 256 * 256 * 256 * 256;
    assert Radix(8) == 256 * 256 * 256 * 256 * Radix(4);
    assert Radix(16) == 256 * 256 * 256 * 256 * 256 * 256 * 256 * 256 * Radix(8);
    assert Radix(24) == 256 * 256 * 256 * 256 * 256 * 256 * 256 * 256 * Radix(16);
    assert Radix(32) == 256 * 256 * 256 * 256 * 256 * 256 * 256 * 256 * Radix(24);
  }

  function U32Value(s: seq<byte>): u32
    requires |s| == 4
  {
    FromLittleEndianBound(s);
    RadixValues();
    FromLittleEndian(s)
  }

  function U64Value(s: seq<byte>): u64
    requires |s| == 8
  {
    FromLittleEndianBound(s);
    RadixValues();
    FromLittleEndian(s)
  }

  function TargetValue(s: seq<byte>): u256
    requires |s| == 32
  {
    FromLittleEndianBound(Reversed(s));
    RadixValues();
    FromLittleEndian(Reversed(s))
  }

  /** Each fixed-width encoding is a bijection between its integers and its byte strings. */
  lemma U32Inverse(x: u32)
    ensures U32Value(U32Bytes(x)) == x
  {
    RadixValues();
    DecodeEncoded(x, 4);
  }

  lemma U32BytesOfValue(s: seq<byte>)
    requires |s| == 4
    ensures U32Bytes(U32Value(s)) == s
  {
    EncodeDecoded(s);
  }

  lemma U64Inverse(x: u64)
    ensures U64Value(U64Bytes(x)) == x
  {
    RadixValues();
    DecodeEncoded(x, 8);
  }

  lemma U64BytesOfValue(s: seq<byte>)
    requires |s| == 8
    ensures U64Bytes(U64Value(s)) == s
  {
    EncodeDecoded(s);
  }

  lemma TargetInverse(x: u256)
    ensures TargetValue(TargetBytes(x)) == x
  {
    RadixValues();
    DecodeEncoded(x, 32);
    ReversedTwice(ToLittleEndian(x, 32));
  }

  lemma TargetBytesOfValue(s: seq<byte>)
    requires |s| == 32
    ensures TargetBytes(TargetValue(s)) == s
  {
    EncodeDecoded(Reversed(s));
    ReversedTwice(s);
  }
}
