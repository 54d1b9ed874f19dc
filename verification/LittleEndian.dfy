/** Little-endian integers. */
module LittleEndian {
  import opened Basics

  const U32: nat := 0x1_0000_0000
  const U64: nat := 0x1_0000_0000_0000_0000

  /** Byte `i`, as a shift and a mask select it. */
  function ByteOf(v: nat, i: nat): byte {
    if i == 0 then v % 256 else ByteOf(v / 256, i - 1)
  }

  function Encode(v: nat, n: nat): (s: seq<byte>)
    ensures |s| == n
  {
    seq(n, i requires 0 <= i < n => ByteOf(v, i))
  }

  function Decode(s: seq<byte>): nat {
    if s == [] then 0 else s[0] + 256 * Decode(s[1..])
  }

  /** The first value too large for `n` bytes. */
  function Bound(n: nat): nat {
    if n == 0 then 1 else 256 * Bound(n - 1)
  }

  lemma {:induction false} EncodeStep(v: nat, n: nat)
    requires n > 0
    ensures Encode(v, n) == [v % 256] + Encode(v / 256, n - 1)
  {
    var s, t := Encode(v, n), [v % 256] + Encode(v / 256, n - 1);
    forall i | 0 <= i < n ensures s[i] == t[i] {
      assert s[i] == ByteOf(v, i);
    }
  }

  lemma {:induction false} DecodeEncode(v: nat, n: nat)
    requires v < Bound(n)
    ensures Decode(Encode(v, n)) == v
  {
    if n > 0 {
      EncodeStep(v, n);
      DecodeEncode(v / 256, n - 1);
      assert Encode(v, n)[1..] == Encode(v / 256, n - 1);
    }
  }

  lemma {:induction false} EncodeDecode(s: seq<byte>)
    ensures Decode(s) < Bound(|s|)
    ensures Encode(Decode(s), |s|) == s
  {
    if s != [] {
      EncodeDecode(s[1..]);
      EncodeStep(Decode(s), |s|);
      assert s == [s[0]] + s[1..];
    }
  }

  lemma {:induction false} Bound4()
    ensures Bound(2) == 0x1_0000 && Bound(4) == U32
  {
    assert Bound(1) == 256 && Bound(2) == 256 * Bound(1) && Bound(3) == 256 * Bound(2) && Bound(4) == 256 * Bound(3);
  }

  lemma {:induction false} Bound8()
    ensures Bound(8) == U64
  {
    Bound4();
    assert Bound(5) == 256 * Bound(4) && Bound(6) == 256 * Bound(5) && Bound(7) == 256 * Bound(6) && Bound(8) == 256 * Bound(7);
  }
}
