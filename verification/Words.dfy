/** Bytes, little-endian words, and disk blocks as arrays of both.

    The kernel casts block buffers between `uchar *`, `uint *` and structures; everything here works on
    the bytes, so a word written through one view is read back through the other. */
module Words {
  import opened Basics

  type byte = x: int | 0 <= x < 256

  const BSIZE := 512

  type Block = s: seq<byte> | |s| == 512 witness seq(512, i => 0)

  function ZeroBlock(): (z: Block)
    ensures forall i :: 0 <= i < 512 ==> z[i] == 0
  {
    seq(512, i => 0)
  }

  // ---- little-endian numbers ----

  function Decode(s: seq<byte>): nat {
    if s == [] then 0 else s[0] + 256 * Decode(s[1..])
  }

  function Encode(w: nat, k: nat): (s: seq<byte>)
    ensures |s| == k
  {
    if k == 0 then [] else [w % 256] + Encode(w / 256, k - 1)
  }

  function Limit(k: nat): nat {
    if k == 0 then 1 else 256 * Limit(k - 1)
  }

  lemma {:induction false} DecodeEncode(w: nat, k: nat)
    requires w < Limit(k)
    ensures Decode(Encode(w, k)) == w
  {
    if k == 0 {
    } else {
      DecodeEncode(w / 256, k - 1);
      assert Encode(w, k)[1..] == Encode(w / 256, k - 1);
    }
  }

  lemma {:induction false} DecodeZero(s: seq<byte>)
    requires forall i :: 0 <= i < |s| ==> s[i] == 0
    ensures Decode(s) == 0
  {
    if s != [] {
      DecodeZero(s[1..]);
    }
  }

  lemma {:induction false} DecodeRange(s: seq<byte>)
    ensures Decode(s) < Limit(|s|)
  {
    if s != [] {
      DecodeRange(s[1..]);
    }
  }

  // ---- 32-bit words inside a buffer ----

  function Word(s: seq<byte>, i: nat): nat
    requires 4 * i + 4 <= |s|
  {
    Decode(s[4 * i..4 * i + 4])
  }

  /** Little-endian: the lowest byte first. */
  lemma WordBytes(s: seq<byte>, i: nat)
    requires 4 * i + 4 <= |s|
    ensures Word(s, i) == s[4 * i] as int + 0x100 * s[4 * i + 1] as int + 0x1_0000 * s[4 * i + 2] as int
                          + 0x100_0000 * s[4 * i + 3] as int
  {
    var w := s[4 * i..4 * i + 4];
    assert w[1..][1..] == w[2..] && w[2..][1..] == w[3..] && w[3..][1..] == w[4..] == [];
    assert Decode(w[3..]) == w[3] as int;
    assert Decode(w[2..]) == w[2] as int + 256 * Decode(w[3..]);
    assert Decode(w[1..]) == w[1] as int + 256 * Decode(w[2..]);
  }

  lemma ShortBytes(w: nat)
    requires w < 0x1_0000
    ensures Encode(w, 2)[0] as int + 0x100 * Encode(w, 2)[1] as int == w
  {
    assert Encode(w, 2) == [w % 256] + Encode(w / 256, 1);
    assert Encode(w / 256, 1) == [w / 256 % 256] + Encode(w / 256 / 256, 0);
  }

  function SetWord(s: seq<byte>, i: nat, w: nat): (r: seq<byte>)
    requires 4 * i + 4 <= |s|
    ensures |r| == |s|
  {
    s[..4 * i] + Encode(w, 4) + s[4 * i + 4..]
  }

  lemma LimitFour()
    ensures Limit(4) == UINT
  {
    assert Limit(1) == 256;
    assert Limit(2) == 65536;
    assert Limit(3) == 0x100_0000;
  }

  lemma WordOfSetWord(s: seq<byte>, i: nat, w: nat, j: nat)
    requires 4 * i + 4 <= |s| && 4 * j + 4 <= |s| && w < UINT
    ensures Word(SetWord(s, i, w), j) == if i == j then w else Word(s, j)
  {
    var r := SetWord(s, i, w);
    if i == j {
      assert r[4 * i..4 * i + 4] == Encode(w, 4);
      LimitFour();
      DecodeEncode(w, 4);
    } else {
      assert r[4 * j..4 * j + 4] == s[4 * j..4 * j + 4];
    }
  }

  lemma WordOfZeros(s: seq<byte>, i: nat)
    requires 4 * i + 4 <= |s|
    requires forall k :: 0 <= k < |s| ==> s[k] == 0
    ensures Word(s, i) == 0
  {
    DecodeZero(s[4 * i..4 * i + 4]);
  }

  lemma WordRange(s: seq<byte>, i: nat)
    requires 4 * i + 4 <= |s|
    ensures Word(s, i) < UINT
  {
    DecodeRange(s[4 * i..4 * i + 4]);
    LimitFour();
  }
}
