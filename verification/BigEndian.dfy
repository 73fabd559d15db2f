/** Big-endian numbers of a fixed width, and their reading. */
module BigEndian {
  import opened Bytes

  /** The low `width` bytes of v, most significant first. */
  function Encode(v: nat, width: nat): (s: seq<byte>)
    ensures |s| == width
  {
    if width == 0 then [] else Encode(v / 0x100, width - 1) + [(v % 0x100) as byte]
  }

  function Decode(s: seq<byte>): nat {
    if s == [] then 0 else Decode(s[..|s| - 1]) * 0x100 + s[|s| - 1] as nat
  }

  function Pow256(n: nat): (p: nat)
    ensures p >= 1
  {
    if n == 0 then 1 else 0x100 * Pow256(n - 1)
  }

  /** What is left of v above its low `width` bytes. */
  function High(v: nat, width: nat): nat {
    if width == 0 then v else High(v / 0x100, width - 1)
  }

  /** Reading back gives v without its high part, and that part is what is missing. */
  lemma {:induction false} DecodeEncode(v: nat, width: nat)
    ensures Decode(Encode(v, width)) < Pow256(width)
    ensures v == High(v, width) * Pow256(width) + Decode(Encode(v, width))
  {
    if width != 0 {
      DecodeEncode(v / 0x100, width - 1);
      assert Encode(v, width)[..width - 1] == Encode(v / 0x100, width - 1);
      NextByte(v, High(v, width), Pow256(width - 1), Decode(Encode(v / 0x100, width - 1)));
    }
  }

  /** One more byte at the low end. */
  lemma NextByte(v: nat, high: nat, p: nat, low: nat)
    requires v / 0x100 == high * p + low && low < p
    ensures low * 0x100 + v % 0x100 < 0x100 * p
    ensures v == high * (0x100 * p) + (low * 0x100 + v % 0x100)
  {
    assert (high * p) * 0x100 == high * (0x100 * p);
  }

  lemma {:induction false} HighZero(v: nat, width: nat)
    requires v < Pow256(width)
    ensures High(v, width) == 0
  {
    if width != 0 { HighZero(v / 0x100, width - 1); }
  }

  /** A number that fits comes back unchanged. */
  lemma DecodeEncodeFits(v: nat, width: nat)
    requires v < Pow256(width)
    ensures Decode(Encode(v, width)) == v
  {
    DecodeEncode(v, width);
    HighZero(v, width);
  }

  /** The low n bytes of a wider encoding are the n-byte encoding. */
  lemma {:induction false} EncodeTail(v: nat, width: nat, n: nat)
    requires n <= width
    ensures Encode(v, width)[width - n..] == Encode(v, n)
  {
    if n != 0 { EncodeTail(v / 0x100, width - 1, n - 1); }
  }

  lemma {:induction false} EncodeZero(width: nat)
    ensures Encode(0, width) == Zeros(width)
  {
    if width != 0 { EncodeZero(width - 1); }
  }

  /** A number that fits in n bytes is padded with zeros on the left. */
  lemma {:induction false} EncodePadded(v: nat, width: nat, n: nat)
    requires n <= width && v < Pow256(n)
    ensures Encode(v, width) == Zeros(width - n) + Encode(v, n)
  {
    if n == 0 {
      EncodeZero(width);
    } else {
      EncodePadded(v / 0x100, width - 1, n - 1);
    }
  }

  lemma Pow256Of8()
    ensures Pow256(8) == 0x1_0000_0000_0000_0000
  {
    assert Pow256(4) == 0x1_0000_0000;
  }
}
