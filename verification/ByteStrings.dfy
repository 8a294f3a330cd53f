/** Byte strings, big-endian integers, and concatenations of pieces. */
module ByteStrings {

  newtype byte = x: int | 0 <= x < 0x100

  type Bytes = seq<byte>

  /** `n.to_be_bytes()` for an integer of `width` bytes. */
  function BigEndian(n: nat, width: nat): (r: Bytes)
    ensures |r| == width
  {
    if width == 0 then [] else BigEndian(n / 0x100, width - 1) + [(n % 0x100) as byte]
  }

  /** `from_be_bytes`. */
  function FromBigEndian(s: Bytes): nat {
    if s == [] then 0 else FromBigEndian(s[..|s| - 1]) * 0x100 + s[|s| - 1] as nat
  }

  /** The number of values a big-endian integer of `width` bytes can take. */
  function Capacity(width: nat): (r: nat)
    ensures r > 0
  {
    if width == 0 then 1 else Capacity(width - 1) * 0x100
  }

  lemma {:induction false} BigEndianRoundTrip(n: nat, width: nat)
    requires n < Capacity(width)
    ensures FromBigEndian(BigEndian(n, width)) == n
  {
    if width > 0 {
      BigEndianRoundTrip(n / 0x100, width - 1);
      assert BigEndian(n, width)[..width - 1] == BigEndian(n / 0x100, width - 1);
    }
  }

  lemma {:induction false} FromBigEndianRoundTrip(s: Bytes)
    ensures FromBigEndian(s) < Capacity(|s|)
    ensures BigEndian(FromBigEndian(s), |s|) == s
  {
    if s != [] {
      FromBigEndianRoundTrip(s[..|s| - 1]);
    }
  }

  /** Four bytes count 2^24, 2^16, 2^8 and 1, from the first. */
  lemma FourBytes(s: Bytes)
    requires |s| == 4
    ensures FromBigEndian(s)
         == s[0] as nat * 0x100_0000 + s[1] as nat * 0x1_0000 + s[2] as nat * 0x100 + s[3] as nat
  {
    assert s[..3][..2] == s[..2] && s[..2][..1] == s[..1] && s[..1][..0] == [];
    assert FromBigEndian(s[..1]) == s[0] as nat;
    assert FromBigEndian(s[..2]) == s[0] as nat * 0x100 + s[1] as nat;
    assert FromBigEndian(s[..3]) == s[0] as nat * 0x1_0000 + s[1] as nat * 0x100 + s[2] as nat;
  }

  /** Eight bytes hold the 64-bit integers. */
  lemma EightBytes()
    ensures Capacity(8) == 0x1_0000_0000_0000_0000
  {
    assert Capacity(4) == 0x1_0000_0000;
    assert Capacity(6) == 0x1_0000_0000_0000;
  }

  /** The pieces joined in order. */
  function Flatten(parts: seq<Bytes>): Bytes {
    if parts == [] then [] else parts[0] + Flatten(parts[1..])
  }

  lemma {:induction false} FlattenAppend(a: seq<Bytes>, b: seq<Bytes>)
    ensures Flatten(a + b) == Flatten(a) + Flatten(b)
  {
    if a == [] {
      assert a + b == b;
    } else {
      assert (a + b)[1..] == a[1..] + b;
      FlattenAppend(a[1..], b);
    }
  }

  /** When the pieces before the `i`-th all have one width, the `i`-th piece starts at `i` times that width. */
  lemma {:induction false} FlattenAt(parts: seq<Bytes>, width: nat, i: nat)
    requires i < |parts|
    requires forall j | 0 <= j < i :: |parts[j]| == width
    ensures 0 <= i * width && i * width + |parts[i]| <= |Flatten(parts)|
    ensures Flatten(parts)[i * width..i * width + |parts[i]|] == parts[i]
    ensures i == |parts| - 1 ==> |Flatten(parts)| == i * width + |parts[i]|
  {
    if i > 0 {
      FlattenAt(parts[1..], width, i - 1);
      var whole, rest := Flatten(parts), Flatten(parts[1..]);
      assert i * width == width + (i - 1) * width;
      assert whole[width..] == rest;
      var lo := (i - 1) * width;
      assert whole[width..][lo..lo + |parts[i]|] == whole[width + lo..width + lo + |parts[i]|];
    } else {
      assert parts[0] == Flatten(parts)[..|parts[0]|];
      if |parts| == 1 {
        assert parts[1..] == [];
      }
    }
  }
}
