/** Octets of a packet buffer and the multi-octet integer reads the decoders perform on them. */
module Bytes {

  /** One octet of a packet buffer. */
  type Byte = b: int | 0 <= b < 256

  /** 256 to the power n: one more than the largest value n octets can hold. */
  function Pow256(n: nat): (p: nat)
    ensures p >= 1
  {
    if n == 0 then 1 else 256 * Pow256(n - 1)
  }

  /** The unsigned value of `s` with the least significant octet first, which is how an x86 host
      reads a `uint16_t` or `uint64_t` field straight out of a packet. */
  function LittleEndian(s: seq<Byte>): (v: nat)
    ensures v < Pow256(|s|)
  {
    if s == [] then 0 else s[0] + 256 * LittleEndian(s[1..])
  }

  /** The n octets that hold v least significant first. */
  function LittleEndianBytes(v: nat, n: nat): (s: seq<Byte>)
    requires v < Pow256(n)
    ensures |s| == n
  {
    if n == 0 then [] else [v % 256] + LittleEndianBytes(v / 256, n - 1)
  }

  lemma {:induction false} LittleEndianRoundTrip(v: nat, n: nat)
    requires v < Pow256(n)
    ensures LittleEndian(LittleEndianBytes(v, n)) == v
  {
    if n > 0 {
      var s := LittleEndianBytes(v, n);
      assert s[1..] == LittleEndianBytes(v / 256, n - 1);
      LittleEndianRoundTrip(v / 256, n - 1);
    }
  }

  /** Two octet strings of one length that read as the same value are the same octets. */
  lemma {:induction false} LittleEndianInjective(s: seq<Byte>, t: seq<Byte>)
    requires |s| == |t|
    requires LittleEndian(s) == LittleEndian(t)
    ensures s == t
  {
    if s != [] {
      var x, y := LittleEndian(s[1..]), LittleEndian(t[1..]);
      assert s[0] + 256 * x == t[0] + 256 * y;
      assert x == y;
      LittleEndianInjective(s[1..], t[1..]);
      assert s == [s[0]] + s[1..];
      assert t == [t[0]] + t[1..];
    }
  }

  /** Eight octets read least significant first: the value of a literal id, unfolded one octet at
      a time. */
  lemma {:induction false} LittleEndianEight(s: seq<Byte>)
    requires |s| == 8
    ensures LittleEndian(s) == (s[0] as int) + 0x100 * (s[1] as int) + 0x1_0000 * (s[2] as int) + 0x100_0000 * (s[3] as int)
      + 0x1_0000_0000 * (s[4] as int) + 0x100_0000_0000 * (s[5] as int) + 0x1_0000_0000_0000 * (s[6] as int)
      + 0x100_0000_0000_0000 * (s[7] as int)
  {
    assert LittleEndian(s[8..]) == 0;
    assert s[7..][1..] == s[8..];
    assert s[6..][1..] == s[7..];
    assert s[5..][1..] == s[6..];
    assert s[4..][1..] == s[5..];
    assert s[3..][1..] == s[4..];
    assert s[2..][1..] == s[3..];
    assert s[1..][1..] == s[2..];
    assert LittleEndian(s[7..]) == (s[7] as int);
    assert LittleEndian(s[6..]) == (s[6] as int) + 0x100 * (s[7] as int);
    assert LittleEndian(s[5..]) == (s[5] as int) + 0x100 * (s[6] as int) + 0x1_0000 * (s[7] as int);
    assert LittleEndian(s[4..]) == (s[4] as int) + 0x100 * (s[5] as int) + 0x1_0000 * (s[6] as int) + 0x100_0000 * (s[7] as int);
    assert LittleEndian(s[3..]) == (s[3] as int) + 0x100 * (s[4] as int) + 0x1_0000 * (s[5] as int) + 0x100_0000 * (s[6] as int)
      + 0x1_0000_0000 * (s[7] as int);
    assert LittleEndian(s[2..]) == (s[2] as int) + 0x100 * (s[3] as int) + 0x1_0000 * (s[4] as int) + 0x100_0000 * (s[5] as int)
      + 0x1_0000_0000 * (s[6] as int) + 0x100_0000_0000 * (s[7] as int);
    assert LittleEndian(s[1..]) == (s[1] as int) + 0x100 * (s[2] as int) + 0x1_0000 * (s[3] as int) + 0x100_0000 * (s[4] as int)
      + 0x1_0000_0000 * (s[5] as int) + 0x100_0000_0000 * (s[6] as int) + 0x1_0000_0000_0000 * (s[7] as int);
  }

  /** Two octets read least significant first. */
  lemma LittleEndianTwo(s: seq<Byte>)
    requires |s| == 2
    ensures LittleEndian(s) == (s[0] as int) + 0x100 * (s[1] as int)
  {
    assert s[1..][1..] == [];
  }

  /** Comparing a little-endian field with a constant is comparing its octets with the constant's octets. */
  lemma LittleEndianEquals(s: seq<Byte>, v: nat)
    requires v < Pow256(|s|)
    ensures LittleEndian(s) == v <==> s == LittleEndianBytes(v, |s|)
  {
    LittleEndianRoundTrip(v, |s|);
    if LittleEndian(s) == v {
      LittleEndianInjective(s, LittleEndianBytes(v, |s|));
    }
  }

  /** The 16-bit field at `off` in network (big-endian) order: what `ntohs` and `RS_SWAP_SHORT`
      produce on a little-endian host. */
  function ReadBE16(s: seq<Byte>, off: nat): (v: nat)
    requires off + 2 <= |s|
    ensures v < 0x1_0000
    ensures v / 256 == s[off] && v % 256 == s[off + 1]
  {
    (s[off] as int) * 256 + s[off + 1]
  }
}
