/** Fixed-width big-endian integers and writes into a byte buffer (encoding/binary). */
module BigEndian {
  import opened Bytes

  function Pow256(n: nat): (r: nat)
    ensures r > 0
  {
    if n == 0 then 1 else 256 * Pow256(n - 1)
  }

  /** The last `width` base-256 digits of `n`, most significant first. */
  function Put(n: nat, width: nat): (s: seq<byte>)
    ensures |s| == width
  {
    if width == 0 then [] else Put(n / 256, width - 1) + [n % 256]
  }

  function Get(s: seq<byte>): (n: nat) {
    if s == [] then 0 else Get(s[..|s| - 1]) * 256 + s[|s| - 1]
  }

  /** Reading back what was written gives the number, modulo the width. */
  lemma {:induction false} PutGet(n: nat, width: nat)
    requires n < Pow256(width)
    ensures Get(Put(n, width)) == n
  {
    if width > 0 {
      PutGet(n / 256, width - 1);
      assert Put(n, width)[..width - 1] == Put(n / 256, width - 1);
    }
  }

  /** The bytes of numbers are ordered like the numbers: the most significant byte comes first. */
  lemma {:induction false} PutOrder(a: nat, b: nat, width: nat)
    requires a < b < Pow256(width)
    ensures Less(Put(a, width), Put(b, width))
  {
    if width > 0 {
      var x, y := Put(a / 256, width - 1), Put(b / 256, width - 1);
      if a / 256 < b / 256 {
        PutOrder(a / 256, b / 256, width - 1);
        LessExtends(x, y, [a % 256], [b % 256]);
      } else {
        SamePrefix(x, [a % 256], [b % 256]);
      }
    }
  }

  lemma {:induction false} LessExtends(x: seq<byte>, y: seq<byte>, a: seq<byte>, b: seq<byte>)
    requires |x| == |y| && Less(x, y)
    ensures Less(x + a, y + b)
  {
    if x[0] == y[0] {
      LessExtends(x[1..], y[1..], a, b);
      assert (x + a)[1..] == x[1..] + a && (y + b)[1..] == y[1..] + b;
    }
  }

  lemma {:induction false} SamePrefix(x: seq<byte>, a: seq<byte>, b: seq<byte>)
    requires Less(a, b)
    ensures Less(x + a, x + b)
  {
    if x == [] {
      assert x + a == a && x + b == b;
    } else {
      SamePrefix(x[1..], a, b);
      assert (x + a)[1..] == x[1..] + a && (x + b)[1..] == x[1..] + b;
    }
  }

  const U16 := 0x1_0000
  const U32 := 0x1_0000_0000
  const U64 := 0x1_0000_0000_0000_0000

  lemma Widths()
    ensures Pow256(2) == U16 && Pow256(4) == U32 && Pow256(8) == U64
  {
    assert Pow256(1) == 256;
    assert Pow256(3) == 0x100_0000;
    assert Pow256(5) == 0x100_0000_0000;
    assert Pow256(6) == 0x1_0000_0000_0000;
    assert Pow256(7) == 0x100_0000_0000_0000;
  }

  /** `copy(buf[offset:], src)`, or one of the `Put` calls of encoding/binary. */
  method WriteAt(buf: array<byte>, offset: nat, src: seq<byte>)
    requires offset + |src| <= buf.Length
    modifies buf
    ensures buf[..offset + |src|] == old(buf[..offset]) + src
    ensures buf[offset + |src|..] == old(buf[offset + |src|..])
  {
    for i := 0 to |src|
      invariant buf[..offset] == old(buf[..offset])
      invariant buf[offset..offset + i] == src[..i]
      invariant buf[offset + i..] == old(buf[offset + i..])
    {
      buf[offset + i] := src[i];
      assert buf[offset..offset + i + 1] == buf[offset..offset + i] + [src[i]];
    }
    assert src[..|src|] == src;
    assert buf[..offset + |src|] == buf[..offset] + buf[offset..offset + |src|];
  }
}
