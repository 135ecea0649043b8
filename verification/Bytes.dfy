/** Octets, big-endian numbers and NUL-terminated text, as the libvolition utilities lay them out in memory. */
module Bytes {

  type byte = b: int | 0 <= b < 256

  /** The text a VLString can hold: a C string carries no NUL before its terminator. */
  type Text = s: seq<byte> | 0 !in s witness []

  const UINT64_LIMIT: nat := 0x1_0000_0000_0000_0000
  const UINT32_LIMIT: nat := 0x1_0000_0000

  type uint64 = n: nat | n < UINT64_LIMIT
  type uint32 = n: nat | n < UINT32_LIMIT
  type int64 = i: int | -0x8000_0000_0000_0000 <= i < 0x8000_0000_0000_0000
  type int32 = i: int | -0x8000_0000 <= i < 0x8000_0000

  /** What is left of a number in a signed 64-bit word. */
  function Wrap64(i: int): int64 { (i + 0x8000_0000_0000_0000) % UINT64_LIMIT - 0x8000_0000_0000_0000 }

  function Pow256(n: nat): (p: nat)
    ensures p >= 1
  {
    if n == 0 then 1 else 256 * Pow256(n - 1)
  }

  lemma PowConstants()
    ensures Pow256(1) == 256
    ensures Pow256(2) == 0x1_0000
    ensures Pow256(4) == UINT32_LIMIT
    ensures Pow256(8) == UINT64_LIMIT
  {
    assert Pow256(4) == 256 * 256 * Pow256(2);
    assert Pow256(6) == 256 * 256 * Pow256(4);
    assert Pow256(8) == 256 * 256 * Pow256(6);
  }

  /** Network order: most significant octet first. */
  function BigEndian(v: nat, width: nat): (s: seq<byte>)
    ensures |s| == width
  {
    if width == 0 then [] else BigEndian(v / 256, width - 1) + [v % 256]
  }

  /** Every octet in its place, the most significant first. */
  lemma {:induction false} BigEndianOctets(v: nat, width: nat, k: nat)
    requires k < width
    ensures BigEndian(v, width)[k] == v / Pow256(width - 1 - k) % 256
  {
    if k == width - 1 {
    } else {
      BigEndianOctets(v / 256, width - 1, k);
      DivideTwice(v, Pow256(width - 2 - k));
    }
  }

  lemma DivideTwice(v: nat, p: nat)
    requires p > 0
    ensures v / 256 / p == v / (256 * p)
  {
    var q, r, s := v / 256 / p, v % 256, v / 256 % p;
    assert v == 256 * (q * p + s) + r == q * (256 * p) + (256 * s + r);
    ModUnique(v, 256 * p, q, 256 * s + r);
  }

  lemma Distribute(x: int, y: int, n: int)
    ensures (x - y) * n == x * n - y * n
  {
  }

  lemma MultipleBelow(d: int, n: int)
    requires -n < d * n < n
    ensures d == 0
  {
    if d > 0 {
      Distribute(d, 1, n);
    } else if d < 0 {
      Distribute(-1, d, n);
    }
  }

  lemma ModUnique(a: nat, n: nat, q: nat, r: nat)
    requires n > 0 && r < n && a == q * n + r
    ensures a % n == r && a / n == q
  {
    Distribute(a / n, q, n);
    MultipleBelow(a / n - q, n);
  }

  function FromBigEndian(s: seq<byte>): nat {
    if s == [] then 0 else FromBigEndian(s[..|s| - 1]) * 256 + s[|s| - 1]
  }

  lemma {:induction false} FromBigEndianBound(s: seq<byte>)
    ensures FromBigEndian(s) < Pow256(|s|)
  {
    if s == [] {
    } else {
      FromBigEndianBound(s[..|s| - 1]);
    }
  }

  lemma {:induction false} BigEndianRoundTrip(v: nat, width: nat)
    requires v < Pow256(width)
    ensures FromBigEndian(BigEndian(v, width)) == v
  {
    if width == 0 {
    } else {
      BigEndianRoundTrip(v / 256, width - 1);
      assert BigEndian(v, width)[..width - 1] == BigEndian(v / 256, width - 1);
    }
  }

  lemma {:induction false} FromBigEndianRoundTrip(s: seq<byte>)
    ensures BigEndian(FromBigEndian(s), |s|) == s
  {
    if s == [] {
    } else {
      var front := s[..|s| - 1];
      FromBigEndianRoundTrip(front);
      assert FromBigEndian(s) / 256 == FromBigEndian(front);
      assert s == front + [s[|s| - 1]];
    }
  }

  /** The order in which a little-endian host keeps the octets of a word. */
  function Reverse(s: seq<byte>): (r: seq<byte>)
    ensures |r| == |s|
    ensures forall k :: 0 <= k < |s| ==> r[k] == s[|s| - 1 - k]
  {
    if s == [] then [] else [s[|s| - 1]] + Reverse(s[..|s| - 1])
  }

  /** The memory image of a 64-bit word on a host of the given byte order. */
  function HostImage(v: uint64, bigEndianHost: bool): (s: seq<byte>)
    ensures |s| == 8
  {
    if bigEndianHost then BigEndian(v, 8) else Reverse(BigEndian(v, 8))
  }

  function FromHostImage(s: seq<byte>, bigEndianHost: bool): (v: uint64)
    requires |s| == 8
    ensures HostImage(v, bigEndianHost) == s
  {
    var n := if bigEndianHost then s else Reverse(s);
    FromBigEndianBound(n);
    PowConstants();
    FromBigEndianRoundTrip(n);
    FromBigEndian(n)
  }

  /** Copies the octets of a word back to front through two pointers that move in opposite directions. */
  method Swap64bit(original: uint64, bigEndianHost: bool) returns (edited: uint64)
    ensures HostImage(edited, bigEndianHost) == Reverse(HostImage(original, bigEndianHost))
  {
    var source := HostImage(original, bigEndianHost);
    var target := new byte[8];
    var ptr1, ptr2 := 0, 7;
    while ptr1 != 8
      invariant 0 <= ptr1 <= 8 && ptr2 == 7 - ptr1
      invariant forall k :: 0 <= k < ptr1 ==> target[7 - k] == source[k]
      decreases 8 - ptr1
    {
      target[ptr2] := source[ptr1];
      ptr1, ptr2 := ptr1 + 1, ptr2 - 1;
    }
    assert forall k :: 0 <= k < 8 ==> target[k] == source[7 - k] by {
      forall k | 0 <= k < 8 ensures target[k] == source[7 - k] {
        assert target[7 - (7 - k)] == source[7 - k];
      }
    }
    assert target[..] == Reverse(source);
    edited := FromHostImage(target[..], bigEndianHost);
  }

  /** Whatever the host, the word that vl_htonll yields lies in memory in network order. */
  method HtoNll(original: uint64, bigEndianHost: bool) returns (net: uint64)
    ensures HostImage(net, bigEndianHost) == BigEndian(original, 8)
  {
    if bigEndianHost {
      net := original;
    } else {
      net := Swap64bit(original, bigEndianHost);
      ReverseTwice(BigEndian(original, 8));
    }
  }

  method NtoHll(original: uint64, bigEndianHost: bool) returns (host: uint64)
    ensures HostImage(original, bigEndianHost) == BigEndian(host, 8)
  {
    if bigEndianHost {
      host := original;
    } else {
      host := Swap64bit(original, bigEndianHost);
      ReverseTwice(HostImage(original, false));
      ReverseTwice(BigEndian(host, 8));
    }
  }

  lemma ReverseTwice(s: seq<byte>)
    ensures Reverse(Reverse(s)) == s
  {
    forall k | 0 <= k < |s| ensures Reverse(Reverse(s))[k] == s[k] {
      assert Reverse(Reverse(s))[k] == Reverse(s)[|s| - 1 - k];
    }
  }

  /** A word sent in network order by one host is read back unchanged by a host of either byte order. */
  method NetworkOrderRoundTrip(v: uint64, senderBig: bool, receiverBig: bool) returns (received: uint64)
    ensures received == v
  {
    var net := HtoNll(v, senderBig);
    var wire := HostImage(net, senderBig);
    received := NtoHll(FromHostImage(wire, receiverBig), receiverBig);
    PowConstants();
    BigEndianRoundTrip(v, 8);
    BigEndianRoundTrip(received, 8);
  }

  /** What strlen measures: the octets before the first NUL, or all of them when there is none. */
  function CString(s: seq<byte>): (t: Text)
    ensures |t| <= |s| && t == s[..|t|]
    ensures |t| < |s| ==> s[|t|] == 0
    ensures 0 !in s ==> t == s
    ensures 0 in s ==> |t| < |s|
  {
    if s == [] || s[0] == 0 then []
    else
      var rest := CString(s[1..]);
      assert s == [s[0]] + s[1..];
      [s[0]] + rest
  }

  lemma {:induction false} CStringOfTerminated(t: Text, rest: seq<byte>)
    ensures CString(t + [0] + rest) == t
  {
    var s := t + [0] + rest;
    var c := CString(s);
    assert s[|t|] == 0;
    assert forall k :: 0 <= k < |t| ==> s[k] == t[k];
    assert c == t;
  }
}
