/** Fixed-width integers as bytes, in both byte orders. */
module Bytes {

  type byte = b: int | 0 <= b < 256

  function Pow256(n: nat): (r: nat)
    ensures r > 0
  {
    if n == 0 then 1 else 256 * Pow256(n - 1)
  }

  // The low n bytes of v, least significant first.
  function LE(v: nat, n: nat): (s: seq<byte>)
    ensures |s| == n
  {
    if n == 0 then [] else [v % 256] + LE(v / 256, n - 1)
  }

  function FromLE(s: seq<byte>): (v: nat)
  {
    if s == [] then 0 else s[0] + 256 * FromLE(s[1..])
  }

  // The low n bytes of v, most significant first.
  function BE(v: nat, n: nat): (s: seq<byte>)
    ensures |s| == n
  {
    if n == 0 then [] else BE(v / 256, n - 1) + [v % 256]
  }

  function FromBE(s: seq<byte>): (v: nat)
  {
    if s == [] then 0 else 256 * FromBE(s[..|s| - 1]) + s[|s| - 1]
  }

  lemma {:induction false} LERoundTrip(v: nat, n: nat)
    requires v < Pow256(n)
    ensures FromLE(LE(v, n)) == v
  {
    if n > 0 {
      LERoundTrip(v / 256, n - 1);
      assert LE(v, n)[1..] == LE(v / 256, n - 1);
    }
  }

  lemma {:induction false} BERoundTrip(v: nat, n: nat)
    requires v < Pow256(n)
    ensures FromBE(BE(v, n)) == v
  {
    if n > 0 {
      BERoundTrip(v / 256, n - 1);
      assert BE(v, n)[..n - 1] == BE(v / 256, n - 1);
    }
  }

  lemma {:induction false} BEBounded(s: seq<byte>)
    ensures FromBE(s) < Pow256(|s|)
    ensures BE(FromBE(s), |s|) == s
  {
    if s != [] {
      BEBounded(s[..|s| - 1]);
      var v := FromBE(s);
      assert v / 256 == FromBE(s[..|s| - 1]) && v % 256 == s[|s| - 1];
    }
  }

  lemma Widths()
    ensures Pow256(2) == 0x1_0000 && Pow256(4) == 0x1_0000_0000 && Pow256(8) == 0x1_0000_0000_0000_0000
  {
    assert Pow256(4) == 256 * Pow256(3);
    assert Pow256(8) == 256 * Pow256(7) && Pow256(7) == 256 * Pow256(6) && Pow256(6) == 256 * Pow256(5);
  }

  lemma Subslice(s: seq<byte>, lo: nat, hi: nat, i: nat, j: nat)
    requires lo <= hi <= |s| && i <= j <= hi - lo
    ensures s[lo..hi][i..j] == s[lo + i..lo + j]
  {
    var a, b := s[lo..hi][i..j], s[lo + i..lo + j];
    assert |a| == |b| && forall k :: 0 <= k < |a| ==> a[k] == b[k];
  }

  // s with t written over it at off
  function Patch(s: seq<byte>, off: nat, t: seq<byte>): (r: seq<byte>)
    requires off + |t| <= |s|
    ensures |r| == |s| && r[off..off + |t|] == t
  {
    s[..off] + t + s[off + |t|..]
  }

  lemma PatchElsewhere(s: seq<byte>, off: nat, t: seq<byte>, lo: nat, hi: nat)
    requires off + |t| <= |s| && lo <= hi <= |s|
    requires hi <= off || off + |t| <= lo
    ensures Patch(s, off, t)[lo..hi] == s[lo..hi]
  {
    var r := Patch(s, off, t);
    assert forall k :: lo <= k < hi ==> r[k] == s[k];
  }

  lemma PatchChain(s: seq<byte>, off: nat, t: seq<byte>, u: seq<byte>)
    requires off + |t| + |u| <= |s|
    ensures Patch(Patch(s, off, t), off + |t|, u) == Patch(s, off, t + u)
  {
  }

  lemma PatchAgain(s: seq<byte>, off: nat, t: seq<byte>, at: nat, u: seq<byte>)
    requires off + |t| <= |s| && at + |u| <= |t|
    ensures Patch(Patch(s, off, t), off + at, u) == Patch(s, off, Patch(t, at, u))
  {
  }

  method Put32(raw: array<byte>, off: nat, v: nat)
    requires off + 4 <= raw.Length
    modifies raw
    ensures raw[..] == Patch(old(raw[..]), off, LE(v, 4))
  {
    ghost var before := raw[..];
    raw[off] := v % 256;
    raw[off + 1] := v / 256 % 256;
    raw[off + 2] := v / 256 / 256 % 256;
    raw[off + 3] := v / 256 / 256 / 256 % 256;
    LE4(v);
    assert raw[..] == before[..off] + LE(v, 4) + before[off + 4..];
  }

  lemma LE4(v: nat)
    ensures LE(v, 4) == [v % 256, v / 256 % 256, v / 256 / 256 % 256, v / 256 / 256 / 256 % 256]
  {
    var a, b, c := v / 256, v / 256 / 256, v / 256 / 256 / 256;
    assert LE(c, 1) == [c % 256] + LE(c / 256, 0) == [c % 256];
    assert LE(b, 2) == [b % 256] + LE(c, 1);
    assert LE(a, 3) == [a % 256] + LE(b, 2);
  }

  method Get32(raw: array<byte>, off: nat) returns (v: nat)
    requires off + 4 <= raw.Length
    ensures v == FromLE(raw[off..off + 4])
  {
    var s := raw[off..off + 4];
    assert FromLE(s[2..]) == s[2] + 256 * FromLE(s[3..]) by { assert s[2..][1..] == s[3..]; }
    assert FromLE(s[1..]) == s[1] + 256 * FromLE(s[2..]) by { assert s[1..][1..] == s[2..]; }
    assert FromLE(s[3..]) == s[3] by { assert s[3..] == [s[3]]; }
    var a: int, b: int, c: int, d: int := raw[off], raw[off + 1], raw[off + 2], raw[off + 3];
    v := a + 256 * (b + 256 * (c + 256 * d));
  }

  lemma {:induction false} LEBounded(s: seq<byte>)
    ensures FromLE(s) < Pow256(|s|)
  {
    if s != [] { LEBounded(s[1..]); }
  }

  // 32-bit words laid end to end
  function LEWords(ws: seq<nat>): (s: seq<byte>)
    ensures |s| == 4 * |ws|
  {
    if ws == [] then [] else LEWords(ws[..|ws| - 1]) + LE(ws[|ws| - 1], 4)
  }

  predicate Words32(ws: seq<nat>) { forall i :: 0 <= i < |ws| ==> ws[i] < 0x1_0000_0000 }

  /** Each word of a laid-out sequence reads back. */
  lemma {:induction false} LEWordsAt(ws: seq<nat>, i: nat)
    requires Words32(ws) && i < |ws|
    ensures FromLE(LEWords(ws)[4 * i..4 * i + 4]) == ws[i]
  {
    var n := |ws| - 1;
    if i == n {
      Widths();
      LERoundTrip(ws[n], 4);
      assert LEWords(ws)[4 * n..4 * n + 4] == LE(ws[n], 4);
    } else {
      LEWordsAt(ws[..n], i);
      assert LEWords(ws)[4 * i..4 * i + 4] == LEWords(ws[..n])[4 * i..4 * i + 4];
    }
  }
}
