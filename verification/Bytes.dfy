/** Bytes, little-endian integers and byte buffers, shared by the protocol models. */
module Bytes {

  type byte = x: int | 0 <= x < 0x100

  function Pow256(n: nat): (p: nat)
    ensures p > 0
  {
    if n == 0 then 1 else 256 * Pow256(n - 1)
  }

  /** The n low-order bytes of v, least significant first; negative v is two's complement. */
  function LE(v: int, n: nat): (s: seq<byte>)
    ensures |s| == n
    decreases n, v
  {
    if n == 0 then [] else [v % 256] + LE(v / 256, n - 1)
  }

  /** The unsigned value of a little-endian byte string. */
  function UnLE(s: seq<byte>): nat {
    if s == [] then 0 else s[0] + 256 * UnLE(s[1..])
  }

  lemma ModUnique(x: int, m: int, q: int, r: int)
    requires m > 0 && 0 <= r < m && x == m * q + r
    ensures x % m == r
  {
    var t := q - x / m;
    assert m * t == x % m - r by {
      assert x == m * (x / m) + x % m;
      assert m * (q - x / m) == m * q - m * (x / m);
    }
    MulBound(m, t);
  }

  lemma MulBound(m: int, t: int)
    requires m > 0
    ensures t >= 1 ==> m * t >= m
    ensures t <= -1 ==> m * t <= -m
  {
  }

  /** One more low-order byte. */
  lemma ModStep(v: int, p: int)
    requires p > 0
    ensures v % (256 * p) == v % 256 + 256 * ((v / 256) % p)
  {
    var h := v / 256;
    var q, r := h / p, h % p;
    assert 256 * p * q + (256 * r + v % 256) == v by {
      assert p * q + r == h;
      assert 256 * (p * q) == 256 * p * q;
    }
    ModUnique(v, 256 * p, q, 256 * r + v % 256);
  }

  lemma {:induction false} LERoundTrip(v: int, n: nat)
    ensures UnLE(LE(v, n)) == v % Pow256(n)
    decreases n
  {
    if n > 0 {
      LERoundTrip(v / 256, n - 1);
      assert LE(v, n)[1..] == LE(v / 256, n - 1);
      ModStep(v, Pow256(n - 1));
    }
  }

  lemma PowValues()
    ensures Pow256(1) == 0x100 && Pow256(2) == 0x1_0000 && Pow256(4) == 0x1_0000_0000
    ensures Pow256(8) == 0x1_0000_0000_0000_0000
  {
    assert Pow256(3) == 0x100_0000;
    assert Pow256(4) == 0x1_0000_0000;
    assert Pow256(6) == 256 * Pow256(5) == 0x1_0000_0000_0000;
  }

  function Concat(ss: seq<seq<byte>>): seq<byte> {
    if ss == [] then [] else ss[0] + Concat(ss[1..])
  }

  /** Buffer contents after data is copied over position pos. */
  function Splice(buf: seq<byte>, pos: nat, data: seq<byte>): (r: seq<byte>)
    requires pos + |data| <= |buf|
    ensures |r| == |buf|
  {
    buf[..pos] + data + buf[pos + |data|..]
  }

  lemma SpliceSplice(buf: seq<byte>, pos: nat, d1: seq<byte>, d2: seq<byte>)
    requires pos + |d1| + |d2| <= |buf|
    ensures Splice(Splice(buf, pos, d1), pos + |d1|, d2) == Splice(buf, pos, d1 + d2)
  {
  }

  /** memcpy. */
  method Copy(buf: array<byte>, pos: nat, data: seq<byte>)
    requires pos + |data| <= buf.Length
    modifies buf
    ensures buf[..] == Splice(old(buf[..]), pos, data)
  {
    ghost var was := buf[..];
    forall i | 0 <= i < |data| {
      buf[pos + i] := data[i];
    }
    SpliceAt(was, pos, data, buf[..]);
  }

  lemma SpliceAt(was: seq<byte>, pos: nat, data: seq<byte>, now: seq<byte>)
    requires pos + |data| <= |was| == |now|
    requires forall k :: 0 <= k < pos || pos + |data| <= k < |was| ==> now[k] == was[k]
    requires forall i :: 0 <= i < |data| ==> now[pos + i] == data[i]
    ensures now == Splice(was, pos, data)
  {
    forall k | 0 <= k < |was|
      ensures now[k] == Splice(was, pos, data)[k]
    {
      if pos <= k < pos + |data| {
        assert now[pos + (k - pos)] == data[k - pos];
      }
    }
  }

  lemma Slices(buf: seq<byte>, p: nat, n: nat, i: nat, j: nat)
    requires p + n <= |buf| && i <= j <= n
    ensures buf[p..p + n][i..j] == buf[p + i..p + j]
  {
    var a, b := buf[p..p + n][i..j], buf[p + i..p + j];
    assert forall k :: 0 <= k < |a| ==> a[k] == buf[p + i + k] == b[k];
  }

  lemma AppendAssoc(a: seq<byte>, b: seq<byte>, c: seq<byte>)
    ensures a + (b + c) == (a + b) + c
  {
  }
}
