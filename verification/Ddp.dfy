/**
 * AppleTalk DDP (chapter 4 of Inside AppleTalk, 2nd edition): the rotating checksum over a
 * buffer in pieces, and what a datagram goes through from sender over routers to receiver.
 */
module Ddp {
  import opened Bytes
  import opened Common

  const HDR := 12           // sizeof(struct ddpehdr)
  const MAX_DATA := 587     // DDP_MAXSZ

  // ---- checksum of plain bytes ----

  /** A sum: it starts at zero and rol16 truncates it to 16 bits at every byte. */
  type word = x: nat | x < 0x1_0000

  /** rol16(w, 1): the top bit comes back at the bottom. */
  function Rol16(w: word): word {
    if w < 0x8000 then 2 * w else 2 * w - 0xFFFF
  }

  /** One byte. */
  function SumByte(sum: word, b: byte): word {
    var t := sum as nat + b as nat;
    Rol16(if t < 0x1_0000 then t else t - 0x1_0000)
  }

  /** The sum of n bytes from off on, starting from sum. */
  function Sum(data: seq<byte>, off: nat, n: nat, sum: word): word
    requires off + n <= |data|
    decreases n, data
  {
    if n == 0 then sum else Sum(data, off + 1, n - 1, SumByte(sum, data[off]))
  }

  lemma {:induction false} SumSplit(data: seq<byte>, off: nat, k: nat, n: nat, sum: word)
    requires k <= n && off + n <= |data|
    ensures Sum(data, off, n, sum) == Sum(data, off + k, n - k, Sum(data, off, k, sum))
    decreases k
  {
    if k != 0 {
      SumSplit(data, off + 1, k - 1, n - 1, SumByte(sum, data[off]));
    }
  }

  /** The sum depends on nothing but the bytes in the range. */
  lemma {:induction false} SumSame(a: seq<byte>, i: nat, b: seq<byte>, j: nat, n: nat, sum: word)
    requires i + n <= |a| && j + n <= |b| && a[i..i + n] == b[j..j + n]
    ensures Sum(a, i, n, sum) == Sum(b, j, n, sum)
    decreases n
  {
    if n != 0 {
      assert a[i] == a[i..i + n][0] == b[j];
      assert a[i + 1..i + n] == a[i..i + n][1..] == b[j..j + n][1..] == b[j + 1..j + n];
      SumSame(a, i + 1, b, j + 1, n - 1, SumByte(sum, a[i]));
    }
  }

  /** atalk_sum_partial on len bytes from off on. */
  method SumPartial(data: seq<byte>, off: nat, len: nat, sum0: word) returns (sum: word)
    requires off + len <= |data|
    ensures sum == Sum(data, off, len, sum0)
  {
    sum := sum0;
    var p, n := off, len;
    while n > 0
      invariant off <= p && n == off + len - p
      invariant Sum(data, off, len, sum0) == Sum(data, p, n, sum)
    {
      sum := SumByte(sum, data[p]);
      p := p + 1;
      n := n - 1;
    }
  }

  // ---- checksum of a buffer in pieces ----

  datatype Frag = Frag(page: seq<byte>, offset: nat, size: nat)

  /** A linear head, page fragments and a list of further buffers. */
  datatype Skb = Skb(head: seq<byte>, frags: seq<Frag>, list: seq<Skb>)

  predicate Whole(f: Frag) {
    f.offset + f.size <= |f.page|
  }

  predicate AllWhole(fs: seq<Frag>) {
    forall i :: 0 <= i < |fs| ==> Whole(fs[i])
  }

  predicate Sound(skb: Skb) {
    AllWhole(skb.frags) && forall i :: 0 <= i < |skb.list| ==> Sound(skb.list[i])
  }

  function FragBytes(fs: seq<Frag>): seq<byte>
    requires AllWhole(fs)
  {
    if fs == [] then [] else fs[0].page[fs[0].offset..fs[0].offset + fs[0].size] + FragBytes(fs[1..])
  }

  function ListBytes(l: seq<Skb>): seq<byte>
    requires forall i :: 0 <= i < |l| ==> Sound(l[i])
    decreases l, 0
  {
    if l == [] then [] else Flat(l[0]) + ListBytes(l[1..])
  }

  /** The bytes of the buffer in order. */
  function Flat(skb: Skb): seq<byte>
    requires Sound(skb)
    decreases skb, 1
  {
    skb.head + FragBytes(skb.frags) + ListBytes(skb.list)
  }

  /** Summing the part of a piece that the range [off, off + n) covers takes that part off the range. */
  lemma {:induction false} TakePiece(all: seq<byte>, start: nat, data: seq<byte>, at: nat, size: nat,
                                     off: nat, copy: nat, n: nat, sum: word)
    requires at + size <= |data| && start <= off && off + copy <= start + size <= |all|
    requires copy <= n && off + n <= |all|
    requires all[start..start + size] == data[at..at + size]
    ensures Sum(all, off, n, sum) == Sum(all, off + copy, n - copy, Sum(data, at + (off - start), copy, sum))
  {
    var d := off - start;
    Slices(all, start, size, d, d + copy);
    Slices(data, at, size, d, d + copy);
    SumSame(all, off, data, at + d, copy, sum);
    SumSplit(all, off, copy, n, sum);
  }

  /** Sums the part of one contiguous piece, data[at..at + size], that the range covers, and says whether to go on. */
  method SumPiece(data: seq<byte>, at: nat, size: nat, start: nat, off0: nat, n0: nat, sum0: word, ghost all: seq<byte>)
    returns (off: nat, n: nat, sum: word, more: bool)
    requires at + size <= |data| && start <= off0 && off0 + n0 <= |all| && start + size <= |all|
    requires all[start..start + size] == data[at..at + size]
    ensures off + n == off0 + n0 && (more ==> start + size <= off) && (!more ==> n == 0)
    ensures Sum(all, off, n, sum) == Sum(all, off0, n0, sum0)
  {
    off, n, sum, more := off0, n0, sum0, true;
    var copy := start + size - off;
    if copy > 0 {
      if copy > n {
        copy := n;
      }
      TakePiece(all, start, data, at, size, off, copy, n, sum);
      sum := SumPartial(data, at + (off - start), copy, sum);
      off, n := off + copy, n - copy;
      more := n != 0;
    }
  }

  /** atalk_sum_skb: the pieces make no difference. */
  method SumSkb(skb: Skb, offset: nat, len: nat, sum0: word) returns (sum: word)
    requires Sound(skb) && offset + len <= |Flat(skb)|
    ensures sum == Sum(Flat(skb), offset, len, sum0)
    decreases skb, 1
  {
    HeadAt(skb);
    sum := SumParts(skb.head, skb.frags, skb.list, offset, len, sum0, Flat(skb));
  }

  method SumParts(head: seq<byte>, frags: seq<Frag>, list: seq<Skb>, offset: nat, len: nat, sum0: word,
                  ghost all: seq<byte>)
    returns (sum: word)
    requires AllWhole(frags) && (forall i :: 0 <= i < |list| ==> Sound(list[i]))
    requires offset + len <= |all| && |head| <= |all|
    requires all[0..|head|] == head[0..|head|] && all[|head|..] == FragBytes(frags) + ListBytes(list)
    ensures sum == Sum(all, offset, len, sum0)
    decreases list, 1
  {
    ghost var total := Sum(all, offset, len, sum0);
    var off, n, s, more := SumPiece(head, 0, |head|, 0, offset, len, sum0, all);
    sum := s;
    if more {
      off, n, sum, more := SumFrags(frags, |head|, off, n, sum, all, ListBytes(list));
      assert Sum(all, off, n, sum) == total;
    }
    if more {
      sum := SumList(list, |head| + FragLen(frags), off, n, sum, all);
    }
  }

  /** Where the page fragments end. */
  function FragLen(fs: seq<Frag>): nat {
    if fs == [] then 0 else fs[0].size + FragLen(fs[1..])
  }

  lemma {:induction false} HeadAt(skb: Skb)
    requires Sound(skb)
    ensures var all, n := Flat(skb), |skb.head|;
            && n <= |all| && all[0..n] == skb.head == skb.head[0..n]
            && all[n..] == FragBytes(skb.frags) + ListBytes(skb.list)
  {
  }

  /** The loop over page fragments. */
  method SumFrags(frags: seq<Frag>, start0: nat, off0: nat, n0: nat, sum0: word,
                  ghost all: seq<byte>, ghost rest: seq<byte>)
    returns (off: nat, n: nat, sum: word, more: bool)
    requires AllWhole(frags) && start0 <= off0 && off0 + n0 <= |all|
    requires all[start0..] == FragBytes(frags) + rest
    ensures off + n == off0 + n0 && (!more ==> n == 0)
    ensures var start := start0 + FragLen(frags);
            more ==> start <= off && all[start..] == rest
    ensures Sum(all, off, n, sum) == Sum(all, off0, n0, sum0)
  {
    hide Sum, FragLen, FragBytes;
    ghost var total := Sum(all, off0, n0, sum0);
    off, n, sum, more := off0, n0, sum0, true;
    var start: nat, i := start0, 0;
    assert frags[0..] == frags;
    while i < |frags|
      invariant 0 <= i <= |frags| && more && start <= off && off + n == off0 + n0
      invariant start + FragLen(frags[i..]) == start0 + FragLen(frags)
      invariant all[start..] == FragBytes(frags[i..]) + rest
      invariant Sum(all, off, n, sum) == total
    {
      var f := frags[i];
      assert start <= off + n;
      FragAt(all, start, frags[i..], rest);
      assert frags[i..][1..] == frags[i + 1..];
      off, n, sum, more := SumPiece(f.page, f.offset, f.size, start, off, n, sum, all);
      if !more {
        return;
      }
      start := start + f.size;
      i := i + 1;
    }
    assert frags[i..] == [] && [] + rest == rest;
    FragsEnd();
  }

  lemma FragsEnd()
    ensures FragLen([]) == 0 && FragBytes([]) == []
  {
  }

  lemma {:induction false} FragAt(all: seq<byte>, start: nat, fs: seq<Frag>, rest: seq<byte>)
    requires fs != [] && AllWhole(fs) && start <= |all|
    requires all[start..] == FragBytes(fs) + rest
    ensures var f := fs[0];
            && start + f.size <= |all| && FragLen(fs) == f.size + FragLen(fs[1..])
            && all[start..start + f.size] == f.page[f.offset..f.offset + f.size]
            && all[start + f.size..] == FragBytes(fs[1..]) + rest
  {
    var f := fs[0];
    var p, q := f.page[f.offset..f.offset + f.size], FragBytes(fs[1..]);
    AppendAssoc(p, q, rest);
    SplitAt(all, start, p, q + rest);
  }

  lemma {:induction false} SplitAt(all: seq<byte>, start: nat, p: seq<byte>, q: seq<byte>)
    requires start <= |all| && all[start..] == p + q
    ensures start + |p| <= |all| && all[start..start + |p|] == p && all[start + |p|..] == q
  {
    var t := all[start..];
    assert all[start..start + |p|] == t[..|p|] && all[start + |p|..] == t[|p|..];
  }

  lemma SumNone(all: seq<byte>, off: nat, sum: word)
    requires off <= |all|
    ensures Sum(all, off, 0, sum) == sum
  {
  }

  /** The loop over the fragment list, which sums each buffer in turn. */
  method SumList(list: seq<Skb>, start0: nat, off0: nat, n0: nat, sum0: word, ghost all: seq<byte>) returns (sum: word)
    requires (forall i :: 0 <= i < |list| ==> Sound(list[i])) && start0 <= off0 && off0 + n0 <= |all|
    requires all[start0..] == ListBytes(list)
    ensures sum == Sum(all, off0, n0, sum0)
    decreases list, 0
  {
    hide Sum, Flat;
    ghost var total := Sum(all, off0, n0, sum0);
    var start: nat, off: nat, n: nat := start0, off0, n0;
    sum := sum0;
    var i := 0;
    assert list[0..] == list;
    while i < |list|
      invariant 0 <= i <= |list| && start <= off && off + n == off0 + n0
      invariant all[start..] == ListBytes(list[i..])
      invariant Sum(all, off, n, sum) == total
    {
      assert start <= off + n;
      ListAt(all, start, list[i..]);
      assert list[i..][1..] == list[i + 1..];
      var more;
      off, n, sum, more := SumNext(list[i], start, off, n, sum, all);
      if !more {
        SumNone(all, off, sum);
        return;
      }
      start := start + |Flat(list[i])|;
      i := i + 1;
    }
    SumNone(all, off, sum);
  }

  /** The part of one listed buffer that the range covers. */
  method SumNext(s: Skb, start: nat, off0: nat, n0: nat, sum0: word, ghost all: seq<byte>)
    returns (off: nat, n: nat, sum: word, more: bool)
    requires Sound(s) && start <= off0 && off0 + n0 <= |all| && start + |Flat(s)| <= |all|
    requires all[start..start + |Flat(s)|] == Flat(s)
    ensures off + n == off0 + n0 && (more ==> start + |Flat(s)| <= off) && (!more ==> n == 0)
    ensures Sum(all, off, n, sum) == Sum(all, off0, n0, sum0)
    decreases s, 2
  {
    off, n, sum, more := off0, n0, sum0, true;
    var copy := start + |Flat(s)| - off;
    if copy > 0 {
      if copy > n {
        copy := n;
      }
      assert Flat(s) == Flat(s)[0..|Flat(s)|];
      TakePiece(all, start, Flat(s), 0, |Flat(s)|, off, copy, n, sum);
      sum := SumSkb(s, off - start, copy, sum);
      off, n := off + copy, n - copy;
      more := n != 0;
    }
  }

  lemma {:induction false} ListAt(all: seq<byte>, start: nat, l: seq<Skb>)
    requires l != [] && (forall i :: 0 <= i < |l| ==> Sound(l[i])) && start <= |all| && all[start..] == ListBytes(l)
    ensures var n := |Flat(l[0])|;
            start + n <= |all| && all[start..start + n] == Flat(l[0]) && all[start + n..] == ListBytes(l[1..])
  {
    SplitAt(all, start, Flat(l[0]), ListBytes(l[1..]));
  }

  // ---- datagrams ----

  function BE16(w: word): (r: seq<byte>)
    ensures |r| == 2 && Field(r, 0) == w
  {
    [w / 256, w % 256]
  }

  function Field(pkt: seq<byte>, at: nat): nat
    requires at + 2 <= |pkt|
  {
    pkt[at] as nat * 256 + pkt[at + 1] as nat
  }

  /** atalk_checksum on plain bytes: everything past the first four; zero is kept for "no checksum". */
  function Checksum(pkt: seq<byte>, len: nat): word
    requires 4 <= len <= |pkt|
  {
    var sum := Sum(pkt, 4, len - 4, 0);
    if sum == 0 then 0xFFFF else sum
  }

  /** atalk_checksum on a buffer in pieces: never zero, and the same as on the flattened bytes. */
  method ChecksumSkb(skb: Skb, len: nat) returns (sum: word)
    requires Sound(skb) && 4 <= len <= |Flat(skb)|
    ensures sum == Checksum(Flat(skb), len) && sum != 0
  {
    sum := SumSkb(skb, 4, len - 4, 0);
    if sum == 0 {
      sum := 0xFFFF;
    }
  }

  /** Destination and source of a datagram. */
  datatype Names = Names(dnet: word, snet: word, dnode: byte, snode: byte, dport: byte, sport: byte)

  function NameBytes(n: Names): (r: seq<byte>)
    ensures |r| == 8 && Field(r, 0) == n.dnet
  {
    BE16(n.dnet) + BE16(n.snet) + [n.dnode, n.snode, n.dport, n.sport]
  }

  /** The datagram for data with a given checksum field. */
  function Filled(n: Names, data: seq<byte>, sum: word): (r: seq<byte>)
    requires |data| <= MAX_DATA
    ensures |r| == HDR + |data| && Field(r, 0) == |r| && Field(r, 2) == sum && Field(r, 4) == n.dnet
    ensures r[4..HDR] == NameBytes(n) && r[HDR..] == data
  {
    BE16(HDR + |data|) + BE16(sum) + NameBytes(n) + data
  }

  /** What atalk_sendmsg sends for data of at most MAX_DATA bytes. */
  function Datagram(n: Names, data: seq<byte>, noCheck: bool): (r: seq<byte>)
    requires |data| <= MAX_DATA
    ensures |r| == HDR + |data| && Field(r, 0) == |r| && Field(r, 4) == n.dnet
    ensures r[4..HDR] == NameBytes(n) && r[HDR..] == data
  {
    var blank := Filled(n, data, 0);
    Filled(n, data, if noCheck then 0 else Checksum(blank, |blank|))
  }

  /** The checksum field does not count itself, so a sent datagram passes its own test. */
  lemma {:induction false} SentPasses(n: Names, data: seq<byte>, noCheck: bool)
    requires |data| <= MAX_DATA
    ensures var d := Datagram(n, data, noCheck);
            if noCheck then Field(d, 2) == 0 else Field(d, 2) == Checksum(d, |d|)
  {
    var blank, d := Filled(n, data, 0), Datagram(n, data, noCheck);
    assert forall i :: 4 <= i < |d| ==> d[i] == blank[i];
    assert blank[4..|d|] == d[4..|d|];
    SumSame(blank, 4, d, 4, |d| - 4, 0);
  }

  // ---- receiving and forwarding ----

  /** What a node knows on receipt: the outcome of its lookups and of its memory allocation. */
  datatype Env = Env(local: bool, host: bool, route: bool, room: nat, memory: bool)

  datatype Outcome = Drop | Deliver(pkt: seq<byte>) | Forward(pkt: seq<byte>)

  /** atalk_rcv up to socket lookup. */
  function Rcv(pkt: seq<byte>, env: Env): Outcome {
    if |pkt| < HDR then Drop
    else
      var lenHops := Field(pkt, 0);
      var len := lenHops % 1024;
      var t := pkt[..Min(|pkt|, len)];
      if |t| < HDR || |t| < len then Drop
      else if Field(t, 2) != 0 && Checksum(t, len) != Field(t, 2) then Drop
      else if env.local then Deliver(t)
      else Route(t, lenHops, |pkt|, env)
  }

  /** len_hops += 1 << 10 in 16 bits: the length part stays. */
  function NextHop(lenHops: word): (r: word)
    ensures r % 1024 == lenHops % 1024
  {
    if lenHops < 0xFC00 then lenHops + 1024 else lenHops - 0xFC00
  }

  /** atalk_route_packet: hops are bits 10 to 13 of the length word. */
  function Route(t: seq<byte>, lenHops: word, origLen: nat, env: Env): (r: Outcome)
    requires HDR <= |t| == lenHops % 1024 && |t| <= origLen
    ensures !r.Deliver?
  {
    if !env.host || Field(t, 4) == 0 then Drop
    else
      var next := NextHop(lenHops);
      if !env.route || (next / 1024) % 16 == 0 then Drop
      else
        var limit := Min(origLen, env.room + next % 1024);
        var u := BE16(next) + t[..Min(|t|, limit)][2..];
        if env.memory then Forward(u) else Drop
  }

  /** A datagram after k hops. */
  function Stamp(d: seq<byte>, k: nat): (r: seq<byte>)
    requires HDR <= |d| == Field(d, 0) < 1024 && k < 16
    ensures |r| == |d| && r[2..] == d[2..] && Field(r, 0) == |d| + 1024 * k
  {
    BE16(|d| + 1024 * k) + d[2..]
  }

  /** A node that relays what is not for itself. */
  predicate Relays(env: Env) {
    !env.local && env.host && env.route && env.memory
  }

  lemma HopWord(len: nat, k: nat)
    requires len < 1024 && k < 16
    ensures var w := len + 1024 * k;
            && w < 0x1_0000 && w % 1024 == len
            && (k < 15 ==> NextHop(w) == len + 1024 * (k + 1) && NextHop(w) / 1024 % 16 == k + 1)
            && (k == 15 ==> NextHop(w) / 1024 % 16 == 0)
  {
    assert (len + 1024 * k) / 1024 == k;
    assert (len + 1024 * (k + 1)) / 1024 == k + 1;
  }

  predicate Sent(d: seq<byte>) {
    && HDR <= |d| < 1024 && Field(d, 0) == |d|
    && (Field(d, 2) == 0 || Field(d, 2) == Checksum(d, |d|))
  }

  lemma {:induction false} StampFields(d: seq<byte>, k: nat)
    requires HDR <= |d| == Field(d, 0) < 1024 && k < 16
    ensures var s := Stamp(d, k);
            Field(s, 2) == Field(d, 2) && Field(s, 4) == Field(d, 4) && s[4..] == d[4..]
  {
    var s := Stamp(d, k);
    assert forall i :: 2 <= i < |d| ==> s[i] == d[2..][i - 2] == d[i];
  }

  /** Trailing padding is cut off and the checksum still holds at any hop. */
  lemma {:induction false} StampPasses(d: seq<byte>, k: nat, pad: seq<byte>)
    requires Sent(d) && k < 16
    ensures var s := Stamp(d, k);
            && (s + pad)[..|d|] == s && Field(s + pad, 0) == |d| + 1024 * k
            && Checksum(s, |s|) == Checksum(d, |d|)
  {
    var s := Stamp(d, k);
    StampFields(d, k);
    assert s[4..|s|] == s[4..] && d[4..|d|] == d[4..];
    SumSame(s, 4, d, 4, |d| - 4, 0);
  }

  /** One hop of a datagram that was sent k hops ago, with any padding added on the link. */
  lemma {:induction false} Hop(d: seq<byte>, k: nat, pad: seq<byte>, env: Env)
    requires Sent(d) && k < 16
    ensures Rcv(Stamp(d, k) + pad, env) ==
            if env.local then Deliver(Stamp(d, k))
            else if Relays(env) && Field(d, 4) != 0 && k < 15 then Forward(Stamp(d, k + 1))
            else Drop
  {
    var s := Stamp(d, k);
    StampFields(d, k);
    StampPasses(d, k, pad);
    HopWord(|d|, k);
    RouteHop(d, k, |s + pad|, env);
  }

  lemma {:induction false} RouteHop(d: seq<byte>, k: nat, origLen: nat, env: Env)
    requires HDR <= |d| == Field(d, 0) < 1024 && k < 16 && |d| <= origLen && (|d| + 1024 * k) % 1024 == |d|
    ensures Route(Stamp(d, k), |d| + 1024 * k, origLen, env) ==
            if env.host && env.route && env.memory && Field(d, 4) != 0 && k < 15 then Forward(Stamp(d, k + 1))
            else Drop
  {
    var s := Stamp(d, k);
    StampFields(d, k);
    HopWord(|d|, k);
    if k < 15 {
      var next := |d| + 1024 * (k + 1);
      assert next % 1024 == |d| by { HopWord(|d|, k + 1); }
      assert s[..|s|][2..] == d[2..];
      assert BE16(next) + d[2..] == Stamp(d, k + 1);
    }
  }

  /** One stop of a journey: the padding added on the way there and the state of the node. */
  datatype Stop = Stop(pad: seq<byte>, env: Env)

  datatype End = Arrived(pkt: seq<byte>) | Lost | OnTheWay

  datatype Journey = Journey(relayed: seq<seq<byte>>, end: End)

  /** A packet handed from node to node as long as each forwards it. */
  function Travel(pkt: seq<byte>, stops: seq<Stop>): Journey
    decreases |stops|
  {
    if stops == [] then Journey([], OnTheWay)
    else
      match Rcv(pkt + stops[0].pad, stops[0].env)
      case Drop => Journey([], Lost)
      case Deliver(p) => Journey([], Arrived(p))
      case Forward(p) =>
        var rest := Travel(p, stops[1..]);
        rest.(relayed := [p] + rest.relayed)
  }

  /** A journey of d, k hops old at its start: copies carry the right stamps and stop for a stated reason. */
  ghost predicate Faithful(d: seq<byte>, k: nat, stops: seq<Stop>, j: Journey)
    requires Sent(d)
  {
    var m := |j.relayed|;
    && m <= |stops| && k + m <= 15
    && (forall i :: 0 <= i < m ==> j.relayed[i] == Stamp(d, k + i + 1) && Relays(stops[i].env))
    && (j.end.OnTheWay? <==> m == |stops|)
    && (j.end.Arrived? <==> m < |stops| && stops[m].env.local)
    && (j.end.Arrived? ==> j.end.pkt == Stamp(d, k + m))
    && (m < |stops| && Relays(stops[m].env) ==> k + m == 15 || Field(d, 4) == 0)
  }

  lemma {:induction false} Prepend(d: seq<byte>, k: nat, stops: seq<Stop>, r: Journey)
    requires Sent(d) && k < 15 && stops != [] && Relays(stops[0].env)
    ensures Faithful(d, k + 1, stops[1..], r) ==> Faithful(d, k, stops, r.(relayed := [Stamp(d, k + 1)] + r.relayed))
  {
    var all := [Stamp(d, k + 1)] + r.relayed;
    forall i | Faithful(d, k + 1, stops[1..], r) && 0 <= i < |all|
      ensures all[i] == Stamp(d, k + i + 1) && Relays(stops[i].env)
    {
      if i > 0 {
        assert all[i] == r.relayed[i - 1] && stops[i] == stops[1..][i - 1];
      }
    }
  }

  lemma {:induction false} FirstStop(d: seq<byte>, k: nat, stops: seq<Stop>)
    requires Sent(d) && k < 16 && stops != []
    ensures var env := stops[0].env;
            Travel(Stamp(d, k), stops) ==
            if env.local then Journey([], Arrived(Stamp(d, k)))
            else if Relays(env) && Field(d, 4) != 0 && k < 15 then
              var r := Travel(Stamp(d, k + 1), stops[1..]);
              r.(relayed := [Stamp(d, k + 1)] + r.relayed)
            else Journey([], Lost)
  {
    Hop(d, k, stops[0].pad, stops[0].env);
  }

  lemma {:induction false} StaysPut(d: seq<byte>, k: nat, stops: seq<Stop>, e: End)
    requires Sent(d) && k < 16
    requires e == if stops == [] then OnTheWay else if stops[0].env.local then Arrived(Stamp(d, k)) else Lost
    requires stops != [] && Relays(stops[0].env) ==> k == 15 || Field(d, 4) == 0
    ensures Faithful(d, k, stops, Journey([], e))
  {
  }

  lemma {:induction false} TravelFrom(d: seq<byte>, k: nat, stops: seq<Stop>)
    requires Sent(d) && k < 16
    ensures Faithful(d, k, stops, Travel(Stamp(d, k), stops))
    decreases |stops|
  {
    if stops == [] {
      StaysPut(d, k, stops, OnTheWay);
    } else {
      FirstStop(d, k, stops);
      if Relays(stops[0].env) && Field(d, 4) != 0 && k < 15 {
        TravelFrom(d, k + 1, stops[1..]);
        Prepend(d, k, stops, Travel(Stamp(d, k + 1), stops[1..]));
      } else {
        StaysPut(d, k, stops, if stops[0].env.local then Arrived(Stamp(d, k)) else Lost);
      }
    }
  }

  /**
   * Forwarding is transparent and bounded, along any chain of nodes: at most fifteen copies are
   * forwarded, each differs from the sent datagram in the hop count alone, the checksum never
   * causes a loss, and the addressed node gets names and data as sent.
   */
  lemma {:induction false} SendTravel(n: Names, data: seq<byte>, noCheck: bool, stops: seq<Stop>)
    requires |data| <= MAX_DATA
    ensures var d := Datagram(n, data, noCheck);
            var j := Travel(d, stops);
            var m := |j.relayed|;
            && m <= 15 && m <= |stops|
            && (forall i :: 0 <= i < m ==> var p := j.relayed[i];
                                           |p| == |d| && p[2..] == d[2..] && Field(p, 0) == |d| + 1024 * (i + 1))
            && (j.end.Arrived? <==> m < |stops| && stops[m].env.local)
            && (j.end.Arrived? ==> var p := j.end.pkt;
                                  |p| == |d| && p[2..] == d[2..] && p[4..HDR] == NameBytes(n) && p[HDR..] == data)
            && (j.end.Lost? <==> m < |stops| && !stops[m].env.local)
            && (j.end.Lost? ==> !Relays(stops[m].env) || m == 15 || n.dnet == 0)
  {
    hide Travel, NameBytes, Datagram;
    var d := Datagram(n, data, noCheck);
    SentPasses(n, data, noCheck);
    assert Stamp(d, 0) == d by {
      assert d == d[..2] + d[2..];
    }
    TravelFrom(d, 0, stops);
    if Travel(d, stops).end.Arrived? {
      Contents(d, Travel(d, stops).end.pkt);
    }
  }

  lemma Contents(d: seq<byte>, p: seq<byte>)
    requires HDR <= |d| == |p| && p[2..] == d[2..]
    ensures p[4..HDR] == d[4..HDR] && p[HDR..] == d[HDR..]
  {
    assert p[4..HDR] == p[2..][2..HDR - 2] && p[HDR..] == p[2..][HDR - 2..];
    assert d[4..HDR] == d[2..][2..HDR - 2] && d[HDR..] == d[2..][HDR - 2..];
  }

  // ---- what the checksum catches ----

  lemma ByteInjective(v: word, w: word, b: byte, c: byte)
    requires (v == w && b != c) || (v != w && b == c)
    ensures SumByte(v, b) != SumByte(w, c)
  {
  }

  lemma {:induction false} SumInjective(data: seq<byte>, off: nat, n: nat, v: word, w: word)
    requires off + n <= |data| && v != w
    ensures Sum(data, off, n, v) != Sum(data, off, n, w)
    decreases n
  {
    if n != 0 {
      ByteInjective(v, w, data[off], data[off]);
      SumInjective(data, off + 1, n - 1, SumByte(v, data[off]), SumByte(w, data[off]));
    }
  }

  lemma {:induction false} OneByteSum(pkt: seq<byte>, len: nat, i: nat, b: byte)
    requires 4 <= i < len <= |pkt| && b != pkt[i]
    ensures Sum(pkt, 4, len - 4, 0) != Sum(pkt[i := b], 4, len - 4, 0)
  {
    var alt, s := pkt[i := b], Sum(pkt, 4, i - 4, 0);
    assert pkt[4..i] == alt[4..i];
    SumSame(pkt, 4, alt, 4, i - 4, 0);
    SumSplit(pkt, 4, i - 4, len - 4, 0);
    SumSplit(alt, 4, i - 4, len - 4, 0);
    FirstByteSum(pkt, alt, i, len - i, s);
  }

  lemma {:induction false} FirstByteSum(pkt: seq<byte>, alt: seq<byte>, i: nat, n: nat, s: word)
    requires 0 < n && i + n <= |pkt| == |alt| && pkt[i] != alt[i] && pkt[i + 1..] == alt[i + 1..]
    ensures Sum(pkt, i, n, s) != Sum(alt, i, n, s)
  {
    ByteInjective(s, s, pkt[i], alt[i]);
    Slices(pkt, i + 1, |pkt| - i - 1, 0, n - 1);
    Slices(alt, i + 1, |pkt| - i - 1, 0, n - 1);
    assert pkt[i + 1..|pkt|] == pkt[i + 1..] && alt[i + 1..|pkt|] == alt[i + 1..];
    SumSame(pkt, i + 1, alt, i + 1, n - 1, SumByte(s, alt[i]));
    SumInjective(pkt, i + 1, n - 1, SumByte(s, pkt[i]), SumByte(s, alt[i]));
  }

  /** A single wrong byte is caught, except between the two sums that are both written as 0xFFFF. */
  lemma {:induction false} OneByteCaught(pkt: seq<byte>, len: nat, i: nat, b: byte)
    requires 4 <= i < len <= |pkt| && b != pkt[i]
    ensures Checksum(pkt, len) == Checksum(pkt[i := b], len) <==>
            {Sum(pkt, 4, len - 4, 0), Sum(pkt[i := b], 4, len - 4, 0)} == {0, 0xFFFF}
  {
    OneByteSum(pkt, len, i, b);
    var v, w := Sum(pkt, 4, len - 4, 0), Sum(pkt[i := b], 4, len - 4, 0);
    assert v != w;
    assert 0 in {v, w} && 0xFFFF in {v, w} ==> {v, w} == {0, 0xFFFF};
    assert {v, w} == {0, 0xFFFF} ==> 0 in {v, w} && 0xFFFF in {v, w};
  }

  /** The exception is real: these two datagrams differ in a data byte and carry the same checksum. */
  lemma {:induction false} OneByteMissed()
    ensures var n := Names(767, 0xFFFF, 255, 255, 255, 255);
            && Datagram(n, [253], false) == Filled(n, [253], 0xFFFF)
            && Datagram(n, [254], false) == Filled(n, [254], 0xFFFF)
  {
    Ends(253);
    Ends(254);
  }

  lemma {:induction false} Ends(b: byte)
    requires b == 253 || b == 254
    ensures Checksum(Filled(Names(767, 0xFFFF, 255, 255, 255, 255), [b], 0), 13) == 0xFFFF
  {
    var p := Filled(Names(767, 0xFFFF, 255, 255, 255, 255), [b], 0);
    assert p[4] == 2 && forall i :: 5 <= i < 12 ==> p[i] == 255;
    EightBytes(p);
    ByteFacts();
    var end := if b == 253 then 0xFFFF else 0;
    SumStep(p, 12, 1, 65282, end);
  }

  lemma SumStep(p: seq<byte>, off: nat, n: nat, sum: word, next: word)
    requires 0 < n && off + n <= |p| && SumByte(sum, p[off]) == next
    ensures Sum(p, off, n, sum) == Sum(p, off + 1, n - 1, next)
  {
  }

  lemma ByteFacts()
    ensures SumByte(0, 2) == 4 && SumByte(4, 255) == 518 && SumByte(518, 255) == 1546
    ensures SumByte(1546, 255) == 3602 && SumByte(3602, 255) == 7714 && SumByte(7714, 255) == 15938
    ensures SumByte(15938, 255) == 32386 && SumByte(32386, 255) == 65282
    ensures SumByte(65282, 253) == 0xFFFF && SumByte(65282, 254) == 0
  {
  }

  lemma {:induction false} FourBytes(p: seq<byte>, i: nat, n: nat, s0: word, s1: word, s2: word, s3: word, s4: word)
    requires 4 <= n && i + n <= |p|
    requires SumByte(s0, p[i]) == s1 && SumByte(s1, p[i + 1]) == s2
    requires SumByte(s2, p[i + 2]) == s3 && SumByte(s3, p[i + 3]) == s4
    ensures Sum(p, i, n, s0) == Sum(p, i + 4, n - 4, s4)
  {
    SumStep(p, i, n, s0, s1);
    SumStep(p, i + 1, n - 1, s1, s2);
    SumStep(p, i + 2, n - 2, s2, s3);
    SumStep(p, i + 3, n - 3, s3, s4);
  }

  lemma {:induction false} EightBytes(p: seq<byte>)
    requires |p| == 13 && p[4] == 2 && forall i :: 5 <= i < 12 ==> p[i] == 255
    ensures Sum(p, 4, 9, 0) == Sum(p, 12, 1, 65282)
  {
    ByteFacts();
    FourBytes(p, 4, 9, 0, 4, 518, 1546, 3602);
    FourBytes(p, 8, 5, 3602, 7714, 15938, 32386, 65282);
  }

  // ---- in place ----

  datatype Verdict = Dropped | Delivered | Forwarded

  /** A received buffer: atalk_rcv trims it and atalk_route_packet rewrites its length word. */
  class Packet {
    const data: array<byte>
    var len: nat

    ghost predicate Valid()
      reads this
    {
      len <= data.Length
    }

    ghost function Bytes(): seq<byte>
      requires Valid()
      reads this, data
    {
      data[..len]
    }

    /** atalk_sendmsg: header, data, then the checksum over both. */
    constructor Send(n: Names, payload: seq<byte>, noCheck: bool)
      requires |payload| <= MAX_DATA
      ensures Valid() && fresh(data) && Bytes() == Datagram(n, payload, noCheck)
    {
      var size := HDR + |payload|;
      data := new byte[size](i => 0);
      len := size;
      new;
      var head := BE16(size) + [0, 0] + NameBytes(n);
      forall i | 0 <= i < HDR {
        data[i] := head[i];
      }
      forall i | HDR <= i < size {
        data[i] := payload[i - HDR];
      }
      assert data[..len] == Filled(n, payload, 0);
      if !noCheck {
        var sum := Check(size);
        data[2], data[3] := sum / 256, sum % 256;
        assert data[..len] == Filled(n, payload, sum);
      }
    }

    /** The length limit of atalk_sendmsg. */
    static method SendMsg(n: Names, payload: seq<byte>, noCheck: bool) returns (p: Packet?)
      ensures p == null <==> |payload| > MAX_DATA
      ensures p != null ==> fresh(p) && p.Valid() && p.Bytes() == Datagram(n, payload, noCheck)
    {
      if |payload| > MAX_DATA {
        return null;
      }
      p := new Packet.Send(n, payload, noCheck);
    }

    /** atalk_checksum on this buffer. */
    method Check(size: nat) returns (sum: word)
      requires Valid() && 4 <= size <= len
      ensures sum == Checksum(Bytes(), size)
    {
      var skb := Skb(data[..len], [], []);
      assert Flat(skb) == data[..len];
      sum := ChecksumSkb(skb, size);
    }

    /** skb_trim. */
    method Trim(n: nat)
      requires Valid()
      modifies this
      ensures Valid() && Bytes() == old(Bytes())[..Min(old(len), n)]
    {
      if len > n {
        len := n;
      }
    }

    method Receive(env: Env) returns (v: Verdict)
      requires Valid()
      modifies this, data
      ensures Valid()
      ensures v == match Rcv(old(Bytes()), env)
                   case Drop => Dropped
                   case Deliver(_) => Delivered
                   case Forward(_) => Forwarded
      ensures !v.Dropped? ==> Bytes() == Rcv(old(Bytes()), env).pkt
    {
      if len < HDR {
        return Dropped;
      }
      ghost var pkt := Bytes();
      var lenHops := data[0] as nat * 256 + data[1] as nat;
      var origLen := len;
      Trim(Min(len, lenHops % 1024));
      if len < HDR || len < lenHops % 1024 {
        return Dropped;
      }
      var sum := data[2] as nat * 256 + data[3] as nat;
      if sum != 0 {
        var c := Check(lenHops % 1024);
        if c != sum {
          return Dropped;
        }
      }
      if env.local {
        return Delivered;
      }
      v := Onward(lenHops, origLen, env);
    }

    method Onward(lenHops: word, origLen: nat, env: Env) returns (v: Verdict)
      requires Valid() && HDR <= len == lenHops % 1024 && len <= origLen
      modifies this, data
      ensures Valid()
      ensures v == match Route(old(Bytes()), lenHops, origLen, env) case Drop => Dropped case Forward(_) => Forwarded
      ensures !v.Dropped? ==> Bytes() == Route(old(Bytes()), lenHops, origLen, env).pkt
    {
      if !env.host || data[4] as nat * 256 + data[5] as nat == 0 {
        return Dropped;
      }
      var next := NextHop(lenHops);
      if !env.route || (next / 1024) % 16 == 0 {
        return Dropped;
      }
      Trim(Min(origLen, env.room + next % 1024));
      data[0], data[1] := next / 256, next % 256;
      return if env.memory then Forwarded else Dropped;
    }
  }
}
