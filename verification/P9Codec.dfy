/**
 * The 9P wire codec: format strings drive a writer (p9pdu_vwritef) and a reader
 * (p9pdu_vreadf) over one message buffer (struct p9_fcall).
 *
 * Enc and Dec are the meaning of a format on byte strings.  P9Pdu.Fcall carries the
 * imperative code, whose contracts tie the buffer to Enc and Dec.
 */
module P9Codec {
  import opened Bytes
  import opened Common

  const EFAULT := -14
  const ENOMEM := -12
  const MAX_STR := 0xFFFF

  datatype Version = Legacy | DotU | DotL

  /** One format letter that both directions understand. */
  datatype Letter =
    | Int(bytes: nat)  // b w d q: 1, 2, 4 and 8 bytes
    | Text              // s
    | Qid               // Q
    | Stat              // S
    | Data              // D
    | Names             // T
    | Qids              // R
    | Opt               // ?

  type Format = seq<Letter>

  const STAT_FMT: Format :=
    [Int(2), Int(2), Int(4), Qid, Int(4), Int(4), Int(4), Int(8),
     Text, Text, Text, Text, Opt, Text, Int(4), Int(4), Int(4)]

  lemma StatPlain(f: Format)
    requires IsStat(f)
    ensures FmtRank(f) == 1 && Data !in f
  {
    forall i | 0 <= i < |f|
      ensures f[i].Int? || f[i].Qid? || f[i].Text? || f[i].Opt?
    {
      if i < 8 {
        assert f[i].Int? || f[i].Qid?;
      } else {
        assert i < 12 || i == 12 || i == 13 || 13 < i;
      }
    }
    assert f[3] in f;
  }

  /** The format that a structured letter stands for: "bdq" and "wwdQdddqssss?sddd". */
  function Nested(c: Letter): (f: Format)
    ensures FmtRank(f) == (if c.Stat? then 1 else 0) && Data !in f
    ensures c.Stat? ==> IsStat(f)
  {
    if c.Stat? then
      StatPlain(STAT_FMT);
      STAT_FMT
    else
      [Int(1), Int(4), Int(8)]
  }

  predicate IsStat(f: Format) {
    && |f| == 17
    && f[0] == f[1] == Int(2) && f[2] == Int(4) && f[3] == Qid
    && f[4] == f[5] == f[6] == Int(4) && f[7] == Int(8)
    && f[8] == f[9] == f[10] == f[11] == Text
    && f[12] == Opt && f[13] == Text && f[14] == f[15] == f[16] == Int(4)
  }

  datatype Arg =
    | Num(n: int)                  // b w d q: an integer, as its bit pattern
    | Str(s: seq<byte>)            // s: the bytes before the terminating NUL; NULL is empty
    | Rec(fields: seq<Arg>)        // Q S: the fields of the structure
    | Blob(data: seq<byte>)        // D
    | Strs(names: seq<seq<byte>>)  // T
    | Recs(items: seq<Arg>)        // R

  /** Nesting depth, which bounds the recursion through nested formats. */
  function Rank(c: Letter): nat {
    if c.Stat? || c.Qids? then 2 else if c.Qid? then 1 else 0
  }

  function FmtRank(f: Format): nat {
    if Stat in f || Qids in f then 2 else if Qid in f then 1 else 0
  }

  /** a is a value that format letter c takes. */
  predicate Fits(c: Letter, a: Arg)
    decreases Rank(c), 0, 0, a
  {
    match c
    case Text => a.Str?
    case Qid => a.Rec? && Matches(Nested(c), a.fields)
    case Stat => a.Rec? && Matches(Nested(c), a.fields)
    case Data => a.Blob? && |a.data| < 0x1_0000_0000
    case Names => a.Strs? && |a.names| < 0x1_0000
    case Qids => a.Recs? && |a.items| < 0x8000 && forall i :: 0 <= i < |a.items| ==> Fits(Qid, a.items[i])
    case Int(_) => a.Num?
    case Opt => false
  }

  predicate Matches(f: Format, args: seq<Arg>)
    decreases FmtRank(f), 1, |f|, args
  {
    if f == [] then args == []
    else if f[0] == Opt then Matches(f[1..], args)
    else args != [] && Fits(f[0], args[0]) && Matches(f[1..], args[1..])
  }

  // ---- what is put on the wire ----

  function Cut(s: seq<byte>): (r: seq<byte>)
    ensures |r| <= MAX_STR && r <= s
  {
    if |s| <= MAX_STR then s else s[..MAX_STR]
  }

  function EncStr(s: seq<byte>): seq<byte> {
    LE(|Cut(s)|, 2) + Cut(s)
  }

  function EncStrs(names: seq<seq<byte>>): seq<byte> {
    if names == [] then [] else EncStr(names[0]) + EncStrs(names[1..])
  }

  function EncQids(items: seq<Arg>, v: Version): seq<byte>
    requires forall i :: 0 <= i < |items| ==> Fits(Qid, items[i])
    decreases 1, 1, |items|, items
  {
    if items == [] then [] else EncOne(Qid, items[0], v) + EncQids(items[1..], v)
  }

  function EncOne(c: Letter, a: Arg, v: Version): seq<byte>
    requires Fits(c, a)
    decreases Rank(c), 0, 0, a
  {
    match c
    case Text => EncStr(a.s)
    case Qid => Enc(Nested(c), a.fields, v)
    case Stat => Enc(Nested(c), a.fields, v)
    case Data => LE(|a.data|, 4) + a.data
    case Names => LE(|a.names|, 2) + EncStrs(a.names)
    case Qids => LE(|a.items|, 2) + EncQids(a.items, v)
    case Int(w) => LE(a.n, w)
  }

  function Enc(f: Format, args: seq<Arg>, v: Version): seq<byte>
    requires Matches(f, args)
    decreases FmtRank(f), 1, |f|, args
  {
    if f == [] then []
    else if f[0] == Opt then if v.Legacy? then [] else Enc(f[1..], args, v)
    else EncOne(f[0], args[0], v) + Enc(f[1..], args[1..], v)
  }

  // ---- what is read back ----

  /** rest is what the read offset still points at, also after a failure. */
  datatype Parse<T> = Got(value: T, rest: seq<byte>) | Fail(code: int, rest: seq<byte>)

  function DecNum(n: nat, b: seq<byte>): Parse<nat> {
    if |b| < n then Fail(EFAULT, []) else Got(UnLE(b[..n]), b[n..])
  }

  function DecStr(b: seq<byte>): Parse<seq<byte>> {
    match DecNum(2, b)
    case Fail(e, r) => Fail(e, r)
    case Got(n, r) => if |r| < n then Fail(EFAULT, []) else Got(r[..n], r[n..])
  }

  function DecStrs(n: nat, b: seq<byte>): Parse<seq<seq<byte>>> {
    if n == 0 then Got([], b) else
    match DecStr(b)
    case Fail(e, r) => Fail(e, r)
    case Got(s, r) =>
      match DecStrs(n - 1, r)
      case Fail(e, r') => Fail(e, r')
      case Got(ss, r') => Got([s] + ss, r')
  }

  function DecQids(n: nat, b: seq<byte>, v: Version): Parse<seq<Arg>>
    decreases 1, 1, n, b
  {
    if n == 0 then Got([], b) else
    match DecOne(Qid, b, v)
    case Fail(e, r) => Fail(e, r)
    case Got(q, r) =>
      match DecQids(n - 1, r, v)
      case Fail(e, r') => Fail(e, r')
      case Got(qs, r') => Got([q] + qs, r')
  }

  /** The values memset and the -1 initialisation leave in the fields after `?`. */
  const STAT_DEFAULTS := [Str([]), Num(0xFFFF_FFFF), Num(0xFFFF_FFFF), Num(0xFFFF_FFFF)]

  function StatFields(v: Version, fields: seq<Arg>): seq<Arg> {
    if v.Legacy? then fields + STAT_DEFAULTS else fields
  }

  function DecOne(c: Letter, b: seq<byte>, v: Version): Parse<Arg>
    requires c != Opt
    decreases Rank(c), 0, 0, b
  {
    match c
    case Text =>
      (match DecStr(b)
       case Fail(e, r) => Fail(e, r)
       case Got(s, r) => Got(Str(s), r))
    case Qid =>
      (match Dec(Nested(c), b, v)
       case Fail(e, r) => Fail(e, r)
       case Got(fs, r) => Got(Rec(fs), r))
    case Stat =>
      (match Dec(Nested(c), b, v)
       case Fail(e, r) => Fail(e, r)
       case Got(fs, r) => Got(Rec(StatFields(v, fs)), r))
    case Data =>
      (match DecNum(4, b)
       case Fail(e, r) => Fail(e, r)
       case Got(n, r) => Got(Blob(r[..Min(n, |r|)]), r))
    case Names =>
      (match DecNum(2, b)
       case Fail(e, r) => Fail(e, r)
       case Got(n, r) =>
         match DecStrs(n, r)
         case Fail(e, r') => Fail(e, r')
         case Got(ss, r') => Got(Strs(ss), r'))
    case Qids =>
      (match DecNum(2, b)
       case Fail(e, r) => Fail(e, r)
       case Got(n, r) =>
         if n >= 0x8000 then Fail(ENOMEM, r)  // a negative int16_t count
         else match DecQids(n, r, v)
           case Fail(e, r') => Fail(e, r')
           case Got(qs, r') => Got(Recs(qs), r'))
    case Int(w) =>
      match DecNum(w, b)
      case Fail(e, r) => Fail(e, r)
      case Got(n, r) => Got(Num(n), r)
  }

  function Dec(f: Format, b: seq<byte>, v: Version): Parse<seq<Arg>>
    decreases FmtRank(f), 1, |f|, b
  {
    if f == [] then Got([], b)
    else if f[0] == Opt then if v.Legacy? then Got([], b) else Dec(f[1..], b, v)
    else
      match DecOne(f[0], b, v)
      case Fail(e, r) => Fail(e, r)
      case Got(a, r) =>
        match Dec(f[1..], r, v)
        case Fail(e, r') => Fail(e, r')
        case Got(as_, r') => Got([a] + as_, r')
  }

  // ---- round trip ----

  function CutAll(names: seq<seq<byte>>): seq<seq<byte>> {
    if names == [] then [] else [Cut(names[0])] + CutAll(names[1..])
  }

  function NormQids(items: seq<Arg>, v: Version): seq<Arg>
    requires forall i :: 0 <= i < |items| ==> Fits(Qid, items[i])
    decreases 1, 1, |items|, items
  {
    if items == [] then [] else [NormOne(Qid, items[0], v)] + NormQids(items[1..], v)
  }

  /** What a reader is promised to get for a written value. */
  function NormOne(c: Letter, a: Arg, v: Version): Arg
    requires Fits(c, a)
    decreases Rank(c), 0, 0, a
  {
    match c
    case Text => Str(Cut(a.s))
    case Qid => Rec(Norm(Nested(c), a.fields, v))
    case Stat => Rec(StatFields(v, Norm(Nested(c), a.fields, v)))
    case Data => a
    case Names => Strs(CutAll(a.names))
    case Qids => Recs(NormQids(a.items, v))
    case Int(w) => Num(a.n % Pow256(w))
  }

  function Norm(f: Format, args: seq<Arg>, v: Version): seq<Arg>
    requires Matches(f, args)
    decreases FmtRank(f), 1, |f|, args
  {
    if f == [] then []
    else if f[0] == Opt then if v.Legacy? then [] else Norm(f[1..], args, v)
    else [NormOne(f[0], args[0], v)] + Norm(f[1..], args[1..], v)
  }

  lemma LENum(v: int, n: nat, tail: seq<byte>)
    ensures DecNum(n, LE(v, n) + tail) == Got(v % Pow256(n), tail)
  {
    LERoundTrip(v, n);
    assert (LE(v, n) + tail)[..n] == LE(v, n);
  }

  /** Lengths and counts are in range, so they come back as they are. */
  lemma LECount(k: nat, n: nat, tail: seq<byte>)
    requires (n == 2 && k < 0x1_0000) || (n == 4 && k < 0x1_0000_0000)
    ensures DecNum(n, LE(k, n) + tail) == Got(k, tail)
  {
    LENum(k, n, tail);
    PowValues();
  }

  lemma StrRoundTrip(s: seq<byte>, tail: seq<byte>)
    ensures DecStr(EncStr(s) + tail) == Got(Cut(s), tail)
  {
    var t := Cut(s);
    assert EncStr(s) + tail == LE(|t|, 2) + (t + tail);
    LECount(|t|, 2, t + tail);
  }

  lemma {:induction false} StrsRoundTrip(names: seq<seq<byte>>, tail: seq<byte>)
    ensures DecStrs(|names|, EncStrs(names) + tail)
         == Got(CutAll(names), tail)
  {
    if names != [] {
      assert EncStrs(names) + tail == EncStr(names[0]) + (EncStrs(names[1..]) + tail);
      StrRoundTrip(names[0], EncStrs(names[1..]) + tail);
      StrsRoundTrip(names[1..], tail);
    } else {
      assert EncStrs(names) + tail == tail;
    }
  }

  lemma {:induction false} QidsRoundTrip(items: seq<Arg>, v: Version, tail: seq<byte>)
    requires forall i :: 0 <= i < |items| ==> Fits(Qid, items[i])
    ensures DecQids(|items|, EncQids(items, v) + tail, v)
         == Got(NormQids(items, v), tail)
    decreases 1, 1, |items|, items
  {
    hide Nested;
    if items != [] {
      assert EncQids(items, v) + tail == EncOne(Qid, items[0], v) + (EncQids(items[1..], v) + tail);
      OneRoundTrip(Qid, items[0], v, EncQids(items[1..], v) + tail);
      QidsRoundTrip(items[1..], v, tail);
    } else {
      assert EncQids(items, v) + tail == tail;
    }
  }

  lemma DataRoundTrip(a: Arg, v: Version, tail: seq<byte>)
    requires Fits(Data, a)
    ensures DecOne(Data, EncOne(Data, a, v) + tail, v) == Got(a, a.data + tail)
  {
    hide Nested;
    var rest := a.data + tail;
    assert EncOne(Data, a, v) + tail == LE(|a.data|, 4) + rest;
    LECount(|a.data|, 4, rest);
    assert rest[..|a.data|] == a.data;
  }

  lemma NamesRoundTrip(a: Arg, v: Version, tail: seq<byte>)
    requires Fits(Names, a)
    ensures DecOne(Names, EncOne(Names, a, v) + tail, v) == Got(NormOne(Names, a, v), tail)
  {
    hide Nested;
    var rest := EncStrs(a.names) + tail;
    assert EncOne(Names, a, v) + tail == LE(|a.names|, 2) + rest;
    LECount(|a.names|, 2, rest);
    StrsRoundTrip(a.names, tail);
  }

  lemma QidListRoundTrip(a: Arg, v: Version, tail: seq<byte>)
    requires Fits(Qids, a)
    ensures DecOne(Qids, EncOne(Qids, a, v) + tail, v) == Got(NormOne(Qids, a, v), tail)
    decreases 1, 2, 0
  {
    hide Nested;
    var rest := EncQids(a.items, v) + tail;
    assert EncOne(Qids, a, v) + tail == LE(|a.items|, 2) + rest;
    LECount(|a.items|, 2, rest);
    QidsRoundTrip(a.items, v, tail);
  }

  lemma {:induction false} OneRoundTrip(c: Letter, a: Arg, v: Version, tail: seq<byte>)
    requires Fits(c, a)
    ensures DecOne(c, EncOne(c, a, v) + tail, v)
         == Got(NormOne(c, a, v), if c.Data? then a.data + tail else tail)
    decreases Rank(c), 0, 0, a
  {
    hide Nested;
    match c
    case Int(w) => LENum(a.n, w, tail);
    case Text => StrRoundTrip(a.s, tail);
    case Data => DataRoundTrip(a, v, tail);
    case Names => NamesRoundTrip(a, v, tail);
    case Qids => QidListRoundTrip(a, v, tail);
    case Qid => NoDLast(Nested(c)); RoundTrip(Nested(c), a.fields, v, tail);
    case Stat => NoDLast(Nested(c)); RoundTrip(Nested(c), a.fields, v, tail);
  }

  /** D leaves the offset at its data, so it can only stand last. */
  predicate DLast(f: Format) {
    f == [] || ((f[0] == Data ==> |f| == 1) && DLast(f[1..]))
  }

  lemma {:induction false} NoDLast(f: Format)
    requires Data !in f
    ensures DLast(f)
  {
    if f != [] {
      NoDLast(f[1..]);
    }
  }

  lemma EncSplit(f: Format, args: seq<Arg>, v: Version, tail: seq<byte>)
    requires f != [] && f[0] != Opt && Matches(f, args)
    ensures Enc(f, args, v) + tail == EncOne(f[0], args[0], v) + (Enc(f[1..], args[1..], v) + tail)
  {
    hide Nested;
  }

  lemma LoneData(f: Format, args: seq<Arg>, v: Version, tail: seq<byte>)
    requires |f| == 1 && f[0] == Data && Matches(f, args)
    ensures Dec(f, Enc(f, args, v) + tail, v).Got?
    ensures Dec(f, Enc(f, args, v) + tail, v).value == Norm(f, args, v)
  {
    hide Nested;
    var a := args[0];
    assert f[1..] == [] && args[1..] == [];
    EncSplit(f, args, v, tail);
    assert [] + tail == tail;
    DataRoundTrip(a, v, tail);
    DecCons(f, EncOne(Data, a, v) + tail, v, a, a.data + tail);
  }

  /** Reading what was written returns the values; the unread tail is untouched unless D stands last. */
  lemma {:induction false} RoundTrip(f: Format, args: seq<Arg>, v: Version, tail: seq<byte>)
    requires Matches(f, args) && DLast(f)
    ensures Dec(f, Enc(f, args, v) + tail, v).Got?
    ensures Dec(f, Enc(f, args, v) + tail, v).value == Norm(f, args, v)
    ensures Data !in f ==> Dec(f, Enc(f, args, v) + tail, v).rest == tail
    decreases FmtRank(f), 1, |f|, args
  {
    hide Nested;
    if f == [] || (f[0] == Opt && v.Legacy?) {
      assert Enc(f, args, v) + tail == tail;
    } else if f[0] == Opt {
      RoundTrip(f[1..], args, v, tail);
    } else if f[0] == Data {
      LoneData(f, args, v, tail);
    } else {
      var more := Enc(f[1..], args[1..], v) + tail;
      OneRoundTrip(f[0], args[0], v, more);
      RoundTrip(f[1..], args[1..], v, tail);
      EncSplit(f, args, v, tail);
      DecCons(f, Enc(f, args, v) + tail, v, NormOne(f[0], args[0], v), more);
    }
  }

  /** A letter read back, then the rest of the format read back, is the format read back. */
  lemma DecCons(f: Format, b: seq<byte>, v: Version, a: Arg, more: seq<byte>)
    requires f != [] && f[0] != Opt && DecOne(f[0], b, v) == Got(a, more) && Dec(f[1..], more, v).Got?
    ensures var p := Dec(f[1..], more, v);
            Dec(f, b, v) == Got([a] + p.value, p.rest)
  {
    hide Nested;
  }

  /** Every value the format sends fits its field, so nothing is cut or wrapped. */
  predicate OneInRange(c: Letter, a: Arg)
    requires Fits(c, a)
    decreases Rank(c), 0, 0, a
  {
    match c
    case Int(w) => 0 <= a.n < Pow256(w)
    case Text => |a.s| <= MAX_STR
    case Qid => InRange(Nested(c), a.fields)
    case Stat => InRange(Nested(c), a.fields)
    case Data => true
    case Names => forall i :: 0 <= i < |a.names| ==> |a.names[i]| <= MAX_STR
    case Qids => forall i :: 0 <= i < |a.items| ==> OneInRange(Qid, a.items[i])
  }

  predicate InRange(f: Format, args: seq<Arg>)
    requires Matches(f, args)
    decreases FmtRank(f), 1, |f|, args
  {
    if f == [] then true
    else if f[0] == Opt then InRange(f[1..], args)
    else OneInRange(f[0], args[0]) && InRange(f[1..], args[1..])
  }

  lemma {:induction false} CutAllId(names: seq<seq<byte>>)
    ensures CutAll(names) == names <==> forall i :: 0 <= i < |names| ==> |names[i]| <= MAX_STR
  {
    if names != [] {
      CutAllId(names[1..]);
      assert names == [names[0]] + names[1..];
      assert forall i :: 0 <= i < |names| - 1 ==> names[1..][i] == names[i + 1];
    }
  }

  lemma {:induction false} NormQidsId(items: seq<Arg>, v: Version)
    requires forall i :: 0 <= i < |items| ==> Fits(Qid, items[i])
    requires !v.Legacy?
    ensures NormQids(items, v) == items <==> forall i :: 0 <= i < |items| ==> OneInRange(Qid, items[i])
    decreases 1, 1, |items|, items
  {
    hide Nested;
    if items != [] {
      NormOneId(Qid, items[0], v);
      NormQidsId(items[1..], v);
      assert items == [items[0]] + items[1..];
      assert forall i :: 0 <= i < |items| - 1 ==> items[1..][i] == items[i + 1];
    }
  }

  lemma {:induction false} NormOneId(c: Letter, a: Arg, v: Version)
    requires Fits(c, a) && !v.Legacy?
    ensures NormOne(c, a, v) == a <==> OneInRange(c, a)
    decreases Rank(c), 0, 0, a
  {
    hide Nested;
    match c
    case Int(w) => ModId(a.n, Pow256(w));
    case Text =>
    case Data =>
    case Names => CutAllId(a.names);
    case Qids => NormQidsId(a.items, v);
    case Qid => NormId(Nested(c), a.fields, v);
    case Stat => NormId(Nested(c), a.fields, v);
  }

  lemma ModId(x: int, m: int)
    requires m > 0
    ensures x % m == x <==> 0 <= x < m
  {
    if 0 <= x < m {
      ModUnique(x, m, 0, x);
    }
  }

  /** Outside legacy mode the values come back unchanged exactly when they are in range. */
  lemma {:induction false} NormId(f: Format, args: seq<Arg>, v: Version)
    requires Matches(f, args) && !v.Legacy?
    ensures Norm(f, args, v) == args <==> InRange(f, args)
    decreases FmtRank(f), 1, |f|, args
  {
    hide Nested;
    if f != [] {
      if f[0] == Opt {
        NormId(f[1..], args, v);
      } else {
        NormOneId(f[0], args[0], v);
        NormId(f[1..], args[1..], v);
        assert args == [args[0]] + args[1..];
      }
    }
  }

  /** A number too wide for its field comes back smaller. */
  lemma Wraps(v: Version)
    ensures var f, args := [Int(2)], [Num(0x1_0007)];
            Matches(f, args) && !InRange(f, args) && Norm(f, args, v) == [Num(7)]
  {
    var f, args := [Int(2)], [Num(0x1_0007)];
    assert f[1..] == [] && args[1..] == [];
    assert Matches(f[1..], args[1..]);
    PowValues();
    assert [NormOne(f[0], args[0], v)] + [] == [Num(7)];
  }

  // ---- the size p9_client_wstat announces ----

  /** p9_client_statsize on the 16 stat fields. */
  function StatSize(st: seq<Arg>, v: Version): nat
    requires Fits(Stat, Rec(st))
  {
    StatLength(Nested(Stat), st, v);
    2 + 4 + 13 + 4 + 4 + 4 + 8 + 2 + 2 + 2 + 2
    + |st[8].s| + |st[9].s| + |st[10].s| + |st[11].s|
    + if v.Legacy? then 0 else 2 + 4 + 4 + 4 + |st[12].s|
  }

  lemma MatchStep(f: Format, args: seq<Arg>, v: Version, k: nat, j: nat)
    requires k < |f| && j <= |args| && f[k] != Opt && Matches(f[k..], args[j..])
    ensures j < |args| && Fits(f[k], args[j]) && Matches(f[k + 1..], args[j + 1..])
    ensures |Enc(f[k..], args[j..], v)|
         == |EncOne(f[k], args[j], v)| + |Enc(f[k + 1..], args[j + 1..], v)|
  {
    hide Nested;
    assert f[k..][1..] == f[k + 1..];
    assert args[j..] != [];
    assert args[j..][1..] == args[j + 1..];
  }

  lemma QidLength(a: Arg, v: Version)
    requires Fits(Qid, a)
    ensures |EncOne(Qid, a, v)| == 13
  {
    var f := Nested(Qid);
    assert f[0..] == f && a.fields[0..] == a.fields;
    MatchStep(f, a.fields, v, 0, 0);
    MatchStep(f, a.fields, v, 1, 1);
    MatchStep(f, a.fields, v, 2, 2);
    assert f[3..] == [];
  }

  /** What the eight fixed fields, the four names and the optional part take. */
  lemma StatLength(f: Format, st: seq<Arg>, v: Version)
    requires IsStat(f) && Matches(f, st)
    ensures |st| == 16 && forall i :: 8 <= i <= 12 ==> st[i].Str?
    ensures |Enc(f, st, v)|
         == 49 + |Cut(st[8].s)| + |Cut(st[9].s)| + |Cut(st[10].s)| + |Cut(st[11].s)|
            + if v.Legacy? then 0 else 14 + |Cut(st[12].s)|
  {
    hide Nested, Enc, EncOne, Matches, Fits, IsStat, Cut;
    assert f[0..] == f && st[0..] == st;
    StatHead(f, st, v);
    StatNames(f, st, v);
    StatTail(f, st, v);
  }

  lemma StatTail(f: Format, st: seq<Arg>, v: Version)
    requires IsStat(f) && 12 <= |st| && Matches(f[12..], st[12..])
    ensures |st| == 16 && st[12].Str?
    ensures |Enc(f[12..], st[12..], v)| == if v.Legacy? then 0 else 14 + |Cut(st[12].s)|
  {
    hide Nested;
    assert f[12..][1..] == f[13..];
    MatchStep(f, st, v, 13, 12);
    MatchStep(f, st, v, 14, 13);
    MatchStep(f, st, v, 15, 14);
    MatchStep(f, st, v, 16, 15);
    assert f[17..] == [];
    assert st[16..] == [];
  }

  lemma MatchFour(f: Format, args: seq<Arg>, v: Version, k: nat)
    requires k + 4 <= |f| && k <= |args| && Matches(f[k..], args[k..])
    requires f[k] != Opt && f[k + 1] != Opt && f[k + 2] != Opt && f[k + 3] != Opt
    ensures k + 4 <= |args| && Matches(f[k + 4..], args[k + 4..])
    ensures Fits(f[k], args[k]) && Fits(f[k + 1], args[k + 1])
    ensures Fits(f[k + 2], args[k + 2]) && Fits(f[k + 3], args[k + 3])
    ensures |Enc(f[k..], args[k..], v)|
         == |EncOne(f[k], args[k], v)| + |EncOne(f[k + 1], args[k + 1], v)|
            + |EncOne(f[k + 2], args[k + 2], v)| + |EncOne(f[k + 3], args[k + 3], v)|
            + |Enc(f[k + 4..], args[k + 4..], v)|
  {
    hide Nested;
    MatchStep(f, args, v, k, k);
    MatchStep(f, args, v, k + 1, k + 1);
    MatchStep(f, args, v, k + 2, k + 2);
    MatchStep(f, args, v, k + 3, k + 3);
  }

  lemma StatHead(f: Format, st: seq<Arg>, v: Version)
    requires IsStat(f) && Matches(f[0..], st[0..])
    ensures 8 <= |st| && Matches(f[8..], st[8..])
    ensures |Enc(f[0..], st[0..], v)| == 41 + |Enc(f[8..], st[8..], v)|
  {
    hide Nested;
    MatchFour(f, st, v, 0);
    QidLength(st[3], v);
    MatchFour(f, st, v, 4);
  }

  lemma StatNames(f: Format, st: seq<Arg>, v: Version)
    requires IsStat(f) && 8 <= |st| && Matches(f[8..], st[8..])
    ensures 12 <= |st| && Matches(f[12..], st[12..]) && forall i :: 8 <= i < 12 ==> st[i].Str?
    ensures |Enc(f[8..], st[8..], v)|
         == 8 + |Cut(st[8].s)| + |Cut(st[9].s)| + |Cut(st[10].s)| + |Cut(st[11].s)|
            + |Enc(f[12..], st[12..], v)|
  {
    hide Nested;
    MatchFour(f, st, v, 8);
  }

  /** The announced size is right exactly when no name sent had to be cut. */
  lemma StatSizeExact(st: seq<Arg>, v: Version)
    requires Fits(Stat, Rec(st))
    ensures |st| == 16 && forall i :: 8 <= i <= 12 ==> st[i].Str?
    ensures StatSize(st, v) + 2 == |EncOne(Stat, Rec(st), v)|
       <==> forall i :: 8 <= i < (if v.Legacy? then 12 else 13) ==> |st[i].s| <= MAX_STR
  {
    hide Nested;
    StatLength(Nested(Stat), st, v);
    CutLengths(st, v);
  }

  lemma CutLengths(st: seq<Arg>, v: Version)
    requires |st| == 16 && forall i :: 8 <= i <= 12 ==> st[i].Str?
    ensures |Cut(st[8].s)| + |Cut(st[9].s)| + |Cut(st[10].s)| + |Cut(st[11].s)|
            + (if v.Legacy? then 0 else |Cut(st[12].s)|)
         == |st[8].s| + |st[9].s| + |st[10].s| + |st[11].s| + (if v.Legacy? then 0 else |st[12].s|)
       <==> forall i :: 8 <= i < (if v.Legacy? then 12 else 13) ==> |st[i].s| <= MAX_STR
  {
    var n := if v.Legacy? then 12 else 13;
    if forall i :: 8 <= i < n ==> |st[i].s| <= MAX_STR {
    } else {
      var i :| 8 <= i < n && |st[i].s| > MAX_STR;
    }
  }

  /** Where the argument of letter k of a stat stands: `?` takes none. */
  function ArgOf(k: nat): nat {
    if k <= 12 then k else k - 1
  }

  predicate StatShape(st: seq<Arg>) {
    && |st| == 16
    && st[0].Num? && st[1].Num? && st[2].Num? && Fits(Qid, st[3])
    && st[4].Num? && st[5].Num? && st[6].Num? && st[7].Num?
    && st[8].Str? && st[9].Str? && st[10].Str? && st[11].Str? && st[12].Str?
    && st[13].Num? && st[14].Num? && st[15].Num?
  }

  lemma ShapeFits(f: Format, st: seq<Arg>, k: nat)
    requires IsStat(f) && StatShape(st) && k < 17 && k != 12
    ensures f[k] != Opt && Fits(f[k], st[ArgOf(k)])
  {
    if k == 3 {
    } else if k < 4 {
      assert k == 0 || k == 1 || k == 2;
    } else if k < 8 {
      assert k == 4 || k == 5 || k == 6 || k == 7;
    } else if k < 12 {
      assert k == 8 || k == 9 || k == 10 || k == 11;
    } else {
      assert k == 13 || k == 14 || k == 15 || k == 16;
    }
  }

  lemma {:induction false} StatFits(f: Format, st: seq<Arg>, k: nat)
    requires IsStat(f) && StatShape(st) && k <= 17
    ensures Matches(f[k..], st[ArgOf(k)..])
    decreases 17 - k
  {
    if k < 17 {
      StatFits(f, st, k + 1);
      assert f[k..][0] == f[k] && f[k..][1..] == f[k + 1..];
      if k == 12 {
        assert f[12] == Opt;
      } else {
        ShapeFits(f, st, k);
        hide IsStat, StatShape, Fits;
        assert st[ArgOf(k)..][0] == st[ArgOf(k)] && st[ArgOf(k)..][1..] == st[ArgOf(k + 1)..];
      }
    }
  }

  /** A stat of zeros whose first name is given. */
  function Named(name: seq<byte>): seq<Arg> {
    [Num(0), Num(0), Num(0), Rec([Num(0), Num(0), Num(0)]), Num(0), Num(0), Num(0), Num(0),
     Str(name), Str([]), Str([]), Str([]), Str([]), Num(0), Num(0), Num(0)]
  }

  lemma QidFits()
    ensures Fits(Qid, Rec([Num(0), Num(0), Num(0)]))
  {
    var f, a := Nested(Qid), [Num(0), Num(0), Num(0)];
    assert f[1..][1..][1..] == [] && a[1..][1..][1..] == [];
  }

  lemma ShapeIsStat(st: seq<Arg>)
    requires StatShape(st)
    ensures Fits(Stat, Rec(st))
  {
    hide Nested, Matches, IsStat, StatShape;
    var f := Nested(Stat);
    StatFits(f, st, 0);
    assert f[0..] == f && st[0..] == st;
  }

  lemma NamedFits(name: seq<byte>)
    ensures Fits(Stat, Rec(Named(name)))
  {
    hide Fits;
    QidFits();
    ShapeIsStat(Named(name));
  }

  /** A name of 65536 bytes: the announced size is one byte too large. */
  lemma LongName(name: seq<byte>, v: Version)
    requires |name| == MAX_STR + 1
    ensures Fits(Stat, Rec(Named(name)))
    ensures StatSize(Named(name), v) + 2 == |EncOne(Stat, Rec(Named(name)), v)| + 1
  {
    hide Nested, Enc, Matches, IsStat;
    NamedFits(name);
    StatLength(Nested(Stat), Named(name), v);
  }
}
