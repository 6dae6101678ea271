/**
 * The message buffer (struct p9_fcall) and the code that fills and reads it in
 * place: pdu_write, pdu_read, the two format loops, and the 7-byte header.
 */
module P9Pdu {
  import opened Bytes
  import opened Common
  import opened P9Codec

  /**
   * Appending enc at s0 took buffer b0 to b1, byte by byte: each byte goes to the end of
   * what is there, and the call fails at the first byte for which no room is left.
   */
  ghost predicate Wrote(b0: seq<byte>, s0: nat, b1: seq<byte>, s1: nat, enc: seq<byte>, err: int)
    ensures Wrote(b0, s0, b1, s1, enc, err) ==> |b1| == |b0| && s0 <= s1 <= |b1|
    decreases |enc|
  {
    if enc == [] then s0 <= |b0| && b1 == b0 && s1 == s0 && err == 0
    else if s0 == |b0| then b1 == b0 && s1 == s0 && err == EFAULT
    else s0 < |b0| && Wrote(b0[s0 := enc[0]], s0 + 1, b1, s1, enc[1..], err)
  }

  /** As much of enc as fits is copied, nothing else changes, and it fails exactly when it does not fit. */
  lemma {:induction false} WroteMeans(b0: seq<byte>, s0: nat, b1: seq<byte>, s1: nat, enc: seq<byte>, err: int)
    requires s0 <= |b0|
    ensures Wrote(b0, s0, b1, s1, enc, err)
       <==> s1 == s0 + Min(|b0| - s0, |enc|)
            && b1 == Splice(b0, s0, enc[..s1 - s0])
            && err == if |enc| <= |b0| - s0 then 0 else EFAULT
    decreases |enc|
  {
    if enc == [] || s0 == |b0| {
      assert Splice(b0, s0, []) == b0;
    } else {
      var n := Min(|b0| - s0, |enc|);
      var b := b0[s0 := enc[0]];
      WroteMeans(b, s0 + 1, b1, s1, enc[1..], err);
      assert enc[..n] == [enc[0]] + enc[1..][..n - 1];
      assert Splice(b, s0 + 1, enc[1..][..n - 1]) == Splice(b0, s0, enc[..n]);
    }
  }

  lemma {:induction false} WroteThen(b0: seq<byte>, s0: nat, b1: seq<byte>, s1: nat, e1: seq<byte>,
                                     b2: seq<byte>, s2: nat, e2: seq<byte>, err: int)
    requires Wrote(b0, s0, b1, s1, e1, 0) && Wrote(b1, s1, b2, s2, e2, err)
    ensures Wrote(b0, s0, b2, s2, e1 + e2, err)
    decreases |e1|
  {
    if e1 == [] {
      assert e1 + e2 == e2;
    } else {
      WroteThen(b0[s0 := e1[0]], s0 + 1, b1, s1, e1[1..], b2, s2, e2, err);
      assert (e1 + e2)[1..] == e1[1..] + e2;
    }
  }

  lemma {:induction false} WroteStop(b0: seq<byte>, s0: nat, b1: seq<byte>, s1: nat,
                                     e1: seq<byte>, e2: seq<byte>, err: int)
    requires Wrote(b0, s0, b1, s1, e1, err) && err != 0
    ensures Wrote(b0, s0, b1, s1, e1 + e2, err)
    decreases |e1|
  {
    if s0 != |b0| {
      WroteStop(b0[s0 := e1[0]], s0 + 1, b1, s1, e1[1..], e2, err);
      assert (e1 + e2)[1..] == e1[1..] + e2;
    }
  }

  /** One more piece written after done; when it fails, what should have followed is lost too. */
  lemma {:induction false} WroteNext(b0: seq<byte>, s0: nat, b1: seq<byte>, s1: nat, done: seq<byte>,
                  b2: seq<byte>, s2: nat, one: seq<byte>, more: seq<byte>, err: int)
    requires Wrote(b0, s0, b1, s1, done, 0) && Wrote(b1, s1, b2, s2, one, err)
    ensures err == 0 ==> Wrote(b0, s0, b2, s2, done + one, 0)
    ensures err != 0 ==> Wrote(b0, s0, b2, s2, done + (one + more), err)
    ensures done + (one + more) == done + one + more
  {
    WroteThen(b0, s0, b1, s1, done, b2, s2, one, err);
    if err != 0 {
      WroteStop(b0, s0, b2, s2, done + one, more, err);
      assert done + one + more == done + (one + more);
    }
  }

  function Prepend<T>(acc: seq<T>, p: Parse<seq<T>>): Parse<seq<T>> {
    match p
    case Got(xs, r) => Got(acc + xs, r)
    case Fail(e, r) => Fail(e, r)
  }

  lemma PrependNil<T>(p: Parse<seq<T>>)
    ensures Prepend([], p) == p
  {
    if p.Got? {
      assert [] + p.value == p.value;
    }
  }

  lemma PrependStep<T>(acc: seq<T>, a: T, p: Parse<seq<T>>)
    ensures Prepend(acc, Prepend([a], p)) == Prepend(acc + [a], p)
  {
    if p.Got? {
      assert acc + ([a] + p.value) == acc + [a] + p.value;
    }
  }

  ghost predicate ReadAs<T(!new)>(p: Parse<T>, err: int, x: T, rest: seq<byte>) {
    match p
    case Got(y, r) => err == 0 && x == y && rest == r
    case Fail(e, r) => err == e && e != 0 && rest == r
  }

  lemma {:induction false} DecStrsStep(n: nat, b: seq<byte>, err: int, name: seq<byte>, rest: seq<byte>)
    requires n > 0 && ReadAs(DecStr(b), err, name, rest)
    ensures DecStrs(n, b) == if err == 0 then Prepend([name], DecStrs(n - 1, rest)) else Fail(err, rest)
  {
  }

  class Fcall {
    const sdata: array<byte>  // its length is the capacity
    var size: nat
    var offset: nat
    var id: int
    var tag: int

    constructor (capacity: nat)
      ensures fresh(sdata) && sdata.Length == capacity && size == 0 && offset == 0
    {
      sdata := new byte[capacity];
      size, offset, id, tag := 0, 0, 0, 0;
    }

    /** What has not been read yet. */
    ghost function Unread(): seq<byte>
      reads this, sdata
      requires offset <= size <= sdata.Length
    {
      sdata[offset..size]
    }

    // ---- writer ----

    method PduWrite(data: seq<byte>) returns (left: nat)
      requires size <= sdata.Length
      modifies this`size, sdata
      ensures Wrote(old(sdata[..]), old(size), sdata[..], size, data, if left == 0 then 0 else EFAULT)
      ensures left == |data| - (size - old(size))
    {
      var len := Min(sdata.Length - size, |data|);
      forall i | 0 <= i < len {
        sdata[size + i] := data[i];
      }
      assert sdata[..] == Splice(old(sdata[..]), size, data[..len]);
      WroteMeans(old(sdata[..]), size, sdata[..], size + len, data, if len == |data| then 0 else EFAULT);
      size := size + len;
      left := |data| - len;
    }

    method WriteInt(n: int, width: nat) returns (err: int)
      requires size <= sdata.Length
      modifies this`size, sdata
      ensures Wrote(old(sdata[..]), old(size), sdata[..], size, LE(n, width), err)
    {
      var left := PduWrite(LE(n, width));
      err := if left == 0 then 0 else EFAULT;
    }

    /** A length or count, then bytes: the letters s and D. */
    method WriteCounted(n: nat, width: nat, data: seq<byte>) returns (err: int)
      requires size <= sdata.Length
      modifies this`size, sdata
      ensures Wrote(old(sdata[..]), old(size), sdata[..], size, LE(n, width) + data, err)
    {
      err := WriteInt(n, width);
      if err != 0 {
        WroteStop(old(sdata[..]), old(size), sdata[..], size, LE(n, width), data, err);
        return;
      }
      label Counted:
      var left := PduWrite(data);
      err := if left == 0 then 0 else EFAULT;
      WroteThen(old(sdata[..]), old(size), old@Counted(sdata[..]), old@Counted(size), LE(n, width),
                sdata[..], size, data, err);
    }

    method WriteStr(text: seq<byte>) returns (err: int)
      requires size <= sdata.Length
      modifies this`size, sdata
      ensures Wrote(old(sdata[..]), old(size), sdata[..], size, EncStr(text), err)
    {
      err := WriteCounted(|Cut(text)|, 2, Cut(text));
    }

    method WriteNames(names: seq<seq<byte>>) returns (err: int)
      requires size <= sdata.Length && |names| < 0x1_0000
      modifies this`size, sdata
      ensures Wrote(old(sdata[..]), old(size), sdata[..], size, LE(|names|, 2) + EncStrs(names), err)
    {
      ghost var b0, s0 := sdata[..], size;
      err := WriteInt(|names|, 2);
      ghost var b, s, done := sdata[..], size, LE(|names|, 2);
      if err != 0 {
        WroteStop(b0, s0, b, s, done, EncStrs(names), err);
        return;
      }
      var i := 0;
      assert names[0..] == names;
      while i < |names|
        invariant 0 <= i <= |names| && size <= sdata.Length && b == sdata[..] && s == size
        invariant LE(|names|, 2) + EncStrs(names) == done + EncStrs(names[i..])
        invariant Wrote(b0, s0, b, s, done, 0)
      {
        ghost var one, more := EncStrsStep(names, i);
        err := WriteStr(names[i]);
        WroteNext(b0, s0, b, s, done, sdata[..], size, one, more, err);
        if err != 0 {
          return;
        }
        b, s, done := sdata[..], size, done + one;
        i := i + 1;
      }
      assert done + [] == done;
    }

    method WriteQids(v: Version, items: seq<Arg>) returns (err: int)
      requires size <= sdata.Length && |items| < 0x8000
      requires forall i :: 0 <= i < |items| ==> Fits(Qid, items[i])
      modifies this`size, sdata
      ensures Wrote(old(sdata[..]), old(size), sdata[..], size, LE(|items|, 2) + EncQids(items, v), err)
      decreases 1, 1, |items|
    {
      hide Nested;
      ghost var b0, s0 := sdata[..], size;
      err := WriteInt(|items|, 2);
      ghost var b, s, done := sdata[..], size, LE(|items|, 2);
      if err != 0 {
        WroteStop(b0, s0, b, s, done, EncQids(items, v), err);
        return;
      }
      var i := 0;
      assert items[0..] == items;
      while i < |items|
        invariant 0 <= i <= |items| && size <= sdata.Length && b == sdata[..] && s == size
        invariant LE(|items|, 2) + EncQids(items, v) == done + EncQids(items[i..], v)
        invariant Wrote(b0, s0, b, s, done, 0)
      {
        ghost var one, more := EncOne(Qid, items[i], v), EncQids(items[i + 1..], v);
        assert EncQids(items[i..], v) == one + more by {
          assert items[i..][1..] == items[i + 1..];
        }
        err := WriteOne(v, Qid, items[i]);
        WroteNext(b0, s0, b, s, done, sdata[..], size, one, more, err);
        if err != 0 {
          return;
        }
        b, s, done := sdata[..], size, done + one;
        i := i + 1;
      }
      assert done + [] == done;
    }

    /** One round of the format switch. */
    method WriteOne(v: Version, c: Letter, a: Arg) returns (err: int)
      requires size <= sdata.Length && Fits(c, a)
      modifies this`size, sdata
      ensures Wrote(old(sdata[..]), old(size), sdata[..], size, EncOne(c, a, v), err)
      decreases Rank(c), 0, 0
    {
      hide Nested;
      match c
      case Int(w) => err := WriteInt(a.n, w);
      case Text => err := WriteStr(a.s);
      case Qid => err := WriteF(v, Nested(c), a.fields);
      case Stat => err := WriteF(v, Nested(c), a.fields);
      case Data => err := WriteCounted(|a.data|, 4, a.data);
      case Names => err := WriteNames(a.names);
      case Qids => err := WriteQids(v, a.items);
    }

    /** p9pdu_vwritef: succeeds exactly when the whole encoding fits; earlier bytes never change. */
    method WriteF(v: Version, f: Format, args: seq<Arg>) returns (err: int)
      requires size <= sdata.Length && Matches(f, args)
      modifies this`size, sdata
      ensures Wrote(old(sdata[..]), old(size), sdata[..], size, Enc(f, args, v), err)
      decreases FmtRank(f), 1, |f|
    {
      hide EncOne, Fits, Nested;
      ghost var b0, s0 := sdata[..], size;
      ghost var b, s, done := b0, s0, [];
      var k, j := 0, 0;
      assert f[0..] == f && args[0..] == args;
      while k < |f|
        invariant 0 <= k <= |f| && 0 <= j <= |args| && size <= sdata.Length && b == sdata[..] && s == size
        invariant Matches(f[k..], args[j..]) && Enc(f, args, v) == done + Enc(f[k..], args[j..], v)
        invariant Wrote(b0, s0, b, s, done, 0)
      {
        if f[k] == Opt {
          EncOpt(f, args, v, k, j);
          if v.Legacy? {
            assert done + [] == done;
            return 0;
          }
        } else {
          ghost var one, more := EncStep(f, args, v, k, j);
          err := WriteOne(v, f[k], args[j]);
          WroteNext(b0, s0, b, s, done, sdata[..], size, one, more, err);
          if err != 0 {
            return;
          }
          b, s, done := sdata[..], size, done + one;
          j := j + 1;
        }
        k := k + 1;
      }
      assert done + [] == done;
      return 0;
    }

    // ---- reader ----

    method PduRead(n: nat) returns (data: seq<byte>, left: nat)
      requires offset <= size <= sdata.Length
      modifies this`offset
      ensures offset <= size
      ensures var b := old(Unread()); var k := Min(|b|, n);
              left == n - k && data == b[..k] && Unread() == b[k..]
    {
      var len := Min(size - offset, n);
      ghost var s, k := sdata[..], size - offset;
      Slices(s, offset, k, 0, len);
      Slices(s, offset, k, len, k);
      assert Unread() == s[offset..offset + k] && sdata[offset..offset + len] == s[offset..offset + len];
      data := sdata[offset..offset + len];
      offset := offset + len;
      assert Unread() == s[offset..size];
      left := n - len;
    }

    method ReadInt(width: nat) returns (err: int, n: nat)
      requires offset <= size <= sdata.Length
      modifies this`offset
      ensures offset <= size && ReadAs(DecNum(width, old(Unread())), err, n, Unread())
    {
      var data, left := PduRead(width);
      if left != 0 {
        return EFAULT, 0;
      }
      return 0, UnLE(data);
    }

    method ReadStr() returns (err: int, text: seq<byte>)
      requires offset <= size <= sdata.Length
      modifies this`offset
      ensures offset <= size && ReadAs(DecStr(old(Unread())), err, text, Unread())
    {
      text := [];
      var len;
      err, len := ReadInt(2);
      if err == 0 {
        var left;
        text, left := PduRead(len);
        if left != 0 {
          err := EFAULT;
        }
      }
    }

    /** One turn of the loop over an array of strings, n still to come. */
    method ReadNext(ghost n: nat, names: seq<seq<byte>>) returns (err: int, more: seq<seq<byte>>)
      requires offset <= size <= sdata.Length && n > 0
      modifies this`offset
      ensures offset <= size
      ensures Prepend(names, DecStrs(n, old(Unread())))
           == if err == 0 then Prepend(more, DecStrs(n - 1, Unread())) else Fail(err, Unread())
    {
      var name;
      err, name := ReadStr();
      DecStrsStep(n, old(Unread()), err, name, Unread());
      PrependStep(names, name, DecStrs(n - 1, Unread()));
      more := names + [name];
    }

    method ReadStrs(n: nat) returns (err: int, names: seq<seq<byte>>)
      requires offset <= size <= sdata.Length
      modifies this`offset
      ensures offset <= size && ReadAs(DecStrs(n, old(Unread())), err, names, Unread())
    {
      hide DecStr;
      err, names := 0, [];
      ghost var all := DecStrs(n, Unread());
      PrependNil(all);
      var i := 0;
      while i < n
        invariant 0 <= i <= n && offset <= size && err == 0
        invariant all == Prepend(names, DecStrs(n - i, Unread()))
      {
        err, names := ReadNext(n - i, names);
        if err != 0 {
          return;
        }
        i := i + 1;
      }
      assert names + [] == names;
    }

    method ReadQids(v: Version, n: nat) returns (err: int, items: seq<Arg>)
      requires offset <= size <= sdata.Length
      modifies this`offset
      ensures offset <= size && ReadAs(DecQids(n, old(Unread()), v), err, items, Unread())
      decreases 1, 1, n
    {
      hide Nested;
      err, items := 0, [];
      PrependNil(DecQids(n, Unread(), v));
      var i := 0;
      while i < n
        invariant 0 <= i <= n && offset <= size && err == 0
        invariant DecQids(n, old(Unread()), v) == Prepend(items, DecQids(n - i, Unread(), v))
      {
        var item;
        err, item := ReadOne(v, Qid);
        if err != 0 {
          return;
        }
        PrependStep(items, item, DecQids(n - i - 1, Unread(), v));
        items := items + [item];
        i := i + 1;
      }
      assert items + [] == items;
    }

    method ReadOne(v: Version, c: Letter) returns (err: int, a: Arg)
      requires offset <= size <= sdata.Length && c != Opt
      modifies this`offset
      ensures offset <= size && ReadAs(DecOne(c, old(Unread()), v), err, a, Unread())
      decreases Rank(c), 0, 0
    {
      hide Nested;
      match c
      case Int(w) =>
        var n;
        err, n := ReadInt(w);
        a := Num(n);
      case Text =>
        var t;
        err, t := ReadStr();
        a := Str(t);
      case Qid =>
        var fields;
        err, fields := ReadF(v, Nested(c));
        a := Rec(fields);
      case Stat =>
        var fields;
        err, fields := ReadF(v, Nested(c));
        a := Rec(StatFields(v, fields));
      case Data =>
        var n;
        err, n := ReadInt(4);
        var data := [];
        if err == 0 {
          data := sdata[offset..size][..Min(n, size - offset)];
        }
        a := Blob(data);
      case Names =>
        var n, names;
        err, n := ReadInt(2);
        names := [];
        if err == 0 {
          err, names := ReadStrs(n);
        }
        a := Strs(names);
      case Qids =>
        var n, items;
        err, n := ReadInt(2);
        items := [];
        if err == 0 {
          if n >= 0x8000 {
            err := ENOMEM;
          } else {
            err, items := ReadQids(v, n);
          }
        }
        a := Recs(items);
    }

    /** p9pdu_vreadf: what the reader returns and where it stops is what Dec says of the unread bytes. */
    method ReadF(v: Version, f: Format) returns (err: int, args: seq<Arg>)
      requires offset <= size <= sdata.Length
      modifies this`offset
      ensures offset <= size && ReadAs(Dec(f, old(Unread()), v), err, args, Unread())
      decreases FmtRank(f), 1, |f|
    {
      hide DecOne, Nested;
      err, args := 0, [];
      PrependNil(Dec(f, Unread(), v));
      var k := 0;
      assert f[0..] == f;
      while k < |f|
        invariant 0 <= k <= |f| && offset <= size && err == 0
        invariant Dec(f, old(Unread()), v) == Prepend(args, Dec(f[k..], Unread(), v))
      {
        assert f[k..][1..] == f[k + 1..];
        if f[k] == Opt {
          if v.Legacy? {
            assert args + [] == args;
            return;
          }
        } else {
          var a;
          err, a := ReadOne(v, f[k]);
          if err != 0 {
            return;
          }
          PrependStep(args, a, Dec(f[k + 1..], Unread(), v));
          args := args + [a];
        }
        k := k + 1;
      }
      assert args + [] == args;
    }

    // ---- header ----

    method Reset()
      modifies this`size, this`offset
      ensures size == 0 && offset == 0
    {
      size, offset := 0, 0;
    }

    /** p9pdu_prepare: a header with the size still zero. */
    method Prepare(newTag: int, kind: int) returns (err: int)
      requires size <= sdata.Length
      modifies this`size, this`id, sdata
      ensures id == kind
      ensures Wrote(old(sdata[..]), old(size), sdata[..], size, Header(0, kind, newTag), err)
    {
      id := kind;
      HeaderEnc(0, kind, newTag);
      err := WriteF(Legacy, HEADER_FMT, [Num(0), Num(kind), Num(newTag)]);
    }

    /** p9pdu_finalize: the final size goes over the first four bytes and nothing else moves. */
    method Finalize() returns (err: int)
      requires size <= sdata.Length
      modifies this`size, sdata
      ensures size == old(size)
      ensures err == if sdata.Length >= 4 then 0 else EFAULT
      ensures sdata[..] == Splice(old(sdata[..]), 0, LE(size, 4)[..Min(4, sdata.Length)])
    {
      var total := size;
      size := 0;
      err := WriteInt(total, 4);
      WroteMeans(old(sdata[..]), 0, sdata[..], size, LE(total, 4), err);
      size := total;
    }

    /**
     * The marshalling half of p9_client_prepare_req, on a buffer just reset.  Only the body's
     * result is looked at, so an empty body "fits" a buffer that is too short for the header.
     */
    method Marshal(v: Version, newTag: int, kind: int, f: Format, args: seq<Arg>) returns (err: int)
      requires Matches(f, args)
      modifies this`size, this`offset, this`id, sdata
      ensures offset == 0
      ensures err == if Min(7, sdata.Length) + |Enc(f, args, v)| <= sdata.Length then 0 else EFAULT
      ensures err == 0 ==> size == Min(7, sdata.Length) + |Enc(f, args, v)|
      ensures err == 0 ==> sdata[..size] == (Header(size, kind, newTag) + Enc(f, args, v))[..size]
    {
      Reset();
      ghost var b0 := sdata[..];
      var e := Prepare(newTag, kind);
      ghost var b1 := sdata[..];
      ghost var s1 := size;
      err := WriteF(v, f, args);
      Finished(b0, b1, s1, e, sdata[..], size, err, kind, newTag, Enc(f, args, v));
      if err == 0 {
        var _ := Finalize();
      }
    }

    /**
     * p9_parse_header: size, type and tag from the first seven bytes, optionally rewinding.  A size
     * of zero is taken for seven, which in a smaller buffer reads past its end.
     */
    method ParseHeader(rewind: bool) returns (overrun: bool, err: int, total: nat, kind: nat, newTag: nat)
      requires offset <= size <= sdata.Length
      modifies this`size, this`offset, this`id, this`tag
      ensures overrun <==> old(size) == 0 && sdata.Length < 7
      ensures !overrun ==> err == if old(size) == 0 || 7 <= old(size) then 0 else EFAULT
      ensures !overrun && err == 0 ==>
                && total == UnLE(sdata[..4]) && kind == UnLE(sdata[4..5]) && newTag == UnLE(sdata[5..7])
                && size == total && id == kind && tag == newTag
      ensures overrun || err != 0 ==> size == old(size) && id == old(id) && tag == old(tag)
      ensures !overrun ==> offset == if rewind then old(offset) else if err == 0 then 7 else old(size)
    {
      overrun, err, total, kind, newTag := size == 0 && sdata.Length < 7, 0, 0, 0, 0;
      if !overrun {
        err, total, kind, newTag := ReadHeader(rewind);
      }
    }

    method ReadHeader(rewind: bool) returns (err: int, total: nat, kind: nat, newTag: nat)
      requires offset <= size <= sdata.Length && (size == 0 ==> 7 <= sdata.Length)
      modifies this`size, this`offset, this`id, this`tag
      ensures err == if old(size) == 0 || 7 <= old(size) then 0 else EFAULT
      ensures err == 0 ==>
                && total == UnLE(sdata[..4]) && kind == UnLE(sdata[4..5]) && newTag == UnLE(sdata[5..7])
                && size == total && id == kind && tag == newTag
      ensures err != 0 ==> size == old(size) && id == old(id) && tag == old(tag)
      ensures offset == if rewind then old(offset) else if err == 0 then 7 else old(size)
    {
      var start := offset;
      offset := 0;
      if size == 0 {
        size := 7;
      }
      ghost var b := Unread();
      HeaderDec(b);
      HeaderBytes(sdata[..], size);
      var args;
      err, args := ReadF(Legacy, HEADER_FMT);
      assert |Unread()| == size - offset;
      total, kind, newTag := 0, 0, 0;
      if err == 0 {
        total, kind, newTag := args[0].n, args[1].n, args[2].n;
        size, id, tag := total, kind, newTag;
      }
      if rewind {
        offset := start;
      }
    }
  }

  const HEADER_FMT: Format := [Int(4), Int(1), Int(2)]

  function Header(size: int, kind: int, newTag: int): (h: seq<byte>)
    ensures |h| == 7
  {
    LE(size, 4) + LE(kind, 1) + LE(newTag, 2)
  }

  lemma {:induction false} HeaderEnc(size: int, kind: int, newTag: int)
    ensures Matches(HEADER_FMT, [Num(size), Num(kind), Num(newTag)])
    ensures Enc(HEADER_FMT, [Num(size), Num(kind), Num(newTag)], Legacy) == Header(size, kind, newTag)
  {
    var f, args := HEADER_FMT, [Num(size), Num(kind), Num(newTag)];
    var f1, args1 := f[1..], args[1..];
    var f2, args2 := f1[1..], args1[1..];
    assert f2[1..] == [] && args2[1..] == [];
    assert Matches(f2[1..], args2[1..]) && Matches(f2, args2) && Matches(f1, args1);
    assert Enc(f2, args2, Legacy) == LE(newTag, 2) + [] == LE(newTag, 2);
    assert Enc(f1, args1, Legacy) == LE(kind, 1) + LE(newTag, 2);
    assert Enc(f, args, Legacy) == LE(size, 4) + (LE(kind, 1) + LE(newTag, 2));
  }

  /** Header with size 0, body, then the size written over it: the finished frame. */
  lemma {:induction false} Framed(b0: seq<byte>, b1: seq<byte>, b2: seq<byte>, size: nat, kind: int, newTag: int,
                                  body: seq<byte>)
    requires 7 <= |b0| && Wrote(b0, 0, b1, 7, Header(0, kind, newTag), 0)
    requires Wrote(b1, 7, b2, size, body, 0)
    ensures Splice(b2, 0, LE(size, 4))[..size] == Header(size, kind, newTag) + body
  {
    var z4, l4, who := LE(0, 4), LE(size, 4), LE(kind, 1) + LE(newTag, 2);
    assert Header(0, kind, newTag) == z4 + who && Header(size, kind, newTag) == l4 + who;
    TwoPieces(b0, b1, b2, z4 + who, body, size);
    Overwrite(l4, z4, who + body, b0[size..]);
    assert b2 == z4 + (who + body) + b0[size..];
  }

  /** With no room for the header, as much of it as fits. */
  lemma {:induction false} ShortFramed(n: nat, kind: int, newTag: int)
    requires n < 7
    ensures Splice(Header(0, kind, newTag)[..n], 0, LE(n, 4)[..Min(4, n)]) == Header(n, kind, newTag)[..n]
  {
    hide LE;
    var z, l, who := LE(0, 4), LE(n, 4), LE(kind, 1) + LE(newTag, 2);
    assert Header(0, kind, newTag) == z + who && Header(n, kind, newTag) == l + who;
    if n < 4 {
      assert (l + who)[..n] == l[..n];
    } else {
      assert (z + who)[..n] == z + who[..n - 4] && (l + who)[..n] == l + who[..n - 4] && l[..4] == l;
    }
  }

  /** Header and body written one after the other; the header's own error e is not looked at. */
  lemma {:induction false} Finished(b0: seq<byte>, b1: seq<byte>, s1: nat, e: int, b2: seq<byte>, size: nat, err: int,
                                    kind: int, newTag: int, body: seq<byte>)
    requires Wrote(b0, 0, b1, s1, Header(0, kind, newTag), e) && Wrote(b1, s1, b2, size, body, err)
    ensures |b2| == |b0| && err == if Min(7, |b0|) + |body| <= |b0| then 0 else EFAULT
    ensures err == 0 ==>
              && size == Min(7, |b0|) + |body| <= |b0|
              && Splice(b2, 0, LE(size, 4)[..Min(4, |b0|)])[..size] == (Header(size, kind, newTag) + body)[..size]
  {
    hide LE;
    WroteMeans(b0, 0, b1, s1, Header(0, kind, newTag), e);
    WroteMeans(b1, s1, b2, size, body, err);
    if err == 0 {
      var all := Header(size, kind, newTag) + body;
      if 7 <= |b0| {
        hide Splice, Header;
        Framed(b0, b1, b2, size, kind, newTag, body);
        assert LE(size, 4)[..4] == LE(size, 4) && all[..size] == all;
      } else {
        assert Splice(b1, s1, []) == b1;
        hide Splice, Header;
        ShortFramed(|b0|, kind, newTag);
        assert all == Header(size, kind, newTag);
        Whole(Splice(b2, 0, LE(size, 4)[..Min(4, |b0|)]), size);
      }
    }
  }

  lemma Whole(b: seq<byte>, n: nat)
    requires n == |b|
    ensures b[..n] == b
  {
  }

  lemma {:induction false} TwoPieces(b0: seq<byte>, b1: seq<byte>, b2: seq<byte>, e1: seq<byte>, e2: seq<byte>, s2: nat)
    requires |e1| <= |b0| && Wrote(b0, 0, b1, |e1|, e1, 0) && Wrote(b1, |e1|, b2, s2, e2, 0)
    ensures s2 == |e1| + |e2| && b2 == e1 + e2 + b0[s2..]
  {
    WroteThen(b0, 0, b1, |e1|, e1, b2, s2, e2, 0);
    var e := e1 + e2;
    WroteMeans(b0, 0, b2, s2, e, 0);
    assert e[..s2] == e;
  }

  lemma Overwrite(fresh4: seq<byte>, old4: seq<byte>, mid: seq<byte>, rest: seq<byte>)
    requires |fresh4| == |old4|
    ensures Splice(old4 + mid + rest, 0, fresh4) == fresh4 + mid + rest
  {
  }

  lemma HeaderBytes(b: seq<byte>, n: nat)
    requires n <= |b|
    ensures 7 <= n ==> b[0..n][..4] == b[..4] && b[0..n][4..5] == b[4..5] && b[0..n][5..7] == b[5..7]
  {
  }

  lemma {:induction false} HeaderDec(b: seq<byte>)
    ensures Dec(HEADER_FMT, b, Legacy)
         == if |b| < 7 then Fail(EFAULT, [])
            else Got([Num(UnLE(b[..4])), Num(UnLE(b[4..5])), Num(UnLE(b[5..7]))], b[7..])
  {
    var f := HEADER_FMT;
    var f1 := f[1..];
    var f2 := f1[1..];
    assert f2[1..] == [];
    if 4 <= |b| {
      var b1 := b[4..];
      if 5 <= |b| {
        var b2 := b1[1..];
        assert b1[..1] == b[4..5];
        if 7 <= |b| {
          assert b2[..2] == b[5..7] && b2[2..] == b[7..];
          var n0, n1, n2 := Num(UnLE(b[..4])), Num(UnLE(b[4..5])), Num(UnLE(b[5..7]));
          assert Dec(f2, b2, Legacy) == Got([n2] + [], b[7..]);
          assert Dec(f1, b1, Legacy) == Got([n1] + ([n2] + []), b[7..]);
          assert [n0] + ([n1] + ([n2] + [])) == [n0, n1, n2];
        } else {
          assert Dec(f2, b2, Legacy) == Fail(EFAULT, []);
          assert Dec(f1, b1, Legacy) == Fail(EFAULT, []);
        }
      } else {
        assert Dec(f1, b1, Legacy) == Fail(EFAULT, []);
      }
    }
  }

  lemma {:induction false} EncStrsStep(names: seq<seq<byte>>, i: nat) returns (one: seq<byte>, more: seq<byte>)
    requires i < |names|
    ensures one == EncStr(names[i]) && more == EncStrs(names[i + 1..])
    ensures EncStrs(names[i..]) == one + more
  {
    assert names[i..][1..] == names[i + 1..];
    one, more := EncStr(names[i]), EncStrs(names[i + 1..]);
  }

  lemma {:induction false} EncOpt(f: Format, args: seq<Arg>, v: Version, k: nat, j: nat)
    requires k < |f| && j <= |args| && f[k] == Opt && Matches(f[k..], args[j..])
    ensures Matches(f[k + 1..], args[j..])
    ensures Enc(f[k..], args[j..], v) == if v.Legacy? then [] else Enc(f[k + 1..], args[j..], v)
  {
    assert f[k..][1..] == f[k + 1..];
  }

  lemma {:induction false} EncStep(f: Format, args: seq<Arg>, v: Version, k: nat, j: nat)
    returns (one: seq<byte>, more: seq<byte>)
    requires k < |f| && j <= |args| && f[k] != Opt && Matches(f[k..], args[j..])
    ensures j < |args| && Fits(f[k], args[j]) && Matches(f[k + 1..], args[j + 1..])
    ensures one == EncOne(f[k], args[j], v) && more == Enc(f[k + 1..], args[j + 1..], v)
    ensures Enc(f[k..], args[j..], v) == one + more
  {
    assert f[k..][1..] == f[k + 1..] && args[j..][1..] == args[j + 1..];
    one, more := EncOne(f[k], args[j], v), Enc(f[k + 1..], args[j + 1..], v);
  }

  /**
   * A finished message read back: the header gives the total size, the type and the tag,
   * and the format gives the values.
   */
  lemma {:induction false} MessageRoundTrip(v: Version, kind: int, newTag: int, f: Format, args: seq<Arg>)
    requires Matches(f, args) && DLast(f) && 7 + |Enc(f, args, v)| < 0x1_0000_0000
    ensures var size := 7 + |Enc(f, args, v)|;
            var m := Header(size, kind, newTag) + Enc(f, args, v);
            && |m| == size && UnLE(m[..4]) == size
            && UnLE(m[4..5]) == kind % 0x100 && UnLE(m[5..7]) == newTag % 0x1_0000
            && Dec(f, m[7..], v).Got? && Dec(f, m[7..], v).value == Norm(f, args, v)
  {
    var body := Enc(f, args, v);
    HeaderRoundTrip(7 + |body|, kind, newTag, body);
    assert body + [] == body;
    RoundTrip(f, args, v, []);
  }

  lemma HeaderRoundTrip(size: nat, kind: int, newTag: int, body: seq<byte>)
    requires size < 0x1_0000_0000
    ensures var m := Header(size, kind, newTag) + body;
            && UnLE(m[..4]) == size && UnLE(m[4..5]) == kind % 0x100 && UnLE(m[5..7]) == newTag % 0x1_0000
            && m[7..] == body
  {
    var l4, l1, l2 := LE(size, 4), LE(kind, 1), LE(newTag, 2);
    var m := l4 + l1 + l2 + body;
    assert m[..4] == l4 && m[4..5] == l1 && m[5..7] == l2;
    LERoundTrip(size, 4);
    LERoundTrip(kind, 1);
    LERoundTrip(newTag, 2);
    PowValues();
    ModUnique(size, 0x1_0000_0000, 0, size);
  }
}
