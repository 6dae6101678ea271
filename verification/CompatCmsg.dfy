/**
 * Control messages of a 32-bit process (struct compat_cmsghdr, 4-byte alignment) laid out
 * anew by the 64-bit rules (struct cmsghdr, 8-byte alignment): one pass measures, a second
 * one copies.  mem is the user memory from msg_control on, as far as it can be read;
 * integers are little endian.
 */
module CompatCmsg {
  import opened Bytes

  const EFAULT := -14
  const EINVAL := -22
  const ENOBUFS := -105
  const HDR32 := 12
  const HDR64 := 16

  datatype Result<T> = Ok(value: T) | Err(code: int)

  datatype Msg = Msg(level: nat, kind: nat, data: seq<byte>)

  /** The smallest multiple of a that is not below n. */
  function Align(n: nat, a: nat): (r: nat)
    requires a > 0
    ensures n <= r < n + a
    decreases n
  {
    if n == 0 then 0 else if n <= a then a else a + Align(n - a, a)
  }

  /** ALIGN of the source rounds up by division. */
  lemma {:induction false} AlignDivides(n: nat, a: nat)
    requires a == 4 || a == 8
    ensures Align(n, a) == (n + a - 1) / a * a
    decreases n
  {
    if n > a {
      AlignDivides(n - a, a);
    }
  }

  function Align4(n: nat): nat {
    Align(n, 4)
  }

  function Align8(n: nat): nat {
    Align(n, 8)
  }

  // ---- the 32-bit rules ----

  /** The little-endian number in n bytes from pos on. */
  function Word(mem: seq<byte>, pos: nat, n: nat): nat
    requires pos + n <= |mem|
    decreases n, mem
  {
    if n == 0 then 0 else mem[pos] + 256 * Word(mem, pos + 1, n - 1)
  }

  function GetUser32(mem: seq<byte>, pos: nat): Result<nat> {
    if pos + 4 <= |mem| then Ok(Word(mem, pos, 4)) else Err(EFAULT)
  }

  /** The length field at pos, when CMSG_COMPAT_OK accepts it. */
  function Length32(mem: seq<byte>, len: nat, pos: nat): (r: Result<nat>)
    ensures r.Ok? ==> HDR32 <= r.value && pos + r.value <= len
    ensures r.Err? ==> r.code == EFAULT || r.code == EINVAL
  {
    match GetUser32(mem, pos)
    case Err(e) => Err(e)
    case Ok(n) => if HDR32 <= n && pos + n <= len then Ok(n) else Err(EINVAL)
  }

  /** cmsg_compat_nxthdr: there is a next header as soon as one byte is left. */
  predicate Last32(len: nat, pos: nat, n: nat) {
    pos + Align4(n) + 1 > len
  }

  /** Level, type and payload of the message of length n at pos. */
  function Fetch32(mem: seq<byte>, pos: nat, n: nat): Result<Msg>
    requires HDR32 <= n
  {
    if pos + n <= |mem| then
      Ok(Msg(Word(mem, pos + 4, 4), Word(mem, pos + 8, 4), mem[pos + 12..pos + n]))
    else Err(EFAULT)
  }

  /** The messages of a control buffer of length len, from pos on. */
  function Walk32(mem: seq<byte>, len: nat, pos: nat): Result<seq<Msg>>
    requires pos < len
    decreases len - pos
  {
    match Length32(mem, len, pos)
    case Err(e) => Err(e)
    case Ok(n) =>
      match Fetch32(mem, pos, n)
      case Err(e) => Err(e)
      case Ok(m) =>
        if Last32(len, pos, n) then Ok([m])
        else
          match Walk32(mem, len, pos + Align4(n))
          case Err(e) => Err(e)
          case Ok(ms) => Ok([m] + ms)
  }

  // ---- the 64-bit rules ----

  function Size64(m: Msg): nat {
    Align8(HDR64 + |m.data|)
  }

  function Zeros(n: nat): (z: seq<byte>)
    ensures |z| == n && forall i :: 0 <= i < n ==> z[i] == 0
  {
    seq(n, _ => 0)
  }

  /** The parts of a 64-bit entry: length, level, type, payload, padding. */
  function Part(m: Msg, i: nat): seq<byte> {
    match i
    case 0 => LE(HDR64 + |m.data|, 8)
    case 1 => LE(m.level, 4)
    case 2 => LE(m.kind, 4)
    case 3 => m.data
    case _ => Zeros(Size64(m) - HDR64 - |m.data|)
  }

  /** The fields of an entry from the i-th on: length, level, type, payload, padding. */
  function PartsFrom(m: Msg, i: nat): seq<byte>
    requires i <= 5
    decreases 5 - i, m
  {
    if i == 5 then [] else Part(m, i) + PartsFrom(m, i + 1)
  }

  function Entry64(m: Msg): (b: seq<byte>)
    ensures |b| == Size64(m)
  {
    EntryBytes(m);
    PartsFrom(m, 0)
  }

  lemma {:induction false} EntryBytes(m: Msg)
    ensures PartsFrom(m, 0)
         == LE(HDR64 + |m.data|, 8) + LE(m.level, 4) + LE(m.kind, 4) + m.data + Zeros(Size64(m) - HDR64 - |m.data|)
  {
    var a, b, c, d, z := Part(m, 0), Part(m, 1), Part(m, 2), Part(m, 3), Part(m, 4);
    assert PartsFrom(m, 5) == [] && z + [] == z;
    assert PartsFrom(m, 3) == d + z by {
      assert PartsFrom(m, 4) == z;
    }
    assert PartsFrom(m, 1) == b + (c + (d + z)) by {
      assert PartsFrom(m, 2) == c + (d + z);
    }
    assert a + (b + (c + (d + z))) == a + b + c + d + z;
  }

  function Layout64(ms: seq<Msg>): seq<byte> {
    if ms == [] then [] else Entry64(ms[0]) + Layout64(ms[1..])
  }

  /** CMSG_OK and CMSG_NXTHDR on a kernel buffer. */
  function Walk64(buf: seq<byte>, pos: nat): Result<seq<Msg>>
    decreases |buf| - pos
  {
    if pos + HDR64 > |buf| then Err(EINVAL)
    else
      var n := Word(buf, pos, 8);
      if n < HDR64 || pos + n > |buf| then Err(EINVAL)
      else
        var m := Msg(Word(buf, pos + 8, 4), Word(buf, pos + 12, 4), buf[pos + 16..pos + n]);
        if pos + Align8(n) + 1 > |buf| then Ok([m])
        else
          match Walk64(buf, pos + Align8(n))
          case Err(e) => Err(e)
          case Ok(ms) => Ok([m] + ms)
  }

  predicate Fits(m: Msg) {
    m.level < 0x1_0000_0000 && m.kind < 0x1_0000_0000 && HDR64 + |m.data| < 0x1_0000_0000_0000_0000
  }

  lemma LEExact(v: nat, n: nat)
    requires (n == 4 && v < 0x1_0000_0000) || (n == 8 && v < 0x1_0000_0000_0000_0000)
    ensures UnLE(LE(v, n)) == v
  {
    LERoundTrip(v, n);
    PowValues();
    ModUnique(v, Pow256(n), 0, v);
  }

  lemma {:induction false} WordIs(mem: seq<byte>, pos: nat, n: nat)
    requires pos + n <= |mem|
    ensures Word(mem, pos, n) == UnLE(mem[pos..pos + n])
    decreases n
  {
    if n != 0 {
      WordIs(mem, pos + 1, n - 1);
      assert mem[pos..pos + n][1..] == mem[pos + 1..pos + n];
    }
  }

  lemma WordExact(mem: seq<byte>, pos: nat, v: nat, n: nat)
    requires (n == 4 && v < 0x1_0000_0000) || (n == 8 && v < 0x1_0000_0000_0000_0000)
    requires pos + n <= |mem| && mem[pos..pos + n] == LE(v, n)
    ensures Word(mem, pos, n) == v
  {
    WordIs(mem, pos, n);
    LEExact(v, n);
  }

  lemma {:induction false} EntryParts(m: Msg)
    ensures var e := Entry64(m);
            && e[0..8] == LE(HDR64 + |m.data|, 8) && e[8..12] == LE(m.level, 4) && e[12..16] == LE(m.kind, 4)
            && e[16..16 + |m.data|] == m.data
  {
    hide Align, LE, PartsFrom, Zeros;
    EntryBytes(m);
    var n := HDR64 + |m.data|;
    FiveParts(LE(n, 8), LE(m.level, 4), LE(m.kind, 4), m.data, Zeros(Size64(m) - n));
  }

  /** The fields of one entry, wherever it stands. */
  lemma {:induction false} EntryFields(buf: seq<byte>, p: nat, m: Msg)
    requires Fits(m) && p + Size64(m) <= |buf| && buf[p..p + Size64(m)] == Entry64(m)
    ensures Word(buf, p, 8) == HDR64 + |m.data|
    ensures Word(buf, p + 8, 4) == m.level && Word(buf, p + 12, 4) == m.kind
    ensures buf[p + 16..p + 16 + |m.data|] == m.data
  {
    hide Word, Align, LE, Entry64;
    var n, k := HDR64 + |m.data|, Size64(m);
    EntryParts(m);
    FieldAt(buf, p, k, 0, n, 8);
    FieldAt(buf, p, k, 8, m.level, 4);
    FieldAt(buf, p, k, 12, m.kind, 4);
    Slices(buf, p, k, 16, n);
  }

  lemma {:induction false} FieldAt(buf: seq<byte>, p: nat, k: nat, i: nat, v: nat, n: nat)
    requires (n == 4 && v < 0x1_0000_0000) || (n == 8 && v < 0x1_0000_0000_0000_0000)
    requires p + k <= |buf| && i + n <= k && buf[p..p + k][i..i + n] == LE(v, n)
    ensures Word(buf, p + i, n) == v
  {
    hide Word, LE;
    Slices(buf, p, k, i, i + n);
    WordExact(buf, p + i, v, n);
  }

  lemma FiveParts(a: seq<byte>, b: seq<byte>, c: seq<byte>, d: seq<byte>, z: seq<byte>)
    requires |a| == 8 && |b| == 4 && |c| == 4
    ensures var e := a + b + c + d + z;
            e[0..8] == a && e[8..12] == b && e[12..16] == c && e[16..16 + |d|] == d
  {
  }

  function Cons(m: Msg, r: Result<seq<Msg>>): Result<seq<Msg>> {
    match r
    case Err(e) => Err(e)
    case Ok(ms) => Ok([m] + ms)
  }

  lemma {:induction false} WalkOne(buf: seq<byte>, p: nat, m: Msg)
    requires Fits(m) && p + Size64(m) <= |buf| && buf[p..p + Size64(m)] == Entry64(m)
    ensures p + Size64(m) == |buf| ==> Walk64(buf, p) == Ok([m])
    ensures p + Size64(m) < |buf| ==> Walk64(buf, p) == Cons(m, Walk64(buf, p + Size64(m)))
  {
    EntryFields(buf, p, m);
  }

  /** Walking a 64-bit layout gives back the messages. */
  lemma {:induction false} LayoutWalk(buf: seq<byte>, p: nat, ms: seq<Msg>)
    requires ms != [] && forall i :: 0 <= i < |ms| ==> Fits(ms[i])
    requires p <= |buf| && buf[p..] == Layout64(ms)
    ensures Walk64(buf, p) == Ok(ms)
    decreases |ms|
  {
    hide Word, PartsFrom, Align;
    var m, rest := ms[0], ms[1..];
    LayoutSplit(buf, p, ms);
    WalkOne(buf, p, m);
    if rest == [] {
      assert ms == [m];
    } else {
      LayoutWalk(buf, p + Size64(m), rest);
      assert ms == [m] + rest;
    }
  }

  lemma {:induction false} LayoutSplit(buf: seq<byte>, p: nat, ms: seq<Msg>)
    requires ms != [] && p <= |buf| && buf[p..] == Layout64(ms)
    ensures p + Size64(ms[0]) <= |buf| && buf[p..p + Size64(ms[0])] == Entry64(ms[0])
    ensures buf[p + Size64(ms[0])..] == Layout64(ms[1..])
    ensures ms[1..] == [] <==> p + Size64(ms[0]) == |buf|
  {
    var k, e, l := Size64(ms[0]), Entry64(ms[0]), Layout64(ms[1..]);
    assert buf[p..] == e + l;
    assert buf[p..p + k] == buf[p..][..k] && buf[p + k..] == buf[p..][k..];
    if ms[1..] != [] {
      assert |l| >= |Entry64(ms[1..][0])| > 0;
    }
  }

  lemma {:induction false} LayoutLength(m: Msg, ms: seq<Msg>)
    ensures |Layout64([m])| == Size64(m) && |Layout64([m] + ms)| == Size64(m) + |Layout64(ms)|
  {
    assert [m][1..] == [] && ([m] + ms)[1..] == ms;
  }

  // ---- the two passes ----

  /** The measuring pass from pos on: the 64-bit length of the messages. */
  function Sizes(mem: seq<byte>, len: nat, pos: nat): (r: Result<nat>)
    requires pos < len
    ensures r.Err? ==> r.code == EFAULT || r.code == EINVAL
    decreases len - pos
  {
    match Length32(mem, len, pos)
    case Err(e) => Err(e)
    case Ok(n) =>
      var size := Align8(n - HDR32 + HDR64);
      if Last32(len, pos, n) then Ok(size)
      else
        match Sizes(mem, len, pos + Align4(n))
        case Err(e) => Err(e)
        case Ok(k) => Ok(size + k)
  }

  /** The copying pass from pos on, with room bytes left in the destination. */
  function Copy(mem: seq<byte>, len: nat, pos: nat, room: nat): (r: Result<seq<Msg>>)
    requires pos < len
    ensures r.Err? ==> r.code == EFAULT || r.code == EINVAL
    decreases len - pos
  {
    match Length32(mem, len, pos)
    case Err(e) => Err(e)
    case Ok(n) =>
      var size := Align8(n - HDR32 + HDR64);
      if room < size then Err(EINVAL)
      else
        match Fetch32(mem, pos, n)
        case Err(e) => Err(e)
        case Ok(m) =>
          if Last32(len, pos, n) then Ok([m])
          else
            match Copy(mem, len, pos + Align4(n), room - size)
            case Err(e) => Err(e)
            case Ok(ms) => Ok([m] + ms)
  }

  /** What is copied is the list of messages of the memory it was copied from, and it fits. */
  lemma {:induction false} CopyIsWalk(mem: seq<byte>, len: nat, pos: nat, room: nat)
    requires pos < len
    ensures Copy(mem, len, pos, room).Ok? ==>
              var ms := Copy(mem, len, pos, room).value;
              && Walk32(mem, len, pos) == Ok(ms) && ms != []
              && |Layout64(ms)| <= room
              && (len < 0x1_0000_0000 ==> forall i :: 0 <= i < |ms| ==> Fits(ms[i]))
    decreases len - pos
  {
    hide PartsFrom, Align;
    if Copy(mem, len, pos, room).Ok? {
      var n := Length32(mem, len, pos).value;
      var m := Fetch32(mem, pos, n).value;
      Word32(mem, pos + 4);
      Word32(mem, pos + 8);
      LayoutLength(m, []);
      if !Last32(len, pos, n) {
        var next, left := pos + Align4(n), room - Align8(n - HDR32 + HDR64);
        CopyIsWalk(mem, len, next, left);
        LayoutLength(m, Copy(mem, len, next, left).value);
      }
    }
  }

  lemma Word32(mem: seq<byte>, pos: nat)
    requires pos + 4 <= |mem|
    ensures Word(mem, pos, 4) < 0x1_0000_0000
  {
    assert Word(mem, pos + 4, 0) == 0;
    assert Word(mem, pos + 2, 2) == mem[pos + 2] + 256 * Word(mem, pos + 3, 1);
  }

  /**
   * With memory that does not change between the passes, the second pass never runs out of
   * room and ends exactly at the measured length; it can fail only by a fault.
   */
  lemma {:induction false} SecondPassFits(mem: seq<byte>, len: nat, pos: nat, room: nat)
    requires pos < len && Sizes(mem, len, pos).Ok? && Sizes(mem, len, pos).value <= room
    ensures Fitting(Copy(mem, len, pos, room), Sizes(mem, len, pos).value)
    decreases len - pos
  {
    hide Word, Align, Entry64, Layout64;
    var n := Length32(mem, len, pos).value;
    if Fetch32(mem, pos, n).Ok? {
      var m, size, next := Fetch32(mem, pos, n).value, Align8(n - HDR32 + HDR64), pos + Align4(n);
      if Last32(len, pos, n) {
        LayoutLength(m, []);
      } else {
        SecondPassFits(mem, len, next, room - size);
        CopyRest(mem, len, pos, room, n, m, room - size);
        FittingCons(m, Copy(mem, len, next, room - size), Sizes(mem, len, next).value);
      }
    }
  }

  /** A copy of k bytes, or a fault. */
  predicate Fitting(r: Result<seq<Msg>>, k: nat) {
    if r.Ok? then |Layout64(r.value)| == k else r.code == EFAULT
  }

  lemma {:induction false} FittingCons(m: Msg, r: Result<seq<Msg>>, k: nat)
    requires Fitting(r, k)
    ensures Fitting(Prepend([m], r), Size64(m) + k)
  {
    if r.Ok? {
      LayoutLength(m, r.value);
    }
  }

  lemma {:induction false} CopyRest(mem: seq<byte>, len: nat, pos: nat, room: nat, n: nat, m: Msg, left: nat)
    requires pos < len && Length32(mem, len, pos) == Ok(n) && Fetch32(mem, pos, n) == Ok(m) && !Last32(len, pos, n)
    requires room == Align8(n - HDR32 + HDR64) + left
    ensures Copy(mem, len, pos, room) == Prepend([m], Copy(mem, len, pos + Align4(n), left))
  {
  }

  /** All of the user memory readable: what the measuring pass accepts is converted. */
  lemma {:induction false} MeasuredIsConverted(mem: seq<byte>, len: nat)
    requires HDR32 <= len <= |mem| && Sizes(mem, len, 0).Ok?
    ensures var r := Copy(mem, len, 0, Sizes(mem, len, 0).value);
            r.Ok? && Walk32(mem, len, 0) == r && |Layout64(r.value)| == Sizes(mem, len, 0).value
    ensures len < 0x1_0000_0000 ==>
              Walk64(Layout64(Walk32(mem, len, 0).value), 0) == Walk32(mem, len, 0)
  {
    var room := Sizes(mem, len, 0).value;
    SecondPassFits(mem, len, 0, room);
    NoFault(mem, len, 0, room);
    CopyIsWalk(mem, len, 0, room);
    if len < 0x1_0000_0000 {
      var ms := Copy(mem, len, 0, room).value;
      LayoutWalk(Layout64(ms), 0, ms);
    }
  }

  lemma {:induction false} NoFault(mem: seq<byte>, len: nat, pos: nat, room: nat)
    requires pos < len <= |mem| && Sizes(mem, len, pos).Ok?
    ensures Copy(mem, len, pos, room) != Err(EFAULT)
    decreases len - pos
  {
    var n := Length32(mem, len, pos).value;
    var size := Align8(n - HDR32 + HDR64);
    if !Last32(len, pos, n) && size <= room {
      NoFault(mem, len, pos + Align4(n), room - size);
    }
  }

  // ---- the code ----

  lemma {:induction false} LayoutAppend(ms: seq<Msg>, m: Msg)
    ensures Layout64(ms + [m]) == Layout64(ms) + Entry64(m)
  {
    if ms == [] {
      assert (ms + [m])[1..] == [];
    } else {
      LayoutAppend(ms[1..], m);
      assert (ms + [m])[1..] == ms[1..] + [m];
      AppendAssoc(Entry64(ms[0]), Layout64(ms[1..]), Entry64(m));
    }
  }

  function AddAll(k: nat, r: Result<nat>): Result<nat> {
    match r
    case Err(e) => Err(e)
    case Ok(n) => Ok(k + n)
  }

  lemma {:induction false} SizesStep(mem: seq<byte>, len: nat, pos: nat, k: nat)
    requires pos < len && Length32(mem, len, pos).Ok?
    ensures var n := Length32(mem, len, pos).value;
            var k' := k + Align8(n - HDR32 + HDR64);
            AddAll(k, Sizes(mem, len, pos)) ==
              if Last32(len, pos, n) then Ok(k') else AddAll(k', Sizes(mem, len, pos + Align4(n)))
  {
  }

  function Prepend(done: seq<Msg>, r: Result<seq<Msg>>): Result<seq<Msg>> {
    match r
    case Err(e) => Err(e)
    case Ok(ms) => Ok(done + ms)
  }

  /** The first loop of cmsghdr_from_user_compat_to_kern and the test after it. */
  method Measure(mem: seq<byte>, len: nat) returns (err: int, kcmlen: nat)
    ensures len < HDR32 ==> err == EINVAL
    ensures HDR32 <= len ==> match Sizes(mem, len, 0)
                             case Err(e) => err == e
                             case Ok(k) => err == 0 && kcmlen == k
    ensures err == 0 ==> HDR32 <= len && 0 < kcmlen
  {
    kcmlen := 0;
    if len >= HDR32 {
      var pos, more := 0, true;
      while more
        invariant more ==> pos < len && Sizes(mem, len, 0) == AddAll(kcmlen, Sizes(mem, len, pos))
        invariant !more ==> Sizes(mem, len, 0) == Ok(kcmlen) && 0 < kcmlen
        decreases more, len - pos
      {
        var r := Length32(mem, len, pos);
        if r.Err? {
          return r.code, 0;
        }
        var ucmlen := r.value;
        SizesStep(mem, len, pos, kcmlen);
        kcmlen := kcmlen + Align8(ucmlen - HDR32 + HDR64);
        if Last32(len, pos, ucmlen) {
          more := false;
        } else {
          pos := pos + Align4(ucmlen);
        }
      }
    }
    if kcmlen == 0 {
      return EINVAL, 0;
    }
    return 0, kcmlen;
  }

  /** The fields and the payload of one message, written over zeros. */
  method PutEntry(buf: array<byte>, pos: nat, m: Msg, ghost pre: seq<byte>)
    requires |pre| == pos && pos + Size64(m) <= buf.Length
    requires buf[..] == pre + Zeros(buf.Length - pos)
    modifies buf
    ensures buf[..] == pre + Entry64(m) + Zeros(buf.Length - pos - Size64(m))
  {
    hide Align, LE, Splice, Entry64, Zeros;
    var n := HDR64 + |m.data|;
    EntryWritten(pre, m, buf.Length);
    Bytes.Copy(buf, pos, LE(n, 8));
    Bytes.Copy(buf, pos + 8, LE(m.level, 4));
    Bytes.Copy(buf, pos + 12, LE(m.kind, 4));
    Bytes.Copy(buf, pos + 16, m.data);
  }

  /** The four writes of one message give its entry. */
  lemma {:induction false} EntryWritten(pre: seq<byte>, m: Msg, len: nat)
    requires |pre| + Size64(m) <= len
    ensures var b0, p := pre + Zeros(len - |pre|), |pre|;
            var b1 := Splice(b0, p, LE(HDR64 + |m.data|, 8));
            var b2 := Splice(b1, p + 8, LE(m.level, 4));
            var b3 := Splice(b2, p + 12, LE(m.kind, 4));
            Splice(b3, p + 16, m.data) == pre + Entry64(m) + Zeros(len - |pre| - Size64(m))
  {
    hide Align, LE, PartsFrom, Splice;
    var b, p, n := pre + Zeros(len - |pre|), |pre|, HDR64 + |m.data|;
    FourPieces(b, p, LE(n, 8), LE(m.level, 4), LE(m.kind, 4), m.data);
    EntryBytes(m);
    Written(pre, LE(n, 8) + LE(m.level, 4) + LE(m.kind, 4) + m.data, Size64(m), len);
  }

  lemma {:induction false} FourPieces(b: seq<byte>, pos: nat, w: seq<byte>, x: seq<byte>, y: seq<byte>, z: seq<byte>)
    requires |w| == 8 && |x| == 4 && |y| == 4 && pos + 16 + |z| <= |b|
    ensures Splice(Splice(Splice(Splice(b, pos, w), pos + 8, x), pos + 12, y), pos + 16, z)
         == Splice(b, pos, w + x + y + z)
  {
    SpliceSplice(b, pos, w, x);
    SpliceSplice(b, pos, w + x, y);
    SpliceSplice(b, pos, w + x + y, z);
  }

  lemma Written(pre: seq<byte>, data: seq<byte>, size: nat, len: nat)
    requires |data| <= size && |pre| + size <= len
    ensures Splice(pre + Zeros(len - |pre|), |pre|, data)
         == pre + (data + Zeros(size - |data|)) + Zeros(len - |pre| - size)
  {
  }

  /**
   * The second loop, into a zeroed buffer, whatever user memory holds by now: it stays inside
   * the buffer and fails or succeeds as Copy says.
   */
  method CopyAll(mem: seq<byte>, len: nat, buf: array<byte>) returns (err: int)
    requires HDR32 <= len && buf[..] == Zeros(buf.Length)
    modifies buf
    ensures match Copy(mem, len, 0, buf.Length)
            case Err(e) => err == e
            case Ok(ms) => err == 0 && |Layout64(ms)| <= buf.Length
                           && buf[..] == Layout64(ms) + Zeros(buf.Length - |Layout64(ms)|)
  {
    hide Word, Align, Entry64, Length32, Fetch32, Copy;
    var pos, k, more := 0, 0, true;
    ghost var done: seq<Msg> := [];
    ghost var all := Copy(mem, len, 0, buf.Length);
    assert all == Prepend([], all) by {
      if all.Ok? {
        assert [] + all.value == all.value;
      }
    }
    assert buf[..] == Layout64([]) + Zeros(buf.Length);
    while more
      invariant k <= buf.Length && |Layout64(done)| == k
      invariant buf[..] == Layout64(done) + Zeros(buf.Length - k)
      invariant more ==> pos < len && all == Prepend(done, Copy(mem, len, pos, buf.Length - k))
      invariant !more ==> all == Ok(done)
      decreases more, len - pos
    {
      var ucmlen;
      err, ucmlen := CopyOne(mem, len, pos, buf, k, done);
      if err != 0 {
        return;
      }
      ghost var m, room := Fetch32(mem, pos, ucmlen).value, buf.Length - k;
      k := k + Align8(ucmlen - HDR32 + HDR64);
      CopyStep(mem, len, pos, room, done, ucmlen, m, buf.Length - k);
      done := done + [m];
      if Last32(len, pos, ucmlen) {
        more := false;
      } else {
        pos := pos + Align4(ucmlen);
      }
    }
    return 0;
  }

  /** One message: length, room, fields and payload. */
  method CopyOne(mem: seq<byte>, len: nat, pos: nat, buf: array<byte>, k: nat, ghost done: seq<Msg>)
    returns (err: int, ucmlen: nat)
    requires pos < len && k <= buf.Length && |Layout64(done)| == k
    requires buf[..] == Layout64(done) + Zeros(buf.Length - k)
    modifies buf
    ensures err != 0 ==> Copy(mem, len, pos, buf.Length - k) == Err(err)
    ensures err == 0 ==>
              && Length32(mem, len, pos) == Ok(ucmlen) && k + Align8(ucmlen - HDR32 + HDR64) <= buf.Length
              && Fetch32(mem, pos, ucmlen).Ok?
              && var l := Layout64(done + [Fetch32(mem, pos, ucmlen).value]);
                 |l| == k + Align8(ucmlen - HDR32 + HDR64) && buf[..] == l + Zeros(buf.Length - |l|)
  {
    hide Word, Align, Entry64, Layout64;
    var r := Length32(mem, len, pos);
    if r.Err? {
      return r.code, 0;
    }
    ucmlen := r.value;
    var tmp := ucmlen - HDR32 + HDR64;
    if buf.Length - k < Align8(tmp) {
      return EINVAL, ucmlen;
    }
    var f := Fetch32(mem, pos, ucmlen);
    if f.Err? {
      return f.code, ucmlen;
    }
    PutEntry(buf, k, f.value, Layout64(done));
    LayoutAppend(done, f.value);
    return 0, ucmlen;
  }

  lemma {:induction false} CopyStep(mem: seq<byte>, len: nat, pos: nat, room: nat, done: seq<Msg>,
                                    n: nat, m: Msg, left: nat)
    requires pos < len && Length32(mem, len, pos) == Ok(n) && Fetch32(mem, pos, n) == Ok(m)
    requires room == Align8(n - HDR32 + HDR64) + left
    ensures Prepend(done, Copy(mem, len, pos, room)) ==
            if Last32(len, pos, n) then Ok(done + [m]) else Prepend(done + [m], Copy(mem, len, pos + Align4(n), left))
  {
    if !Last32(len, pos, n) {
      var r := Copy(mem, len, pos + Align4(n), left);
      if r.Ok? {
        assert done + ([m] + r.value) == done + [m] + r.value;
      }
    }
  }

  /**
   * cmsghdr_from_user_compat_to_kern.  first and second are the user memory seen by the two
   * passes; memory tells whether a buffer could be allocated when the stack one is too small.
   */
  method FromUser(first: seq<byte>, second: seq<byte>, len: nat, stackSize: nat, memory: bool)
    returns (err: int, out: seq<byte>)
    ensures err == 0 ==> HDR32 <= len && Sizes(first, len, 0).Ok? && |out| == Sizes(first, len, 0).value
    ensures err == 0 && first == second && len < 0x1_0000_0000 ==>
              Walk32(first, len, 0).Ok? && Walk64(out, 0) == Walk32(first, len, 0)
    ensures HDR32 <= len <= |first| && first == second && Sizes(first, len, 0).Ok? ==>
              (memory || Sizes(first, len, 0).value <= stackSize <==> err == 0)
    ensures len < HDR32 ==> err == EINVAL
    ensures HDR32 <= len && Sizes(first, len, 0).Err? ==> err == Sizes(first, len, 0).code
  {
    out := [];
    var kcmlen;
    err, kcmlen := Measure(first, len);
    if err != 0 {
      return;
    }
    if kcmlen > stackSize && !memory {
      return ENOBUFS, out;
    }
    var buf := new byte[kcmlen](_ => 0);
    assert buf[..] == Zeros(kcmlen);
    err := CopyAll(second, len, buf);
    if err != 0 {
      if first == second {
        SecondPassFits(first, len, 0, kcmlen);
        if len <= |first| {
          NoFault(first, len, 0, kcmlen);
        }
      }
      return;
    }
    out := buf[..];
    if first == second && len < 0x1_0000_0000 {
      ghost var ms := Copy(second, len, 0, kcmlen).value;
      SecondPassFits(first, len, 0, kcmlen);
      CopyIsWalk(first, len, 0, kcmlen);
      assert out[0..] == out == Layout64(ms);
      LayoutWalk(out, 0, ms);
    }
  }
}
