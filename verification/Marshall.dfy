// The growable output buffer and the input cursor, proved against the wire
// format of module Codec.
module Marshall {

  import opened Codec

  const INITIAL_CAPACITY: nat := 1024

  // Header fields are 32 bits wide.
  datatype ReqHeader = ReqHeader(xid: nat, proc: nat, cltNonce: nat, srvNonce: nat, xidRep: nat) {
    predicate Fits() {
      IsWord(xid) && IsWord(proc) && IsWord(cltNonce) && IsWord(srvNonce) && IsWord(xidRep)
    }
  }

  datatype ReplyHeader = ReplyHeader(xid: nat, ret: nat) {
    predicate Fits() {
      IsWord(xid) && IsWord(ret)
    }
  }

  predicate IsWord(n: nat) {
    n < 0x1_0000_0000
  }

  function ReqBytes(h: ReqHeader): (r: Bytes)
    ensures |r| == HEADER_BYTES - SIZE_BYTES
  {
    Be(WORD, h.xid) + Be(WORD, h.proc) + Be(WORD, h.cltNonce) + Be(WORD, h.srvNonce) + Be(WORD, h.xidRep)
  }

  function ReplyBytes(h: ReplyHeader): (r: Bytes)
    ensures |r| == 8
  {
    Be(WORD, h.xid) + Be(WORD, h.ret)
  }

  lemma LongRange()
    ensures Range(8) == 0x1_0000_0000_0000_0000
  {
    WordRange();
    assert Range(6) == 0x1_0000_0000_0000;
  }

  function ReadWord(u: In): (nat, In) {
    ReadBe(WORD, 0, u)
  }

  function ReadTwo(u: In): ((nat, nat), In) {
    var (m, u1) := ReadWord(u);
    var (n, u2) := ReadWord(u1);
    ((m, n), u2)
  }

  function ReadReq(u: In): (ReqHeader, In) {
    var (a, u1) := ReadTwo(u);
    var (b, u2) := ReadTwo(u1);
    var (rep, u3) := ReadWord(u2);
    (ReqHeader(a.0, a.1, b.0, b.1, rep), u3)
  }

  function ReadReply(u: In): (ReplyHeader, In) {
    var (a, u1) := ReadTwo(u);
    (ReplyHeader(a.0, a.1), u1)
  }

  // The bytes of q * Range(k) + r are those of q and then those of r.
  lemma {:induction false} BeSplit(j: nat, k: nat, q: nat, r: nat)
    requires r < Range(k)
    ensures Be(j + k, q * Range(k) + r) == Be(j, q) + Be(k, r)
    decreases k
  {
    if k == 0 {
      assert Be(j, q) + [] == Be(j, q);
    } else {
      var t := q * Range(k - 1);
      assert q * Range(k) == 0x100 * t;
      var n := 0x100 * t + r;
      assert n / 0x100 == t + r / 0x100 && n % 0x100 == r % 0x100;
      BeSplit(j, k - 1, q, r / 0x100);
      assert Be(j + k, n) == (Be(j, q) + Be(k - 1, r / 0x100)) + [r % 0x100];
    }
  }

  lemma BeLong(n: nat)
    requires n < Range(8)
    ensures IsWord(n / 0x1_0000_0000) && IsWord(n % 0x1_0000_0000)
    ensures Be(8, n) == Be(WORD, n / 0x1_0000_0000) + Be(WORD, n % 0x1_0000_0000)
  {
    LongRange();
    WordRange();
    BeSplit(4, 4, n / 0x1_0000_0000, n % 0x1_0000_0000);
  }

  lemma {:induction false} ReadBeFrom(k: nat, n: nat, u: In)
    ensures ReadBe(k, n, u) == (n * Range(k) + ReadBe(k, 0, u).0, ReadBe(k, 0, u).1)
    decreases k
  {
    if k != 0 {
      var (b, u1) := ReadByte(u);
      ReadBeFrom(k - 1, n * 0x100 + b, u1);
      ReadBeFrom(k - 1, b, u1);
      var r := Range(k - 1);
      assert (n * 0x100 + b) * r == n * (0x100 * r) + b * r;
    }
  }

  lemma {:induction false} ReadBeTwice(j: nat, k: nat, n: nat, u: In)
    ensures ReadBe(j + k, n, u) == ReadBe(k, ReadBe(j, n, u).0, ReadBe(j, n, u).1)
    decreases j
  {
    if j != 0 {
      var (b, u1) := ReadByte(u);
      ReadBeTwice(j - 1, k, n * 0x100 + b, u1);
    }
  }

  lemma WordFromHalves(u: In)
    ensures var (h, u1) := ReadBe(2, 0, u); var (l, u2) := ReadBe(2, 0, u1);
            ReadWord(u) == (h * 0x1_0000 + l, u2)
  {
    var (h, u1) := ReadBe(2, 0, u);
    ReadBeTwice(2, 2, 0, u);
    ReadBeFrom(2, h, u1);
    assert Range(2) == 0x1_0000;
  }

  lemma ItemsStep(ty: Ty, vs: seq<Val>, i: nat, before: Bytes, after: Bytes)
    requires ty.Vec? && i < |vs| && after == before + Encode(ty.elem, vs[i])
    ensures after + EncodeItems(ty, vs[i + 1..]) == before + EncodeItems(ty, vs[i..])
  {
    assert vs[i..][1..] == vs[i + 1..];
  }

  lemma EntriesStep(ty: Ty, ps: seq<Entry>, i: nat, before: Bytes, after: Bytes)
    requires ty.Map? && i < |ps| && after == before + Encode(ty.key, ps[i].key) + Encode(ty.val, ps[i].val)
    ensures after + EncodeEntries(ty, ps[i + 1..]) == before + EncodeEntries(ty, ps[i..])
  {
    assert ps[i..][1..] == ps[i + 1..];
  }

  lemma Regroup(a: Bytes, b: Bytes, c: Bytes)
    ensures a + b + c == a + (b + c)
  {
  }

  lemma Closing(before: Bytes, count: Bytes, body: Bytes, rest: Bytes, after: Bytes)
    requires rest == [] && after + rest == before + count + body
    ensures after == before + (count + body)
  {
    Regroup(before, count, body);
    assert after + rest == after;
  }

  lemma ItemsEnd(ty: Ty, vs: seq<Val>, before: Bytes, after: Bytes)
    requires ty.Vec? && after + EncodeItems(ty, vs[|vs|..]) == before + Be(WORD, |vs|) + EncodeItems(ty, vs)
    ensures after == before + Encode(ty, List(vs))
  {
    Closing(before, Be(WORD, |vs|), EncodeItems(ty, vs), EncodeItems(ty, vs[|vs|..]), after);
  }

  lemma EntriesEnd(ty: Ty, ps: seq<Entry>, before: Bytes, after: Bytes)
    requires ty.Map? && after + EncodeEntries(ty, ps[|ps|..]) == before + Be(WORD, |ps|) + EncodeEntries(ty, ps)
    ensures after == before + Encode(ty, Entries(ps))
  {
    Closing(before, Be(WORD, |ps|), EncodeEntries(ty, ps), EncodeEntries(ty, ps[|ps|..]), after);
  }

  // A header rewritten below position n.
  lemma HeaderSplice(head: Bytes, w: Bytes, n: nat)
    requires |head| <= n <= |w|
    ensures (head + w[|head|..])[..n] == head + w[..n][|head|..]
  {
  }

  class Marshall {
    var buf: array?<byte>
    var capa: int
    var ind: int

    ghost predicate Valid()
      reads this, buf
    {
      buf != null && capa == buf.Length && INITIAL_CAPACITY <= capa && 0 <= ind <= capa
    }

    // Everything up to the write position, the header area included.
    ghost function Written(): Bytes
      requires Valid()
      reads this, buf
    {
      buf[..ind]
    }

    // The rest of the buffer.
    ghost function Unwritten(): Bytes
      requires Valid()
      reads this, buf
    {
      buf[ind..]
    }

    constructor ()
      ensures Valid() && fresh(buf) && ind == 24 && capa == 1024
    {
      buf := new byte[INITIAL_CAPACITY];
      capa := INITIAL_CAPACITY;
      ind := HEADER_BYTES;
    }

    method Realloc(n: nat)
      requires buf != null && buf.Length <= n
      modifies `buf
      ensures buf != null && fresh(buf) && buf.Length == n
      ensures buf[..old(buf.Length)] == old(buf[..])
    {
      var bigger := new byte[n];
      forall i | 0 <= i < buf.Length {
        bigger[i] := buf[i];
      }
      buf := bigger;
    }

    // Stores one byte at the write position, doubling a full buffer first.
    method RawByte(x: byte)
      requires Valid()
      modifies this, buf
      ensures Valid() && (buf == old(buf) || fresh(buf))
      ensures ind == old(ind) + 1 && Written() == old(Written()) + [x]
      ensures capa == if old(ind) < old(capa) then old(capa) else 2 * old(capa)
      ensures old(ind) < old(capa) ==> buf == old(buf) && Unwritten() == old(Unwritten())[1..]
    {
      if ind >= capa {
        capa := 2 * capa;
        Realloc(capa);
      }
      buf[ind] := x;
      ind := ind + 1;
    }

    method RawBytes(p: Bytes)
      requires Valid()
      modifies this, buf
      ensures Valid() && (buf == old(buf) || fresh(buf))
      ensures Written() == old(Written()) + p
      ensures capa == if old(ind) + |p| <= old(capa) then old(capa)
                      else if old(capa) > |p| then 2 * old(capa) else old(capa) + |p|
    {
      var n := |p|;
      if ind + n > capa {
        capa := if capa > n then 2 * capa else capa + n;
        Realloc(capa);
      }
      forall i | 0 <= i < n {
        buf[ind + i] := p[i];
      }
      ind := ind + n;
      assert buf[..ind] == old(buf[..ind]) + p;
    }

    // Four bytes, the most significant first.
    method Pack(n: nat)
      requires Valid() && IsWord(n)
      modifies this, buf
      ensures Valid() && (buf == old(buf) || fresh(buf))
      ensures ind == old(ind) + 4 && Written() == old(Written()) + Be(WORD, n)
      ensures old(ind) + 4 <= old(capa) ==>
        capa == old(capa) && buf == old(buf) && Unwritten() == old(Unwritten())[4..]
    {
      TwoBytes(n / 0x100_0000, n / 0x1_0000 % 0x100);
      TwoBytes(n / 0x100 % 0x100, n % 0x100);
      WordLayout(n);
    }

    method TwoBytes(a: byte, b: byte)
      requires Valid()
      modifies this, buf
      ensures Valid() && (buf == old(buf) || fresh(buf))
      ensures ind == old(ind) + 2 && Written() == old(Written()) + [a, b]
      ensures old(ind) + 2 <= old(capa) ==>
        capa == old(capa) && buf == old(buf) && Unwritten() == old(Unwritten())[2..]
    {
      RawByte(a);
      RawByte(b);
    }

    // Appends a value.
    method Write(ty: Ty, v: Val)
      requires Valid() && HasType(v, ty)
      modifies this, buf
      ensures Valid() && (buf == old(buf) || fresh(buf))
      ensures Written() == old(Written()) + Encode(ty, v)
      decreases ty, 2
    {
      match ty
      case Scalar(kind) => WriteScalar(kind, v);
      case Vec(_) => WriteVec(ty, v.vs);
      case Map(_, _) => WriteMap(ty, v.ps);
    }

    method WriteScalar(kind: Kind, v: Val)
      requires Valid() && HasKind(v, kind)
      modifies this, buf
      ensures Valid() && (buf == old(buf) || fresh(buf))
      ensures Written() == old(Written()) + ScalarBytes(kind, v)
    {
      match kind
      case Bool => RawByte(if v.b then 1 else 0);
      case Str => WriteText(v.s);
      case _ => WriteNumber(kind, v.n);
    }

    method WriteNumber(kind: Kind, n: nat)
      requires Valid() && kind != Bool && kind != Str && n < Range(Width(kind))
      modifies this, buf
      ensures Valid() && (buf == old(buf) || fresh(buf))
      ensures Written() == old(Written()) + Be(Width(kind), n)
    {
      WordRange();
      match kind
      case U8 =>
        OneDigit(n);
        RawByte(n);
      case U16 =>
        assert Range(2) == 0x1_0000;
        TwoDigits(n);
        TwoBytes(n / 0x100, n % 0x100);
      case U32 => Pack(n);
      case U64 => WriteLong(n);
    }

    method WriteLong(n: nat)
      requires Valid() && n < Range(8)
      modifies this, buf
      ensures Valid() && (buf == old(buf) || fresh(buf))
      ensures Written() == old(Written()) + Be(8, n)
    {
      var h, l := n / 0x1_0000_0000, n % 0x1_0000_0000;
      BeLong(n);
      PackTwo(h, l);
    }

    method WriteText(s: Bytes)
      requires Valid() && |s| < LENGTH_LIMIT
      modifies this, buf
      ensures Valid() && (buf == old(buf) || fresh(buf))
      ensures Written() == old(Written()) + (Be(WORD, |s|) + s)
    {
      ghost var w := Written();
      Pack(|s|);
      RawBytes(s);
      Regroup(w, Be(WORD, |s|), s);
    }

    // The vector operator.
    method WriteVec(ty: Ty, vs: seq<Val>)
      requires Valid() && ty.Vec? && HasType(List(vs), ty)
      modifies this, buf
      ensures Valid() && (buf == old(buf) || fresh(buf))
      ensures Written() == old(Written()) + Encode(ty, List(vs))
      decreases ty, 0
    {
      ghost var w := Written();
      Pack(|vs|);
      ghost var start := Written();
      var i := 0;
      while i < |vs|
        invariant 0 <= i <= |vs|
        invariant Valid() && (buf == old(buf) || fresh(buf))
        invariant Written() + EncodeItems(ty, vs[i..]) == start + EncodeItems(ty, vs)
      {
        ghost var before := Written();
        Write(ty.elem, vs[i]);
        ItemsStep(ty, vs, i, before, Written());
        i := i + 1;
      }
      ItemsEnd(ty, vs, w, Written());
    }

    // The map operator.
    method WriteMap(ty: Ty, ps: seq<Entry>)
      requires Valid() && ty.Map? && HasType(Entries(ps), ty)
      modifies this, buf
      ensures Valid() && (buf == old(buf) || fresh(buf))
      ensures Written() == old(Written()) + Encode(ty, Entries(ps))
      decreases ty, 1
    {
      ghost var w := Written();
      Pack(|ps|);
      ghost var start := Written();
      var i := 0;
      while i < |ps|
        invariant 0 <= i <= |ps|
        invariant Valid() && (buf == old(buf) || fresh(buf))
        invariant Written() + EncodeEntries(ty, ps[i..]) == start + EncodeEntries(ty, ps)
      {
        ghost var before := Written();
        WriteEntry(ty, ps[i]);
        EntriesStep(ty, ps, i, before, Written());
        i := i + 1;
      }
      EntriesEnd(ty, ps, w, Written());
    }

    method WriteEntry(ty: Ty, p: Entry)
      requires Valid() && ty.Map? && HasType(p.key, ty.key) && HasType(p.val, ty.val)
      modifies this, buf
      ensures Valid() && (buf == old(buf) || fresh(buf))
      ensures Written() == old(Written()) + Encode(ty.key, p.key) + Encode(ty.val, p.val)
      decreases ty, 0
    {
      Write(ty.key, p.key);
      Write(ty.val, p.val);
    }

    // The arguments of a call, one after another.
    method WriteAll(tys: seq<Ty>, vs: seq<Val>)
      requires Valid() && HaveTypes(vs, tys)
      modifies this, buf
      ensures Valid() && (buf == old(buf) || fresh(buf))
      ensures Written() == old(Written()) + EncodeAll(tys, vs)
      decreases tys
    {
      if tys != [] {
        ghost var w := Written();
        Write(tys[0], vs[0]);
        WriteAll(tys[1..], vs[1..]);
        Regroup(w, Encode(tys[0], vs[0]), EncodeAll(tys[1..], vs[1..]));
      }
    }

    method PackTwo(m: nat, n: nat)
      requires Valid() && IsWord(m) && IsWord(n)
      modifies this, buf
      ensures Valid() && (buf == old(buf) || fresh(buf))
      ensures ind == old(ind) + 8 && Written() == old(Written()) + (Be(WORD, m) + Be(WORD, n))
      ensures old(ind) + 8 <= old(capa) ==>
        capa == old(capa) && buf == old(buf) && Unwritten() == old(Unwritten())[8..]
    {
      ghost var w := Written();
      Pack(m);
      Pack(n);
      Regroup(w, Be(WORD, m), Be(WORD, n));
    }

    // Fills in the request header without disturbing the size area or the body.
    method PackReqHeader(h: ReqHeader)
      requires Valid() && HEADER_BYTES <= ind && h.Fits()
      modifies this, buf
      ensures Valid() && buf == old(buf) && ind == old(ind)
      ensures Written() == old(Written())[..SIZE_BYTES] + ReqBytes(h) + old(Written())[HEADER_BYTES..]
    {
      ghost var w := buf[..];
      var saved := ind;
      ind := SIZE_BYTES;
      PackTwo(h.xid, h.proc);
      PackTwo(h.cltNonce, h.srvNonce);
      Pack(h.xidRep);
      assert Unwritten() == w[HEADER_BYTES..];
      assert Written() == w[..SIZE_BYTES] + ReqBytes(h);
      assert buf[..] == Written() + Unwritten();
      ind := saved;
      assert Written() == buf[..][..ind];
      HeaderSplice(w[..SIZE_BYTES] + ReqBytes(h), w, ind);
    }

    method PackReplyHeader(h: ReplyHeader)
      requires Valid() && HEADER_BYTES <= ind && h.Fits()
      modifies this, buf
      ensures Valid() && buf == old(buf) && ind == old(ind)
      ensures Written() == old(Written())[..SIZE_BYTES] + ReplyBytes(h) + old(Written())[SIZE_BYTES + 8..]
    {
      ghost var w := buf[..];
      var saved := ind;
      ind := SIZE_BYTES;
      PackTwo(h.xid, h.ret);
      assert buf[..] == Written() + Unwritten();
      assert Unwritten() == w[SIZE_BYTES + 8..];
      ind := saved;
      assert Written() == buf[..][..ind];
    }

    // Hands the buffer over; nothing can be written afterwards.
    method TakeBuf() returns (b: array<byte>, s: int)
      requires Valid()
      modifies this
      ensures b == old(buf) && s == old(ind) && b[..s] == old(Written())
      ensures buf == null && ind == 0
    {
      b := buf;
      s := ind;
      buf := null;
      ind := 0;
    }
  }

  class Unmarshall {
    var buf: array?<byte>
    var sz: int
    var ind: int
    var ok: bool

    ghost predicate InBounds()
      reads this
    {
      0 <= ind && 0 <= sz && if buf == null then sz == 0 else sz <= buf.Length
    }

    ghost predicate Valid()
      reads this
    {
      InBounds() && (ok ==> ind <= sz)
    }

    // What is left to read from position i.
    ghost function From(i: int): In
      requires InBounds() && 0 <= i
      reads this, buf
    {
      In(if buf != null && i <= sz then buf[i..sz] else [], ok)
    }

    ghost function Input(): In
      requires InBounds()
      reads this, buf
    {
      From(ind)
    }

    constructor ()
      ensures Valid() && Input() == In([], false)
    {
      buf, sz, ind, ok := null, 0, 0, false;
    }

    constructor Wrap(b: array<byte>, n: nat)
      requires n <= b.Length
      ensures Valid() && buf == b && sz == n && Input() == In(b[..n], true)
    {
      buf, sz, ind, ok := b, n, 0, true;
    }

    // A buffer holding the content s behind an empty header.
    constructor FromContent(s: Bytes)
      ensures Valid() && fresh(buf) && Input() == In(s, true)
    {
      var b := new byte[|s| + HEADER_BYTES];
      forall i | 0 <= i < |s| {
        b[HEADER_BYTES + i] := s[i];
      }
      buf, sz, ind, ok := b, |s| + HEADER_BYTES, HEADER_BYTES, true;
      new;
      assert b[HEADER_BYTES..sz] == s;
    }

    // Reads one byte; past the end clears ok and yields 0.
    method RawByte() returns (c: byte)
      requires InBounds()
      modifies `ind, `ok
      ensures Valid() && (c, Input()) == ReadByte(old(Input()))
      ensures ok ==> old(ok) && ind == old(ind) + 1
    {
      c := 0;
      if ind >= sz {
        ok := false;
      } else {
        c := buf[ind];
        ind := ind + 1;
      }
    }

    method TwoBytes() returns (n: nat)
      requires InBounds()
      modifies `ind, `ok
      ensures Valid() && (n, Input()) == ReadBe(2, 0, old(Input()))
      ensures ok ==> old(ok) && ind == old(ind) + 2
    {
      ghost var u := Input();
      var a: int := RawByte();
      assert ReadBe(2, 0, u) == ReadBe(1, a, Input());
      var b: int := RawByte();
      n := a * 0x100 + b;
      assert ReadBe(2, 0, u) == ReadBe(0, n, Input());
    }

    method Unpack() returns (n: nat)
      requires InBounds()
      modifies `ind, `ok
      ensures Valid() && (n, Input()) == ReadWord(old(Input()))
      ensures ok ==> old(ok) && ind == old(ind) + 4
    {
      WordFromHalves(Input());
      var h: int := TwoBytes();
      var l: int := TwoBytes();
      n := h * 0x1_0000 + l;
    }

    method Long() returns (n: nat)
      requires InBounds()
      modifies `ind, `ok
      ensures Valid() && (n, Input()) == ReadBe(8, 0, old(Input()))
    {
      ghost var u := Input();
      WordRange();
      ReadBeTwice(4, 4, 0, u);
      var h: int := Unpack();
      ReadBeFrom(4, h, Input());
      var l: int := Unpack();
      n := h * 0x1_0000_0000 + l;
    }

    method ReadNumber(kind: Kind) returns (n: nat)
      requires InBounds() && kind != Bool && kind != Str
      modifies `ind, `ok
      ensures Valid() && (n, Input()) == ReadBe(Width(kind), 0, old(Input()))
    {
      ghost var u := Input();
      match kind
      case U8 =>
        n := RawByte();
        assert ReadBe(1, 0, u) == ReadBe(0, n, Input());
      case U16 => n := TwoBytes();
      case U32 => n := Unpack();
      case U64 => n := Long();
    }

    // The next n bytes, or none with ok cleared when fewer are left.
    method RawBytes(n: nat) returns (s: Bytes)
      requires Valid()
      modifies `ind, `ok
      ensures Valid()
      ensures old(ind) + n > sz ==> s == [] && Input() == old(Input()).(ok := false)
      ensures old(ind) + n <= sz ==>
        s == old(Input()).rest[..n] && Input() == old(Input()).(rest := old(Input()).rest[n..])
    {
      if ind + n > sz {
        s := [];
        ok := false;
      } else if buf == null {
        s := [];
      } else {
        s := buf[ind..ind + n];
        ind := ind + n;
      }
    }

    method ReadString() returns (s: Bytes)
      requires InBounds()
      modifies `ind, `ok
      ensures Valid() && (Text(s), Input()) == ReadText(old(Input()))
    {
      var n := Unpack();
      s := [];
      if ok {
        s := RawBytes(n);
      }
    }

    // Reads a value.
    method Read(ty: Ty) returns (v: Val)
      requires InBounds()
      modifies `ind, `ok
      ensures Valid() && (v, Input()) == Decode(ty, old(Input()))
      decreases ty, 1
    {
      match ty
      case Scalar(kind) => v := ReadOne(kind);
      case Vec(_) => var vs := ReadVec(ty); v := List(vs);
      case Map(_, _) => var d := ReadMap(ty); v := Entries(d);
    }

    method ReadOne(kind: Kind) returns (v: Val)
      requires InBounds()
      modifies `ind, `ok
      ensures Valid() && (v, Input()) == ReadScalar(kind, old(Input()))
    {
      match kind
      case Bool => var x := RawByte(); v := Flag(x != 0);
      case Str => var s := ReadString(); v := Text(s);
      case _ => var x := ReadNumber(kind); v := Num(x);
    }

    // The vector operator.
    method ReadVec(ty: Ty) returns (vs: seq<Val>)
      requires InBounds() && ty.Vec?
      modifies `ind, `ok
      ensures Valid() && (List(vs), Input()) == Decode(ty, old(Input()))
      decreases ty, 0
    {
      var n := Unpack();
      ghost var all := DecodeItems(ty, n, [], Input());
      vs := [];
      var i := 0;
      while i < n
        invariant 0 <= i <= n && Valid()
        invariant all == DecodeItems(ty, n - i, vs, Input())
      {
        var z := Read(ty.elem);
        vs := vs + [z];
        i := i + 1;
      }
    }

    // The map operator: later values of a key replace earlier ones.
    method ReadMap(ty: Ty) returns (d: seq<Entry>)
      requires InBounds() && ty.Map?
      modifies `ind, `ok
      ensures Valid() && (Entries(d), Input()) == Decode(ty, old(Input()))
      decreases ty, 0, 1
    {
      var n := Unpack();
      ghost var all := DecodeEntries(ty, n, [], Input());
      d := [];
      var i := 0;
      while i < n
        invariant 0 <= i <= n && Valid()
        invariant all == DecodeEntries(ty, n - i, d, Input())
      {
        var p := ReadEntry(ty);
        d := Put(d, p);
        i := i + 1;
      }
    }

    method ReadEntry(ty: Ty) returns (p: Entry)
      requires InBounds() && ty.Map?
      modifies `ind, `ok
      ensures Valid() && (p, Input()) == DecodeEntry(ty, old(Input()))
      decreases ty, 0, 0
    {
      var a := Read(ty.key);
      var b := Read(ty.val);
      p := Entry(a, b);
    }

    // The arguments of a call, one after another.
    method ReadAll(tys: seq<Ty>) returns (vs: seq<Val>)
      requires Valid()
      modifies `ind, `ok
      ensures Valid() && (vs, Input()) == DecodeAll(tys, old(Input()))
    {
      vs := [];
      if tys != [] {
        var v := Read(tys[0]);
        var rest := ReadAll(tys[1..]);
        vs := [v] + rest;
      }
    }

    // Whether everything read was there and nothing is left over.
    method Done() returns (r: bool)
      requires Valid()
      ensures r == OkDone(Input())
    {
      r := ok && ind == sz;
    }

    // Takes over the bytes of another, positioned behind the header.
    method TakeIn(other: Unmarshall)
      requires InBounds() && other.InBounds() && other != this
      modifies this, other
      ensures Valid() && buf == old(other.buf) && sz == old(other.sz) && ind == HEADER_BYTES
      ensures ok == (sz >= HEADER_BYTES)
      ensures other.buf == null && other.sz == 0 && other.ind == 0
    {
      buf, sz := other.TakeBuf();
      ind := HEADER_BYTES;
      ok := sz >= HEADER_BYTES;
    }

    method TakeBuf() returns (b: array?<byte>, n: int)
      modifies `buf, `sz, `ind
      ensures b == old(buf) && n == old(sz)
      ensures buf == null && sz == 0 && ind == 0
    {
      b, n := buf, sz;
      buf, sz, ind := null, 0, 0;
    }

    method UnpackTwo() returns (m: nat, n: nat)
      requires InBounds()
      modifies `ind, `ok
      ensures Valid() && ((m, n), Input()) == ReadTwo(old(Input()))
      ensures ok ==> old(ok) && ind == old(ind) + 8
    {
      m := Unpack();
      n := Unpack();
    }

    method UnpackReq() returns (h: ReqHeader)
      requires InBounds()
      modifies `ind, `ok
      ensures Valid() && (h, Input()) == ReadReq(old(Input()))
      ensures ok ==> ind == old(ind) + 20
    {
      var xid, proc := UnpackTwo();
      var clt, srv := UnpackTwo();
      var rep := Unpack();
      h := ReqHeader(xid, proc, clt, srv, rep);
    }

    // Reads the header and moves to the body, wherever the position was.
    method UnpackReqHeader() returns (h: ReqHeader)
      requires InBounds()
      modifies `ind, `ok
      ensures Valid() && ind == HEADER_BYTES
      ensures h == ReadReq(old(From(SIZE_BYTES))).0 && ok == ReadReq(old(From(SIZE_BYTES))).1.ok
    {
      ind := SIZE_BYTES;
      ghost var u := Input();
      assert u == old(From(SIZE_BYTES));
      h := UnpackReq();
      assert h == ReadReq(u).0 && ok == ReadReq(u).1.ok;
      ind := HEADER_BYTES;
    }

    method UnpackReplyHeader() returns (h: ReplyHeader)
      requires InBounds()
      modifies `ind, `ok
      ensures InBounds() && ind == HEADER_BYTES
      ensures h == ReadReply(old(From(SIZE_BYTES))).0 && ok == ReadReply(old(From(SIZE_BYTES))).1.ok
    {
      ind := SIZE_BYTES;
      var xid, ret := UnpackTwo();
      h := ReplyHeader(xid, ret);
      ind := HEADER_BYTES;
    }
  }

  // ---- where the header fields are ----

  function WordAt(b: Bytes, i: nat): nat
    requires i + 4 <= |b|
  {
    var w: int, x: int, y: int, z: int := b[i], b[i + 1], b[i + 2], b[i + 3];
    w * 0x100_0000 + x * 0x1_0000 + y * 0x100 + z
  }

  lemma Recompose(n: nat)
    ensures n / 0x100_0000 * 0x100_0000 + n / 0x1_0000 % 0x100 * 0x1_0000 + n / 0x100 % 0x100 * 0x100 + n % 0x100 == n
  {
    var a := n / 0x100;
    var b := a / 0x100;
    assert n / 0x1_0000 == b && n / 0x100_0000 == b / 0x100;
    assert n == 0x100 * a + n % 0x100 && a == 0x100 * b + a % 0x100 && b == 0x100 * (b / 0x100) + b % 0x100;
  }

  lemma FieldAt(frame: Bytes, before: Bytes, n: nat, after: Bytes)
    requires n < 0x1_0000_0000 && frame == before + Be(WORD, n) + after
    ensures |frame| >= |before| + 4 && WordAt(frame, |before|) == n
  {
    WordLayout(n);
    Recompose(n);
    var w := Be(WORD, n);
    assert forall j | 0 <= j < 4 :: frame[|before| + j] == w[j];
  }

  // In a frame of a request, four bytes behind its beginning: xid, procedure, client
  // nonce, server nonce and acknowledged xid, and then the body.
  lemma ReqLayout(frame: Bytes, size: Bytes, h: ReqHeader, body: Bytes)
    requires h.Fits() && |size| == 4 && frame == size + ReqBytes(h) + body
    ensures |frame| >= 24 && frame[24..] == body
    ensures WordAt(frame, 4) == h.xid && WordAt(frame, 8) == h.proc
    ensures WordAt(frame, 12) == h.cltNonce && WordAt(frame, 16) == h.srvNonce && WordAt(frame, 20) == h.xidRep
  {
    var p, c, s, r := Be(WORD, h.proc), Be(WORD, h.cltNonce), Be(WORD, h.srvNonce), Be(WORD, h.xidRep);
    var s1 := size + Be(WORD, h.xid);
    var s2 := s1 + p;
    var s3 := s2 + c;
    var s4 := s3 + s;
    assert frame == s4 + r + body;
    FieldAt(frame, s4, h.xidRep, body);
    FieldAt(frame, s3, h.srvNonce, r + body);
    FieldAt(frame, s2, h.cltNonce, s + (r + body));
    FieldAt(frame, s1, h.proc, c + (s + (r + body)));
    FieldAt(frame, size, h.xid, p + (c + (s + (r + body))));
  }

  lemma ReplyLayout(frame: Bytes, size: Bytes, h: ReplyHeader, rest: Bytes)
    requires h.Fits() && |size| == 4 && frame == size + ReplyBytes(h) + rest
    ensures |frame| >= 12 && WordAt(frame, 4) == h.xid && WordAt(frame, 8) == h.ret
  {
    assert frame == size + Be(WORD, h.xid) + (Be(WORD, h.ret) + rest);
    FieldAt(frame, size, h.xid, Be(WORD, h.ret) + rest);
    assert frame == (size + Be(WORD, h.xid)) + Be(WORD, h.ret) + rest;
    FieldAt(frame, size + Be(WORD, h.xid), h.ret, rest);
  }

  // ---- whole messages ----

  lemma TwoBack(m: nat, n: nat, rest: Bytes)
    requires IsWord(m) && IsWord(n)
    ensures ReadTwo(In(Be(WORD, m) + (Be(WORD, n) + rest), true)) == ((m, n), In(rest, true))
  {
    WordRange();
    BeBack(WORD, m, Be(WORD, n) + rest);
    BeBack(WORD, n, rest);
  }

  lemma ReqRoundTrip(h: ReqHeader, rest: Bytes)
    requires h.Fits()
    ensures ReadReq(In(ReqBytes(h) + rest, true)) == (h, In(rest, true))
  {
    var last := Be(WORD, h.xidRep) + rest;
    var nonces := Be(WORD, h.cltNonce) + (Be(WORD, h.srvNonce) + last);
    assert ReqBytes(h) + rest == Be(WORD, h.xid) + (Be(WORD, h.proc) + nonces);
    TwoBack(h.xid, h.proc, nonces);
    TwoBack(h.cltNonce, h.srvNonce, last);
    WordRange();
    BeBack(WORD, h.xidRep, rest);
  }

  lemma ReplyRoundTrip(h: ReplyHeader, rest: Bytes)
    requires h.Fits()
    ensures ReadReply(In(ReplyBytes(h) + rest, true)) == (h, In(rest, true))
  {
    assert ReplyBytes(h) + rest == Be(WORD, h.xid) + (Be(WORD, h.ret) + rest);
    TwoBack(h.xid, h.ret, rest);
  }

  // A received frame is the size area, the request header and the arguments; it
  // is taken apart into the header, the values, and whether all reads succeeded
  // and used the frame up.
  function TakeApart(frame: Bytes, tys: seq<Ty>): (ReqHeader, seq<Val>, bool) {
    var (h, u) := ReadReq(In(if SIZE_BYTES <= |frame| then frame[SIZE_BYTES..] else [], true));
    var (vs, w) := DecodeAll(tys, In(if HEADER_BYTES <= |frame| then frame[HEADER_BYTES..] else [], u.ok));
    (h, vs, OkDone(w))
  }

  lemma {:induction false} ReadBeUses(k: nat, n: nat, u: In)
    ensures ReadBe(k, n, u).1.ok ==> u.ok && |u.rest| == |ReadBe(k, n, u).1.rest| + k
    decreases k
  {
    if k != 0 {
      var (b, u1) := ReadByte(u);
      ReadBeUses(k - 1, n * 0x100 + b, u1);
    }
  }

  lemma ReadTwoUses(u: In)
    ensures ReadTwo(u).1.ok ==> u.ok && |u.rest| == |ReadTwo(u).1.rest| + 8
  {
    ReadBeUses(WORD, 0, u);
    ReadBeUses(WORD, 0, ReadWord(u).1);
  }

  lemma ShortFrameRefused(tys: seq<Ty>, p: Bytes)
    requires |p| < HEADER_BYTES
    ensures !TakeApart(p, tys).2
  {
    var u := In(if SIZE_BYTES <= |p| then p[SIZE_BYTES..] else [], true);
    ReadTwoUses(u);
    ReadTwoUses(ReadTwo(u).1);
    ReadBeUses(WORD, 0, ReadTwo(ReadTwo(u).1).1);
    assert !ReadReq(u).1.ok;
    if TakeApart(p, tys).2 {
      AllReadNoFurther(tys, In([], false), []);
    }
  }

  lemma TakeApartLong(size: Bytes, h: ReqHeader, tys: seq<Ty>, q: Bytes)
    requires |size| == SIZE_BYTES && h.Fits()
    ensures TakeApart(size + ReqBytes(h) + q, tys)
         == (h, DecodeAll(tys, In(q, true)).0, OkDone(DecodeAll(tys, In(q, true)).1))
  {
    var p := size + ReqBytes(h) + q;
    assert p[SIZE_BYTES..] == ReqBytes(h) + q && p[HEADER_BYTES..] == q;
    ReqRoundTrip(h, q);
  }

  // Whatever prefix of a request frame arrives, it is taken for a request with
  // those argument types exactly when it is the whole frame, and then header and
  // arguments come out as they went in.
  lemma FrameAcceptedIffWhole(size: Bytes, h: ReqHeader, tys: seq<Ty>, vs: seq<Val>, p: Bytes)
    requires |size| == SIZE_BYTES && h.Fits() && HaveTypes(vs, tys)
    requires p <= size + ReqBytes(h) + EncodeAll(tys, vs)
    ensures TakeApart(p, tys).2 <==> p == size + ReqBytes(h) + EncodeAll(tys, vs)
    ensures TakeApart(p, tys).2 ==> TakeApart(p, tys).0 == h && TakeApart(p, tys).1 == vs
  {
    if |p| < HEADER_BYTES {
      ShortFrameRefused(tys, p);
    } else {
      var q := p[HEADER_BYTES..];
      assert p == size + ReqBytes(h) + q && q == EncodeAll(tys, vs)[..|q|];
      TakeApartLong(size, h, tys, q);
      PrefixDecodesIffWhole(tys, vs, q);
      assert |q| == |EncodeAll(tys, vs)| ==> q == EncodeAll(tys, vs);
    }
  }

  // What call1 does: the arguments, then the header, then the buffer is handed to
  // the connection.
  method MakeRequest(h: ReqHeader, tys: seq<Ty>, vs: seq<Val>) returns (b: array<byte>, n: int)
    requires h.Fits() && HaveTypes(vs, tys)
    ensures HEADER_BYTES <= n <= b.Length
    ensures b[SIZE_BYTES..n] == ReqBytes(h) + EncodeAll(tys, vs)
  {
    var m := new Marshall();
    m.WriteAll(tys, vs);
    m.PackReqHeader(h);
    b, n := m.TakeBuf();
  }

  // What dispatch and a handler do with a frame.
  method ReadRequest(b: array<byte>, n: nat, tys: seq<Ty>) returns (h: ReqHeader, vs: seq<Val>, good: bool)
    requires n <= b.Length
    ensures (h, vs, good) == TakeApart(b[..n], tys)
  {
    var req := new Unmarshall.Wrap(b, n);
    h := req.UnpackReqHeader();
    vs := req.ReadAll(tys);
    good := req.Done();
  }
}
