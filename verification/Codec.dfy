// The wire format of typed values: what the marshall and unmarshall operators
// write and read.
module Codec {

  type byte = b: int | 0 <= b < 256
  type Bytes = seq<byte>

  // The types with marshalling operators.  Signed values travel as their
  // unsigned images of the same width.
  datatype Kind = Bool | U8 | U16 | U32 | U64 | Str
  datatype Ty = Scalar(kind: Kind) | Vec(elem: Ty) | Map(key: Ty, val: Ty)

  // A map is the list of its entries in iteration order.
  datatype Val = Flag(b: bool) | Num(n: nat) | Text(s: Bytes) | List(vs: seq<Val>) | Entries(ps: seq<Entry>)
  datatype Entry = Entry(key: Val, val: Val)

  // A string is measured by an int, a vector or map by an unsigned int.
  const LENGTH_LIMIT: nat := 0x8000_0000
  const COUNT_LIMIT: nat := 0x1_0000_0000
  const WORD: nat := 4

  // Every buffer begins with room for the size of the PDU and the RPC header.
  const SIZE_BYTES: nat := 4
  const HEADER_BYTES: nat := 24

  // How many bytes a number takes.
  function Width(kind: Kind): nat {
    match kind
    case U16 => 2
    case U32 => WORD
    case U64 => 8
    case _ => 1
  }

  // How many numbers k bytes can tell apart.
  function Range(k: nat): (r: nat)
    ensures r > 0
  {
    if k == 0 then 1 else 0x100 * Range(k - 1)
  }

  predicate HasKind(v: Val, kind: Kind) {
    match kind
    case Bool => v.Flag?
    case Str => v.Text? && |v.s| < LENGTH_LIMIT
    case _ => v.Num? && v.n < Range(Width(kind))
  }

  predicate HasType(v: Val, ty: Ty) {
    match ty
    case Scalar(kind) => HasKind(v, kind)
    case Vec(t) => v.List? && |v.vs| < COUNT_LIMIT && forall i | 0 <= i < |v.vs| :: HasType(v.vs[i], t)
    case Map(k, t) =>
      && v.Entries? && |v.ps| < COUNT_LIMIT && KeysDiffer(v.ps)
      && forall i | 0 <= i < |v.ps| :: HasType(v.ps[i].key, k) && HasType(v.ps[i].val, t)
  }

  predicate KeysDiffer(ps: seq<Entry>) {
    forall i, j | 0 <= i < j < |ps| :: ps[i].key != ps[j].key
  }

  // ---- writing ----

  // n in k bytes, the most significant first.
  function Be(k: nat, n: nat): (r: Bytes)
    ensures |r| == k
    decreases k, n
  {
    if k == 0 then [] else Be(k - 1, n / 0x100) + [n % 0x100]
  }

  function ScalarBytes(kind: Kind, v: Val): Bytes
    requires HasKind(v, kind)
  {
    match kind
    case Bool => [if v.b then 1 else 0]
    case Str => Be(WORD, |v.s|) + v.s
    case _ => Be(Width(kind), v.n)
  }

  // Only values of the type have bytes; anything else is given none.
  function Encode(ty: Ty, v: Val): Bytes
    decreases ty
  {
    match ty
    case Scalar(kind) => if HasKind(v, kind) then ScalarBytes(kind, v) else []
    case Vec(t) => if v.List? then Be(WORD, |v.vs|) + EncodeItems(ty, v.vs) else []
    case Map(k, t) => if v.Entries? then Be(WORD, |v.ps|) + EncodeEntries(ty, v.ps) else []
  }

  function EncodeItems(ty: Ty, vs: seq<Val>): Bytes
    requires ty.Vec?
    decreases ty, |vs|
  {
    if vs == [] then [] else Encode(ty.elem, vs[0]) + EncodeItems(ty, vs[1..])
  }

  function EncodeEntries(ty: Ty, ps: seq<Entry>): Bytes
    requires ty.Map?
    decreases ty, |ps|
  {
    if ps == [] then []
    else Encode(ty.key, ps[0].key) + Encode(ty.val, ps[0].val) + EncodeEntries(ty, ps[1..])
  }

  // ---- reading ----

  // The unread bytes and the ok flag, which never comes back once lost.
  datatype In = In(rest: Bytes, ok: bool)

  // Past the end a byte reads as 0.
  function ReadByte(u: In): (byte, In) {
    if u.rest == [] then (0, In([], false)) else (u.rest[0], u.(rest := u.rest[1..]))
  }

  // k bytes as a number that continues n.
  function ReadBe(k: nat, n: nat, u: In): (nat, In)
    decreases k, u
  {
    if k == 0 then (n, u)
    else
      var (b, u1) := ReadByte(u);
      ReadBe(k - 1, n * 0x100 + b, u1)
  }

  function ReadScalar(kind: Kind, u: In): (Val, In) {
    match kind
    case Bool => var (x, u1) := ReadByte(u); (Flag(x != 0), u1)
    case Str => ReadText(u)
    case _ => var (x, u1) := ReadBe(Width(kind), 0, u); (Num(x), u1)
  }

  // A string whose length cannot be read, or exceeds what is left, reads as
  // empty; the second loses ok.
  function ReadText(u: In): (Val, In) {
    var (n, u1) := ReadBe(WORD, 0, u);
    if !u1.ok then (Text([]), u1)
    else if n > |u1.rest| then (Text([]), u1.(ok := false))
    else (Text(u1.rest[..n]), u1.(rest := u1.rest[n..]))
  }

  // d[a] = b
  function Put(d: seq<Entry>, p: Entry): seq<Entry> {
    if d == [] then [p]
    else if d[0].key == p.key then [p] + d[1..]
    else [d[0]] + Put(d[1..], p)
  }

  function Decode(ty: Ty, u: In): (Val, In)
    decreases ty
  {
    match ty
    case Scalar(kind) => ReadScalar(kind, u)
    case Vec(_) =>
      var (n, u1) := ReadBe(WORD, 0, u);
      var (vs, u2) := DecodeItems(ty, n, [], u1);
      (List(vs), u2)
    case Map(_, _) =>
      var (n, u1) := ReadBe(WORD, 0, u);
      var (d, u2) := DecodeEntries(ty, n, [], u1);
      (Entries(d), u2)
  }

  // The loops that read n more items, or entries, onto those already there.
  function DecodeItems(ty: Ty, n: nat, got: seq<Val>, u: In): (seq<Val>, In)
    requires ty.Vec?
    decreases ty, n
  {
    if n == 0 then (got, u)
    else
      var (v, u1) := Decode(ty.elem, u);
      DecodeItems(ty, n - 1, got + [v], u1)
  }

  function DecodeEntry(ty: Ty, u: In): (Entry, In)
    requires ty.Map?
    decreases ty, 0
  {
    var (a, u1) := Decode(ty.key, u);
    var (b, u2) := Decode(ty.val, u1);
    (Entry(a, b), u2)
  }

  function DecodeEntries(ty: Ty, n: nat, d: seq<Entry>, u: In): (seq<Entry>, In)
    requires ty.Map?
    decreases ty, n + 1
  {
    if n == 0 then (d, u)
    else
      var (p, u1) := DecodeEntry(ty, u);
      DecodeEntries(ty, n - 1, Put(d, p), u1)
  }

  // ---- the bytes on the wire ----

  // Booleans are one byte, 1 or 0, numbers are as wide as their type with the high
  // byte first, and strings carry their length in front.
  lemma ScalarLayout(v: Val)
    ensures HasKind(v, Bool) ==> Encode(Scalar(Bool), v) == [if v.b then 1 else 0]
    ensures HasKind(v, U8) ==> Encode(Scalar(U8), v) == [v.n]
    ensures HasKind(v, U16) ==> Encode(Scalar(U16), v) == [v.n / 256, v.n % 256]
    ensures HasKind(v, Str) ==>
            |Encode(Scalar(Str), v)| == 4 + |v.s| && Encode(Scalar(Str), v)[4..] == v.s
            && Encode(Scalar(Str), v)[..4] == Encode(Scalar(U32), Num(|v.s|))
  {
    assert Range(1) == 0x100 && Range(2) == 0x1_0000;
    WordRange();
    if v.Num? && v.n < 0x100 { OneDigit(v.n); }
    if v.Num? && v.n < 0x1_0000 { TwoDigits(v.n); }
  }

  lemma OneDigit(n: nat)
    requires n < 0x100
    ensures Be(1, n) == [n]
  {
    assert n / 0x100 == 0 && n % 0x100 == n;
  }

  lemma TwoDigits(n: nat)
    requires n < 0x1_0000
    ensures Be(2, n) == [n / 0x100, n % 0x100]
  {
    OneDigit(n / 0x100);
  }

  // A word of four bytes, the first one the highest.
  lemma WordLayout(n: nat)
    requires n < 0x1_0000_0000
    ensures Be(4, n) == [n / 0x100_0000, n / 0x1_0000 % 0x100, n / 0x100 % 0x100, n % 0x100]
  {
    TwoDigits(n / 0x1_0000);
    assert Be(3, n / 0x100) == Be(2, n / 0x1_0000) + [n / 0x100 % 0x100];
  }

  // Items follow one another; of a map's entry the key comes first.
  lemma ItemsLayout(ty: Ty, v: Val, vs: seq<Val>)
    requires ty.Vec?
    ensures EncodeItems(ty, [v] + vs) == Encode(ty.elem, v) + EncodeItems(ty, vs)
  {
    assert ([v] + vs)[1..] == vs;
  }

  lemma EntriesLayout(ty: Ty, p: Entry, ps: seq<Entry>)
    requires ty.Map?
    ensures EncodeEntries(ty, [p] + ps) == Encode(ty.key, p.key) + Encode(ty.val, p.val) + EncodeEntries(ty, ps)
  {
    assert ([p] + ps)[1..] == ps;
  }

  // The number of items or entries goes in front, as a word.
  lemma CountsLayout(ty: Ty, v: Val)
    requires HasType(v, ty) && !ty.Scalar?
    ensures Encode(ty, v)[..4] == Encode(Scalar(U32), Num(if v.List? then |v.vs| else |v.ps|))
    ensures Encode(ty, v)[4..] == if v.List? then EncodeItems(ty, v.vs) else EncodeEntries(ty, v.ps)
  {
    WordRange();
  }

  // Any byte but 0 reads as true.
  lemma ReadsBool(b: byte, rest: Bytes, ok: bool)
    ensures Decode(Scalar(Bool), In([b] + rest, ok)) == (Flag(b != 0), In(rest, ok))
  {
    assert ([b] + rest)[1..] == rest;
  }

  // Bytes that are missing read as zeros, and cost ok.
  lemma {:induction false} PadsWithZeros(k: nat, n: nat, u: In)
    requires |u.rest| < k
    ensures ReadBe(k, n, u) == (ReadBe(k, n, In(u.rest + seq(k - |u.rest|, _ => 0), u.ok)).0, In([], false))
    decreases k
  {
    var v := In(u.rest + seq(k - |u.rest|, _ => 0), u.ok);
    if u.rest == [] {
      assert v.rest[1..] == seq(k - 1, _ => 0);
      ReadsZeros(k - 1, n * 0x100, In([], false), v.(rest := v.rest[1..]));
    } else {
      assert v.rest[1..] == u.rest[1..] + seq(k - |u.rest|, _ => 0);
      PadsWithZeros(k - 1, n * 0x100 + u.rest[0], u.(rest := u.rest[1..]));
    }
  }

  lemma {:induction false} ReadsZeros(k: nat, n: nat, u: In, v: In)
    requires u == In([], false) && v.rest == seq(k, _ => 0)
    ensures ReadBe(k, n, u) == (ReadBe(k, n, v).0, u)
    decreases k
  {
    if k != 0 {
      assert v.rest[1..] == seq(k - 1, _ => 0);
      ReadsZeros(k - 1, n * 0x100, u, v.(rest := v.rest[1..]));
    }
  }

  // Assigning to a key replaces the entry of that key, or adds one, and keeps every
  // other.
  lemma {:induction false} PutAssigns(d: seq<Entry>, p: Entry)
    requires KeysDiffer(d)
    ensures KeysDiffer(Put(d, p))
    ensures forall e :: e in Put(d, p) <==> e == p || (e in d && e.key != p.key)
  {
    if d != [] {
      var t := d[1..];
      assert d == [d[0]] + t;
      PutAssigns(t, p);
      var r := Put(t, p);
      if d[0].key != p.key {
        forall j | 0 <= j < |r| ensures r[j].key != d[0].key { assert r[j] in r; }
      }
    }
  }

  // ---- round trip ----

  lemma WordRange()
    ensures Range(WORD) == 0x1_0000_0000
  {
    assert Range(2) == 0x1_0000;
  }

  // Reading one byte more after k bytes.
  lemma {:induction false} ReadBeLast(k: nat, n: nat, u: In)
    ensures var (m, u1) := ReadBe(k, n, u); var (b, u2) := ReadByte(u1);
            ReadBe(k + 1, n, u) == (m * 0x100 + b, u2)
    decreases k
  {
    var (b, u1) := ReadByte(u);
    if k != 0 {
      ReadBeLast(k - 1, n * 0x100 + b, u1);
    } else {
      assert ReadBe(0, n * 0x100 + b, u1) == (n * 0x100 + b, u1);
    }
  }

  lemma {:induction false} BeBack(k: nat, n: nat, rest: Bytes)
    requires n < Range(k)
    ensures ReadBe(k, 0, In(Be(k, n) + rest, true)) == (n, In(rest, true))
    decreases k
  {
    if k == 0 {
      assert Be(k, n) + rest == rest;
    } else {
      var last := [n % 0x100] + rest;
      assert Be(k, n) + rest == Be(k - 1, n / 0x100) + last;
      BeBack(k - 1, n / 0x100, last);
      ReadBeLast(k - 1, 0, In(Be(k, n) + rest, true));
      assert last[1..] == rest;
    }
  }

  lemma LengthBack(n: nat, rest: Bytes)
    requires n < COUNT_LIMIT
    ensures ReadBe(WORD, 0, In(Be(WORD, n) + rest, true)) == (n, In(rest, true))
  {
    WordRange();
    BeBack(WORD, n, rest);
  }

  lemma ScalarBack(kind: Kind, v: Val, rest: Bytes)
    requires HasKind(v, kind)
    ensures ReadScalar(kind, In(ScalarBytes(kind, v) + rest, true)) == (v, In(rest, true))
  {
    match kind
    case Bool => assert (ScalarBytes(kind, v) + rest)[1..] == rest;
    case Str =>
      assert ScalarBytes(kind, v) + rest == Be(WORD, |v.s|) + (v.s + rest);
      LengthBack(|v.s|, v.s + rest);
    case _ => BeBack(Width(kind), v.n, rest);
  }

  // Reading back what was written returns the value, keeps ok and leaves exactly
  // the bytes that followed.
  lemma {:induction false} RoundTrip(ty: Ty, v: Val, rest: Bytes)
    requires HasType(v, ty)
    ensures Decode(ty, In(Encode(ty, v) + rest, true)) == (v, In(rest, true))
    decreases ty
  {
    match ty
    case Scalar(kind) => ScalarBack(kind, v, rest);
    case Vec(_) =>
      var body := EncodeItems(ty, v.vs);
      assert Encode(ty, v) + rest == Be(WORD, |v.vs|) + (body + rest);
      LengthBack(|v.vs|, body + rest);
      ItemsBack(ty, [], v.vs, rest);
      assert [] + v.vs == v.vs;
    case Map(_, _) =>
      var body := EncodeEntries(ty, v.ps);
      assert Encode(ty, v) + rest == Be(WORD, |v.ps|) + (body + rest);
      LengthBack(|v.ps|, body + rest);
      assert [] + v.ps == v.ps;
      EntriesBack(ty, [], v.ps, rest);
  }

  lemma {:induction false} ItemsBack(ty: Ty, got: seq<Val>, vs: seq<Val>, rest: Bytes)
    requires ty.Vec? && forall i | 0 <= i < |vs| :: HasType(vs[i], ty.elem)
    ensures DecodeItems(ty, |vs|, got, In(EncodeItems(ty, vs) + rest, true)) == (got + vs, In(rest, true))
    decreases ty, |vs|
  {
    if vs == [] {
      assert EncodeItems(ty, vs) + rest == rest;
      assert got + vs == got;
    } else {
      var later := EncodeItems(ty, vs[1..]) + rest;
      assert EncodeItems(ty, vs) + rest == Encode(ty.elem, vs[0]) + later;
      RoundTrip(ty.elem, vs[0], later);
      assert (got + [vs[0]]) + vs[1..] == got + vs;
      ItemsBack(ty, got + [vs[0]], vs[1..], rest);
    }
  }

  lemma {:induction false} PutFresh(d: seq<Entry>, p: Entry)
    requires forall i | 0 <= i < |d| :: d[i].key != p.key
    ensures Put(d, p) == d + [p]
  {
    if d != [] {
      PutFresh(d[1..], p);
      assert [d[0]] + (d[1..] + [p]) == d + [p];
    }
  }

  lemma PutNext(d: seq<Entry>, ps: seq<Entry>)
    requires ps != [] && KeysDiffer(d + ps)
    ensures Put(d, ps[0]) == d + [ps[0]]
  {
    forall i | 0 <= i < |d| ensures d[i].key != ps[0].key {
      assert (d + ps)[i] == d[i] && (d + ps)[|d|] == ps[0];
    }
    PutFresh(d, ps[0]);
  }

  lemma EntryBack(ty: Ty, p: Entry, later: Bytes)
    requires ty.Map? && HasType(p.key, ty.key) && HasType(p.val, ty.val)
    ensures DecodeEntry(ty, In(Encode(ty.key, p.key) + (Encode(ty.val, p.val) + later), true)) == (p, In(later, true))
    decreases ty, 0
  {
    RoundTrip(ty.key, p.key, Encode(ty.val, p.val) + later);
    RoundTrip(ty.val, p.val, later);
  }

  lemma {:induction false} EntriesBack(ty: Ty, d: seq<Entry>, ps: seq<Entry>, rest: Bytes)
    requires ty.Map? && KeysDiffer(d + ps)
    requires forall i | 0 <= i < |ps| :: HasType(ps[i].key, ty.key) && HasType(ps[i].val, ty.val)
    ensures DecodeEntries(ty, |ps|, d, In(EncodeEntries(ty, ps) + rest, true)) == (d + ps, In(rest, true))
    decreases ty, |ps| + 1
  {
    if ps == [] {
      assert EncodeEntries(ty, ps) + rest == rest;
      assert d + ps == d;
    } else {
      var p, later := ps[0], EncodeEntries(ty, ps[1..]) + rest;
      assert EncodeEntries(ty, ps) + rest == Encode(ty.key, p.key) + (Encode(ty.val, p.val) + later);
      EntryBack(ty, p, later);
      PutNext(d, ps);
      assert (d + [p]) + ps[1..] == d + ps;
      EntriesBack(ty, d + [p], ps[1..], rest);
    }
  }

  // ---- truncated input ----

  function Grow(u: In, x: Bytes): In {
    u.(rest := u.rest + x)
  }

  lemma ByteGrow(u: In, x: Bytes)
    requires ReadByte(u).1.ok
    ensures u.ok && ReadByte(Grow(u, x)) == (ReadByte(u).0, Grow(ReadByte(u).1, x))
  {
    assert (u.rest + x)[1..] == u.rest[1..] + x;
  }

  lemma {:induction false} BeGrow(k: nat, n: nat, u: In, x: Bytes)
    requires ReadBe(k, n, u).1.ok
    ensures u.ok && ReadBe(k, n, Grow(u, x)) == (ReadBe(k, n, u).0, Grow(ReadBe(k, n, u).1, x))
    decreases k
  {
    if k != 0 {
      var (b, u1) := ReadByte(u);
      BeGrow(k - 1, n * 0x100 + b, u1, x);
      ByteGrow(u, x);
    }
  }

  lemma TextGrow(u: In, x: Bytes)
    requires ReadText(u).1.ok
    ensures u.ok && ReadText(Grow(u, x)) == (ReadText(u).0, Grow(ReadText(u).1, x))
  {
    BeGrow(WORD, 0, u, x);
    var (n, u1) := ReadBe(WORD, 0, u);
    assert (u1.rest + x)[..n] == u1.rest[..n];
    assert (u1.rest + x)[n..] == u1.rest[n..] + x;
  }

  // A read that ends with ok started with ok and looked only at the bytes it
  // consumed: with more bytes behind them it returns the same value and leaves
  // them unread.
  lemma {:induction false} ReadsNoFurther(ty: Ty, u: In, x: Bytes)
    requires Decode(ty, u).1.ok
    ensures u.ok && Decode(ty, Grow(u, x)) == (Decode(ty, u).0, Grow(Decode(ty, u).1, x))
    decreases ty
  {
    match ty
    case Scalar(kind) =>
      match kind {
        case Bool => ByteGrow(u, x);
        case Str => TextGrow(u, x);
        case _ => BeGrow(Width(kind), 0, u, x);
      }
    case Vec(_) =>
      var (n, u1) := ReadBe(WORD, 0, u);
      ItemsReadNoFurther(ty, n, [], u1, x);
      BeGrow(WORD, 0, u, x);
    case Map(_, _) =>
      var (n, u1) := ReadBe(WORD, 0, u);
      EntriesReadNoFurther(ty, n, [], u1, x);
      BeGrow(WORD, 0, u, x);
  }

  lemma {:induction false} ItemsReadNoFurther(ty: Ty, n: nat, got: seq<Val>, u: In, x: Bytes)
    requires ty.Vec? && DecodeItems(ty, n, got, u).1.ok
    ensures u.ok
    ensures DecodeItems(ty, n, got, Grow(u, x))
         == (DecodeItems(ty, n, got, u).0, Grow(DecodeItems(ty, n, got, u).1, x))
    decreases ty, n
  {
    if n != 0 {
      var (v, u1) := Decode(ty.elem, u);
      ItemsReadNoFurther(ty, n - 1, got + [v], u1, x);
      ReadsNoFurther(ty.elem, u, x);
    }
  }

  lemma EntryReadsNoFurther(ty: Ty, u: In, x: Bytes)
    requires ty.Map? && DecodeEntry(ty, u).1.ok
    ensures u.ok && DecodeEntry(ty, Grow(u, x)) == (DecodeEntry(ty, u).0, Grow(DecodeEntry(ty, u).1, x))
    decreases ty, 0
  {
    var u1 := Decode(ty.key, u).1;
    ReadsNoFurther(ty.val, u1, x);
    ReadsNoFurther(ty.key, u, x);
  }

  lemma {:induction false} EntriesReadNoFurther(ty: Ty, n: nat, d: seq<Entry>, u: In, x: Bytes)
    requires ty.Map? && DecodeEntries(ty, n, d, u).1.ok
    ensures u.ok
    ensures DecodeEntries(ty, n, d, Grow(u, x))
         == (DecodeEntries(ty, n, d, u).0, Grow(DecodeEntries(ty, n, d, u).1, x))
    decreases ty, n + 1
  {
    if n != 0 {
      var (p, u1) := DecodeEntry(ty, u);
      EntriesReadNoFurther(ty, n - 1, Put(d, p), u1, x);
      EntryReadsNoFurther(ty, u, x);
    }
  }

  // ---- sequences of values: the arguments of a call ----

  predicate HaveTypes(vs: seq<Val>, tys: seq<Ty>) {
    |vs| == |tys| && forall i | 0 <= i < |vs| :: HasType(vs[i], tys[i])
  }

  function EncodeAll(tys: seq<Ty>, vs: seq<Val>): Bytes
    requires HaveTypes(vs, tys)
  {
    if tys == [] then [] else Encode(tys[0], vs[0]) + EncodeAll(tys[1..], vs[1..])
  }

  function DecodeAll(tys: seq<Ty>, u: In): (seq<Val>, In) {
    if tys == [] then ([], u)
    else
      var (v, u1) := Decode(tys[0], u);
      var (vs, u2) := DecodeAll(tys[1..], u1);
      ([v] + vs, u2)
  }

  // okdone()
  predicate OkDone(u: In) {
    u.ok && u.rest == []
  }

  lemma {:induction false} RoundTripAll(tys: seq<Ty>, vs: seq<Val>, rest: Bytes)
    requires HaveTypes(vs, tys)
    ensures DecodeAll(tys, In(EncodeAll(tys, vs) + rest, true)) == (vs, In(rest, true))
  {
    if tys == [] {
      assert EncodeAll(tys, vs) + rest == rest;
    } else {
      var later := EncodeAll(tys[1..], vs[1..]) + rest;
      assert EncodeAll(tys, vs) + rest == Encode(tys[0], vs[0]) + later;
      RoundTrip(tys[0], vs[0], later);
      RoundTripAll(tys[1..], vs[1..], rest);
      assert [vs[0]] + vs[1..] == vs;
    }
  }

  lemma {:induction false} AllReadNoFurther(tys: seq<Ty>, u: In, x: Bytes)
    requires DecodeAll(tys, u).1.ok
    ensures u.ok
    ensures DecodeAll(tys, Grow(u, x)) == (DecodeAll(tys, u).0, Grow(DecodeAll(tys, u).1, x))
  {
    if tys != [] {
      AllReadNoFurther(tys[1..], Decode(tys[0], u).1, x);
      ReadsNoFurther(tys[0], u, x);
    }
  }

  // A prefix of a marshalled message unmarshals with ok set exactly when it is
  // the whole message, and then it yields the values sent and is used up.
  lemma PrefixDecodesIffWhole(tys: seq<Ty>, vs: seq<Val>, p: Bytes)
    requires HaveTypes(vs, tys) && p <= EncodeAll(tys, vs)
    ensures DecodeAll(tys, In(p, true)).1.ok <==> p == EncodeAll(tys, vs)
    ensures p == EncodeAll(tys, vs) ==>
      DecodeAll(tys, In(p, true)).0 == vs && OkDone(DecodeAll(tys, In(p, true)).1)
  {
    var all := EncodeAll(tys, vs);
    RoundTripAll(tys, vs, []);
    assert all + [] == all;
    if p != all && DecodeAll(tys, In(p, true)).1.ok {
      var x := all[|p|..];
      assert Grow(In(p, true), x) == In(all, true);
      AllReadNoFurther(tys, In(p, true), x);
    }
  }

  // And with more behind it than was sent, the reading succeeds but is not done.
  lemma DoneIffNothingLeft(tys: seq<Ty>, vs: seq<Val>, rest: Bytes)
    requires HaveTypes(vs, tys)
    ensures DecodeAll(tys, In(EncodeAll(tys, vs) + rest, true)).1.ok
    ensures OkDone(DecodeAll(tys, In(EncodeAll(tys, vs) + rest, true)).1) <==> rest == []
  {
    RoundTripAll(tys, vs, rest);
  }

  // Messages of the same types that start alike are alike: the format is
  // prefix-free, so values can follow one another without separators.
  lemma EncodingIsPrefixFree(tys: seq<Ty>, vs: seq<Val>, ws: seq<Val>)
    requires HaveTypes(vs, tys) && HaveTypes(ws, tys)
    requires EncodeAll(tys, vs) <= EncodeAll(tys, ws)
    ensures vs == ws
  {
    PrefixDecodesIffWhole(tys, ws, EncodeAll(tys, vs));
    RoundTripAll(tys, vs, []);
    assert EncodeAll(tys, vs) + [] == EncodeAll(tys, vs);
  }
}
