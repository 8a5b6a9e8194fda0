// The peer's side of a connection, both sides together, and the object that has
// both roles.
module Delivery {

  import opened Wrappers
  import opened Codec
  import opened Connection

  // ---- reading ----

  // The charbuf of the PDU being read: data is the part read so far.
  datatype Partial = Partial(data: Option<Bytes>, sz: int, solong: int)

  const NOTHING := Partial(None, 0, 0)

  // dead and r are the object's fields; pos is how much of the stream has been
  // read, delivered what got_pdu has accepted.
  datatype Receiver = Receiver(dead: bool, r: Partial, pos: nat, delivered: seq<Bytes>)

  function Signed(n: nat): int {
    if n < 0x8000_0000 then n else n - 0x1_0000_0000
  }

  // The size a header announces.
  function Announced(wire: Bytes, pos: nat): int
    requires pos + SIZE_BYTES <= |wire|
  {
    Signed(ReadBe(SIZE_BYTES, 0, In(wire[pos..pos + SIZE_BYTES], true)).0)
  }

  // A read returns the next bytes of the stream, at most as many as asked for and
  // as have arrived.  A header is never reported as Again: the code asserts that.
  ghost predicate HeaderIo(r: Partial, pos: nat, wire: Bytes, io: Io) {
    r.sz == 0 ==>
      !io.Again? && (io.Moved? ==> io.n <= SIZE_BYTES && pos + io.n <= |wire|)
      && (io == Moved(SIZE_BYTES) ==> Announced(wire, pos) > SIZE_BYTES)
  }

  ghost predicate BodyIo(r: Partial, pos: nat, wire: Bytes, io: Io) {
    io.Moved? ==> 1 <= io.n <= r.sz - r.solong && pos + io.n <= |wire|
  }

  // The first half of readpdu: start a PDU, unless one is under way.
  function ReadHeader(r: Partial, pos: nat, wire: Bytes, io: Io): (Partial, nat, bool)
    requires HeaderIo(r, pos, wire, io)
  {
    if r.sz != 0 then (r, pos, true)
    else if !io.Moved? then (r, pos, false)
    else if io.n != SIZE_BYTES then (r, pos + io.n, false)
    else if Announced(wire, pos) > MAX_PDU then (r, pos + SIZE_BYTES, false)
    else (Partial(Some(wire[pos..pos + SIZE_BYTES]), Announced(wire, pos), SIZE_BYTES), pos + SIZE_BYTES, true)
  }

  // The second half: some more of it.  Failed includes the end of the stream.
  function ReadBody(r: Partial, pos: nat, wire: Bytes, io: Io): (Partial, nat, bool)
    requires r.data.Some? && BodyIo(r, pos, wire, io)
  {
    match io
    case Failed => (NOTHING, pos, false)
    case Again => (r, pos, true)
    case Moved(n) => (Partial(Some(r.data.value + wire[pos..pos + n]), r.sz, r.solong + n), pos + n, true)
  }

  ghost predicate Readable(q: Receiver, wire: Bytes, header: Io, body: Io) {
    q.dead || (q.r.data.Some? && q.r.solong >= q.r.sz) ||
    (&& HeaderIo(q.r, q.pos, wire, header)
     && var (r, pos, ok) := ReadHeader(q.r, q.pos, wire, header); ok ==> r.data.Some? && BodyIo(r, pos, wire, body))
  }

  // readpdu
  function ReadPdu(q: Receiver, wire: Bytes, header: Io, body: Io): (Receiver, bool)
    requires !q.dead && !(q.r.data.Some? && q.r.solong >= q.r.sz) && Readable(q, wire, header, body)
  {
    var (r, pos, ok) := ReadHeader(q.r, q.pos, wire, header);
    if !ok then (q.(r := r, pos := pos), false)
    else
      var (r2, pos2, ok2) := ReadBody(r, pos, wire, body);
      (q.(r := r2, pos := pos2), ok2)
  }

  // A PDU read in full is offered to got_pdu; a refused one is offered again.
  function Offer(q: Receiver, accept: bool): Receiver {
    if q.r.data.Some? && q.r.sz == q.r.solong && accept
    then q.(r := NOTHING, delivered := q.delivered + [q.r.data.value])
    else q
  }

  // read_cb
  function ReadCb(q: Receiver, wire: Bytes, header: Io, body: Io, accept: bool): Receiver
    requires Readable(q, wire, header, body)
  {
    if q.dead then q
    else if q.r.data.Some? && q.r.solong >= q.r.sz then Offer(q, accept)
    else
      var (q1, ok) := ReadPdu(q, wire, header, body);
      Offer(if ok then q1 else q1.(dead := true), accept)
  }

  // What read_cb makes of a PDU depends on got_pdu alone: refused, the buffer is as
  // the read left it and nothing is delivered; accepted, a complete PDU is delivered
  // and the buffer emptied, and an incomplete one is not offered at all.
  lemma AcceptDecides(q: Receiver, wire: Bytes, header: Io, body: Io)
    requires Readable(q, wire, header, body) && !q.dead
    ensures var kept, given := ReadCb(q, wire, header, body, false), ReadCb(q, wire, header, body, true);
            && kept.delivered == q.delivered
            && (kept.r.data.Some? && kept.r.solong == kept.r.sz ==>
                  given == kept.(r := Partial(None, 0, 0), delivered := q.delivered + [kept.r.data.value]))
            && (kept.r.data.None? || kept.r.solong != kept.r.sz ==> given == kept)
    ensures q.r.data.Some? && q.r.solong >= q.r.sz ==> ReadCb(q, wire, header, body, false) == q
  {
  }

  // What kills a connection on the reading side: no header, part of one, one that
  // announces more than ten megabytes, or a failed read of the body; a body that is
  // not there yet does not.
  lemma ReadFailures(q: Receiver, wire: Bytes, header: Io, body: Io, accept: bool)
    requires Readable(q, wire, header, body) && !q.dead && !(q.r.data.Some? && q.r.solong >= q.r.sz)
    ensures var t := ReadCb(q, wire, header, body, accept);
            && (q.r.sz == 0 && !(header.Moved? && header.n == 4) ==> t.dead && t.delivered == q.delivered)
            && (q.r.sz == 0 && header == Moved(4) ==>
                  var size := Announced(wire, q.pos);
                  && (size > 10_485_760 ==> t.dead && t.delivered == q.delivered)
                  && (size <= 10_485_760 ==> (t.dead <==> body == Failed)))
            && (q.r.sz != 0 ==> (t.dead <==> body == Failed))
            && (q.r.sz != 0 && body == Again ==> t == q)
  {
  }

  // ---- both ends ----

  // Where PDU k starts on the stream.
  function Off(done: seq<Sent>, k: nat): nat
    requires k <= |done|
  {
    |Stream(done[..k])|
  }

  // PDU k: whole on the stream, or the one being written.
  function Frame(s: Sender, k: nat): Pdu
    requires k <= |s.done|
  {
    if k < |s.done| then Stamp(s.done[k].b) else Stamp(s.last)
  }

  // What has been delivered is what was sent, in order and unchanged, and the
  // rest of what was read is the start of the next PDU.
  ghost predicate InStep(s: Sender, q: Receiver) {
    var k := |q.delivered|;
    && k <= |s.done|
    && (forall i | 0 <= i < k :: q.delivered[i] == Stamp(s.done[i].b))
    && (!q.dead ==>
          if q.r.data.None? then q.r == NOTHING && q.pos == Off(s.done, k) <= |s.wire|
          else
            && |q.r.data.value| == q.r.solong && SIZE_BYTES <= q.r.solong <= q.r.sz == |Frame(s, k)|
            && q.pos == Off(s.done, k) + q.r.solong <= |s.wire|
            && q.r.data.value == s.wire[Off(s.done, k)..q.pos])
  }

  lemma {:induction false} StreamAt(done: seq<Sent>, k: nat)
    requires k < |done|
    ensures Off(done, k + 1) == Off(done, k) + |done[k].b| <= |Stream(done)|
    ensures Stream(done)[Off(done, k)..Off(done, k + 1)] == Stamp(done[k].b)
    decreases |done|
  {
    var front := done[..|done| - 1];
    assert done[..k + 1][..k] == done[..k];
    if k < |front| {
      StreamAt(front, k);
      assert front[..k] == done[..k] && front[..k + 1] == done[..k + 1];
    } else {
      assert done[..k + 1] == done && done[..k] == front;
    }
  }

  lemma PrefixSlice(s: Bytes, t: Bytes, i: nat, j: nat)
    requires |s| <= |t| && t[..|s|] == s && i <= j <= |s|
    ensures t[i..j] == s[i..j]
  {
    forall m | 0 <= m < j - i ensures t[i..j][m] == s[i..j][m] {
      assert t[..|s|][i + m] == s[i + m];
    }
  }

  lemma SliceOfSlice(s: Bytes, i: nat, j: nat, n: nat)
    requires i + n <= j <= |s|
    ensures s[i..j][..n] == s[i..i + n]
  {
  }

  lemma Glue(s: Bytes, i: nat, j: nat, k: nat)
    requires i <= j <= k <= |s|
    ensures s[i..j] + s[j..k] == s[i..k]
  {
  }

  // The next bytes on the stream belong to PDU k.
  lemma FrameAt(s: Sender, k: nat, n: nat)
    requires Inv(s) && k <= |s.done| && n <= |Frame(s, k)| && Off(s.done, k) + n <= |s.wire|
    ensures s.wire[Off(s.done, k)..Off(s.done, k) + n] == Frame(s, k)[..n]
    ensures k == |s.done| ==> n <= |s.tail| < |Frame(s, k)|
  {
    var o, whole := Off(s.done, k), Stream(s.done);
    if k < |s.done| {
      StreamAt(s.done, k);
      PrefixSlice(whole, s.wire, o, o + n);
      SliceOfSlice(whole, o, Off(s.done, k + 1), n);
    } else {
      assert s.done[..k] == s.done;
      assert s.wire[o..] == s.tail;
      SliceOfSlice(s.wire, o, |s.wire|, n);
      assert s.tail[..n] == Stamp(s.last)[..n];
    }
  }

  lemma SizeAnnounced(s: Sender, k: nat)
    requires Inv(s) && k <= |s.done| && Off(s.done, k) + SIZE_BYTES <= |s.wire|
    ensures Announced(s.wire, Off(s.done, k)) == |Frame(s, k)|
  {
    var f, o := Frame(s, k), Off(s.done, k);
    FrameAt(s, k, SIZE_BYTES);
    var b := if k < |s.done| then s.done[k].b else s.last;
    assert f[..SIZE_BYTES] == Be(SIZE_BYTES, |b|);
    assert Be(SIZE_BYTES, |b|) + [] == Be(SIZE_BYTES, |b|);
    LengthBack(|b|, []);
  }

  // ---- reading keeps in step ----

  lemma HeaderKeeps(s: Sender, q: Receiver, io: Io)
    requires Inv(s) && InStep(s, q) && !q.dead && HeaderIo(q.r, q.pos, s.wire, io)
    ensures var (r, pos, ok) := ReadHeader(q.r, q.pos, s.wire, io);
            if ok then r.data.Some? && InStep(s, q.(r := r, pos := pos)) else r == q.r
  {
    if q.r.sz == 0 && io == Moved(SIZE_BYTES) {
      SizeAnnounced(s, |q.delivered|);
    }
  }

  lemma BodyKeeps(s: Sender, q: Receiver, io: Io)
    requires Inv(s) && InStep(s, q) && !q.dead && q.r.data.Some? && BodyIo(q.r, q.pos, s.wire, io)
    ensures var (r, pos, ok) := ReadBody(q.r, q.pos, s.wire, io); ok ==> InStep(s, q.(r := r, pos := pos))
  {
    if io.Moved? {
      var o := Off(s.done, |q.delivered|);
      Glue(s.wire, o, q.pos, q.pos + io.n);
    }
  }

  // A PDU read in full is the next one written whole.
  lemma ReadInFull(s: Sender, q: Receiver)
    requires Inv(s) && InStep(s, q) && !q.dead && q.r.data.Some? && q.r.sz == q.r.solong
    ensures var k := |q.delivered|;
            k < |s.done| && q.r.data.value == Stamp(s.done[k].b) && q.pos == Off(s.done, k + 1) <= |s.wire|
  {
    var k := |q.delivered|;
    FrameAt(s, k, q.r.sz);
    assert Frame(s, k)[..q.r.sz] == Frame(s, k);
    StreamAt(s.done, k);
  }

  lemma OfferKeeps(s: Sender, q: Receiver, accept: bool)
    requires Inv(s) && InStep(s, q) && (q.dead ==> q.r.data.None?)
    ensures InStep(s, Offer(q, accept))
  {
    if q.r.data.Some? && q.r.sz == q.r.solong {
      ReadInFull(s, q);
    }
  }

  lemma ReadKeeps(s: Sender, q: Receiver, header: Io, body: Io, accept: bool)
    requires Inv(s) && InStep(s, q) && Readable(q, s.wire, header, body)
    ensures InStep(s, ReadCb(q, s.wire, header, body, accept))
  {
    if !q.dead {
      if q.r.data.Some? && q.r.solong >= q.r.sz {
        OfferKeeps(s, q, accept);
      } else {
        HeaderKeeps(s, q, header);
        var (r, pos, ok) := ReadHeader(q.r, q.pos, s.wire, header);
        if ok {
          BodyKeeps(s, q.(r := r, pos := pos), body);
        }
        var (q1, ok1) := ReadPdu(q, s.wire, header, body);
        OfferKeeps(s, if ok1 then q1 else q1.(dead := true), accept);
      }
    }
  }

  // ---- sending keeps in step ----

  // The stream only grows, and a PDU begun stays the next one.
  ghost predicate Extends(s: Sender, t: Sender) {
    && |s.done| <= |t.done| && t.done[..|s.done|] == s.done
    && |s.wire| <= |t.wire| && t.wire[..|s.wire|] == s.wire
    && (s.tail != [] ==> Frame(t, |s.done|) == Frame(s, |s.done|))
  }

  lemma QuietExtends(s: Sender, t: Sender)
    requires t.wire == s.wire && t.done == s.done && t.last == s.last
    ensures Extends(s, t)
  {
  }

  lemma WriteExtends(s: Sender, io: Io)
    requires OwnerOk(s) && WireOk(s) && s.w.sz != 0 && Writable(s.w, io)
    ensures Extends(s, Write(s, io).0)
  {
  }

  lemma WriteReadyExtends(s: Sender, io: Io)
    requires Inv(s) && Enabled(s, WriteReady(io)) && s.w.sz != 0
    ensures Extends(s, Apply(s, WriteReady(io)))
  {
    WriteExtends(s, io);
    var s1, t := Write(s, io).0, Apply(s, WriteReady(io));
    assert t.wire == s1.wire && t.done == s1.done && t.last == s1.last;
  }

  lemma AttemptExtends(s: Sender, id: nat, b: Pdu, io: Io)
    requires Inv(s) && id !in s.calls && (s.dead || s.w.data.None?)
    requires io.Moved? ==> io.n <= |b|
    ensures Extends(s, Attempt(s, id, b, io))
  {
    if !s.dead {
      ClaimKeeps(s, id, b);
      WriteExtends(Claim(s, id, b), io);
    }
  }

  lemma StepExtends(s: Sender, e: Event)
    requires Inv(s) && Enabled(s, e)
    ensures Extends(s, Apply(s, e))
  {
    if (e.Call? || e.Awake?) && (s.dead || s.w.data.None?) {
      if e.Call? {
        AttemptExtends(s, e.id, e.b, e.io);
      } else {
        ForgetKeeps(s, e.id);
        AttemptExtends(s.(waiters := s.waiters - 1, calls := s.calls - {e.id}), e.id, s.calls[e.id].b, e.io);
      }
    } else if e.WriteReady? && s.w.sz != 0 {
      WriteReadyExtends(s, e.io);
    } else {
      QuietExtends(s, Apply(s, e));
    }
  }

  lemma PrefixSent(s: Sender, t: Sender, k: nat)
    requires Extends(s, t) && k <= |s.done|
    ensures t.done[..k] == s.done[..k]
    ensures k < |s.done| ==> t.done[k] == s.done[k]
  {
    assert t.done[..k] == t.done[..|s.done|][..k];
    assert k < |s.done| ==> t.done[k] == t.done[..|s.done|][k];
  }

  lemma ExtendsKeepsStep(s: Sender, t: Sender, q: Receiver)
    requires Inv(s) && Extends(s, t) && InStep(s, q)
    ensures InStep(t, q)
  {
    var k := |q.delivered|;
    forall i | 0 <= i < k ensures q.delivered[i] == Stamp(t.done[i].b) {
      PrefixSent(s, t, i);
    }
    PrefixSent(s, t, k);
    if !q.dead && q.r.data.Some? {
      FrameAt(s, k, q.r.solong);
      PrefixSlice(s.wire, t.wire, Off(s.done, k), q.pos);
      assert Frame(t, k) == Frame(s, k);
    }
  }

  // ---- whole runs of both ends ----

  datatype Link = Link(s: Sender, q: Receiver)

  datatype Step = Send(e: Event) | Read(header: Io, body: Io, accept: bool)

  function Fresh(): Link {
    Link(Start(), Receiver(false, NOTHING, 0, []))
  }

  ghost predicate CanDo(l: Link, step: Step) {
    match step
    case Send(e) => Enabled(l.s, e)
    case Read(header, body, _) => Readable(l.q, l.s.wire, header, body)
  }

  function Do(l: Link, step: Step): Link
    requires CanDo(l, step)
  {
    match step
    case Send(e) => l.(s := Apply(l.s, e))
    case Read(header, body, accept) => l.(q := ReadCb(l.q, l.s.wire, header, body, accept))
  }

  ghost predicate IsRun(ls: seq<Link>, steps: seq<Step>) {
    && |ls| == |steps| + 1 && ls[0] == Fresh()
    && forall i | 0 <= i < |steps| :: CanDo(ls[i], steps[i]) && ls[i + 1] == Do(ls[i], steps[i])
  }

  lemma {:induction false} RunKeeps(ls: seq<Link>, steps: seq<Step>, i: nat)
    requires IsRun(ls, steps) && i < |ls|
    ensures Inv(ls[i].s) && InStep(ls[i].s, ls[i].q)
  {
    if i == 0 {
      StartsOk();
    } else {
      RunKeeps(ls, steps, i - 1);
      var l, step := ls[i - 1], steps[i - 1];
      match step {
        case Send(e) =>
          StepKeeps(l.s, e);
          StepExtends(l.s, e);
          ExtendsKeepsStep(l.s, Apply(l.s, e), l.q);
        case Read(header, body, accept) => ReadKeeps(l.s, l.q, header, body, accept);
      }
    }
  }

  // Whatever the interleaving of senders and however reads and writes are split:
  // the stream is whole PDUs and at most the start of one more; what is delivered
  // is a prefix of those PDUs, unchanged; each is the PDU of a call of its own;
  // and a call that returned true has its PDU among them.
  lemma DeliversInOrder(ls: seq<Link>, steps: seq<Step>, i: nat)
    requires IsRun(ls, steps) && i < |ls|
    ensures var s, q := ls[i].s, ls[i].q;
            && s.wire == Stream(s.done) + s.tail && |s.tail| < |s.last| && s.tail <= Stamp(s.last)
            && |q.delivered| <= |s.done| && (forall j | 0 <= j < |q.delivered| :: q.delivered[j] == Stamp(s.done[j].b))
            && (forall x | x in s.done :: x.id in s.calls && s.calls[x.id].b == x.b)
            && (forall j, k | 0 <= j < k < |s.done| :: s.done[j].id != s.done[k].id)
            && (forall id | id in s.calls && s.calls[id].Returned? && s.calls[id].ok ::
                  Sent(id, s.calls[id].b) in s.done)
  {
    RunKeeps(ls, steps, i);
  }

  // ---- progress of the receiver ----

  // The bytes that are left of the PDU under way.
  function Rest(s: Sender, q: Receiver): nat
    requires |q.delivered| < |s.done|
  {
    var n := |s.done[|q.delivered|].b|;
    if q.r.data.None? then n - SIZE_BYTES else if q.r.solong < n then n - q.r.solong else 0
  }

  lemma RestIsThere(s: Sender, q: Receiver)
    requires Inv(s) && InStep(s, q) && !q.dead && |q.delivered| < |s.done|
    ensures var k := |q.delivered|;
            && Off(s.done, k) + |s.done[k].b| == Off(s.done, k + 1) <= |s.wire|
            && (q.r.data.Some? ==> q.pos + Rest(s, q) == Off(s.done, k + 1))
            && (q.r.data.None? ==> q.pos + SIZE_BYTES + Rest(s, q) == Off(s.done, k + 1)
                                   && Announced(s.wire, q.pos) == |s.done[k].b|)
  {
    StreamAt(s.done, |q.delivered|);
    if q.r.data.None? { SizeAnnounced(s, |q.delivered|); }
  }

  // The next PDU has arrived whole and is not too long: a callback whose reads get
  // all of it delivers it, if got_pdu accepts.
  lemma ReadDelivers(s: Sender, q: Receiver)
    requires Inv(s) && InStep(s, q) && !q.dead && |q.delivered| < |s.done|
    requires |s.done[|q.delivered|].b| <= MAX_PDU
    ensures var header, body := Moved(SIZE_BYTES), Moved(Rest(s, q));
            && Readable(q, s.wire, header, body)
            && ReadCb(q, s.wire, header, body, true) ==
               Receiver(false, Partial(None, 0, 0), Off(s.done, |q.delivered| + 1),
                        q.delivered + [Stamp(s.done[|q.delivered|].b)])
  {
    var header, body := Moved(SIZE_BYTES), Moved(Rest(s, q));
    RestIsThere(s, q);
    assert Readable(q, s.wire, header, body);
    var t := ReadCb(q, s.wire, header, body, true);
    ReadKeeps(s, q, header, body, true);
    assert |t.delivered| == |q.delivered| + 1;
    assert t.delivered[|q.delivered|] == Stamp(s.done[|q.delivered|].b);
  }

  ghost predicate ReadLeads(l: Link, step: Step, m: Link) {
    step.Read? && CanDo(l, step) && m == Do(l, step)
  }

  ghost predicate OnlyReads(ls: seq<Link>, steps: seq<Step>) {
    && |ls| == |steps| + 1
    && forall i {:trigger steps[i]} | 0 <= i < |steps| :: ReadLeads(ls[i], steps[i], ls[i + 1])
  }

  lemma ReadFirst(l: Link, step: Step, ls: seq<Link>, steps: seq<Step>)
    requires OnlyReads(ls, steps) && ReadLeads(l, step, ls[0])
    ensures OnlyReads([l] + ls, [step] + steps)
  {
    var ms, more := [l] + ls, [step] + steps;
    forall i | 0 <= i < |more| ensures ReadLeads(ms[i], more[i], ms[i + 1]) {
      if i > 0 { assert ReadLeads(ls[i - 1], steps[i - 1], ls[i]); }
    }
  }

  lemma ReadOne(l: Link) returns (step: Step, m: Link)
    requires Inv(l.s) && InStep(l.s, l.q) && !l.q.dead && |l.q.delivered| < |l.s.done|
    requires |l.s.done[|l.q.delivered|].b| <= MAX_PDU
    ensures ReadLeads(l, step, m) && m.s == l.s && InStep(m.s, m.q) && !m.q.dead
    ensures |m.q.delivered| == |l.q.delivered| + 1
  {
    ReadDelivers(l.s, l.q);
    step := Read(Moved(SIZE_BYTES), Moved(Rest(l.s, l.q)), true);
    ReadKeeps(l.s, l.q, step.header, step.body, true);
    m := Do(l, step);
  }

  lemma {:induction false} ReadsCatchUp(l: Link) returns (steps: seq<Step>, ls: seq<Link>)
    requires Inv(l.s) && InStep(l.s, l.q) && !l.q.dead
    requires forall k | 0 <= k < |l.s.done| :: |l.s.done[k].b| <= MAX_PDU
    ensures OnlyReads(ls, steps) && ls[0] == l && ls[|steps|].s == l.s
    ensures |ls[|steps|].q.delivered| == |l.s.done|
    decreases |l.s.done| - |l.q.delivered|
  {
    if |l.q.delivered| == |l.s.done| {
      steps, ls := [], [l];
    } else {
      var step, m := ReadOne(l);
      var rest, ms := ReadsCatchUp(m);
      ReadFirst(l, step, ms, rest);
      steps, ls := [step] + rest, [l] + ms;
    }
  }

  // Whatever happened before, as long as the receiver is alive it can catch up: from
  // every state of every run some reads lead to the state in which every PDU written
  // whole is delivered.
  lemma RunCatchesUp(ls: seq<Link>, steps: seq<Step>, i: nat) returns (more: seq<Step>, ms: seq<Link>)
    requires IsRun(ls, steps) && i < |ls| && !ls[i].q.dead
    requires forall k | 0 <= k < |ls[i].s.done| :: |ls[i].s.done[k].b| <= MAX_PDU
    ensures OnlyReads(ms, more) && ms[0] == ls[i] && ms[|more|].s == ls[i].s
    ensures |ms[|more|].q.delivered| == |ls[i].s.done|
  {
    RunKeeps(ls, steps, i);
    more, ms := ReadsCatchUp(ls[i]);
  }

  // No blocked call is forgotten: one sleeps unnotified only while the buffer is
  // in use, and its owner sleeps unnotified only while there is something left to
  // write or closeconn has been called.
  lemma NobodySleepsForNothing(ls: seq<Link>, steps: seq<Step>, i: nat, id: nat)
    requires IsRun(ls, steps) && i < |ls| && id in ls[i].s.calls
    ensures var s := ls[i].s;
            && (s.calls[id].Waiting? && !s.calls[id].woken ==>
                  s.holder in s.calls && (s.calls[s.holder].Sending? || s.calls[s.holder].Failing?))
            && (s.calls[id].Sending? && !s.calls[id].notified ==>
                  s.closed || (!s.dead && 0 <= s.w.solong < s.w.sz))
  {
    RunKeeps(ls, steps, i);
  }

  // Once the connection is dead nothing more is written.
  lemma DeadIsSilent(s: Sender, e: Event)
    requires Inv(s) && Enabled(s, e) && s.dead
    ensures var t := Apply(s, e); t.dead && t.wire == s.wire && t.done == s.done
  {
  }

  // Calls that come back between s and t say true exactly when t is alive.
  ghost predicate VerdictsOk(s: Sender, t: Sender) {
    forall id | id in t.calls && t.calls[id].Returned? && !(id in s.calls && s.calls[id].Returned?) ::
      t.calls[id].ok <==> !t.dead
  }

  lemma FinishVerdict(s: Sender, id: nat)
    requires Near(s) && s.w.data.Some? && id == s.holder && (s.dead || Whole(s.w))
    ensures VerdictsOk(s, Finish(s, id)) && Finish(s, id).dead == s.dead
  {
  }

  lemma AttemptVerdict(s: Sender, id: nat, b: Pdu, io: Io)
    requires Inv(s) && id !in s.calls && (s.dead || s.w.data.None?)
    requires io.Moved? ==> io.n <= |b|
    ensures VerdictsOk(s, Attempt(s, id, b, io))
  {
    if !s.dead && !io.Failed? {
      ClaimKeeps(s, id, b);
      var s0 := Claim(s, id, b);
      WriteKeeps(s0, io);
      var s1 := Write(s0, io).0;
      if s1.w.solong == s1.w.sz {
        FinishVerdict(s1, id);
      }
    }
  }

  // A call that comes back says true exactly when the connection is alive, and
  // then its PDU is whole on the stream.
  lemma ReturnsTrueIffAlive(s: Sender, e: Event, id: nat)
    requires Inv(s) && Enabled(s, e) && (id in s.calls ==> !s.calls[id].Returned?)
    requires id in Apply(s, e).calls && Apply(s, e).calls[id].Returned?
    ensures var t := Apply(s, e);
            && (t.calls[id].ok <==> !t.dead)
            && (t.calls[id].ok ==> Sent(id, t.calls[id].b) in t.done)
  {
    StepKeeps(s, e);
    StepVerdicts(s, e);
  }

  lemma StepVerdicts(s: Sender, e: Event)
    requires Inv(s) && Enabled(s, e)
    ensures VerdictsOk(s, Apply(s, e))
  {
    match e
    case Call(id, b, io) =>
      if s.dead || s.w.data.None? {
        AttemptVerdict(s, id, b, io);
      }
    case Awake(id, io) =>
      if s.dead || s.w.data.None? {
        ForgetKeeps(s, id);
        AttemptVerdict(s.(waiters := s.waiters - 1, calls := s.calls - {id}), id, s.calls[id].b, io);
      }
    case Notice(id) =>
      if s.dead || !(0 <= s.w.solong < s.w.sz) {
        FinishVerdict(s, id);
      }
    case Resume(id) => FinishVerdict(s, id);
    case _ =>
  }

  // false does not mean that the PDU was not sent: when the reading side fails
  // between the last write and the wake-up, a PDU that is whole on the stream is
  // reported as not sent.
  lemma FalseDoesNotMeanUnsent(b: Pdu)
    ensures var s1 := Apply(Start(), Call(0, b, Moved(0)));
            && Enabled(s1, WriteReady(Moved(|b|)))
            && var s2 := Apply(s1, WriteReady(Moved(|b|)));
            && Enabled(s2, ReadFailed)
            && var s3 := Apply(s2, ReadFailed);
            && Enabled(s3, Notice(0))
            && var s4 := Apply(s3, Notice(0));
            && s4.calls[0] == Returned(b, false) && s4.wire == Stamp(b) && s4.done == [Sent(0, b)]
  {
    StampAgain(b);
    StreamMore([], Sent(0, b));
    var s1 := Apply(Start(), Call(0, b, Moved(0)));
    assert s1.wire == [] && s1.w == Buf(Some(Stamp(b)), |b|, 0);
    var s2 := Apply(s1, WriteReady(Moved(|b|)));
    assert s2.wire == Stamp(b)[0..|b|] == Stamp(b);
  }

  ghost predicate Returns(s: Sender, e: Event, id: nat)
    requires Enabled(s, e)
  {
    && id in Apply(s, e).calls && Apply(s, e).calls[id].Returned?
    && (id in s.calls ==> !s.calls[id].Returned?)
  }

  lemma ReturnsOwn(s: Sender, e: Event, id: nat)
    requires Enabled(s, e) && Returns(s, e, id)
    ensures (e.Call? || e.Awake? || e.Notice? || e.Resume?) && e.id == id
    ensures Apply(s, e).calls[id].b == if e.Call? then e.b else s.calls[id].b
  {
  }

  // A step that kills the connection returns nobody.
  lemma DeadBeforeReturn(s: Sender, e: Event, id: nat)
    requires OwnerOk(s) && Enabled(s, e) && Returns(s, e, id) && Apply(s, e).dead
    ensures s.dead
  {
    ReturnsOwn(s, e, id);
  }

  lemma SentBeforeReturn(s: Sender, id: nat, b: Pdu)
    requires Inv(s) && (id in s.calls ==> !s.calls[id].Returned?)
    ensures Sent(id, b) in s.done <==> id in s.calls && s.calls[id].b == b && id == s.holder && Whole(s.w)
  {
  }

  // Exactly when it does: the owner wakes on a dead connection and finds its PDU
  // written whole.
  lemma FalseButSentIff(s: Sender, e: Event, id: nat)
    requires Inv(s) && Enabled(s, e) && Returns(s, e, id)
    ensures var t := Apply(s, e);
            !t.calls[id].ok && Sent(id, t.calls[id].b) in t.done <==> e == Notice(id) && s.dead && Whole(s.w)
  {
    ReturnsTrueIffAlive(s, e, id);
    ReturnsOwn(s, e, id);
    SentBeforeReturn(s, id, Apply(s, e).calls[id].b);
    if Apply(s, e).dead {
      DeadBeforeReturn(s, e, id);
    }
    if s.dead {
      DeadIsSilent(s, e);
    }
  }

  // The owner of the buffer is never far from its end: with the connection alive and
  // bytes left, a write that takes them and the owner's wake-up make its send return
  // true with the PDU whole on the stream, and leave the buffer free.
  lemma SendCanComplete(s: Sender)
    requires Inv(s) && !s.dead && s.w.data.Some? && 0 <= s.w.solong < s.w.sz
    ensures var e := WriteReady(Moved(s.w.sz - s.w.solong));
            && Enabled(s, e)
            && var t := Apply(s, e);
            && t.calls[s.holder] == Sending(s.calls[s.holder].b, true) && Enabled(t, Notice(s.holder))
            && var u := Apply(t, Notice(s.holder));
            && u.calls[s.holder] == Returned(s.calls[s.holder].b, true)
            && Sent(s.holder, s.calls[s.holder].b) in u.done && u.w.data.None? && !u.dead
  {
  }

  // A call made while nothing is being sent takes the buffer, one made while
  // something is waits, and one made on a dead connection fails at once.
  lemma CallBegins(s: Sender, id: nat, b: Pdu, io: Io)
    requires OwnerOk(s) && Enabled(s, Call(id, b, io))
    ensures var t := Apply(s, Call(id, b, io));
            && (s.dead ==> t.calls[id] == Returned(b, false) && t.w == s.w && t.wire == s.wire)
            && (!s.dead && s.w.data.Some? ==> t.calls[id] == Waiting(b, false) && t.w == s.w && t.wire == s.wire)
            && (!s.dead && s.w.data.None? && io == Moved(|b|) ==>
                  t.calls[id] == Returned(b, true) && t.wire == s.wire + Stamp(b) && t.w.data.None?)
            && (!s.dead && s.w.data.None? && (io == Again || (io.Moved? && io.n < |b|)) ==>
                  t.calls[id] == Sending(b, false) && t.holder == id && t.w.sz == |b| && !t.dead)
            && (!s.dead && s.w.data.None? && io == Failed ==> t.calls[id] == Failing(b) && t.dead)
  {
  }

  // A call woken from its first wait starts over: it sleeps again while the buffer
  // is in use, and otherwise goes on as a new call does.
  lemma AwakeBegins(s: Sender, id: nat, io: Io)
    requires OwnerOk(s) && Enabled(s, Awake(id, io))
    ensures var t, b := Apply(s, Awake(id, io)), s.calls[id].b;
            && (!s.dead && s.w.data.Some? ==> t.calls[id] == Waiting(b, false) && t.waiters == s.waiters)
            && (s.dead || s.w.data.None? ==>
                  && t.waiters == s.waiters - 1
                  && t.calls[id] == Apply(s.(calls := s.calls - {id}), Call(id, b, io)).calls[id]
                  && t.wire == Apply(s.(calls := s.calls - {id}), Call(id, b, io)).wire)
  {
  }

  // Asleep in the second wait of send.
  predicate Asleep(s: Sender, id: nat) {
    id in s.calls && s.calls[id].Sending? && !s.calls[id].notified
  }

  // The owner of the buffer sleeps on a dead connection.
  ghost predicate Stranded(s: Sender, id: nat) {
    s.dead && s.w.data.Some? && s.holder == id && Asleep(s, id)
  }

  lemma DeadLullsNobody(s: Sender, e: Event, id: nat)
    requires OwnerOk(s) && Enabled(s, e) && s.dead && Asleep(Apply(s, e), id)
    ensures Stranded(s, id) && e != Notice(id)
  {
  }

  // A failed read or write wakes the owner.
  lemma FailureWakes(s: Sender, e: Event, id: nat)
    requires OwnerOk(s) && Enabled(s, e) && !s.dead && e != Close && Apply(s, e).dead
    ensures !Asleep(Apply(s, e), id)
  {
  }

  lemma StrandedStays(s: Sender, e: Event, id: nat)
    requires OwnerOk(s) && Enabled(s, e) && Stranded(s, id) && e != Notice(id)
    ensures Stranded(Apply(s, e), id)
  {
  }

  // Only a close strands, and only its own wake-up frees.
  lemma StrandedEventIff(s: Sender, e: Event, id: nat)
    requires OwnerOk(s) && Enabled(s, e)
    ensures Stranded(Apply(s, e), id) <==> (e == Close && Asleep(s, id)) || (Stranded(s, id) && e != Notice(id))
  {
    if e != Close {
      if Stranded(s, id) && e != Notice(id) {
        StrandedStays(s, e, id);
      }
      if Stranded(Apply(s, e), id) {
        if s.dead {
          DeadLullsNobody(s, e, id);
        } else {
          FailureWakes(s, e, id);
        }
      }
    }
  }

  lemma StrandedStepIff(ls: seq<Link>, steps: seq<Step>, i: nat, id: nat)
    requires IsRun(ls, steps) && i < |steps|
    ensures Stranded(ls[i + 1].s, id) <==>
            || (steps[i] == Send(Close) && Asleep(ls[i].s, id))
            || (Stranded(ls[i].s, id) && steps[i] != Send(Notice(id)))
  {
    RunKeeps(ls, steps, i);
    assert CanDo(ls[i], steps[i]) && ls[i + 1] == Do(ls[i], steps[i]);
    if steps[i].Send? {
      StrandedEventIff(ls[i].s, steps[i].e, id);
    }
  }

  // So an owner left asleep stays so, whatever either end does in the rest of the
  // run, until a spurious wake-up of its own.
  lemma {:induction false} CloseStrandsOwner(ls: seq<Link>, steps: seq<Step>, i: nat, j: nat, id: nat)
    requires IsRun(ls, steps) && i <= j < |ls| && Stranded(ls[i].s, id)
    requires forall k | i <= k < j :: steps[k] != Send(Notice(id))
    ensures Stranded(ls[j].s, id)
    decreases j
  {
    if i < j {
      CloseStrandsOwner(ls, steps, i, j - 1, id);
      StrandedStepIff(ls, steps, j - 1, id);
    }
  }

  // Step i closes the connection while the call sleeps, and the call does not wake
  // before state j.
  ghost predicate StrandedBy(ls: seq<Link>, steps: seq<Step>, i: nat, j: nat, id: nat)
    requires i < j <= |steps| < |ls|
  {
    steps[i] == Send(Close) && Asleep(ls[i].s, id) && forall k | i < k < j :: steps[k] != Send(Notice(id))
  }

  ghost predicate ClosedOver(ls: seq<Link>, steps: seq<Step>, j: nat, id: nat)
    requires j <= |steps| < |ls|
  {
    exists i: nat :: i < j && StrandedBy(ls, steps, i, j, id)
  }

  // Exactly when a call of send is left asleep on a dead connection: closeconn,
  // which notifies nobody, was called while it slept, and no spurious wake-up of
  // its own came since.  No failure of a read or write strands anyone.
  lemma {:induction false} StrandedIff(ls: seq<Link>, steps: seq<Step>, j: nat, id: nat)
    requires IsRun(ls, steps) && j < |ls|
    ensures Stranded(ls[j].s, id) <==> ClosedOver(ls, steps, j, id)
    decreases j
  {
    if j > 0 {
      StrandedIff(ls, steps, j - 1, id);
      StrandedStepIff(ls, steps, j - 1, id);
      ClosedSince(ls, steps, j - 1, id);
    }
  }

  lemma ClosedSince(ls: seq<Link>, steps: seq<Step>, j: nat, id: nat)
    requires j < |steps| < |ls|
    ensures ClosedOver(ls, steps, j + 1, id) <==>
            || (steps[j] == Send(Close) && Asleep(ls[j].s, id))
            || (ClosedOver(ls, steps, j, id) && steps[j] != Send(Notice(id)))
  {
    if ClosedOver(ls, steps, j + 1, id) {
      var i: nat :| i < j + 1 && StrandedBy(ls, steps, i, j + 1, id);
      assert i < j ==> StrandedBy(ls, steps, i, j, id);
    }
    if ClosedOver(ls, steps, j, id) && steps[j] != Send(Notice(id)) {
      var i: nat :| i < j && StrandedBy(ls, steps, i, j, id);
      assert StrandedBy(ls, steps, i, j + 1, id);
    }
    if steps[j] == Send(Close) && Asleep(ls[j].s, id) {
      assert StrandedBy(ls, steps, j, j + 1, id);
    }
  }

  lemma CloseCanStrand(b: Pdu)
    ensures var s1 := Apply(Start(), Call(0, b, Again));
            && Enabled(s1, Close)
            && var s2 := Apply(s1, Close);
            Stranded(s2, 0) && s2.calls[0] == Sending(b, false)
  {
  }
}
