// One connection: senders that take turns to write PDUs to a stream, and the
// peer that cuts the stream into PDUs again.
module Connection {

  import opened Wrappers
  import opened Codec

  const MAX_PDU: int := 10 * 0x10_0000

  // What a read or write call reports: how much it moved, that it would block,
  // or an error or end of file.
  datatype Io = Moved(n: nat) | Again | Failed

  // charbuf: a buffer, its size, and how much of it has been written or read;
  // solong is -1 after a failed write.
  datatype Buf = Buf(data: Option<Pdu>, sz: int, solong: int)

  const EMPTY := Buf(None, 0, 0)

  // What marshall hands over: at least a header, and short enough for an int.
  type Pdu = b: Bytes | HEADER_BYTES <= |b| < LENGTH_LIMIT witness seq(HEADER_BYTES, _ => 0)

  // The PDU with its size in the first four bytes.
  function Stamp(b: Pdu): (r: Pdu)
    ensures |r| == |b|
  {
    Be(SIZE_BYTES, |b|) + b[SIZE_BYTES..]
  }

  // ---- writing ----

  ghost predicate Writable(w: Buf, io: Io) {
    && w.data.Some? && 0 <= w.solong <= w.sz == |w.data.value|
    && (io.Moved? ==> io.n <= w.sz - w.solong)
  }

  // writepdu: the buffer afterwards, success, and the bytes that went out.
  function WritePdu(w: Buf, io: Io): (Buf, bool, Bytes)
    requires Writable(w, io)
  {
    if w.solong == w.sz then (w, true, [])
    else
      var d := if w.solong == 0 then Stamp(w.data.value) else w.data.value;
      match io
      case Failed => (Buf(Some(d), 0, -1), false, [])
      case Again => (w.(data := Some(d)), true, [])
      case Moved(n) => (Buf(Some(d), w.sz, w.solong + n), true, d[w.solong..w.solong + n])
  }

  // What one write means: a partial one moves the position by what went out, a
  // write that would block leaves everything as it is and is no failure, an error
  // empties the buffer; and a buffer written whole is not written again.
  lemma WriteOutcome(w: Buf, io: Io)
    requires Writable(w, io)
    ensures var (t, ok, out) := WritePdu(w, io);
            if w.solong == w.sz then t == w && ok && out == []
            else
              && (io.Moved? ==> ok && |out| == io.n && t.solong == w.solong + io.n && t.sz == w.sz)
              && (io == Again ==> ok && out == [] && t.solong == w.solong && t.sz == w.sz)
              && (io == Failed ==> !ok && out == [] && t.solong == -1 && t.sz == 0)
  {
  }

  // Where a call of send stands: blocked because the buffer is in use, waiting
  // for its own PDU to go out, cleaning up after a failed write, or back.
  datatype Phase =
    | Waiting(b: Pdu, woken: bool)
    | Sending(b: Pdu, notified: bool)
    | Failing(b: Pdu)
    | Returned(b: Pdu, ok: bool)

  datatype Sent = Sent(id: nat, b: Pdu)

  // dead, w and waiters are the object's fields; the rest is bookkeeping: the
  // call that owns w, all calls, the bytes written so far, the PDUs written
  // whole, the bytes of one written in part, and whether closeconn was called.
  datatype Sender = Sender(dead: bool, w: Buf, waiters: int, holder: nat, calls: map<nat, Phase>,
                           wire: Bytes, done: seq<Sent>, tail: Bytes, last: Pdu, closed: bool)

  // io is what write reports, where the step writes.
  datatype Event =
    | Call(id: nat, b: Pdu, io: Io)
    | Awake(id: nat, io: Io)
    | Notice(id: nat)
    | Resume(id: nat)
    | WriteReady(io: Io)
    | ReadFailed
    | Close

  function Start(): Sender {
    Sender(false, EMPTY, 0, 0, map[], [], [], [], seq(HEADER_BYTES, _ => 0), false)
  }

  // write_cb asserts that the connection is not dead, and the process aborts where
  // it is: the poll loop may have the descriptor in hand when closeconn is called.
  ghost predicate Enabled(s: Sender, e: Event) {
    match e
    case Call(id, b, io) => id !in s.calls && (io.Moved? ==> io.n <= |b|)
    case Awake(id, io) =>
      id in s.calls && s.calls[id].Waiting? && (io.Moved? ==> io.n <= |s.calls[id].b|)
    case Notice(id) => id in s.calls && s.calls[id].Sending?
    case Resume(id) => id in s.calls && s.calls[id].Failing?
    case WriteReady(io) => !s.dead && (s.w.sz != 0 ==> Writable(s.w, io) && s.holder in s.calls)
    case ReadFailed => !s.dead
    case Close => !s.dead
  }

  // pthread_cond_broadcast on send_wait_
  function Broadcast(calls: map<nat, Phase>): map<nat, Phase> {
    map id | id in calls :: if calls[id].Waiting? then calls[id].(woken := true) else calls[id]
  }

  // pthread_cond_signal on send_complete_, where only the owner of w can wait
  function Signal(s: Sender): Sender {
    if s.holder in s.calls && s.calls[s.holder].Sending?
    then s.(calls := s.calls[s.holder := s.calls[s.holder].(notified := true)])
    else s
  }

  // The end of send: free the buffer and let the others try.
  function Finish(s: Sender, id: nat): Sender
    requires id in s.calls
  {
    var ok := !s.dead && s.w.solong == s.w.sz;
    var calls := if s.waiters > 0 then Broadcast(s.calls) else s.calls;
    s.(w := EMPTY, calls := calls[id := Returned(s.calls[id].b, ok)])
  }

  // One call of writepdu, with its effect on the stream.
  function Write(s: Sender, io: Io): (Sender, bool)
    requires Writable(s.w, io) && s.holder in s.calls
  {
    var (w, ok, out) := WritePdu(s.w, io);
    var whole := s.w.solong < s.w.sz && w.solong == w.sz;
    (s.(w := w, wire := s.wire + out,
        tail := if whole then [] else s.tail + out,
        done := if whole then s.done + [Sent(s.holder, s.calls[s.holder].b)] else s.done), ok)
  }

  // send from the end of its first loop.
  function Attempt(s: Sender, id: nat, b: Pdu, io: Io): Sender
    requires io.Moved? ==> io.n <= |b|
  {
    if s.dead then s.(calls := s.calls[id := Returned(b, false)])
    else
      var s0 := s.(w := Buf(Some(b), |b|, 0), holder := id, calls := s.calls[id := Sending(b, false)], last := b);
      var (s1, ok) := Write(s0, io);
      if !ok then s1.(dead := true, calls := s1.calls[id := Failing(b)])
      else if s1.w.solong == s1.w.sz then Finish(s1, id)
      else s1
  }

  function Apply(s: Sender, e: Event): Sender
    requires Enabled(s, e)
  {
    match e
    case Call(id, b, io) =>
      if !s.dead && s.w.data.Some?
      then s.(waiters := s.waiters + 1, calls := s.calls[id := Waiting(b, false)])
      else Attempt(s, id, b, io)
    case Awake(id, io) =>
      var b := s.calls[id].b;
      if !s.dead && s.w.data.Some?
      then s.(calls := s.calls[id := Waiting(b, false)])
      else Attempt(s.(waiters := s.waiters - 1, calls := s.calls - {id}), id, b, io)
    case Notice(id) =>
      if !s.dead && 0 <= s.w.solong < s.w.sz
      then s.(calls := s.calls[id := Sending(s.calls[id].b, false)])
      else Finish(s, id)
    case Resume(id) => Finish(s, id)
    case WriteReady(io) =>
      if s.w.sz == 0 then s
      else
        var (s1, ok) := Write(s, io);
        if !ok then Signal(s1.(dead := true))
        else if s1.w.solong < s1.w.sz then s1
        else Signal(s1)
    case ReadFailed => Signal(s.(dead := true))
    case Close => s.(dead := true, closed := true)
  }

  // What kills a connection: closeconn, a failed read, and a failed write of bytes
  // that are left to write; nothing else, and nothing revives it.
  lemma DiesIff(s: Sender, e: Event)
    requires Enabled(s, e)
    ensures Apply(s, e).dead <==>
            || s.dead || e == Close || e == ReadFailed
            || ((e.Call? || e.Awake?) && s.w.data.None? && e.io == Failed)
            || (e.WriteReady? && e.io == Failed && s.w.sz != 0 && s.w.solong != s.w.sz)
  {
  }

  // A write callback wakes the owner of the buffer exactly when the PDU is whole or
  // the write has failed.
  lemma WriteReadyWakesIff(s: Sender, io: Io)
    requires Enabled(s, WriteReady(io)) && s.w.sz != 0 && s.calls[s.holder].Sending?
    ensures var t := Apply(s, WriteReady(io));
            && (forall id | id in s.calls && id != s.holder :: id in t.calls && t.calls[id] == s.calls[id])
            && t.calls[s.holder].Sending?
            && (t.calls[s.holder].notified <==> s.calls[s.holder].notified || t.dead || t.w.solong == t.w.sz)
  {
  }

  // ---- what every step keeps ----

  // The bytes of whole PDUs.
  function Stream(done: seq<Sent>): Bytes {
    if done == [] then [] else Stream(done[..|done| - 1]) + Stamp(done[|done| - 1].b)
  }

  function Blocked(calls: map<nat, Phase>): set<nat> {
    set id | id in calls && calls[id].Waiting?
  }

  // The buffer holds b, written up to solong, or a write of it has failed.
  ghost predicate Holds(w: Buf, b: Pdu, dead: bool) {
    && w.data.Some?
    && if w.sz == 0 then w.solong == -1 && dead
       else 0 <= w.solong <= w.sz == |b| && (w.data.value == Stamp(b) || (w.solong == 0 && w.data.value == b))
  }

  predicate Whole(w: Buf) {
    w.sz != 0 && w.solong == w.sz
  }

  // The one call past the first loop of send owns the buffer.
  ghost predicate OwnerOk(s: Sender) {
    && (forall id | id in s.calls && (s.calls[id].Sending? || s.calls[id].Failing?) :: s.w.data.Some? && id == s.holder)
    && (if s.w.data.Some? then
          && s.holder in s.calls && (s.calls[s.holder].Sending? || s.calls[s.holder].Failing?)
          && Holds(s.w, s.calls[s.holder].b, s.dead)
          && (s.calls[s.holder].Failing? ==> s.w.sz == 0)
        else s.w == EMPTY)
  }

  // The stream is whole PDUs and at most one partial one.
  ghost predicate WireOk(s: Sender)
    requires OwnerOk(s)
  {
    && s.wire == Stream(s.done) + s.tail
    && |s.tail| < |s.last| && s.tail <= Stamp(s.last)
    && (if s.w.data.Some? then
          && s.last == s.calls[s.holder].b
          && (0 <= s.w.solong < s.w.sz ==> |s.tail| == s.w.solong)
          && (Whole(s.w) ==> s.tail == [])
        else !s.dead ==> s.tail == [])
  }

  // A PDU is whole on the stream at most once, its call is past the write, and a
  // call that returned true has its PDU there.
  ghost predicate DoneOk(s: Sender)
    requires OwnerOk(s)
  {
    && (forall i, j | 0 <= i < j < |s.done| :: s.done[i].id != s.done[j].id)
    && (forall x | x in s.done :: x.id in s.calls && s.calls[x.id].b == x.b
          && (s.calls[x.id].Returned? || (x.id == s.holder && Whole(s.w))))
    && (forall id | id in s.calls && s.calls[id].Returned? && s.calls[id].ok :: Sent(id, s.calls[id].b) in s.done)
    && (s.w.data.Some? && Whole(s.w) ==> Sent(s.holder, s.calls[s.holder].b) in s.done)
  }

  // waiters counts the blocked calls, and one of them sleeps unnotified only
  // while another call owns the buffer.
  ghost predicate WaitersOk(s: Sender) {
    && s.waiters == |Blocked(s.calls)|
    && (forall id | id in s.calls && s.calls[id].Waiting? && !s.calls[id].woken :: s.w.data.Some?)
  }

  // The owner sleeps unnotified only while bytes remain to be written, or after
  // closeconn, which notifies nobody.
  ghost predicate OwnerAwake(s: Sender) {
    forall id | id in s.calls && s.calls[id].Sending? && !s.calls[id].notified ::
      s.closed || (!s.dead && 0 <= s.w.solong < s.w.sz)
  }

  ghost predicate Inv(s: Sender) {
    OwnerOk(s) && WireOk(s) && DoneOk(s) && WaitersOk(s) && OwnerAwake(s)
  }

  // All but the last: what holds before the owner is notified.
  ghost predicate Near(s: Sender) {
    OwnerOk(s) && WireOk(s) && DoneOk(s) && WaitersOk(s)
  }

  lemma StreamMore(done: seq<Sent>, x: Sent)
    ensures Stream(done + [x]) == Stream(done) + Stamp(x.b)
  {
    assert (done + [x])[..|done|] == done;
  }

  lemma BlockedBut(calls: map<nat, Phase>, id: nat, p: Phase)
    requires id in calls ==> !calls[id].Waiting?
    ensures Blocked(calls[id := p]) == if p.Waiting? then Blocked(calls) + {id} else Blocked(calls)
  {
  }

  // A blocked call leaves the count.
  lemma ForgetKeeps(s: Sender, id: nat)
    requires Inv(s) && id in s.calls && s.calls[id].Waiting?
    ensures Inv(s.(waiters := s.waiters - 1, calls := s.calls - {id}))
  {
    assert Blocked(s.calls - {id}) == Blocked(s.calls) - {id};
  }

  lemma StartsOk()
    ensures Inv(Start())
  {
    assert Blocked(map[]) == {};
  }

  // A blocked first write leaves the size in place; stamping it again is harmless.
  lemma StampAgain(b: Pdu)
    ensures Stamp(Stamp(b)) == Stamp(b)
  {
    assert Stamp(b)[SIZE_BYTES..] == b[SIZE_BYTES..];
  }

  // The bytes a successful write puts out continue the ones before.
  lemma WriteContinues(w: Buf, b: Pdu, io: Io)
    requires Holds(w, b, false) && Writable(w, io) && !io.Failed? && w.solong < w.sz
    ensures var (w1, ok, out) := WritePdu(w, io);
            ok && Holds(w1, b, false) && w1.sz == w.sz && Stamp(b)[..w.solong] + out == Stamp(b)[..w1.solong]
  {
    StampAgain(b);
    var d := Stamp(b);
    if io.Moved? {
      assert d[..w.solong] + d[w.solong..w.solong + io.n] == d[..w.solong + io.n];
    } else {
      assert d[..w.solong] + [] == d[..w.solong];
    }
  }

  lemma WriteKeepsOwner(s: Sender, io: Io)
    requires OwnerOk(s) && !s.dead && s.w.sz != 0 && Writable(s.w, io) && !io.Failed?
    ensures OwnerOk(Write(s, io).0)
  {
    if s.w.solong < s.w.sz {
      WriteContinues(s.w, s.calls[s.holder].b, io);
    }
  }

  // The stream after out has gone out behind tail: f is the frame under way.
  lemma WireGrows(done: seq<Sent>, wire: Bytes, tail: Bytes, out: Bytes, x: Sent, i: nat, j: nat)
    requires wire == Stream(done) + tail && i <= j <= |x.b| && tail == Stamp(x.b)[..i]
    requires Stamp(x.b)[..i] + out == Stamp(x.b)[..j]
    ensures wire + out == Stream(done) + Stamp(x.b)[..j]
    ensures j == |x.b| ==> wire + out == Stream(done + [x])
  {
    assert wire + out == Stream(done) + (tail + out);
    StreamMore(done, x);
    assert Stamp(x.b)[..|x.b|] == Stamp(x.b);
  }

  lemma WriteKeepsWire(s: Sender, io: Io)
    requires OwnerOk(s) && WireOk(s) && !s.dead && s.w.sz != 0 && Writable(s.w, io) && !io.Failed?
    requires OwnerOk(Write(s, io).0)
    ensures WireOk(Write(s, io).0)
  {
    var s1 := Write(s, io).0;
    var b := s.calls[s.holder].b;
    if s.w.solong < s.w.sz {
      var (w1, ok, out) := WritePdu(s.w, io);
      WriteContinues(s.w, b, io);
      assert s.tail == Stamp(b)[..s.w.solong];
      WireGrows(s.done, s.wire, s.tail, out, Sent(s.holder, b), s.w.solong, w1.solong);
      if w1.solong == w1.sz {
        assert s1.wire == Stream(s1.done) + [];
      }
    } else {
      assert s.wire + [] == s.wire && s.tail + [] == s.tail;
    }
  }

  lemma WriteKeepsDone(s: Sender, io: Io)
    requires Near(s) && !s.dead && s.w.sz != 0 && Writable(s.w, io) && !io.Failed?
    requires OwnerOk(Write(s, io).0)
    ensures DoneOk(Write(s, io).0)
  {
    var s1 := Write(s, io).0;
    assert !Whole(s.w) ==> forall x | x in s.done :: x.id != s.holder;
    assert s1.done != s.done ==> s1.done[|s.done|] == Sent(s.holder, s.calls[s.holder].b);
  }

  lemma WriteKeeps(s: Sender, io: Io)
    requires Near(s) && !s.dead && s.w.sz != 0 && Writable(s.w, io) && !io.Failed?
    ensures Near(Write(s, io).0) && Write(s, io).1
  {
    WriteKeepsOwner(s, io);
    WriteKeepsWire(s, io);
    WriteKeepsDone(s, io);
  }

  lemma WriteFails(s: Sender, io: Io)
    requires Near(s) && !s.dead && s.w.sz != 0 && Writable(s.w, io)
    requires io.Failed? && s.w.solong != s.w.sz
    ensures !Write(s, io).1 && Near(Write(s, io).0.(dead := true))
  {
    var b := s.calls[s.holder].b;
    StampAgain(b);
    assert s.wire + [] == s.wire && s.tail + [] == s.tail;
  }

  lemma DieKeeps(s: Sender)
    requires Near(s)
    ensures Near(s.(dead := true))
  {
  }

  lemma SignalKeeps(s: Sender)
    requires Near(s)
    ensures Inv(Signal(s))
  {
    if s.holder in s.calls && s.calls[s.holder].Sending? {
      BlockedBut(s.calls, s.holder, s.calls[s.holder].(notified := true));
    }
  }

  lemma BroadcastBlocked(calls: map<nat, Phase>)
    ensures Blocked(Broadcast(calls)) == Blocked(calls)
  {
  }

  // With the buffer free nobody may sleep unnotified; the broadcast sees to it.
  lemma FinishWakes(s: Sender, id: nat)
    requires Near(s) && s.w.data.Some? && id == s.holder
    ensures WaitersOk(Finish(s, id))
  {
    var calls := if s.waiters > 0 then Broadcast(s.calls) else s.calls;
    BroadcastBlocked(s.calls);
    BlockedBut(calls, id, Finish(s, id).calls[id]);
    if s.waiters == 0 {
      forall x | x in s.calls ensures !s.calls[x].Waiting? {
        assert x !in Blocked(s.calls);
      }
    }
  }

  lemma FinishKeepsDone(s: Sender, id: nat)
    requires Near(s) && s.w.data.Some? && id == s.holder && (s.dead || Whole(s.w))
    ensures OwnerOk(Finish(s, id)) && DoneOk(Finish(s, id))
  {
  }

  lemma FinishKeeps(s: Sender, id: nat)
    requires Near(s) && s.w.data.Some? && id == s.holder && (s.dead || Whole(s.w))
    ensures Inv(Finish(s, id))
  {
    FinishWakes(s, id);
    FinishKeepsDone(s, id);
  }

  // The call takes the free buffer.
  function Claim(s: Sender, id: nat, b: Pdu): Sender {
    s.(w := Buf(Some(b), |b|, 0), holder := id, calls := s.calls[id := Sending(b, false)], last := b)
  }

  lemma ClaimKeeps(s: Sender, id: nat, b: Pdu)
    requires Inv(s) && id !in s.calls && !s.dead && s.w.data.None?
    ensures Inv(Claim(s, id, b))
  {
    BlockedBut(s.calls, id, Sending(b, false));
  }

  lemma RefusedKeeps(s: Sender, id: nat, b: Pdu)
    requires Inv(s) && id !in s.calls && s.dead
    ensures Inv(s.(calls := s.calls[id := Returned(b, false)]))
  {
    BlockedBut(s.calls, id, Returned(b, false));
  }

  lemma FailingKeeps(s: Sender, id: nat, b: Pdu)
    requires Near(s) && s.dead && s.w.data.Some? && s.w.sz == 0 && id == s.holder && s.calls[id].b == b
    ensures Inv(s.(calls := s.calls[id := Failing(b)]))
  {
    BlockedBut(s.calls, id, Failing(b));
  }

  lemma AttemptKeeps(s: Sender, id: nat, b: Pdu, io: Io)
    requires Inv(s) && id !in s.calls && (s.dead || s.w.data.None?)
    requires io.Moved? ==> io.n <= |b|
    ensures Inv(Attempt(s, id, b, io))
  {
    if s.dead {
      RefusedKeeps(s, id, b);
    } else {
      ClaimKeeps(s, id, b);
      var s0 := Claim(s, id, b);
      var s1 := Write(s0, io).0;
      if io.Failed? {
        WriteFails(s0, io);
        FailingKeeps(s1.(dead := true), id, b);
      } else {
        WriteKeeps(s0, io);
        if s1.w.solong == s1.w.sz {
          FinishKeeps(s1, id);
        }
      }
    }
  }

  lemma BlockKeeps(s: Sender, id: nat, b: Pdu)
    requires Inv(s) && id !in s.calls && s.w.data.Some?
    ensures Inv(s.(waiters := s.waiters + 1, calls := s.calls[id := Waiting(b, false)]))
  {
    var t := s.(waiters := s.waiters + 1, calls := s.calls[id := Waiting(b, false)]);
    assert WaitersOk(t) by {
      BlockedBut(s.calls, id, Waiting(b, false));
    }
    assert OwnerOk(t);
    assert DoneOk(t);
  }

  lemma BlockAgainKeeps(s: Sender, id: nat)
    requires Inv(s) && id in s.calls && s.calls[id].Waiting? && s.w.data.Some?
    ensures Inv(s.(calls := s.calls[id := Waiting(s.calls[id].b, false)]))
  {
    assert Blocked(s.calls[id := Waiting(s.calls[id].b, false)]) == Blocked(s.calls);
  }

  lemma NoticeKeeps(s: Sender, id: nat)
    requires Inv(s) && id in s.calls && s.calls[id].Sending?
    ensures Inv(Apply(s, Notice(id)))
  {
    if !s.dead && 0 <= s.w.solong < s.w.sz {
      BlockedBut(s.calls, id, Sending(s.calls[id].b, false));
    } else {
      FinishKeeps(s, id);
    }
  }

  lemma WriteReadyKeeps(s: Sender, io: Io)
    requires Inv(s) && Enabled(s, WriteReady(io))
    ensures Inv(Apply(s, WriteReady(io)))
  {
    if s.w.sz != 0 {
      var s1 := Write(s, io).0;
      if io.Failed? && s.w.solong != s.w.sz {
        WriteFails(s, io);
        SignalKeeps(s1.(dead := true));
      } else {
        if io.Failed? {
          assert Write(s, io) == Write(s, Again);
          WriteKeeps(s, Again);
        } else {
          WriteKeeps(s, io);
        }
        if s1.w.solong >= s1.w.sz {
          SignalKeeps(s1);
        }
      }
    }
  }

  lemma StepKeeps(s: Sender, e: Event)
    requires Inv(s) && Enabled(s, e)
    ensures Inv(Apply(s, e))
  {
    match e
    case Call(id, b, io) =>
      if !s.dead && s.w.data.Some? {
        BlockKeeps(s, id, b);
      } else {
        AttemptKeeps(s, id, b, io);
      }
    case Awake(id, io) =>
      if !s.dead && s.w.data.Some? {
        BlockAgainKeeps(s, id);
      } else {
        ForgetKeeps(s, id);
        AttemptKeeps(s.(waiters := s.waiters - 1, calls := s.calls - {id}), id, s.calls[id].b, io);
      }
    case Notice(id) => NoticeKeeps(s, id);
    case Resume(id) => FinishKeeps(s, id);
    case WriteReady(io) => WriteReadyKeeps(s, io);
    case ReadFailed =>
      DieKeeps(s);
      SignalKeeps(s.(dead := true));
    case Close => DieKeeps(s);
  }
}
