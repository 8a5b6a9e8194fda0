// The connection object: its fields and methods, each method running from taking
// the mutex to releasing it or to waiting, proved to be a step of the models of
// its two sides.
module Channel {

  import opened Wrappers
  import opened Codec
  import opened Connection
  import opened Delivery

  class Channel {
    var dead: bool
    var wpdu: Buf
    var rpdu: Partial
    var waiters: int

    // The states of the two models this object stands for.
    ghost var out: Sender
    ghost var into: Receiver

    ghost predicate Valid()
      reads this
    {
      dead == out.dead == into.dead && wpdu == out.w && waiters == out.waiters && rpdu == into.r
    }

    constructor ()
      ensures Valid() && out == Start() && into == Fresh().q
    {
      dead, wpdu, rpdu, waiters := false, EMPTY, NOTHING, 0;
      out, into := Start(), Fresh().q;
    }

    method WriteSome(io: Io) returns (ok: bool, ghost bytes: Bytes)
      requires Writable(wpdu, io)
      modifies `wpdu
      ensures (wpdu, ok, bytes) == WritePdu(old(wpdu), io)
    {
      bytes := [];
      ok := true;
      if wpdu.solong == wpdu.sz {
        return;
      }
      if wpdu.solong == 0 {
        wpdu := wpdu.(data := Some(Stamp(wpdu.data.value)));
      }
      match io {
        case Failed =>
          wpdu := wpdu.(solong := -1, sz := 0);
          ok := false;
        case Again =>
        case Moved(n) =>
          bytes := wpdu.data.value[wpdu.solong..wpdu.solong + n];
          wpdu := wpdu.(solong := wpdu.solong + n);
      }
    }

    // send up to where it first waits or returns; None while it waits.
    method Send(ghost id: nat, b: Pdu, io: Io) returns (ret: Option<bool>)
      requires Valid() && Enabled(out, Call(id, b, io))
      modifies this
      ensures Valid() && out == Apply(old(out), Call(id, b, io))
      ensures into == old(into).(dead := dead)
      ensures ret == if out.calls[id].Returned? then Some(out.calls[id].ok) else None
    {
      waiters := waiters + 1;
      if !dead && wpdu.data.Some? {
        out := Apply(out, Call(id, b, io));
        return None;
      }
      ret := SendStart(id, b, io, Apply(out, Call(id, b, io)));
    }

    // send after a wake-up on send_wait_.
    method SendAwake(ghost id: nat, b: Pdu, io: Io) returns (ret: Option<bool>)
      requires Valid() && Enabled(out, Awake(id, io)) && out.calls[id].b == b
      modifies this
      ensures Valid() && out == Apply(old(out), Awake(id, io))
      ensures into == old(into).(dead := dead)
      ensures ret == if out.calls[id].Returned? then Some(out.calls[id].ok) else None
    {
      if !dead && wpdu.data.Some? {
        out := Apply(out, Awake(id, io));
        return None;
      }
      ghost var t := Apply(out, Awake(id, io));
      out := out.(waiters := out.waiters - 1, calls := out.calls - {id});
      ret := SendStart(id, b, io, t);
    }

    // The part of send behind its first loop, with waiters still counting the call.
    method SendStart(ghost id: nat, b: Pdu, io: Io, ghost t: Sender) returns (ret: Option<bool>)
      requires dead == out.dead == into.dead && wpdu == out.w && waiters == out.waiters + 1 && rpdu == into.r
      requires dead || wpdu.data.None?
      requires (io.Moved? ==> io.n <= |b|) && t == Attempt(out, id, b, io)
      modifies this
      ensures Valid() && out == t
      ensures into == old(into).(dead := dead)
      ensures ret == if out.calls[id].Returned? then Some(out.calls[id].ok) else None
    {
      waiters := waiters - 1;
      if dead {
        out := t;
        return Some(false);
      }
      wpdu := Buf(Some(b), |b|, 0);
      var ok;
      ghost var bytes;
      ok, bytes := WriteSome(io);
      if !ok {
        dead := true;
        out, into := t, into.(dead := true);
        return None;
      }
      if wpdu.solong != wpdu.sz {
        out := t;
        return None;
      }
      var r := !dead && wpdu.solong == wpdu.sz;
      wpdu := EMPTY;
      out := t;
      return Some(r);
    }

    // send after a wake-up on send_complete_.
    method SendNotice(ghost id: nat) returns (ret: Option<bool>)
      requires Valid() && Enabled(out, Notice(id))
      modifies this
      ensures Valid() && out == Apply(old(out), Notice(id)) && into == old(into)
      ensures ret == if out.calls[id].Returned? then Some(out.calls[id].ok) else None
    {
      out := Apply(out, Notice(id));
      if !dead && 0 <= wpdu.solong < wpdu.sz {
        return None;
      }
      var r := !dead && wpdu.solong == wpdu.sz;
      wpdu := EMPTY;
      return Some(r);
    }

    // send after block_remove_fd, when its write failed.
    method SendResume(ghost id: nat) returns (ret: bool)
      requires Valid() && Enabled(out, Resume(id))
      modifies this
      ensures Valid() && out == Apply(old(out), Resume(id)) && into == old(into)
      ensures out.calls[id] == Returned(old(out).calls[id].b, ret)
    {
      out := Apply(out, Resume(id));
      ret := !dead && wpdu.solong == wpdu.sz;
      wpdu := EMPTY;
    }

    method WriteCb(io: Io)
      requires Valid() && Enabled(out, WriteReady(io))
      modifies this
      ensures Valid() && out == Apply(old(out), WriteReady(io)) && into == old(into).(dead := dead)
    {
      ghost var t := Apply(out, WriteReady(io));
      if wpdu.sz != 0 {
        var ok;
        ghost var bytes;
        ok, bytes := WriteSome(io);
        if !ok {
          dead := true;
        }
      }
      out, into := t, into.(dead := dead);
    }

    method CloseConn()
      requires Valid()
      modifies this
      ensures Valid() && dead
      ensures old(dead) ==> out == old(out) && into == old(into)
      ensures !old(dead) ==> out == Apply(old(out), Close) && into == old(into).(dead := true)
    {
      if !dead {
        dead := true;
        out, into := Apply(out, Close), into.(dead := true);
      }
    }

    // readpdu; next is how far the stream has been read afterwards.
    method ReadSome(wire: Bytes, pos: nat, header: Io, body: Io) returns (ok: bool, next: nat)
      requires rpdu == into.r && pos == into.pos
      requires !into.dead && !(rpdu.data.Some? && rpdu.solong >= rpdu.sz)
      requires Readable(into, wire, header, body)
      modifies `rpdu
      ensures (old(into).(r := rpdu, pos := next), ok) == ReadPdu(old(into), wire, header, body)
    {
      next := pos;
      if rpdu.sz == 0 {
        if !header.Moved? {
          return false, next;
        }
        next := pos + header.n;
        if header.n != SIZE_BYTES {
          return false, next;
        }
        var sz := Announced(wire, pos);
        if sz > MAX_PDU {
          return false, next;
        }
        rpdu := Partial(Some(wire[pos..next]), sz, SIZE_BYTES);
      }
      ok := true;
      match body {
        case Again =>
        case Failed =>
          rpdu := NOTHING;
          ok := false;
        case Moved(n) =>
          rpdu := Partial(Some(rpdu.data.value + wire[next..next + n]), rpdu.sz, rpdu.solong + n);
          next := next + n;
      }
    }

    // read_cb; accept is what got_pdu answers if it is asked, and pdu what it took.
    method ReadCb(wire: Bytes, pos: nat, header: Io, body: Io, accept: bool)
      returns (pdu: Option<Bytes>, next: nat)
      requires Valid() && pos == into.pos && Readable(into, wire, header, body)
      modifies this
      ensures Valid() && into == Delivery.ReadCb(old(into), wire, header, body, accept) && next == into.pos
      ensures out == if dead && !old(dead) then Apply(old(out), ReadFailed) else old(out)
      ensures into.delivered == old(into).delivered + if pdu.Some? then [pdu.value] else []
    {
      pdu, next := None, pos;
      if dead {
        return;
      }
      ghost var t := Delivery.ReadCb(into, wire, header, body, accept);
      if rpdu.data.None? || rpdu.solong < rpdu.sz {
        var ok;
        ok, next := ReadSome(wire, pos, header, body);
        if !ok {
          dead := true;
          out := Apply(out, ReadFailed);
        }
      }
      if rpdu.data.Some? && rpdu.sz == rpdu.solong && accept {
        pdu := rpdu.data;
        rpdu := NOTHING;
      }
      into := t;
    }
  }
}
