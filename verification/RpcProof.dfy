// The theorems about the at-most-once protocol and the step-by-step proofs
// behind them.
module RpcProof {
  import opened AckList
  import opened ReplyWindow
  import opened CircularWindow
  import opened RpcSystem

  // ---- acknowledgements and marks, for either version of the server ----

  // What every step does to the part of the state that messages refer to:
  // clients stay, xids and acknowledged prefixes only grow.
  ghost predicate Extends(s: System, t: System) {
    && s.nonces <= t.nonces
    && s.replies <= t.replies
    && (forall c | c in s.clients :: c in t.clients && s.clients[c].next <= t.clients[c].next)
    && (forall c | c in s.clients :: Head(s.clients, c) <= Head(t.clients, c))
  }

  lemma RequestsExtend(s: System, t: System)
    requires Extends(s, t) && RequestsOk(s) && t.requests == s.requests
    ensures RequestsOk(t)
  {
    forall r | r in t.requests ensures RequestOk(t.clients, t.nonces, r) {
      assert RequestOk(s.clients, s.nonces, r);
    }
  }

  lemma RepliesExtend(s: System, t: System)
    requires Extends(s, t) && RepliesOk(s)
    requires forall m | m in t.replies && m !in s.replies ::
      Issued(t.clients, m.clt, m.xid) && (m.ret.Handler? ==> BodyNonceOk(t.nonces, m.ret.body))
    ensures RepliesOk(t)
  {
    forall m | m in t.replies
      ensures Issued(t.clients, m.clt, m.xid) && (m.ret.Handler? ==> BodyNonceOk(t.nonces, m.ret.body))
    {
      if m in s.replies { assert Issued(s.clients, m.clt, m.xid); }
    }
  }

  lemma WindowsExtend(s: System, t: System)
    requires Extends(s, t) && WindowsOk(s)
    requires forall c, e | c in t.server.windows && e in t.server.windows[c] :: e in WindowOf(s, c) || EntryOk(t, c, e)
    ensures WindowsOk(t)
  {
    forall c, e | c in t.server.windows && e in t.server.windows[c] ensures EntryOk(t, c, e) {
      if e in WindowOf(s, c) { assert EntryOk(s, c, e); }
    }
  }

  lemma MarksExtend(s: System, t: System)
    requires Extends(s, t) && MarksOk(s) && t.server.maxima == s.server.maxima
    ensures MarksOk(t)
  {
    forall c | c in t.server.maxima ensures t.server.maxima[c] <= Head(t.clients, c) {
      assert s.server.maxima[c] <= Head(s.clients, c);
    }
  }

  lemma ClientsExtend(s: System, t: System)
    requires Extends(s, t) && ClientsOk(s) && t.clients == s.clients
    ensures ClientsOk(t)
  {
    forall c | c in t.clients ensures ClientOk(c, t.clients[c], t.nonces, t.replies) {
      assert ClientOk(c, s.clients[c], s.nonces, s.replies);
    }
  }

  lemma ExtendsByClient(s: System, c: nat, cl: Client)
    requires c in s.clients ==> s.clients[c].next <= cl.next
    requires |cl.window| > 0 && Head(s.clients, c) <= cl.window[0]
    ensures Extends(s, s.(clients := s.clients[c := cl]))
  {
  }

  lemma ClientsWith(s: System, c: nat, cl: Client)
    requires ClientsOk(s) && ClientOk(c, cl, s.nonces, s.replies)
    ensures ClientsOk(s.(clients := s.clients[c := cl]))
  {
  }

  // A step of one client that sends nothing.
  lemma AckClientMoves(s: System, c: nat, cl: Client)
    requires AckInv(s) && ClientOk(c, cl, s.nonces, s.replies)
    requires c in s.clients ==> s.clients[c].next <= cl.next
    requires Head(s.clients, c) <= cl.window[0]
    ensures AckInv(s.(clients := s.clients[c := cl]))
  {
    var t := s.(clients := s.clients[c := cl]);
    ExtendsByClient(s, c, cl);
    assert ClientsOk(t) by { ClientsWith(s, c, cl); }
    assert RequestsOk(t) by { RequestsExtend(s, t); }
    assert RepliesOk(t) by { RepliesExtend(s, t); }
    assert WindowsOk(t) by { WindowsExtend(s, t); }
    assert MarksOk(t) by { MarksExtend(s, t); }
    assert ServerOk(t) && XidsUnique(t);
  }

  lemma ReceivedOk(s: System, c: nat, cl: Client, xid: nat, ret: Ret)
    requires ClientOk(c, cl, s.nonces, s.replies) && 1 <= xid < cl.next && ReplyMsg(c, xid, ret) in s.replies
    ensures var calls := if xid in cl.calls && cl.calls[xid].Waiting? then cl.calls[xid := Replied(ret)] else cl.calls;
      ClientOk(c, cl.(window := Update(cl.window, xid), acked := cl.acked + {xid}, calls := calls), s.nonces, s.replies)
  {
    UpdateAcknowledges(cl.window, xid, cl.acked);
    var calls := if xid in cl.calls && cl.calls[xid].Waiting? then cl.calls[xid := Replied(ret)] else cl.calls;
    assert ReturnsOk(c, calls, s.replies);
  }

  lemma AckReceive(v: Variant, s: System, m: ReplyMsg)
    requires AckInv(s) && Enabled(v, s, Receive(m))
    ensures AckInv(Apply(v, s, Receive(m)))
  {
    var cl := s.clients[m.clt];
    assert ClientOk(m.clt, cl, s.nonces, s.replies);
    assert Issued(s.clients, m.clt, m.xid);
    ReceivedOk(s, m.clt, cl, m.xid, m.ret);
    UpdateAcknowledges(cl.window, m.xid, cl.acked);
    AckClientMoves(s, m.clt, Apply(v, s, Receive(m)).clients[m.clt]);
  }

  lemma AckReturn(v: Variant, s: System, c: nat, xid: nat)
    requires AckInv(s) && Enabled(v, s, Return(c, xid))
    ensures AckInv(Apply(v, s, Return(c, xid)))
  {
    var cl := s.clients[c];
    assert ClientOk(c, cl, s.nonces, s.replies);
    UpdateAcknowledges(cl.window, xid, cl.acked);
    var cl' := Apply(v, s, Return(c, xid)).clients[c];
    assert ReturnsOk(c, cl'.calls, s.replies);
    assert ReturnsOk(c, cl'.returned, s.replies);
    AckClientMoves(s, c, cl');
  }

  lemma AckBindDone(v: Variant, s: System, c: nat, xid: nat)
    requires AckInv(s) && Enabled(v, s, BindDone(c, xid))
    ensures AckInv(Apply(v, s, BindDone(c, xid)))
  {
    var cl := s.clients[c];
    assert ClientOk(c, cl, s.nonces, s.replies);
    var ret := cl.returned[xid].ret;
    assert ReplyMsg(c, xid, ret) in s.replies;
    assert BodyNonceOk(s.nonces, ret.body);
    AckClientMoves(s, c, Apply(v, s, BindDone(c, xid)).clients[c]);
  }

  lemma AckCancel(v: Variant, s: System, c: nat)
    requires AckInv(s) && Enabled(v, s, Cancel(c))
    ensures AckInv(Apply(v, s, Cancel(c)))
  {
    assert ClientOk(c, s.clients[c], s.nonces, s.replies);
    AckClientMoves(s, c, Apply(v, s, Cancel(c)).clients[c]);
  }

  // Sending one request under the next xid.
  lemma RequestSent(s: System, r: Request)
    requires RequestsOk(s) && XidsUnique(s) && RequestOk(s.clients, s.nonces, r)
    requires forall q | q in s.requests :: !(q.clt == r.clt && q.xid == r.xid)
    ensures RequestsOk(s.(requests := s.requests + {r}))
    ensures XidsUnique(s.(requests := s.requests + {r}))
  {
  }

  lemma AckSends(s: System, r: Request)
    requires AckInv(s) && RequestOk(s.clients, s.nonces, r)
    requires forall q | q in s.requests :: !(q.clt == r.clt && q.xid == r.xid)
    ensures AckInv(s.(requests := s.requests + {r}))
  {
    var t := s.(requests := s.requests + {r});
    RequestSent(s, r);
    assert WindowsOk(t) by {
      forall c, e | c in t.server.windows && e in t.server.windows[c] ensures EntryOk(t, c, e) {
        assert EntryOk(s, c, e);
      }
    }
    assert ClientsOk(t) && RepliesOk(t) && MarksOk(t) && ServerOk(t);
  }

  lemma CalledOk(s: System, c: nat, cl: Client)
    requires ClientOk(c, cl, s.nonces, s.replies)
    ensures ClientOk(c, cl.(next := cl.next + 1, calls := cl.calls[cl.next := Waiting]), s.nonces, s.replies)
  {
  }

  lemma FreshRequestOk(s: System, c: nat, bind: bool, args: seq<bv8>)
    requires RequestsOk(s) && c in s.clients && ClientOk(c, s.clients[c], s.nonces, s.replies)
    requires bind != s.clients[c].bound
    ensures var cl := s.clients[c]; var r := Request(c, cl.next, bind, cl.srv, cl.window[0], args);
      && (forall q | q in s.requests :: !(q.clt == c && q.xid == r.xid))
      && RequestOk(s.clients[c := cl.(next := cl.next + 1, calls := cl.calls[cl.next := Waiting])], s.nonces, r)
  {
    var cl := s.clients[c];
    forall q | q in s.requests ensures !(q.clt == c && q.xid == cl.next) {
      assert RequestOk(s.clients, s.nonces, q);
    }
    assert cl.window[0] in cl.window;
  }

  lemma AckCalled(s: System, t: System, c: nat, bind: bool, args: seq<bv8>, r: Request, cl: Client)
    requires AckInv(s) && c in s.clients && cl == s.clients[c] && |cl.window| > 0 && bind != cl.bound
    requires r == Request(c, cl.next, bind, cl.srv, cl.window[0], args)
    requires t == s.(clients := s.clients[c := cl.(next := cl.next + 1, calls := cl.calls[cl.next := Waiting])],
                     requests := s.requests + {r})
    ensures AckInv(t)
  {
    var cl' := cl.(next := cl.next + 1, calls := cl.calls[cl.next := Waiting]);
    var mid := s.(clients := s.clients[c := cl']);
    assert AckInv(mid) by {
      CalledOk(s, c, cl);
      AckClientMoves(s, c, cl');
    }
    assert RequestOk(mid.clients, mid.nonces, r) && (forall q | q in s.requests :: !(q.clt == c && q.xid == r.xid)) by {
      FreshRequestOk(s, c, bind, args);
    }
    AckSends(mid, r);
  }

  lemma AckCall(v: Variant, s: System, c: nat, bind: bool, args: seq<bv8>)
    requires AckInv(s) && Enabled(v, s, Call(c, bind, args))
    ensures AckInv(Apply(v, s, Call(c, bind, args)))
  {
    var cl := s.clients[c];
    AckCalled(s, Apply(v, s, Call(c, bind, args)), c, bind, args,
              Request(c, cl.next, bind, cl.srv, cl.window[0], args), cl);
  }

  lemma AckNewClient(v: Variant, s: System, c: nat)
    requires AckInv(s) && Enabled(v, s, NewClient(c))
    ensures AckInv(Apply(v, s, NewClient(c)))
  {
    AckClientMoves(s, c, Client(1, 0, false, [0], {0}, map[], false, map[]));
  }

  lemma AckRestart(v: Variant, s: System, n: nat)
    requires AckInv(s) && Enabled(v, s, Restart(n))
    ensures AckInv(Apply(v, s, Restart(n)))
  {
    var t := Apply(v, s, Restart(n));
    assert Extends(s, t);
    ClientsExtend(s, t);
    RequestsExtend(s, t);
    RepliesExtend(s, t);
  }

  lemma AckFinish(v: Variant, s: System, r: Request, body: Body)
    requires AckInv(s) && Enabled(v, s, Finish(r, body))
    ensures AckInv(Apply(v, s, Finish(r, body)))
  {
    var t := Apply(v, s, Finish(r, body));
    assert RequestOk(s.clients, s.nonces, r);
    assert Extends(s, t);
    ClientsExtend(s, t);
    RequestsExtend(s, t);
    RepliesExtend(s, t);
    MarksExtend(s, t);
    WithReplyKeepsEntries(WindowOf(s, r.clt), r.xid, body);
    WindowsExtend(s, t);
  }

  lemma {:induction false} WithReplyKeepsEntries(w: seq<Reply>, xid: nat, body: Body)
    ensures forall e | e in WithReply(w, xid, body) :: e in w || e == Reply(xid, Present(body))
  {
    if w != [] && w[0].xid != xid {
      WithReplyKeepsEntries(w[1..], xid, body);
    }
  }

  ghost predicate PlausibleFor(s: System, r: Request, o: Outcome)
    requires o.Outcome?
  {
    Plausible(MarkOf(s, r.clt), WindowOf(s, r.clt), r.xid, r.rep, o)
  }

  lemma CheckIsPlausible(v: Variant, s: System, r: Request)
    requires r.rep < r.xid && Check(v, s, r).Outcome?
    ensures PlausibleFor(s, r, Check(v, s, r))
  {
    StepsMoveMarkAlike(MarkOf(s, r.clt), WindowOf(s, r.clt), r.xid, r.rep);
    CircularMovesMarkAlike(MarkOf(s, r.clt), WindowOf(s, r.clt), r.xid, r.rep);
  }

  // Nothing of the state but its being defined is lost when the walk goes astray.
  lemma AckUndefined(s: System)
    requires AckInv(s)
    ensures AckInv(s.(defined := false))
  {
    var t := s.(defined := false);
    assert Extends(s, t);
    ClientsExtend(s, t);
    RequestsExtend(s, t);
    RepliesExtend(s, t);
    WindowsExtend(s, t);
    MarksExtend(s, t);
  }

  lemma AckDeliver(v: Variant, s: System, r: Request)
    requires AckInv(s) && Enabled(v, s, Deliver(r))
    ensures AckInv(Apply(v, s, Deliver(r)))
  {
    assert RequestOk(s.clients, s.nonces, r);
    if ForThisInstance(s, r) {
      if Check(v, s, r).Outcome? {
        CheckIsPlausible(v, s, r);
        DispatchedHasShape(s, r, Check(v, s, r));
        AckDispatched(s, Apply(v, s, Deliver(r)), r, Check(v, s, r));
      } else {
        AckUndefined(s);
      }
    } else {
      var t := Apply(v, s, Deliver(r));
      assert Extends(s, t);
      ClientsExtend(s, t);
      RequestsExtend(s, t);
      RepliesExtend(s, t);
      WindowsExtend(s, t);
      MarksExtend(s, t);
    }
  }

  // What dispatching changes, without the case distinction on the outcome.
  ghost predicate Shape(s: System, t: System, r: Request, o: Outcome)
    requires o.Outcome?
  {
    && t.clients == s.clients && t.requests == s.requests && t.nonces == s.nonces && t.results == s.results
    && t.defined == s.defined
    && t.server.nonce == s.server.nonce
    && t.server.started == (if o.stat == New then s.server.started + multiset{(r.clt, r.xid)} else s.server.started)
    && t.server.windows == s.server.windows[r.clt := o.window]
    && t.server.maxima == s.server.maxima[r.clt := o.mark]
    && t.server.running == (if o.stat == New then s.server.running + multiset{r} else s.server.running)
    && t.execs == (if o.stat == New then s.execs[(r.clt, r.xid) := Execs(s, r.clt, r.xid) + 1] else s.execs)
    && t.replies == s.replies + (match o.stat
                                 case Done(body) => {ReplyMsg(r.clt, r.xid, Handler(body))}
                                 case Forgotten => {ReplyMsg(r.clt, r.xid, AtMostOnceFailure)}
                                 case _ => {})
  }

  lemma DispatchedHasShape(s: System, r: Request, o: Outcome)
    requires o.Outcome?
    ensures Shape(s, Dispatched(s, r, o), r, o)
  {
  }

  lemma DispatchedWindows(s: System, t: System, r: Request, o: Outcome)
    requires WindowsOk(s) && RequestOk(s.clients, s.nonces, r)
    requires o.Outcome? && PlausibleFor(s, r, o) && Shape(s, t, r, o)
    ensures WindowsOk(t)
  {
    forall c, e | c in t.server.windows && e in t.server.windows[c] ensures EntryOk(t, c, e) {
      if c == r.clt && e !in WindowOf(s, c) {
        assert e == Reply(r.xid, NotYet);
      } else {
        assert EntryOk(s, c, e);
      }
    }
  }

  lemma DispatchedReplies(s: System, t: System, r: Request, o: Outcome)
    requires RepliesOk(s) && WindowsOk(s) && RequestOk(s.clients, s.nonces, r)
    requires o.Outcome? && PlausibleFor(s, r, o) && Shape(s, t, r, o)
    ensures RepliesOk(t)
  {
    if o.stat.Done? {
      assert EntryOk(s, r.clt, Reply(r.xid, Present(o.stat.body)));
    }
  }

  lemma DispatchedMarks(s: System, t: System, r: Request, o: Outcome)
    requires MarksOk(s) && RequestOk(s.clients, s.nonces, r)
    requires o.Outcome? && PlausibleFor(s, r, o) && Shape(s, t, r, o)
    ensures MarksOk(t)
  {
    if r.clt in s.server.maxima { assert s.server.maxima[r.clt] <= Head(s.clients, r.clt); }
  }

  lemma AckDispatched(s: System, t: System, r: Request, o: Outcome)
    requires AckInv(s) && r in s.requests && RequestOk(s.clients, s.nonces, r)
    requires ForThisInstance(s, r) && o.Outcome? && PlausibleFor(s, r, o) && Shape(s, t, r, o)
    ensures AckInv(t)
  {
    assert WindowsOk(t) by { DispatchedWindows(s, t, r, o); }
    assert RepliesOk(t) by { DispatchedReplies(s, t, r, o); }
    assert MarksOk(t) by { DispatchedMarks(s, t, r, o); }
    assert ClientsOk(t) by { assert Extends(s, t); ClientsExtend(s, t); }
    assert RequestsOk(t) && XidsUnique(t);
    assert ServerOk(t);
  }

  lemma AckStep(v: Variant, s: System, st: Step)
    requires AckInv(s) && Enabled(v, s, st)
    ensures AckInv(Apply(v, s, st))
  {
    match st
    case NewClient(c) => AckNewClient(v, s, c);
    case Call(c, bind, args) => AckCall(v, s, c, bind, args);
    case Deliver(r) => AckDeliver(v, s, r);
    case Finish(r, body) => AckFinish(v, s, r, body);
    case Receive(m) => AckReceive(v, s, m);
    case Return(c, xid) => AckReturn(v, s, c, xid);
    case BindDone(c, xid) => AckBindDone(v, s, c, xid);
    case Cancel(c) => AckCancel(v, s, c);
    case Restart(n) => AckRestart(v, s, n);
  }

  lemma {:induction false} AckRun(v: Variant, n: nat, steps: seq<Step>, states: seq<System>, i: nat)
    requires IsRun(v, n, steps, states) && i < |states|
    ensures AckInv(states[i])
  {
    if i > 0 {
      AckRun(v, n, steps, states, i - 1);
      AckStep(v, states[i - 1], steps[i - 1]);
    }
  }

  // In every state of every run, of the documented and of the literal server,
  // no request of a call that still waits would be classified FORGOTTEN.
  lemma WaitingIsNeverForgotten(v: Variant, n: nat, steps: seq<Step>, states: seq<System>, i: nat, r: Request)
    requires IsRun(v, n, steps, states) && i < |states|
    requires r in states[i].requests && r.clt in states[i].clients
    requires r.xid in states[i].clients[r.clt].calls && states[i].clients[r.clt].calls[r.xid].Waiting?
    requires Check(v, states[i], r).Outcome?
    ensures Check(v, states[i], r).stat != Forgotten
  {
    var s := states[i];
    AckRun(v, n, steps, states, i);
    var cl := s.clients[r.clt];
    assert ClientOk(r.clt, cl, s.nonces, s.replies) && RequestOk(s.clients, s.nonces, r);
    HeadIsLargestPrefix(cl.window, cl.acked);
    assert cl.window[0] < r.xid;
    CheckIsPlausible(v, s, r);
    if r.clt in s.server.maxima { assert s.server.maxima[r.clt] <= Head(s.clients, r.clt); }
  }

  // ---- executions, for the documented server ----

  lemma ExecClientMoves(s: System, t: System)
    requires ExecInv(s) && Extends(s, t)
    requires t == s.(clients := t.clients)
    ensures ExecInv(t)
  {
    forall r | r in t.requests && !r.bind ensures ExecOk(t, r) { assert ExecOk(s, r); }
    forall c, e | c in t.server.windows && e in t.server.windows[c] && e.saved.Present?
      ensures BodyOk(t, c, e.xid, e.saved.body)
    {
      assert BodyOk(s, c, e.xid, e.saved.body);
    }
    forall m | m in t.replies && m.ret.Handler? ensures BodyOk(t, m.clt, m.xid, m.ret.body) {
      assert BodyOk(s, m.clt, m.xid, m.ret.body);
    }
    forall k | k in t.execs ensures Issued(t.clients, k.0, k.1) { assert Issued(s.clients, k.0, k.1); }
    forall k | k in t.results ensures Issued(t.clients, k.0, k.1) { assert Issued(s.clients, k.0, k.1); }
  }

  lemma ExecSends(s: System, t: System, r: Request)
    requires AckInv(s) && ExecInv(s)
    requires r.clt in s.clients && r.xid == s.clients[r.clt].next
    requires t == s.(requests := s.requests + {r})
    ensures ExecInv(t)
  {
    assert !Issued(s.clients, r.clt, r.xid);
    assert r !in s.requests;
    forall q | q in t.requests && !q.bind ensures ExecOk(t, q) {
      if q in s.requests { assert ExecOk(s, q); }
    }
    forall c, e | c in t.server.windows && e in t.server.windows[c] && e.saved.Present?
      ensures BodyOk(t, c, e.xid, e.saved.body)
    {
      assert EntryOk(s, c, e);
      assert BodyOk(s, c, e.xid, e.saved.body);
    }
    forall m | m in t.replies && m.ret.Handler? ensures BodyOk(t, m.clt, m.xid, m.ret.body) {
      assert BodyOk(s, m.clt, m.xid, m.ret.body);
    }
  }

  lemma ExecCall(s: System, c: nat, bind: bool, args: seq<bv8>)
    requires AckInv(s) && ExecInv(s) && Enabled(Documented, s, Call(c, bind, args))
    ensures ExecInv(Apply(Documented, s, Call(c, bind, args)))
  {
    var t := Apply(Documented, s, Call(c, bind, args));
    var cl := s.clients[c];
    var mid := s.(requests := t.requests);
    ExecSends(s, mid, Request(c, cl.next, bind, cl.srv, cl.window[0], args));
    ExecClientMoves(mid, t);
  }

  lemma ExecRestart(s: System, n: nat)
    requires AckInv(s) && ExecInv(s) && Enabled(Documented, s, Restart(n))
    ensures ExecInv(Apply(Documented, s, Restart(n)))
  {
    var t := Apply(Documented, s, Restart(n));
    forall r | r in t.requests && !r.bind ensures ExecOk(t, r) {
      assert ExecOk(s, r) && RequestOk(s.clients, s.nonces, r);
    }
    forall m | m in t.replies && m.ret.Handler? ensures BodyOk(t, m.clt, m.xid, m.ret.body) {
      assert BodyOk(s, m.clt, m.xid, m.ret.body);
    }
  }

  // Recording the result of a running request does not touch the results of others.
  lemma ResultIsNew(s: System, t: System, r: Request, body: Body, c: nat, xid: nat, b: Body)
    requires XidsUnique(s) && ExecsOk(s) && r in s.requests && r in s.server.running
    requires t.requests == s.requests
    requires t.results == s.results[(r.clt, r.xid) := body]
    requires BodyOk(s, c, xid, b)
    ensures BodyOk(t, c, xid, b)
  {
    forall q | q in t.requests && q.clt == c && q.xid == xid && !q.bind
      ensures (c, xid) in t.results && t.results[(c, xid)] == b
    {
      assert ExecOk(s, q);
      assert (c, xid) in s.results;
      assert q == r ==> (c, xid) !in s.results;
    }
  }

  lemma WithReplyHas(w: seq<Reply>, xid: nat, body: Body, x: nat)
    requires Distinct(w)
    ensures Has(WithReply(w, xid, body), x) <==> Has(w, x)
    ensures Distinct(WithReply(w, xid, body))
  {
    WithReplySpec(w, xid, body);
    var u := WithReply(w, xid, body);
    assert forall i | 0 <= i < |w| :: u[i].xid == w[i].xid;
    if Has(w, x) {
      var i :| 0 <= i < |w| && w[i].xid == x;
      assert u[i].xid == x;
    }
    if Has(u, x) {
      var i :| 0 <= i < |u| && u[i].xid == x;
      assert w[i].xid == x;
    }
  }

  lemma FinishExec(s: System, r: Request, body: Body, q: Request)
    requires XidsUnique(s) && ExecOk(s, q) && WindowsDistinct(s)
    requires q in s.requests && r in s.requests && Enabled(Documented, s, Finish(r, body))
    ensures ExecOk(Apply(Documented, s, Finish(r, body)), q)
  {
    var t := Apply(Documented, s, Finish(r, body));
    WithReplyHas(WindowOf(s, r.clt), r.xid, body, q.xid);
    assert t.execs == s.execs && t.server.maxima == s.server.maxima;
    assert Remembered(s, q) ==> Remembered(t, q);
    if q != r {
      assert (q.clt, q.xid) != (r.clt, r.xid);
      assert t.server.running[q] == s.server.running[q];
    }
  }

  lemma FinishBodies(s: System, t: System, r: Request, body: Body)
    requires XidsUnique(s) && ExecsOk(s) && SavedOk(s) && SentOk(s) && r in s.requests && r in s.server.running
    requires t.requests == s.requests && t.results == s.results[(r.clt, r.xid) := body]
    requires t.replies == s.replies + {ReplyMsg(r.clt, r.xid, Handler(body))}
    requires forall c, e | c in t.server.windows && e in t.server.windows[c] ::
      e in WindowOf(s, c) || (c == r.clt && e == Reply(r.xid, Present(body)))
    ensures SavedOk(t) && SentOk(t)
  {
    assert BodyOk(t, r.clt, r.xid, body);
    forall c, e | c in t.server.windows && e in t.server.windows[c] && e.saved.Present?
      ensures BodyOk(t, c, e.xid, e.saved.body)
    {
      if e in WindowOf(s, c) {
        assert BodyOk(s, c, e.xid, e.saved.body);
        ResultIsNew(s, t, r, body, c, e.xid, e.saved.body);
      }
    }
    forall m | m in t.replies && m.ret.Handler? ensures BodyOk(t, m.clt, m.xid, m.ret.body) {
      if m in s.replies { ResultIsNew(s, t, r, body, m.clt, m.xid, m.ret.body); }
    }
  }

  lemma ExecFinish(s: System, r: Request, body: Body)
    requires AckInv(s) && ExecInv(s) && Enabled(Documented, s, Finish(r, body))
    ensures ExecInv(Apply(Documented, s, Finish(r, body)))
  {
    var t := Apply(Documented, s, Finish(r, body));
    var w := WindowOf(s, r.clt);
    assert RequestOk(s.clients, s.nonces, r);
    forall q | q in t.requests && !q.bind ensures ExecOk(t, q) {
      FinishExec(s, r, body, q);
    }
    assert SavedOk(t) && SentOk(t) by {
      WithReplyKeepsEntries(w, r.xid, body);
      FinishBodies(s, t, r, body);
    }
    assert WindowsDistinct(t) by { WithReplyHas(w, r.xid, body, 0); }
    assert HistoryOk(t);
  }

  // What the documented step promises about one remembered xid.
  lemma RememberedStays(s: System, r: Request, q: Request)
    requires WindowsDistinct(s) && q.clt == r.clt && Remembered(s, q)
    ensures var o := Check(Documented, s, r);
      && (q.xid <= o.mark || Has(o.window, q.xid))
      && (q.xid == r.xid ==> o.stat != New)
  {
    DocumentedNeverAcceptsTwice({q.xid}, MarkOf(s, r.clt), WindowOf(s, r.clt), r.xid, r.rep);
    assert q.xid in {q.xid};
  }

  lemma NewIsRemembered(s: System, r: Request)
    requires Check(Documented, s, r).stat == New
    ensures Has(Check(Documented, s, r).window, r.xid)
  {
    var o := Check(Documented, s, r);
    assert o.window[|o.window| - 1].xid == r.xid;
  }

  // The same two facts, about an outcome of which nothing else is known.
  ghost predicate Remembers(s: System, r: Request, o: Outcome)
    requires o.Outcome?
  {
    && (o.stat == New ==> Has(o.window, r.xid))
    && (forall q | q in s.requests && q.clt == r.clt && Remembered(s, q) ::
          (q.xid <= o.mark || Has(o.window, q.xid)) && (q.xid == r.xid ==> o.stat != New))
  }

  lemma CheckRemembers(s: System, r: Request)
    requires WindowsDistinct(s)
    ensures Remembers(s, r, Check(Documented, s, r))
    ensures Distinct(Check(Documented, s, r).window)
  {
    var o := Check(Documented, s, r);
    if o.stat == New { NewIsRemembered(s, r); }
    forall q | q in s.requests && q.clt == r.clt && Remembered(s, q)
      ensures (q.xid <= o.mark || Has(o.window, q.xid)) && (q.xid == r.xid ==> o.stat != New)
    {
      RememberedStays(s, r, q);
    }
    DocumentedNeverAcceptsTwice({}, MarkOf(s, r.clt), WindowOf(s, r.clt), r.xid, r.rep);
  }

  lemma RememberedDispatched(s: System, t: System, r: Request, o: Outcome, q: Request)
    requires o.Outcome? && Remembers(s, r, o) && q in s.requests && Shape(s, t, r, o)
    ensures Remembered(s, q) ==> Remembered(t, q)
    ensures o.stat == New ==> Remembered(t, r)
  {
  }

  lemma DispatchExec(s: System, t: System, r: Request, o: Outcome, q: Request)
    requires XidsUnique(s) && ExecOk(s, q) && r in s.requests && q in s.requests && !q.bind
    requires o.Outcome? && Remembers(s, r, o) && Shape(s, t, r, o)
    requires q == r ==> r.srv == s.server.nonce
    ensures ExecOk(t, q)
  {
    RememberedDispatched(s, t, r, o, q);
    if o.stat == New {
      if q == r {
        assert Execs(s, q.clt, q.xid) == 0;
      } else {
        assert (q.clt, q.xid) != (r.clt, r.xid);
        assert t.server.running[q] == s.server.running[q];
        assert Execs(t, q.clt, q.xid) == Execs(s, q.clt, q.xid);
      }
    }
  }

  lemma DispatchExecs(s: System, t: System, r: Request, o: Outcome)
    requires AckInv(s) && ExecsOk(s) && r in s.requests && ForThisInstance(s, r)
    requires o.Outcome? && Remembers(s, r, o) && Shape(s, t, r, o)
    ensures ExecsOk(t)
  {
    assert RequestOk(s.clients, s.nonces, r);
    forall q | q in t.requests && !q.bind ensures ExecOk(t, q) {
      DispatchExec(s, t, r, o, q);
    }
  }

  lemma DispatchSaved(s: System, t: System, r: Request, o: Outcome)
    requires SavedOk(s) && o.Outcome? && PlausibleFor(s, r, o) && Shape(s, t, r, o)
    ensures SavedOk(t)
  {
    forall c, e | c in t.server.windows && e in t.server.windows[c] && e.saved.Present?
      ensures BodyOk(t, c, e.xid, e.saved.body)
    {
      assert e in WindowOf(s, c);
      assert BodyOk(s, c, e.xid, e.saved.body);
    }
  }

  lemma DispatchSent(s: System, t: System, r: Request, o: Outcome)
    requires SavedOk(s) && SentOk(s) && o.Outcome? && PlausibleFor(s, r, o) && Shape(s, t, r, o)
    ensures SentOk(t)
  {
    if o.stat.Done? {
      assert Reply(r.xid, Present(o.stat.body)) in WindowOf(s, r.clt);
      assert BodyOk(s, r.clt, r.xid, o.stat.body);
    }
    forall m | m in t.replies && m.ret.Handler? ensures BodyOk(t, m.clt, m.xid, m.ret.body) {
      assert BodyOk(s, m.clt, m.xid, m.ret.body);
    }
  }

  lemma ExecDispatched(s: System, t: System, r: Request, o: Outcome)
    requires AckInv(s) && ExecInv(s) && r in s.requests && ForThisInstance(s, r)
    requires o.Outcome? && Remembers(s, r, o) && PlausibleFor(s, r, o) && Distinct(o.window) && Shape(s, t, r, o)
    ensures ExecInv(t)
  {
    assert ExecsOk(t) by { DispatchExecs(s, t, r, o); }
    assert SavedOk(t) by { DispatchSaved(s, t, r, o); }
    assert SentOk(t) by { DispatchSent(s, t, r, o); }
    assert RequestOk(s.clients, s.nonces, r);
  }

  lemma ExecRefused(s: System, r: Request)
    requires ExecInv(s)
    ensures ExecInv(s.(replies := s.replies + {ReplyMsg(r.clt, r.xid, OldServerFailure)}))
  {
    var t := s.(replies := s.replies + {ReplyMsg(r.clt, r.xid, OldServerFailure)});
    forall q | q in t.requests && !q.bind ensures ExecOk(t, q) { assert ExecOk(s, q); }
    forall c, e | c in t.server.windows && e in t.server.windows[c] && e.saved.Present?
      ensures BodyOk(t, c, e.xid, e.saved.body)
    {
      assert BodyOk(s, c, e.xid, e.saved.body);
    }
    forall m | m in t.replies && m.ret.Handler? ensures BodyOk(t, m.clt, m.xid, m.ret.body) {
      assert BodyOk(s, m.clt, m.xid, m.ret.body);
    }
  }

  lemma ExecDeliver(s: System, r: Request)
    requires AckInv(s) && ExecInv(s) && Enabled(Documented, s, Deliver(r))
    ensures ExecInv(Apply(Documented, s, Deliver(r)))
  {
    assert RequestOk(s.clients, s.nonces, r);
    if ForThisInstance(s, r) {
      CheckIsPlausible(Documented, s, r);
      CheckRemembers(s, r);
      DispatchedHasShape(s, r, Check(Documented, s, r));
      ExecDispatched(s, Apply(Documented, s, Deliver(r)), r, Check(Documented, s, r));
    } else {
      ExecRefused(s, r);
    }
  }

  lemma StepExtends(s: System, st: Step)
    requires AckInv(s) && Enabled(Documented, s, st)
    requires st.NewClient? || st.Receive? || st.Return? || st.BindDone? || st.Cancel?
    ensures Extends(s, Apply(Documented, s, st))
  {
    var c := if st.Receive? then st.m.clt else st.c;
    var t := Apply(Documented, s, st);
    if c in s.clients {
      var cl := s.clients[c];
      assert ClientOk(c, cl, s.nonces, s.replies);
      if st.Receive? { UpdateAcknowledges(cl.window, st.m.xid, cl.acked); }
      if st.Return? { UpdateAcknowledges(cl.window, st.xid, cl.acked); }
    }
    ExtendsByClient(s, c, t.clients[c]);
  }

  lemma ExecStep(s: System, st: Step)
    requires AckInv(s) && ExecInv(s) && Enabled(Documented, s, st)
    ensures ExecInv(Apply(Documented, s, st))
  {
    match st
    case Call(c, bind, args) => ExecCall(s, c, bind, args);
    case Deliver(r) => ExecDeliver(s, r);
    case Finish(r, body) => ExecFinish(s, r, body);
    case Restart(n) => ExecRestart(s, n);
    case _ => StepExtends(s, st); ExecClientMoves(s, Apply(Documented, s, st));
  }

  lemma {:induction false} ExecRun(n: nat, steps: seq<Step>, states: seq<System>, i: nat)
    requires IsRun(Documented, n, steps, states) && i < |states|
    ensures AckInv(states[i]) && ExecInv(states[i])
  {
    AckRun(Documented, n, steps, states, i);
    if i > 0 {
      ExecRun(n, steps, states, i - 1);
      ExecStep(states[i - 1], steps[i - 1]);
    }
  }

  // ---- the theorems ----

  // In every run of the documented server, with restarts, losses, duplicates
  // and reordering, the behaviour stays defined and the handler of a non-bind
  // request is started at most once.
  lemma AtMostOnce(n: nat, steps: seq<Step>, states: seq<System>, i: nat, r: Request)
    requires IsRun(Documented, n, steps, states) && i < |states|
    requires r in states[i].requests && !r.bind
    ensures states[i].defined && Execs(states[i], r.clt, r.xid) <= 1
  {
    ExecRun(n, steps, states, i);
    assert ExecOk(states[i], r);
  }

  // A call that returned a handler's result had its handler started exactly
  // once, and the body delivered is the one that execution produced.
  lemma ReturnedResultIsTheExecutions(n: nat, steps: seq<Step>, states: seq<System>, i: nat, r: Request)
    requires IsRun(Documented, n, steps, states) && i < |states|
    requires r in states[i].requests && !r.bind && r.clt in states[i].clients
    requires r.xid in states[i].clients[r.clt].returned
    requires states[i].clients[r.clt].returned[r.xid].Replied? && states[i].clients[r.clt].returned[r.xid].ret.Handler?
    ensures Execs(states[i], r.clt, r.xid) == 1
    ensures (r.clt, r.xid) in states[i].results
    ensures states[i].results[(r.clt, r.xid)] == states[i].clients[r.clt].returned[r.xid].ret.body
  {
    var s := states[i];
    ExecRun(n, steps, states, i);
    assert ClientOk(r.clt, s.clients[r.clt], s.nonces, s.replies);
    var m := ReplyMsg(r.clt, r.xid, s.clients[r.clt].returned[r.xid].ret);
    assert m in s.replies;
    assert BodyOk(s, m.clt, m.xid, m.ret.body);
    assert ExecOk(s, r);
  }

  // Every reply that carries a handler's result for one request, first send or
  // DONE resend, carries the same bytes, at whatever two moments they are seen.
  lemma ResendsAreIdentical(n: nat, steps: seq<Step>, states: seq<System>, i: nat, j: nat,
                            r: Request, m1: ReplyMsg, m2: ReplyMsg)
    requires IsRun(Documented, n, steps, states) && i <= j < |states|
    requires r in states[i].requests && !r.bind
    requires m1 in states[i].replies && m2 in states[j].replies
    requires m1.clt == m2.clt == r.clt && m1.xid == m2.xid == r.xid && m1.ret.Handler? && m2.ret.Handler?
    ensures m1 == m2
  {
    MessagesStay(Documented, n, steps, states, i, j);
    ExecRun(n, steps, states, j);
    assert BodyOk(states[j], m1.clt, m1.xid, m1.ret.body);
    assert BodyOk(states[j], m2.clt, m2.xid, m2.ret.body);
  }

  lemma MessageSetsGrow(v: Variant, s: System, st: Step)
    requires Enabled(v, s, st)
    ensures s.requests <= Apply(v, s, st).requests && s.replies <= Apply(v, s, st).replies
  {
    if st.Deliver? && ForThisInstance(s, st.r) && Check(v, s, st.r).Outcome? {
      DispatchedHasShape(s, st.r, Check(v, s, st.r));
    }
  }

  ghost predicate Growing(states: seq<System>) {
    forall k | 0 <= k < |states| - 1 :: Earlier(states[k], states[k + 1])
  }

  ghost predicate Earlier(s: System, t: System) {
    s.requests <= t.requests && s.replies <= t.replies
  }

  lemma {:induction false} GrowingIsTransitive(states: seq<System>, i: nat, j: nat)
    requires Growing(states) && i <= j < |states|
    ensures Earlier(states[i], states[j])
    decreases j
  {
    if i < j {
      GrowingIsTransitive(states, i, j - 1);
      var k := j - 1;
      assert Earlier(states[k], states[k + 1]);
    }
  }

  lemma MessagesStay(v: Variant, n: nat, steps: seq<Step>, states: seq<System>, i: nat, j: nat)
    requires IsRun(v, n, steps, states) && i <= j < |states|
    ensures Earlier(states[i], states[j])
  {
    forall k | 0 <= k < |states| - 1 ensures Earlier(states[k], states[k + 1]) {
      assert Enabled(v, states[k], steps[k]);
      MessageSetsGrow(v, states[k], steps[k]);
    }
    GrowingIsTransitive(states, i, j);
  }
}
