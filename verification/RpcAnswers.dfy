// What the server answers to a request, and why: how far its handler has got, and
// when a call fails.
module RpcAnswers {
  import opened AckList
  import opened ReplyWindow
  import opened CircularWindow
  import opened RpcSystem
  import RpcProof

  // ---- progress, for the documented server ----

  // An entry without reply belongs to a handler that runs.
  ghost predicate PendingOk(s: System) {
    forall c, x | c in s.server.windows && Reply(x, NotYet) in s.server.windows[c] :: PendingRuns(s, c, x)
  }

  ghost predicate PendingRuns(s: System, c: nat, x: nat) {
    forall r | r in s.requests && !r.bind && r.clt == c && r.xid == x :: r in s.server.running
  }

  lemma PendingCall(s: System, c: nat, bind: bool, args: seq<bv8>)
    requires AckInv(s) && PendingOk(s) && Enabled(Documented, s, Call(c, bind, args))
    ensures PendingOk(Apply(Documented, s, Call(c, bind, args)))
  {
    var t := Apply(Documented, s, Call(c, bind, args));
    forall d, x | d in t.server.windows && Reply(x, NotYet) in t.server.windows[d] ensures PendingRuns(t, d, x) {
      assert PendingRuns(s, d, x) && EntryOk(s, d, Reply(x, NotYet));
    }
  }

  lemma PendingDispatched(s: System, t: System, r: Request, o: Outcome)
    requires AckInv(s) && PendingOk(s) && r in s.requests
    requires o.Outcome? && RpcProof.PlausibleFor(s, r, o) && RpcProof.Shape(s, t, r, o)
    requires o.stat != New ==> forall e | e in o.window :: e in WindowOf(s, r.clt)
    ensures PendingOk(t)
  {
    forall d, x | d in t.server.windows && Reply(x, NotYet) in t.server.windows[d] ensures PendingRuns(t, d, x) {
      if Reply(x, NotYet) in WindowOf(s, d) {
        assert PendingRuns(s, d, x);
      } else {
        assert d == r.clt && x == r.xid && o.stat == New;
        forall q | q in t.requests && !q.bind && q.clt == d && q.xid == x ensures q in t.server.running {
          assert q == r;
        }
      }
    }
  }

  lemma PendingDeliver(s: System, r: Request)
    requires AckInv(s) && ExecInv(s) && PendingOk(s) && Enabled(Documented, s, Deliver(r))
    ensures PendingOk(Apply(Documented, s, Deliver(r)))
  {
    var t := Apply(Documented, s, Deliver(r));
    if ForThisInstance(s, r) {
      var o := Check(Documented, s, r);
      assert RequestOk(s.clients, s.nonces, r);
      RpcProof.CheckIsPlausible(Documented, s, r);
      RpcProof.DispatchedHasShape(s, r, o);
      DocumentedLeaves(MarkOf(s, r.clt), WindowOf(s, r.clt), r.xid, r.rep);
      PendingDispatched(s, t, r, o);
    } else {
      PendingSame(s, t);
    }
  }

  lemma PendingSame(s: System, t: System)
    requires PendingOk(s) && t.server == s.server && t.requests == s.requests
    ensures PendingOk(t)
  {
    forall d, x | d in t.server.windows && Reply(x, NotYet) in t.server.windows[d] ensures PendingRuns(t, d, x) {
      assert PendingRuns(s, d, x);
    }
  }

  // Once a reply is recorded the entry of its xid is not pending.
  lemma NotPendingAfter(w: seq<Reply>, xid: nat, body: Body, x: nat)
    requires Distinct(w) && Reply(x, NotYet) in WithReply(w, xid, body)
    ensures x != xid && Reply(x, NotYet) in w
  {
    WithReplySpec(w, xid, body);
  }

  lemma PendingFinish(s: System, r: Request, body: Body)
    requires ExecInv(s) && PendingOk(s) && Enabled(Documented, s, Finish(r, body))
    ensures PendingOk(Apply(Documented, s, Finish(r, body)))
  {
    var t := Apply(Documented, s, Finish(r, body));
    forall d, x | d in t.server.windows && Reply(x, NotYet) in t.server.windows[d] ensures PendingRuns(t, d, x) {
      if d == r.clt { NotPendingAfter(WindowOf(s, d), r.xid, body, x); }
      assert PendingRuns(s, d, x);
      forall q | q in t.requests && !q.bind && q.clt == d && q.xid == x ensures q in t.server.running {
        assert q in s.server.running && q != r;
      }
    }
  }

  lemma PendingStep(s: System, st: Step)
    requires AckInv(s) && ExecInv(s) && PendingOk(s) && Enabled(Documented, s, st)
    ensures PendingOk(Apply(Documented, s, st))
  {
    match st
    case Call(c, bind, args) => PendingCall(s, c, bind, args);
    case Deliver(r) => PendingDeliver(s, r);
    case Finish(r, body) => PendingFinish(s, r, body);
    case Restart(_) =>
    case _ => PendingSame(s, Apply(Documented, s, st));
  }

  lemma {:induction false} PendingRun(n: nat, steps: seq<Step>, states: seq<System>, i: nat)
    requires IsRun(Documented, n, steps, states) && i < |states|
    ensures PendingOk(states[i])
  {
    if i > 0 {
      PendingRun(n, steps, states, i - 1);
      RpcProof.ExecRun(n, steps, states, i - 1);
      PendingStep(states[i - 1], steps[i - 1]);
    }
  }

  ghost predicate Waits(s: System, r: Request) {
    r.clt in s.clients && r.xid in s.clients[r.clt].calls && s.clients[r.clt].calls[r.xid].Waiting?
  }

  lemma AboveMark(s: System, r: Request)
    requires AckInv(s) && r in s.requests && Waits(s, r)
    ensures match MarkOf(s, r.clt) case Unseen => r.rep < r.xid case Seen(m) => m < r.xid
  {
    var cl := s.clients[r.clt];
    assert ClientOk(r.clt, cl, s.nonces, s.replies) && RequestOk(s.clients, s.nonces, r);
    HeadIsLargestPrefix(cl.window, cl.acked);
    if r.clt in s.server.maxima { assert s.server.maxima[r.clt] <= Head(s.clients, r.clt); }
  }

  // The entry of a request tells how far its handler is.
  lemma EntryTells(s: System, r: Request)
    requires AckInv(s) && ExecInv(s) && PendingOk(s) && r in s.requests && !r.bind
    ensures Reply(r.xid, NotYet) in WindowOf(s, r.clt) ==> r in s.server.running
    ensures forall b | Reply(r.xid, Present(b)) in WindowOf(s, r.clt) ::
      (r.clt, r.xid) in s.results && s.results[(r.clt, r.xid)] == b
  {
    if Reply(r.xid, NotYet) in WindowOf(s, r.clt) { assert PendingRuns(s, r.clt, r.xid); }
    forall b | Reply(r.xid, Present(b)) in WindowOf(s, r.clt)
      ensures (r.clt, r.xid) in s.results && s.results[(r.clt, r.xid)] == b
    {
      assert BodyOk(s, r.clt, r.xid, b);
    }
  }

  // A started request of this instance that is awaited has its entry.
  lemma StartedHasEntry(s: System, r: Request)
    requires AckInv(s) && ExecInv(s) && r in s.requests && !r.bind && Waits(s, r)
    requires r.srv == s.server.nonce && Execs(s, r.clt, r.xid) == 1
    ensures exists e :: e in WindowOf(s, r.clt) && e.xid == r.xid
  {
    assert ExecOk(s, r);
    AboveMark(s, r);
    HasByMember(WindowOf(s, r.clt));
  }

  // In every run of the documented server, while a call waits, the instance its
  // request is meant for answers by the state of the handler: done, with exactly
  // its result, once it has finished; in progress while it runs; and new if it has
  // not been started.
  lemma AnswerTellsProgress(n: nat, steps: seq<Step>, states: seq<System>, i: nat, r: Request)
    requires IsRun(Documented, n, steps, states) && i < |states|
    requires r in states[i].requests && !r.bind && r.srv == states[i].server.nonce && Waits(states[i], r)
    ensures var s, k := states[i], (r.clt, r.xid); var o := Check(Documented, s, r);
            && o.Outcome?
            && (k in s.results <==> o.stat.Done?)
            && (k in s.results ==> o.stat == Done(s.results[k]))
            && (r in s.server.running <==> o.stat == InProgress)
            && (Execs(s, r.clt, r.xid) == 0 <==> o.stat == New)
  {
    RpcProof.ExecRun(n, steps, states, i);
    PendingRun(n, steps, states, i);
    AnswerTells(states[i], r);
  }

  lemma AnswerTells(s: System, r: Request)
    requires AckInv(s) && ExecInv(s) && PendingOk(s)
    requires r in s.requests && !r.bind && r.srv == s.server.nonce && Waits(s, r)
    ensures var k := (r.clt, r.xid); var o := Check(Documented, s, r);
            && o.Outcome?
            && (k in s.results <==> o.stat.Done?)
            && (k in s.results ==> o.stat == Done(s.results[k]))
            && (r in s.server.running <==> o.stat == InProgress)
            && (Execs(s, r.clt, r.xid) == 0 <==> o.stat == New)
  {
    var w, o := WindowOf(s, r.clt), Check(Documented, s, r);
    AboveMark(s, r);
    EntryTells(s, r);
    assert ExecOk(s, r);
    DocumentedAnswers(MarkOf(s, r.clt), w, r.xid, r.rep);
    if Execs(s, r.clt, r.xid) == 1 {
      StartedHasEntry(s, r);
      var e :| e in w && e.xid == r.xid;
      assert e == Reply(r.xid, e.saved);
    }
  }

  // ---- failures, for every server ----

  // What is left behind by each failure the server has sent: oldsrv_failure goes to
  // requests for another instance, and their instance is never current again;
  // atmostonce_failure goes to calls whose reply the client has had.
  ghost predicate FailureOk(s: System, m: ReplyMsg) {
    && (m.ret == OldServerFailure ==>
          && (exists r :: r in s.requests && r.clt == m.clt && r.xid == m.xid)
          && forall r | r in s.requests && r.clt == m.clt && r.xid == m.xid :: r.srv != 0 && r.srv != s.server.nonce)
    && (m.ret == AtMostOnceFailure ==> m.clt in s.clients && m.xid in s.clients[m.clt].acked)
  }

  ghost predicate FailuresOk(s: System) {
    forall m | m in s.replies :: FailureOk(s, m)
  }

  // No call has been told that it is forgotten.
  ghost predicate NoneForgotten(s: System) {
    forall c | c in s.clients ::
      && (forall x | x in s.clients[c].calls :: s.clients[c].calls[x] != Replied(AtMostOnceFailure))
      && (forall x | x in s.clients[c].returned :: s.clients[c].returned[x] != Replied(AtMostOnceFailure))
  }

  ghost predicate Grows(s: System, t: System) {
    && t.server.nonce == s.server.nonce && s.requests <= t.requests
    && (forall r | r in t.requests && r !in s.requests :: !Issued(s.clients, r.clt, r.xid))
    && (forall c | c in s.clients :: c in t.clients && s.clients[c].acked <= t.clients[c].acked)
  }

  lemma FailureStays(s: System, t: System, m: ReplyMsg)
    requires RepliesOk(s) && m in s.replies && FailureOk(s, m) && Grows(s, t)
    ensures FailureOk(t, m)
  {
    assert Issued(s.clients, m.clt, m.xid);
    if m.ret == OldServerFailure {
      var r :| r in s.requests && r.clt == m.clt && r.xid == m.xid;
      assert r in t.requests;
    }
  }

  lemma FailuresStay(s: System, t: System)
    requires RepliesOk(s) && FailuresOk(s) && Grows(s, t)
    requires forall m | m in t.replies && m !in s.replies :: FailureOk(t, m)
    ensures FailuresOk(t)
  {
    forall m | m in t.replies ensures FailureOk(t, m) {
      if m in s.replies { FailureStays(s, t, m); }
    }
  }

  // A refused request has been answered before.
  lemma ForgottenIsAcked(v: Variant, s: System, r: Request)
    requires AckInv(s) && r in s.requests && Check(v, s, r).Outcome? && Check(v, s, r).stat == Forgotten
    ensures r.clt in s.clients && r.xid in s.clients[r.clt].acked
  {
    assert RequestOk(s.clients, s.nonces, r);
    var cl := s.clients[r.clt];
    assert ClientOk(r.clt, cl, s.nonces, s.replies);
    RpcProof.CheckIsPlausible(v, s, r);
    HeadIsLargestPrefix(cl.window, cl.acked);
    if r.clt in s.server.maxima { assert s.server.maxima[r.clt] <= Head(s.clients, r.clt); }
    assert AllUpTo(cl.acked, cl.window[0]);
  }

  // What one delivery does, in the words of the dispatcher: a request for another
  // instance is answered oldsrv_failure and nothing else happens; otherwise the
  // check decides between starting the handler, waiting for it, its result, and
  // atmostonce_failure.
  lemma DeliveryAnswers(v: Variant, s: System, r: Request)
    requires Enabled(v, s, Deliver(r)) && (ForThisInstance(s, r) ==> Check(v, s, r).Outcome?)
    ensures var t := Apply(v, s, Deliver(r));
            if r.srv != 0 && r.srv != s.server.nonce
            then t == s.(replies := s.replies + {ReplyMsg(r.clt, r.xid, OldServerFailure)})
            else
              && t.replies - s.replies <= {ReplyMsg(r.clt, r.xid, AtMostOnceFailure)} + DoneReplies(v, s, r)
              && (ReplyMsg(r.clt, r.xid, AtMostOnceFailure) in t.replies - s.replies ==>
                    Check(v, s, r).stat == Forgotten)
              && (Check(v, s, r).stat == Forgotten ==> ReplyMsg(r.clt, r.xid, AtMostOnceFailure) in t.replies)
              && DoneReplies(v, s, r) <= t.replies
              && t.server.running == s.server.running + if Check(v, s, r).stat == New then multiset{r} else multiset{}
  {
    if ForThisInstance(s, r) { RpcProof.DispatchedHasShape(s, r, Check(v, s, r)); }
  }

  // The saved reply, where the check finds one.
  function DoneReplies(v: Variant, s: System, r: Request): set<ReplyMsg> {
    var o := Check(v, s, r);
    if o.Outcome? && o.stat.Done? then {ReplyMsg(r.clt, r.xid, Handler(o.stat.body))} else {}
  }

  lemma DeliverFails(v: Variant, s: System, r: Request)
    requires AckInv(s) && FailuresOk(s) && Enabled(v, s, Deliver(r))
    ensures FailuresOk(Apply(v, s, Deliver(r)))
  {
    var t := Apply(v, s, Deliver(r));
    if !ForThisInstance(s, r) {
      FailuresStay(s, t);
    } else if Check(v, s, r).Outcome? {
      RpcProof.DispatchedHasShape(s, r, Check(v, s, r));
      if Check(v, s, r).stat == Forgotten { ForgottenIsAcked(v, s, r); }
      FailuresStay(s, t);
    } else {
      FailuresStay(s, t);
    }
  }

  // The nonce of an instance is never used again.
  lemma RestartFails(v: Variant, s: System, n: nat)
    requires AckInv(s) && FailuresOk(s) && Enabled(v, s, Restart(n))
    ensures FailuresOk(Apply(v, s, Restart(n)))
  {
    var t := Apply(v, s, Restart(n));
    forall m | m in t.replies ensures FailureOk(t, m) {
      assert FailureOk(s, m);
      forall r | r in t.requests && r.clt == m.clt && r.xid == m.xid && m.ret == OldServerFailure
        ensures r.srv != 0 && r.srv != n
      {
        assert RequestOk(s.clients, s.nonces, r);
      }
    }
  }

  lemma CallFails(v: Variant, s: System, c: nat, bind: bool, args: seq<bv8>)
    requires AckInv(s) && FailuresOk(s) && Enabled(v, s, Call(c, bind, args))
    ensures FailuresOk(Apply(v, s, Call(c, bind, args)))
  {
    var t := Apply(v, s, Call(c, bind, args));
    assert Grows(s, t);
    FailuresStay(s, t);
  }

  lemma FailStep(v: Variant, s: System, st: Step)
    requires AckInv(s) && FailuresOk(s) && Enabled(v, s, st)
    ensures FailuresOk(Apply(v, s, st))
  {
    match st
    case Call(c, bind, args) => CallFails(v, s, c, bind, args);
    case Deliver(r) => DeliverFails(v, s, r);
    case Restart(n) => RestartFails(v, s, n);
    case _ => OthersFail(v, s, st);
  }

  lemma ClientStepGrows(v: Variant, s: System, st: Step)
    requires Enabled(v, s, st) && (st.NewClient? || st.Receive? || st.Return? || st.BindDone? || st.Cancel?)
    ensures Grows(s, Apply(v, s, st)) && Apply(v, s, st).replies == s.replies
  {
  }

  lemma FinishGrows(v: Variant, s: System, r: Request, body: Body)
    requires Enabled(v, s, Finish(r, body))
    ensures Grows(s, Apply(v, s, Finish(r, body)))
    ensures Apply(v, s, Finish(r, body)).replies == s.replies + {ReplyMsg(r.clt, r.xid, Handler(body))}
  {
  }

  lemma OthersFail(v: Variant, s: System, st: Step)
    requires AckInv(s) && FailuresOk(s) && Enabled(v, s, st) && !st.Call? && !st.Deliver? && !st.Restart?
    ensures FailuresOk(Apply(v, s, st))
  {
    if st.Finish? { FinishGrows(v, s, st.r, st.body); } else { ClientStepGrows(v, s, st); }
    FailuresStay(s, Apply(v, s, st));
  }

  lemma ForgottenReceive(v: Variant, s: System, m: ReplyMsg)
    requires AckInv(s) && FailuresOk(s) && NoneForgotten(s) && Enabled(v, s, Receive(m))
    ensures NoneForgotten(Apply(v, s, Receive(m)))
  {
    assert ClientOk(m.clt, s.clients[m.clt], s.nonces, s.replies);
    assert FailureOk(s, m);
  }

  lemma ForgottenStep(v: Variant, s: System, st: Step)
    requires AckInv(s) && FailuresOk(s) && NoneForgotten(s) && Enabled(v, s, st)
    ensures NoneForgotten(Apply(v, s, st))
  {
    match st
    case Receive(m) => ForgottenReceive(v, s, m);
    case NewClient(_) => ForgottenClientStep(v, s, st);
    case Call(_, _, _) => ForgottenClientStep(v, s, st);
    case Return(_, _) => ForgottenClientStep(v, s, st);
    case BindDone(_, _) => ForgottenClientStep(v, s, st);
    case Cancel(_) => ForgottenClientStep(v, s, st);
    case _ => ServerStepKeepsClients(v, s, st);
  }

  lemma ForgottenClientStep(v: Variant, s: System, st: Step)
    requires NoneForgotten(s) && Enabled(v, s, st)
    requires st.NewClient? || st.Call? || st.Return? || st.BindDone? || st.Cancel?
    ensures NoneForgotten(Apply(v, s, st))
  {
  }

  lemma ServerStepKeepsClients(v: Variant, s: System, st: Step)
    requires Enabled(v, s, st) && (st.Deliver? || st.Finish? || st.Restart?)
    ensures Apply(v, s, st).clients == s.clients
  {
    if st.Deliver? && ForThisInstance(s, st.r) && Check(v, s, st.r).Outcome? {
      RpcProof.DispatchedHasShape(s, st.r, Check(v, s, st.r));
    }
  }

  lemma {:induction false} FailRun(v: Variant, n: nat, steps: seq<Step>, states: seq<System>, i: nat)
    requires IsRun(v, n, steps, states) && i < |states|
    ensures FailuresOk(states[i]) && NoneForgotten(states[i])
  {
    if i > 0 {
      FailRun(v, n, steps, states, i - 1);
      RpcProof.AckRun(v, n, steps, states, i - 1);
      FailStep(v, states[i - 1], steps[i - 1]);
      ForgottenStep(v, states[i - 1], steps[i - 1]);
    }
  }

  // In every run, with any of the three checks, no call ever comes back with
  // atmostonce_failure: that reply goes only to calls that were answered before.
  lemma NoCallIsForgotten(v: Variant, n: nat, steps: seq<Step>, states: seq<System>, i: nat, c: nat, xid: nat)
    requires IsRun(v, n, steps, states) && i < |states| && c in states[i].clients
    ensures xid in states[i].clients[c].returned ==> states[i].clients[c].returned[xid] != Replied(AtMostOnceFailure)
    ensures ReplyMsg(c, xid, AtMostOnceFailure) in states[i].replies ==> xid in states[i].clients[c].acked
  {
    FailRun(v, n, steps, states, i);
    if ReplyMsg(c, xid, AtMostOnceFailure) in states[i].replies {
      assert FailureOk(states[i], ReplyMsg(c, xid, AtMostOnceFailure));
    }
  }

  // A call that comes back with oldsrv_failure was meant for an instance that has
  // gone: its request names a nonce which is not the server's, now or later.
  lemma OldServerIsGone(v: Variant, n: nat, steps: seq<Step>, states: seq<System>, i: nat, r: Request)
    requires IsRun(v, n, steps, states) && i < |states| && r in states[i].requests
    requires ReplyMsg(r.clt, r.xid, OldServerFailure) in states[i].replies
    ensures r.srv != 0 && r.srv != states[i].server.nonce && !r.bind
  {
    FailRun(v, n, steps, states, i);
    RpcProof.AckRun(v, n, steps, states, i);
    assert FailureOk(states[i], ReplyMsg(r.clt, r.xid, OldServerFailure));
    assert RequestOk(states[i].clients, states[i].nonces, r);
  }
}
