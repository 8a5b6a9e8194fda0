// What the single steps of clients and server mean to the caller, and that an
// awaited call can always be completed.
module RpcSteps {
  import opened AckList
  import opened ReplyWindow
  import opened RpcSystem
  import RpcProof
  import RpcAnswers

  // ---- the client ----

  // A call sends one request, under an xid none before had, meant for the instance
  // the client is bound to; it acknowledges exactly the xids up to the first one
  // whose reply is missing; and it waits.
  lemma CallAcknowledges(v: Variant, s: System, c: nat, bind: bool, args: seq<bv8>) returns (r: Request)
    requires AckInv(s) && Enabled(v, s, Call(c, bind, args))
    ensures var t := Apply(v, s, Call(c, bind, args));
            && t.requests == s.requests + {r} && r.clt == c && r.bind == bind && r.args == args
            && r.srv == s.clients[c].srv
            && (forall x | 1 <= x <= r.rep :: x in s.clients[c].acked) && r.rep + 1 !in s.clients[c].acked
            && RpcAnswers.Waits(t, r) && t.server == s.server && t.replies == s.replies
    ensures forall q | q in s.requests && q.clt == c :: q.xid < r.xid
  {
    var cl := s.clients[c];
    r := Request(c, cl.next, bind, cl.srv, cl.window[0], args);
    assert ClientOk(c, cl, s.nonces, s.replies);
    HeadIsLargestPrefix(cl.window, cl.acked);
    assert AllUpTo(cl.acked, cl.window[0]);
    forall q | q in s.requests && q.clt == c ensures q.xid < r.xid {
      assert RequestOk(s.clients, s.nonces, q);
    }
  }

  // A reply is handed to the call that waits for it, and only acknowledged when none
  // does; no other call is touched.
  lemma ReplySettlesCall(v: Variant, s: System, m: ReplyMsg)
    requires Enabled(v, s, Receive(m))
    ensures var t := Apply(v, s, Receive(m)); var before, after := s.clients[m.clt], t.clients[m.clt];
            && (m.xid in before.calls && before.calls[m.xid] == Waiting ==>
                  m.xid in after.calls && after.calls[m.xid] == Replied(m.ret))
            && (forall x | x in before.calls && !(x == m.xid && before.calls[x] == Waiting) ::
                  x in after.calls && after.calls[x] == before.calls[x])
            && after.acked == before.acked + {m.xid} && after.returned == before.returned
            && (forall c | c in s.clients && c != m.clt :: t.clients[c] == s.clients[c])
            && t.server == s.server
  {
  }

  // The caller gets what its entry holds, the entry is gone, and its xid counts as
  // acknowledged whether a reply has come or not.
  lemma ReturnHandsOver(v: Variant, s: System, c: nat, xid: nat)
    requires Enabled(v, s, Return(c, xid))
    ensures var t := Apply(v, s, Return(c, xid)); var before, after := s.clients[c], t.clients[c];
            && xid in after.returned && after.returned[xid] == before.calls[xid]
            && xid !in after.calls && (forall x | x in before.calls && x != xid ::
                                         x in after.calls && after.calls[x] == before.calls[x])
            && after.acked == before.acked + {xid}
            && (forall d | d in s.clients && d != c :: t.clients[d] == s.clients[d])
  {
  }

  // A bind that returned binds the client to the nonce in its reply.
  lemma BindLearnsNonce(v: Variant, s: System, c: nat, xid: nat)
    requires Enabled(v, s, BindDone(c, xid))
    ensures var t := Apply(v, s, BindDone(c, xid));
            && s.clients[c].returned[xid] == Replied(Handler(Nonce(t.clients[c].srv))) && t.clients[c].bound
            && t.clients[c].calls == s.clients[c].calls && t.clients[c].acked == s.clients[c].acked
  {
  }

  // cancel fails every call that has not returned and lets no further one begin.
  lemma CancelFailsAll(v: Variant, s: System, c: nat, bind: bool, args: seq<bv8>)
    requires Enabled(v, s, Cancel(c))
    ensures var t := Apply(v, s, Cancel(c));
            && (forall x :: x in t.clients[c].calls <==> x in s.clients[c].calls)
            && (forall x | x in t.clients[c].calls :: t.clients[c].calls[x] == Cancelled)
            && !Enabled(v, t, Call(c, bind, args))
  {
  }

  // A new client has acknowledged nothing but xid 0, and its first call is xid 1.
  lemma FirstXid(v: Variant, s: System, c: nat)
    requires Enabled(v, s, NewClient(c))
    ensures var t := Apply(v, s, NewClient(c));
            Enabled(v, t, Call(c, true, [])) && !Enabled(v, t, Call(c, false, []))
            && Apply(v, t, Call(c, true, [])).requests == t.requests + {Request(c, 1, true, 0, 0, [])}
  {
  }

  // ---- the server ----

  // A new instance remembers nothing and runs nothing; messages under way stay.
  lemma RestartForgets(v: Variant, s: System, n: nat, c: nat)
    requires Enabled(v, s, Restart(n))
    ensures var t := Apply(v, s, Restart(n));
            && t.server.nonce == n && n !in s.nonces && WindowOf(t, c) == [] && MarkOf(t, c) == Unseen
            && t.server.running == multiset{} && t.requests == s.requests && t.replies == s.replies
            && t.clients == s.clients
  {
  }

  // A handler that ends is answered, once, and its reply is saved in its entry.
  lemma FinishAnswers(v: Variant, s: System, r: Request, body: Body)
    requires Enabled(v, s, Finish(r, body))
    ensures var t := Apply(v, s, Finish(r, body));
            && t.replies == s.replies + {ReplyMsg(r.clt, r.xid, Handler(body))}
            && t.server.running == s.server.running - multiset{r}
            && (Distinct(WindowOf(s, r.clt)) && Reply(r.xid, NotYet) in WindowOf(s, r.clt) ==>
                  Reply(r.xid, Present(body)) in WindowOf(t, r.clt))
            && (r.bind ==> body == Nonce(s.server.nonce))
  {
    var w := WindowOf(s, r.clt);
    if Distinct(w) && Reply(r.xid, NotYet) in w {
      WithReplySpec(w, r.xid, body);
      var i :| 0 <= i < |w| && w[i] == Reply(r.xid, NotYet);
      assert WithReply(w, r.xid, body)[i] == Reply(r.xid, Present(body));
    }
  }

  // ---- every awaited call can be completed ----

  ghost predicate Good(s: System) {
    AckInv(s) && ExecInv(s) && RpcAnswers.PendingOk(s)
  }

  lemma GoodStep(s: System, st: Step)
    requires Good(s) && Enabled(Documented, s, st)
    ensures Good(Apply(Documented, s, st))
  {
    RpcProof.AckStep(Documented, s, st);
    RpcProof.ExecStep(s, st);
    RpcAnswers.PendingStep(s, st);
  }

  // The call of r waits at the instance it is meant for.
  ghost predicate Awaited(s: System, r: Request) {
    && Good(s) && r in s.requests && !r.bind && r.srv == s.server.nonce && RpcAnswers.Waits(s, r)
  }

  // Its caller has got its handler's result.
  ghost predicate Completed(s: System, r: Request) {
    && r.clt in s.clients && r.xid in s.clients[r.clt].returned && (r.clt, r.xid) in s.results
    && s.clients[r.clt].returned[r.xid] == Replied(Handler(s.results[(r.clt, r.xid)]))
  }

  ghost predicate CanComplete(s: System, r: Request, n: nat)
    decreases n
  {
    || Completed(s, r)
    || (n > 0 && exists st, t :: Leads(s, st, t) && CanComplete(t, r, n - 1))
  }

  ghost predicate Leads(s: System, st: Step, t: System) {
    Enabled(Documented, s, st) && t == Apply(Documented, s, st)
  }

  lemma CompletesAfter(s: System, st: Step, r: Request, n: nat)
    requires Enabled(Documented, s, st) && CanComplete(Apply(Documented, s, st), r, n)
    ensures CanComplete(s, r, n + 1)
  {
    assert Leads(s, st, Apply(Documented, s, st));
  }

  lemma AnsweredCompletes(s: System, r: Request, body: Body)
    requires Awaited(s, r) && (r.clt, r.xid) in s.results && s.results[(r.clt, r.xid)] == body
    requires ReplyMsg(r.clt, r.xid, Handler(body)) in s.replies
    ensures CanComplete(s, r, 2)
  {
    var m := ReplyMsg(r.clt, r.xid, Handler(body));
    assert ClientOk(r.clt, s.clients[r.clt], s.nonces, s.replies);
    var t := Apply(Documented, s, Receive(m));
    RpcProof.AckStep(Documented, s, Receive(m));
    assert ClientOk(r.clt, t.clients[r.clt], t.nonces, t.replies);
    var u := Apply(Documented, t, Return(r.clt, r.xid));
    assert Completed(u, r);
    CompletesAfter(t, Return(r.clt, r.xid), r, 0);
    CompletesAfter(s, Receive(m), r, 1);
  }

  lemma FinishedCompletes(s: System, r: Request)
    requires Awaited(s, r) && (r.clt, r.xid) in s.results
    ensures CanComplete(s, r, 3)
  {
    RpcAnswers.AnswerTells(s, r);
    var t := Apply(Documented, s, Deliver(r));
    RpcProof.DispatchedHasShape(s, r, Check(Documented, s, r));
    GoodStep(s, Deliver(r));
    AnsweredCompletes(t, r, s.results[(r.clt, r.xid)]);
    CompletesAfter(s, Deliver(r), r, 2);
  }

  lemma RunningCompletes(s: System, r: Request)
    requires Awaited(s, r) && r in s.server.running
    ensures CanComplete(s, r, 3)
  {
    var st := Finish(r, Data([]));
    var t := Apply(Documented, s, st);
    GoodStep(s, st);
    AnsweredCompletes(t, r, Data([]));
    CompletesAfter(s, st, r, 2);
  }

  lemma NewCompletes(s: System, r: Request)
    requires Awaited(s, r) && Execs(s, r.clt, r.xid) == 0
    ensures CanComplete(s, r, 4)
  {
    RpcAnswers.AnswerTells(s, r);
    var t := Apply(Documented, s, Deliver(r));
    RpcProof.DispatchedHasShape(s, r, Check(Documented, s, r));
    GoodStep(s, Deliver(r));
    RunningCompletes(t, r);
    CompletesAfter(s, Deliver(r), r, 3);
  }

  lemma {:induction false} CompletesLater(s: System, r: Request, n: nat)
    requires CanComplete(s, r, n)
    ensures CanComplete(s, r, n + 1)
    decreases n
  {
    if !Completed(s, r) {
      var st, t :| Leads(s, st, t) && CanComplete(t, r, n - 1);
      CompletesLater(t, r, n - 1);
    }
  }

  // In every state of every run of the documented server, a call that waits at the
  // present instance can come back, within four steps, with its handler's result,
  // whether its handler has not begun, runs, or has ended with its reply lost.
  lemma AwaitedCanComplete(n: nat, steps: seq<Step>, states: seq<System>, i: nat, r: Request)
    requires IsRun(Documented, n, steps, states) && i < |states|
    requires r in states[i].requests && !r.bind && r.srv == states[i].server.nonce && RpcAnswers.Waits(states[i], r)
    ensures CanComplete(states[i], r, 4)
  {
    var s := states[i];
    RpcProof.ExecRun(n, steps, states, i);
    RpcAnswers.PendingRun(n, steps, states, i);
    RpcAnswers.AnswerTells(s, r);
    assert ExecOk(s, r);
    if Execs(s, r.clt, r.xid) == 0 {
      NewCompletes(s, r);
    } else if r in s.server.running {
      RunningCompletes(s, r);
      CompletesLater(s, r, 3);
    } else {
      DoneOrRuns(s, r);
      FinishedCompletes(s, r);
      CompletesLater(s, r, 3);
    }
  }

  lemma DoneOrRuns(s: System, r: Request)
    requires Awaited(s, r) && Execs(s, r.clt, r.xid) != 0 && r !in s.server.running
    ensures (r.clt, r.xid) in s.results
  {
    RpcAnswers.AnswerTells(s, r);
    RpcAnswers.AboveMark(s, r);
    DocumentedAnswers(MarkOf(s, r.clt), WindowOf(s, r.clt), r.xid, r.rep);
  }
}
