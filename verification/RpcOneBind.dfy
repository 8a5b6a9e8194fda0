// A client that calls bind once, as every client of the repository does: the
// first of its other requests that the literal server takes up moves the iterator
// past the end, so in the defined part of a run none of them is served.  What a
// circular list does from there on is in RpcLiteral.CircularAtMostOnceIff.
module RpcOneBind {
  import opened AckList
  import opened ReplyWindow
  import opened RpcSystem
  import RpcProof

  // The first call of a client is a bind, so a client that binds once does so
  // under xid 1.
  ghost predicate BindsOnce(s: System, c: nat) {
    forall r | r in s.requests && r.clt == c && r.bind :: r.xid == 1
  }

  // The window holds at most the bind, and the mark has not moved.
  ghost predicate WindowHoldsBind(s: System, c: nat) {
    var w := WindowOf(s, c);
    && (w == [] || (|w| == 1 && w[0].xid == 1))
    && (MarkOf(s, c) == Unseen || MarkOf(s, c) == Seen(0))
  }

  // Only the bind runs, once it is in the window, and nothing else has run.
  ghost predicate OnlyBindRuns(s: System, c: nat) {
    && (forall r | r in s.server.running && r.clt == c :: r.bind && WindowOf(s, c) != [])
    && (forall k | k in s.execs && k.0 == c :: k.1 == 1)
  }

  predicate CarriesNonce(m: ReplyMsg, c: nat) {
    m.clt == c && m.ret.Handler? && m.ret.body.Nonce?
  }

  // Before the bind has reached this instance, nobody has told the client its nonce.
  ghost predicate Untold(s: System, c: nat) {
    && (forall m | m in s.replies && CarriesNonce(m, c) :: m.ret.body.n != s.server.nonce)
    && (forall r | r in s.requests && r.clt == c && !r.bind :: r.srv != s.server.nonce)
    && (c in s.clients && s.clients[c].bound ==> s.clients[c].srv != s.server.nonce)
  }

  // Nonces come in answers to xid 1, and every request but the bind acknowledges it.
  ghost predicate BindFirst(s: System, c: nat) {
    && (forall m | m in s.replies && CarriesNonce(m, c) :: m.xid == 1)
    && (forall r | r in s.requests && r.clt == c && !r.bind :: r.rep >= 1 && r.xid != 1)
    && (c in s.clients ==>
          && (forall x | x in s.clients[c].returned :: x in s.clients[c].acked)
          && (s.clients[c].bound ==> 1 in s.clients[c].acked))
  }

  ghost predicate Unserved(s: System, c: nat) {
    && WindowHoldsBind(s, c) && OnlyBindRuns(s, c) && BindFirst(s, c)
    && (WindowOf(s, c) == [] ==> Untold(s, c))
  }

  // ---- steps that tell the client nothing and start nothing for it ----

  ghost predicate SameService(s: System, t: System, c: nat) {
    && WindowOf(t, c) == WindowOf(s, c) && MarkOf(t, c) == MarkOf(s, c) && t.server.nonce == s.server.nonce
    && (forall r | r in t.server.running && r.clt == c :: r in s.server.running)
    && (forall k | k in t.execs && k.0 == c :: k in s.execs)
  }

  ghost predicate SameMessages(s: System, t: System, c: nat) {
    && (forall m | m in t.replies && CarriesNonce(m, c) :: m in s.replies)
    && (forall r | r in t.requests && r.clt == c && !r.bind :: r in s.requests)
  }

  ghost predicate SameClient(cl: Client, cm: Client) {
    && cm.srv == cl.srv && cm.bound == cl.bound && cl.acked <= cm.acked
    && (forall x | x in cm.returned :: x in cl.returned || x in cm.acked)
  }

  ghost predicate Quiet(s: System, t: System, c: nat) {
    && SameService(s, t, c) && SameMessages(s, t, c)
    && (c in t.clients ==> c in s.clients && SameClient(s.clients[c], t.clients[c]))
  }

  lemma QuietKeeps(s: System, t: System, c: nat)
    requires Unserved(s, c) && Quiet(s, t, c)
    ensures Unserved(t, c)
  {
  }

  lemma ReceiveIsQuiet(s: System, m: ReplyMsg, c: nat)
    requires Enabled(Literal, s, Receive(m))
    ensures Quiet(s, Apply(Literal, s, Receive(m)), c)
  {
    var t := Apply(Literal, s, Receive(m));
    assert SameService(s, t, c) && SameMessages(s, t, c);
    if c in s.clients { assert SameClient(s.clients[c], t.clients[c]); }
  }

  lemma ReturnIsQuiet(s: System, d: nat, xid: nat, c: nat)
    requires Enabled(Literal, s, Return(d, xid))
    ensures Quiet(s, Apply(Literal, s, Return(d, xid)), c)
  {
    var t := Apply(Literal, s, Return(d, xid));
    assert SameService(s, t, c) && SameMessages(s, t, c);
    if c in s.clients { assert SameClient(s.clients[c], t.clients[c]); }
  }

  lemma CancelIsQuiet(s: System, d: nat, c: nat)
    requires Enabled(Literal, s, Cancel(d))
    ensures Quiet(s, Apply(Literal, s, Cancel(d)), c)
  {
    var t := Apply(Literal, s, Cancel(d));
    assert SameService(s, t, c) && SameMessages(s, t, c);
    if c in s.clients { assert SameClient(s.clients[c], t.clients[c]); }
  }

  lemma OthersAreQuiet(s: System, t: System, d: nat, cl: Client, c: nat)
    requires d != c && t.clients == s.clients[d := cl] && t.server == s.server && t.execs == s.execs
    requires t.replies == s.replies
    requires forall r | r in t.requests :: r in s.requests || r.clt == d
    ensures Quiet(s, t, c)
  {
    assert SameService(s, t, c) && SameMessages(s, t, c);
    if c in s.clients { assert SameClient(s.clients[c], t.clients[c]); }
  }

  lemma OthersFinish(s: System, r: Request, body: Body, c: nat)
    requires Enabled(Literal, s, Finish(r, body)) && r.clt != c
    ensures Quiet(s, Apply(Literal, s, Finish(r, body)), c)
  {
    var t := Apply(Literal, s, Finish(r, body));
    assert SameService(s, t, c);
    assert SameMessages(s, t, c);
    if c in s.clients { assert SameClient(s.clients[c], t.clients[c]); }
  }

  lemma OthersDispatch(s: System, t: System, r: Request, o: Outcome, c: nat)
    requires r.clt != c && o.Outcome? && RpcProof.Shape(s, t, r, o)
    ensures Quiet(s, t, c)
  {
    assert SameService(s, t, c) by {
      forall q | q in t.server.running && q.clt == c ensures q in s.server.running {}
    }
    assert SameMessages(s, t, c);
    if c in s.clients { assert SameClient(s.clients[c], t.clients[c]); }
  }

  // A request for another instance, or one on which the walk passes the end.
  lemma UnservedElsewhere(s: System, t: System, c: nat)
    requires Unserved(s, c) && t.clients == s.clients && t.server == s.server && t.execs == s.execs
    requires t.requests == s.requests && forall m | m in t.replies && m.ret.Handler? :: m in s.replies
    ensures Unserved(t, c)
  {
    assert SameService(s, t, c) && SameMessages(s, t, c);
    if c in s.clients { assert SameClient(s.clients[c], t.clients[c]); }
    QuietKeeps(s, t, c);
  }

  // ---- steps of this client ----

  // A call other than a bind acknowledges the bind.
  lemma CallsFollowBind(s: System, c: nat)
    requires c in s.clients && ClientOk(c, s.clients[c], s.nonces, s.replies)
    requires BindFirst(s, c) && s.clients[c].bound
    ensures s.clients[c].window[0] >= 1 && s.clients[c].next > 1
  {
    var cl := s.clients[c];
    HeadIsLargestPrefix(cl.window, cl.acked);
    assert AllUpTo(cl.acked, 1);
  }

  lemma UnservedCalled(s: System, t: System, r: Request)
    requires Unserved(s, r.clt) && r.clt in s.clients && r.clt in t.clients
    requires SameService(s, t, r.clt) && SameClient(s.clients[r.clt], t.clients[r.clt])
    requires t.replies == s.replies && t.requests == s.requests + {r}
    requires !r.bind ==> r.rep >= 1 && r.xid != 1 && s.clients[r.clt].bound && r.srv == s.clients[r.clt].srv
    ensures Unserved(t, r.clt)
  {
  }

  lemma UnservedCall(s: System, c: nat, bind: bool, args: seq<bv8>)
    requires AckInv(s) && Unserved(s, c) && Enabled(Literal, s, Call(c, bind, args))
    ensures Unserved(Apply(Literal, s, Call(c, bind, args)), c)
  {
    var cl, t := s.clients[c], Apply(Literal, s, Call(c, bind, args));
    assert ClientOk(c, cl, s.nonces, s.replies);
    if !bind { CallsFollowBind(s, c); }
    assert SameService(s, t, c) && SameClient(cl, t.clients[c]);
    UnservedCalled(s, t, Request(c, cl.next, bind, cl.srv, cl.window[0], args));
  }

  lemma UnservedBindDone(s: System, c: nat, xid: nat)
    requires AckInv(s) && Unserved(s, c) && Enabled(Literal, s, BindDone(c, xid))
    ensures Unserved(Apply(Literal, s, BindDone(c, xid)), c)
  {
    var cl, t := s.clients[c], Apply(Literal, s, BindDone(c, xid));
    assert ReturnsOk(c, cl.returned, s.replies) by { assert ClientOk(c, cl, s.nonces, s.replies); }
    var m := ReplyMsg(c, xid, cl.returned[xid].ret);
    assert m in s.replies && CarriesNonce(m, c);
    assert SameService(s, t, c) && SameMessages(s, t, c);
    assert BindFirst(t, c);
    assert WindowOf(t, c) == [] ==> Untold(t, c);
  }

  lemma UnservedNewClient(s: System, c: nat)
    requires Unserved(s, c) && Enabled(Literal, s, NewClient(c))
    ensures Unserved(Apply(Literal, s, NewClient(c)), c)
  {
    var t := Apply(Literal, s, NewClient(c));
    assert SameService(s, t, c) && SameMessages(s, t, c);
  }

  // ---- steps of the server ----

  lemma BindAlone(s: System, r: Request, body: Body)
    requires ServerOk(s) && Unserved(s, r.clt) && BindsOnce(s, r.clt) && Enabled(Literal, s, Finish(r, body))
    ensures r.xid == 1 && r.bind && WithReply(WindowOf(s, r.clt), 1, body) == [Reply(1, Present(body))]
  {
    assert r in s.requests;
    var w := WindowOf(s, r.clt);
    assert WithReply(w, 1, body) == [Reply(1, Present(body))] + w[1..];
  }

  lemma UnservedFinish(s: System, r: Request, body: Body)
    requires AckInv(s) && Unserved(s, r.clt) && BindsOnce(s, r.clt) && Enabled(Literal, s, Finish(r, body))
    ensures Unserved(Apply(Literal, s, Finish(r, body)), r.clt)
  {
    var t := Apply(Literal, s, Finish(r, body));
    BindAlone(s, r, body);
    assert WindowOf(t, r.clt) == [Reply(1, Present(body))];
    assert WindowHoldsBind(t, r.clt) && OnlyBindRuns(t, r.clt);
    assert BindFirst(t, r.clt);
  }

  // The bind itself is accepted, or found in the window.
  lemma BindDelivered(s: System, r: Request)
    requires RequestsOk(s) && WindowHoldsBind(s, r.clt) && r in s.requests && r.xid == 1
    ensures var o := Check(Literal, s, r);
      && o.Outcome? && o.mark == 0 && |o.window| == 1 && o.window[0].xid == 1 && o.stat != Forgotten
  {
    assert RequestOk(s.clients, s.nonces, r);
    var w := WindowOf(s, r.clt);
    if w == [] {
      assert ScanFrom(w, 1, 0) == Missing([]);
      assert [] + [Reply(1, NotYet)] == [Reply(1, NotYet)];
    }
  }

  // Any other request finds the window with the bind alone, and deletes it.
  lemma OthersPassEnd(s: System, r: Request)
    requires AckInv(s) && Unserved(s, r.clt) && r in s.requests && !r.bind && ForThisInstance(s, r)
    ensures Check(Literal, s, r).PastEnd?
  {
    assert RequestOk(s.clients, s.nonces, r);
    var w := WindowOf(s, r.clt);
    assert w != [];
    assert ScanFrom(w, r.xid, r.rep) == Overrun;
  }

  lemma BindRuns(s: System, t: System, r: Request, o: Outcome)
    requires OnlyBindRuns(s, r.clt) && r.bind && r.xid == 1
    requires o.Outcome? && o.window != [] && RpcProof.Shape(s, t, r, o)
    ensures OnlyBindRuns(t, r.clt)
  {
    forall q | q in t.server.running && q.clt == r.clt ensures q.bind {
      assert q in s.server.running || q == r;
    }
  }

  lemma BindAnswered(s: System, t: System, r: Request, o: Outcome)
    requires BindFirst(s, r.clt) && r.xid == 1
    requires o.Outcome? && RpcProof.Shape(s, t, r, o)
    ensures BindFirst(t, r.clt)
  {
  }

  lemma UnservedBind(s: System, t: System, r: Request, o: Outcome)
    requires Unserved(s, r.clt) && r.bind && r.xid == 1
    requires o.Outcome? && o.mark == 0 && |o.window| == 1 && o.window[0].xid == 1
    requires RpcProof.Shape(s, t, r, o)
    ensures Unserved(t, r.clt)
  {
    assert WindowOf(t, r.clt) == o.window && MarkOf(t, r.clt) == Seen(0);
    BindRuns(s, t, r, o);
    BindAnswered(s, t, r, o);
  }

  lemma UnservedDeliver(s: System, r: Request, c: nat)
    requires AckInv(s) && Unserved(s, c) && BindsOnce(s, c) && Enabled(Literal, s, Deliver(r))
    ensures Unserved(Apply(Literal, s, Deliver(r)), c)
  {
    var t, o := Apply(Literal, s, Deliver(r)), Check(Literal, s, r);
    if ForThisInstance(s, r) && o.Outcome? { RpcProof.DispatchedHasShape(s, r, o); }
    if !ForThisInstance(s, r) {
      UnservedElsewhere(s, t, c);
    } else if c != r.clt && o.Outcome? {
      OthersDispatch(s, t, r, o, c);
      QuietKeeps(s, t, c);
    } else if c == r.clt && r.bind {
      BindDelivered(s, r);
      UnservedBind(s, t, r, o);
    } else {
      if c == r.clt { OthersPassEnd(s, r); }
      UnservedElsewhere(s, t, c);
    }
  }

  lemma UnservedRestart(s: System, n: nat, c: nat)
    requires AckInv(s) && Unserved(s, c) && Enabled(Literal, s, Restart(n))
    ensures Unserved(Apply(Literal, s, Restart(n)), c)
  {
    var t := Apply(Literal, s, Restart(n));
    assert Untold(t, c) by {
      forall m | m in s.replies && CarriesNonce(m, c) ensures m.ret.body.n != n {
        assert BodyNonceOk(s.nonces, m.ret.body);
      }
      forall r | r in s.requests && r.clt == c && !r.bind ensures r.srv != n {
        assert RequestOk(s.clients, s.nonces, r);
      }
      if c in s.clients {
        assert ClientOk(c, s.clients[c], s.nonces, s.replies);
      }
    }
    assert WindowOf(t, c) == [] && BindFirst(t, c);
  }

  lemma OthersMove(s: System, st: Step, c: nat)
    requires Enabled(Literal, s, st) && (st.NewClient? || st.Call? || st.BindDone?) && st.c != c
    ensures Quiet(s, Apply(Literal, s, st), c)
  {
    var t := Apply(Literal, s, st);
    OthersAreQuiet(s, t, st.c, t.clients[st.c], c);
  }

  lemma QuietSteps(s: System, st: Step, c: nat)
    requires Enabled(Literal, s, st) && (st.Receive? || st.Return? || st.Cancel?)
    ensures Quiet(s, Apply(Literal, s, st), c)
  {
    match st
    case Receive(m) => ReceiveIsQuiet(s, m, c);
    case Return(d, xid) => ReturnIsQuiet(s, d, xid, c);
    case Cancel(d) => CancelIsQuiet(s, d, c);
  }

  lemma UnservedStep(s: System, st: Step, c: nat)
    requires AckInv(s) && Unserved(s, c) && BindsOnce(s, c) && Enabled(Literal, s, st)
    ensures Unserved(Apply(Literal, s, st), c)
  {
    if st.Receive? || st.Return? || st.Cancel? {
      QuietSteps(s, st, c);
      QuietKeeps(s, Apply(Literal, s, st), c);
    } else if (st.NewClient? || st.Call? || st.BindDone?) && st.c != c {
      OthersMove(s, st, c);
      QuietKeeps(s, Apply(Literal, s, st), c);
    } else if st.Finish? && st.r.clt != c {
      OthersFinish(s, st.r, st.body, c);
      QuietKeeps(s, Apply(Literal, s, st), c);
    } else {
      match st
      case NewClient(_) => UnservedNewClient(s, c);
      case Call(_, bind, args) => UnservedCall(s, c, bind, args);
      case BindDone(_, xid) => UnservedBindDone(s, c, xid);
      case Deliver(r) => UnservedDeliver(s, r, c);
      case Finish(r, body) => UnservedFinish(s, r, body);
      case Restart(n) => UnservedRestart(s, n, c);
    }
  }

  // ---- runs ----

  lemma {:induction false} UnservedRun(n: nat, steps: seq<Step>, states: seq<System>, i: nat, c: nat)
    requires IsRun(Literal, n, steps, states) && i < |states| && BindsOnce(states[i], c)
    ensures Unserved(states[i], c)
  {
    if i > 0 {
      RpcProof.AckRun(Literal, n, steps, states, i - 1);
      RpcProof.MessageSetsGrow(Literal, states[i - 1], steps[i - 1]);
      UnservedRun(n, steps, states, i - 1, c);
      UnservedStep(states[i - 1], steps[i - 1], c);
    }
  }

  // In the defined part of any run of the literal server nothing but the bind of
  // such a client is started.
  lemma OneBindClientIsNeverServed(n: nat, steps: seq<Step>, states: seq<System>, i: nat, c: nat, xid: nat)
    requires IsRun(Literal, n, steps, states) && i < |states| && BindsOnce(states[i], c)
    requires xid != 1
    ensures Execs(states[i], c, xid) == 0
  {
    UnservedRun(n, steps, states, i, c);
  }

  // Its first other request to reach the instance it is meant for makes the
  // behaviour undefined.
  lemma FirstRequestEndsRun(n: nat, steps: seq<Step>, states: seq<System>, i: nat, r: Request)
    requires IsRun(Literal, n, steps, states) && i < |steps| && steps[i] == Deliver(r)
    requires !r.bind && BindsOnce(states[i], r.clt) && ForThisInstance(states[i], r)
    ensures !states[i + 1].defined && |states| == i + 2
  {
    UnservedRun(n, steps, states, i, r.clt);
    RpcProof.AckRun(Literal, n, steps, states, i);
    OthersPassEnd(states[i], r);
    assert i + 1 < |steps| ==> Enabled(Literal, states[i + 1], steps[i + 1]);
    assert states[i + 1] == Apply(Literal, states[i], steps[i]);
  }
}
