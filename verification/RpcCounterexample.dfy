// Runs of the literal server that start one handler twice, each with two binds
// under way at once; the run of a client that binds once, which passes the end of
// the window at its first call; and the run of such a client on a circular list.
module RpcCounterexample {
  import opened AckList
  import opened ReplyWindow
  import opened CircularWindow
  import opened RpcSystem
  import RpcProof

  ghost predicate Reaches(v: Variant, s: System) {
    exists steps, states :: IsRun(v, 7, steps, states) && states[|states| - 1] == s
  }

  ghost predicate Live(v: Variant, s: System) {
    Reaches(v, s) && s.defined
  }

  lemma ReachStart(v: Variant)
    ensures Reaches(v, Start(7))
  {
    assert IsRun(v, 7, [], [Start(7)]);
  }

  lemma ReachStep(v: Variant, s: System, st: Step)
    requires Reaches(v, s) && Enabled(v, s, st)
    ensures Reaches(v, Apply(v, s, st))
  {
    var steps, states :| IsRun(v, 7, steps, states) && states[|states| - 1] == s;
    var steps', states' := steps + [st], states + [Apply(v, s, st)];
    forall i | 0 <= i < |steps'|
      ensures Enabled(v, states'[i], steps'[i]) && states'[i + 1] == Apply(v, states'[i], steps'[i])
    {
      if i < |steps| {
        assert states'[i] == states[i] && states'[i + 1] == states[i + 1];
      }
    }
    assert IsRun(v, 7, steps', states');
  }

  function Bind(x: nat): Request { Request(1, x, true, 0, 0, []) }
  function Op(x: nat, rep: nat): Request { Request(1, x, false, 7, rep, []) }

  // What a step did, reduced to what the next steps look at.

  lemma Delivered(v: Variant, s: System, r: Request, o: Outcome) returns (t: System)
    requires Live(v, s) && r in s.requests && ForThisInstance(s, r)
    requires o.Outcome? && Check(v, s, r) == o
    ensures Live(v, t)
    ensures t.clients == s.clients && t.requests == s.requests
    ensures s.replies <= t.replies && t.server.nonce == s.server.nonce
    ensures WindowOf(t, r.clt) == o.window && MarkOf(t, r.clt) == Seen(o.mark)
    ensures s.server.running <= t.server.running
    ensures o.stat == New ==> r in t.server.running
    ensures forall k: Key ::
      Execs(t, k.0, k.1) == Execs(s, k.0, k.1) + if o.stat == New && k == (r.clt, r.xid) then 1 else 0
  {
    ReachStep(v, s, Deliver(r));
    t := Dispatched(s, r, o);
    RpcProof.DispatchedHasShape(s, r, o);
  }

  lemma Finished(v: Variant, s: System, r: Request, body: Body) returns (t: System)
    requires Live(v, s) && Enabled(v, s, Finish(r, body))
    ensures Live(v, t)
    ensures t.clients == s.clients && t.requests == s.requests && t.execs == s.execs && t.server.nonce == s.server.nonce
    ensures t.replies == s.replies + {ReplyMsg(r.clt, r.xid, Handler(body))}
    ensures WindowOf(t, r.clt) == WithReply(WindowOf(s, r.clt), r.xid, body) && MarkOf(t, r.clt) == MarkOf(s, r.clt)
    ensures t.server.running == s.server.running - multiset{r}
  {
    ReachStep(v, s, Finish(r, body));
    t := Apply(v, s, Finish(r, body));
  }

  // The server side of a state does not move.
  ghost predicate SameServer(s: System, t: System) {
    t.server == s.server && t.execs == s.execs && t.replies == s.replies
  }

  ghost predicate SameClient(a: Client, b: Client) {
    a.srv == b.srv && a.bound == b.bound && a.destroying == b.destroying
  }

  lemma Called(v: Variant, s: System, bind: bool) returns (t: System)
    requires Live(v, s) && Enabled(v, s, Call(1, bind, []))
    ensures Live(v, t) && SameServer(s, t)
    ensures t.requests ==
            s.requests + {Request(1, s.clients[1].next, bind, s.clients[1].srv, s.clients[1].window[0], [])}
    ensures 1 in t.clients && SameClient(s.clients[1], t.clients[1])
    ensures t.clients[1].next == s.clients[1].next + 1 && t.clients[1].window == s.clients[1].window
    ensures t.clients[1].calls == s.clients[1].calls[s.clients[1].next := Waiting]
  {
    ReachStep(v, s, Call(1, bind, []));
    t := Apply(v, s, Call(1, bind, []));
  }

  lemma Received(v: Variant, s: System, xid: nat, body: Body) returns (t: System)
    requires Live(v, s) && ReplyMsg(1, xid, Handler(body)) in s.replies
    requires 1 in s.clients && xid > 0 && s.clients[1].window == [xid - 1]
    ensures Live(v, t) && SameServer(s, t) && t.requests == s.requests
    ensures 1 in t.clients && SameClient(s.clients[1], t.clients[1]) && t.clients[1].next == s.clients[1].next
    ensures t.clients[1].window == [xid]
    ensures xid in s.clients[1].calls && s.clients[1].calls[xid].Waiting? ==>
      xid in t.clients[1].calls && t.clients[1].calls[xid] == Replied(Handler(body))
  {
    var m := ReplyMsg(1, xid, Handler(body));
    UpdateOne(xid - 1);
    ReachStep(v, s, Receive(m));
    t := Apply(v, s, Receive(m));
  }

  // The thread that called bind as xid 1 returns with the nonce and stores it.
  lemma Bound(v: Variant, s: System) returns (t: System)
    requires Live(v, s) && 1 in s.clients && s.clients[1].window == [1]
    requires 1 in s.clients[1].calls && s.clients[1].calls[1] == Replied(Handler(Nonce(7)))
    ensures Live(v, t) && SameServer(s, t) && t.requests == s.requests
    ensures 1 in t.clients && t.clients[1].next == s.clients[1].next && t.clients[1].window == [1]
    ensures t.clients[1].bound && t.clients[1].srv == 7 && t.clients[1].destroying == s.clients[1].destroying
  {
    ReachStep(v, s, Return(1, 1));
    var mid := Apply(v, s, Return(1, 1));
    assert mid.clients[1].returned[1] == Replied(Handler(Nonce(7)));
    ReachStep(v, mid, BindDone(1, 1));
    t := Apply(v, mid, BindDone(1, 1));
  }

  lemma UpdateOne(h: nat)
    ensures Update([h], h + 1) == [h + 1]
  {
    assert Insert([h], h + 1) == [h] + Insert([], h + 1) == [h, h + 1];
    assert PopWhile([h, h + 1], 1) == PopWhile([h + 1], 0) == ([h + 1], 0);
    assert CompressFrom([h, h + 1], 1) == CompressFrom([h + 1], 1);
  }

  // What the two runs need to know of a state.
  ghost predicate At(s: System, next: nat, head: nat, mark: nat, w: seq<Reply>) {
    && s.server.nonce == 7
    && 1 in s.clients && s.clients[1].next == next && s.clients[1].window == [head]
    && s.clients[1].bound && s.clients[1].srv == 7 && !s.clients[1].destroying
    && MarkOf(s, 1) == Seen(mark)
    && WindowOf(s, 1) == w
  }

  lemma TwoBindsCalled() returns (s: System)
    ensures Live(Literal, s) && s.server == Start(7).server && s.execs == map[]
    ensures 1 in s.clients && s.clients[1].next == 3 && s.clients[1].window == [0]
    ensures !s.clients[1].bound && !s.clients[1].destroying && s.clients[1].calls == map[1 := Waiting, 2 := Waiting]
    ensures Bind(1) in s.requests && Bind(2) in s.requests
  {
    ReachStart(Literal);
    ReachStep(Literal, Start(7), NewClient(1));
    s := Apply(Literal, Start(7), NewClient(1));
    s := Called(Literal, s, true);
    s := Called(Literal, s, true);
  }

  // Two concurrent binds are issued and accepted.
  lemma TwoBindsAccepted() returns (s: System)
    ensures Live(Literal, s) && s.server.nonce == 7 && MarkOf(s, 1) == Seen(0)
    ensures WindowOf(s, 1) == [Reply(1, NotYet), Reply(2, NotYet)]
    ensures 1 in s.clients && s.clients[1].next == 3 && s.clients[1].window == [0]
    ensures !s.clients[1].bound && !s.clients[1].destroying && s.clients[1].calls == map[1 := Waiting, 2 := Waiting]
    ensures Bind(1) in s.server.running && Bind(2) in s.server.running
    ensures forall k: Key :: k.1 > 2 ==> Execs(s, k.0, k.1) == 0
  {
    s := TwoBindsCalled();
    var b1, b2 := Reply(1, NotYet), Reply(2, NotYet);
    assert [] + [b1] == [b1] && ScanFrom([], 1, 0) == Missing([]);
    s := Delivered(Literal, s, Bind(1), Outcome(New, 0, [b1]));
    assert [b1][1..] == [] && ScanFrom([b1], 2, 0) == Prepend(b1, ScanFrom([], 2, 0));
    assert [b1] + [b2] == [b1, b2];
    s := Delivered(Literal, s, Bind(2), Outcome(New, 0, [b1, b2]));
  }

  function Served(x: nat): Reply {
    Reply(x, Present(if x <= 2 then Nonce(7) else Data([])))
  }

  // Both binds finish; the first reply binds the client.
  lemma BindTwice() returns (s: System)
    ensures Live(Literal, s) && At(s, 3, 1, 0, [Served(1), Served(2)])
    ensures ReplyMsg(1, 2, Handler(Nonce(7))) in s.replies
    ensures forall k: Key :: k.1 > 2 ==> Execs(s, k.0, k.1) == 0
  {
    s := TwoBindsAccepted();
    s := Finished(Literal, s, Bind(1), Nonce(7));
    assert WindowOf(s, 1) == [Served(1), Reply(2, NotYet)];
    s := Finished(Literal, s, Bind(2), Nonce(7));
    assert [Served(1), Reply(2, NotYet)][1..] == [Reply(2, NotYet)];
    assert WithReply([Reply(2, NotYet)], 2, Nonce(7)) == [Served(2)];
    assert WindowOf(s, 1) == [Served(1), Served(2)];
    s := Received(Literal, s, 1, Nonce(7));
    s := Bound(Literal, s);
  }

  // Request 3 is called and served while bind 2 is still unacknowledged.
  lemma ThirdServed() returns (s: System)
    ensures Live(Literal, s) && At(s, 4, 1, 1, [Served(2), Served(3)])
    ensures ReplyMsg(1, 2, Handler(Nonce(7))) in s.replies && ReplyMsg(1, 3, Handler(Data([]))) in s.replies
    ensures Op(3, 1) in s.requests && Execs(s, 1, 3) == 1 && Execs(s, 1, 4) == 0
  {
    s := BindTwice();
    s := Called(Literal, s, false);
    var w, r3 := [Served(1), Served(2)], Reply(3, NotYet);
    assert w[2..] == [];
    assert ScanFrom(w, 3, 1) == Prepend(Served(2), ScanFrom([], 3, 1)) == Missing([Served(2)]);
    assert [Served(2)] + [r3] == [Served(2), r3];
    s := Delivered(Literal, s, Op(3, 1), Outcome(New, 1, [Served(2), r3]));
    s := Finished(Literal, s, Op(3, 1), Data([]));
    assert [Served(2), r3][1..] == [r3];
    assert WithReply([r3], 3, Data([])) == [Served(3)];
    assert WithReply([Served(2), r3], 3, Data([])) == [Served(2)] + [Served(3)];
  }

  // A deletable entry in front hides its neighbour from the walk.
  lemma WalkStepsOver(m: nat, a: Reply, b: Reply, xid: nat, rep: nat)
    requires a.xid <= rep && a.xid != xid && m <= xid && m <= rep
    ensures LiteralCheck(Seen(m), [a, b], xid, rep) == Outcome(New, rep, [b, Reply(xid, NotYet)])
  {
    var w := [a, b];
    assert w[2..] == [];
    assert ScanFrom(w, xid, rep) == Prepend(b, ScanFrom([], xid, rep)) == Missing([b]);
  }

  lemma WalkKeepsBoth(m: nat, a: Reply, b: Reply, xid: nat, rep: nat)
    requires a.xid > rep && a.xid != xid && b.xid > rep && b.xid != xid && rep <= m <= xid
    ensures LiteralCheck(Seen(m), [a, b], xid, rep) == Outcome(New, m, [a, b, Reply(xid, NotYet)])
  {
    var w := [a, b];
    assert w[1..] == [b] && [b][1..] == [];
    assert ScanFrom([b], xid, rep) == Prepend(b, ScanFrom([], xid, rep)) == Missing([b]);
    assert ScanFrom(w, xid, rep) == Prepend(a, Missing([b])) == Missing([a, b]);
  }

  // Replies 2 and 3 arrive; request 4 acknowledges 3 and is accepted.
  lemma FourthAccepted() returns (s: System)
    ensures Live(Literal, s) && At(s, 5, 3, 3, [Served(3), Reply(4, NotYet)])
    ensures Op(3, 1) in s.requests && Op(4, 3) in s.requests
    ensures Execs(s, 1, 3) == 1 && Execs(s, 1, 4) == 1
  {
    s := ThirdServed();
    s := Received(Literal, s, 2, Nonce(7));
    s := Received(Literal, s, 3, Data([]));
    s := Called(Literal, s, false);
    WalkStepsOver(1, Served(2), Served(3), 4, 3);
    s := Delivered(Literal, s, Op(4, 3), Outcome(New, 3, [Served(3), Reply(4, NotYet)]));
  }

  // Erasing an entry steps over the next one: window [3, 4] and a duplicate of
  // request 4, which acknowledges 3.  The walk erases 3, steps over 4, and the
  // handler of 4 is started again.
  lemma SkippedEntryRunsTwice() returns (s: System)
    ensures Reaches(Literal, s) && s.defined
    ensures Op(4, 3) in s.requests && !Op(4, 3).bind && Execs(s, 1, 4) == 2
  {
    s := FourthAccepted();
    WalkStepsOver(3, Served(3), Reply(4, NotYet), 4, 3);
    s := Delivered(Literal, s, Op(4, 3), Outcome(New, 3, [Reply(4, NotYet), Reply(4, NotYet)]));
  }

  // The comparison `mark > xid` lets a late duplicate at the mark through: once
  // request 5 has pruned entry 3, a duplicate of request 3 meets mark 3, finds
  // no entry, and is started again.
  lemma RequestAtMarkRunsTwice() returns (s: System)
    ensures Reaches(Literal, s) && s.defined
    ensures Op(3, 1) in s.requests && !Op(3, 1).bind && Execs(s, 1, 3) == 2
  {
    s := FourthAccepted();
    s := Called(Literal, s, false);
    var r4, r5 := Reply(4, NotYet), Reply(5, NotYet);
    WalkStepsOver(3, Served(3), r4, 5, 3);
    s := Delivered(Literal, s, Op(5, 3), Outcome(New, 3, [r4, r5]));
    WalkKeepsBoth(3, r4, r5, 3, 1);
    s := Delivered(Literal, s, Op(3, 1), Outcome(New, 3, [r4, r5, Reply(3, NotYet)]));
  }

  // A client that binds once hits the other defect at its first call: the
  // window holds the bind entry alone, and erasing it moves the iterator past
  // the end.
  lemma OneBindWalksPastEnd(m: nat, bind: Reply, xid: nat, rep: nat)
    requires bind.xid <= rep < xid && m <= xid
    ensures LiteralCheck(Seen(m), [bind], xid, rep).PastEnd?
  {
    assert RunBefore([bind], 1, rep) == 1 + RunBefore([bind], 0, rep);
    LiteralOverrunsIff(Seen(m), [bind], xid, rep);
  }

  lemma BindAccepted(v: Variant) returns (s: System)
    requires v != Documented
    ensures Live(v, s) && s.server.nonce == 7 && MarkOf(s, 1) == Seen(0) && WindowOf(s, 1) == [Reply(1, NotYet)]
    ensures 1 in s.clients && s.clients[1].next == 2 && s.clients[1].window == [0]
    ensures !s.clients[1].bound && !s.clients[1].destroying && s.clients[1].calls == map[1 := Waiting]
    ensures s.requests == {Bind(1)} && Bind(1) in s.server.running && Execs(s, 1, 2) == 0
  {
    ReachStart(v);
    ReachStep(v, Start(7), NewClient(1));
    s := Apply(v, Start(7), NewClient(1));
    s := Called(v, s, true);
    var b1 := Reply(1, NotYet);
    assert [] + [b1] == [b1] && ScanFrom([], 1, 0) == Missing([]);
    s := Delivered(v, s, Bind(1), Outcome(New, 0, [b1]));
  }

  // One bind, issued, accepted and answered.
  lemma BindOnce(v: Variant) returns (s: System)
    requires v != Documented
    ensures Live(v, s) && At(s, 2, 1, 0, [Served(1)])
    ensures s.requests == {Bind(1)} && Execs(s, 1, 2) == 0
  {
    s := BindAccepted(v);
    assert WithReply([Reply(1, NotYet)], 1, Nonce(7)) == [Served(1)] + [Reply(1, NotYet)][1..] == [Served(1)];
    s := Finished(v, s, Bind(1), Nonce(7));
    s := Received(v, s, 1, Nonce(7));
    s := Bound(v, s);
  }

  // The first call after a single bind, delivered once.
  lemma FirstCallMovesPastEnd() returns (s: System)
    ensures Reaches(Literal, s) && !s.defined
    ensures s.requests == {Bind(1), Op(2, 1)}
  {
    s := BindOnce(Literal);
    s := Called(Literal, s, false);
    OneBindWalksPastEnd(0, Served(1), 2, 1);
    ReachStep(Literal, s, Deliver(Op(2, 1)));
    s := Apply(Literal, s, Deliver(Op(2, 1)));
  }

  // On a circular list the walk over one deletable entry comes back to an empty list.
  lemma OneEntryGoesRound(m: nat, e: Reply, xid: nat, rep: nat)
    requires e.xid <= rep < xid && m <= rep
    ensures CircularCheck(Seen(m), [e], xid, rep) == Outcome(New, rep, [Reply(xid, NotYet)])
  {
    assert ScanFrom([e], xid, rep) == Overrun && Survivors([e], rep) == [];
    assert CircularScan([e], xid, rep) == CircularScan([], xid, rep) == Missing([]);
    assert [] + [Reply(xid, NotYet)] == [Reply(xid, NotYet)];
  }

  lemma OneEntryStays(m: nat, e: Reply, xid: nat, rep: nat)
    requires e.xid > rep && e.xid != xid && rep <= m <= xid
    ensures CircularCheck(Seen(m), [e], xid, rep) == Outcome(New, m, [e, Reply(xid, NotYet)])
  {
    assert [e][1..] == [];
    assert ScanFrom([e], xid, rep) == Prepend(e, ScanFrom([], xid, rep)) == Missing([e]);
    assert [e] + [Reply(xid, NotYet)] == [e, Reply(xid, NotYet)];
  }

  // The second request, the first after the bind, is called and served.
  lemma SecondServed() returns (s: System)
    ensures Live(Circular, s) && At(s, 3, 1, 1, [Served2()])
    ensures s.requests == {Bind(1), Op(2, 1)} && ReplyMsg(1, 2, Handler(Data([]))) in s.replies
    ensures Execs(s, 1, 2) == 1
  {
    s := BindOnce(Circular);
    s := Called(Circular, s, false);
    var r2 := Reply(2, NotYet);
    OneEntryGoesRound(0, Served(1), 2, 1);
    s := Delivered(Circular, s, Op(2, 1), Outcome(New, 1, [r2]));
    assert [r2][1..] == [] && WithReply([r2], 2, Data([])) == [Served2()];
    s := Finished(Circular, s, Op(2, 1), Data([]));
  }

  function Served2(): Reply {
    Reply(2, Present(Data([])))
  }

  // An ordinary client on a circular list: one bind, and one call after another,
  // each acknowledging the one before.  A late duplicate of call 2, once call 3
  // has moved the mark to 2 and deleted its entry, is executed again.
  lemma OrdinaryClientRunsTwice() returns (s: System)
    ensures Reaches(Circular, s)
    ensures s.requests == {Bind(1), Op(2, 1), Op(3, 2)} && Execs(s, 1, 2) == 2
  {
    s := SecondServed();
    var r2, r3 := Reply(2, NotYet), Reply(3, NotYet);
    s := Received(Circular, s, 2, Data([]));
    s := Called(Circular, s, false);
    OneEntryGoesRound(1, Served2(), 3, 2);
    s := Delivered(Circular, s, Op(3, 2), Outcome(New, 2, [r3]));
    OneEntryStays(2, r3, 2, 1);
    s := Delivered(Circular, s, Op(2, 1), Outcome(New, 2, [r3, r2]));
  }
}
