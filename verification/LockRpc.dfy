// The lock server behind the at-most-once protocol: clients that acquire and
// release through calls on a network that loses, duplicates and reorders, and a
// server whose handlers work on the lock table.
module LockRpc {

  import opened ReplyWindow
  import opened RpcSystem
  import RpcProof
  import LockServer

  // What a call asks for; `hold` is the xid of the acquire that a release undoes.
  // The server looks at the lock only.
  datatype LockOp = Take(lid: nat) | Give(lid: nat, hold: nat)

  // Where the handler of a request stands: before its first critical section,
  // waiting for the lock, or done with the table.
  datatype Phase = Begun | Asleep | Ended

  datatype State = State(rpc: System, table: LockServer.State, ops: map<Key, LockOp>, phases: map<Request, Phase>)

  datatype Step =
    | Net(st: RpcSystem.Step)
    | Ask(c: nat, op: LockOp, args: seq<bv8>)
    | Work(r: Request, signalled: set<LockServer.Thread>)
    | Wake(r: Request)
    | Spurious(r: Request)

  function KeyOf(r: Request): Key {
    (r.clt, r.xid)
  }

  // The call has come back with a handler's result; on anything else
  // lock_client aborts.
  predicate Returned(s: System, c: nat, xid: nat) {
    && c in s.clients && xid in s.clients[c].returned
    && s.clients[c].returned[xid].Replied? && s.clients[c].returned[xid].ret.Handler?
  }

  ghost predicate GivenBack(ops: map<Key, LockOp>, c: nat, hold: nat) {
    exists k :: k in ops && k.0 == c && ops[k].Give? && ops[k].hold == hold
  }

  // What ServerScopedLock adds: a lock is released once, after its acquire has
  // returned, and by a client still bound to the instance it acquired it from.
  ghost predicate MayAsk(x: State, c: nat, op: LockOp) {
    op.Give? ==>
      && (c, op.hold) in x.ops && x.ops[(c, op.hold)] == Take(op.lid)
      && Returned(x.rpc, c, op.hold)
      && !GivenBack(x.ops, c, op.hold)
      && (forall a | a in x.rpc.requests && KeyOf(a) == (c, op.hold) :: a.srv == x.rpc.clients[c].srv)
  }

  ghost predicate Enabled(x: State, step: Step) {
    match step
    case Net(st) =>
      && RpcSystem.Enabled(Documented, x.rpc, st)
      && (st.Call? ==> st.bind)
      && (st.Finish? && !st.r.bind ==> st.r in x.phases && x.phases[st.r] == Ended)
    case Ask(c, op, args) => RpcSystem.Enabled(Documented, x.rpc, Call(c, false, args)) && MayAsk(x, c, op)
    case Work(r, signalled) =>
      && r in x.phases && x.phases[r] == Begun && KeyOf(r) in x.ops
      && (x.ops[KeyOf(r)].Give? ==>
            LockServer.SignalOk(LockServer.EntryOf(x.table.locks, x.ops[KeyOf(r)].lid), signalled))
    case Wake(r) => r in x.phases && KeyOf(r) in x.ops && LockServer.Enabled(x.table, LockStep(x, step))
    case Spurious(r) => r in x.phases && KeyOf(r) in x.ops && LockServer.Enabled(x.table, LockStep(x, step))
  }

  // The step of the lock table that a handler takes.
  function LockStep(x: State, step: Step): LockServer.Step
    requires (step.Work? || step.Wake? || step.Spurious?) && KeyOf(step.r) in x.ops
  {
    var k := KeyOf(step.r);
    match step
    case Work(r, signalled) =>
      (match x.ops[k]
       case Take(lid) => LockServer.Acquire(k, lid)
       case Give(lid, hold) => LockServer.Release((r.clt, hold), lid, signalled))
    case Wake(_) => LockServer.Wake(k, x.ops[k].lid)
    case Spurious(_) => LockServer.Spurious(k, x.ops[k].lid)
  }

  predicate Starts(s: System, st: RpcSystem.Step) {
    st.Deliver? && ForThisInstance(s, st.r) && Check(Documented, s, st.r).stat == New
  }

  function Apply(x: State, step: Step): State
    requires Enabled(x, step)
  {
    match step
    case Net(st) =>
      var rpc := RpcSystem.Apply(Documented, x.rpc, st);
      if st.Restart? then State(rpc, LockServer.State(map[], map[]), x.ops, map[])
      else if Starts(x.rpc, st) && !st.r.bind then x.(rpc := rpc, phases := x.phases[st.r := Begun])
      else if st.Finish? then x.(rpc := rpc, phases := x.phases - {st.r})
      else x.(rpc := rpc)
    case Ask(c, op, args) =>
      State(RpcSystem.Apply(Documented, x.rpc, Call(c, false, args)), x.table,
            x.ops[(c, x.rpc.clients[c].next) := op], x.phases)
    case _ => x.(table := LockServer.Apply(x.table, LockStep(x, step)), phases := x.phases[step.r := After(x, step)])
  }

  // A handler is done once it has the lock, or has released it.
  function After(x: State, step: Step): Phase
    requires Enabled(x, step) && (step.Work? || step.Wake? || step.Spurious?)
  {
    match LockStep(x, step)
    case Spurious(_, _) => x.phases[step.r]
    case Release(_, _, _) => Ended
    case _ => if LockServer.Grants(x.table, LockStep(x, step)) then Ended else Asleep
  }

  // ---- invariant ----

  // The handler of the request has done its work on the table.
  predicate Worked(x: State, r: Request) {
    (r in x.phases && x.phases[r] == Ended) || KeyOf(r) in x.rpc.results
  }

  ghost predicate OpsOk(x: State) {
    && (forall r | r in x.rpc.requests && !r.bind :: KeyOf(r) in x.ops)
    && (forall k | k in x.ops :: exists r :: r in x.rpc.requests && !r.bind && KeyOf(r) == k)
  }

  ghost predicate PhasesOk(x: State) {
    forall r :: r in x.phases <==> r in x.rpc.server.running && !r.bind
  }

  ghost predicate Sleeps(x: State, k: Key, lid: nat) {
    exists r :: r in x.phases && KeyOf(r) == k && x.phases[r] == Asleep && k in x.ops && x.ops[k] == Take(lid)
  }

  ghost predicate SleepersOk(x: State) {
    && (forall lid: nat :: LockServer.Apart(x.table, lid))
    && (forall lid: nat, k | k in LockServer.Waiters(x.table, lid) :: Sleeps(x, k, lid))
  }

  // A release belongs to an acquire of the same client, lock and instance whose
  // handler has finished, and to no other release.
  ghost predicate GiveOk(x: State, q: Request, lid: nat, hold: nat) {
    && (q.clt, hold) in x.ops && x.ops[(q.clt, hold)] == Take(lid) && (q.clt, hold) in x.rpc.results
    && (forall a | a in x.rpc.requests && KeyOf(a) == (q.clt, hold) :: a.srv == q.srv)
  }

  ghost predicate GivesOk(x: State) {
    forall q | q in x.rpc.requests && !q.bind && KeyOf(q) in x.ops && x.ops[KeyOf(q)].Give? ::
      GiveOk(x, q, x.ops[KeyOf(q)].lid, x.ops[KeyOf(q)].hold)
  }

  ghost predicate GivesOnce(ops: map<Key, LockOp>) {
    forall k, l | k in ops && l in ops && k.0 == l.0 && ops[k].Give? && ops[l].Give? && ops[k].hold == ops[l].hold ::
      k == l
  }

  // Its release has done its work.
  ghost predicate Undone(x: State, r: Request) {
    exists q :: q in x.rpc.requests && !q.bind && q.clt == r.clt && KeyOf(q) in x.ops
                && x.ops[KeyOf(q)].Give? && x.ops[KeyOf(q)].hold == r.xid && Worked(x, q)
  }

  // From its handler's work on until that of its release an acquire holds the lock.
  ghost predicate HoldOk(x: State, r: Request) {
    KeyOf(r) in x.ops && x.ops[KeyOf(r)].Take? && r.srv == x.rpc.server.nonce && Worked(x, r) && !Undone(x, r) ==>
      KeyOf(r) in LockServer.HoldersOf(x.table, x.ops[KeyOf(r)].lid)
  }

  ghost predicate HoldsOk(x: State) {
    forall r | r in x.rpc.requests && !r.bind :: HoldOk(x, r)
  }

  ghost predicate Sound(x: State) {
    OpsOk(x) && PhasesOk(x) && SleepersOk(x) && GivesOk(x) && GivesOnce(x.ops) && HoldsOk(x) && LockServer.Inv(x.table)
  }

  ghost predicate Inv(x: State) {
    AckInv(x.rpc) && ExecInv(x.rpc) && Sound(x)
  }

  // ---- the release is disciplined ----

  // A request under way belongs to this instance.
  lemma RunsHere(s: System, r: Request)
    requires AckInv(s) && r in s.server.running && !r.bind
    ensures r in s.requests && r.srv == s.server.nonce
  {
    assert RequestOk(s.clients, s.nonces, r);
  }

  // At-most-once execution at work: a release that is about to touch the table is
  // the first to do so for its acquire, so that acquire still holds the lock.
  lemma GiveIsDisciplined(x: State, r: Request, signalled: set<LockServer.Thread>)
    requires Inv(x) && Enabled(x, Work(r, signalled)) && x.ops[KeyOf(r)].Give?
    ensures (r.clt, x.ops[KeyOf(r)].hold) in LockServer.HoldersOf(x.table, x.ops[KeyOf(r)].lid)
    ensures !LockServer.Waiting(x.table, (r.clt, x.ops[KeyOf(r)].hold))
  {
    var s, lid, hold := x.rpc, x.ops[KeyOf(r)].lid, x.ops[KeyOf(r)].hold;
    RunsHere(s, r);
    assert GiveOk(x, r, lid, hold);
    var a :| a in s.requests && !a.bind && KeyOf(a) == (r.clt, hold);
    assert a.srv == s.server.nonce && Worked(x, a);
    assert !Undone(x, a) by {
      forall q | q in s.requests && !q.bind && q.clt == a.clt && KeyOf(q) in x.ops
                 && x.ops[KeyOf(q)].Give? && x.ops[KeyOf(q)].hold == a.xid
        ensures !Worked(x, q)
      {
        assert KeyOf(q) == KeyOf(r) && q == r;
        assert ExecOk(s, r);
      }
    }
    assert HoldOk(x, a);
    HolderIsAwake(x, a);
  }

  lemma RunsOnce(x: State, r: Request)
    requires Inv(x) && r in x.rpc.server.running && !r.bind
    ensures x.rpc.server.running[r] == 1
  {
    assert r in x.rpc.requests;
    assert ExecOk(x.rpc, r);
  }

  // Only handlers that sleep are blocked or woken in the table.
  lemma WaiterSleeps(x: State, r: Request)
    requires Inv(x) && r in x.rpc.requests && !r.bind && LockServer.Waiting(x.table, KeyOf(r))
    ensures r in x.phases && x.phases[r] == Asleep
  {
    var lid :| lid in x.table.locks && KeyOf(r) in x.table.locks[lid].blocked + x.table.locks[lid].woken;
    assert KeyOf(r) in LockServer.Waiters(x.table, lid);
    assert Sleeps(x, KeyOf(r), lid);
    var q :| q in x.phases && KeyOf(q) == KeyOf(r) && x.phases[q] == Asleep;
    RunsHere(x.rpc, q);
    assert q == r;
  }

  lemma HolderIsAwake(x: State, a: Request)
    requires Inv(x) && a in x.rpc.requests && !a.bind && KeyOf(a) in x.rpc.results
    ensures !LockServer.Waiting(x.table, KeyOf(a))
  {
    assert ExecOk(x.rpc, a);
    if LockServer.Waiting(x.table, KeyOf(a)) {
      WaiterSleeps(x, a);
    }
  }

  lemma BegunIsAwake(x: State, r: Request)
    requires Inv(x) && r in x.phases && x.phases[r] == Begun
    ensures !LockServer.Waiting(x.table, KeyOf(r))
  {
    RunsHere(x.rpc, r);
    if LockServer.Waiting(x.table, KeyOf(r)) {
      WaiterSleeps(x, r);
    }
  }

  // Every step that a handler takes on the table is one the lock server allows,
  // under the discipline it relies on.
  lemma TableStepIsDisciplined(x: State, step: Step)
    requires Inv(x) && Enabled(x, step) && (step.Work? || step.Wake? || step.Spurious?)
    ensures LockServer.Enabled(x.table, LockStep(x, step)) && LockServer.Disciplined(x.table, LockStep(x, step))
  {
    if step.Work? {
      BegunIsAwake(x, step.r);
      if x.ops[KeyOf(step.r)].Give? {
        GiveIsDisciplined(x, step.r, step.signalled);
      }
    }
  }

  // ---- steps on the network ----

  // Nothing that Sound reads has changed but requests of kind bind.
  ghost predicate Alike(x: State, y: State) {
    && y.ops == x.ops && y.phases == x.phases && y.table == x.table
    && y.rpc.results == x.rpc.results && y.rpc.server.nonce == x.rpc.server.nonce
    && (forall r: Request | !r.bind :: r in y.rpc.server.running <==> r in x.rpc.server.running)
    && (forall r: Request | !r.bind :: r in y.rpc.requests <==> r in x.rpc.requests)
  }

  lemma WorkedAlike(x: State, y: State, r: Request)
    requires Alike(x, y)
    ensures Worked(y, r) <==> Worked(x, r)
    ensures Undone(y, r) <==> Undone(x, r)
  {
    if Undone(y, r) {
      var q :| q in y.rpc.requests && !q.bind && q.clt == r.clt && KeyOf(q) in y.ops
               && y.ops[KeyOf(q)].Give? && y.ops[KeyOf(q)].hold == r.xid && Worked(y, q);
      assert q in x.rpc.requests && Worked(x, q);
    }
    if Undone(x, r) {
      var q :| q in x.rpc.requests && !q.bind && q.clt == r.clt && KeyOf(q) in x.ops
               && x.ops[KeyOf(q)].Give? && x.ops[KeyOf(q)].hold == r.xid && Worked(x, q);
      assert q in y.rpc.requests && Worked(y, q);
    }
  }

  // Keys with an operation are those of requests that are not binds.
  lemma OnlyBindsElsewhere(s: System, ops: map<Key, LockOp>, r: Request)
    requires XidsUnique(s) && r in s.requests && KeyOf(r) in ops
    requires forall k | k in ops :: exists q :: q in s.requests && !q.bind && KeyOf(q) == k
    ensures !r.bind
  {
    var q :| q in s.requests && !q.bind && KeyOf(q) == KeyOf(r);
  }

  lemma AlikeSound(x: State, y: State)
    requires Sound(x) && Alike(x, y) && XidsUnique(y.rpc)
    ensures Sound(y)
  {
    assert OpsOk(y) by {
      forall k | k in y.ops ensures exists r :: r in y.rpc.requests && !r.bind && KeyOf(r) == k {
        var r :| r in x.rpc.requests && !r.bind && KeyOf(r) == k;
        assert r in y.rpc.requests;
      }
    }
    assert SleepersOk(y) by {
      forall lid: nat, k | k in LockServer.Waiters(y.table, lid)
        ensures Sleeps(y, k, lid) { assert Sleeps(x, k, lid); }
    }
    assert GivesOk(y) by {
      forall q | q in y.rpc.requests && !q.bind && KeyOf(q) in y.ops && y.ops[KeyOf(q)].Give?
        ensures GiveOk(y, q, y.ops[KeyOf(q)].lid, y.ops[KeyOf(q)].hold)
      {
        var lid, hold := y.ops[KeyOf(q)].lid, y.ops[KeyOf(q)].hold;
        assert GiveOk(x, q, lid, hold);
        forall a | a in y.rpc.requests && KeyOf(a) == (q.clt, hold) ensures a.srv == q.srv {
          OnlyBindsElsewhere(y.rpc, y.ops, a);
          assert a in x.rpc.requests;
        }
      }
    }
    assert HoldsOk(y) by {
      forall r | r in y.rpc.requests && !r.bind ensures HoldOk(y, r) {
        assert HoldOk(x, r);
        WorkedAlike(x, y, r);
      }
    }
  }

  // A handler that starts, or one that ends, has a request of its own.
  lemma StartedSound(x: State, y: State, r: Request)
    requires Sound(x) && r !in x.phases && KeyOf(r) !in x.rpc.results && !r.bind && r in x.rpc.requests
    requires y.ops == x.ops && y.table == x.table && y.phases == x.phases[r := Begun]
    requires y.rpc.results == x.rpc.results && y.rpc.server.nonce == x.rpc.server.nonce
    requires y.rpc.requests == x.rpc.requests && y.rpc.server.running == x.rpc.server.running + multiset{r}
    ensures Sound(y)
  {
    forall q ensures Worked(y, q) <==> Worked(x, q) {}
    assert OpsOk(y);
    assert SleepersOk(y) by { SleepersStay(x, y); }
    assert GivesOk(y) by { GivesStay(x, y); }
    assert HoldsOk(y) by { HoldsStay(x, y); }
  }

  lemma SleepersStay(x: State, y: State)
    requires SleepersOk(x) && y.ops == x.ops && y.table == x.table
    requires forall r | r in x.phases && x.phases[r] == Asleep :: r in y.phases && y.phases[r] == Asleep
    ensures SleepersOk(y)
  {
    forall lid: nat, k | k in LockServer.Waiters(y.table, lid)
      ensures Sleeps(y, k, lid)
    {
      assert Sleeps(x, k, lid);
      var r :| r in x.phases && KeyOf(r) == k && x.phases[r] == Asleep;
      assert r in y.phases;
    }
  }

  lemma GivesStay(x: State, y: State)
    requires GivesOk(x) && y.ops == x.ops && y.rpc.requests == x.rpc.requests
    requires forall k | k in x.rpc.results :: k in y.rpc.results
    ensures GivesOk(y)
  {
    forall q | q in y.rpc.requests && !q.bind && KeyOf(q) in y.ops && y.ops[KeyOf(q)].Give?
      ensures GiveOk(y, q, y.ops[KeyOf(q)].lid, y.ops[KeyOf(q)].hold)
    {
      assert GiveOk(x, q, x.ops[KeyOf(q)].lid, x.ops[KeyOf(q)].hold);
    }
  }

  lemma HoldsStay(x: State, y: State)
    requires HoldsOk(x) && y.ops == x.ops && y.table == x.table && y.rpc.requests == x.rpc.requests
    requires y.rpc.server.nonce == x.rpc.server.nonce
    requires forall q | q in x.rpc.requests && !q.bind :: Worked(y, q) <==> Worked(x, q)
    ensures HoldsOk(y)
  {
    forall r | r in y.rpc.requests && !r.bind ensures HoldOk(y, r) {
      assert HoldOk(x, r);
      if Undone(x, r) {
        var q :| q in x.rpc.requests && !q.bind && q.clt == r.clt && KeyOf(q) in x.ops
                 && x.ops[KeyOf(q)].Give? && x.ops[KeyOf(q)].hold == r.xid && Worked(x, q);
        assert Worked(y, q);
      }
    }
  }

  ghost predicate Finished(x: State, y: State, r: Request, body: Body) {
    && y.ops == x.ops && y.table == x.table && y.phases == x.phases - {r}
    && y.rpc.results == x.rpc.results[KeyOf(r) := body] && y.rpc.server.nonce == x.rpc.server.nonce
    && y.rpc.requests == x.rpc.requests && y.rpc.server.running == x.rpc.server.running - multiset{r}
    && (!r.bind ==> r in x.phases && x.phases[r] == Ended && x.rpc.server.running[r] == 1)
  }

  lemma FinishedWorked(x: State, y: State, r: Request, body: Body, q: Request)
    requires XidsUnique(x.rpc) && r in x.rpc.requests && Finished(x, y, r, body) && q in x.rpc.requests && !q.bind
    ensures Worked(y, q) <==> Worked(x, q)
  {
    if KeyOf(q) == KeyOf(r) { assert q == r; }
  }

  lemma FinishedPhases(x: State, y: State, r: Request, body: Body)
    requires PhasesOk(x) && Finished(x, y, r, body)
    ensures PhasesOk(y)
  {
    forall q: Request ensures q in y.phases <==> q in y.rpc.server.running && !q.bind {
      assert q != r ==> y.rpc.server.running[q] == x.rpc.server.running[q];
    }
  }

  lemma FinishedSound(x: State, y: State, r: Request, body: Body)
    requires Sound(x) && XidsUnique(x.rpc) && r in x.rpc.requests && Finished(x, y, r, body)
    ensures Sound(y)
  {
    forall q | q in x.rpc.requests && !q.bind ensures Worked(y, q) <==> Worked(x, q) {
      FinishedWorked(x, y, r, body, q);
    }
    FinishedPhases(x, y, r, body);
    SleepersStay(x, y);
    GivesStay(x, y);
    HoldsStay(x, y);
  }

  lemma RestartedSound(x: State, y: State, n: nat)
    requires Sound(x) && RequestsOk(x.rpc) && n !in x.rpc.nonces
    requires y.ops == x.ops && y.table == LockServer.State(map[], map[]) && y.phases == map[]
    requires y.rpc.results == x.rpc.results && y.rpc.requests == x.rpc.requests
    requires y.rpc.server.nonce == n && y.rpc.server.running == multiset{}
    ensures Sound(y)
  {
    assert GivesOk(y) by { GivesStay(x, y); }
    forall r | r in y.rpc.requests && !r.bind ensures HoldOk(y, r) {
      assert RequestOk(x.rpc.clients, x.rpc.nonces, r);
    }
    forall lid: nat ensures LockServer.LockOk(y.table, lid) {}
  }

  // Every other step of the network.
  lemma OthersAlike(x: State, st: RpcSystem.Step)
    requires Enabled(x, Net(st)) && !st.Restart? && !st.Finish? && (Starts(x.rpc, st) ==> st.r.bind)
    ensures Alike(x, Apply(x, Net(st)))
  {
    if st.Deliver? && ForThisInstance(x.rpc, st.r) {
      RpcProof.DispatchedHasShape(x.rpc, st.r, Check(Documented, x.rpc, st.r));
    }
  }

  lemma StartedAlone(x: State, r: Request)
    requires Inv(x) && Enabled(x, Net(Deliver(r))) && Starts(x.rpc, Deliver(r)) && !r.bind
    ensures Sound(Apply(x, Net(Deliver(r))))
  {
    var y := Apply(x, Net(Deliver(r)));
    RpcProof.DispatchedHasShape(x.rpc, r, Check(Documented, x.rpc, r));
    RpcProof.ExecStep(x.rpc, Deliver(r));
    assert ExecOk(y.rpc, r);
    assert r !in x.rpc.server.running;
    StartedSound(x, y, r);
  }

  lemma FinishedFrame(x: State, r: Request, body: Body)
    requires Enabled(x, Net(Finish(r, body))) && (!r.bind ==> x.rpc.server.running[r] == 1)
    ensures Finished(x, Apply(x, Net(Finish(r, body))), r, body)
  {
  }

  lemma FinishedAlone(x: State, r: Request, body: Body)
    requires Inv(x) && Enabled(x, Net(Finish(r, body)))
    ensures Sound(Apply(x, Net(Finish(r, body))))
  {
    assert r in x.rpc.requests;
    if !r.bind { RunsOnce(x, r); }
    FinishedFrame(x, r, body);
    FinishedSound(x, Apply(x, Net(Finish(r, body))), r, body);
  }

  lemma NetKeeps(x: State, st: RpcSystem.Step)
    requires Inv(x) && Enabled(x, Net(st))
    ensures Inv(Apply(x, Net(st)))
  {
    var y := Apply(x, Net(st));
    RpcProof.AckStep(Documented, x.rpc, st);
    RpcProof.ExecStep(x.rpc, st);
    if st.Restart? {
      RestartedSound(x, y, st.n);
    } else if st.Finish? {
      FinishedAlone(x, st.r, st.body);
    } else if Starts(x.rpc, st) && !st.r.bind {
      StartedAlone(x, st.r);
    } else {
      OthersAlike(x, st);
      AlikeSound(x, y);
    }
  }

  // ---- calls ----

  lemma ReturnedHasResult(s: System, a: Request)
    requires AckInv(s) && ExecInv(s) && a in s.requests && !a.bind && Returned(s, a.clt, a.xid)
    ensures KeyOf(a) in s.results
  {
    assert ClientOk(a.clt, s.clients[a.clt], s.nonces, s.replies);
    var m := ReplyMsg(a.clt, a.xid, s.clients[a.clt].returned[a.xid].ret);
    assert m in s.replies;
    assert BodyOk(s, m.clt, m.xid, m.ret.body);
  }

  // A new call has a key that nothing has yet.
  lemma AskedIsNew(x: State, c: nat)
    requires Inv(x) && c in x.rpc.clients
    ensures (c, x.rpc.clients[c].next) !in x.ops && (c, x.rpc.clients[c].next) !in x.rpc.results
    ensures forall r | r in x.rpc.requests :: KeyOf(r) != (c, x.rpc.clients[c].next)
  {
    forall r | r in x.rpc.requests ensures KeyOf(r) != (c, x.rpc.clients[c].next) {
      assert RequestOk(x.rpc.clients, x.rpc.nonces, r);
    }
    assert HistoryOk(x.rpc);
  }

  ghost predicate Asked(x: State, y: State, r: Request, op: LockOp) {
    && y.table == x.table && y.phases == x.phases && y.ops == x.ops[KeyOf(r) := op]
    && y.rpc.results == x.rpc.results && y.rpc.server == x.rpc.server
    && y.rpc.requests == x.rpc.requests + {r} && !r.bind
    && KeyOf(r) !in x.ops && KeyOf(r) !in x.rpc.results && r !in x.phases
    && forall q | q in x.rpc.requests :: KeyOf(q) != KeyOf(r)
  }

  lemma AskedOps(x: State, y: State, r: Request, op: LockOp)
    requires OpsOk(x) && Asked(x, y, r, op)
    ensures OpsOk(y)
  {
    forall k | k in y.ops ensures exists q :: q in y.rpc.requests && !q.bind && KeyOf(q) == k {
      if k != KeyOf(r) {
        var q :| q in x.rpc.requests && !q.bind && KeyOf(q) == k;
        assert q in y.rpc.requests;
      } else {
        assert r in y.rpc.requests;
      }
    }
  }

  lemma AskedSleepers(x: State, y: State, r: Request, op: LockOp)
    requires SleepersOk(x) && Asked(x, y, r, op)
    ensures SleepersOk(y)
  {
    forall lid: nat, k | k in LockServer.Waiters(y.table, lid)
      ensures Sleeps(y, k, lid)
    {
      assert Sleeps(x, k, lid);
    }
  }

  lemma AskedGives(x: State, y: State, r: Request, op: LockOp)
    requires GivesOk(x) && Asked(x, y, r, op) && OpsOk(x)
    requires op.Give? ==> GiveOk(x, r, op.lid, op.hold)
    ensures GivesOk(y)
  {
    forall q | q in y.rpc.requests && !q.bind && KeyOf(q) in y.ops && y.ops[KeyOf(q)].Give?
      ensures GiveOk(y, q, y.ops[KeyOf(q)].lid, y.ops[KeyOf(q)].hold)
    {
      var lid, hold := y.ops[KeyOf(q)].lid, y.ops[KeyOf(q)].hold;
      assert GiveOk(x, q, lid, hold);
      assert (q.clt, hold) != KeyOf(r);
    }
  }

  lemma AskedHolds(x: State, y: State, r: Request, op: LockOp)
    requires HoldsOk(x) && Asked(x, y, r, op)
    ensures HoldsOk(y)
  {
    forall q | q in y.rpc.requests && !q.bind ensures HoldOk(y, q) {
      if q != r {
        assert HoldOk(x, q);
        if Undone(x, q) {
          var u :| u in x.rpc.requests && !u.bind && u.clt == q.clt && KeyOf(u) in x.ops
                   && x.ops[KeyOf(u)].Give? && x.ops[KeyOf(u)].hold == q.xid && Worked(x, u);
          assert u in y.rpc.requests && Worked(y, u);
        }
      }
    }
  }

  function AskedRequest(s: System, c: nat, args: seq<bv8>): Request
    requires c in s.clients && |s.clients[c].window| > 0
  {
    Request(c, s.clients[c].next, false, s.clients[c].srv, s.clients[c].window[0], args)
  }

  lemma NewNotBegun(x: State, r: Request)
    requires PhasesOk(x) && ServerOk(x.rpc) && r !in x.rpc.requests
    ensures r !in x.phases
  {
    assert r in x.phases ==> r in x.rpc.server.running;
  }

  lemma AskChanges(x: State, c: nat, op: LockOp, args: seq<bv8>)
    requires Enabled(x, Ask(c, op, args))
    ensures var y, r := Apply(x, Ask(c, op, args)), AskedRequest(x.rpc, c, args);
            && y.table == x.table && y.phases == x.phases && y.ops == x.ops[KeyOf(r) := op]
            && y.rpc.results == x.rpc.results && y.rpc.server == x.rpc.server
            && y.rpc.requests == x.rpc.requests + {r}
  {
  }

  lemma AskFrame(x: State, c: nat, op: LockOp, args: seq<bv8>)
    requires Inv(x) && Enabled(x, Ask(c, op, args))
    ensures Asked(x, Apply(x, Ask(c, op, args)), AskedRequest(x.rpc, c, args), op)
  {
    AskedIsNew(x, c);
    AskChanges(x, c, op, args);
    NewNotBegun(x, AskedRequest(x.rpc, c, args));
  }

  // No two releases of one acquire.
  lemma AskedOnce(x: State, y: State, r: Request, op: LockOp)
    requires GivesOnce(x.ops) && MayAsk(x, r.clt, op) && Asked(x, y, r, op)
    ensures GivesOnce(y.ops)
  {
  }

  lemma AskedSound(x: State, y: State, r: Request, op: LockOp)
    requires Inv(x) && MayAsk(x, r.clt, op) && Asked(x, y, r, op)
    requires op.Give? ==> r.srv == x.rpc.clients[r.clt].srv
    ensures Sound(y)
  {
    if op.Give? { AskedBack(x, r, op); }
    AskedOps(x, y, r, op);
    AskedSleepers(x, y, r, op);
    AskedGives(x, y, r, op);
    AskedHolds(x, y, r, op);
    AskedOnce(x, y, r, op);
    assert PhasesOk(y);
  }

  lemma AskKeeps(x: State, c: nat, op: LockOp, args: seq<bv8>)
    requires Inv(x) && Enabled(x, Ask(c, op, args))
    ensures Inv(Apply(x, Ask(c, op, args)))
  {
    var y, r := Apply(x, Ask(c, op, args)), AskedRequest(x.rpc, c, args);
    RpcProof.AckStep(Documented, x.rpc, Call(c, false, args));
    RpcProof.ExecStep(x.rpc, Call(c, false, args));
    AskFrame(x, c, op, args);
    AskedSound(x, y, r, op);
  }

  lemma AskedBack(x: State, r: Request, op: LockOp)
    requires Inv(x) && op.Give? && MayAsk(x, r.clt, op) && r.srv == x.rpc.clients[r.clt].srv
    ensures GiveOk(x, r, op.lid, op.hold)
  {
    var a :| a in x.rpc.requests && !a.bind && KeyOf(a) == (r.clt, op.hold);
    ReturnedHasResult(x.rpc, a);
  }

  // ---- steps on the table ----

  ghost predicate Tabled(x: State, y: State, r: Request, st: LockServer.Step, phase: Phase) {
    && y.rpc == x.rpc && y.ops == x.ops
    && LockServer.Enabled(x.table, st) && y.table == LockServer.Apply(x.table, st)
    && r in x.phases && x.phases[r] != Ended && KeyOf(r) in x.ops && y.phases == x.phases[r := phase]
  }

  // A section that acquires, first or after a wait.
  ghost predicate Taking(x: State, r: Request, st: LockServer.Step, lid: nat) {
    && KeyOf(r) in x.ops && x.ops[KeyOf(r)] == Take(lid)
    && st.lid == lid && st.t == KeyOf(r) && (st.Acquire? || st.Wake?)
  }

  lemma WorkedMoves(x: State, y: State, r: Request, st: LockServer.Step, phase: Phase, q: Request)
    requires Tabled(x, y, r, st, phase)
    ensures Worked(x, q) ==> Worked(y, q)
    ensures Worked(y, q) ==> Worked(x, q) || (q == r && phase == Ended)
  {
  }

  lemma UndoneStays(x: State, y: State, r: Request, st: LockServer.Step, phase: Phase, a: Request)
    requires Tabled(x, y, r, st, phase) && Undone(x, a)
    ensures Undone(y, a)
  {
    var q :| q in x.rpc.requests && !q.bind && q.clt == a.clt && KeyOf(q) in x.ops
             && x.ops[KeyOf(q)].Give? && x.ops[KeyOf(q)].hold == a.xid && Worked(x, q);
    WorkedMoves(x, y, r, st, phase, q);
  }

  lemma OthersSleep(x: State, y: State, r: Request, st: LockServer.Step, phase: Phase, k: Key, lid: nat)
    requires Tabled(x, y, r, st, phase) && Sleeps(x, k, lid) && k != KeyOf(r)
    ensures Sleeps(y, k, lid)
  {
    var q :| q in x.phases && KeyOf(q) == k && x.phases[q] == Asleep && k in x.ops && x.ops[k] == Take(lid);
    assert q in y.phases && y.phases[q] == Asleep;
  }

  lemma TookSleepers(x: State, y: State, r: Request, st: LockServer.Step, phase: Phase, lid: nat)
    requires SleepersOk(x) && Tabled(x, y, r, st, phase) && Taking(x, r, st, lid)
    requires phase == if LockServer.Grants(x.table, st) then Ended else Asleep
    requires st.Acquire? ==> forall l: nat :: KeyOf(r) !in LockServer.Waiters(x.table, l)
    ensures SleepersOk(y)
  {
    forall l: nat ensures LockServer.Apart(y.table, l) { LockServer.WaitersMove(x.table, st, l); }
    forall l: nat, k | k in LockServer.Waiters(y.table, l) ensures Sleeps(y, k, l) {
      LockServer.WaitersMove(x.table, st, l);
      if k != KeyOf(r) {
        OthersSleep(x, y, r, st, phase, k, l);
      } else {
        if k in LockServer.Waiters(x.table, l) { assert Sleeps(x, k, l); }
        assert l == lid && r in y.phases && y.phases[r] == Asleep;
      }
    }
  }

  // A release or a spurious wake-up leaves everybody waiting who was.
  lemma KeptSleepers(x: State, y: State, r: Request, st: LockServer.Step, phase: Phase)
    requires SleepersOk(x) && Tabled(x, y, r, st, phase)
    requires || (st.Release? && forall l: nat :: KeyOf(r) !in LockServer.Waiters(x.table, l))
             || (st.Spurious? && phase == x.phases[r])
    ensures SleepersOk(y)
  {
    forall l: nat ensures LockServer.Apart(y.table, l) { LockServer.WaitersMove(x.table, st, l); }
    forall l: nat, k | k in LockServer.Waiters(y.table, l) ensures Sleeps(y, k, l) {
      LockServer.WaitersMove(x.table, st, l);
      assert Sleeps(x, k, l);
      if st.Spurious? {
        assert y.phases == x.phases;
      } else {
        OthersSleep(x, y, r, st, phase, k, l);
      }
    }
  }

  lemma TookHolds(x: State, y: State, r: Request, st: LockServer.Step, phase: Phase, lid: nat)
    requires HoldsOk(x) && Tabled(x, y, r, st, phase) && Taking(x, r, st, lid)
    requires phase == if LockServer.Grants(x.table, st) then Ended else Asleep
    ensures HoldsOk(y)
  {
    forall a | a in y.rpc.requests && !a.bind ensures HoldOk(y, a) {
      assert HoldOk(x, a);
      if Undone(x, a) { UndoneStays(x, y, r, st, phase, a); }
      WorkedMoves(x, y, r, st, phase, a);
      if KeyOf(a) in x.ops { LockServer.HoldersMove(x.table, st, x.ops[KeyOf(a)].lid); }
    }
  }

  lemma GaveHolds(x: State, y: State, r: Request, st: LockServer.Step, lid: nat, hold: nat)
    requires HoldsOk(x) && Tabled(x, y, r, st, Ended) && r in x.rpc.requests && !r.bind
    requires x.ops[KeyOf(r)] == Give(lid, hold) && st.Release? && st.t == (r.clt, hold)
    ensures HoldsOk(y)
  {
    forall a | a in y.rpc.requests && !a.bind ensures HoldOk(y, a) {
      assert HoldOk(x, a);
      if Undone(x, a) { UndoneStays(x, y, r, st, Ended, a); }
      WorkedMoves(x, y, r, st, Ended, a);
      assert Worked(y, r);
      if KeyOf(a) == (r.clt, hold) {
        assert Undone(y, a);
      } else if KeyOf(a) in x.ops {
        LockServer.HoldersMove(x.table, st, x.ops[KeyOf(a)].lid);
      }
    }
  }

  lemma SpuriousHolds(x: State, y: State, r: Request, st: LockServer.Step)
    requires HoldsOk(x) && r in x.phases && Tabled(x, y, r, st, x.phases[r]) && st.Spurious?
    ensures HoldsOk(y)
  {
    assert y.phases == x.phases;
    forall a | a in y.rpc.requests && !a.bind ensures HoldOk(y, a) {
      assert HoldOk(x, a);
      if Undone(x, a) { UndoneStays(x, y, r, st, x.phases[r], a); }
      if KeyOf(a) in x.ops { LockServer.HoldersMove(x.table, st, x.ops[KeyOf(a)].lid); }
    }
  }

  lemma NotWaiting(table: LockServer.State, k: Key)
    requires !LockServer.Waiting(table, k)
    ensures forall lid: nat :: k !in LockServer.Waiters(table, lid)
  {
    forall lid: nat ensures k !in LockServer.Waiters(table, lid) {
      if lid in table.locks { assert LockServer.EntryOf(table.locks, lid) == table.locks[lid]; }
    }
  }

  // A woken handler sleeps as far as its request is concerned.
  lemma SleeperPhase(x: State, r: Request, lid: nat)
    requires Inv(x) && r in x.phases && KeyOf(r) in LockServer.Waiters(x.table, lid)
    ensures x.phases[r] == Asleep && KeyOf(r) in x.ops && x.ops[KeyOf(r)] == Take(lid)
  {
    assert Sleeps(x, KeyOf(r), lid);
    var q :| q in x.phases && KeyOf(q) == KeyOf(r) && x.phases[q] == Asleep;
    RunsHere(x.rpc, r);
    RunsHere(x.rpc, q);
  }

  lemma TableFrame(x: State, step: Step)
    requires Inv(x) && Enabled(x, step) && (step.Work? || step.Wake? || step.Spurious?)
    ensures Tabled(x, Apply(x, step), step.r, LockStep(x, step), After(x, step))
  {
    TableStepIsDisciplined(x, step);
    if !step.Work? { SleeperPhase(x, step.r, x.ops[KeyOf(step.r)].lid); }
  }

  lemma TookKeeps(x: State, step: Step)
    requires Inv(x) && Enabled(x, step) && (step.Work? || step.Wake?) && x.ops[KeyOf(step.r)].Take?
    ensures SleepersOk(Apply(x, step)) && HoldsOk(Apply(x, step))
  {
    TableFrame(x, step);
    var y, r, lid := Apply(x, step), step.r, x.ops[KeyOf(step.r)].lid;
    if step.Work? {
      BegunIsAwake(x, r);
      NotWaiting(x.table, KeyOf(r));
    }
    TookSleepers(x, y, r, LockStep(x, step), After(x, step), lid);
    TookHolds(x, y, r, LockStep(x, step), After(x, step), lid);
  }

  lemma GaveKeeps(x: State, r: Request, signalled: set<LockServer.Thread>)
    requires Inv(x) && Enabled(x, Work(r, signalled)) && x.ops[KeyOf(r)].Give?
    ensures SleepersOk(Apply(x, Work(r, signalled))) && HoldsOk(Apply(x, Work(r, signalled)))
  {
    var step := Work(r, signalled);
    TableFrame(x, step);
    RunsHere(x.rpc, r);
    BegunIsAwake(x, r);
    NotWaiting(x.table, KeyOf(r));
    KeptSleepers(x, Apply(x, step), r, LockStep(x, step), Ended);
    GaveHolds(x, Apply(x, step), r, LockStep(x, step), x.ops[KeyOf(r)].lid, x.ops[KeyOf(r)].hold);
  }

  lemma SpuriousKeeps(x: State, r: Request)
    requires Inv(x) && Enabled(x, Spurious(r))
    ensures SleepersOk(Apply(x, Spurious(r))) && HoldsOk(Apply(x, Spurious(r)))
  {
    var step := Spurious(r);
    TableFrame(x, step);
    KeptSleepers(x, Apply(x, step), r, LockStep(x, step), x.phases[r]);
    SpuriousHolds(x, Apply(x, step), r, LockStep(x, step));
  }

  lemma TabledSound(x: State, y: State, r: Request, st: LockServer.Step, phase: Phase)
    requires Sound(x) && Tabled(x, y, r, st, phase) && LockServer.Disciplined(x.table, st)
    requires SleepersOk(y) && HoldsOk(y)
    ensures Sound(y)
  {
    LockServer.StepKeeps(x.table, st);
    GivesStay(x, y);
  }

  lemma TableKeeps(x: State, step: Step)
    requires Inv(x) && Enabled(x, step) && (step.Work? || step.Wake? || step.Spurious?)
    ensures Inv(Apply(x, step))
  {
    TableFrame(x, step);
    TableStepIsDisciplined(x, step);
    if step.Spurious? {
      SpuriousKeeps(x, step.r);
    } else if x.ops[KeyOf(step.r)].Take? {
      TookKeeps(x, step);
    } else {
      if step.Wake? { SleeperPhase(x, step.r, x.ops[KeyOf(step.r)].lid); }
      GaveKeeps(x, step.r, step.signalled);
    }
    TabledSound(x, Apply(x, step), step.r, LockStep(x, step), After(x, step));
  }

  // ---- whole runs ----

  lemma StepKeeps(x: State, step: Step)
    requires Inv(x) && Enabled(x, step)
    ensures Inv(Apply(x, step))
  {
    match step
    case Net(st) => NetKeeps(x, st);
    case Ask(c, op, args) => AskKeeps(x, c, op, args);
    case _ => TableKeeps(x, step);
  }

  function First(n: nat): State {
    State(Start(n), LockServer.State(map[], map[]), map[], map[])
  }

  ghost predicate Leads(x: State, step: Step, y: State) {
    Enabled(x, step) && y == Apply(x, step)
  }

  ghost predicate IsRun(n: nat, steps: seq<Step>, xs: seq<State>) {
    && n != 0 && |xs| == |steps| + 1 && xs[0] == First(n)
    && forall i {:trigger Leads(xs[i], steps[i], xs[i + 1])} | 0 <= i < |steps| :: Leads(xs[i], steps[i], xs[i + 1])
  }

  lemma FirstSound(n: nat)
    requires n != 0
    ensures Inv(First(n))
  {
    forall lid: nat ensures LockServer.LockOk(First(n).table, lid) {}
  }

  lemma RunLeads(n: nat, steps: seq<Step>, xs: seq<State>, i: nat)
    requires IsRun(n, steps, xs) && i < |steps|
    ensures Leads(xs[i], steps[i], xs[i + 1])
  {
  }

  lemma LeadsKeeps(x: State, step: Step, y: State)
    requires Inv(x) && Leads(x, step, y)
    ensures Inv(y)
  {
    StepKeeps(x, step);
  }

  lemma RunStepKeeps(n: nat, steps: seq<Step>, xs: seq<State>, i: nat)
    requires IsRun(n, steps, xs) && i < |steps| && Inv(xs[i])
    ensures Inv(xs[i + 1])
  {
    RunLeads(n, steps, xs, i);
    LeadsKeeps(xs[i], steps[i], xs[i + 1]);
  }

  lemma {:induction false} RunKeeps(n: nat, steps: seq<Step>, xs: seq<State>, i: nat)
    requires IsRun(n, steps, xs) && i < |xs|
    ensures Inv(xs[i])
  {
    if i == 0 {
      FirstSound(n);
    } else {
      RunKeeps(n, steps, xs, i - 1);
      RunStepKeeps(n, steps, xs, i - 1);
    }
  }

  // What a step means to the lock table.
  lemma TableMoves(x: State, step: Step, y: State)
    requires Inv(x) && Leads(x, step, y)
    ensures if step.Net? && step.st.Restart? then y.table == LockServer.State(map[], map[])
            else if step.Net? || step.Ask? then y.table == x.table
            else KeyOf(step.r) in x.ops && Moves(x.table, LockStep(x, step), y.table)
  {
    if !step.Net? && !step.Ask? {
      TableStepIsDisciplined(x, step);
    }
  }

  ghost predicate Moves(s: LockServer.State, st: LockServer.Step, t: LockServer.State) {
    LockServer.Enabled(s, st) && LockServer.Disciplined(s, st) && t == LockServer.Apply(s, st)
  }

  ghost predicate AtEndOf(moves: seq<LockServer.Step>, tables: seq<LockServer.State>, s: LockServer.State) {
    LockServer.DisciplinedRun(moves, tables) && tables[|moves|] == s
  }

  // The lock table is always at the end of a disciplined run of the lock server:
  // at-most-once execution and ServerScopedLock are all the discipline it needs.
  lemma {:induction false} TableRunIsDisciplined(n: nat, steps: seq<Step>, xs: seq<State>, i: nat)
    returns (moves: seq<LockServer.Step>, tables: seq<LockServer.State>)
    requires IsRun(n, steps, xs) && i < |xs|
    ensures AtEndOf(moves, tables, xs[i].table)
  {
    moves, tables := [], [LockServer.State(map[], map[])];
    if i > 0 {
      var x, step := xs[i - 1], steps[i - 1];
      RunKeeps(n, steps, xs, i - 1);
      RunLeads(n, steps, xs, i - 1);
      TableMoves(x, step, xs[i]);
      if !(step.Net? && step.st.Restart?) {
        moves, tables := TableRunIsDisciplined(n, steps, xs, i - 1);
        if !step.Net? && !step.Ask? {
          moves, tables := Longer(moves, tables, x.table, LockStep(x, step), xs[i].table);
        }
      }
    }
  }

  lemma Longer(moves: seq<LockServer.Step>, tables: seq<LockServer.State>,
               s: LockServer.State, st: LockServer.Step, t: LockServer.State)
    returns (moves': seq<LockServer.Step>, tables': seq<LockServer.State>)
    requires AtEndOf(moves, tables, s) && Moves(s, st, t)
    ensures AtEndOf(moves', tables', t)
  {
    moves', tables' := moves + [st], tables + [t];
    forall i | 0 <= i < |moves'|
      ensures LockServer.Enabled(tables'[i], moves'[i]) && tables'[i + 1] == LockServer.Apply(tables'[i], moves'[i])
      ensures LockServer.Disciplined(tables'[i], moves'[i])
    {
      if i < |moves| {
        assert tables'[i] == tables[i] && tables'[i + 1] == tables[i + 1];
      }
    }
  }

  // As its client sees it, a call holds the lock: its acquire, made of this
  // instance, has returned, and no release of it has been called.
  ghost predicate Holding(x: State, c: nat, xid: nat, lid: nat) {
    && (c, xid) in x.ops && x.ops[(c, xid)] == Take(lid)
    && Returned(x.rpc, c, xid) && !GivenBack(x.ops, c, xid)
    && forall r | r in x.rpc.requests && KeyOf(r) == (c, xid) :: r.srv == x.rpc.server.nonce
  }

  lemma HoldingHolds(x: State, c: nat, xid: nat, lid: nat)
    requires Inv(x) && Holding(x, c, xid, lid)
    ensures (c, xid) in LockServer.HoldersOf(x.table, lid)
  {
    var r :| r in x.rpc.requests && !r.bind && KeyOf(r) == (c, xid);
    ReturnedHasResult(x.rpc, r);
    assert !Undone(x, r) by {
      forall q | q in x.rpc.requests && !q.bind && q.clt == r.clt && KeyOf(q) in x.ops && x.ops[KeyOf(q)].Give?
        ensures x.ops[KeyOf(q)].hold != r.xid {}
    }
    assert HoldOk(x, r);
  }

  // Mutual exclusion from end to end: over a network that loses, duplicates and
  // reorders, with calls retransmitted at will and a server that restarts, no two
  // calls hold one lock of one server instance at the same time.
  lemma ExclusionOverNetwork(n: nat, steps: seq<Step>, xs: seq<State>, i: nat,
                             c: nat, xid: nat, d: nat, yid: nat, lid: nat)
    requires IsRun(n, steps, xs) && i < |xs|
    requires Holding(xs[i], c, xid, lid) && Holding(xs[i], d, yid, lid)
    ensures c == d && xid == yid
  {
    RunKeeps(n, steps, xs, i);
    HoldingHolds(xs[i], c, xid, lid);
    HoldingHolds(xs[i], d, yid, lid);
    assert LockServer.LockOk(xs[i].table, lid);
  }
}
