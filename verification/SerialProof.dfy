// Every interleaving of micro-steps equals a serial run of whole operations.
module SerialProof {
  import opened Extents
  import opened FsProgram
  import opened Serial

  lemma StartOk(who: Callers, s0: Store)
    ensures Inv(who, s0, System(s0, map[], map[], s0, []))
  {
  }

  lemma BeginKeeps(who: Callers, s0: Store, s: System, c: nat, op: Op)
    requires Inv(who, s0, s) && Enabled(s, Begin(c, op))
    ensures Inv(who, s0, Apply(who, s, Begin(c, op)))
  {
    var t := Apply(who, s, Begin(c, op));
    assert Held(s, c) == {};
    forall d: nat ensures Held(t, d) == Held(s, d) { }
    TrackBegins(who(c), t.serial, t.store, op);
    forall d: nat | ClientOf(t, d).Running?
      ensures OnTrack(who(d), t.serial, t.store, Held(t, d), t.clients[d].op, t.clients[d].h)
    {
      if d != c { assert ClientOf(s, d) == ClientOf(t, d); }
    }
    forall id: nat | !InFlight(t, id) ensures Look(t.store, id) == Look(t.serial, id) {
      assert id in s.locks ==> id in Held(s, s.locks[id]);
      assert !InFlight(s, id);
    }
  }

  lemma LockKeeps(who: Callers, s0: Store, s: System, c: nat)
    requires Inv(who, s0, s) && Enabled(s, Micro(c)) && Next(s.clients[c].op, s.clients[c].h).Lock?
    ensures Inv(who, s0, Apply(who, s, Micro(c)))
  {
    var t := Apply(who, s, Micro(c));
    var op, h := s.clients[c].op, s.clients[c].h;
    var id := Next(op, h).id;
    assert ClientOf(s, c).Running?;
    assert Held(t, c) == Held(s, c) + {id};
    forall d: nat | d != c ensures Held(t, d) == Held(s, d) && ClientOf(t, d) == ClientOf(s, d) { }
    assert (h + [Granted])[..|h|] == h;
    assert !InFlight(s, id);
    TrackLocks(who(c), s.serial, s.store, Held(s, c), op, h, id);
    forall j: nat | !InFlight(t, j) ensures Look(t.store, j) == Look(t.serial, j) {
      assert !InFlight(s, j);
    }
  }

  lemma CallKeeps(who: Callers, s0: Store, s: System, c: nat)
    requires Inv(who, s0, s) && Enabled(s, Micro(c)) && Next(s.clients[c].op, s.clients[c].h).Call?
    ensures Inv(who, s0, Apply(who, s, Micro(c)))
  {
    var t := Apply(who, s, Micro(c));
    var op, h := s.clients[c].op, s.clients[c].h;
    var Call(id, rq) := Next(op, h);
    assert ClientOf(s, c).Running?;
    TouchesLockedOnly(op, h);
    assert id in Held(s, c);
    var (a, store') := Serve(who(c), s.store, id, rq);
    assert t == s.(store := store', clients := s.clients[c := Running(op, h + [a])]);
    forall d: nat ensures Held(t, d) == Held(s, d) { }
    assert (h + [a])[..|h|] == h;
    TrackCalls(who(c), s.serial, s.store, Held(s, c), op, h);
    forall d: nat | ClientOf(t, d).Running?
      ensures OnTrack(who(d), t.serial, t.store, Held(t, d), t.clients[d].op, t.clients[d].h)
    {
      if d != c {
        assert ClientOf(s, d) == ClientOf(t, d);
        assert id !in Held(s, d);
        TrackSurvives(who(d), s.serial, s.store, t.serial, t.store, Held(s, d), t.clients[d].op, t.clients[d].h);
      }
    }
    forall j: nat | !InFlight(t, j) ensures Look(t.store, j) == Look(t.serial, j) {
      assert !InFlight(s, j);
      assert j != id;
    }
  }

  lemma FinishKeeps(who: Callers, s0: Store, s: System, c: nat)
    requires Inv(who, s0, s) && Enabled(s, Micro(c)) && Next(s.clients[c].op, s.clients[c].h).Finish?
    ensures Inv(who, s0, Apply(who, s, Micro(c)))
  {
    var t := Apply(who, s, Micro(c));
    var op, h := s.clients[c].op, s.clients[c].h;
    var r := Next(op, h).r;
    var H := Held(s, c);
    assert ClientOf(s, c).Running?;
    TrackEnds(who(c), s.serial, s.store, H, op, h, r);
    assert t.serial == Overlay(s.serial, s.store, H);
    ReplayExtends(who, s0, s.log, Committed(c, op, r));
    forall d: nat ensures Held(t, d) == Held(s, d) { }
    forall d: nat | ClientOf(t, d).Running?
      ensures OnTrack(who(d), t.serial, t.store, Held(t, d), t.clients[d].op, t.clients[d].h)
    {
      assert d != c && ClientOf(s, d) == ClientOf(t, d);
      forall id | id in Held(s, d) ensures Look(s.serial, id) == Look(t.serial, id) {
        assert id !in H;
        OverlayLook(s.serial, s.store, H, id);
      }
      TrackSurvives(who(d), s.serial, s.store, t.serial, t.store, Held(s, d), t.clients[d].op, t.clients[d].h);
    }
    forall j: nat | !InFlight(t, j) ensures Look(t.store, j) == Look(t.serial, j) {
      OverlayLook(s.serial, s.store, H, j);
      if j !in H { assert !InFlight(s, j); }
    }
  }

  lemma UnlockKeeps(who: Callers, s0: Store, s: System, c: nat, id: nat)
    requires Inv(who, s0, s) && Enabled(s, Unlock(c, id))
    ensures Inv(who, s0, Apply(who, s, Unlock(c, id)))
  {
    var t := Apply(who, s, Unlock(c, id));
    forall d: nat | d != c ensures Held(t, d) == Held(s, d) { }
    forall d: nat | ClientOf(t, d).Running?
      ensures OnTrack(who(d), t.serial, t.store, Held(t, d), t.clients[d].op, t.clients[d].h)
    {
      assert d != c && ClientOf(s, d) == ClientOf(t, d);
    }
    forall j: nat | !InFlight(t, j) ensures Look(t.store, j) == Look(t.serial, j) {
      assert !InFlight(s, j);
    }
  }

  lemma EndKeeps(who: Callers, s0: Store, s: System, c: nat)
    requires Inv(who, s0, s) && Enabled(s, End(c))
    ensures Inv(who, s0, Apply(who, s, End(c)))
  {
    var t := Apply(who, s, End(c));
    forall d: nat ensures Held(t, d) == Held(s, d) { }
    forall d: nat | ClientOf(t, d).Running?
      ensures OnTrack(who(d), t.serial, t.store, Held(t, d), t.clients[d].op, t.clients[d].h)
    {
      assert d != c && ClientOf(s, d) == ClientOf(t, d);
    }
    forall j: nat | !InFlight(t, j) ensures Look(t.store, j) == Look(t.serial, j) {
      assert !InFlight(s, j);
    }
  }

  lemma StepKeeps(who: Callers, s0: Store, s: System, st: Step)
    requires Inv(who, s0, s) && Enabled(s, st)
    ensures Inv(who, s0, Apply(who, s, st))
  {
    match st
    case Begin(c, op) => BeginKeeps(who, s0, s, c, op);
    case Micro(c) =>
      match Next(s.clients[c].op, s.clients[c].h) {
        case Lock(_) => LockKeeps(who, s0, s, c);
        case Call(_, _) => CallKeeps(who, s0, s, c);
        case Finish(_) => FinishKeeps(who, s0, s, c);
      }
    case Unlock(c, id) => UnlockKeeps(who, s0, s, c, id);
    case End(c) => EndKeeps(who, s0, s, c);
  }

  lemma {:induction false} RunKeeps(who: Callers, s0: Store, steps: seq<Step>, states: seq<System>, i: nat)
    requires IsRun(who, s0, steps, states) && i < |states|
    ensures Inv(who, s0, states[i])
  {
    if i == 0 {
      StartOk(who, s0);
    } else {
      RunKeeps(who, s0, steps, states, i - 1);
      StepKeeps(who, s0, states[i - 1], steps[i - 1]);
    }
  }

  // In every reachable state the finished operations have the results of their
  // serial execution in finishing order, and every extent that no unfinished
  // operation has locked is what that serial execution leaves.
  lemma Serializable(who: Callers, s0: Store, steps: seq<Step>, states: seq<System>, i: nat)
    requires IsRun(who, s0, steps, states) && i < |states|
    ensures Legal(who, s0, states[i].log)
    ensures forall id: nat | !InFlight(states[i], id) ::
      Look(states[i].store, id) == Look(Replay(who, s0, states[i].log), id)
    ensures (forall c: nat :: !ClientOf(states[i], c).Running?) ==> states[i].store == Replay(who, s0, states[i].log)
  {
    RunKeeps(who, s0, steps, states, i);
    var s := states[i];
    if forall c: nat :: !ClientOf(s, c).Running? {
      forall id: nat ensures Look(s.store, id) == Look(s.serial, id) {
        assert !InFlight(s, id);
      }
      SameStore(s.store, s.serial);
    }
  }

  // ---- the serial order and real time ----

  // An operation of a run, from the step at which it begins to that at which it
  // finishes and its locks begin to be released.
  datatype Span = Span(c: nat, op: Op, begin: nat, finish: nat)

  ghost predicate IsSpan(steps: seq<Step>, states: seq<System>, p: Span) {
    && |states| == |steps| + 1 && p.begin < p.finish < |steps|
    && steps[p.begin] == Begin(p.c, p.op)
    && (forall m | p.begin < m <= p.finish :: ClientOf(states[m], p.c).Running?)
    && ClientOf(states[p.finish + 1], p.c).Releasing?
  }

  lemma LogStep(who: Callers, s: System, st: Step)
    requires Enabled(s, st)
    ensures var t := Apply(who, s, st);
      || t.log == s.log
      || (st.Micro? && ClientOf(s, st.c).Running? && ClientOf(t, st.c).Releasing?
          && t.log == s.log + [Committed(st.c, s.clients[st.c].op, ClientOf(t, st.c).r)])
  {
  }

  lemma {:induction false} LogGrows(who: Callers, s0: Store, steps: seq<Step>, states: seq<System>, i: nat, j: nat)
    requires IsRun(who, s0, steps, states) && i <= j < |states|
    ensures states[i].log <= states[j].log
    decreases j
  {
    if i < j {
      LogGrows(who, s0, steps, states, i, j - 1);
      LogStep(who, states[j - 1], steps[j - 1]);
    }
  }

  lemma OpStays(who: Callers, s: System, st: Step, c: nat)
    requires Enabled(s, st) && ClientOf(s, c).Running? && ClientOf(Apply(who, s, st), c).Running?
    ensures ClientOf(Apply(who, s, st), c).op == ClientOf(s, c).op
  {
  }

  lemma {:induction false} SpanKeepsOp(who: Callers, s0: Store, steps: seq<Step>, states: seq<System>, p: Span, m: nat)
    requires IsRun(who, s0, steps, states) && IsSpan(steps, states, p) && p.begin < m <= p.finish
    ensures ClientOf(states[m], p.c).op == p.op
    decreases m
  {
    if m - 1 > p.begin {
      SpanKeepsOp(who, s0, steps, states, p, m - 1);
      assert ClientOf(states[m - 1], p.c).Running? && states[m] == Apply(who, states[m - 1], steps[m - 1]);
      OpStays(who, states[m - 1], steps[m - 1], p.c);
    } else {
      assert states[m] == Apply(who, states[p.begin], Begin(p.c, p.op));
    }
  }

  // A finished operation has its place in the log for good.
  lemma SpanIsLogged(who: Callers, s0: Store, steps: seq<Step>, states: seq<System>, p: Span, m: nat)
    requires IsRun(who, s0, steps, states) && IsSpan(steps, states, p) && p.finish < m < |states|
    ensures |states[p.finish].log| < |states[m].log|
    ensures states[m].log[|states[p.finish].log|] == Committed(p.c, p.op, ClientOf(states[p.finish + 1], p.c).r)
  {
    var s, t := states[p.finish], states[p.finish + 1];
    assert t == Apply(who, s, steps[p.finish]);
    assert ClientOf(s, p.c).Running?;
    SpanKeepsOp(who, s0, steps, states, p, p.finish);
    LogGrows(who, s0, steps, states, p.finish + 1, m);
    assert t.log[|s.log|] == Committed(p.c, p.op, ClientOf(t, p.c).r);
  }

  // The serial order respects real time: of two finished operations of a run, one
  // that began after the other had finished comes behind it in the log.
  lemma LogRespectsRealTime(who: Callers, s0: Store, steps: seq<Step>, states: seq<System>, p: Span, q: Span)
    returns (i: nat, j: nat)
    requires IsRun(who, s0, steps, states) && IsSpan(steps, states, p) && IsSpan(steps, states, q)
    requires p.finish < q.begin
    ensures var log := states[|steps|].log;
      && i < j < |log|
      && log[i] == Committed(p.c, p.op, ClientOf(states[p.finish + 1], p.c).r)
      && log[j] == Committed(q.c, q.op, ClientOf(states[q.finish + 1], q.c).r)
  {
    i, j := |states[p.finish].log|, |states[q.finish].log|;
    SpanIsLogged(who, s0, steps, states, p, q.finish);
    SpanIsLogged(who, s0, steps, states, p, |steps|);
    SpanIsLogged(who, s0, steps, states, q, |steps|);
  }
}
