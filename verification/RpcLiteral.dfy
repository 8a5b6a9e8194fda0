// Exactly which runs of the server as written stay defined and at-most-once, with
// a list whose end leads nowhere and with a circular one.
module RpcLiteral {
  import opened ReplyWindow
  import opened CircularWindow
  import opened RpcSystem
  import RpcProof

  ghost predicate HazardIn(v: Variant, m0: nat, w: seq<Reply>, xid: nat, rep: nat) {
    if v == Circular then CircularHazard(m0, w, xid, rep) else Hazard(m0, w, xid, rep)
  }

  ghost predicate OverrunsIn(v: Variant, m: Mark, w: seq<Reply>, xid: nat, rep: nat) {
    v == Literal && Overruns(m, w, xid, rep)
  }

  // A request that this instance has started before, which only the history
  // tells, is delivered into the hazard.  Without that conjunct the hazard may
  // start a late request for the first time.
  ghost predicate HazardousDelivery(v: Variant, s: System, st: Step) {
    && st.Deliver?
    && ForThisInstance(s, st.r)
    && (st.r.clt, st.r.xid) in s.server.started
    && MarkOf(s, st.r.clt).Seen?
    && HazardIn(v, MarkOf(s, st.r.clt).value, WindowOf(s, st.r.clt), st.r.xid, st.r.rep)
  }

  // A delivery on which the walk passes the end of the list for good.
  ghost predicate OverrunningDelivery(v: Variant, s: System, st: Step) {
    && st.Deliver?
    && ForThisInstance(s, st.r)
    && OverrunsIn(v, MarkOf(s, st.r.clt), WindowOf(s, st.r.clt), st.r.xid, st.r.rep)
  }

  ghost predicate GoesWrong(v: Variant, s: System, st: Step) {
    OverrunningDelivery(v, s, st) || HazardousDelivery(v, s, st)
  }

  // No instance has started a request twice.
  ghost predicate StartedOnce(s: System) {
    forall k: Key :: s.server.started[k] <= 1
  }

  ghost function StartedXids(s: System, c: nat): set<nat> {
    set k | k in s.server.started && k.0 == c :: k.1
  }

  // What the literal server keeps as long as no delivery goes wrong.
  ghost predicate ClientWindowOk(s: System, c: nat) {
    && Covers(StartedXids(s, c), MarkOf(s, c), WindowOf(s, c))
    && Distinct(WindowOf(s, c))
    && (forall e | e in WindowOf(s, c) :: e.xid in StartedXids(s, c))
  }

  ghost predicate LiteralInv(s: System) {
    && s.defined
    && StartedOnce(s)
    && (forall c: nat :: ClientWindowOk(s, c))
  }

  // ---- one literal call that does not go wrong ----

  lemma LiteralCallKeeps(accepted: set<nat>, m: Mark, w: seq<Reply>, xid: nat, rep: nat)
    requires Covers(accepted, m, w) && Distinct(w) && rep < xid
    requires forall e | e in w :: e.xid in accepted
    requires !Overruns(m, w, xid, rep)
    requires !(xid in accepted && m.Seen? && Hazard(m.value, w, xid, rep))
    ensures LiteralCheck(m, w, xid, rep).Outcome?
    ensures CallKept(accepted, xid, LiteralCheck(m, w, xid, rep))
  {
    LiteralOverrunsIff(m, w, xid, rep);
    if Initial(m, rep) <= xid {
      var scan := ScanFrom(w, xid, rep);
      ScanKeepsOrder(w, xid, rep);
      ScanStat(w, xid, rep);
      if m.Seen? && xid in accepted { LiteralReexecutesIff(accepted, m.value, w, xid, rep); }
      AnswerKeeps(accepted, m, w, xid, rep, scan);
    }
  }

  lemma CircularCallKeeps(accepted: set<nat>, m: Mark, w: seq<Reply>, xid: nat, rep: nat)
    requires Covers(accepted, m, w) && Distinct(w) && rep < xid
    requires forall e | e in w :: e.xid in accepted
    requires !(xid in accepted && m.Seen? && CircularHazard(m.value, w, xid, rep))
    ensures CallKept(accepted, xid, CircularCheck(m, w, xid, rep))
  {
    if Initial(m, rep) <= xid {
      var scan := CircularScan(w, xid, rep);
      CircularKeepsOrder(w, xid, rep);
      CircularStat(w, xid, rep);
      if m.Seen? && xid in accepted { CircularReexecutesIff(accepted, m.value, w, xid, rep); }
      AnswerKeeps(accepted, m, w, xid, rep, scan);
    }
  }

  lemma CallKeeps(v: Variant, accepted: set<nat>, m: Mark, w: seq<Reply>, xid: nat, rep: nat)
    requires v != Documented && Covers(accepted, m, w) && Distinct(w) && rep < xid
    requires forall e | e in w :: e.xid in accepted
    requires !OverrunsIn(v, m, w, xid, rep)
    requires !(xid in accepted && m.Seen? && HazardIn(v, m.value, w, xid, rep))
    ensures CheckOf(v, m, w, xid, rep).Outcome?
    ensures CallKept(accepted, xid, CheckOf(v, m, w, xid, rep))
  {
    if v == Literal {
      LiteralCallKeeps(accepted, m, w, xid, rep);
    } else {
      CircularCallKeeps(accepted, m, w, xid, rep);
    }
  }

  lemma ReexecutesIff(v: Variant, accepted: set<nat>, m: nat, w: seq<Reply>, xid: nat, rep: nat)
    requires v != Documented && Covers(accepted, Seen(m), w) && Distinct(w) && rep < xid && xid in accepted
    ensures var o := CheckOf(v, Seen(m), w, xid, rep);
      (o.Outcome? && o.stat == New) <==> HazardIn(v, m, w, xid, rep)
  {
    if v == Literal {
      LiteralReexecutesIff(accepted, m, w, xid, rep);
    } else {
      CircularReexecutesIff(accepted, m, w, xid, rep);
    }
  }

  // ---- steps ----

  lemma WindowAfterReply(s: System, t: System, r: Request, body: Body, c: nat)
    requires ClientWindowOk(s, c)
    requires t.server.started == s.server.started && t.server.maxima == s.server.maxima
    requires t.server.windows == s.server.windows[r.clt := WithReply(WindowOf(s, r.clt), r.xid, body)]
    ensures ClientWindowOk(t, c)
  {
    assert StartedXids(t, c) == StartedXids(s, c);
    if c == r.clt {
      var w := WindowOf(s, c);
      WithReplySpec(w, r.xid, body);
      forall x: nat ensures Has(WithReply(w, r.xid, body), x) <==> Has(w, x) {
        RpcProof.WithReplyHas(w, r.xid, body, x);
      }
      forall e | e in WindowOf(t, c) ensures e.xid in StartedXids(t, c) {
        var i :| 0 <= i < |WindowOf(t, c)| && WindowOf(t, c)[i] == e;
        assert w[i] in w && w[i].xid == e.xid;
      }
    }
  }

  lemma WindowAfterDispatch(v: Variant, s: System, t: System, r: Request, c: nat)
    requires v != Documented && ClientWindowOk(s, c) && r.rep < r.xid
    requires r in s.requests && ForThisInstance(s, r) && !GoesWrong(v, s, Deliver(r))
    requires Check(v, s, r).Outcome? && RpcProof.Shape(s, t, r, Check(v, s, r))
    ensures ClientWindowOk(t, c)
    ensures c == r.clt && Check(v, s, r).stat == New ==> (r.clt, r.xid) !in s.server.started
  {
    var o := Check(v, s, r);
    if c == r.clt {
      var acc := StartedXids(s, c);
      assert r.xid in acc <==> (c, r.xid) in s.server.started;
      CallKeeps(v, acc, MarkOf(s, c), WindowOf(s, c), r.xid, r.rep);
      assert StartedXids(t, c) == if o.stat == New then acc + {r.xid} else acc by {
        assert forall k: Key ::
          k in t.server.started <==> k in s.server.started || (o.stat == New && k == (r.clt, r.xid));
      }
      assert WindowOf(t, c) == o.window && MarkOf(t, c) == Seen(o.mark);
    } else {
      assert StartedXids(t, c) == StartedXids(s, c) by {
        assert forall k: Key | k.0 == c :: k in t.server.started <==> k in s.server.started;
      }
    }
  }

  // The walk passes the end on exactly the overrunning deliveries.
  lemma OverrunsIffPastEnd(v: Variant, s: System, r: Request)
    requires v != Documented && AckInv(s) && LiteralInv(s) && r in s.requests && ForThisInstance(s, r)
    ensures OverrunningDelivery(v, s, Deliver(r)) <==> Check(v, s, r).PastEnd?
  {
    assert RequestOk(s.clients, s.nonces, r);
    assert ClientWindowOk(s, r.clt);
    LiteralOverrunsIff(MarkOf(s, r.clt), WindowOf(s, r.clt), r.xid, r.rep);
  }

  lemma LiteralDeliver(v: Variant, s: System, r: Request)
    requires v != Documented && AckInv(s) && LiteralInv(s) && Enabled(v, s, Deliver(r)) && !GoesWrong(v, s, Deliver(r))
    ensures LiteralInv(Apply(v, s, Deliver(r)))
  {
    var t := Apply(v, s, Deliver(r));
    assert RequestOk(s.clients, s.nonces, r);
    if ForThisInstance(s, r) {
      OverrunsIffPastEnd(v, s, r);
      RpcProof.DispatchedHasShape(s, r, Check(v, s, r));
      WindowAfterDispatch(v, s, t, r, r.clt);
      forall c: nat ensures ClientWindowOk(t, c) { WindowAfterDispatch(v, s, t, r, c); }
    } else {
      forall c: nat ensures ClientWindowOk(t, c) { SameWindow(s, t, c); }
    }
  }

  lemma SameWindow(s: System, t: System, c: nat)
    requires ClientWindowOk(s, c) && t.server == s.server
    ensures ClientWindowOk(t, c)
  {
    assert StartedXids(t, c) == StartedXids(s, c);
  }

  lemma LiteralClientStep(v: Variant, s: System, st: Step)
    requires LiteralInv(s) && Enabled(v, s, st) && !st.Deliver? && !st.Finish? && !st.Restart?
    ensures LiteralInv(Apply(v, s, st))
  {
    var t := Apply(v, s, st);
    assert t.server == s.server && t.defined == s.defined;
    forall c: nat ensures ClientWindowOk(t, c) { SameWindow(s, t, c); }
  }

  lemma LiteralStep(v: Variant, s: System, st: Step)
    requires v != Documented && AckInv(s) && LiteralInv(s) && Enabled(v, s, st) && !GoesWrong(v, s, st)
    ensures LiteralInv(Apply(v, s, st))
  {
    var t := Apply(v, s, st);
    match st {
      case Deliver(r) => LiteralDeliver(v, s, r);
      case Finish(r, body) =>
        forall c: nat ensures ClientWindowOk(t, c) { WindowAfterReply(s, t, r, body, c); }
      case Restart(n) =>
        forall c: nat ensures ClientWindowOk(t, c) { assert StartedXids(t, c) == {}; }
      case _ => LiteralClientStep(v, s, st);
    }
  }

  // A hazardous delivery starts the request a second time.
  lemma HazardRunsTwice(v: Variant, s: System, r: Request)
    requires v != Documented && AckInv(s) && LiteralInv(s)
    requires Enabled(v, s, Deliver(r)) && HazardousDelivery(v, s, Deliver(r))
    ensures Apply(v, s, Deliver(r)).server.started[(r.clt, r.xid)] == 2
  {
    assert RequestOk(s.clients, s.nonces, r);
    assert ClientWindowOk(s, r.clt);
    assert r.xid in StartedXids(s, r.clt);
    ReexecutesIff(v, StartedXids(s, r.clt), MarkOf(s, r.clt).value, WindowOf(s, r.clt), r.xid, r.rep);
    RpcProof.DispatchedHasShape(s, r, Check(v, s, r));
  }

  lemma {:induction false} SafePrefix(v: Variant, n: nat, steps: seq<Step>, states: seq<System>, i: nat)
    requires v != Documented && IsRun(v, n, steps, states) && i < |states|
    requires forall j | 0 <= j < i :: !GoesWrong(v, states[j], steps[j])
    ensures LiteralInv(states[i])
  {
    if i == 0 {
      assert forall c: nat :: StartedXids(states[0], c) == {};
    } else {
      SafePrefix(v, n, steps, states, i - 1);
      RpcProof.AckRun(v, n, steps, states, i - 1);
      LiteralStep(v, states[i - 1], steps[i - 1]);
    }
  }

  lemma {:induction false} FirstWrong(v: Variant, n: nat, steps: seq<Step>, states: seq<System>, k: nat)
    returns (i: nat)
    requires v != Documented && IsRun(v, n, steps, states) && k <= |steps|
    requires exists j :: 0 <= j < k && GoesWrong(v, states[j], steps[j])
    ensures i < k && GoesWrong(v, states[i], steps[i])
    ensures forall j | 0 <= j < i :: !GoesWrong(v, states[j], steps[j])
  {
    if exists j :: 0 <= j < k - 1 && GoesWrong(v, states[j], steps[j]) {
      i := FirstWrong(v, n, steps, states, k - 1);
    } else {
      i := k - 1;
    }
  }

  lemma WrittenAtMostOnceIff(v: Variant, n: nat, steps: seq<Step>, states: seq<System>)
    requires v != Documented && IsRun(v, n, steps, states)
    ensures (forall i | 0 <= i < |states| :: states[i].defined && StartedOnce(states[i])) <==>
            (forall i | 0 <= i < |steps| :: !OverrunningDelivery(v, states[i], steps[i])
                                            && !HazardousDelivery(v, states[i], steps[i]))
  {
    if forall i | 0 <= i < |steps| :: !GoesWrong(v, states[i], steps[i]) {
      forall i | 0 <= i < |states| ensures states[i].defined && StartedOnce(states[i]) {
        SafePrefix(v, n, steps, states, i);
      }
    } else {
      var i := FirstWrong(v, n, steps, states, |steps|);
      SafePrefix(v, n, steps, states, i);
      RpcProof.AckRun(v, n, steps, states, i);
      var s, r := states[i], steps[i].r;
      assert states[i + 1] == Apply(v, s, steps[i]);
      if OverrunningDelivery(v, s, steps[i]) {
        OverrunsIffPastEnd(v, s, r);
      } else {
        HazardRunsTwice(v, s, r);
      }
      assert !(states[i + 1].defined && StartedOnce(states[i + 1]));
    }
  }

  // A run of the literal server stays defined and starts no request twice within
  // an instance iff no delivery passes the end and none of a request started
  // before meets the hazard.
  lemma LiteralAtMostOnceIff(n: nat, steps: seq<Step>, states: seq<System>)
    requires IsRun(Literal, n, steps, states)
    ensures (forall i | 0 <= i < |states| :: states[i].defined && StartedOnce(states[i])) <==>
            (forall i | 0 <= i < |steps| :: !OverrunningDelivery(Literal, states[i], steps[i])
                                            && !HazardousDelivery(Literal, states[i], steps[i]))
  {
    WrittenAtMostOnceIff(Literal, n, steps, states);
  }

  lemma {:induction false} CircularStaysDefined(n: nat, steps: seq<Step>, states: seq<System>, i: nat)
    requires IsRun(Circular, n, steps, states) && i < |states|
    ensures states[i].defined
  {
    if i > 0 {
      CircularStaysDefined(n, steps, states, i - 1);
      DefinedStep(states[i - 1], steps[i - 1]);
    }
  }

  lemma DefinedStep(s: System, st: Step)
    requires Enabled(Circular, s, st)
    ensures Apply(Circular, s, st).defined
  {
    if st.Deliver? && ForThisInstance(s, st.r) {
      RpcProof.DispatchedHasShape(s, st.r, Check(Circular, s, st.r));
    }
  }

  // On a circular list a run starts no request twice within an instance iff no
  // delivery of a request started before meets the hazard of that list.
  lemma CircularAtMostOnceIff(n: nat, steps: seq<Step>, states: seq<System>)
    requires IsRun(Circular, n, steps, states)
    ensures (forall i | 0 <= i < |states| :: StartedOnce(states[i])) <==>
            (forall i | 0 <= i < |steps| :: !HazardousDelivery(Circular, states[i], steps[i]))
  {
    WrittenAtMostOnceIff(Circular, n, steps, states);
    forall i | 0 <= i < |states| ensures states[i].defined {
      CircularStaysDefined(n, steps, states, i);
    }
  }
}
