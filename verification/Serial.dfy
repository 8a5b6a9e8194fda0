// Any number of clients running file system operations at once.
//
// A step is one micro-step of one client: taking a free lock, one extent
// server call, the end of an operation, or the release of one lock.  `serial`
// and `log` are history: the store that results from running the finished
// operations one after the other, in the order in which they finished.
module Serial {
  import opened Extents
  import opened FsProgram

  datatype Client = Idle | Running(op: Op, h: seq<Answer>) | Releasing(r: Result)

  datatype Committed = Committed(c: nat, op: Op, r: Result)

  datatype System = System(
    store: Store,
    locks: map<nat, nat>,        // held lock -> holder
    clients: map<nat, Client>,
    serial: Store,
    log: seq<Committed>)

  datatype Step = Begin(c: nat, op: Op) | Micro(c: nat) | Unlock(c: nat, id: nat) | End(c: nat)

  type Callers = nat -> Caller

  function ClientOf(s: System, c: nat): Client {
    if c in s.clients then s.clients[c] else Idle
  }

  function Held(s: System, c: nat): set<nat> {
    set id | id in s.locks && s.locks[id] == c
  }

  predicate Enabled(s: System, st: Step) {
    match st
    case Begin(c, op) => ClientOf(s, c).Idle?
    case Micro(c) =>
      && ClientOf(s, c).Running?
      && (match Next(s.clients[c].op, s.clients[c].h) case Lock(id) => id !in s.locks case _ => true)
    case Unlock(c, id) => ClientOf(s, c).Releasing? && id in s.locks && s.locks[id] == c
    case End(c) => ClientOf(s, c).Releasing? && Held(s, c) == {}
  }

  function Apply(who: Callers, s: System, st: Step): System
    requires Enabled(s, st)
  {
    match st
    case Begin(c, op) => s.(clients := s.clients[c := Running(op, [])])
    case Micro(c) => MicroStep(who, s, c, s.clients[c].op, s.clients[c].h)
    case Unlock(c, id) => s.(locks := s.locks - {id})
    case End(c) => s.(clients := s.clients[c := Idle])
  }

  function MicroStep(who: Callers, s: System, c: nat, op: Op, h: seq<Answer>): System {
    match Next(op, h)
    case Lock(id) =>
      s.(locks := s.locks[id := c], clients := s.clients[c := Running(op, h + [Granted])])
    case Call(id, rq) =>
      var (a, store) := Serve(who(c), s.store, id, rq);
      s.(store := store, clients := s.clients[c := Running(op, h + [a])])
    case Finish(r) =>
      s.(clients := s.clients[c := Releasing(r)],
         serial := RunAlone(who(c), op, s.serial).1,
         log := s.log + [Committed(c, op, r)])
  }

  ghost predicate IsRun(who: Callers, s0: Store, steps: seq<Step>, states: seq<System>) {
    && |states| == |steps| + 1
    && states[0] == System(s0, map[], map[], s0, [])
    && forall i | 0 <= i < |steps| :: Enabled(states[i], steps[i]) && states[i + 1] == Apply(who, states[i], steps[i])
  }

  // ---- the log as a serial execution ----

  // The store after running the logged operations one at a time.
  function Replay(who: Callers, s0: Store, log: seq<Committed>): Store
    decreases |log|
  {
    if log == [] then s0
    else
      var last := log[|log| - 1];
      RunAlone(who(last.c), last.op, Replay(who, s0, log[..|log| - 1])).1
  }

  // Every logged result is the one the operation has in that serial execution.
  ghost predicate Legal(who: Callers, s0: Store, log: seq<Committed>) {
    forall i | 0 <= i < |log| :: RunAlone(who(log[i].c), log[i].op, Replay(who, s0, log[..i])).0 == log[i].r
  }

  // ---- overlays ----

  // `top` on the ids in H, `base` elsewhere.
  ghost function Overlay(base: Store, top: Store, H: set<nat>): Store {
    map id | id in base.Keys + top.Keys && (if id in H then id in top else id in base) ::
      if id in H then top[id] else base[id]
  }

  lemma OverlayLook(base: Store, top: Store, H: set<nat>, id: nat)
    ensures Look(Overlay(base, top, H), id) == if id in H then Look(top, id) else Look(base, id)
  {
  }

  lemma SameStore(a: Store, b: Store)
    requires forall id: nat :: Look(a, id) == Look(b, id)
    ensures a == b
  {
    forall id: nat ensures id in a <==> id in b { assert Look(a, id) == Look(b, id); }
    forall id | id in a ensures a[id] == b[id] { assert Look(a, id) == Look(b, id); }
  }

  ghost predicate Agree(a: Store, b: Store, H: set<nat>) {
    forall id | id in H :: Look(a, id) == Look(b, id)
  }

  // Whatever the rest of the world looks like, the operation run alone ends
  // like its remainder run on what it has made of its locked extents.
  ghost predicate OnTrack(w: Caller, serial: Store, store: Store, H: set<nat>, op: Op, h: seq<Answer>) {
    forall S: Store | Agree(S, serial, H) :: RunFrom(w, op, [], S) == RunFrom(w, op, h, Overlay(S, store, H))
  }

  // ---- invariant ----

  ghost predicate LocksOk(s: System) {
    && (forall c: nat | ClientOf(s, c).Running? :: Held(s, c) == LocksTaken(s.clients[c].op, s.clients[c].h))
    && (forall c: nat | ClientOf(s, c).Idle? :: Held(s, c) == {})
  }

  ghost predicate InFlight(s: System, id: nat) {
    id in s.locks && ClientOf(s, s.locks[id]).Running?
  }

  ghost predicate StoreOk(s: System) {
    forall id: nat | !InFlight(s, id) :: Look(s.store, id) == Look(s.serial, id)
  }

  ghost predicate ClientsOnTrack(who: Callers, s: System) {
    forall c: nat | ClientOf(s, c).Running? ::
      OnTrack(who(c), s.serial, s.store, Held(s, c), s.clients[c].op, s.clients[c].h)
  }

  ghost predicate Inv(who: Callers, s0: Store, s: System) {
    && LocksOk(s) && StoreOk(s) && ClientsOnTrack(who, s)
    && s.serial == Replay(who, s0, s.log)
    && Legal(who, s0, s.log)
  }

  // ---- one client's own step ----

  lemma TrackBegins(w: Caller, serial: Store, store: Store, op: Op)
    ensures OnTrack(w, serial, store, {}, op, [])
  {
    forall S: Store | Agree(S, serial, {}) ensures RunFrom(w, op, [], S) == RunFrom(w, op, [], Overlay(S, store, {})) {
      SameStore(S, Overlay(S, store, {}));
    }
  }

  lemma TrackLocks(w: Caller, serial: Store, store: Store, H: set<nat>, op: Op, h: seq<Answer>, id: nat)
    requires OnTrack(w, serial, store, H, op, h) && Next(op, h) == Lock(id)
    requires id !in H && Look(store, id) == Look(serial, id)
    ensures OnTrack(w, serial, store, H + {id}, op, h + [Granted])
  {
    forall S: Store | Agree(S, serial, H + {id})
      ensures RunFrom(w, op, [], S) == RunFrom(w, op, h + [Granted], Overlay(S, store, H + {id}))
    {
      assert Agree(S, serial, H);
      forall j: nat ensures Look(Overlay(S, store, H), j) == Look(Overlay(S, store, H + {id}), j) {
        OverlayLook(S, store, H, j);
        OverlayLook(S, store, H + {id}, j);
        assert id in H + {id};
      }
      SameStore(Overlay(S, store, H), Overlay(S, store, H + {id}));
    }
  }

  lemma OverlayServes(w: Caller, S: Store, store: Store, H: set<nat>, id: nat, rq: Request)
    requires id in H
    ensures Serve(w, Overlay(S, store, H), id, rq).0 == Serve(w, store, id, rq).0
    ensures Serve(w, Overlay(S, store, H), id, rq).1 == Overlay(S, Serve(w, store, id, rq).1, H)
  {
    OverlayLook(S, store, H, id);
    var store' := Serve(w, store, id, rq).1;
    var l, r := Serve(w, Overlay(S, store, H), id, rq).1, Overlay(S, store', H);
    forall j: nat ensures Look(l, j) == Look(r, j) {
      OverlayLook(S, store, H, j);
      OverlayLook(S, store', H, j);
    }
    SameStore(l, r);
  }

  lemma TrackCalls(w: Caller, serial: Store, store: Store, H: set<nat>, op: Op, h: seq<Answer>)
    requires OnTrack(w, serial, store, H, op, h) && Next(op, h).Call? && Next(op, h).id in H
    ensures var (a, store') := Serve(w, store, Next(op, h).id, Next(op, h).rq);
      OnTrack(w, serial, store', H, op, h + [a])
  {
    var Call(id, rq) := Next(op, h);
    var (a, store') := Serve(w, store, id, rq);
    forall S: Store | Agree(S, serial, H)
      ensures RunFrom(w, op, [], S) == RunFrom(w, op, h + [a], Overlay(S, store', H))
    {
      OverlayServes(w, S, store, H, id, rq);
    }
  }

  // ---- another client's step ----

  // Changes outside H do not throw a client off its track.
  lemma TrackSurvives(w: Caller, serial: Store, store: Store, serial': Store, store': Store,
                      H: set<nat>, op: Op, h: seq<Answer>)
    requires OnTrack(w, serial, store, H, op, h)
    requires Agree(serial, serial', H) && Agree(store, store', H)
    ensures OnTrack(w, serial', store', H, op, h)
  {
    forall S: Store | Agree(S, serial', H)
      ensures RunFrom(w, op, [], S) == RunFrom(w, op, h, Overlay(S, store', H))
    {
      assert Agree(S, serial, H);
      forall j: nat ensures Look(Overlay(S, store, H), j) == Look(Overlay(S, store', H), j) {
        OverlayLook(S, store, H, j);
        OverlayLook(S, store', H, j);
      }
      SameStore(Overlay(S, store, H), Overlay(S, store', H));
    }
  }

  // ---- the end of an operation ----

  // At its end the operation's serial result is the one it computed, and the
  // serial store takes over exactly its locked extents.
  lemma TrackEnds(w: Caller, serial: Store, store: Store, H: set<nat>, op: Op, h: seq<Answer>, r: Result)
    requires OnTrack(w, serial, store, H, op, h) && Next(op, h) == Finish(r)
    ensures RunAlone(w, op, serial) == (r, Overlay(serial, store, H))
  {
    assert Agree(serial, serial, H);
  }

  lemma ReplayExtends(who: Callers, s0: Store, log: seq<Committed>, e: Committed)
    requires Legal(who, s0, log)
    requires RunAlone(who(e.c), e.op, Replay(who, s0, log)).0 == e.r
    ensures Replay(who, s0, log + [e]) == RunAlone(who(e.c), e.op, Replay(who, s0, log)).1
    ensures Legal(who, s0, log + [e])
  {
    var log' := log + [e];
    assert log'[..|log|] == log;
    forall i | 0 <= i < |log'| ensures RunAlone(who(log'[i].c), log'[i].op, Replay(who, s0, log'[..i])).0 == log'[i].r {
      if i < |log| {
        assert log'[..i] == log[..i];
      }
    }
  }
}
