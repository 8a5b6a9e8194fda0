// The file system under concurrency: what every reachable state keeps, and why
// the two-lock operations cannot deadlock.
module FsSystem {
  import opened Wrappers
  import opened DirText
  import opened DirOps
  import opened Extents
  import opened FsProgram
  import opened FsMeaning
  import opened Serial
  import opened SerialProof

  // What the callers promise at each step of a run: operations are sensible
  // and a create's inum is unused when it begins; the name a lookup or an
  // unlink searches for is not mistaken for an inum when the directory is read.
  ghost predicate StepOk(rank: Rank, s: System, st: Step) {
    match st
    case Begin(c, op) => OpOk(rank, op) && (op.Create? ==> Unused(s, op.f))
    case Micro(c) => SearchOk(s, c)
    case _ => true
  }

  ghost predicate SearchOk(s: System, c: nat) {
    ClientOf(s, c).Running? && Searching(s.clients[c].op, s.clients[c].h) ==> Clear(s.serial, s.clients[c].op)
  }

  ghost predicate Unused(s: System, f: nat) {
    Fresh(s.serial, f) && forall c: nat | ClientOf(s, c).Running? && s.clients[c].op.Create? :: s.clients[c].op.f != f
  }

  // The next step reads the directory a name is looked up in.
  predicate Searching(op: Op, h: seq<Answer>) {
    (op.Lookup? || op.Unlink?) && |h| == 1
  }

  ghost predicate FsRun(rank: Rank, who: Callers, s0: Store, steps: seq<Step>, states: seq<System>) {
    && IsRun(who, s0, steps, states)
    && FsOk(rank, s0)
    && forall i | 0 <= i < |steps| :: StepOk(rank, states[i], steps[i])
  }

  // ---- invariant ----

  // An operation under way still meets its promises, and has read the
  // directory as the serial store has it.
  ghost predicate ClientOk(rank: Rank, w: Caller, serial: Store, op: Op, h: seq<Answer>) {
    && OpOk(rank, op)
    && (op.Create? ==> Fresh(serial, op.f))
    && ((op.Lookup? || op.Unlink?) && |h| >= 2 ==> Clear(serial, op) && h[1] == Handle(Look(serial, op.p), w, Get).0)
  }

  ghost predicate ClientsOk(rank: Rank, who: Callers, s: System) {
    forall c: nat | ClientOf(s, c).Running? :: ClientOk(rank, who(c), s.serial, s.clients[c].op, s.clients[c].h)
  }

  ghost predicate CreatesDistinct(s: System) {
    forall c: nat, d: nat | c != d && ClientOf(s, c).Running? && s.clients[c].op.Create?
                            && ClientOf(s, d).Running? && s.clients[d].op.Create? ::
      s.clients[c].op.f != s.clients[d].op.f
  }

  // A directory about to be read is still what the serial store has.
  ghost predicate ParentSeen(s: System) {
    forall c: nat | ClientOf(s, c).Running? && Searching(s.clients[c].op, s.clients[c].h) ::
      Look(s.store, s.clients[c].op.p) == Look(s.serial, s.clients[c].op.p)
  }

  // The one extent an unlink has asked to remove.
  predicate Removing(op: Op, h: seq<Answer>, id: nat) {
    op.Unlink? && |h| == 5 && id != op.p
  }

  // Nothing but a remove makes a locked extent disappear.
  ghost predicate Present(s: System) {
    forall c: nat, id: nat | ClientOf(s, c).Running? && id in Held(s, c) && id in s.serial
                             && !Removing(s.clients[c].op, s.clients[c].h, id) ::
      id in s.store
  }

  ghost predicate FsInv(rank: Rank, who: Callers, s0: Store, s: System) {
    && Inv(who, s0, s)
    && FsOk(rank, s.serial)
    && ClientsOk(rank, who, s)
    && CreatesDistinct(s)
    && ParentSeen(s)
    && Present(s)
  }

  // At its end an operation meets the promises under which it keeps the file system.
  lemma ClearAtEnd(rank: Rank, w: Caller, serial: Store, op: Op, h: seq<Answer>)
    requires ClientOk(rank, w, serial, op, h) && Next(op, h).Finish?
    ensures Clear(serial, op)
  {
  }

  // ---- how a commit looks to the operations still under way ----

  lemma FreshSurvivesCreate(rank: Rank, w: Caller, op: Op, s: Store, f: nat)
    requires op.Create? && op.f != f && FsOk(rank, s) && OpOk(rank, op) && Fresh(s, op.f) && Fresh(s, f)
    ensures Fresh(RunAlone(w, op, s).1, f)
  {
    CreateAllOrNothing(w, op, s);
    if RunAlone(w, op, s).0 == Ok {
      assert DirOk(s[op.p]);
      CreateListings(s, RunAlone(w, op, s).1, op.p, Entry(op.name, op.f), Extent("", op.mode, op.uid, op.gid));
    }
  }

  lemma FreshSurvivesUnlink(rank: Rank, w: Caller, op: Op, s: Store, f: nat)
    requires op.Unlink? && FsOk(rank, s) && OpOk(rank, op) && Clear(s, op) && Fresh(s, f)
    ensures Fresh(RunAlone(w, op, s).1, f)
  {
    if !UnlinkEdits(w, op, s) {
      UnlinkLeavesAlone(rank, w, op, s);
    } else {
      UnlinkChanges(rank, w, op, s);
      var t, k, g := RunAlone(w, op, s).1, Position(EntriesOf(s[op.p]), op.name), UnlinkTarget(op, s);
      assert DirOk(s[op.p]) && Lists(s, op.p, k, g);
      assert g != op.p;
      UnlinkListings(s, t, op.p, k, g, if !CanWrite(Look(s, g), w) then Look(s, g) else None);
      forall d: nat, i: nat ensures !Lists(t, d, i, f) {
        assert Lists(t, d, i, f) ==> Lists(s, d, IndexBefore(op.p, k, d, i), f);
      }
    }
  }

  lemma UnlinkListings(s: Store, t: Store, p: nat, k: nat, f: nat, e: Option<Extent>)
    requires p in s && IsDir(p) && DirOk(s[p]) && k < |EntriesOf(s[p])| && f != p
    requires t == Set(s[p := s[p].(content := Encode(RemoveAt(EntriesOf(s[p]), k)))], f, e)
    requires e == None || e == Look(s, f)
    ensures Shifted(s, t, p, k)
  {
    RemoveKeepsGood(EntriesOf(s[p]), k);
    EntriesOfEncoded(s[p], RemoveAt(EntriesOf(s[p]), k));
    forall d: nat, i: nat, n: nat | Lists(t, d, i, n) ensures Lists(s, d, IndexBefore(p, k, d, i), n) {
      ListedBefore(s, t, p, k, d, i, n);
    }
  }

  // Extents appear only through create and entries only where it puts them.
  lemma FreshSurvives(rank: Rank, w: Caller, op: Op, s: Store, f: nat)
    requires FsOk(rank, s) && OpOk(rank, op) && Clear(s, op) && Fresh(s, f)
    requires op.Create? ==> op.f != f
    ensures Fresh(RunAlone(w, op, s).1, f)
  {
    if op.Create? {
      FreshSurvivesCreate(rank, w, op, s, f);
    } else if op.Unlink? {
      FreshSurvivesUnlink(rank, w, op, s, f);
    } else {
      var t := RunAlone(w, op, s).1;
      OthersKeepDirsFrom(rank, w, op, [], s);
      forall d: nat, i: nat ensures !Lists(t, d, i, f) {
        assert Lists(t, d, i, f) ==> Lists(s, d, i, f);
      }
    }
  }

  lemma ClearDependsOnParent(s: Store, t: Store, op: Op)
    requires (op.Lookup? || op.Unlink?) && Look(s, op.p) == Look(t, op.p)
    ensures Clear(s, op) ==> Clear(t, op)
  {
  }

  // ---- steps ----

  lemma SearcherHolds(op: Op, h: seq<Answer>)
    requires (op.Lookup? || op.Unlink?) && |h| >= 1
    ensures op.p in LocksTaken(op, h)
  {
    LocksOfPrefix(op, h, 0);
  }

  lemma FsBegin(rank: Rank, who: Callers, s0: Store, s: System, c: nat, op: Op)
    requires FsInv(rank, who, s0, s) && Enabled(s, Begin(c, op)) && StepOk(rank, s, Begin(c, op))
    ensures FsInv(rank, who, s0, Apply(who, s, Begin(c, op)))
  {
    var t := Apply(who, s, Begin(c, op));
    SerialProof.StepKeeps(who, s0, s, Begin(c, op));
    forall d: nat ensures Held(t, d) == Held(s, d) { }
    forall d: nat | d != c ensures ClientOf(t, d) == ClientOf(s, d) { }
    assert Held(s, c) == {};
    forall a: nat, b: nat | a != b && ClientOf(t, a).Running? && t.clients[a].op.Create?
                            && ClientOf(t, b).Running? && t.clients[b].op.Create?
      ensures t.clients[a].op.f != t.clients[b].op.f
    {
      assert a != c ==> ClientOf(s, a).Running?;
      assert b != c ==> ClientOf(s, b).Running?;
    }
  }

  // A step that neither commits nor begins: client c is done running, or has
  // got one more answer.
  lemma FsMove(rank: Rank, who: Callers, s: System, t: System, c: nat)
    requires FsOk(rank, s.serial) && ClientsOk(rank, who, s) && CreatesDistinct(s)
    requires t.serial == s.serial
    requires forall d: nat | d != c :: ClientOf(t, d) == ClientOf(s, d)
    requires ClientOf(t, c).Running? ==>
      && ClientOf(s, c).Running? && t.clients[c].op == s.clients[c].op
      && ClientOk(rank, who(c), s.serial, t.clients[c].op, t.clients[c].h)
    ensures FsOk(rank, t.serial) && ClientsOk(rank, who, t) && CreatesDistinct(t)
  {
    forall d: nat | ClientOf(t, d).Running?
      ensures ClientOk(rank, who(d), t.serial, t.clients[d].op, t.clients[d].h)
    {
      if d != c { assert ClientOf(s, d).Running?; }
    }
    forall a: nat, b: nat | a != b && ClientOf(t, a).Running? && t.clients[a].op.Create?
                            && ClientOf(t, b).Running? && t.clients[b].op.Create?
      ensures t.clients[a].op.f != t.clients[b].op.f
    {
      assert ClientOf(s, a).Running? && ClientOf(s, b).Running?;
      assert s.clients[a].op.f != s.clients[b].op.f;
    }
  }

  // Unlocking and ending touch neither the store nor a running client.
  lemma FsRelease(rank: Rank, who: Callers, s0: Store, s: System, st: Step)
    requires FsInv(rank, who, s0, s) && Enabled(s, st) && (st.Unlock? || st.End?)
    ensures FsInv(rank, who, s0, Apply(who, s, st))
  {
    var t := Apply(who, s, st);
    SerialProof.StepKeeps(who, s0, s, st);
    FsMove(rank, who, s, t, st.c);
    forall d: nat | ClientOf(t, d).Running?
      ensures d != st.c && ClientOf(t, d) == ClientOf(s, d) && Held(t, d) == Held(s, d) { }
  }

  // What a lock step changes: its client's locks and answers.
  ghost predicate Locked(s: System, t: System, c: nat, op: Op, h: seq<Answer>, id: nat) {
    && t.serial == s.serial && t.store == s.store
    && ClientOf(s, c) == Running(op, h) && ClientOf(t, c) == Running(op, h + [Granted])
    && Held(t, c) == Held(s, c) + {id} && !InFlight(s, id)
    && (forall d: nat | d != c :: Held(t, d) == Held(s, d) && ClientOf(t, d) == ClientOf(s, d))
  }

  lemma LockFrame(who: Callers, s: System, c: nat)
    requires Enabled(s, Micro(c)) && Next(s.clients[c].op, s.clients[c].h).Lock?
    ensures Locked(s, Apply(who, s, Micro(c)), c, s.clients[c].op, s.clients[c].h,
                   Next(s.clients[c].op, s.clients[c].h).id)
  {
    var t := Apply(who, s, Micro(c));
    assert Held(t, c) == Held(s, c) + {Next(s.clients[c].op, s.clients[c].h).id};
    forall d: nat | d != c ensures Held(t, d) == Held(s, d) && ClientOf(t, d) == ClientOf(s, d) { }
  }

  lemma FsLock(rank: Rank, who: Callers, s0: Store, s: System, c: nat)
    requires FsInv(rank, who, s0, s) && Enabled(s, Micro(c)) && Next(s.clients[c].op, s.clients[c].h).Lock?
    ensures FsInv(rank, who, s0, Apply(who, s, Micro(c)))
  {
    var t := Apply(who, s, Micro(c));
    var op, h := s.clients[c].op, s.clients[c].h;
    var id := Next(op, h).id;
    assert Locked(s, t, c, op, h, id) by { LockFrame(who, s, c); }
    assert Look(s.store, id) == Look(s.serial, id);
    assert Inv(who, s0, t) by { SerialProof.StepKeeps(who, s0, s, Micro(c)); }
    FsLocked(rank, who, s, t, c, op, h, id);
  }

  lemma FsLocked(rank: Rank, who: Callers, s: System, t: System, c: nat, op: Op, h: seq<Answer>, id: nat)
    requires FsOk(rank, s.serial) && ClientsOk(rank, who, s) && CreatesDistinct(s) && ParentSeen(s) && Present(s)
    requires Locked(s, t, c, op, h, id) && Next(op, h) == Lock(id) && Look(s.store, id) == Look(s.serial, id)
    ensures FsOk(rank, t.serial) && ClientsOk(rank, who, t) && CreatesDistinct(t) && ParentSeen(t) && Present(t)
  {
    assert ClientOk(rank, who(c), s.serial, op, h + [Granted]) by {
      assert ClientOk(rank, who(c), s.serial, op, h);
    }
    FsMove(rank, who, s, t, c);
    LockLeaves(s, t, c, id);
  }

  lemma LockLeaves(s: System, t: System, c: nat, id: nat)
    requires ParentSeen(s) && Present(s) && t.serial == s.serial && t.store == s.store
    requires Look(s.store, id) == Look(s.serial, id)
    requires ClientOf(s, c).Running? && ClientOf(t, c) == Running(s.clients[c].op, s.clients[c].h + [Granted])
    requires Next(s.clients[c].op, s.clients[c].h) == Lock(id)
    requires Held(t, c) == Held(s, c) + {id}
    requires forall d: nat | d != c :: Held(t, d) == Held(s, d) && ClientOf(t, d) == ClientOf(s, d)
    ensures ParentSeen(t) && Present(t)
  {
    forall d: nat | ClientOf(t, d).Running? && Searching(t.clients[d].op, t.clients[d].h)
      ensures Look(t.store, t.clients[d].op.p) == Look(t.serial, t.clients[d].op.p)
    {
      if d != c { assert ClientOf(s, d).Running?; }
    }
    forall d: nat, j: nat | ClientOf(t, d).Running? && j in Held(t, d) && j in t.serial
                            && !Removing(t.clients[d].op, t.clients[d].h, j)
      ensures j in t.store
    {
      if d == c && j == id {
        assert Look(s.store, id) == Look(s.serial, id);
      } else {
        assert ClientOf(s, d).Running? && j in Held(s, d);
        assert !Removing(s.clients[d].op, s.clients[d].h, j);
      }
    }
  }

  // The answer to a search read is the serial directory's.
  lemma AnswerOk(rank: Rank, w: Caller, s: System, op: Op, h: seq<Answer>)
    requires ClientOk(rank, w, s.serial, op, h) && Next(op, h).Call?
    requires Searching(op, h) ==> Clear(s.serial, op) && Look(s.store, op.p) == Look(s.serial, op.p)
    ensures ClientOk(rank, w, s.serial, op, h + [Serve(w, s.store, Next(op, h).id, Next(op, h).rq).0])
  {
  }

  // What a call changes: one extent held by its client, and that client's answers.
  ghost predicate Called(w: Caller, s: System, t: System, c: nat, op: Op, h: seq<Answer>)
    requires Next(op, h).Call?
  {
    var Call(id, rq) := Next(op, h);
    && t.serial == s.serial
    && ClientOf(s, c) == Running(op, h)
    && ClientOf(t, c) == Running(op, h + [Serve(w, s.store, id, rq).0])
    && t.store == Serve(w, s.store, id, rq).1
    && (forall d: nat :: Held(t, d) == Held(s, d))
    && (forall d: nat | d != c :: ClientOf(t, d) == ClientOf(s, d) && id !in Held(s, d))
  }

  lemma CallFrame(who: Callers, s: System, c: nat)
    requires LocksOk(s) && Enabled(s, Micro(c)) && Next(s.clients[c].op, s.clients[c].h).Call?
    ensures Called(who(c), s, Apply(who, s, Micro(c)), c, s.clients[c].op, s.clients[c].h)
  {
    var t := Apply(who, s, Micro(c));
    var op, h := s.clients[c].op, s.clients[c].h;
    TouchesLockedOnly(op, h);
    assert Next(op, h).id in Held(s, c);
    forall d: nat ensures Held(t, d) == Held(s, d) { }
  }

  lemma FsCall(rank: Rank, who: Callers, s0: Store, s: System, c: nat)
    requires FsInv(rank, who, s0, s) && Enabled(s, Micro(c)) && StepOk(rank, s, Micro(c))
    requires Next(s.clients[c].op, s.clients[c].h).Call?
    ensures FsInv(rank, who, s0, Apply(who, s, Micro(c)))
  {
    var t := Apply(who, s, Micro(c));
    var op, h := s.clients[c].op, s.clients[c].h;
    assert Called(who(c), s, t, c, op, h) by { CallFrame(who, s, c); }
    assert Inv(who, s0, t) by { SerialProof.StepKeeps(who, s0, s, Micro(c)); }
    FsCalled(rank, who, s, t, c, op, h);
  }

  // The child an unlink found is listed in its parent, and ranked after it.
  lemma UnlinkChild(rank: Rank, w: Caller, serial: Store, op: Op, h: seq<Answer>)
    requires FsOk(rank, serial) && ClientOk(rank, w, serial, op, h)
    requires op.Unlink? && |h| >= 2 && !Missing(h[1]) && !Denied(h[1]) && UnlinkText(Text(h[1]), op.name).Removed?
    ensures var f := UnlinkText(Text(h[1]), op.name).inum;
      (exists k :: Lists(serial, op.p, k, f)) && rank(op.p) < rank(f) && f != op.p
  {
    var es := EntriesOf(serial[op.p]);
    assert DirOk(serial[op.p]);
    UnlinkAgreesIff(es, op.name);
    assert Listed(es, op.name);
    assert Lists(serial, op.p, Position(es, op.name), UnlinkText(Text(h[1]), op.name).inum);
  }

  lemma CallSees(w: Caller, s: System, t: System, c: nat, op: Op, h: seq<Answer>)
    requires ParentSeen(s) && LocksOk(s) && Next(op, h).Call? && Called(w, s, t, c, op, h)
    ensures ParentSeen(t)
  {
    forall d: nat | ClientOf(t, d).Running? && Searching(t.clients[d].op, t.clients[d].h)
      ensures Look(t.store, t.clients[d].op.p) == Look(t.serial, t.clients[d].op.p)
    {
      assert d != c;
      assert ClientOf(s, d).Running?;
      SearcherHolds(t.clients[d].op, t.clients[d].h);
    }
  }

  // A call takes away no extent but the one an unlink removes.
  lemma CallLeaves(w: Caller, s: System, t: System, c: nat, op: Op, h: seq<Answer>)
    requires Present(s) && Next(op, h).Call? && Called(w, s, t, c, op, h)
    requires Next(op, h).rq.Remove? ==> op.Unlink? && |h| == 4 && Next(op, h).id != op.p
    ensures Present(t)
  {
    var Call(id, rq) := Next(op, h);
    forall d: nat, j: nat | ClientOf(t, d).Running? && j in Held(t, d) && j in t.serial
                            && !Removing(t.clients[d].op, t.clients[d].h, j)
      ensures j in t.store
    {
      assert ClientOf(s, d).Running? && j in Held(s, d);
      if d == c {
        assert !Removing(op, h, j);
        assert j in s.store;
      } else {
        assert j != id;
      }
    }
  }

  lemma OnlyUnlinkRemoves(op: Op, h: seq<Answer>)
    requires Next(op, h).Call? && Next(op, h).rq.Remove?
    ensures op.Unlink? && |h| == 4 && !Missing(h[1]) && !Denied(h[1])
    ensures UnlinkText(Text(h[1]), op.name).Removed? && Next(op, h).id == UnlinkText(Text(h[1]), op.name).inum
  {
  }

  lemma CallKeepsPresent(rank: Rank, w: Caller, s: System, t: System, c: nat, op: Op, h: seq<Answer>)
    requires FsOk(rank, s.serial) && ClientOk(rank, w, s.serial, op, h) && Present(s)
    requires Next(op, h).Call? && Called(w, s, t, c, op, h)
    ensures Present(t)
  {
    if Next(op, h).rq.Remove? {
      OnlyUnlinkRemoves(op, h);
      UnlinkChild(rank, w, s.serial, op, h);
    }
    CallLeaves(w, s, t, c, op, h);
  }

  lemma CallKeepsClients(rank: Rank, who: Callers, s: System, t: System, c: nat, op: Op, h: seq<Answer>)
    requires FsOk(rank, s.serial) && ClientsOk(rank, who, s) && CreatesDistinct(s) && ParentSeen(s)
    requires Next(op, h).Call? && Called(who(c), s, t, c, op, h)
    requires Searching(op, h) ==> Clear(s.serial, op)
    ensures FsOk(rank, t.serial) && ClientsOk(rank, who, t) && CreatesDistinct(t)
  {
    assert ClientOk(rank, who(c), s.serial, op, h);
    AnswerOk(rank, who(c), s, op, h);
    FsMove(rank, who, s, t, c);
  }

  lemma FsCalled(rank: Rank, who: Callers, s: System, t: System, c: nat, op: Op, h: seq<Answer>)
    requires FsOk(rank, s.serial) && ClientsOk(rank, who, s) && CreatesDistinct(s)
    requires ParentSeen(s) && Present(s) && LocksOk(s)
    requires Next(op, h).Call? && Called(who(c), s, t, c, op, h)
    requires Searching(op, h) ==> Clear(s.serial, op)
    ensures FsOk(rank, t.serial) && ClientsOk(rank, who, t) && CreatesDistinct(t) && ParentSeen(t) && Present(t)
  {
    assert ClientOk(rank, who(c), s.serial, op, h);
    CallKeepsClients(rank, who, s, t, c, op, h);
    CallSees(who(c), s, t, c, op, h);
    CallKeepsPresent(rank, who(c), s, t, c, op, h);
  }

  // The commit: everything the other operations rely on is still there.
  lemma FsFinish(rank: Rank, who: Callers, s0: Store, s: System, c: nat)
    requires FsInv(rank, who, s0, s) && Enabled(s, Micro(c)) && Next(s.clients[c].op, s.clients[c].h).Finish?
    ensures FsInv(rank, who, s0, Apply(who, s, Micro(c)))
  {
    var t := Apply(who, s, Micro(c));
    var op, h := s.clients[c].op, s.clients[c].h;
    SerialProof.StepKeeps(who, s0, s, Micro(c));
    assert ClientOf(s, c).Running?;
    TrackEnds(who(c), s.serial, s.store, Held(s, c), op, h, Next(op, h).r);
    ClearAtEnd(rank, who(c), s.serial, op, h);
    OperationKeepsFs(rank, who(c), op, s.serial);
    forall d: nat ensures Held(t, d) == Held(s, d) { }
    forall d: nat | ClientOf(t, d).Running? ensures d != c && ClientOf(t, d) == ClientOf(s, d) { }
    forall d: nat, j: nat | d != c && j in Held(s, d) ensures Look(t.serial, j) == Look(s.serial, j) {
      OverlayLook(s.serial, s.store, Held(s, c), j);
      assert j !in Held(s, c);
    }
    forall d: nat | ClientOf(t, d).Running?
      ensures ClientOk(rank, who(d), t.serial, t.clients[d].op, t.clients[d].h)
    {
      CommitOk(rank, who(c), who(d), s, t, c, d, op);
    }
    CommitLeaves(s, t, c);
  }

  lemma CommitOk(rank: Rank, wc: Caller, wd: Caller, s: System, t: System, c: nat, d: nat, op: Op)
    requires FsOk(rank, s.serial) && OpOk(rank, op) && Clear(s.serial, op) && CreatesDistinct(s) && LocksOk(s)
    requires c != d && ClientOf(s, c).Running? && s.clients[c].op == op && ClientOf(s, d).Running?
    requires ClientOk(rank, wd, s.serial, s.clients[d].op, s.clients[d].h)
    requires t.serial == RunAlone(wc, op, s.serial).1
    requires forall j: nat | j in Held(s, d) :: Look(t.serial, j) == Look(s.serial, j)
    ensures ClientOk(rank, wd, t.serial, s.clients[d].op, s.clients[d].h)
  {
    var od, hd := s.clients[d].op, s.clients[d].h;
    if od.Create? { FreshSurvives(rank, wc, op, s.serial, od.f); }
    if (od.Lookup? || od.Unlink?) && |hd| >= 2 {
      SearcherHolds(od, hd);
      ClearDependsOnParent(s.serial, t.serial, od);
    }
  }

  lemma CommitLeaves(s: System, t: System, c: nat)
    requires ParentSeen(s) && Present(s) && LocksOk(s) && CreatesDistinct(s) && t.store == s.store
    requires forall d: nat :: Held(t, d) == Held(s, d)
    requires forall d: nat | ClientOf(t, d).Running? :: d != c && ClientOf(t, d) == ClientOf(s, d)
    requires forall d: nat, j: nat | d != c && j in Held(s, d) :: Look(t.serial, j) == Look(s.serial, j)
    ensures ParentSeen(t) && Present(t) && CreatesDistinct(t)
  {
    forall d: nat | ClientOf(t, d).Running? && Searching(t.clients[d].op, t.clients[d].h)
      ensures Look(t.store, t.clients[d].op.p) == Look(t.serial, t.clients[d].op.p)
    {
      assert ClientOf(s, d).Running?;
      SearcherHolds(t.clients[d].op, t.clients[d].h);
      assert t.clients[d].op.p in Held(s, d);
    }
    forall d: nat, j: nat | ClientOf(t, d).Running? && j in Held(t, d) && j in t.serial
                            && !Removing(t.clients[d].op, t.clients[d].h, j)
      ensures j in t.store
    {
      assert j in Held(s, d) && Look(t.serial, j) == Look(s.serial, j);
    }
    forall a: nat, b: nat | a != b && ClientOf(t, a).Running? && t.clients[a].op.Create?
                            && ClientOf(t, b).Running? && t.clients[b].op.Create?
      ensures t.clients[a].op.f != t.clients[b].op.f
    {
      assert ClientOf(s, a).Running? && ClientOf(s, b).Running?;
    }
  }

  lemma FsStep(rank: Rank, who: Callers, s0: Store, s: System, st: Step)
    requires FsInv(rank, who, s0, s) && Enabled(s, st) && StepOk(rank, s, st)
    ensures FsInv(rank, who, s0, Apply(who, s, st))
  {
    match st
    case Begin(c, op) => FsBegin(rank, who, s0, s, c, op);
    case Micro(c) =>
      match Next(s.clients[c].op, s.clients[c].h) {
        case Lock(_) => FsLock(rank, who, s0, s, c);
        case Call(_, _) => FsCall(rank, who, s0, s, c);
        case Finish(_) => FsFinish(rank, who, s0, s, c);
      }
    case Unlock(_, _) => FsRelease(rank, who, s0, s, st);
    case End(_) => FsRelease(rank, who, s0, s, st);
  }

  lemma {:induction false} FsRunKeeps(rank: Rank, who: Callers, s0: Store, steps: seq<Step>, states: seq<System>,
                                       i: nat)
    requires FsRun(rank, who, s0, steps, states) && i < |states|
    ensures FsInv(rank, who, s0, states[i])
  {
    if i == 0 {
      StartOk(who, s0);
    } else {
      FsRunKeeps(rank, who, s0, steps, states, i - 1);
      assert StepOk(rank, states[i - 1], steps[i - 1]);
      FsStep(rank, who, s0, states[i - 1], steps[i - 1]);
    }
  }

  // ---- the file system at every moment ----

  // In every reachable state, a directory no unfinished operation has locked
  // is well formed, and every inum it lists has an extent, is ranked after it,
  // and is listed by no other such directory nor twice by this one.
  lemma FreeDirectoriesAreSound(rank: Rank, who: Callers, s0: Store, steps: seq<Step>, states: seq<System>,
                                k: nat, d: nat)
    requires FsRun(rank, who, s0, steps, states) && k < |states|
    requires d in states[k].store && IsDir(d) && !InFlight(states[k], d)
    ensures DirOk(states[k].store[d])
    ensures forall i: nat, n: nat | Lists(states[k].store, d, i, n) :: n in states[k].store && rank(d) < rank(n)
    ensures forall i: nat, n: nat, d': nat, i': nat |
      Lists(states[k].store, d, i, n) && Lists(states[k].store, d', i', n) && !InFlight(states[k], d') ::
      d == d' && i == i'
  {
    var s := states[k];
    FsRunKeeps(rank, who, s0, steps, states, k);
    assert Look(s.store, d) == Look(s.serial, d);
    forall i: nat, n: nat | Lists(s.store, d, i, n) ensures n in s.store && rank(d) < rank(n) {
      assert Lists(s.serial, d, i, n);
      ListedIsPresent(rank, who, s0, s, d, i, n);
    }
    forall i: nat, n: nat, d': nat, i': nat | Lists(s.store, d, i, n) && Lists(s.store, d', i', n) && !InFlight(s, d')
      ensures d == d' && i == i'
    {
      assert Look(s.store, d') == Look(s.serial, d');
      assert Lists(s.serial, d, i, n) && Lists(s.serial, d', i', n);
    }
  }

  // No dangling entry, not even for an instant: the extent of a listed inum
  // goes away only under the lock of the directory that lists it.
  lemma ListedIsPresent(rank: Rank, who: Callers, s0: Store, s: System, d: nat, i: nat, n: nat)
    requires FsInv(rank, who, s0, s) && Lists(s.serial, d, i, n) && !InFlight(s, d)
    ensures n in s.store
  {
    assert n in s.serial;
    if InFlight(s, n) {
      var c := s.locks[n];
      var op, h := s.clients[c].op, s.clients[c].h;
      assert n in Held(s, c);
      if Removing(op, h, n) {
        UnlinkHolds(rank, who(c), s, c, op, h, n);
      }
    } else {
      assert Look(s.store, n) == Look(s.serial, n);
    }
  }

  // An unlink that has removed an extent holds the directory that listed it.
  lemma UnlinkHolds(rank: Rank, w: Caller, s: System, c: nat, op: Op, h: seq<Answer>, n: nat)
    requires FsOk(rank, s.serial) && LocksOk(s)
    requires ClientOf(s, c) == Running(op, h) && ClientOk(rank, w, s.serial, op, h)
    requires Removing(op, h, n) && n in Held(s, c)
    ensures InFlight(s, op.p) && exists k: nat :: Lists(s.serial, op.p, k, n)
  {
    SearcherHolds(op, h);
    assert op.p in Held(s, c);
    UnlinkLocks(op, h);
    UnlinkChild(rank, w, s.serial, op, h);
  }

  // An unlink locks its parent and the child it found there, nothing else.
  lemma UnlinkLocks(op: Op, h: seq<Answer>)
    requires op.Unlink?
    ensures forall id | id in LocksTaken(op, h) ::
      id == op.p || (|h| >= 4 && !Missing(h[1]) && !Denied(h[1])
                     && UnlinkText(Text(h[1]), op.name).Removed? && UnlinkText(Text(h[1]), op.name).inum == id)
    decreases |h|
  {
    if h != [] {
      UnlinkLocks(op, h[..|h| - 1]);
    }
  }
}
