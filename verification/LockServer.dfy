// The lock server: one mutex, and per lock a flag and a condition variable.
//
// The mutex is held from one pthread_cond_wait to the next, so the atomic steps
// are the stretches of acquire and release between waits.  A waiting thread is
// `blocked` until a signal or a spurious wakeup makes it `woken`; a woken thread
// still has to get the mutex, and another thread may barge in before it does.
module LockServer {

  // A thread of a client: the client and the number of the call it makes.
  type Thread = (nat, nat)
  type LockId = nat

  // lock_entry
  datatype Entry = Entry(locked: bool, blocked: set<Thread>, woken: set<Thread>)

  // `holders` is history: who was granted a lock and has not released it since.
  datatype State = State(locks: map<LockId, Entry>, holders: map<LockId, set<Thread>>)

  datatype Step =
    | Acquire(t: Thread, lid: LockId)
    | Wake(t: Thread, lid: LockId)             // return of cond_wait, loop test
    | Spurious(t: Thread, lid: LockId)
    | Release(t: Thread, lid: LockId, signalled: set<Thread>)

  function EntryOf(locks: map<LockId, Entry>, lid: LockId): Entry {
    if lid in locks then locks[lid] else Entry(false, {}, {})
  }

  function HoldersOf(s: State, lid: LockId): set<Thread> {
    if lid in s.holders then s.holders[lid] else {}
  }

  ghost predicate Waiting(s: State, t: Thread) {
    exists lid :: lid in s.locks && t in s.locks[lid].blocked + s.locks[lid].woken
  }

  // A signal wakes at least one of the blocked threads, if there is any.
  predicate SignalOk(e: Entry, signalled: set<Thread>) {
    signalled <= e.blocked && (e.blocked != {} ==> signalled != {})
  }

  // ---- the atomic stretches ----

  function AcquireStart(locks: map<LockId, Entry>, t: Thread, lid: LockId): (r: (map<LockId, Entry>, bool)) {
    if lid !in locks then (locks[lid := Entry(true, {}, {})], true)
    else LoopTest(locks, t, lid)
  }

  // The loop test: wait while locked, otherwise take the lock.
  function LoopTest(locks: map<LockId, Entry>, t: Thread, lid: LockId): (r: (map<LockId, Entry>, bool)) {
    var e := EntryOf(locks, lid);
    if e.locked then (locks[lid := e.(blocked := e.blocked + {t})], false)
    else (locks[lid := e.(locked := true)], true)
  }

  function Resume(locks: map<LockId, Entry>, t: Thread, lid: LockId): (r: (map<LockId, Entry>, bool)) {
    var e := EntryOf(locks, lid);
    LoopTest(locks[lid := e.(woken := e.woken - {t})], t, lid)
  }

  function ReleaseAll(locks: map<LockId, Entry>, lid: LockId, signalled: set<Thread>): map<LockId, Entry> {
    var e := EntryOf(locks, lid);
    locks[lid := Entry(false, e.blocked - signalled, e.woken + signalled)]
  }

  function WakeUp(locks: map<LockId, Entry>, t: Thread, lid: LockId): map<LockId, Entry> {
    var e := EntryOf(locks, lid);
    locks[lid := e.(blocked := e.blocked - {t}, woken := e.woken + {t})]
  }

  // ---- the class, one method per stretch ----

  class Table {
    var locks: map<LockId, Entry>

    constructor ()
      ensures locks == map[]
    {
      locks := map[];
    }

    method StartAcquire(t: Thread, lid: LockId) returns (granted: bool)
      modifies this
      ensures (locks, granted) == AcquireStart(old(locks), t, lid)
    {
      if lid !in locks {
        locks := locks[lid := Entry(true, {}, {})];
        return true;
      }
      granted := TestLoop(t, lid);
    }

    method TestLoop(t: Thread, lid: LockId) returns (granted: bool)
      requires lid in locks
      modifies this
      ensures (locks, granted) == LoopTest(old(locks), t, lid)
    {
      if locks[lid].locked {
        locks := locks[lid := locks[lid].(blocked := locks[lid].blocked + {t})];
        return false;
      }
      locks := locks[lid := locks[lid].(locked := true)];
      granted := true;
    }

    method AfterWait(t: Thread, lid: LockId) returns (granted: bool)
      requires lid in locks && t in locks[lid].woken
      modifies this
      ensures (locks, granted) == Resume(old(locks), t, lid)
    {
      locks := locks[lid := locks[lid].(woken := locks[lid].woken - {t})];
      granted := TestLoop(t, lid);
    }

    // operator[] creates a missing entry, unlocked.
    method ReleaseLock(lid: LockId, signalled: set<Thread>)
      requires SignalOk(EntryOf(locks, lid), signalled)
      modifies this
      ensures locks == ReleaseAll(old(locks), lid, signalled)
    {
      if lid !in locks {
        locks := locks[lid := Entry(false, {}, {})];
      }
      locks := locks[lid := locks[lid].(locked := false)];
      locks := locks[lid := locks[lid].(blocked := locks[lid].blocked - signalled,
                                                   woken := locks[lid].woken + signalled)];
    }
  }

  // ---- runs ----

  // What the program allows; release does not look at its caller.
  ghost predicate Enabled(s: State, st: Step) {
    match st
    case Acquire(t, lid) => !Waiting(s, t)
    case Wake(t, lid) => lid in s.locks && t in s.locks[lid].woken
    case Spurious(t, lid) => lid in s.locks && t in s.locks[lid].blocked
    case Release(t, lid, signalled) => !Waiting(s, t) && SignalOk(EntryOf(s.locks, lid), signalled)
  }

  // What ServerScopedLock together with at-most-once delivery adds: only a
  // holder releases.
  ghost predicate Disciplined(s: State, st: Step) {
    st.Release? ==> st.t in HoldersOf(s, st.lid)
  }

  function Granted(s: State, r: (map<LockId, Entry>, bool), t: Thread, lid: LockId): State {
    State(r.0, if r.1 then s.holders[lid := HoldersOf(s, lid) + {t}] else s.holders)
  }

  function Apply(s: State, st: Step): State {
    match st
    case Acquire(t, lid) => Granted(s, AcquireStart(s.locks, t, lid), t, lid)
    case Wake(t, lid) => Granted(s, Resume(s.locks, t, lid), t, lid)
    case Spurious(t, lid) => s.(locks := WakeUp(s.locks, t, lid))
    case Release(t, lid, signalled) =>
      State(ReleaseAll(s.locks, lid, signalled), s.holders[lid := HoldersOf(s, lid) - {t}])
  }

  // What one step does to the waiters and holders of each lock.

  function Waiters(s: State, lid: LockId): set<Thread> {
    EntryOf(s.locks, lid).blocked + EntryOf(s.locks, lid).woken
  }

  predicate Apart(s: State, lid: LockId) {
    EntryOf(s.locks, lid).blocked !! EntryOf(s.locks, lid).woken
  }

  predicate Grants(s: State, st: Step) {
    match st
    case Acquire(t, lid) => AcquireStart(s.locks, t, lid).1
    case Wake(t, lid) => Resume(s.locks, t, lid).1
    case _ => false
  }

  lemma WaitersMove(s: State, st: Step, lid: LockId)
    requires Enabled(s, st) && Apart(s, lid)
    ensures Apart(Apply(s, st), lid)
    ensures Waiters(Apply(s, st), lid) ==
            if lid == st.lid && st.Acquire? && !Grants(s, st) then Waiters(s, lid) + {st.t}
            else if lid == st.lid && st.Wake? && Grants(s, st) then Waiters(s, lid) - {st.t}
            else Waiters(s, lid)
  {
    if lid in s.locks && st.Acquire? { assert st.t !in s.locks[lid].blocked + s.locks[lid].woken; }
  }

  lemma HoldersMove(s: State, st: Step, lid: LockId)
    ensures HoldersOf(Apply(s, st), lid) ==
            if lid == st.lid && Grants(s, st) then HoldersOf(s, lid) + {st.t}
            else if lid == st.lid && st.Release? then HoldersOf(s, lid) - {st.t}
            else HoldersOf(s, lid)
  {
  }

  // A release frees the lock and wakes whom the signal picks; everybody else stays
  // asleep, and so do all who wait for other locks.
  lemma ReleaseWakes(s: State, t: Thread, lid: LockId, signalled: set<Thread>, x: Thread, other: LockId)
    requires Enabled(s, Release(t, lid, signalled))
    ensures var before, after := EntryOf(s.locks, lid), EntryOf(Apply(s, Release(t, lid, signalled)).locks, lid);
            && !after.locked
            && (x in after.blocked <==> x in before.blocked && x !in signalled)
            && (x in after.woken <==> x in before.woken || x in signalled)
    ensures other != lid ==> EntryOf(Apply(s, Release(t, lid, signalled)).locks, other) == EntryOf(s.locks, other)
  {
  }

  // A thread that wakes, with or without a signal, tries again: it has the lock if it
  // is free then, and sleeps on if not.
  lemma WokenRetries(s: State, t: Thread, lid: LockId)
    requires Enabled(s, Spurious(t, lid)) && t !in s.locks[lid].woken
    ensures var u := Apply(s, Spurious(t, lid));
            && Enabled(u, Wake(t, lid)) && u.holders == s.holders
            && (s.locks[lid].locked ==> Apply(u, Wake(t, lid)) == s)
            && (!s.locks[lid].locked ==>
                  var v := Apply(u, Wake(t, lid));
                  t in HoldersOf(v, lid) && v.locks[lid].locked && t !in Waiters(v, lid))
  {
    var e, u := s.locks[lid], Apply(s, Spurious(t, lid));
    assert u.locks[lid].woken - {t} == e.woken && u.locks[lid].blocked + {t} == e.blocked;
    if e.locked { assert Apply(u, Wake(t, lid)).locks[lid] == e; }
  }

  ghost predicate IsRun(steps: seq<Step>, states: seq<State>) {
    && |states| == |steps| + 1
    && states[0] == State(map[], map[])
    && forall i | 0 <= i < |steps| :: Enabled(states[i], steps[i]) && states[i + 1] == Apply(states[i], steps[i])
  }

  ghost predicate DisciplinedRun(steps: seq<Step>, states: seq<State>) {
    IsRun(steps, states) && forall i | 0 <= i < |steps| :: Disciplined(states[i], steps[i])
  }

  // ---- invariant ----

  ghost predicate Exclusive(holders: set<Thread>) {
    forall a, b | a in holders && b in holders :: a == b
  }

  ghost predicate LockOk(s: State, lid: LockId) {
    var e := EntryOf(s.locks, lid);
    && Exclusive(HoldersOf(s, lid))
    && (e.locked <==> HoldersOf(s, lid) != {})
    && (!e.locked && e.blocked != {} ==> e.woken != {})
  }

  ghost predicate Inv(s: State) {
    forall lid: LockId :: LockOk(s, lid)
  }

  lemma OtherLocks(s: State, st: Step, lid: LockId)
    requires lid != st.lid
    ensures EntryOf(Apply(s, st).locks, lid) == EntryOf(s.locks, lid)
    ensures HoldersOf(Apply(s, st), lid) == HoldersOf(s, lid)
  {
  }

  lemma StepKeeps(s: State, st: Step)
    requires Inv(s) && Enabled(s, st) && Disciplined(s, st)
    ensures Inv(Apply(s, st))
  {
    var t := Apply(s, st);
    forall lid: LockId ensures LockOk(t, lid) {
      assert LockOk(s, lid);
      if lid != st.lid {
        OtherLocks(s, st, lid);
      }
    }
  }

  lemma {:induction false} RunKeeps(steps: seq<Step>, states: seq<State>, i: nat)
    requires DisciplinedRun(steps, states) && i < |states|
    ensures Inv(states[i])
  {
    if i > 0 {
      RunKeeps(steps, states, i - 1);
      StepKeeps(states[i - 1], steps[i - 1]);
    }
  }

  // Over all interleavings, with barging and spurious wakeups, at most one
  // thread holds a lock.
  lemma MutualExclusion(steps: seq<Step>, states: seq<State>, i: nat, lid: LockId, a: Thread, b: Thread)
    requires DisciplinedRun(steps, states) && i < |states|
    requires a in HoldersOf(states[i], lid) && b in HoldersOf(states[i], lid)
    ensures a == b
  {
    RunKeeps(steps, states, i);
    assert LockOk(states[i], lid);
  }

  // A free lock with blocked waiters always has a woken one on its way, and
  // that thread's next stretch takes the lock unless another one barges in:
  // no wakeup is lost.
  lemma NoLostWakeup(steps: seq<Step>, states: seq<State>, i: nat, lid: LockId)
    requires DisciplinedRun(steps, states) && i < |states|
    requires HoldersOf(states[i], lid) == {} && EntryOf(states[i].locks, lid).blocked != {}
    ensures exists w :: w in EntryOf(states[i].locks, lid).woken && Enabled(states[i], Wake(w, lid))
                        && w in HoldersOf(Apply(states[i], Wake(w, lid)), lid)
  {
    RunKeeps(steps, states, i);
    assert LockOk(states[i], lid);
    var w :| w in EntryOf(states[i].locks, lid).woken;
    assert w in HoldersOf(Apply(states[i], Wake(w, lid)), lid);
  }

  // Seen from the clients, acquire is granted only on a lock nobody holds, and
  // only release frees it: the server is an ordinary lock.
  lemma StepIsLockStep(s: State, st: Step, lid: LockId)
    requires Inv(s) && Enabled(s, st) && Disciplined(s, st)
    ensures var before, after := HoldersOf(s, lid), HoldersOf(Apply(s, st), lid);
      || after == before
      || (before == {} && after == {st.t} && (st.Acquire? || st.Wake?) && st.lid == lid)
      || (before == {st.t} && after == {} && st.Release? && st.lid == lid)
  {
    assert LockOk(s, lid);
    if lid != st.lid { OtherLocks(s, st, lid); }
    if st.Release? && st.lid == lid {
      assert forall a | a in HoldersOf(s, lid) :: a == st.t;
      assert HoldersOf(s, lid) == {st.t};
    }
  }

  // Without the discipline, a release keeps the lock sound iff nobody but its
  // caller holds it.
  lemma ReleaseKeepsIff(s: State, t: Thread, lid: LockId, signalled: set<Thread>)
    requires Inv(s) && Enabled(s, Release(t, lid, signalled))
    ensures Inv(Apply(s, Release(t, lid, signalled))) <==> HoldersOf(s, lid) <= {t}
  {
    var st := Release(t, lid, signalled);
    var s' := Apply(s, st);
    assert LockOk(s, lid);
    if HoldersOf(s, lid) <= {t} {
      forall l: LockId ensures LockOk(s', l) {
        assert LockOk(s, l);
        if l != lid { OtherLocks(s, st, l); }
      }
    } else {
      var h :| h in HoldersOf(s, lid) && h != t;
      assert h in HoldersOf(s', lid);
      assert !LockOk(s', lid);
    }
  }

  // A release delivered twice lets two threads into one lock.
  lemma DuplicateReleaseBreaksExclusion(lid: LockId) returns (steps: seq<Step>, states: seq<State>)
    ensures IsRun(steps, states)
    ensures !Exclusive(HoldersOf(states[|states| - 1], lid))
    ensures forall i | 0 <= i < |steps| && i != 3 :: Disciplined(states[i], steps[i])
    ensures |steps| > 3 && steps[3] == steps[1] && steps[1].Release?
  {
    var a, b, c := (1, 1), (2, 1), (3, 1);
    steps := [Acquire(a, lid), Release(a, lid, {}), Acquire(b, lid), Release(a, lid, {}), Acquire(c, lid)];
    var s0 := State(map[], map[]);
    var s1 := Apply(s0, steps[0]);
    var s2 := Apply(s1, steps[1]);
    var s3 := Apply(s2, steps[2]);
    var s4 := Apply(s3, steps[3]);
    var s5 := Apply(s4, steps[4]);
    states := [s0, s1, s2, s3, s4, s5];
    assert HoldersOf(s1, lid) == {a};
    assert b in HoldersOf(s3, lid);
    assert b in HoldersOf(s5, lid) && c in HoldersOf(s5, lid);
  }
}
