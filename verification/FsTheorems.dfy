// Consequences for whole runs: no deadlock, no lost directory update, at most
// one of two creates of a name.
module FsTheorems {
  import opened DirText
  import opened DirOps
  import opened Extents
  import opened FsProgram
  import opened FsMeaning
  import opened Serial
  import opened SerialProof
  import opened FsSystem

  // ---- deadlock ----

  // The client waits for a lock somebody holds.
  predicate Blocked(s: System, c: nat) {
    && ClientOf(s, c).Running?
    && Next(s.clients[c].op, s.clients[c].h).Lock?
    && Next(s.clients[c].op, s.clients[c].h).id in s.locks
  }

  function Target(s: System, c: nat): nat
    requires Blocked(s, c)
  {
    Next(s.clients[c].op, s.clients[c].h).id
  }

  lemma HeldByCreate(op: Op, h: seq<Answer>)
    requires op.Create? && |h| == 1
    ensures LocksTaken(op, h) == {op.p}
  {
    assert h[..0] == [];
    assert LocksTaken(op, h[..0]) == {};
    assert Next(op, h[..0]) == Lock(op.p);
  }

  // A lock is waited for first of all, or as the second of create or unlink.
  lemma WhenLocking(op: Op, h: seq<Answer>)
    requires Next(op, h).Lock?
    ensures h == [] || (op.Create? && |h| == 1 && Next(op, h).id == op.f) || (op.Unlink? && |h| == 3)
  {
  }

  // Locks are taken from parent to later-allocated child.
  lemma HeldBelowTarget(rank: Rank, who: Callers, s0: Store, s: System, c: nat)
    requires FsInv(rank, who, s0, s) && Blocked(s, c)
    ensures forall id | id in Held(s, c) :: rank(id) < rank(Target(s, c))
  {
    var op, h := s.clients[c].op, s.clients[c].h;
    assert ClientOf(s, c).Running?;
    assert Held(s, c) == LocksTaken(op, h);
    assert ClientOk(rank, who(c), s.serial, op, h);
    TakenBelowNext(rank, who(c), s.serial, op, h);
  }

  lemma TakenBelowNext(rank: Rank, w: Caller, serial: Store, op: Op, h: seq<Answer>)
    requires FsOk(rank, serial) && ClientOk(rank, w, serial, op, h) && Next(op, h).Lock?
    ensures forall id | id in LocksTaken(op, h) :: rank(id) < rank(Next(op, h).id)
  {
    WhenLocking(op, h);
    if op.Create? && |h| == 1 {
      HeldByCreate(op, h);
    } else if h != [] {
      UnlinkLocks(op, h);
      UnlinkChild(rank, w, serial, op, h);
    }
  }

  // Each client waits for a lock that the next one holds, and the last one for
  // a lock of the first.
  ghost predicate WaitCycle(s: System, cs: seq<nat>) {
    && |cs| > 0
    && forall i | 0 <= i < |cs| ::
      Blocked(s, cs[i]) && s.locks[Target(s, cs[i])] == cs[if i + 1 < |cs| then i + 1 else 0]
  }

  lemma {:induction false} TargetsRise(rank: Rank, who: Callers, s0: Store, s: System, cs: seq<nat>, i: nat)
    requires FsInv(rank, who, s0, s) && WaitCycle(s, cs) && i < |cs|
    ensures rank(Target(s, cs[0])) + i <= rank(Target(s, cs[i]))
  {
    if i > 0 {
      TargetsRise(rank, who, s0, s, cs, i - 1);
      assert Blocked(s, cs[i - 1]) && Blocked(s, cs[i]);
      assert Target(s, cs[i - 1]) in Held(s, cs[i]);
      HeldBelowTarget(rank, who, s0, s, cs[i]);
    }
  }

  // No reachable state has a cycle of waiting clients, a client waiting for
  // itself included.
  lemma NoWaitCycle(rank: Rank, who: Callers, s0: Store, steps: seq<Step>, states: seq<System>, k: nat, cs: seq<nat>)
    requires FsRun(rank, who, s0, steps, states) && k < |states|
    ensures !WaitCycle(states[k], cs)
  {
    var s := states[k];
    FsRunKeeps(rank, who, s0, steps, states, k);
    if WaitCycle(s, cs) {
      var last := |cs| - 1;
      TargetsRise(rank, who, s0, s, cs, last);
      assert Blocked(s, cs[last]) && Blocked(s, cs[0]);
      assert Target(s, cs[last]) in Held(s, cs[0]);
      HeldBelowTarget(rank, who, s0, s, cs[0]);
    }
  }

  lemma {:induction false} HighestTarget(rank: Rank, s: System, cs: set<nat>) returns (m: nat)
    requires cs != {} && forall c | c in cs :: Blocked(s, c)
    ensures m in cs && forall c | c in cs :: rank(Target(s, c)) <= rank(Target(s, m))
    decreases |cs|
  {
    var c :| c in cs;
    var rest := cs - {c};
    if rest == {} {
      m := c;
      assert cs == {c};
    } else {
      m := HighestTarget(rank, s, rest);
      if rank(Target(s, m)) < rank(Target(s, c)) { m := c; }
    }
  }

  // As long as a client has an operation or a lock, some client can take its
  // next step: the system never stands still.
  lemma NeverStuck(rank: Rank, who: Callers, s0: Store, steps: seq<Step>, states: seq<System>, k: nat, c: nat)
    requires FsRun(rank, who, s0, steps, states) && k < |states| && !ClientOf(states[k], c).Idle?
    ensures exists st: Step :: !st.Begin? && Enabled(states[k], st)
  {
    var s := states[k];
    FsRunKeeps(rank, who, s0, steps, states, k);
    var busy := set d | d in s.clients && !s.clients[d].Idle?;
    assert c in busy;
    if d :| d in busy && !Blocked(s, d) {
      Unblocked(s, d);
    } else {
      var m := HighestTarget(rank, s, busy);
      var owner := s.locks[Target(s, m)];
      assert Target(s, m) in Held(s, owner);
      assert owner in busy;
      HeldBelowTarget(rank, who, s0, s, owner);
      assert false;
    }
  }

  lemma Unblocked(s: System, d: nat)
    requires d in s.clients && !s.clients[d].Idle? && !Blocked(s, d)
    ensures exists st: Step :: !st.Begin? && Enabled(s, st)
  {
    if s.clients[d].Running? {
      assert Enabled(s, Micro(d));
    } else if Held(s, d) == {} {
      assert Enabled(s, End(d));
    } else {
      var id :| id in Held(s, d);
      assert Enabled(s, Unlock(d, id));
    }
  }

  // ---- the order of allocation is such a ranking ----

  function Mentions(op: Op): set<nat> {
    match op
    case Lookup(p, _) => {p}
    case Create(p, f, _, _, _, _) => {p, f}
    case Readdir(p) => {p}
    case Unlink(p, _) => {p}
    case Read(f, _, _) => {f}
    case Write(f, _, _) => {f}
    case Truncate(f, _) => {f}
    case Chmod(f, _) => {f}
  }

  predicate Creates(st: Step, f: nat) {
    st.Begin? && st.op.Create? && st.op.f == f
  }

  // Position of the first create of f, counted from 1; 0 if there is none.
  function AllocTime(steps: seq<Step>, f: nat): nat {
    if steps == [] then 0
    else if Creates(steps[0], f) then 1
    else
      var t := AllocTime(steps[1..], f);
      if t == 0 then 0 else t + 1
  }

  const ROOT: nat := 1

  // The inum a create picks has never been used by an earlier operation, nor
  // is it the root's or the parent's.
  ghost predicate InumsNew(steps: seq<Step>) {
    forall j | 0 <= j < |steps| && steps[j].Begin? && steps[j].op.Create? ::
      && steps[j].op.f != ROOT && steps[j].op.f != steps[j].op.p
      && forall i | 0 <= i < j && steps[i].Begin? :: steps[j].op.f !in Mentions(steps[i].op)
  }

  lemma {:induction false} AllocTimeSpec(steps: seq<Step>, f: nat)
    ensures AllocTime(steps, f) <= |steps|
    ensures AllocTime(steps, f) > 0 ==> Creates(steps[AllocTime(steps, f) - 1], f)
    ensures forall i | 0 <= i < |steps| && Creates(steps[i], f) :: 0 < AllocTime(steps, f) <= i + 1
  {
    if steps != [] && !Creates(steps[0], f) {
      AllocTimeSpec(steps[1..], f);
      forall i | 0 <= i < |steps| && Creates(steps[i], f) ensures 0 < AllocTime(steps, f) <= i + 1 {
        assert steps[i] == steps[1..][i - 1];
      }
    }
  }

  lemma NotBefore(steps: seq<Step>, j: nat)
    requires InumsNew(steps) && j < |steps| && steps[j].Begin? && steps[j].op.Create?
    ensures forall i | 0 <= i < j :: !Creates(steps[i], steps[j].op.f)
  {
    forall i | 0 <= i < j ensures !Creates(steps[i], steps[j].op.f) {
      assert steps[i].Begin? ==> steps[j].op.f !in Mentions(steps[i].op);
    }
  }

  lemma FirstCreate(steps: seq<Step>, j: nat)
    requires InumsNew(steps) && j < |steps| && steps[j].Begin? && steps[j].op.Create?
    ensures AllocTime(steps, steps[j].op.f) == j + 1
  {
    AllocTimeSpec(steps, steps[j].op.f);
    assert Creates(steps[j], steps[j].op.f);
    NotBefore(steps, j);
  }

  lemma NoLaterCreate(steps: seq<Step>, j: nat, p: nat)
    requires InumsNew(steps) && j < |steps| && steps[j].Begin? && steps[j].op.Create? && p == steps[j].op.p
    ensures AllocTime(steps, p) <= j
  {
    AllocTimeSpec(steps, p);
    assert p in Mentions(steps[j].op);
    forall q | j <= q < |steps| ensures !Creates(steps[q], p) {
      assert q > j && steps[q].Begin? && steps[q].op.Create? ==> steps[q].op.f !in Mentions(steps[j].op);
    }
  }

  // If no create reuses an inum, every directory is allocated before its children.
  lemma AllocationOrderRanks(steps: seq<Step>, j: nat)
    requires InumsNew(steps) && j < |steps| && steps[j].Begin? && steps[j].op.Create?
    ensures AllocTime(steps, steps[j].op.p) < AllocTime(steps, steps[j].op.f)
  {
    FirstCreate(steps, j);
    NoLaterCreate(steps, j, steps[j].op.p);
  }

  // ---- runs that only promise new inums ----

  // A store the server starts with: an empty root directory.
  function InitialStore(uid: nat, gid: nat): Store {
    map[ROOT := Extent("", NEW_MODE, uid, gid)]
  }

  // Nothing here speaks of ranks or of what the store holds, but that searched
  // names are not mistaken for inums.
  ghost predicate Promised(steps: seq<Step>, states: seq<System>)
    requires |states| == |steps| + 1
  {
    && InumsNew(steps)
    && forall i | 0 <= i < |steps| ::
      (steps[i].Begin? ==> Sane(steps[i].op)) && (steps[i].Micro? ==> SearchOk(states[i], steps[i].c))
  }

  ghost function AllocRank(steps: seq<Step>): Rank {
    (f: nat) => AllocTime(steps, f)
  }

  lemma EmptyRoot(rank: Rank, uid: nat, gid: nat)
    ensures FsOk(rank, InitialStore(uid, gid)) && forall f: nat | f != ROOT :: Fresh(InitialStore(uid, gid), f)
  {
    var s := InitialStore(uid, gid);
    EntriesOfEncoded(s[ROOT], []);
    assert s[ROOT].content == Encode([]);
  }

  // An inum that nothing lists and no create under way picks stays so until a
  // create begins that picks it.
  lemma UnusedStays(rank: Rank, who: Callers, s0: Store, s: System, st: Step, f: nat)
    requires FsInv(rank, who, s0, s) && Enabled(s, st) && StepOk(rank, s, st) && Unused(s, f) && !Creates(st, f)
    ensures Unused(Apply(who, s, st), f)
  {
    var t := Apply(who, s, st);
    if st.Micro? && Next(s.clients[st.c].op, s.clients[st.c].h).Finish? {
      assert ClientOf(s, st.c).Running?;
      ClearAtEnd(rank, who(st.c), s.serial, s.clients[st.c].op, s.clients[st.c].h);
      FreshSurvives(rank, who(st.c), s.clients[st.c].op, s.serial, f);
    }
    forall c: nat | ClientOf(t, c).Running? && t.clients[c].op.Create? ensures t.clients[c].op.f != f {
      assert ClientOf(s, c).Running? || st == Begin(c, t.clients[c].op);
    }
  }

  lemma {:induction false} PromisedStep(who: Callers, uid: nat, gid: nat, steps: seq<Step>, states: seq<System>, k: nat)
    requires IsRun(who, InitialStore(uid, gid), steps, states) && Promised(steps, states) && k < |states|
    ensures FsInv(AllocRank(steps), who, InitialStore(uid, gid), states[k])
    ensures k < |steps| ==> StepOk(AllocRank(steps), states[k], steps[k])
    ensures forall f: nat | f != ROOT && (forall i | 0 <= i < k :: !Creates(steps[i], f)) :: Unused(states[k], f)
  {
    var rank, s0 := AllocRank(steps), InitialStore(uid, gid);
    EmptyRoot(rank, uid, gid);
    if k == 0 {
      StartOk(who, s0);
    } else {
      PromisedStep(who, uid, gid, steps, states, k - 1);
      var s, st := states[k - 1], steps[k - 1];
      FsStep(rank, who, s0, s, st);
      forall f: nat | f != ROOT && (forall i | 0 <= i < k :: !Creates(steps[i], f)) ensures Unused(states[k], f) {
        UnusedStays(rank, who, s0, s, st, f);
      }
    }
    if k < |steps| && steps[k].Begin? && steps[k].op.Create? {
      AllocationOrderRanks(steps, k);
      NotBefore(steps, k);
    }
  }

  // From the server's first store, any run whose creates pick new inums meets all
  // that the theorems here ask of a run: the order of allocation is the ranking.
  lemma NewInumsSuffice(who: Callers, uid: nat, gid: nat, steps: seq<Step>, states: seq<System>)
    requires IsRun(who, InitialStore(uid, gid), steps, states) && Promised(steps, states)
    ensures FsRun(AllocRank(steps), who, InitialStore(uid, gid), steps, states)
  {
    EmptyRoot(AllocRank(steps), uid, gid);
    forall i | 0 <= i < |steps| ensures StepOk(AllocRank(steps), states[i], steps[i]) {
      PromisedStep(who, uid, gid, steps, states, i);
    }
  }

  // ---- the log as a history of directory edits ----

  ghost predicate FsLog(rank: Rank, who: Callers, s0: Store, log: seq<Committed>) {
    && FsOk(rank, s0)
    && forall i | 0 <= i < |log| :: OpOk(rank, log[i].op) && Clear(Replay(who, s0, log[..i]), log[i].op)
  }

  lemma FsLogStep(rank: Rank, who: Callers, s0: Store, s: System, st: Step)
    requires FsInv(rank, who, s0, s) && FsLog(rank, who, s0, s.log) && Enabled(s, st)
    ensures FsLog(rank, who, s0, Apply(who, s, st).log)
  {
    LogStep(who, s, st);
    var log := Apply(who, s, st).log;
    if log != s.log {
      var op, h := s.clients[st.c].op, s.clients[st.c].h;
      assert ClientOf(s, st.c).Running?;
      assert Next(op, h).Finish?;
      ClearAtEnd(rank, who(st.c), s.serial, op, h);
      forall i | 0 <= i < |log| ensures OpOk(rank, log[i].op) && Clear(Replay(who, s0, log[..i]), log[i].op) {
        assert log[..i] == s.log[..i];
        if i == |s.log| { assert s.log[..i] == s.log; }
      }
    }
  }

  lemma {:induction false} FsLogRun(rank: Rank, who: Callers, s0: Store, steps: seq<Step>, states: seq<System>, k: nat)
    requires FsRun(rank, who, s0, steps, states) && k < |states|
    ensures FsLog(rank, who, s0, states[k].log)
  {
    if k > 0 {
      FsLogRun(rank, who, s0, steps, states, k - 1);
      FsRunKeeps(rank, who, s0, steps, states, k - 1);
      FsLogStep(rank, who, s0, states[k - 1], steps[k - 1]);
    }
  }

  lemma {:induction false} ReplayFsOk(rank: Rank, who: Callers, s0: Store, log: seq<Committed>, i: nat)
    requires FsLog(rank, who, s0, log) && i <= |log|
    ensures FsOk(rank, Replay(who, s0, log[..i]))
    decreases i
  {
    if i > 0 {
      ReplayFsOk(rank, who, s0, log, i - 1);
      assert log[..i][..i - 1] == log[..i - 1];
      OperationKeepsFs(rank, who(log[i - 1].c), log[i - 1].op, Replay(who, s0, log[..i - 1]));
    }
  }

  // The directory p, if there, lists entry e.
  ghost predicate Keeps(s: Store, p: nat, e: Entry) {
    p in s ==> e in EntriesOf(s[p])
  }

  // Operations that may take entry e out of p: unlink it, or make p anew.
  predicate Drops(op: Op, p: nat, name: string) {
    (op.Unlink? && op.p == p && op.name == name) || (op.Create? && op.f == p)
  }

  lemma EntryStaysCreate(rank: Rank, w: Caller, op: Op, s: Store, p: nat, e: Entry)
    requires op.Create? && FsOk(rank, s) && OpOk(rank, op) && Clear(s, op) && IsDir(p)
    requires Keeps(s, p, e) && op.f != p
    ensures Keeps(RunAlone(w, op, s).1, p, e)
  {
    CreateAllOrNothing(w, op, s);
    if RunAlone(w, op, s).0 == Ok && op.p == p {
      EntriesOfEncoded(s[p], EntriesOf(s[p]) + [Entry(op.name, op.f)]);
    }
  }

  lemma EntryStaysUnlink(rank: Rank, w: Caller, op: Op, s: Store, p: nat, e: Entry)
    requires op.Unlink? && FsOk(rank, s) && OpOk(rank, op) && Clear(s, op) && IsDir(p)
    requires Keeps(s, p, e) && !(op.p == p && op.name == e.name)
    ensures Keeps(RunAlone(w, op, s).1, p, e)
  {
    if UnlinkEdits(w, op, s) {
      UnlinkChanges(rank, w, op, s);
      EntrySpared(rank, w, op, s, UnlinkLeaves(w, op, s), p, e);
    } else {
      UnlinkLeavesAlone(rank, w, op, s);
    }
  }

  lemma EntrySpared(rank: Rank, w: Caller, op: Op, s: Store, t: Store, p: nat, e: Entry)
    requires op.Unlink? && FsOk(rank, s) && OpOk(rank, op) && UnlinkEdits(w, op, s) && t == UnlinkLeaves(w, op, s)
    requires Keeps(s, p, e) && !(op.p == p && op.name == e.name)
    ensures Keeps(t, p, e)
  {
    var es, k := EntriesOf(s[op.p]), Position(EntriesOf(s[op.p]), op.name);
    assert DirOk(s[op.p]);
    assert Lists(s, op.p, k, UnlinkTarget(op, s));
    if op.p == p {
      RemovalSpares(s[p], es, k, e);
    }
  }

  lemma EntryStays(rank: Rank, w: Caller, op: Op, s: Store, p: nat, e: Entry)
    requires FsOk(rank, s) && OpOk(rank, op) && Clear(s, op) && IsDir(p)
    requires Keeps(s, p, e) && !Drops(op, p, e.name)
    ensures Keeps(RunAlone(w, op, s).1, p, e)
  {
    if op.Create? {
      EntryStaysCreate(rank, w, op, s, p, e);
    } else if op.Unlink? {
      EntryStaysUnlink(rank, w, op, s, p, e);
    } else {
      OthersKeepDirsFrom(rank, w, op, [], s);
    }
  }

  lemma RemovalSpares(x: Extent, es: seq<Entry>, k: nat, e: Entry)
    requires GoodDir(es) && k < |es| && e in es && e != es[k]
    ensures e in EntriesOf(x.(content := Encode(RemoveAt(es, k))))
  {
    RemoveKeepsGood(es, k);
    EntriesOfEncoded(x, RemoveAt(es, k));
    var i :| 0 <= i < |es| && es[i] == e;
    assert RemoveAt(es, k)[if i < k then i else i - 1] == e;
  }

  // Entry i of the log is a successful create of `name` in p.
  predicate CreatedAt(log: seq<Committed>, i: nat, p: nat, f: nat, name: string) {
    i < |log| && log[i].r == Ok && log[i].op.Create? && log[i].op.p == p && log[i].op.f == f && log[i].op.name == name
  }

  lemma CreateLists(w: Caller, op: Op, s: Store)
    requires op.Create? && op.f !in s && RunAlone(w, op, s).0 == Ok
    requires op.p in s ==> DirOk(s[op.p]) && SlashFree(op.name) && op.f < INUM_LIMIT
    ensures Keeps(RunAlone(w, op, s).1, op.p, Entry(op.name, op.f))
    ensures op.p in s && !Listed(EntriesOf(s[op.p]), op.name)
  {
    CreateAllOrNothing(w, op, s);
    if op.p != op.f { EntriesOfEncoded(s[op.p], EntriesOf(s[op.p]) + [Entry(op.name, op.f)]); }
  }

  // The store in which log entry i ran, and what was promised of it.
  lemma AtEntry(rank: Rank, who: Callers, s0: Store, log: seq<Committed>, i: nat)
    requires FsLog(rank, who, s0, log) && i < |log|
    ensures FsOk(rank, Replay(who, s0, log[..i]))
    ensures OpOk(rank, log[i].op) && Clear(Replay(who, s0, log[..i]), log[i].op)
    ensures Replay(who, s0, log[..i + 1]) == RunAlone(who(log[i].c), log[i].op, Replay(who, s0, log[..i])).1
  {
    ReplayFsOk(rank, who, s0, log, i);
    assert log[..i + 1][..i] == log[..i];
  }

  lemma CreatedLists(rank: Rank, who: Callers, s0: Store, log: seq<Committed>, i: nat, p: nat, f: nat, name: string)
    requires FsLog(rank, who, s0, log) && Legal(who, s0, log) && CreatedAt(log, i, p, f, name)
    ensures IsDir(p) && Keeps(Replay(who, s0, log[..i + 1]), p, Entry(name, f))
    ensures p in Replay(who, s0, log[..i]) && !Listed(EntriesOf(Replay(who, s0, log[..i])[p]), name)
  {
    AtEntry(rank, who, s0, log, i);
    CreateLists(who(log[i].c), log[i].op, Replay(who, s0, log[..i]));
  }

  lemma {:induction false} CreatedStays(rank: Rank, who: Callers, s0: Store, log: seq<Committed>, i: nat, j: nat,
                                        p: nat, f: nat, name: string)
    requires FsLog(rank, who, s0, log) && Legal(who, s0, log) && CreatedAt(log, i, p, f, name) && i < j <= |log|
    requires forall k | i < k < j :: !Drops(log[k].op, p, name)
    ensures Keeps(Replay(who, s0, log[..j]), p, Entry(name, f))
    decreases j
  {
    CreatedLists(rank, who, s0, log, i, p, f, name);
    if i < j - 1 {
      CreatedStays(rank, who, s0, log, i, j - 1, p, f, name);
      AtEntry(rank, who, s0, log, j - 1);
      EntryStays(rank, who(log[j - 1].c), log[j - 1].op, Replay(who, s0, log[..j - 1]), p, Entry(name, f));
    }
  }

  // No directory update is lost: in every reachable state, an entry whose
  // create has answered OK is listed, with its inum, unless an unlink of that
  // name in that directory, or a create of the directory itself, came after.
  lemma NoUpdateLost(rank: Rank, who: Callers, s0: Store, steps: seq<Step>, states: seq<System>, n: nat,
                     i: nat, p: nat, f: nat, name: string)
    requires FsRun(rank, who, s0, steps, states) && n < |states|
    requires CreatedAt(states[n].log, i, p, f, name)
    requires forall k | i < k < |states[n].log| :: !Drops(states[n].log[k].op, p, name)
    requires p in states[n].store && !InFlight(states[n], p)
    ensures Entry(name, f) in EntriesOf(states[n].store[p])
  {
    var log := states[n].log;
    FsLogRun(rank, who, s0, steps, states, n);
    Serializable(who, s0, steps, states, n);
    CreatedStays(rank, who, s0, log, i, |log|, p, f, name);
    assert log[..|log|] == log;
    assert Look(states[n].store, p) == Look(Replay(who, s0, log), p);
  }

  // Of two creates of one name in one directory, however they interleave, at
  // most one answers OK unless such a drop came between.
  lemma AtMostOneCreateSucceeds(rank: Rank, who: Callers, s0: Store, steps: seq<Step>, states: seq<System>, n: nat,
                                i: nat, j: nat, p: nat, f: nat, g: nat, name: string)
    requires FsRun(rank, who, s0, steps, states) && n < |states|
    requires i < j && CreatedAt(states[n].log, i, p, f, name) && CreatedAt(states[n].log, j, p, g, name)
    ensures exists k :: i < k < j && Drops(states[n].log[k].op, p, name)
  {
    var log := states[n].log;
    FsLogRun(rank, who, s0, steps, states, n);
    Serializable(who, s0, steps, states, n);
    CreatedLists(rank, who, s0, log, j, p, g, name);
    UnlistedAbsent(EntriesOf(Replay(who, s0, log[..j])[p]), Entry(name, f));
    if forall k | i < k < j :: !Drops(log[k].op, p, name) {
      CreatedStays(rank, who, s0, log, i, j, p, f, name);
    }
  }

  lemma UnlistedAbsent(es: seq<Entry>, e: Entry)
    requires !Listed(es, e.name)
    ensures e !in es
  {
    forall i | 0 <= i < |es| ensures es[i] != e {
      assert es[i].name != e.name;
    }
  }
}
