// Operations end: clients left alone come to rest after so many steps, whatever the
// schedule, and then every operation begun has been committed.
module FsProgress {
  import opened FsProgram
  import opened Extents
  import opened FsMeaning
  import opened Serial
  import opened SerialProof
  import opened FsSystem
  import FsTheorems

  // ---- the work that is left ----

  // Two units for each answer to come, one for releasing the locks.
  function Left(cl: Client): (n: nat)
    ensures n < 20
  {
    match cl
    case Idle => 0
    case Running(_, h) => 2 + if |h| < LONGEST then 2 * (LONGEST - |h|) else 0
    case Releasing(_) => 1
  }

  function Units(clients: map<nat, Client>): (r: set<(nat, nat)>)
    ensures forall u :: u in r <==> u.0 in clients && u.1 < Left(clients[u.0])
  {
    set c, i | c in clients && 0 <= i < 20 && i < Left(clients[c]) :: (c, i)
  }

  function Effort(s: System): nat {
    |Units(s.clients)| + |s.locks.Keys|
  }

  function Own(c: nat, n: nat): (r: set<(nat, nat)>)
    ensures forall u :: u in r <==> u.0 == c && u.1 < n
    ensures |r| == n
  {
    if n == 0 then {} else Own(c, n - 1) + {(c, n - 1)}
  }

  lemma UnitsApart(clients: map<nat, Client>, c: nat, cl: Client)
    ensures |Units(clients[c := cl])| == |Units(clients - {c})| + Left(cl)
  {
    var rest, own := Units(clients - {c}), Own(c, Left(cl));
    forall u ensures u in Units(clients[c := cl]) <==> u in rest || u in own {}
    assert Units(clients[c := cl]) == rest + own && rest !! own;
  }

  // A client with less to do takes its units with it.
  lemma UnitsFall(clients: map<nat, Client>, c: nat, cl: Client)
    requires c in clients
    ensures |Units(clients[c := cl])| + Left(clients[c]) == |Units(clients)| + Left(cl)
  {
    UnitsApart(clients, c, cl);
    UnitsApart(clients, c, clients[c]);
    assert clients[c := clients[c]] == clients;
  }

  lemma EffortFalls(who: Callers, s: System, st: Step)
    requires Enabled(s, st) && !st.Begin?
    ensures Effort(Apply(who, s, st)) < Effort(s)
  {
    match st
    case Micro(c) => MicroFalls(who, s, c);
    case Unlock(c, id) =>
      assert Apply(who, s, st).locks.Keys == s.locks.Keys - {id};
    case End(c) => UnitsFall(s.clients, c, Idle);
  }

  lemma MicroFalls(who: Callers, s: System, c: nat)
    requires Enabled(s, Micro(c))
    ensures Effort(Apply(who, s, Micro(c))) < Effort(s)
  {
    var op, h, t := s.clients[c].op, s.clients[c].h, Apply(who, s, Micro(c));
    MicroLeaves(who, s, c);
    UnitsFall(s.clients, c, t.clients[c]);
    if Next(op, h).Lock? { OneMoreLock(s.locks, Next(op, h).id, c); }
  }

  lemma OneMoreLock(locks: map<nat, nat>, id: nat, c: nat)
    ensures |locks[id := c].Keys| <= |locks.Keys| + 1
  {
    assert locks[id := c].Keys == locks.Keys + {id};
  }

  lemma MicroLeaves(who: Callers, s: System, c: nat)
    requires Enabled(s, Micro(c))
    ensures var t, a := Apply(who, s, Micro(c)), Next(s.clients[c].op, s.clients[c].h);
            && c in t.clients && t.clients == s.clients[c := t.clients[c]]
            && t.locks == (if a.Lock? then s.locks[a.id := c] else s.locks)
            && Left(t.clients[c]) <= Left(s.clients[c]) - if a.Finish? then 1 else 2
  {
    var op, h := s.clients[c].op, s.clients[c].h;
    if !Next(op, h).Finish? { Finishes'(op, h); }
  }

  // ---- whole runs ----

  lemma RunStep(who: Callers, s0: Store, steps: seq<Step>, states: seq<System>, k: nat)
    requires IsRun(who, s0, steps, states) && k < |steps|
    ensures Enabled(states[k], steps[k]) && states[k + 1] == Apply(who, states[k], steps[k])
  {
  }

  lemma EffortRunStep(who: Callers, s0: Store, steps: seq<Step>, states: seq<System>, k: nat)
    requires IsRun(who, s0, steps, states) && k < |steps| && !steps[k].Begin?
    ensures Effort(states[k + 1]) < Effort(states[k])
  {
    RunStep(who, s0, steps, states, k);
    EffortFalls(who, states[k], steps[k]);
  }

  // Each step but a begin takes away some effort.
  lemma EffortRuns(who: Callers, s0: Store, steps: seq<Step>, states: seq<System>, k: nat, m: nat)
    requires IsRun(who, s0, steps, states) && k <= m < |states|
    requires forall i | k <= i < m :: !steps[i].Begin?
    ensures m - k + Effort(states[m]) <= Effort(states[k])
  {
    var es := seq(|states|, i requires 0 <= i < |states| => Effort(states[i]));
    forall i | k <= i < m ensures es[i + 1] < es[i] {
      EffortRunStep(who, s0, steps, states, i);
    }
    FallsBy(es, k, m);
  }

  lemma {:induction false} FallsBy(es: seq<nat>, k: nat, m: nat)
    requires k <= m < |es| && forall i | k <= i < m :: es[i + 1] < es[i]
    ensures m - k + es[m] <= es[k]
    decreases m
  {
    if k < m { FallsBy(es, k, m - 1); }
  }

  lemma HolderIsBusy(s: System, id: nat)
    requires LocksOk(s) && id in s.locks
    ensures !ClientOf(s, s.locks[id]).Idle?
  {
    assert id in Held(s, s.locks[id]);
  }

  ghost predicate AtRest(s: System) {
    s.locks == map[] && forall c: nat :: ClientOf(s, c).Idle?
  }

  ghost predicate CanGoOn(s: System) {
    exists st: Step :: !st.Begin? && Enabled(s, st)
  }

  // However the clients are scheduled: once no operation begins any more, they take
  // no more steps than a number known beforehand, and they can take one as long as a
  // lock is held or a client is not idle.
  lemma OperationsEnd(rank: Rank, who: Callers, s0: Store, steps: seq<Step>, states: seq<System>, k: nat, m: nat)
    requires FsRun(rank, who, s0, steps, states) && k <= m < |states|
    requires forall i | k <= i < m :: !steps[i].Begin?
    ensures m - k <= Effort(states[k])
    ensures AtRest(states[m]) <==> !CanGoOn(states[m])
  {
    EffortRuns(who, s0, steps, states, k, m);
    var s := states[m];
    if c: nat :| !ClientOf(s, c).Idle? {
      FsTheorems.NeverStuck(rank, who, s0, steps, states, m, c);
    } else {
      FsRunKeeps(rank, who, s0, steps, states, m);
      if id :| id in s.locks {
        HolderIsBusy(s, id);
      }
    }
  }

  // ---- what was begun has been committed ----

  ghost predicate IsCommitted(log: seq<Committed>, from: nat, c: nat, op: Op) {
    exists i :: from <= i < |log| && log[i].c == c && log[i].op == op
  }

  lemma CommittedStays(who: Callers, s: System, st: Step, from: nat, c: nat, op: Op)
    requires Enabled(s, st) && IsCommitted(s.log, from, c, op)
    ensures IsCommitted(Apply(who, s, st).log, from, c, op)
  {
    LogStep(who, s, st);
    var i :| from <= i < |s.log| && s.log[i].c == c && s.log[i].op == op;
    assert Apply(who, s, st).log[i] == s.log[i];
  }

  lemma RunningOrCommitted(who: Callers, s: System, st: Step, from: nat, c: nat, op: Op)
    requires Enabled(s, st) && from <= |s.log| && ClientOf(s, c).Running? && ClientOf(s, c).op == op
    ensures var t := Apply(who, s, st);
            (ClientOf(t, c).Running? && ClientOf(t, c).op == op) || IsCommitted(t.log, from, c, op)
  {
    var t := Apply(who, s, st);
    if st.Micro? && st.c == c && Next(op, s.clients[c].h).Finish? {
      assert t.log[|s.log|].c == c && t.log[|s.log|].op == op;
    }
  }

  // From the step that begins it on, an operation is under way until it is in the
  // log: none is dropped.
  lemma {:induction false} BegunIsCommitted(who: Callers, s0: Store, steps: seq<Step>, states: seq<System>,
                                            k: nat, m: nat, c: nat, op: Op)
    requires IsRun(who, s0, steps, states) && k < m < |states| && steps[k] == Begin(c, op)
    ensures || (ClientOf(states[m], c).Running? && ClientOf(states[m], c).op == op)
            || IsCommitted(states[m].log, |states[k].log|, c, op)
    ensures |states[k].log| <= |states[m].log|
    decreases m
  {
    RunStep(who, s0, steps, states, m - 1);
    if m - 1 > k {
      BegunIsCommitted(who, s0, steps, states, k, m - 1, c, op);
      LogStep(who, states[m - 1], steps[m - 1]);
      if IsCommitted(states[m - 1].log, |states[k].log|, c, op) {
        CommittedStays(who, states[m - 1], steps[m - 1], |states[k].log|, c, op);
      } else {
        RunningOrCommitted(who, states[m - 1], steps[m - 1], |states[k].log|, c, op);
      }
    }
  }
}
