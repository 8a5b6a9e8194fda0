// The poll loop and the handshake by which a callback is removed for good.
module PollMgr {

  import opened SelectAio

  // Where the loop is: before taking the mutex, between releasing it and taking the
  // snapshot, inside select, calling the callbacks of the ready descriptors one
  // after another, or inside one of them.
  datatype Poller =
    | Top
    | Loose
    | Selecting(r: set<nat>, w: set<nat>)
    | Dispatching(rs: seq<nat>, ws: seq<nat>)
    | Calling(fd: nat, rs: seq<nat>, ws: seq<nat>)

  // A call of block_remove_fd: waiting, signalled by the loop, or returned, having
  // been signalled or not.  readded: fd was added again since the call began.
  datatype Stage = Waiting | Woken | Returned(signalled: bool)
  datatype Remover = Remover(fd: nat, stage: Stage, readded: bool)

  // r and w are the watched descriptors, pipe the bytes in the wake-up pipe.
  datatype Mgr = Mgr(r: set<nat>, w: set<nat>, pipe: nat, pending: bool, callbacks: map<nat, nat>,
                     poller: Poller, removers: map<nat, Remover>)

  function Start(): Mgr {
    Mgr({}, {}, 0, false, map[], Top, map[])
  }

  datatype Step =
    | Add(fd: nat, flag: Flag, ch: nat)
    | Del(fd: nat, flag: Flag)
    | Remove(t: nat, fd: nat)
    | RemoveEnd(t: nat)
    | Spurious(t: nat)
    | Announce
    | Snapshot
    | SelectReturns(readable: set<nat>, writable: set<nat>, high: nat, drained: bool)
    | NextCallback
    | CallbackEnds

  ghost predicate Enabled(s: Mgr, step: Step) {
    match step
    case Add(fd, _, ch) => fd in s.callbacks ==> s.callbacks[fd] == ch
    case Del(_, _) => true
    case Remove(t, _) => t !in s.removers
    case RemoveEnd(t) => t in s.removers && s.removers[t].stage == Woken
    case Spurious(t) => t in s.removers && s.removers[t].stage == Waiting
    case Announce => s.poller.Top?
    case Snapshot => s.poller.Loose?
    // select reports descriptors it was given; drained: the pipe was among the
    // ready ones and a byte is read from it.
    case SelectReturns(readable, writable, _, drained) =>
      s.poller.Selecting? && readable <= s.poller.r && writable <= s.poller.w && (drained ==> s.pipe > 0)
    case NextCallback => s.poller.Dispatching?
    case CallbackEnds => s.poller.Calling?
  }

  function Unwatch(s: Mgr, fd: nat, flag: Flag): Mgr {
    s.(r := if flag.Writing? then s.r else s.r - {fd}, w := if flag.Reading? then s.w else s.w - {fd},
       pipe := if flag.Both? then s.pipe + 1 else s.pipe)
  }

  function Readd(removers: map<nat, Remover>, fd: nat): map<nat, Remover> {
    map t | t in removers :: if removers[t].fd == fd then removers[t].(readded := true) else removers[t]
  }

  function WakeAll(removers: map<nat, Remover>): map<nat, Remover> {
    map t | t in removers :: if removers[t].stage == Waiting then removers[t].(stage := Woken) else removers[t]
  }

  function Apply(s: Mgr, step: Step): Mgr
    requires Enabled(s, step)
  {
    match step
    case Add(fd, flag, ch) =>
      s.(r := if flag.Writing? then s.r else s.r + {fd}, w := if flag.Reading? then s.w else s.w + {fd},
         pipe := s.pipe + 1, callbacks := s.callbacks[fd := ch], removers := Readd(s.removers, fd))
    case Del(fd, flag) =>
      var u := Unwatch(s, fd, flag);
      if fd !in u.r && fd !in u.w then u.(callbacks := u.callbacks - {fd}) else u
    case Remove(t, fd) =>
      Unwatch(s, fd, Both).(pending := true, removers := s.removers[t := Remover(fd, Waiting, false)])
    case RemoveEnd(t) =>
      s.(callbacks := s.callbacks - {s.removers[t].fd},
         removers := s.removers[t := s.removers[t].(stage := Returned(true))])
    case Spurious(t) =>
      s.(callbacks := s.callbacks - {s.removers[t].fd},
         removers := s.removers[t := s.removers[t].(stage := Returned(false))])
    case Announce =>
      if s.pending then s.(pending := false, removers := WakeAll(s.removers), poller := Loose)
      else s.(poller := Loose)
    case Snapshot => s.(poller := Selecting(s.r, s.w))
    case SelectReturns(readable, writable, high, drained) =>
      var rs, ws := Ascending(readable, high), Ascending(writable, high);
      s.(pipe := if drained then s.pipe - 1 else s.pipe,
         poller := if rs == [] && ws == [] then Top else Dispatching(rs, ws))
    case NextCallback =>
      var Dispatching(rs, ws) := s.poller;
      if rs != [] then
        s.(poller := if rs[0] in s.callbacks then Calling(rs[0], rs[1..], ws) else Dispatching(rs[1..], ws))
      else if ws != [] then
        s.(poller := if ws[0] in s.callbacks then Calling(ws[0], [], ws[1..]) else Dispatching([], ws[1..]))
      else s.(poller := Top)
    case CallbackEnds => s.(poller := Dispatching(s.poller.rs, s.poller.ws))
  }

  // Taking away one flag of fd keeps its callback exactly when fd is still watched
  // for the other; every other descriptor keeps everything.
  lemma DelKeepsOther(s: Mgr, fd: nat, flag: Flag, x: nat)
    ensures var t := Apply(s, Del(fd, flag));
            && (x != fd ==>
                  && (x in t.callbacks <==> x in s.callbacks) && (x in t.r <==> x in s.r) && (x in t.w <==> x in s.w))
            && (fd in t.callbacks <==>
                  fd in s.callbacks && ((flag == Reading && fd in s.w) || (flag == Writing && fd in s.r)))
            && (fd in t.r <==> fd in s.r && flag == Writing)
            && (fd in t.w <==> fd in s.w && flag == Reading)
            && forall c | c in t.callbacks :: t.callbacks[c] == s.callbacks[c]
  {
  }

  // After adding a callback fd is watched for the flag, and for what it was before.
  lemma AddWatches(s: Mgr, fd: nat, flag: Flag, ch: nat)
    requires Enabled(s, Add(fd, flag, ch))
    ensures var t := Apply(s, Add(fd, flag, ch));
            && t.callbacks == s.callbacks[fd := ch]
            && t.r == (if flag == Writing then s.r else s.r + {fd})
            && t.w == (if flag == Reading then s.w else s.w + {fd})
  {
  }

  // The ready descriptors are gone through in order, those to read from first, and
  // the callback of each is called if it has one.
  lemma NextInOrder(s: Mgr)
    requires Enabled(s, NextCallback)
    ensures var t, todo := Apply(s, NextCallback), s.poller.rs + s.poller.ws;
            && (todo == [] ==> t == s.(poller := Top))
            && (todo != [] ==>
                  && (t.poller == if todo[0] in s.callbacks then Calling(todo[0], t.poller.rs, t.poller.ws)
                                  else Dispatching(t.poller.rs, t.poller.ws))
                  && [todo[0]] + t.poller.rs + t.poller.ws == todo && |t.poller.ws| <= |s.poller.ws|
                  && (s.poller.rs != [] ==> t.poller.ws == s.poller.ws))
  {
    var Dispatching(rs, ws) := s.poller;
    if rs != [] {
      assert rs == [rs[0]] + rs[1..];
    } else if ws != [] {
      assert rs + ws == ws && ws == [ws[0]] + [] + ws[1..];
    }
  }

  // ---- what every step keeps ----

  ghost predicate Unwatched(s: Mgr, fd: nat) {
    fd !in s.r && fd !in s.w
  }

  // The loop has nothing of fd in hand.
  ghost predicate OutOfHand(p: Poller, fd: nat) {
    match p
    case Top => true
    case Loose => true
    case Selecting(r, w) => fd !in r && fd !in w
    case Dispatching(rs, ws) => fd !in rs && fd !in ws
    case Calling(f, rs, ws) => f != fd && fd !in rs && fd !in ws
  }

  // No callback of fd runs now or can start before fd is added again.
  ghost predicate Silent(s: Mgr, fd: nat) {
    Unwatched(s, fd) && OutOfHand(s.poller, fd)
  }

  ghost predicate RemoverOk(s: Mgr, r: Remover) {
    && (r.stage == Waiting ==> s.pending && (!r.readded ==> Unwatched(s, r.fd)))
    && ((r.stage == Woken || r.stage == Returned(true)) && !r.readded ==> Silent(s, r.fd))
  }

  ghost predicate Inv(s: Mgr) {
    && (forall t | t in s.removers :: RemoverOk(s, s.removers[t]))
    && (s.pending && (s.poller.Loose? || s.poller.Selecting?) ==> s.pipe > 0)
  }

  // Only adding fd ends its silence.
  lemma SilenceLasts(s: Mgr, step: Step, fd: nat)
    requires Enabled(s, step) && Silent(s, fd) && !(step.Add? && step.fd == fd)
    ensures Silent(Apply(s, step), fd)
  {
    match step
    case SelectReturns(readable, writable, high, drained) =>
      AscendingIs(readable, high);
      AscendingIs(writable, high);
    case _ =>
  }

  lemma UnwatchedLasts(s: Mgr, step: Step, fd: nat)
    requires Enabled(s, step) && Unwatched(s, fd) && !(step.Add? && step.fd == fd)
    ensures Unwatched(Apply(s, step), fd)
  {
  }

  lemma StepKeeps(s: Mgr, step: Step)
    requires Inv(s) && Enabled(s, step)
    ensures Inv(Apply(s, step))
  {
    var s1 := Apply(s, step);
    forall t | t in s1.removers ensures RemoverOk(s1, s1.removers[t]) {
      RemoverKeeps(s, step, t);
    }
  }

  lemma RemoverKeeps(s: Mgr, step: Step, t: nat)
    requires Inv(s) && Enabled(s, step) && t in Apply(s, step).removers
    ensures RemoverOk(Apply(s, step), Apply(s, step).removers[t])
  {
    if t in s.removers {
      var r := s.removers[t];
      assert RemoverOk(s, r);
      if !(step.Add? && step.fd == r.fd) {
        if Unwatched(s, r.fd) {
          UnwatchedLasts(s, step, r.fd);
        }
        if Silent(s, r.fd) {
          SilenceLasts(s, step, r.fd);
        }
      }
    }
  }

  // ---- whole runs ----

  ghost predicate Leads(s: Mgr, step: Step, t: Mgr) {
    Enabled(s, step) && t == Apply(s, step)
  }

  ghost predicate IsRun(ss: seq<Mgr>, steps: seq<Step>) {
    && |ss| == |steps| + 1 && ss[0] == Start()
    && forall i | 0 <= i < |steps| :: Leads(ss[i], steps[i], ss[i + 1])
  }

  lemma {:induction false} RunKeeps(ss: seq<Mgr>, steps: seq<Step>, i: nat)
    requires IsRun(ss, steps) && i < |ss|
    ensures Inv(ss[i])
  {
    if i > 0 {
      RunKeeps(ss, steps, i - 1);
      assert Leads(ss[i - 1], steps[i - 1], ss[i]);
      StepKeeps(ss[i - 1], steps[i - 1]);
    }
  }

  // From the state in which block_remove_fd has returned on the loop's signal, as
  // long as fd is not added again, no callback of fd is running or starts.
  lemma {:induction false} RemovedStaysSilent(ss: seq<Mgr>, steps: seq<Step>, t: nat, i: nat, j: nat)
    requires IsRun(ss, steps) && i <= j < |ss|
    requires t in ss[i].removers && ss[i].removers[t].stage == Returned(true) && !ss[i].removers[t].readded
    requires forall k | i <= k < j :: steps[k].Add? ==> steps[k].fd != ss[i].removers[t].fd
    ensures !(ss[j].poller.Calling? && ss[j].poller.fd == ss[i].removers[t].fd)
    ensures Silent(ss[j], ss[i].removers[t].fd)
    decreases j
  {
    if i == j {
      RunKeeps(ss, steps, i);
      assert RemoverOk(ss[i], ss[i].removers[t]);
    } else {
      RemovedStaysSilent(ss, steps, t, i, j - 1);
      assert Leads(ss[j - 1], steps[j - 1], ss[j]);
      SilenceLasts(ss[j - 1], steps[j - 1], ss[i].removers[t].fd);
    }
  }

  // ---- every return, signalled or not ----

  predicate Calls(p: Poller, fd: nat) {
    p.Calling? && p.fd == fd
  }

  // Neither watched nor registered: what both kinds of return leave behind.
  ghost predicate Detached(s: Mgr, fd: nat) {
    Unwatched(s, fd) && fd !in s.callbacks
  }

  // A callback of a detached descriptor may run on, but none starts.
  lemma DetachedStep(s: Mgr, step: Step, u: Mgr, fd: nat)
    requires Leads(s, step, u) && Detached(s, fd) && !(step.Add? && step.fd == fd)
    ensures Detached(u, fd) && (Calls(u.poller, fd) ==> Calls(s.poller, fd))
    ensures step == NextCallback ==> !Calls(u.poller, fd)
  {
  }

  lemma ReturnDetaches(s: Mgr, step: Step, t: nat)
    requires Inv(s) && Enabled(s, step) && (step == Spurious(t) || step == RemoveEnd(t)) && !s.removers[t].readded
    ensures Detached(Apply(s, step), s.removers[t].fd) && Apply(s, step).poller == s.poller
  {
    assert RemoverOk(s, s.removers[t]);
  }

  lemma RunLeads(ss: seq<Mgr>, steps: seq<Step>, i: nat)
    requires IsRun(ss, steps) && i < |steps|
    ensures Leads(ss[i], steps[i], ss[i + 1])
  {
  }

  lemma {:induction false} DetachedSince(ss: seq<Mgr>, steps: seq<Step>, fd: nat, i: nat, j: nat)
    requires IsRun(ss, steps) && i <= j < |ss| && Detached(ss[i], fd)
    requires forall k | i <= k < j :: steps[k].Add? ==> steps[k].fd != fd
    ensures Detached(ss[j], fd) && (Calls(ss[j].poller, fd) ==> Calls(ss[i].poller, fd))
    decreases j
  {
    if i < j {
      DetachedSince(ss, steps, fd, i, j - 1);
      RunLeads(ss, steps, j - 1);
      DetachedStep(ss[j - 1], steps[j - 1], ss[j], fd);
    }
  }

  // When block_remove_fd returns, on the loop's signal or spuriously, it keeps its
  // promise that no callback of fd runs any more, until fd is added again, if and
  // only if the loop is not in that callback at the moment of the return.
  lemma ReturnIsSafeIff(ss: seq<Mgr>, steps: seq<Step>, t: nat, i: nat, j: nat)
    requires IsRun(ss, steps) && i < j < |ss| && t in ss[i].removers && !ss[i].removers[t].readded
    requires steps[i] == Spurious(t) || steps[i] == RemoveEnd(t)
    requires forall k | i < k < j :: steps[k].Add? ==> steps[k].fd != ss[i].removers[t].fd
    ensures (forall k | i < k <= j :: !Calls(ss[k].poller, ss[i].removers[t].fd))
            <==> !Calls(ss[i].poller, ss[i].removers[t].fd)
  {
    var fd := ss[i].removers[t].fd;
    RunKeeps(ss, steps, i);
    assert Leads(ss[i], steps[i], ss[i + 1]);
    ReturnDetaches(ss[i], steps[i], t);
    forall k | i < k <= j ensures Calls(ss[k].poller, fd) ==> Calls(ss[i].poller, fd) {
      DetachedSince(ss, steps, fd, i + 1, k);
    }
    assert ss[i + 1].poller == ss[i].poller;
  }

  // Only that one call can be left: after any return none starts.
  lemma NoneStartsAfterReturn(ss: seq<Mgr>, steps: seq<Step>, t: nat, i: nat, j: nat)
    requires IsRun(ss, steps) && i < j < |steps| && t in ss[i].removers && !ss[i].removers[t].readded
    requires steps[i] == Spurious(t) || steps[i] == RemoveEnd(t)
    requires forall k | i < k < j :: steps[k].Add? ==> steps[k].fd != ss[i].removers[t].fd
    requires steps[j] == NextCallback
    ensures !Calls(ss[j + 1].poller, ss[i].removers[t].fd)
  {
    RunKeeps(ss, steps, i);
    assert Leads(ss[i], steps[i], ss[i + 1]);
    ReturnDetaches(ss[i], steps[i], t);
    DetachedSince(ss, steps, ss[i].removers[t].fd, i + 1, j);
    DetachedStep(ss[j], steps[j], ss[j + 1], ss[i].removers[t].fd);
  }

  // A call still waiting is never overlooked: the change is pending, and the loop
  // cannot sleep in select beside it, because the pipe is readable.
  lemma NoRemoverIsForgotten(ss: seq<Mgr>, steps: seq<Step>, i: nat, t: nat)
    requires IsRun(ss, steps) && i < |ss| && t in ss[i].removers && ss[i].removers[t].stage == Waiting
    ensures ss[i].pending && (ss[i].poller.Selecting? ==> ss[i].pipe > 0)
  {
    RunKeeps(ss, steps, i);
    assert RemoverOk(ss[i], ss[i].removers[t]);
  }

  ghost predicate Reachable(s: Mgr) {
    exists ss, steps :: IsRun(ss, steps) && ss[|ss| - 1] == s
  }

  lemma StepReaches(s: Mgr, step: Step)
    requires Reachable(s) && Enabled(s, step)
    ensures Reachable(Apply(s, step))
  {
    var ss, steps :| IsRun(ss, steps) && ss[|ss| - 1] == s;
    var ss1, steps1 := ss + [Apply(s, step)], steps + [step];
    forall i | 0 <= i < |steps1| ensures Leads(ss1[i], steps1[i], ss1[i + 1]) {
      if i < |steps| {
        assert Leads(ss[i], steps[i], ss[i + 1]);
      }
    }
    assert IsRun(ss1, steps1);
  }

  // The loop has found fd writable, and is about to call back.
  function InHand(fd: nat, ch: nat): Mgr {
    Mgr({}, {fd}, 0, false, map[fd := ch], Dispatching([], [fd]), map[])
  }

  lemma FoundWritable(fd: nat, ch: nat)
    ensures Reachable(InHand(fd, ch))
  {
    assert IsRun([Start()], []);
    StepReaches(Start(), Add(fd, Writing, ch));
    var s1 := Mgr({}, {fd}, 1, false, map[fd := ch], Top, map[]);
    assert s1 == Apply(Start(), Add(fd, Writing, ch));
    StepReaches(s1, Announce);
    StepReaches(s1.(poller := Loose), Snapshot);
    DispatchesOne(s1.(poller := Selecting({}, {fd})), fd);
  }

  lemma DispatchesOne(s: Mgr, fd: nat)
    requires Reachable(s) && s.poller == Selecting({}, {fd}) && s.pipe == 1
    ensures Reachable(s.(pipe := 0, poller := Dispatching([], [fd])))
  {
    var got := SelectReturns({}, {fd}, fd + 1, true);
    AscendingNone({fd}, fd);
    assert Ascending({fd}, fd + 1) == [fd];
    AscendingNone({}, fd + 1);
    assert Apply(s, got) == s.(pipe := 0, poller := Dispatching([], [fd]));
    StepReaches(s, got);
  }

  // Such a state is reachable: with block_remove_fd waiting, the writing callback
  // of the descriptor starts.
  lemma CallbackStartsBesideRemoval(fd: nat, ch: nat) returns (s: Mgr)
    ensures Reachable(s) && s.removers == map[0 := Remover(fd, Waiting, false)]
    ensures Enabled(s, NextCallback) && Apply(s, NextCallback).poller == Calling(fd, [], [])
  {
    FoundWritable(fd, ch);
    StepReaches(InHand(fd, ch), Remove(0, fd));
    s := Apply(InHand(fd, ch), Remove(0, fd));
    assert [fd][1..] == [];
  }

  // The callback of fd at work.
  function InCallback(fd: nat, ch: nat): Mgr {
    InHand(fd, ch).(poller := Calling(fd, [], []))
  }

  lemma CallbackRuns(fd: nat, ch: nat)
    ensures Reachable(InCallback(fd, ch))
  {
    FoundWritable(fd, ch);
    assert [fd][1..] == [];
    assert Apply(InHand(fd, ch), NextCallback) == InCallback(fd, ch);
    StepReaches(InHand(fd, ch), NextCallback);
  }

  // The wait has no loop around it: after a spurious wake-up block_remove_fd
  // returns while the callback of fd is still running.
  lemma SpuriousReturnIsTooEarly(fd: nat, ch: nat) returns (s: Mgr)
    ensures Reachable(s) && s.removers == map[0 := Remover(fd, Returned(false), false)]
    ensures s.poller.Calling? && s.poller.fd == fd
  {
    CallbackRuns(fd, ch);
    var s5 := InCallback(fd, ch);
    StepReaches(s5, Remove(0, fd));
    var s6 := Apply(s5, Remove(0, fd));
    StepReaches(s6, Spurious(0));
    s := Apply(s6, Spurious(0));
  }

  lemma {:induction false} AscendingNone(s: set<nat>, n: nat)
    requires forall x | x in s :: x >= n
    ensures Ascending(s, n) == []
  {
    if n > 0 {
      AscendingNone(s, n - 1);
    }
  }

  // ---- when a callback can still start ----

  // The next step starts the reading or the writing callback of fd.
  predicate Starts(s: Mgr, fd: nat, writing: bool) {
    && s.poller.Dispatching? && fd in s.callbacks
    && if writing then s.poller.rs == [] && s.poller.ws != [] && s.poller.ws[0] == fd
       else s.poller.rs != [] && s.poller.rs[0] == fd
  }

  // It can start within n steps, none of which adds fd.
  ghost predicate CanStart(s: Mgr, fd: nat, writing: bool, n: nat)
    decreases n
  {
    || Starts(s, fd, writing)
    || (n > 0 && exists step, u ::
          Leads(s, step, u) && !(step.Add? && step.fd == fd) && CanStart(u, fd, writing, n - 1))
  }

  // The loop may yet find fd ready, or has found it so.
  predicate InHandFor(p: Poller, fd: nat, writing: bool) {
    match p
    case Top => false
    case Loose => false
    case Selecting(r, w) => if writing then fd in w else fd in r
    case Dispatching(rs, ws) => if writing then fd in ws else fd in rs
    case Calling(_, rs, ws) => if writing then fd in ws else fd in rs
  }

  predicate MayStart(s: Mgr, fd: nat, writing: bool) {
    fd in s.callbacks && (InHandFor(s.poller, fd, writing) || if writing then fd in s.w else fd in s.r)
  }

  lemma CannotStartStep(s: Mgr, step: Step, fd: nat, writing: bool)
    requires Enabled(s, step) && !MayStart(s, fd, writing) && !(step.Add? && step.fd == fd)
    ensures !MayStart(Apply(s, step), fd, writing)
  {
    match step
    case SelectReturns(readable, writable, high, drained) =>
      AscendingIs(readable, high);
      AscendingIs(writable, high);
    case _ =>
  }

  lemma {:induction false} OnlyMayStart(s: Mgr, fd: nat, writing: bool, n: nat)
    requires CanStart(s, fd, writing, n)
    ensures MayStart(s, fd, writing)
    decreases n
  {
    if !Starts(s, fd, writing) {
      var step, u :| Leads(s, step, u) && !(step.Add? && step.fd == fd) && CanStart(u, fd, writing, n - 1);
      OnlyMayStart(u, fd, writing, n - 1);
      if !MayStart(s, fd, writing) {
        CannotStartStep(s, step, fd, writing);
      }
    }
  }

  lemma StartsAfter(s: Mgr, step: Step, fd: nat, writing: bool, n: nat)
    requires Enabled(s, step) && !(step.Add? && step.fd == fd) && CanStart(Apply(s, step), fd, writing, n)
    ensures CanStart(s, fd, writing, n + 1)
  {
    assert Leads(s, step, Apply(s, step));
  }

  // The loop, left to itself, works through what it has in hand.
  lemma {:induction false} DispatchReaches(s: Mgr, fd: nat, writing: bool) returns (n: nat)
    requires MayStart(s, fd, writing) && s.poller.Dispatching?
    ensures CanStart(s, fd, writing, n)
    decreases |s.poller.rs| + |s.poller.ws|, 1
  {
    var Dispatching(rs, ws) := s.poller;
    if Starts(s, fd, writing) {
      n := 0;
    } else if rs == [] && ws == [] {
      n := TopReaches(s.(poller := Top), fd, writing);
      StartsAfter(s, NextCallback, fd, writing, n);
      n := n + 1;
    } else {
      var u := Apply(s, NextCallback);
      assert rs != [] ==> rs == [rs[0]] + rs[1..];
      assert ws != [] ==> ws == [ws[0]] + ws[1..];
      if u.poller.Calling? {
        n := DispatchReaches(Apply(u, CallbackEnds), fd, writing);
        StartsAfter(u, CallbackEnds, fd, writing, n);
        n := n + 1;
      } else {
        n := DispatchReaches(u, fd, writing);
      }
      StartsAfter(s, NextCallback, fd, writing, n);
      n := n + 1;
    }
  }

  lemma SelectFinds(s: Mgr, fd: nat, writing: bool) returns (n: nat)
    requires fd in s.callbacks && s.poller.Selecting? && InHandFor(s.poller, fd, writing)
    ensures CanStart(s, fd, writing, n)
  {
    var readable, writable := if writing then {} else {fd}, if writing then {fd} else {};
    AscendingNone({fd}, fd);
    assert Ascending({fd}, fd + 1) == [fd];
    AscendingNone({}, fd + 1);
    var found := SelectReturns(readable, writable, fd + 1, false);
    n := 1;
    assert Starts(Apply(s, found), fd, writing);
    StartsAfter(s, found, fd, writing, 0);
  }

  lemma TopReaches(s: Mgr, fd: nat, writing: bool) returns (n: nat)
    requires fd in s.callbacks && s.poller.Top? && if writing then fd in s.w else fd in s.r
    ensures CanStart(s, fd, writing, n)
    decreases 0, 0
  {
    var s1 := Apply(s, Announce);
    n := LooseReaches(s1, fd, writing);
    StartsAfter(s, Announce, fd, writing, n);
    n := n + 1;
  }

  lemma LooseReaches(s: Mgr, fd: nat, writing: bool) returns (n: nat)
    requires fd in s.callbacks && s.poller.Loose? && if writing then fd in s.w else fd in s.r
    ensures CanStart(s, fd, writing, n)
  {
    n := SelectFinds(Apply(s, Snapshot), fd, writing);
    StartsAfter(s, Snapshot, fd, writing, n);
    n := n + 1;
  }

  lemma MayStartReaches(s: Mgr, fd: nat, writing: bool) returns (n: nat)
    requires MayStart(s, fd, writing)
    ensures CanStart(s, fd, writing, n)
  {
    match s.poller
    case Top => n := TopReaches(s, fd, writing);
    case Loose => n := LooseReaches(s, fd, writing);
    case Selecting(_, _) =>
      if InHandFor(s.poller, fd, writing) {
        n := SelectFinds(s, fd, writing);
      } else {
        var none := SelectReturns({}, {}, 0, false);
        n := TopReaches(Apply(s, none), fd, writing);
        StartsAfter(s, none, fd, writing, n);
        n := n + 1;
      }
    case Dispatching(_, _) => n := DispatchReaches(s, fd, writing);
    case Calling(_, _, _) =>
      n := DispatchReaches(Apply(s, CallbackEnds), fd, writing);
      StartsAfter(s, CallbackEnds, fd, writing, n);
      n := n + 1;
  }

  // From any state, and without adding fd: its callback can still start if and
  // only if one is registered and fd is watched or in the loop's hand.
  lemma CanStartIff(s: Mgr, fd: nat, writing: bool)
    ensures (exists n: nat :: CanStart(s, fd, writing, n)) <==> MayStart(s, fd, writing)
  {
    if n: nat :| CanStart(s, fd, writing, n) {
      OnlyMayStart(s, fd, writing, n);
    }
    if MayStart(s, fd, writing) {
      var n := MayStartReaches(s, fd, writing);
      assert CanStart(s, fd, writing, n);
    }
  }

  // While block_remove_fd waits: exactly the callbacks the loop has in hand.
  lemma StartsBesideRemovalIff(s: Mgr, t: nat, fd: nat, writing: bool)
    requires Enabled(s, Remove(t, fd))
    ensures (exists n: nat :: CanStart(Apply(s, Remove(t, fd)), fd, writing, n))
            <==> fd in s.callbacks && InHandFor(s.poller, fd, writing)
  {
    CanStartIff(Apply(s, Remove(t, fd)), fd, writing);
  }

  // ---- a removal can always return ----

  // The head of the loop signals every waiting removal when one is pending.
  lemma AnnounceWakes(s: Mgr)
    requires Enabled(s, Announce)
    ensures var t := Apply(s, Announce);
            && !t.pending && t.poller == Loose
            && (s.pending ==> forall r | r in t.removers :: t.removers[r].stage != Waiting)
            && (!s.pending ==> t.removers == s.removers)
            && t.r == s.r && t.w == s.w && t.callbacks == s.callbacks
  {
  }

  // The call t can return on the loop's signal within n steps of the loop and itself.
  ghost predicate CanReturn(s: Mgr, t: nat, n: nat)
    decreases n
  {
    || (t in s.removers && s.removers[t].stage == Returned(true))
    || (n > 0 && exists step, u :: Leads(s, step, u) && OfLoop(step, t) && CanReturn(u, t, n - 1))
  }

  predicate OfLoop(step: Step, t: nat) {
    step.Announce? || step.Snapshot? || step.SelectReturns? || step.NextCallback? || step.CallbackEnds?
    || step == RemoveEnd(t)
  }

  lemma ReturnsAfter(s: Mgr, step: Step, t: nat, n: nat)
    requires Enabled(s, step) && OfLoop(step, t) && CanReturn(Apply(s, step), t, n)
    ensures CanReturn(s, t, n + 1)
  {
    assert Leads(s, step, Apply(s, step));
  }

  lemma WokenReturns(s: Mgr, t: nat)
    requires t in s.removers && s.removers[t].stage == Woken
    ensures CanReturn(s, t, 1)
  {
    ReturnsAfter(s, RemoveEnd(t), t, 0);
  }

  lemma TopReturns(s: Mgr, t: nat)
    requires t in s.removers && s.removers[t].stage == Waiting && s.pending && s.poller.Top?
    ensures CanReturn(s, t, 2)
  {
    WokenReturns(Apply(s, Announce), t);
    ReturnsAfter(s, Announce, t, 1);
  }

  lemma {:induction false} DispatchReturns(s: Mgr, t: nat) returns (n: nat)
    requires t in s.removers && s.removers[t].stage == Waiting && s.pending && s.poller.Dispatching?
    ensures CanReturn(s, t, n)
    decreases |s.poller.rs| + |s.poller.ws|
  {
    var u := Apply(s, NextCallback);
    if u.poller.Top? {
      TopReturns(u, t);
      n := 2;
    } else if u.poller.Calling? {
      n := DispatchReturns(Apply(u, CallbackEnds), t);
      ReturnsAfter(u, CallbackEnds, t, n);
      n := n + 1;
    } else {
      n := DispatchReturns(u, t);
    }
    ReturnsAfter(s, NextCallback, t, n);
    n := n + 1;
  }

  // From every state of every run, a call of block_remove_fd that waits can return
  // on the loop's signal by steps of the loop alone, whatever select reports.
  lemma RemovalCanReturn(ss: seq<Mgr>, steps: seq<Step>, i: nat, t: nat) returns (n: nat)
    requires IsRun(ss, steps) && i < |ss| && t in ss[i].removers && ss[i].removers[t].stage == Waiting
    ensures CanReturn(ss[i], t, n)
  {
    NoRemoverIsForgotten(ss, steps, i, t);
    var s := ss[i];
    var none := SelectReturns({}, {}, 0, false);
    match s.poller
    case Top =>
      TopReturns(s, t);
      n := 2;
    case Loose =>
      var u := Apply(s, Snapshot);
      TopReturns(Apply(u, none), t);
      ReturnsAfter(u, none, t, 2);
      ReturnsAfter(s, Snapshot, t, 3);
      n := 4;
    case Selecting(_, _) =>
      TopReturns(Apply(s, none), t);
      ReturnsAfter(s, none, t, 2);
      n := 3;
    case Dispatching(_, _) => n := DispatchReturns(s, t);
    case Calling(_, _, _) =>
      n := DispatchReturns(Apply(s, CallbackEnds), t);
      ReturnsAfter(s, CallbackEnds, t, n);
      n := n + 1;
  }

  // ---- the object ----

  // The methods, each from taking the mutex to releasing it or to waiting.
  class Manager {
    const aio: SelectAio
    var callbacks: map<nat, nat>
    var pending: bool

    ghost var model: Mgr

    ghost predicate Valid()
      reads this, aio
    {
      && aio.Valid() && aio.pipe !in model.r && aio.pipe !in aio.wfds
      && aio.rfds == model.r + {aio.pipe} && aio.wfds == model.w
      && callbacks == model.callbacks && pending == model.pending
    }

    constructor (pipe: nat)
      ensures Valid() && fresh(aio) && aio.pipe == pipe && model == Start()
    {
      aio := new SelectAio(pipe);
      callbacks, pending, model := map[], false, Start();
    }

    method AddCallback(fd: nat, flag: Flag, ch: nat)
      requires Valid() && fd != aio.pipe && Enabled(model, Add(fd, flag, ch))
      modifies this, aio
      ensures Valid() && model == Apply(old(model), Add(fd, flag, ch))
    {
      aio.WatchFd(fd, flag);
      callbacks := callbacks[fd := ch];
      model := Apply(model, Add(fd, flag, ch));
    }

    method DelCallback(fd: nat, flag: Flag)
      requires Valid() && fd != aio.pipe
      modifies this, aio
      ensures Valid() && model == Apply(old(model), Del(fd, flag))
    {
      var gone := aio.UnwatchFd(fd, flag);
      if gone {
        callbacks := callbacks - {fd};
      }
      model := Apply(model, Del(fd, flag));
    }

    method HasCallback(fd: nat, flag: Flag, ch: nat) returns (r: bool)
      requires Valid() && fd != aio.pipe
      ensures r <==> fd in model.callbacks && model.callbacks[fd] == ch
                     && (!flag.Writing? ==> fd in model.r) && (!flag.Reading? ==> fd in model.w)
    {
      if fd !in callbacks || callbacks[fd] != ch {
        return false;
      }
      r := aio.IsWatched(fd, flag);
    }

    // block_remove_fd up to its wait, and from its wake-up on.
    method RemoveBegins(ghost t: nat, fd: nat)
      requires Valid() && fd != aio.pipe && Enabled(model, Remove(t, fd))
      modifies this, aio
      ensures Valid() && model == Apply(old(model), Remove(t, fd))
    {
      var _ := aio.UnwatchFd(fd, Both);
      pending := true;
      model := Apply(model, Remove(t, fd));
    }

    method RemoveEnds(ghost t: nat, fd: nat)
      requires Valid() && Enabled(model, RemoveEnd(t)) && fd == model.removers[t].fd
      modifies this
      ensures Valid() && model == Apply(old(model), RemoveEnd(t))
    {
      callbacks := callbacks - {fd};
      model := Apply(model, RemoveEnd(t));
    }

    // The critical section at the head of the loop; tells whether it broadcasts.
    method Announces() returns (broadcast: bool)
      requires Valid() && Enabled(model, Announce)
      modifies this
      ensures Valid() && model == Apply(old(model), Announce) && broadcast == old(pending)
    {
      broadcast := pending;
      if pending {
        pending := false;
      }
      model := Apply(model, Announce);
    }
  }
}
