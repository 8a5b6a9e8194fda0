// One connection beside the poll loop: when write_cb finds its connection dead.
module Closing {

  import Connection
  import PollMgr

  // The connection's sending side and the manager; fd is its descriptor.
  datatype State = State(s: Connection.Sender, m: PollMgr.Mgr)

  // A step of the senders, one of the manager, or the loop calling write_cb.
  datatype Step =
    | Send(e: Connection.Event)
    | Poll(step: PollMgr.Step)
    | WriteCallback(io: Connection.Io)

  ghost predicate Enabled(x: State, fd: nat, step: Step) {
    match step
    case Send(e) => !e.WriteReady? && Connection.Enabled(x.s, e)
    case Poll(p) => PollMgr.Enabled(x.m, p) && !(p.NextCallback? && PollMgr.Starts(x.m, fd, true))
    case WriteCallback(io) => PollMgr.Starts(x.m, fd, true) && Connection.Enabled(x.s, Connection.WriteReady(io))
  }

  function Apply(x: State, fd: nat, step: Step): State
    requires Enabled(x, fd, step)
  {
    match step
    case Send(e) => x.(s := Connection.Apply(x.s, e))
    case Poll(p) => x.(m := PollMgr.Apply(x.m, p))
    case WriteCallback(io) =>
      State(Connection.Apply(x.s, Connection.WriteReady(io)), PollMgr.Apply(x.m, PollMgr.NextCallback))
  }

  // When the loop calls the writing callback of a live connection, the connection
  // writes on where it stopped.
  lemma CallbackWrites(x: State, fd: nat, n: nat)
    requires Enabled(x, fd, WriteCallback(Connection.Moved(n))) && x.s.w.sz != 0 && x.s.w.solong < x.s.w.sz
    ensures var y := Apply(x, fd, WriteCallback(Connection.Moved(n)));
            && y.m.poller == PollMgr.Calling(fd, [], x.m.poller.ws[1..]) && !y.s.dead
            && |y.s.wire| == |x.s.wire| + n && y.s.w.solong == x.s.w.solong + n
  {
  }

  // write_cb is about to be called, and its assertion that dead_ is not set fails.
  predicate Aborts(x: State, fd: nat) {
    x.s.dead && PollMgr.Starts(x.m, fd, true)
  }

  predicate Adds(step: Step, fd: nat) {
    step.Poll? && step.step.Add? && step.step.fd == fd
  }

  ghost predicate Leads(x: State, fd: nat, step: Step, y: State) {
    Enabled(x, fd, step) && !Adds(step, fd) && y == Apply(x, fd, step)
  }

  // That can happen within n steps, none of which adds fd to the manager.
  ghost predicate CanAbort(x: State, fd: nat, n: nat)
    decreases n
  {
    Aborts(x, fd) || (n > 0 && exists step, y :: Leads(x, fd, step, y) && CanAbort(y, fd, n - 1))
  }

  lemma CannotStartLasts(x: State, fd: nat, step: Step, y: State)
    requires Leads(x, fd, step, y) && !PollMgr.MayStart(x.m, fd, true)
    ensures !PollMgr.MayStart(y.m, fd, true)
  {
    match step
    case Send(_) =>
    case Poll(p) => PollMgr.CannotStartStep(x.m, p, fd, true);
    case WriteCallback(_) => PollMgr.CannotStartStep(x.m, PollMgr.NextCallback, fd, true);
  }

  lemma {:induction false} OnlyMayAbort(x: State, fd: nat, n: nat)
    requires CanAbort(x, fd, n)
    ensures PollMgr.MayStart(x.m, fd, true)
    decreases n
  {
    if !Aborts(x, fd) {
      var step, y :| Leads(x, fd, step, y) && CanAbort(y, fd, n - 1);
      OnlyMayAbort(y, fd, n - 1);
      if !PollMgr.MayStart(x.m, fd, true) {
        CannotStartLasts(x, fd, step, y);
      }
    }
  }

  // On a dead connection the loop need only get there.
  lemma {:induction false} DeadAborts(x: State, fd: nat, n: nat)
    requires x.s.dead && PollMgr.CanStart(x.m, fd, true, n)
    ensures CanAbort(x, fd, n)
    decreases n
  {
    if !PollMgr.Starts(x.m, fd, true) {
      var p, u :| PollMgr.Leads(x.m, p, u) && !(p.Add? && p.fd == fd) && PollMgr.CanStart(u, fd, true, n - 1);
      DeadAborts(x.(m := u), fd, n - 1);
      assert Leads(x, fd, Poll(p), x.(m := u));
    }
  }

  // From any state the assertion of write_cb can fail, without fd being added
  // again, if and only if a callback is registered for fd and fd is watched for
  // writing or the loop has it in hand: a closeconn at this moment is enough.
  lemma CanAbortIff(x: State, fd: nat)
    ensures (exists n: nat :: CanAbort(x, fd, n)) <==> PollMgr.MayStart(x.m, fd, true)
  {
    if n: nat :| CanAbort(x, fd, n) {
      OnlyMayAbort(x, fd, n);
    }
    if PollMgr.MayStart(x.m, fd, true) {
      var n := PollMgr.MayStartReaches(x.m, fd, true);
      if x.s.dead {
        DeadAborts(x, fd, n);
        assert CanAbort(x, fd, n);
      } else {
        var y := Apply(x, fd, Send(Connection.Close));
        DeadAborts(y, fd, n);
        assert Leads(x, fd, Send(Connection.Close), y);
        assert CanAbort(x, fd, n + 1);
      }
    }
  }

  // Once block_remove_fd waits, only what the loop has in hand is left.
  lemma AbortsBesideRemovalIff(x: State, fd: nat, t: nat)
    requires Enabled(x, fd, Poll(PollMgr.Remove(t, fd)))
    ensures (exists n: nat :: CanAbort(Apply(x, fd, Poll(PollMgr.Remove(t, fd))), fd, n))
            <==> fd in x.m.callbacks && PollMgr.InHandFor(x.m.poller, fd, true)
  {
    CanAbortIff(Apply(x, fd, Poll(PollMgr.Remove(t, fd))), fd);
  }
}
