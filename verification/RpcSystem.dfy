// The whole at-most-once protocol: any number of clients, one server that may
// be restarted, and a network that drops, duplicates and reorders.
//
// The network is the set of all messages ever sent; any of them may be
// delivered at any later moment, any number of times, or never.  That covers
// retransmission on a new connection and late duplicates.  `execs`, `started`, `results`,
// `acked` and `returned` record history; no decision of client or server but
// the acknowledgement list reads them.
module RpcSystem {
  import opened AckList
  import opened ReplyWindow
  import opened CircularWindow

  // Which checkduplicate_and_update the server runs; the literal one on a list
  // where nothing may be said past its end, or on a circular one.
  datatype Variant = Documented | Literal | Circular

  datatype Request = Request(clt: nat, xid: nat, bind: bool, srv: nat, rep: nat, args: seq<bv8>)

  // A non-negative return with its body, atmostonce_failure, or oldsrv_failure.
  datatype Ret = Handler(body: Body) | AtMostOnceFailure | OldServerFailure
  datatype ReplyMsg = ReplyMsg(clt: nat, xid: nat, ret: Ret)

  // State of an entry of calls_.  A call that returns while Waiting is a
  // timeout_failure; one that returns while Cancelled is a cancel_failure.
  datatype CallState = Waiting | Replied(ret: Ret) | Cancelled

  datatype Client = Client(
    next: nat,                    // xid_
    srv: nat,                     // srv_nonce_
    bound: bool,                  // bind_done_
    window: seq<nat>,             // xid_rep_window_
    acked: set<nat>,
    calls: map<nat, CallState>,   // calls_
    destroying: bool,             // destroy_wait_
    returned: map<nat, CallState>)

  datatype Server = Server(
    nonce: nat,
    windows: map<nat, seq<Reply>>,
    maxima: map<nat, nat>,
    running: multiset<Request>,   // handlers started and not finished
    started: multiset<Key>)       // requests started by this instance

  type Key = (nat, nat)

  datatype System = System(
    clients: map<nat, Client>,
    server: Server,
    requests: set<Request>,
    replies: set<ReplyMsg>,
    nonces: set<nat>,             // nonces of all server instances so far
    execs: map<Key, nat>,         // how often the handler of a request was started
    results: map<Key, Body>,      // what it produced
    defined: bool)                // no iterator has been moved past the end of a list

  datatype Step =
    | NewClient(c: nat)
    | Call(c: nat, bind: bool, args: seq<bv8>)
    | Deliver(r: Request)
    | Finish(r: Request, body: Body)
    | Receive(m: ReplyMsg)
    | Return(c: nat, xid: nat)
    | BindDone(c: nat, xid: nat)
    | Cancel(c: nat)
    | Restart(n: nat)

  // ---- helpers ----

  function WindowOf(s: System, c: nat): seq<Reply> {
    if c in s.server.windows then s.server.windows[c] else []
  }

  function MarkOf(s: System, c: nat): Mark {
    if c in s.server.maxima then Seen(s.server.maxima[c]) else Unseen
  }

  function Execs(s: System, c: nat, xid: nat): nat {
    if (c, xid) in s.execs then s.execs[(c, xid)] else 0
  }

  function CheckOf(v: Variant, m: Mark, w: seq<Reply>, xid: nat, rep: nat): Outcome {
    match v
    case Documented => DocumentedCheck(m, w, xid, rep)
    case Literal => LiteralCheck(m, w, xid, rep)
    case Circular => CircularCheck(m, w, xid, rep)
  }

  function Check(v: Variant, s: System, r: Request): Outcome {
    CheckOf(v, MarkOf(s, r.clt), WindowOf(s, r.clt), r.xid, r.rep)
  }

  predicate ForThisInstance(s: System, r: Request) {
    r.srv == 0 || r.srv == s.server.nonce
  }

  // ---- the steps ----

  // Nothing can be said of a system whose behaviour is undefined: a run ends there.
  predicate Enabled(v: Variant, s: System, st: Step) {
    s.defined &&
    match st
    case NewClient(c) => c != 0 && c !in s.clients
    case Call(c, bind, args) =>
      // otherwise call1 returns bind_failure or cancel_failure at once
      c in s.clients && bind != s.clients[c].bound && !s.clients[c].destroying && |s.clients[c].window| > 0
    case Deliver(r) => r in s.requests
    case Finish(r, body) =>
      && r in s.server.running
      && body == if r.bind then Nonce(s.server.nonce) else Data(if body.Data? then body.bytes else [])
    case Receive(m) => m in s.replies && m.clt in s.clients && |s.clients[m.clt].window| > 0
    case Return(c, xid) => c in s.clients && xid in s.clients[c].calls && |s.clients[c].window| > 0
    case BindDone(c, xid) =>
      c in s.clients && xid in s.clients[c].returned
      && s.clients[c].returned[xid].Replied? && s.clients[c].returned[xid].ret.Handler?
      && s.clients[c].returned[xid].ret.body.Nonce?
    case Cancel(c) => c in s.clients && s.clients[c].calls != map[]
    case Restart(n) => n != 0 && n !in s.nonces
  }

  function Dispatched(s: System, r: Request, o: Outcome): System
    requires o.Outcome?
  {
    var sv := s.server.(windows := s.server.windows[r.clt := o.window],
                        maxima := s.server.maxima[r.clt := o.mark]);
    match o.stat
    case New =>
      s.(server := sv.(running := sv.running + multiset{r}, started := sv.started + multiset{(r.clt, r.xid)}),
         execs := s.execs[(r.clt, r.xid) := Execs(s, r.clt, r.xid) + 1])
    case InProgress => s.(server := sv)
    case Done(body) => s.(server := sv, replies := s.replies + {ReplyMsg(r.clt, r.xid, Handler(body))})
    case Forgotten => s.(server := sv, replies := s.replies + {ReplyMsg(r.clt, r.xid, AtMostOnceFailure)})
  }

  function Apply(v: Variant, s: System, st: Step): System
    requires Enabled(v, s, st)
  {
    match st
    case NewClient(c) =>
      s.(clients := s.clients[c := Client(1, 0, false, [0], {0}, map[], false, map[])])
    case Call(c, bind, args) =>
      var cl := s.clients[c];
      s.(clients := s.clients[c := cl.(next := cl.next + 1, calls := cl.calls[cl.next := Waiting])],
         requests := s.requests + {Request(c, cl.next, bind, cl.srv, cl.window[0], args)})
    case Deliver(r) =>
      if ForThisInstance(s, r) then
        var o := Check(v, s, r);
        if o.Outcome? then Dispatched(s, r, o) else s.(defined := false)
      else s.(replies := s.replies + {ReplyMsg(r.clt, r.xid, OldServerFailure)})
    case Finish(r, body) =>
      s.(server := s.server.(windows := s.server.windows[r.clt := WithReply(WindowOf(s, r.clt), r.xid, body)],
                             running := s.server.running - multiset{r}),
         results := s.results[(r.clt, r.xid) := body],
         replies := s.replies + {ReplyMsg(r.clt, r.xid, Handler(body))})
    case Receive(m) =>
      var cl := s.clients[m.clt];
      var calls := if m.xid in cl.calls && cl.calls[m.xid].Waiting?
                   then cl.calls[m.xid := Replied(m.ret)] else cl.calls;
      s.(clients := s.clients[m.clt := cl.(window := Update(cl.window, m.xid), acked := cl.acked + {m.xid},
                                              calls := calls)])
    case Return(c, xid) =>
      var cl := s.clients[c];
      s.(clients := s.clients[c := cl.(window := Update(cl.window, xid), acked := cl.acked + {xid},
                                       calls := cl.calls - {xid}, returned := cl.returned[xid := cl.calls[xid]])])
    case BindDone(c, xid) =>
      var cl := s.clients[c];
      s.(clients := s.clients[c := cl.(bound := true, srv := cl.returned[xid].ret.body.n)])
    case Cancel(c) =>
      var cl := s.clients[c];
      s.(clients := s.clients[c := cl.(calls := map x | x in cl.calls :: Cancelled,
                                       destroying := true)])
    case Restart(n) =>
      s.(server := Server(n, map[], map[], multiset{}, multiset{}), nonces := s.nonces + {n})
  }

  function Start(n: nat): System {
    System(map[], Server(n, map[], map[], multiset{}, multiset{}), {}, {}, {n}, map[], map[], true)
  }

  // All states of a run: a start state followed by one state per step.
  ghost predicate IsRun(v: Variant, n: nat, steps: seq<Step>, states: seq<System>) {
    && n != 0
    && |states| == |steps| + 1
    && states[0] == Start(n)
    && forall i | 0 <= i < |steps| :: Enabled(v, states[i], steps[i]) && states[i + 1] == Apply(v, states[i], steps[i])
  }

  // ---- invariant of clients, requests and marks: both variants ----

  ghost predicate CallsOk(cl: Client) {
    forall x | x in cl.calls :: 1 <= x < cl.next && (cl.calls[x].Waiting? ==> x !in cl.acked)
  }

  ghost predicate ReturnsOk(c: nat, calls: map<nat, CallState>, replies: set<ReplyMsg>) {
    forall x | x in calls && calls[x].Replied? :: ReplyMsg(c, x, calls[x].ret) in replies
  }

  ghost predicate ClientOk(c: nat, cl: Client, nonces: set<nat>, replies: set<ReplyMsg>) {
    && c != 0
    && 1 <= cl.next
    && Represents(cl.window, cl.acked)
    && (forall x | x in cl.acked :: x < cl.next)
    && CallsOk(cl)
    && (if cl.bound then cl.srv in nonces else cl.srv == 0)
    && ReturnsOk(c, cl.calls, replies)
    && ReturnsOk(c, cl.returned, replies)
  }

  ghost predicate Issued(clients: map<nat, Client>, c: nat, xid: nat) {
    c in clients && 1 <= xid < clients[c].next
  }

  ghost function Head(clients: map<nat, Client>, c: nat): nat {
    if c in clients && |clients[c].window| > 0 then clients[c].window[0] else 0
  }

  ghost predicate RequestOk(clients: map<nat, Client>, nonces: set<nat>, r: Request) {
    && Issued(clients, r.clt, r.xid)
    && r.rep <= Head(clients, r.clt)
    && r.rep < r.xid
    && (if r.bind then r.srv == 0 else r.srv in nonces)
  }

  ghost predicate ClientsOk(s: System) {
    forall c | c in s.clients :: ClientOk(c, s.clients[c], s.nonces, s.replies)
  }

  ghost predicate RequestsOk(s: System) {
    forall r | r in s.requests :: RequestOk(s.clients, s.nonces, r)
  }

  ghost predicate XidsUnique(s: System) {
    forall r1, r2 | r1 in s.requests && r2 in s.requests && r1.clt == r2.clt && r1.xid == r2.xid :: r1 == r2
  }

  // A nonce learnt from a bind reply is the nonce of some instance.
  ghost predicate BodyNonceOk(nonces: set<nat>, b: Body) {
    b.Nonce? ==> b.n in nonces
  }

  ghost predicate RepliesOk(s: System) {
    forall m | m in s.replies ::
      Issued(s.clients, m.clt, m.xid) && (m.ret.Handler? ==> BodyNonceOk(s.nonces, m.ret.body))
  }

  ghost predicate EntryOk(s: System, c: nat, e: Reply) {
    Issued(s.clients, c, e.xid) && (e.saved.Present? ==> BodyNonceOk(s.nonces, e.saved.body))
  }

  ghost predicate WindowsOk(s: System) {
    forall c, e | c in s.server.windows && e in s.server.windows[c] :: EntryOk(s, c, e)
  }

  // The server's mark never exceeds the client's contiguous acknowledged prefix.
  ghost predicate MarksOk(s: System) {
    forall c | c in s.server.maxima :: s.server.maxima[c] <= Head(s.clients, c)
  }

  ghost predicate ServerOk(s: System) {
    && 0 !in s.nonces
    && s.server.nonce in s.nonces
    && (forall r | r in s.server.running :: r in s.requests && ForThisInstance(s, r))
  }

  ghost predicate AckInv(s: System) {
    && ClientsOk(s) && RequestsOk(s) && XidsUnique(s)
    && RepliesOk(s) && WindowsOk(s) && MarksOk(s) && ServerOk(s)
  }

  // ---- invariant of executions: documented variant ----

  // The current instance will not start the request again.
  ghost predicate Remembered(s: System, r: Request) {
    r.clt in s.server.maxima && (r.xid <= s.server.maxima[r.clt] || Has(WindowOf(s, r.clt), r.xid))
  }

  ghost predicate ExecOk(s: System, r: Request) {
    && Execs(s, r.clt, r.xid) <= 1
    && (Execs(s, r.clt, r.xid) == 1 && r.srv == s.server.nonce ==> Remembered(s, r))
    && ((r.clt, r.xid) in s.results ==> Execs(s, r.clt, r.xid) == 1)
    && (r in s.server.running ==>
          s.server.running[r] == 1 && Execs(s, r.clt, r.xid) == 1 && (r.clt, r.xid) !in s.results)
  }

  // A body in flight or saved for a non-bind request is the one its execution produced.
  ghost predicate BodyOk(s: System, c: nat, xid: nat, b: Body) {
    forall r | r in s.requests && r.clt == c && r.xid == xid && !r.bind ::
      (c, xid) in s.results && s.results[(c, xid)] == b
  }

  ghost predicate ExecsOk(s: System) {
    forall r | r in s.requests && !r.bind :: ExecOk(s, r)
  }

  ghost predicate WindowsDistinct(s: System) {
    forall c | c in s.server.windows :: Distinct(s.server.windows[c])
  }

  ghost predicate SavedOk(s: System) {
    forall c, e | c in s.server.windows && e in s.server.windows[c] && e.saved.Present? ::
      BodyOk(s, c, e.xid, e.saved.body)
  }

  ghost predicate SentOk(s: System) {
    forall m | m in s.replies && m.ret.Handler? :: BodyOk(s, m.clt, m.xid, m.ret.body)
  }

  ghost predicate HistoryOk(s: System) {
    && (forall k | k in s.execs :: Issued(s.clients, k.0, k.1))
    && (forall k | k in s.results :: Issued(s.clients, k.0, k.1))
  }

  ghost predicate ExecInv(s: System) {
    ExecsOk(s) && WindowsDistinct(s) && SavedOk(s) && SentOk(s) && HistoryOk(s) && s.defined
  }
}
