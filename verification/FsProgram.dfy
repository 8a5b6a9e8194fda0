// The file system operations of yfs_client as programs of micro-steps: lock,
// get, put, getattr, setattr, remove.  What a client does next depends only on
// its operation and on the answers it has got so far.
module FsProgram {
  import opened Wrappers
  import opened DirText
  import opened DirOps
  import opened FileData
  import opened Extents

  datatype Op =
    | Lookup(p: nat, name: string)
    | Create(p: nat, f: nat, name: string, mode: nat, uid: nat, gid: nat)
    | Readdir(p: nat)
    | Unlink(p: nat, name: string)
    | Read(f: nat, off: nat, size: nat)
    | Write(f: nat, off: nat, data: string)
    | Truncate(f: nat, cut: nat)
    | Chmod(f: nat, mode: nat)

  // yfs_client::xxstatus with what the call hands back.  Crashed stands for an
  // exception or an end iterator dereferenced.
  datatype Result =
    | Ok
    | OkInum(inum: nat)
    | OkList(es: seq<Entry>)
    | OkData(data: string)
    | NoEnt | IoErr | Exist | NoAccess
    | Crashed

  datatype Action = Lock(id: nat) | Call(id: nat, rq: Request) | Finish(r: Result)

  // An answer; a granted lock answers Done(OK).
  type Answer = Response
  const Granted: Answer := Done(OK)

  predicate Denied(a: Answer) { a == Done(NOACCESS) }
  predicate Missing(a: Answer) { a == Done(NOENT) }

  // The answer to a get, when it is content.
  function Text(a: Answer): string {
    match a case Content(buf) => buf case _ => ""
  }

  function AfterLookup(a: Answer, name: string): Action {
    if Missing(a) then Finish(IoErr)
    else if Denied(a) then Finish(NoAccess)
    else match LookupText(Text(a), name)
      case Found(n) => Finish(OkInum(n))
      case NoEntry => Finish(NoEnt)
      case LookupPastEnd => Finish(Crashed)
  }

  function AfterReaddir(a: Answer): Action {
    if Missing(a) then Finish(IoErr)
    else if Denied(a) then Finish(NoAccess)
    else match Pairs(Split(Text(a)))
      case Some(es) => Finish(OkList(es))
      case None => Finish(Crashed)
  }

  function AfterRead(a: Answer, off: nat, size: nat): Action {
    if Missing(a) then Finish(NoEnt)
    else if Denied(a) then Finish(NoAccess)
    else match ReadText(Text(a), off, size)
      case Some(d) => Finish(OkData(d))
      case None => Finish(Crashed)
  }

  function NextCreate(op: Op, h: seq<Answer>): Action
    requires op.Create?
  {
    if |h| == 0 then Lock(op.p)
    else if |h| == 1 then Lock(op.f)
    else if |h| == 2 then Call(op.p, Get)
    else if Missing(h[2]) then Finish(IoErr)
    else if Denied(h[2]) then Finish(NoAccess)
    else match CreateText(Text(h[2]), op.name, op.f)
      case Exists => Finish(Exist)
      case Added(buf) =>
        if |h| == 3 then Call(op.p, Put(buf))
        else if Denied(h[3]) then Finish(NoAccess)
        else if |h| == 4 then Call(op.f, Put(""))
        else if Denied(h[4]) then Finish(NoAccess)
        else if |h| == 5 then Call(op.f, GetAttr)
        else if |h| == 6 then Call(op.f, SetAttr(op.mode, op.uid, op.gid))
        else if Denied(h[6]) then Finish(NoAccess)
        else Finish(Ok)
  }

  function NextUnlink(op: Op, h: seq<Answer>): Action
    requires op.Unlink?
  {
    if |h| == 0 then Lock(op.p)
    else if |h| == 1 then Call(op.p, Get)
    else if Missing(h[1]) then Finish(NoEnt)
    else if Denied(h[1]) then Finish(NoAccess)
    else match UnlinkText(Text(h[1]), op.name)
      case NoSuch => Finish(NoEnt)
      case RemovalPastEnd => Finish(Crashed)
      case Removed(buf, f) =>
        if |h| == 2 then Call(op.p, Put(buf))
        else if Denied(h[2]) then Finish(NoAccess)
        else if |h| == 3 then Lock(f)
        else if |h| == 4 then Call(f, Remove)
        else if Denied(h[4]) then Finish(NoAccess)
        else Finish(Ok)
  }

  // get the file, put its new contents back
  function NextUpdate(f: nat, h: seq<Answer>, edit: string -> Option<string>): Action {
    if |h| == 0 then Lock(f)
    else if |h| == 1 then Call(f, Get)
    else if Missing(h[1]) then Finish(NoEnt)
    else if Denied(h[1]) then Finish(NoAccess)
    else match edit(Text(h[1]))
      case None => Finish(Crashed)
      case Some(t) =>
        if |h| == 2 then Call(f, Put(t))
        else if Denied(h[2]) then Finish(NoAccess)
        else Finish(Ok)
  }

  function Next(op: Op, h: seq<Answer>): Action {
    match op
    case Lookup(p, name) =>
      if |h| == 0 then Lock(p) else if |h| == 1 then Call(p, Get) else AfterLookup(h[1], name)
    case Readdir(p) =>
      if |h| == 0 then Lock(p) else if |h| == 1 then Call(p, Get) else AfterReaddir(h[1])
    case Read(f, off, size) =>
      if |h| == 0 then Lock(f) else if |h| == 1 then Call(f, Get) else AfterRead(h[1], off, size)
    case Create(_, _, _, _, _, _) => NextCreate(op, h)
    case Unlink(_, _) => NextUnlink(op, h)
    case Write(f, off, data) => NextUpdate(f, h, t => Some(WriteText(t, off, data)))
    case Truncate(f, cut) => NextUpdate(f, h, t => TruncateText(t, cut))
    case Chmod(f, mode) =>
      if |h| == 0 then Lock(f)
      else if |h| == 1 then Call(f, GetAttr)
      else if Missing(h[1]) then Finish(NoEnt)
      else if |h| == 2 then Call(f, SetAttr(mode,
                                           if h[1].Attrs? then h[1].uid else 0, if h[1].Attrs? then h[1].gid else 0))
      else if Denied(h[2]) then Finish(NoAccess)
      else Finish(Ok)
  }

  const LONGEST: nat := 7

  // No operation takes more than seven steps.
  lemma Finishes(op: Op, h: seq<Answer>)
    requires |h| >= LONGEST
    ensures Next(op, h).Finish?
  {
  }

  // ---- locks ----

  // The locks taken on the way through h, in order.
  ghost function LocksTaken(op: Op, h: seq<Answer>): set<nat>
    decreases |h|
  {
    if h == [] then {}
    else
      var h' := h[..|h| - 1];
      LocksTaken(op, h') + (match Next(op, h') case Lock(id) => {id} case _ => {})
  }

  lemma LocksOfPrefix(op: Op, h: seq<Answer>, k: nat)
    requires k < |h| && Next(op, h[..k]).Lock?
    ensures Next(op, h[..k]).id in LocksTaken(op, h)
    decreases |h|
  {
    var h' := h[..|h| - 1];
    if k < |h| - 1 {
      assert h'[..k] == h[..k];
      LocksOfPrefix(op, h', k);
    } else {
      assert h' == h[..k];
    }
  }

  // Every extent an operation touches is one it has locked before.
  lemma TouchesLockedOnly(op: Op, h: seq<Answer>)
    requires Next(op, h).Call?
    ensures Next(op, h).id in LocksTaken(op, h)
  {
    LocksOfPrefix(op, h, 0);
    if op.Create? {
      LocksOfPrefix(op, h, 1);
    }
    if op.Unlink? && |h| == 4 {
      LocksOfPrefix(op, h, 3);
    }
  }

  // ---- an operation run alone ----

  function Serve(who: Caller, s: Store, id: nat, rq: Request): (Answer, Store) {
    var (a, e) := Handle(Look(s, id), who, rq);
    (a, Set(s, id, e))
  }

  // Run the rest of the operation, from answers h and store s, to its end.
  function RunFrom(who: Caller, op: Op, h: seq<Answer>, s: Store): (Result, Store)
    decreases if |h| < LONGEST then LONGEST - |h| else 0
  {
    match Next(op, h)
    case Finish(r) => (r, s)
    case Lock(_) => Finishes'(op, h); RunFrom(who, op, h + [Granted], s)
    case Call(id, rq) =>
      Finishes'(op, h);
      var (a, s') := Serve(who, s, id, rq);
      RunFrom(who, op, h + [a], s')
  }

  lemma Finishes'(op: Op, h: seq<Answer>)
    requires !Next(op, h).Finish?
    ensures |h| < LONGEST
  {
  }

  // A whole operation as one atomic step.
  function RunAlone(who: Caller, op: Op, s: Store): (Result, Store) {
    RunFrom(who, op, [], s)
  }
}
