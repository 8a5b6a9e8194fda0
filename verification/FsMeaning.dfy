// What a whole operation does to the file system, and what it keeps.
module FsMeaning {
  import opened Wrappers
  import opened DirText
  import opened DirOps
  import opened Extents
  import opened FsProgram

  predicate IsFile(inum: nat) { (inum / 0x8000_0000) % 2 == 1 }
  predicate IsDir(inum: nat) { !IsFile(inum) }

  // The entries of a directory extent.
  function EntriesOf(e: Extent): seq<Entry> {
    match Pairs(Split(e.content)) case Some(es) => es case None => []
  }

  ghost predicate DirOk(e: Extent) {
    GoodDir(EntriesOf(e)) && e.content == Encode(EntriesOf(e))
  }

  ghost predicate Lists(s: Store, d: nat, i: nat, inum: nat) {
    d in s && IsDir(d) && i < |EntriesOf(s[d])| && EntriesOf(s[d])[i].inum == inum
  }

  type Rank = nat -> nat

  // Every directory is well formed; every listed inum has an extent (no
  // dangling entry), is listed once, and is ranked after its directory.
  ghost predicate DirsOk(s: Store) {
    forall d | d in s && IsDir(d) :: DirOk(s[d])
  }

  ghost predicate NoDangling(s: Store) {
    forall d: nat, i: nat, n: nat | Lists(s, d, i, n) :: n in s
  }

  ghost predicate ListedOnce(s: Store) {
    forall d1: nat, i1: nat, d2: nat, i2: nat, n: nat | Lists(s, d1, i1, n) && Lists(s, d2, i2, n) ::
      d1 == d2 && i1 == i2
  }

  ghost predicate Ranked(rank: Rank, s: Store) {
    forall d: nat, i: nat, n: nat | Lists(s, d, i, n) :: rank(d) < rank(n)
  }

  ghost predicate FsOk(rank: Rank, s: Store) {
    DirsOk(s) && NoDangling(s) && ListedOnce(s) && Ranked(rank, s)
  }

  // What the callers promise about an operation: slash-free names, directory
  // operations on directories, data operations on files.
  predicate Sane(op: Op) {
    match op
    case Lookup(p, name) => IsDir(p)
    case Create(p, f, name, _, _, _) => IsDir(p) && SlashFree(name) && f < INUM_LIMIT
    case Readdir(p) => IsDir(p)
    case Unlink(p, name) => IsDir(p)
    case Write(f, _, _) => IsFile(f)
    case Truncate(f, _) => IsFile(f)
    case _ => true
  }

  // A create makes what ranks after its directory.
  ghost predicate OpOk(rank: Rank, op: Op) {
    Sane(op) && (op.Create? ==> rank(op.p) < rank(op.f))
  }

  // The inum of a create is unused, and the name searched for is not mistaken
  // for the text of an inum.
  ghost predicate Fresh(s: Store, f: nat) {
    f !in s && forall d: nat, i: nat :: !Lists(s, d, i, f)
  }

  ghost predicate Clear(s: Store, op: Op) {
    match op
    case Create(_, f, _, _, _, _) => Fresh(s, f)
    case Unlink(p, name) => p in s ==> !MistakenForInum(EntriesOf(s[p]), name)
    case Lookup(p, name) => p in s ==> !MistakenForInum(EntriesOf(s[p]), name)
    case _ => true
  }

  // ---- one operation alone ----

  lemma RunLock(w: Caller, op: Op, h: seq<Answer>, s: Store)
    requires Next(op, h).Lock?
    ensures RunFrom(w, op, h, s) == RunFrom(w, op, h + [Granted], s)
  {
  }

  lemma RunCall(w: Caller, op: Op, h: seq<Answer>, s: Store, a: Answer, s': Store)
    requires Next(op, h).Call? && Serve(w, s, Next(op, h).id, Next(op, h).rq) == (a, s')
    ensures RunFrom(w, op, h, s) == RunFrom(w, op, h + [a], s')
  {
  }

  lemma SetSame(s: Store, id: nat)
    ensures Set(s, id, Look(s, id)) == s
  {
  }

  // Taking the locks and reading the parent.
  lemma CreateReads(w: Caller, op: Op, s: Store)
    requires op.Create?
    ensures RunAlone(w, op, s) == RunFrom(w, op, [Granted, Granted, Handle(Look(s, op.p), w, Get).0], s)
  {
    RunLock(w, op, [], s);
    assert [] + [Granted] == [Granted];
    RunLock(w, op, [Granted], s);
    assert [Granted] + [Granted] == [Granted, Granted];
    var a := Handle(Look(s, op.p), w, Get).0;
    SetSame(s, op.p);
    RunCall(w, op, [Granted, Granted], s, a, s);
    assert [Granted, Granted] + [a] == [Granted, Granted, a];
  }

  // Both puts, getattr and setattr, once the parent may be written.
  lemma CreateWrites(w: Caller, op: Op, s: Store, a: Answer, buf: string)
    requires op.Create? && op.p in s && op.f !in s && CanWrite(Look(s, op.p), w)
    requires a.Content? && CreateText(a.buf, op.name, op.f) == Added(buf)
    ensures RunFrom(w, op, [Granted, Granted, a], s) ==
            (Ok, s[op.p := s[op.p].(content := buf)][op.f := Extent("", op.mode, op.uid, op.gid)])
  {
    var g := Granted;
    var s1 := s[op.p := s[op.p].(content := buf)];
    var s2 := s1[op.f := Extent("", NEW_MODE, 0, 0)];
    var s3 := s1[op.f := Extent("", op.mode, op.uid, op.gid)];
    assert op.f != op.p;
    RunCall(w, op, [g, g, a], s, g, s1);
    assert [g, g, a] + [g] == [g, g, a, g];
    RunCall(w, op, [g, g, a, g], s1, g, s2);
    assert [g, g, a, g] + [g] == [g, g, a, g, g];
    var at := Attrs(NEW_MODE, 0, 0, 0);
    SetSame(s2, op.f);
    RunCall(w, op, [g, g, a, g, g], s2, at, s2);
    assert [g, g, a, g, g] + [at] == [g, g, a, g, g, at];
    assert Set(s2, op.f, Some(Extent("", op.mode, op.uid, op.gid))) == s3;
    RunCall(w, op, [g, g, a, g, g, at], s2, g, s3);
    assert [g, g, a, g, g, at] + [g] == [g, g, a, g, g, at, g];
    assert Next(op, [g, g, a, g, g, at, g]) == Finish(Ok);
  }

  // The put on the parent is refused.
  lemma CreateRefused(w: Caller, op: Op, s: Store, a: Answer, buf: string)
    requires op.Create? && op.p in s && !CanWrite(Look(s, op.p), w)
    requires a.Content? && CreateText(a.buf, op.name, op.f) == Added(buf)
    ensures RunFrom(w, op, [Granted, Granted, a], s) == (NoAccess, s)
  {
    var g, d := Granted, Done(NOACCESS);
    SetSame(s, op.p);
    RunCall(w, op, [g, g, a], s, d, s);
    assert [g, g, a] + [d] == [g, g, a, d];
    assert Next(op, [g, g, a, d]) == Finish(NoAccess);
  }

  // When create answers what.
  function CreateAnswer(w: Caller, op: Op, s: Store): Result
    requires op.Create?
  {
    if !CanRead(Look(s, op.p), w) then NoAccess
    else if op.p !in s then IoErr
    else if CreateText(s[op.p].content, op.name, op.f).Exists? then Exist
    else if !CanWrite(Look(s, op.p), w) then NoAccess
    else Ok
  }

  // create on an unused inum is all or nothing: it answers OK with the entry
  // appended and the extent made, or it changes nothing.
  lemma CreateAllOrNothing(w: Caller, op: Op, s: Store)
    requires op.Create? && op.f !in s
    requires op.p in s ==> DirOk(s[op.p]) && SlashFree(op.name) && op.f < INUM_LIMIT
    ensures RunAlone(w, op, s).0 == CreateAnswer(w, op, s)
    ensures RunAlone(w, op, s).0 == Ok ==>
            && op.p in s
            && RunAlone(w, op, s).1 ==
               s[op.p := s[op.p].(content := Encode(EntriesOf(s[op.p]) + [Entry(op.name, op.f)]))]
                [op.f := Extent("", op.mode, op.uid, op.gid)]
            && GoodDir(EntriesOf(s[op.p]) + [Entry(op.name, op.f)])
            && !Listed(EntriesOf(s[op.p]), op.name)
    ensures RunAlone(w, op, s).0 != Ok ==> RunAlone(w, op, s).1 == s
  {
    CreateReads(w, op, s);
    var a := Handle(Look(s, op.p), w, Get).0;
    if a.Content? {
      match CreateText(a.buf, op.name, op.f) {
        case Exists =>
        case Added(buf) =>
          if CanWrite(Look(s, op.p), w) {
            CreateWrites(w, op, s, a, buf);
            CreateAppends(EntriesOf(s[op.p]), op.name, op.f);
          } else {
            CreateRefused(w, op, s, a, buf);
          }
      }
    }
  }

  // ---- unlink ----

  lemma UnlinkReads(w: Caller, op: Op, s: Store)
    requires op.Unlink?
    ensures RunAlone(w, op, s) == RunFrom(w, op, [Granted, Handle(Look(s, op.p), w, Get).0], s)
  {
    RunLock(w, op, [], s);
    assert [] + [Granted] == [Granted];
    var a := Handle(Look(s, op.p), w, Get).0;
    SetSame(s, op.p);
    RunCall(w, op, [Granted], s, a, s);
    assert [Granted] + [a] == [Granted, a];
  }

  // The parent's put, the child's lock and the child's remove.
  lemma UnlinkWrites(w: Caller, op: Op, s: Store, a: Answer, buf: string, f: nat)
    requires op.Unlink? && op.p in s && f != op.p && CanWrite(Look(s, op.p), w)
    requires a.Content? && UnlinkText(a.buf, op.name) == Removed(buf, f)
    ensures var (b, e) := Handle(Look(s, f), w, Remove);
      RunFrom(w, op, [Granted, a], s) ==
      (if Denied(b) then NoAccess else Ok, Set(s[op.p := s[op.p].(content := buf)], f, e))
  {
    var g := Granted;
    var s1 := s[op.p := s[op.p].(content := buf)];
    RunCall(w, op, [g, a], s, g, s1);
    assert [g, a] + [g] == [g, a, g];
    RunLock(w, op, [g, a, g], s1);
    assert [g, a, g] + [g] == [g, a, g, g];
    var (b, e) := Handle(Look(s, f), w, Remove);
    assert Look(s1, f) == Look(s, f);
    RunCall(w, op, [g, a, g, g], s1, b, Set(s1, f, e));
    assert [g, a, g, g] + [b] == [g, a, g, g, b];
    assert Next(op, [g, a, g, g, b]) == Finish(if Denied(b) then NoAccess else Ok);
  }

  lemma UnlinkRefused(w: Caller, op: Op, s: Store, a: Answer, buf: string, f: nat)
    requires op.Unlink? && op.p in s && !CanWrite(Look(s, op.p), w)
    requires a.Content? && UnlinkText(a.buf, op.name) == Removed(buf, f)
    ensures RunFrom(w, op, [Granted, a], s) == (NoAccess, s)
  {
    var g, d := Granted, Done(NOACCESS);
    SetSame(s, op.p);
    RunCall(w, op, [g, a], s, d, s);
    assert [g, a] + [d] == [g, a, d];
    assert Next(op, [g, a, d]) == Finish(NoAccess);
  }

  // unlink edits the parent iff the name is listed and the parent may be read
  // and written.
  ghost predicate UnlinkEdits(w: Caller, op: Op, s: Store)
    requires op.Unlink?
  {
    && op.p in s && CanRead(Look(s, op.p), w) && CanWrite(Look(s, op.p), w)
    && Listed(EntriesOf(s[op.p]), op.name)
  }

  function UnlinkTarget(op: Op, s: Store): (f: nat)
    requires op.Unlink? && op.p in s && Listed(EntriesOf(s[op.p]), op.name)
  {
    EntriesOf(s[op.p])[Position(EntriesOf(s[op.p]), op.name)].inum
  }

  // What an unlink that edits leaves behind: the entry is gone, and so is the
  // extent unless the caller may not write it.
  function UnlinkLeaves(w: Caller, op: Op, s: Store): Store
    requires op.Unlink? && op.p in s && Listed(EntriesOf(s[op.p]), op.name)
  {
    var es, f := EntriesOf(s[op.p]), UnlinkTarget(op, s);
    Set(s[op.p := s[op.p].(content := Encode(RemoveAt(es, Position(es, op.name))))], f,
        if CanWrite(Look(s, f), w) then None else Look(s, f))
  }

  lemma UnlinkChanges(rank: Rank, w: Caller, op: Op, s: Store)
    requires op.Unlink? && IsDir(op.p) && FsOk(rank, s) && Clear(s, op) && UnlinkEdits(w, op, s)
    ensures var kept := !CanWrite(Look(s, UnlinkTarget(op, s)), w);
      RunAlone(w, op, s) == (if kept then NoAccess else Ok, UnlinkLeaves(w, op, s))
  {
    UnlinkReads(w, op, s);
    var a := Handle(Look(s, op.p), w, Get).0;
    var es, f := EntriesOf(s[op.p]), UnlinkTarget(op, s);
    assert DirOk(s[op.p]);
    UnlinkRemovesExactly(es, op.name);
    assert Lists(s, op.p, Position(es, op.name), f);
    UnlinkWrites(w, op, s, a, Encode(RemoveAt(es, Position(es, op.name))), f);
  }

  lemma UnlinkLeavesAlone(rank: Rank, w: Caller, op: Op, s: Store)
    requires op.Unlink? && IsDir(op.p) && FsOk(rank, s) && Clear(s, op) && !UnlinkEdits(w, op, s)
    ensures RunAlone(w, op, s).1 == s
    ensures RunAlone(w, op, s).0 ==
            if CanRead(Look(s, op.p), w) && (op.p in s ==> !Listed(EntriesOf(s[op.p]), op.name))
            then NoEnt else NoAccess
  {
    UnlinkReads(w, op, s);
    var a := Handle(Look(s, op.p), w, Get).0;
    if a.Content? {
      var es := EntriesOf(s[op.p]);
      assert DirOk(s[op.p]);
      UnlinkAgreesIff(es, op.name);
      if Listed(es, op.name) {
        UnlinkRemovesExactly(es, op.name);
        UnlinkRefused(w, op, s, a, Encode(RemoveAt(es, Position(es, op.name))), UnlinkTarget(op, s));
      }
    }
  }

  // The entry goes first and for good.  The extent goes too unless the caller
  // may not write it: then the answer is NOACCESS and the extent is orphaned.
  lemma UnlinkAlone(rank: Rank, w: Caller, op: Op, s: Store)
    requires op.Unlink? && IsDir(op.p) && FsOk(rank, s) && Clear(s, op)
    ensures !UnlinkEdits(w, op, s) ==>
            && RunAlone(w, op, s).1 == s
            && RunAlone(w, op, s).0 ==
               if CanRead(Look(s, op.p), w) && (op.p in s ==> !Listed(EntriesOf(s[op.p]), op.name))
               then NoEnt else NoAccess
    ensures UnlinkEdits(w, op, s) ==>
            var kept := !CanWrite(Look(s, UnlinkTarget(op, s)), w);
            RunAlone(w, op, s) == (if kept then NoAccess else Ok, UnlinkLeaves(w, op, s))
  {
    if UnlinkEdits(w, op, s) {
      UnlinkChanges(rank, w, op, s);
    } else {
      UnlinkLeavesAlone(rank, w, op, s);
    }
  }

  // ---- the file system invariant is kept by every whole operation ----

  lemma EntriesOfEncoded(e: Extent, es: seq<Entry>)
    requires WellFormed(es)
    ensures EntriesOf(e.(content := Encode(es))) == es
  {
    ReaddirAgrees(es);
  }

  lemma EmptyExtent(mode: nat, uid: nat, gid: nat)
    ensures EntriesOf(Extent("", mode, uid, gid)) == []
    ensures DirOk(Extent("", mode, uid, gid))
  {
    assert Split("") == [];
    assert Encode([]) == "";
  }

  lemma CreateListings(s: Store, t: Store, p: nat, e: Entry, ext: Extent)
    requires p in s && p != e.inum && DirOk(s[p]) && GoodDir(EntriesOf(s[p]) + [e]) && ext.content == ""
    requires t == s[p := s[p].(content := Encode(EntriesOf(s[p]) + [e]))][e.inum := ext]
    ensures DirsOk(s) ==> DirsOk(t)
    ensures forall d: nat, i: nat, n: nat | Lists(t, d, i, n) ::
      Lists(s, d, i, n) || (d == p && i == |EntriesOf(s[p])| && n == e.inum)
  {
    var es := EntriesOf(s[p]);
    EntriesOfEncoded(s[p], es + [e]);
    EmptyExtent(ext.mode, ext.uid, ext.gid);
    assert t[e.inum] == Extent("", ext.mode, ext.uid, ext.gid);
    assert EntriesOf(t[p]) == es + [e];
    if DirsOk(s) {
      forall d | d in t && IsDir(d) ensures DirOk(t[d]) {
        if d != p && d != e.inum { assert DirOk(s[d]); }
      }
    }
  }

  lemma CreateKeepsFs(rank: Rank, w: Caller, op: Op, s: Store)
    requires op.Create? && FsOk(rank, s) && OpOk(rank, op) && Fresh(s, op.f)
    ensures FsOk(rank, RunAlone(w, op, s).1)
  {
    CreateAllOrNothing(w, op, s);
    if RunAlone(w, op, s).0 == Ok {
      var t := RunAlone(w, op, s).1;
      assert DirOk(s[op.p]);
      CreateListings(s, t, op.p, Entry(op.name, op.f), Extent("", op.mode, op.uid, op.gid));
      CreateKeeps(rank, s, t, op.p, |EntriesOf(s[op.p])|, op.f);
    }
  }

  // One new listing of a fresh inum.
  lemma CreateKeeps(rank: Rank, s: Store, t: Store, p: nat, k: nat, f: nat)
    requires FsOk(rank, s) && Fresh(s, f) && rank(p) < rank(f)
    requires forall n | n in s :: n in t
    requires f in t
    requires forall d: nat, i: nat, n: nat | Lists(t, d, i, n) :: Lists(s, d, i, n) || (d == p && i == k && n == f)
    ensures NoDangling(t) && ListedOnce(t) && Ranked(rank, t)
  {
    forall d1: nat, i1: nat, d2: nat, i2: nat, n: nat | Lists(t, d1, i1, n) && Lists(t, d2, i2, n)
      ensures d1 == d2 && i1 == i2
    {
      assert !Lists(s, d1, i1, f) && !Lists(s, d2, i2, f);
    }
  }

  lemma UnlinkKeepsFs(rank: Rank, w: Caller, op: Op, s: Store)
    requires op.Unlink? && FsOk(rank, s) && OpOk(rank, op) && Clear(s, op)
    ensures FsOk(rank, RunAlone(w, op, s).1)
  {
    if UnlinkEdits(w, op, s) {
      UnlinkChanges(rank, w, op, s);
      LeavesKeepsFs(rank, w, op, s, UnlinkLeaves(w, op, s));
    } else {
      UnlinkLeavesAlone(rank, w, op, s);
    }
  }

  // The parent is edited, another extent may be gone, the rest is as before.
  lemma LeavesFrame(rank: Rank, w: Caller, op: Op, s: Store, t: Store)
    requires op.Unlink? && FsOk(rank, s) && OpOk(rank, op) && UnlinkEdits(w, op, s) && t == UnlinkLeaves(w, op, s)
    ensures var es, k, f := EntriesOf(s[op.p]), Position(EntriesOf(s[op.p]), op.name), UnlinkTarget(op, s);
      && Lists(s, op.p, k, f) && f != op.p
      && op.p in t && t[op.p] == s[op.p].(content := Encode(RemoveAt(es, k)))
      && (forall n | n in s && n != f :: n in t)
      && (forall d | d in t && d != op.p :: d in s && t[d] == s[d])
  {
    assert DirOk(s[op.p]);
    assert Lists(s, op.p, Position(EntriesOf(s[op.p]), op.name), UnlinkTarget(op, s));
  }

  lemma LeavesKeepsFs(rank: Rank, w: Caller, op: Op, s: Store, t: Store)
    requires op.Unlink? && FsOk(rank, s) && OpOk(rank, op) && UnlinkEdits(w, op, s) && t == UnlinkLeaves(w, op, s)
    ensures FsOk(rank, t)
  {
    var es := EntriesOf(s[op.p]);
    var k := Position(es, op.name);
    assert DirOk(s[op.p]);
    RemoveKeepsGood(es, k);
    EntriesOfEncoded(s[op.p], RemoveAt(es, k));
    LeavesFrame(rank, w, op, s, t);
    UnlinkKeeps(rank, s, t, op.p, k, UnlinkTarget(op, s));
    forall d | d in t && IsDir(d) ensures DirOk(t[d]) {
      if d != op.p { assert DirOk(s[d]); }
    }
  }

  // Position of a listing before entry k of p was removed.
  function IndexBefore(p: nat, k: nat, d: nat, i: nat): nat {
    if d == p && i >= k then i + 1 else i
  }

  lemma ListedBefore(s: Store, t: Store, p: nat, k: nat, d: nat, i: nat, n: nat)
    requires p in s && k < |EntriesOf(s[p])| && p in t && IsDir(p)
    requires EntriesOf(t[p]) == RemoveAt(EntriesOf(s[p]), k)
    requires forall d | d in t && d != p :: d in s && t[d] == s[d]
    requires Lists(t, d, i, n)
    ensures Lists(s, d, IndexBefore(p, k, d, i), n)
  {
  }

  // Every listing of t was one of s, shifted where entry k of p is gone.
  ghost predicate Shifted(s: Store, t: Store, p: nat, k: nat) {
    forall d: nat, i: nat, n: nat | Lists(t, d, i, n) :: Lists(s, d, IndexBefore(p, k, d, i), n)
  }

  lemma ShiftedOnce(s: Store, t: Store, p: nat, k: nat)
    requires ListedOnce(s) && Shifted(s, t, p, k)
    ensures ListedOnce(t)
  {
    forall d1: nat, i1: nat, d2: nat, i2: nat, n: nat | Lists(t, d1, i1, n) && Lists(t, d2, i2, n)
      ensures d1 == d2 && i1 == i2
    {
      assert Lists(s, d1, IndexBefore(p, k, d1, i1), n) && Lists(s, d2, IndexBefore(p, k, d2, i2), n);
    }
  }

  lemma ShiftedNoDangling(s: Store, t: Store, p: nat, k: nat, f: nat)
    requires ListedOnce(s) && NoDangling(s) && Shifted(s, t, p, k) && Lists(s, p, k, f)
    requires forall n | n in s && n != f :: n in t
    ensures NoDangling(t)
  {
    forall d: nat, i: nat, n: nat | Lists(t, d, i, n) ensures n in t {
      assert Lists(s, d, IndexBefore(p, k, d, i), n);
      assert IndexBefore(p, k, p, i) != k;
    }
  }

  // One listing less, and its extent possibly gone.
  lemma UnlinkKeeps(rank: Rank, s: Store, t: Store, p: nat, k: nat, f: nat)
    requires FsOk(rank, s) && Lists(s, p, k, f)
    requires p in t && EntriesOf(t[p]) == RemoveAt(EntriesOf(s[p]), k)
    requires forall n | n in s && n != f :: n in t
    requires forall d | d in t && d != p :: d in s && t[d] == s[d]
    ensures NoDangling(t) && ListedOnce(t) && Ranked(rank, t)
  {
    assert Shifted(s, t, p, k) by {
      forall d: nat, i: nat, n: nat | Lists(t, d, i, n) ensures Lists(s, d, IndexBefore(p, k, d, i), n) {
        ListedBefore(s, t, p, k, d, i, n);
      }
    }
    assert NoDangling(t) by { ShiftedNoDangling(s, t, p, k, f); }
    assert ListedOnce(t) by { ShiftedOnce(s, t, p, k); }
    assert Ranked(rank, t);
  }

  // Same extents, same directory texts.
  ghost predicate SameDirs(s: Store, t: Store) {
    t.Keys == s.Keys && forall d | d in s && IsDir(d) :: t[d].content == s[d].content
  }

  lemma SameDirsKeepFs(rank: Rank, s: Store, t: Store)
    requires FsOk(rank, s) && SameDirs(s, t)
    ensures FsOk(rank, t)
  {
    forall d: nat, i: nat, n: nat ensures Lists(t, d, i, n) <==> Lists(s, d, i, n) { }
    forall d | d in t && IsDir(d) ensures DirOk(t[d]) { assert DirOk(s[d]); }
  }

  // A write or truncate that has read its file has found it there, or is done.
  ghost predicate FileRead(op: Op, h: seq<Answer>, s: Store) {
    (op.Write? || op.Truncate?) && |h| >= 2 ==>
      Denied(h[1]) || Missing(h[1]) || (h[1].Content? && (|h| == 2 ==> op.f in s))
  }

  lemma OtherCallKeepsDirs(rank: Rank, w: Caller, op: Op, h: seq<Answer>, s: Store)
    requires !op.Create? && !op.Unlink? && OpOk(rank, op) && FileRead(op, h, s) && Next(op, h).Call?
    ensures var (a, t) := Serve(w, s, Next(op, h).id, Next(op, h).rq); SameDirs(s, t) && FileRead(op, h + [a], t)
  {
    SetSame(s, Next(op, h).id);
  }

  // From answers h on, an operation other than create and unlink leaves the
  // directories alone.
  lemma {:induction false} OthersKeepDirsFrom(rank: Rank, w: Caller, op: Op, h: seq<Answer>, s: Store)
    requires !op.Create? && !op.Unlink? && OpOk(rank, op) && FileRead(op, h, s)
    ensures SameDirs(s, RunFrom(w, op, h, s).1)
    decreases if |h| < LONGEST then LONGEST - |h| else 0
  {
    match Next(op, h)
    case Finish(_) =>
    case Lock(_) => OthersKeepDirsFrom(rank, w, op, h + [Granted], s);
    case Call(id, rq) =>
      var (a, t) := Serve(w, s, id, rq);
      OtherCallKeepsDirs(rank, w, op, h, s);
      OthersKeepDirsFrom(rank, w, op, h + [a], t);
  }

  // No whole operation, whatever its answer, breaks the file system.
  lemma OperationKeepsFs(rank: Rank, w: Caller, op: Op, s: Store)
    requires FsOk(rank, s) && OpOk(rank, op) && Clear(s, op)
    ensures FsOk(rank, RunAlone(w, op, s).1)
  {
    if op.Create? {
      CreateKeepsFs(rank, w, op, s);
    } else if op.Unlink? {
      UnlinkKeepsFs(rank, w, op, s);
    } else {
      OthersKeepDirsFrom(rank, w, op, [], s);
      SameDirsKeepFs(rank, s, RunAlone(w, op, s).1);
    }
  }
}
