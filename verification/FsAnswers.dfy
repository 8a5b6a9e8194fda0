// What each whole operation that neither makes nor unlinks a file answers and does,
// run alone, and the laws a user sees over two operations.
module FsAnswers {
  import opened Wrappers
  import opened DirText
  import opened DirOps
  import opened FileData
  import opened Extents
  import opened FsProgram
  import opened FsMeaning

  // ---- the three shapes of a run ----

  // Operations on one extent take its lock and make their first call on it.
  lemma FirstCall(w: Caller, op: Op, s: Store, id: nat, rq: Request)
    requires Next(op, []) == Lock(id) && Next(op, [Granted]) == Call(id, rq) && (rq == Get || rq == GetAttr)
    ensures RunAlone(w, op, s) == RunFrom(w, op, [Granted, Handle(Look(s, id), w, rq).0], s)
  {
    RunLock(w, op, [], s);
    assert [] + [Granted] == [Granted];
    var a := Handle(Look(s, id), w, rq).0;
    SetSame(s, id);
    RunCall(w, op, [Granted], s, a, s);
    assert [Granted] + [a] == [Granted, a];
  }

  // Those that change it make one more call.
  lemma SecondCall(w: Caller, op: Op, s: Store, id: nat, a: Answer, rq: Request)
    requires Next(op, [Granted, a]) == Call(id, rq)
    ensures var (b, e) := Handle(Look(s, id), w, rq);
            RunFrom(w, op, [Granted, a], s) == RunFrom(w, op, [Granted, a, b], Set(s, id, e))
  {
    var (b, e) := Handle(Look(s, id), w, rq);
    RunCall(w, op, [Granted, a], s, b, Set(s, id, e));
    assert [Granted, a] + [b] == [Granted, a, b];
  }

  lemma Ends(w: Caller, op: Op, h: seq<Answer>, s: Store, r: Result)
    requires Next(op, h) == FsProgram.Finish(r)
    ensures RunFrom(w, op, h, s) == (r, s)
  {
  }

  // ---- directories ----

  // lookup changes nothing.  Of a directory that can be read it answers the inum
  // of the entry of that name, or NOENT when there is none.
  lemma LookupAlone(w: Caller, p: nat, name: string, s: Store)
    requires p in s ==> DirOk(s[p]) && !MistakenForInum(EntriesOf(s[p]), name)
    ensures RunAlone(w, Lookup(p, name), s).1 == s
    ensures var r := RunAlone(w, Lookup(p, name), s).0;
            && (!CanRead(Look(s, p), w) ==> r == NoAccess)
            && (CanRead(Look(s, p), w) && p !in s ==> r == IoErr)
            && (CanRead(Look(s, p), w) && p in s ==>
                  && (forall i | 0 <= i < |EntriesOf(s[p])| && EntriesOf(s[p])[i].name == name ::
                        r == OkInum(EntriesOf(s[p])[i].inum))
                  && ((forall i | 0 <= i < |EntriesOf(s[p])| :: EntriesOf(s[p])[i].name != name) ==> r == NoEnt))
  {
    var op := Lookup(p, name);
    FirstCall(w, op, s, p, Get);
    var a := Handle(Look(s, p), w, Get).0;
    assert Next(op, [Granted, a]) == AfterLookup(a, name);
    Ends(w, op, [Granted, a], s, AfterLookup(a, name).r);
    if CanRead(Look(s, p), w) && p in s {
      var es := EntriesOf(s[p]);
      LookupAgreesIff(es, name);
      forall i | 0 <= i < |es| && es[i].name == name ensures i == Position(es, name) {
        NamesApart(es, i, Position(es, name));
      }
    }
  }

  lemma NamesApart(es: seq<Entry>, i: nat, j: nat)
    requires GoodDir(es) && i < |es| && j < |es| && es[i].name == es[j].name
    ensures i == j
  {
    assert i < j ==> RemoveAt(es, j)[i] == es[i];
    assert i > j ==> RemoveAt(es, j)[i - 1] == es[i];
    NamesDistinct(es, j, es[i].name);
  }

  // readdir changes nothing and lists the entries in order.
  lemma ReaddirAlone(w: Caller, p: nat, s: Store, es: seq<Entry>)
    requires p in s ==> WellFormed(es) && s[p].content == Encode(es)
    ensures RunAlone(w, Readdir(p), s) ==
            (if !CanRead(Look(s, p), w) then NoAccess else if p !in s then IoErr else OkList(es), s)
  {
    var op := Readdir(p);
    FirstCall(w, op, s, p, Get);
    var a := Handle(Look(s, p), w, Get).0;
    if p in s { ReaddirAgrees(es); }
    Ends(w, op, [Granted, a], s, AfterReaddir(a).r);
  }

  // create on an inum that has an extent already is not all or nothing: the entry is
  // added; when the caller may not write the extent it stays as it is and the answer
  // is NOACCESS; otherwise the contents are lost, and mode and owner are set.
  lemma CreateOverExisting(w: Caller, op: Op, s: Store)
    requires op.Create? && op.f != op.p && op.p in s && op.f in s
    requires CanRead(Look(s, op.p), w) && CanWrite(Look(s, op.p), w)
    requires CreateText(s[op.p].content, op.name, op.f).Added?
    ensures var t := With(s, op.p, s[op.p].content + op.name + "/" + Dec(op.f) + "/");
            RunAlone(w, op, s) ==
            if CanWrite(Look(s, op.f), w) then (Ok, t[op.f := Extent("", op.mode, op.uid, op.gid)]) else (NoAccess, t)
  {
    var a := Content(s[op.p].content);
    CreateReads(w, op, s);
    var t := With(s, op.p, s[op.p].content + op.name + "/" + Dec(op.f) + "/");
    RunCall(w, op, [Granted, Granted, a], s, Granted, t);
    assert [Granted, Granted, a] + [Granted] == [Granted, Granted, a, Granted];
    if CanWrite(Look(s, op.f), w) {
      PutsOver(w, op, t, a);
      SetsOver(w, op, With(t, op.f, ""), a);
      var e := Extent("", op.mode, op.uid, op.gid);
      assert With(t, op.f, "")[op.f := e] == t[op.f := e];
    } else {
      var d := Extents.Done(NOACCESS);
      SetSame(t, op.f);
      RunCall(w, op, [Granted, Granted, a, Granted], t, d, t);
      assert [Granted, Granted, a, Granted] + [d] == [Granted, Granted, a, Granted, d];
      Ends(w, op, [Granted, Granted, a, Granted, d], t, NoAccess);
    }
  }

  // The second put, and then getattr and setattr.
  lemma PutsOver(w: Caller, op: Op, t: Store, a: Answer)
    requires op.Create? && op.f in t && CanWrite(Look(t, op.f), w)
    requires a.Content? && CreateText(a.buf, op.name, op.f).Added?
    ensures RunFrom(w, op, [Granted, Granted, a, Granted], t) ==
            RunFrom(w, op, [Granted, Granted, a, Granted, Granted], With(t, op.f, ""))
  {
    RunCall(w, op, [Granted, Granted, a, Granted], t, Granted, With(t, op.f, ""));
    assert [Granted, Granted, a, Granted] + [Granted] == [Granted, Granted, a, Granted, Granted];
  }

  lemma SetsOver(w: Caller, op: Op, t: Store, a: Answer)
    requires op.Create? && op.f in t && t[op.f].content == "" && CanWrite(Look(t, op.f), w)
    requires a.Content? && CreateText(a.buf, op.name, op.f).Added?
    ensures RunFrom(w, op, [Granted, Granted, a, Granted, Granted], t) ==
            (Ok, t[op.f := Extent("", op.mode, op.uid, op.gid)])
  {
    var at, g := Handle(Look(t, op.f), w, GetAttr).0, Granted;
    var u := t[op.f := Extent("", op.mode, op.uid, op.gid)];
    SetSame(t, op.f);
    RunCall(w, op, [g, g, a, g, g], t, at, t);
    assert [g, g, a, g, g] + [at] == [g, g, a, g, g, at];
    RunCall(w, op, [g, g, a, g, g, at], t, g, u);
    assert [g, g, a, g, g, at] + [g] == [g, g, a, g, g, at, g];
    Ends(w, op, [g, g, a, g, g, at, g], u, Ok);
  }

  // ---- files ----

  // Bytes off to off + size of a file, as many as there are.
  predicate IsPart(d: string, c: string, off: nat, size: nat) {
    && off <= |c|
    && |d| == (if size <= |c| - off then size else |c| - off)
    && forall i | 0 <= i < |d| :: d[i] == c[off + i]
  }

  // read changes nothing and answers the bytes asked for, as many as there are; an
  // offset past the end makes the client throw.
  lemma ReadAlone(w: Caller, f: nat, off: nat, size: nat, s: Store)
    ensures RunAlone(w, Read(f, off, size), s).1 == s
    ensures var r := RunAlone(w, Read(f, off, size), s).0;
            if !CanRead(Look(s, f), w) then r == NoAccess
            else if f !in s then r == NoEnt
            else if off > |s[f].content| then r == Crashed
            else r.OkData? && IsPart(r.data, s[f].content, off, size)
  {
    var op := Read(f, off, size);
    FirstCall(w, op, s, f, Get);
    var a := Handle(Look(s, f), w, Get).0;
    assert Next(op, [Granted, a]) == AfterRead(a, off, size);
    Ends(w, op, [Granted, a], s, AfterRead(a, off, size).r);
  }

  // The store with the contents of one extent replaced.
  function With(s: Store, f: nat, c: string): Store
    requires f in s
  {
    s[f := s[f].(content := c)]
  }

  lemma Updates(w: Caller, op: Op, s: Store, f: nat, c: string)
    requires Next(op, []) == Lock(f) && Next(op, [Granted]) == Call(f, Get)
    requires f in s && CanRead(Look(s, f), w)
    requires Next(op, [Granted, Content(s[f].content)]) == Call(f, Put(c))
    requires forall b: Answer :: Next(op, [Granted, Content(s[f].content), b]) ==
                                 FsProgram.Finish(if b == Extents.Done(NOACCESS) then NoAccess else Ok)
    ensures RunAlone(w, op, s) == if CanWrite(Look(s, f), w) then (Ok, With(s, f, c)) else (NoAccess, s)
  {
    FirstCall(w, op, s, f, Get);
    var a := Content(s[f].content);
    SecondCall(w, op, s, f, a, Put(c));
    var b := Handle(Look(s, f), w, Put(c)).0;
    SetSame(s, f);
    Ends(w, op, [Granted, a, b], Set(s, f, Handle(Look(s, f), w, Put(c)).1),
         if b == Extents.Done(NOACCESS) then NoAccess else Ok);
  }

  // The bytes of a file after a write: new ones in range, zeros in the gap, old ones
  // elsewhere.
  predicate IsWritten(d: string, c: string, off: nat, data: string) {
    && |d| == (if off + |data| > |c| then off + |data| else |c|)
    && (forall i | off <= i < off + |data| :: d[i] == data[i - off])
    && (forall i | 0 <= i < |c| && !(off <= i < off + |data|) :: d[i] == c[i])
    && (forall i | |c| <= i < off :: d[i] == '\0')
  }

  // write answers OK and writes the bytes at the offset, in this file only, or it
  // answers NOENT or NOACCESS and changes nothing.
  lemma WriteAlone(w: Caller, f: nat, off: nat, data: string, s: Store) returns (c: string)
    ensures f in s && CanRead(Look(s, f), w) && CanWrite(Look(s, f), w) ==>
            RunAlone(w, Write(f, off, data), s) == (Ok, With(s, f, c)) && IsWritten(c, s[f].content, off, data)
    ensures !(f in s && CanRead(Look(s, f), w) && CanWrite(Look(s, f), w)) ==>
            RunAlone(w, Write(f, off, data), s) ==
            (if f !in s && CanRead(None, w) then NoEnt else NoAccess, s)
  {
    var op := Write(f, off, data);
    c := "";
    FirstCall(w, op, s, f, Get);
    var a := Handle(Look(s, f), w, Get).0;
    if a.Content? {
      c := WriteText(s[f].content, off, data);
      WriteSpec(s[f].content, off, data);
      Updates(w, op, s, f, c);
    } else {
      Ends(w, op, [Granted, a], s, if f !in s && CanRead(None, w) then NoEnt else NoAccess);
    }
  }

  // truncate cuts its argument off the end; more than there is makes the client
  // throw.
  lemma TruncateAlone(w: Caller, f: nat, cut: nat, s: Store)
    ensures RunAlone(w, Truncate(f, cut), s) ==
            if !CanRead(Look(s, f), w) then (NoAccess, s)
            else if f !in s then (NoEnt, s)
            else if cut > |s[f].content| then (Crashed, s)
            else if !CanWrite(Look(s, f), w) then (NoAccess, s)
            else (Ok, With(s, f, s[f].content[..|s[f].content| - cut]))
  {
    var op := Truncate(f, cut);
    FirstCall(w, op, s, f, Get);
    var a := Handle(Look(s, f), w, Get).0;
    if a.Content? && cut <= |s[f].content| {
      Updates(w, op, s, f, s[f].content[..|s[f].content| - cut]);
    } else {
      Ends(w, op, [Granted, a], s, if !CanRead(Look(s, f), w) then NoAccess else if f !in s then NoEnt else Crashed);
    }
  }

  // chmod changes the mode alone.
  lemma ChmodAlone(w: Caller, f: nat, mode: nat, s: Store)
    ensures RunAlone(w, Chmod(f, mode), s) ==
            if f !in s then (NoEnt, s)
            else if !CanWrite(Look(s, f), w) then (NoAccess, s)
            else (Ok, s[f := Extent(s[f].content, mode, s[f].uid, s[f].gid)])
  {
    var op := Chmod(f, mode);
    FirstCall(w, op, s, f, GetAttr);
    var a := Handle(Look(s, f), w, GetAttr).0;
    if f in s {
      var rq := SetAttr(mode, s[f].uid, s[f].gid);
      SecondCall(w, op, s, f, a, rq);
      var (b, e) := Handle(Look(s, f), w, rq);
      SetSame(s, f);
      Ends(w, op, [Granted, a, b], Set(s, f, e), if b == Extents.Done(NOACCESS) then NoAccess else Ok);
    } else {
      Ends(w, op, [Granted, a], s, NoEnt);
    }
  }

  // ---- laws over two operations ----

  // What was written is read back, by anyone who may read.
  lemma ReadAfterWrite(w: Caller, v: Caller, f: nat, off: nat, data: string, s: Store)
    requires RunAlone(w, Write(f, off, data), s).0 == Ok
    ensures var t := RunAlone(w, Write(f, off, data), s).1;
            CanRead(Look(t, f), v) ==> RunAlone(v, Read(f, off, |data|), t) == (OkData(data), t)
  {
    var c := WriteAlone(w, f, off, data, s);
    var t := RunAlone(w, Write(f, off, data), s).1;
    ReadAlone(v, f, off, |data|, t);
    if CanRead(Look(t, f), v) {
      SameBytes(RunAlone(v, Read(f, off, |data|), t).0.data, data);
    }
  }

  // A created file is found under its name, by anyone who may read the directory.
  lemma LookupAfterCreate(w: Caller, v: Caller, op: Op, s: Store)
    requires op.Create? && op.f !in s && (op.p in s ==> DirOk(s[op.p]) && SlashFree(op.name) && op.f < INUM_LIMIT)
    requires RunAlone(w, op, s).0 == Ok
    ensures var t := RunAlone(w, op, s).1;
            CanRead(Look(t, op.p), v) ==> RunAlone(v, Lookup(op.p, op.name), t) == (OkInum(op.f), t)
  {
    CreateAllOrNothing(w, op, s);
    var t, es := RunAlone(w, op, s).1, EntriesOf(s[op.p]) + [Entry(op.name, op.f)];
    EntriesOfEncoded(s[op.p], es);
    assert op.p != op.f && EntriesOf(t[op.p]) == es && es[|es| - 1].name == op.name;
    assert Listed(es, op.name);
    LookupAlone(v, op.p, op.name, t);
  }

  // An unlinked name is not found again.
  lemma LookupAfterUnlink(rank: Rank, w: Caller, v: Caller, op: Op, s: Store)
    requires op.Unlink? && IsDir(op.p) && FsOk(rank, s) && Clear(s, op) && OpOk(rank, op) && UnlinkEdits(w, op, s)
    ensures var t := RunAlone(w, op, s).1;
            op.p in t && CanRead(Look(t, op.p), v) && !MistakenForInum(EntriesOf(t[op.p]), op.name) ==>
              RunAlone(v, Lookup(op.p, op.name), t) == (NoEnt, t)
  {
    UnlinkChanges(rank, w, op, s);
    var t, es := RunAlone(w, op, s).1, EntriesOf(s[op.p]);
    LeavesFrame(rank, w, op, s, t);
    assert DirOk(s[op.p]);
    UnlinkRemovesExactly(es, op.name);
    EntriesOfEncoded(s[op.p], RemoveAt(es, Position(es, op.name)));
    if !MistakenForInum(EntriesOf(t[op.p]), op.name) { LookupAlone(v, op.p, op.name, t); }
  }
}
