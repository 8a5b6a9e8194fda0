// The extent server: contents, attributes and the permission predicates.
module Extents {

  import opened Wrappers

  // extent_protocol::attr
  datatype Attr = Attr(atime: nat, mtime: nat, ctime: nat, size: nat, mode: nat, uid: nat, gid: nat)

  datatype Status = OK | NOENT | NOACCESS

  // One extent as the clients see it: times left aside, size the content's length.
  datatype Extent = Extent(content: string, mode: nat, uid: nat, gid: nat)
  type Store = map<nat, Extent>

  // Who calls: user id and whether the key matches, under fixed groups.
  datatype Caller = Caller(uid: nat, authentic: bool, groups: set<nat>)

  const NEW_MODE: nat := 0x1FF  // 0777

  function Bit(mode: nat, mask: nat): bool
    requires mask > 0
  {
    (mode / mask) % 2 == 1
  }

  predicate Permits(e: Extent, who: Caller, other: nat, owner: nat, group: nat)
    requires other > 0 && owner > 0 && group > 0
  {
    Bit(e.mode, other) || (e.uid == who.uid && Bit(e.mode, owner)) || (e.gid in who.groups && Bit(e.mode, group))
  }

  predicate CanRead(cur: Option<Extent>, who: Caller) {
    who.authentic && (cur.Some? ==> Permits(cur.value, who, 0x4, 0x100, 0x20))
  }

  predicate CanWrite(cur: Option<Extent>, who: Caller) {
    who.authentic && (cur.Some? ==> Permits(cur.value, who, 0x2, 0x80, 0x10))
  }

  // The permission bits in octal digits, for user, group and others.  Reading needs
  // a digit of 4 or more, writing one of 2, 3, 6 or 7; the owner may use his own
  // digit and that of others, a member of the group that of the group and of others.
  lemma PermissionDigits(e: Extent, who: Caller, high: nat, u: nat, g: nat, o: nat)
    requires u < 8 && g < 8 && o < 8 && e.mode == 512 * high + 64 * u + 8 * g + o
    ensures CanRead(Some(e), who) <==>
            who.authentic && (o >= 4 || (who.uid == e.uid && u >= 4) || (e.gid in who.groups && g >= 4))
    ensures CanWrite(Some(e), who) <==>
            who.authentic && (o in {2, 3, 6, 7} || (who.uid == e.uid && u in {2, 3, 6, 7})
                              || (e.gid in who.groups && g in {2, 3, 6, 7}))
    ensures (CanRead(None, who) <==> who.authentic) && (CanWrite(None, who) <==> who.authentic)
  {
    var users := 8 * high + u;
    var groups := 8 * users + g;
    LastDigit(e.mode, groups, o);
    ShiftedBit(e.mode, groups, o);
    LastDigit(groups, users, g);
    ShiftedBit(groups, users, g);
    LastDigit(users, high, u);
  }

  // The bits of the last digit, and of the ones before it.
  lemma LastDigit(mode: nat, n: nat, d: nat)
    requires d < 8 && mode == 8 * n + d
    ensures (Bit(mode, 0x4) <==> d >= 4) && (Bit(mode, 0x2) <==> d in {2, 3, 6, 7})
  {
    assert mode / 4 == 2 * n + d / 4;
    assert mode / 2 == 4 * n + d / 2;
  }

  lemma ShiftedBit(mode: nat, n: nat, low: nat)
    requires mode == 8 * n + low && low < 8
    ensures (Bit(mode, 0x20) <==> Bit(n, 0x4)) && (Bit(mode, 0x10) <==> Bit(n, 0x2))
    ensures (Bit(mode, 0x100) <==> Bit(n, 0x20)) && (Bit(mode, 0x80) <==> Bit(n, 0x10))
  {
    assert mode / 8 == n;
    assert mode / 32 == n / 4;
    assert mode / 16 == n / 2;
    assert mode / 256 == n / 32;
    assert mode / 128 == n / 16;
  }

  // ---- the handlers, as they act on the one extent they are called for ----

  datatype Request = Get | Put(buf: string) | GetAttr | SetAttr(mode: nat, uid: nat, gid: nat) | Remove

  datatype Response =
    | Content(buf: string)
    | Attrs(mode: nat, uid: nat, gid: nat, size: nat)
    | Done(st: Status)

  // The owner of a record that put creates is not initialised by the code
  // until setattr; here it is 0.
  function Handle(cur: Option<Extent>, who: Caller, rq: Request): (r: (Response, Option<Extent>)) {
    match rq
    case Get =>
      if !CanRead(cur, who) then (Done(NOACCESS), cur)
      else if cur.None? then (Done(NOENT), cur)
      else (Content(cur.value.content), cur)
    case Put(buf) =>
      if !CanWrite(cur, who) then (Done(NOACCESS), cur)
      else (Done(OK), Some(match cur case Some(e) => e.(content := buf) case None => Extent(buf, NEW_MODE, 0, 0)))
    case GetAttr =>
      if cur.None? then (Done(NOENT), cur)
      else (Attrs(cur.value.mode, cur.value.uid, cur.value.gid, |cur.value.content|), cur)
    case SetAttr(mode, uid, gid) =>
      if !CanWrite(cur, who) then (Done(NOACCESS), cur)
      else if cur.None? then (Done(NOENT), cur)
      else (Done(OK), Some(Extent(cur.value.content, mode, uid, gid)))
    case Remove =>
      if !CanWrite(cur, who) then (Done(NOACCESS), cur)
      else if cur.None? then (Done(NOENT), cur)
      else (Done(OK), None)
  }

  // ---- laws over two calls ----

  // After a put: the content is read back, its length is the size, and mode, owner
  // and group are as before, or those of a new record.
  lemma AfterPut(cur: Option<Extent>, who: Caller, buf: string, v: Caller)
    requires Handle(cur, who, Put(buf)).0 == Done(OK)
    ensures var e := Handle(cur, who, Put(buf)).1;
            && Handle(e, v, Get).0 == (if CanRead(e, v) then Content(buf) else Done(NOACCESS))
            && Handle(e, v, GetAttr).0 ==
               (match cur case Some(x) => Attrs(x.mode, x.uid, x.gid, |buf|) case None => Attrs(511, 0, 0, |buf|))
  {
  }

  // After a setattr of an extent: getattr tells the new values and the content is as
  // before.  Whether either is granted is up to the attributes before the call.
  lemma AfterSetAttr(cur: Option<Extent>, who: Caller, mode: nat, uid: nat, gid: nat, v: Caller)
    ensures Handle(cur, who, SetAttr(mode, uid, gid)).0 ==
            if !CanWrite(cur, who) then Done(NOACCESS) else if cur.None? then Done(NOENT) else Done(OK)
    ensures Handle(cur, who, SetAttr(mode, uid, gid)).0 == Done(OK) ==>
            Handle(Handle(cur, who, SetAttr(mode, uid, gid)).1, v, GetAttr).0 ==
            Attrs(mode, uid, gid, |cur.value.content|)
    ensures Handle(cur, who, SetAttr(mode, uid, gid)).0 != Done(OK) ==>
            Handle(cur, who, SetAttr(mode, uid, gid)).1 == cur
  {
  }

  // After a remove there is nothing to get, until the next put.
  lemma AfterRemove(cur: Option<Extent>, who: Caller, v: Caller)
    ensures Handle(cur, who, Remove).0 ==
            if !CanWrite(cur, who) then Done(NOACCESS) else if cur.None? then Done(NOENT) else Done(OK)
    ensures Handle(cur, who, Remove).0 == Done(OK) ==>
            var e := Handle(cur, who, Remove).1;
            && Handle(e, v, Get).0 == (if v.authentic then Done(NOENT) else Done(NOACCESS))
            && Handle(e, v, GetAttr).0 == Done(NOENT)
    ensures Handle(cur, who, Remove).0 != Done(OK) ==> Handle(cur, who, Remove).1 == cur
  {
  }

  // Refused calls change nothing, and reading never does.
  lemma RefusedChangesNothing(cur: Option<Extent>, who: Caller, rq: Request)
    ensures Handle(cur, who, rq).0 in {Done(NOACCESS), Done(NOENT)} || rq == Get || rq == GetAttr
            ==> Handle(cur, who, rq).1 == cur
    ensures Handle(cur, who, rq).0 == Done(NOACCESS) <==>
            match rq case Get => !CanRead(cur, who) case GetAttr => false case _ => !CanWrite(cur, who)
  {
  }

  // After setattr to mode 0600 nobody but the owner gets or puts.
  lemma PrivateMode(cur: Option<Extent>, who: Caller, uid: nat, gid: nat, v: Caller, buf: string)
    requires Handle(cur, who, SetAttr(384, uid, gid)).0 == Done(OK)
    ensures var e := Handle(cur, who, SetAttr(384, uid, gid)).1;
            if v.authentic && v.uid == uid
            then Handle(e, v, Get).0 == Content(cur.value.content) && Handle(e, v, Put(buf)).0 == Done(OK)
            else Handle(e, v, Get).0 == Done(NOACCESS) && Handle(e, v, Put(buf)).0 == Done(NOACCESS)
  {
    PermissionDigits(Handle(cur, who, SetAttr(384, uid, gid)).1.value, v, 0, 6, 0, 0);
  }

  // After setattr to mode 0444 everybody gets and nobody puts, the owner included.
  lemma ReadOnlyMode(cur: Option<Extent>, who: Caller, uid: nat, gid: nat, v: Caller, buf: string)
    requires Handle(cur, who, SetAttr(292, uid, gid)).0 == Done(OK)
    ensures var e := Handle(cur, who, SetAttr(292, uid, gid)).1;
            && Handle(e, v, Put(buf)).0 == Done(NOACCESS) && Handle(e, v, Remove).0 == Done(NOACCESS)
            && Handle(e, v, Get).0 == (if v.authentic then Content(cur.value.content) else Done(NOACCESS))
  {
    PermissionDigits(Handle(cur, who, SetAttr(292, uid, gid)).1.value, v, 0, 4, 4, 4);
  }

  function Look(s: Store, id: nat): Option<Extent> {
    if id in s then Some(s[id]) else None
  }

  function Set(s: Store, id: nat, e: Option<Extent>): Store {
    match e case Some(x) => s[id := x] case None => s - {id}
  }

  // ---- the class: two maps kept in step, and defaults inserted by operator[] ----

  class Server {
    var attrs: map<nat, Attr>
    var contents: map<nat, string>
    var userkeys: map<nat, string>
    var groupusers: map<nat, set<nat>>

    // attrs and contents have the same keys, and every size is its content's length.
    ghost predicate Valid()
      reads this
    {
      && attrs.Keys == contents.Keys
      && forall id | id in attrs :: attrs[id].size == |contents[id]|
    }

    ghost function AsStore(): Store
      reads this
    {
      map id | id in attrs && id in contents :: Extent(contents[id], attrs[id].mode, attrs[id].uid, attrs[id].gid)
    }

    ghost function CallerOf(userid: nat, userkey: string): Caller
      reads this
    {
      Caller(userid,
             (if userid in userkeys then userkeys[userid] else "") == userkey,
             set g | g in groupusers && userid in groupusers[g])
    }

    constructor (now: nat, uid: nat, gid: nat)
      ensures Valid()
      ensures AsStore() == map[1 := Extent("", NEW_MODE, uid, gid)]
      ensures forall u, k :: CallerOf(u, k) == Caller(u, k == "", {})
    {
      attrs := map[1 := Attr(now, now, now, 0, NEW_MODE, uid, gid)];
      contents := map[1 := ""];
      userkeys, groupusers := map[], map[];
    }

    // An unknown user gets an empty key inserted before the comparison.
    method Authenticate(userid: nat, userkey: string) returns (ok: bool)
      modifies `userkeys
      ensures ok == old(CallerOf(userid, userkey)).authentic
      ensures ok <==> userkey == if userid in old(userkeys) then old(userkeys)[userid] else ""
      ensures forall u, k :: CallerOf(u, k) == old(CallerOf(u, k))
    {
      if userid !in userkeys {
        userkeys := userkeys[userid := ""];
      }
      ok := userkeys[userid] == userkey;
    }

    // An unknown group is inserted empty.
    method InGroup(userid: nat, groupid: nat) returns (ok: bool)
      modifies `groupusers
      ensures ok <==> groupid in old(CallerOf(userid, "")).groups
      ensures ok <==> groupid in old(groupusers) && userid in old(groupusers)[groupid]
      ensures forall u, k :: CallerOf(u, k) == old(CallerOf(u, k))
    {
      if groupid !in groupusers {
        groupusers := groupusers[groupid := {}];
      }
      ok := userid in groupusers[groupid];
    }

    method Permitted(id: nat, userid: nat, other: nat, owner: nat, group: nat) returns (ok: bool)
      requires id in attrs && id in contents && other > 0 && owner > 0 && group > 0
      modifies `groupusers
      ensures forall k :: ok == Permits(AsStore()[id], old(CallerOf(userid, k)), other, owner, group)
      ensures forall u, k :: CallerOf(u, k) == old(CallerOf(u, k))
    {
      var a := attrs[id];
      if Bit(a.mode, other) || (a.uid == userid && Bit(a.mode, owner)) {
        return true;
      }
      ok := InGroup(userid, a.gid);
      ok := ok && Bit(a.mode, group);
    }

    method HasReadPerm(id: nat, userid: nat, userkey: string) returns (ok: bool)
      requires Valid()
      modifies `userkeys, `groupusers
      ensures ok == CanRead(Look(AsStore(), id), old(CallerOf(userid, userkey)))
      ensures forall u, k :: CallerOf(u, k) == old(CallerOf(u, k))
    {
      ok := Authenticate(userid, userkey);
      if ok && id in attrs {
        ok := Permitted(id, userid, 0x4, 0x100, 0x20);
      }
    }

    method HasWritePerm(id: nat, userid: nat, userkey: string) returns (ok: bool)
      requires Valid()
      modifies `userkeys, `groupusers
      ensures ok == CanWrite(Look(AsStore(), id), old(CallerOf(userid, userkey)))
      ensures forall u, k :: CallerOf(u, k) == old(CallerOf(u, k))
    {
      ok := Authenticate(userid, userkey);
      if ok && id in attrs {
        ok := Permitted(id, userid, 0x2, 0x80, 0x10);
      }
    }

    // Each handler is the abstract one on its own extent and leaves the others alone.
    method PutExtent(id: nat, buf: string, userid: nat, userkey: string, now: nat) returns (r: Response)
      requires Valid()
      modifies this
      ensures Valid()
      ensures var h := Handle(Look(old(AsStore()), id), old(CallerOf(userid, userkey)), Put(buf));
        r == h.0 && AsStore() == Set(old(AsStore()), id, h.1)
      ensures forall u, k :: CallerOf(u, k) == old(CallerOf(u, k))
    {
      var a := Attr(now, now, now, |buf|, NEW_MODE, 0, 0);
      if id in attrs {
        a := attrs[id].(ctime := now, mtime := now, size := |buf|);
      }
      var ok := HasWritePerm(id, userid, userkey);
      if !ok {
        assert Set(AsStore(), id, Look(AsStore(), id)) == AsStore();
        return Done(NOACCESS);
      }
      attrs := attrs[id := a];
      contents := contents[id := buf];
      r := Done(OK);
    }

    method GetExtent(id: nat, userid: nat, userkey: string, now: nat) returns (r: Response)
      requires Valid()
      modifies this
      ensures Valid()
      ensures AsStore() == old(AsStore())
      ensures r == Handle(Look(old(AsStore()), id), old(CallerOf(userid, userkey)), Get).0
      ensures forall u, k :: CallerOf(u, k) == old(CallerOf(u, k))
    {
      var ok := HasReadPerm(id, userid, userkey);
      if !ok {
        return Done(NOACCESS);
      }
      if id !in contents {
        return Done(NOENT);
      }
      attrs := attrs[id := attrs[id].(atime := now)];
      r := Content(contents[id]);
    }

    method GetAttrs(id: nat) returns (r: Response)
      requires Valid()
      ensures forall who :: r == Handle(Look(AsStore(), id), who, GetAttr).0
    {
      if id !in contents {
        return Done(NOENT);
      }
      var a := attrs[id];
      r := Attrs(a.mode, a.uid, a.gid, a.size);
    }

    method SetAttrs(id: nat, mode: nat, uid: nat, gid: nat, userid: nat, userkey: string) returns (r: Response)
      requires Valid()
      modifies this
      ensures Valid()
      ensures var h := Handle(Look(old(AsStore()), id), old(CallerOf(userid, userkey)), SetAttr(mode, uid, gid));
        r == h.0 && AsStore() == Set(old(AsStore()), id, h.1)
      ensures forall u, k :: CallerOf(u, k) == old(CallerOf(u, k))
    {
      assert Set(AsStore(), id, Look(AsStore(), id)) == AsStore();
      var ok := HasWritePerm(id, userid, userkey);
      if !ok {
        return Done(NOACCESS);
      }
      if id !in contents {
        return Done(NOENT);
      }
      attrs := attrs[id := attrs[id].(mode := mode, uid := uid, gid := gid)];
      r := Done(OK);
    }

    method RemoveExtent(id: nat, userid: nat, userkey: string) returns (r: Response)
      requires Valid()
      modifies this
      ensures Valid()
      ensures var h := Handle(Look(old(AsStore()), id), old(CallerOf(userid, userkey)), Remove);
        r == h.0 && AsStore() == Set(old(AsStore()), id, h.1)
      ensures forall u, k :: CallerOf(u, k) == old(CallerOf(u, k))
    {
      assert Set(AsStore(), id, Look(AsStore(), id)) == AsStore();
      var ok := HasWritePerm(id, userid, userkey);
      if !ok {
        return Done(NOACCESS);
      }
      if id !in contents {
        return Done(NOENT);
      }
      attrs := attrs - {id};
      contents := contents - {id};
      r := Done(OK);
    }
  }
}
