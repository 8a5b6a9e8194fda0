// What lookup, create, unlink and readdir do to a directory text, and the list
// operations they stand for.
module DirOps {
  import opened Wrappers
  import opened DirText

  // std::find over the pieces: the first index holding `name`, or |ts|.
  function IndexOf(ts: seq<string>, name: string): (k: nat)
    ensures k <= |ts|
    ensures k < |ts| ==> ts[k] == name
    ensures forall j | 0 <= j < k :: ts[j] != name
  {
    if ts == [] then 0
    else if ts[0] == name then 0
    else
      var k := IndexOf(ts[1..], name);
      assert forall j | 0 < j < k + 1 :: ts[1..][j - 1] == ts[j];
      k + 1
  }

  // ---- the text operations; PastEnd dereferences the end iterator ----

  datatype Lookup = Found(inum: nat) | NoEntry | LookupPastEnd

  function LookupText(buf: string, name: string): Lookup {
    var ts := Split(buf);
    var k := IndexOf(ts, name);
    if k == |ts| then NoEntry
    else if k + 1 == |ts| then LookupPastEnd
    else Found(N2I(ts[k + 1]))
  }

  datatype Creation = Exists | Added(buf: string)

  function CreateText(buf: string, name: string, inum: nat): Creation {
    if Find(buf, name).Some? then Exists
    else Added(buf + name + "/" + Dec(inum) + "/")
  }

  datatype Removal = Removed(buf: string, inum: nat) | NoSuch | RemovalPastEnd

  function UnlinkText(buf: string, name: string): Removal {
    var ts := Split(buf);
    UnlinkAt(buf, name, ts, IndexOf(ts, name), Find(buf, name))
  }

  // The same once the name has been looked for among the pieces and in the text.
  function UnlinkAt(buf: string, name: string, ts: seq<string>, k: nat, found: Option<nat>): Removal
    requires found.Some? ==> found.value <= |buf|
  {
    if k >= |ts| then NoSuch
    else if k + 1 == |ts| then RemovalPastEnd
    else
      match found
      case None => RemovalPastEnd  // erase(npos, ..) throws
      case Some(p) => Removed(Erase(buf, p, |name| + 1 + |ts[k + 1]| + 1), N2I(ts[k + 1]))
  }

  function Pairs(ts: seq<string>): Option<seq<Entry>> {
    if ts == [] then Some([])
    else if |ts| == 1 then None
    else
      match Pairs(ts[2..])
      case None => None
      case Some(es) => Some([Entry(ts[0], N2I(ts[1]))] + es)
  }

  function Before(out: seq<Entry>, rest: Option<seq<Entry>>): Option<seq<Entry>> {
    match rest case None => None case Some(es) => Some(out + es)
  }

  lemma EmptyBefore(rest: Option<seq<Entry>>)
    ensures Before([], rest) == rest
  {
    if rest.Some? { assert [] + rest.value == rest.value; }
  }

  // Names and inums take turns; an odd number of pieces cannot be paired.
  lemma {:induction false} PairsTakeTurns(ts: seq<string>)
    ensures Pairs(ts).Some? <==> |ts| % 2 == 0
    ensures Pairs(ts).Some? ==>
            |Pairs(ts).value| == |ts| / 2
            && forall i | 0 <= i < |ts| / 2 :: Pairs(ts).value[i] == Entry(ts[2 * i], N2I(ts[2 * i + 1]))
    decreases |ts|
  {
    if |ts| > 1 {
      PairsTakeTurns(ts[2..]);
      if Pairs(ts[2..]).Some? {
        forall i | 0 <= i < |ts| / 2 ensures Pairs(ts).value[i] == Entry(ts[2 * i], N2I(ts[2 * i + 1])) {
          assert i > 0 ==> Pairs(ts).value[i] == Pairs(ts[2..]).value[i - 1];
          assert i > 0 ==> ts[2..][2 * (i - 1)] == ts[2 * i] && ts[2..][2 * (i - 1) + 1] == ts[2 * i + 1];
        }
      }
    }
  }

  // The listing loop of readdir; None when it would step past the end.
  method ReaddirLoop(buf: string) returns (dirents: Option<seq<Entry>>)
    ensures dirents == Pairs(Split(buf))
  {
    var pieces := SplitLoop(buf);
    var out: seq<Entry> := [];
    var it := 0;
    assert pieces[0..] == pieces;
    assert Before([], Pairs(pieces)) == Pairs(pieces) by { EmptyBefore(Pairs(pieces)); }
    while it != |pieces|
      invariant 0 <= it <= |pieces|
      invariant Pairs(pieces) == Before(out, Pairs(pieces[it..]))
      decreases |pieces| - it
    {
      ghost var rest := pieces[it..];
      if it + 1 == |pieces| {
        return None;
      }
      assert rest[2..] == pieces[it + 2..];
      var ent := Entry(pieces[it], N2I(pieces[it + 1]));
      ghost var more := Pairs(rest[2..]);
      assert more.Some? ==> out + ([ent] + more.value) == (out + [ent]) + more.value;
      out := out + [ent];
      it := it + 2;
    }
    assert pieces[it..] == [] && out + [] == out;
    dirents := Some(out);
  }

  // ---- the list operations ----

  predicate Listed(es: seq<Entry>, name: string) {
    exists i :: 0 <= i < |es| && es[i].name == name
  }

  function Position(es: seq<Entry>, name: string): (i: nat)
    ensures i <= |es|
    ensures i < |es| ==> es[i].name == name
    ensures forall j | 0 <= j < i :: es[j].name != name
    ensures i < |es| <==> Listed(es, name)
  {
    if es == [] then 0
    else if es[0].name == name then 0
    else
      var i := Position(es[1..], name);
      assert forall j | 0 < j < |es| :: es[1..][j - 1] == es[j];
      i + 1
  }

  function LookupList(es: seq<Entry>, name: string): Lookup {
    var i := Position(es, name);
    if i < |es| then Found(es[i].inum) else NoEntry
  }

  function RemoveAt(es: seq<Entry>, i: nat): seq<Entry>
    requires i < |es|
  {
    es[..i] + es[i + 1..]
  }

  // The name is also the decimal text of a listed inum, and no entry has it.
  ghost predicate MistakenForInum(es: seq<Entry>, name: string) {
    !Listed(es, name) && exists i :: 0 <= i < |es| && Dec(es[i].inum) == name
  }

  // ---- agreement ----

  lemma {:induction false} PairsOfTokens(es: seq<Entry>)
    requires forall e | e in es :: e.inum < INUM_LIMIT
    ensures Pairs(Tokens(es)) == Some(es)
  {
    if es != [] {
      PairsOfTokens(es[1..]);
      assert es[0] in es;
      DecRoundTrip(es[0].inum);
      assert Tokens(es)[2..] == Tokens(es[1..]);
      assert [es[0]] + es[1..] == es;
    }
  }

  // readdir lists exactly the entries, in order.
  lemma ReaddirAgrees(es: seq<Entry>)
    requires WellFormed(es)
    ensures Pairs(Split(Encode(es))) == Some(es)
  {
    TokensSlashFree(es);
    SplitJoin(Tokens(es));
    PairsOfTokens(es);
  }

  lemma ContainsItself(s: string)
    ensures Contains(s, s)
  {
    assert OccursAt(s, s, 0);
  }

  // In a good directory the first piece equal to a listed name is its own.
  lemma IndexOfListed(es: seq<Entry>, name: string)
    requires GoodDir(es) && Listed(es, name)
    ensures IndexOf(Tokens(es), name) == 2 * Position(es, name)
  {
    var i := Position(es, name);
    var k := IndexOf(Tokens(es), name);
    var ts := Tokens(es);
    assert FirstAtOwn(es, i);
    TokensOfEntry(es, i);
    if k < 2 * i {
      var j := TokenOfEntry(es, k);
      ContainsItself(name);
    }
  }

  lemma IndexOfUnlisted(es: seq<Entry>, name: string)
    requires !Listed(es, name)
    ensures IndexOf(Tokens(es), name) < |Tokens(es)| <==> MistakenForInum(es, name)
  {
    var k, ts := IndexOf(Tokens(es), name), Tokens(es);
    if k < |ts| {
      var i := TokenOfEntry(es, k);
      assert es[i].name != name;
    }
    if MistakenForInum(es, name) {
      var i :| 0 <= i < |es| && Dec(es[i].inum) == name;
      TokensOfEntry(es, i);
    }
  }

  // lookup answers as the list does iff the name is not mistaken for an inum.
  lemma LookupAgreesIff(es: seq<Entry>, name: string)
    requires GoodDir(es)
    ensures LookupText(Encode(es), name) == LookupList(es, name) <==> !MistakenForInum(es, name)
  {
    var ts := Tokens(es);
    TokensSlashFree(es);
    SplitJoin(ts);
    if Listed(es, name) {
      IndexOfListed(es, name);
      var i := Position(es, name);
      assert es[i] in es;
      TokensOfEntry(es, i);
      DecRoundTrip(es[i].inum);
    } else {
      IndexOfUnlisted(es, name);
    }
  }

  // create answers EXIST iff some name or some inum text contains the name.
  lemma CreateExistsIff(es: seq<Entry>, name: string, inum: nat)
    requires SlashFree(name)
    ensures CreateText(Encode(es), name, inum) == Exists <==>
            name == "" || exists i :: 0 <= i < |es| && (Contains(es[i].name, name) || Contains(Dec(es[i].inum), name))
  {
    FindSpec(Encode(es), name);
    if name == "" {
      assert OccursAt(Encode(es), name, 0);
    } else {
      var ts := Tokens(es);
      ContainsIffToken(ts, name);
      if exists k :: 0 <= k < |ts| && Contains(ts[k], name) {
        var k :| 0 <= k < |ts| && Contains(ts[k], name);
        var i := TokenOfEntry(es, k);
      }
      if i :| 0 <= i < |es| && (Contains(es[i].name, name) || Contains(Dec(es[i].inum), name)) {
        TokensOfEntry(es, i);
      }
    }
  }

  lemma AppendKeepsGood(es: seq<Entry>, e: Entry)
    requires GoodDir(es) && SlashFree(e.name) && e.inum < INUM_LIMIT && e.name != ""
    requires forall j | 0 <= j < |es| :: !Contains(es[j].name, e.name) && !Contains(Dec(es[j].inum), e.name)
    ensures GoodDir(es + [e])
  {
    var r := es + [e];
    forall i | 0 <= i < |r| ensures FirstAtOwn(r, i) {
      if i < |es| { assert FirstAtOwn(es, i); }
    }
  }

  lemma AbsentIsUnlisted(es: seq<Entry>, name: string)
    requires forall j | 0 <= j < |es| :: !Contains(es[j].name, name)
    ensures !Listed(es, name)
  {
    ContainsItself(name);
    forall j | 0 <= j < |es| ensures es[j].name != name { }
  }

  lemma AppendedText(es: seq<Entry>, e: Entry)
    ensures Encode(es + [e]) == Encode(es) + e.name + "/" + Dec(e.inum) + "/"
  {
    EncodeAppend(es, [e]);
    EncodeOne(e);
    var a, b, c := Encode(es), e.name, Dec(e.inum);
    assert a + (b + "/" + c + "/") == a + b + "/" + c + "/";
  }

  // A successful create appends one entry and keeps the directory good.
  lemma CreateAppends(es: seq<Entry>, name: string, inum: nat)
    requires GoodDir(es) && SlashFree(name) && inum < INUM_LIMIT
    requires CreateText(Encode(es), name, inum).Added?
    ensures CreateText(Encode(es), name, inum).buf == Encode(es + [Entry(name, inum)])
    ensures GoodDir(es + [Entry(name, inum)])
    ensures !Listed(es, name)
  {
    var e := Entry(name, inum);
    assert Encode(es + [e]) == Encode(es) + name + "/" + Dec(inum) + "/" by { AppendedText(es, e); }
    assert GoodDir(es + [e]) && !Listed(es, name) by {
      CreateExistsIff(es, name, inum);
      AppendKeepsGood(es, e);
      AbsentIsUnlisted(es, name);
    }
  }

  lemma RemoveKeepsGood(es: seq<Entry>, i: nat)
    requires GoodDir(es) && i < |es|
    ensures GoodDir(RemoveAt(es, i))
  {
    var r := RemoveAt(es, i);
    forall e | e in r ensures e in es { }
    forall k | 0 <= k < |r| ensures FirstAtOwn(r, k) {
      var k' := if k < i then k else k + 1;
      assert FirstAtOwn(es, k');
      forall j | 0 <= j < k ensures !Contains(r[j].name, r[k].name) && !Contains(Dec(r[j].inum), r[k].name) {
        var j' := if j < i then j else j + 1;
        assert es[j'] == r[j];
      }
    }
  }

  // Erasing the entry's text at its own offset removes that entry and nothing else.
  lemma EraseEntry(es: seq<Entry>, i: nat)
    requires i < |es|
    ensures |Encode(es[..i])| <= |Encode(es)|
    ensures Erase(Encode(es), |Encode(es[..i])|, |es[i].name| + 1 + |Dec(es[i].inum)| + 1) == Encode(RemoveAt(es, i))
  {
    var a, e, b := es[..i], es[i], es[i + 1..];
    assert es == a + ([e] + b);
    EncodeAppend(a, [e] + b);
    EncodeAppend([e], b);
    EncodeOne(e);
    EncodeAppend(a, b);
    var mid := Encode([e]);
    assert Encode(es) == Encode(a) + (mid + Encode(b));
    assert |mid| == |e.name| + 1 + |Dec(e.inum)| + 1;
  }

  lemma UnlinkAtIs(buf: string, name: string, ts: seq<string>, k: nat, p: nat, piece: string, after: string)
    requires k + 1 < |ts| && piece == ts[k + 1]
    requires p <= |buf| && after == Erase(buf, p, |name| + 1 + |piece| + 1)
    ensures UnlinkAt(buf, name, ts, k, Some(p)) == Removed(after, N2I(piece))
  {
  }

  // Where split and find land for a listed name.
  lemma SplitLandsOn(es: seq<Entry>, name: string, i: nat) returns (ts: seq<string>, k: nat)
    requires GoodDir(es) && i == Position(es, name) && i < |es|
    ensures Split(Encode(es)) == ts && IndexOf(ts, name) == k && k + 1 < |ts|
    ensures ts[k + 1] == Dec(es[i].inum) && N2I(Dec(es[i].inum)) == es[i].inum
  {
    ts, k := Tokens(es), 2 * i;
    assert Split(Encode(es)) == ts by {
      TokensSlashFree(es);
      SplitJoin(ts);
    }
    assert IndexOf(ts, name) == 2 * i by { IndexOfListed(es, name); }
    TokensOfEntry(es, i);
    assert es[i] in es;
    DecRoundTrip(es[i].inum);
  }

  lemma FindLandsOn(es: seq<Entry>, name: string, i: nat) returns (p: nat)
    requires GoodDir(es) && i == Position(es, name) && i < |es|
    ensures Find(Encode(es), name) == Some(p) && p <= |Encode(es)|
    ensures Erase(Encode(es), p, |name| + 1 + |Dec(es[i].inum)| + 1) == Encode(RemoveAt(es, i))
  {
    p := |Encode(es[..i])|;
    NameFirstOccursAtOwnEntry(es, i);
    EraseEntry(es, i);
  }

  lemma UnlinkErases(es: seq<Entry>, name: string, i: nat)
    requires GoodDir(es) && i == Position(es, name) && i < |es|
    ensures UnlinkText(Encode(es), name) == Removed(Encode(RemoveAt(es, i)), es[i].inum)
  {
    var ts, k := SplitLandsOn(es, name, i);
    var p := FindLandsOn(es, name, i);
    UnlinkAtIs(Encode(es), name, ts, k, p, Dec(es[i].inum), Encode(RemoveAt(es, i)));
  }

  // unlink of a listed name removes exactly that entry and yields its inum.
  lemma UnlinkRemovesExactly(es: seq<Entry>, name: string)
    requires GoodDir(es) && Listed(es, name)
    ensures var i := Position(es, name);
      && UnlinkText(Encode(es), name) == Removed(Encode(RemoveAt(es, i)), es[i].inum)
      && GoodDir(RemoveAt(es, i))
      && !Listed(RemoveAt(es, i), name)
  {
    var i := Position(es, name);
    UnlinkErases(es, name, i);
    RemoveKeepsGood(es, i);
    NamesDistinct(es, i, name);
  }

  lemma NamesDistinct(es: seq<Entry>, i: nat, name: string)
    requires GoodDir(es) && i < |es| && es[i].name == name
    ensures !Listed(RemoveAt(es, i), name)
  {
    var r := RemoveAt(es, i);
    ContainsItself(name);
    forall k | 0 <= k < |r| ensures r[k].name != name {
      var k' := if k < i then k else k + 1;
      assert r[k] == es[k'];
      assert FirstAtOwn(es, i) && FirstAtOwn(es, k');
    }
  }

  // The list operation behind unlink.
  function UnlinkList(es: seq<Entry>, name: string): Removal {
    var i := Position(es, name);
    if i < |es| then Removed(Encode(RemoveAt(es, i)), es[i].inum) else NoSuch
  }

  // unlink does what the list operation does iff the name is not mistaken for an inum.
  lemma UnlinkAgreesIff(es: seq<Entry>, name: string)
    requires GoodDir(es)
    ensures UnlinkText(Encode(es), name) == UnlinkList(es, name) <==> !MistakenForInum(es, name)
  {
    if Listed(es, name) {
      UnlinkRemovesExactly(es, name);
    } else {
      TokensSlashFree(es);
      SplitJoin(Tokens(es));
      IndexOfUnlisted(es, name);
    }
  }

  // ---- any sequence of creates and unlinks ----

  datatype Edit = Create(name: string, inum: nat) | Unlink(name: string)

  // The text after one edit; an EXIST or NOENT answer leaves it alone.
  function EditText(buf: string, ed: Edit): string {
    match ed
    case Create(name, inum) => (match CreateText(buf, name, inum) case Added(b) => b case Exists => buf)
    case Unlink(name) => (match UnlinkText(buf, name) case Removed(b, _) => b case _ => buf)
  }

  ghost function EditList(es: seq<Entry>, ed: Edit): seq<Entry> {
    match ed
    case Create(name, inum) =>
      if name == "" || exists i :: 0 <= i < |es| && (Contains(es[i].name, name) || Contains(Dec(es[i].inum), name))
      then es else es + [Entry(name, inum)]
    case Unlink(name) => if Listed(es, name) then RemoveAt(es, Position(es, name)) else es
  }

  // What the callers promise: slash-free names, 64-bit inums, and no unlink of
  // a name that is only the text of a listed inum.
  ghost predicate EditOk(es: seq<Entry>, ed: Edit) {
    match ed
    case Create(name, inum) => SlashFree(name) && inum < INUM_LIMIT
    case Unlink(name) => !MistakenForInum(es, name)
  }

  ghost predicate EditsOk(es: seq<Entry>, eds: seq<Edit>)
    decreases |eds|
  {
    eds == [] || (EditOk(es, eds[0]) && EditsOk(EditList(es, eds[0]), eds[1..]))
  }

  function EditsText(buf: string, eds: seq<Edit>): string
    decreases |eds|
  {
    if eds == [] then buf else EditsText(EditText(buf, eds[0]), eds[1..])
  }

  ghost function EditsList(es: seq<Entry>, eds: seq<Edit>): seq<Entry>
    decreases |eds|
  {
    if eds == [] then es else EditsList(EditList(es, eds[0]), eds[1..])
  }

  lemma EditAgrees(es: seq<Entry>, ed: Edit)
    requires GoodDir(es) && EditOk(es, ed)
    ensures EditText(Encode(es), ed) == Encode(EditList(es, ed)) && GoodDir(EditList(es, ed))
  {
    match ed
    case Create(name, inum) =>
      CreateExistsIff(es, name, inum);
      if CreateText(Encode(es), name, inum).Added? { CreateAppends(es, name, inum); }
    case Unlink(name) =>
      UnlinkAgreesIff(es, name);
      if Listed(es, name) { UnlinkRemovesExactly(es, name); }
  }

  // After any sequence of edits the text is the encoding of the edited list,
  // and every name still first occurs at its own entry.
  lemma {:induction false} EditSequencesAgree(es: seq<Entry>, eds: seq<Edit>)
    requires GoodDir(es) && EditsOk(es, eds)
    ensures EditsText(Encode(es), eds) == Encode(EditsList(es, eds))
    ensures GoodDir(EditsList(es, eds))
    ensures forall i | 0 <= i < |EditsList(es, eds)| ::
      Find(EditsText(Encode(es), eds), EditsList(es, eds)[i].name) == Some(|Encode(EditsList(es, eds)[..i])|)
    decreases |eds|
  {
    if eds == [] {
      forall i | 0 <= i < |es| ensures Find(Encode(es), es[i].name) == Some(|Encode(es[..i])|) {
        NameFirstOccursAtOwnEntry(es, i);
      }
    } else {
      EditAgrees(es, eds[0]);
      EditSequencesAgree(EditList(es, eds[0]), eds[1..]);
    }
  }
}
