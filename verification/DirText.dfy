// A directory is one string: name/inum/name/inum/ ...  It is read by splitting
// at '/', and edited by substring search and erase.
module DirText {

  import opened Wrappers

  type Name = string

  datatype Entry = Entry(name: Name, inum: nat)

  const INUM_LIMIT: nat := 0x1_0000_0000_0000_0000

  // ---- decimal text of an inum: filename() and n2i() ----

  function DigitChar(d: nat): char
    requires d < 10
  {
    ('0' as int + d) as char
  }

  predicate IsDigit(c: char) { '0' <= c <= '9' }

  function Dec(n: nat): (s: string)
    ensures s != "" && forall c | c in s :: IsDigit(c)
  {
    if n < 10 then [DigitChar(n)] else Dec(n / 10) + [DigitChar(n % 10)]
  }

  // Value of the leading digits of s, with acc read before them.
  function Leading(s: string, acc: nat): nat {
    if s == "" || !IsDigit(s[0]) then acc else Leading(s[1..], 10 * acc + (s[0] as int - '0' as int))
  }

  // Extraction into an unsigned 64-bit value saturates.
  function N2I(s: string): (n: nat)
    ensures n < INUM_LIMIT
  {
    var v := Leading(s, 0);
    if v < INUM_LIMIT then v else INUM_LIMIT - 1
  }

  lemma {:induction false} LeadingAppend(a: string, b: string, acc: nat)
    requires forall c | c in a :: IsDigit(c)
    ensures Leading(a + b, acc) == Leading(b, Leading(a, acc))
    decreases |a|
  {
    if a == "" {
      assert a + b == b;
    } else {
      assert (a + b)[1..] == a[1..] + b;
      assert IsDigit(a[0]);
      LeadingAppend(a[1..], b, 10 * acc + (a[0] as int - '0' as int));
    }
  }

  lemma {:induction false} LeadingOfDec(n: nat)
    ensures Leading(Dec(n), 0) == n
  {
    if n >= 10 {
      LeadingOfDec(n / 10);
      LeadingAppend(Dec(n / 10), [DigitChar(n % 10)], 0);
    }
  }

  // Every 64-bit inum survives the trip through the directory text.
  lemma DecRoundTrip(n: nat)
    requires n < INUM_LIMIT
    ensures N2I(Dec(n)) == n
  {
    LeadingOfDec(n);
  }

  // A longer number reads as the largest inum.
  lemma N2ISaturates(n: nat)
    requires n >= INUM_LIMIT
    ensures N2I(Dec(n)) == 18_446_744_073_709_551_615
  {
    LeadingOfDec(n);
  }

  lemma DecInjective(m: nat, n: nat)
    requires Dec(m) == Dec(n)
    ensures m == n
  {
    LeadingOfDec(m);
    LeadingOfDec(n);
  }

  // ---- std::string operations ----

  predicate OccursAt(buf: string, pat: string, i: nat) {
    i + |pat| <= |buf| && buf[i..i + |pat|] == pat
  }

  ghost predicate Contains(buf: string, pat: string) {
    exists i: nat :: OccursAt(buf, pat, i)
  }

  function FindFrom(buf: string, pat: string, i: nat): (r: Option<nat>)
    requires i <= |buf|
    ensures r.Some? ==> r.value + |pat| <= |buf|
    decreases |buf| - i
  {
    if OccursAt(buf, pat, i) then Some(i)
    else if i == |buf| then None
    else FindFrom(buf, pat, i + 1)
  }

  // buf.find(pat); None is npos.
  function Find(buf: string, pat: string): (r: Option<nat>)
    ensures r.Some? ==> r.value + |pat| <= |buf|
  {
    FindFrom(buf, pat, 0)
  }

  lemma {:induction false} FindFromSpec(buf: string, pat: string, i: nat)
    requires i <= |buf|
    ensures FindFrom(buf, pat, i).Some? ==>
            && i <= FindFrom(buf, pat, i).value && OccursAt(buf, pat, FindFrom(buf, pat, i).value)
            && forall j: nat | i <= j < FindFrom(buf, pat, i).value :: !OccursAt(buf, pat, j)
    ensures FindFrom(buf, pat, i).None? ==> forall j: nat | i <= j :: !OccursAt(buf, pat, j)
    decreases |buf| - i
  {
    if !OccursAt(buf, pat, i) && i < |buf| {
      FindFromSpec(buf, pat, i + 1);
    }
  }

  // find returns the first occurrence, and npos iff there is none.
  lemma FindSpec(buf: string, pat: string)
    ensures Find(buf, pat).Some? ==>
            OccursAt(buf, pat, Find(buf, pat).value)
            && forall j: nat | j < Find(buf, pat).value :: !OccursAt(buf, pat, j)
    ensures Find(buf, pat).None? <==> !Contains(buf, pat)
  {
    FindFromSpec(buf, pat, 0);
  }

  // buf.erase(pos, len)
  function Erase(buf: string, pos: nat, len: nat): string
    requires pos <= |buf|
  {
    buf[..pos] + if pos + len <= |buf| then buf[pos + len..] else ""
  }

  // ---- split ----

  // Inums are written in decimal, the high digit first and without leading zeros.
  lemma DecLayout(n: nat, d: nat)
    requires d < 10 && (n > 0 || d == 0)
    ensures Dec(0) == "0" && Dec(7) == "7" && Dec(1234) == "1234"
    ensures n > 0 ==> Dec(10 * n + d) == Dec(n) + ["0123456789"[d]]
  {
    assert Dec(12) == Dec(1) + "2" && Dec(123) == Dec(12) + "3";
    assert (10 * n + d) / 10 == n && (10 * n + d) % 10 == d;
    assert "0123456789"[d] == DigitChar(d);
  }

  // Digits are read up to the first other character.
  lemma N2ILayout()
    ensures N2I("") == 0 && N2I("42") == 42 && N2I("7x8") == 7
  {
    assert "42"[1..] == "2" && "2"[1..] == "";
    assert Leading("2", 4) == Leading("", 42);
    assert "7x8"[1..] == "x8";
  }

  function SlashFrom(s: string, i: nat): (r: nat)
    requires i <= |s|
    ensures i <= r <= |s|
    ensures r < |s| ==> s[r] == '/'
    ensures forall k | i <= k < r :: s[k] != '/'
    decreases |s| - i
  {
    if i == |s| || s[i] == '/' then i else SlashFrom(s, i + 1)
  }

  // Repeated getline: a last piece without a delimiter counts, an empty rest does not.
  function Split(s: string): seq<string>
    decreases |s|
  {
    if s == "" then []
    else
      var i := SlashFrom(s, 0);
      if i == |s| then [s] else [s[..i]] + Split(s[i + 1..])
  }

  method SplitLoop(s: string) returns (elems: seq<string>)
    ensures elems == Split(s)
  {
    elems := [];
    var rest := s;
    while rest != ""
      invariant elems + Split(rest) == Split(s)
      decreases |rest|
    {
      var i := SlashFrom(rest, 0);
      ghost var before := elems;
      elems := elems + [rest[..i]];
      if i == |rest| {
        assert rest[..i] == rest;
        assert before + [rest] == elems;
        return;
      }
      assert before + ([rest[..i]] + Split(rest[i + 1..])) == elems + Split(rest[i + 1..]);
      rest := rest[i + 1..];
    }
  }

  // ---- tokens and their text ----

  predicate SlashFree(s: string) { '/' !in s }

  function Join(ts: seq<string>): string {
    if ts == [] then "" else ts[0] + "/" + Join(ts[1..])
  }

  ghost predicate AllSlashFree(ts: seq<string>) {
    forall t | t in ts :: SlashFree(t)
  }

  lemma {:induction false} SplitJoin(ts: seq<string>)
    requires AllSlashFree(ts)
    ensures Split(Join(ts)) == ts
  {
    if ts != [] {
      var t, rest := ts[0], Join(ts[1..]);
      var s := t + "/" + rest;
      assert t in ts && SlashFree(t);
      assert s[|t|] == '/';
      assert forall k | 0 <= k < |t| :: s[k] == t[k] && t[k] in t && t[k] != '/';
      assert SlashFrom(s, 0) == |t|;
      assert s[..|t|] == t && s[|t| + 1..] == rest;
      SplitJoin(ts[1..]);
    }
  }

  lemma {:induction false} JoinAppend(a: seq<string>, b: seq<string>)
    ensures Join(a + b) == Join(a) + Join(b)
  {
    if a == [] {
      assert a + b == b;
    } else {
      assert (a + b)[1..] == a[1..] + b;
      JoinAppend(a[1..], b);
    }
  }

  // Where token k starts in the text.
  function OffsetOf(ts: seq<string>, k: nat): nat
    requires k <= |ts|
  {
    |Join(ts[..k])|
  }

  lemma NoSlashInside(s: string, pat: string, p: nat)
    requires OccursAt(s, pat, p) && SlashFree(pat)
    ensures forall m | p <= m < p + |pat| :: s[m] != '/'
  {
    forall m | p <= m < p + |pat| ensures s[m] != '/' {
      assert s[m] == s[p..p + |pat|][m - p] == pat[m - p];
      assert pat[m - p] in pat;
    }
  }

  // An occurrence of a slash-free pattern never straddles two tokens.
  lemma {:induction false} OccursInToken(ts: seq<string>, pat: string, p: nat) returns (k: nat)
    requires SlashFree(pat) && pat != "" && OccursAt(Join(ts), pat, p)
    ensures k < |ts| && OffsetOf(ts, k) <= p && OccursAt(ts[k], pat, p - OffsetOf(ts, k))
    decreases |ts|
  {
    var t, rest := ts[0], Join(ts[1..]);
    var s := t + "/" + rest;
    if p <= |t| {
      NoSlashInside(s, pat, p);
      assert s[|t|] == '/';
      assert s[p..p + |pat|] == t[p..p + |pat|];
      k := 0;
      assert ts[..0] == [];
    } else {
      var q := p - |t| - 1;
      assert s[p..p + |pat|] == rest[q..q + |pat|];
      var k' := OccursInToken(ts[1..], pat, q);
      k := k' + 1;
      assert ts[..k][1..] == ts[1..][..k'];
    }
  }

  lemma {:induction false} TokenOccurs(ts: seq<string>, k: nat, pat: string, q: nat)
    requires k < |ts| && OccursAt(ts[k], pat, q)
    ensures OccursAt(Join(ts), pat, OffsetOf(ts, k) + q)
  {
    assert ts == ts[..k] + ([ts[k]] + ts[k + 1..]);
    JoinAppend(ts[..k], [ts[k]] + ts[k + 1..]);
    var tail := [ts[k]] + ts[k + 1..];
    assert tail[1..] == ts[k + 1..];
    var front, rest := Join(ts[..k]), "/" + Join(ts[k + 1..]);
    assert Join(tail) == ts[k] + rest;
    assert Join(ts) == front + (ts[k] + rest);
    var p := |front| + q;
    assert Join(ts)[p..p + |pat|] == ts[k][q..q + |pat|];
  }

  lemma OffsetsIncrease(ts: seq<string>, j: nat, k: nat)
    requires j < k <= |ts|
    ensures OffsetOf(ts, j) + |ts[j]| < OffsetOf(ts, k)
  {
    assert ts[..k] == ts[..j] + ts[j..k];
    JoinAppend(ts[..j], ts[j..k]);
    assert ts[j..k][0] == ts[j];
  }

  lemma NoneBefore(ts: seq<string>, k: nat, pat: string, p: nat)
    requires SlashFree(pat) && pat != "" && k < |ts| && p < OffsetOf(ts, k)
    requires forall j | 0 <= j < k :: !Contains(ts[j], pat)
    ensures !OccursAt(Join(ts), pat, p)
  {
    if OccursAt(Join(ts), pat, p) {
      var j := OccursInToken(ts, pat, p);
      assert Contains(ts[j], pat);
      if k < j { OffsetsIncrease(ts, k, j); }
    }
  }

  lemma FindIs(buf: string, pat: string, p: nat)
    requires OccursAt(buf, pat, p) && forall q: nat | q < p :: !OccursAt(buf, pat, q)
    ensures Find(buf, pat) == Some(p)
  {
    FindSpec(buf, pat);
    assert Contains(buf, pat);
  }

  // find() hits the first token that contains the pattern.
  lemma FindInTokens(ts: seq<string>, k: nat, pat: string)
    requires SlashFree(pat) && pat != "" && k < |ts| && ts[k] == pat
    requires forall j | 0 <= j < k :: !Contains(ts[j], pat)
    ensures Find(Join(ts), pat) == Some(OffsetOf(ts, k))
  {
    var buf, p := Join(ts), OffsetOf(ts, k);
    assert OccursAt(buf, pat, p) by { TokenOccurs(ts, k, pat, 0); }
    assert forall q: nat | q < p :: !OccursAt(buf, pat, q) by {
      forall q: nat | q < p ensures !OccursAt(buf, pat, q) { NoneBefore(ts, k, pat, q); }
    }
    FindIs(buf, pat, p);
  }

  lemma ContainsIffToken(ts: seq<string>, pat: string)
    requires SlashFree(pat) && pat != ""
    ensures Contains(Join(ts), pat) <==> exists k :: 0 <= k < |ts| && Contains(ts[k], pat)
  {
    if Contains(Join(ts), pat) {
      var p: nat :| OccursAt(Join(ts), pat, p);
      var k := OccursInToken(ts, pat, p);
      assert Contains(ts[k], pat);
    }
    if exists k :: 0 <= k < |ts| && Contains(ts[k], pat) {
      var k :| 0 <= k < |ts| && Contains(ts[k], pat);
      var q: nat :| OccursAt(ts[k], pat, q);
      TokenOccurs(ts, k, pat, q);
    }
  }

  // ---- directories ----

  function Tokens(es: seq<Entry>): (ts: seq<string>)
    ensures |ts| == 2 * |es|
  {
    if es == [] then [] else [es[0].name, Dec(es[0].inum)] + Tokens(es[1..])
  }

  // Tokens 2i and 2i + 1 belong to entry i.
  lemma {:induction false} TokensOfEntry(es: seq<Entry>, i: nat)
    requires i < |es|
    ensures Tokens(es)[2 * i] == es[i].name && Tokens(es)[2 * i + 1] == Dec(es[i].inum)
  {
    if i > 0 {
      TokensOfEntry(es[1..], i - 1);
      assert Tokens(es)[2 * i] == Tokens(es[1..])[2 * (i - 1)];
      assert Tokens(es)[2 * i + 1] == Tokens(es[1..])[2 * (i - 1) + 1];
    }
  }

  lemma TokenOfEntry(es: seq<Entry>, k: nat) returns (i: nat)
    requires k < 2 * |es|
    ensures i < |es| && (k == 2 * i || k == 2 * i + 1)
    ensures Tokens(es)[k] == if k == 2 * i then es[i].name else Dec(es[i].inum)
  {
    i := k / 2;
    TokensOfEntry(es, i);
  }

  function Encode(es: seq<Entry>): string { Join(Tokens(es)) }

  ghost predicate WellFormed(es: seq<Entry>) {
    forall e | e in es :: SlashFree(e.name) && e.inum < INUM_LIMIT
  }

  // No token in front of a name contains it: what makes substring search safe.
  ghost predicate FirstAtOwn(es: seq<Entry>, i: nat)
    requires i < |es|
  {
    && es[i].name != ""
    && forall j | 0 <= j < i :: !Contains(es[j].name, es[i].name) && !Contains(Dec(es[j].inum), es[i].name)
  }

  ghost predicate GoodDir(es: seq<Entry>) {
    WellFormed(es) && forall i | 0 <= i < |es| :: FirstAtOwn(es, i)
  }

  lemma TokensSlashFree(es: seq<Entry>)
    requires WellFormed(es)
    ensures AllSlashFree(Tokens(es))
  {
    var ts := Tokens(es);
    forall t | t in ts ensures SlashFree(t) {
      var k :| 0 <= k < |ts| && ts[k] == t;
      var i := TokenOfEntry(es, k);
      assert es[i] in es;
    }
  }

  lemma {:induction false} TokensAppend(a: seq<Entry>, b: seq<Entry>)
    ensures Tokens(a + b) == Tokens(a) + Tokens(b)
  {
    if a == [] {
      assert a + b == b;
    } else {
      assert (a + b)[1..] == a[1..] + b;
      TokensAppend(a[1..], b);
    }
  }

  lemma EncodeAppend(a: seq<Entry>, b: seq<Entry>)
    ensures Encode(a + b) == Encode(a) + Encode(b)
  {
    TokensAppend(a, b);
    JoinAppend(Tokens(a), Tokens(b));
  }

  lemma EncodeOne(e: Entry)
    ensures Encode([e]) == e.name + "/" + Dec(e.inum) + "/"
  {
    var ts := Tokens([e]);
    assert ts == [e.name, Dec(e.inum)];
    assert ts[1..] == [Dec(e.inum)] && ts[1..][1..] == [];
    assert Join(ts[1..]) == Dec(e.inum) + "/" + "";
  }

  // Decoding the text gives back the list it was built from, in order.
  lemma EncodeInjective(a: seq<Entry>, b: seq<Entry>)
    requires WellFormed(a) && WellFormed(b) && Encode(a) == Encode(b)
    ensures a == b
  {
    TokensSlashFree(a);
    TokensSlashFree(b);
    SplitJoin(Tokens(a));
    SplitJoin(Tokens(b));
    assert Tokens(a) == Tokens(b);
    assert |a| == |b|;
    forall i | 0 <= i < |a| ensures a[i] == b[i] {
      TokensOfEntry(a, i);
      TokensOfEntry(b, i);
      DecInjective(a[i].inum, b[i].inum);
    }
  }

  lemma FrontTokens(es: seq<Entry>, i: nat)
    requires i <= |es|
    ensures Tokens(es)[..2 * i] == Tokens(es[..i])
  {
    assert es == es[..i] + es[i..];
    TokensAppend(es[..i], es[i..]);
  }

  // Each entry's name first occurs in the text at the entry's own offset.
  lemma NameFirstOccursAtOwnEntry(es: seq<Entry>, i: nat)
    requires GoodDir(es) && i < |es|
    ensures Find(Encode(es), es[i].name) == Some(|Encode(es[..i])|)
  {
    var ts := Tokens(es);
    assert es[i] in es && FirstAtOwn(es, i);
    TokensOfEntry(es, i);
    forall k | 0 <= k < 2 * i ensures !Contains(ts[k], es[i].name) {
      var j := TokenOfEntry(es, k);
    }
    FindInTokens(ts, 2 * i, es[i].name);
    FrontTokens(es, i);
  }
}
