// The server's per-client reply window (rpcs::reply_window_, maxima_xid_rep_).
//
// Two versions of checkduplicate_and_update are modelled.  The literal one does
// what the code does, including the loop that skips the entry behind every
// erased one and that may advance an iterator past the end of the list.  The
// documented one does what the comment above the code promises: requests at or
// below the mark are forgotten, and every entry at or below xid_rep is deleted.
module ReplyWindow {

  import opened Wrappers

  // What a handler produced: the instance nonce for bind, bytes otherwise.
  datatype Body = Nonce(n: nat) | Data(bytes: seq<bv8>)

  // reply_t; `NotYet` is cb_present == false.
  datatype Saved = NotYet | Present(body: Body)
  datatype Reply = Reply(xid: nat, saved: Saved)

  datatype Stat = New | InProgress | Done(body: Body) | Forgotten

  // Result of one call: the classification with the client's new mark and
  // window, or an iterator moved past end() (undefined in C++).
  datatype Outcome =
    | Outcome(stat: Stat, mark: nat, window: seq<Reply>)
    | PastEnd(mark: nat)

  datatype Mark = Unseen | Seen(value: nat)

  function Initial(m: Mark, rep: nat): nat {
    match m case Unseen => rep case Seen(v) => v
  }

  function StatOf(r: Reply): Stat {
    match r.saved case NotYet => InProgress case Present(b) => Done(b)
  }

  ghost predicate Has(w: seq<Reply>, xid: nat) {
    exists i :: 0 <= i < |w| && w[i].xid == xid
  }

  ghost predicate Distinct(w: seq<Reply>) {
    forall i, j | 0 <= i < j < |w| :: w[i].xid != w[j].xid
  }

  // ---- documented step ----

  function Lookup(w: seq<Reply>, xid: nat): (r: Stat)
    ensures r == New <==> !Has(w, xid)
    ensures r != Forgotten
    ensures r.Done? ==> exists i :: 0 <= i < |w| && w[i] == Reply(xid, Present(r.body))
  {
    if w == [] then New
    else if w[0].xid == xid then StatOf(w[0])
    else
      assert w == [w[0]] + w[1..];
      assert forall i :: 0 <= i < |w| - 1 ==> w[1..][i] == w[i + 1];
      Lookup(w[1..], xid)
  }

  function Prune(w: seq<Reply>, rep: nat): (r: seq<Reply>)
    ensures forall e :: e in r <==> e in w && e.xid > rep
    ensures forall x: nat :: Has(r, x) <==> Has(w, x) && x > rep
    ensures Distinct(w) ==> Distinct(r)
  {
    PruneSpec(w, rep);
    PruneRaw(w, rep)
  }

  function PruneRaw(w: seq<Reply>, rep: nat): seq<Reply> {
    if w == [] then []
    else if w[0].xid <= rep then PruneRaw(w[1..], rep)
    else [w[0]] + PruneRaw(w[1..], rep)
  }

  lemma {:induction false} PruneSpec(w: seq<Reply>, rep: nat)
    ensures forall e :: e in PruneRaw(w, rep) <==> e in w && e.xid > rep
    ensures forall x: nat :: Has(PruneRaw(w, rep), x) <==> Has(w, x) && x > rep
    ensures Distinct(w) ==> Distinct(PruneRaw(w, rep))
  {
    if w != [] {
      PruneSpec(w[1..], rep);
      assert w == [w[0]] + w[1..];
    }
    HasByMember(w);
    HasByMember(PruneRaw(w, rep));
  }

  lemma HasByMember(w: seq<Reply>)
    ensures forall x :: Has(w, x) <==> exists e :: e in w && e.xid == x
  {
    forall x ensures Has(w, x) <==> exists e :: e in w && e.xid == x {
      if Has(w, x) {
        var i :| 0 <= i < |w| && w[i].xid == x;
        assert w[i] in w;
      }
    }
  }

  function DocumentedCheck(m: Mark, w: seq<Reply>, xid: nat, rep: nat): Outcome {
    var m0 := Initial(m, rep);
    if xid <= m0 then Outcome(Forgotten, m0, w)
    else
      var stat := Lookup(w, xid);
      var kept := Prune(w, rep);
      Outcome(stat, Max(m0, rep), if stat == New then kept + [Reply(xid, NotYet)] else kept)
  }

  // ---- literal step ----

  // The list walk on the part of the window still ahead of the iterator.
  datatype Scan = Found(stat: Stat, rest: seq<Reply>) | Missing(rest: seq<Reply>) | Overrun

  function Prepend(e: Reply, s: Scan): Scan {
    match s
    case Found(stat, rest) => Found(stat, [e] + rest)
    case Missing(rest) => Missing([e] + rest)
    case Overrun => Overrun
  }

  function ScanFrom(s: seq<Reply>, xid: nat, rep: nat): Scan {
    if s == [] then Missing([])
    else if s[0].xid == xid then Found(StatOf(s[0]), s)
    else if s[0].xid <= rep then
      // erase returns the next position, and the loop header steps over it
      if |s| == 1 then Overrun else Prepend(s[1], ScanFrom(s[2..], xid, rep))
    else Prepend(s[0], ScanFrom(s[1..], xid, rep))
  }

  function LiteralCheck(m: Mark, w: seq<Reply>, xid: nat, rep: nat): Outcome {
    var m0 := Initial(m, rep);
    if m0 > xid then Outcome(Forgotten, m0, w)
    else
      Answer(ScanFrom(w, xid, rep), xid, Max(m0, rep))
  }

  // What follows the walk: a request not met is put into the window.
  function Answer(scan: Scan, xid: nat, mark: nat): Outcome {
    match scan
    case Found(stat, rest) => Outcome(stat, mark, rest)
    case Missing(rest) => Outcome(New, mark, rest + [Reply(xid, NotYet)])
    case Overrun => PastEnd(mark)
  }

  // ---- what the documented step keeps, for any stream of requests ----

  // Every accepted xid is at or below the mark or still in the window.
  ghost predicate Covers(accepted: set<nat>, m: Mark, w: seq<Reply>) {
    && (m.Unseen? ==> accepted == {})
    && (m.Seen? ==> forall x | x in accepted :: x <= m.value || Has(w, x))
  }

  // No assumption is made on xid and rep: the step never accepts an xid twice,
  // even for requests that acknowledge themselves.
  lemma DocumentedNeverAcceptsTwice(accepted: set<nat>, m: Mark, w: seq<Reply>, xid: nat, rep: nat)
    requires Covers(accepted, m, w) && Distinct(w)
    ensures var o := DocumentedCheck(m, w, xid, rep);
      && (o.stat == New ==> xid !in accepted)
      && Covers(if o.stat == New then accepted + {xid} else accepted, Seen(o.mark), o.window)
      && (m.Seen? ==> m.value <= o.mark)
      && (forall i | 0 <= i < |o.window| :: o.window[i] in w || o.window[i] == Reply(xid, NotYet))
      && Distinct(o.window)
  {
    var o := DocumentedCheck(m, w, xid, rep);
    var m0 := Initial(m, rep);
    if m0 < xid {
      var kept := Prune(w, rep);
      var acc := if o.stat == New then accepted + {xid} else accepted;
      forall x | x in acc ensures x <= o.mark || Has(o.window, x) {
        if x in accepted {
          if x > o.mark {
            assert Has(w, x) && Has(kept, x);
            var i :| 0 <= i < |kept| && kept[i].xid == x;
            assert o.window[i].xid == x;
          }
        } else {
          assert o.window[|kept|].xid == x;
        }
      }
      forall i | 0 <= i < |o.window| ensures o.window[i] in w || o.window[i] == Reply(xid, NotYet) {
        if i < |kept| { assert kept[i] in kept; }
      }
      if o.stat == New {
        assert !Has(kept, xid);
        forall i, j | 0 <= i < j < |o.window| ensures o.window[i].xid != o.window[j].xid {
          if j == |kept| { assert kept[i].xid != xid; }
        }
      }
    }
  }

  // Neither version invents entries, and both move the mark alike.
  lemma {:induction false} ScanKeepsEntries(s: seq<Reply>, xid: nat, rep: nat)
    ensures !ScanFrom(s, xid, rep).Overrun? ==> forall e | e in ScanFrom(s, xid, rep).rest :: e in s
    decreases |s|
  {
    if s == [] || s[0].xid == xid {
    } else if s[0].xid <= rep {
      if |s| > 1 { ScanKeepsEntries(s[2..], xid, rep); }
    } else {
      ScanKeepsEntries(s[1..], xid, rep);
    }
  }

  ghost predicate Plausible(m: Mark, w: seq<Reply>, xid: nat, rep: nat, o: Outcome)
    requires o.Outcome?
  {
    && Initial(m, rep) <= o.mark <= Max(Initial(m, rep), rep)
    && (forall e | e in o.window :: e in w || e == Reply(xid, NotYet))
    && (o.stat.Done? ==> Reply(xid, Present(o.stat.body)) in w)
    && (o.stat == Forgotten ==> xid <= Initial(m, rep))
  }

  lemma StepsMoveMarkAlike(m: Mark, w: seq<Reply>, xid: nat, rep: nat)
    requires rep < xid
    ensures Plausible(m, w, xid, rep, DocumentedCheck(m, w, xid, rep))
    ensures LiteralCheck(m, w, xid, rep).Outcome? ==> Plausible(m, w, xid, rep, LiteralCheck(m, w, xid, rep))
    ensures LiteralCheck(m, w, xid, rep).mark == DocumentedCheck(m, w, xid, rep).mark
  {
    ScanKeepsEntries(w, xid, rep);
    ScanStat(w, xid, rep);
  }

  lemma {:induction false} ScanStat(s: seq<Reply>, xid: nat, rep: nat)
    ensures ScanFrom(s, xid, rep).Found? ==>
            && ScanFrom(s, xid, rep).stat != Forgotten && ScanFrom(s, xid, rep).stat != New
            && (ScanFrom(s, xid, rep).stat.Done? ==> Reply(xid, Present(ScanFrom(s, xid, rep).stat.body)) in s)
    decreases |s|
  {
    if s == [] || s[0].xid == xid {
    } else if s[0].xid <= rep {
      if |s| > 1 { ScanStat(s[2..], xid, rep); }
    } else {
      ScanStat(s[1..], xid, rep);
    }
  }

  // Running a whole stream of requests of one client through the documented step.
  datatype Feed = Feed(xid: nat, rep: nat)

  function News(m: Mark, w: seq<Reply>, fs: seq<Feed>, xid: nat): nat
    decreases |fs|
  {
    if fs == [] then 0
    else
      var o := DocumentedCheck(m, w, fs[0].xid, fs[0].rep);
      (if fs[0].xid == xid && o.stat == New then 1 else 0) + News(Seen(o.mark), o.window, fs[1..], xid)
  }

  lemma {:induction false} StreamAcceptsAtMostOnce(accepted: set<nat>, m: Mark, w: seq<Reply>, fs: seq<Feed>, xid: nat)
    requires Covers(accepted, m, w) && Distinct(w)
    requires forall e | e in w :: e.xid in accepted
    ensures News(m, w, fs, xid) <= if xid in accepted then 0 else 1
    decreases |fs|
  {
    if fs != [] {
      var f := fs[0];
      var o := DocumentedCheck(m, w, f.xid, f.rep);
      HasByMember(w);
      DocumentedNeverAcceptsTwice(accepted, m, w, f.xid, f.rep);
      var acc := if o.stat == New then accepted + {f.xid} else accepted;
      forall e | e in o.window ensures e.xid in acc {
        var i :| 0 <= i < |o.window| && o.window[i] == e;
      }
      StreamAcceptsAtMostOnce(acc, Seen(o.mark), o.window, fs[1..], xid);
    }
  }

  // ---- what a walk keeps ----

  lemma {:induction false} ScanKeepsOrder(s: seq<Reply>, xid: nat, rep: nat)
    requires Distinct(s)
    ensures !ScanFrom(s, xid, rep).Overrun? ==>
            && Distinct(ScanFrom(s, xid, rep).rest)
            && (forall e | e in ScanFrom(s, xid, rep).rest :: e in s)
            && (forall e | e in s :: e.xid <= rep || e in ScanFrom(s, xid, rep).rest)
    decreases |s|
  {
    if s == [] || s[0].xid == xid {
    } else if s[0].xid <= rep {
      if |s| > 1 {
        ScanKeepsOrder(s[2..], xid, rep);
        assert s == [s[0], s[1]] + s[2..];
        PrependDistinct(s[1], s[2..], ScanFrom(s[2..], xid, rep));
      }
    } else {
      ScanKeepsOrder(s[1..], xid, rep);
      assert s == [s[0]] + s[1..];
      PrependDistinct(s[0], s[1..], ScanFrom(s[1..], xid, rep));
    }
  }

  lemma PrependDistinct(e: Reply, s: seq<Reply>, scan: Scan)
    requires forall i | 0 <= i < |s| :: s[i].xid != e.xid
    requires !scan.Overrun? ==> Distinct(scan.rest) && forall f | f in scan.rest :: f in s
    ensures !scan.Overrun? ==> Distinct(Prepend(e, scan).rest)
  {
    if !scan.Overrun? {
      var u := Prepend(e, scan).rest;
      forall i, j | 0 <= i < j < |u| ensures u[i].xid != u[j].xid {
        if i == 0 {
          assert scan.rest[j - 1] in s;
        }
      }
    }
  }

  // What a call that accepts no xid twice leaves.
  ghost predicate CallKept(accepted: set<nat>, xid: nat, o: Outcome)
    requires o.Outcome?
  {
    var acc := if o.stat == New then accepted + {xid} else accepted;
    && (o.stat == New ==> xid !in accepted)
    && Covers(acc, Seen(o.mark), o.window)
    && Distinct(o.window)
    && (forall e | e in o.window :: e.xid in acc)
  }

  lemma AnswerKeeps(accepted: set<nat>, m: Mark, w: seq<Reply>, xid: nat, rep: nat, scan: Scan)
    requires Covers(accepted, m, w) && rep < xid && forall e | e in w :: e.xid in accepted
    requires !scan.Overrun? && Distinct(scan.rest)
    requires forall e | e in scan.rest :: e in w
    requires forall e | e in w :: e.xid <= rep || e in scan.rest
    requires if scan.Found? then scan.stat != New else xid !in accepted
    ensures CallKept(accepted, xid, Answer(scan, xid, Max(Initial(m, rep), rep)))
  {
    var o := Answer(scan, xid, Max(Initial(m, rep), rep));
    var acc := if o.stat == New then accepted + {xid} else accepted;
    HasByMember(w);
    HasByMember(o.window);
    if o.stat == New {
      forall i, j | 0 <= i < j < |o.window| ensures o.window[i].xid != o.window[j].xid {
        if j == |scan.rest| { assert scan.rest[i] in w; }
      }
    }
    forall x | x in acc ensures x <= o.mark || Has(o.window, x) {
      if x in accepted && x > o.mark {
        assert Has(w, x);
        var e :| e in w && e.xid == x;
        assert e in o.window;
      }
      if x !in accepted { assert Reply(xid, NotYet) in o.window; }
    }
  }

  // ---- exactly when the literal walk goes wrong ----

  // Number of consecutive entries at or below `rep` right in front of position p.
  function RunBefore(w: seq<Reply>, p: nat, rep: nat): (n: nat)
    requires p <= |w|
    ensures n <= p
    ensures n < p ==> w[p - n - 1].xid > rep
  {
    if p == 0 || w[p - 1].xid > rep then 0 else 1 + RunBefore(w, p - 1, rep)
  }

  lemma {:induction false} RunShift(w: seq<Reply>, k: nat, p: nat, rep: nat)
    requires k <= p <= |w|
    ensures RunBefore(w[k..], p - k, rep) == if RunBefore(w, p, rep) < p - k then RunBefore(w, p, rep) else p - k
    decreases p
  {
    if p > k {
      assert w[k..][p - k - 1] == w[p - 1];
      RunShift(w, k, p - 1, rep);
    }
  }

  lemma {:induction false} RunMember(w: seq<Reply>, p: nat, rep: nat, i: nat)
    requires p <= |w| && p - RunBefore(w, p, rep) <= i < p
    ensures w[i].xid <= rep
    decreases p
  {
    if i < p - 1 { RunMember(w, p - 1, rep, i); }
  }

  // Stepping over one entry above rep, or over a deletable entry and its
  // neighbour, does not change the parity of a later run.
  lemma RunParity(s: seq<Reply>, k: nat, p: nat, rep: nat)
    requires k <= p <= |s|
    requires k == 1 ==> s[0].xid > rep
    requires k == 2 ==> s[0].xid <= rep
    requires k == 1 || k == 2
    ensures RunBefore(s[k..], p - k, rep) % 2 == RunBefore(s, p, rep) % 2
  {
    RunShift(s, k, p, rep);
    if k == 1 && RunBefore(s, p, rep) == p {
      RunMember(s, p, rep, 0);
    }
  }

  // A walk that does not meet the xid runs past the end iff an odd number of
  // deletable entries closes the window.
  lemma {:induction false} ScanOverrunsIffOddTail(s: seq<Reply>, xid: nat, rep: nat)
    ensures !ScanFrom(s, xid, rep).Found? ==> (ScanFrom(s, xid, rep).Overrun? <==> RunBefore(s, |s|, rep) % 2 == 1)
    decreases |s|
  {
    if s == [] || s[0].xid == xid {
    } else if s[0].xid <= rep {
      if |s| > 1 {
        RunParity(s, 2, |s|, rep);
        ScanOverrunsIffOddTail(s[2..], xid, rep);
      } else {
        assert RunBefore(s, 1, rep) == 1 + RunBefore(s, 0, rep);
      }
    } else {
      RunParity(s, 1, |s|, rep);
      ScanOverrunsIffOddTail(s[1..], xid, rep);
    }
  }

  lemma {:induction false} ScanMissesAbsent(s: seq<Reply>, xid: nat, rep: nat)
    requires forall i | 0 <= i < |s| :: s[i].xid != xid
    ensures !ScanFrom(s, xid, rep).Found?
    decreases |s|
  {
    if s == [] {
    } else if s[0].xid <= rep {
      if |s| > 1 { ScanMissesAbsent(s[2..], xid, rep); }
    } else {
      ScanMissesAbsent(s[1..], xid, rep);
    }
  }

  // The walk meets the entry of `xid` at position p iff the run of deletable
  // entries right before p has even length.
  lemma {:induction false} ScanFindsIffEvenRun(s: seq<Reply>, p: nat, xid: nat, rep: nat)
    requires p < |s| && s[p].xid == xid && rep < xid
    requires forall j | 0 <= j < |s| && j != p :: s[j].xid != xid
    ensures RunBefore(s, p, rep) % 2 == 0 <==> ScanFrom(s, xid, rep).Found?
    ensures ScanFrom(s, xid, rep).Found? ==>
            ScanFrom(s, xid, rep).stat == match s[p].saved case NotYet => InProgress case Present(b) => Done(b)
    decreases |s|
  {
    if p == 0 {
    } else if s[0].xid <= rep {
      var t := s[2..];
      assert s[0].xid != xid;
      if p == 1 {
        assert RunBefore(s, 1, rep) == 1 + RunBefore(s, 0, rep);
        ScanMissesAbsent(t, xid, rep);
      } else {
        RunParity(s, 2, p, rep);
        ScanFindsIffEvenRun(t, p - 2, xid, rep);
      }
    } else {
      RunParity(s, 1, p, rep);
      ScanFindsIffEvenRun(s[1..], p - 1, xid, rep);
    }
  }

  // ---- what a call answers and leaves, entry by entry ----

  // What the walk leaves of the first n entries: those above rep, and of each run
  // of others every second one.
  function Spared(w: seq<Reply>, n: nat, rep: nat): seq<Reply>
    requires n <= |w|
  {
    if n == 0 then []
    else
      var front := Spared(w, n - 1, rep);
      if w[n - 1].xid > rep || RunBefore(w, n - 1, rep) % 2 == 1 then front + [w[n - 1]] else front
  }

  lemma {:induction false} SparedShift(s: seq<Reply>, k: nat, n: nat, rep: nat)
    requires k <= n <= |s|
    requires k == 1 ==> s[0].xid > rep
    requires k == 2 ==> s[0].xid <= rep
    requires k == 1 || k == 2
    ensures Spared(s, n, rep) == [s[k - 1]] + Spared(s[k..], n - k, rep)
    decreases n
  {
    if n == k {
      assert Spared(s, 0, rep) == [] && RunBefore(s, 0, rep) == 0;
      if k == 2 {
        assert Spared(s, 1, rep) == [];
        assert RunBefore(s, 1, rep) == 1;
      }
    } else {
      SparedShift(s, k, n - 1, rep);
      RunParity(s, k, n - 1, rep);
      assert s[k..][n - k - 1] == s[n - 1];
    }
  }

  // A walk that does not meet the xid leaves the spared entries.
  lemma {:induction false} MissingLeaves(s: seq<Reply>, xid: nat, rep: nat)
    requires ScanFrom(s, xid, rep).Missing?
    ensures ScanFrom(s, xid, rep).rest == Spared(s, |s|, rep)
    decreases |s|
  {
    if s != [] {
      var k := if s[0].xid > rep then 1 else 2;
      MissingLeaves(s[k..], xid, rep);
      SparedShift(s, k, |s|, rep);
    }
  }

  // How far one step of a walk that will meet its xid goes.
  function Stride(s: seq<Reply>, rep: nat): (k: nat)
    requires s != []
    ensures k == 1 || k == 2
  {
    if s[0].xid > rep then 1 else 2
  }

  lemma FoundStep(s: seq<Reply>, p: nat, xid: nat, rep: nat)
    requires Distinct(s) && rep < xid && 0 < p < |s| && s[p].xid == xid && ScanFrom(s, xid, rep).Found?
    ensures var k := Stride(s, rep);
            && k <= p && ScanFrom(s[k..], xid, rep).Found?
            && ScanFrom(s, xid, rep).rest == [s[k - 1]] + ScanFrom(s[k..], xid, rep).rest
  {
    ScanFindsIffEvenRun(s, p, xid, rep);
    RunOfOne(s, rep);
  }

  lemma PutInFront(e: Reply, a: seq<Reply>, b: seq<Reply>)
    ensures [e] + (a + b) == ([e] + a) + b
  {
  }

  // One that meets it at position p leaves those before p, and p and what follows
  // untouched.
  lemma {:induction false} FoundLeaves(s: seq<Reply>, p: nat, xid: nat, rep: nat)
    requires Distinct(s) && rep < xid && p < |s| && s[p].xid == xid && ScanFrom(s, xid, rep).Found?
    ensures ScanFrom(s, xid, rep).rest == Spared(s, p, rep) + s[p..]
    decreases p
  {
    if p == 0 {
      assert Spared(s, 0, rep) + s[0..] == s;
    } else {
      var k := Stride(s, rep);
      FoundStep(s, p, xid, rep);
      FoundLeaves(s[k..], p - k, xid, rep);
      SparedShift(s, k, p, rep);
      PutInFront(s[k - 1], Spared(s[k..], p - k, rep), s[p..]);
      assert s[k..][p - k..] == s[p..];
    }
  }

  lemma RunOfOne(s: seq<Reply>, rep: nat)
    requires s != []
    ensures RunBefore(s, 1, rep) == if s[0].xid <= rep then 1 else 0
  {
    assert RunBefore(s, 0, rep) == 0;
  }

  lemma {:induction false} LookupAnswers(w: seq<Reply>, xid: nat)
    requires Distinct(w)
    ensures var r := Lookup(w, xid);
            && (r == New <==> forall e | e in w :: e.xid != xid)
            && (r == InProgress <==> Reply(xid, NotYet) in w)
            && (forall b :: r == Done(b) <==> Reply(xid, Present(b)) in w)
  {
    if w != [] {
      assert w == [w[0]] + w[1..];
      if w[0].xid == xid {
        forall e | e in w[1..] ensures e.xid != xid {
          var i :| 0 <= i < |w| - 1 && w[1..][i] == e;
          assert w[i + 1] == e;
        }
        assert w[0] == Reply(xid, w[0].saved);
      } else {
        LookupAnswers(w[1..], xid);
      }
    }
  }

  // The answer that the comment above the code promises, for every request.
  lemma DocumentedAnswers(m: Mark, w: seq<Reply>, xid: nat, rep: nat)
    requires Distinct(w)
    ensures var o := DocumentedCheck(m, w, xid, rep);
            var m0 := match m case Unseen => rep case Seen(v) => v;
            && (o.stat == Forgotten <==> xid <= m0)
            && (xid > m0 ==>
                  && (o.stat == New <==> forall e | e in w :: e.xid != xid)
                  && (o.stat == InProgress <==> Reply(xid, NotYet) in w)
                  && (forall b :: o.stat == Done(b) <==> Reply(xid, Present(b)) in w))
  {
    LookupAnswers(w, xid);
  }

  // What it leaves: the mark is raised to rep, the entries up to rep go, a new
  // request enters.
  lemma DocumentedLeaves(m: Mark, w: seq<Reply>, xid: nat, rep: nat)
    ensures var o := DocumentedCheck(m, w, xid, rep);
            var m0 := match m case Unseen => rep case Seen(v) => v;
            && (xid <= m0 ==> o.mark == m0 && o.window == w)
            && (xid > m0 ==>
                  && o.mark == (if rep > m0 then rep else m0)
                  && forall e :: e in o.window <==>
                       (e in w && e.xid > rep) || (o.stat == New && e == Reply(xid, NotYet)))
  {
  }

  // The check as written refuses exactly below the mark.
  lemma LiteralRefuses(m: Mark, w: seq<Reply>, xid: nat, rep: nat)
    ensures var o := LiteralCheck(m, w, xid, rep);
            var m0 := match m case Unseen => rep case Seen(v) => v;
            && (o.Outcome? ==> (o.stat == Forgotten <==> xid < m0))
            && (xid < m0 ==> o == Outcome(Forgotten, m0, w))
            && (xid >= m0 ==> o.mark == if rep > m0 then rep else m0)
  {
    ScanStat(w, xid, rep);
  }

  // Of an entry that the walk meets it tells the state: done with the saved body,
  // or in progress; and the entry stays.
  lemma LiteralTells(m: Mark, w: seq<Reply>, p: nat, xid: nat, rep: nat)
    requires Distinct(w) && rep < xid && p < |w| && w[p].xid == xid && RunBefore(w, p, rep) % 2 == 0
    requires match m case Unseen => true case Seen(v) => v <= xid
    ensures var o := LiteralCheck(m, w, xid, rep);
            && o.Outcome? && o.window == Spared(w, p, rep) + w[p..]
            && (w[p].saved == NotYet ==> o.stat == InProgress)
            && (forall b | w[p].saved == Present(b) :: o.stat == Done(b))
  {
    forall j | 0 <= j < |w| && j != p ensures w[j].xid != xid {}
    ScanFindsIffEvenRun(w, p, xid, rep);
    FoundLeaves(w, p, xid, rep);
  }

  // A request without entry is accepted, unless the walk passes the end.
  lemma LiteralAccepts(m: Mark, w: seq<Reply>, xid: nat, rep: nat)
    requires forall e | e in w :: e.xid != xid
    requires match m case Unseen => rep <= xid case Seen(v) => v <= xid
    ensures var o := LiteralCheck(m, w, xid, rep);
            o.Outcome? ==> o.stat == New && o.window == Spared(w, |w|, rep) + [Reply(xid, NotYet)]
  {
    ScanMissesAbsent(w, xid, rep);
    if ScanFrom(w, xid, rep).Missing? { MissingLeaves(w, xid, rep); }
  }

  // The hazard, readable off the state before the call: the xid equals the mark
  // and its entry is gone, or its entry hides behind an odd run; and the walk
  // does not overrun.
  ghost predicate Hazard(m0: nat, w: seq<Reply>, xid: nat, rep: nat) {
    && m0 <= xid
    && RunBefore(w, |w|, rep) % 2 == 0
    && (|| (xid == m0 && !Has(w, xid))
        || (exists p :: 0 <= p < |w| && w[p].xid == xid && RunBefore(w, p, rep) % 2 == 1))
  }

  // The literal step runs an already accepted request a second time iff the
  // hazard holds.
  lemma LiteralReexecutesIff(accepted: set<nat>, m: nat, w: seq<Reply>, xid: nat, rep: nat)
    requires Covers(accepted, Seen(m), w) && Distinct(w) && rep < xid && xid in accepted
    ensures var o := LiteralCheck(Seen(m), w, xid, rep);
      (o.Outcome? && o.stat == New) <==> Hazard(m, w, xid, rep)
  {
    ScanOverrunsIffOddTail(w, xid, rep);
    if Has(w, xid) {
      var p :| 0 <= p < |w| && w[p].xid == xid;
      ScanFindsIffEvenRun(w, p, xid, rep);
      forall q | 0 <= q < |w| && w[q].xid == xid ensures q == p { }
    } else {
      ScanMissesAbsent(w, xid, rep);
    }
  }

  // The request is walked for, is not met, and an odd run of deletable entries
  // closes the window.
  ghost predicate Overruns(m: Mark, w: seq<Reply>, xid: nat, rep: nat) {
    && Initial(m, rep) <= xid
    && RunBefore(w, |w|, rep) % 2 == 1
    && (forall p | 0 <= p < |w| && w[p].xid == xid :: RunBefore(w, p, rep) % 2 == 1)
  }

  // Exactly then the literal step leaves defined behaviour.
  lemma LiteralOverrunsIff(m: Mark, w: seq<Reply>, xid: nat, rep: nat)
    requires Distinct(w) && rep < xid
    ensures LiteralCheck(m, w, xid, rep).PastEnd? <==> Overruns(m, w, xid, rep)
  {
    ScanOverrunsIffOddTail(w, xid, rep);
    if Has(w, xid) {
      var p :| 0 <= p < |w| && w[p].xid == xid;
      ScanFindsIffEvenRun(w, p, xid, rep);
      forall q | 0 <= q < |w| && w[q].xid == xid ensures q == p { }
    } else {
      ScanMissesAbsent(w, xid, rep);
    }
  }

  // ---- add_reply ----

  function WithReply(w: seq<Reply>, xid: nat, body: Body): seq<Reply> {
    if w == [] then []
    else if w[0].xid == xid then [Reply(xid, Present(body))] + w[1..]
    else [w[0]] + WithReply(w[1..], xid, body)
  }

  // add_reply fills in the one entry of that xid and touches nothing else.
  lemma {:induction false} WithReplySpec(w: seq<Reply>, xid: nat, body: Body)
    requires Distinct(w)
    ensures |WithReply(w, xid, body)| == |w|
    ensures forall e | e in WithReply(w, xid, body) :: e in w || e == Reply(xid, Present(body))
    ensures forall i | 0 <= i < |w| ::
      WithReply(w, xid, body)[i] == if w[i].xid == xid then Reply(xid, Present(body)) else w[i]
  {
    if w == [] {
    } else if w[0].xid == xid {
    } else {
      WithReplySpec(w[1..], xid, body);
    }
  }

  // ---- the walk of the original, with its iterator ----

  method Walk(window0: seq<Reply>, xid: nat, rep: nat) returns (r: Scan)
    ensures r == ScanFrom(window0, xid, rep)
  {
    var window := window0;
    var it := 0;
    while it < |window|
      invariant 0 <= it <= |window|
      invariant Ahead(window[..it], ScanFrom(window[it..], xid, rep)) == ScanFrom(window0, xid, rep)
      decreases |window| - it
    {
      ghost var done, ahead := window[..it], window[it..];
      assert window == done + ahead;
      if window[it].xid == xid {
        return Found(StatOf(window[it]), window);
      }
      if window[it].xid <= rep {
        window := window[..it] + window[it + 1..];
        if it == |window| {
          return Overrun;
        }
        assert ahead[2..] == window[it + 1..];
        assert window[..it + 1] == done + [ahead[1]];
        AheadPrepend(done, ahead[1], ScanFrom(ahead[2..], xid, rep));
      } else {
        assert ahead[1..] == window[it + 1..];
        assert window[..it + 1] == done + [ahead[0]];
        AheadPrepend(done, ahead[0], ScanFrom(ahead[1..], xid, rep));
      }
      it := it + 1;
    }
    assert window[..it] == window && window[it..] == [];
    r := Missing(window);
  }

  // ---- the class ----

  class ReplyCache {
    var windows: map<nat, seq<Reply>>   // reply_window_
    var maxima: map<nat, nat>           // maxima_xid_rep_

    constructor ()
      ensures windows == map[] && maxima == map[]
    {
      windows, maxima := map[], map[];
    }

    function MarkOf(clt: nat): Mark
      reads this
    {
      if clt in maxima then Seen(maxima[clt]) else Unseen
    }

    function WindowOf(clt: nat): seq<Reply>
      reads this
    {
      if clt in windows then windows[clt] else []
    }

    // The code as written.  `defined` is false when the iterator would be
    // moved past end(); nothing is promised about the window then.
    method CheckDuplicateAndUpdate(clt: nat, xid: nat, rep: nat) returns (defined: bool, stat: Stat)
      modifies this
      ensures var o := LiteralCheck(old(MarkOf(clt)), old(WindowOf(clt)), xid, rep);
        && defined == o.Outcome?
        && maxima == old(maxima)[clt := o.mark]
        && (defined ==> stat == o.stat && WindowOf(clt) == o.window)
      ensures forall c | c != clt :: c in windows <==> c in old(windows)
      ensures forall c | c != clt && c in windows :: windows[c] == old(windows[c])
    {
      stat := New;
      defined := true;
      if clt !in maxima {
        maxima := maxima[clt := rep];
      }
      if maxima[clt] > xid {
        return true, Forgotten;
      }
      if maxima[clt] < rep {
        maxima := maxima[clt := rep];
      }
      var scan := Walk(WindowOf(clt), xid, rep);
      match scan {
        case Found(found, rest) =>
          windows := windows[clt := rest];
          stat := found;
        case Missing(rest) =>
          windows := windows[clt := rest + [Reply(xid, NotYet)]];
        case Overrun =>
          defined := false;
      }
    }

    method AddReply(clt: nat, xid: nat, body: Body)
      modifies this
      ensures maxima == old(maxima)
      ensures windows == old(windows)[clt := WithReply(old(WindowOf(clt)), xid, body)]
    {
      var window := WalkToReply(WindowOf(clt), xid, body);
      windows := windows[clt := window];
    }
  }

  // One step past an entry of another call.
  lemma PastReply(window: seq<Reply>, it: nat, xid: nat, body: Body)
    requires it < |window| && window[it].xid != xid
    ensures window[..it] + WithReply(window[it..], xid, body)
            == window[..it + 1] + WithReply(window[it + 1..], xid, body)
  {
    assert window[it..][1..] == window[it + 1..];
    assert window[..it + 1] == window[..it] + [window[it]];
  }

  method WalkToReply(window: seq<Reply>, xid: nat, body: Body) returns (r: seq<Reply>)
    ensures r == WithReply(window, xid, body)
  {
    var it := 0;
    ghost var goal := WithReply(window, xid, body);
    assert window[..0] == [] && window[0..] == window;
    while it < |window|
      invariant 0 <= it <= |window|
      invariant window[..it] + WithReply(window[it..], xid, body) == goal
    {
      if window[it].xid == xid {
        assert window[it..][1..] == window[it + 1..];
        return window[..it] + ([Reply(xid, Present(body))] + window[it + 1..]);
      }
      PastReply(window, it, xid, body);
      it := it + 1;
    }
    assert window[it..] == [] && window[..it] == window;
    r := window;
  }

  // The part of the window behind the iterator, put back in front of a scan.
  ghost function Ahead(done: seq<Reply>, s: Scan): Scan {
    match s
    case Found(stat, rest) => Found(stat, done + rest)
    case Missing(rest) => Missing(done + rest)
    case Overrun => Overrun
  }

  lemma AheadPrepend(done: seq<Reply>, e: Reply, s: Scan)
    ensures Ahead(done, Prepend(e, s)) == Ahead(done + [e], s)
  {
    if !s.Overrun? {
      assert done + ([e] + s.rest) == (done + [e]) + s.rest;
    }
  }
}
