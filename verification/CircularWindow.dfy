// The check as written on a list whose end leads back to its beginning, which is
// what implementations of std::list build: an iterator moved past the end stands
// at the first entry again, and the walk goes round until it meets the end.
module CircularWindow {

  import opened Wrappers
  import opened ReplyWindow

  // What a pass that does not meet the xid leaves of the list.
  function Survivors(s: seq<Reply>, rep: nat): (r: seq<Reply>)
    ensures |r| <= |s|
    ensures s != [] && s[0].xid <= rep ==> |r| < |s|
    decreases |s|
  {
    if s == [] then []
    else if s[0].xid <= rep then
      if |s| == 1 then [] else [s[1]] + Survivors(s[2..], rep)
    else [s[0]] + Survivors(s[1..], rep)
  }

  lemma {:induction false} OverrunShrinks(s: seq<Reply>, xid: nat, rep: nat)
    requires ScanFrom(s, xid, rep).Overrun?
    ensures |Survivors(s, rep)| < |s|
    decreases |s|
  {
    if s[0].xid > rep { OverrunShrinks(s[1..], xid, rep); }
  }

  function CircularScan(s: seq<Reply>, xid: nat, rep: nat): (r: Scan)
    ensures !r.Overrun?
    decreases |s|
  {
    var pass := ScanFrom(s, xid, rep);
    if pass.Overrun? then
      OverrunShrinks(s, xid, rep);
      CircularScan(Survivors(s, rep), xid, rep)
    else pass
  }

  function CircularCheck(m: Mark, w: seq<Reply>, xid: nat, rep: nat): (o: Outcome)
    ensures o.Outcome?
  {
    var m0 := Initial(m, rep);
    if m0 > xid then Outcome(Forgotten, m0, w)
    else Answer(CircularScan(w, xid, rep), xid, Max(m0, rep))
  }

  // ---- exactly when the walk misses an entry ----

  // A pass leaves the spared entries.
  lemma {:induction false} SurvivorsAreSpared(s: seq<Reply>, rep: nat)
    ensures Survivors(s, rep) == Spared(s, |s|, rep)
    decreases |s|
  {
    if |s| == 1 {
      assert RunBefore(s, 0, rep) == 0 && Spared(s, 0, rep) == [];
    } else if s != [] {
      var k := if s[0].xid > rep then 1 else 2;
      SurvivorsAreSpared(s[k..], rep);
      SparedShift(s, k, |s|, rep);
    }
  }

  // How many ones end the binary numeral of n.
  function Ones(n: nat): nat {
    if n % 2 == 0 then 0 else 1 + Ones(n / 2)
  }

  // The deletable entries at the end of a list.
  function Tail(s: seq<Reply>, rep: nat): nat {
    RunBefore(s, |s|, rep)
  }

  lemma DropInto(a: seq<Reply>, e: Reply, b: seq<Reply>, k: nat)
    requires k <= |a|
    ensures (a + [e] + b)[k..] == a[k..] + [e] + b
  {
  }

  lemma PutBefore(x: Reply, a: seq<Reply>, e: Reply, b: seq<Reply>)
    ensures [x] + (a + [e] + b) == ([x] + a) + [e] + b
  {
  }

  lemma {:induction false} SurvivorsSplit(a: seq<Reply>, e: Reply, b: seq<Reply>, rep: nat)
    requires e.xid > rep
    ensures Survivors(a + [e] + b, rep) == Survivors(a, rep) + [e] + Survivors(b, rep)
    decreases |a|
  {
    var s := a + [e] + b;
    if a == [] {
      assert s[1..] == b;
    } else if a[0].xid > rep {
      DropInto(a, e, b, 1);
      SurvivorsSplit(a[1..], e, b, rep);
      PutBefore(a[0], Survivors(a[1..], rep), e, Survivors(b, rep));
    } else if |a| == 1 {
      assert s[1] == e && s[2..] == b;
    } else {
      DropInto(a, e, b, 2);
      SurvivorsSplit(a[2..], e, b, rep);
      PutBefore(a[1], Survivors(a[2..], rep), e, Survivors(b, rep));
    }
  }

  ghost predicate Deletable(s: seq<Reply>, rep: nat) {
    forall i | 0 <= i < |s| :: s[i].xid <= rep
  }

  // Of a run of deletable entries every second one survives.
  lemma {:induction false} RunSurvivors(s: seq<Reply>, rep: nat)
    requires Deletable(s, rep)
    ensures Deletable(Survivors(s, rep), rep) && |Survivors(s, rep)| == |s| / 2
    decreases |s|
  {
    if |s| > 1 {
      RunSurvivors(s[2..], rep);
    }
  }

  lemma {:induction false} RunOfDeletable(s: seq<Reply>, p: nat, rep: nat)
    requires p <= |s| && forall i | 0 <= i < p :: s[i].xid <= rep
    ensures RunBefore(s, p, rep) == p
  {
    if p > 0 { RunOfDeletable(s, p - 1, rep); }
  }

  lemma {:induction false} RunAfter(s: seq<Reply>, q: nat, p: nat, rep: nat)
    requires q < p <= |s| && s[q].xid > rep && forall i | q < i < p :: s[i].xid <= rep
    ensures RunBefore(s, p, rep) == p - q - 1
    decreases p
  {
    if q < p - 1 { RunAfter(s, q, p - 1, rep); }
  }

  // A pass halves the run at the end.
  lemma TailHalves(s: seq<Reply>, rep: nat)
    ensures Tail(Survivors(s, rep), rep) == Tail(s, rep) / 2
  {
    var n, k := |s|, Tail(s, rep);
    forall i | n - k <= i < n ensures s[i].xid <= rep { RunMember(s, n, rep, i); }
    if k == n {
      RunSurvivors(s, rep);
      RunOfDeletable(Survivors(s, rep), |Survivors(s, rep)|, rep);
    } else {
      var a, e, b := s[..n - k - 1], s[n - k - 1], s[n - k..];
      assert s == a + [e] + b;
      SurvivorsSplit(a, e, b, rep);
      RunSurvivors(b, rep);
      var t := Survivors(s, rep);
      var q := |Survivors(a, rep)|;
      forall i | q < i < |t| ensures t[i].xid <= rep { assert t[i] == Survivors(b, rep)[i - q - 1]; }
      RunAfter(t, q, |t|, rep);
    }
  }

  lemma {:induction false} RunOfPrefix(s: seq<Reply>, p: nat, n: nat, rep: nat)
    requires p <= n <= |s|
    ensures RunBefore(s[..n], p, rep) == RunBefore(s, p, rep)
    decreases p
  {
    if p > 0 { RunOfPrefix(s, p - 1, n, rep); }
  }

  lemma {:induction false} SurvivorsDistinct(s: seq<Reply>, rep: nat)
    requires Distinct(s)
    ensures Distinct(Survivors(s, rep))
    decreases |s|
  {
    if |s| > 1 {
      var k := if s[0].xid > rep then 1 else 2;
      SurvivorsDistinct(s[k..], rep);
      SurvivorsFrom(s[k..], rep);
      forall i | 0 <= i < |Survivors(s[k..], rep)| ensures Survivors(s[k..], rep)[i].xid != s[k - 1].xid {
        assert Survivors(s[k..], rep)[i] in s[k..];
      }
    }
  }

  // Where an entry that is not deletable stands after a pass: half of the run
  // before it is left.
  lemma EntrySurvives(s: seq<Reply>, p: nat, rep: nat) returns (q: nat)
    requires p < |s| && s[p].xid > rep
    ensures var t := Survivors(s, rep);
            q < |t| && t[q] == s[p] && RunBefore(t, q, rep) == RunBefore(s, p, rep) / 2
  {
    var a, e, b := s[..p], s[p], s[p + 1..];
    assert s == a + [e] + b;
    SurvivorsSplit(a, e, b, rep);
    TailHalves(a, rep);
    var t, u := Survivors(s, rep), Survivors(a, rep);
    q := |u|;
    assert t[..q] == u;
    RunOfPrefix(t, q, q, rep);
    RunOfPrefix(s, p, p, rep);
  }

  lemma {:induction false} SurvivorsFrom(s: seq<Reply>, rep: nat)
    ensures forall e | e in Survivors(s, rep) :: e in s
    decreases |s|
  {
    if s != [] {
      if s[0].xid > rep { SurvivorsFrom(s[1..], rep); }
      else if |s| > 1 { SurvivorsFrom(s[2..], rep); }
    }
  }

  // The walk meets the entry at position p iff the run before it, in binary, ends
  // in no more ones than the run at the end of the list.
  lemma {:induction false} CircularFindsIff(s: seq<Reply>, p: nat, xid: nat, rep: nat)
    requires p < |s| && s[p].xid == xid && rep < xid && Distinct(s)
    ensures CircularScan(s, xid, rep).Found? <==> Ones(RunBefore(s, p, rep)) <= Ones(Tail(s, rep))
    ensures CircularScan(s, xid, rep).Found? ==>
            CircularScan(s, xid, rep).stat == match s[p].saved case NotYet => InProgress case Present(b) => Done(b)
    decreases |s|
  {
    ScanFindsIffEvenRun(s, p, xid, rep);
    ScanOverrunsIffOddTail(s, xid, rep);
    if ScanFrom(s, xid, rep).Overrun? {
      OverrunShrinks(s, xid, rep);
      var q := EntrySurvives(s, p, rep);
      TailHalves(s, rep);
      SurvivorsDistinct(s, rep);
      CircularFindsIff(Survivors(s, rep), q, xid, rep);
    }
  }

  lemma {:induction false} CircularMissesAbsent(s: seq<Reply>, xid: nat, rep: nat)
    requires forall e | e in s :: e.xid != xid
    ensures CircularScan(s, xid, rep).Missing?
    decreases |s|
  {
    ScanMissesAbsent(s, xid, rep);
    if ScanFrom(s, xid, rep).Overrun? {
      OverrunShrinks(s, xid, rep);
      SurvivorsFrom(s, rep);
      CircularMissesAbsent(Survivors(s, rep), xid, rep);
    }
  }

  ghost predicate CircularHazard(m0: nat, w: seq<Reply>, xid: nat, rep: nat) {
    && m0 <= xid
    && (|| (xid == m0 && !Has(w, xid))
        || (exists p :: 0 <= p < |w| && w[p].xid == xid && Ones(RunBefore(w, p, rep)) > Ones(Tail(w, rep))))
  }

  // On a circular list the check runs an accepted request again iff this hazard
  // holds.
  lemma CircularReexecutesIff(accepted: set<nat>, m: nat, w: seq<Reply>, xid: nat, rep: nat)
    requires Covers(accepted, Seen(m), w) && Distinct(w) && rep < xid && xid in accepted
    ensures CircularCheck(Seen(m), w, xid, rep).stat == New <==> CircularHazard(m, w, xid, rep)
  {
    CircularStat(w, xid, rep);
    if Has(w, xid) {
      var p :| 0 <= p < |w| && w[p].xid == xid;
      CircularFindsIff(w, p, xid, rep);
      forall q | 0 <= q < |w| && w[q].xid == xid ensures q == p { }
    } else {
      CircularMissesAbsent(w, xid, rep);
    }
  }

  // The whole answer on a circular list: a request below the mark is refused; for
  // an entry that some round meets its state is told; any other request is new.
  lemma CircularAnswers(m: Mark, w: seq<Reply>, xid: nat, rep: nat)
    requires Distinct(w) && rep < xid
    ensures var o := CircularCheck(m, w, xid, rep);
            var m0 := match m case Unseen => rep case Seen(v) => v;
            && (o.stat == Forgotten <==> xid < m0)
            && (xid >= m0 && (forall e | e in w :: e.xid != xid) ==> o.stat == New)
            && (xid >= m0 ==> o.mark == if rep > m0 then rep else m0)
            && forall p | 0 <= p < |w| && w[p].xid == xid && xid >= m0 ::
                 o.stat == if Ones(RunBefore(w, p, rep)) > Ones(Tail(w, rep)) then New
                           else match w[p].saved case NotYet => InProgress case Present(b) => Done(b)
  {
    CircularStat(w, xid, rep);
    if forall e | e in w :: e.xid != xid { CircularMissesAbsent(w, xid, rep); }
    forall p | 0 <= p < |w| && w[p].xid == xid
      ensures CircularScan(w, xid, rep).Found? <==> Ones(RunBefore(w, p, rep)) <= Ones(Tail(w, rep))
      ensures CircularScan(w, xid, rep).Found? ==>
              CircularScan(w, xid, rep).stat == match w[p].saved case NotYet => InProgress case Present(b) => Done(b)
    {
      CircularFindsIff(w, p, xid, rep);
    }
  }

  // ---- what the walk keeps ----

  lemma {:induction false} CircularStat(s: seq<Reply>, xid: nat, rep: nat)
    ensures var scan := CircularScan(s, xid, rep);
            && (forall e | e in scan.rest :: e in s)
            && (scan.Found? ==> scan.stat != Forgotten && scan.stat != New)
            && (scan.Found? && scan.stat.Done? ==> Reply(xid, Present(scan.stat.body)) in s)
    decreases |s|
  {
    if ScanFrom(s, xid, rep).Overrun? {
      OverrunShrinks(s, xid, rep);
      SurvivorsFrom(s, rep);
      CircularStat(Survivors(s, rep), xid, rep);
    } else {
      ScanKeepsEntries(s, xid, rep);
      ScanStat(s, xid, rep);
    }
  }

  lemma {:induction false} SurvivorsKeep(s: seq<Reply>, rep: nat)
    ensures forall e | e in s && e.xid > rep :: e in Survivors(s, rep)
    decreases |s|
  {
    if |s| > 1 {
      var k := if s[0].xid > rep then 1 else 2;
      SurvivorsKeep(s[k..], rep);
      assert s == s[..k] + s[k..];
    }
  }

  lemma {:induction false} CircularKeepsOrder(s: seq<Reply>, xid: nat, rep: nat)
    requires Distinct(s)
    ensures var rest := CircularScan(s, xid, rep).rest;
            && Distinct(rest)
            && (forall e | e in rest :: e in s)
            && (forall e | e in s :: e.xid <= rep || e in rest)
    decreases |s|
  {
    if ScanFrom(s, xid, rep).Overrun? {
      OverrunShrinks(s, xid, rep);
      SurvivorsDistinct(s, rep);
      SurvivorsFrom(s, rep);
      SurvivorsKeep(s, rep);
      CircularKeepsOrder(Survivors(s, rep), xid, rep);
    } else {
      ScanKeepsOrder(s, xid, rep);
    }
  }

  // The mark moves as in the other two checks.
  lemma CircularMovesMarkAlike(m: Mark, w: seq<Reply>, xid: nat, rep: nat)
    requires rep < xid
    ensures Plausible(m, w, xid, rep, CircularCheck(m, w, xid, rep))
    ensures CircularCheck(m, w, xid, rep).mark == LiteralCheck(m, w, xid, rep).mark
  {
    CircularStat(w, xid, rep);
  }

  // ---- the walk with its iterator ----

  // The iterator stands at position it in a pass over the list `start`.
  ghost predicate InPass(start: seq<Reply>, window: seq<Reply>, it: nat, xid: nat, rep: nat)
    requires it <= |window|
  {
    && Ahead(window[..it], ScanFrom(window[it..], xid, rep)) == ScanFrom(start, xid, rep)
    && window[..it] + Survivors(window[it..], rep) == Survivors(start, rep)
  }

  lemma PassBegins(window: seq<Reply>, xid: nat, rep: nat)
    ensures InPass(window, window, 0, xid, rep)
  {
    assert window[..0] == [] && window[0..] == window;
    var scan := ScanFrom(window, xid, rep);
    assert !scan.Overrun? ==> [] + scan.rest == scan.rest;
  }

  lemma PassKeeps(start: seq<Reply>, window: seq<Reply>, it: nat, xid: nat, rep: nat)
    requires it < |window| && InPass(start, window, it, xid, rep) && window[it].xid != xid && window[it].xid > rep
    ensures InPass(start, window, it + 1, xid, rep)
  {
    var done, ahead := window[..it], window[it..];
    assert ahead[1..] == window[it + 1..] && window[..it + 1] == done + [ahead[0]];
    AheadPrepend(done, ahead[0], ScanFrom(ahead[1..], xid, rep));
    assert done + ([ahead[0]] + Survivors(ahead[1..], rep)) == done + [ahead[0]] + Survivors(ahead[1..], rep);
  }

  lemma PassErases(start: seq<Reply>, window: seq<Reply>, it: nat, xid: nat, rep: nat)
    requires it + 1 < |window| && InPass(start, window, it, xid, rep) && window[it].xid != xid && window[it].xid <= rep
    ensures InPass(start, window[..it] + window[it + 1..], it + 1, xid, rep)
  {
    var done, ahead, left := window[..it], window[it..], window[..it] + window[it + 1..];
    assert ahead[2..] == left[it + 1..] && left[..it + 1] == done + [ahead[1]];
    AheadPrepend(done, ahead[1], ScanFrom(ahead[2..], xid, rep));
    assert done + ([ahead[1]] + Survivors(ahead[2..], rep)) == done + [ahead[1]] + Survivors(ahead[2..], rep);
  }

  // Erasing the last entry and moving on leads to the first one.
  lemma PassWraps(start: seq<Reply>, window: seq<Reply>, xid: nat, rep: nat)
    requires window != [] && InPass(start, window, |window| - 1, xid, rep)
    requires window[|window| - 1].xid != xid && window[|window| - 1].xid <= rep
    ensures CircularScan(start, xid, rep) == CircularScan(window[..|window| - 1], xid, rep)
    ensures |window| - 1 < |start|
  {
    assert window[|window| - 1..] == [window[|window| - 1]];
    assert window[..|window| - 1] + [] == window[..|window| - 1];
    OverrunShrinks(start, xid, rep);
  }

  lemma PassFinds(start: seq<Reply>, window: seq<Reply>, it: nat, xid: nat, rep: nat)
    requires it < |window| && InPass(start, window, it, xid, rep) && window[it].xid == xid
    ensures CircularScan(start, xid, rep) == Found(StatOf(window[it]), window)
  {
    assert window[it..][0] == window[it] && window == window[..it] + window[it..];
  }

  lemma PassEnds(start: seq<Reply>, window: seq<Reply>, xid: nat, rep: nat)
    requires InPass(start, window, |window|, xid, rep)
    ensures CircularScan(start, xid, rep) == Missing(window)
  {
    assert window[..|window|] == window && window[|window|..] == [];
  }

  method WalkAround(window0: seq<Reply>, xid: nat, rep: nat) returns (r: Scan)
    ensures r == CircularScan(window0, xid, rep)
  {
    var window := window0;
    var it := 0;
    ghost var start := window0;
    PassBegins(window, xid, rep);
    while it < |window|
      invariant 0 <= it <= |window|
      invariant CircularScan(start, xid, rep) == CircularScan(window0, xid, rep)
      invariant InPass(start, window, it, xid, rep)
      decreases |start|, |window| - it
    {
      if window[it].xid == xid {
        PassFinds(start, window, it, xid, rep);
        return Found(StatOf(window[it]), window);
      }
      if window[it].xid <= rep {
        if it == |window| - 1 {
          PassWraps(start, window, xid, rep);
          window := window[..it];
          it := 0;
          start := window;
          PassBegins(window, xid, rep);
        } else {
          PassErases(start, window, it, xid, rep);
          window := window[..it] + window[it + 1..];
          it := it + 1;
        }
      } else {
        PassKeeps(start, window, it, xid, rep);
        it := it + 1;
      }
    }
    PassEnds(start, window, xid, rep);
    r := Missing(window);
  }
}
