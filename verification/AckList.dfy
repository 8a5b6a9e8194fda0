// The client's compressed list of acknowledged xids (rpcc::xid_rep_window_).
//
// The list starts as [0].  Its head promises "every xid up to me has been
// acknowledged"; everything behind the head is an acknowledged xid that is
// still separated from the head by a gap.  Each xid may be inserted twice
// (once by got_pdu, once at the end of call1), so duplicates do sit in the list.
module AckList {

  ghost predicate Sorted(w: seq<nat>) {
    forall i, j | 0 <= i < j < |w| :: w[i] <= w[j]
  }

  // `w` is a faithful summary of the set of acknowledged xids, where 0 counts
  // as acknowledged from the start.
  ghost predicate Represents(w: seq<nat>, acked: set<nat>) {
    && |w| > 0
    && Sorted(w)
    && (forall x | x in w :: x in acked)
    && AllUpTo(acked, w[0])
    && w[0] + 1 !in acked
    && (forall x | x in acked :: x <= w[0] || x in w)
  }

  ghost predicate AllUpTo(acked: set<nat>, k: nat) {
    forall x: nat | x <= k :: x in acked
  }

  // As Represents, except that positions before `i` are the only ones known
  // not to continue the head: the state of the compression loop.
  ghost predicate Compressing(w: seq<nat>, i: nat, acked: set<nat>) {
    && 0 < |w| && i <= |w|
    && Sorted(w)
    && (forall x | x in w :: x in acked)
    && AllUpTo(acked, w[0])
    && (forall x | x in acked :: x <= w[0] || x in w)
    && (forall j | 0 <= j < i :: w[j] != w[0] + 1)
  }

  // ---- the two loops of update_xid_rep as functions ----

  function Insert(w: seq<nat>, xid: nat): (r: seq<nat>) {
    if w == [] then [xid]
    else if w[0] > xid then [xid] + w
    else [w[0]] + Insert(w[1..], xid)
  }

  // The inner loop: pop the front while it is one below the element at `i`.
  function PopWhile(w: seq<nat>, i: nat): (r: (seq<nat>, nat))
    requires i < |w|
    ensures r.1 < |r.0| && |r.0| - r.1 == |w| - i
  {
    if w[0] + 1 == w[i] then PopWhile(w[1..], i - 1) else (w, i)
  }

  function CompressFrom(w: seq<nat>, i: nat): seq<nat>
    requires i <= |w|
    decreases |w| - i
  {
    if i == |w| then w
    else
      var (w', i') := PopWhile(w, i);
      CompressFrom(w', i' + 1)
  }

  function Update(w: seq<nat>, xid: nat): seq<nat>
    requires |w| > 0
  {
    if xid <= w[0] then w else CompressFrom(Insert(w, xid), 1)
  }

  // ---- proofs ----

  lemma {:induction false} InsertMembers(w: seq<nat>, xid: nat)
    ensures forall x :: x in Insert(w, xid) <==> x in w || x == xid
    ensures w != [] && w[0] <= xid ==> Insert(w, xid)[0] == w[0]
  {
    if w != [] && w[0] <= xid {
      InsertMembers(w[1..], xid);
      assert w == [w[0]] + w[1..];
    }
  }

  lemma {:induction false} InsertSorts(w: seq<nat>, xid: nat)
    requires Sorted(w)
    ensures Sorted(Insert(w, xid))
  {
    if w != [] && w[0] <= xid {
      var v := w[1..];
      InsertSorts(v, xid);
      InsertMembers(v, xid);
      var r := Insert(v, xid);
      assert w == [w[0]] + v;
      forall j | 0 <= j < |r| ensures w[0] <= r[j] {
        assert r[j] in r;
      }
    }
  }

  lemma PopOneKeeps(w: seq<nat>, i: nat, acked: set<nat>)
    requires 0 < i < |w| && Compressing(w, i, acked) && w[0] + 1 == w[i]
    ensures Compressing(w[1..], i - 1, acked)
  {
    var v := w[1..];
    assert w[0] <= w[1] <= w[i];
    assert w == [w[0]] + v;
    assert w[i] in w;
    assert AllUpTo(acked, v[0]);
    forall j | 0 <= j < i - 1 ensures v[j] != v[0] + 1 {
      assert w[j + 1] <= w[i];
    }
  }

  lemma {:induction false} PopWhileKeeps(w: seq<nat>, i: nat, acked: set<nat>)
    requires i < |w| && Compressing(w, i, acked)
    ensures Compressing(PopWhile(w, i).0, PopWhile(w, i).1 + 1, acked)
    decreases i
  {
    if w[0] + 1 == w[i] {
      PopOneKeeps(w, i, acked);
      PopWhileKeeps(w[1..], i - 1, acked);
    }
  }

  lemma {:induction false} CompressKeeps(w: seq<nat>, i: nat, acked: set<nat>)
    requires Compressing(w, i, acked)
    ensures Represents(CompressFrom(w, i), acked)
    decreases |w| - i
  {
    if i < |w| {
      PopWhileKeeps(w, i, acked);
      var (w', i') := PopWhile(w, i);
      CompressKeeps(w', i' + 1, acked);
    }
  }

  // One call of update_xid_rep acknowledges exactly one more xid, whether or
  // not it was acknowledged before.
  lemma UpdateAcknowledges(w: seq<nat>, xid: nat, acked: set<nat>)
    requires Represents(w, acked)
    ensures Represents(Update(w, xid), acked + {xid})
    ensures w[0] <= Update(w, xid)[0]
  {
    if xid <= w[0] {
      assert acked + {xid} == acked;
    } else {
      InsertSorts(w, xid);
      InsertMembers(w, xid);
      CompressKeeps(Insert(w, xid), 1, acked + {xid});
      HeadIsLargestPrefix(Update(w, xid), acked + {xid});
    }
  }

  // The head is the largest k with every xid 1..k acknowledged, and the rest
  // of the list is exactly the acknowledged xids above k (duplicates of k aside).
  lemma HeadIsLargestPrefix(w: seq<nat>, acked: set<nat>)
    requires Represents(w, acked)
    ensures forall k: nat :: AllUpTo(acked, k) <==> k <= w[0]
    ensures (set x | x in w && x > w[0]) == (set x | x in acked && x > w[0])
  {
    forall k: nat | k > w[0] ensures !AllUpTo(acked, k) {
      assert w[0] + 1 <= k;
    }
  }

  // Two lists for the same acknowledgements carry the same head, however many
  // duplicates each of them holds.
  lemma HeadDependsOnAckedOnly(w1: seq<nat>, w2: seq<nat>, acked: set<nat>)
    requires Represents(w1, acked) && Represents(w2, acked)
    ensures w1[0] == w2[0]
  {
    HeadIsLargestPrefix(w1, acked);
    HeadIsLargestPrefix(w2, acked);
    assert AllUpTo(acked, w1[0]) && AllUpTo(acked, w2[0]);
  }

  // ---- the class, with the loops of the original ----

  class AckWindow {
    var window: seq<nat>        // xid_rep_window_
    ghost var acked: set<nat>

    ghost predicate Valid()
      reads this
    {
      Represents(window, acked)
    }

    constructor ()
      ensures Valid() && window == [0] && acked == {0}
    {
      window := [0];
      acked := {0};
    }

    method UpdateXidRep(xid: nat)
      requires Valid()
      modifies this
      ensures Valid()
      ensures acked == old(acked) + {xid}
      ensures window == Update(old(window), xid)
    {
      UpdateAcknowledges(window, xid, acked);
      acked := acked + {xid};
      if xid <= window[0] {
        return;
      }
      InsertMembers(window, xid);
      InsertInOrder(xid);
      Compress();
    }

    // The first loop: insert in front of the first larger element.
    method InsertInOrder(xid: nat)
      modifies `window
      ensures window == Insert(old(window), xid)
    {
      var pos := 0;
      while pos < |window| && window[pos] <= xid
        invariant pos <= |window| && window == old(window)
        invariant Insert(window, xid) == window[..pos] + Insert(window[pos..], xid)
      {
        assert window[pos..][1..] == window[pos + 1..];
        assert window[..pos + 1] == window[..pos] + [window[pos]];
        pos := pos + 1;
      }
      assert Insert(window[pos..], xid) == [xid] + window[pos..];
      window := window[..pos] + [xid] + window[pos..];
    }

    // The compression loop, with its nested pop_front loop.
    method Compress()
      requires |window| > 0
      modifies `window
      ensures window == CompressFrom(old(window), 1)
    {
      var it := 1;
      while it != |window|
        invariant 0 < |window| && it <= |window|
        invariant CompressFrom(window, it) == CompressFrom(old(window), 1)
        decreases |window| - it
      {
        ghost var w0, i0 := window, it;
        while window[0] + 1 == window[it]
          invariant 0 <= it < |window| && |window| - it == |w0| - i0
          invariant PopWhile(window, it) == PopWhile(w0, i0)
          decreases it
        {
          window := window[1..];
          it := it - 1;
        }
        it := it + 1;
      }
    }
  }
}
