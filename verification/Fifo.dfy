// The blocking bounded queue and the thread pool built on it.
module Fifo {

  import opened Wrappers

  // Threads blocked on the two condition variables, and whether they have been
  // signalled since; a blocked enqueuer keeps its item.
  datatype Waiter<T> = Waiter(item: T, woken: bool)

  // q and max are the object's fields, max 0 meaning no limit; taken and given are
  // the items dequeued so far and those enqueued.
  datatype Queue<T> = Queue(q: seq<T>, max: nat, enqs: map<nat, Waiter<T>>, deqs: map<nat, bool>,
                            given: seq<T>, taken: seq<T>)

  function Empty<T>(max: nat): Queue<T> {
    Queue([], max, map[], map[], [], [])
  }

  function Sleepers<T>(enqs: map<nat, Waiter<T>>): set<nat> {
    set id | id in enqs && !enqs[id].woken
  }

  function Dozers(deqs: map<nat, bool>): set<nat> {
    set id | id in deqs && !deqs[id]
  }

  // Whom pthread_cond_signal may wake: one of the blocked threads, if any.
  ghost predicate Choice(blocked: set<nat>, who: Option<nat>) {
    if blocked == {} then who.None? else who.Some? && who.value in blocked
  }

  function SignalDeq<T>(s: Queue<T>, who: Option<nat>): Queue<T> {
    if who.Some? then s.(deqs := s.deqs[who.value := true]) else s
  }

  function SignalEnq<T>(s: Queue<T>, who: Option<nat>): Queue<T>
    requires who.Some? ==> who.value in s.enqs
  {
    if who.Some? then s.(enqs := s.enqs[who.value := s.enqs[who.value].(woken := true)]) else s
  }

  predicate HasSpace<T>(s: Queue<T>) {
    s.max == 0 || |s.q| < s.max
  }

  // One pass through the loop of enq; a thread that finds no space blocks, or
  // gives up when it is not to block.
  function Enq<T>(s: Queue<T>, id: nat, item: T, blocking: bool, who: Option<nat>): Queue<T> {
    if HasSpace(s) then
      SignalDeq(s.(q := s.q + [item], given := s.given + [item], enqs := s.enqs - {id}), who)
    else if blocking then s.(enqs := s.enqs[id := Waiter(item, false)])
    else s
  }

  // One pass through the loop of deq.
  function Deq<T>(s: Queue<T>, id: nat, who: Option<nat>): Queue<T>
    requires who.Some? ==> who.value in s.enqs
  {
    if s.q == [] then s.(deqs := s.deqs[id := false])
    else
      var t := s.(q := s.q[1..], taken := s.taken + [s.q[0]], deqs := s.deqs - {id});
      if s.max > 0 && |t.q| < s.max then SignalEnq(t, who) else t
  }

  // A thread arrives, or wakes up, signalled or not, and runs to the end or until
  // it blocks again.
  datatype Event<T> =
    | Put(id: nat, item: T, blocking: bool, who: Option<nat>)
    | PutAgain(id: nat, who: Option<nat>)
    | Get(id: nat, who: Option<nat>)
    | GetAgain(id: nat, who: Option<nat>)

  ghost predicate Enabled<T>(s: Queue<T>, e: Event<T>) {
    match e
    case Put(id, _, _, who) => id !in s.enqs && id !in s.deqs && Choice(Dozers(s.deqs), who)
    case PutAgain(id, who) => id in s.enqs && Choice(Dozers(s.deqs), who)
    case Get(id, who) => id !in s.enqs && id !in s.deqs && Choice(Sleepers(s.enqs), who)
    case GetAgain(id, who) => id in s.deqs && Choice(Sleepers(s.enqs), who)
  }

  function Apply<T>(s: Queue<T>, e: Event<T>): Queue<T>
    requires Enabled(s, e)
  {
    match e
    case Put(id, item, blocking, who) => Enq(s, id, item, blocking, who)
    case PutAgain(id, who) => Enq(s, id, s.enqs[id].item, true, who)
    case Get(id, who) => Deq(s, id, who)
    case GetAgain(id, who) => Deq(s, id, who)
  }

  // Where a call of enq ends: with its item at the back when there is room, and
  // otherwise asleep with the item in hand, or turned away when it is not to block.
  lemma PutOutcome<T>(s: Queue<T>, id: nat, item: T, blocking: bool, who: Option<nat>)
    requires Enabled(s, Event.Put(id, item, blocking, who))
    ensures var t := Apply(s, Event.Put(id, item, blocking, who));
            && (s.max == 0 || |s.q| < s.max ==>
                  && t.q == s.q + [item] && t.enqs == s.enqs && t.deqs.Keys == s.deqs.Keys
                  && (who.Some? ==> t.deqs[who.value]))
            && (0 < s.max <= |s.q| && blocking ==> t == s.(enqs := s.enqs[id := Waiter(item, false)]))
            && (0 < s.max <= |s.q| && !blocking ==> t == s)
  {
  }

  // A call of enq that wakes does as a new one does, and leaves the waiting room only
  // with its item in the queue.
  lemma PutAgainOutcome<T>(s: Queue<T>, id: nat, who: Option<nat>)
    requires Enabled(s, PutAgain(id, who))
    ensures var t, item := Apply(s, PutAgain(id, who)), s.enqs[id].item;
            && (s.max == 0 || |s.q| < s.max ==> t.q == s.q + [item] && t.enqs == s.enqs - {id})
            && (0 < s.max <= |s.q| ==> t == s.(enqs := s.enqs[id := Waiter(item, false)]))
  {
  }

  // Where a call of deq ends: with the item at the front, or asleep.
  lemma GetOutcome<T>(s: Queue<T>, id: nat, who: Option<nat>)
    requires Enabled(s, Get(id, who))
    ensures var t := Apply(s, Get(id, who));
            && (s.q == [] ==> t == s.(deqs := s.deqs[id := false]))
            && (s.q != [] ==> [s.q[0]] + t.q == s.q && t.taken == s.taken + [s.q[0]] && t.deqs == s.deqs)
            && (s.q != [] && who.Some? ==> (t.enqs[who.value].woken <==> 0 < s.max && |s.q| <= s.max))
  {
    assert s.q != [] ==> [s.q[0]] + s.q[1..] == s.q;
  }

  // ---- what every step keeps ----

  function WokenDeqs(deqs: map<nat, bool>): set<nat> {
    set id | id in deqs && deqs[id]
  }

  function WokenEnqs<T>(enqs: map<nat, Waiter<T>>): set<nat> {
    set id | id in enqs && enqs[id].woken
  }

  // Nothing is lost, duplicated or reordered, and the limit holds; while a dequeuer
  // sleeps there are no more items than dequeuers on their way to take them, and
  // while an enqueuer sleeps no more free places than enqueuers on their way.
  ghost predicate Inv<T>(s: Queue<T>) {
    && s.given == s.taken + s.q
    && (s.max > 0 ==> |s.q| <= s.max)
    && (s.max == 0 ==> s.enqs == map[])
    && (Dozers(s.deqs) != {} ==> |s.q| <= |WokenDeqs(s.deqs)|)
    && (Sleepers(s.enqs) != {} ==> s.max - |s.q| <= |WokenEnqs(s.enqs)|)
  }

  lemma WakeDeq(deqs: map<nat, bool>, id: nat)
    requires id in Dozers(deqs)
    ensures |WokenDeqs(deqs[id := true])| == |WokenDeqs(deqs)| + 1
  {
    assert WokenDeqs(deqs[id := true]) == WokenDeqs(deqs) + {id};
  }

  lemma WakeEnq<T>(enqs: map<nat, Waiter<T>>, id: nat)
    requires id in Sleepers(enqs)
    ensures |WokenEnqs(enqs[id := enqs[id].(woken := true)])| == |WokenEnqs(enqs)| + 1
  {
    assert WokenEnqs(enqs[id := enqs[id].(woken := true)]) == WokenEnqs(enqs) + {id};
  }

  // A thread that leaves takes at most itself from those on their way.
  lemma LeaveDeq(deqs: map<nat, bool>, id: nat)
    ensures |WokenDeqs(deqs - {id})| >= |WokenDeqs(deqs)| - 1
    ensures id !in deqs || !deqs[id] ==> |WokenDeqs(deqs - {id})| == |WokenDeqs(deqs)|
  {
    assert WokenDeqs(deqs - {id}) == WokenDeqs(deqs) - {id};
  }

  lemma LeaveEnq<T>(enqs: map<nat, Waiter<T>>, id: nat)
    ensures |WokenEnqs(enqs - {id})| >= |WokenEnqs(enqs)| - 1
  {
    assert WokenEnqs(enqs - {id}) == WokenEnqs(enqs) - {id};
  }

  lemma EnqKeeps<T>(s: Queue<T>, id: nat, item: T, blocking: bool, who: Option<nat>)
    requires Inv(s) && Choice(Dozers(s.deqs), who)
    ensures Inv(Enq(s, id, item, blocking, who))
  {
    if HasSpace(s) {
      if who.Some? {
        WakeDeq(s.deqs, who.value);
      }
      LeaveEnq(s.enqs, id);
      assert Sleepers(s.enqs - {id}) <= Sleepers(s.enqs);
      assert who.None? ==> Dozers(s.deqs) == {};
      assert who.Some? ==> Dozers(s.deqs[who.value := true]) <= Dozers(s.deqs);
    }
  }

  lemma DeqKeeps<T>(s: Queue<T>, id: nat, who: Option<nat>)
    requires Inv(s) && Choice(Sleepers(s.enqs), who)
    ensures Inv(Deq(s, id, who))
  {
    if s.q != [] {
      if who.Some? {
        WakeEnq(s.enqs, who.value);
      }
      LeaveDeq(s.deqs, id);
      assert Dozers(s.deqs - {id}) <= Dozers(s.deqs);
      assert who.Some? ==> Sleepers(s.enqs[who.value := s.enqs[who.value].(woken := true)]) <= Sleepers(s.enqs);
      assert s.taken + s.q == (s.taken + [s.q[0]]) + s.q[1..];
    }
  }

  lemma StepKeeps<T>(s: Queue<T>, e: Event<T>)
    requires Inv(s) && Enabled(s, e)
    ensures Inv(Apply(s, e))
  {
    match e
    case Put(id, item, blocking, who) => EnqKeeps(s, id, item, blocking, who);
    case PutAgain(id, who) => EnqKeeps(s, id, s.enqs[id].item, true, who);
    case Get(id, who) => DeqKeeps(s, id, who);
    case GetAgain(id, who) => DeqKeeps(s, id, who);
  }

  // ---- whole runs ----

  ghost predicate IsRun<T(!new)>(max: nat, ss: seq<Queue<T>>, es: seq<Event<T>>) {
    && |ss| == |es| + 1 && ss[0] == Empty(max)
    && forall i | 0 <= i < |es| :: Enabled(ss[i], es[i]) && ss[i + 1] == Apply(ss[i], es[i])
  }

  lemma {:induction false} RunKeeps<T(!new)>(max: nat, ss: seq<Queue<T>>, es: seq<Event<T>>, i: nat)
    requires IsRun(max, ss, es) && i < |ss|
    ensures Inv(ss[i])
  {
    if i > 0 {
      RunKeeps(max, ss, es, i - 1);
      StepKeeps(ss[i - 1], es[i - 1]);
    } else {
      assert Sleepers(Empty<T>(max).enqs) == {};
      assert Dozers(Empty<T>(max).deqs) == {};
    }
  }

  // In every reachable state items come out in the order they went in, none lost
  // and none twice; a dequeuer sleeps beside an item only when another has been
  // woken to take it, and an enqueuer beside a free place only when another has
  // been woken to fill it.
  lemma NoWakeupIsLost<T(!new)>(max: nat, ss: seq<Queue<T>>, es: seq<Event<T>>, i: nat)
    requires IsRun(max, ss, es) && i < |ss|
    ensures ss[i].taken <= ss[i].given && ss[i].given == ss[i].taken + ss[i].q
    ensures ss[i].max > 0 ==> |ss[i].q| <= ss[i].max
    ensures Dozers(ss[i].deqs) != {} && ss[i].q != [] ==> exists id :: id in WokenDeqs(ss[i].deqs)
    ensures Sleepers(ss[i].enqs) != {} && HasSpace(ss[i]) ==> exists id :: id in WokenEnqs(ss[i].enqs)
  {
    RunKeeps(max, ss, es, i);
    var s := ss[i];
    if Dozers(s.deqs) != {} && s.q != [] {
      assert WokenDeqs(s.deqs) != {};
    }
    if Sleepers(s.enqs) != {} && HasSpace(s) {
      assert s.enqs != map[];
      assert WokenEnqs(s.enqs) != {};
    }
  }

  // ---- the object ----

  class BoundedQueue<T> {
    var q: seq<T>
    const max: nat

    ghost var model: Queue<T>

    ghost predicate Valid()
      reads this
    {
      q == model.q && max == model.max
    }

    constructor (limit: nat)
      ensures Valid() && model == Empty(limit)
    {
      q, max, model := [], limit, Empty(limit);
    }

    // enq up to its end or until it blocks; None while it blocks.
    method Enqueue(ghost id: nat, item: T, blocking: bool, ghost who: Option<nat>) returns (ret: Option<bool>)
      requires Valid() && Enabled(model, Event.Put(id, item, blocking, who))
      modifies this
      ensures Valid() && model == Apply(old(model), Event.Put(id, item, blocking, who))
      ensures ret == if HasSpace(old(model)) then Some(true) else if blocking then None else Some(false)
    {
      model := Apply(model, Event.Put(id, item, blocking, who));
      if max == 0 || |q| < max {
        q := q + [item];
        return Some(true);
      }
      return if blocking then None else Some(false);
    }

    // enq after a wake-up.
    method EnqueueAgain(ghost id: nat, item: T, ghost who: Option<nat>) returns (done: bool)
      requires Valid() && Enabled(model, PutAgain(id, who)) && model.enqs[id].item == item
      modifies this
      ensures Valid() && model == Apply(old(model), PutAgain(id, who)) && done == HasSpace(old(model))
    {
      model := Apply(model, PutAgain(id, who));
      done := max == 0 || |q| < max;
      if done {
        q := q + [item];
      }
    }

    // deq up to its end or until it blocks; None while it blocks.
    method Dequeue(ghost id: nat, ghost again: bool, ghost who: Option<nat>) returns (item: Option<T>)
      requires Valid() && Enabled(model, if again then GetAgain(id, who) else Get(id, who))
      modifies this
      ensures Valid() && model == Apply(old(model), if again then GetAgain(id, who) else Get(id, who))
      ensures item == if old(q) == [] then None else Some(old(q)[0])
    {
      model := Apply(model, if again then GetAgain(id, who) else Get(id, who));
      if q == [] {
        return None;
      }
      item := Some(q[0]);
      q := q[1..];
    }
  }
}
