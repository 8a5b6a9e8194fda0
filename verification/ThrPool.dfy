// A pool of workers that share one job queue, and its shutdown by poison pills.
module ThrPool {

  import opened Wrappers
  import opened Fifo

  // A job without a function is the pill.
  datatype Job = Work(job: nat) | Pill

  // Workers are the threads 0..size-1.  running are the workers with a job, exited
  // those that have left; once closing, the destructor has pushed pills.
  datatype Pool = Pool(f: Queue<Job>, size: nat, running: set<nat>, exited: set<nat>, closing: bool)

  function Fresh(size: nat): Pool {
    Pool(Empty(100 * size), size, {}, {}, false)
  }

  datatype Step =
    | Add(id: nat, job: nat, blocking: bool, who: Option<nat>)
    | AddAgain(id: nat, who: Option<nat>)
    | Take(w: nat, who: Option<nat>)
    | TakeAgain(w: nat, who: Option<nat>)
    | Finish(w: nat)
    | Close
    | Poison(id: nat, who: Option<nat>)
    | PoisonAgain(id: nat, who: Option<nat>)

  function CountPills(js: seq<Job>): nat {
    if js == [] then 0 else CountPills(js[..|js| - 1]) + if js[|js| - 1].Pill? then 1 else 0
  }

  ghost predicate CanDo(p: Pool, step: Step) {
    match step
    case Add(id, job, blocking, who) =>
      !p.closing && id >= p.size && Enabled(p.f, Event.Put(id, Work(job), blocking, who))
    case AddAgain(id, who) => !p.closing && Enabled(p.f, PutAgain(id, who))
    case Take(w, who) => w < p.size && w !in p.running && w !in p.exited && Enabled(p.f, Get(w, who))
    case TakeAgain(w, who) => Enabled(p.f, GetAgain(w, who))
    case Finish(w) => w in p.running
    // Only when nobody else uses the pool any more or is blocked on it.
    case Close => !p.closing && p.f.enqs == map[]
    // The destructor pushes one pill for each worker, one after another.
    case Poison(id, who) =>
      && p.closing && p.f.enqs == map[] && CountPills(p.f.given) < p.size
      && id >= p.size && Enabled(p.f, Event.Put(id, Pill, true, who))
    case PoisonAgain(id, who) => p.closing && Enabled(p.f, PutAgain(id, who))
  }

  // A worker that got an item runs it or, given a pill, leaves.
  function Took(p: Pool, w: nat, f: Queue<Job>): Pool {
    if |f.taken| <= |p.f.taken| then p.(f := f)
    else
      match f.taken[|f.taken| - 1]
      case Work(_) => p.(f := f, running := p.running + {w})
      case Pill => p.(f := f, exited := p.exited + {w})
  }

  function Do(p: Pool, step: Step): Pool
    requires CanDo(p, step)
  {
    match step
    case Add(id, job, blocking, who) => p.(f := Fifo.Apply(p.f, Event.Put(id, Work(job), blocking, who)))
    case AddAgain(id, who) => p.(f := Fifo.Apply(p.f, PutAgain(id, who)))
    case Take(w, who) => Took(p, w, Fifo.Apply(p.f, Get(w, who)))
    case TakeAgain(w, who) => Took(p, w, Fifo.Apply(p.f, GetAgain(w, who)))
    case Finish(w) => p.(running := p.running - {w})
    case Close => p.(closing := true)
    case Poison(id, who) => p.(f := Fifo.Apply(p.f, Event.Put(id, Pill, true, who)))
    case PoisonAgain(id, who) => p.(f := Fifo.Apply(p.f, PutAgain(id, who)))
  }

  // Where workers are: one that gets a job runs it until it has finished, one that
  // gets a pill has left, and no other step moves anybody.
  lemma WorkersMove(p: Pool, step: Step)
    requires CanDo(p, step)
    ensures var t := Do(p, step);
            if step.Finish? then t == p.(running := p.running - {step.w})
            else if (step.Take? || step.TakeAgain?) && p.f.q != [] then
              && step.w !in t.f.deqs && [p.f.q[0]] + t.f.q == p.f.q
              && t.running == (if p.f.q[0].Work? then p.running + {step.w} else p.running)
              && t.exited == (if p.f.q[0].Pill? then p.exited + {step.w} else p.exited)
            else t.running == p.running && t.exited == p.exited
  {
    if (step.Take? || step.TakeAgain?) && p.f.q != [] {
      assert [p.f.q[0]] + p.f.q[1..] == p.f.q;
    }
  }

  // What comes into the queue: jobs, and pills once the pool is closing, at the back as
  // long as there is room.
  lemma QueueGrows(p: Pool, step: Step)
    requires CanDo(p, step) && (p.f.max == 0 || |p.f.q| < p.f.max)
    ensures var t := Do(p, step);
            && (step.Add? ==> t.f.q == p.f.q + [Work(step.job)])
            && (step.Poison? ==> t.f.q == p.f.q + [Pill])
            && (step.AddAgain? || step.PoisonAgain? ==>
                  t.f.q == p.f.q + [p.f.enqs[step.id].item] && step.id !in t.f.enqs)
            && (step.Close? ==> t == p.(closing := true))
            && t.closing == (p.closing || step.Close?)
  {
  }

  // ---- what every step keeps ----

  // Jobs first, pills last.
  ghost predicate PillsLast(js: seq<Job>) {
    forall i, j | 0 <= i < j < |js| && js[i].Pill? :: js[j].Pill?
  }

  // Before closing only jobs are pushed, afterwards at most one pill a worker.
  ghost predicate ItemsOk(p: Pool) {
    && PillsLast(p.f.given)
    && (forall id | id in p.f.enqs :: if p.closing then p.f.enqs[id].item.Pill? else p.f.enqs[id].item.Work?)
    && (!p.closing ==> CountPills(p.f.given) == 0)
    && (p.closing ==> |p.f.enqs.Keys| <= 1 && CountPills(p.f.given) + |p.f.enqs.Keys| <= p.size)
  }

  // As many workers have left as pills were taken, and each thread is in one place.
  ghost predicate WorkersOk(p: Pool) {
    && |p.exited| == CountPills(p.f.taken)
    && PlacesOk(p.size, p.f.enqs.Keys, p.f.deqs.Keys, p.running, p.exited)
  }

  ghost predicate PlacesOk(size: nat, enqs: set<nat>, deqs: set<nat>, running: set<nat>, exited: set<nat>) {
    && deqs !! running && deqs !! exited && running !! exited
    && (forall w | w in deqs || w in running || w in exited :: w < size)
    && (forall id | id in enqs :: id >= size)
  }

  ghost predicate Inv(p: Pool) {
    Fifo.Inv(p.f) && ItemsOk(p) && WorkersOk(p)
  }

  lemma {:induction false} CountSplits(a: seq<Job>, b: seq<Job>)
    ensures CountPills(a + b) == CountPills(a) + CountPills(b)
  {
    if b == [] {
      assert a + b == a;
    } else {
      assert (a + b)[..|a + b| - 1] == a + b[..|b| - 1];
      CountSplits(a, b[..|b| - 1]);
    }
  }

  lemma {:induction false} PillCounts(js: seq<Job>, i: nat)
    requires i < |js| && js[i].Pill?
    ensures CountPills(js) >= 1
  {
    if i < |js| - 1 {
      PillCounts(js[..|js| - 1], i);
    }
  }

  // An item may follow when it is a pill or no pill went before.
  lemma PillsStayLast(js: seq<Job>, x: Job)
    requires PillsLast(js) && (x.Work? ==> CountPills(js) == 0)
    ensures PillsLast(js + [x])
  {
    if x.Work? {
      forall i | 0 <= i < |js| ensures js[i].Work? {
        if js[i].Pill? {
          PillCounts(js, i);
        }
      }
    }
  }

  lemma PutKeepsItems(p: Pool, id: nat, item: Job, blocking: bool, who: Option<nat>)
    requires ItemsOk(p)
    requires if p.closing then item.Pill? else item.Work?
    requires p.closing ==> CountPills(p.f.given) < p.size && p.f.enqs.Keys <= {id}
    ensures ItemsOk(p.(f := Enq(p.f, id, item, blocking, who)))
  {
    var f := Enq(p.f, id, item, blocking, who);
    if HasSpace(p.f) {
      CountSplits(p.f.given, [item]);
      PillsStayLast(p.f.given, item);
      assert CountPills([item]) == if item.Pill? then 1 else 0;
      assert p.closing ==> f.enqs.Keys == {};
    } else if blocking {
      assert p.closing ==> f.enqs.Keys == {id};
    }
  }

  // What a pass through enq or deq does to the threads.
  lemma EnqPlaces(f: Queue<Job>, id: nat, item: Job, blocking: bool, who: Option<nat>)
    requires Choice(Dozers(f.deqs), who)
    ensures var g := Enq(f, id, item, blocking, who);
            g.deqs.Keys == f.deqs.Keys && g.enqs.Keys <= f.enqs.Keys + {id} && g.taken == f.taken
  {
  }

  lemma DeqPlaces(f: Queue<Job>, w: nat, who: Option<nat>)
    requires Choice(Sleepers(f.enqs), who)
    ensures var g := Deq(f, w, who);
            && g.enqs.Keys == f.enqs.Keys && g.given == f.given
            && (forall id | id in f.enqs :: g.enqs[id].item == f.enqs[id].item)
            && g.deqs.Keys == (if f.q == [] then f.deqs.Keys + {w} else f.deqs.Keys - {w})
            && g.taken == if f.q == [] then f.taken else f.taken + [f.q[0]]
  {
  }

  lemma PutKeeps(p: Pool, id: nat, item: Job, blocking: bool, who: Option<nat>)
    requires Inv(p) && Choice(Dozers(p.f.deqs), who) && id >= p.size
    requires if p.closing then item.Pill? else item.Work?
    requires p.closing ==> CountPills(p.f.given) < p.size && p.f.enqs.Keys <= {id}
    ensures Inv(p.(f := Enq(p.f, id, item, blocking, who)))
  {
    EnqKeeps(p.f, id, item, blocking, who);
    PutKeepsItems(p, id, item, blocking, who);
    EnqPlaces(p.f, id, item, blocking, who);
  }

  lemma PlacesMove(size: nat, enqs: set<nat>, deqs: set<nat>, running: set<nat>, exited: set<nat>, w: nat)
    requires PlacesOk(size, enqs, deqs, running, exited) && w < size && w !in running && w !in exited
    ensures PlacesOk(size, enqs, deqs + {w}, running, exited)
    ensures PlacesOk(size, enqs, deqs - {w}, running + {w}, exited)
    ensures PlacesOk(size, enqs, deqs - {w}, running, exited + {w})
  {
  }

  lemma CountOneMore(js: seq<Job>, x: Job)
    ensures CountPills(js + [x]) == CountPills(js) + if x.Pill? then 1 else 0
  {
    assert (js + [x])[..|js|] == js;
  }

  lemma TookItem(p: Pool, w: nat, f: Queue<Job>, x: Job)
    requires WorkersOk(p) && w < p.size && w !in p.running && w !in p.exited
    requires f.enqs.Keys == p.f.enqs.Keys && f.taken == p.f.taken + [x] && f.deqs.Keys == p.f.deqs.Keys - {w}
    ensures WorkersOk(Took(p, w, f))
  {
    PlacesMove(p.size, p.f.enqs.Keys, p.f.deqs.Keys, p.running, p.exited, w);
    CountOneMore(p.f.taken, x);
  }

  lemma TookNothing(p: Pool, w: nat, f: Queue<Job>)
    requires WorkersOk(p) && w < p.size && w !in p.running && w !in p.exited
    requires f.enqs.Keys == p.f.enqs.Keys && f.taken == p.f.taken && f.deqs.Keys == p.f.deqs.Keys + {w}
    ensures WorkersOk(Took(p, w, f))
  {
    PlacesMove(p.size, p.f.enqs.Keys, p.f.deqs.Keys, p.running, p.exited, w);
  }

  lemma TakeKeeps(p: Pool, w: nat, who: Option<nat>)
    requires Inv(p) && Choice(Sleepers(p.f.enqs), who)
    requires w < p.size && w !in p.running && w !in p.exited
    ensures Inv(Took(p, w, Deq(p.f, w, who)))
  {
    var f := Deq(p.f, w, who);
    DeqKeeps(p.f, w, who);
    DeqPlaces(p.f, w, who);
    if p.f.q == [] {
      TookNothing(p, w, f);
    } else {
      TookItem(p, w, f, p.f.q[0]);
    }
    TookKeepsItems(p, w, f);
  }

  lemma TookKeepsItems(p: Pool, w: nat, f: Queue<Job>)
    requires ItemsOk(p) && f.enqs.Keys == p.f.enqs.Keys && f.given == p.f.given
    requires forall id | id in f.enqs :: f.enqs[id].item == p.f.enqs[id].item
    ensures ItemsOk(Took(p, w, f)) && Took(p, w, f).f == f
  {
  }

  lemma StepKeeps(p: Pool, step: Step)
    requires Inv(p) && CanDo(p, step)
    ensures Inv(Do(p, step))
  {
    match step
    case Add(id, job, blocking, who) => PutKeeps(p, id, Work(job), blocking, who);
    case AddAgain(id, who) => PutKeeps(p, id, p.f.enqs[id].item, true, who);
    case Take(w, who) => TakeKeeps(p, w, who);
    case TakeAgain(w, who) => TakeKeeps(p, w, who);
    case Finish(w) =>
    case Close =>
    case Poison(id, who) => PutKeeps(p, id, Pill, true, who);
    case PoisonAgain(id, who) =>
      OnlyOne(p.f.enqs.Keys, id);
      PutKeeps(p, id, p.f.enqs[id].item, true, who);
  }

  lemma OnlyOne(ids: set<nat>, id: nat)
    requires id in ids && |ids| <= 1
    ensures ids == {id}
  {
    assert |ids - {id}| == 0;
  }

  // ---- whole runs ----

  ghost predicate IsRun(size: nat, ps: seq<Pool>, steps: seq<Step>) {
    && |ps| == |steps| + 1 && ps[0] == Fresh(size)
    && forall i | 0 <= i < |steps| :: CanDo(ps[i], steps[i]) && ps[i + 1] == Do(ps[i], steps[i])
  }

  lemma {:induction false} RunKeeps(size: nat, ps: seq<Pool>, steps: seq<Step>, i: nat)
    requires IsRun(size, ps, steps) && i < |ps|
    ensures Inv(ps[i]) && ps[i].size == size
  {
    if i > 0 {
      RunKeeps(size, ps, steps, i - 1);
      StepKeeps(ps[i - 1], steps[i - 1]);
    } else {
      var f := ps[0].f;
      assert Sleepers(f.enqs) == {} && Dozers(f.deqs) == {};
    }
  }

  // A worker leaves only when every accepted job has been taken: what is left in
  // the queue is pills.
  lemma JobsGoFirst(size: nat, ps: seq<Pool>, steps: seq<Step>, i: nat)
    requires IsRun(size, ps, steps) && i < |ps| && ps[i].exited != {}
    ensures forall x | x in ps[i].f.given && x.Work? :: x in ps[i].f.taken
    ensures forall x | x in ps[i].f.q :: x.Pill?
  {
    RunKeeps(size, ps, steps, i);
    var p := ps[i];
    assert |p.exited| != 0;
    var k := FirstPill(p.f.taken);
    forall j | 0 <= j < |p.f.q| ensures p.f.q[j].Pill? {
      assert p.f.given[k].Pill? && p.f.given[|p.f.taken| + j] == p.f.q[j];
    }
  }

  lemma {:induction false} FirstPill(js: seq<Job>) returns (k: nat)
    requires CountPills(js) > 0
    ensures k < |js| && js[k].Pill?
  {
    k := |js| - 1;
    if !js[k].Pill? {
      k := FirstPill(js[..|js| - 1]);
    }
  }

  // Per worker a hundred jobs may be queued: addJob that is not to block is refused
  // exactly when that many are.
  lemma RefusedIffFull(size: nat, ps: seq<Pool>, steps: seq<Step>, i: nat)
    requires IsRun(size, ps, steps) && i < |steps| && size > 0
    requires steps[i].Add? && !steps[i].blocking
    ensures |ps[i].f.q| <= 100 * size
    ensures ps[i + 1].f.q == if |ps[i].f.q| == 100 * size then ps[i].f.q else ps[i].f.q + [Work(steps[i].job)]
  {
    RunKeeps(size, ps, steps, i);
    KeepsLimit(size, ps, steps, i);
    assert CanDo(ps[i], steps[i]) && ps[i + 1] == Do(ps[i], steps[i]);
  }

  lemma {:induction false} KeepsLimit(size: nat, ps: seq<Pool>, steps: seq<Step>, i: nat)
    requires IsRun(size, ps, steps) && i < |ps|
    ensures ps[i].f.max == 100 * size
  {
    if i > 0 {
      KeepsLimit(size, ps, steps, i - 1);
      assert CanDo(ps[i - 1], steps[i - 1]) && ps[i] == Do(ps[i - 1], steps[i - 1]);
    }
  }

  // When the destructor has joined all workers, each has taken exactly one pill,
  // every accepted job has been taken, nothing is left, and no pill is pending.
  lemma ShutdownIsComplete(size: nat, ps: seq<Pool>, steps: seq<Step>, i: nat)
    requires IsRun(size, ps, steps) && i < |ps| && ps[i].closing
    requires |ps[i].exited| == size > 0
    ensures ps[i].f.q == [] && ps[i].f.enqs == map[] && ps[i].f.taken == ps[i].f.given
    ensures CountPills(ps[i].f.taken) == size
  {
    RunKeeps(size, ps, steps, i);
    var p := ps[i];
    CountSplits(p.f.taken, p.f.q);
    assert |p.f.enqs.Keys| == 0 && CountPills(p.f.q) == 0;
    assert p.f.enqs.Keys == {};
    if p.f.q != [] {
      JobsGoFirst(size, ps, steps, i);
      PillCounts(p.f.q, 0);
    }
  }

  // While workers remain after the last pill was pushed, pills remain for all of
  // them, and if one of them sleeps another is awake or on its way.
  lemma NoWorkerIsStranded(size: nat, ps: seq<Pool>, steps: seq<Step>, i: nat)
    requires IsRun(size, ps, steps) && i < |ps| && ps[i].closing
    requires CountPills(ps[i].f.given) == size && |ps[i].exited| < size
    ensures CountPills(ps[i].f.q) == size - |ps[i].exited|
    ensures Dozers(ps[i].f.deqs) != {} ==> exists w :: w in WokenDeqs(ps[i].f.deqs)
  {
    RunKeeps(size, ps, steps, i);
    var p := ps[i];
    CountSplits(p.f.taken, p.f.q);
    assert p.f.q != [];
    if Dozers(p.f.deqs) != {} {
      assert WokenDeqs(p.f.deqs) != {};
    }
  }

  // ---- the shutdown can be completed ----

  // The workers can all leave within n steps of their own.
  ghost predicate CanEmpty(p: Pool, n: nat)
    decreases n
  {
    || |p.exited| == p.size
    || (n > 0 && exists step, t :: Leads(p, step, t) && CanEmpty(t, n - 1))
  }

  ghost predicate Leads(p: Pool, step: Step, t: Pool) {
    (step.Take? || step.TakeAgain? || step.Finish?) && CanDo(p, step) && t == Do(p, step)
  }

  // All pills have been pushed.
  ghost predicate Poisoned(p: Pool) {
    Inv(p) && p.closing && CountPills(p.f.given) == p.size
  }

  lemma WorkerRemains(p: Pool) returns (w: nat)
    requires WorkersOk(p) && |p.exited| < p.size
    ensures w < p.size && w !in p.exited
  {
    if forall v: nat | v < p.size :: v in p.exited {
      NumbersBelow(p.size, p.exited);
    }
    w :| w < p.size && w !in p.exited;
  }

  lemma {:induction false} NumbersBelow(n: nat, s: set<nat>)
    requires forall v: nat | v < n :: v in s
    ensures |s| >= n
  {
    if n > 0 {
      NumbersBelow(n - 1, s - {n - 1});
      assert s == (s - {n - 1}) + {n - 1};
    }
  }

  // A worker that remains, when none has a job, takes what is at the front.
  lemma TakesNext(p: Pool) returns (step: Step, t: Pool)
    requires Poisoned(p) && |p.exited| < p.size && p.running == {}
    ensures Leads(p, step, t) && Poisoned(t) && |t.f.q| < |p.f.q|
  {
    var w := WorkerRemains(p);
    CountSplits(p.f.taken, p.f.q);
    assert p.f.q != [] && |p.f.enqs.Keys| == 0;
    assert Sleepers(p.f.enqs) == {};
    step := if w in p.f.deqs then TakeAgain(w, None) else Take(w, None);
    WorkerIsNoAdder(p, w);
    t := Do(p, step);
    StepKeeps(p, step);
    DeqPlaces(p.f, w, None);
    WorkersMove(p, step);
    assert |[p.f.q[0]] + t.f.q| == |p.f.q|;
  }

  lemma WorkerIsNoAdder(p: Pool, w: nat)
    requires WorkersOk(p) && w < p.size
    ensures w !in p.f.enqs
  {
  }

  lemma FinishesJob(p: Pool) returns (step: Step, t: Pool)
    requires Poisoned(p) && p.running != {}
    ensures Leads(p, step, t) && Poisoned(t) && t.f == p.f && |t.running| < |p.running|
  {
    var w :| w in p.running;
    step := Finish(w);
    t := Do(p, step);
    StepKeeps(p, step);
    assert p.running == (p.running - {w}) + {w};
  }

  lemma {:induction false} EmptyingEnds(p: Pool) returns (n: nat)
    requires Poisoned(p)
    ensures CanEmpty(p, n)
    decreases |p.f.q|, |p.running|
  {
    CountSplits(p.f.taken, p.f.q);
    if |p.exited| == p.size {
      n := 0;
    } else {
      var step, t;
      if p.running == {} {
        step, t := TakesNext(p);
      } else {
        step, t := FinishesJob(p);
      }
      n := EmptyingEnds(t);
      n := n + 1;
    }
  }

  // From every state of every run in which the destructor has pushed its pills, the
  // workers by themselves can do the jobs that are left and leave, so that it can
  // join them all.
  lemma ShutdownCanComplete(size: nat, ps: seq<Pool>, steps: seq<Step>, i: nat) returns (n: nat)
    requires IsRun(size, ps, steps) && i < |ps| && ps[i].closing && CountPills(ps[i].f.given) == size
    ensures CanEmpty(ps[i], n)
  {
    RunKeeps(size, ps, steps, i);
    n := EmptyingEnds(ps[i]);
  }
}
