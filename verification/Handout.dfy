/**
 What becomes of each job: it leaves its level in the order it came, in one thread's hands, and every job is handed out
 exactly once; and of each token, and of each scan (src/driver/native/twnative_engine_sched.c:15-106,
 src/driver/native/twnative_task_int.c:121-137).
 */
module Handout {
  import opened Common
  import opened Scheduler
  import opened Shutdown

  // ---------------------------------------------------------------------------------------------
  // First in, first out at every level
  // ---------------------------------------------------------------------------------------------

  /** The jobs pushed to each level are those popped from it, in order, followed by those queued there. */
  ghost predicate Fifo(s: State) {
    && |s.queues| == |s.pushed| == |s.popped| == NUM_LEVELS
    && forall l :: 0 <= l < NUM_LEVELS ==> s.pushed[l] == s.popped[l] + s.queues[l]
  }

  lemma EffectFifo(s: State, c: Core)
    requires Fifo(s)
    ensures Fifo(CoreEffect(s, c)) && CoreEffect(s, c).pushed == s.pushed
  {
    if Finds(s, c) { assert s.queues[c.k] == [s.queues[c.k][0]] + s.queues[c.k][1..]; }
  }

  lemma PushFifo(s: State, l: nat, job: nat)
    requires Fifo(s)
    ensures Fifo(Next(s, Push(l, job)))
  {
    if l < |s.queues| { assert s.pushed[l] + [job] == s.popped[l] + (s.queues[l] + [job]); }
  }

  lemma WorkFifo(s: State, w: nat)
    requires Fifo(s) && w < |s.workers|
    ensures Fifo(WorkStep(s, w))
  {
    if s.workers[w].In? { EffectFifo(s, s.workers[w].core); }
  }

  lemma NextFifo(s: State, a: Action)
    requires Fifo(s)
    ensures Fifo(Next(s, a))
  {
    match a
    case Push(l, job) => PushFifo(s, l, job);
    case Work(w) => if w < |s.workers| { WorkFifo(s, w); }
    case Help(v) => if v < |s.waiters| { EffectFifo(s, s.waiters[v]); }
    case _ =>
  }

  // ---------------------------------------------------------------------------------------------
  // In whose hands a popped job is
  // ---------------------------------------------------------------------------------------------

  /** How many times a job is on some list of levels. */
  function Times(levels: seq<seq<nat>>, job: nat): nat {
    if levels == [] then 0 else Times(levels[..|levels| - 1], job) + multiset(levels[|levels| - 1])[job]
  }

  function CoreOf(x: Worker): Core { if x.In? then x.core else Fin }

  function Cores(ws: seq<Worker>): seq<Core> { seq(|ws|, w requires 0 <= w < |ws| => CoreOf(ws[w])) }

  /** Whether a thread has popped the job and is running it. */
  function Holds(c: Core, job: nat): nat { Bit(c.Exec? && c.job == job) }

  /** How many threads have popped the job and are running it. */
  function Holders(cs: seq<Core>, job: nat): nat {
    if cs == [] then 0 else Holders(cs[..|cs| - 1], job) + Holds(cs[|cs| - 1], job)
  }

  ghost predicate Handed(s: State, job: nat) {
    Times(s.popped, job) == s.done[job] + Holders(Cores(s.workers), job) + Holders(s.waiters, job)
  }

  lemma {:induction false} TimesAppend(levels: seq<seq<nat>>, l: nat, x: nat, job: nat)
    requires l < |levels|
    ensures Times(Append(levels, l, x), job) == Times(levels, job) + Bit(x == job)
  {
    var last, more := |levels| - 1, Append(levels, l, x);
    if l < last {
      TimesAppend(levels[..last], l, x, job);
      assert more[..last] == Append(levels[..last], l, x);
    } else {
      assert more[..last] == levels[..last];
    }
  }

  lemma {:induction false} HoldersSplit(cs: seq<Core>, v: nat, c: Core, job: nat)
    requires v < |cs|
    ensures Holders(cs[v := c], job) + Holds(cs[v], job) == Holders(cs, job) + Holds(c, job)
  {
    var last := |cs| - 1;
    if v < last {
      HoldersSplit(cs[..last], v, c, job);
      assert cs[v := c][..last] == cs[..last][v := c];
    } else {
      assert cs[v := c][..last] == cs[..last];
    }
  }

  /** The same for the worker with number `w`. */
  lemma WorkersSplit(ws: seq<Worker>, w: nat, x: Worker, job: nat)
    requires w < |ws|
    ensures Holders(Cores(ws[w := x]), job) + Holds(CoreOf(ws[w]), job)
         == Holders(Cores(ws), job) + Holds(CoreOf(x), job)
  {
    HoldersSplit(Cores(ws), w, CoreOf(x), job);
    assert Cores(ws[w := x]) == Cores(ws)[w := CoreOf(x)];
  }

  /** A step of the scan pops the job that ends up in its hands. */
  lemma EffectHands(s: State, c: Core, job: nat)
    requires |s.popped| == |s.queues|
    ensures Times(CoreEffect(s, c).popped, job) + Holds(c, job) == Times(s.popped, job) + Holds(CoreNext(s, c), job)
  {
    if Finds(s, c) { TimesAppend(s.popped, c.k, s.queues[c.k][0], job); }
  }

  lemma WorkHanded(s: State, w: nat, job: nat)
    requires |s.popped| == |s.queues| && Handed(s, job) && w < |s.workers|
    ensures Handed(WorkStep(s, w), job)
  {
    var x, s' := s.workers[w], WorkStep(s, w);
    if x.In? && x.core != Fin {
      ScanHanded(s, w, job);
    } else {
      LoopStep(s, w, job);
      WorkersSplit(s.workers, w, s'.workers[w], job);
    }
  }

  /** Outside of scheduler_core no job changes hands. */
  lemma LoopStep(s: State, w: nat, job: nat)
    requires w < |s.workers| && !(s.workers[w].In? && s.workers[w].core != Fin)
    ensures var s' := WorkStep(s, w);
      && s'.popped == s.popped && s'.done == s.done && s'.waiters == s.waiters
      && w < |s'.workers| && s'.workers == s.workers[w := s'.workers[w]]
      && Holds(CoreOf(s.workers[w]), job) == 0 && Holds(CoreOf(s'.workers[w]), job) == 0
  {
  }

  lemma ScanHanded(s: State, w: nat, job: nat)
    requires |s.popped| == |s.queues| && Handed(s, job) && w < |s.workers|
    requires s.workers[w].In? && s.workers[w].core != Fin
    ensures Handed(WorkStep(s, w), job)
  {
    var c := s.workers[w].core;
    var s' := WorkStep(s, w);
    EffectHands(s, c, job);
    WorkersSplit(s.workers, w, In(CoreNext(s, c)), job);
    assert s'.popped == CoreEffect(s, c).popped && s'.workers == s.workers[w := In(CoreNext(s, c))];
    assert s'.done == s.done && s'.waiters == s.waiters;
  }

  lemma WorkDoneHanded(s: State, w: nat, ok: bool, job: nat)
    requires Handed(s, job) && w < |s.workers| && s.workers[w].In?
    ensures Handed(Next(s, WorkDone(w, ok)), job)
  {
    WorkersSplit(s.workers, w, In(CoreDone(s.workers[w].core, ok)), job);
  }

  lemma HelpHanded(s: State, v: nat, job: nat)
    requires |s.popped| == |s.queues| && Handed(s, job) && v < |s.waiters|
    ensures Handed(Next(s, Help(v)), job)
  {
    var c, s' := s.waiters[v], Next(s, Help(v));
    HoldersSplit(s.waiters, v, s'.waiters[v], job);
    EffectHands(s, c, job);
    assert s'.popped == CoreEffect(s, c).popped && s'.waiters == s.waiters[v := s'.waiters[v]];
    assert s'.done == s.done && s'.workers == s.workers;
  }

  lemma HelpDoneHanded(s: State, v: nat, ok: bool, job: nat)
    requires Handed(s, job) && v < |s.waiters|
    ensures Handed(Next(s, HelpDone(v, ok)), job)
  {
    HoldersSplit(s.waiters, v, CoreDone(s.waiters[v], ok), job);
  }

  lemma EnterHanded(s: State, job: nat)
    requires Handed(s, job)
    ensures Handed(Next(s, Enter), job)
  {
    assert (s.waiters + [Fin])[..|s.waiters|] == s.waiters;
  }

  lemma NextHanded(s: State, a: Action, job: nat)
    requires |s.popped| == |s.queues| && Handed(s, job)
    ensures Handed(Next(s, a), job)
  {
    match a
    case Work(w) => if w < |s.workers| { WorkHanded(s, w, job); }
    case WorkDone(w, ok) => if w < |s.workers| && s.workers[w].In? { WorkDoneHanded(s, w, ok, job); }
    case Enter => EnterHanded(s, job);
    case Help(v) => if v < |s.waiters| { HelpHanded(s, v, job); }
    case HelpDone(v, ok) => if v < |s.waiters| { HelpDoneHanded(s, v, ok, job); }
    case _ =>
  }

  // ---------------------------------------------------------------------------------------------
  // Tokens and sleepers
  // ---------------------------------------------------------------------------------------------

  /** One token for every push and, in a shutdown, one for every worker: to be posted, there, or taken. */
  ghost predicate TokensExact(s: State) {
    s.tokens + s.taken + s.pending + s.posts == Jobs(s.pushed) + if s.closing then |s.workers| else 0
  }

  predicate Asleep(x: Worker) { x.Dec? || x.Decr? }

  function Sleepers(ws: seq<Worker>): nat {
    if ws == [] then 0 else Sleepers(ws[..|ws| - 1]) + Bit(Asleep(ws[|ws| - 1]))
  }

  lemma {:induction false} SleepersSplit(ws: seq<Worker>, w: nat, x: Worker)
    requires w < |ws|
    ensures Sleepers(ws[w := x]) + Bit(Asleep(ws[w])) == Sleepers(ws) + Bit(Asleep(x))
  {
    var last := |ws| - 1;
    if w < last {
      SleepersSplit(ws[..last], w, x);
      assert ws[w := x][..last] == ws[..last][w := x];
    } else {
      assert ws[w := x][..last] == ws[..last];
    }
  }

  lemma {:induction false} SomeSleeper(ws: seq<Worker>)
    ensures Sleepers(ws) > 0 <==> exists w :: 0 <= w < |ws| && Asleep(ws[w])
  {
    if ws != [] {
      var last := |ws| - 1;
      SomeSleeper(ws[..last]);
      if Sleepers(ws[..last]) > 0 {
        var w :| 0 <= w < last && Asleep(ws[..last][w]);
        assert Asleep(ws[w]);
      } else if Asleep(ws[last]) {
        assert Sleepers(ws) > 0;
      } else {
        forall w | 0 <= w < |ws| ensures !Asleep(ws[w]) { assert w < last ==> ws[..last][w] == ws[w]; }
      }
    }
  }

  /** While nobody stops the engine no worker leaves. */
  predicate Staying(s: State) {
    s.closing || forall w :: 0 <= w < |s.workers| ==> !s.workers[w].Leave? && !s.workers[w].Gone?
  }

  lemma PushTokens(s: State, l: nat, job: nat)
    requires |s.pushed| == |s.queues| && TokensExact(s)
    ensures TokensExact(Next(s, Push(l, job)))
  {
    if l < |s.queues| { JobsSet(s.pushed, l, s.pushed[l] + [job]); }
  }

  lemma WorkTokens(s: State, w: nat)
    requires TokensExact(s) && w < |s.workers|
    ensures TokensExact(WorkStep(s, w))
  {
  }

  lemma NextTokens(s: State, a: Action)
    requires |s.pushed| == |s.queues| && Paid(s) && TokensExact(s)
    ensures TokensExact(Next(s, a))
  {
    match a
    case Push(l, job) => PushTokens(s, l, job);
    case Work(w) => if w < |s.workers| { WorkTokens(s, w); }
    case _ =>
  }

  lemma WorkSleepers(s: State, w: nat)
    requires s.sleepNt == Sleepers(s.workers) && w < |s.workers|
    ensures WorkStep(s, w).sleepNt == Sleepers(WorkStep(s, w).workers)
  {
    SleepersSplit(s.workers, w, WorkStep(s, w).workers[w]);
  }

  lemma NextSleepers(s: State, a: Action)
    requires s.sleepNt == Sleepers(s.workers)
    ensures Next(s, a).sleepNt == Sleepers(Next(s, a).workers)
  {
    match a
    case Work(w) => if w < |s.workers| { WorkSleepers(s, w); }
    case WorkDone(w, ok) =>
      if w < |s.workers| && s.workers[w].In? { SleepersSplit(s.workers, w, In(CoreDone(s.workers[w].core, ok))); }
    case _ =>
  }

  lemma NextStays(s: State, a: Action)
    requires Paid(s) && Staying(s)
    ensures Staying(Next(s, a))
  {
  }

  // ---------------------------------------------------------------------------------------------
  // In every run
  // ---------------------------------------------------------------------------------------------

  lemma {:induction false} NoneTimes(levels: seq<seq<nat>>, job: nat)
    requires forall l :: 0 <= l < |levels| ==> levels[l] == []
    ensures Times(levels, job) == 0 && Jobs(levels) == 0
  {
    if levels != [] { NoneTimes(levels[..|levels| - 1], job); }
  }

  lemma {:induction false} NoneHold(ws: seq<Worker>, job: nat)
    requires forall w :: 0 <= w < |ws| ==> !ws[w].In?
    ensures Holders(Cores(ws), job) == 0
  {
    if ws != [] {
      NoneHold(ws[..|ws| - 1], job);
      assert Cores(ws)[..|ws| - 1] == Cores(ws[..|ws| - 1]);
    }
  }

  lemma {:induction false} NoneSleep(ws: seq<Worker>)
    requires forall w :: 0 <= w < |ws| ==> ws[w] == Check
    ensures Sleepers(ws) == 0
  {
    if ws != [] { NoneSleep(ws[..|ws| - 1]); }
  }

  ghost predicate JobsOk(s: State) {
    && Fifo(s) && (forall job :: Handed(s, job))
    && TokensExact(s) && s.sleepNt == Sleepers(s.workers) && Staying(s)
  }

  lemma InitJobs(n: nat)
    ensures JobsOk(Init(n))
  {
    var s := Init(n);
    forall job ensures Handed(s, job) {
      NoneTimes(s.popped, job);
      NoneHold(s.workers, job);
    }
    NoneTimes(s.pushed, 0);
    NoneSleep(s.workers);
  }

  lemma NextJobs(s: State, a: Action)
    requires JobsOk(s) && Paid(s)
    ensures JobsOk(Next(s, a))
  {
    NextFifo(s, a);
    forall job ensures Handed(Next(s, a), job) {
      assert Handed(s, job);
      NextHanded(s, a, job);
    }
    NextTokens(s, a);
    NextSleepers(s, a);
    NextStays(s, a);
  }

  lemma {:induction false} RunJobs(n: nat, acts: seq<Action>)
    ensures JobsOk(Run(Init(n), acts)) && Paid(Run(Init(n), acts)) && |Run(Init(n), acts).workers| == n
  {
    RunPaid(n, acts);
    if acts == [] {
      InitJobs(n);
    } else {
      var front := acts[..|acts| - 1];
      RunJobs(n, front);
      NextJobs(Run(Init(n), front), acts[|acts| - 1]);
    }
  }

  /** In every run the jobs pushed to a level are those popped from it, in the same order, and those still there. */
  lemma JobsInOrder(n: nat, acts: seq<Action>, l: nat)
    requires l < NUM_LEVELS
    ensures var s := Run(Init(n), acts);
      |s.pushed| == |s.popped| == |s.queues| == NUM_LEVELS && s.pushed[l] == s.popped[l] + s.queues[l]
  {
    RunJobs(n, acts);
  }

  /** Every job pushed to a level gets to its end, with one signal to follow. */
  lemma PushArrives(n: nat, acts: seq<Action>, l: nat, job: nat)
    requires l < NUM_LEVELS
    ensures var s, s' := Run(Init(n), acts), Run(Init(n), acts + [Push(l, job)]);
      && |s.queues| == |s.pushed| == NUM_LEVELS && s'.pending == s.pending + 1
      && s'.queues == s.queues[l := s.queues[l] + [job]] && s'.pushed == s.pushed[l := s.pushed[l] + [job]]
  {
    RunJobs(n, acts);
    assert (acts + [Push(l, job)])[..|acts|] == acts;
  }

  /** Every job popped is in the hands of exactly one thread until its run is over. */
  lemma JobsInHand(n: nat, acts: seq<Action>, job: nat)
    ensures var s := Run(Init(n), acts);
      Times(s.popped, job) == s.done[job] + Holders(Cores(s.workers), job) + Holders(s.waiters, job)
  {
    RunJobs(n, acts);
    assert Handed(Run(Init(n), acts), job);
  }

  /** No token is lost or made up: one for every push and, in a shutdown, one for every worker. */
  lemma TokensConserved(n: nat, acts: seq<Action>)
    ensures var s := Run(Init(n), acts);
      s.tokens + s.taken + s.pending + s.posts == Jobs(s.pushed) + if s.closing then n else 0
  {
    RunJobs(n, acts);
  }

  // ---------------------------------------------------------------------------------------------
  // A scan
  // ---------------------------------------------------------------------------------------------

  /** A worker about to scan takes in the lowest level exactly if another one sleeps and there is more than one. */
  lemma LimitExact(n: nat, acts: seq<Action>, w: nat)
    requires w < n && |Run(Init(n), acts).workers| == n && Run(Init(n), acts).workers[w] == In(LoadSleep)
    ensures var s := Run(Init(n), acts); var s' := Next(Next(s, Work(w)), Work(w));
      && |s'.workers| == n && s'.workers[w].In? && s'.workers[w].core.Scan? && s'.workers[w].core.k == 0
      && s'.workers[w].core.max
         == NUM_LEVELS - Bit(!(s.nt > 1 && exists v :: 0 <= v < |s.workers| && Asleep(s.workers[v])))
  {
    RunJobs(n, acts);
    SomeSleeper(Run(Init(n), acts).workers);
  }

  /** Steps of one waiting thread, which finds every task it meets already run. */
  predicate HelpsInVain(a: Action, v: nat) { a == Help(v) || a == HelpDone(v, false) }

  ghost predicate VainOnly(acts: seq<Action>, v: nat) {
    forall i :: 0 <= i < |acts| ==> HelpsInVain(acts[i], v)
  }

  /** Levels from `k` up to `max` have been emptied, the others are as they were. */
  ghost predicate Drained(s: State, s': State, k: nat, max: nat) {
    && |s'.queues| == |s.queues| == |s.popped| == |s'.popped|
    && forall l :: 0 <= l < |s.queues| ==>
         && s'.queues[l] == (if k <= l < max then [] else s.queues[l])
         && s'.popped[l] == s.popped[l] + (if k <= l < max then s.queues[l] else [])
  }

  /** The thread pops a job, finds its task already run, and looks at the same level again. */
  lemma OnePopped(s: State, v: nat, k: nat, max: nat)
    requires Fifo(s) && v < |s.waiters| && s.waiters[v] == Scan(k, max) && k < max <= NUM_LEVELS && s.queues[k] != []
    ensures var s' := Run(s, [Help(v), HelpDone(v, false)]); var q := s.queues[k];
      && Fifo(s') && s'.waiters == s.waiters
      && s'.queues == s.queues[k := q[1..]] && s'.popped == s.popped[k := s.popped[k] + [q[0]]]
  {
    var s1 := Next(s, Help(v));
    NextFifo(s, Help(v));
    assert s1.waiters == s.waiters[v := Exec(k, max, s.queues[k][0])];
    TwoSteps(s, Help(v), HelpDone(v, false));
    assert Next(s1, HelpDone(v, false)).waiters == s.waiters;
  }

  lemma TwoSteps(s: State, a: Action, b: Action)
    ensures Run(s, [a, b]) == Next(Next(s, a), b) && Run(s, [a]) == Next(s, a)
  {
    var none: seq<Action> := [];
    assert Run(s, none) == s;
    assert [a][..0] == none;
    assert Run(s, [a]) == Next(s, a);
    assert [a, b][..1] == [a];
  }

  /** The thread moves on from an empty level, or ends its scan behind the last. */
  lemma OneSkipped(s: State, v: nat, k: nat, max: nat)
    requires Fifo(s) && v < |s.waiters| && s.waiters[v] == Scan(k, max) && k <= max <= NUM_LEVELS
    requires k < max ==> s.queues[k] == []
    ensures Run(s, [Help(v)]) == s.(waiters := s.waiters[v := if k < max then Scan(k + 1, max) else Fin])
  {
    TwoSteps(s, Help(v), Help(v));
  }

  /**
   A thread whose scan meets only tasks already run goes through its levels one after the other, stays at each until
   it is empty, and takes each job in turn.
   */
  lemma {:induction false} ScanDrains(s: State, v: nat, k: nat, max: nat) returns (acts: seq<Action>)
    requires Fifo(s) && v < |s.waiters| && s.waiters[v] == Scan(k, max) && k <= max <= NUM_LEVELS
    ensures VainOnly(acts, v) && Drained(s, Run(s, acts), k, max)
    ensures Run(s, acts).waiters == s.waiters[v := Fin]
    decreases max - k, if k < max then |s.queues[k]| else 0, 1
  {
    if k == max {
      OneSkipped(s, v, k, max);
      acts := [Help(v)];
    } else if s.queues[k] == [] {
      acts := SkipThenDrain(s, v, k, max);
    } else {
      acts := PopThenDrain(s, v, k, max);
    }
  }

  lemma SkipThenDrain(s: State, v: nat, k: nat, max: nat) returns (acts: seq<Action>)
    requires Fifo(s) && v < |s.waiters| && s.waiters[v] == Scan(k, max) && k < max <= NUM_LEVELS && s.queues[k] == []
    ensures VainOnly(acts, v) && Drained(s, Run(s, acts), k, max)
    ensures Run(s, acts).waiters == s.waiters[v := Fin]
    decreases max - k, 0, 0
  {
    OneSkipped(s, v, k, max);
    var s1 := Run(s, [Help(v)]);
    assert s1.waiters[v] == Scan(k + 1, max);
    acts := ScanDrains(s1, v, k + 1, max);
    RunJoins(s, [Help(v)], acts);
    DrainedNext(s, s1, Run(s1, acts), k, max);
    acts := [Help(v)] + acts;
  }

  lemma PopThenDrain(s: State, v: nat, k: nat, max: nat) returns (acts: seq<Action>)
    requires Fifo(s) && v < |s.waiters| && s.waiters[v] == Scan(k, max) && k < max <= NUM_LEVELS && s.queues[k] != []
    ensures VainOnly(acts, v) && Drained(s, Run(s, acts), k, max)
    ensures Run(s, acts).waiters == s.waiters[v := Fin]
    decreases max - k, |s.queues[k]|, 0
  {
    var two := [Help(v), HelpDone(v, false)];
    OnePopped(s, v, k, max);
    var s1 := Run(s, two);
    acts := ScanDrains(s1, v, k, max);
    RunJoins(s, two, acts);
    DrainedOn(s, s1, Run(s1, acts), k, max);
    acts := two + acts;
  }

  lemma DrainedNext(s: State, s1: State, s': State, k: nat, max: nat)
    requires Fifo(s) && k < max <= NUM_LEVELS && s.queues[k] == [] && Drained(s1, s', k + 1, max)
    requires s1.queues == s.queues && s1.popped == s.popped
    ensures Drained(s, s', k, max)
  {
  }

  lemma DrainedOn(s: State, s1: State, s': State, k: nat, max: nat)
    requires Fifo(s) && k < max <= NUM_LEVELS && s.queues[k] != [] && Drained(s1, s', k, max)
    requires s1.queues == s.queues[k := s.queues[k][1..]]
    requires s1.popped == s.popped[k := s.popped[k] + [s.queues[k][0]]]
    ensures Drained(s, s', k, max)
  {
    assert s.queues[k] == [s.queues[k][0]] + s.queues[k][1..];
  }

  lemma {:induction false} RunJoins(s: State, a: seq<Action>, b: seq<Action>)
    ensures Run(s, a + b) == Run(Run(s, a), b)
  {
    if b == [] {
      assert a + b == a;
    } else {
      RunJoins(s, a, b[..|b| - 1]);
      assert (a + b)[..|a + b| - 1] == a + b[..|b| - 1];
    }
  }

  /**
   A thread that comes to help, and finds every task already run, empties every level a task can be queued at, and the
   lowest one too exactly if it began while one of several workers slept.
   */
  lemma HelpDrains(n: nat, acts: seq<Action>) returns (more: seq<Action>)
    ensures var s, s' := Run(Init(n), acts), Run(Init(n), acts + more);
      && s'.waiters == s.waiters + [Fin] && more != [] && more[0] == Enter && VainOnly(more[1..], |s.waiters|)
      && Drained(s, s', 0,
           NUM_LEVELS - Bit(!(s.nt > 1 && exists v :: 0 <= v < |s.workers| && Asleep(s.workers[v]))))
  {
    var s := Run(Init(n), acts);
    RunJobs(n, acts);
    SomeSleeper(s.workers);
    more := HelpsOut(s);
    RunJoins(Init(n), acts, more);
  }

  lemma HelpsOut(s: State) returns (more: seq<Action>)
    requires Fifo(s)
    ensures more != [] && more[0] == Enter && VainOnly(more[1..], |s.waiters|)
    ensures Run(s, more).waiters == s.waiters + [Fin]
    ensures Drained(s, Run(s, more), 0, if s.sleepNt > 0 && s.nt > 1 then NUM_LEVELS else NUM_LEVELS - 1)
  {
    var v := |s.waiters|;
    var start := [Enter, Help(v), Help(v), Help(v)];
    var max := HelpStarts(s);
    var rest := ScanDrains(Run(s, start), v, 0, max);
    more := start + rest;
    RunJoins(s, start, rest);
    assert s.waiters + [Fin] == (s.waiters + [Scan(0, max)])[v := Fin];
  }

  lemma HelpStarts(s: State) returns (max: nat)
    ensures max == if s.sleepNt > 0 && s.nt > 1 then NUM_LEVELS else NUM_LEVELS - 1
    ensures var v := |s.waiters|;
      Run(s, [Enter, Help(v), Help(v), Help(v)]) == s.(waiters := s.waiters + [Scan(0, max)])
  {
    var v := |s.waiters|;
    max := if s.sleepNt > 0 && s.nt > 1 then NUM_LEVELS else NUM_LEVELS - 1;
    var s1 := Next(s, Enter);
    assert s1 == s.(waiters := s.waiters + [Fin]);
    var s2 := Next(s1, Help(v));
    assert s2.waiters == s.waiters + [LoadSleep];
    var s3 := Next(s2, Help(v));
    assert s3.waiters == s.waiters + [LoadNt(s.sleepNt > 0)];
    var s4 := Next(s3, Help(v));
    assert s4.waiters == s.waiters + [Scan(0, max)];
    TwoSteps(s, Enter, Help(v));
    TwoSteps(s2, Help(v), Help(v));
    RunJoins(s, [Enter, Help(v)], [Help(v), Help(v)]);
    assert [Enter, Help(v)] + [Help(v), Help(v)] == [Enter, Help(v), Help(v), Help(v)];
  }

  // ---------------------------------------------------------------------------------------------
  // Every job is handed out
  // ---------------------------------------------------------------------------------------------

  /** Only priorities a task can have. */
  predicate Accepted(acts: seq<Action>) {
    forall i :: 0 <= i < |acts| && acts[i].Push? ==> acts[i].level < NUM_LEVELS - 1
  }

  /** All workers block on the semaphore, without a token, and no signal is due. */
  predicate Sleeping(s: State) {
    s.tokens == 0 && s.pending == 0 && forall w :: 0 <= w < |s.workers| ==> s.workers[w] == Dec
  }

  /** Every job has been handed out as often as it was pushed, and is over unless a waiting thread still runs it. */
  ghost predicate AllHandedOut(s: State) {
    s.popped == s.pushed && forall job :: Times(s.pushed, job) == s.done[job] + Holders(s.waiters, job)
  }

  /**
   With the priorities a task may have, a pool that sleeps with no signal due leaves no job queued: every job ever
   pushed has been handed out exactly once, in order at each level, and is over unless a waiting thread still runs it.
   */
  lemma NothingLeftBehind(n: nat, acts: seq<Action>)
    requires Accepted(acts) && Sleeping(Run(Init(n), acts))
    ensures var s := Run(Init(n), acts);
      s.queues == seq(NUM_LEVELS, _ => []) && AllHandedOut(s)
  {
    NoLostWakeup(n, acts);
    LowestOnlyByPush(n, acts);
    RunJobs(n, acts);
    var s := Run(Init(n), acts);
    assert forall l :: 0 <= l < NUM_LEVELS ==> s.queues[l] == [];
    assert forall l :: 0 <= l < NUM_LEVELS ==> s.popped[l] == s.pushed[l];
    assert s.popped == s.pushed;
    forall job ensures Times(s.pushed, job) == s.done[job] + Holders(s.waiters, job) {
      assert Handed(s, job);
      NoneHold(s.workers, job);
    }
  }

  // ---------------------------------------------------------------------------------------------
  // The pool gets there
  // ---------------------------------------------------------------------------------------------

  /** Steps of the workers, and signals that are due. */
  predicate Serves(a: Action) { a.Work? || a.WorkDone? || a.Inc? }

  function CoreSteps(c: Core): nat {
    match c
    case LoadSleep => 11
    case LoadNt(_) => 10
    case Scan(k, max) => if k <= max <= NUM_LEVELS then 5 + (max - k) else 5
    case Exec(_, _, _) => 4
    case Fin => 3
  }

  /** How many steps a worker is away from the semaphore, if each job it runs ends its scan. */
  function Steps(x: Worker): nat {
    match x
    case Decr => 12
    case In(c) => CoreSteps(c)
    case Check => 2
    case Incr => 1
    case _ => 0
  }

  function AllSteps(ws: seq<Worker>): nat {
    if ws == [] then 0 else AllSteps(ws[..|ws| - 1]) + Steps(ws[|ws| - 1])
  }

  lemma {:induction false} StepsSplit(ws: seq<Worker>, w: nat, x: Worker)
    requires w < |ws|
    ensures AllSteps(ws[w := x]) + Steps(ws[w]) == AllSteps(ws) + Steps(x)
  {
    var last := |ws| - 1;
    if w < last {
      StepsSplit(ws[..last], w, x);
      assert ws[w := x][..last] == ws[..last][w := x];
    } else {
      assert ws[w := x][..last] == ws[..last];
    }
  }

  /** A bound on the steps until the pool sleeps if nothing more is pushed. */
  function Unrest(s: State): nat { AllSteps(s.workers) + 13 * s.tokens + 14 * s.pending }

  lemma WorkServes(s: State, w: nat)
    requires Ok(s) && Paid(s) && !s.closing && Staying(s) && w < |s.workers| && (s.workers[w].Dec? ==> s.tokens > 0)
    requires !(s.workers[w].In? && s.workers[w].core.Exec?)
    ensures Unrest(WorkStep(s, w)) < Unrest(s)
  {
    var x := s.workers[w];
    assert x.In? ==> CoreOk(x.core);
    StepsSplit(s.workers, w, WorkStep(s, w).workers[w]);
    assert WorkStep(s, w).workers == s.workers[w := WorkStep(s, w).workers[w]];
  }

  lemma DoneServes(s: State, w: nat)
    requires w < |s.workers| && s.workers[w].In? && s.workers[w].core.Exec?
    ensures Unrest(Next(s, WorkDone(w, true))) < Unrest(s)
  {
    StepsSplit(s.workers, w, In(Fin));
  }

  /** As long as a pool of at least one worker does not sleep, something can be done that brings it nearer to that. */
  lemma SomeServes(n: nat, acts: seq<Action>) returns (a: Action)
    requires n > 0 && !Run(Init(n), acts).closing && !Sleeping(Run(Init(n), acts))
    ensures Serves(a) && Unrest(Next(Run(Init(n), acts), a)) < Unrest(Run(Init(n), acts))
    ensures !Next(Run(Init(n), acts), a).closing && Next(Run(Init(n), acts), a).pushed == Run(Init(n), acts).pushed
  {
    var s := Run(Init(n), acts);
    RunJobs(n, acts);
    RunKeeps(n, acts);
    a := Inc;
    if s.pending == 0 {
      var w := 0;
      if s.tokens == 0 { w :| 0 <= w < |s.workers| && s.workers[w] != Dec; }
      a := OwnStep(s, w, true);
      if a.Work? { WorkServes(s, w); } else { DoneServes(s, w); }
    }
  }

  /**
   From every state of an engine with workers that is not being stopped, some steps of the workers lead to a sleeping
   pool: every job pushed so far gets handed out.
   */
  lemma {:induction false} EveryJobServed(n: nat, acts: seq<Action>) returns (all: seq<Action>)
    requires n > 0 && Accepted(acts) && !Run(Init(n), acts).closing
    ensures acts <= all && forall i :: |acts| <= i < |all| ==> Serves(all[i])
    ensures var s, s' := Run(Init(n), acts), Run(Init(n), all);
      Sleeping(s') && s'.pushed == s.pushed && AllHandedOut(s')
    decreases Unrest(Run(Init(n), acts))
  {
    if Sleeping(Run(Init(n), acts)) {
      all := acts;
      NothingLeftBehind(n, all);
    } else {
      var a := SomeServes(n, acts);
      var more := Do(acts, a, Init(n));
      assert more == acts + [a];
      all := EveryJobServed(n, more);
      assert all[|acts|] == more[|acts|];
    }
  }
}
