/**
 The priority scheduler of src/driver/native/twnative_engine_sched.c with its counting semaphore, and
 the shutdown of src/driver/native/twnative_engine_int.c, as an interleaved state machine: any number
 of workers, of waiting threads that help with the queues, and of pushes in progress. There is no
 event driver, and the number of workers is never changed.
 */
module Scheduler {
  import opened Common

  /** Inside scheduler_core: reading the limit, looking at level `k`, or running `job`, which was found there. */
  datatype Core =
    | LoadSleep
    | LoadNt(someSleep: bool)
    | Scan(k: nat, max: nat)
    | Exec(k: nat, max: nat, job: nat)
    | Fin

  /** The worker loop around it. */
  datatype Worker =
    | Check
    | Incr
    | Dec
    | Decr
    | In(core: Core)
    | Leave
    | Gone

  /**
   `pending` counts pushes whose semaphore increment is still to come, `posts` those of the shutdown. The last four
   fields are history: the jobs pushed to and popped from each level in order, the jobs whose run is over, and how
   many tokens workers have taken.
   */
  datatype State = State(
    queues: seq<seq<nat>>,
    tokens: nat,
    sleepNt: int,
    nt: nat,
    pending: nat,
    closing: bool,
    posts: nat,
    workers: seq<Worker>,
    waiters: seq<Core>,
    pushed: seq<seq<nat>>,
    popped: seq<seq<nat>>,
    done: multiset<nat>,
    taken: nat)

  datatype Action =
    | Push(level: nat, job: nat)
    | Inc
    | Work(w: nat)
    | WorkDone(w: nat, ok: bool)
    | Enter
    | Help(v: nat)
    | HelpDone(v: nat, ok: bool)
    | Close
    | Post

  function Init(n: nat): State {
    State(seq(NUM_LEVELS, _ => []), 0, 0, n, 0, false, 0, seq(n, _ => Check), [],
          seq(NUM_LEVELS, _ => []), seq(NUM_LEVELS, _ => []), multiset{}, 0)
  }

  /** `jobs` with one more at the end of level `l`. */
  function Append(jobs: seq<seq<nat>>, l: nat, job: nat): seq<seq<nat>> {
    if l < |jobs| then jobs[l := jobs[l] + [job]] else jobs
  }

  /** The scan is at a level that has a job. */
  predicate Finds(s: State, c: Core) { c.Scan? && c.k < c.max && c.k < |s.queues| && s.queues[c.k] != [] }

  /** Where one step of scheduler_core leads. */
  function CoreNext(s: State, c: Core): Core {
    match c
    case LoadSleep => LoadNt(s.sleepNt > 0)
    case LoadNt(some) => Scan(0, if some && s.nt > 1 then NUM_LEVELS else NUM_LEVELS - 1)
    case Scan(k, max) =>
      if k >= max || k >= |s.queues| then Fin
      else if s.queues[k] == [] then Scan(k + 1, max)
      else Exec(k, max, s.queues[k][0])
    case _ => c
  }

  /** What that step does to the queues. */
  function CoreEffect(s: State, c: Core): State {
    if Finds(s, c) then
      var q := s.queues[c.k];
      s.(queues := s.queues[c.k := q[1..]], popped := Append(s.popped, c.k, q[0]))
    else s
  }

  /** Running a popped job ends the scan, unless the job turns out to be garbage. */
  function CoreDone(c: Core, ok: bool): Core {
    match c
    case Exec(k, max, _) => if ok then Fin else Scan(k, max)
    case _ => c
  }

  /** The job a thread has popped and not finished running. */
  function Hand(c: Core): multiset<nat> { if c.Exec? then multiset{c.job} else multiset{} }

  function SetWorker(s: State, w: nat, x: Worker): State
    requires w < |s.workers|
  {
    s.(workers := s.workers[w := x])
  }

  function WorkStep(s: State, w: nat): State
    requires w < |s.workers|
  {
    match s.workers[w]
    case Check => SetWorker(s, w, if w < s.nt then Incr else Leave)
    case Incr => SetWorker(s, w, Dec).(sleepNt := s.sleepNt + 1)
    case Dec => if s.tokens == 0 then s else SetWorker(s, w, Decr).(tokens := s.tokens - 1, taken := s.taken + 1)
    case Decr => SetWorker(s, w, In(LoadSleep)).(sleepNt := s.sleepNt - 1)
    case In(Fin) => SetWorker(s, w, Check)
    case In(c) => SetWorker(CoreEffect(s, c), w, In(CoreNext(s, c)))
    case Leave => SetWorker(s, w, Gone)
    case Gone => s
  }

  function Next(s: State, a: Action): State {
    match a
    case Push(level, job) =>
      if level < |s.queues| then
        s.(queues := Append(s.queues, level, job), pushed := Append(s.pushed, level, job), pending := s.pending + 1)
      else s
    case Inc => if s.pending > 0 then s.(pending := s.pending - 1, tokens := s.tokens + 1) else s
    case Work(w) => if w < |s.workers| then WorkStep(s, w) else s
    case WorkDone(w, ok) =>
      if w < |s.workers| && s.workers[w].In? then
        var c := s.workers[w].core;
        SetWorker(s, w, In(CoreDone(c, ok))).(done := s.done + Hand(c))
      else s
    case Enter => s.(waiters := s.waiters + [Fin])
    case Help(v) =>
      if v >= |s.waiters| then s
      else if s.waiters[v].Fin? then s.(waiters := s.waiters[v := LoadSleep])
      else CoreEffect(s, s.waiters[v]).(waiters := s.waiters[v := CoreNext(s, s.waiters[v])])
    case HelpDone(v, ok) =>
      if v < |s.waiters| then
        s.(waiters := s.waiters[v := CoreDone(s.waiters[v], ok)], done := s.done + Hand(s.waiters[v]))
      else s
    case Close => if s.closing then s else s.(closing := true, nt := 0, posts := s.nt)
    case Post => if s.posts > 0 then s.(posts := s.posts - 1, tokens := s.tokens + 1) else s
  }

  function Run(s: State, acts: seq<Action>): State {
    if acts == [] then s else Next(Run(s, acts[..|acts| - 1]), acts[|acts| - 1])
  }

  // ---------------------------------------------------------------------------------------------
  // Counting
  // ---------------------------------------------------------------------------------------------

  /** Jobs queued at levels up to `k`. */
  function JobsUpTo(queues: seq<seq<nat>>, k: nat): nat {
    if k >= |queues| then 0 else |queues[k]| + if k == 0 then 0 else JobsUpTo(queues, k - 1)
  }

  /** A worker that has taken a token and will still look at level `k`, or has not got past it. */
  predicate Seeks(x: Worker, k: nat) {
    match x
    case Decr => true
    case In(LoadSleep) => true
    case In(LoadNt(_)) => true
    case In(Scan(j, _)) => j <= k
    case _ => false
  }

  function Seekers(ws: seq<Worker>, k: nat): nat {
    if ws == [] then 0 else Seekers(ws[..|ws| - 1], k) + Bit(Seeks(ws[|ws| - 1], k))
  }

  /** At every level but the lowest, tokens, unsignalled pushes and workers on their way cover the jobs. */
  ghost predicate Covered(s: State) {
    forall k :: 0 <= k < NUM_LEVELS - 1 ==> CoveredAt(s, k)
  }

  predicate CoreOk(c: Core) {
    match c
    case Scan(k, max) => NUM_LEVELS - 1 <= max <= NUM_LEVELS && k <= max
    case Exec(k, max, _) => NUM_LEVELS - 1 <= max <= NUM_LEVELS && k < max
    case _ => true
  }

  ghost predicate Ok(s: State) {
    && |s.queues| == NUM_LEVELS
    && (forall w :: 0 <= w < |s.workers| && s.workers[w].In? ==> CoreOk(s.workers[w].core))
    && (forall v :: 0 <= v < |s.waiters| ==> CoreOk(s.waiters[v]))
  }

  lemma {:induction false} SeekersSplit(ws: seq<Worker>, w: nat, x: Worker, k: nat)
    requires w < |ws|
    ensures Seekers(ws[w := x], k) + Bit(Seeks(ws[w], k)) == Seekers(ws, k) + Bit(Seeks(x, k))
  {
    var last := |ws| - 1;
    if w < last {
      SeekersSplit(ws[..last], w, x, k);
      assert ws[w := x][..last] == ws[..last][w := x];
    } else {
      assert ws[w := x][..last] == ws[..last];
    }
  }

  lemma {:induction false} JobsSplit(queues: seq<seq<nat>>, l: nat, q: seq<nat>, k: nat)
    requires l < |queues| && k < |queues|
    ensures JobsUpTo(queues[l := q], k) == JobsUpTo(queues, k) + if l <= k then |q| - |queues[l]| else 0
    ensures l <= k ==> |queues[l]| <= JobsUpTo(queues, k)
  {
    if k > 0 { JobsSplit(queues, l, q, k - 1); }
  }

  lemma {:induction false} SeekersMonotone(ws: seq<Worker>, k: nat)
    ensures Seekers(ws, k) <= Seekers(ws, k + 1)
  {
    if ws != [] { SeekersMonotone(ws[..|ws| - 1], k); }
  }

  // ---------------------------------------------------------------------------------------------
  // The covering invariant is kept
  // ---------------------------------------------------------------------------------------------

  ghost predicate CoveredAt(s: State, k: nat) {
    JobsUpTo(s.queues, k) <= s.tokens + s.pending + Seekers(s.workers, k)
  }

  /** A step of a worker that is not scanning. */
  lemma WorkCovers(s: State, w: nat, k: nat)
    requires w < |s.workers| && CoveredAt(s, k) && !(s.workers[w].In? && s.workers[w].core.Scan?)
    ensures CoveredAt(WorkStep(s, w), k)
  {
    SeekersSplit(s.workers, w, WorkStep(s, w).workers[w], k);
  }

  /** A worker that finds its level empty moves on; the jobs up to that level are those below it. */
  lemma ScanOn(s: State, w: nat, j: nat, max: nat, k: nat)
    requires w < |s.workers| && s.workers[w] == In(Scan(j, max)) && (j < max && j < |s.queues| ==> s.queues[j] == [])
    requires |s.queues| == NUM_LEVELS && k < NUM_LEVELS - 1 <= max && CoveredAt(s, k) && (k > 0 ==> CoveredAt(s, k - 1))
    ensures CoveredAt(WorkStep(s, w), k)
  {
    var s' := WorkStep(s, w);
    SeekersSplit(s.workers, w, s'.workers[w], k);
    if j == k && k > 0 {
      SeekersSplit(s.workers, w, s'.workers[w], k - 1);
      SeekersMonotone(s'.workers, k - 1);
    }
  }

  /** A worker that pops a job takes it from under the levels above. */
  lemma ScanPops(s: State, w: nat, j: nat, max: nat, k: nat)
    requires w < |s.workers| && s.workers[w] == In(Scan(j, max)) && j < max && j < |s.queues| && s.queues[j] != []
    requires k < |s.queues| && CoveredAt(s, k)
    ensures CoveredAt(WorkStep(s, w), k)
  {
    SeekersSplit(s.workers, w, WorkStep(s, w).workers[w], k);
    JobsSplit(s.queues, j, s.queues[j][1..], k);
  }

  lemma WorkKeeps(s: State, w: nat, k: nat)
    requires Ok(s) && w < |s.workers| && k < NUM_LEVELS - 1 && CoveredAt(s, k) && (k > 0 ==> CoveredAt(s, k - 1))
    ensures CoveredAt(WorkStep(s, w), k)
  {
    if s.workers[w].In? && s.workers[w].core.Scan? {
      var j, max := s.workers[w].core.k, s.workers[w].core.max;
      assert CoreOk(s.workers[w].core);
      if j < max && s.queues[j] != [] { ScanPops(s, w, j, max, k); } else { ScanOn(s, w, j, max, k); }
    } else {
      WorkCovers(s, w, k);
    }
  }

  lemma HelpCovers(s: State, v: nat, k: nat)
    requires v < |s.waiters| && k < |s.queues| && CoveredAt(s, k)
    ensures CoveredAt(Next(s, Help(v)), k)
  {
    var c := s.waiters[v];
    if c.Scan? && c.k < |s.queues| && s.queues[c.k] != [] { JobsSplit(s.queues, c.k, s.queues[c.k][1..], k); }
  }

  lemma NextCovers(s: State, a: Action, k: nat)
    requires Ok(s) && k < NUM_LEVELS - 1 && CoveredAt(s, k) && (k > 0 ==> CoveredAt(s, k - 1))
    ensures CoveredAt(Next(s, a), k)
  {
    if a.Push? {
      if a.level < |s.queues| { JobsSplit(s.queues, a.level, s.queues[a.level] + [a.job], k); }
    } else if a.Work? {
      if a.w < |s.workers| { WorkKeeps(s, a.w, k); }
    } else if a.WorkDone? {
      if a.w < |s.workers| && s.workers[a.w].In? { SeekersSplit(s.workers, a.w, Next(s, a).workers[a.w], k); }
    } else if a.Help? {
      if a.v < |s.waiters| { HelpCovers(s, a.v, k); }
    }
  }

  lemma NextOk(s: State, a: Action)
    requires Ok(s)
    ensures Ok(Next(s, a))
  {
    if a.Work? {
      if a.w < |s.workers| { WorkOk(s, a.w); }
    } else if a.Help? {
      HelpOk(s, a.v);
    }
  }

  lemma WorkOk(s: State, w: nat)
    requires Ok(s) && w < |s.workers|
    ensures Ok(WorkStep(s, w))
  {
  }

  lemma HelpOk(s: State, v: nat)
    requires Ok(s)
    ensures Ok(Next(s, Help(v)))
  {
  }

  lemma NextKeeps(s: State, a: Action)
    requires Ok(s) && Covered(s)
    ensures Ok(Next(s, a)) && Covered(Next(s, a))
  {
    NextOk(s, a);
    forall k | 0 <= k < NUM_LEVELS - 1 ensures CoveredAt(Next(s, a), k) {
      assert CoveredAt(s, k) && (k > 0 ==> CoveredAt(s, k - 1));
      NextCovers(s, a, k);
    }
  }

  lemma {:induction false} RunKeeps(n: nat, acts: seq<Action>)
    ensures Ok(Run(Init(n), acts)) && Covered(Run(Init(n), acts))
  {
    if acts == [] {
      forall k | 0 <= k < NUM_LEVELS ensures JobsUpTo(Init(n).queues, k) == 0 { NoJobs(Init(n).queues, k); }
    } else {
      RunKeeps(n, acts[..|acts| - 1]);
      NextKeeps(Run(Init(n), acts[..|acts| - 1]), acts[|acts| - 1]);
    }
  }

  lemma {:induction false} NoJobs(queues: seq<seq<nat>>, k: nat)
    requires k < |queues| && forall l :: 0 <= l <= k ==> queues[l] == []
    ensures JobsUpTo(queues, k) == 0
  {
    if k > 0 { NoJobs(queues, k - 1); }
  }

  lemma {:induction false} NoneSeek(ws: seq<Worker>, k: nat)
    requires forall w :: 0 <= w < |ws| ==> ws[w] == Dec
    ensures Seekers(ws, k) == 0
  {
    if ws != [] { NoneSeek(ws[..|ws| - 1], k); }
  }

  /**
   No lost wake-up. If every worker is blocked on the semaphore with no token left, and no push is
   waiting for its increment, then every level that each scan visits is empty, whatever the waiting
   threads are in the middle of.
   */
  lemma NoLostWakeup(n: nat, acts: seq<Action>)
    requires var s := Run(Init(n), acts);
      s.tokens == 0 && s.pending == 0 && forall w :: 0 <= w < |s.workers| ==> s.workers[w] == Dec
    ensures var s := Run(Init(n), acts);
      |s.queues| == NUM_LEVELS && forall l :: 0 <= l < NUM_LEVELS - 1 ==> s.queues[l] == []
  {
    RunKeeps(n, acts);
    var s := Run(Init(n), acts);
    forall l | 0 <= l < NUM_LEVELS - 1 ensures s.queues[l] == [] {
      assert CoveredAt(s, l);
      NoneSeek(s.workers, l);
      JobsSplit(s.queues, l, [], l);
    }
  }
}
