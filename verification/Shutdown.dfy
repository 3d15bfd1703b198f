/**
 Stopping the workers: once the worker count is set to 0 every worker exits, so all joins return; and
 what becomes of jobs on the lowest priority level.
 */
module Shutdown {
  import opened Common
  import opened Scheduler

  // ---------------------------------------------------------------------------------------------
  // Enough tokens
  // ---------------------------------------------------------------------------------------------

  /** A worker past the check of its id that has not taken its token yet. */
  predicate Owed(x: Worker) { x.Incr? || x.Dec? }

  function Debt(ws: seq<Worker>): nat {
    if ws == [] then 0 else Debt(ws[..|ws| - 1]) + Bit(Owed(ws[|ws| - 1]))
  }

  predicate Paid(s: State) {
    && (if s.closing then s.nt == 0 && Debt(s.workers) <= s.tokens + s.posts else s.nt == |s.workers| && s.posts == 0)
  }

  lemma {:induction false} DebtSplit(ws: seq<Worker>, w: nat, x: Worker)
    requires w < |ws|
    ensures Debt(ws[w := x]) + Bit(Owed(ws[w])) == Debt(ws) + Bit(Owed(x))
  {
    var last := |ws| - 1;
    if w < last {
      DebtSplit(ws[..last], w, x);
      assert ws[w := x][..last] == ws[..last][w := x];
    } else {
      assert ws[w := x][..last] == ws[..last];
    }
  }

  lemma {:induction false} DebtAtMost(ws: seq<Worker>)
    ensures Debt(ws) <= |ws|
    ensures forall w :: 0 <= w < |ws| && Owed(ws[w]) ==> Debt(ws) > 0
  {
    if ws != [] { DebtAtMost(ws[..|ws| - 1]); }
  }

  lemma WorkPaid(s: State, w: nat)
    requires Paid(s) && w < |s.workers|
    ensures Paid(WorkStep(s, w)) && |WorkStep(s, w).workers| == |s.workers|
  {
    DebtSplit(s.workers, w, WorkStep(s, w).workers[w]);
  }

  lemma NextKeepsPaid(s: State, a: Action)
    requires Paid(s)
    ensures Paid(Next(s, a)) && |Next(s, a).workers| == |s.workers|
  {
    match a
    case Work(w) => if w < |s.workers| { WorkPaid(s, w); }
    case WorkDone(w, ok) =>
      if w < |s.workers| && s.workers[w].In? { DebtSplit(s.workers, w, Next(s, a).workers[w]); }
    case Close => DebtAtMost(s.workers);
    case _ =>
  }

  lemma {:induction false} RunPaid(n: nat, acts: seq<Action>)
    ensures Paid(Run(Init(n), acts)) && |Run(Init(n), acts).workers| == n
  {
    if acts != [] {
      RunPaid(n, acts[..|acts| - 1]);
      NextKeepsPaid(Run(Init(n), acts[..|acts| - 1]), acts[|acts| - 1]);
    }
  }

  /** After the shutdown has begun, tokens and posts to come always suffice for the workers at the semaphore. */
  lemma TokensSuffice(n: nat, acts: seq<Action>)
    requires Run(Init(n), acts).closing
    ensures var s := Run(Init(n), acts); Debt(s.workers) <= s.tokens + s.posts
  {
    RunPaid(n, acts);
  }

  // ---------------------------------------------------------------------------------------------
  // Every worker exits
  // ---------------------------------------------------------------------------------------------

  /** The step worker `w` can take by itself; a job being run returns with some outcome. */
  function OwnStep(s: State, w: nat, ok: bool): Action {
    if w < |s.workers| && s.workers[w].In? && s.workers[w].core.Exec? then WorkDone(w, ok) else Work(w)
  }

  /** As long as some worker is left, a post is due or some worker that is left can move. */
  lemma NoDeadlock(n: nat, acts: seq<Action>, w: nat, ok: bool)
    requires Run(Init(n), acts).closing && Run(Init(n), acts).posts == 0
    requires w < n && |Run(Init(n), acts).workers| == n && Run(Init(n), acts).workers[w] != Gone
    ensures Next(Run(Init(n), acts), OwnStep(Run(Init(n), acts), w, ok)) != Run(Init(n), acts)
  {
    RunPaid(n, acts);
    RunKeeps(n, acts);
    DebtAtMost(Run(Init(n), acts).workers);
  }

  function RankCore(c: Core): nat {
    match c
    case LoadSleep => 11
    case LoadNt(_) => 10
    case Scan(k, max) => if k <= max <= NUM_LEVELS then 5 + (max - k) else 5
    case Exec(k, max, _) => if k <= max <= NUM_LEVELS then 6 + (max - k) else 6
    case Fin => 3
  }

  /** A bound on the steps left to a worker while no job is taken and the id check fails. */
  function Rank(x: Worker): nat {
    match x
    case Incr => 14
    case Dec => 13
    case Decr => 12
    case In(c) => RankCore(c)
    case Check => 2
    case Leave => 1
    case Gone => 0
  }

  function Ranks(ws: seq<Worker>): nat {
    if ws == [] then 0 else Ranks(ws[..|ws| - 1]) + Rank(ws[|ws| - 1])
  }

  function Jobs(queues: seq<seq<nat>>): nat {
    if queues == [] then 0 else Jobs(queues[..|queues| - 1]) + |queues[|queues| - 1]|
  }

  /** A bound on the steps the workers and the shutdown still take if nothing more is pushed. */
  function Measure(s: State): nat {
    Ranks(s.workers) + s.posts + 2 * Jobs(s.queues)
  }

  lemma {:induction false} RanksSplit(ws: seq<Worker>, w: nat, x: Worker)
    requires w < |ws|
    ensures Ranks(ws[w := x]) + Rank(ws[w]) == Ranks(ws) + Rank(x)
  {
    var last := |ws| - 1;
    if w < last {
      RanksSplit(ws[..last], w, x);
      assert ws[w := x][..last] == ws[..last][w := x];
    } else {
      assert ws[w := x][..last] == ws[..last];
    }
  }

  lemma {:induction false} JobsSet(queues: seq<seq<nat>>, l: nat, q: seq<nat>)
    requires l < |queues|
    ensures Jobs(queues[l := q]) + |queues[l]| == Jobs(queues) + |q|
  {
    var last := |queues| - 1;
    if l < last {
      JobsSet(queues[..last], l, q);
      assert queues[l := q][..last] == queues[..last][l := q];
    } else {
      assert queues[l := q][..last] == queues[..last];
    }
  }

  /** The steps of the workers and of the shutdown itself. */
  predicate Winds(a: Action) { a.Work? || a.WorkDone? || a.Post? }

  /**
   While the engine closes, every step of a worker and every post makes the measure smaller, a push
   makes it larger by at most 2, and no other step makes it larger.
   */
  lemma MeasureDrops(n: nat, acts: seq<Action>, a: Action)
    requires Run(Init(n), acts).closing
    ensures var s := Run(Init(n), acts); var s' := Next(s, a);
      && Measure(s') <= Measure(s) + 2 * Bit(a.Push?)
      && (Winds(a) && s' != s ==> Measure(s') < Measure(s))
  {
    RunPaid(n, acts);
    RunKeeps(n, acts);
    StepDrops(Run(Init(n), acts), a);
  }

  lemma StepDrops(s: State, a: Action)
    requires Ok(s) && s.closing && s.nt == 0
    ensures var s' := Next(s, a);
      && Measure(s') <= Measure(s) + 2 * Bit(a.Push?)
      && (Winds(a) && s' != s ==> Measure(s') < Measure(s))
  {
    match a
    case Push(level, job) =>
      if level < |s.queues| { JobsSet(s.queues, level, s.queues[level] + [job]); }
    case Work(w) => if w < |s.workers| { WorkDrops(s, w); }
    case WorkDone(w, ok) => if w < |s.workers| && s.workers[w].In? { DoneDrops(s, w, ok); }
    case Help(v) =>
      if v < |s.waiters| && s.waiters[v].Scan? && s.waiters[v].k < |s.queues| && s.queues[s.waiters[v].k] != [] {
        JobsSet(s.queues, s.waiters[v].k, s.queues[s.waiters[v].k][1..]);
      }
    case _ =>
  }

  lemma WorkDrops(s: State, w: nat)
    requires Ok(s) && s.nt == 0 && w < |s.workers|
    ensures WorkStep(s, w) != s ==> Measure(WorkStep(s, w)) < Measure(s)
  {
    match s.workers[w]
    case In(Scan(k, max)) => ScanDrops(s, w, k, max);
    case In(Exec(_, _, _)) => assert WorkStep(s, w).workers == s.workers;
    case _ => RanksSplit(s.workers, w, WorkStep(s, w).workers[w]);
  }

  lemma ScanDrops(s: State, w: nat, k: nat, max: nat)
    requires |s.queues| == NUM_LEVELS && w < |s.workers| && s.workers[w] == In(Scan(k, max)) && CoreOk(Scan(k, max))
    ensures Measure(WorkStep(s, w)) < Measure(s)
  {
    RanksSplit(s.workers, w, WorkStep(s, w).workers[w]);
    if k < max && s.queues[k] != [] { JobsSet(s.queues, k, s.queues[k][1..]); }
  }

  lemma DoneDrops(s: State, w: nat, ok: bool)
    requires Ok(s) && w < |s.workers| && s.workers[w].In?
    ensures var s' := Next(s, WorkDone(w, ok)); s' != s ==> Measure(s') < Measure(s)
  {
    var s' := Next(s, WorkDone(w, ok));
    RanksSplit(s.workers, w, s'.workers[w]);
    if !s.workers[w].core.Exec? { assert s'.workers == s.workers; }
  }

  /** How many steps of workers and posts change the state they meet. */
  function Moves(s: State, acts: seq<Action>): nat {
    if acts == [] then 0
    else
      var front := acts[..|acts| - 1];
      Moves(s, front) + Bit(Winds(acts[|acts| - 1]) && Run(s, acts) != Run(s, front))
  }

  function Pushes(acts: seq<Action>): nat {
    if acts == [] then 0 else Pushes(acts[..|acts| - 1]) + Bit(acts[|acts| - 1].Push?)
  }

  lemma {:induction false} MovesBounded(s: State, more: seq<Action>)
    requires Ok(s) && s.closing && s.nt == 0
    ensures Moves(s, more) + Measure(Run(s, more)) <= Measure(s) + 2 * Pushes(more)
    ensures Ok(Run(s, more)) && Run(s, more).closing && Run(s, more).nt == 0
  {
    if more != [] {
      var front, a := more[..|more| - 1], more[|more| - 1];
      MovesBounded(s, front);
      StepDrops(Run(s, front), a);
      NextOk(Run(s, front), a);
    }
  }

  /**
   Whatever happens once the shutdown has begun, handlers that commit tasks and threads that help
   included: the workers and the posts take no more steps than the measure allows, and two for each push.
   */
  lemma ShutdownBounded(n: nat, acts: seq<Action>, more: seq<Action>)
    requires Run(Init(n), acts).closing
    ensures var s := Run(Init(n), acts);
      Moves(s, more) + Measure(Run(s, more)) <= Measure(s) + 2 * Pushes(more)
  {
    RunPaid(n, acts);
    RunKeeps(n, acts);
    MovesBounded(Run(Init(n), acts), more);
  }

  /** No worker can move any more, and no post is due. */
  ghost predicate Settled(s: State) {
    forall a :: Winds(a) ==> Next(s, a) == s
  }

  predicate AllGone(s: State) {
    s.posts == 0 && forall w :: 0 <= w < |s.workers| ==> s.workers[w] == Gone
  }

  /** When the shutdown comes to rest every worker has exited, so every join returns. */
  lemma SettledAllGone(n: nat, acts: seq<Action>)
    requires Run(Init(n), acts).closing
    ensures Settled(Run(Init(n), acts)) <==> AllGone(Run(Init(n), acts))
  {
    var s := Run(Init(n), acts);
    RunPaid(n, acts);
    if Settled(s) {
      assert Winds(Post) && Next(s, Post) == s;
      forall w | 0 <= w < |s.workers| ensures s.workers[w] == Gone {
        var a := OwnStep(s, w, true);
        assert Winds(a) && Next(s, a) == s;
        if s.workers[w] != Gone { NoDeadlock(n, acts, w, true); }
      }
    }
  }

  /** It does come to rest: from any state of a shutdown some steps of workers and posts lead there. */
  lemma {:induction false} ShutdownEnds(n: nat, acts: seq<Action>) returns (all: seq<Action>)
    requires Run(Init(n), acts).closing
    ensures acts <= all && AllGone(Run(Init(n), all))
    ensures forall i :: |acts| <= i < |all| ==> Winds(all[i])
    decreases Measure(Run(Init(n), acts))
  {
    var s := Run(Init(n), acts);
    RunPaid(n, acts);
    if AllGone(s) {
      all := acts;
    } else {
      var a := Post;
      if s.posts == 0 {
        var w :| 0 <= w < |s.workers| && s.workers[w] != Gone;
        a := OwnStep(s, w, true);
        NoDeadlock(n, acts, w, true);
      }
      MeasureDrops(n, acts, a);
      assert (acts + [a])[..|acts|] == acts;
      all := ShutdownEnds(n, acts + [a]);
      assert all[|acts|] == (acts + [a])[|acts|];
    }
  }

  /** Whatever the engine is doing, stopping it can be begun, and ends with every worker gone. */
  lemma StopEnds(n: nat, acts: seq<Action>) returns (all: seq<Action>)
    ensures acts + [Close] <= all && AllGone(Run(Init(n), all)) && |Run(Init(n), all).workers| == n
    ensures forall i :: |acts| < i < |all| ==> Winds(all[i])
  {
    var more := acts + [Close];
    assert more[..|acts|] == acts;
    all := ShutdownEnds(n, more);
    RunPaid(n, all);
  }

  // ---------------------------------------------------------------------------------------------
  // The lowest level
  // ---------------------------------------------------------------------------------------------

  lemma Do(acts: seq<Action>, a: Action, s: State) returns (more: seq<Action>)
    ensures Run(s, more) == Next(Run(s, acts), a) && more == acts + [a]
  {
    more := acts + [a];
    assert more[..|acts|] == acts;
  }

  /** One worker, one job on the lowest level. */
  function Lone(tokens: nat, sleepNt: int, x: Worker): State {
    State([[], [], [], [7]], tokens, sleepNt, 1, 0, false, 0, [x], [],
          [[], [], [], [7]], [[], [], [], []], multiset{}, if tokens == 0 then 1 else 0)
  }

  lemma LonePushed()
    ensures Next(Next(Init(1), Push(NUM_LEVELS - 1, 7)), Inc) == Lone(1, 0, Check)
  {
    assert Init(1).queues == [[], [], [], []] && Init(1).workers == [Check];
    var s := Next(Init(1), Push(NUM_LEVELS - 1, 7));
    assert [] + [7] == [7];
    assert [[], [], [], []][3 := [7]] == [[], [], [], [7]];
    assert s.queues == [[], [], [], [7]];
  }

  lemma LoneStep(tokens: nat, sleepNt: int, x: Worker)
    ensures x == Check ==> Next(Lone(tokens, sleepNt, x), Work(0)) == Lone(tokens, sleepNt, Incr)
    ensures x == Incr ==> Next(Lone(tokens, sleepNt, x), Work(0)) == Lone(tokens, sleepNt + 1, Dec)
    ensures x == Dec && tokens == 1 ==> Next(Lone(tokens, sleepNt, x), Work(0)) == Lone(0, sleepNt, Decr)
    ensures x == Decr ==> Next(Lone(tokens, sleepNt, x), Work(0)) == Lone(tokens, sleepNt - 1, In(LoadSleep))
    ensures x == In(LoadSleep) && sleepNt == 0 ==>
      Next(Lone(tokens, sleepNt, x), Work(0)) == Lone(tokens, sleepNt, In(LoadNt(false)))
    ensures x == In(LoadNt(false)) ==>
      Next(Lone(tokens, sleepNt, x), Work(0)) == Lone(tokens, sleepNt, In(Scan(0, 3)))
    ensures x == In(Fin) ==> Next(Lone(tokens, sleepNt, x), Work(0)) == Lone(tokens, sleepNt, Check)
    ensures x == In(Scan(3, 3)) ==> Next(Lone(tokens, sleepNt, x), Work(0)) == Lone(tokens, sleepNt, In(Fin))
    ensures forall k :: 0 <= k < 3 && x == In(Scan(k, 3)) ==>
      Next(Lone(tokens, sleepNt, x), Work(0)) == Lone(tokens, sleepNt, In(Scan(k + 1, 3)))
  {
    var s' := Next(Lone(tokens, sleepNt, x), Work(0));
    assert s'.workers == [s'.workers[0]];
  }

  lemma LoneRun(acts: seq<Action>, tokens: nat, sleepNt: int, x: Worker) returns (more: seq<Action>)
    requires Run(Init(1), acts) == Lone(tokens, sleepNt, x)
    ensures Run(Init(1), more) == Next(Lone(tokens, sleepNt, x), Work(0))
  {
    more := Do(acts, Work(0), Init(1));
  }

  /**
   A single worker sleeps while a job is left on the lowest level. It takes a push to that level, which no
   accepted priority reaches; so what follows is about pushes to the other levels.
   */
  lemma LowestStranded() returns (acts: seq<Action>)
    ensures Run(Init(1), acts) == Lone(0, 1, Dec)
  {
    LonePushed();
    acts := [];
    acts := Do(acts, Push(NUM_LEVELS - 1, 7), Init(1));
    acts := Do(acts, Inc, Init(1));
    acts := LoneWakes(acts);
    acts := LoneScans(acts);
  }

  lemma LoneWakes(before: seq<Action>) returns (acts: seq<Action>)
    requires Run(Init(1), before) == Lone(1, 0, Check)
    ensures Run(Init(1), acts) == Lone(0, 0, In(Scan(0, 3)))
  {
    LoneStep(1, 0, Check);
    acts := LoneRun(before, 1, 0, Check);
    LoneStep(1, 0, Incr);
    acts := LoneRun(acts, 1, 0, Incr);
    LoneStep(1, 1, Dec);
    acts := LoneRun(acts, 1, 1, Dec);
    LoneStep(0, 1, Decr);
    acts := LoneRun(acts, 0, 1, Decr);
    LoneStep(0, 0, In(LoadSleep));
    acts := LoneRun(acts, 0, 0, In(LoadSleep));
    LoneStep(0, 0, In(LoadNt(false)));
    acts := LoneRun(acts, 0, 0, In(LoadNt(false)));
  }

  lemma LoneScans(before: seq<Action>) returns (acts: seq<Action>)
    requires Run(Init(1), before) == Lone(0, 0, In(Scan(0, 3)))
    ensures Run(Init(1), acts) == Lone(0, 1, Dec)
  {
    LoneStep(0, 0, In(Scan(0, 3)));
    acts := LoneRun(before, 0, 0, In(Scan(0, 3)));
    LoneStep(0, 0, In(Scan(1, 3)));
    acts := LoneRun(acts, 0, 0, In(Scan(1, 3)));
    LoneStep(0, 0, In(Scan(2, 3)));
    acts := LoneRun(acts, 0, 0, In(Scan(2, 3)));
    LoneStep(0, 0, In(Scan(3, 3)));
    acts := LoneRun(acts, 0, 0, In(Scan(3, 3)));
    LoneStep(0, 0, In(Fin));
    acts := LoneRun(acts, 0, 0, In(Fin));
    LoneStep(0, 0, Check);
    acts := LoneRun(acts, 0, 0, Check);
    LoneStep(0, 0, Incr);
    acts := LoneRun(acts, 0, 0, Incr);
  }

  /** Nothing but a push puts a job on the lowest level; tasks are created with a higher priority. */
  lemma {:induction false} LowestOnlyByPush(n: nat, acts: seq<Action>)
    requires forall i :: 0 <= i < |acts| && acts[i].Push? ==> acts[i].level < NUM_LEVELS - 1
    ensures |Run(Init(n), acts).queues| == NUM_LEVELS && Run(Init(n), acts).queues[NUM_LEVELS - 1] == []
  {
    if acts != [] {
      LowestOnlyByPush(n, acts[..|acts| - 1]);
      assert acts[|acts| - 1].Push? ==> acts[|acts| - 1].level < NUM_LEVELS - 1;
      LowestStays(Run(Init(n), acts[..|acts| - 1]), acts[|acts| - 1]);
    }
  }

  lemma LowestStays(s: State, a: Action)
    requires |s.queues| == NUM_LEVELS && s.queues[NUM_LEVELS - 1] == []
    requires a.Push? ==> a.level < NUM_LEVELS - 1
    ensures |Next(s, a).queues| == NUM_LEVELS && Next(s, a).queues[NUM_LEVELS - 1] == []
  {
  }
}
