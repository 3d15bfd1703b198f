/**
 Every task between READY and COMPLETED has an activation that drives it on, in whatever number of queues it
 is; so when all calls have returned, no task is stuck half way.
 */
module TasksDriven {
  import opened Tasks
  import opened TasksOwn

  predicate OnTheWay(status: int) { status == READY || status == QUEUE || status == RUNNING || status == FINAL }

  /** The task's owner is the activation doing the work of its present status. */
  predicate Driven(s: State, t: nat)
    requires t < |s.tasks|
  {
    var task := s.tasks[t];
    OnTheWay(task.status) ==>
      task.owner < |s.acts| && !s.acts[task.owner].Done? && s.acts[task.owner].p == t
      && StageOf(s.acts[task.owner], false) == task.status
  }

  ghost predicate AllDriven(s: State) {
    forall t :: 0 <= t < |s.tasks| ==> Driven(s, t)
  }

  /** A step of an activation that is not the owner, and changes neither status nor owner. */
  lemma OtherDriver(s: State, s': State, t: nat)
    requires t < |s.tasks| == |s'.tasks| && Driven(s, t)
    requires s'.tasks[t].status == s.tasks[t].status && s'.tasks[t].owner == s.tasks[t].owner
    requires s.tasks[t].owner < |s.acts| ==>
      s.tasks[t].owner < |s'.acts| && s'.acts[s.tasks[t].owner] == s.acts[s.tasks[t].owner]
    ensures Driven(s', t)
  {
  }

  lemma UpdateDriven(s: State, k: nat, t: nat)
    requires k < |s.acts| && s.acts[k].Update? && FrameFits(s, k) && FrameShape(s, s.acts[k]) && FrameOwn(s, k)
    requires t < |s.tasks| && Driven(s, t)
    ensures |Step(s, k).tasks| == |s.tasks| && Driven(Step(s, k), t)
  {
    var s' := Step(s, k);
    var p, was, now := s.acts[k].p, s.acts[k].was, s.acts[k].now;
    if t != p && s.tasks[t].owner != k { OtherDriver(s, s', t); }
  }

  lemma NotifyStage(s: State, k: nat, p: nat, now: int, i: nat, at: Visit)
    requires FrameFits(s, k) && s.acts[k] == Notify(p, now, i, at) && OnTheWay(StageOf(s.acts[k], false))
    ensures var f := Step(s, k).acts[k]; !f.Done? && f.p == p && StageOf(f, false) == now
  {
    if i < |s.tasks[p].childs| { NotifyStays(s, k, p, now, i, at); }
  }

  lemma NotifyDriven(s: State, k: nat, t: nat)
    requires FrameFits(s, k) && s.acts[k].Notify? && FrameOwn(s, k) && t < |s.tasks| && Driven(s, t)
    ensures |Step(s, k).tasks| == |s.tasks| && Driven(Step(s, k), t)
  {
    NotifyTouches(s, k, t);
    StepFrames(s, k);
    if OnTheWay(s.tasks[t].status) && s.tasks[t].owner == k {
      NotifyStage(s, k, s.acts[k].p, s.acts[k].now, s.acts[k].i, s.acts[k].at);
    }
  }

  lemma CommitDriven(s: State, k: nat, t: nat)
    requires FrameFits(s, k) && s.acts[k].Commit? && t < |s.tasks| && Driven(s, t)
    ensures |Step(s, k).tasks| == |s.tasks| && Driven(Step(s, k), t)
  {
    CommitTouches(s, k, t);
    StepFrames(s, k);
  }

  lemma RestDriven(s: State, k: nat, t: nat)
    requires FrameFits(s, k) && FrameOwn(s, k) && t < |s.tasks| && Driven(s, t)
    requires !s.acts[k].Update? && !s.acts[k].Notify? && !s.acts[k].Commit?
    ensures |Step(s, k).tasks| == |s.tasks| && Driven(Step(s, k), t)
  {
  }

  lemma StepDriven(s: State, k: nat)
    requires Shape(s) && Own(s) && FrameFits(s, k) && AllDriven(s)
    ensures AllDriven(Step(s, k))
  {
    StepTaskCount(s, k);
    assert FrameShape(s, s.acts[k]) && FrameOwn(s, k);
    forall t | 0 <= t < |Step(s, k).tasks| ensures Driven(Step(s, k), t) {
      assert Driven(s, t);
      if s.acts[k].Update? { UpdateDriven(s, k, t); }
      else if s.acts[k].Notify? { NotifyDriven(s, k, t); }
      else if s.acts[k].Commit? { CommitDriven(s, k, t); }
      else { RestDriven(s, k, t); }
    }
  }

  lemma CallDriven(s: State, a: Action)
    requires AllDriven(s) && !a.Go?
    ensures AllDriven(Next(s, a))
  {
    var s' := Next(s, a);
    forall t | 0 <= t < |s'.tasks| ensures Driven(s', t) {
      if t < |s.tasks| { assert Driven(s, t); }
    }
  }

  lemma {:induction false} RunDriven(acts: seq<Action>)
    ensures AllDriven(Run(acts))
  {
    if acts != [] {
      var rest, a := acts[..|acts| - 1], acts[|acts| - 1];
      RunDriven(rest);
      RunOwn(rest);
      if !a.Go? {
        CallDriven(Run(rest), a);
      } else if FrameFits(Run(rest), a.k) {
        StepDriven(Run(rest), a.k);
      }
    }
  }

  /** Nothing but a job in a queue, or a handler that is running, is left of earlier calls. */
  predicate AtRest(f: Frame) { f.Done? || f.Job? || f.InHandler? }

  predicate Rest(acts: seq<Frame>) { forall k :: 0 <= k < |acts| ==> AtRest(acts[k]) }

  /**
   When all calls have returned, a task that has left DEPHOLD is in a queue, in its handler, or done with; a
   barrier is done.
   */
  lemma NobodyStuck(acts: seq<Action>, t: nat)
    requires Rest(Run(acts).acts) && t < |Run(acts).tasks| && Run(acts).tasks[t].status > DEPHOLD
    ensures var s := Run(acts); var task := s.tasks[t];
      || (task.status == QUEUE && task.owner < |s.acts| && s.acts[task.owner] == Job(t) && !task.barrier)
      || (task.status == RUNNING && task.owner < |s.acts| && s.acts[task.owner] == InHandler(t) && !task.barrier)
      || task.status in {COMPLETED, ABORTED, FAILED}
  {
    RunDriven(acts);
    RunOwn(acts);
    BarrierSkips(acts);
    var s := Run(acts);
    assert Driven(s, t) && TaskShape(s, t);
    if OnTheWay(s.tasks[t].status) { assert AtRest(s.acts[s.tasks[t].owner]); }
  }

  /** A barrier is never queued, run or failed. */
  ghost predicate Skips(s: State) {
    && (forall t :: 0 <= t < |s.tasks| && s.tasks[t].barrier ==> s.tasks[t].status !in {QUEUE, RUNNING, FAILED})
  }

  lemma StepSkips(s: State, k: nat)
    requires Shape(s) && Own(s) && Skips(s) && FrameFits(s, k)
    ensures Skips(Step(s, k))
  {
    StepTaskCount(s, k);
    assert FrameShape(s, s.acts[k]);
    forall t | 0 <= t < |Step(s, k).tasks| && Step(s, k).tasks[t].barrier
      ensures Step(s, k).tasks[t].status !in {QUEUE, RUNNING, FAILED}
    {
      StepStatus(s, k, t);
    }
  }

  lemma StepStatus(s: State, k: nat, t: nat)
    requires FrameFits(s, k) && t < |s.tasks| && FrameShape(s, s.acts[k])
    ensures |Step(s, k).tasks| == |s.tasks|
    ensures var task, task' := s.tasks[t], Step(s, k).tasks[t];
      && task'.barrier == task.barrier
      && (task'.status == task.status || Legal(task.status, task'.status, task.barrier))
  {
    if s.acts[k].Notify? { NotifyTouches(s, k, t); }
    else if s.acts[k].Commit? { CommitTouches(s, k, t); }
    else { OtherTouches(s, k, t); }
  }

  lemma {:induction false} BarrierSkips(acts: seq<Action>)
    ensures Skips(Run(acts))
  {
    if acts != [] {
      var rest, a := acts[..|acts| - 1], acts[|acts| - 1];
      var s := Run(rest);
      RunOwn(rest);
      BarrierSkips(rest);
      if !a.Go? {
        CallSkips(s, a);
      } else if FrameFits(s, a.k) {
        StepSkips(s, a.k);
      }
    }
  }

  lemma CallSkips(s: State, a: Action)
    requires Skips(s) && !a.Go?
    ensures Skips(Next(s, a))
  {
  }
}
