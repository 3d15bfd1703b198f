/**
 Who drives a task: statuses only rise along the legal transitions, at most one activation carries a
 task from READY on, and its place in the code agrees with the status.
 */
module TasksOwn {
  import opened Tasks

  predicate Legal(was: int, now: int, barrier: bool) {
    || (was == IDLE && now == DEPHOLD)
    || (was == DEPHOLD && now == READY)
    || (was == READY && now == QUEUE && !barrier)
    || (was == READY && now == FINAL && barrier)
    || (was == QUEUE && now == RUNNING)
    || (was == RUNNING && (now == FINAL || now == FAILED))
    || (was == FINAL && now == COMPLETED)
    || ((was == DEPHOLD || was == READY) && now == ABORTED)
  }

  predicate ValidStatus(st: int) {
    st == IDLE || st == DEPHOLD || st == ABORTED || Mainline(st)
  }

  // ---------------------------------------------------------------------------------------------
  // Shape
  // ---------------------------------------------------------------------------------------------

  ghost predicate TaskShape(s: State, t: nat)
    requires t < |s.tasks|
  {
    && ValidStatus(s.tasks[t].status)
    && (forall j :: 0 <= j < |s.tasks[t].deps| ==> s.tasks[t].deps[j].parent < |s.tasks|)
    && (forall q :: 0 <= q < |s.tasks[t].childs| ==>
          && RefFits(s, s.tasks[t].childs[q])
          && At(s, s.tasks[t].childs[q]).parent == t
          && s.tasks[s.tasks[t].childs[q].c].inited)
  }

  predicate FrameShape(s: State, f: Frame) {
    match f
    case Done => true
    case Update(p, was, now) => p < |s.tasks| && Legal(was, now, s.tasks[p].barrier)
    case Notify(p, now, i, at) =>
      && p < |s.tasks|
      && (now == DEPHOLD || now == ABORTED || Mainline(now))
      && (if at.Head? then i <= |s.tasks[p].childs| else i < |s.tasks[p].childs|)
      && (at.Dec? || at.Call? ==> now == COMPLETED)
      && (at.Cas? ==> at.cur < now)
    case Commit(p, i, stage) =>
      && p < |s.tasks|
      && (if stage.Rec? || stage.Swap? || stage.Drop? then i < |s.tasks[p].deps| else i <= |s.tasks[p].deps|)
      && (stage.Init? ==> i == 0)
    case _ => f.p < |s.tasks|
  }

  ghost predicate Shape(s: State) {
    && (forall t :: 0 <= t < |s.tasks| ==> TaskShape(s, t))
    && (forall k :: 0 <= k < |s.acts| ==> FrameShape(s, s.acts[k]))
  }

  // ---------------------------------------------------------------------------------------------
  // Ownership
  // ---------------------------------------------------------------------------------------------

  /** The status whose work the frame is doing as the driver of its task, or 0. */
  function StageOf(f: Frame, requeued: bool): int {
    match f
    case Update(_, was, now) =>
      if now == ABORTED || was == IDLE || was == DEPHOLD || (was == QUEUE && requeued) then 0 else was
    case Notify(_, now, _, _) => if !Mainline(now) || (now == QUEUE && requeued) then 0 else now
    case Enqueue(_) => if requeued then 0 else QUEUE
    case Job(_) => if requeued then 0 else QUEUE
    case Handler(_) => RUNNING
    case InHandler(_) => RUNNING
    case _ => 0
  }

  predicate Before(f: Frame) {
    (f.Notify? && f.now == DEPHOLD) || (f.Commit? && f.stage.Init?)
  }

  predicate FrameOwn(s: State, k: nat)
    requires k < |s.acts|
  {
    var f := s.acts[k];
    f.Done? || (f.p < |s.tasks| &&
      var t := s.tasks[f.p];
      var stage := StageOf(f, s.requeued);
      && (stage != 0 ==>
            t.owner == k && (t.status == stage || (t.status == ABORTED && (stage == READY || stage == QUEUE))))
      && (f.Commit? || Before(f) ==> t.committer == k)
      && (Before(f) ==> !t.inited && (t.status == DEPHOLD || t.status == ABORTED))
      && (f.Commit? && !f.stage.Init? ==> t.inited)
      && (f.Update? && f.was == DEPHOLD && f.now == READY ==> t.inited && t.counter <= 0)
      && (f.Handler? || (f.Notify? && f.now == RUNNING) ==> t.ran == 0)
      && (f.Notify? && f.now == ABORTED ==> t.status == ABORTED))
  }

  predicate TaskOwn(t: Task) {
    && (t.status == IDLE ==> !t.inited)
    && (Mainline(t.status) ==> t.inited && t.counter <= 0)
    && (t.status < RUNNING || t.status == ABORTED ==> t.ran == 0)
    && t.ran <= 1
  }

  ghost predicate Own(s: State) {
    && (forall t :: 0 <= t < |s.tasks| ==> TaskOwn(s.tasks[t]))
    && (forall k :: 0 <= k < |s.acts| ==> FrameOwn(s, k))
  }

  // ---------------------------------------------------------------------------------------------
  // Shape is kept
  // ---------------------------------------------------------------------------------------------

  predicate TaskGrows(t: Task, t': Task) {
    && t'.barrier == t.barrier
    && |t.deps| <= |t'.deps|
    && t.childs <= t'.childs
    && (t.inited ==> t'.inited)
    && forall j :: 0 <= j < |t.deps| ==> t'.deps[j].parent == t.deps[j].parent
  }

  /** Tasks only gain dependencies, children and status; nothing a frame points at goes away. */
  ghost predicate Grows(s: State, s': State) {
    && |s.tasks| <= |s'.tasks|
    && forall t :: 0 <= t < |s.tasks| ==> TaskGrows(s.tasks[t], s'.tasks[t])
  }

  lemma FrameShapeGrows(s: State, s': State, f: Frame)
    requires Grows(s, s') && FrameShape(s, f)
    ensures FrameShape(s', f)
  {
    if !f.Done? { assert TaskGrows(s.tasks[f.p], s'.tasks[f.p]); }
  }

  lemma ShapeFits(s: State, k: nat)
    requires Shape(s) && k < |s.acts|
    ensures Fits(s, s.acts[k])
  {
    if !s.acts[k].Done? { assert TaskShape(s, s.acts[k].p); }
  }

  lemma WireGrows(s: State, k: nat, p: nat, i: nat)
    requires k < |s.acts| && Fits(s, Commit(p, i, Wire))
    ensures Grows(s, CommitStep(s, k, p, i, Wire))
  {
  }

  lemma StepGrows(s: State, k: nat)
    requires FrameFits(s, k)
    ensures Grows(s, Step(s, k))
  {
    match s.acts[k]
    case Update(p, was, now) =>
    case Notify(p, now, i, at) => NotifyGrows(s, k, p, now, i, at);
    case Commit(p, i, stage) =>
      if stage.Wire? { WireGrows(s, k, p, i); } else { CommitGrows(s, k, p, i, stage); }
    case _ =>
  }

  lemma NotifyGrows(s: State, k: nat, p: nat, now: int, i: nat, at: Visit)
    requires k < |s.acts| && Fits(s, Notify(p, now, i, at))
    ensures Grows(s, NotifyStep(s, k, p, now, i, at))
  {
    if i < |s.tasks[p].childs| && at.Cas? {
      CasGrows(s, k, p, now, i, at);
    } else if i < |s.tasks[p].childs| && at.Dec? {
      DecGrows(s, k, p, now, i);
    } else {
      assert NotifyStep(s, k, p, now, i, at).tasks == s.tasks;
    }
  }

  lemma CasGrows(s: State, k: nat, p: nat, now: int, i: nat, at: Visit)
    requires k < |s.acts| && Fits(s, Notify(p, now, i, at)) && at.Cas? && i < |s.tasks[p].childs|
    ensures Grows(s, NotifyStep(s, k, p, now, i, at))
  {
    var r := s.tasks[p].childs[i];
    SetTaskGrows(s, r.c, NotifyStep(s, k, p, now, i, at).tasks[r.c]);
  }

  lemma DecGrows(s: State, k: nat, p: nat, now: int, i: nat)
    requires k < |s.acts| && Fits(s, Notify(p, now, i, Dec)) && i < |s.tasks[p].childs|
    ensures Grows(s, NotifyStep(s, k, p, now, i, Dec))
  {
    var r := s.tasks[p].childs[i];
    SetTaskGrows(s, r.c, Decrement(s, r, false, |s.acts|).tasks[r.c]);
  }

  lemma SetTaskGrows(s: State, p: nat, t: Task)
    requires p < |s.tasks| && TaskGrows(s.tasks[p], t)
    ensures Grows(s, SetTask(s, p, t))
  {
  }

  lemma CommitGrows(s: State, k: nat, p: nat, i: nat, stage: Stage)
    requires k < |s.acts| && Fits(s, Commit(p, i, stage)) && !stage.Wire?
    ensures Grows(s, CommitStep(s, k, p, i, stage))
  {
    if stage.Init? { InitGrows(s, k, p, i); }
    else if stage.Swap? { SwapGrows(s, k, p, i, stage); }
    else if stage.Drop? { DropGrows(s, k, p, i); }
    else { assert CommitStep(s, k, p, i, stage).tasks == s.tasks; }
  }

  lemma InitGrows(s: State, k: nat, p: nat, i: nat)
    requires k < |s.acts| && Fits(s, Commit(p, i, Init))
    ensures Grows(s, CommitStep(s, k, p, i, Init))
  {
  }

  lemma SwapGrows(s: State, k: nat, p: nat, i: nat, stage: Stage)
    requires k < |s.acts| && Fits(s, Commit(p, i, stage)) && stage.Swap?
    ensures Grows(s, CommitStep(s, k, p, i, stage))
  {
  }

  lemma DropGrows(s: State, k: nat, p: nat, i: nat)
    requires k < |s.acts| && Fits(s, Commit(p, i, Drop))
    ensures Grows(s, CommitStep(s, k, p, i, Drop))
  {
    SetTaskGrows(s, p, Decrement(s, Ref(p, i), true, k).tasks[p]);
  }

  /** The frames of a step: the stepping activation gets a new one, and at most one is added. */
  lemma StepFrames(s: State, k: nat)
    requires FrameFits(s, k)
    ensures var s' := Step(s, k);
      && |s.acts| <= |s'.acts| <= |s.acts| + 1
      && s'.requeued == s.requeued
      && (forall u :: 0 <= u < |s.acts| && u != k ==> s'.acts[u] == s.acts[u])
  {
    if s.acts[k].Notify? {
      NotifyFrames(s, k, s.acts[k].p, s.acts[k].now, s.acts[k].i, s.acts[k].at);
    } else if s.acts[k].Commit? {
      CommitFrames(s, k, s.acts[k].p, s.acts[k].i, s.acts[k].stage);
    }
  }

  lemma NotifyFrames(s: State, k: nat, p: nat, now: int, i: nat, at: Visit)
    requires k < |s.acts| && Fits(s, Notify(p, now, i, at))
    ensures var s' := NotifyStep(s, k, p, now, i, at);
      && |s.acts| <= |s'.acts| <= |s.acts| + 1 && s'.requeued == s.requeued
      && (forall u :: 0 <= u < |s.acts| && u != k ==> s'.acts[u] == s.acts[u])
  {
  }

  lemma CommitFrames(s: State, k: nat, p: nat, i: nat, stage: Stage)
    requires k < |s.acts| && Fits(s, Commit(p, i, stage))
    ensures var s' := CommitStep(s, k, p, i, stage);
      && |s'.acts| == |s.acts| && s'.requeued == s.requeued
      && (forall u :: 0 <= u < |s.acts| && u != k ==> s'.acts[u] == s.acts[u])
  {
  }

  // ---------------------------------------------------------------------------------------------
  // The new frames and tasks of a step have the right shape
  // ---------------------------------------------------------------------------------------------

  lemma StepTaskShape(s: State, k: nat, t: nat)
    requires Shape(s) && Own(s) && FrameFits(s, k) && t < |s.tasks|
    ensures |Step(s, k).tasks| == |s.tasks| && TaskShape(Step(s, k), t)
  {
    var s' := Step(s, k);
    assert TaskShape(s, t);
    assert FrameShape(s, s.acts[k]) && FrameOwn(s, k);
    StepGrows(s, k);
    if s.acts[k].Commit? && s.acts[k].stage.Wire? {
      WireTaskShape(s, k, t);
    } else {
      SameChilds(s, k, t);
      forall q | 0 <= q < |s'.tasks[t].childs|
        ensures RefFits(s', s'.tasks[t].childs[q])
        ensures At(s', s'.tasks[t].childs[q]).parent == t && s'.tasks[s'.tasks[t].childs[q].c].inited
      {
        assert TaskGrows(s.tasks[s.tasks[t].childs[q].c], s'.tasks[s.tasks[t].childs[q].c]);
      }
    }
  }

  lemma SameChilds(s: State, k: nat, t: nat)
    requires FrameFits(s, k) && t < |s.tasks| && !(s.acts[k].Commit? && s.acts[k].stage.Wire?)
    requires FrameShape(s, s.acts[k]) && TaskShape(s, t)
    ensures var s' := Step(s, k);
      && |s'.tasks| == |s.tasks| && s'.tasks[t].childs == s.tasks[t].childs && |s'.tasks[t].deps| == |s.tasks[t].deps|
      && ValidStatus(s'.tasks[t].status)
  {
    if s.acts[k].Notify? { NotifyTouches(s, k, t); }
    else if s.acts[k].Commit? { CommitTouches(s, k, t); }
    else { OtherTouches(s, k, t); }
  }

  /** A notification step changes neither status nor lists. */
  lemma NotifyTouches(s: State, k: nat, t: nat)
    requires FrameFits(s, k) && s.acts[k].Notify? && t < |s.tasks|
    ensures var s' := Step(s, k);
      && |s'.tasks| == |s.tasks| && s'.tasks[t].childs == s.tasks[t].childs && |s'.tasks[t].deps| == |s.tasks[t].deps|
      && s'.tasks[t].status == s.tasks[t].status && s'.tasks[t].barrier == s.tasks[t].barrier
      && s'.tasks[t].owner == s.tasks[t].owner
  {
  }

  lemma CommitTouches(s: State, k: nat, t: nat)
    requires FrameFits(s, k) && s.acts[k].Commit? && t < |s.tasks|
    ensures var s' := Step(s, k);
      && |s'.tasks| == |s.tasks| && |s'.tasks[t].deps| == |s.tasks[t].deps|
      && (!s.acts[k].stage.Wire? ==> s'.tasks[t].childs == s.tasks[t].childs)
      && s'.tasks[t].status == s.tasks[t].status && s'.tasks[t].barrier == s.tasks[t].barrier
      && s'.tasks[t].owner == s.tasks[t].owner
  {
    var p, i, stage := s.acts[k].p, s.acts[k].i, s.acts[k].stage;
    if stage.Wire? { WireTouches(s, k, p, i, t); } else { PlainTouches(s, k, p, i, stage, t); }
  }

  lemma WireTouches(s: State, k: nat, p: nat, i: nat, t: nat)
    requires k < |s.acts| && Fits(s, Commit(p, i, Wire)) && t < |s.tasks|
    ensures var s' := CommitStep(s, k, p, i, Wire);
      && |s'.tasks| == |s.tasks| && |s'.tasks[t].deps| == |s.tasks[t].deps|
      && s'.tasks[t].status == s.tasks[t].status && s'.tasks[t].barrier == s.tasks[t].barrier
      && s'.tasks[t].owner == s.tasks[t].owner
  {
  }

  lemma PlainTouches(s: State, k: nat, p: nat, i: nat, stage: Stage, t: nat)
    requires k < |s.acts| && Fits(s, Commit(p, i, stage)) && !stage.Wire? && t < |s.tasks|
    ensures var s' := CommitStep(s, k, p, i, stage);
      && |s'.tasks| == |s.tasks| && |s'.tasks[t].deps| == |s.tasks[t].deps| && s'.tasks[t].childs == s.tasks[t].childs
      && s'.tasks[t].status == s.tasks[t].status && s'.tasks[t].barrier == s.tasks[t].barrier
      && s'.tasks[t].owner == s.tasks[t].owner
  {
  }

  lemma OtherTouches(s: State, k: nat, t: nat)
    requires FrameFits(s, k) && !s.acts[k].Notify? && !s.acts[k].Commit? && t < |s.tasks|
    ensures var s' := Step(s, k);
      && |s'.tasks| == |s.tasks| && s'.tasks[t].childs == s.tasks[t].childs && s'.tasks[t].deps == s.tasks[t].deps
      && s'.tasks[t].barrier == s.tasks[t].barrier
      && (s'.tasks[t].status == s.tasks[t].status
          || (s.acts[k].Update? && s.acts[k].p == t && s'.tasks[t].status == s.acts[k].now
            && s.tasks[t].status == s.acts[k].was))
  {
  }

  lemma WireChilds(s: State, k: nat, p: nat, i: nat, t: nat)
    requires k < |s.acts| && Fits(s, Commit(p, i, Wire)) && t < |s.tasks|
    ensures var s' := CommitStep(s, k, p, i, Wire);
      && |s'.tasks| == |s.tasks|
      && s'.tasks[t].childs
         == s.tasks[t].childs + if i < |s.tasks[p].deps| && t == s.tasks[p].deps[i].parent then [Ref(p, i)] else []
  {
  }

  lemma WireTaskShape(s: State, k: nat, t: nat)
    requires Shape(s) && FrameFits(s, k) && t < |s.tasks| && s.acts[k].Commit? && s.acts[k].stage.Wire?
    requires FrameOwn(s, k)
    ensures |Step(s, k).tasks| == |s.tasks| && TaskShape(Step(s, k), t)
  {
    var s' := Step(s, k);
    assert TaskShape(s, t);
    WireGrows(s, k, s.acts[k].p, s.acts[k].i);
    WireTouches(s, k, s.acts[k].p, s.acts[k].i, t);
    WireChilds(s, k, s.acts[k].p, s.acts[k].i, t);
    forall q | 0 <= q < |s'.tasks[t].childs|
      ensures RefFits(s', s'.tasks[t].childs[q])
      ensures At(s', s'.tasks[t].childs[q]).parent == t && s'.tasks[s'.tasks[t].childs[q].c].inited
    {
      if q < |s.tasks[t].childs| {
        assert TaskGrows(s.tasks[s.tasks[t].childs[q].c], s'.tasks[s.tasks[t].childs[q].c]);
      }
    }
  }

  lemma StepFrameShape(s: State, k: nat)
    requires Shape(s) && FrameFits(s, k)
    ensures var s' := Step(s, k);
      && |s.acts| <= |s'.acts| && FrameShape(s', s'.acts[k])
      && (|s'.acts| > |s.acts| ==> FrameShape(s', s'.acts[|s.acts|]))
  {
    assert FrameShape(s, s.acts[k]);
    if !s.acts[k].Done? { assert TaskShape(s, s.acts[k].p); }
    var f := s.acts[k];
    if f.Update? { UpdateFrameShape(s, k, f.p, f.was, f.now); }
    else if f.Notify? { NotifyFrameShape(s, k, f.p, f.now, f.i, f.at); }
    else if f.Commit? { CommitShapes(s, k, f.p, f.i, f.stage); }
    else { PlainFrameShape(s, k); }
  }

  lemma CommitShapes(s: State, k: nat, p: nat, i: nat, stage: Stage)
    requires FrameFits(s, k) && s.acts[k] == Commit(p, i, stage) && FrameShape(s, s.acts[k])
    ensures var s' := Step(s, k);
      && |s.acts| <= |s'.acts| && FrameShape(s', s'.acts[k])
      && (|s'.acts| > |s.acts| ==> FrameShape(s', s'.acts[|s.acts|]))
  {
    CommitFrameShape(s, k, p, i, stage);
    CommitFrames(s, k, p, i, stage);
  }

  lemma UpdateFrameShape(s: State, k: nat, p: nat, was: int, now: int)
    requires FrameFits(s, k) && s.acts[k] == Update(p, was, now) && FrameShape(s, s.acts[k])
    ensures var s' := Step(s, k);
      && |s.acts| <= |s'.acts| && FrameShape(s', s'.acts[k])
      && (|s'.acts| > |s.acts| ==> FrameShape(s', s'.acts[|s.acts|]))
  {
  }

  lemma PlainFrameShape(s: State, k: nat)
    requires FrameFits(s, k) && FrameShape(s, s.acts[k])
    requires !s.acts[k].Update? && !s.acts[k].Notify? && !s.acts[k].Commit?
    ensures var s' := Step(s, k);
      && |s.acts| <= |s'.acts| && FrameShape(s', s'.acts[k])
      && (|s'.acts| > |s.acts| ==> FrameShape(s', s'.acts[|s.acts|]))
  {
  }

  lemma NotifyFrameShape(s: State, k: nat, p: nat, now: int, i: nat, at: Visit)
    requires FrameFits(s, k) && s.acts[k] == Notify(p, now, i, at) && FrameShape(s, s.acts[k])
    ensures var s' := Step(s, k);
      && |s.acts| <= |s'.acts| && FrameShape(s', s'.acts[k])
      && (|s'.acts| > |s.acts| ==> FrameShape(s', s'.acts[|s.acts|]))
  {
    NotifyFrames(s, k, p, now, i, at);
    NotifyOnShape(s, k, p, now, i, at);
    NotifyAddsShape(s, k, p, now, i, at);
  }

  lemma NotifyOnShape(s: State, k: nat, p: nat, now: int, i: nat, at: Visit)
    requires k < |s.acts| && s.acts[k] == Notify(p, now, i, at) && Fits(s, s.acts[k]) && FrameShape(s, s.acts[k])
    ensures var s' := NotifyStep(s, k, p, now, i, at); k < |s'.acts| && FrameShape(s', s'.acts[k])
  {
    NotifyTouches(s, k, p);
    if i >= |s.tasks[p].childs| { EndShape(s, k, p, now, i, at); } else { StayShape(s, k, p, now, i, at); }
  }

  lemma EndShape(s: State, k: nat, p: nat, now: int, i: nat, at: Visit)
    requires k < |s.acts| && s.acts[k] == Notify(p, now, i, at) && Fits(s, s.acts[k]) && FrameShape(s, s.acts[k])
    requires i >= |s.tasks[p].childs|
    ensures var s' := NotifyStep(s, k, p, now, i, at); k < |s'.acts| && FrameShape(s', s'.acts[k])
  {
  }

  lemma StayShape(s: State, k: nat, p: nat, now: int, i: nat, at: Visit)
    requires k < |s.acts| && s.acts[k] == Notify(p, now, i, at) && Fits(s, s.acts[k]) && FrameShape(s, s.acts[k])
    requires i < |s.tasks[p].childs|
    requires var s' := NotifyStep(s, k, p, now, i, at);
      p < |s'.tasks| && s'.tasks[p].childs == s.tasks[p].childs
    ensures var s' := NotifyStep(s, k, p, now, i, at); k < |s'.acts| && FrameShape(s', s'.acts[k])
  {
  }

  lemma NotifyAddsShape(s: State, k: nat, p: nat, now: int, i: nat, at: Visit)
    requires k < |s.acts| && s.acts[k] == Notify(p, now, i, at) && Fits(s, s.acts[k]) && FrameShape(s, s.acts[k])
    ensures var s' := NotifyStep(s, k, p, now, i, at);
      |s'.acts| > |s.acts| ==> FrameShape(s', s'.acts[|s.acts|])
  {
  }

  lemma CommitFrameShape(s: State, k: nat, p: nat, i: nat, stage: Stage)
    requires k < |s.acts| && Fits(s, Commit(p, i, stage)) && FrameShape(s, Commit(p, i, stage))
    ensures var s' := CommitStep(s, k, p, i, stage); k < |s'.acts| && FrameShape(s', s'.acts[k])
  {
  }

  lemma StepKeepsShape(s: State, k: nat)
    requires Shape(s) && Own(s) && FrameFits(s, k)
    ensures Shape(Step(s, k))
  {
    var s' := Step(s, k);
    StepTaskCount(s, k);
    forall t | 0 <= t < |s'.tasks| ensures TaskShape(s', t) {
      StepTaskShape(s, k, t);
    }
    StepFrames(s, k);
    StepGrows(s, k);
    StepFrameShape(s, k);
    FramesKeepShape(s, s', k);
  }

  /** If the frames a step writes have the right shape, all have. */
  lemma FramesKeepShape(s: State, s': State, k: nat)
    requires Shape(s) && Grows(s, s') && k < |s.acts| <= |s'.acts| <= |s.acts| + 1
    requires forall u :: 0 <= u < |s.acts| && u != k ==> s'.acts[u] == s.acts[u]
    requires FrameShape(s', s'.acts[k]) && (|s'.acts| > |s.acts| ==> FrameShape(s', s'.acts[|s.acts|]))
    ensures forall u :: 0 <= u < |s'.acts| ==> FrameShape(s', s'.acts[u])
  {
    forall u | 0 <= u < |s'.acts| ensures FrameShape(s', s'.acts[u]) {
      if u != k && u < |s.acts| { FrameShapeGrows(s, s', s.acts[u]); }
    }
  }

  lemma StepTaskCount(s: State, k: nat)
    requires FrameFits(s, k)
    ensures |Step(s, k).tasks| == |s.tasks|
  {
  }

  // ---------------------------------------------------------------------------------------------
  // Ownership is kept
  // ---------------------------------------------------------------------------------------------

  /** Nothing the ownership invariant looks at has changed, except that the counter may have dropped. */
  predicate SameOwn(t: Task, t': Task) {
    && t'.status == t.status && t'.owner == t.owner && t'.committer == t.committer
    && t'.inited == t.inited && t'.ran == t.ran && t'.counter <= t.counter
  }

  ghost predicate SameOwners(s: State, s': State) {
    |s'.tasks| == |s.tasks| && forall t :: 0 <= t < |s.tasks| ==> SameOwn(s.tasks[t], s'.tasks[t])
  }

  lemma FrameOwnStays(s: State, s': State, u: nat)
    requires SameOwners(s, s') && s'.requeued == s.requeued
    requires u < |s.acts| && u < |s'.acts| && s'.acts[u] == s.acts[u] && FrameOwn(s, u)
    ensures FrameOwn(s', u)
  {
    if !s.acts[u].Done? { assert SameOwn(s.tasks[s.acts[u].p], s'.tasks[s.acts[u].p]); }
  }

  /** What is left to show once the tasks only changed in ways ownership does not see. */
  lemma QuietKeepsOwn(s: State, k: nat, s': State)
    requires Own(s) && k < |s.acts| && SameOwners(s, s') && s'.requeued == s.requeued
    requires |s.acts| <= |s'.acts| <= |s.acts| + 1 && FrameOwn(s', k)
    requires forall u :: 0 <= u < |s.acts| && u != k ==> s'.acts[u] == s.acts[u]
    requires |s'.acts| > |s.acts| ==> FrameOwn(s', |s.acts|)
    ensures Own(s')
  {
    forall t | 0 <= t < |s'.tasks| ensures TaskOwn(s'.tasks[t]) {
      assert TaskOwn(s.tasks[t]) && SameOwn(s.tasks[t], s'.tasks[t]);
    }
    forall u | 0 <= u < |s'.acts| ensures FrameOwn(s', u) {
      if u < |s.acts| && u != k { FrameOwnStays(s, s', u); }
    }
  }

  lemma NotifyKeepsOwn(s: State, k: nat, p: nat, now: int, i: nat, at: Visit)
    requires Shape(s) && Own(s) && k < |s.acts| && s.acts[k] == Notify(p, now, i, at) && Fits(s, s.acts[k])
    ensures Own(Step(s, k))
  {
    assert FrameOwn(s, k) && FrameShape(s, s.acts[k]) && TaskShape(s, p) && TaskOwn(s.tasks[p]);
    NotifySameOwn(s, k, p, now, i, at);
    StepFrames(s, k);
    NotifyNewFrames(s, k, p, now, i, at);
    QuietKeepsOwn(s, k, Step(s, k));
  }

  lemma NotifySameOwn(s: State, k: nat, p: nat, now: int, i: nat, at: Visit)
    requires k < |s.acts| && Fits(s, Notify(p, now, i, at))
    ensures SameOwners(s, NotifyStep(s, k, p, now, i, at))
  {
  }

  lemma NotifyNewFrames(s: State, k: nat, p: nat, now: int, i: nat, at: Visit)
    requires k < |s.acts| && s.acts[k] == Notify(p, now, i, at) && Fits(s, s.acts[k])
    requires FrameOwn(s, k) && FrameShape(s, s.acts[k]) && TaskShape(s, p) && TaskOwn(s.tasks[p])
    requires SameOwners(s, NotifyStep(s, k, p, now, i, at))
    ensures var s' := NotifyStep(s, k, p, now, i, at);
      FrameOwn(s', k) && (|s'.acts| > |s.acts| ==> FrameOwn(s', |s.acts|))
  {
    NotifyOnOwn(s, k, p, now, i, at);
    NotifyAddsOwn(s, k, p, now, i, at);
  }

  lemma NotifyOnOwn(s: State, k: nat, p: nat, now: int, i: nat, at: Visit)
    requires k < |s.acts| && s.acts[k] == Notify(p, now, i, at) && Fits(s, s.acts[k])
    requires FrameOwn(s, k) && FrameShape(s, s.acts[k]) && TaskOwn(s.tasks[p])
    requires SameOwners(s, NotifyStep(s, k, p, now, i, at))
    ensures var s' := NotifyStep(s, k, p, now, i, at); k < |s'.acts| && FrameOwn(s', k)
  {
    var s' := NotifyStep(s, k, p, now, i, at);
    assert SameOwn(s.tasks[p], s'.tasks[p]);
    if i < |s.tasks[p].childs| {
      NotifyStays(s, k, p, now, i, at);
      PassOwn(s, s', k);
    } else {
      AfterPassOwn(s, k, p, now, i, at);
    }
  }

  /** Until the end of the list a pass stays a pass of the same status. */
  lemma NotifyStays(s: State, k: nat, p: nat, now: int, i: nat, at: Visit)
    requires k < |s.acts| && s.acts[k] == Notify(p, now, i, at) && Fits(s, s.acts[k]) && i < |s.tasks[p].childs|
    ensures var s' := NotifyStep(s, k, p, now, i, at);
      && k < |s'.acts| && s'.acts[k].Notify? && s'.acts[k].p == p && s'.acts[k].now == now
      && s'.requeued == s.requeued
  {
  }

  lemma PassOwn(s: State, s': State, k: nat)
    requires k < |s.acts| && k < |s'.acts| && s'.requeued == s.requeued && FrameOwn(s, k)
    requires s.acts[k].Notify? && s'.acts[k].Notify? && s'.acts[k].p == s.acts[k].p && s'.acts[k].now == s.acts[k].now
    requires s.acts[k].p < |s'.tasks| && SameOwn(s.tasks[s.acts[k].p], s'.tasks[s.acts[k].p])
    ensures FrameOwn(s', k)
  {
  }

  lemma AfterPassOwn(s: State, k: nat, p: nat, now: int, i: nat, at: Visit)
    requires k < |s.acts| && s.acts[k] == Notify(p, now, i, at) && Fits(s, s.acts[k]) && i >= |s.tasks[p].childs|
    requires FrameOwn(s, k) && TaskOwn(s.tasks[p])
    ensures var s' := NotifyStep(s, k, p, now, i, at); k < |s'.acts| && FrameOwn(s', k)
  {
  }

  lemma NotifyAddsOwn(s: State, k: nat, p: nat, now: int, i: nat, at: Visit)
    requires k < |s.acts| && s.acts[k] == Notify(p, now, i, at) && Fits(s, s.acts[k]) && TaskShape(s, p)
    requires SameOwners(s, NotifyStep(s, k, p, now, i, at))
    ensures var s' := NotifyStep(s, k, p, now, i, at); |s'.acts| > |s.acts| ==> FrameOwn(s', |s.acts|)
  {
  }

  lemma CommitKeepsOwn(s: State, k: nat, p: nat, i: nat, stage: Stage)
    requires Shape(s) && Own(s) && k < |s.acts| && s.acts[k] == Commit(p, i, stage) && Fits(s, s.acts[k])
    requires !stage.Init?
    ensures Own(Step(s, k))
  {
    assert FrameOwn(s, k) && FrameShape(s, s.acts[k]);
    CommitSameOwn(s, k, p, i, stage);
    StepFrames(s, k);
    CommitNewFrames(s, k, p, i, stage);
    QuietKeepsOwn(s, k, Step(s, k));
  }

  lemma CommitSameOwn(s: State, k: nat, p: nat, i: nat, stage: Stage)
    requires k < |s.acts| && Fits(s, Commit(p, i, stage)) && !stage.Init?
    ensures SameOwners(s, CommitStep(s, k, p, i, stage))
  {
  }

  lemma CommitNewFrames(s: State, k: nat, p: nat, i: nat, stage: Stage)
    requires k < |s.acts| && s.acts[k] == Commit(p, i, stage) && Fits(s, s.acts[k]) && !stage.Init? && FrameOwn(s, k)
    requires SameOwners(s, CommitStep(s, k, p, i, stage))
    ensures var s' := CommitStep(s, k, p, i, stage); |s'.acts| == |s.acts| && FrameOwn(s', k)
  {
    var s' := CommitStep(s, k, p, i, stage);
    assert SameOwn(s.tasks[p], s'.tasks[p]);
  }

  /** Ownership after a step that changes one task in ways the invariant does see. */
  lemma LoudKeepsOwn(s: State, k: nat, s': State, p: nat)
    requires Own(s) && k < |s.acts| && p < |s.tasks| && |s'.tasks| == |s.tasks| && s'.requeued == s.requeued
    requires |s.acts| <= |s'.acts| <= |s.acts| + 1 && FrameOwn(s', k)
    requires forall t :: 0 <= t < |s.tasks| && t != p ==> s'.tasks[t] == s.tasks[t]
    requires TaskOwn(s'.tasks[p])
    requires forall u :: 0 <= u < |s.acts| && u != k ==> s'.acts[u] == s.acts[u]
    requires forall u :: 0 <= u < |s.acts| && u != k && !s.acts[u].Done? && s.acts[u].p == p ==> FrameOwn(s', u)
    requires |s'.acts| > |s.acts| ==> FrameOwn(s', |s.acts|)
    ensures Own(s')
  {
    forall u | 0 <= u < |s'.acts| ensures FrameOwn(s', u) {
      if u < |s.acts| && u != k && (s.acts[u].Done? || s.acts[u].p != p) { assert FrameOwn(s, u); }
    }
  }

  lemma InitKeepsOwn(s: State, k: nat, p: nat)
    requires Shape(s) && Own(s) && k < |s.acts| && s.acts[k] == Commit(p, 0, Init) && Fits(s, s.acts[k])
    ensures Own(Step(s, k))
  {
    var s' := Step(s, k);
    assert FrameOwn(s, k) && TaskOwn(s.tasks[p]);
    StepFrames(s, k);
    forall u | 0 <= u < |s.acts| && u != k && !s.acts[u].Done? && s.acts[u].p == p ensures FrameOwn(s', u) {
      assert FrameOwn(s, u);
    }
    LoudKeepsOwn(s, k, s', p);
  }

  lemma EnqueueKeepsOwn(s: State, k: nat, p: nat)
    requires Shape(s) && Own(s) && k < |s.acts| && s.acts[k] == Enqueue(p) && Fits(s, s.acts[k])
    ensures Own(Step(s, k))
  {
    var s' := Step(s, k);
    assert FrameOwn(s, k) && TaskOwn(s.tasks[p]);
    StepFrames(s, k);
    forall u | 0 <= u < |s.acts| && u != k && !s.acts[u].Done? && s.acts[u].p == p ensures FrameOwn(s', u) {
      assert FrameOwn(s, u);
    }
    LoudKeepsOwn(s, k, s', p);
  }

  lemma HandlerKeepsOwn(s: State, k: nat, p: nat)
    requires Shape(s) && Own(s) && k < |s.acts| && s.acts[k] == Handler(p) && Fits(s, s.acts[k])
    ensures Own(Step(s, k))
  {
    var s' := Step(s, k);
    assert FrameOwn(s, k) && TaskOwn(s.tasks[p]);
    StepFrames(s, k);
    forall u | 0 <= u < |s.acts| && u != k && !s.acts[u].Done? && s.acts[u].p == p ensures FrameOwn(s', u) {
      assert FrameOwn(s, u);
    }
    LoudKeepsOwn(s, k, s', p);
  }

  lemma UpdateKeepsOwn(s: State, k: nat, p: nat, was: int, now: int)
    requires Shape(s) && Own(s) && k < |s.acts| && s.acts[k] == Update(p, was, now) && Fits(s, s.acts[k])
    ensures Own(Step(s, k))
  {
    var s' := Step(s, k);
    assert FrameOwn(s, k) && FrameShape(s, s.acts[k]) && TaskOwn(s.tasks[p]);
    UpdateOwn(s, k, p, was, now);
    UpdateRest(s, k, p, was, now);
    forall u | 0 <= u < |s.acts| && u != k && !s.acts[u].Done? && s.acts[u].p == p ensures FrameOwn(s', u) {
      assert FrameOwn(s, u);
      OtherUpdate(s, k, p, was, now, u);
    }
    LoudKeepsOwn(s, k, s', p);
  }

  lemma UpdateOwn(s: State, k: nat, p: nat, was: int, now: int)
    requires k < |s.acts| && s.acts[k] == Update(p, was, now) && FrameShape(s, s.acts[k]) && FrameOwn(s, k)
    requires TaskOwn(s.tasks[p])
    ensures var s' := UpdateStep(s, k, p, was, now);
      k < |s'.acts| && |s'.tasks| == |s.tasks| && FrameOwn(s', k) && TaskOwn(s'.tasks[p])
  {
  }

  lemma UpdateRest(s: State, k: nat, p: nat, was: int, now: int)
    requires k < |s.acts| && p < |s.tasks|
    ensures var s' := UpdateStep(s, k, p, was, now);
      && |s'.acts| == |s.acts| && |s'.tasks| == |s.tasks| && s'.requeued == s.requeued
      && (forall u :: 0 <= u < |s.acts| && u != k ==> s'.acts[u] == s.acts[u])
      && (forall t :: 0 <= t < |s.tasks| && t != p ==> s'.tasks[t] == s.tasks[t])
  {
  }

  lemma OtherUpdate(s: State, k: nat, p: nat, was: int, now: int, u: nat)
    requires k < |s.acts| && s.acts[k] == Update(p, was, now) && FrameShape(s, s.acts[k])
    requires u < |s.acts| && u != k && !s.acts[u].Done? && s.acts[u].p == p && FrameOwn(s, u) && FrameOwn(s, k)
    requires TaskOwn(s.tasks[p])
    ensures u < |UpdateStep(s, k, p, was, now).acts| && FrameOwn(UpdateStep(s, k, p, was, now), u)
  {
    var s' := UpdateStep(s, k, p, was, now);
    if s.tasks[p].status != was {
      FrameOwnStays(s, s', u);
    } else {
      Overtaken(s, s', k, p, was, now, u);
    }
  }

  /** An activation of a task whose status another one has just moved on. */
  lemma Overtaken(s: State, s': State, k: nat, p: nat, was: int, now: int, u: nat)
    requires k < |s.acts| && s.acts[k] == Update(p, was, now) && p < |s.tasks| && Legal(was, now, s.tasks[p].barrier)
    requires u < |s.acts| && u != k && !s.acts[u].Done? && s.acts[u].p == p && FrameOwn(s, u) && FrameOwn(s, k)
    requires TaskOwn(s.tasks[p]) && s.tasks[p].status == was
    requires |s'.acts| == |s.acts| && s'.acts[u] == s.acts[u] && s'.requeued == s.requeued && |s'.tasks| == |s.tasks|
    requires s'.tasks[p] == s.tasks[p].(status := now,
      owner := if Mainline(now) then k else s.tasks[p].owner,
      committer := if now == DEPHOLD then k else s.tasks[p].committer)
    ensures FrameOwn(s', u)
  {
  }

  lemma StepKeepsOwn(s: State, k: nat)
    requires Shape(s) && Own(s) && FrameFits(s, k)
    ensures Own(Step(s, k))
  {
    match s.acts[k]
    case Update(p, was, now) => UpdateKeepsOwn(s, k, p, was, now);
    case Notify(p, now, i, at) => NotifyKeepsOwn(s, k, p, now, i, at);
    case Commit(p, i, stage) =>
      assert FrameShape(s, s.acts[k]);
      if stage.Init? { InitKeepsOwn(s, k, p); } else { CommitKeepsOwn(s, k, p, i, stage); }
    case Enqueue(p) => EnqueueKeepsOwn(s, k, p);
    case Handler(p) => HandlerKeepsOwn(s, k, p);
    case Job(p) => PlainKeepsOwn(s, k);
    case Retract(p) => PlainKeepsOwn(s, k);
    case _ =>
  }

  lemma PlainKeepsOwn(s: State, k: nat)
    requires Shape(s) && Own(s) && FrameFits(s, k) && (s.acts[k].Job? || s.acts[k].Retract?)
    ensures Own(Step(s, k))
  {
    assert FrameOwn(s, k);
    QuietKeepsOwn(s, k, Step(s, k));
  }

  // ---------------------------------------------------------------------------------------------
  // Every action keeps shape and ownership
  // ---------------------------------------------------------------------------------------------

  lemma CallGrows(s: State, a: Action)
    requires !a.Go? && !a.AddDep?
    ensures Grows(s, Next(s, a))
  {
  }

  lemma CallTask(s: State, a: Action, t: nat)
    requires !a.Go? && !a.AddDep? && t < |Next(s, a).tasks|
      && (t < |s.tasks| ==> TaskShape(s, t) && TaskOwn(s.tasks[t]))
    ensures TaskShape(Next(s, a), t) && TaskOwn(Next(s, a).tasks[t])
  {
  }

  lemma CallFrame(s: State, a: Action, u: nat)
    requires !a.Go? && !a.AddDep? && u < |Next(s, a).acts| && Grows(s, Next(s, a))
    requires u < |s.acts| ==> FrameShape(s, s.acts[u]) && FrameOwn(s, u)
    ensures FrameShape(Next(s, a), Next(s, a).acts[u]) && FrameOwn(Next(s, a), u)
  {
    if u < |s.acts| && Next(s, a).acts[u] == s.acts[u] {
      FrameShapeGrows(s, Next(s, a), s.acts[u]);
      OldFrameOwn(s, Next(s, a), u);
    } else if u < |s.acts| {
      HandlerFrame(s, a, u);
    } else {
      NewFrame(s, a);
    }
  }

  lemma OldFrameOwn(s: State, s': State, u: nat)
    requires u < |s.acts| && u < |s'.acts| && s'.acts[u] == s.acts[u] && FrameOwn(s, u)
    requires s.tasks <= s'.tasks && (s.requeued ==> s'.requeued)
    ensures FrameOwn(s', u)
  {
  }

  lemma HandlerFrame(s: State, a: Action, u: nat)
    requires !a.Go? && u < |s.acts| && FrameOwn(s, u) && FrameShape(s, s.acts[u]) && Next(s, a).acts[u] != s.acts[u]
    ensures FrameShape(Next(s, a), Next(s, a).acts[u]) && FrameOwn(Next(s, a), u)
  {
    assert a.HandlerReturns? && a.k == u;
  }

  lemma NewFrame(s: State, a: Action)
    requires !a.Go? && |Next(s, a).acts| > |s.acts|
    ensures FrameShape(Next(s, a), Next(s, a).acts[|s.acts|]) && FrameOwn(Next(s, a), |s.acts|)
  {
    assert a.BeginCommit? || a.BeginRetract? || a.Requeue?;
  }

  lemma CallKeeps(s: State, a: Action)
    requires Shape(s) && Own(s) && !a.Go? && !a.AddDep?
    ensures Shape(Next(s, a)) && Own(Next(s, a))
  {
    var s' := Next(s, a);
    CallGrows(s, a);
    forall t | 0 <= t < |s'.tasks| ensures TaskShape(s', t) && TaskOwn(s'.tasks[t]) {
      CallTask(s, a, t);
    }
    forall u | 0 <= u < |s'.acts| ensures FrameShape(s', s'.acts[u]) && FrameOwn(s', u) {
      CallFrame(s, a, u);
    }
  }

  lemma AddDepTask(s: State, c: nat, p: nat, t: nat)
    requires c < |s.tasks| && p < |s.tasks| && s.tasks[c].status == IDLE && t < |s.tasks|
    requires TaskShape(s, t) && TaskOwn(s.tasks[t]) && Grows(s, Next(s, AddDep(c, p)))
    ensures var s' := Next(s, AddDep(c, p)); |s'.tasks| == |s.tasks| && TaskShape(s', t) && TaskOwn(s'.tasks[t])
  {
    var s' := Next(s, AddDep(c, p));
    forall q | 0 <= q < |s'.tasks[t].childs|
      ensures RefFits(s', s'.tasks[t].childs[q])
      ensures At(s', s'.tasks[t].childs[q]).parent == t && s'.tasks[s'.tasks[t].childs[q].c].inited
    {
      assert TaskGrows(s.tasks[s.tasks[t].childs[q].c], s'.tasks[s.tasks[t].childs[q].c]);
    }
  }

  lemma AddDepKeeps(s: State, c: nat, p: nat)
    requires Shape(s) && Own(s) && c < |s.tasks| && p < |s.tasks| && s.tasks[c].status == IDLE
    ensures Shape(Next(s, AddDep(c, p))) && Own(Next(s, AddDep(c, p)))
  {
    var s' := Next(s, AddDep(c, p));
    SetTaskGrows(s, c, s'.tasks[c]);
    forall t | 0 <= t < |s'.tasks| ensures TaskShape(s', t) && TaskOwn(s'.tasks[t]) {
      AddDepTask(s, c, p, t);
    }
    forall u | 0 <= u < |s'.acts| ensures FrameShape(s', s'.acts[u]) && FrameOwn(s', u) {
      assert FrameShape(s, s.acts[u]) && FrameOwn(s, u);
      FrameShapeGrows(s, s', s.acts[u]);
    }
  }

  lemma NextKeeps(s: State, a: Action)
    requires Shape(s) && Own(s)
    ensures Shape(Next(s, a)) && Own(Next(s, a))
  {
    if a.Go? {
      if FrameFits(s, a.k) {
        StepKeepsShape(s, a.k);
        StepKeepsOwn(s, a.k);
      }
    } else if a.AddDep? {
      if Next(s, a) != s { AddDepKeeps(s, a.c, a.p); }
    } else {
      CallKeeps(s, a);
    }
  }

  lemma {:induction false} RunOwn(acts: seq<Action>)
    ensures Shape(Run(acts)) && Own(Run(acts))
  {
    if acts != [] {
      RunOwn(acts[..|acts| - 1]);
      NextKeeps(Run(acts[..|acts| - 1]), acts[|acts| - 1]);
    }
  }
}
