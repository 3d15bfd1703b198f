/**
 The protocol with every commit's wiring and scan taken as one step: nothing else moves while a commit is
 between setting up the counter and the end of its scan. Then no completion is counted twice, and the
 ordering results hold without a condition.
 */
module TasksSolo {
  import opened Common
  import opened Tasks
  import opened TasksOwn
  import opened TasksCount
  import opened TasksLog
  import TasksOrder

  /** The commit is wiring or scanning its records. */
  predicate Busy(f: Frame) { f.Commit? && !f.stage.Init? }

  /** While a commit is wiring or scanning, every action is its next step. */
  ghost predicate CommitsAlone(acts: seq<Action>)
    decreases acts, 1
  {
    acts == [] || EndsAlone(acts)
  }

  ghost predicate EndsAlone(acts: seq<Action>)
    requires acts != []
    decreases acts, 0
  {
    var front := acts[..|acts| - 1];
    CommitsAlone(front) && MayFollow(Run(front), acts[|acts| - 1])
  }

  ghost predicate MayFollow(s: State, a: Action) {
    forall k :: 0 <= k < |s.acts| && Busy(s.acts[k]) ==> a == Go(k)
  }

  ghost predicate Untouched(s: State, f: Frame) {
    Busy(f) && f.p < |s.tasks| ==> forall j :: 0 <= j < |s.tasks[f.p].deps| ==> !s.tasks[f.p].deps[j].told
  }

  /** Some dependency of the task was recorded COMPLETED by both a notification pass and the scan. */
  ghost predicate Recounted(t: Task) {
    exists j :: 0 <= j < |t.deps| && t.deps[j].twice
  }

  /** No record is told by both sides, and a commit in progress has records no pass has touched. */
  ghost predicate Clean(s: State) {
    forall t :: 0 <= t < |s.tasks| ==> !Recounted(s.tasks[t]) && Kept(s.tasks[t])
  }

  ghost predicate Alone(s: State) {
    && Clean(s)
    && forall k :: 0 <= k < |s.acts| ==> Untouched(s, s.acts[k])
  }

  /** What a pass has told stays on record. */
  predicate Kept(t: Task) { forall j :: 0 <= j < |t.deps| && t.deps[j].told ==> t.deps[j].stat == COMPLETED }

  /** Nothing is newly counted twice or taken off the record. */
  ghost predicate Tidy(t: Task, t': Task) {
    (!Recounted(t) && Kept(t)) ==> (!Recounted(t') && Kept(t'))
  }

  lemma NotifyTidy(s: State, k: nat, p: nat, now: int, i: nat, at: Visit, t: nat)
    requires Shape(s) && Own(s) && Count(s) && k < |s.acts| && s.acts[k] == Notify(p, now, i, at) && Fits(s, s.acts[k])
    requires t < |s.tasks|
    ensures |Step(s, k).tasks| == |s.tasks| && Tidy(s.tasks[t], Step(s, k).tasks[t])
  {
    if i < |s.tasks[p].childs| {
      var r := RecordAt(s, p, i);
      assert FrameShape(s, s.acts[k]) && FrameOwn(s, k);
      NotifyOneTidy(s, k, p, now, i, at, t, r);
    }
  }

  lemma NotifyOneTidy(s: State, k: nat, p: nat, now: int, i: nat, at: Visit, t: nat, r: Ref)
    requires k < |s.acts| && s.acts[k] == Notify(p, now, i, at) && Fits(s, s.acts[k]) && t < |s.tasks|
    requires i < |s.tasks[p].childs| && r == s.tasks[p].childs[i] && RefFits(s, r)
    requires FrameShape(s, s.acts[k]) && FrameOwn(s, k) && At(s, r).parent == p && EdgeInv(s, r.c, r.j)
    ensures |Step(s, k).tasks| == |s.tasks| && Tidy(s.tasks[t], Step(s, k).tasks[t])
  {
    if at.Cas? {
      CasTidy(s, k, p, now, i, at.cur, t, r);
    } else if at.Dec? {
      DecTidy(s, k, p, now, i, t);
    } else {
      assert Step(s, k).tasks == s.tasks;
    }
  }

  lemma CasTidy(s: State, k: nat, p: nat, now: int, i: nat, cur: int, t: nat, r: Ref)
    requires k < |s.acts| && s.acts[k] == Notify(p, now, i, Cas(cur)) && Fits(s, s.acts[k]) && t < |s.tasks|
    requires i < |s.tasks[p].childs| && r == s.tasks[p].childs[i] && RefFits(s, r)
    requires FrameShape(s, s.acts[k]) && FrameOwn(s, k) && At(s, r).parent == p && EdgeInv(s, r.c, r.j)
    ensures |Step(s, k).tasks| == |s.tasks| && Tidy(s.tasks[t], Step(s, k).tasks[t])
  {
    var s' := Step(s, k);
    if !Recounted(s.tasks[t]) && Kept(s.tasks[t]) {
      forall j | 0 <= j < |s'.tasks[t].deps|
        ensures !s'.tasks[t].deps[j].twice && (s'.tasks[t].deps[j].told ==> s'.tasks[t].deps[j].stat == COMPLETED)
      {
        assert !s.tasks[t].deps[j].twice;
      }
    }
  }

  lemma DecTidy(s: State, k: nat, p: nat, now: int, i: nat, t: nat)
    requires k < |s.acts| && s.acts[k] == Notify(p, now, i, Dec) && Fits(s, s.acts[k]) && t < |s.tasks|
    requires i < |s.tasks[p].childs|
    ensures |Step(s, k).tasks| == |s.tasks| && Tidy(s.tasks[t], Step(s, k).tasks[t])
  {
    var s' := Step(s, k);
    if !Recounted(s.tasks[t]) && Kept(s.tasks[t]) {
      forall j | 0 <= j < |s'.tasks[t].deps|
        ensures !s'.tasks[t].deps[j].twice && (s'.tasks[t].deps[j].told ==> s'.tasks[t].deps[j].stat == COMPLETED)
      {
        assert !s.tasks[t].deps[j].twice;
      }
    }
  }

  lemma CommitTidy(s: State, k: nat, p: nat, i: nat, stage: Stage, t: nat)
    requires FrameFits(s, k) && s.acts[k] == Commit(p, i, stage) && !stage.Swap? && t < |s.tasks|
    ensures |Step(s, k).tasks| == |s.tasks| && Tidy(s.tasks[t], Step(s, k).tasks[t])
  {
    var s' := Step(s, k);
    if !Recounted(s.tasks[t]) && Kept(s.tasks[t]) {
      CommitMarks(s, k, t);
      forall j | 0 <= j < |s'.tasks[t].deps|
        ensures !s'.tasks[t].deps[j].twice && (s'.tasks[t].deps[j].told ==> s'.tasks[t].deps[j].stat == COMPLETED)
      {
        assert !s.tasks[t].deps[j].twice;
      }
    }
  }

  lemma RestTidy(s: State, k: nat, t: nat)
    requires FrameFits(s, k) && !s.acts[k].Notify? && !s.acts[k].Commit? && t < |s.tasks|
    ensures |Step(s, k).tasks| == |s.tasks| && Tidy(s.tasks[t], Step(s, k).tasks[t])
  {
    assert Step(s, k).tasks[t].deps == s.tasks[t].deps;
  }

  /** A step other than a commit's swap marks no record as counted twice. */
  lemma OtherTidy(s: State, k: nat)
    requires Shape(s) && Own(s) && Count(s) && FrameFits(s, k) && Clean(s)
      && !(s.acts[k].Commit? && s.acts[k].stage.Swap?)
    ensures Clean(Step(s, k))
  {
    var s' := Step(s, k);
    StepTaskCount(s, k);
    forall t | 0 <= t < |s'.tasks| ensures !Recounted(s'.tasks[t]) && Kept(s'.tasks[t]) {
      assert !Recounted(s.tasks[t]) && Kept(s.tasks[t]);
      var f := s.acts[k];
      if f.Notify? { NotifyTidy(s, k, f.p, f.now, f.i, f.at, t); }
      else if f.Commit? { CommitTidy(s, k, f.p, f.i, f.stage, t); }
      else { RestTidy(s, k, t); }
    }
  }

  /** A commit's own step touches no `told` mark. */
  lemma CommitTold(s: State, k: nat, c: nat, j: nat)
    requires FrameFits(s, k) && s.acts[k].Commit? && c < |s.tasks| && j < |s.tasks[c].deps|
    ensures var s' := Step(s, k);
      c < |s'.tasks| && |s'.tasks[c].deps| == |s.tasks[c].deps| && s'.tasks[c].deps[j].told == s.tasks[c].deps[j].told
  {
    if s.acts[k].stage.Swap? { SwapTold(s, k, s.acts[k].p, s.acts[k].i, c, j); } else { CommitMarks(s, k, c); }
  }

  lemma SwapTold(s: State, k: nat, p: nat, i: nat, c: nat, j: nat)
    requires FrameFits(s, k) && s.acts[k].Commit? && s.acts[k].stage.Swap? && s.acts[k].p == p && s.acts[k].i == i
    requires c < |s.tasks| && j < |s.tasks[c].deps|
    ensures var s' := Step(s, k);
      c < |s'.tasks| && |s'.tasks[c].deps| == |s.tasks[c].deps| && s'.tasks[c].deps[j].told == s.tasks[c].deps[j].told
  {
    var e' := SwapReplaces(s, k, p, i);
  }

  /** Over records no pass has touched the swap counts nothing twice. */
  lemma SwapOnce(s: State, k: nat, p: nat, i: nat, ps: int, ds: int)
    requires FrameFits(s, k) && s.acts[k] == Commit(p, i, Swap(ps, ds)) && Clean(s)
    requires Untouched(s, s.acts[k]) && i < |s.tasks[p].deps|
    requires s.tasks[p].deps[i].stat == COMPLETED ==> s.tasks[p].deps[i].told || s.tasks[p].deps[i].scanned
    requires !s.tasks[p].deps[i].scanned
    ensures Clean(Step(s, k))
  {
    var s' := Step(s, k);
    StepTaskCount(s, k);
    assert !s.tasks[p].deps[i].told;
    forall t | 0 <= t < |s'.tasks| ensures !Recounted(s'.tasks[t]) && Kept(s'.tasks[t]) {
      assert !Recounted(s.tasks[t]) && Kept(s.tasks[t]);
      SwapTidy(s, k, p, i, ps, ds, t);
    }
  }

  lemma SwapTidy(s: State, k: nat, p: nat, i: nat, ps: int, ds: int, t: nat)
    requires FrameFits(s, k) && s.acts[k] == Commit(p, i, Swap(ps, ds)) && t < |s.tasks| && i < |s.tasks[p].deps|
    requires !s.tasks[p].deps[i].told && s.tasks[p].deps[i].stat != COMPLETED
    ensures |Step(s, k).tasks| == |s.tasks| && Tidy(s.tasks[t], Step(s, k).tasks[t])
  {
    var s' := Step(s, k);
    if !Recounted(s.tasks[t]) && Kept(s.tasks[t]) {
      forall j | 0 <= j < |s'.tasks[t].deps|
        ensures !s'.tasks[t].deps[j].twice && (s'.tasks[t].deps[j].told ==> s'.tasks[t].deps[j].stat == COMPLETED)
      {
        assert !s.tasks[t].deps[j].twice;
      }
    }
  }

  lemma BusyStep(s: State, k: nat)
    requires Shape(s) && Own(s) && Count(s) && Alone(s) && FrameFits(s, k) && s.acts[k].Commit?
    requires forall u :: 0 <= u < |s.acts| && Busy(s.acts[u]) ==> u == k
    ensures Alone(Step(s, k))
  {
    var s', p := Step(s, k), s.acts[k].p;
    assert FrameShape(s, s.acts[k]) && FrameOwn(s, k) && FrameCount(s, s.acts[k]) && TaskCount(s, p);
    assert Untouched(s, s.acts[k]);
    if s.acts[k].stage.Swap? {
      assert EdgeInv(s, p, s.acts[k].i);
      SwapOnce(s, k, p, s.acts[k].i, s.acts[k].stage.ps, s.acts[k].stage.ds);
    } else {
      OtherTidy(s, k);
    }
    StepFrames(s, k);
    forall u | 0 <= u < |s'.acts| ensures Untouched(s', s'.acts[u]) {
      if u == k && Busy(s'.acts[k]) {
        CommitFrame(s, k);
        forall j | 0 <= j < |s'.tasks[p].deps| ensures !s'.tasks[p].deps[j].told {
          CommitDeps(s, k, p);
          assert EdgeInv(s, p, j);
          CommitTold(s, k, p, j);
        }
      } else if u != k && u < |s.acts| {
        assert !Busy(s.acts[u]);
      } else if u >= |s.acts| {
        CommitAdds(s, k);
      }
    }
  }

  lemma CommitFrame(s: State, k: nat)
    requires FrameFits(s, k) && s.acts[k].Commit? && Busy(Step(s, k).acts[k])
    ensures Step(s, k).acts[k].p == s.acts[k].p
  {
  }

  lemma CommitDeps(s: State, k: nat, p: nat)
    requires FrameFits(s, k) && s.acts[k].Commit? && p < |s.tasks|
    ensures |Step(s, k).tasks| == |s.tasks| && |Step(s, k).tasks[p].deps| == |s.tasks[p].deps|
  {
  }

  lemma CommitAdds(s: State, k: nat)
    requires FrameFits(s, k) && s.acts[k].Commit?
    ensures |Step(s, k).acts| == |s.acts|
  {
  }

  lemma QuietStep(s: State, k: nat)
    requires Shape(s) && Own(s) && Count(s) && Alone(s) && FrameFits(s, k) && !s.acts[k].Commit?
    requires forall u :: 0 <= u < |s.acts| ==> !Busy(s.acts[u])
    ensures Alone(Step(s, k))
  {
    OtherTidy(s, k);
    StepFrames(s, k);
    QuietFrame(s, k);
    NobodyBusy(s, Step(s, k), k);
  }

  lemma NobodyBusy(s: State, s': State, k: nat)
    requires k < |s.acts| <= |s'.acts| <= |s.acts| + 1 && Clean(s')
    requires forall u :: 0 <= u < |s.acts| ==> !Busy(s.acts[u]) && (u != k ==> s'.acts[u] == s.acts[u])
    requires !Busy(s'.acts[k]) && (|s'.acts| > |s.acts| ==> !Busy(s'.acts[|s.acts|]))
    ensures Alone(s')
  {
  }

  lemma QuietFrame(s: State, k: nat)
    requires FrameFits(s, k) && !s.acts[k].Commit?
    ensures var s' := Step(s, k); !Busy(s'.acts[k]) && (|s'.acts| > |s.acts| ==> !Busy(s'.acts[|s.acts|]))
  {
  }

  lemma CallAlone(s: State, a: Action)
    requires Alone(s) && !a.Go? && forall u :: 0 <= u < |s.acts| ==> !Busy(s.acts[u])
    ensures Alone(Next(s, a))
  {
    var s' := Next(s, a);
    forall t | 0 <= t < |s'.tasks| ensures !Recounted(s'.tasks[t]) && Kept(s'.tasks[t]) {
      if t < |s.tasks| { assert !Recounted(s.tasks[t]) && Kept(s.tasks[t]); }
    }
  }

  lemma NextAlone(s: State, a: Action)
    requires Shape(s) && Own(s) && Count(s) && Alone(s)
    requires MayFollow(s, a)
    ensures Alone(Next(s, a))
  {
    if !a.Go? {
      CallAlone(s, a);
    } else if FrameFits(s, a.k) {
      if s.acts[a.k].Commit? { BusyStep(s, a.k); } else { QuietStep(s, a.k); }
    }
  }

  lemma {:induction false} RunAlone(acts: seq<Action>)
    requires CommitsAlone(acts)
    ensures Alone(Run(acts))
  {
    if acts != [] {
      var rest := acts[..|acts| - 1];
      assert EndsAlone(acts);
      RunAlone(rest);
      RunCount(rest);
      NextAlone(Run(rest), acts[|acts| - 1]);
    }
  }

  // ---------------------------------------------------------------------------------------------
  // Main results
  // ---------------------------------------------------------------------------------------------

  /** A dependency is counted twice only if both sides recorded it. */
  lemma CountsOnce(acts: seq<Action>, t: nat)
    requires CommitsAlone(acts)
    ensures TasksOrder.CountedOnce(Run(acts), t)
  {
    var s := Run(acts);
    RunAlone(acts);
    RunCount(acts);
    if t < |s.tasks| {
      assert TaskCount(s, t) && !Recounted(s.tasks[t]);
      forall j | 0 <= j < |s.tasks[t].deps| ensures !(s.tasks[t].deps[j].decN && s.tasks[t].deps[j].decS) {
        assert EdgeInv(s, t, j) && !s.tasks[t].deps[j].twice;
      }
    }
  }

  /** When a task's handler has been called, every ancestor, through barriers or not, is COMPLETED. */
  lemma AncestorsFirst(acts: seq<Action>, path: seq<nat>)
    requires CommitsAlone(acts) && path != [] && path[0] < |Run(acts).tasks| && Run(acts).tasks[path[0]].ran > 0
    requires TasksOrder.IsPath(Run(acts), path)
    ensures forall i :: 0 < i < |path| ==> path[i] < |Run(acts).tasks| && Run(acts).tasks[path[i]].status == COMPLETED
  {
    forall i | 0 <= i < |path| - 1 ensures TasksOrder.CountedOnce(Run(acts), path[i]) { CountsOnce(acts, path[i]); }
    TasksOrder.AncestorsComplete(acts, path);
  }

  /** A task on a dependency cycle, or below one, never runs. */
  lemma CyclesNeverRun(acts: seq<Action>, cycle: set<nat>, path: seq<nat>)
    requires CommitsAlone(acts) && TasksOrder.Circular(Run(acts), cycle) && TasksOrder.IsPath(Run(acts), path)
    requires path != [] && path[0] < |Run(acts).tasks| && path[|path| - 1] in cycle
    ensures Run(acts).tasks[path[0]].ran == 0
  {
    forall i | 0 <= i < |path| - 1 ensures TasksOrder.CountedOnce(Run(acts), path[i]) { CountsOnce(acts, path[i]); }
    forall t | t in cycle ensures TasksOrder.CountedOnce(Run(acts), t) { CountsOnce(acts, t); }
    TasksOrder.OnOrBelowCycle(acts, cycle, path);
  }

  // ---------------------------------------------------------------------------------------------
  // The counter at every step
  // ---------------------------------------------------------------------------------------------

  /** How many dependencies are not recorded COMPLETED. */
  function Unrecorded(deps: seq<Edge>): nat {
    if deps == [] then 0
    else Unrecorded(deps[..|deps| - 1]) + Bit(deps[|deps| - 1].stat != COMPLETED)
  }

  /** The activation has recorded a completion for task `c` and has not counted it yet. */
  predicate Stands(s: State, f: Frame, c: nat) {
    || (f.Commit? && f.p == c && f.stage.Drop?)
    || (f.Notify? && f.now == COMPLETED && (f.at.Child? || f.at.Dec?)
        && f.p < |s.tasks| && f.i < |s.tasks[f.p].childs| && s.tasks[f.p].childs[f.i].c == c)
  }

  /** How many of the first `n` activations stand so. */
  function Standing(s: State, n: nat, c: nat): nat
    requires n <= |s.acts|
  {
    if n == 0 then 0 else Standing(s, n - 1, c) + Stander(s, n - 1, c)
  }

  function Stander(s: State, k: nat, c: nat): nat { Bit(k < |s.acts| && Stands(s, s.acts[k], c)) }

  predicate Level(s: State, c: nat)
    requires c < |s.tasks|
  {
    var t := s.tasks[c];
    t.inited && t.status == DEPHOLD ==> t.counter == Unrecorded(t.deps) + Standing(s, |s.acts|, c)
  }

  lemma {:induction false} UnrecordedSet(deps: seq<Edge>, j: nat, e: Edge)
    requires j < |deps|
    ensures Unrecorded(deps[j := e]) + Bit(deps[j].stat != COMPLETED) == Unrecorded(deps) + Bit(e.stat != COMPLETED)
  {
    var last := |deps| - 1;
    if j < last {
      UnrecordedSet(deps[..last], j, e);
      assert deps[j := e][..last] == deps[..last][j := e];
    } else {
      assert deps[j := e][..last] == deps[..last];
    }
  }

  lemma {:induction false} UnrecordedFresh(deps: seq<Edge>)
    requires forall j :: 0 <= j < |deps| ==> deps[j].stat != COMPLETED
    ensures Unrecorded(deps) == |deps|
  {
    if deps != [] { UnrecordedFresh(deps[..|deps| - 1]); }
  }

  lemma {:induction false} NobodyStands(s: State, n: nat, c: nat)
    requires n <= |s.acts| && forall u :: 0 <= u < n ==> !Stands(s, s.acts[u], c)
    ensures Standing(s, n, c) == 0
  {
    if n > 0 { NobodyStands(s, n - 1, c); }
  }

  /** Children are only ever added to a list, so the other activations stand where they stood. */
  ghost predicate OthersStay(s: State, s': State, k: nat, c: nat) {
    && |s.acts| <= |s'.acts|
    && forall u :: 0 <= u < |s.acts| && u != k ==> Stands(s', s'.acts[u], c) == Stands(s, s.acts[u], c)
  }

  lemma {:induction false} StandingMoves(s: State, s': State, k: nat, n: nat, c: nat)
    requires OthersStay(s, s', k, c) && n <= |s.acts|
    ensures Standing(s', n, c) + (if k < n then Stander(s, k, c) else 0)
         == Standing(s, n, c) + (if k < n then Stander(s', k, c) else 0)
  {
    if n > 0 { StandingMoves(s, s', k, n - 1, c); }
  }

  lemma StepOthersStay(s: State, k: nat, c: nat)
    requires Shape(s) && FrameFits(s, k)
    ensures OthersStay(s, Step(s, k), k, c)
  {
    var s' := Step(s, k);
    StepFrames(s, k);
    StepGrows(s, k);
    forall u | 0 <= u < |s.acts| && u != k ensures Stands(s', s'.acts[u], c) == Stands(s, s.acts[u], c) {
      assert FrameShape(s, s.acts[u]);
      if s.acts[u].Notify? { assert TaskGrows(s.tasks[s.acts[u].p], s'.tasks[s.acts[u].p]); }
    }
  }

  lemma StepStanding(s: State, k: nat, c: nat)
    requires Shape(s) && FrameFits(s, k)
    ensures var s' := Step(s, k);
      Standing(s', |s'.acts|, c) + Stander(s, k, c) == Standing(s, |s.acts|, c) + Stander(s', k, c)
  {
    StepOthersStay(s, k, c);
    NewStandsNot(s, k, c);
    AllStanding(s, Step(s, k), k, c);
  }

  lemma AllStanding(s: State, s': State, k: nat, c: nat)
    requires OthersStay(s, s', k, c) && k < |s.acts| && |s'.acts| <= |s.acts| + 1
    requires |s'.acts| > |s.acts| ==> !Stands(s', s'.acts[|s.acts|], c)
    ensures Standing(s', |s'.acts|, c) + Stander(s, k, c) == Standing(s, |s.acts|, c) + Stander(s', k, c)
  {
    StandingMoves(s, s', k, |s.acts|, c);
  }

  /** An activation that a step begins stands nowhere yet. */
  lemma NewStandsNot(s: State, k: nat, c: nat)
    requires FrameFits(s, k)
    ensures var s' := Step(s, k);
      |s.acts| <= |s'.acts| <= |s.acts| + 1 && (|s'.acts| > |s.acts| ==> !Stands(s', s'.acts[|s.acts|], c))
  {
  }

  /** What the level of `c` rests on is as it was. */
  ghost predicate LevelKept(s: State, s': State, c: nat) {
    && c < |s.tasks| == |s'.tasks|
    && s'.tasks[c].inited == s.tasks[c].inited && s'.tasks[c].status == s.tasks[c].status
    && s'.tasks[c].counter == s.tasks[c].counter && s'.tasks[c].deps == s.tasks[c].deps
  }

  lemma NotifyOther(s: State, k: nat, p: nat, now: int, i: nat, at: Visit, c: nat)
    requires FrameFits(s, k) && s.acts[k] == Notify(p, now, i, at) && FrameShape(s, s.acts[k])
    requires c < |s.tasks| && s.tasks[c].status == DEPHOLD
    requires i < |s.tasks[p].childs| && (s.tasks[p].childs[i].c == c ==> !at.Cas? && !at.Dec?)
    ensures var s' := Step(s, k); LevelKept(s, s', c) && Stands(s', s'.acts[k], c) == Stands(s, s.acts[k], c)
  {
    if at.Cas? { CasOther(s, k, p, now, i, at, c); }
    else if at.Dec? { DecOther(s, k, p, now, i, c); }
    else { assert Step(s, k).tasks == s.tasks; }
  }

  lemma CasOther(s: State, k: nat, p: nat, now: int, i: nat, at: Visit, c: nat)
    requires FrameFits(s, k) && s.acts[k] == Notify(p, now, i, at) && at.Cas? && c < |s.tasks|
    requires i < |s.tasks[p].childs| && s.tasks[p].childs[i].c != c
    ensures var s' := Step(s, k); LevelKept(s, s', c) && Stands(s', s'.acts[k], c) == Stands(s, s.acts[k], c)
  {
  }

  lemma DecOther(s: State, k: nat, p: nat, now: int, i: nat, c: nat)
    requires FrameFits(s, k) && s.acts[k] == Notify(p, now, i, Dec) && c < |s.tasks|
    requires i < |s.tasks[p].childs| && s.tasks[p].childs[i].c != c
    ensures var s' := Step(s, k); LevelKept(s, s', c) && Stands(s', s'.acts[k], c) == Stands(s, s.acts[k], c)
  {
  }

  lemma NotifyEnds(s: State, k: nat, p: nat, now: int, i: nat, at: Visit, c: nat)
    requires FrameFits(s, k) && s.acts[k] == Notify(p, now, i, at) && i >= |s.tasks[p].childs| && c < |s.tasks|
    ensures var s' := Step(s, k);
      LevelKept(s, s', c) && !Stands(s', s'.acts[k], c) && !Stands(s, s.acts[k], c)
  {
  }

  /** The pass writes the record of `c` it is at. */
  lemma NotifyRecords(s: State, k: nat, p: nat, now: int, i: nat, cur: int, c: nat)
    requires FrameFits(s, k) && s.acts[k] == Notify(p, now, i, Cas(cur)) && cur < now && c < |s.tasks|
    requires i < |s.tasks[p].childs| && s.tasks[p].childs[i].c == c && cur != COMPLETED
    requires At(s, s.tasks[p].childs[i]).stat == cur
    ensures var s' := Step(s, k); var t, t' := s.tasks[c], s'.tasks[c];
      && |s'.tasks| == |s.tasks| && !Stands(s, s.acts[k], c)
      && t'.inited == t.inited && t'.status == t.status && t'.counter == t.counter
      && Unrecorded(t'.deps) + Bit(Stands(s', s'.acts[k], c)) == Unrecorded(t.deps)
  {
    var r := s.tasks[p].childs[i];
    var e := At(s, r);
    UnrecordedSet(s.tasks[c].deps, r.j, e.(stat := now, told := e.told || now == COMPLETED));
  }

  lemma NotifyCounts(s: State, k: nat, p: nat, i: nat, c: nat)
    requires FrameFits(s, k) && s.acts[k] == Notify(p, COMPLETED, i, Dec) && c < |s.tasks|
    requires i < |s.tasks[p].childs| && s.tasks[p].childs[i].c == c
    ensures var s' := Step(s, k); var t, t' := s.tasks[c], s'.tasks[c];
      && |s'.tasks| == |s.tasks| && Stands(s, s.acts[k], c) && !Stands(s', s'.acts[k], c)
      && t'.inited == t.inited && t'.status == t.status && t'.counter == t.counter - 1
      && Unrecorded(t'.deps) == Unrecorded(t.deps)
  {
    var r := s.tasks[p].childs[i];
    UnrecordedSet(s.tasks[c].deps, r.j, At(s, r).(decN := true));
  }

  /** A record marked COMPLETED has a completed parent, which no pass of another final status can have. */
  lemma CasUnrecorded(s: State, k: nat, p: nat, now: int, i: nat, cur: int)
    requires Shape(s) && Own(s) && Count(s) && FrameFits(s, k) && s.acts[k] == Notify(p, now, i, Cas(cur))
    requires i < |s.tasks[p].childs| && At(s, s.tasks[p].childs[i]).stat == cur
    ensures cur < now && cur != COMPLETED
  {
    assert FrameShape(s, s.acts[k]) && FrameOwn(s, k);
    var r := RecordAt(s, p, i);
  }

  lemma NotifyLevel(s: State, k: nat, c: nat)
    requires Shape(s) && Own(s) && Count(s) && FrameFits(s, k) && s.acts[k].Notify? && c < |s.tasks| && Level(s, c)
    ensures |Step(s, k).tasks| == |s.tasks| && Level(Step(s, k), c)
  {
    StepTaskCount(s, k);
    NotifyTouches(s, k, c);
    assert FrameShape(s, s.acts[k]);
    if s.tasks[c].status == DEPHOLD {
      var p, now, i, at := s.acts[k].p, s.acts[k].now, s.acts[k].i, s.acts[k].at;
      StepStanding(s, k, c);
      if i >= |s.tasks[p].childs| {
        NotifyEnds(s, k, p, now, i, at, c);
      } else if s.tasks[p].childs[i].c == c && at.Cas? && At(s, s.tasks[p].childs[i]).stat == at.cur {
        CasUnrecorded(s, k, p, now, i, at.cur);
        NotifyRecords(s, k, p, now, i, at.cur, c);
      } else if s.tasks[p].childs[i].c == c && at.Dec? {
        NotifyCounts(s, k, p, i, c);
      } else if s.tasks[p].childs[i].c == c && at.Cas? {
        CasMisses(s, k, p, now, i, at.cur, c);
      } else {
        NotifyOther(s, k, p, now, i, at, c);
      }
    }
  }

  lemma CasMisses(s: State, k: nat, p: nat, now: int, i: nat, cur: int, c: nat)
    requires FrameFits(s, k) && s.acts[k] == Notify(p, now, i, Cas(cur)) && c < |s.tasks|
    requires i < |s.tasks[p].childs| && At(s, s.tasks[p].childs[i]).stat != cur
    ensures var s' := Step(s, k); LevelKept(s, s', c) && !Stands(s', s'.acts[k], c) && !Stands(s, s.acts[k], c)
  {
  }

  lemma CommitOther(s: State, k: nat, p: nat, i: nat, stage: Stage, c: nat)
    requires FrameFits(s, k) && s.acts[k] == Commit(p, i, stage) && c < |s.tasks| && c != p
    ensures var s' := Step(s, k); LevelKept(s, s', c) && !Stands(s', s'.acts[k], c) && !Stands(s, s.acts[k], c)
  {
  }

  lemma CommitOn(s: State, k: nat, p: nat, i: nat, stage: Stage)
    requires FrameFits(s, k) && s.acts[k] == Commit(p, i, stage)
    requires stage.Scan? || stage.Rec? || (stage.Wire? && i >= |s.tasks[p].deps|)
             || (stage.Swap? && s.tasks[p].deps[i].stat != stage.ds)
    ensures var s' := Step(s, k); LevelKept(s, s', p) && !Stands(s', s'.acts[k], p) && !Stands(s, s.acts[k], p)
  {
  }

  lemma CommitWires(s: State, k: nat, p: nat, i: nat)
    requires FrameFits(s, k) && s.acts[k] == Commit(p, i, Wire) && i < |s.tasks[p].deps|
    ensures var s' := Step(s, k); var t, t' := s.tasks[p], s'.tasks[p];
      && |s'.tasks| == |s.tasks| && !Stands(s, s.acts[k], p) && !Stands(s', s'.acts[k], p)
      && t'.inited == t.inited && t'.status == t.status && t'.counter == t.counter
      && Unrecorded(t'.deps) == Unrecorded(t.deps)
  {
    UnrecordedSet(s.tasks[p].deps, i, s.tasks[p].deps[i].(wired := true));
    assert Step(s, k).tasks[p].deps == s.tasks[p].deps[i := s.tasks[p].deps[i].(wired := true)];
  }

  lemma CommitRecords(s: State, k: nat, p: nat, i: nat, ps: int, ds: int)
    requires FrameFits(s, k) && s.acts[k] == Commit(p, i, Swap(ps, ds)) && s.tasks[p].deps[i].stat == ds != COMPLETED
    ensures var s' := Step(s, k); var t, t' := s.tasks[p], s'.tasks[p];
      && |s'.tasks| == |s.tasks| && !Stands(s, s.acts[k], p)
      && t'.inited == t.inited && t'.status == t.status && t'.counter == t.counter
      && Unrecorded(t'.deps) + Bit(Stands(s', s'.acts[k], p)) == Unrecorded(t.deps)
  {
    UnrecordedSet(s.tasks[p].deps, i, Step(s, k).tasks[p].deps[i]);
  }

  lemma CommitCounts(s: State, k: nat, p: nat, i: nat)
    requires FrameFits(s, k) && s.acts[k] == Commit(p, i, Drop)
    ensures var s' := Step(s, k); var t, t' := s.tasks[p], s'.tasks[p];
      && |s'.tasks| == |s.tasks| && Stands(s, s.acts[k], p) && !Stands(s', s'.acts[k], p)
      && t'.inited == t.inited && t'.status == t.status && t'.counter == t.counter - 1
      && Unrecorded(t'.deps) == Unrecorded(t.deps)
  {
    UnrecordedSet(s.tasks[p].deps, i, s.tasks[p].deps[i].(decS := true));
  }

  lemma InitLevel(s: State, k: nat, p: nat, i: nat)
    requires Shape(s) && Own(s) && Count(s) && FrameFits(s, k) && s.acts[k] == Commit(p, i, Init)
    ensures Level(Step(s, k), p)
  {
    var s', deps := Step(s, k), s.tasks[p].deps;
    assert FrameOwn(s, k) && TaskCount(s, p);
    forall j | 0 <= j < |deps| ensures deps[j].stat != COMPLETED { assert EdgeInv(s, p, j); }
    UnrecordedFresh(deps);
    forall u | 0 <= u < |s.acts| ensures !Stands(s, s.acts[u], p) {
      assert FrameShape(s, s.acts[u]) && FrameOwn(s, u);
      if s.acts[u].Notify? { assert TaskShape(s, s.acts[u].p); }
    }
    NobodyStands(s, |s.acts|, p);
    StepStanding(s, k, p);
  }

  lemma CommitLevel(s: State, k: nat, c: nat)
    requires Shape(s) && Own(s) && Count(s) && Alone(s) && FrameFits(s, k) && s.acts[k].Commit? && c < |s.tasks|
      && Level(s, c)
    ensures |Step(s, k).tasks| == |s.tasks| && Level(Step(s, k), c)
  {
    var p, i, stage := s.acts[k].p, s.acts[k].i, s.acts[k].stage;
    StepTaskCount(s, k);
    StepStanding(s, k, c);
    if c != p {
      CommitOther(s, k, p, i, stage, c);
    } else if stage.Init? {
      InitLevel(s, k, p, i);
    } else if stage.Wire? && i < |s.tasks[p].deps| {
      CommitWires(s, k, p, i);
    } else if stage.Drop? {
      CommitCounts(s, k, p, i);
    } else if stage.Swap? && s.tasks[p].deps[i].stat == stage.ds {
      SwapUnrecorded(s, k, p, i);
      CommitRecords(s, k, p, i, stage.ps, stage.ds);
    } else {
      CommitOn(s, k, p, i, stage);
    }
  }

  /** A scan that runs alone meets no record that is marked COMPLETED. */
  lemma SwapUnrecorded(s: State, k: nat, p: nat, i: nat)
    requires Shape(s) && Count(s) && Alone(s) && FrameFits(s, k)
    requires s.acts[k].Commit? && s.acts[k].stage.Swap? && s.acts[k].p == p && s.acts[k].i == i
    ensures s.tasks[p].deps[i].stat != COMPLETED
  {
    assert FrameShape(s, s.acts[k]) && FrameCount(s, s.acts[k]) && Untouched(s, s.acts[k]);
    assert TaskCount(s, p) && EdgeInv(s, p, i) && !s.tasks[p].deps[i].told;
  }

  lemma RestLevel(s: State, k: nat, c: nat)
    requires Shape(s) && Own(s) && FrameFits(s, k) && !s.acts[k].Notify? && !s.acts[k].Commit?
    requires c < |s.tasks| && Level(s, c)
    ensures |Step(s, k).tasks| == |s.tasks| && Level(Step(s, k), c)
  {
    assert FrameShape(s, s.acts[k]) && TaskOwn(s.tasks[c]);
    StepStanding(s, k, c);
    RestKeeps(s, k, c);
  }

  lemma RestKeeps(s: State, k: nat, c: nat)
    requires FrameFits(s, k) && !s.acts[k].Notify? && !s.acts[k].Commit? && c < |s.tasks|
    requires FrameShape(s, s.acts[k])
    ensures var s' := Step(s, k);
      && |s'.tasks| == |s.tasks| && !Stands(s', s'.acts[k], c) && !Stands(s, s.acts[k], c)
      && s'.tasks[c].inited == s.tasks[c].inited && s'.tasks[c].counter == s.tasks[c].counter
      && s'.tasks[c].deps == s.tasks[c].deps
      && (s'.tasks[c].status == DEPHOLD ==> s.tasks[c].status == DEPHOLD || s.tasks[c].status == IDLE)
  {
  }

  lemma CallLevel(s: State, a: Action, c: nat)
    requires Shape(s) && Own(s) && !a.Go? && c < |Next(s, a).tasks| && (c < |s.tasks| ==> Level(s, c))
    ensures Level(Next(s, a), c)
  {
    var s' := Next(s, a);
    if c < |s.tasks| {
      assert TaskOwn(s.tasks[c]);
      CallStanding(s, a, c);
      CallKeepsLevel(s, a, c);
    }
  }

  /** A call leaves every committed task as it is. */
  lemma CallKeepsLevel(s: State, a: Action, c: nat)
    requires !a.Go? && c < |s.tasks| && TaskOwn(s.tasks[c])
    ensures var s' := Next(s, a);
      && |s.tasks| <= |s'.tasks| && s'.tasks[c].inited == s.tasks[c].inited && s'.tasks[c].status == s.tasks[c].status
      && s'.tasks[c].counter == s.tasks[c].counter && (s.tasks[c].inited ==> s'.tasks[c].deps == s.tasks[c].deps)
  {
  }

  lemma CallStanding(s: State, a: Action, c: nat)
    requires Shape(s) && !a.Go?
    ensures Standing(Next(s, a), |Next(s, a).acts|, c) == Standing(s, |s.acts|, c)
  {
    var s' := Next(s, a);
    CallFrames(s, a, c);
    forall u | 0 <= u < |s.acts| ensures Stands(s', s'.acts[u], c) == Stands(s, s.acts[u], c) {
      assert FrameShape(s, s.acts[u]);
      CallStands(s, a, u, c);
    }
    StandingMoves(s, s', |s.acts|, |s.acts|, c);
  }

  /** A call adds at most one activation, which stands nowhere. */
  lemma CallFrames(s: State, a: Action, c: nat)
    requires !a.Go?
    ensures var s' := Next(s, a);
      |s.acts| <= |s'.acts| <= |s.acts| + 1 && (|s'.acts| > |s.acts| ==> !Stands(s', s'.acts[|s.acts|], c))
  {
  }

  lemma CallStands(s: State, a: Action, u: nat, c: nat)
    requires !a.Go? && u < |s.acts| && FrameShape(s, s.acts[u])
    ensures u < |Next(s, a).acts| && Stands(Next(s, a), Next(s, a).acts[u], c) == Stands(s, s.acts[u], c)
  {
  }

  /**
   With one-step commits the counter of a waiting task is, at every step, the number of its dependencies not
   recorded COMPLETED, and one more for each activation that has recorded a completion and is about to count it.
   */
  lemma CounterIsUnrecorded(acts: seq<Action>, c: nat)
    requires CommitsAlone(acts) && c < |Run(acts).tasks|
    requires Run(acts).tasks[c].inited && Run(acts).tasks[c].status == DEPHOLD
    ensures var s := Run(acts);
      s.tasks[c].counter == Unrecorded(s.tasks[c].deps) + Standing(s, |s.acts|, c)
  {
    RunLevel(acts, c);
  }

  lemma {:induction false} RunLevel(acts: seq<Action>, c: nat)
    requires CommitsAlone(acts) && c < |Run(acts).tasks|
    ensures Level(Run(acts), c)
  {
    if acts != [] {
      var rest, a := acts[..|acts| - 1], acts[|acts| - 1];
      var s := Run(rest);
      assert EndsAlone(acts);
      RunAlone(rest);
      RunCount(rest);
      if c < |s.tasks| { RunLevel(rest, c); }
      if !a.Go? {
        CallLevel(s, a, c);
      } else if FrameFits(s, a.k) {
        StepTaskCount(s, a.k);
        if s.acts[a.k].Notify? { NotifyLevel(s, a.k, c); }
        else if s.acts[a.k].Commit? { CommitLevel(s, a.k, c); }
        else { RestLevel(s, a.k, c); }
      }
    }
  }
}
