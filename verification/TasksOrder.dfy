/**
 What the protocol guarantees about the order in which tasks run, for every run.
 */
module TasksOrder {
  import opened Tasks
  import opened TasksOwn
  import opened TasksCount
  import opened TasksLog

  // ---------------------------------------------------------------------------------------------
  // Statuses rise and handlers run at most once
  // ---------------------------------------------------------------------------------------------

  /** Every change raises the status along a legal transition, and later changes start where earlier ones ended. */
  lemma StatusesRise(acts: seq<Action>, i: nat, j: nat)
    requires i < j < |Run(acts).log| && Run(acts).log[i].t == Run(acts).log[j].t
    ensures var log := Run(acts).log;
      && log[i].was < log[i].now <= log[j].was < log[j].now
      && log[i].now != COMPLETED && log[i].now != ABORTED && log[i].now != FAILED
  {
    RunLog(acts);
    assert EntryInv(Run(acts), i) && EntryInv(Run(acts), j);
  }

  /** However often a task is queued, its handler is called at most once, and only by the one who made it RUNNING. */
  lemma HandlerAtMostOnce(acts: seq<Action>, t: nat)
    requires t < |Run(acts).tasks|
    ensures var task := Run(acts).tasks[t];
      && task.ran <= 1
      && (task.ran == 1 ==> task.status in {RUNNING, FINAL, COMPLETED, FAILED})
  {
    RunOwn(acts);
    var s := Run(acts);
    assert TaskOwn(s.tasks[t]) && TaskShape(s, t);
  }

  /** At most one activation at a time drives a task from RUNNING on. */
  lemma OneDriver(acts: seq<Action>, k: nat, u: nat)
    requires k < |Run(acts).acts| && u < |Run(acts).acts|
    requires var s := Run(acts); StageOf(s.acts[k], s.requeued) != 0 && StageOf(s.acts[u], s.requeued) != 0
    requires Run(acts).acts[k].p == Run(acts).acts[u].p
    ensures k == u
  {
    RunOwn(acts);
    assert FrameOwn(Run(acts), k) && FrameOwn(Run(acts), u);
  }

  // ---------------------------------------------------------------------------------------------
  // The countdown
  // ---------------------------------------------------------------------------------------------

  /**
   The counter of a committed task is the number of its dependencies minus the decrements made, at
   most one by a notification pass and one by the scan for each; a decrement is made only for a
   completed parent, and READY was returned exactly when the counter passed zero.
   */
  lemma CountdownExact(acts: seq<Action>, c: nat)
    requires c < |Run(acts).tasks| && Run(acts).tasks[c].inited
    ensures var s := Run(acts); var t := s.tasks[c];
      && t.counter == |t.deps| - Decs(t.deps)
      && (t.deps != [] ==> t.zeroes == if t.counter <= 0 then 1 else 0)
      && forall j :: 0 <= j < |t.deps| ==>
           && t.deps[j].parent < |s.tasks|
           && (t.deps[j].decN || t.deps[j].decS ==> s.tasks[t.deps[j].parent].status == COMPLETED)
           && (t.deps[j].decN && t.deps[j].decS ==> t.deps[j].twice)
  {
    RunCount(acts);
    var s := Run(acts);
    assert TaskCount(s, c);
    CountedEdges(s, c);
  }

  lemma CountedEdges(s: State, c: nat)
    requires c < |s.tasks| && forall j :: 0 <= j < |s.tasks[c].deps| ==> EdgeInv(s, c, j)
    ensures forall j :: 0 <= j < |s.tasks[c].deps| ==>
      var e := s.tasks[c].deps[j];
      && e.parent < |s.tasks|
      && (e.decN || e.decS ==> s.tasks[e.parent].status == COMPLETED)
      && (e.decN && e.decS ==> e.twice)
  {
    forall j | 0 <= j < |s.tasks[c].deps|
      ensures var e := s.tasks[c].deps[j];
        && e.parent < |s.tasks|
        && (e.decN || e.decS ==> s.tasks[e.parent].status == COMPLETED)
        && (e.decN && e.decS ==> e.twice)
    {
      assert EdgeInv(s, c, j);
    }
  }

  /**
   When the counter reaches zero, every dependency has been counted if and only if none has been
   counted twice: a task becomes READY too early exactly when the scan and a pass both counted one
   completion.
   */
  lemma ZeroIffNoneTwice(acts: seq<Action>, c: nat)
    requires c < |Run(acts).tasks| && Run(acts).tasks[c].inited && Run(acts).tasks[c].counter == 0
    ensures var deps := Run(acts).tasks[c].deps;
      (forall j :: 0 <= j < |deps| ==> deps[j].decN || deps[j].decS)
        <==> (forall j :: 0 <= j < |deps| ==> !(deps[j].decN && deps[j].decS))
  {
    CountdownExact(acts, c);
    var deps := Run(acts).tasks[c].deps;
    if forall j :: 0 <= j < |deps| ==> !(deps[j].decN && deps[j].decS) {
      SpentCounter(deps);
    } else if forall j :: 0 <= j < |deps| ==> deps[j].decN || deps[j].decS {
      AllCounted(deps);
      assert false;
    }
  }

  lemma {:induction false} AllCounted(deps: seq<Edge>)
    requires forall j :: 0 <= j < |deps| ==> deps[j].decN || deps[j].decS
    ensures Decs(deps) >= |deps|
    ensures (exists j :: 0 <= j < |deps| && deps[j].decN && deps[j].decS) ==> Decs(deps) > |deps|
  {
    if deps != [] {
      var last := |deps| - 1;
      AllCounted(deps[..last]);
      if j :| 0 <= j < |deps| && deps[j].decN && deps[j].decS {
        if j < last { assert deps[..last][j].decN && deps[..last][j].decS; }
      }
    }
  }

  /**
   The guard behind a double count: the scan marks a record as counted twice exactly when its
   compare-and-swap writes COMPLETED over COMPLETED, and then a notification pass of the parent got
   to the record after commit put it on the parent's list.
   */
  lemma RecountGuard(acts: seq<Action>, k: nat, p: nat, i: nat, ps: int, ds: int)
    requires k < |Run(acts).acts| && Run(acts).acts[k] == Commit(p, i, Swap(ps, ds))
    requires p < |Run(acts).tasks| && i < |Run(acts).tasks[p].deps|
    ensures var s := Run(acts); var s' := Next(s, Go(k)); var e := s.tasks[p].deps[i];
      && |s'.tasks| == |s.tasks| && i < |s'.tasks[p].deps|
      && !e.twice
      && (s'.tasks[p].deps[i].twice <==> e.stat == ds && ds == COMPLETED && ps == COMPLETED)
      && (s'.tasks[p].deps[i].twice ==> e.wired && e.told)
  {
    RunCount(acts);
    var s := Run(acts);
    ShapeFits(s, k);
    assert FrameShape(s, s.acts[k]) && FrameCount(s, s.acts[k]) && TaskCount(s, p) && EdgeInv(s, p, i);
  }

  // ---------------------------------------------------------------------------------------------
  // Whole-graph ordering
  // ---------------------------------------------------------------------------------------------

  /** No completion of a parent of `t` has been counted by both sides. */
  ghost predicate CountedOnce(s: State, t: nat) {
    t < |s.tasks| ==> !DoubleCounted(s.tasks[t])
  }

  ghost predicate DependsOn(s: State, c: nat, p: nat) {
    c < |s.tasks| && exists j :: 0 <= j < |s.tasks[c].deps| && s.tasks[c].deps[j].parent == p
  }

  /** Each task on the path depends on the next one. */
  ghost predicate IsPath(s: State, path: seq<nat>) {
    forall i :: 0 <= i < |path| - 1 ==> DependsOn(s, path[i], path[i + 1])
  }

  /** A task past READY without a double count of its own has completed parents. */
  lemma ReadyMeansParentsDone(acts: seq<Action>, c: nat, p: nat)
    requires c < |Run(acts).tasks| && Mainline(Run(acts).tasks[c].status)
    requires CountedOnce(Run(acts), c) && DependsOn(Run(acts), c, p)
    ensures p < |Run(acts).tasks| && Run(acts).tasks[p].status == COMPLETED
  {
    RunCount(acts);
    var s := Run(acts);
    assert TaskOwn(s.tasks[c]) && TaskCount(s, c);
    SpentMeansComplete(s, c);
  }

  /**
   When a task's handler has been called, every ancestor along dependencies, through barriers or not,
   is COMPLETED, if no task on the way there was double-counted.
   */
  lemma AncestorsComplete(acts: seq<Action>, path: seq<nat>)
    requires path != [] && path[0] < |Run(acts).tasks| && Run(acts).tasks[path[0]].ran > 0
    requires IsPath(Run(acts), path) && forall i :: 0 <= i < |path| - 1 ==> CountedOnce(Run(acts), path[i])
    ensures forall i :: 0 < i < |path| ==> path[i] < |Run(acts).tasks| && Run(acts).tasks[path[i]].status == COMPLETED
  {
    RunOwn(acts);
    var s := Run(acts);
    assert TaskOwn(s.tasks[path[0]]) && TaskShape(s, path[0]);
    MainlineAncestors(acts, path);
  }

  lemma {:induction false} MainlineAncestors(acts: seq<Action>, path: seq<nat>)
    requires path != [] && path[0] < |Run(acts).tasks| && Mainline(Run(acts).tasks[path[0]].status)
    requires IsPath(Run(acts), path) && forall i :: 0 <= i < |path| - 1 ==> CountedOnce(Run(acts), path[i])
    ensures forall i :: 0 < i < |path| ==> path[i] < |Run(acts).tasks| && Run(acts).tasks[path[i]].status == COMPLETED
  {
    if |path| > 1 {
      assert CountedOnce(Run(acts), path[0]) && DependsOn(Run(acts), path[0], path[0 + 1]);
      ReadyMeansParentsDone(acts, path[0], path[1]);
      var rest := path[1..];
      forall i | 0 <= i < |rest| - 1
        ensures DependsOn(Run(acts), rest[i], rest[i + 1]) && CountedOnce(Run(acts), rest[i])
      {
        var m := i + 1;
        assert DependsOn(Run(acts), path[m], path[m + 1]) && CountedOnce(Run(acts), path[m]);
      }
      MainlineAncestors(acts, rest);
      forall i | 0 < i < |path| ensures path[i] < |Run(acts).tasks| && Run(acts).tasks[path[i]].status == COMPLETED {
        assert path[i] == rest[i - 1];
      }
    }
  }

  /** A task below one that did not complete, for instance one that FAILED, never runs. */
  lemma BelowUnfinished(acts: seq<Action>, path: seq<nat>, i: nat)
    requires 0 < i < |path| && path[0] < |Run(acts).tasks|
    requires IsPath(Run(acts), path) && forall m :: 0 <= m < i ==> CountedOnce(Run(acts), path[m])
    requires path[i] < |Run(acts).tasks| ==> Run(acts).tasks[path[i]].status != COMPLETED
    ensures Run(acts).tasks[path[0]].ran == 0
  {
    if Run(acts).tasks[path[0]].ran > 0 {
      var front := path[..i + 1];
      forall m | 0 <= m < |front| - 1 ensures DependsOn(Run(acts), front[m], front[m + 1]) {
        assert DependsOn(Run(acts), path[m], path[m + 1]);
      }
      assert front[i] == path[i];
      AncestorsComplete(acts, front);
    }
  }

  /** Every member of the set has a parent in the set; a dependency cycle is such a set. */
  ghost predicate Circular(s: State, cycle: set<nat>) {
    forall t {:trigger ParentIn(s, cycle, t)} :: t in cycle ==> t < |s.tasks| && ParentIn(s, cycle, t)
  }

  ghost predicate ParentIn(s: State, cycle: set<nat>, t: nat) {
    exists p :: p in cycle && DependsOn(s, t, p)
  }

  /** Before a task became READY without a double count, each of its parents became READY. */
  lemma ParentReadyEarlier(s: State, i: nat, p: nat) returns (n: nat)
    requires i < |s.log| && forall m :: 0 <= m < |s.log| ==> EntryInv(s, m)
    requires s.log[i].now == READY && s.log[i].t < |s.tasks| && CountedOnce(s, s.log[i].t)
    requires DependsOn(s, s.log[i].t, p)
    ensures n < i && s.log[n].t == p && s.log[n].now == READY
  {
    var c := s.log[i].t;
    var j :| 0 <= j < |s.tasks[c].deps| && s.tasks[c].deps[j].parent == p;
    assert EntryInv(s, i);
    assert Reached(s.log, i, s.tasks[c].deps[j].parent, COMPLETED);
    var m: nat :| m < i && m < |s.log| && s.log[m].t == p && s.log[m].now == COMPLETED;
    assert EntryInv(s, m);
    n :| n < m && n < |s.log| && s.log[n].t == p && s.log[n].now == READY;
  }

  /** No member of a circular set ever becomes READY: the first one would need another before it. */
  lemma {:induction false} CycleNeverReady(s: State, cycle: set<nat>, i: nat)
    requires forall m :: 0 <= m < |s.log| ==> EntryInv(s, m)
    requires Circular(s, cycle) && (forall t :: t in cycle ==> CountedOnce(s, t)) && i < |s.log| && s.log[i].t in cycle
    ensures s.log[i].now != READY
    decreases i
  {
    if s.log[i].now == READY {
      var c := s.log[i].t;
      assert ParentIn(s, cycle, c);
      var p :| p in cycle && DependsOn(s, c, p);
      var n := ParentReadyEarlier(s, i, p);
      CycleNeverReady(s, cycle, n);
    }
  }

  lemma CycleMember(s: State, cycle: set<nat>, t: nat)
    requires Log(s) && Circular(s, cycle) && (forall m :: m in cycle ==> CountedOnce(s, m)) && t in cycle
    ensures t < |s.tasks| && !Mainline(s.tasks[t].status)
  {
    assert t < |s.tasks| by {
      if !ParentIn(s, cycle, t) {}
    }
    if Mainline(s.tasks[t].status) {
      assert Reached(s.log, |s.log|, t, READY);
      var n: nat :| n < |s.log| && s.log[n].t == t && s.log[n].now == READY;
      CycleNeverReady(s, cycle, n);
    }
  }

  /**
   A task on a dependency cycle, or below one, never runs, if nobody on the way there or on the cycle was
   double-counted.
   */
  lemma OnOrBelowCycle(acts: seq<Action>, cycle: set<nat>, path: seq<nat>)
    requires Circular(Run(acts), cycle) && forall t :: t in cycle ==> CountedOnce(Run(acts), t)
    requires IsPath(Run(acts), path) && forall i :: 0 <= i < |path| - 1 ==> CountedOnce(Run(acts), path[i])
    requires path != [] && path[0] < |Run(acts).tasks| && path[|path| - 1] in cycle
    ensures Run(acts).tasks[path[0]].ran == 0
  {
    RunLog(acts);
    CycleMember(Run(acts), cycle, path[|path| - 1]);
    HandlerAtMostOnce(acts, path[0]);
    if Run(acts).tasks[path[0]].ran > 0 { AncestorsComplete(acts, path); }
  }
}
