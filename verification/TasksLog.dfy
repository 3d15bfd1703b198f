/**
 The order of status changes over a whole run: statuses rise, a handler is called at most once, and a
 task becomes READY only after all its parents have completed unless a completion was counted twice.
 */
module TasksLog {
  import opened Tasks
  import opened TasksOwn
  import opened TasksCount

  /** Among the first `n` changes there is one that took task `t` to status `st`. */
  ghost predicate Reached(log: seq<Change>, n: nat, t: nat, st: int) {
    exists i :: 0 <= i < n && i < |log| && log[i].t == t && log[i].now == st
  }

  /** For some dependency of the task both a notification pass and the scan have decremented the counter. */
  ghost predicate DoubleCounted(t: Task) {
    exists j :: 0 <= j < |t.deps| && t.deps[j].decN && t.deps[j].decS
  }

  ghost predicate ParentsBefore(s: State, c: nat, n: nat)
    requires c < |s.tasks|
  {
    forall j :: 0 <= j < |s.tasks[c].deps| ==> Reached(s.log, n, s.tasks[c].deps[j].parent, COMPLETED)
  }

  ghost predicate EntryInv(s: State, i: nat)
    requires i < |s.log|
  {
    var e := s.log[i];
    && e.t < |s.tasks|
    && Legal(e.was, e.now, s.tasks[e.t].barrier)
    && e.now <= s.tasks[e.t].status
    && (Mainline(e.now) && e.now != READY ==> Reached(s.log, i, e.t, READY))
    && (e.now == READY ==> DoubleCounted(s.tasks[e.t]) || ParentsBefore(s, e.t, i))
  }

  ghost predicate Log(s: State) {
    && (forall i :: 0 <= i < |s.log| ==> EntryInv(s, i))
    && (forall i, j :: 0 <= i < j < |s.log| && s.log[i].t == s.log[j].t ==> s.log[i].now <= s.log[j].was)
    && (forall t :: 0 <= t < |s.tasks| ==>
          && (s.tasks[t].status != IDLE ==> Reached(s.log, |s.log|, t, s.tasks[t].status))
          && (Mainline(s.tasks[t].status) ==> Reached(s.log, |s.log|, t, READY)))
  }

  // ---------------------------------------------------------------------------------------------
  // The log is kept in order
  // ---------------------------------------------------------------------------------------------

  lemma ReachedGrows(log: seq<Change>, log': seq<Change>, n: nat, n': nat, t: nat, st: int)
    requires log <= log' && n <= n' && Reached(log, n, t, st)
    ensures Reached(log', n', t, st)
  {
    var i :| 0 <= i < n && i < |log| && log[i].t == t && log[i].now == st;
    assert log'[i] == log[i];
  }

  predicate EdgeLater(e: Edge, e': Edge) {
    e'.parent == e.parent && (e.decN ==> e'.decN) && (e.decS ==> e'.decS)
  }

  /** What the log looks at only grows; dependencies of a committed task are fixed. */
  predicate TaskLater(t: Task, t': Task) {
    && t'.barrier == t.barrier
    && (t.status != IDLE ==> |t'.deps| == |t.deps|)
    && |t.deps| <= |t'.deps|
    && forall j :: 0 <= j < |t.deps| ==> EdgeLater(t.deps[j], t'.deps[j])
  }

  ghost predicate Later(s: State, s': State) {
    |s.tasks| <= |s'.tasks| && forall t :: 0 <= t < |s.tasks| ==> TaskLater(s.tasks[t], s'.tasks[t])
  }

  lemma SetTaskLater(s: State, p: nat, t: Task)
    requires p < |s.tasks| && TaskLater(s.tasks[p], t)
    ensures Later(s, SetTask(s, p, t))
  {
  }

  lemma StepLater(s: State, k: nat)
    requires FrameFits(s, k)
    ensures Later(s, Step(s, k))
  {
    if s.acts[k].Notify? {
      NotifyLater(s, k, s.acts[k].p, s.acts[k].i);
    } else if s.acts[k].Commit? {
      if s.acts[k].stage.Swap? {
        SwapLater(s, k, s.acts[k].p, s.acts[k].i);
      } else {
        CommitLater(s, k);
      }
    } else {
      OtherLater(s, k);
    }
  }

  lemma NotifyLater(s: State, k: nat, p: nat, i: nat)
    requires FrameFits(s, k) && s.acts[k].Notify? && p == s.acts[k].p && i == s.acts[k].i
    ensures Later(s, Step(s, k))
  {
    if i < |s.tasks[p].childs| && s.acts[k].at.Cas? {
      CasLater(s, k, p, s.acts[k].now, i, s.acts[k].at);
    } else if i < |s.tasks[p].childs| && s.acts[k].at.Dec? {
      DecLater(s, k, p, s.acts[k].now, i);
    } else {
      assert Step(s, k).tasks == s.tasks;
    }
  }

  lemma CasLater(s: State, k: nat, p: nat, now: int, i: nat, at: Visit)
    requires k < |s.acts| && Fits(s, Notify(p, now, i, at)) && at.Cas? && i < |s.tasks[p].childs|
    ensures Later(s, NotifyStep(s, k, p, now, i, at))
  {
    var r := s.tasks[p].childs[i];
    SetTaskLater(s, r.c, NotifyStep(s, k, p, now, i, at).tasks[r.c]);
  }

  lemma DecLater(s: State, k: nat, p: nat, now: int, i: nat)
    requires k < |s.acts| && Fits(s, Notify(p, now, i, Dec)) && i < |s.tasks[p].childs|
    ensures Later(s, NotifyStep(s, k, p, now, i, Dec))
  {
    var r := s.tasks[p].childs[i];
    SetTaskLater(s, r.c, Decrement(s, r, false, |s.acts|).tasks[r.c]);
  }

  /** A swap leaves the tasks alone or replaces the record it is at. */
  lemma SwapReplaces(s: State, k: nat, p: nat, i: nat) returns (e': Edge)
    requires FrameFits(s, k) && s.acts[k].Commit? && s.acts[k].stage.Swap? && p == s.acts[k].p && i == s.acts[k].i
    requires i < |s.tasks[p].deps|
    ensures Step(s, k).tasks == s.tasks[p := s.tasks[p].(deps := s.tasks[p].deps[i := e'])]
    ensures EdgeLater(s.tasks[p].deps[i], e') && e'.told == s.tasks[p].deps[i].told
  {
    var e, ps, ds := s.tasks[p].deps[i], s.acts[k].stage.ps, s.acts[k].stage.ds;
    e' := if e.stat != ds then e
          else if ps != COMPLETED then e.(stat := ps)
          else e.(stat := ps, scanned := true, twice := ds == COMPLETED);
    if e' == e {
      assert s.tasks[p].deps[i := e] == s.tasks[p].deps;
      assert s.tasks[p := s.tasks[p]] == s.tasks;
    }
  }

  lemma SwapLater(s: State, k: nat, p: nat, i: nat)
    requires FrameFits(s, k) && s.acts[k].Commit? && s.acts[k].stage.Swap? && p == s.acts[k].p && i == s.acts[k].i
    requires i < |s.tasks[p].deps|
    ensures Later(s, Step(s, k))
  {
    var e' := SwapReplaces(s, k, p, i);
    SetTaskLater(s, p, s.tasks[p].(deps := s.tasks[p].deps[i := e']));
  }

  lemma CommitLater(s: State, k: nat)
    requires FrameFits(s, k) && s.acts[k].Commit? && !s.acts[k].stage.Swap?
    ensures Later(s, Step(s, k))
  {
    StepTaskCount(s, k);
    forall t | 0 <= t < |s.tasks| ensures TaskLater(s.tasks[t], Step(s, k).tasks[t]) {
      CommitTouches(s, k, t);
      CommitMarks(s, k, t);
    }
  }

  lemma CommitMarks(s: State, k: nat, t: nat)
    requires FrameFits(s, k) && s.acts[k].Commit? && !s.acts[k].stage.Swap? && t < |s.tasks|
    ensures |Step(s, k).tasks| == |s.tasks| && |Step(s, k).tasks[t].deps| == |s.tasks[t].deps|
    ensures forall j :: 0 <= j < |s.tasks[t].deps| ==> SameMarks(s.tasks[t].deps[j], Step(s, k).tasks[t].deps[j])
  {
    CommitTouches(s, k, t);
    forall j | 0 <= j < |s.tasks[t].deps| ensures SameMarks(s.tasks[t].deps[j], Step(s, k).tasks[t].deps[j]) {
      CommitMark(s, k, t, j);
    }
  }

  predicate SameMarks(e: Edge, e': Edge) {
    EdgeLater(e, e') && e'.twice == e.twice && e'.told == e.told && e'.stat == e.stat
  }

  lemma CommitMark(s: State, k: nat, t: nat, j: nat)
    requires FrameFits(s, k) && s.acts[k].Commit? && !s.acts[k].stage.Swap? && t < |s.tasks| && j < |s.tasks[t].deps|
    ensures |Step(s, k).tasks| == |s.tasks| && |Step(s, k).tasks[t].deps| == |s.tasks[t].deps|
    ensures SameMarks(s.tasks[t].deps[j], Step(s, k).tasks[t].deps[j])
  {
    if s.acts[k].stage.Wire? { WireMark(s, k, t, j); } else { PlainMark(s, k, t, j); }
  }

  lemma WireMark(s: State, k: nat, t: nat, j: nat)
    requires FrameFits(s, k) && s.acts[k].Commit? && s.acts[k].stage.Wire? && t < |s.tasks| && j < |s.tasks[t].deps|
    ensures |Step(s, k).tasks| == |s.tasks| && |Step(s, k).tasks[t].deps| == |s.tasks[t].deps|
    ensures SameMarks(s.tasks[t].deps[j], Step(s, k).tasks[t].deps[j])
  {
  }

  lemma PlainMark(s: State, k: nat, t: nat, j: nat)
    requires FrameFits(s, k) && s.acts[k].Commit? && !s.acts[k].stage.Swap? && !s.acts[k].stage.Wire?
    requires t < |s.tasks| && j < |s.tasks[t].deps|
    ensures |Step(s, k).tasks| == |s.tasks| && |Step(s, k).tasks[t].deps| == |s.tasks[t].deps|
    ensures SameMarks(s.tasks[t].deps[j], Step(s, k).tasks[t].deps[j])
  {
  }

  lemma OtherLater(s: State, k: nat)
    requires FrameFits(s, k) && !s.acts[k].Notify? && !s.acts[k].Commit?
    ensures Later(s, Step(s, k))
  {
    StepTaskCount(s, k);
    forall t | 0 <= t < |s.tasks| ensures TaskLater(s.tasks[t], Step(s, k).tasks[t]) {
      OtherTouches(s, k, t);
    }
  }

  lemma EntryLater(s: State, s': State, i: nat)
    requires i < |s.log| && s.log <= s'.log && Later(s, s') && EntryInv(s, i)
    requires s.tasks[s.log[i].t].status <= s'.tasks[s.log[i].t].status
    requires s.tasks[s.log[i].t].status != IDLE
    ensures EntryInv(s', i)
  {
    var e := s.log[i];
    assert s'.log[i] == e;
    assert TaskLater(s.tasks[e.t], s'.tasks[e.t]);
    if Mainline(e.now) && e.now != READY { ReachedGrows(s.log, s'.log, i, i, e.t, READY); }
    if e.now == READY {
      if DoubleCounted(s.tasks[e.t]) {
        var j :| 0 <= j < |s.tasks[e.t].deps| && s.tasks[e.t].deps[j].decN && s.tasks[e.t].deps[j].decS;
        assert EdgeLater(s.tasks[e.t].deps[j], s'.tasks[e.t].deps[j]);
      } else {
        forall j | 0 <= j < |s'.tasks[e.t].deps| ensures Reached(s'.log, i, s'.tasks[e.t].deps[j].parent, COMPLETED) {
          ReachedGrows(s.log, s'.log, i, i, s.tasks[e.t].deps[j].parent, COMPLETED);
        }
      }
    }
  }

  /** A task whose counter is spent has had every completion counted, or one of them twice. */
  lemma {:induction false} SpentCounter(deps: seq<Edge>)
    requires Decs(deps) >= |deps| && forall j :: 0 <= j < |deps| ==> !(deps[j].decN && deps[j].decS)
    ensures Decs(deps) == |deps| && forall j :: 0 <= j < |deps| ==> deps[j].decN || deps[j].decS
  {
    if deps != [] {
      var front := deps[..|deps| - 1];
      DecsAtMost(front);
      SpentCounter(front);
    }
  }

  lemma {:induction false} DecsAtMost(deps: seq<Edge>)
    requires forall j :: 0 <= j < |deps| ==> !(deps[j].decN && deps[j].decS)
    ensures Decs(deps) <= |deps|
  {
    if deps != [] { DecsAtMost(deps[..|deps| - 1]); }
  }

  /** A spent counter means completed parents, unless some completion was counted twice. */
  lemma SpentMeansComplete(s: State, c: nat)
    requires c < |s.tasks| && TaskCount(s, c) && s.tasks[c].inited && s.tasks[c].counter <= 0
    requires !DoubleCounted(s.tasks[c])
    ensures forall j :: 0 <= j < |s.tasks[c].deps| ==>
      s.tasks[c].deps[j].parent < |s.tasks| && s.tasks[s.tasks[c].deps[j].parent].status == COMPLETED
    ensures s.tasks[c].counter == 0
  {
    var deps := s.tasks[c].deps;
    SpentCounter(deps);
    forall j | 0 <= j < |deps| ensures deps[j].parent < |s.tasks| && s.tasks[deps[j].parent].status == COMPLETED {
      assert EdgeInv(s, c, j);
    }
  }

  lemma AdvanceKeepsLog(s: State, k: nat, p: nat, was: int, now: int)
    requires Shape(s) && Own(s) && Count(s) && Log(s) && k < |s.acts|
    requires s.acts[k] == Update(p, was, now) && p < |s.tasks| && s.tasks[p].status == was
    ensures Log(Step(s, k))
  {
    assert FrameShape(s, s.acts[k]) && FrameOwn(s, k) && TaskCount(s, p);
    StepLater(s, k);
    AdvanceLogs(s, k, p, was, now);
    LogAfter(s, Step(s, k), p, was, now);
  }

  /** Task `p` changed its status from `was` to `now`, and the log says so. */
  ghost predicate Logs(s: State, s': State, p: nat, was: int, now: int) {
    && p < |s.tasks| == |s'.tasks| && s.tasks[p].status == was && s'.tasks[p].status == now
    && s'.tasks[p].deps == s.tasks[p].deps && s'.tasks[p].barrier == s.tasks[p].barrier
    && (forall t :: 0 <= t < |s.tasks| && t != p ==> s'.tasks[t] == s.tasks[t])
    && s'.log == s.log + [Change(p, was, now)]
  }

  lemma AdvanceLogs(s: State, k: nat, p: nat, was: int, now: int)
    requires k < |s.acts| && p < |s.tasks| && s.tasks[p].status == was
    ensures Logs(s, UpdateStep(s, k, p, was, now), p, was, now)
  {
  }

  lemma LogAfter(s: State, s': State, p: nat, was: int, now: int)
    requires Log(s) && Later(s, s') && Logs(s, s', p, was, now) && TaskCount(s, p)
      && Legal(was, now, s.tasks[p].barrier)
    requires now == READY ==> s.tasks[p].inited && s.tasks[p].counter <= 0
    ensures Log(s')
  {
    var n := |s.log|;
    forall i | 0 <= i < n ensures EntryInv(s', i) {
      assert EntryInv(s, i);
      EntryLater(s, s', i);
    }
    NewEntry(s, s', p, was, now);
    forall t | 0 <= t < |s'.tasks|
      ensures s'.tasks[t].status != IDLE ==> Reached(s'.log, |s'.log|, t, s'.tasks[t].status)
      ensures Mainline(s'.tasks[t].status) ==> Reached(s'.log, |s'.log|, t, READY)
    {
      LaterReached(s, s', p, was, now, t);
    }
    forall i, j | 0 <= i < j < |s'.log| && s'.log[i].t == s'.log[j].t ensures s'.log[i].now <= s'.log[j].was {
      if j == n { assert EntryInv(s, i); }
    }
  }

  lemma LaterReached(s: State, s': State, p: nat, was: int, now: int, t: nat)
    requires Log(s) && t < |s.tasks| && Logs(s, s', p, was, now) && Legal(was, now, s.tasks[p].barrier)
    ensures s'.tasks[t].status != IDLE ==> Reached(s'.log, |s'.log|, t, s'.tasks[t].status)
    ensures Mainline(s'.tasks[t].status) ==> Reached(s'.log, |s'.log|, t, READY)
  {
    var n := |s.log|;
    if t == p {
      assert s'.log[n].t == p && s'.log[n].now == now;
      if Mainline(now) && now != READY { ReachedGrows(s.log, s'.log, n, n + 1, p, READY); }
    } else {
      if s.tasks[t].status != IDLE { ReachedGrows(s.log, s'.log, n, n + 1, t, s.tasks[t].status); }
      if Mainline(s.tasks[t].status) { ReachedGrows(s.log, s'.log, n, n + 1, t, READY); }
    }
  }

  lemma NewEntry(s: State, s': State, p: nat, was: int, now: int)
    requires Log(s) && Logs(s, s', p, was, now) && TaskCount(s, p) && Legal(was, now, s.tasks[p].barrier)
    requires now == READY ==> s.tasks[p].inited && s.tasks[p].counter <= 0
    ensures EntryInv(s', |s.log|)
  {
    var n := |s.log|;
    if Mainline(now) && now != READY { ReachedGrows(s.log, s'.log, n, n, p, READY); }
    if now == READY && !DoubleCounted(s.tasks[p]) {
      SpentMeansComplete(s, p);
      forall j | 0 <= j < |s'.tasks[p].deps| ensures Reached(s'.log, n, s'.tasks[p].deps[j].parent, COMPLETED) {
        ReachedGrows(s.log, s'.log, n, n, s.tasks[p].deps[j].parent, COMPLETED);
      }
    }
  }

  lemma QuietKeepsLog(s: State, s': State)
    requires Log(s) && Later(s, s') && s'.log == s.log
    requires forall t :: 0 <= t < |s.tasks| ==> s'.tasks[t].status == s.tasks[t].status
    requires forall t :: |s.tasks| <= t < |s'.tasks| ==> s'.tasks[t].status == IDLE
    ensures Log(s')
  {
    forall i | 0 <= i < |s.log| ensures EntryInv(s', i) {
      assert EntryInv(s, i);
      EntryLater(s, s', i);
    }
  }

  lemma StepStatuses(s: State, k: nat)
    requires FrameFits(s, k)
    requires s.acts[k].Update? ==> s.tasks[s.acts[k].p].status != s.acts[k].was
    ensures var s' := Step(s, k);
      |s'.tasks| == |s.tasks| && s'.log == s.log && forall t :: 0 <= t < |s.tasks| ==>
        s'.tasks[t].status == s.tasks[t].status
  {
    StepTaskCount(s, k);
    SameLog(s, k);
    forall t | 0 <= t < |s.tasks| ensures Step(s, k).tasks[t].status == s.tasks[t].status {
      if s.acts[k].Notify? { NotifyTouches(s, k, t); }
      else if s.acts[k].Commit? { CommitTouches(s, k, t); }
      else { OtherTouches(s, k, t); }
    }
  }

  lemma SameLog(s: State, k: nat)
    requires FrameFits(s, k)
    requires s.acts[k].Update? ==> s.tasks[s.acts[k].p].status != s.acts[k].was
    ensures Step(s, k).log == s.log
  {
  }

  lemma NextKeepsLog(s: State, a: Action)
    requires Shape(s) && Own(s) && Count(s) && Log(s)
    ensures Log(Next(s, a))
  {
    if a.Go? && FrameFits(s, a.k) {
      if s.acts[a.k].Update? && s.tasks[s.acts[a.k].p].status == s.acts[a.k].was {
        AdvanceKeepsLog(s, a.k, s.acts[a.k].p, s.acts[a.k].was, s.acts[a.k].now);
      } else {
        StepLater(s, a.k);
        StepStatuses(s, a.k);
        QuietKeepsLog(s, Step(s, a.k));
      }
    } else {
      QuietKeepsLog(s, Next(s, a));
    }
  }

  lemma {:induction false} RunLog(acts: seq<Action>)
    ensures Log(Run(acts))
  {
    if acts != [] {
      RunLog(acts[..|acts| - 1]);
      RunCount(acts[..|acts| - 1]);
      NextKeepsLog(Run(acts[..|acts| - 1]), acts[|acts| - 1]);
    }
  }
}
