/**
 The life of dependency records, src/driver/native/twnative_task_int.c:15-88 and
 src/driver/native/twnative_task.c:168-180 and 326-358. Freeing a task first clears, record by record, the
 pointers that name it; when the disposer later reclaims the task, it drops one reference per record and
 frees the record at zero. All tasks do this at the same time, one record per step.

 Callers use a task only before they free it and free it once; the disposer reclaims a task only when
 nobody uses it any more.
 */
module EdgeRefs {
  import opened Common

  /**
   `parent`, `child` and `reference` are the fields of the record; `freed` counts the calls that freed it. The rest
   is history: the tasks it was made for, whether commit put it on the parent's list, and where it is on both lists.
   */
  datatype Record = Record(
    parent: Option<nat>,
    child: Option<nat>,
    reference: int,
    freed: nat,
    p: nat,
    c: nat,
    wired: bool,
    posP: nat,
    posC: nat)

  datatype Phase =
    | Live
    | ClearChilds(i: nat)
    | ClearParents(i: nat)
    | Waiting
    | DropChilds(i: nat)
    | DropParents(i: nat)
    | Gone

  /** `wiring` is how many records commit has wired, if it has begun. */
  datatype Task = Task(parents: seq<nat>, childs: seq<nat>, wiring: Option<nat>, phase: Phase)

  /**
   `touched` records whether a freed record was ever accessed; `early` whether a task was freed while another
   task in use depended on it and that dependency had not been wired.
   */
  datatype State = State(tasks: seq<Task>, records: seq<Record>, touched: bool, early: bool)

  datatype Action =
    | Create
    | AddDep(t: nat, p: nat)
    | Commit(t: nat)
    | Visit(t: nat, up: bool, i: nat)
    | Free(t: nat)
    | Reclaim(t: nat)
    | Go(t: nat)

  const EMPTY := State([], [], false, false)

  function SetTask(s: State, t: nat, x: Task): State
    requires t < |s.tasks|
  {
    s.(tasks := s.tasks[t := x])
  }

  /** An access to record `k`. */
  function Touch(s: State, k: nat): State {
    if k < |s.records| && s.records[k].freed > 0 then s.(touched := true) else s
  }

  function SetRecord(s: State, k: nat, r: Record): State {
    if k < |s.records| then Touch(s, k).(records := s.records[k := r]) else s
  }

  /** The decrement of `ref` and, at zero, the free. */
  function Release(s: State, k: nat): State {
    if k >= |s.records| then s
    else
      var r := s.records[k];
      SetRecord(s, k, r.(reference := r.reference - 1, freed := if r.reference == 1 then r.freed + 1 else r.freed))
  }

  /** Another task that is still in use depends on `t`, and its commit has not wired that dependency yet. */
  predicate MustBeWired(s: State, t: nat) {
    exists k :: 0 <= k < |s.records| && Unwired(s, k, t)
  }

  predicate Unwired(s: State, k: nat, t: nat)
    requires k < |s.records|
  {
    var r := s.records[k];
    r.p == t && !r.wired && r.c != t && r.c < |s.tasks| && s.tasks[r.c].phase.Live?
  }

  function AddStep(s: State, t: nat, p: nat): State
    requires t < |s.tasks|
  {
    var r := Record(Some(p), Some(t), 2, 0, p, t, false, 0, |s.tasks[t].parents|);
    SetTask(s, t, s.tasks[t].(parents := s.tasks[t].parents + [|s.records|])).(records := s.records + [r])
  }

  function WireStep(s: State, t: nat): State
    requires t < |s.tasks| && s.tasks[t].wiring.Some?
  {
    var i := s.tasks[t].wiring.value;
    if i >= |s.tasks[t].parents| then s
    else
      var k := s.tasks[t].parents[i];
      var s1 := SetTask(s, t, s.tasks[t].(wiring := Some(i + 1)));
      if k >= |s.records| || s.records[k].parent.None? || s.records[k].parent.value >= |s.tasks| then s1
      else
        var p := s.records[k].parent.value;
        var s2 := SetRecord(s1, k, s.records[k].(wired := true, posP := |s1.tasks[p].childs|));
        SetTask(s2, p, s2.tasks[p].(childs := s2.tasks[p].childs + [k]))
  }

  function Step(s: State, t: nat): State
    requires t < |s.tasks|
  {
    var x := s.tasks[t];
    match x.phase
    case Live => if x.wiring.Some? then WireStep(s, t) else s
    case ClearChilds(i) =>
      if i >= |x.childs| then SetTask(s, t, x.(phase := ClearParents(0)))
      else
        var s1 := SetTask(s, t, x.(phase := ClearChilds(i + 1)));
        if x.childs[i] < |s.records| then SetRecord(s1, x.childs[i], s.records[x.childs[i]].(parent := None)) else s1
    case ClearParents(i) =>
      if i >= |x.parents| then SetTask(s, t, x.(phase := Waiting))
      else
        var s1 := SetTask(s, t, x.(phase := ClearParents(i + 1)));
        if x.parents[i] < |s.records| then SetRecord(s1, x.parents[i], s.records[x.parents[i]].(child := None)) else s1
    case DropChilds(i) =>
      if i >= |x.childs| then SetTask(s, t, x.(phase := DropParents(0)))
      else Release(SetTask(s, t, x.(phase := DropChilds(i + 1))), x.childs[i])
    case DropParents(i) =>
      if i >= |x.parents| then SetTask(s, t, x.(phase := Gone))
      else Release(SetTask(s, t, x.(phase := DropParents(i + 1))), x.parents[i])
    case _ => s
  }

  predicate Wiring(x: Task) { x.wiring.Some? && x.wiring.value < |x.parents| }

  /** Before it is reclaimed, a task's lists may still be walked by a thread that is using it. */
  predicate InUse(phase: Phase) { !phase.DropChilds? && !phase.DropParents? && !phase.Gone? }

  function Next(s: State, a: Action): State {
    if a.Create? then s.(tasks := s.tasks + [Task([], [], None, Live)])
    else if a.t >= |s.tasks| then s
    else
      var x := s.tasks[a.t];
      match a
      case AddDep(t, p) =>
        if p < |s.tasks| && x.phase.Live? && s.tasks[p].phase.Live? && x.wiring.None? then AddStep(s, t, p) else s
      case Commit(t) => if x.phase.Live? && x.wiring.None? then SetTask(s, t, x.(wiring := Some(0))) else s
      case Visit(t, up, i) =>
        var list := if up then x.parents else x.childs;
        if InUse(x.phase) && i < |list| then Touch(s, list[i]) else s
      case Free(t) =>
        if x.phase.Live? && !Wiring(x) then
          SetTask(s, t, x.(phase := ClearChilds(0))).(early := s.early || MustBeWired(s, t))
        else s
      case Reclaim(t) => if x.phase.Waiting? then SetTask(s, t, x.(phase := DropChilds(0))) else s
      case Go(t) => Step(s, t)
  }

  function Run(acts: seq<Action>): State {
    if acts == [] then EMPTY else Next(Run(acts[..|acts| - 1]), acts[|acts| - 1])
  }

  // ---------------------------------------------------------------------------------------------
  // How far each end has got
  // ---------------------------------------------------------------------------------------------

  /** The clearing of a task's children list has passed position `i`. */
  predicate ChildsCleared(phase: Phase, i: nat) {
    !phase.Live? && (phase.ClearChilds? ==> i < phase.i)
  }

  predicate ParentsCleared(phase: Phase, i: nat) {
    !phase.Live? && !phase.ClearChilds? && (phase.ClearParents? ==> i < phase.i)
  }

  /** The reclaiming of a task has passed position `i` of its children list. */
  predicate ChildsDropped(phase: Phase, i: nat) {
    phase.Gone? || phase.DropParents? || (phase.DropChilds? && i < phase.i)
  }

  predicate ParentsDropped(phase: Phase, i: nat) {
    phase.Gone? || (phase.DropParents? && i < phase.i)
  }

  /** How many ends of record `r` have been reclaimed. */
  function EndsDropped(s: State, r: Record): nat
    requires r.p < |s.tasks| && r.c < |s.tasks|
  {
    (if r.wired && ChildsDropped(s.tasks[r.p].phase, r.posP) then 1 else 0)
    + (if ParentsDropped(s.tasks[r.c].phase, r.posC) then 1 else 0)
  }

  ghost predicate RecordInv(s: State, k: nat)
    requires k < |s.records|
  {
    var r := s.records[k];
    && r.p < |s.tasks| && r.c < |s.tasks|
    && r.posC < |s.tasks[r.c].parents| && s.tasks[r.c].parents[r.posC] == k
    && (r.wired ==> r.posP < |s.tasks[r.p].childs| && s.tasks[r.p].childs[r.posP] == k)
    && r.parent == (if r.wired && ChildsCleared(s.tasks[r.p].phase, r.posP) then None else Some(r.p))
    && r.child == (if ParentsCleared(s.tasks[r.c].phase, r.posC) then None else Some(r.c))
    && (r.wired <==> s.tasks[r.c].wiring.Some? && r.posC < s.tasks[r.c].wiring.value)
    && (!r.wired && s.tasks[r.c].phase.Live? ==> s.tasks[r.p].phase.Live?)
    && r.reference == 2 - EndsDropped(s, r)
    && r.freed == (if EndsDropped(s, r) == 2 then 1 else 0)
  }

  ghost predicate TaskInv(s: State, t: nat)
    requires t < |s.tasks|
  {
    var x := s.tasks[t];
    && (forall i :: 0 <= i < |x.parents| ==>
          x.parents[i] < |s.records| && s.records[x.parents[i]].c == t && s.records[x.parents[i]].posC == i)
    && (forall i :: 0 <= i < |x.childs| ==>
          && x.childs[i] < |s.records| && s.records[x.childs[i]].p == t && s.records[x.childs[i]].wired
          && s.records[x.childs[i]].posP == i)
    && (x.wiring.Some? ==> x.wiring.value <= |x.parents|)
    && (!x.phase.Live? ==> !Wiring(x))
    && (x.phase.ClearChilds? || x.phase.DropChilds? ==> x.phase.i <= |x.childs|)
    && (x.phase.ClearParents? || x.phase.DropParents? ==> x.phase.i <= |x.parents|)
  }

  ghost predicate Inv(s: State) {
    && (forall k :: 0 <= k < |s.records| ==> RecordInv(s, k))
    && (forall t :: 0 <= t < |s.tasks| ==> TaskInv(s, t))
    && !s.touched
  }

  // ---------------------------------------------------------------------------------------------
  // Every step keeps the invariant
  // ---------------------------------------------------------------------------------------------

  lemma CreateKeeps(s: State)
    requires Inv(s)
    ensures Inv(Next(s, Create))
  {
    var s' := Next(s, Create);
    forall t | 0 <= t < |s'.tasks| ensures TaskInv(s', t) {
      assert t < |s.tasks| ==> TaskInv(s, t);
    }
    forall k | 0 <= k < |s'.records| ensures RecordInv(s', k) {
      assert RecordInv(s, k);
    }
  }

  lemma AddKeeps(s: State, t: nat, p: nat)
    requires Inv(s) && t < |s.tasks| && p < |s.tasks|
    requires s.tasks[t].phase.Live? && s.tasks[p].phase.Live? && s.tasks[t].wiring.None?
    ensures Inv(AddStep(s, t, p))
  {
    var s' := AddStep(s, t, p);
    assert TaskInv(s, t);
    forall u | 0 <= u < |s'.tasks| ensures TaskInv(s', u) {
      assert TaskInv(s, u);
    }
    forall k | 0 <= k < |s'.records| ensures RecordInv(s', k) {
      if k < |s.records| { assert RecordInv(s, k); }
    }
  }

  /** What one wiring step of task `t` leaves behind, for record `k` of parent `p`. */
  ghost predicate Wired(s: State, s': State, t: nat, k: nat)
    requires t < |s.tasks| && k < |s.records| && s.records[k].p < |s.tasks| && s.tasks[t].wiring.Some?
  {
    var r := s.records[k];
    && |s'.tasks| == |s.tasks| && !s'.touched
    && s'.records == s.records[k := r.(wired := true, posP := |s.tasks[r.p].childs|)]
    && forall u :: 0 <= u < |s.tasks| ==>
         && s'.tasks[u].parents == s.tasks[u].parents && s'.tasks[u].phase == s.tasks[u].phase
         && s'.tasks[u].wiring == (if u == t then Some(s.tasks[t].wiring.value + 1) else s.tasks[u].wiring)
         && s'.tasks[u].childs == (if u == r.p then s.tasks[u].childs + [k] else s.tasks[u].childs)
  }

  lemma WireEffect(s: State, t: nat)
    requires t < |s.tasks| && s.tasks[t].phase.Live? && Wiring(s.tasks[t]) && !s.touched && TaskInv(s, t)
    requires RecordInv(s, s.tasks[t].parents[s.tasks[t].wiring.value])
    ensures Wired(s, WireStep(s, t), t, s.tasks[t].parents[s.tasks[t].wiring.value])
  {
  }

  lemma WireTask(s: State, s': State, t: nat, k: nat, u: nat)
    requires t < |s.tasks| && s.tasks[t].phase.Live? && Wiring(s.tasks[t])
      && k == s.tasks[t].parents[s.tasks[t].wiring.value]
    requires TaskInv(s, t) && u < |s.tasks| && TaskInv(s, u) && RecordInv(s, k) && Wired(s, s', t, k)
    ensures TaskInv(s', u)
  {
  }

  lemma WireRecord(s: State, s': State, t: nat, k: nat, j: nat)
    requires t < |s.tasks| && s.tasks[t].phase.Live? && Wiring(s.tasks[t])
      && k == s.tasks[t].parents[s.tasks[t].wiring.value]
    requires TaskInv(s, t) && j < |s.records| && RecordInv(s, j) && k < |s.records| && RecordInv(s, k)
      && Wired(s, s', t, k)
    ensures RecordInv(s', j)
  {
    assert s.records[j].c == t && s.records[j].posC == s.tasks[t].wiring.value ==> j == k;
  }

  lemma WireKeeps(s: State, t: nat)
    requires Inv(s) && t < |s.tasks| && s.tasks[t].phase.Live? && Wiring(s.tasks[t])
    ensures Inv(WireStep(s, t))
  {
    var s' := WireStep(s, t);
    assert TaskInv(s, t);
    var k := s.tasks[t].parents[s.tasks[t].wiring.value];
    assert RecordInv(s, k);
    WireEffect(s, t);
    forall u | 0 <= u < |s'.tasks| ensures TaskInv(s', u) {
      assert TaskInv(s, u);
      WireTask(s, s', t, k, u);
    }
    forall j | 0 <= j < |s'.records| ensures RecordInv(s', j) {
      assert RecordInv(s, j);
      WireRecord(s, s', t, k, j);
    }
  }

  /** Steps that move the phase of task `t` without passing a record. */
  predicate SameReach(a: Phase, b: Phase, childs: nat, parents: nat) {
    && (forall i :: 0 <= i < childs ==>
      ChildsCleared(a, i) == ChildsCleared(b, i) && ChildsDropped(a, i) == ChildsDropped(b, i))
    && (forall i :: 0 <= i < parents ==>
      ParentsCleared(a, i) == ParentsCleared(b, i) && ParentsDropped(a, i) == ParentsDropped(b, i))
  }

  lemma PhaseKeeps(s: State, t: nat, x: Task)
    requires Inv(s) && t < |s.tasks| && x.parents == s.tasks[t].parents && x.childs == s.tasks[t].childs
    requires SameReach(s.tasks[t].phase, x.phase, |x.childs|, |x.parents|)
    requires x.wiring == s.tasks[t].wiring || (s.tasks[t].wiring.None? && x.wiring == Some(0) && x.phase.Live?)
    requires x.phase.Live? ==> s.tasks[t].phase.Live?
    requires !x.phase.Live? ==> !Wiring(x)
    requires x.phase.ClearChilds? || x.phase.DropChilds? ==> x.phase.i <= |x.childs|
    requires x.phase.ClearParents? || x.phase.DropParents? ==> x.phase.i <= |x.parents|
    requires s.tasks[t].phase.Live? && !x.phase.Live? ==> !MustBeWired(s, t)
    ensures Inv(SetTask(s, t, x))
  {
    var s' := SetTask(s, t, x);
    assert TaskInv(s, t);
    forall u | 0 <= u < |s'.tasks| ensures TaskInv(s', u) {
      assert TaskInv(s, u);
    }
    forall k | 0 <= k < |s'.records| ensures RecordInv(s', k) {
      assert RecordInv(s, k);
      assert s.tasks[t].phase.Live? && !x.phase.Live? ==> !Unwired(s, k, t);
    }
  }

  /** A step of task `t` past record `k`, which ends up as `r`: tasks differ in the phase of `t` only. */
  ghost predicate Passed(s: State, s': State, t: nat, k: nat, r: Record, phase: Phase)
    requires t < |s.tasks| && k < |s.records|
  {
    && s'.tasks == s.tasks[t := s.tasks[t].(phase := phase)]
    && s'.records == s.records[k := r] && !s'.touched
    && r.p == s.records[k].p && r.c == s.records[k].c && r.wired == s.records[k].wired
    && r.posP == s.records[k].posP && r.posC == s.records[k].posC
  }

  lemma PassedTask(s: State, s': State, t: nat, k: nat, r: Record, phase: Phase, u: nat)
    requires t < |s.tasks| && k < |s.records| && Passed(s, s', t, k, r, phase)
    requires u < |s.tasks| && TaskInv(s, u) && !s.tasks[t].phase.Live? && !phase.Live?
    requires phase.ClearChilds? || phase.DropChilds? ==> phase.i <= |s.tasks[t].childs|
    requires phase.ClearParents? || phase.DropParents? ==> phase.i <= |s.tasks[t].parents|
    ensures TaskInv(s', u)
  {
  }

  lemma ClearChildRecord(s: State, s': State, t: nat, j: nat)
    requires t < |s.tasks| && s.tasks[t].phase.ClearChilds? && s.tasks[t].phase.i < |s.tasks[t].childs| && TaskInv(s, t)
    requires j < |s.records| && RecordInv(s, j)
    requires var i := s.tasks[t].phase.i; var k := s.tasks[t].childs[i];
      k < |s.records| && Passed(s, s', t, k, s.records[k].(parent := None), ClearChilds(i + 1))
    ensures RecordInv(s', j)
  {
    assert s.records[j].p == t && s.records[j].wired && s.records[j].posP == s.tasks[t].phase.i
      ==> j == s.tasks[t].childs[s.tasks[t].phase.i];
  }

  lemma ClearParentRecord(s: State, s': State, t: nat, j: nat)
    requires t < |s.tasks| && s.tasks[t].phase.ClearParents? && s.tasks[t].phase.i < |s.tasks[t].parents|
      && TaskInv(s, t)
    requires j < |s.records| && RecordInv(s, j)
    requires var i := s.tasks[t].phase.i; var k := s.tasks[t].parents[i];
      k < |s.records| && Passed(s, s', t, k, s.records[k].(child := None), ClearParents(i + 1))
    ensures RecordInv(s', j)
  {
    assert s.records[j].c == t && s.records[j].posC == s.tasks[t].phase.i
      ==> j == s.tasks[t].parents[s.tasks[t].phase.i];
  }

  /** The record after one more end has let go of it. */
  function Released(r: Record): Record {
    r.(reference := r.reference - 1, freed := if r.reference == 1 then r.freed + 1 else r.freed)
  }

  lemma DropChildRecord(s: State, s': State, t: nat, j: nat)
    requires t < |s.tasks| && s.tasks[t].phase.DropChilds? && s.tasks[t].phase.i < |s.tasks[t].childs| && TaskInv(s, t)
    requires j < |s.records| && RecordInv(s, j)
    requires var i := s.tasks[t].phase.i; var k := s.tasks[t].childs[i];
      k < |s.records| && Passed(s, s', t, k, Released(s.records[k]), DropChilds(i + 1))
    ensures RecordInv(s', j)
  {
    assert s.records[j].p == t && s.records[j].wired && s.records[j].posP == s.tasks[t].phase.i
      ==> j == s.tasks[t].childs[s.tasks[t].phase.i];
  }

  lemma DropParentRecord(s: State, s': State, t: nat, j: nat)
    requires t < |s.tasks| && s.tasks[t].phase.DropParents? && s.tasks[t].phase.i < |s.tasks[t].parents|
      && TaskInv(s, t)
    requires j < |s.records| && RecordInv(s, j)
    requires var i := s.tasks[t].phase.i; var k := s.tasks[t].parents[i];
      k < |s.records| && Passed(s, s', t, k, Released(s.records[k]), DropParents(i + 1))
    ensures RecordInv(s', j)
  {
    assert s.records[j].c == t && s.records[j].posC == s.tasks[t].phase.i
      ==> j == s.tasks[t].parents[s.tasks[t].phase.i];
  }

  /** Neither a task on its way out nor one in use meets a freed record. */
  lemma NotFreed(s: State, t: nat, up: bool, i: nat)
    requires Inv(s) && t < |s.tasks| && i < |if up then s.tasks[t].parents else s.tasks[t].childs|
    requires if up then !ParentsDropped(s.tasks[t].phase, i) else !ChildsDropped(s.tasks[t].phase, i)
    ensures var k := (if up then s.tasks[t].parents else s.tasks[t].childs)[i];
      k < |s.records| && s.records[k].freed == 0
  {
    assert TaskInv(s, t);
    assert RecordInv(s, (if up then s.tasks[t].parents else s.tasks[t].childs)[i]);
  }

  lemma PassKeeps(s: State, t: nat)
    requires Inv(s) && t < |s.tasks|
    requires var x := s.tasks[t];
      || (x.phase.ClearChilds? && x.phase.i < |x.childs|) || (x.phase.ClearParents? && x.phase.i < |x.parents|)
      || (x.phase.DropChilds? && x.phase.i < |x.childs|) || (x.phase.DropParents? && x.phase.i < |x.parents|)
    ensures Inv(Step(s, t))
  {
    var s', x := Step(s, t), s.tasks[t];
    var up := x.phase.ClearParents? || x.phase.DropParents?;
    var k := (if up then x.parents else x.childs)[x.phase.i];
    assert TaskInv(s, t);
    NotFreed(s, t, up, x.phase.i);
    var r := if x.phase.ClearChilds? then s.records[k].(parent := None)
             else if x.phase.ClearParents? then s.records[k].(child := None) else Released(s.records[k]);
    assert Passed(s, s', t, k, r, s'.tasks[t].phase);
    forall u | 0 <= u < |s'.tasks| ensures TaskInv(s', u) {
      assert TaskInv(s, u);
      PassedTask(s, s', t, k, r, s'.tasks[t].phase, u);
    }
    forall j | 0 <= j < |s'.records| ensures RecordInv(s', j) {
      assert RecordInv(s, j);
      if x.phase.ClearChilds? { ClearChildRecord(s, s', t, j); }
      else if x.phase.ClearParents? { ClearParentRecord(s, s', t, j); }
      else if x.phase.DropChilds? { DropChildRecord(s, s', t, j); }
      else { DropParentRecord(s, s', t, j); }
    }
  }

  lemma StepKeeps(s: State, t: nat)
    requires Inv(s) && t < |s.tasks|
    ensures Inv(Step(s, t))
  {
    var x := s.tasks[t];
    assert TaskInv(s, t);
    if x.phase.Live? {
      if Wiring(x) { WireKeeps(s, t); }
    } else if (x.phase.ClearChilds? || x.phase.DropChilds?) && x.phase.i >= |x.childs| {
      PhaseKeeps(s, t, x.(phase := if x.phase.ClearChilds? then ClearParents(0) else DropParents(0)));
    } else if (x.phase.ClearParents? || x.phase.DropParents?) && x.phase.i >= |x.parents| {
      PhaseKeeps(s, t, x.(phase := if x.phase.ClearParents? then Waiting else Gone));
    } else if !x.phase.Waiting? && !x.phase.Gone? {
      PassKeeps(s, t);
    }
  }

  lemma NextKeeps(s: State, a: Action)
    requires Inv(s) && !Next(s, a).early
    ensures Inv(Next(s, a))
  {
    if a.Create? {
      CreateKeeps(s);
    } else if a.t < |s.tasks| {
      var x := s.tasks[a.t];
      assert TaskInv(s, a.t);
      match a
      case Create =>
      case AddDep(t, p) => if Next(s, a) != s { AddKeeps(s, t, p); }
      case Commit(t) => if x.phase.Live? && x.wiring.None? { PhaseKeeps(s, t, x.(wiring := Some(0))); }
      case Visit(t, up, i) =>
        if InUse(x.phase) && i < |if up then x.parents else x.childs| { NotFreed(s, t, up, i); }
      case Free(t) => if x.phase.Live? && !Wiring(x) { PhaseKeeps(s, t, x.(phase := ClearChilds(0))); }
      case Reclaim(t) => if x.phase.Waiting? { PhaseKeeps(s, t, x.(phase := DropChilds(0))); }
      case Go(t) => StepKeeps(s, t);
    }
  }

  lemma {:induction false} RunKeeps(acts: seq<Action>)
    requires !Run(acts).early
    ensures Inv(Run(acts))
  {
    if acts != [] {
      var s, a := Run(acts[..|acts| - 1]), acts[|acts| - 1];
      if s.early { EarlyStays(s, a); }
      RunKeeps(acts[..|acts| - 1]);
      NextKeeps(s, a);
    }
  }

  lemma EarlyStays(s: State, a: Action)
    requires s.early
    ensures Next(s, a).early
  {
  }

  // ---------------------------------------------------------------------------------------------
  // Main results: as long as no task is freed before the children that depend on it are committed
  // ---------------------------------------------------------------------------------------------

  /** The reference count of a wired record is two less the ends reclaimed, and it is freed once, when both are. */
  lemma CountsEnds(acts: seq<Action>, k: nat)
    requires !Run(acts).early && k < |Run(acts).records| && Run(acts).records[k].wired
    ensures var s := Run(acts); var r := s.records[k];
      && r.p < |s.tasks| && r.c < |s.tasks|
      && var ends := (if ChildsDropped(s.tasks[r.p].phase, r.posP) then 1 else 0)
                     + (if ParentsDropped(s.tasks[r.c].phase, r.posC) then 1 else 0);
         r.reference == 2 - ends && r.freed == if ends == 2 then 1 else 0
  {
    RunKeeps(acts);
    assert RecordInv(Run(acts), k);
  }

  /** A record that commit never put on its parent's list is never freed, not even when both tasks are gone. */
  lemma UnwiredLeaks(acts: seq<Action>, k: nat)
    requires !Run(acts).early && k < |Run(acts).records|
    requires forall t :: 0 <= t < |Run(acts).tasks| ==> Run(acts).tasks[t].phase == Gone
    ensures Run(acts).records[k].freed == (if Run(acts).records[k].wired then 1 else 0)
  {
    RunKeeps(acts);
    assert RecordInv(Run(acts), k);
  }

  /** A pointer of a record names no task whose free has returned, except in a record nobody will look at again. */
  lemma NeverNamesFreed(acts: seq<Action>, k: nat, t: nat)
    requires !Run(acts).early && k < |Run(acts).records| && t < |Run(acts).tasks|
    ensures var s := Run(acts); var r := s.records[k];
      && (r.child == Some(t) ==>
        s.tasks[t].phase.Live? || s.tasks[t].phase.ClearChilds? || s.tasks[t].phase.ClearParents?)
      && (r.parent == Some(t) ==>
            || s.tasks[t].phase.Live? || s.tasks[t].phase.ClearChilds?
            || (!r.wired && r.c < |s.tasks| && !s.tasks[r.c].phase.Live?))
  {
    RunKeeps(acts);
    var s := Run(acts);
    assert RecordInv(s, k);
    assert TaskInv(s, t);
  }

  /**
   No thread reads or writes a record after it was freed: none has done so, and the records on the part of a list that
   its task or somebody using it may still go through have not been freed.
   */
  lemma NeverTouchedFreed(acts: seq<Action>)
    requires !Run(acts).early
    ensures !Run(acts).touched
    ensures forall t, i :: 0 <= t < |Run(acts).tasks| && 0 <= i < |Run(acts).tasks[t].childs| ==>
      !ChildsDropped(Run(acts).tasks[t].phase, i) ==> Unfreed(Run(acts), Run(acts).tasks[t].childs[i])
    ensures forall t, i :: 0 <= t < |Run(acts).tasks| && 0 <= i < |Run(acts).tasks[t].parents| ==>
      !ParentsDropped(Run(acts).tasks[t].phase, i) ==> Unfreed(Run(acts), Run(acts).tasks[t].parents[i])
  {
    RunKeeps(acts);
    var s := Run(acts);
    forall t, i | 0 <= t < |s.tasks| && 0 <= i < |s.tasks[t].childs| && !ChildsDropped(s.tasks[t].phase, i)
      ensures Unfreed(s, s.tasks[t].childs[i])
    {
      NotFreed(s, t, false, i);
    }
    forall t, i | 0 <= t < |s.tasks| && 0 <= i < |s.tasks[t].parents| && !ParentsDropped(s.tasks[t].phase, i)
      ensures Unfreed(s, s.tasks[t].parents[i])
    {
      NotFreed(s, t, true, i);
    }
  }

  predicate Unfreed(s: State, k: nat) { k < |s.records| && s.records[k].freed == 0 }

  // ---------------------------------------------------------------------------------------------
  // A parent freed too early
  // ---------------------------------------------------------------------------------------------

  /** No record on a parent's list names a parent that is past clearing the list, and no freed record was accessed. */
  ghost predicate Sound(s: State) {
    && !s.touched
    && forall k :: 0 <= k < |s.records| && s.records[k].wired && s.records[k].parent.Some? ==>
      Clearable(s, s.records[k].parent.value)
  }

  predicate Clearable(s: State, t: nat) {
    t < |s.tasks| && (s.tasks[t].phase.Live? || s.tasks[t].phase.ClearChilds?)
  }

  /** Record `k` has yet to be wired by a task in use other than `t`, and clearing the lists of `t` will not meet it. */
  ghost predicate Dangling(s: State, t: nat, k: nat, c: nat) {
    && t < |s.tasks| && c < |s.tasks| && c != t && k < |s.records| && s.tasks[c].phase.Live?
    && s.records[k].parent == Some(t) && !s.records[k].wired
    && k !in s.tasks[t].childs && k !in s.tasks[t].parents
    && (s.tasks[c].wiring.Some? ==> s.tasks[c].wiring.value < |s.tasks[c].parents|)
    && s.records[k].c == c && k in s.tasks[c].parents[Wirings(s.tasks[c])..]
  }

  function Wirings(x: Task): (n: nat)
    ensures n <= |x.parents|
  {
    if x.wiring.None? then 0 else if x.wiring.value <= |x.parents| then x.wiring.value else |x.parents|
  }

  lemma UnwiredDangles(s: State, t: nat, k: nat)
    requires Inv(s) && t < |s.tasks| && k < |s.records| && Unwired(s, k, t)
    ensures Dangling(s, t, k, s.records[k].c)
  {
    var r := s.records[k];
    assert RecordInv(s, k) && TaskInv(s, t) && TaskInv(s, r.c);
    assert s.tasks[r.c].parents[Wirings(s.tasks[r.c])..][r.posC - Wirings(s.tasks[r.c])] == k;
  }

  lemma Do(acts: seq<Action>, a: Action) returns (more: seq<Action>)
    ensures Run(more) == Next(Run(acts), a) && more == acts + [a]
  {
    more := acts + [a];
    assert more[..|acts|] == acts;
  }

  /** Steps still to go until the lists of a freed task are cleared. */
  function ClearsLeft(x: Task): nat {
    match x.phase
    case ClearChilds(i) => 2 + |x.parents| + if i < |x.childs| then |x.childs| - i else 0
    case ClearParents(i) => 1 + if i < |x.parents| then |x.parents| - i else 0
    case _ => 0
  }

  lemma ClearStep(s: State, t: nat, k: nat, c: nat)
    requires Dangling(s, t, k, c) && (s.tasks[t].phase.ClearChilds? || s.tasks[t].phase.ClearParents?)
    ensures var s' := Next(s, Go(t));
      && Dangling(s', t, k, c) && ClearsLeft(s'.tasks[t]) < ClearsLeft(s.tasks[t])
      && (s'.tasks[t].phase.ClearChilds? || s'.tasks[t].phase.ClearParents? || s'.tasks[t].phase.Waiting?)
  {
    var s' := Next(s, Go(t));
    ClearTasks(s, t);
    ClearRecords(s, t, k);
    assert s'.tasks[c] == s.tasks[c];
  }

  /** A clearing step moves the phase of `t` on and leaves the other tasks alone. */
  lemma ClearTasks(s: State, t: nat)
    requires t < |s.tasks| && (s.tasks[t].phase.ClearChilds? || s.tasks[t].phase.ClearParents?)
    ensures var s' := Next(s, Go(t)); var x := s.tasks[t];
      s'.tasks == s.tasks[t := x.(phase := ClearNext(x))]
  {
  }

  function ClearNext(x: Task): Phase
    requires x.phase.ClearChilds? || x.phase.ClearParents?
  {
    if x.phase.ClearChilds? then if x.phase.i < |x.childs| then ClearChilds(x.phase.i + 1) else ClearParents(0)
    else if x.phase.i < |x.parents| then ClearParents(x.phase.i + 1) else Waiting
  }

  lemma ClearRecords(s: State, t: nat, k: nat)
    requires t < |s.tasks| && (s.tasks[t].phase.ClearChilds? || s.tasks[t].phase.ClearParents?)
    requires k < |s.records| && k !in s.tasks[t].childs && k !in s.tasks[t].parents
    ensures var s' := Next(s, Go(t)); |s'.records| == |s.records| && s'.records[k] == s.records[k]
  {
  }

  /** Clearing the lists of `t` does not meet the record. */
  lemma {:induction false} ClearsOn(acts: seq<Action>, t: nat, k: nat, c: nat) returns (all: seq<Action>)
    requires Dangling(Run(acts), t, k, c)
    requires var phase := Run(acts).tasks[t].phase; phase.ClearChilds? || phase.ClearParents? || phase.Waiting?
    ensures acts <= all && forall i :: |acts| <= i < |all| ==> !all[i].Free?
    ensures Dangling(Run(all), t, k, c) && Run(all).tasks[t].phase.Waiting?
    decreases ClearsLeft(Run(acts).tasks[t])
  {
    if Run(acts).tasks[t].phase.Waiting? {
      all := acts;
    } else {
      ClearStep(Run(acts), t, k, c);
      assert (acts + [Go(t)])[..|acts|] == acts;
      all := ClearsOn(acts + [Go(t)], t, k, c);
      assert all[|acts|] == (acts + [Go(t)])[|acts|];
    }
  }

  /** The record is on the list of a task whose lists have been cleared, and names it. */
  ghost predicate Dangles(s: State, t: nat, k: nat) {
    && t < |s.tasks| && s.tasks[t].phase.Waiting? && k in s.tasks[t].childs
    && k < |s.records| && s.records[k].wired && s.records[k].parent == Some(t)
    && s.records[k].c < |s.tasks| && s.tasks[s.records[k].c].phase.Live?
  }

  lemma WireOn(s: State, t: nat, k: nat, c: nat)
    requires Dangling(s, t, k, c) && s.tasks[t].phase.Waiting? && s.tasks[c].wiring.Some?
    ensures var s' := Next(s, Go(c));
      || Dangles(s', t, k)
      || (Dangling(s', t, k, c) && s'.tasks[t].phase.Waiting? && s'.tasks[c].wiring.Some?
          && s'.tasks[c].parents == s.tasks[c].parents && s'.tasks[c].wiring.value == s.tasks[c].wiring.value + 1)
  {
    var v := s.tasks[c].wiring.value;
    var rest := s.tasks[c].parents[v..];
    assert rest[0] == s.tasks[c].parents[v];
    if rest[0] == k {
      WireIt(s, t, k, c);
    } else {
      var i :| 0 <= i < |rest| && rest[i] == k;
      assert s.tasks[c].parents[v + 1..][i - 1] == k;
      WireAnother(s, t, k, c);
    }
  }

  lemma WireIt(s: State, t: nat, k: nat, c: nat)
    requires Dangling(s, t, k, c) && s.tasks[t].phase.Waiting? && s.tasks[c].wiring.Some?
    requires s.tasks[c].parents[s.tasks[c].wiring.value] == k
    ensures Dangles(Next(s, Go(c)), t, k)
  {
    assert Next(s, Go(c)).tasks[t].childs == s.tasks[t].childs + [k];
  }

  lemma WireAnother(s: State, t: nat, k: nat, c: nat)
    requires Dangling(s, t, k, c) && s.tasks[t].phase.Waiting? && s.tasks[c].wiring.Some?
    requires var v := s.tasks[c].wiring.value; s.tasks[c].parents[v] != k && k in s.tasks[c].parents[v + 1..]
    ensures var s' := Next(s, Go(c));
      && Dangling(s', t, k, c) && s'.tasks[t].phase.Waiting? && s'.tasks[c].wiring.Some?
      && s'.tasks[c].parents == s.tasks[c].parents && s'.tasks[c].wiring.value == s.tasks[c].wiring.value + 1
  {
    var s' := Next(s, Go(c));
    GoWires(s, c, t, k);
    assert s'.tasks[c].parents[Wirings(s'.tasks[c])..] == s.tasks[c].parents[s.tasks[c].wiring.value + 1..];
  }

  /** What wiring one record does to another record, and to a task that is not wiring. */
  lemma GoWires(s: State, c: nat, t: nat, k: nat)
    requires c < |s.tasks| && t < |s.tasks| && t != c && k < |s.records| && s.tasks[c].phase.Live?
    requires Wiring(s.tasks[c]) && s.tasks[c].parents[s.tasks[c].wiring.value] != k
    ensures var s' := Next(s, Go(c)); var v := s.tasks[c].wiring.value;
      && |s'.records| == |s.records| && s'.records[k] == s.records[k] && |s'.tasks| == |s.tasks|
      && s'.tasks[t].phase == s.tasks[t].phase && s'.tasks[t].parents == s.tasks[t].parents
      && (s'.tasks[t].childs == s.tasks[t].childs || s'.tasks[t].childs == s.tasks[t].childs + [s.tasks[c].parents[v]])
      && s'.tasks[c].phase == s.tasks[c].phase && s'.tasks[c].parents == s.tasks[c].parents
      && s'.tasks[c].wiring == Some(v + 1)
  {
  }

  /** The child's commit gets to the record and puts it on the list of `t`. */
  lemma {:induction false} WiresOn(acts: seq<Action>, t: nat, k: nat, c: nat) returns (all: seq<Action>)
    requires var s := Run(acts); Dangling(s, t, k, c) && s.tasks[t].phase.Waiting?
    ensures acts <= all && forall i :: |acts| <= i < |all| ==> !all[i].Free?
    ensures Dangles(Run(all), t, k)
    decreases var x := Run(acts).tasks[c]; if x.wiring.None? then |x.parents| + 1 else |x.parents| - Wirings(x)
  {
    var s := Run(acts);
    var a := if s.tasks[c].wiring.None? then Commit(c) else Go(c);
    if a.Go? { WireOn(s, t, k, c); }
    all := acts + [a];
    assert all[..|acts|] == acts;
    if !Dangles(Run(all), t, k) {
      all := WiresOn(all, t, k, c);
      assert all[|acts|] == (acts + [a])[|acts|];
    }
  }

  /**
   Freeing a task that another one still has to wire itself to: once its lists are cleared, the child's commit puts
   its record, which still names the task, on the list of the task that is gone.
   */
  lemma FreeDangles(acts: seq<Action>, t: nat) returns (all: seq<Action>, k: nat)
    requires !Run(acts).early && MustBeWired(Run(acts), t)
    requires t < |Run(acts).tasks| && Run(acts).tasks[t].phase.Live? && !Wiring(Run(acts).tasks[t])
    ensures acts + [Free(t)] <= all && forall i :: |acts| < i < |all| ==> !all[i].Free?
    ensures Dangles(Run(all), t, k)
  {
    RunKeeps(acts);
    var s := Run(acts);
    k :| k < |s.records| && Unwired(s, k, t);
    var c := s.records[k].c;
    UnwiredDangles(s, t, k);
    var freed := acts + [Free(t)];
    assert freed[..|acts|] == acts;
    assert Dangling(Run(freed), t, k, c);
    all := ClearsOn(freed, t, k, c);
    all := WiresOn(all, t, k, c);
  }

  /** From position `n` on, no task is freed that another one still has to wire itself to. */
  ghost predicate Careful(all: seq<Action>, n: nat) {
    forall i :: n <= i < |all| && all[i].Free? ==> !MustBeWired(Run(all[..i]), all[i].t)
  }

  lemma {:induction false} CarefulNotEarly(start: seq<Action>, all: seq<Action>)
    requires start <= all && !Run(start).early && Careful(all, |start|)
    ensures !Run(all).early
  {
    if |start| < |all| {
      var front := all[..|all| - 1];
      forall i | |start| <= i < |front| && front[i].Free? ensures !MustBeWired(Run(front[..i]), front[i].t) {
        assert front[..i] == all[..i] && front[i] == all[i];
      }
      CarefulNotEarly(start, front);
      var n := |front|;
      if all[n].Free? { assert !MustBeWired(Run(all[..n]), all[n].t); }
    } else {
      assert start == all;
    }
  }

  lemma NotEarlySound(acts: seq<Action>)
    requires !Run(acts).early
    ensures Sound(Run(acts))
  {
    RunKeeps(acts);
    var s := Run(acts);
    forall k | 0 <= k < |s.records| && s.records[k].wired && s.records[k].parent.Some?
      ensures Clearable(s, s.records[k].parent.value)
    {
      assert RecordInv(s, k);
    }
  }

  /**
   Exactly when a free is safe. In a run that has been careful so far, freeing task `t` keeps everything sound,
   whatever happens next apart from careless frees, if and only if no other task still has to wire itself to `t`.
   */
  lemma FreeSafeIff(acts: seq<Action>, t: nat)
    requires !Run(acts).early
    requires t < |Run(acts).tasks| && Run(acts).tasks[t].phase.Live? && !Wiring(Run(acts).tasks[t])
    ensures !MustBeWired(Run(acts), t)
      <==> forall all :: acts + [Free(t)] <= all && Careful(all, |acts| + 1) ==> Sound(Run(all))
  {
    var freed := acts + [Free(t)];
    assert freed[..|acts|] == acts;
    if MustBeWired(Run(acts), t) {
      var all, k := FreeDangles(acts, t);
      assert Careful(all, |acts| + 1);
      assert !Clearable(Run(all), Run(all).records[k].parent.value);
    } else {
      forall all | freed <= all && Careful(all, |acts| + 1) ensures Sound(Run(all)) {
        CarefulNotEarly(freed, all);
        NotEarlySound(all);
      }
    }
  }

  const YOUNG := Task([], [], None, Live)
  const CHILD := Task([0], [], None, Live)
  const LINK := Record(Some(0), Some(1), 2, 0, 0, 1, false, 0, 0)

  lemma Creates(tasks: seq<Task>)
    ensures Next(State(tasks, [], false, false), Create) == State(tasks + [YOUNG], [], false, false)
  {
  }

  lemma Links()
    ensures Next(State([YOUNG, YOUNG], [], false, false), AddDep(1, 0)) == State([YOUNG, CHILD], [LINK], false, false)
  {
    assert [YOUNG, YOUNG][1 := CHILD] == [YOUNG, CHILD];
    assert YOUNG.parents + [0] == [0];
  }

  lemma Linked() returns (acts: seq<Action>)
    ensures Run(acts) == State([YOUNG, CHILD], [LINK], false, false)
  {
    Creates([]);
    Creates([YOUNG]);
    Links();
    acts := Do([], Create);
    acts := Do(acts, Create);
    assert [] + [YOUNG] + [YOUNG] == [YOUNG, YOUNG];
    acts := Do(acts, AddDep(1, 0));
  }

  /** A step of task 0, which has no records on its lists. */
  lemma Passes(acts: seq<Action>, before: Phase, after: Phase) returns (more: seq<Action>)
    requires Run(acts) == State([YOUNG.(phase := before), CHILD], [LINK], false, true)
    requires || (before == ClearChilds(0) && after == ClearParents(0))
      || (before == ClearParents(0) && after == Waiting)
             || (before == DropChilds(0) && after == DropParents(0)) || (before == DropParents(0) && after == Gone)
    ensures Run(more) == State([YOUNG.(phase := after), CHILD], [LINK], false, true)
  {
    more := Do(acts, Go(0));
    assert Run(more).tasks == [YOUNG.(phase := after), CHILD];
  }

  lemma FreesEarly()
    ensures Next(State([YOUNG, CHILD], [LINK], false, false), Free(0))
         == State([YOUNG.(phase := ClearChilds(0)), CHILD], [LINK], false, true)
  {
    var s := State([YOUNG, CHILD], [LINK], false, false);
    assert MustBeWired(s, 0) by { assert Unwired(s, 0, 0); }
    assert s.tasks[0 := YOUNG.(phase := ClearChilds(0))] == [YOUNG.(phase := ClearChilds(0)), CHILD];
  }

  lemma Reclaims()
    ensures Next(State([YOUNG.(phase := Waiting), CHILD], [LINK], false, true), Reclaim(0))
         == State([YOUNG.(phase := DropChilds(0)), CHILD], [LINK], false, true)
  {
    assert [YOUNG.(phase := Waiting), CHILD][0 := YOUNG.(phase := DropChilds(0))]
      == [YOUNG.(phase := DropChilds(0)), CHILD];
  }

  lemma CommitsLate()
    ensures var s := Next(Next(State([YOUNG.(phase := Gone), CHILD], [LINK], false, true), Commit(1)), Go(1));
      s.tasks == [YOUNG.(phase := Gone, childs := [0]), CHILD.(wiring := Some(1))]
      && s.records == [LINK.(wired := true)]
  {
    var s0 := State([YOUNG.(phase := Gone), CHILD], [LINK], false, true);
    var s1 := Next(s0, Commit(1));
    assert s1.tasks == [YOUNG.(phase := Gone), CHILD.(wiring := Some(0))];
    var s2 := Next(s1, Go(1));
    var none: seq<nat> := [];
    assert none + [0] == [0];
    assert s2.tasks[1] == CHILD.(wiring := Some(1));
    assert s2.tasks[0] == YOUNG.(phase := Gone, childs := none + [0]);
    assert s2.tasks == [s2.tasks[0], s2.tasks[1]];
  }

  /**
   Task 0 is freed and reclaimed before its child is committed; commit then puts the record on the list of a task that
   is gone.
   */
  lemma EarlyFreeDangles() returns (acts: seq<Action>)
    ensures var s := Run(acts);
      && |s.tasks| == 2 && s.tasks[0].phase == Gone && |s.records| == 1
      && s.records[0].parent == Some(0) && s.tasks[0].childs == [0]
  {
    acts := Linked();
    FreesEarly();
    acts := Do(acts, Free(0));
    acts := Passes(acts, ClearChilds(0), ClearParents(0));
    acts := Passes(acts, ClearParents(0), Waiting);
    Reclaims();
    acts := Do(acts, Reclaim(0));
    acts := Passes(acts, DropChilds(0), DropParents(0));
    acts := Passes(acts, DropParents(0), Gone);
    CommitsLate();
    acts := Do(acts, Commit(1));
    acts := Do(acts, Go(1));
  }
}
