/**
 What a safe free and a commit get done with the dependency records, src/driver/native/twnative_task_int.c:15-88 and
 src/driver/native/twnative_task.c:168-180: the pointers to the task are cleared, one reference goes for each time a
 record is on its lists, and a record whose other end was reclaimed before is freed; a commit puts every record of
 its task on its parent's list.
 */
module EdgeFrees {
  import opened Common
  import opened EdgeRefs

  // ---------------------------------------------------------------------------------------------
  // A task on its way out
  // ---------------------------------------------------------------------------------------------

  /** Steps left to a task that has been freed until it is gone, the reclaim included. */
  function StepsLeft(x: Task): nat {
    var p, c := |x.parents|, |x.childs|;
    match x.phase
    case Live => 0
    case ClearChilds(i) => 2 * p + c + 6 + if i < c then c - i else 0
    case ClearParents(i) => p + c + 5 + if i < p then p - i else 0
    case Waiting => p + c + 4
    case DropChilds(i) => p + 2 + if i < c then c - i else 0
    case DropParents(i) => 1 + if i < p then p - i else 0
    case Gone => 0
  }

  predicate Leaving(phase: Phase) { !phase.Live? && !phase.Gone? }

  /** What that task, or the disposer, does next. */
  function ExitStep(x: Task, t: nat): Action { if x.phase.Waiting? then Reclaim(t) else Go(t) }

  /** The same record apart from its pointers, its reference count and whether it was freed. */
  predicate SameEnds(r: Record, r': Record) {
    r' == r.(parent := r'.parent, child := r'.child, reference := r'.reference, freed := r'.freed)
  }

  /** Only the phase of task `t` differs, and of the records what its phase decides. */
  ghost predicate OnlyExits(s: State, s': State, t: nat) {
    && t < |s.tasks| == |s'.tasks| && |s'.records| == |s.records| && s'.early == s.early
    && s'.tasks == s.tasks[t := s.tasks[t].(phase := s'.tasks[t].phase)]
    && forall k :: 0 <= k < |s.records| ==> SameEnds(s.records[k], s'.records[k])
  }

  /** A step that only lets task `t` get nearer to being gone. */
  ghost predicate Nearer(s: State, s': State, t: nat) {
    && OnlyExits(s, s', t) && StepsLeft(s'.tasks[t]) < StepsLeft(s.tasks[t])
    && (Leaving(s'.tasks[t].phase) || s'.tasks[t].phase.Gone?)
  }

  lemma ClearMoves(s: State, t: nat)
    requires t < |s.tasks| && (s.tasks[t].phase.ClearChilds? || s.tasks[t].phase.ClearParents?)
    ensures Nearer(s, Step(s, t), t)
  {
  }

  lemma DropMoves(s: State, t: nat)
    requires t < |s.tasks| && (s.tasks[t].phase.DropChilds? || s.tasks[t].phase.DropParents?)
    ensures Nearer(s, Step(s, t), t)
  {
  }

  lemma ExitMoves(s: State, t: nat)
    requires t < |s.tasks| && Leaving(s.tasks[t].phase)
    ensures Nearer(s, Next(s, ExitStep(s.tasks[t], t)), t)
  {
    match s.tasks[t].phase
    case Waiting =>
    case ClearChilds(_) => ClearMoves(s, t);
    case ClearParents(_) => ClearMoves(s, t);
    case _ => DropMoves(s, t);
  }

  lemma OnlyExitsThen(a: State, b: State, c: State, t: nat)
    requires OnlyExits(a, b, t) && OnlyExits(b, c, t)
    ensures OnlyExits(a, c, t)
  {
    forall k | 0 <= k < |a.records| ensures SameEnds(a.records[k], c.records[k]) {
      assert SameEnds(a.records[k], b.records[k]) && SameEnds(b.records[k], c.records[k]);
    }
  }

  /** Only steps of task `t` and its reclaim. */
  predicate Exits(a: Action, t: nat) { a == Go(t) || a == Reclaim(t) }

  ghost predicate ExitsOnly(acts: seq<Action>, all: seq<Action>, t: nat) {
    acts <= all && forall i :: |acts| <= i < |all| ==> Exits(all[i], t)
  }

  lemma {:induction false} ExitsFully(acts: seq<Action>, t: nat) returns (all: seq<Action>)
    requires t < |Run(acts).tasks| && (Leaving(Run(acts).tasks[t].phase) || Run(acts).tasks[t].phase.Gone?)
    ensures ExitsOnly(acts, all, t) && OnlyExits(Run(acts), Run(all), t) && Run(all).tasks[t].phase.Gone?
    decreases StepsLeft(Run(acts).tasks[t])
  {
    var s := Run(acts);
    all := acts;
    if Leaving(s.tasks[t].phase) {
      ExitMoves(s, t);
      var more := Do(acts, ExitStep(s.tasks[t], t));
      all := ExitsFully(more, t);
      OnlyExitsThen(s, Run(more), Run(all), t);
      assert forall i :: |acts| <= i < |more| ==> more[i] == all[i];
    }
  }

  // ---------------------------------------------------------------------------------------------
  // What it has done to each record
  // ---------------------------------------------------------------------------------------------

  /** How many times record `r` is on the lists of task `t`. */
  function EndsAt(r: Record, t: nat): nat { Bit(r.wired && r.p == t) + Bit(r.c == t) }

  /** The record after task `t` has been freed and reclaimed. */
  function WithoutTask(r: Record, t: nat): Record {
    r.(parent := if r.wired && r.p == t then None else r.parent,
       child := if r.c == t then None else r.child,
       reference := r.reference - EndsAt(r, t),
       freed := if EndsAt(r, t) > 0 && r.reference == EndsAt(r, t) then 1 else r.freed)
  }

  lemma RecordAfter(s: State, s': State, t: nat, k: nat)
    requires k < |s.records| && RecordInv(s, k) && t < |s.tasks| && s.tasks[t].phase.Live?
    requires OnlyExits(s, s', t) && RecordInv(s', k) && s'.tasks[t].phase.Gone?
    ensures s'.records[k] == WithoutTask(s.records[k], t)
  {
    assert SameEnds(s.records[k], s'.records[k]);
  }

  /**
   A safe free gets done. Whatever else is going on, once the task has cleared its lists, has been reclaimed, and has
   gone through its lists again, it is gone; every record has lost its pointers to it and one reference for each time it
   was on its lists, those that lost their last one have been freed, and nothing else has changed.
   */
  lemma FreesFully(acts: seq<Action>, t: nat) returns (all: seq<Action>)
    requires !Run(acts).early && !MustBeWired(Run(acts), t)
    requires t < |Run(acts).tasks| && Run(acts).tasks[t].phase.Live? && !Wiring(Run(acts).tasks[t])
    ensures ExitsOnly(acts + [Free(t)], all, t) && !Run(all).early
    ensures Run(all).tasks == Run(acts).tasks[t := Run(acts).tasks[t].(phase := Gone)]
    ensures |Run(all).records| == |Run(acts).records|
    ensures forall k :: 0 <= k < |Run(acts).records| ==>
      Run(all).records[k] == WithoutTask(Run(acts).records[k], t)
  {
    var s := Run(acts);
    var freed := Do(acts, Free(t));
    all := ExitsFully(freed, t);
    OnlyExitsThen(s, Run(freed), Run(all), t);
    RunKeeps(acts);
    RunKeeps(all);
    forall k | 0 <= k < |s.records| ensures Run(all).records[k] == WithoutTask(s.records[k], t) {
      assert RecordInv(s, k) && RecordInv(Run(all), k);
      RecordAfter(s, Run(all), t, k);
    }
  }

  /** A free leaves fewer tasks that somebody still has to wire itself to. */
  lemma StillSafe(s: State, s': State, t: nat, c: nat)
    requires t < |s.tasks| && s'.tasks == s.tasks[t := s.tasks[t].(phase := Gone)] && !MustBeWired(s, c)
    requires |s'.records| == |s.records|
    requires forall k :: 0 <= k < |s.records| ==> s'.records[k] == WithoutTask(s.records[k], t)
    ensures !MustBeWired(s', c)
  {
    forall k | 0 <= k < |s'.records| ensures !Unwired(s', k, c) {
      assert !Unwired(s, k, c);
    }
  }

  /** Freeing both ends of a wired record, in whatever order, frees the record, once. */
  lemma FreedWithBoth(acts: seq<Action>, k: nat, first: nat, second: nat) returns (all: seq<Action>)
    requires !Run(acts).early && k < |Run(acts).records| && Run(acts).records[k].wired
    requires var s := Run(acts); {first, second} == {s.records[k].p, s.records[k].c} && first != second
    requires var s := Run(acts);
      first < |s.tasks| && s.tasks[first].phase.Live? && !Wiring(s.tasks[first]) && !MustBeWired(s, first)
    requires var s := Run(acts);
      second < |s.tasks| && s.tasks[second].phase.Live? && !Wiring(s.tasks[second]) && !MustBeWired(s, second)
    ensures acts <= all && !Run(all).early && k < |Run(all).records|
    ensures Run(acts).records[k].freed == 0 && Run(acts).records[k].reference == 2
    ensures Run(all).records[k].freed == 1 && Run(all).records[k].reference == 0
  {
    var s := Run(acts);
    RunKeeps(acts);
    assert RecordInv(s, k);
    var half := FreesFully(acts, first);
    assert Run(half).records[k] == WithoutTask(s.records[k], first);
    StillSafe(s, Run(half), first, second);
    all := FreesFully(half, second);
    assert Run(all).records[k] == WithoutTask(Run(half).records[k], second);
  }

  // ---------------------------------------------------------------------------------------------
  // A dependency is recorded
  // ---------------------------------------------------------------------------------------------

  /** Until its commit begins a task can be made to depend on any task in use, itself included: that adds one record. */
  lemma AddsRecord(acts: seq<Action>, t: nat, p: nat)
    requires !Run(acts).early && t < |Run(acts).tasks| && p < |Run(acts).tasks|
    requires Run(acts).tasks[t].phase.Live? && Run(acts).tasks[t].wiring.None? && Run(acts).tasks[p].phase.Live?
    ensures var s, s' := Run(acts), Run(acts + [AddDep(t, p)]); var k := |s.records|;
      && |s'.records| == k + 1 && s'.records[..k] == s.records
      && s'.records[k].parent == Some(p) && s'.records[k].child == Some(t)
      && s'.records[k].reference == 2 && s'.records[k].freed == 0 && !s'.records[k].wired
      && s'.tasks == s.tasks[t := s.tasks[t].(parents := s.tasks[t].parents + [k])]
  {
    assert (acts + [AddDep(t, p)])[..|acts|] == acts;
  }

  // ---------------------------------------------------------------------------------------------
  // A commit gets done
  // ---------------------------------------------------------------------------------------------

  /** Task `t` has wired some of its records; other tasks have at most got more on their children lists. */
  ghost predicate OnlyWires(s: State, s': State, t: nat) {
    && t < |s.tasks| == |s'.tasks| && |s'.records| == |s.records| && s'.early == s.early
    && (forall u :: 0 <= u < |s.tasks| ==>
          && s'.tasks[u].parents == s.tasks[u].parents && s'.tasks[u].phase == s.tasks[u].phase
          && (u != t ==> s'.tasks[u].wiring == s.tasks[u].wiring) && s.tasks[u].childs <= s'.tasks[u].childs)
    && forall k :: 0 <= k < |s.records| ==>
         s'.records[k] == s.records[k].(wired := s'.records[k].wired, posP := s'.records[k].posP)
  }

  lemma OnlyWiresThen(a: State, b: State, c: State, t: nat)
    requires OnlyWires(a, b, t) && OnlyWires(b, c, t)
    ensures OnlyWires(a, c, t)
  {
    forall k | 0 <= k < |a.records|
      ensures c.records[k] == a.records[k].(wired := c.records[k].wired, posP := c.records[k].posP)
    {
      assert b.records[k] == a.records[k].(wired := b.records[k].wired, posP := b.records[k].posP);
    }
  }

  lemma WiresTasks(s: State, t: nat, u: nat)
    requires t < |s.tasks| && u < |s.tasks| && s.tasks[t].phase.Live? && Wiring(s.tasks[t])
    ensures var s' := Next(s, Go(t));
      && |s'.tasks| == |s.tasks| && s'.early == s.early
      && s'.tasks[u].parents == s.tasks[u].parents && s'.tasks[u].phase == s.tasks[u].phase
      && s'.tasks[u].wiring == (if u == t then Some(s.tasks[t].wiring.value + 1) else s.tasks[u].wiring)
      && s.tasks[u].childs <= s'.tasks[u].childs
  {
  }

  lemma WiresRecords(s: State, t: nat, k: nat)
    requires t < |s.tasks| && s.tasks[t].phase.Live? && Wiring(s.tasks[t])
    ensures var s' := Next(s, Go(t));
      |s'.records| == |s.records| && (k < |s.records| ==>
        s'.records[k] == s.records[k].(wired := s'.records[k].wired, posP := s'.records[k].posP))
  {
  }

  lemma WireMoves(s: State, t: nat)
    requires t < |s.tasks| && s.tasks[t].phase.Live? && Wiring(s.tasks[t])
    ensures OnlyWires(s, Next(s, Go(t)), t)
    ensures Next(s, Go(t)).tasks[t].wiring == Some(s.tasks[t].wiring.value + 1)
  {
    var s' := Next(s, Go(t));
    WiresTasks(s, t, t);
    WiresRecords(s, t, |s.records|);
    forall u | 0 <= u < |s.tasks|
      ensures s'.tasks[u].parents == s.tasks[u].parents && s'.tasks[u].phase == s.tasks[u].phase
      ensures (u != t ==> s'.tasks[u].wiring == s.tasks[u].wiring) && s.tasks[u].childs <= s'.tasks[u].childs
    {
      WiresTasks(s, t, u);
    }
    forall k | 0 <= k < |s.records|
      ensures s'.records[k] == s.records[k].(wired := s'.records[k].wired, posP := s'.records[k].posP)
    {
      WiresRecords(s, t, k);
    }
  }

  lemma {:induction false} WiresFully(acts: seq<Action>, t: nat) returns (all: seq<Action>)
    requires t < |Run(acts).tasks| && Run(acts).tasks[t].phase.Live? && Run(acts).tasks[t].wiring.Some?
    requires Run(acts).tasks[t].wiring.value <= |Run(acts).tasks[t].parents|
    ensures acts <= all && forall i :: |acts| <= i < |all| ==> all[i] == Go(t)
    ensures OnlyWires(Run(acts), Run(all), t)
    ensures Run(all).tasks[t].wiring == Some(|Run(acts).tasks[t].parents|)
    decreases |Run(acts).tasks[t].parents| - Run(acts).tasks[t].wiring.value
  {
    var s := Run(acts);
    all := acts;
    if Wiring(s.tasks[t]) {
      WireMoves(s, t);
      var more := Do(acts, Go(t));
      all := WiresFully(more, t);
      OnlyWiresThen(s, Run(more), Run(all), t);
      assert forall i :: |acts| <= i < |more| ==> more[i] == all[i];
    }
  }

  /**
   A commit gets done: afterwards every record of the task is on the children list of the task it names as its parent,
   and no task or record has changed in any other way.
   */
  lemma CommitsFully(acts: seq<Action>, t: nat) returns (all: seq<Action>)
    requires !Run(acts).early && t < |Run(acts).tasks|
    requires Run(acts).tasks[t].phase.Live? && Run(acts).tasks[t].wiring.None?
    ensures acts + [Commit(t)] <= all && forall i :: |acts| < i < |all| ==> all[i] == Go(t)
    ensures OnlyWires(Run(acts), Run(all), t) && !Wiring(Run(all).tasks[t])
    ensures var s' := Run(all);
      forall i :: 0 <= i < |s'.tasks[t].parents| ==> OnItsList(s', s'.tasks[t].parents[i])
  {
    var s := Run(acts);
    var begun := Do(acts, Commit(t));
    all := WiresFully(begun, t);
    OnlyWiresThen(s, Run(begun), Run(all), t);
    RunKeeps(all);
    var s' := Run(all);
    forall i | 0 <= i < |s'.tasks[t].parents| ensures OnItsList(s', s'.tasks[t].parents[i]) {
      assert TaskInv(s', t);
      assert RecordInv(s', s'.tasks[t].parents[i]);
    }
  }

  /** The record is wired, and on the children list of its parent, which it names if it is not being freed. */
  ghost predicate OnItsList(s: State, k: nat) {
    && k < |s.records| && s.records[k].wired && s.records[k].p < |s.tasks| && k in s.tasks[s.records[k].p].childs
    && (s.tasks[s.records[k].p].phase.Live? ==> s.records[k].parent == Some(s.records[k].p))
  }
}
