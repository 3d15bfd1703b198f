/**
 The priority scan, the drain loop and the shutdown loops of src/driver/native/twnative_engine_sched.c:15-59,
 twnative_engine.c:128-153 and twnative_engine_int.c:15-53 on an engine used by one thread: a job is
 popped from the first level that has one and its task run; draining runs all tasks, sorted stably by priority.
 Handlers commit nothing; what each will return is listed in `outcome`.
 */
module EngineCode {
  import opened Common
  import opened Tasks

  const STANDARD: nat := 2

  // ---------------------------------------------------------------------------------------------
  // Queues in scan order
  // ---------------------------------------------------------------------------------------------

  /** The jobs of levels `from` up to `end`, in the order a scan meets them. */
  function Flatten(queues: seq<seq<nat>>, from: nat, end: nat): seq<nat>
    decreases end - from, 1
  {
    if from >= end || from >= |queues| then [] else FlattenOn(queues, from, end)
  }

  function FlattenOn(queues: seq<seq<nat>>, from: nat, end: nat): seq<nat>
    requires from < end && from < |queues|
    decreases end - from, 0
  {
    queues[from] + Flatten(queues, from + 1, end)
  }

  lemma {:induction false} FlattenSame(a: seq<seq<nat>>, b: seq<seq<nat>>, from: nat, end: nat)
    requires |a| == |b| && forall k :: from <= k < end && k < |a| ==> a[k] == b[k]
    ensures Flatten(a, from, end) == Flatten(b, from, end)
    decreases end - from
  {
    if from < end && from < |a| { FlattenSame(a, b, from + 1, end); }
  }

  /** Popping the front job of level `k`, when the levels before it are empty, pops the front of the whole. */
  lemma {:induction false} FlattenPop(a: seq<seq<nat>>, from: nat, k: nat, end: nat)
    requires from <= k < end <= |a| && a[k] != [] && forall l :: from <= l < k ==> a[l] == []
    ensures Flatten(a, from, end) == [a[k][0]] + Flatten(a[k := a[k][1..]], from, end)
    decreases k - from
  {
    var b := a[k := a[k][1..]];
    if from == k {
      FlattenSame(a, b, from + 1, end);
      FrontRest(a[k], Flatten(a, from + 1, end));
    } else {
      FlattenPop(a, from + 1, k, end);
      SkipEmpty(a, from, end);
      SkipEmpty(b, from, end);
    }
  }

  lemma FrontRest(q: seq<nat>, rest: seq<nat>)
    requires q != []
    ensures q + rest == [q[0]] + (q[1..] + rest)
  {
  }

  lemma SkipEmpty(a: seq<seq<nat>>, from: nat, end: nat)
    requires from < end && from < |a| && a[from] == []
    ensures Flatten(a, from, end) == Flatten(a, from + 1, end)
  {
  }

  lemma {:induction false} FlattenNone(a: seq<seq<nat>>, from: nat, end: nat)
    requires end <= |a| && forall l :: from <= l < end ==> a[l] == []
    ensures Flatten(a, from, end) == []
    decreases end - from
  {
    if from < end { FlattenNone(a, from + 1, end); }
  }

  lemma {:induction false} FlattenIn(a: seq<seq<nat>>, from: nat, end: nat, k: nat, j: nat)
    requires from <= k < end && k < |a| && j in a[k]
    ensures j in Flatten(a, from, end)
    decreases k - from
  {
    if from < k { FlattenIn(a, from + 1, end, k, j); }
  }

  // ---------------------------------------------------------------------------------------------
  // Stable sorting
  // ---------------------------------------------------------------------------------------------

  /** The tasks of `ids` with priority `k`, in order. */
  function AtLevel(ids: seq<nat>, prio: seq<nat>, k: nat): seq<nat>
    decreases ids, 1
  {
    if ids == [] then [] else EndAtLevel(ids, prio, k)
  }

  function EndAtLevel(ids: seq<nat>, prio: seq<nat>, k: nat): seq<nat>
    requires ids != []
    decreases ids, 0
  {
    AtLevel(ids[..|ids| - 1], prio, k) + if PrioOf(prio, ids[|ids| - 1]) == k then [ids[|ids| - 1]] else []
  }

  function PrioOf(prio: seq<nat>, t: nat): nat { if t < |prio| then prio[t] else 0 }

  /**
   `out` is `ids` sorted stably by priority: the same tasks, in order of priority, and those of equal priority
   in the order they had.
   */
  ghost predicate StablySorted(ids: seq<nat>, prio: seq<nat>, out: seq<nat>) {
    && multiset(out) == multiset(ids)
    && Ordered(prio, out)
    && SameLevels(prio, out, ids)
  }

  lemma AtLevelSnoc(ids: seq<nat>, prio: seq<nat>, i: nat, k: nat)
    requires i < |ids|
    ensures AtLevel(ids[..i + 1], prio, k)
      == AtLevel(ids[..i], prio, k) + if PrioOf(prio, ids[i]) == k then [ids[i]] else []
  {
    assert ids[..i + 1][..i] == ids[..i];
  }

  lemma {:induction false} AtLevelAll(ids: seq<nat>, prio: seq<nat>, k: nat)
    requires forall i :: 0 <= i < |ids| ==> PrioOf(prio, ids[i]) == k
    ensures AtLevel(ids, prio, k) == ids
  {
    if ids != [] {
      AtLevelAll(ids[..|ids| - 1], prio, k);
      assert ids == ids[..|ids| - 1] + [ids[|ids| - 1]];
    }
  }

  lemma {:induction false} AtLevelNone(ids: seq<nat>, prio: seq<nat>, k: nat)
    requires forall i :: 0 <= i < |ids| ==> PrioOf(prio, ids[i]) != k
    ensures AtLevel(ids, prio, k) == []
  {
    if ids != [] { AtLevelNone(ids[..|ids| - 1], prio, k); }
  }

  lemma {:induction false} AtLevelOnly(ids: seq<nat>, prio: seq<nat>, k: nat)
    ensures forall i :: 0 <= i < |AtLevel(ids, prio, k)| ==> PrioOf(prio, AtLevel(ids, prio, k)[i]) == k
  {
    if ids != [] {
      AtLevelOnly(ids[..|ids| - 1], prio, k);
      assert AtLevel(ids, prio, k) == EndAtLevel(ids, prio, k);
    }
  }

  lemma {:induction false} AtLevelSplit(a: seq<nat>, b: seq<nat>, prio: seq<nat>, k: nat)
    ensures AtLevel(a + b, prio, k) == AtLevel(a, prio, k) + AtLevel(b, prio, k)
  {
    if b == [] {
      assert a + b == a;
    } else {
      AtLevelSplit(a, b[..|b| - 1], prio, k);
      assert (a + b)[..|a + b| - 1] == a + b[..|b| - 1];
      assert AtLevel(a + b, prio, k) == EndAtLevel(a + b, prio, k) && AtLevel(b, prio, k) == EndAtLevel(b, prio, k);
    }
  }

  /** The levels `from` up to `end` of a list, one after the other. */
  function Levels(ids: seq<nat>, prio: seq<nat>, from: nat, end: nat): seq<nat>
    decreases end - from
  {
    if from >= end then [] else AtLevel(ids, prio, from) + Levels(ids, prio, from + 1, end)
  }

  /** Every priority lies in the given range, and they rise. */
  ghost predicate Rising(out: seq<nat>, prio: seq<nat>, from: nat, end: nat) {
    && (forall i :: 0 <= i < |out| ==> from <= PrioOf(prio, out[i]) < end)
    && (forall i, j :: 0 <= i < j < |out| ==> PrioOf(prio, out[i]) <= PrioOf(prio, out[j]))
  }

  lemma LevelThenRest(head: seq<nat>, rest: seq<nat>, prio: seq<nat>, from: nat, end: nat)
    requires from < end && Rising(rest, prio, from + 1, end)
    requires forall i :: 0 <= i < |head| ==> PrioOf(prio, head[i]) == from
    ensures Rising(head + rest, prio, from, end)
  {
  }

  lemma {:induction false} LevelsSorted(ids: seq<nat>, prio: seq<nat>, from: nat, end: nat)
    ensures Rising(Levels(ids, prio, from, end), prio, from, end)
    decreases end - from
  {
    if from < end {
      LevelsSorted(ids, prio, from + 1, end);
      AtLevelOnly(ids, prio, from);
      LevelThenRest(AtLevel(ids, prio, from), Levels(ids, prio, from + 1, end), prio, from, end);
    }
  }

  /** What one level contributes to another. */
  lemma LevelOfLevel(ids: seq<nat>, prio: seq<nat>, l: nat, k: nat)
    ensures AtLevel(AtLevel(ids, prio, l), prio, k) == if k == l then AtLevel(ids, prio, k) else []
  {
    AtLevelOnly(ids, prio, l);
    if k == l {
      AtLevelAll(AtLevel(ids, prio, l), prio, k);
    } else {
      AtLevelNone(AtLevel(ids, prio, l), prio, k);
    }
  }

  lemma {:induction false} LevelsStable(ids: seq<nat>, prio: seq<nat>, from: nat, end: nat, k: nat)
    ensures AtLevel(Levels(ids, prio, from, end), prio, k) == if from <= k < end then AtLevel(ids, prio, k) else []
    decreases end - from
  {
    if from < end {
      var head, rest := AtLevel(ids, prio, from), Levels(ids, prio, from + 1, end);
      LevelsStable(ids, prio, from + 1, end, k);
      LevelOfLevel(ids, prio, from, k);
      AtLevelSplit(head, rest, prio, k);
      Either(AtLevel(head, prio, k), AtLevel(rest, prio, k));
    }
  }

  lemma Either(a: seq<nat>, b: seq<nat>)
    ensures a == [] ==> a + b == b
    ensures b == [] ==> a + b == a
  {
  }

  lemma {:induction false} LevelsCount(ids: seq<nat>, prio: seq<nat>, from: nat, end: nat, x: nat)
    ensures multiset(Levels(ids, prio, from, end))[x] == if from <= PrioOf(prio, x) < end then multiset(ids)[x] else 0
    decreases end - from
  {
    if from < end {
      var head: seq<nat> := AtLevel(ids, prio, from);
      var rest: seq<nat> := Levels(ids, prio, from + 1, end);
      LevelsCount(ids, prio, from + 1, end, x);
      AtLevelCount(ids, prio, from, x);
      assert Levels(ids, prio, from, end) == head + rest;
    }
  }

  lemma {:induction false} AtLevelCount(ids: seq<nat>, prio: seq<nat>, k: nat, x: nat)
    ensures multiset(AtLevel(ids, prio, k))[x] == if PrioOf(prio, x) == k then multiset(ids)[x] else 0
  {
    if ids != [] {
      AtLevelCount(ids[..|ids| - 1], prio, k, x);
      assert ids == ids[..|ids| - 1] + [ids[|ids| - 1]];
    }
  }

  /** Levels one after the other are a stable sort of a list whose priorities are all accepted. */
  lemma LevelsSort(ids: seq<nat>, prio: seq<nat>, end: nat)
    requires forall i :: 0 <= i < |ids| ==> PrioOf(prio, ids[i]) < end
    ensures StablySorted(ids, prio, Levels(ids, prio, 0, end))
  {
    var out: seq<nat> := Levels(ids, prio, 0, end);
    LevelsSorted(ids, prio, 0, end);
    forall x: nat ensures multiset(out)[x] == multiset(ids)[x] {
      LevelsCount(ids, prio, 0, end, x);
      if multiset(ids)[x] > 0 { assert x in ids; }
    }
    forall k: nat ensures AtLevel(out, prio, k) == AtLevel(ids, prio, k) {
      LevelsStable(ids, prio, 0, end, k);
      if k >= end { AtLevelNone(ids, prio, k); }
    }
  }

  /** There is only one way to sort stably. */
  lemma StableUnique(ids: seq<nat>, prio: seq<nat>, a: seq<nat>, b: seq<nat>)
    requires StablySorted(ids, prio, a) && StablySorted(ids, prio, b)
    ensures a == b
  {
    forall k: nat ensures AtLevel(a, prio, k) == AtLevel(b, prio, k) {
      assert AtLevel(a, prio, k) == AtLevel(ids, prio, k) && AtLevel(b, prio, k) == AtLevel(ids, prio, k);
    }
    SameOrder(prio, a, b);
  }

  lemma LastTop(prio: seq<nat>, a: seq<nat>, x: nat)
    requires Ordered(prio, a) && x in a
    ensures PrioOf(prio, x) <= PrioOf(prio, a[|a| - 1])
  {
    var i :| 0 <= i < |a| && a[i] == x;
  }

  lemma LastOfLevel(prio: seq<nat>, a: seq<nat>)
    requires a != []
    ensures var level := AtLevel(a, prio, PrioOf(prio, a[|a| - 1])); level != [] && level[|level| - 1] == a[|a| - 1]
  {
  }

  /** The last of a sorted list is the last of its level. */
  lemma LastSame(prio: seq<nat>, a: seq<nat>, b: seq<nat>)
    requires a != [] && b != [] && Ordered(prio, a) && Ordered(prio, b)
    requires multiset(a) == multiset(b)
    requires AtLevel(a, prio, PrioOf(prio, a[|a| - 1])) == AtLevel(b, prio, PrioOf(prio, a[|a| - 1]))
    ensures a[|a| - 1] == b[|b| - 1]
  {
    assert a[|a| - 1] in multiset(b) && b[|b| - 1] in multiset(a);
    LastTop(prio, b, a[|a| - 1]);
    LastTop(prio, a, b[|b| - 1]);
    LastOfLevel(prio, a);
    LastOfLevel(prio, b);
  }

  lemma FrontSame(prio: seq<nat>, a: seq<nat>, b: seq<nat>, k: nat)
    requires a != [] && b != [] && a[|a| - 1] == b[|b| - 1] && AtLevel(a, prio, k) == AtLevel(b, prio, k)
    ensures AtLevel(a[..|a| - 1], prio, k) == AtLevel(b[..|b| - 1], prio, k)
  {
    var la, lb := AtLevel(a[..|a| - 1], prio, k), AtLevel(b[..|b| - 1], prio, k);
    var last := if PrioOf(prio, a[|a| - 1]) == k then [a[|a| - 1]] else [];
    assert AtLevel(a, prio, k) == la + last && AtLevel(b, prio, k) == lb + last;
    assert |la| == |lb|;
    assert la == (la + last)[..|la|] && lb == (lb + last)[..|lb|];
  }

  lemma SameLength(a: seq<nat>, b: seq<nat>)
    requires multiset(a) == multiset(b)
    ensures |a| == |b|
  {
    assert |multiset(a)| == |a| && |multiset(b)| == |b|;
  }

  lemma FrontCount(a: seq<nat>, b: seq<nat>, x: nat)
    requires multiset(a + [x]) == multiset(b + [x])
    ensures multiset(a) == multiset(b)
  {
    assert multiset(a) == multiset(a + [x]) - multiset{x};
    assert multiset(b) == multiset(b + [x]) - multiset{x};
  }

  ghost predicate SameLevels(prio: seq<nat>, a: seq<nat>, b: seq<nat>) {
    forall k: nat :: AtLevel(a, prio, k) == AtLevel(b, prio, k)
  }

  lemma FrontLevels(prio: seq<nat>, a: seq<nat>, b: seq<nat>)
    requires a != [] && b != [] && a[|a| - 1] == b[|b| - 1] && SameLevels(prio, a, b)
    ensures SameLevels(prio, a[..|a| - 1], b[..|b| - 1])
  {
    var a', b' := a[..|a| - 1], b[..|b| - 1];
    forall k: nat ensures AtLevel(a', prio, k) == AtLevel(b', prio, k) {
      FrontSame(prio, a, b, k);
    }
  }

  ghost predicate Ordered(prio: seq<nat>, a: seq<nat>) {
    forall i, j :: 0 <= i < j < |a| ==> PrioOf(prio, a[i]) <= PrioOf(prio, a[j])
  }

  lemma FrontOrdered(prio: seq<nat>, a: seq<nat>)
    requires a != [] && Ordered(prio, a)
    ensures Ordered(prio, a[..|a| - 1])
  {
  }

  lemma FrontCounts(a: seq<nat>, b: seq<nat>)
    requires a != [] && b != [] && a[|a| - 1] == b[|b| - 1] && multiset(a) == multiset(b)
    ensures multiset(a[..|a| - 1]) == multiset(b[..|b| - 1])
  {
    assert a == a[..|a| - 1] + [a[|a| - 1]] && b == b[..|b| - 1] + [b[|b| - 1]];
    FrontCount(a[..|a| - 1], b[..|b| - 1], a[|a| - 1]);
  }

  lemma FrontsSame(a: seq<nat>, b: seq<nat>)
    requires |a| == |b| > 0 && a[|a| - 1] == b[|b| - 1] && a[..|a| - 1] == b[..|b| - 1]
    ensures a == b
  {
    assert a == a[..|a| - 1] + [a[|a| - 1]] && b == b[..|b| - 1] + [b[|b| - 1]];
  }

  lemma LastLevel(prio: seq<nat>, a: seq<nat>, b: seq<nat>)
    requires a != [] && b != [] && Ordered(prio, a) && Ordered(prio, b) && multiset(a) == multiset(b)
      && SameLevels(prio, a, b)
    ensures a[|a| - 1] == b[|b| - 1]
  {
    assert AtLevel(a, prio, PrioOf(prio, a[|a| - 1])) == AtLevel(b, prio, PrioOf(prio, a[|a| - 1]));
    LastSame(prio, a, b);
  }

  lemma {:induction false} SameOrder(prio: seq<nat>, a: seq<nat>, b: seq<nat>)
    requires Ordered(prio, a) && Ordered(prio, b) && multiset(a) == multiset(b) && SameLevels(prio, a, b)
    ensures a == b
    decreases |a|
  {
    SameLength(a, b);
    if a != [] {
      LastLevel(prio, a, b);
      FrontOrdered(prio, a);
      FrontOrdered(prio, b);
      FrontLevels(prio, a, b);
      FrontCounts(a, b);
      SameOrder(prio, a[..|a| - 1], b[..|b| - 1]);
      FrontsSame(a, b);
    }
  }

  // ---------------------------------------------------------------------------------------------
  // The reference for a drain: run each job in turn, skipping tasks that are not queued any more
  // ---------------------------------------------------------------------------------------------

  predicate InQueue(status: seq<int>, t: nat) { t < |status| && status[t] == QUEUE }

  function After(status: seq<int>, t: nat, outcome: nat -> bool): seq<int> {
    if t < |status| then status[t := if outcome(t) then COMPLETED else FAILED] else status
  }

  /** The tasks that get to run. */
  function Runs(jobs: seq<nat>, status: seq<int>, outcome: nat -> bool): seq<nat>
    decreases jobs, 1
  {
    if jobs == [] then [] else RunsOn(jobs, status, outcome)
  }

  function RunsOn(jobs: seq<nat>, status: seq<int>, outcome: nat -> bool): seq<nat>
    requires jobs != []
    decreases jobs, 0
  {
    if InQueue(status, jobs[0]) then [jobs[0]] + Runs(jobs[1..], After(status, jobs[0], outcome), outcome)
    else Runs(jobs[1..], status, outcome)
  }

  /** Each of `tasks` is COMPLETED if its handler succeeds and FAILED otherwise, and no other status has changed. */
  ghost predicate EndedBy(before: seq<int>, after: seq<int>, tasks: seq<nat>, outcome: nat -> bool) {
    && |after| == |before|
    && forall t :: 0 <= t < |before| ==>
         after[t] == if t in tasks then if outcome(t) then COMPLETED else FAILED else before[t]
  }

  /** Each of `tasks` is in QUEUE, and no other status has changed. */
  ghost predicate QueuedBy(before: seq<int>, after: seq<int>, tasks: seq<nat>) {
    |after| == |before| && forall t :: 0 <= t < |before| ==> after[t] == if t in tasks then QUEUE else before[t]
  }

  /** Distinct tasks have gone from QUEUE to their ends, and nothing else has changed. */
  ghost predicate AllEnded(before: seq<int>, after: seq<int>, tasks: seq<nat>, outcome: nat -> bool) {
    && EndedBy(before, after, tasks, outcome) && NoDup(tasks)
    && forall i :: 0 <= i < |tasks| ==> InQueue(before, tasks[i])
  }

  lemma EndedThen(a: seq<int>, b: seq<int>, c: seq<int>, x: seq<nat>, y: seq<nat>, outcome: nat -> bool)
    requires AllEnded(a, b, x, outcome) && AllEnded(b, c, y, outcome)
    ensures AllEnded(a, c, x + y, outcome)
  {
    forall i | 0 <= i < |y| ensures y[i] !in x && InQueue(a, y[i]) {
      assert InQueue(b, y[i]);
    }
  }

  lemma FrontRuns(job: nat, rest: seq<nat>, status: seq<int>, outcome: nat -> bool)
    ensures Runs([job] + rest, status, outcome) ==
      if InQueue(status, job) then [job] + Runs(rest, After(status, job, outcome), outcome)
      else Runs(rest, status, outcome)
  {
    assert ([job] + rest)[1..] == rest;
  }

  /** Distinct queued tasks all run, in order. */
  lemma {:induction false} RunsAll(jobs: seq<nat>, status: seq<int>, outcome: nat -> bool)
    requires NoDup(jobs) && forall i :: 0 <= i < |jobs| ==> InQueue(status, jobs[i])
    ensures Runs(jobs, status, outcome) == jobs
  {
    if jobs != [] {
      RunsAll(jobs[1..], After(status, jobs[0], outcome), outcome);
    }
  }

  class Engine {
    const queues: array<seq<nat>>
    const outcome: nat -> bool
    var nt: nat
    var sleepNt: int
    var tokens: nat
    var status: seq<int>
    var prio: seq<nat>
    /** The tasks whose handlers have been called, in order. */
    var ran: seq<nat>

    ghost predicate Valid()
      reads this, queues
    {
      && queues.Length == NUM_LEVELS && |status| == |prio|
      && (forall t :: 0 <= t < |prio| ==> prio[t] <= STANDARD)
      && (forall k, i :: 0 <= k < NUM_LEVELS && 0 <= i < |queues[k]| ==> queues[k][i] < |status|)
    }

    constructor (workers: nat, outcome: nat -> bool)
      ensures Valid() && fresh(queues) && nt == workers && sleepNt == 0 && status == [] && ran == []
      ensures this.outcome == outcome && forall k :: 0 <= k < NUM_LEVELS ==> queues[k] == []
    {
      queues := new seq<nat>[NUM_LEVELS](_ => []);
      nt, sleepNt, tokens, status, prio, ran := workers, 0, 0, [], [], [];
      this.outcome := outcome;
    }

    /** Creates a task; only priorities up to the standard one are accepted. */
    method CreateTask(priority: int) returns (ok: bool, t: nat)
      requires Valid()
      modifies this`status, this`prio
      ensures Valid() && (ok <==> 0 <= priority <= STANDARD)
      ensures if ok then t == |old(status)| && status == old(status) + [IDLE] && prio == old(prio) + [priority]
              else status == old(status) && prio == old(prio)
    {
      t := |status|;
      ok := 0 <= priority <= STANDARD;
      if ok {
        status := status + [IDLE];
        prio := prio + [priority];
      }
    }

    /** Commits a task without dependencies: it goes through READY straight into the queue of its priority. */
    method CommitTask(t: nat) returns (ok: bool)
      requires Valid() && t < |status|
      modifies this`status, this`tokens, queues
      ensures Valid() && (ok <==> old(status[t]) == IDLE)
      ensures status == (if ok then old(status)[t := QUEUE] else old(status))
      ensures queues[..] == if ok then old(queues[..])[prio[t] := old(queues[prio[t]]) + [t]] else old(queues[..])
      ensures tokens == old(tokens) + if ok then 1 else 0
    {
      ok := status[t] == IDLE;
      if ok {
        status := status[t := DEPHOLD];
        status := status[t := READY];
        status := status[t := QUEUE];
        queues[prio[t]] := queues[prio[t]] + [t];
        tokens := tokens + 1;
      }
    }

    method Pop(k: nat) returns (job: nat, success: bool)
      requires Valid() && k < NUM_LEVELS
      modifies queues
      ensures Valid() && (success <==> old(queues[k]) != [])
      ensures success ==> job == old(queues[k])[0] && queues[..] == old(queues[..])[k := old(queues[k])[1..]]
      ensures !success ==> queues[..] == old(queues[..])
    {
      job, success := 0, queues[k] != [];
      if success {
        job := queues[k][0];
        queues[k] := queues[k][1..];
      }
    }

    /** Runs the task unless somebody else has. */
    method RunTask(t: nat) returns (success: bool)
      requires Valid() && t < |status|
      modifies this`status, this`ran
      ensures Valid() && (success <==> InQueue(old(status), t))
      ensures status == if success then old(status)[t := if outcome(t) then COMPLETED else FAILED] else old(status)
      ensures ran == if success then old(ran) + [t] else old(ran)
    {
      success := status[t] == QUEUE;
      if success {
        status := status[t := RUNNING];
        ran := ran + [t];
        if outcome(t) {
          status := status[t := FINAL];
          status := status[t := COMPLETED];
        } else {
          status := status[t := FAILED];
        }
      }
    }

    /** The lowest level is scanned only while some worker sleeps and there is more than one. */
    function MaxLevel(): nat
      reads this
    {
      if sleepNt > 0 && nt > 1 then NUM_LEVELS else NUM_LEVELS - 1
    }

    /** The jobs a scan can meet. */
    ghost function Waiting(): seq<nat>
      requires queues.Length == NUM_LEVELS
      reads this, queues
    {
      Flatten(queues[..], 0, MaxLevel())
    }

    /** What a drain would still run. */
    ghost function Pending(): seq<nat>
      requires queues.Length == NUM_LEVELS
      reads this, queues
    {
      Runs(Waiting(), status, outcome)
    }

    /** What a scan without a task leaves; it looks at the lowest level only while one of several workers sleeps. */
    ghost predicate NoneLeft()
      requires queues.Length == NUM_LEVELS
      reads this, queues
    {
      && (forall k :: 0 <= k <= STANDARD ==> queues[k] == [])
      && (sleepNt > 0 && nt > 1 ==> queues[NUM_LEVELS - 1] == [])
    }

    /** The lowest level is as it `was`, unless one of several workers sleeps. */
    ghost predicate LowestKept(was: seq<nat>)
      requires queues.Length == NUM_LEVELS
      reads this, queues
    {
      (sleepNt > 0 && nt > 1) || queues[NUM_LEVELS - 1] == was
    }

    /** Pops the front job of level `cur`, the first that is not empty, and runs its task unless somebody else has. */
    method TryFront(cur: nat) returns (success: bool, t: nat)
      requires Valid() && cur < MaxLevel() && queues[cur] != [] && forall k :: 0 <= k < cur ==> queues[k] == []
      modifies this`status, this`ran, queues
      ensures Valid() && forall k :: 0 <= k < cur ==> queues[k] == []
      ensures ran == old(ran) + Outcome(success, t) && |Waiting()| < old(|Waiting()|)
      ensures old(ran) + old(Pending()) == ran + Pending() && LowestKept(old(queues[NUM_LEVELS - 1]))
      ensures AllEnded(old(status), status, Outcome(success, t), outcome)
    {
      ghost var r0 := ran;
      var job := PopFront(cur);
      ghost var rest, s0 := Waiting(), status;
      success := RunTask(job);
      t := job;
      FrontRuns(job, rest, s0, outcome);
      Regroup(r0, Outcome(success, t), Runs(rest, status, outcome));
    }

    method PopFront(cur: nat) returns (job: nat)
      requires Valid() && cur < MaxLevel() && queues[cur] != [] && forall k :: 0 <= k < cur ==> queues[k] == []
      modifies queues
      ensures Valid() && job < |status| && old(Waiting()) == [job] + Waiting()
      ensures LowestKept(old(queues[NUM_LEVELS - 1])) && forall k :: 0 <= k < cur ==> queues[k] == []
    {
      ghost var before := queues[..];
      var found;
      job, found := Pop(cur);
      assert before[cur][0] == job && queues[..] == before[cur := before[cur][1..]];
      FlattenPop(before, 0, cur, MaxLevel());
    }

    /**
     Runs the first task the reference runs, if there is one, and that one only; otherwise no task changes and nothing
     is left on the levels a task can be queued at.
     */
    method SchedulerCore() returns (success: bool, t: nat)
      requires Valid()
      modifies this`status, this`ran, queues
      ensures Valid() && ran == old(ran) + Outcome(success, t)
      ensures old(ran) + old(Pending()) == ran + Pending()
      ensures AllEnded(old(status), status, Outcome(success, t), outcome)
      ensures if success then |Waiting()| < old(|Waiting()|) else NoneLeft()
      ensures LowestKept(old(queues[NUM_LEVELS - 1]))
    {
      var maxLevel := MaxLevel();
      var cur: nat := 0;
      success, t := false, 0;
      while cur < maxLevel && !success
        invariant Valid() && cur <= maxLevel == MaxLevel() && forall k :: 0 <= k < cur ==> queues[k] == []
        invariant ran == old(ran) + Outcome(success, t)
        invariant ran + Pending() == old(ran) + old(Pending())
        invariant |Waiting()| <= old(|Waiting()|) && (success ==> |Waiting()| < old(|Waiting()|))
        invariant AllEnded(old(status), status, Outcome(success, t), outcome)
        invariant LowestKept(old(queues[NUM_LEVELS - 1]))
        decreases !success, maxLevel - cur, |Waiting()|
      {
        ghost var s1 := status;
        success, t, cur := Look(cur, old(ran) + old(Pending()), old(|Waiting()|));
        EndedThen(old(status), s1, status, [], Outcome(success, t), outcome);
        assert [] + Outcome(success, t) == Outcome(success, t);
      }
    }

    /** One turn of the scan: the front job of the level, or on to the next level. */
    method Look(cur: nat, ghost all: seq<nat>, ghost most: nat) returns (success: bool, t: nat, next: nat)
      requires Valid() && cur < MaxLevel() && forall k :: 0 <= k < cur ==> queues[k] == []
      requires ran + Pending() == all && |Waiting()| <= most
      modifies this`status, this`ran, queues
      ensures Valid() && cur <= next <= MaxLevel() && forall k :: 0 <= k < next ==> queues[k] == []
      ensures ran == old(ran) + Outcome(success, t) && ran + Pending() == all
      ensures |Waiting()| <= most && (success ==> |Waiting()| < most)
      ensures cur < next || |Waiting()| < old(|Waiting()|)
      ensures AllEnded(old(status), status, Outcome(success, t), outcome)
      ensures LowestKept(old(queues[NUM_LEVELS - 1]))
    {
      if queues[cur] != [] {
        success, t := TryFront(cur);
        next := cur;
      } else {
        success, t, next := false, 0, cur + 1;
      }
    }

    lemma NothingWaits()
      requires Valid() && NoneLeft()
      ensures Waiting() == []
    {
      FlattenNone(queues[..], 0, MaxLevel());
    }

    /**
     Works once; or until nothing is left that a scan can meet; or until the time is up, which is looked at after each
     turn. What it runs is always a first part of what a drain would run.
     */
    method DoWork(timeout: Timeout)
      requires Valid()
      modifies this`status, this`ran, queues
      ensures Valid()
      ensures timeout.Once? ==> ran == old(ran) + FirstOf(old(Pending()))
      ensures !timeout.Once? ==> old(ran) <= ran && WorkedUntil(timeout, ran[|old(ran)|..], old(Pending()))
      ensures !timeout.Once? && !TimeUp(timeout, ran[|old(ran)|..]) ==> NoneLeft()
      ensures AllEnded(old(status), status, ran[|old(ran)|..], outcome) && LowestKept(old(queues[NUM_LEVELS - 1]))
    {
      ghost var r0, s0, all := ran, status, Pending();
      var haveTask, t := SchedulerCore();
      assert ran[|r0|..] == Outcome(haveTask, t);
      if !haveTask { NothingWaits(); }
      if timeout.Once? {
        Cancel(r0, all, Outcome(haveTask, t), Pending());
      } else {
        GoOn(timeout, haveTask, r0, s0, all);
      }
    }

    /** The rest of the loop, after its first turn; `r0` had been run before, and a drain would have run `all`. */
    method GoOn(timeout: Timeout, first: bool, ghost r0: seq<nat>, ghost s0: seq<int>, ghost all: seq<nat>)
      requires Valid() && (!first ==> NoneLeft()) && !timeout.Once?
      requires |ran| == |r0| + Bit(first) && ran + Pending() == r0 + all && RunFrom(r0, s0)
      modifies this`status, this`ran, queues
      ensures Valid() && RunFrom(r0, s0) && WorkedUntil(timeout, ran[|r0|..], all)
      ensures !TimeUp(timeout, ran[|r0|..]) ==> NoneLeft()
      ensures LowestKept(old(queues[NUM_LEVELS - 1]))
    {
      var turns, haveTask := Turns(timeout, first, r0, s0, r0 + all);
      if !haveTask { NothingWaits(); }
      Worked(timeout, turns, haveTask, r0, all, ran, Pending());
    }

    /** Since `r0` had been run and the statuses were `s0`, what has been run has ended as it should. */
    ghost predicate RunFrom(r0: seq<nat>, s0: seq<int>)
      reads this
    {
      r0 <= ran && AllEnded(s0, status, ran[|r0|..], outcome)
    }

    method Turn(ghost r0: seq<nat>, ghost s0: seq<int>, ghost total: seq<nat>) returns (haveTask: bool)
      requires Valid() && ran + Pending() == total && RunFrom(r0, s0)
      modifies this`status, this`ran, queues
      ensures Valid() && ran + Pending() == total && |ran| == |old(ran)| + Bit(haveTask) && RunFrom(r0, s0)
      ensures if haveTask then |Waiting()| < old(|Waiting()|) else NoneLeft()
      ensures LowestKept(old(queues[NUM_LEVELS - 1]))
    {
      var t;
      ghost var r1, s1 := ran, status;
      haveTask, t := SchedulerCore();
      EndedThen(s0, s1, status, r1[|r0|..], Outcome(haveTask, t), outcome);
      assert ran[|r0|..] == r1[|r0|..] + Outcome(haveTask, t);
    }

    /** The loop itself: `turns` turns after the first one, until no task is found or the time is up. */
    method Turns(timeout: Timeout, first: bool, ghost r0: seq<nat>, ghost s0: seq<int>, ghost total: seq<nat>)
      returns (turns: nat, haveTask: bool)
      requires Valid() && (!first ==> NoneLeft()) && ran + Pending() == total && RunFrom(r0, s0)
      requires !timeout.Once?
      modifies this`status, this`ran, queues
      ensures Valid() && ran + Pending() == total && RunFrom(r0, s0) && LowestKept(old(queues[NUM_LEVELS - 1]))
      ensures |ran| + Bit(first) == |old(ran)| + turns + Bit(haveTask)
      ensures Timely(timeout, turns)
      ensures if haveTask then !InTime(timeout, turns) else NoneLeft()
    {
      haveTask, turns := first, 0;
      var more := haveTask && InTime(timeout, 0);
      while more
        invariant Valid() && ran + Pending() == total && (!haveTask ==> NoneLeft())
        invariant RunFrom(r0, s0) && LowestKept(old(queues[NUM_LEVELS - 1]))
        invariant |ran| + Bit(first) == |old(ran)| + turns + Bit(haveTask)
        invariant Timely(timeout, turns) && (more <==> haveTask && InTime(timeout, turns))
        decreases haveTask, |Waiting()|
      {
        haveTask := Turn(r0, s0, total);
        turns := turns + 1;
        more := haveTask && InTime(timeout, turns);
      }
    }

    /** Working without end runs all that a drain would run. */
    method Drain()
      requires Valid()
      modifies this`status, this`ran, queues
      ensures Valid() && ran == old(ran) + old(Pending()) && NoneLeft()
      ensures AllEnded(old(status), status, old(Pending()), outcome) && LowestKept(old(queues[NUM_LEVELS - 1]))
    {
      DoWork(Infinite);
      assert !TimeUp(Infinite, ran[|old(ran)|..]);
      assert ran[|old(ran)|..] == old(Pending());
    }

    /** Commits a list of new tasks in turn. */
    method CommitAll(ids: seq<nat>)
      requires Valid() && NoDup(ids)
      requires forall i :: 0 <= i < |ids| ==> ids[i] < |status| && status[ids[i]] == IDLE
      requires forall k :: 0 <= k < NUM_LEVELS ==> queues[k] == []
      modifies this`status, this`tokens, queues
      ensures Valid() && Filed(ids) && QueuedBy(old(status), status, ids)
    {
      var i := 0;
      while i < |ids|
        invariant i <= |ids| && Valid()
        invariant Filed(ids[..i])
        invariant QueuedBy(old(status), status, ids[..i])
      {
        assert ids[i] !in ids[..i];
        ghost var before := queues[..];
        var ok := CommitTask(ids[i]);
        forall k | 0 <= k < NUM_LEVELS ensures queues[k] == AtLevel(ids[..i + 1], prio, k) {
          AtLevelSnoc(ids, prio, i, k);
          assert queues[k] == queues[..][k] && before[k] == AtLevel(ids[..i], prio, k);
        }
        assert ids[..i + 1] == ids[..i] + [ids[i]];
        i := i + 1;
      }
      assert ids[..i] == ids;
    }

    /**
     Committing distinct new tasks and draining runs them all, stably sorted by priority; each ends COMPLETED if its
     handler succeeds and FAILED otherwise, and no other task changes.
     */
    method CommitAndDrain(ids: seq<nat>) returns (order: seq<nat>)
      requires Valid() && NoDup(ids)
      requires forall i :: 0 <= i < |ids| ==> ids[i] < |status| && status[ids[i]] == IDLE
      requires forall k :: 0 <= k < NUM_LEVELS ==> queues[k] == []
      modifies this`status, this`ran, this`tokens, queues
      ensures Valid() && ran == old(ran) + order && StablySorted(ids, prio, order)
      ensures EndedBy(old(status), status, ids, outcome)
      ensures forall k :: 0 <= k < NUM_LEVELS ==> queues[k] == []
    {
      CommitAll(ids);
      AcceptedPrio(ids);
      ghost var jobs := Levels(ids, prio, 0, MaxLevel());
      LevelsSort(ids, prio, MaxLevel());
      order := DrainCommitted(old(status), ids, jobs);
    }

    /** Drains after the commits, which found the statuses `before`. */
    method DrainCommitted(ghost before: seq<int>, ids: seq<nat>, ghost jobs: seq<nat>) returns (order: seq<nat>)
      requires Valid() && NoDup(ids) && Filed(ids) && QueuedBy(before, status, ids)
      requires jobs == Levels(ids, prio, 0, MaxLevel()) && forall i :: 0 <= i < |ids| ==> ids[i] < |status|
      modifies this`status, this`ran, queues
      ensures Valid() && ran == old(ran) + order && order == jobs
      ensures EndedBy(before, status, ids, outcome)
      ensures forall k :: 0 <= k < NUM_LEVELS ==> queues[k] == []
    {
      var n := |ran|;
      ghost var s1 := status;
      FiledRuns(before, ids);
      Drain();
      order := ran[n..];
      assert order == jobs;
      CommittedEnd(before, s1, status, ids, jobs, outcome);
    }

    /** At each level are the tasks of that priority, in the order of `ids`. */
    ghost predicate Filed(ids: seq<nat>)
      requires queues.Length == NUM_LEVELS
      reads this, queues
    {
      forall k :: 0 <= k < NUM_LEVELS ==> queues[k] == AtLevel(ids, prio, k)
    }

    lemma AcceptedPrio(ids: seq<nat>)
      requires Valid() && forall i :: 0 <= i < |ids| ==> ids[i] < |status|
      ensures forall i :: 0 <= i < |ids| ==> PrioOf(prio, ids[i]) <= STANDARD
    {
    }

    /** What is queued after a list of commits will all be run, and none of it is on the lowest level. */
    lemma FiledRuns(before: seq<int>, ids: seq<nat>)
      requires Valid() && NoDup(ids) && Filed(ids) && QueuedBy(before, status, ids)
      requires forall i :: 0 <= i < |ids| ==> ids[i] < |status|
      ensures Waiting() == Levels(ids, prio, 0, MaxLevel()) == Pending() && queues[NUM_LEVELS - 1] == []
      ensures forall x :: x in Waiting() <==> x in ids
    {
      AcceptedPrio(ids);
      LevelsFlatten(queues[..], ids, prio, 0, MaxLevel());
      forall i | 0 <= i < |ids| ensures InQueue(status, ids[i]) { assert ids[i] in ids; }
      LevelsRun(ids, prio, MaxLevel(), status, outcome);
      AtLevelNone(ids, prio, NUM_LEVELS - 1);
    }

    /** Posts a token for every worker. */
    method Stop()
      requires queues.Length == NUM_LEVELS
      modifies this`nt, this`tokens
      ensures nt == 0 && tokens == old(tokens) + old(nt)
    {
      var n := nt;
      nt := 0;
      var i := 0;
      while i < n
        invariant i <= n && tokens == old(tokens) + i && nt == 0
      {
        tokens := tokens + 1;
        i := i + 1;
      }
    }

    /** Takes every job out of level `k`. */
    method Clear(k: nat) returns (taken: seq<nat>)
      requires Valid() && k < NUM_LEVELS
      modifies queues
      ensures Valid() && taken == old(queues[k]) && queues[..] == old(queues[..])[k := []]
    {
      taken := [];
      var job, haveJob := Pop(k);
      while haveJob
        invariant Valid() && old(queues[k]) == taken + (if haveJob then [job] else []) + queues[k]
        invariant queues[..] == old(queues[..])[k := queues[k]]
        invariant !haveJob ==> queues[k] == []
        decreases haveJob, |queues[k]|
      {
        taken := taken + [job];
        job, haveJob := Pop(k);
      }
    }

    method ClearAll() returns (taken: seq<nat>)
      requires Valid()
      modifies queues
      ensures Valid() && taken == Flatten(old(queues[..]), 0, NUM_LEVELS)
      ensures forall k :: 0 <= k < NUM_LEVELS ==> queues[k] == []
    {
      taken := [];
      var k: nat := 0;
      ghost var all := queues[..];
      while k < NUM_LEVELS
        invariant k <= NUM_LEVELS && Valid() && queues[..] == Emptied(all, k)
        invariant Flatten(all, 0, NUM_LEVELS) == taken + Flatten(all, k, NUM_LEVELS)
      {
        var more := Clear(k);
        FlattenFront(all, k, taken, more);
        taken := taken + more;
        k := k + 1;
      }
      assert forall l :: 0 <= l < NUM_LEVELS ==> queues[..][l] == [];
    }

    /** Stops the workers and takes every job out of the queues, for its task to be retracted. */
    method Free() returns (retracted: seq<nat>)
      requires Valid()
      modifies this`nt, this`tokens, queues
      ensures Valid() && nt == 0 && tokens == old(tokens) + old(nt)
      ensures retracted == Flatten(old(queues[..]), 0, NUM_LEVELS)
      ensures forall k :: 0 <= k < NUM_LEVELS ==> queues[k] == []
    {
      Stop();
      retracted := ClearAll();
    }
  }

  /** Emptying one more level moves its jobs to the ones taken. */
  lemma FlattenFront(all: seq<seq<nat>>, k: nat, taken: seq<nat>, more: seq<nat>)
    requires k < NUM_LEVELS == |all| && more == all[k]
    ensures Emptied(all, k)[k := []] == Emptied(all, k + 1)
    ensures taken + Flatten(all, k, NUM_LEVELS) == (taken + more) + Flatten(all, k + 1, NUM_LEVELS)
  {
    assert Flatten(all, k, NUM_LEVELS) == more + Flatten(all, k + 1, NUM_LEVELS);
  }

  ghost function Emptied(all: seq<seq<nat>>, k: nat): seq<seq<nat>> {
    seq(|all|, l requires 0 <= l < |all| => if l < k then [] else all[l])
  }

  /** Committed tasks end by their outcome, and no other task changes. */
  lemma CommittedEnd(s0: seq<int>, s1: seq<int>, s2: seq<int>, ids: seq<nat>, jobs: seq<nat>, outcome: nat -> bool)
    requires QueuedBy(s0, s1, ids)
    requires AllEnded(s1, s2, jobs, outcome) && forall x :: x in jobs <==> x in ids
    ensures EndedBy(s0, s2, ids, outcome)
  {
  }

  /** What one call of the scheduler adds to the list of tasks run. */
  function Outcome(success: bool, t: nat): seq<nat> { if success then [t] else [] }

  lemma Regroup(a: seq<nat>, x: seq<nat>, q: seq<nat>)
    ensures a + (x + q) == (a + x) + q
  {
  }

  lemma Cancel(a: seq<nat>, p: seq<nat>, x: seq<nat>, q: seq<nat>)
    requires a + p == (a + x) + q
    ensures p == x + q
  {
    assert p == (a + p)[|a|..] && x + q == ((a + x) + q)[|a|..];
  }

  function FirstOf(jobs: seq<nat>): seq<nat> { if jobs == [] then [] else [jobs[0]] }

  /** The clock is a parameter: whether it is before the stop time after the turn of that number. */
  datatype Timeout = Once | Infinite | Until(inTime: nat -> bool)

  predicate InTime(timeout: Timeout, turn: nat) { timeout.Infinite? || (timeout.Until? && timeout.inTime(turn)) }

  /** The time was not up after any of the first `turns` turns. */
  predicate Timely(timeout: Timeout, turns: nat) {
    forall i :: 0 <= i < turns ==> InTime(timeout, i)
  }

  /** What was done is a first part of `all`: all of it, or as many tasks as there were turns until the time was up. */
  ghost predicate WorkedUntil(timeout: Timeout, done: seq<nat>, all: seq<nat>) {
    && done <= all && (done != [] ==> Timely(timeout, |done| - 1))
    && (done == all || TimeUp(timeout, done))
  }

  /** The time was up after the turn that ran the last of these tasks. */
  predicate TimeUp(timeout: Timeout, done: seq<nat>) { done != [] && !InTime(timeout, |done| - 1) }

  lemma FirstPart(r0: seq<nat>, all: seq<nat>, r: seq<nat>, rest: seq<nat>)
    requires r + rest == r0 + all && |r0| <= |r|
    ensures r0 <= r && r[|r0|..] <= all && (rest == [] ==> r[|r0|..] == all)
  {
    assert r == (r0 + all)[..|r|];
    assert r[|r0|..] == all[..|r| - |r0|];
  }

  /** A loop that stopped for want of a task or of time has worked as it should. */
  lemma Worked(timeout: Timeout, turns: nat, haveTask: bool, r0: seq<nat>, all: seq<nat>, r: seq<nat>, rest: seq<nat>)
    requires r + rest == r0 + all && |r| == |r0| + turns + Bit(haveTask)
    requires Timely(timeout, turns)
    requires if haveTask then !InTime(timeout, turns) else rest == []
    ensures r0 <= r && WorkedUntil(timeout, r[|r0|..], all) && (!TimeUp(timeout, r[|r0|..]) ==> !haveTask)
  {
    FirstPart(r0, all, r, rest);
  }

  /** Distinct queued tasks, level after level, all run. */
  lemma LevelsRun(ids: seq<nat>, prio: seq<nat>, end: nat, status: seq<int>, outcome: nat -> bool)
    requires NoDup(ids) && forall i :: 0 <= i < |ids| ==> InQueue(status, ids[i]) && PrioOf(prio, ids[i]) < end
    ensures Runs(Levels(ids, prio, 0, end), status, outcome) == Levels(ids, prio, 0, end)
    ensures forall x :: x in Levels(ids, prio, 0, end) <==> x in ids
  {
    var jobs := Levels(ids, prio, 0, end);
    LevelsSort(ids, prio, end);
    SortedDistinct(ids, prio, jobs);
    forall i | 0 <= i < |jobs| ensures InQueue(status, jobs[i]) { assert jobs[i] in ids; }
    RunsAll(jobs, status, outcome);
  }

  lemma {:induction false} LevelsFlatten(queues: seq<seq<nat>>, ids: seq<nat>, prio: seq<nat>, from: nat, end: nat)
    requires end <= |queues| && forall k :: from <= k < end ==> queues[k] == AtLevel(ids, prio, k)
    ensures Flatten(queues, from, end) == Levels(ids, prio, from, end)
    decreases end - from
  {
    if from < end { LevelsFlatten(queues, ids, prio, from + 1, end); }
  }

  /** Sorting distinct tasks keeps them distinct, and keeps the set. */
  lemma SortedDistinct(ids: seq<nat>, prio: seq<nat>, out: seq<nat>)
    requires StablySorted(ids, prio, out) && NoDup(ids)
    ensures NoDup(out) && forall x :: x in out <==> x in ids
  {
    forall x: nat ensures x in out <==> x in ids { assert x in multiset(out) <==> x in multiset(ids); }
    forall x ensures multiset(ids)[x] <= 1 { CountsDistinct(ids, x); }
    forall i, j | 0 <= i < j < |out| ensures out[i] != out[j] {
      assert out == out[..j] + [out[j]] + out[j + 1..];
      assert multiset(out)[out[j]] == multiset(out[..j])[out[j]] + 1 + multiset(out[j + 1..])[out[j]];
      assert out[j] !in out[..j];
      assert out[..j][i] == out[i];
    }
  }

  lemma {:induction false} CountsDistinct(s: seq<nat>, x: nat)
    requires NoDup(s)
    ensures multiset(s)[x] == if x in s then 1 else 0
  {
    if s != [] {
      assert s == [s[0]] + s[1..];
      CountsDistinct(s[1..], x);
    }
  }
}
