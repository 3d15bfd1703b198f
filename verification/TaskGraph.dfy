/**
 The protocol as the mutually recursive code of src/driver/native/twnative_task.c and twnative_task_int.c,
 run by a single thread on any dependency graph, cyclic ones included.

 A `Graph` holds the tasks in its fields. Every access is proved to be the step `Next` allows, so each call is
 one run of the state machine and what holds for all runs holds here. The measure of the recursion is the
 total height the statuses still have to rise, then whether the call is a pass or a status change.
 */
module TaskGraph {
  import opened Tasks
  import opened TasksOwn
  import opened TasksCount
  import opened TasksCover
  import opened TasksDriven
  import opened TasksSolo
  import TasksOrder
  import TasksReturn

  // ---------------------------------------------------------------------------------------------
  // The measure
  // ---------------------------------------------------------------------------------------------

  function Height(tasks: seq<Task>): nat
    decreases tasks, 1
  {
    if tasks == [] then 0 else TopHeight(tasks)
  }

  function TopHeight(tasks: seq<Task>): nat
    requires tasks != []
    decreases tasks, 0
  {
    Height(tasks[..|tasks| - 1]) + TasksReturn.Below(tasks[|tasks| - 1].status)
  }

  /** A status rises, and COMPLETED, ABORTED and FAILED are final. */
  predicate StatusRises(was: int, now: int) { was <= now && (was >= COMPLETED ==> now == was) }

  predicate RisesTo(t: Task, t': Task) {
    StatusRises(t.status, t'.status) && t'.childs == t.childs && t'.barrier == t.barrier && |t'.deps| == |t.deps|
  }

  predicate AllRise(a: seq<Task>, b: seq<Task>)
    decreases a, 1
  {
    |a| == |b| && (a == [] || LastRises(a, b))
  }

  predicate LastRises(a: seq<Task>, b: seq<Task>)
    requires a != [] && |a| == |b|
    decreases a, 0
  {
    AllRise(a[..|a| - 1], b[..|b| - 1]) && RisesTo(a[|a| - 1], b[|b| - 1])
  }

  /** What a call may do to the tasks: statuses rise, the graph stays. */
  predicate Rises(a: seq<Task>, b: seq<Task>) {
    Height(b) <= Height(a) && AllRise(a, b)
  }

  lemma {:induction false} RiseAt(a: seq<Task>, b: seq<Task>, t: nat)
    requires AllRise(a, b) && t < |a|
    ensures RisesTo(a[t], b[t])
  {
    assert LastRises(a, b);
    if t < |a| - 1 { RiseAt(a[..|a| - 1], b[..|b| - 1], t); }
  }

  lemma {:induction false} AllRiseOn(a: seq<Task>, b: seq<Task>, c: seq<Task>)
    requires AllRise(a, b) && AllRise(b, c)
    ensures AllRise(a, c)
  {
    if a != [] {
      assert LastRises(a, b) && LastRises(b, c);
      AllRiseOn(a[..|a| - 1], b[..|b| - 1], c[..|c| - 1]);
      assert LastRises(a, c);
    }
  }

  lemma RisesOn(a: seq<Task>, b: seq<Task>, c: seq<Task>)
    requires Rises(a, b) && Rises(b, c)
    ensures Rises(a, c)
  {
    AllRiseOn(a, b, c);
  }

  lemma {:induction false} RisesSame(a: seq<Task>)
    ensures Rises(a, a)
  {
    if a != [] {
      RisesSame(a[..|a| - 1]);
      assert LastRises(a, a);
    }
  }

  /** One task is replaced by a later state of it. */
  lemma {:induction false} SetRises(tasks: seq<Task>, p: nat, t: Task)
    requires p < |tasks| && RisesTo(tasks[p], t)
    ensures Rises(tasks, tasks[p := t])
    ensures Height(tasks[p := t]) + TasksReturn.Below(tasks[p].status) == Height(tasks) + TasksReturn.Below(t.status)
  {
    var last, later := |tasks| - 1, tasks[p := t];
    if p < last {
      SetRises(tasks[..last], p, t);
      assert later[..last] == tasks[..last][p := t];
    } else {
      RisesSame(tasks[..last]);
      assert later[..last] == tasks[..last];
    }
    assert LastRises(tasks, later);
    assert Height(tasks) == TopHeight(tasks) && Height(later) == TopHeight(later);
  }

  predicate ClimbsTo(t: Task, t': Task) {
    StatusRises(t.status, t'.status) && t'.barrier == t.barrier && |t'.deps| == |t.deps|
  }

  /** Statuses rise and no task or dependency goes away; lists of children may grow. */
  predicate Climbs(a: seq<Task>, b: seq<Task>)
    decreases a, 1
  {
    |a| == |b| && (a == [] || LastClimbs(a, b))
  }

  predicate LastClimbs(a: seq<Task>, b: seq<Task>)
    requires a != [] && |a| == |b|
    decreases a, 0
  {
    Climbs(a[..|a| - 1], b[..|b| - 1]) && ClimbsTo(a[|a| - 1], b[|b| - 1])
  }

  lemma {:induction false} ClimbAt(a: seq<Task>, b: seq<Task>, t: nat)
    requires Climbs(a, b) && t < |a|
    ensures ClimbsTo(a[t], b[t])
  {
    assert LastClimbs(a, b);
    if t < |a| - 1 { ClimbAt(a[..|a| - 1], b[..|b| - 1], t); }
  }

  lemma {:induction false} ClimbsOn(a: seq<Task>, b: seq<Task>, c: seq<Task>)
    requires Climbs(a, b) && Climbs(b, c)
    ensures Climbs(a, c)
  {
    if a != [] {
      assert LastClimbs(a, b) && LastClimbs(b, c);
      ClimbsOn(a[..|a| - 1], b[..|b| - 1], c[..|c| - 1]);
      assert LastClimbs(a, c);
    }
  }

  lemma {:induction false} ClimbsSame(a: seq<Task>)
    ensures Climbs(a, a)
  {
    if a != [] {
      ClimbsSame(a[..|a| - 1]);
      assert LastClimbs(a, a);
    }
  }

  lemma {:induction false} SetClimbs(tasks: seq<Task>, p: nat, t: Task)
    requires p < |tasks| && ClimbsTo(tasks[p], t)
    ensures Climbs(tasks, tasks[p := t])
  {
    var last, later := |tasks| - 1, tasks[p := t];
    if p < last {
      SetClimbs(tasks[..last], p, t);
      assert later[..last] == tasks[..last][p := t];
    } else {
      ClimbsSame(tasks[..last]);
      assert later[..last] == tasks[..last];
    }
    assert LastClimbs(tasks, later);
  }

  lemma {:induction false} AllRiseClimbs(a: seq<Task>, b: seq<Task>)
    requires AllRise(a, b)
    ensures Climbs(a, b)
  {
    if a != [] {
      assert LastRises(a, b);
      AllRiseClimbs(a[..|a| - 1], b[..|b| - 1]);
      assert LastClimbs(a, b);
    }
  }

  /** A rise after a climb. */
  lemma ClimbsRises(a: seq<Task>, b: seq<Task>, c: seq<Task>)
    requires Climbs(a, b) && Rises(b, c)
    ensures Climbs(a, c)
  {
    AllRiseClimbs(b, c);
    ClimbsOn(a, b, c);
  }

  /** Calls that have returned, and jobs. */
  predicate Over(fs: seq<Frame>)
    decreases fs, 1
  {
    fs == [] || LastOver(fs)
  }

  predicate LastOver(fs: seq<Frame>)
    requires fs != []
    decreases fs, 0
  {
    (fs[|fs| - 1].Done? || fs[|fs| - 1].Job?) && Over(fs[..|fs| - 1])
  }

  /** What a call leaves of the activations that were there before, and of those it added. */
  predicate Frames(a: seq<Frame>, b: seq<Frame>, k: nat) {
    k < |a| <= |b| && b[..|a|] == a[k := b[k]] && Over(b[|a|..])
  }

  lemma {:induction false} OverOn(a: seq<Frame>, b: seq<Frame>)
    requires Over(a) && Over(b)
    ensures Over(a + b)
  {
    if b == [] {
      assert a + b == a;
    } else {
      assert LastOver(b);
      OverOn(a, b[..|b| - 1]);
      assert (a + b)[..|a + b| - 1] == a + b[..|b| - 1];
      assert LastOver(a + b);
    }
  }

  lemma {:induction false} OverAt(fs: seq<Frame>, u: nat)
    requires Over(fs) && u < |fs|
    ensures fs[u].Done? || fs[u].Job?
  {
    assert LastOver(fs);
    if u < |fs| - 1 { OverAt(fs[..|fs| - 1], u); }
  }

  lemma OverOne(f: Frame)
    requires f.Done? || f.Job?
    ensures Over([f])
  {
    assert [f][..0] == [];
    assert LastOver([f]);
  }

  lemma FramesAt(a: seq<Frame>, b: seq<Frame>, k: nat, u: nat)
    requires Frames(a, b, k) && u < |b| && u != k
    ensures if u < |a| then b[u] == a[u] else b[u].Done? || b[u].Job?
  {
    if u < |a| { assert b[..|a|][u] == a[u]; } else { OverAt(b[|a|..], u - |a|); }
  }

  lemma FramesOn(a: seq<Frame>, b: seq<Frame>, c: seq<Frame>, k: nat)
    requires Frames(a, b, k) && Frames(b, c, k)
    ensures Frames(a, c, k)
  {
    OverOn(b[|a|..], c[|b|..]);
    assert c[..|b|][|a|..] == b[|a|..];
    assert c[|a|..] == b[|a|..] + c[|b|..];
    assert c[..|a|] == c[..|b|][..|a|] == b[..|a|][k := c[k]] == a[k := c[k]];
  }

  lemma FramesSame(a: seq<Frame>, k: nat)
    requires k < |a|
    ensures Frames(a, a, k)
  {
    assert a[k := a[k]] == a;
  }

  /** Moving activation `k` alone, and perhaps adding one that is over. */
  lemma FramesSet(a: seq<Frame>, k: nat, f: Frame)
    requires k < |a|
    ensures Frames(a, a[k := f], k)
  {
  }

  lemma FramesThen(a: seq<Frame>, b: seq<Frame>, k: nat, f: Frame)
    requires Frames(a, b, k)
    ensures Frames(a, b[k := f], k)
  {
    FramesSet(b, k, f);
    FramesOn(a, b, b[k := f], k);
  }

  lemma FramesAdd(a: seq<Frame>, k: nat, f: Frame, g: Frame)
    requires k < |a| && (g.Done? || g.Job?)
    ensures Frames(a, a[k := f] + [g], k)
  {
    assert (a[k := f] + [g])[|a|..] == [g];
    OverOne(g);
  }

  /** A pass that made a call: when the callee has returned, the pass is where it was, and nothing else has moved. */
  lemma CalleeFrames(a: seq<Frame>, b: seq<Frame>, k: nat, f: Frame, g: Frame)
    requires k < |a| && Frames(a[k := f] + [g], b, |a|) && b[|a|].Done?
    ensures Frames(a, b, k) && b[k] == f
  {
    var more := a[k := f] + [g];
    FramesAt(more, b, |a|, k);
    assert b[..|more|][..|a|] == a[k := f];
    assert b[..|a|] == a[k := b[k]];
    OverOne(b[|a|]);
    OverOn([b[|a|]], b[|more|..]);
    assert b[|a|..] == [b[|a|]] + b[|more|..];
  }

  /** A call that has returned leaves everything at rest that was. */
  lemma EntryRest(before: seq<Frame>, g: Frame, b: seq<Frame>)
    requires Frames(before + [g], b, |before|) && b[|before|].Done?
    ensures before <= b && (Rest(before) ==> Rest(b))
  {
    var a := before + [g];
    forall u | 0 <= u < |before| ensures b[u] == before[u] { FramesAt(a, b, |before|, u); }
    if Rest(before) {
      forall u | 0 <= u < |b| ensures AtRest(b[u]) {
        if u < |before| { assert AtRest(before[u]); } else if u > |before| { FramesAt(a, b, |before|, u); }
      }
    }
  }

  lemma FramesRest(a: seq<Frame>, b: seq<Frame>, k: nat)
    requires Frames(a, b, k) && Rest(a) && AtRest(b[k])
    ensures Rest(b)
  {
    forall u | 0 <= u < |b| ensures AtRest(b[u]) {
      if u != k { FramesAt(a, b, k, u); }
      if u < |a| && u != k { assert AtRest(a[u]); }
    }
  }

  lemma RunSnoc(trace: seq<Action>, a: Action)
    ensures Run(trace + [a]) == Next(Run(trace), a)
  {
    assert (trace + [a])[..|trace|] == trace;
  }

  lemma AloneSnoc(trace: seq<Action>, a: Action)
    requires CommitsAlone(trace) && MayFollow(Run(trace), a)
    ensures CommitsAlone(trace + [a])
  {
    assert (trace + [a])[..|trace|] == trace;
    assert EndsAlone(trace + [a]);
  }

  /** Any action may follow while no commit is wiring or scanning. */
  lemma AnySnoc(trace: seq<Action>, s: State, a: Action)
    requires CommitsAlone(trace) && s == Run(trace) && forall k :: 0 <= k < |s.acts| ==> !Busy(s.acts[k])
    ensures CommitsAlone(trace + [a]) && Run(trace + [a]) == Next(s, a)
  {
    RunSnoc(trace, a);
    AloneSnoc(trace, a);
  }

  /** The activation after `update_status` returned: the caller goes on where the machine does. */
  function Exit(p: nat, was: int, now: int, success: bool): Frame {
    if success then
      if now == DEPHOLD then Commit(p, 0, Init)
      else if now == QUEUE then Enqueue(p)
      else if now == RUNNING then Handler(p)
      else Done
    else if was == READY && now == QUEUE then Enqueue(p)
    else if now == ABORTED then Retract(p)
    else Done
  }

  /** Where a task is, or how far it has got at least, after a change to `now` that succeeded and all it led to. */
  predicate EndsUp(now: int, status: int) {
    && status >= now
    && (now == FINAL ==> status == COMPLETED)
    && (now == COMPLETED || now == ABORTED || now == FAILED ==> status == now)
  }

  // ---------------------------------------------------------------------------------------------
  // The steps that write a record, spelled out
  // ---------------------------------------------------------------------------------------------

  /** Task `c` with record `j` replaced. */
  function WithEdge(tasks: seq<Task>, c: nat, j: nat, e: Edge): seq<Task>
    requires c < |tasks| && j < |tasks[c].deps|
  {
    tasks[c := tasks[c].(deps := tasks[c].deps[j := e])]
  }

  /** Task `c` after a decrement of its counter on behalf of record `j`. */
  function Counted(tasks: seq<Task>, c: nat, j: nat, e: Edge, waker: nat): seq<Task>
    requires c < |tasks| && j < |tasks[c].deps|
  {
    var t := tasks[c];
    var zero := t.counter == 1;
    tasks[c := t.(counter := t.counter - 1, deps := t.deps[j := e],
      waker := if zero then waker else t.waker,
      wakeJ := if zero then j else t.wakeJ,
      zeroes := if zero then t.zeroes + 1 else t.zeroes)]
  }

  lemma WithEdgeRises(tasks: seq<Task>, c: nat, j: nat, e: Edge)
    requires c < |tasks| && j < |tasks[c].deps|
    ensures Rises(tasks, WithEdge(tasks, c, j, e))
  {
    SetRises(tasks, c, WithEdge(tasks, c, j, e)[c]);
  }

  lemma CountedRises(tasks: seq<Task>, c: nat, j: nat, e: Edge, waker: nat)
    requires c < |tasks| && j < |tasks[c].deps|
    ensures Rises(tasks, Counted(tasks, c, j, e, waker))
  {
    SetRises(tasks, c, Counted(tasks, c, j, e, waker)[c]);
  }

  /** Task `q` with `ref` at the end of its list of children. */
  function WithChild(tasks: seq<Task>, q: nat, ref: Ref): seq<Task>
    requires q < |tasks|
  {
    tasks[q := tasks[q].(childs := tasks[q].childs + [ref])]
  }

  lemma WireIs(s: State, k: nat, p: nat, i: nat)
    requires FrameFits(s, k) && s.acts[k] == Commit(p, i, Wire) && i < |s.tasks[p].deps|
    ensures var e := s.tasks[p].deps[i];
      Step(s, k) == s.(
        tasks := WithChild(WithEdge(s.tasks, p, i, e.(wired := true)), e.parent, Ref(p, i)),
        acts := s.acts[k := Commit(p, i + 1, Wire)])
  {
  }

  lemma WireClimbs(tasks: seq<Task>, p: nat, i: nat, e: Edge, q: nat)
    requires p < |tasks| && i < |tasks[p].deps| && q < |tasks|
    ensures Climbs(tasks, WithChild(WithEdge(tasks, p, i, e), q, Ref(p, i)))
  {
    var wired := WithEdge(tasks, p, i, e);
    SetClimbs(tasks, p, wired[p]);
    SetClimbs(wired, q, WithChild(wired, q, Ref(p, i))[q]);
    ClimbsOn(tasks, wired, WithChild(wired, q, Ref(p, i)));
  }

  lemma SwapIs(s: State, k: nat, p: nat, i: nat, ps: int, ds: int)
    requires FrameFits(s, k) && s.acts[k] == Commit(p, i, Swap(ps, ds)) && i < |s.tasks[p].deps|
      && s.tasks[p].deps[i].stat == ds
    ensures var e := s.tasks[p].deps[i]; var counts := ps == COMPLETED;
      Step(s, k) == s.(
        tasks := WithEdge(s.tasks, p, i,
          if counts then e.(stat := ps, scanned := true, twice := ds == COMPLETED) else e.(stat := ps)),
        acts := s.acts[k := if counts then Commit(p, i, Drop) else Commit(p, i + 1, Scan)])
  {
  }

  lemma DropIs(s: State, k: nat, p: nat, i: nat)
    requires FrameFits(s, k) && s.acts[k] == Commit(p, i, Drop) && i < |s.tasks[p].deps|
    ensures var e, zero := s.tasks[p].deps[i], s.tasks[p].counter == 1;
      Step(s, k) == s.(
        tasks := Counted(s.tasks, p, i, e.(decS := true), k),
        acts := s.acts[k := if zero then Update(p, DEPHOLD, READY) else Commit(p, i + 1, Scan)])
  {
  }

  lemma CasIs(s: State, k: nat, p: nat, now: int, i: nat, was: int)
    requires FrameFits(s, k) && s.acts[k] == Notify(p, now, i, Cas(was)) && i < |s.tasks[p].childs|
    requires RefFits(s, s.tasks[p].childs[i]) && At(s, s.tasks[p].childs[i]).stat == was
    ensures var r := s.tasks[p].childs[i]; var e := At(s, r);
      Step(s, k) == s.(
        tasks := WithEdge(s.tasks, r.c, r.j, e.(stat := now, told := e.told || now == COMPLETED)),
        acts := s.acts[k := Notify(p, now, i, Child)])
  {
  }

  lemma DecIs(s: State, k: nat, p: nat, i: nat)
    requires FrameFits(s, k) && s.acts[k] == Notify(p, COMPLETED, i, Dec) && i < |s.tasks[p].childs|
    requires RefFits(s, s.tasks[p].childs[i])
    ensures var r := s.tasks[p].childs[i]; var zero := s.tasks[r.c].counter == 1;
      Step(s, k) == s.(
        tasks := Counted(s.tasks, r.c, r.j, At(s, r).(decN := true), |s.acts|),
        acts := if zero then s.acts[k := Notify(p, COMPLETED, i, Call(|s.acts|))] + [Update(r.c, DEPHOLD, READY)]
                else s.acts[k := Notify(p, COMPLETED, i + 1, Head)])
  {
  }

  class Graph {
    var tasks: seq<Task>
    var acts: seq<Frame>
    var log: seq<Change>
    ghost var trace: seq<Action>

    function Abs(): State
      reads this
    {
      State(tasks, acts, log, false)
    }

    ghost predicate Valid()
      reads this
    {
      Abs() == Run(trace) && CommitsAlone(trace)
    }

    /** Only activation `k` may be wiring or scanning. */
    ghost predicate Only(k: nat)
      reads this
    {
      forall u :: 0 <= u < |acts| && u != k ==> !Busy(acts[u])
    }

    ghost predicate NoneBusy()
      reads this
    {
      forall u :: 0 <= u < |acts| ==> !Busy(acts[u])
    }

    constructor ()
      ensures Valid() && NoneBusy() && tasks == [] && acts == []
    {
      tasks, acts, log, trace := [], [], [], [];
    }

    /** Records that the access just made is the step of activation `k`, which leaves the activations `next`. */
    method Tick(ghost s: State, k: nat, next: seq<Frame>)
      requires s == Run(trace) && CommitsAlone(trace) && k < |s.acts| && acts == s.acts && Only(k)
      requires FrameFits(s, k) && State(tasks, next, log, false) == Step(s, k)
      modifies this`acts, this`trace
      ensures Valid() && acts == next
    {
      RunSnoc(trace, Go(k));
      AloneSnoc(trace, Go(k));
      acts := next;
      trace := trace + [Go(k)];
    }

    // -------------------------------------------------------------------------------------------
    // One access each
    // -------------------------------------------------------------------------------------------

    method CasStatus(k: nat, p: nat, was: int, now: int) returns (success: bool)
      requires Valid() && Only(k) && k < |acts| && acts[k] == Update(p, was, now) && p < |tasks|
      modifies this
      ensures Valid() && Rises(old(tasks), tasks)
      ensures success <==> old(tasks[p].status) == was
      ensures acts == old(acts)[k := if success then Notify(p, now, 0, Head) else Exit(p, was, now, false)]
      ensures if success then tasks[p].status == now && Height(tasks) < Height(old(tasks)) else tasks == old(tasks)
    {
      ghost var s := Abs();
      Fit(trace, k);
      success := tasks[p].status == was;
      if success {
        var t := tasks[p];
        log := log + [Change(p, t.status, now)];
        tasks := tasks[p := t.(status := now,
          owner := if Mainline(now) then k else t.owner,
          committer := if now == DEPHOLD then k else t.committer)];
        SetRises(s.tasks, p, tasks[p]);
        Tick(s, k, acts[k := Notify(p, now, 0, Head)]);
      } else {
        RisesSame(tasks);
        Tick(s, k, acts[k := Exit(p, was, now, false)]);
      }
    }

    method LoadRecord(k: nat, p: nat, now: int, i: nat) returns (cur: int)
      requires Valid() && Only(k) && k < |acts| && acts[k] == Notify(p, now, i, Head) && p < |tasks|
        && i < |tasks[p].childs|
      modifies this
      ensures Valid() && tasks == old(tasks)
      ensures acts == old(acts)[k := if cur < now then Notify(p, now, i, Cas(cur)) else Notify(p, now, i + 1, Head)]
      ensures cur < now ==> RefFits(Abs(), tasks[p].childs[i]) && At(Abs(), tasks[p].childs[i]).stat == cur
    {
      ghost var s := Abs();
      Fit(trace, k);
      var r := tasks[p].childs[i];
      cur := tasks[r.c].deps[r.j].stat;
      Tick(s, k, acts[k := if cur < now then Notify(p, now, i, Cas(cur)) else Notify(p, now, i + 1, Head)]);
    }

    method CasRecord(k: nat, p: nat, now: int, i: nat, was: int) returns (cur: int)
      requires Valid() && Only(k) && k < |acts| && acts[k] == Notify(p, now, i, Cas(was)) && p < |tasks|
        && i < |tasks[p].childs|
      requires RefFits(Abs(), tasks[p].childs[i]) && At(Abs(), tasks[p].childs[i]).stat == was
      modifies this
      ensures Valid() && Rises(old(tasks), tasks) && cur == was
      ensures acts == old(acts)[k := Notify(p, now, i, Child)]
    {
      ghost var s := Abs();
      Fit(trace, k);
      CasIs(s, k, p, now, i, was);
      var r := tasks[p].childs[i];
      var e := tasks[r.c].deps[r.j];
      cur := e.stat;
      if cur == was {
        tasks := WithEdge(tasks, r.c, r.j, e.(stat := now, told := e.told || now == COMPLETED));
        WithEdgeRises(s.tasks, r.c, r.j, tasks[r.c].deps[r.j]);
      }
      Tick(s, k, acts[k := Notify(p, now, i, Child)]);
    }

    method LoadChild(k: nat, p: nat, now: int, i: nat) returns (counts: bool)
      requires Valid() && Only(k) && k < |acts| && acts[k] == Notify(p, now, i, Child) && p < |tasks|
        && i < |tasks[p].childs|
      modifies this
      ensures Valid() && tasks == old(tasks)
      ensures acts == old(acts)[k := if counts then Notify(p, now, i, Dec) else Notify(p, now, i + 1, Head)]
      ensures counts ==> now == COMPLETED
    {
      ghost var s := Abs();
      Fit(trace, k);
      var c := tasks[p].childs[i].c;
      counts := tasks[c].status == DEPHOLD && now == COMPLETED;
      Tick(s, k, acts[k := if counts then Notify(p, now, i, Dec) else Notify(p, now, i + 1, Head)]);
    }

    /**
     The handler's `status_change`: one decrement; at zero the child is to become READY, in an activation of its own.
     */
    method StatusChange(k: nat, p: nat, i: nat) returns (zero: bool)
      requires Valid() && Only(k) && k < |acts| && acts[k] == Notify(p, COMPLETED, i, Dec) && p < |tasks|
        && i < |tasks[p].childs|
      modifies this
      ensures Valid() && Rises(old(tasks), tasks)
      ensures tasks[p].childs == old(tasks[p].childs) && RefFits(Abs(), tasks[p].childs[i])
      ensures var c := tasks[p].childs[i].c;
        (zero <==> old(tasks)[c].counter == 1) && tasks[c].counter == old(tasks)[c].counter - 1
      ensures acts == if zero
        then old(acts)[k := Notify(p, COMPLETED, i, Call(|old(acts)|))] + [Update(tasks[p].childs[i].c, DEPHOLD, READY)]
        else old(acts)[k := Notify(p, COMPLETED, i + 1, Head)]
    {
      ghost var s := Abs();
      Fit(trace, k);
      DecIs(s, k, p, i);
      var r := tasks[p].childs[i];
      zero := tasks[r.c].counter == 1;
      CountedRises(tasks, r.c, r.j, tasks[r.c].deps[r.j].(decN := true), |acts|);
      tasks := Counted(tasks, r.c, r.j, tasks[r.c].deps[r.j].(decN := true), |acts|);
      Tick(s, k, if zero then acts[k := Notify(p, COMPLETED, i, Call(|acts|))] + [Update(r.c, DEPHOLD, READY)]
                 else acts[k := Notify(p, COMPLETED, i + 1, Head)]);
    }

    /** The activation the pass called has returned. */
    method Resume(k: nat, p: nat, now: int, i: nat, callee: nat)
      requires Valid() && Only(k) && k < |acts| && acts[k] == Notify(p, now, i, Call(callee)) && p < |tasks|
        && i < |tasks[p].childs|
      requires callee < |acts| && acts[callee] == Done
      modifies this
      ensures Valid() && tasks == old(tasks) && acts == old(acts)[k := Notify(p, now, i + 1, Head)]
    {
      ghost var s := Abs();
      Fit(trace, k);
      Tick(s, k, acts[k := Notify(p, now, i + 1, Head)]);
    }

    method EndPass(k: nat, p: nat, now: int, i: nat)
      requires Valid() && Only(k) && k < |acts| && acts[k] == Notify(p, now, i, Head) && p < |tasks|
        && i >= |tasks[p].childs|
      modifies this
      ensures Valid() && tasks == old(tasks) && acts == old(acts)[k := AfterPass(tasks[p], p, now)]
    {
      ghost var s := Abs();
      Fit(trace, k);
      Tick(s, k, acts[k := AfterPass(tasks[p], p, now)]);
    }

    /** Puts a job for the task in its queue. */
    method Queue(k: nat, p: nat)
      requires Valid() && Only(k) && k < |acts| && acts[k] == Enqueue(p) && p < |tasks|
      modifies this
      ensures Valid() && NoneBusy() && Rises(old(tasks), tasks) && acts == old(acts)[k := Done] + [Job(p)]
    {
      ghost var s := Abs();
      Fit(trace, k);
      var t := tasks[p];
      tasks := tasks[p := t.(owner := if t.owner == k then |acts| else t.owner)];
      SetRises(s.tasks, p, tasks[p]);
      Tick(s, k, acts[k := Done] + [Job(p)]);
    }

    // -------------------------------------------------------------------------------------------
    // The mutual recursion
    // -------------------------------------------------------------------------------------------

    /** Tells one child; when its countdown reaches zero, makes it READY before going on. */
    method VisitChild(k: nat, p: nat, now: int, i: nat)
      requires Valid() && NoneBusy() && k < |acts| && acts[k] == Notify(p, now, i, Head)
      requires p < |tasks| && i < |tasks[p].childs|
      modifies this
      ensures Valid() && NoneBusy() && Rises(old(tasks), tasks) && Frames(old(acts), acts, k)
      ensures acts[k] == Notify(p, now, i + 1, Head)
      decreases Height(tasks), 4
    {
      var curStat := LoadRecord(k, p, now, i);
      ghost var a := acts;
      FramesSet(old(acts), k, a[k]);
      if curStat < now {
        TellChild(k, p, now, i, curStat);
        FramesOn(old(acts), a, acts, k);
      } else {
        RisesSame(tasks);
      }
    }

    /** Records the status for the child, and has its countdown decremented if that is due. */
    method TellChild(k: nat, p: nat, now: int, i: nat, was: int)
      requires Valid() && NoneBusy() && k < |acts| && acts[k] == Notify(p, now, i, Cas(was))
      requires p < |tasks| && i < |tasks[p].childs|
      requires RefFits(Abs(), tasks[p].childs[i]) && At(Abs(), tasks[p].childs[i]).stat == was
      modifies this
      ensures Valid() && NoneBusy() && Rises(old(tasks), tasks) && Frames(old(acts), acts, k)
      ensures acts[k] == Notify(p, now, i + 1, Head)
      decreases Height(tasks), 3
    {
      var counts := MarkChild(k, p, now, i, was);
      FramesSet(old(acts), k, acts[k]);
      if counts {
        ghost var t, a := tasks, acts;
        CountChild(k, p, i);
        FramesOn(old(acts), a, acts, k);
        RisesOn(old(tasks), t, tasks);
      }
    }

    /** The compare-and-swap on the record, and the load of the child's status. */
    method MarkChild(k: nat, p: nat, now: int, i: nat, was: int) returns (counts: bool)
      requires Valid() && NoneBusy() && k < |acts| && acts[k] == Notify(p, now, i, Cas(was))
      requires p < |tasks| && i < |tasks[p].childs|
      requires RefFits(Abs(), tasks[p].childs[i]) && At(Abs(), tasks[p].childs[i]).stat == was
      modifies this
      ensures Valid() && NoneBusy() && Rises(old(tasks), tasks) && (counts ==> now == COMPLETED)
      ensures p < |tasks| && i < |tasks[p].childs|
      ensures acts == old(acts)[k := if counts then Notify(p, now, i, Dec) else Notify(p, now, i + 1, Head)]
    {
      var cur := CasRecord(k, p, now, i, was);
      RiseAt(old(tasks), tasks, p);
      counts := LoadChild(k, p, now, i);
    }

    method CountChild(k: nat, p: nat, i: nat)
      requires Valid() && NoneBusy() && k < |acts| && acts[k] == Notify(p, COMPLETED, i, Dec)
      requires p < |tasks| && i < |tasks[p].childs|
      modifies this
      ensures Valid() && NoneBusy() && Rises(old(tasks), tasks) && Frames(old(acts), acts, k)
      ensures acts[k] == Notify(p, COMPLETED, i + 1, Head)
      decreases Height(tasks), 2
    {
      var callee := |acts|;
      var zero := StatusChange(k, p, i);
      if zero {
        ghost var t := tasks;
        ReadyChild(k, p, i, tasks[p].childs[i].c, callee, old(acts));
        RisesOn(old(tasks), t, tasks);
      } else {
        FramesSet(old(acts), k, Notify(p, COMPLETED, i + 1, Head));
      }
    }

    /** The activation `callee` makes child `c` READY, and the pass goes on; `before` is what was there before it. */
    method ReadyChild(k: nat, p: nat, i: nat, c: nat, callee: nat, ghost before: seq<Frame>)
      requires Valid() && NoneBusy() && callee == |before| && k < callee && p < |tasks| && i < |tasks[p].childs|
        && c < |tasks|
      requires acts == before[k := Notify(p, COMPLETED, i, Call(callee))] + [Update(c, DEPHOLD, READY)]
      modifies this
      ensures Valid() && NoneBusy() && Rises(old(tasks), tasks) && Frames(before, acts, k)
      ensures acts[k] == Notify(p, COMPLETED, i + 1, Head)
      decreases Height(tasks), 1
    {
      var success := UpdateStatus(callee, c, DEPHOLD, READY);
      RiseAt(old(tasks), tasks, p);
      CalleeFrames(before, acts, k, Notify(p, COMPLETED, i, Call(callee)), Update(c, DEPHOLD, READY));
      GoOn(k, p, i, callee, before);
    }

    method GoOn(k: nat, p: nat, i: nat, callee: nat, ghost before: seq<Frame>)
      requires Valid() && NoneBusy() && k < |acts| && acts[k] == Notify(p, COMPLETED, i, Call(callee))
      requires p < |tasks| && i < |tasks[p].childs| && callee < |acts| && acts[callee] == Done
        && Frames(before, acts, k)
      modifies this
      ensures Valid() && NoneBusy() && tasks == old(tasks) && Frames(before, acts, k)
      ensures acts[k] == Notify(p, COMPLETED, i + 1, Head)
    {
      FramesThen(before, acts, k, Notify(p, COMPLETED, i + 1, Head));
      Resume(k, p, COMPLETED, i, callee);
    }

    /** Tells every child on the list. */
    method NotifyParentStatus(k: nat, p: nat, now: int)
      requires Valid() && NoneBusy() && k < |acts| && acts[k] == Notify(p, now, 0, Head) && p < |tasks|
      modifies this
      ensures Valid() && NoneBusy() && Rises(old(tasks), tasks) && Frames(old(acts), acts, k)
      ensures acts[k] == AfterPass(tasks[p], p, now)
      decreases Height(tasks), 7
    {
      TellAll(k, p, now);
      LeavePass(k, p, now, old(acts));
    }

    /** The end of the list, for a pass that began with the activations `a`. */
    method LeavePass(k: nat, p: nat, now: int, ghost a: seq<Frame>)
      requires Valid() && NoneBusy() && k < |acts| && p < |tasks| && acts[k] == Notify(p, now, |tasks[p].childs|, Head)
      requires Frames(a, acts, k)
      modifies this
      ensures Valid() && NoneBusy() && tasks == old(tasks) && Frames(a, acts, k)
      ensures p < |tasks| && acts[k] == AfterPass(tasks[p], p, now)
    {
      FramesThen(a, acts, k, AfterPass(tasks[p], p, now));
      EndPass(k, p, now, |tasks[p].childs|);
    }

    /** The loop over the list. */
    method TellAll(k: nat, p: nat, now: int)
      requires Valid() && NoneBusy() && k < |acts| && acts[k] == Notify(p, now, 0, Head) && p < |tasks|
      modifies this
      ensures Valid() && NoneBusy() && Rises(old(tasks), tasks) && Frames(old(acts), acts, k)
      ensures p < |tasks| && acts[k] == Notify(p, now, |tasks[p].childs|, Head)
      decreases Height(tasks), 6
    {
      var i := 0;
      RisesSame(tasks);
      FramesSame(acts, k);
      while i < |tasks[p].childs|
        invariant Valid() && NoneBusy() && Rises(old(tasks), tasks) && Frames(old(acts), acts, k)
        invariant i <= |tasks[p].childs| && acts[k] == Notify(p, now, i, Head)
        decreases |tasks[p].childs| - i
      {
        VisitNext(k, p, now, i, old(acts), old(tasks));
        i := i + 1;
      }
    }

    /** One turn of the loop, as part of a pass that began with the activations `a` and the tasks `t`. */
    method VisitNext(k: nat, p: nat, now: int, i: nat, ghost a: seq<Frame>, ghost t: seq<Task>)
      requires Valid() && NoneBusy() && k < |acts| && acts[k] == Notify(p, now, i, Head)
      requires p < |tasks| && i < |tasks[p].childs| && Rises(t, tasks) && Frames(a, acts, k)
      modifies this
      ensures Valid() && NoneBusy() && Rises(t, tasks) && Frames(a, acts, k) && Height(tasks) <= Height(old(tasks))
      ensures p < |tasks| && tasks[p].childs == old(tasks[p].childs) && acts[k] == Notify(p, now, i + 1, Head)
      decreases Height(tasks), 5
    {
      VisitChild(k, p, now, i);
      RisesOn(t, old(tasks), tasks);
      RiseAt(old(tasks), tasks, p);
      FramesOn(a, old(acts), acts, k);
    }

    /** Changes the status, tells the children, and does what the new status asks for. */
    method UpdateStatus(k: nat, p: nat, was: int, now: int) returns (success: bool)
      requires Valid() && NoneBusy() && k < |acts| && acts[k] == Update(p, was, now) && p < |tasks|
      modifies this
      ensures Valid() && NoneBusy() && Rises(old(tasks), tasks) && Frames(old(acts), acts, k)
      ensures acts[k] == Exit(p, was, now, success)
      ensures success <==> old(tasks[p].status) == was
      ensures success ==> EndsUp(now, tasks[p].status)
      decreases Height(tasks), 0
    {
      success := CasStatus(k, p, was, now);
      FramesSet(old(acts), k, acts[k]);
      if success {
        ghost var t, a := tasks, acts;
        PassOnStatus(k, p, was, now);
        FramesOn(old(acts), a, acts, k);
        RisesOn(old(tasks), t, tasks);
      }
    }

    /** The same, with the activations compared to those before activation `k` turned to the change. */
    method UpdateFrom(k: nat, p: nat, was: int, now: int, ghost a: seq<Frame>) returns (success: bool)
      requires Valid() && NoneBusy() && k < |a| && acts == a[k := Update(p, was, now)] && p < |tasks|
      modifies this
      ensures Valid() && NoneBusy() && Rises(old(tasks), tasks) && Frames(a, acts, k)
      ensures acts[k] == Exit(p, was, now, success)
      ensures success <==> old(tasks[p].status) == was
      ensures success ==> EndsUp(now, tasks[p].status)
    {
      success := UpdateStatus(k, p, was, now);
      FramesSet(a, k, Update(p, was, now));
      FramesOn(a, old(acts), acts, k);
    }

    /** What follows a status change that succeeded. */
    method PassOnStatus(k: nat, p: nat, was: int, now: int)
      requires Valid() && NoneBusy() && k < |acts| && acts[k] == Notify(p, now, 0, Head) && p < |tasks|
      requires tasks[p].status == now
      modifies this
      ensures Valid() && NoneBusy() && Rises(old(tasks), tasks) && Frames(old(acts), acts, k)
      ensures acts[k] == Exit(p, was, now, true) && EndsUp(now, tasks[p].status)
      decreases Height(tasks), 8
    {
      NotifyParentStatus(k, p, now);
      ghost var t, a := tasks, acts;
      RiseAt(old(tasks), t, p);
      FollowUp(k, p, was, now);
      FramesOn(old(acts), a, acts, k);
      RisesOn(old(tasks), t, tasks);
    }

    /** The switch on the new status. */
    method FollowUp(k: nat, p: nat, was: int, now: int)
      requires Valid() && NoneBusy() && k < |acts| && p < |tasks| && acts[k] == AfterPass(tasks[p], p, now)
      requires StatusRises(now, tasks[p].status)
      modifies this
      ensures Valid() && NoneBusy() && Rises(old(tasks), tasks) && Frames(old(acts), acts, k)
      ensures acts[k] == Exit(p, was, now, true) && EndsUp(now, tasks[p].status)
      decreases Height(tasks), 2
    {
      if now == READY || now == FINAL {
        if now == READY && !tasks[p].barrier { EnterQueue(k, p); } else { Complete(k, p, now); }
        RiseAt(old(tasks), tasks, p);
      } else {
        RisesSame(tasks);
        FramesSame(acts, k);
      }
    }

    /** A barrier goes from READY to FINAL, and any task from FINAL to COMPLETED. */
    method Complete(k: nat, p: nat, was: int)
      requires Valid() && NoneBusy() && k < |acts| && p < |tasks| && (was == READY || was == FINAL)
      requires acts[k] == Update(p, was, if was == READY then FINAL else COMPLETED)
      modifies this
      ensures Valid() && NoneBusy() && Rises(old(tasks), tasks) && Frames(old(acts), acts, k) && acts[k] == Done
      ensures was == FINAL ==> p < |tasks| && tasks[p].status == COMPLETED
      decreases Height(tasks), 1
    {
      if was == FINAL { StillFinal(trace, k, p); }
      var done := UpdateStatus(k, p, was, if was == READY then FINAL else COMPLETED);
    }

    method EnterQueue(k: nat, p: nat)
      requires Valid() && NoneBusy() && k < |acts| && p < |tasks| && acts[k] == Update(p, READY, QUEUE)
      modifies this
      ensures Valid() && NoneBusy() && Rises(old(tasks), tasks) && Frames(old(acts), acts, k) && acts[k] == Done
      decreases Height(tasks), 1
    {
      var queued := UpdateStatus(k, p, READY, QUEUE);
      ghost var t, a := tasks, acts;
      Queue(k, p);
      FramesAdd(a, k, Done, Job(p));
      FramesOn(old(acts), a, acts, k);
      RisesOn(old(tasks), t, tasks);
    }

    // -------------------------------------------------------------------------------------------
    // Commit
    // -------------------------------------------------------------------------------------------

    /** Creates a task; a barrier is a task without a handler. */
    method CreateTask(barrier: bool) returns (p: nat)
      requires Valid() && NoneBusy()
      modifies this
      ensures Valid() && NoneBusy() && acts == old(acts) && p == |old(tasks)|
      ensures tasks == old(tasks) + [NewTask(barrier)]
    {
      p := |tasks|;
      AnySnoc(trace, Abs(), Create(barrier));
      tasks := tasks + [NewTask(barrier)];
      trace := trace + [Create(barrier)];
    }

    /** Adds a dependency; refused once the child has been committed. */
    method AddDep(c: nat, p: nat) returns (ok: bool)
      requires Valid() && NoneBusy() && c < |tasks| && p < |tasks|
      modifies this
      ensures Valid() && NoneBusy() && acts == old(acts)
      ensures ok <==> old(tasks[c].status) == IDLE
      ensures tasks == if ok then old(tasks)[c := old(tasks[c]).(deps := old(tasks[c]).deps + [NewEdge(p)])]
        else old(tasks)
    {
      AnySnoc(trace, Abs(), Action.AddDep(c, p));
      ok := tasks[c].status == IDLE;
      if ok {
        tasks := tasks[c := tasks[c].(deps := tasks[c].deps + [NewEdge(p)])];
      }
      trace := trace + [Action.AddDep(c, p)];
    }

    /** Creates a barrier: a task without a handler that depends on every picked task there is. */
    method CreateBarrier(pick: nat -> bool) returns (b: nat)
      requires Valid() && NoneBusy()
      modifies this
      ensures Valid() && NoneBusy() && acts == old(acts) && b == |old(tasks)|
      ensures |tasks| == b + 1 && tasks[..b] == old(tasks)
      ensures tasks[b] == NewTask(true).(deps := Picked(pick, b))
    {
      b := CreateTask(true);
      var i := 0;
      while i < b
        invariant i <= b && Valid() && NoneBusy() && acts == old(acts)
        invariant |tasks| == b + 1 && tasks[..b] == old(tasks)
        invariant tasks[b] == NewTask(true).(deps := Picked(pick, i))
      {
        if pick(i) {
          var ok := AddDep(b, i);
        }
        i := i + 1;
      }
    }

    /** A commit enters the protocol. */
    method BeginCommitting(p: nat) returns (k: nat)
      requires Valid() && NoneBusy() && p < |tasks|
      modifies this`acts, this`trace
      ensures Valid() && NoneBusy() && k == |old(acts)| && acts == old(acts) + [Update(p, IDLE, DEPHOLD)]
    {
      k := |acts|;
      AnySnoc(trace, Abs(), BeginCommit(p));
      acts := acts + [Update(p, IDLE, DEPHOLD)];
      trace := trace + [BeginCommit(p)];
    }

    /** A retraction enters the protocol. */
    method BeginRetracting(p: nat) returns (k: nat)
      requires Valid() && NoneBusy() && p < |tasks|
      modifies this`acts, this`trace
      ensures Valid() && NoneBusy() && k == |old(acts)| && acts == old(acts) + [Retract(p)]
    {
      k := |acts|;
      AnySnoc(trace, Abs(), BeginRetract(p));
      acts := acts + [Retract(p)];
      trace := trace + [BeginRetract(p)];
    }

    /** Sets the countdown up. */
    method InitCount(k: nat, p: nat) returns (ndep: nat)
      requires Valid() && NoneBusy() && k < |acts| && acts[k] == Commit(p, 0, Init) && p < |tasks|
      modifies this
      ensures Valid() && Only(k) && Rises(old(tasks), tasks)
      ensures ndep == |tasks[p].deps| && tasks[p].deps == old(tasks[p].deps) && tasks[p].inited
        && tasks[p].counter == ndep
      ensures acts == old(acts)[k := if ndep == 0 then Update(p, DEPHOLD, READY) else Commit(p, 0, Wire)]
    {
      ghost var s := Abs();
      Fit(trace, k);
      var t := tasks[p];
      ndep := |t.deps|;
      tasks := tasks[p := t.(inited := true, counter := ndep, waker := if ndep == 0 then k else t.waker)];
      SetRises(s.tasks, p, tasks[p]);
      Tick(s, k, acts[k := if ndep == 0 then Update(p, DEPHOLD, READY) else Commit(p, 0, Wire)]);
    }

    /** Puts record `i` on its parent's list of children. */
    method WireOne(k: nat, p: nat, i: nat)
      requires Valid() && Only(k) && k < |acts| && acts[k] == Commit(p, i, Wire) && p < |tasks| && i < |tasks[p].deps|
      modifies this
      ensures Valid() && Only(k) && Climbs(old(tasks), tasks) && acts == old(acts)[k := Commit(p, i + 1, Wire)]
    {
      ghost var s := Abs();
      Fit(trace, k);
      var e := tasks[p].deps[i];
      tasks := WithEdge(tasks, p, i, e.(wired := true));
      tasks := WithChild(tasks, e.parent, Ref(p, i));
      WireClimbs(s.tasks, p, i, e.(wired := true), e.parent);
      WireIs(s, k, p, i);
      Tick(s, k, acts[k := Commit(p, i + 1, Wire)]);
    }

    method EndWire(k: nat, p: nat)
      requires Valid() && Only(k) && k < |acts| && p < |tasks| && acts[k] == Commit(p, |tasks[p].deps|, Wire)
      modifies this
      ensures Valid() && Only(k) && tasks == old(tasks) && acts == old(acts)[k := Commit(p, 0, Scan)]
    {
      ghost var s := Abs();
      Fit(trace, k);
      Tick(s, k, acts[k := Commit(p, 0, Scan)]);
    }

    method EndScan(k: nat, p: nat)
      requires Valid() && Only(k) && k < |acts| && p < |tasks| && acts[k] == Commit(p, |tasks[p].deps|, Scan)
      modifies this
      ensures Valid() && NoneBusy() && tasks == old(tasks) && acts == old(acts)[k := Done]
    {
      ghost var s := Abs();
      Fit(trace, k);
      Tick(s, k, acts[k := Done]);
    }

    /** The two loads of the scan. */
    method LoadBoth(k: nat, p: nat, i: nat) returns (pstatus: int, dstatus: int)
      requires Valid() && Only(k) && k < |acts| && acts[k] == Commit(p, i, Scan) && p < |tasks| && i < |tasks[p].deps|
      modifies this
      ensures Valid() && Only(k) && tasks == old(tasks) && acts == old(acts)[k := Commit(p, i, Swap(pstatus, dstatus))]
      ensures dstatus == tasks[p].deps[i].stat
    {
      ghost var s := Abs();
      Fit(trace, k);
      pstatus := tasks[tasks[p].deps[i].parent].status;
      Tick(s, k, acts[k := Commit(p, i, Rec(pstatus))]);
      dstatus := LoadRec(k, p, i, pstatus);
    }

    method LoadRec(k: nat, p: nat, i: nat, pstatus: int) returns (dstatus: int)
      requires Valid() && Only(k) && k < |acts| && acts[k] == Commit(p, i, Rec(pstatus)) && p < |tasks|
        && i < |tasks[p].deps|
      modifies this
      ensures Valid() && Only(k) && tasks == old(tasks) && acts == old(acts)[k := Commit(p, i, Swap(pstatus, dstatus))]
      ensures dstatus == tasks[p].deps[i].stat
    {
      ghost var s := Abs();
      Fit(trace, k);
      dstatus := tasks[p].deps[i].stat;
      Tick(s, k, acts[k := Commit(p, i, Swap(pstatus, dstatus))]);
    }

    /** The compare-and-swap of the scan; a completed parent is to be counted. */
    method SwapRecord(k: nat, p: nat, i: nat, pstatus: int, dstatus: int) returns (counts: bool)
      requires Valid() && Only(k) && k < |acts| && acts[k] == Commit(p, i, Swap(pstatus, dstatus))
      requires p < |tasks| && i < |tasks[p].deps| && tasks[p].deps[i].stat == dstatus
      modifies this
      ensures Valid() && Only(k) && Rises(old(tasks), tasks) && (counts <==> pstatus == COMPLETED)
      ensures acts == old(acts)[k := if counts then Commit(p, i, Drop) else Commit(p, i + 1, Scan)]
    {
      ghost var s := Abs();
      Fit(trace, k);
      SwapIs(s, k, p, i, pstatus, dstatus);
      var e := tasks[p].deps[i];
      counts := pstatus == COMPLETED;
      e := if counts then e.(stat := pstatus, scanned := true, twice := dstatus == COMPLETED) else e.(stat := pstatus);
      WithEdgeRises(tasks, p, i, e);
      tasks := WithEdge(tasks, p, i, e);
      Tick(s, k, acts[k := if counts then Commit(p, i, Drop) else Commit(p, i + 1, Scan)]);
    }

    method DropOne(k: nat, p: nat, i: nat) returns (zero: bool)
      requires Valid() && Only(k) && k < |acts| && acts[k] == Commit(p, i, Drop) && p < |tasks| && i < |tasks[p].deps|
      modifies this
      ensures Valid() && Only(k) && Rises(old(tasks), tasks)
      ensures acts == old(acts)[k := if zero then Update(p, DEPHOLD, READY) else Commit(p, i + 1, Scan)]
    {
      ghost var s := Abs();
      Fit(trace, k);
      DropIs(s, k, p, i);
      var e := tasks[p].deps[i].(decS := true);
      zero := tasks[p].counter == 1;
      CountedRises(tasks, p, i, e, k);
      tasks := Counted(tasks, p, i, e, k);
      Tick(s, k, acts[k := if zero then Update(p, DEPHOLD, READY) else Commit(p, i + 1, Scan)]);
    }

    method ScanOne(k: nat, p: nat, i: nat) returns (zero: bool)
      requires Valid() && Only(k) && k < |acts| && acts[k] == Commit(p, i, Scan) && p < |tasks| && i < |tasks[p].deps|
      modifies this
      ensures Valid() && Only(k) && Rises(old(tasks), tasks)
      ensures acts == old(acts)[k := if zero then Update(p, DEPHOLD, READY) else Commit(p, i + 1, Scan)]
    {
      zero := false;
      var pstatus, dstatus := LoadBoth(k, p, i);
      var counts := SwapRecord(k, p, i, pstatus, dstatus);
      if counts {
        ghost var t := tasks;
        RiseAt(old(tasks), tasks, p);
        zero := DropOne(k, p, i);
        RisesOn(old(tasks), t, tasks);
      }
    }

    /** One turn of the wiring, in a commit that began it with the activations `a` and the tasks `t`. */
    method WireNext(k: nat, p: nat, i: nat, ghost a: seq<Frame>, ghost t: seq<Task>)
      requires Valid() && Only(k) && k < |a| && acts == a[k := Commit(p, i, Wire)] && Climbs(t, tasks)
      requires p < |tasks| && i < |tasks[p].deps|
      modifies this
      ensures Valid() && Only(k) && acts == a[k := Commit(p, i + 1, Wire)] && Climbs(t, tasks)
      ensures p < |tasks| && |tasks[p].deps| == |old(tasks[p].deps)|
    {
      WireOne(k, p, i);
      ClimbsOn(t, old(tasks), tasks);
      ClimbAt(old(tasks), tasks, p);
    }

    /** Puts every record on its parent's list. */
    method WireAll(k: nat, p: nat)
      requires Valid() && Only(k) && k < |acts| && acts[k] == Commit(p, 0, Wire) && p < |tasks|
      modifies this
      ensures Valid() && Only(k) && Climbs(old(tasks), tasks) && acts == old(acts)[k := Commit(p, 0, Scan)]
      ensures p < |tasks| && AllWired(Abs(), p)
    {
      WireLoop(k, p);
      EndWire(k, p);
      ScanFindsWired(trace, k, p);
    }

    method WireLoop(k: nat, p: nat)
      requires Valid() && Only(k) && k < |acts| && acts[k] == Commit(p, 0, Wire) && p < |tasks|
      modifies this
      ensures Valid() && Only(k) && Climbs(old(tasks), tasks)
      ensures p < |tasks| && acts == old(acts)[k := Commit(p, |tasks[p].deps|, Wire)]
    {
      var ndep, i := |tasks[p].deps|, 0;
      ClimbsSame(tasks);
      while i < ndep
        invariant i <= ndep && Valid() && Only(k) && Climbs(old(tasks), tasks)
        invariant acts == old(acts)[k := Commit(p, i, Wire)] && p < |tasks| && |tasks[p].deps| == ndep
      {
        WireNext(k, p, i, old(acts), old(tasks));
        i := i + 1;
      }
    }

    /** Scans the records until the countdown reaches zero. */
    method ScanAll(k: nat, p: nat) returns (ready: bool)
      requires Valid() && Only(k) && k < |acts| && acts[k] == Commit(p, 0, Scan) && p < |tasks|
      modifies this
      ensures Valid() && NoneBusy() && Rises(old(tasks), tasks)
      ensures acts == old(acts)[k := if ready then Update(p, DEPHOLD, READY) else Done]
    {
      var ndep, i := |tasks[p].deps|, 0;
      ready := false;
      RisesSame(tasks);
      while i < ndep && !ready
        invariant i <= ndep && Valid() && Only(k) && Rises(old(tasks), tasks) && |tasks[p].deps| == ndep
        invariant acts == old(acts)[k := if ready then Update(p, DEPHOLD, READY) else Commit(p, i, Scan)]
        decreases !ready, ndep - i
      {
        ghost var t := tasks;
        ready := ScanOne(k, p, i);
        RisesOn(old(tasks), t, tasks);
        RiseAt(t, tasks, p);
        if !ready { i := i + 1; }
      }
      if !ready { EndScan(k, p); }
    }

    /**
     Commits the task: the call succeeds exactly when it had not been committed, and if nothing else was going
     on, afterwards exactly the tasks whose parents have all completed have left DEPHOLD.
     */
    method CommitTask(p: nat) returns (ok: bool)
      requires Valid() && NoneBusy() && p < |tasks|
      modifies this
      ensures Valid() && NoneBusy() && Climbs(old(tasks), tasks) && old(acts) <= acts
      ensures ok <==> old(tasks[p].status) == IDLE
      ensures p < |tasks| && tasks[p].status >= DEPHOLD
      ensures Rest(old(acts)) ==> Rest(acts) && Exact(Abs())
    {
      NotIdle(trace, p);
      var k := BeginCommitting(p);
      ghost var a := acts;
      ok := UpdateStatus(k, p, IDLE, DEPHOLD);
      AllRiseClimbs(old(tasks), tasks);
      ClimbAt(old(tasks), tasks, p);
      if ok {
        ghost var t, b := tasks, acts;
        CommitRest(k, p);
        FramesOn(a, b, acts, k);
        ClimbsOn(old(tasks), t, tasks);
        ClimbAt(t, tasks, p);
      }
      EntryRest(old(acts), Update(p, IDLE, DEPHOLD), acts);
      if Rest(old(acts)) { RestExact(trace); }
    }

    /** Commit after the status has changed. */
    method CommitRest(k: nat, p: nat)
      requires Valid() && NoneBusy() && k < |acts| && acts[k] == Commit(p, 0, Init) && p < |tasks|
      modifies this
      ensures Valid() && NoneBusy() && Climbs(old(tasks), tasks) && Frames(old(acts), acts, k) && acts[k].Done?
    {
      var ready := WireAndScan(k, p);
      if ready {
        ghost var t := tasks;
        var done := UpdateFrom(k, p, DEPHOLD, READY, old(acts));
        ClimbsRises(old(tasks), t, tasks);
      } else {
        FramesSet(old(acts), k, Done);
      }
    }

    method WireAndScan(k: nat, p: nat) returns (ready: bool)
      requires Valid() && NoneBusy() && k < |acts| && acts[k] == Commit(p, 0, Init) && p < |tasks|
      modifies this
      ensures Valid() && NoneBusy() && Climbs(old(tasks), tasks)
      ensures acts == old(acts)[k := if ready then Update(p, DEPHOLD, READY) else Done]
    {
      var ndep := InitCount(k, p);
      AllRiseClimbs(old(tasks), tasks);
      ready := true;
      if ndep > 0 {
        ghost var t := tasks;
        WireAll(k, p);
        ClimbsOn(old(tasks), t, tasks);
        t := tasks;
        ready := ScanAll(k, p);
        ClimbsRises(old(tasks), t, tasks);
      }
    }

    // -------------------------------------------------------------------------------------------
    // Running and retracting
    // -------------------------------------------------------------------------------------------

    /** The handler is called. */
    method CallHandler(k: nat, p: nat)
      requires Valid() && NoneBusy() && k < |acts| && acts[k] == Handler(p) && p < |tasks|
      modifies this
      ensures Valid() && NoneBusy() && Rises(old(tasks), tasks) && acts == old(acts)[k := InHandler(p)]
      ensures tasks[p].ran == old(tasks[p].ran) + 1
    {
      ghost var s := Abs();
      Fit(trace, k);
      tasks := tasks[p := tasks[p].(ran := tasks[p].ran + 1)];
      SetRises(s.tasks, p, tasks[p]);
      Tick(s, k, acts[k := InHandler(p)]);
    }

    method LeaveHandler(k: nat, p: nat, ok: bool)
      requires Valid() && NoneBusy() && k < |acts| && acts[k] == InHandler(p) && p < |tasks|
      modifies this
      ensures Valid() && NoneBusy() && tasks == old(tasks)
      ensures acts == old(acts)[k := Update(p, RUNNING, if ok then FINAL else FAILED)]
    {
      AnySnoc(trace, Abs(), HandlerReturns(k, ok));
      Fit(trace, k);
      acts := acts[k := Update(p, RUNNING, if ok then FINAL else FAILED)];
      trace := trace + [HandlerReturns(k, ok)];
    }

    method TakeJob(k: nat, p: nat)
      requires Valid() && NoneBusy() && k < |acts| && acts[k] == Job(p) && p < |tasks|
      modifies this
      ensures Valid() && NoneBusy() && tasks == old(tasks) && acts == old(acts)[k := Update(p, QUEUE, RUNNING)]
    {
      ghost var s := Abs();
      Fit(trace, k);
      Tick(s, k, acts[k := Update(p, QUEUE, RUNNING)]);
    }

    /** A job taken from a queue, up to the call of the handler, which happens exactly if the task was queued. */
    method StartTask(k: nat, p: nat) returns (success: bool)
      requires Valid() && NoneBusy() && k < |acts| && acts[k] == Job(p) && p < |tasks|
      modifies this
      ensures Valid() && NoneBusy() && Rises(old(tasks), tasks) && Frames(old(acts), acts, k)
      ensures success <==> old(tasks[p].status) == QUEUE
      ensures acts[k] == if success then InHandler(p) else Done
      ensures success ==> p < |tasks| && tasks[p].status == RUNNING && old(tasks[p].ran) == 0 && tasks[p].ran == 1
    {
      NotRunYet(trace, p);
      TakeJob(k, p);
      success := UpdateFrom(k, p, QUEUE, RUNNING, old(acts));
      if success {
        ghost var t, b := tasks, acts;
        NotRunBefore(trace, k, p);
        CallHandler(k, p);
        StillRunning(trace, k, p);
        FramesSet(b, k, acts[k]);
        FramesOn(old(acts), b, acts, k);
        RisesOn(old(tasks), t, tasks);
      }
    }

    /** The handler returns with `ret`. */
    method FinishTask(k: nat, p: nat, ret: bool)
      requires Valid() && NoneBusy() && k < |acts| && acts[k] == InHandler(p) && p < |tasks|
      modifies this
      ensures Valid() && NoneBusy() && Rises(old(tasks), tasks) && Frames(old(acts), acts, k) && acts[k] == Done
      ensures tasks[p].status == if ret then COMPLETED else FAILED
    {
      StillRunning(trace, k, p);
      LeaveHandler(k, p, ret);
      var done := UpdateFrom(k, p, RUNNING, if ret then FINAL else FAILED, old(acts));
    }

    /** What the handler does: it commits some tasks, one after the other. */
    method CommitSome(commits: seq<nat>)
      requires Valid() && NoneBusy() && forall i :: 0 <= i < |commits| ==> commits[i] < |tasks|
      modifies this
      ensures Valid() && NoneBusy() && Climbs(old(tasks), tasks) && old(acts) <= acts
      ensures Rest(old(acts)) ==> Rest(acts)
      ensures AllCommitted(tasks, commits)
    {
      var i := 0;
      ClimbsSame(tasks);
      while i < |commits|
        invariant i <= |commits| && Valid() && NoneBusy() && Climbs(old(tasks), tasks) && old(acts) <= acts
        invariant |tasks| == |old(tasks)| && (Rest(old(acts)) ==> Rest(acts)) && AllCommitted(tasks, commits[..i])
      {
        ghost var t := tasks;
        var ok := CommitTask(commits[i]);
        ClimbsOn(old(tasks), t, tasks);
        StayCommitted(t, tasks, commits[..i]);
        assert commits[..i + 1] == commits[..i] + [commits[i]];
        i := i + 1;
      }
      assert commits[..i] == commits;
    }

    /** Runs a job taken from a queue, with a handler that commits the tasks `commits` and answers `ret`. */
    method RunTask(k: nat, p: nat, commits: seq<nat>, ret: bool) returns (success: bool)
      requires Valid() && NoneBusy() && k < |acts| && acts[k] == Job(p) && p < |tasks|
      requires forall i :: 0 <= i < |commits| ==> commits[i] < |tasks|
      modifies this
      ensures Valid() && NoneBusy() && Climbs(old(tasks), tasks)
      ensures success <==> old(tasks[p].status) == QUEUE
      ensures success ==> p < |tasks| && tasks[p].status == if ret then COMPLETED else FAILED
      ensures success ==> AllCommitted(tasks, commits)
      ensures Rest(old(acts)) ==> Rest(acts) && Exact(Abs())
    {
      success := StartTask(k, p);
      AllRiseClimbs(old(tasks), tasks);
      if Rest(old(acts)) { FramesRest(old(acts), acts, k); }
      if success {
        ghost var t := tasks;
        CommitSome(commits);
        ClimbsOn(old(tasks), t, tasks);
        ClimbAt(t, tasks, p);
        ghost var u, b := tasks, acts;
        FinishTask(k, p, ret);
        AllRiseClimbs(u, tasks);
        StayCommitted(u, tasks, commits);
        ClimbsOn(old(tasks), u, tasks);
        if Rest(b) { FramesRest(b, acts, k); }
      }
      if Rest(old(acts)) { RestExact(trace); }
    }

    /** Takes a task that has not been queued out of the graph. */
    method RetractTask(p: nat) returns (ok: bool)
      requires Valid() && NoneBusy() && p < |tasks|
      modifies this
      ensures Valid() && NoneBusy() && Rises(old(tasks), tasks) && old(acts) <= acts
      ensures ok <==> old(tasks[p].status) in {DEPHOLD, READY}
      ensures ok ==> tasks[p].status == ABORTED
      ensures Rest(old(acts)) ==> Rest(acts) && Exact(Abs())
    {
      var k := BeginRetracting(p);
      ghost var a := acts;
      var status := LoadForRetract(k, p);
      ok := status == DEPHOLD || status == READY;
      if ok {
        var success := UpdateFrom(k, p, status, ABORTED, a);
      } else {
        FramesSet(a, k, Done);
        RisesSame(tasks);
      }
      EntryRest(old(acts), Retract(p), acts);
      if Rest(old(acts)) { RestExact(trace); }
    }

    method LoadForRetract(k: nat, p: nat) returns (status: int)
      requires Valid() && NoneBusy() && k < |acts| && acts[k] == Retract(p) && p < |tasks|
      modifies this
      ensures Valid() && NoneBusy() && tasks == old(tasks) && status == tasks[p].status
      ensures acts == old(acts)[k := if status == DEPHOLD || status == READY then Update(p, status, ABORTED) else Done]
    {
      ghost var s := Abs();
      Fit(trace, k);
      status := tasks[p].status;
      Tick(s, k, acts[k := if status == DEPHOLD || status == READY then Update(p, status, ABORTED) else Done]);
    }
  }

  /** Every task of the list has been committed. */
  predicate AllCommitted(tasks: seq<Task>, ids: seq<nat>) {
    forall i :: 0 <= i < |ids| ==> ids[i] < |tasks| && tasks[ids[i]].status >= DEPHOLD
  }

  lemma StayCommitted(a: seq<Task>, b: seq<Task>, ids: seq<nat>)
    requires Climbs(a, b) && AllCommitted(a, ids)
    ensures AllCommitted(b, ids)
  {
    forall i | 0 <= i < |ids| ensures ids[i] < |b| && b[ids[i]].status >= DEPHOLD { ClimbAt(a, b, ids[i]); }
  }

  /** A task is IDLE or has been committed. */
  lemma NotIdle(trace: seq<Action>, p: nat)
    requires p < |Run(trace).tasks|
    ensures Run(trace).tasks[p].status == IDLE || Run(trace).tasks[p].status >= DEPHOLD
  {
    RunOwn(trace);
    assert TaskShape(Run(trace), p);
  }

  /** One record for each picked task among the first `n`. */
  function Picked(pick: nat -> bool, n: nat): seq<Edge> {
    if n == 0 then [] else Picked(pick, n - 1) + if pick(n - 1) then [NewEdge(n - 1)] else []
  }

  /** A barrier depends on nothing but picked tasks. */
  lemma {:induction false} PickedOnly(pick: nat -> bool, n: nat, j: nat)
    requires j < |Picked(pick, n)|
    ensures var e := Picked(pick, n)[j]; e.parent < n && pick(e.parent) && e == NewEdge(e.parent)
  {
    if j < |Picked(pick, n - 1)| { PickedOnly(pick, n - 1, j); }
  }

  /** A barrier depends on every picked task. */
  lemma {:induction false} PickedAll(pick: nat -> bool, n: nat, p: nat) returns (j: nat)
    requires p < n && pick(p)
    ensures j < |Picked(pick, n)| && Picked(pick, n)[j] == NewEdge(p)
  {
    if p == n - 1 { j := |Picked(pick, n - 1)|; } else { j := PickedAll(pick, n - 1, p); }
  }

  ghost predicate ParentsDone(s: State, c: nat)
    requires c < |s.tasks|
  {
    forall j :: 0 <= j < |s.tasks[c].deps| ==>
      s.tasks[c].deps[j].parent < |s.tasks| && s.tasks[s.tasks[c].deps[j].parent].status == COMPLETED
  }

  /**
   A committed task that was not retracted has left DEPHOLD exactly if all its parents have completed: then a barrier is
   COMPLETED, and a task with a handler is in its queue, running, or done with.
   */
  ghost predicate Exact(s: State) {
    forall c :: 0 <= c < |s.tasks| && s.tasks[c].inited && s.tasks[c].status != ABORTED ==>
      var task := s.tasks[c];
      if !ParentsDone(s, c) then task.status == DEPHOLD
      else if task.barrier then task.status == COMPLETED
      else task.status in {QUEUE, RUNNING, COMPLETED, FAILED}
  }

  /** In a run of a single thread nothing is READY early and nothing waits too long. */
  lemma RestExact(trace: seq<Action>)
    requires CommitsAlone(trace) && Rest(Run(trace).acts) && !Run(trace).requeued
    ensures Exact(Run(trace))
  {
    var s := Run(trace);
    RunAlone(trace);
    RunCount(trace);
    RunCover(trace);
    forall c | 0 <= c < |s.tasks| && s.tasks[c].inited && s.tasks[c].status != ABORTED
      ensures var task := s.tasks[c];
        if !ParentsDone(s, c) then task.status == DEPHOLD
        else if task.barrier then task.status == COMPLETED
        else task.status in {QUEUE, RUNNING, COMPLETED, FAILED}
    {
      assert TaskOwn(s.tasks[c]) && TaskShape(s, c);
      CountsOnce(trace, c);
      if s.tasks[c].status == DEPHOLD {
        WaitsForOne(s, c);
      } else {
        NobodyStuck(trace, c);
        BarrierSkips(trace);
        forall j | 0 <= j < |s.tasks[c].deps| ensures s.tasks[s.tasks[c].deps[j].parent].status == COMPLETED {
          assert TasksOrder.DependsOn(s, c, s.tasks[c].deps[j].parent);
          TasksOrder.ReadyMeansParentsDone(trace, c, s.tasks[c].deps[j].parent);
        }
      }
    }
  }

  lemma WaitsForOne(s: State, c: nat)
    requires Shape(s) && Own(s) && Count(s) && Cover(s) && Rest(s.acts) && c < |s.tasks| && s.tasks[c].inited
    requires s.tasks[c].status == DEPHOLD
    ensures !ParentsDone(s, c)
  {
    assert TaskCount(s, c) && Woken(s, c);
    var deps := s.tasks[c].deps;
    if ParentsDone(s, c) {
      forall j | 0 <= j < |deps| ensures deps[j].decN || deps[j].decS {
        assert EdgeCover(s, c, j);
      }
      EachCounted(deps);
    }
  }

  /** Every record of `p` is wired, and on the list of its parent. */
  ghost predicate AllWired(s: State, p: nat)
    requires p < |s.tasks|
  {
    forall j :: 0 <= j < |s.tasks[p].deps| ==>
      var e := s.tasks[p].deps[j];
      e.wired && e.parent < |s.tasks| && Ref(p, j) in s.tasks[e.parent].childs
  }

  lemma ScanFindsWired(trace: seq<Action>, k: nat, p: nat)
    requires k < |Run(trace).acts| && Run(trace).acts[k] == Commit(p, 0, Scan) && p < |Run(trace).tasks|
    ensures AllWired(Run(trace), p)
  {
    var s := Run(trace);
    RunCount(trace);
    assert FrameShape(s, s.acts[k]) && FrameCount(s, s.acts[k]) && TaskCount(s, p);
    forall j | 0 <= j < |s.tasks[p].deps|
      ensures var e := s.tasks[p].deps[j]; e.wired && e.parent < |s.tasks| && Ref(p, j) in s.tasks[e.parent].childs
    {
      assert EdgeInv(s, p, j);
    }
  }

  /** A task in its handler is RUNNING. */
  lemma StillRunning(trace: seq<Action>, k: nat, p: nat)
    requires k < |Run(trace).acts| && Run(trace).acts[k] == InHandler(p) && p < |Run(trace).tasks|
    ensures Run(trace).tasks[p].status == RUNNING
  {
    RunOwn(trace);
    assert FrameOwn(Run(trace), k);
  }

  /** A task about to be COMPLETED is still FINAL. */
  lemma StillFinal(trace: seq<Action>, k: nat, p: nat)
    requires k < |Run(trace).acts| && Run(trace).acts[k] == Update(p, FINAL, COMPLETED) && p < |Run(trace).tasks|
    ensures Run(trace).tasks[p].status == FINAL
  {
    RunOwn(trace);
    assert FrameOwn(Run(trace), k);
  }

  /** A queued task has not run. */
  lemma NotRunYet(trace: seq<Action>, p: nat)
    requires p < |Run(trace).tasks|
    ensures Run(trace).tasks[p].status == QUEUE ==> Run(trace).tasks[p].ran == 0
  {
    RunOwn(trace);
    assert TaskOwn(Run(trace).tasks[p]);
  }

  /** Nor has one whose handler is about to be called. */
  lemma NotRunBefore(trace: seq<Action>, k: nat, p: nat)
    requires k < |Run(trace).acts| && Run(trace).acts[k] == Handler(p) && p < |Run(trace).tasks|
    ensures Run(trace).tasks[p].ran == 0
  {
    RunOwn(trace);
    assert FrameOwn(Run(trace), k);
  }

  lemma Fit(trace: seq<Action>, k: nat)
    requires k < |Run(trace).acts|
    ensures FrameFits(Run(trace), k) && FrameShape(Run(trace), Run(trace).acts[k])
  {
    RunOwn(trace);
    ShapeFits(Run(trace), k);
  }
}
