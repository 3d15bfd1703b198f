/**
 The task status and dependency protocol of src/driver/native/twnative_task.c, twnative_task_int.c
 and src/dispatcher/tw_task_dep.c, with the built-in all-complete dependency handler.

 Every call in progress is an activation. An activation that called another one holds the index of
 the callee and stays put until the callee is Done, so the activations of one thread form its call
 stack; any number of threads may begin calls at any time. Every load, compare-and-swap and counter
 decrement is one step.
 */
module Tasks {
  const IDLE := 0x1
  const DEPHOLD := 0x2
  const READY := 0x4
  const QUEUE := 0x8
  const RUNNING := 0x10
  const FINAL := 0x20
  const COMPLETED := 0x40
  const ABORTED := 0x80
  const FAILED := 0x100

  /** Names the dependency record at position `j` of the parents list of task `c`. */
  datatype Ref = Ref(c: nat, j: nat)

  /**
   A dependency record: the parent and the last status of it the child has been told. The rest is
   history: whether it is on the parent's list yet, whether a notification pass or the scan of commit
   recorded COMPLETED, whether the scan did so over a record that was COMPLETED already, and which
   of the two decremented the counter.
   */
  datatype Edge = Edge(parent: nat, stat: int, wired: bool, told: bool, scanned: bool, twice: bool, decN: bool,
    decS: bool)

  /**
   A task. The fields after `childs` are history: whether commit has set up the counter, the
   activation that committed it, the one whose compare-and-swap set its current status, the one that
   is to make it READY and the dependency that triggered it, how many decrements returned READY, and
   how often the handler was called.
   */
  datatype Task = Task(
    barrier: bool,
    status: int,
    counter: int,
    deps: seq<Edge>,
    childs: seq<Ref>,
    inited: bool,
    committer: nat,
    owner: nat,
    waker: nat,
    wakeJ: nat,
    zeroes: nat,
    ran: nat)

  datatype Visit = Head | Cas(cur: int) | Child | Dec | Call(callee: nat)

  datatype Stage = Init | Wire | Scan | Rec(ps: int) | Swap(ps: int, ds: int) | Drop

  datatype Frame =
    | Update(p: nat, was: int, now: int)
    | Notify(p: nat, now: int, i: nat, at: Visit)
    | Commit(p: nat, i: nat, stage: Stage)
    | Enqueue(p: nat)
    | Job(p: nat)
    | Handler(p: nat)
    | InHandler(p: nat)
    | Retract(p: nat)
    | Done

  datatype Change = Change(t: nat, was: int, now: int)

  /** `requeued` records whether a priority change has ever put a task in a second queue. */
  datatype State = State(tasks: seq<Task>, acts: seq<Frame>, log: seq<Change>, requeued: bool)

  datatype Action =
    | Create(barrier: bool)
    | AddDep(c: nat, p: nat)
    | BeginCommit(p: nat)
    | BeginRetract(p: nat)
    | Requeue(p: nat)
    | HandlerReturns(k: nat, ok: bool)
    | Go(k: nat)

  const EMPTY := State([], [], [], false)

  // ---------------------------------------------------------------------------------------------
  // Steps
  // ---------------------------------------------------------------------------------------------

  /** Everything a step of frame `f` indexes exists. */
  predicate Fits(s: State, f: Frame) {
    match f
    case Done => true
    case Notify(p, _, i, at) =>
      && p < |s.tasks|
      && (at.Head? || i < |s.tasks[p].childs|)
      && (i < |s.tasks[p].childs| ==> RefFits(s, s.tasks[p].childs[i]))
    case Commit(p, i, stage) =>
      && p < |s.tasks|
      && (stage.Rec? || stage.Swap? || stage.Drop? ==> i < |s.tasks[p].deps|)
      && (i < |s.tasks[p].deps| ==> s.tasks[p].deps[i].parent < |s.tasks|)
    case _ => f.p < |s.tasks|
  }

  predicate FrameFits(s: State, k: nat) { k < |s.acts| && Fits(s, s.acts[k]) }

  predicate RefFits(s: State, r: Ref) {
    r.c < |s.tasks| && r.j < |s.tasks[r.c].deps|
  }

  function At(s: State, r: Ref): Edge
    requires RefFits(s, r)
  {
    s.tasks[r.c].deps[r.j]
  }

  function SetTask(s: State, p: nat, t: Task): State
    requires p < |s.tasks|
  {
    s.(tasks := s.tasks[p := t])
  }

  function SetEdge(s: State, r: Ref, e: Edge): State
    requires RefFits(s, r)
  {
    SetTask(s, r.c, s.tasks[r.c].(deps := s.tasks[r.c].deps[r.j := e]))
  }

  function Move(s: State, k: nat, f: Frame): State
    requires k < |s.acts|
  {
    s.(acts := s.acts[k := f])
  }

  /** The statuses on the way from READY to COMPLETED or FAILED. */
  predicate Mainline(now: int) {
    now == READY || now == QUEUE || now == RUNNING || now == FINAL || now == COMPLETED || now == FAILED
  }

  /** A compare-and-swap of the status that succeeds. */
  function Advance(s: State, k: nat, p: nat, now: int): State
    requires p < |s.tasks|
  {
    var t := s.tasks[p];
    SetTask(s, p, t.(status := now,
      owner := if Mainline(now) then k else t.owner,
      committer := if now == DEPHOLD then k else t.committer))
    .(log := s.log + [Change(p, t.status, now)])
  }

  function UpdateStep(s: State, k: nat, p: nat, was: int, now: int): State
    requires k < |s.acts| && p < |s.tasks|
  {
    if s.tasks[p].status == was then Move(Advance(s, k, p, now), k, Notify(p, now, 0, Head))
    else if was == READY && now == QUEUE then Move(s, k, Enqueue(p))
    else if now == ABORTED then Move(s, k, Retract(p))
    else Move(s, k, Done)
  }

  /** What update_status does after the children have been notified. */
  function AfterPass(t: Task, p: nat, now: int): Frame {
    if now == DEPHOLD then Commit(p, 0, Init)
    else if now == READY then Update(p, READY, if t.barrier then FINAL else QUEUE)
    else if now == QUEUE then Enqueue(p)
    else if now == RUNNING then Handler(p)
    else if now == FINAL then Update(p, FINAL, COMPLETED)
    else Done
  }

  /** One decrement of the counter of `r.c`; the last one makes activation `waker` responsible. */
  function Decrement(s: State, r: Ref, byScan: bool, waker: nat): State
    requires RefFits(s, r)
  {
    var t := s.tasks[r.c];
    var e := t.deps[r.j];
    var e' := if byScan then e.(decS := true) else e.(decN := true);
    SetTask(s, r.c, t.(counter := t.counter - 1, deps := t.deps[r.j := e'],
      waker := if t.counter == 1 then waker else t.waker,
      wakeJ := if t.counter == 1 then r.j else t.wakeJ,
      zeroes := if t.counter == 1 then t.zeroes + 1 else t.zeroes))
  }

  function NotifyStep(s: State, k: nat, p: nat, now: int, i: nat, at: Visit): State
    requires k < |s.acts| && Fits(s, Notify(p, now, i, at))
  {
    if i >= |s.tasks[p].childs| then Move(s, k, AfterPass(s.tasks[p], p, now))
    else
      var r := s.tasks[p].childs[i];
      var e := At(s, r);
      match at
      case Head => Move(s, k,
        Notify(p, now, if e.stat < now then i else i + 1, if e.stat < now then Cas(e.stat) else Head))
      case Cas(cur) =>
        if e.stat == cur then
          Move(SetEdge(s, r, e.(stat := now, told := e.told || now == COMPLETED)), k, Notify(p, now, i, Child))
        else Move(s, k, Notify(p, now, if e.stat < now then i else i + 1, if e.stat < now then Cas(e.stat) else Head))
      case Child =>
        if s.tasks[r.c].status == DEPHOLD && now == COMPLETED then Move(s, k, Notify(p, now, i, Dec))
        else Move(s, k, Notify(p, now, i + 1, Head))
      case Dec =>
        var s' := Decrement(s, r, false, |s.acts|);
        if s.tasks[r.c].counter == 1 then
          s'.(acts := s.acts[k := Notify(p, now, i, Call(|s.acts|))] + [Update(r.c, DEPHOLD, READY)])
        else Move(s', k, Notify(p, now, i + 1, Head))
      case Call(callee) =>
        if callee < |s.acts| && s.acts[callee] == Done then Move(s, k, Notify(p, now, i + 1, Head)) else s
  }

  function CommitStep(s: State, k: nat, p: nat, i: nat, stage: Stage): State
    requires k < |s.acts| && Fits(s, Commit(p, i, stage))
  {
    var t := s.tasks[p];
    match stage
    case Init =>
      var t' := t.(inited := true, counter := |t.deps|, waker := if t.deps == [] then k else t.waker);
      Move(SetTask(s, p, t'), k, if t.deps == [] then Update(p, DEPHOLD, READY) else Commit(p, 0, Wire))
    case Wire =>
      if i >= |t.deps| then Move(s, k, Commit(p, 0, Scan))
      else
        var s' := SetEdge(s, Ref(p, i), t.deps[i].(wired := true));
        var q := t.deps[i].parent;
        Move(SetTask(s', q, s'.tasks[q].(childs := s'.tasks[q].childs + [Ref(p, i)])), k, Commit(p, i + 1, Wire))
    case Scan =>
      if i >= |t.deps| then Move(s, k, Done)
      else Move(s, k, Commit(p, i, Rec(s.tasks[t.deps[i].parent].status)))
    case Rec(ps) => Move(s, k, Commit(p, i, Swap(ps, t.deps[i].stat)))
    case Swap(ps, ds) =>
      var e := t.deps[i];
      if e.stat != ds then Move(s, k, Commit(p, i + 1, Scan))
      else if ps != COMPLETED then Move(SetEdge(s, Ref(p, i), e.(stat := ps)), k, Commit(p, i + 1, Scan))
      else Move(SetEdge(s, Ref(p, i), e.(stat := ps, scanned := true, twice := ds == COMPLETED)), k, Commit(p, i, Drop))
    case Drop =>
      Move(Decrement(s, Ref(p, i), true, k), k,
        if t.counter == 1 then Update(p, DEPHOLD, READY) else Commit(p, i + 1, Scan))
  }

  function Step(s: State, k: nat): State
    requires k < |s.acts| && Fits(s, s.acts[k])
  {
    match s.acts[k]
    case Update(p, was, now) => UpdateStep(s, k, p, was, now)
    case Notify(p, now, i, at) => NotifyStep(s, k, p, now, i, at)
    case Commit(p, i, stage) => CommitStep(s, k, p, i, stage)
    case Enqueue(p) =>
      var t := s.tasks[p];
      SetTask(s, p, t.(owner := if t.owner == k then |s.acts| else t.owner))
      .(acts := s.acts[k := Done] + [Job(p)])
    case Job(p) => Move(s, k, Update(p, QUEUE, RUNNING))
    case Handler(p) => Move(SetTask(s, p, s.tasks[p].(ran := s.tasks[p].ran + 1)), k, InHandler(p))
    case InHandler(_) => s
    case Retract(p) =>
      var st := s.tasks[p].status;
      Move(s, k, if st == DEPHOLD || st == READY then Update(p, st, ABORTED) else Done)
    case Done => s
  }

  function NewTask(barrier: bool): Task {
    Task(barrier, IDLE, 0, [], [], false, 0, 0, 0, 0, 0, 0)
  }

  function NewEdge(p: nat): Edge {
    Edge(p, 0, false, false, false, false, false, false)
  }

  function Next(s: State, a: Action): State {
    match a
    case Create(barrier) => s.(tasks := s.tasks + [NewTask(barrier)])
    case AddDep(c, p) =>
      if c < |s.tasks| && p < |s.tasks| && s.tasks[c].status == IDLE then
        SetTask(s, c, s.tasks[c].(deps := s.tasks[c].deps + [NewEdge(p)]))
      else s
    case BeginCommit(p) => if p < |s.tasks| then s.(acts := s.acts + [Update(p, IDLE, DEPHOLD)]) else s
    case BeginRetract(p) => if p < |s.tasks| then s.(acts := s.acts + [Retract(p)]) else s
    case Requeue(p) =>
      if p < |s.tasks| && s.tasks[p].status == QUEUE then s.(acts := s.acts + [Job(p)], requeued := true) else s
    case HandlerReturns(k, ok) =>
      if k < |s.acts| && s.acts[k].InHandler? && Fits(s, s.acts[k]) then
        Move(s, k, Update(s.acts[k].p, RUNNING, if ok then FINAL else FAILED))
      else s
    case Go(k) => if k < |s.acts| && Fits(s, s.acts[k]) then Step(s, k) else s
  }

  function Run(acts: seq<Action>): State {
    if acts == [] then EMPTY else Next(Run(acts[..|acts| - 1]), acts[|acts| - 1])
  }
}
