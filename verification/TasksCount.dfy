/**
 The countdown: what every decrement of a task's counter stands for, in every interleaving.
 */
module TasksCount {
  import opened Common
  import opened Tasks
  import opened TasksOwn

  /** How many decrements the counter of a task with these dependencies has seen. */
  function Decs(deps: seq<Edge>): nat {
    if deps == [] then 0
    else Decs(deps[..|deps| - 1]) + Bit(deps[|deps| - 1].decN) + Bit(deps[|deps| - 1].decS)
  }

  predicate Told(s: State, r: Ref) { RefFits(s, r) && At(s, r).told }

  predicate EdgeInv(s: State, c: nat, j: nat)
    requires c < |s.tasks| && j < |s.tasks[c].deps|
  {
    var e := s.tasks[c].deps[j];
    && e.parent < |s.tasks|
    && (e.told || e.scanned ==> s.tasks[e.parent].status == COMPLETED)
    && (e.decN ==> e.told) && (e.decS ==> e.scanned)
    && (e.twice <==> e.told && e.scanned)
    && (e.stat == COMPLETED ==> e.told || e.scanned)
    && (e.stat > COMPLETED ==> s.tasks[e.parent].status == e.stat)
    && (e.scanned ==> e.stat == COMPLETED)
    && (!s.tasks[c].inited ==> e == NewEdge(e.parent))
    && (e.told ==> e.wired)
    && (e.wired ==> Ref(c, j) in s.tasks[e.parent].childs)
  }

  ghost predicate TaskCount(s: State, c: nat)
    requires c < |s.tasks|
  {
    var t := s.tasks[c];
    && (forall j :: 0 <= j < |t.deps| ==> EdgeInv(s, c, j))
    && (t.inited ==> t.counter + Decs(t.deps) == |t.deps|)
    && t.zeroes == Bit(t.inited && t.deps != [] && t.counter <= 0)
    && NoDup(t.childs)
    && (forall q :: 0 <= q < |t.childs| ==> RefFits(s, t.childs[q]) && At(s, t.childs[q]).wired)
  }

  ghost predicate Untold(s: State, p: nat, from: nat)
    requires p < |s.tasks|
  {
    forall q :: from <= q < |s.tasks[p].childs| ==> !Told(s, s.tasks[p].childs[q])
  }

  ghost predicate Unscanned(deps: seq<Edge>, from: nat) {
    forall j :: from <= j < |deps| ==> !deps[j].scanned && (deps[j].told ==> deps[j].stat == COMPLETED)
  }

  ghost predicate WiredBelow(deps: seq<Edge>, to: nat) {
    forall j :: 0 <= j < |deps| ==> (deps[j].wired <==> j < to)
  }

  predicate Reads(s: State, e: Edge, ps: int) {
    e.parent < |s.tasks| && (ps >= COMPLETED ==> s.tasks[e.parent].status == ps)
  }

  ghost predicate FrameCount(s: State, f: Frame)
    requires FrameShape(s, f)
  {
    match f
    case Notify(p, now, i, at) =>
      now == COMPLETED ==>
        (match at
         case Head => Untold(s, p, i)
         case Cas(_) => Untold(s, p, i)
         case Call(_) => Untold(s, p, i + 1)
         case _ =>
           var r := s.tasks[p].childs[i];
           Untold(s, p, i + 1) && RefFits(s, r) && At(s, r).told && !At(s, r).decN)
    case Commit(p, i, stage) =>
      var deps := s.tasks[p].deps;
      (match stage
       case Init => true
       case Wire => WiredBelow(deps, i) && Unscanned(deps, 0)
       case Scan => WiredBelow(deps, |deps|) && Unscanned(deps, i)
       case Rec(ps) => WiredBelow(deps, |deps|) && Unscanned(deps, i) && Reads(s, deps[i], ps)
       case Swap(ps, _) => WiredBelow(deps, |deps|) && Unscanned(deps, i) && Reads(s, deps[i], ps)
       case Drop =>
         WiredBelow(deps, |deps|) && Unscanned(deps, i + 1) && deps[i].scanned && !deps[i].decS)
    case _ => true
  }

  ghost predicate Count(s: State)
    requires Shape(s)
  {
    && (forall c :: 0 <= c < |s.tasks| ==> TaskCount(s, c))
    && (forall k :: 0 <= k < |s.acts| ==> FrameCount(s, s.acts[k]))
  }

  lemma {:induction false} DecsSplit(deps: seq<Edge>, j: nat, e: Edge)
    requires j < |deps|
    ensures Decs(deps[j := e]) + Bit(deps[j].decN) + Bit(deps[j].decS) == Decs(deps) + Bit(e.decN) + Bit(e.decS)
  {
    var last := |deps| - 1;
    if j < last {
      DecsSplit(deps[..last], j, e);
      assert deps[j := e][..last] == deps[..last][j := e];
    } else {
      assert deps[j := e][..last] == deps[..last];
    }
  }

  lemma {:induction false} DecsFresh(deps: seq<Edge>)
    requires forall j :: 0 <= j < |deps| ==> !deps[j].decN && !deps[j].decS
    ensures Decs(deps) == 0
  {
    if deps != [] { DecsFresh(deps[..|deps| - 1]); }
  }

  // ---------------------------------------------------------------------------------------------
  // Steps that touch no dependency record and no list of children
  // ---------------------------------------------------------------------------------------------

  /** A final status never changes, and records, lists and counters stay as they are. */
  predicate Settled(t: Task, t': Task) {
    && (t.status >= COMPLETED ==> t'.status == t.status)
    && t'.deps == t.deps && t'.childs == t.childs && t'.inited == t.inited
    && t'.counter == t.counter && t'.zeroes == t.zeroes
  }

  ghost predicate AllSettled(s: State, s': State) {
    |s'.tasks| == |s.tasks| && forall t :: 0 <= t < |s.tasks| ==> Settled(s.tasks[t], s'.tasks[t])
  }

  lemma SettledTask(s: State, s': State, c: nat)
    requires AllSettled(s, s') && c < |s.tasks| && TaskCount(s, c)
    ensures TaskCount(s', c)
  {
    assert Settled(s.tasks[c], s'.tasks[c]);
    forall j | 0 <= j < |s'.tasks[c].deps| ensures EdgeInv(s', c, j) {
      assert EdgeInv(s, c, j);
      assert Settled(s.tasks[s.tasks[c].deps[j].parent], s'.tasks[s.tasks[c].deps[j].parent]);
    }
    forall q | 0 <= q < |s'.tasks[c].childs|
      ensures RefFits(s', s'.tasks[c].childs[q]) && At(s', s'.tasks[c].childs[q]).wired
    {
      assert Settled(s.tasks[s.tasks[c].childs[q].c], s'.tasks[s.tasks[c].childs[q].c]);
    }
  }

  lemma SettledFrame(s: State, s': State, f: Frame)
    requires AllSettled(s, s') && FrameShape(s, f) && FrameShape(s', f) && FrameCount(s, f)
    ensures FrameCount(s', f)
  {
    if f.Notify? {
      assert Settled(s.tasks[f.p], s'.tasks[f.p]);
      forall q | 0 <= q < |s.tasks[f.p].childs|
        ensures Told(s', s.tasks[f.p].childs[q]) == Told(s, s.tasks[f.p].childs[q])
        ensures RefFits(s, s.tasks[f.p].childs[q]) ==> RefFits(s', s.tasks[f.p].childs[q])
        ensures RefFits(s, s.tasks[f.p].childs[q]) ==> At(s', s.tasks[f.p].childs[q]) == At(s, s.tasks[f.p].childs[q])
      {
        var r := s.tasks[f.p].childs[q];
        if r.c < |s.tasks| { assert Settled(s.tasks[r.c], s'.tasks[r.c]); }
      }
    } else if f.Commit? {
      assert Settled(s.tasks[f.p], s'.tasks[f.p]);
      if f.i < |s.tasks[f.p].deps| && s.tasks[f.p].deps[f.i].parent < |s.tasks| {
        assert Settled(s.tasks[s.tasks[f.p].deps[f.i].parent], s'.tasks[s.tasks[f.p].deps[f.i].parent]);
      }
    }
  }

  /** A step that settles all tasks keeps the count if its new frames are in order. */
  lemma SettledKeeps(s: State, k: nat, s': State)
    requires Shape(s) && Count(s) && Shape(s') && AllSettled(s, s')
    requires k < |s.acts| <= |s'.acts| <= |s.acts| + 1
    requires forall u :: 0 <= u < |s.acts| && u != k ==> s'.acts[u] == s.acts[u]
    requires FrameCount(s', s'.acts[k]) && (|s'.acts| > |s.acts| ==> FrameCount(s', s'.acts[|s.acts|]))
    ensures Count(s')
  {
    forall c | 0 <= c < |s'.tasks| ensures TaskCount(s', c) {
      SettledTask(s, s', c);
    }
    forall u | 0 <= u < |s'.acts| ensures FrameCount(s', s'.acts[u]) {
      if u < |s.acts| && u != k {
        assert FrameShape(s, s.acts[u]) && FrameShape(s', s'.acts[u]);
        SettledFrame(s, s', s.acts[u]);
      }
    }
  }

  /** Frames that do not look at records or lists. */
  predicate Calm(f: Frame) {
    !f.Notify? && !f.Commit?
  }

  lemma OtherKeepsCount(s: State, k: nat)
    requires Shape(s) && Own(s) && Count(s) && FrameFits(s, k) && Calm(s.acts[k]) && Shape(Step(s, k))
    ensures Count(Step(s, k))
  {
    var s' := Step(s, k);
    StepFrames(s, k);
    assert FrameShape(s, s.acts[k]);
    CalmSettles(s, k);
    if s.acts[k].Update? {
      assert TaskCount(s, s.acts[k].p);
      UpdateFrame(s, k, s.acts[k].p, s.acts[k].was, s.acts[k].now);
    }
    assert FrameShape(s', s'.acts[k]);
    SettledKeeps(s, k, s');
  }

  lemma CalmSettles(s: State, k: nat)
    requires FrameFits(s, k) && Calm(s.acts[k]) && FrameShape(s, s.acts[k])
    ensures AllSettled(s, Step(s, k))
  {
  }

  lemma UpdateFrame(s: State, k: nat, p: nat, was: int, now: int)
    requires Shape(s) && Count(s) && k < |s.acts| && s.acts[k] == Update(p, was, now) && p < |s.tasks|
    requires Shape(Step(s, k)) && AllSettled(s, Step(s, k))
    ensures var s' := Step(s, k); k < |s'.acts| && FrameShape(s', s'.acts[k]) && FrameCount(s', s'.acts[k])
  {
    var s' := Step(s, k);
    assert FrameShape(s', s'.acts[k]) && FrameShape(s, s.acts[k]);
    if s'.acts[k].Notify? && now == COMPLETED {
      assert TaskShape(s, p) && s.tasks[p].status != COMPLETED && Settled(s.tasks[p], s'.tasks[p]);
      NobodyTold(s, s', p);
    }
  }

  /** Before a task is COMPLETED none of its children has been told so. */
  lemma NobodyTold(s: State, s': State, p: nat)
    requires Shape(s) && Count(s) && AllSettled(s, s') && p < |s.tasks| && s.tasks[p].status != COMPLETED
    ensures Untold(s', p, 0)
  {
    assert TaskShape(s, p) && Settled(s.tasks[p], s'.tasks[p]);
    forall q | 0 <= q < |s'.tasks[p].childs| ensures !Told(s', s'.tasks[p].childs[q]) {
      var r := s.tasks[p].childs[q];
      assert TaskCount(s, r.c) && EdgeInv(s, r.c, r.j);
      assert Settled(s.tasks[r.c], s'.tasks[r.c]);
    }
  }

  // ---------------------------------------------------------------------------------------------
  // Steps that write one dependency record
  // ---------------------------------------------------------------------------------------------

  /** Only record `r` and the counter of its child differ. */
  ghost predicate OneEdge(s: State, s': State, r: Ref) {
    && RefFits(s, r) && RefFits(s', r)
    && |s'.tasks| == |s.tasks|
    && (forall t :: 0 <= t < |s.tasks| && t != r.c ==> s'.tasks[t] == s.tasks[t])
    && s'.tasks[r.c].deps == s.tasks[r.c].deps[r.j := At(s', r)]
    && s'.tasks[r.c].childs == s.tasks[r.c].childs
    && s'.tasks[r.c].status == s.tasks[r.c].status && s'.tasks[r.c].inited == s.tasks[r.c].inited
    && At(s', r).parent == At(s, r).parent && At(s', r).wired == At(s, r).wired
  }

  lemma OneEdgeTask(s: State, s': State, r: Ref, c: nat)
    requires Shape(s) && OneEdge(s, s', r) && c < |s.tasks| && TaskCount(s, c)
    requires EdgeInv(s', r.c, r.j)
    requires s'.tasks[r.c].inited ==>
      s'.tasks[r.c].counter - s.tasks[r.c].counter
        == Bit(At(s, r).decN) + Bit(At(s, r).decS) - Bit(At(s', r).decN) - Bit(At(s', r).decS)
    requires s'.tasks[r.c].zeroes == Bit(s'.tasks[r.c].inited && s'.tasks[r.c].counter <= 0)
    ensures TaskCount(s', c)
  {
    forall j | 0 <= j < |s'.tasks[c].deps| ensures EdgeInv(s', c, j) {
      assert EdgeInv(s, c, j);
    }
    if c == r.c { DecsSplit(s.tasks[c].deps, r.j, At(s', r)); }
    forall q | 0 <= q < |s'.tasks[c].childs|
      ensures RefFits(s', s'.tasks[c].childs[q]) && At(s', s'.tasks[c].childs[q]).wired
    {
    }
  }

  /** Frames that keep their promise when record `r` changes. */
  ghost predicate Unharmed(s: State, s': State, r: Ref, f: Frame)
    requires RefFits(s, r) && RefFits(s', r)
  {
    var e, e' := At(s, r), At(s', r);
    && (f.Notify? && f.now == COMPLETED && f.p == e.parent ==> e'.told == e.told && e'.decN == e.decN)
    && (f.Commit? && f.p == r.c && !f.stage.Init? ==>
          && e'.scanned == e.scanned && e'.decS == e.decS
          && (!e.scanned && (e.told ==> e.stat == COMPLETED) ==> (e'.told ==> e'.stat == COMPLETED)))
  }

  lemma OneEdgeFrame(s: State, s': State, r: Ref, f: Frame)
    requires Shape(s) && Shape(s') && OneEdge(s, s', r) && FrameShape(s, f) && FrameShape(s', f)
    requires FrameCount(s, f) && Unharmed(s, s', r, f)
    ensures FrameCount(s', f)
  {
    if f.Notify? && f.now == COMPLETED {
      assert TaskShape(s, f.p) && TaskShape(s', f.p);
      assert s'.tasks[f.p].childs == s.tasks[f.p].childs;
      forall q | 0 <= q < |s.tasks[f.p].childs|
        ensures Told(s', s.tasks[f.p].childs[q]) == Told(s, s.tasks[f.p].childs[q])
        ensures At(s', s.tasks[f.p].childs[q]).decN == At(s, s.tasks[f.p].childs[q]).decN
      {
      }
    } else if f.Commit? {
      assert TaskShape(s, f.p);
      OneEdgeCommit(s, s', r, f);
    }
  }

  lemma OneEdgeCommit(s: State, s': State, r: Ref, f: Frame)
    requires OneEdge(s, s', r) && FrameShape(s, f) && FrameShape(s', f) && f.Commit?
    requires FrameCount(s, f) && Unharmed(s, s', r, f)
    ensures FrameCount(s', f)
  {
    var deps, deps' := s.tasks[f.p].deps, s'.tasks[f.p].deps;
    forall j | 0 <= j < |deps| ensures deps'[j].wired == deps[j].wired && deps'[j].parent == deps[j].parent
    {
    }
    if f.p == r.c && !f.stage.Init? {
      forall j | 0 <= j < |deps|
        ensures deps'[j].scanned == deps[j].scanned && deps'[j].decS == deps[j].decS
        ensures !deps[j].scanned && (deps[j].told ==> deps[j].stat == COMPLETED) ==>
                  (deps'[j].told ==> deps'[j].stat == COMPLETED)
      {
      }
    }
  }

  lemma OneEdgeKeeps(s: State, k: nat, s': State, r: Ref)
    requires Shape(s) && Count(s) && Shape(s') && OneEdge(s, s', r) && EdgeInv(s', r.c, r.j)
    requires s'.tasks[r.c].inited ==>
      s'.tasks[r.c].counter - s.tasks[r.c].counter
        == Bit(At(s, r).decN) + Bit(At(s, r).decS) - Bit(At(s', r).decN) - Bit(At(s', r).decS)
    requires s'.tasks[r.c].zeroes == Bit(s'.tasks[r.c].inited && s'.tasks[r.c].counter <= 0)
    requires k < |s.acts| <= |s'.acts| <= |s.acts| + 1
    requires forall u :: 0 <= u < |s.acts| && u != k ==> s'.acts[u] == s.acts[u] && Unharmed(s, s', r, s.acts[u])
    requires FrameCount(s', s'.acts[k]) && (|s'.acts| > |s.acts| ==> FrameCount(s', s'.acts[|s.acts|]))
    ensures Count(s')
  {
    forall c | 0 <= c < |s'.tasks| ensures TaskCount(s', c) {
      OneEdgeTask(s, s', r, c);
    }
    forall u | 0 <= u < |s'.acts| ensures FrameCount(s', s'.acts[u]) {
      if u < |s.acts| && u != k {
        assert FrameShape(s, s.acts[u]) && FrameShape(s', s'.acts[u]);
        OneEdgeFrame(s, s', r, s.acts[u]);
      }
    }
  }

  /** No two activations pass the completion of the same task on. */
  lemma OnePass(s: State, k: nat, u: nat)
    requires Own(s) && k < |s.acts| && u < |s.acts| && k != u
    requires s.acts[k].Notify? && s.acts[k].now == COMPLETED && s.acts[u].Notify? && s.acts[u].now == COMPLETED
    ensures s.acts[k].p != s.acts[u].p
  {
    assert FrameOwn(s, k) && FrameOwn(s, u);
  }

  lemma OneCommit(s: State, k: nat, u: nat)
    requires Own(s) && k < |s.acts| && u < |s.acts| && k != u && s.acts[k].Commit? && s.acts[u].Commit?
    ensures s.acts[k].p != s.acts[u].p
  {
    assert FrameOwn(s, k) && FrameOwn(s, u);
  }

  /** The record a notification pass is at belongs to a child whose commit has set up its counter. */
  lemma RecordAt(s: State, p: nat, i: nat) returns (r: Ref)
    requires Shape(s) && Count(s) && p < |s.tasks| && i < |s.tasks[p].childs|
    ensures r == s.tasks[p].childs[i] && RefFits(s, r) && At(s, r).parent == p && At(s, r).wired
    ensures s.tasks[r.c].inited && TaskCount(s, r.c) && EdgeInv(s, r.c, r.j)
    ensures s.tasks[r.c].deps != []
    ensures forall q :: 0 <= q < |s.tasks[p].childs| && q != i ==> s.tasks[p].childs[q] != r
  {
    r := s.tasks[p].childs[i];
    assert TaskShape(s, p) && TaskCount(s, p);
    assert TaskCount(s, r.c);
  }

  lemma NotifyCasKeeps(s: State, k: nat, p: nat, now: int, i: nat, cur: int)
    requires Shape(s) && Own(s) && Count(s) && k < |s.acts| && s.acts[k] == Notify(p, now, i, Cas(cur))
      && Fits(s, s.acts[k])
    requires Shape(Step(s, k)) && i < |s.tasks[p].childs| && At(s, s.tasks[p].childs[i]).stat == cur
    ensures Count(Step(s, k))
  {
    var s' := Step(s, k);
    assert FrameShape(s, s.acts[k]) && FrameOwn(s, k) && FrameCount(s, s.acts[k]);
    var r := RecordAt(s, p, i);
    var e, e' := At(s, r), At(s', r);
    assert OneEdge(s, s', r);
    assert now == COMPLETED || now == ABORTED || now == FAILED ==> s.tasks[p].status == now;
    assert EdgeInv(s', r.c, r.j);
    forall u | 0 <= u < |s.acts| && u != k ensures Unharmed(s, s', r, s.acts[u]) {
      if now == COMPLETED && s.acts[u].Notify? && s.acts[u].now == COMPLETED { OnePass(s, k, u); }
    }
    if now == COMPLETED {
      CasPass(s, s', r, p, i);
    }
    assert FrameShape(s', s'.acts[k]);
    OneEdgeKeeps(s, k, s', r);
  }

  lemma CasPass(s: State, s': State, r: Ref, p: nat, i: nat)
    requires OneEdge(s, s', r) && p < |s.tasks| && Untold(s, p, i)
    requires forall q :: 0 <= q < |s.tasks[p].childs| && q != i ==> s.tasks[p].childs[q] != r
    ensures Untold(s', p, i + 1)
  {
    forall q | i + 1 <= q < |s'.tasks[p].childs| ensures !Told(s', s'.tasks[p].childs[q]) {
      var w := s.tasks[p].childs[q];
      assert !Told(s, w) && w != r;
    }
  }

  lemma NotifyDecKeeps(s: State, k: nat, p: nat, i: nat)
    requires Shape(s) && Own(s) && Count(s) && k < |s.acts| && s.acts[k] == Notify(p, COMPLETED, i, Dec)
      && Fits(s, s.acts[k])
    requires Shape(Step(s, k)) && i < |s.tasks[p].childs|
    ensures Count(Step(s, k))
  {
    var s' := Step(s, k);
    assert FrameShape(s, s.acts[k]) && FrameCount(s, s.acts[k]);
    var r := RecordAt(s, p, i);
    DecEdge(s, k, p, i, r);
    forall u | 0 <= u < |s.acts| && u != k ensures Unharmed(s, s', r, s.acts[u]) {
      if s.acts[u].Notify? && s.acts[u].now == COMPLETED { OnePass(s, k, u); }
    }
    CasPass'(s, s', r, p, i);
    assert FrameShape(s', s'.acts[k]);
    DecFrame(s, k, p, i);
    OneEdgeKeeps(s, k, s', r);
  }

  lemma DecEdge(s: State, k: nat, p: nat, i: nat, r: Ref)
    requires k < |s.acts| && Fits(s, Notify(p, COMPLETED, i, Dec)) && i < |s.tasks[p].childs|
      && r == s.tasks[p].childs[i]
    requires RefFits(s, r) && s.tasks[r.c].inited && TaskCount(s, r.c) && EdgeInv(s, r.c, r.j)
    requires At(s, r).told && !At(s, r).decN
    ensures var s' := NotifyStep(s, k, p, COMPLETED, i, Dec); var t, t' := s.tasks[r.c], s'.tasks[r.c];
      && OneEdge(s, s', r) && EdgeInv(s', r.c, r.j) && t'.deps[r.j] == t.deps[r.j].(decN := true)
      && t'.counter == t.counter - 1 && t'.zeroes == Bit(t'.counter <= 0)
  {
  }

  lemma DecFrame(s: State, k: nat, p: nat, i: nat)
    requires k < |s.acts| && Fits(s, Notify(p, COMPLETED, i, Dec)) && i < |s.tasks[p].childs|
    requires var s' := NotifyStep(s, k, p, COMPLETED, i, Dec);
      p < |s'.tasks| && Untold(s', p, i + 1) && k < |s'.acts| && FrameShape(s', s'.acts[k])
    ensures var s' := NotifyStep(s, k, p, COMPLETED, i, Dec);
      && FrameCount(s', s'.acts[k]) && |s.acts| <= |s'.acts| <= |s.acts| + 1
      && (|s'.acts| > |s.acts| ==> s'.acts[|s.acts|].Update?)
      && (forall u :: 0 <= u < |s.acts| && u != k ==> s'.acts[u] == s.acts[u])
  {
  }

  lemma CasPass'(s: State, s': State, r: Ref, p: nat, i: nat)
    requires OneEdge(s, s', r) && p < |s.tasks| && Untold(s, p, i + 1) && At(s', r).told == At(s, r).told
    ensures Untold(s', p, i + 1)
  {
    forall q | i + 1 <= q < |s'.tasks[p].childs| ensures !Told(s', s'.tasks[p].childs[q]) {
      assert !Told(s, s.tasks[p].childs[q]);
    }
  }

  lemma NotifyKeepsCount(s: State, k: nat, p: nat, now: int, i: nat, at: Visit)
    requires Shape(s) && Own(s) && Count(s) && k < |s.acts| && s.acts[k] == Notify(p, now, i, at) && Fits(s, s.acts[k])
    requires Shape(Step(s, k))
    ensures Count(Step(s, k))
  {
    assert FrameShape(s, s.acts[k]) && FrameCount(s, s.acts[k]);
    if i < |s.tasks[p].childs| && at.Cas? && At(s, s.tasks[p].childs[i]).stat == at.cur {
      NotifyCasKeeps(s, k, p, now, i, at.cur);
    } else if i < |s.tasks[p].childs| && at.Dec? {
      NotifyDecKeeps(s, k, p, i);
    } else {
      NotifyMoves(s, k, p, now, i, at);
      assert FrameShape(Step(s, k), Step(s, k).acts[k]);
      SettledKeeps(s, k, Step(s, k));
    }
  }

  lemma NotifyMoves(s: State, k: nat, p: nat, now: int, i: nat, at: Visit)
    requires k < |s.acts| && s.acts[k] == Notify(p, now, i, at) && Fits(s, s.acts[k])
    requires FrameShape(s, s.acts[k]) && FrameCount(s, s.acts[k])
    requires i < |s.tasks[p].childs| ==> !at.Dec? && (at.Cas? ==> At(s, s.tasks[p].childs[i]).stat != at.cur)
    ensures var s' := NotifyStep(s, k, p, now, i, at);
      && s'.tasks == s.tasks && |s'.acts| == |s.acts|
      && (FrameShape(s', s'.acts[k]) ==> FrameCount(s', s'.acts[k]))
  {
  }

  // ---------------------------------------------------------------------------------------------
  // The steps of commit
  // ---------------------------------------------------------------------------------------------

  /** A commit that rewrites one of its own records harms no other activation. */
  lemma OthersUnharmed(s: State, k: nat, s': State, r: Ref)
    requires Own(s) && k < |s.acts| && s.acts[k].Commit? && s.acts[k].p == r.c && RefFits(s, r) && RefFits(s', r)
    requires At(s', r).told == At(s, r).told && At(s', r).decN == At(s, r).decN
    ensures forall u :: 0 <= u < |s.acts| && u != k ==> Unharmed(s, s', r, s.acts[u])
  {
    forall u | 0 <= u < |s.acts| && u != k ensures Unharmed(s, s', r, s.acts[u]) {
      if s.acts[u].Commit? { OneCommit(s, k, u); }
    }
  }

  lemma SwapKeeps(s: State, k: nat, p: nat, i: nat, ps: int, ds: int)
    requires Shape(s) && Own(s) && Count(s) && k < |s.acts| && s.acts[k] == Commit(p, i, Swap(ps, ds))
      && Fits(s, s.acts[k])
    requires Shape(Step(s, k)) && s.tasks[p].deps[i].stat == ds
    ensures Count(Step(s, k))
  {
    var s', r := Step(s, k), Ref(p, i);
    assert FrameShape(s, s.acts[k]) && FrameCount(s, s.acts[k]) && FrameOwn(s, k);
    assert TaskCount(s, p) && EdgeInv(s, p, i);
    SwapEdge(s, k, p, i, ps, ds);
    SwapEdgeInv(s, k, p, i, ps, ds);
    OthersUnharmed(s, k, s', r);
    assert FrameShape(s', s'.acts[k]);
    SwapFrame(s, k, p, i, ps, ds);
    OneEdgeKeeps(s, k, s', r);
  }

  lemma SwapEdge(s: State, k: nat, p: nat, i: nat, ps: int, ds: int)
    requires k < |s.acts| && Fits(s, Commit(p, i, Swap(ps, ds))) && s.tasks[p].deps[i].stat == ds
    ensures var s' := CommitStep(s, k, p, i, Swap(ps, ds));
      && OneEdge(s, s', Ref(p, i)) && |s'.acts| == |s.acts|
      && (forall u :: 0 <= u < |s.acts| && u != k ==> s'.acts[u] == s.acts[u])
      && s'.tasks[p].counter == s.tasks[p].counter && s'.tasks[p].zeroes == s.tasks[p].zeroes
      && At(s', Ref(p, i)).decN == At(s, Ref(p, i)).decN && At(s', Ref(p, i)).decS == At(s, Ref(p, i)).decS
      && At(s', Ref(p, i)).told == At(s, Ref(p, i)).told
  {
    var s', e := CommitStep(s, k, p, i, Swap(ps, ds)), s.tasks[p].deps[i];
    var e' := if ps == COMPLETED then e.(stat := ps, scanned := true, twice := ds == COMPLETED) else e.(stat := ps);
    SwapWrites(s, k, p, i, ps, ds, e');
    SetOneEdge(s, s', p, i, e');
  }

  lemma SwapWrites(s: State, k: nat, p: nat, i: nat, ps: int, ds: int, e': Edge)
    requires k < |s.acts| && Fits(s, Commit(p, i, Swap(ps, ds))) && s.tasks[p].deps[i].stat == ds
    requires var e := s.tasks[p].deps[i];
      e' == if ps == COMPLETED then e.(stat := ps, scanned := true, twice := ds == COMPLETED) else e.(stat := ps)
    ensures var s' := CommitStep(s, k, p, i, Swap(ps, ds));
      && s'.tasks == s.tasks[p := s.tasks[p].(deps := s.tasks[p].deps[i := e'])]
      && |s'.acts| == |s.acts| && (forall u :: 0 <= u < |s.acts| && u != k ==> s'.acts[u] == s.acts[u])
  {
  }

  lemma SetOneEdge(s: State, s': State, p: nat, i: nat, e': Edge)
    requires p < |s.tasks| && i < |s.tasks[p].deps|
    requires s'.tasks == s.tasks[p := s.tasks[p].(deps := s.tasks[p].deps[i := e'])]
    requires e'.parent == s.tasks[p].deps[i].parent && e'.wired == s.tasks[p].deps[i].wired
    ensures OneEdge(s, s', Ref(p, i)) && At(s', Ref(p, i)) == e'
    ensures s'.tasks[p].counter == s.tasks[p].counter && s'.tasks[p].zeroes == s.tasks[p].zeroes
  {
  }

  lemma SwapEdgeInv(s: State, k: nat, p: nat, i: nat, ps: int, ds: int)
    requires k < |s.acts| && s.acts[k] == Commit(p, i, Swap(ps, ds)) && Fits(s, s.acts[k])
      && s.tasks[p].deps[i].stat == ds
    requires EdgeInv(s, p, i) && FrameShape(s, s.acts[k]) && FrameCount(s, s.acts[k]) && FrameOwn(s, k)
    requires OneEdge(s, CommitStep(s, k, p, i, Swap(ps, ds)), Ref(p, i))
    ensures EdgeInv(CommitStep(s, k, p, i, Swap(ps, ds)), p, i)
  {
    var s' := CommitStep(s, k, p, i, Swap(ps, ds));
    var e := s.tasks[p].deps[i];
    assert !e.scanned && e.parent < |s.tasks| && (ps >= COMPLETED ==> s.tasks[e.parent].status == ps);
    assert s'.tasks[p].deps[i]
      == if ps == COMPLETED then e.(stat := ps, scanned := true, twice := ds == COMPLETED) else e.(stat := ps);
    SwappedInv(s, s', p, i, ps);
  }

  lemma SwappedInv(s: State, s': State, p: nat, i: nat, ps: int)
    requires OneEdge(s, s', Ref(p, i)) && EdgeInv(s, p, i) && s.tasks[p].inited && !At(s, Ref(p, i)).scanned
    requires var e := At(s, Ref(p, i)); ps >= COMPLETED ==> s.tasks[e.parent].status == ps
    requires var e := At(s, Ref(p, i));
      At(s', Ref(p, i))
        == if ps == COMPLETED then e.(stat := ps, scanned := true, twice := e.stat == COMPLETED) else e.(stat := ps)
    requires At(s, Ref(p, i)).told ==> At(s, Ref(p, i)).stat == COMPLETED
    ensures EdgeInv(s', p, i)
  {
  }

  lemma SwapFrame(s: State, k: nat, p: nat, i: nat, ps: int, ds: int)
    requires k < |s.acts| && s.acts[k] == Commit(p, i, Swap(ps, ds)) && Fits(s, s.acts[k])
      && s.tasks[p].deps[i].stat == ds
    requires EdgeInv(s, p, i) && FrameShape(s, s.acts[k]) && FrameCount(s, s.acts[k])
    requires var s' := CommitStep(s, k, p, i, Swap(ps, ds)); k < |s'.acts| && FrameShape(s', s'.acts[k])
    ensures var s' := CommitStep(s, k, p, i, Swap(ps, ds)); FrameCount(s', s'.acts[k])
  {
    ScanOn(s.tasks[p].deps, CommitStep(s, k, p, i, Swap(ps, ds)).tasks[p].deps, i);
  }

  lemma ScanOn(deps: seq<Edge>, deps': seq<Edge>, i: nat)
    requires i < |deps| == |deps'| && deps' == deps[i := deps'[i]] && deps'[i].wired == deps[i].wired
    ensures Unscanned(deps, i) ==> Unscanned(deps', i + 1)
    ensures Unscanned(deps, i + 1) ==> Unscanned(deps', i + 1)
    ensures WiredBelow(deps, |deps|) ==> WiredBelow(deps', |deps'|)
  {
    forall j | 0 <= j < |deps| ensures deps'[j].wired == deps[j].wired {
    }
  }

  lemma DropKeeps(s: State, k: nat, p: nat, i: nat)
    requires Shape(s) && Own(s) && Count(s) && k < |s.acts| && s.acts[k] == Commit(p, i, Drop) && Fits(s, s.acts[k])
    requires Shape(Step(s, k))
    ensures Count(Step(s, k))
  {
    var s', r := Step(s, k), Ref(p, i);
    assert FrameShape(s, s.acts[k]) && FrameCount(s, s.acts[k]) && FrameOwn(s, k);
    assert TaskCount(s, p) && EdgeInv(s, p, i);
    DropEdge(s, k, p, i);
    OthersUnharmed(s, k, s', r);
    assert FrameShape(s', s'.acts[k]);
    DropFrame(s, k, p, i);
    OneEdgeKeeps(s, k, s', r);
  }

  lemma DropEdge(s: State, k: nat, p: nat, i: nat)
    requires k < |s.acts| && s.acts[k] == Commit(p, i, Drop) && Fits(s, s.acts[k]) && s.tasks[p].inited
    requires TaskCount(s, p) && EdgeInv(s, p, i) && s.tasks[p].deps[i].scanned && !s.tasks[p].deps[i].decS
    ensures var s' := CommitStep(s, k, p, i, Drop); var t, t' := s.tasks[p], s'.tasks[p];
      && OneEdge(s, s', Ref(p, i)) && EdgeInv(s', p, i) && |s'.acts| == |s.acts|
      && (forall u :: 0 <= u < |s.acts| && u != k ==> s'.acts[u] == s.acts[u])
      && t'.counter == t.counter - 1 && t'.zeroes == Bit(t'.counter <= 0)
      && t'.deps[i] == t.deps[i].(decS := true)
  {
  }

  lemma DropFrame(s: State, k: nat, p: nat, i: nat)
    requires k < |s.acts| && s.acts[k] == Commit(p, i, Drop) && Fits(s, s.acts[k])
    requires FrameShape(s, s.acts[k]) && FrameCount(s, s.acts[k])
    requires var s' := CommitStep(s, k, p, i, Drop); k < |s'.acts| && FrameShape(s', s'.acts[k])
    ensures var s' := CommitStep(s, k, p, i, Drop); FrameCount(s', s'.acts[k])
  {
    ScanOn(s.tasks[p].deps, CommitStep(s, k, p, i, Drop).tasks[p].deps, i);
  }

  lemma InitKeeps(s: State, k: nat, p: nat)
    requires Shape(s) && Own(s) && Count(s) && k < |s.acts| && s.acts[k] == Commit(p, 0, Init) && Fits(s, s.acts[k])
    requires Shape(Step(s, k))
    ensures Count(Step(s, k))
  {
    var s' := Step(s, k);
    var deps := s.tasks[p].deps;
    assert FrameOwn(s, k) && TaskCount(s, p);
    forall j | 0 <= j < |deps| ensures deps[j] == NewEdge(deps[j].parent) {
      assert EdgeInv(s, p, j);
    }
    DecsFresh(deps);
    forall c | 0 <= c < |s'.tasks| ensures TaskCount(s', c) {
      assert TaskCount(s, c);
      InitTask(s, s', p, c);
    }
    assert FrameShape(s', s'.acts[k]);
    assert WiredBelow(deps, 0) && Unscanned(deps, 0);
    forall u | 0 <= u < |s'.acts| && u != k ensures FrameCount(s', s'.acts[u]) {
      assert FrameShape(s, s.acts[u]) && FrameShape(s', s'.acts[u]);
      InitFrame(s, s', p, s.acts[u]);
    }
  }

  ghost predicate InitOnly(s: State, s': State, p: nat) {
    && |s'.tasks| == |s.tasks| && p < |s.tasks|
    && (forall t :: 0 <= t < |s.tasks| && t != p ==> s'.tasks[t] == s.tasks[t])
    && s'.tasks[p].deps == s.tasks[p].deps && s'.tasks[p].childs == s.tasks[p].childs
    && s'.tasks[p].status == s.tasks[p].status
  }

  lemma InitTask(s: State, s': State, p: nat, c: nat)
    requires InitOnly(s, s', p) && c < |s.tasks| && TaskCount(s, c)
    requires s'.tasks[p].inited && s'.tasks[p].counter + Decs(s.tasks[p].deps) == |s.tasks[p].deps|
    requires s'.tasks[p].zeroes == s.tasks[p].zeroes && !s.tasks[p].inited && Decs(s.tasks[p].deps) == 0
    ensures TaskCount(s', c)
  {
    forall j | 0 <= j < |s'.tasks[c].deps| ensures EdgeInv(s', c, j) {
      assert EdgeInv(s, c, j);
    }
    forall q | 0 <= q < |s'.tasks[c].childs|
      ensures RefFits(s', s'.tasks[c].childs[q]) && At(s', s'.tasks[c].childs[q]).wired
    {
    }
  }

  lemma InitFrame(s: State, s': State, p: nat, f: Frame)
    requires InitOnly(s, s', p) && FrameShape(s, f) && FrameShape(s', f) && FrameCount(s, f)
    ensures FrameCount(s', f)
  {
    if f.Notify? {
      assert s'.tasks[f.p].childs == s.tasks[f.p].childs;
      forall q | 0 <= q < |s.tasks[f.p].childs|
        ensures Told(s', s.tasks[f.p].childs[q]) == Told(s, s.tasks[f.p].childs[q])
      {
      }
    }
  }

  lemma WireKeeps(s: State, k: nat, p: nat, i: nat)
    requires Shape(s) && Own(s) && Count(s) && k < |s.acts| && s.acts[k] == Commit(p, i, Wire) && Fits(s, s.acts[k])
    requires Shape(Step(s, k)) && i < |s.tasks[p].deps|
    ensures Count(Step(s, k))
  {
    var s', r := Step(s, k), Ref(p, i);
    assert FrameShape(s, s.acts[k]) && FrameCount(s, s.acts[k]) && FrameOwn(s, k);
    assert TaskCount(s, p) && EdgeInv(s, p, i);
    WireWires(s, k, p, i);
    forall c | 0 <= c < |s'.tasks| ensures TaskCount(s', c) {
      assert TaskCount(s, c);
      WireTask(s, s', r, c);
    }
    forall u | 0 <= u < |s'.acts| ensures FrameCount(s', s'.acts[u]) {
      assert FrameShape(s', s'.acts[u]);
      if u == k { WireOn(s, k, p, i); } else { WireOff(s, k, p, i, u); }
    }
  }

  lemma WireWires(s: State, k: nat, p: nat, i: nat)
    requires k < |s.acts| && s.acts[k] == Commit(p, i, Wire) && Fits(s, s.acts[k]) && i < |s.tasks[p].deps|
    requires FrameShape(s, s.acts[k]) && FrameCount(s, s.acts[k]) && FrameOwn(s, k) && EdgeInv(s, p, i)
    ensures var s' := CommitStep(s, k, p, i, Wire);
      && Wires(s, s', Ref(p, i)) && |s'.acts| == |s.acts|
      && (forall u :: 0 <= u < |s.acts| && u != k ==> s'.acts[u] == s.acts[u])
  {
  }

  lemma WireOn(s: State, k: nat, p: nat, i: nat)
    requires k < |s.acts| && s.acts[k] == Commit(p, i, Wire) && Fits(s, s.acts[k]) && i < |s.tasks[p].deps|
    requires FrameShape(s, s.acts[k]) && FrameCount(s, s.acts[k])
    requires Wires(s, CommitStep(s, k, p, i, Wire), Ref(p, i))
    requires var s' := CommitStep(s, k, p, i, Wire); k < |s'.acts| && FrameShape(s', s'.acts[k])
    ensures var s' := CommitStep(s, k, p, i, Wire); FrameCount(s', s'.acts[k])
  {
  }

  lemma WireOff(s: State, k: nat, p: nat, i: nat, u: nat)
    requires Shape(s) && Own(s) && Count(s) && k < |s.acts| && s.acts[k] == Commit(p, i, Wire) && u < |s.acts| && u != k
    requires Fits(s, s.acts[k]) && i < |s.tasks[p].deps| && Wires(s, CommitStep(s, k, p, i, Wire), Ref(p, i))
    requires var s' := CommitStep(s, k, p, i, Wire);
      u < |s'.acts| && s'.acts[u] == s.acts[u] && FrameShape(s', s'.acts[u])
    ensures var s' := CommitStep(s, k, p, i, Wire); FrameCount(s', s'.acts[u])
  {
    assert FrameShape(s, s.acts[u]) && FrameCount(s, s.acts[u]);
    if s.acts[u].Commit? { OneCommit(s, k, u); }
    WireFrame(s, CommitStep(s, k, p, i, Wire), Ref(p, i), s.acts[u]);
  }

  /** Record `r` went onto the list of children of its parent. */
  ghost predicate Wires(s: State, s': State, r: Ref) {
    && RefFits(s, r) && |s'.tasks| == |s.tasks| && At(s, r).parent < |s.tasks|
    && !At(s, r).wired && !At(s, r).told && !At(s, r).scanned && s.tasks[r.c].inited
    && forall t :: 0 <= t < |s.tasks| ==>
          && s'.tasks[t].deps
             == (if t == r.c then s.tasks[t].deps[r.j := At(s, r).(wired := true)] else s.tasks[t].deps)
          && s'.tasks[t].childs == (if t == At(s, r).parent then s.tasks[t].childs + [r] else s.tasks[t].childs)
          && s'.tasks[t].status == s.tasks[t].status && s'.tasks[t].inited == s.tasks[t].inited
          && s'.tasks[t].counter == s.tasks[t].counter && s'.tasks[t].zeroes == s.tasks[t].zeroes
  }

  lemma WireTask(s: State, s': State, r: Ref, c: nat)
    requires Wires(s, s', r) && c < |s.tasks| && TaskCount(s, c)
    ensures TaskCount(s', c)
  {
    if c == r.c { DecsSplit(s.tasks[c].deps, r.j, At(s, r).(wired := true)); }
    forall j | 0 <= j < |s'.tasks[c].deps| ensures EdgeInv(s', c, j) {
      assert EdgeInv(s, c, j);
      WireEdge(s, s', r, c, j);
    }
    WireList(s, s', r, c);
  }

  lemma WireList(s: State, s': State, r: Ref, c: nat)
    requires Wires(s, s', r) && c < |s.tasks| && NoDup(s.tasks[c].childs)
    requires forall q :: 0 <= q < |s.tasks[c].childs| ==>
      RefFits(s, s.tasks[c].childs[q]) && At(s, s.tasks[c].childs[q]).wired
    ensures NoDup(s'.tasks[c].childs)
    ensures forall q :: 0 <= q < |s'.tasks[c].childs| ==>
      RefFits(s', s'.tasks[c].childs[q]) && At(s', s'.tasks[c].childs[q]).wired
  {
    var l, l' := s.tasks[c].childs, s'.tasks[c].childs;
    forall q | 0 <= q < |l'| ensures RefFits(s', l'[q]) && At(s', l'[q]).wired {
      if q < |l| { assert RefFits(s, l[q]) && At(s, l[q]).wired; }
    }
  }

  lemma WireEdge(s: State, s': State, r: Ref, c: nat, j: nat)
    requires Wires(s, s', r) && c < |s.tasks| && j < |s.tasks[c].deps| && EdgeInv(s, c, j)
    ensures j < |s'.tasks[c].deps| && EdgeInv(s', c, j)
  {
    var q := s.tasks[c].deps[j].parent;
    assert s.tasks[q].childs <= s'.tasks[q].childs;
    if q == At(s, r).parent { assert s'.tasks[q].childs[|s.tasks[q].childs|] == r; }
    if s.tasks[c].deps[j].wired {
      var x :| 0 <= x < |s.tasks[q].childs| && s.tasks[q].childs[x] == Ref(c, j);
      assert s'.tasks[q].childs[x] == Ref(c, j);
    }
  }

  lemma WireFrame(s: State, s': State, r: Ref, f: Frame)
    requires Shape(s) && Wires(s, s', r) && FrameShape(s, f) && FrameShape(s', f) && FrameCount(s, f)
    requires f.Commit? ==> f.p != r.c
    ensures FrameCount(s', f)
  {
    if f.Notify? && f.now == COMPLETED {
      assert TaskShape(s, f.p);
      WireNotify(s, s', r, f);
    } else if f.Commit? {
      WireOther(s, s', r, f);
    }
  }

  lemma WireOther(s: State, s': State, r: Ref, f: Frame)
    requires Wires(s, s', r) && f.Commit? && f.p != r.c && FrameShape(s, f) && FrameShape(s', f) && FrameCount(s, f)
    ensures FrameCount(s', f)
  {
    assert s'.tasks[f.p].deps == s.tasks[f.p].deps;
  }

  lemma WireNotify(s: State, s': State, r: Ref, f: Frame)
    requires Wires(s, s', r) && f.Notify? && f.now == COMPLETED && FrameShape(s, f) && FrameShape(s', f)
      && FrameCount(s, f)
    requires TaskShape(s, f.p)
    ensures FrameCount(s', f)
  {
    if f.at.Head? || f.at.Cas? {
      WireUntold(s, s', r, f.p, f.i);
    } else {
      WireUntold(s, s', r, f.p, f.i + 1);
      WireSame(s, s', r, f.p, f.i);
    }
  }

  /** The record that went on the list has not been told. */
  lemma WireUntold(s: State, s': State, r: Ref, p: nat, from: nat)
    requires Wires(s, s', r) && p < |s.tasks| && Untold(s, p, from)
    ensures Untold(s', p, from)
  {
    var l, l' := s.tasks[p].childs, s'.tasks[p].childs;
    forall q | from <= q < |l'| ensures !Told(s', l'[q]) {
      if q < |l| {
        assert l'[q] == l[q] && !Told(s, l[q]);
        WireTold(s, s', r, l[q]);
      } else {
        assert l'[q] == r;
      }
    }
  }

  lemma WireTold(s: State, s': State, r: Ref, w: Ref)
    requires Wires(s, s', r)
    ensures Told(s', w) == Told(s, w)
  {
  }

  lemma WireSame(s: State, s': State, r: Ref, p: nat, i: nat)
    requires Wires(s, s', r) && p < |s.tasks| && i < |s.tasks[p].childs| && RefFits(s, s.tasks[p].childs[i])
    ensures i < |s'.tasks[p].childs| && s'.tasks[p].childs[i] == s.tasks[p].childs[i]
    ensures var w := s.tasks[p].childs[i];
      RefFits(s', w) && At(s', w).told == At(s, w).told && At(s', w).decN == At(s, w).decN
  {
  }

  lemma CommitMoves(s: State, k: nat, p: nat, i: nat, stage: Stage)
    requires k < |s.acts| && s.acts[k] == Commit(p, i, stage) && Fits(s, s.acts[k])
    requires FrameShape(s, s.acts[k]) && FrameCount(s, s.acts[k])
    requires stage.Scan? || stage.Rec? || (stage.Wire? && i == |s.tasks[p].deps|)
             || (stage.Swap? && s.tasks[p].deps[i].stat != stage.ds)
    ensures var s' := CommitStep(s, k, p, i, stage);
      && s'.tasks == s.tasks && |s'.acts| == |s.acts|
      && (FrameShape(s', s'.acts[k]) ==> FrameCount(s', s'.acts[k]))
  {
  }

  lemma CommitKeepsCount(s: State, k: nat, p: nat, i: nat, stage: Stage)
    requires Shape(s) && Own(s) && Count(s) && k < |s.acts| && s.acts[k] == Commit(p, i, stage) && Fits(s, s.acts[k])
    requires Shape(Step(s, k))
    ensures Count(Step(s, k))
  {
    assert FrameShape(s, s.acts[k]) && FrameCount(s, s.acts[k]);
    if stage.Init? {
      InitKeeps(s, k, p);
    } else if stage.Drop? {
      DropKeeps(s, k, p, i);
    } else if stage.Wire? && i < |s.tasks[p].deps| {
      WireKeeps(s, k, p, i);
    } else if stage.Swap? && s.tasks[p].deps[i].stat == stage.ds {
      SwapKeeps(s, k, p, i, stage.ps, stage.ds);
    } else {
      CommitMoves(s, k, p, i, stage);
      assert FrameShape(Step(s, k), Step(s, k).acts[k]);
      SettledKeeps(s, k, Step(s, k));
    }
  }

  lemma StepKeepsCount(s: State, k: nat)
    requires Shape(s) && Own(s) && Count(s) && FrameFits(s, k)
    ensures Shape(Step(s, k)) && Count(Step(s, k))
  {
    StepKeepsShape(s, k);
    match s.acts[k]
    case Notify(p, now, i, at) => NotifyKeepsCount(s, k, p, now, i, at);
    case Commit(p, i, stage) => CommitKeepsCount(s, k, p, i, stage);
    case _ => OtherKeepsCount(s, k);
  }

  // ---------------------------------------------------------------------------------------------
  // Every action
  // ---------------------------------------------------------------------------------------------

  lemma CreateKeepsCount(s: State, barrier: bool)
    requires Shape(s) && Count(s) && Shape(Next(s, Create(barrier)))
    ensures Count(Next(s, Create(barrier)))
  {
    var s' := Next(s, Create(barrier));
    forall c | 0 <= c < |s'.tasks| ensures TaskCount(s', c) {
      if c < |s.tasks| {
        assert TaskCount(s, c);
        forall j | 0 <= j < |s'.tasks[c].deps| ensures EdgeInv(s', c, j) { assert EdgeInv(s, c, j); }
        forall q | 0 <= q < |s'.tasks[c].childs|
          ensures RefFits(s', s'.tasks[c].childs[q]) && At(s', s'.tasks[c].childs[q]).wired
        {
        }
      }
    }
    forall u | 0 <= u < |s'.acts| ensures FrameCount(s', s'.acts[u]) {
      assert FrameShape(s, s.acts[u]) && FrameShape(s', s'.acts[u]) && FrameCount(s, s.acts[u]);
      CreateFrame(s, s', s.acts[u]);
    }
  }

  lemma CreateFrame(s: State, s': State, f: Frame)
    requires Shape(s) && |s.tasks| <= |s'.tasks| && forall t :: 0 <= t < |s.tasks| ==> s'.tasks[t] == s.tasks[t]
    requires FrameShape(s, f) && FrameShape(s', f) && FrameCount(s, f)
    ensures FrameCount(s', f)
  {
    if f.Notify? {
      assert TaskShape(s, f.p);
      forall q | 0 <= q < |s.tasks[f.p].childs|
        ensures Told(s', s.tasks[f.p].childs[q]) == Told(s, s.tasks[f.p].childs[q])
      {
      }
    }
  }

  lemma AddDepKeepsCount(s: State, c: nat, p: nat)
    requires Shape(s) && Own(s) && Count(s) && c < |s.tasks| && p < |s.tasks| && s.tasks[c].status == IDLE
    requires Shape(Next(s, AddDep(c, p)))
    ensures Count(Next(s, AddDep(c, p)))
  {
    var s' := Next(s, AddDep(c, p));
    assert TaskOwn(s.tasks[c]) && !s.tasks[c].inited;
    forall t | 0 <= t < |s'.tasks| ensures TaskCount(s', t) {
      assert TaskCount(s, t) && TaskShape(s', t);
      AddDepTaskCount(s, c, p, t);
    }
    forall u | 0 <= u < |s'.acts| ensures FrameCount(s', s'.acts[u]) {
      assert FrameShape(s, s.acts[u]) && FrameShape(s', s'.acts[u]) && FrameCount(s, s.acts[u]) && FrameOwn(s, u);
      AddDepFrame(s, s', c, s.acts[u]);
    }
  }

  lemma AddDepTaskCount(s: State, c: nat, p: nat, t: nat)
    requires c < |s.tasks| && p < |s.tasks| && s.tasks[c].status == IDLE && !s.tasks[c].inited
    requires t < |s.tasks| && TaskCount(s, t)
    ensures var s' := Next(s, AddDep(c, p)); t < |s'.tasks| && TaskCount(s', t)
  {
    var s' := Next(s, AddDep(c, p));
    forall j | 0 <= j < |s'.tasks[t].deps| ensures EdgeInv(s', t, j) {
      if j < |s.tasks[t].deps| { assert EdgeInv(s, t, j); }
    }
  }

  lemma AddDepFrame(s: State, s': State, c: nat, f: Frame)
    requires Shape(s) && |s.tasks| == |s'.tasks| && c < |s.tasks|
    requires forall t :: 0 <= t < |s.tasks| && t != c ==> s'.tasks[t] == s.tasks[t]
    requires s'.tasks[c].(deps := []) == s.tasks[c].(deps := []) && s.tasks[c].deps <= s'.tasks[c].deps
    requires FrameShape(s, f) && FrameShape(s', f) && FrameCount(s, f) && (f.Commit? ==> f.p != c || f.stage.Init?)
    ensures FrameCount(s', f)
  {
    if f.Notify? {
      assert TaskShape(s, f.p);
      forall q | 0 <= q < |s.tasks[f.p].childs|
        ensures Told(s', s.tasks[f.p].childs[q]) == Told(s, s.tasks[f.p].childs[q])
        ensures At(s', s.tasks[f.p].childs[q]) == At(s, s.tasks[f.p].childs[q])
      {
      }
    }
  }

  lemma CallKeepsCount(s: State, a: Action)
    requires Shape(s) && Count(s) && Shape(Next(s, a)) && !a.Go? && !a.AddDep? && !a.Create?
    ensures Count(Next(s, a))
  {
    var s' := Next(s, a);
    assert s'.tasks == s.tasks;
    forall c | 0 <= c < |s'.tasks| ensures TaskCount(s', c) { SettledTask(s, s', c); }
    forall u | 0 <= u < |s'.acts| ensures FrameCount(s', s'.acts[u]) {
      if u < |s.acts| && s'.acts[u] == s.acts[u] {
        assert FrameShape(s, s.acts[u]) && FrameShape(s', s'.acts[u]);
        SettledFrame(s, s', s.acts[u]);
      }
    }
  }

  lemma NextKeepsCount(s: State, a: Action)
    requires Shape(s) && Own(s) && Count(s)
    ensures Shape(Next(s, a)) && Count(Next(s, a))
  {
    NextKeeps(s, a);
    if a.Go? {
      if FrameFits(s, a.k) { StepKeepsCount(s, a.k); }
    } else if a.AddDep? {
      if Next(s, a) != s { AddDepKeepsCount(s, a.c, a.p); }
    } else if a.Create? {
      CreateKeepsCount(s, a.barrier);
    } else {
      CallKeepsCount(s, a);
    }
  }

  lemma {:induction false} RunCount(acts: seq<Action>)
    ensures Shape(Run(acts)) && Own(Run(acts)) && Count(Run(acts))
  {
    RunOwn(acts);
    if acts != [] {
      RunCount(acts[..|acts| - 1]);
      NextKeepsCount(Run(acts[..|acts| - 1]), acts[|acts| - 1]);
    }
  }
}
