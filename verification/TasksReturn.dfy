/**
 Every call returns. Whatever the interleaving, each step of a call in progress brings the whole nearer to rest: it
 lowers a measure that no step of a call raises, and as long as some call has not returned, one of them can move.
 */
module TasksReturn {
  import opened Common
  import opened Tasks
  import opened TasksOwn
  import opened TasksDriven

  // ---------------------------------------------------------------------------------------------
  // Sums
  // ---------------------------------------------------------------------------------------------

  function Sum(xs: seq<nat>): nat {
    if xs == [] then 0 else Sum(xs[..|xs| - 1]) + xs[|xs| - 1]
  }

  lemma {:induction false} SumSet(xs: seq<nat>, k: nat, x: nat)
    requires k < |xs|
    ensures Sum(xs[k := x]) + xs[k] == Sum(xs) + x
  {
    var last := |xs| - 1;
    if k < last {
      SumSet(xs[..last], k, x);
      assert xs[k := x][..last] == xs[..last][k := x];
    } else {
      assert xs[k := x][..last] == xs[..last];
    }
  }

  lemma SumMore(xs: seq<nat>, x: nat)
    ensures Sum(xs + [x]) == Sum(xs) + x
  {
    assert (xs + [x])[..|xs|] == xs;
  }

  lemma {:induction false} SumAtMost(xs: seq<nat>, ys: seq<nat>)
    requires |xs| == |ys| && forall i :: 0 <= i < |xs| ==> xs[i] <= ys[i]
    ensures Sum(xs) <= Sum(ys)
  {
    if xs != [] { SumAtMost(xs[..|xs| - 1], ys[..|ys| - 1]); }
  }

  // ---------------------------------------------------------------------------------------------
  // The measure, most important part first
  // ---------------------------------------------------------------------------------------------

  /** How far a status still has to rise. */
  function Below(status: int): nat { if status < 0x200 then 0x200 - status else 0 }

  function Heights(s: State): seq<nat> {
    seq(|s.tasks|, t requires 0 <= t < |s.tasks| => Below(s.tasks[t].status))
  }

  /** Which tasks have their countdown still to be set up. */
  function Starts(s: State): seq<nat> {
    seq(|s.tasks|, t requires 0 <= t < |s.tasks| => Bit(!s.tasks[t].inited))
  }

  function Counts(s: State): seq<nat> {
    seq(|s.tasks|, t requires 0 <= t < |s.tasks| => if s.tasks[t].counter > 0 then s.tasks[t].counter else 0)
  }

  /** How many dependencies the task of a frame has. */
  function Deps(s: State, f: Frame): nat {
    if f.Done? || f.p >= |s.tasks| then 0 else |s.tasks[f.p].deps|
  }

  function Left(n: nat, i: nat): nat { if i < n then n - i else 0 }

  /** What a commit has still to do with its `d` records. */
  function Work(d: nat, f: Frame): nat {
    match f
    case Update(_, _, now) => if now == DEPHOLD then 6 * d + 6 else 0
    case Notify(_, now, _, _) => if now == DEPHOLD then 6 * d + 5 else 0
    case Commit(_, i, stage) =>
      (match stage
       case Init => 6 * d + 4
       case Wire => 5 * d + 3 + Left(d, i)
       case Scan => 5 * Left(d, i) + 2
       case Rec(_) => 5 * Left(d, i) + 1
       case Swap(_, _) => 5 * Left(d, i)
       case Drop => if i < d then 5 * (d - i) - 1 else 0)
    case _ => 0
  }

  function Works(s: State): seq<nat> {
    seq(|s.acts|, k requires 0 <= k < |s.acts| => Work(Deps(s, s.acts[k]), s.acts[k]))
  }

  /** How far the statuses in a list of records still have to rise. */
  function GapsOf(deps: seq<Edge>): seq<nat> {
    seq(|deps|, j requires 0 <= j < |deps| => Below(deps[j].stat))
  }

  function Gaps(s: State): seq<nat> {
    seq(|s.tasks|, t requires 0 <= t < |s.tasks| => Sum(GapsOf(s.tasks[t].deps)))
  }

  /** The record a pass is at still has the status the pass has read. */
  predicate Current(s: State, p: nat, i: nat, cur: int) {
    p < |s.tasks| && i < |s.tasks[p].childs| && RefFits(s, s.tasks[p].childs[i])
    && At(s, s.tasks[p].childs[i]).stat == cur
  }

  /** How far the frame is from the end of its pass, or from having returned. */
  function Rank(s: State, f: Frame): nat {
    match f
    case Update(p, was, _) => if p < |s.tasks| && s.tasks[p].status == was then 25 else 35
    case Notify(p, _, i, at) =>
      100 + 10 * (if p < |s.tasks| then Left(|s.tasks[p].childs|, i) else 0)
      + (match at
         case Head => 5
         case Cas(cur) => if Current(s, p, i, cur) then 3 else 4
         case Child => 2
         case Dec => 1
         case Call(_) => 0)
    case Commit(_, _, _) => 50
    case Retract(_) => 30
    case Enqueue(_) => 20
    case Handler(_) => 10
    case _ => 0
  }

  function Ranks(s: State): seq<nat> {
    seq(|s.acts|, k requires 0 <= k < |s.acts| => Rank(s, s.acts[k]))
  }

  /** `s'` is nearer to rest than `s`. */
  ghost predicate Nearer(s: State, s': State) {
    || Sum(Heights(s')) < Sum(Heights(s))
    || (Sum(Heights(s')) == Sum(Heights(s)) && (
      || Sum(Starts(s')) < Sum(Starts(s))
      || (Sum(Starts(s')) == Sum(Starts(s)) && NearerOn(s, s'))))
  }

  ghost predicate NearerOn(s: State, s': State) {
    || Sum(Counts(s')) < Sum(Counts(s))
    || (Sum(Counts(s')) == Sum(Counts(s)) && (
      || Sum(Works(s')) < Sum(Works(s))
      || (Sum(Works(s')) == Sum(Works(s)) && (
        || Sum(Gaps(s')) < Sum(Gaps(s))
        || (Sum(Gaps(s')) == Sum(Gaps(s)) && Sum(Ranks(s')) < Sum(Ranks(s)))))))
  }

  // ---------------------------------------------------------------------------------------------
  // Ways of getting nearer
  // ---------------------------------------------------------------------------------------------

  /** A status rises. */
  lemma ByHeight(s: State, s': State, p: nat)
    requires p < |s.tasks| == |s'.tasks| && Below(s'.tasks[p].status) < Below(s.tasks[p].status)
    requires forall t :: 0 <= t < |s.tasks| && t != p ==> s'.tasks[t].status == s.tasks[t].status
    ensures Nearer(s, s')
  {
    SumSet(Heights(s), p, Heights(s')[p]);
    assert Heights(s') == Heights(s)[p := Heights(s')[p]];
  }

  /** A countdown is set up. */
  lemma ByStart(s: State, s': State, p: nat)
    requires p < |s.tasks| == |s'.tasks| && !s.tasks[p].inited && s'.tasks[p].inited
    requires forall t :: 0 <= t < |s.tasks| ==>
      s'.tasks[t].status == s.tasks[t].status && (t != p ==> s'.tasks[t].inited == s.tasks[t].inited)
    ensures Nearer(s, s')
  {
    assert Heights(s') == Heights(s);
    SumSet(Starts(s), p, 0);
    assert Starts(s') == Starts(s)[p := 0];
  }

  predicate SameTop(t: Task, t': Task) { t'.status == t.status && t'.inited == t.inited }

  lemma TopSame(s: State, s': State)
    requires |s'.tasks| == |s.tasks| && forall t :: 0 <= t < |s.tasks| ==> SameTop(s.tasks[t], s'.tasks[t])
    ensures Heights(s') == Heights(s) && Starts(s') == Starts(s)
  {
    forall t | 0 <= t < |s.tasks| ensures Heights(s')[t] == Heights(s)[t] && Starts(s')[t] == Starts(s)[t] {
      assert SameTop(s.tasks[t], s'.tasks[t]);
    }
  }

  /** A positive counter is decremented. */
  lemma ByCount(s: State, s': State, p: nat)
    requires |s'.tasks| == |s.tasks| && forall t :: 0 <= t < |s.tasks| ==> SameTop(s.tasks[t], s'.tasks[t])
    requires p < |s.tasks| && 0 < s.tasks[p].counter && s'.tasks[p].counter == s.tasks[p].counter - 1
    requires forall t :: 0 <= t < |s.tasks| && t != p ==> s'.tasks[t].counter == s.tasks[t].counter
    ensures Nearer(s, s')
  {
    TopSame(s, s');
    SumSet(Counts(s), p, Counts(s')[p]);
    assert Counts(s') == Counts(s)[p := Counts(s')[p]];
  }

  /** No task has more dependencies or a higher counter than before. */
  predicate SameMiddle(t: Task, t': Task) {
    SameTop(t, t') && |t'.deps| == |t.deps| && t'.counter <= t.counter
  }

  lemma MiddleSame(s: State, s': State)
    requires |s'.tasks| == |s.tasks| && forall t :: 0 <= t < |s.tasks| ==> SameMiddle(s.tasks[t], s'.tasks[t])
    ensures Heights(s') == Heights(s) && Starts(s') == Starts(s) && Sum(Counts(s')) <= Sum(Counts(s))
    ensures forall f :: Deps(s', f) == Deps(s, f)
  {
    forall t | 0 <= t < |s.tasks| ensures SameTop(s.tasks[t], s'.tasks[t]) && Counts(s')[t] <= Counts(s)[t] {
      assert SameMiddle(s.tasks[t], s'.tasks[t]);
    }
    TopSame(s, s');
    SumAtMost(Counts(s'), Counts(s));
    forall f ensures Deps(s', f) == Deps(s, f) {
      if !f.Done? && f.p < |s.tasks| { assert SameMiddle(s.tasks[f.p], s'.tasks[f.p]); }
    }
  }

  /** A commit gets on. */
  lemma ByWork(s: State, s': State, k: nat)
    requires |s'.tasks| == |s.tasks| && forall t :: 0 <= t < |s.tasks| ==> SameMiddle(s.tasks[t], s'.tasks[t])
    requires k < |s.acts| == |s'.acts| && s'.acts == s.acts[k := s'.acts[k]]
    requires Work(Deps(s, s'.acts[k]), s'.acts[k]) < Work(Deps(s, s.acts[k]), s.acts[k])
    ensures Nearer(s, s')
  {
    MiddleSame(s, s');
    SumSet(Works(s), k, Works(s')[k]);
    assert Works(s') == Works(s)[k := Works(s')[k]];
  }

  /** The status of one record rises, and the frames have as much to do as before. */
  lemma ByGap(s: State, s': State, c: nat)
    requires |s'.tasks| == |s.tasks| && forall t :: 0 <= t < |s.tasks| ==> SameMiddle(s.tasks[t], s'.tasks[t])
    requires c < |s.tasks| && Sum(GapsOf(s'.tasks[c].deps)) < Sum(GapsOf(s.tasks[c].deps))
    requires forall t :: 0 <= t < |s.tasks| && t != c ==> s'.tasks[t].deps == s.tasks[t].deps
    requires Works(s') == Works(s)
    ensures Nearer(s, s')
  {
    MiddleSame(s, s');
    SumSet(Gaps(s), c, Gaps(s')[c]);
    assert Gaps(s') == Gaps(s)[c := Gaps(s')[c]];
  }

  /** The same status, lists, and record statuses; the counter has not risen. */
  ghost predicate Alike(t: Task, t': Task) {
    SameMiddle(t, t') && t'.childs == t.childs && forall j :: 0 <= j < |t.deps| ==> t'.deps[j].stat == t.deps[j].stat
  }

  lemma AlikeSame(s: State, s': State)
    requires |s'.tasks| == |s.tasks| && forall t :: 0 <= t < |s.tasks| ==> Alike(s.tasks[t], s'.tasks[t])
    ensures Gaps(s') == Gaps(s) && forall f :: Rank(s', f) == Rank(s, f)
  {
    forall t | 0 <= t < |s.tasks| ensures Gaps(s')[t] == Gaps(s)[t] {
      assert Alike(s.tasks[t], s'.tasks[t]);
      assert GapsOf(s'.tasks[t].deps) == GapsOf(s.tasks[t].deps);
    }
    forall f ensures Rank(s', f) == Rank(s, f) { AlikeRank(s, s', f); }
  }

  lemma AlikeRank(s: State, s': State, f: Frame)
    requires |s'.tasks| == |s.tasks| && forall t :: 0 <= t < |s.tasks| ==> Alike(s.tasks[t], s'.tasks[t])
    ensures Rank(s', f) == Rank(s, f)
  {
    if (f.Update? || f.Notify?) && f.p < |s.tasks| {
      assert Alike(s.tasks[f.p], s'.tasks[f.p]);
      if f.Notify? && f.at.Cas? && f.i < |s.tasks[f.p].childs| {
        var r := s.tasks[f.p].childs[f.i];
        if r.c < |s.tasks| { assert Alike(s.tasks[r.c], s'.tasks[r.c]); }
      }
    }
  }

  /** The activations after a step of `k`, which may leave a job behind. */
  predicate Leaves(s: State, s': State, k: nat, job: seq<Frame>) {
    && k < |s.acts| <= |s'.acts| && s'.acts == s.acts[k := s'.acts[k]] + job
    && (job == [] || (|job| == 1 && job[0].Job?))
  }

  lemma WorksAfter(s: State, s': State, k: nat, job: seq<Frame>)
    requires Leaves(s, s', k, job) && forall f :: Deps(s', f) == Deps(s, f)
    ensures Sum(Works(s')) + Work(Deps(s, s.acts[k]), s.acts[k])
         == Sum(Works(s)) + Work(Deps(s, s'.acts[k]), s'.acts[k])
  {
    var works := Works(s)[k := Works(s')[k]];
    SumSet(Works(s), k, Works(s')[k]);
    SumMore(works, 0);
    assert Works(s') == if job == [] then works else works + [0];
  }

  lemma RanksAfter(s: State, s': State, k: nat, job: seq<Frame>)
    requires Leaves(s, s', k, job) && forall f :: Rank(s', f) == Rank(s, f)
    ensures Sum(Ranks(s')) + Rank(s, s.acts[k]) == Sum(Ranks(s)) + Rank(s, s'.acts[k])
  {
    var ranks := Ranks(s)[k := Ranks(s')[k]];
    SumSet(Ranks(s), k, Ranks(s')[k]);
    SumMore(ranks, 0);
    assert Ranks(s') == if job == [] then ranks else ranks + [0];
  }

  /** A frame gets on, and perhaps leaves a job behind. */
  lemma ByRank(s: State, s': State, k: nat, job: seq<Frame>)
    requires |s'.tasks| == |s.tasks| && forall t :: 0 <= t < |s.tasks| ==> Alike(s.tasks[t], s'.tasks[t])
    requires Leaves(s, s', k, job)
    requires Work(Deps(s, s'.acts[k]), s'.acts[k]) <= Work(Deps(s, s.acts[k]), s.acts[k])
    requires Rank(s, s'.acts[k]) < Rank(s, s.acts[k])
    ensures Nearer(s, s')
  {
    forall t | 0 <= t < |s.tasks| ensures SameMiddle(s.tasks[t], s'.tasks[t]) {
      assert Alike(s.tasks[t], s'.tasks[t]);
    }
    MiddleSame(s, s');
    AlikeSame(s, s');
    WorksAfter(s, s', k, job);
    RanksAfter(s, s', k, job);
  }

  // ---------------------------------------------------------------------------------------------
  // Every step of a call gets nearer
  // ---------------------------------------------------------------------------------------------

  /** The activation waits for one it called. */
  predicate Waits(s: State, k: nat)
    requires k < |s.acts|
  {
    var f := s.acts[k];
    f.Notify? && f.at.Call? && f.p < |s.tasks| && f.i < |s.tasks[f.p].childs|
    && !(f.at.callee < |s.acts| && s.acts[f.at.callee] == Done)
  }

  /** The activation is in a call, and can go on. */
  predicate Moves(s: State, k: nat) { k < |s.acts| && !AtRest(s.acts[k]) && !Waits(s, k) }

  lemma UpdateNearer(s: State, k: nat)
    requires FrameFits(s, k) && s.acts[k].Update? && FrameShape(s, s.acts[k])
    ensures Nearer(s, Step(s, k))
  {
    var p, was, s' := s.acts[k].p, s.acts[k].was, Step(s, k);
    if s.tasks[p].status == was {
      ByHeight(s, s', p);
    } else {
      ByRank(s, s', k, []);
    }
  }

  lemma InitNearer(s: State, k: nat, p: nat, i: nat)
    requires FrameFits(s, k) && s.acts[k] == Commit(p, i, Init) && !s.tasks[p].inited
    ensures Nearer(s, Step(s, k))
  {
    ByStart(s, Step(s, k), p);
  }

  lemma DropNearer(s: State, k: nat, p: nat, i: nat)
    requires FrameFits(s, k) && s.acts[k] == Commit(p, i, Drop)
    ensures Nearer(s, Step(s, k))
  {
    if s.tasks[p].counter > 0 { ByCount(s, Step(s, k), p); } else { ByWork(s, Step(s, k), k); }
  }

  lemma WireNearer(s: State, k: nat, p: nat, i: nat)
    requires FrameFits(s, k) && s.acts[k] == Commit(p, i, Wire) && i <= |s.tasks[p].deps|
    ensures Nearer(s, Step(s, k))
  {
    var s' := Step(s, k);
    CommitFrames(s, k, p, i, Wire);
    forall t | 0 <= t < |s.tasks| ensures SameMiddle(s.tasks[t], s'.tasks[t]) { WireTouches(s, k, p, i, t); }
    ByWork(s, s', k);
  }

  lemma ScanNearer(s: State, k: nat, p: nat, i: nat, stage: Stage)
    requires FrameFits(s, k) && s.acts[k] == Commit(p, i, stage) && (stage.Scan? || stage.Rec? || stage.Swap?)
    ensures Nearer(s, Step(s, k))
  {
    ByWork(s, Step(s, k), k);
  }

  lemma CommitNearer(s: State, k: nat)
    requires FrameFits(s, k) && s.acts[k].Commit? && FrameShape(s, s.acts[k]) && FrameOwn(s, k)
    ensures Nearer(s, Step(s, k))
  {
    var p, i, stage := s.acts[k].p, s.acts[k].i, s.acts[k].stage;
    match stage
    case Init => InitNearer(s, k, p, i);
    case Wire => WireNearer(s, k, p, i);
    case Drop => DropNearer(s, k, p, i);
    case _ => ScanNearer(s, k, p, i, stage);
  }

  /** The pass writes its status into the record. */
  lemma CasNearer(s: State, k: nat, p: nat, now: int, i: nat, cur: int)
    requires FrameFits(s, k) && s.acts[k] == Notify(p, now, i, Cas(cur)) && i < |s.tasks[p].childs| && cur < now
    requires At(s, s.tasks[p].childs[i]).stat == cur && now < 0x200
    ensures Nearer(s, Step(s, k))
  {
    var s', r := Step(s, k), s.tasks[p].childs[i];
    var deps, deps' := s.tasks[r.c].deps, s'.tasks[r.c].deps;
    SumSet(GapsOf(deps), r.j, Below(now));
    assert GapsOf(deps') == GapsOf(deps)[r.j := Below(now)];
    assert Works(s') == Works(s);
    ByGap(s, s', r.c);
  }

  lemma DecNearer(s: State, k: nat, p: nat, now: int, i: nat)
    requires FrameFits(s, k) && s.acts[k] == Notify(p, now, i, Dec) && i < |s.tasks[p].childs|
    ensures Nearer(s, Step(s, k))
  {
    var s', r := Step(s, k), s.tasks[p].childs[i];
    if s.tasks[r.c].counter > 0 { ByCount(s, s', r.c); } else { ByRank(s, s', k, []); }
  }

  /** The other steps of a pass change no task. */
  lemma PassNearer(s: State, k: nat, p: nat, now: int, i: nat, at: Visit)
    requires FrameFits(s, k) && s.acts[k] == Notify(p, now, i, at) && !Waits(s, k)
    requires i < |s.tasks[p].childs| ==> !at.Dec? && (at.Cas? ==> At(s, s.tasks[p].childs[i]).stat != at.cur)
    ensures Nearer(s, Step(s, k))
  {
    ByRank(s, Step(s, k), k, []);
  }

  lemma NotifyNearer(s: State, k: nat)
    requires FrameFits(s, k) && s.acts[k].Notify? && FrameShape(s, s.acts[k]) && !Waits(s, k)
    ensures Nearer(s, Step(s, k))
  {
    var p, now, i, at := s.acts[k].p, s.acts[k].now, s.acts[k].i, s.acts[k].at;
    if i < |s.tasks[p].childs| && at.Cas? && At(s, s.tasks[p].childs[i]).stat == at.cur {
      CasNearer(s, k, p, now, i, at.cur);
    } else if i < |s.tasks[p].childs| && at.Dec? {
      DecNearer(s, k, p, now, i);
    } else {
      PassNearer(s, k, p, now, i, at);
    }
  }

  lemma PlainNearer(s: State, k: nat)
    requires FrameFits(s, k) && (s.acts[k].Enqueue? || s.acts[k].Handler? || s.acts[k].Retract?)
    ensures Nearer(s, Step(s, k))
  {
    ByRank(s, Step(s, k), k, if s.acts[k].Enqueue? then [Job(s.acts[k].p)] else []);
  }

  lemma StepNearer(s: State, k: nat)
    requires Shape(s) && Own(s) && FrameFits(s, k) && Moves(s, k)
    ensures Nearer(s, Step(s, k))
  {
    assert FrameShape(s, s.acts[k]) && FrameOwn(s, k);
    if s.acts[k].Update? { UpdateNearer(s, k); }
    else if s.acts[k].Notify? { NotifyNearer(s, k); }
    else if s.acts[k].Commit? { CommitNearer(s, k); }
    else { PlainNearer(s, k); }
  }

  // ---------------------------------------------------------------------------------------------
  // Somebody can move
  // ---------------------------------------------------------------------------------------------

  predicate Carried(now: int) { now == READY || now == QUEUE || now == FINAL || now == COMPLETED }

  /** Where an activation that a pass called may be: in a change from READY on, or back. */
  predicate Called(f: Frame) {
    f.Done? || f.Enqueue? || (f.Update? && Carried(f.now)) || (f.Notify? && Carried(f.now))
  }

  /** A pass waits only for activations that came later, and are on their way back. */
  predicate CallsOn(s: State, k: nat)
    requires k < |s.acts|
  {
    s.acts[k].Notify? && s.acts[k].at.Call? ==>
      k < s.acts[k].at.callee < |s.acts| && Called(s.acts[s.acts[k].at.callee])
  }

  ghost predicate Chain(s: State) { forall k :: 0 <= k < |s.acts| ==> CallsOn(s, k) }

  lemma StepCalled(s: State, k: nat)
    requires FrameFits(s, k) && Called(s.acts[k])
    ensures k < |Step(s, k).acts| && Called(Step(s, k).acts[k])
  {
    StepFrames(s, k);
  }

  /** If activation `k` waits now and did not before, it is for the activation just added. */
  predicate CallIsNew(s: State, s': State, k: nat)
    requires k < |s.acts| && k < |s'.acts|
  {
    s'.acts[k].Notify? && s'.acts[k].at.Call? && s'.acts[k] != s.acts[k] ==>
      s'.acts[k].at.callee == |s.acts| < |s'.acts| && Called(s'.acts[|s.acts|])
  }

  lemma NewCall(s: State, k: nat)
    requires FrameFits(s, k)
    ensures k < |Step(s, k).acts| && CallIsNew(s, Step(s, k), k)
  {
    StepFrames(s, k);
  }

  lemma AddedFrame(s: State, k: nat)
    requires FrameFits(s, k)
    ensures var s' := Step(s, k); |s'.acts| > |s.acts| ==> !s'.acts[|s.acts|].Notify?
  {
  }

  lemma StepChain(s: State, k: nat)
    requires FrameFits(s, k) && Chain(s)
    ensures Chain(Step(s, k))
  {
    var s' := Step(s, k);
    StepFrames(s, k);
    NewCall(s, k);
    AddedFrame(s, k);
    assert CallsOn(s, k);
    forall u | 0 <= u < |s'.acts| ensures CallsOn(s', u) {
      if u < |s.acts| { assert CallsOn(s, u); }
      if s'.acts[u].Notify? && s'.acts[u].at.Call? && u < |s.acts| && s'.acts[u] == s.acts[u] {
        if s.acts[u].at.callee == k { StepCalled(s, k); }
      }
    }
  }

  lemma CallChain(s: State, a: Action)
    requires !a.Go? && Chain(s)
    ensures Chain(Next(s, a))
  {
    var s' := Next(s, a);
    forall u | 0 <= u < |s'.acts| ensures CallsOn(s', u) {
      if u < |s.acts| { assert CallsOn(s, u); }
    }
  }

  lemma {:induction false} RunChain(acts: seq<Action>)
    ensures Chain(Run(acts))
  {
    if acts != [] {
      var s, a := Run(acts[..|acts| - 1]), acts[|acts| - 1];
      RunChain(acts[..|acts| - 1]);
      if !a.Go? { CallChain(s, a); } else if FrameFits(s, a.k) { StepChain(s, a.k); }
    }
  }

  /** Following the calls from an activation that has not returned leads to one that can move. */
  lemma {:induction false} SomeMoves(s: State, k: nat) returns (j: nat)
    requires Chain(s) && k < |s.acts| && !AtRest(s.acts[k])
    ensures Moves(s, j)
    decreases |s.acts| - k
  {
    if Waits(s, k) {
      assert CallsOn(s, k);
      j := SomeMoves(s, s.acts[k].at.callee);
    } else {
      j := k;
    }
  }

  // ---------------------------------------------------------------------------------------------
  // Main results
  // ---------------------------------------------------------------------------------------------

  /** In every run, each step an activation in a call takes brings the whole nearer to rest. */
  lemma EveryStepNearer(acts: seq<Action>, k: nat)
    requires Moves(Run(acts), k)
    ensures Nearer(Run(acts), Next(Run(acts), Go(k)))
  {
    RunOwn(acts);
    ShapeFits(Run(acts), k);
    StepNearer(Run(acts), k);
  }

  /** No deadlock: as long as some call has not returned, one of them can move. */
  lemma NoDeadlock(acts: seq<Action>) returns (k: nat)
    requires !Rest(Run(acts).acts)
    ensures Moves(Run(acts), k)
  {
    RunChain(acts);
    k :| 0 <= k < |Run(acts).acts| && !AtRest(Run(acts).acts[k]);
    k := SomeMoves(Run(acts), k);
  }

  /**
   Every call returns: from every state of any number of threads, steps of calls that can move lead to all of them
   having returned. By EveryStepNearer it does not matter which of them are chosen.
   */
  lemma {:induction false} CallsReturn(acts: seq<Action>) returns (all: seq<Action>)
    ensures acts <= all && Rest(Run(all).acts)
    ensures forall i :: |acts| <= i < |all| ==> all[i].Go? && Moves(Run(all[..i]), all[i].k)
    decreases Sum(Heights(Run(acts))), Sum(Starts(Run(acts))), Sum(Counts(Run(acts))), Sum(Works(Run(acts))),
      Sum(Gaps(Run(acts))), Sum(Ranks(Run(acts)))
  {
    if Rest(Run(acts).acts) {
      all := acts;
    } else {
      var k := NoDeadlock(acts);
      EveryStepNearer(acts, k);
      var more := acts + [Go(k)];
      assert more[..|acts|] == acts;
      all := CallsReturn(more);
      assert all[..|acts|] == acts && all[|acts|] == more[|acts|];
    }
  }
}
