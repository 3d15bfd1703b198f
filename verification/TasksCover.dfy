/**
 No completion is lost: every completed parent of a waiting child has been counted, is still to be
 told by its notification pass, or is still to be found by the child's own commit. This holds in every
 interleaving in which no task is put in a second queue.
 */
module TasksCover {
  import opened Common
  import opened Tasks
  import opened TasksOwn
  import opened TasksCount

  function FrameAt(s: State, k: nat): Frame { if k < |s.acts| then s.acts[k] else Done }

  ghost predicate InRest(childs: seq<Ref>, i: nat, r: Ref) {
    exists q :: i <= q < |childs| && childs[q] == r
  }

  /** Where the completion pass of `p` is; a frame waiting for a callee is done with its current record. */
  function PassAt(f: Frame, p: nat): Option<nat> {
    if f.Notify? && f.p == p && f.now == COMPLETED then Some(if f.at.Call? then f.i + 1 else f.i) else None
  }

  /** The completion pass of the parent has not got past record (c, j) yet. */
  ghost predicate PassAhead(s: State, c: nat, j: nat, p: nat)
    requires p < |s.tasks|
  {
    var at := PassAt(FrameAt(s, s.tasks[p].owner), p);
    at.Some? && InRest(s.tasks[p].childs, at.value, Ref(c, j))
  }

  /** The commit of the child will still count record `j`, or is about to make the child READY. */
  predicate ScanAhead(f: Frame, c: nat, j: nat, e: Edge) {
    match f
    case Commit(p, i, stage) =>
      p == c &&
      (match stage
       case Init => false
       case Wire => true
       case Scan => i <= j
       case Rec(ps) => i < j || (i == j && ps == COMPLETED)
       case Swap(ps, ds) => i < j || (i == j && ps == COMPLETED && e.stat == ds)
       case Drop => i <= j)
    case Update(p, was, now) => p == c && was == DEPHOLD && now == READY
    case _ => false
  }

  predicate WireAhead(f: Frame, c: nat, j: nat) {
    f.Commit? && f.p == c && f.stage.Wire? && f.i <= j
  }

  ghost predicate EdgeCover(s: State, c: nat, j: nat)
    requires c < |s.tasks| && j < |s.tasks[c].deps|
  {
    var t := s.tasks[c];
    var e := t.deps[j];
    var f := FrameAt(s, t.committer);
    e.parent < |s.tasks| && (t.inited ==>
      && (e.wired || WireAhead(f, c, j))
      && (e.scanned && !e.decS ==> f == Commit(c, j, Drop))
      && (s.tasks[e.parent].status == COMPLETED && t.status == DEPHOLD ==>
            e.decN || e.decS || PassAhead(s, c, j, e.parent) || ScanAhead(f, c, j, e)))
  }

  /** Once the counter is spent somebody is making the task READY: its commit, or a completion pass. */
  predicate Woken(s: State, c: nat)
    requires c < |s.tasks|
  {
    var t := s.tasks[c];
    t.inited && t.counter <= 0 && t.status == DEPHOLD ==>
      && FrameAt(s, t.waker) == Update(c, DEPHOLD, READY)
      && (t.waker == t.committer || (t.wakeJ < |t.deps| && Calls(s, t.deps[t.wakeJ].parent, t.waker)))
  }

  predicate Calls(s: State, p: nat, callee: nat) {
    p < |s.tasks| && var f := FrameAt(s, s.tasks[p].owner);
      f.Notify? && f.p == p && f.now == COMPLETED && f.at == Call(callee)
  }

  ghost predicate Cover(s: State) {
    && (forall c, j :: 0 <= c < |s.tasks| && 0 <= j < |s.tasks[c].deps| ==> EdgeCover(s, c, j))
    && (forall c :: 0 <= c < |s.tasks| ==> Woken(s, c))
  }

  // ---------------------------------------------------------------------------------------------
  // Steps that do not concern a record
  // ---------------------------------------------------------------------------------------------

  /** The step at `k` leaves alone whatever the cover of (c, j) rests on. */
  ghost predicate Elsewhere(s: State, s': State, k: nat, c: nat) {
    && c < |s.tasks| <= |s'.tasks| && |s.acts| <= |s'.acts|
    && (forall u :: 0 <= u < |s.acts| && u != k ==> s'.acts[u] == s.acts[u])
    && s'.tasks[c].inited == s.tasks[c].inited
    && (s.tasks[c].inited ==>
          && s'.tasks[c].committer == s.tasks[c].committer && s'.tasks[c].status == s.tasks[c].status
          && s'.tasks[c].waker == s.tasks[c].waker && s'.tasks[c].wakeJ == s.tasks[c].wakeJ
          && s'.tasks[c].counter == s.tasks[c].counter)
  }

  ghost predicate SameParent(s: State, s': State, p: nat) {
    && p < |s.tasks| <= |s'.tasks|
    && (s'.tasks[p].status == COMPLETED <==> s.tasks[p].status == COMPLETED)
    && (s.tasks[p].status == COMPLETED ==> s'.tasks[p].owner == s.tasks[p].owner)
    && s.tasks[p].childs <= s'.tasks[p].childs
  }

  lemma RestGrows(childs: seq<Ref>, childs': seq<Ref>, i: nat, r: Ref)
    requires childs <= childs' && InRest(childs, i, r)
    ensures InRest(childs', i, r)
  {
    var q :| i <= q < |childs| && childs[q] == r;
    assert childs'[q] == r;
  }

  lemma CoverElsewhere(s: State, s': State, k: nat, c: nat, j: nat)
    requires Elsewhere(s, s', k, c) && j < |s.tasks[c].deps| && EdgeCover(s, c, j)
    requires j < |s'.tasks[c].deps| && s'.tasks[c].deps[j] == s.tasks[c].deps[j]
    requires SameParent(s, s', s.tasks[c].deps[j].parent)
    requires k < |s.acts| ==>
      && !(s.acts[k].Commit? && s.acts[k].p == c && !s.acts[k].stage.Init?)
      && !(s.acts[k] == Update(c, DEPHOLD, READY) && s.tasks[c].status == DEPHOLD)
      && !(s.acts[k].Notify? && s.acts[k].now == COMPLETED && s.acts[k].p == s.tasks[c].deps[j].parent)
    ensures EdgeCover(s', c, j)
  {
    var p := s.tasks[c].deps[j].parent;
    if s.tasks[c].inited && s.tasks[p].status == COMPLETED && PassAhead(s, c, j, p) {
      RestGrows(s.tasks[p].childs, s'.tasks[p].childs, PassAt(FrameAt(s, s.tasks[p].owner), p).value, Ref(c, j));
    }
  }

  lemma WokenElsewhere(s: State, s': State, k: nat, c: nat)
    requires Elsewhere(s, s', k, c) && Woken(s, c)
    requires s.tasks[c].inited ==> |s'.tasks[c].deps| == |s.tasks[c].deps|
    requires s.tasks[c].inited ==> forall j :: 0 <= j < |s.tasks[c].deps| ==>
      s'.tasks[c].deps[j].parent == s.tasks[c].deps[j].parent
    requires forall p :: 0 <= p < |s.tasks| && s.tasks[p].status == COMPLETED ==> s'.tasks[p].owner == s.tasks[p].owner
    requires forall p: nat, w: nat :: Calls(s, p, w) ==> s.tasks[p].status == COMPLETED
    requires k < |s.acts| ==>
      && !(s.acts[k] == Update(c, DEPHOLD, READY) && s.tasks[c].status == DEPHOLD)
      && (s.acts[k].Notify? && s.acts[k].at.Call? && FrameAt(s, s.acts[k].at.callee) != Done ==>
        s'.acts[k] == s.acts[k])
    ensures Woken(s', c)
  {
    var t := s.tasks[c];
    if t.inited && t.counter <= 0 && t.status == DEPHOLD && t.waker != t.committer {
      assert Calls(s, t.deps[t.wakeJ].parent, t.waker);
    }
  }

  /** A pass of completion belongs to a task that is COMPLETED and driven by that pass. */
  lemma CallsCompleted(s: State)
    requires Own(s)
    ensures forall p: nat, w: nat :: Calls(s, p, w) ==> s.tasks[p].status == COMPLETED
  {
    forall p: nat, w: nat | Calls(s, p, w) ensures s.tasks[p].status == COMPLETED {
      assert FrameOwn(s, s.tasks[p].owner);
    }
  }

  // ---------------------------------------------------------------------------------------------
  // Status changes
  // ---------------------------------------------------------------------------------------------

  lemma UpdateCover(s: State, k: nat, p: nat, was: int, now: int, c: nat, j: nat)
    requires Shape(s) && Own(s) && Count(s) && !s.requeued && k < |s.acts| && s.acts[k] == Update(p, was, now)
      && p < |s.tasks|
    requires c < |s.tasks| && j < |s.tasks[c].deps| && EdgeCover(s, c, j)
    ensures c < |Step(s, k).tasks| && j < |Step(s, k).tasks[c].deps| && EdgeCover(Step(s, k), c, j)
  {
    var s' := Step(s, k);
    assert FrameShape(s, s.acts[k]) && FrameOwn(s, k) && TaskOwn(s.tasks[c]);
    var e := s.tasks[c].deps[j];
    if s.tasks[p].status == was && now == COMPLETED && e.parent == p {
      assert TaskCount(s, c) && EdgeInv(s, c, j);
      UpdateEffect(s, k, p, was, now);
      CoverFresh(s, s', k, p, was, c, j);
    } else {
      UpdateEffect(s, k, p, was, now);
      if s.tasks[p].status != was {
        CoverElsewhere(s, s', k, c, j);
      } else if c == p {
        CoverSelf(s, s', k, p, was, now, j);
      } else {
        CoverElsewhere(s, s', k, c, j);
      }
    }
  }

  /** A parent that becomes COMPLETED has its whole list still to tell. */
  lemma CoverFresh(s: State, s': State, k: nat, p: nat, was: int, c: nat, j: nat)
    requires Advances(s, s', k, p, COMPLETED) && s.acts[k] == Update(p, was, COMPLETED) && was == FINAL
    requires c < |s.tasks| && j < |s.tasks[c].deps| && EdgeCover(s, c, j) && EdgeInv(s, c, j)
    requires s.tasks[c].deps[j].parent == p && s.tasks[p].status == was
    ensures EdgeCover(s', c, j)
  {
    var e := s.tasks[c].deps[j];
    assert e.wired ==> InRest(s.tasks[p].childs, 0, Ref(c, j));
    assert s'.tasks[c].deps[j] == e;
  }

  /** A compare-and-swap of the status that failed, or succeeded. */
  ghost predicate Misses(s: State, s': State, k: nat) {
    && k < |s.acts| == |s'.acts| && s'.tasks == s.tasks
    && (forall u :: 0 <= u < |s.acts| && u != k ==> s'.acts[u] == s.acts[u])
  }

  ghost predicate Advances(s: State, s': State, k: nat, p: nat, now: int) {
    && k < |s.acts| == |s'.acts| && p < |s.tasks| == |s'.tasks|
    && (forall u :: 0 <= u < |s.acts| && u != k ==> s'.acts[u] == s.acts[u])
    && s'.acts[k] == Notify(p, now, 0, Head)
    && (forall t :: 0 <= t < |s.tasks| && t != p ==> s'.tasks[t] == s.tasks[t])
    && s'.tasks[p] == s.tasks[p].(status := now,
         owner := if Mainline(now) then k else s.tasks[p].owner,
         committer := if now == DEPHOLD then k else s.tasks[p].committer)
  }

  lemma UpdateEffect(s: State, k: nat, p: nat, was: int, now: int)
    requires k < |s.acts| && p < |s.tasks|
    ensures var s' := UpdateStep(s, k, p, was, now);
      if s.tasks[p].status == was then Advances(s, s', k, p, now) else Misses(s, s', k)
  {
  }

  /** A task that leaves DEPHOLD, or has not been set up yet, needs no cover for its counts. */
  lemma CoverSelf(s: State, s': State, k: nat, p: nat, was: int, now: int, j: nat)
    requires Advances(s, s', k, p, now) && s.acts[k] == Update(p, was, now) && s.tasks[p].status == was
    requires Legal(was, now, s.tasks[p].barrier) && TaskOwn(s.tasks[p])
    requires j < |s.tasks[p].deps| && EdgeCover(s, p, j)
    ensures EdgeCover(s', p, j)
  {
    assert s'.tasks[p].status != DEPHOLD || !s'.tasks[p].inited;
    assert s.tasks[p].inited ==> s'.tasks[p].committer == s.tasks[p].committer;
  }

  lemma UpdateWoken(s: State, k: nat, p: nat, was: int, now: int, c: nat)
    requires Shape(s) && Own(s) && !s.requeued && k < |s.acts| && s.acts[k] == Update(p, was, now) && p < |s.tasks|
    requires c < |s.tasks| && Woken(s, c)
    ensures c < |Step(s, k).tasks| && Woken(Step(s, k), c)
  {
    assert FrameShape(s, s.acts[k]) && FrameOwn(s, k) && TaskOwn(s.tasks[c]);
    CallsCompleted(s);
    UpdateEffect(s, k, p, was, now);
    if c == p && s.tasks[p].status == was {
      assert Step(s, k).tasks[c].status != DEPHOLD || !Step(s, k).tasks[c].inited;
    } else {
      WokenUpdated(s, Step(s, k), k, p, was, now, c);
    }
  }

  lemma WokenUpdated(s: State, s': State, k: nat, p: nat, was: int, now: int, c: nat)
    requires k < |s.acts| && s.acts[k] == Update(p, was, now) && p < |s.tasks| && Legal(was, now, s.tasks[p].barrier)
    requires if s.tasks[p].status == was then Advances(s, s', k, p, now) && c != p else Misses(s, s', k)
    requires forall q: nat, w: nat :: Calls(s, q, w) ==> s.tasks[q].status == COMPLETED
    requires c < |s.tasks| && Woken(s, c)
    ensures Woken(s', c)
  {
    var t := s.tasks[c];
    if t.inited && t.counter <= 0 && t.status == DEPHOLD && t.waker != t.committer {
      assert Calls(s, t.deps[t.wakeJ].parent, t.waker);
    }
  }

  // ---------------------------------------------------------------------------------------------
  // Notification
  // ---------------------------------------------------------------------------------------------

  /** A pass of any other status belongs to a task that is not COMPLETED. */
  lemma EarlierPass(s: State, k: nat, p: nat, now: int, i: nat, at: Visit)
    requires Shape(s) && Own(s) && !s.requeued && k < |s.acts| && s.acts[k] == Notify(p, now, i, at)
    ensures p < |s.tasks|
    ensures if now == COMPLETED then s.tasks[p].status == COMPLETED && s.tasks[p].owner == k
            else s.tasks[p].status != COMPLETED
  {
    assert FrameShape(s, s.acts[k]) && FrameOwn(s, k);
  }

  lemma NotifyCover(s: State, k: nat, p: nat, now: int, i: nat, at: Visit, c: nat, j: nat)
    requires Shape(s) && Own(s) && Count(s) && !s.requeued && k < |s.acts|
    requires s.acts[k] == Notify(p, now, i, at) && Fits(s, s.acts[k])
    requires c < |s.tasks| && j < |s.tasks[c].deps| && EdgeCover(s, c, j)
    ensures var s' := Step(s, k); c < |s'.tasks| && j < |s'.tasks[c].deps| && EdgeCover(s', c, j)
  {
    var s' := Step(s, k);
    EarlierPass(s, k, p, now, i, at);
    assert FrameShape(s, s.acts[k]) && TaskCount(s, c) && EdgeInv(s, c, j);
    NotifyEffect(s, k, p, now, i, at);
    if s.tasks[c].deps[j].parent != p {
      if i < |s.tasks[p].childs| {
        var r := RecordAt(s, p, i);
        assert r != Ref(c, j);
      }
      CoverOtherParent(s, s', k, c, j);
    } else if now != COMPLETED {
      CoverUnfinished(s, s', k, c, j);
    } else {
      CoverPass(s, k, p, i, at, c, j);
    }
  }

  /** What a notification step may write: the record it is at and the counter of that child. */
  ghost predicate NotifyWrites(s: State, s': State, k: nat, p: nat, i: nat) {
    && k < |s.acts| <= |s'.acts| && p < |s.tasks| && |s'.tasks| == |s.tasks|
    && (forall u :: 0 <= u < |s.acts| && u != k ==> s'.acts[u] == s.acts[u])
    && forall t :: 0 <= t < |s.tasks| ==>
      var x, x' := s.tasks[t], s'.tasks[t];
      && x'.inited == x.inited && x'.committer == x.committer && x'.status == x.status && x'.owner == x.owner
      && x'.childs == x.childs && |x'.deps| == |x.deps|
      && forall j :: 0 <= j < |x.deps| ==>
           && x'.deps[j].parent == x.deps[j].parent && x'.deps[j].wired == x.deps[j].wired
           && x'.deps[j].scanned == x.deps[j].scanned && x'.deps[j].decS == x.deps[j].decS
           && ((i < |s.tasks[p].childs| && s.tasks[p].childs[i] == Ref(t, j)) || x'.deps[j] == x.deps[j])
  }

  lemma NotifyEffect(s: State, k: nat, p: nat, now: int, i: nat, at: Visit)
    requires k < |s.acts| && s.acts[k] == Notify(p, now, i, at) && Fits(s, s.acts[k])
    ensures NotifyWrites(s, Step(s, k), k, p, i)
  {
    NotifyFrames(s, k, p, now, i, at);
    if i < |s.tasks[p].childs| && at.Cas? { CasEffect(s, k, p, now, i, at.cur); }
    else if i < |s.tasks[p].childs| && at.Dec? { DecEffect(s, k, p, now, i); }
    else { assert Step(s, k).tasks == s.tasks; }
  }

  lemma CasEffect(s: State, k: nat, p: nat, now: int, i: nat, cur: int)
    requires k < |s.acts| && s.acts[k] == Notify(p, now, i, Cas(cur)) && Fits(s, s.acts[k]) && i < |s.tasks[p].childs|
    ensures NotifyWrites(s, Step(s, k), k, p, i)
  {
  }

  lemma DecEffect(s: State, k: nat, p: nat, now: int, i: nat)
    requires k < |s.acts| && s.acts[k] == Notify(p, now, i, Dec) && Fits(s, s.acts[k]) && i < |s.tasks[p].childs|
    ensures NotifyWrites(s, Step(s, k), k, p, i)
  {
  }

  lemma CoverOtherParent(s: State, s': State, k: nat, c: nat, j: nat)
    requires k < |s.acts| && s.acts[k].Notify? && NotifyWrites(s, s', k, s.acts[k].p, s.acts[k].i)
    requires c < |s.tasks| && j < |s.tasks[c].deps| && EdgeCover(s, c, j)
    requires s.tasks[c].deps[j].parent != s.acts[k].p
    requires s.acts[k].i < |s.tasks[s.acts[k].p].childs| ==> s.tasks[s.acts[k].p].childs[s.acts[k].i] != Ref(c, j)
    ensures EdgeCover(s', c, j)
  {
    assert s'.tasks[c].deps[j] == s.tasks[c].deps[j];
    var p := s.tasks[c].deps[j].parent;
    assert s'.tasks[p].childs == s.tasks[p].childs;
  }

  lemma CoverUnfinished(s: State, s': State, k: nat, c: nat, j: nat)
    requires k < |s.acts| && s.acts[k].Notify? && NotifyWrites(s, s', k, s.acts[k].p, s.acts[k].i)
    requires c < |s.tasks| && j < |s.tasks[c].deps| && EdgeCover(s, c, j)
    requires s.tasks[c].deps[j].parent == s.acts[k].p && s.tasks[s.acts[k].p].status != COMPLETED
    requires s.acts[k].p < |s.tasks|
    ensures EdgeCover(s', c, j)
  {
  }

  /** The completion pass leaves a record behind only when its completion is counted elsewhere or no longer matters. */
  lemma CoverPass(s: State, k: nat, p: nat, i: nat, at: Visit, c: nat, j: nat)
    requires k < |s.acts| && s.acts[k] == Notify(p, COMPLETED, i, at) && Fits(s, s.acts[k]) && FrameShape(s, s.acts[k])
    requires s.tasks[p].owner == k && FrameCount(s, s.acts[k])
    requires c < |s.tasks| && j < |s.tasks[c].deps| && EdgeCover(s, c, j) && EdgeInv(s, c, j)
    requires s.tasks[c].deps[j].parent == p && NotifyWrites(s, Step(s, k), k, p, i)
    requires s.tasks[p].status == COMPLETED
    ensures EdgeCover(Step(s, k), c, j)
  {
    var s' := Step(s, k);
    var t, e := s.tasks[c], s.tasks[c].deps[j];
    if t.inited && t.status == DEPHOLD {
      if PassAhead(s, c, j, p) {
        var q :| PassAt(s.acts[k], p).value <= q < |s.tasks[p].childs| && s.tasks[p].childs[q] == Ref(c, j);
        if q > i || at.Call? {
          PassOn(s, k, p, i, at, q);
          StillAhead(s, s', k, p, i, c, j, q);
        } else {
          PassesRecord(s, k, p, i, at, c, j);
        }
      } else {
        CountedStays(s, k, p, i, at, c, j);
      }
    }
  }

  /** A pass goes one record further at most. */
  lemma PassOn(s: State, k: nat, p: nat, i: nat, at: Visit, q: nat)
    requires k < |s.acts| && s.acts[k] == Notify(p, COMPLETED, i, at) && Fits(s, s.acts[k]) && q < |s.tasks[p].childs|
    requires i < q || (at.Call? && i + 1 <= q)
    ensures var s' := Step(s, k); PassAt(s'.acts[k], p).Some? && PassAt(s'.acts[k], p).value <= q
  {
  }

  lemma StillAhead(s: State, s': State, k: nat, p: nat, i: nat, c: nat, j: nat, q: nat)
    requires NotifyWrites(s, s', k, p, i) && s.acts[k].Notify? && s.acts[k].p == p && s.tasks[p].owner == k
    requires c < |s.tasks| && j < |s.tasks[c].deps| && EdgeCover(s, c, j) && s.tasks[c].deps[j].parent == p
    requires q < |s.tasks[p].childs| && s.tasks[p].childs[q] == Ref(c, j)
    requires PassAt(s'.acts[k], p).Some? && PassAt(s'.acts[k], p).value <= q
    ensures EdgeCover(s', c, j)
  {
    assert s'.tasks[p].childs[q] == Ref(c, j);
    assert InRest(s'.tasks[p].childs, PassAt(s'.acts[k], p).value, Ref(c, j));
  }

  lemma PassesRecord(s: State, k: nat, p: nat, i: nat, at: Visit, c: nat, j: nat)
    requires k < |s.acts| && s.acts[k] == Notify(p, COMPLETED, i, at) && Fits(s, s.acts[k]) && FrameShape(s, s.acts[k])
    requires s.tasks[p].owner == k && FrameCount(s, s.acts[k]) && s.tasks[p].status == COMPLETED
    requires c < |s.tasks| && j < |s.tasks[c].deps| && EdgeCover(s, c, j) && EdgeInv(s, c, j)
    requires s.tasks[c].deps[j].parent == p && NotifyWrites(s, Step(s, k), k, p, i)
    requires i < |s.tasks[p].childs| && s.tasks[p].childs[i] == Ref(c, j) && !at.Call?
    requires s.tasks[c].inited && s.tasks[c].status == DEPHOLD
    ensures EdgeCover(Step(s, k), c, j)
  {
    var s' := Step(s, k);
    var e := s.tasks[c].deps[j];
    var f := FrameAt(s, s.tasks[c].committer);
    if s'.acts[k].Notify? && s'.acts[k].i == i && !s'.acts[k].at.Call? {
      assert InRest(s'.tasks[p].childs, i, Ref(c, j));
    } else if at.Dec? {
      assert s'.tasks[c].deps[j].decN;
    } else {
      assert e.stat >= COMPLETED && !Told(s, Ref(c, j));
      assert e.scanned;
      assert s'.tasks[c].deps[j] == e;
      assert e.decS || f == Commit(c, j, Drop);
    }
  }

  lemma CountedStays(s: State, k: nat, p: nat, i: nat, at: Visit, c: nat, j: nat)
    requires k < |s.acts| && s.acts[k] == Notify(p, COMPLETED, i, at) && Fits(s, s.acts[k]) && FrameShape(s, s.acts[k])
    requires s.tasks[p].owner == k && c < |s.tasks| && j < |s.tasks[c].deps| && EdgeCover(s, c, j)
    requires s.tasks[c].deps[j].parent == p && NotifyWrites(s, Step(s, k), k, p, i)
    requires !PassAhead(s, c, j, p) && s.tasks[p].status == COMPLETED
    ensures EdgeCover(Step(s, k), c, j)
  {
    var s' := Step(s, k);
    RestNow(s.tasks[p].childs, i, Ref(c, j));
    assert s'.tasks[c].deps[j] == s.tasks[c].deps[j];
  }

  lemma RestNow(childs: seq<Ref>, i: nat, r: Ref)
    ensures i < |childs| && childs[i] == r ==> InRest(childs, i, r)
  {
  }

  lemma NotifyWoken(s: State, k: nat, p: nat, now: int, i: nat, at: Visit, c: nat)
    requires Shape(s) && Own(s) && Count(s) && !s.requeued && k < |s.acts|
    requires s.acts[k] == Notify(p, now, i, at) && Fits(s, s.acts[k])
    requires c < |s.tasks| && Woken(s, c)
    ensures c < |Step(s, k).tasks| && Woken(Step(s, k), c)
  {
    var s' := Step(s, k);
    var t := s.tasks[c];
    EarlierPass(s, k, p, now, i, at);
    NotifyEffect(s, k, p, now, i, at);
    assert FrameShape(s, s.acts[k]) && TaskCount(s, c);
    if i < |s.tasks[p].childs| && at.Dec? && s.tasks[p].childs[i].c == c && t.counter == 1 {
      var r := RecordAt(s, p, i);
      assert FrameAt(s', |s.acts|) == Update(c, DEPHOLD, READY);
      assert Calls(s', p, |s.acts|);
    } else {
      WokenSame(s, k, p, now, i, at, c);
    }
  }

  lemma WokenSame(s: State, k: nat, p: nat, now: int, i: nat, at: Visit, c: nat)
    requires k < |s.acts| && s.acts[k] == Notify(p, now, i, at) && Fits(s, s.acts[k]) && FrameShape(s, s.acts[k])
    requires c < |s.tasks| && Woken(s, c) && NotifyWrites(s, Step(s, k), k, p, i)
    requires !(i < |s.tasks[p].childs| && at.Dec? && s.tasks[p].childs[i].c == c && s.tasks[c].counter == 1)
    ensures Woken(Step(s, k), c)
  {
    var s' := Step(s, k);
    var t, t' := s.tasks[c], s'.tasks[c];
    assert t'.waker == t.waker && t'.wakeJ == t.wakeJ && (t'.counter <= 0 ==> t.counter <= 0);
    if t.inited && t.counter <= 0 && t.status == DEPHOLD {
      assert t.waker < |s.acts| && t.waker != k;
      if t.waker != t.committer {
        var q := t.deps[t.wakeJ].parent;
        assert t'.deps[t.wakeJ].parent == q;
        assert s'.tasks[q].owner == s.tasks[q].owner;
      }
    }
  }

  // ---------------------------------------------------------------------------------------------
  // Commit
  // ---------------------------------------------------------------------------------------------

  /** What a step of the commit of `p` may write: its own counter and record `i`, and one list of children. */
  ghost predicate CommitWrites(s: State, s': State, k: nat, p: nat, i: nat) {
    && k < |s.acts| == |s'.acts| && p < |s.tasks| == |s'.tasks|
    && (forall u :: 0 <= u < |s.acts| && u != k ==> s'.acts[u] == s.acts[u])
    && forall t :: 0 <= t < |s.tasks| ==>
      var x, x' := s.tasks[t], s'.tasks[t];
      && x'.committer == x.committer && x'.status == x.status && x'.owner == x.owner
      && x.childs <= x'.childs && |x'.deps| == |x.deps|
      && (t != p ==> x'.deps == x.deps && x'.inited == x.inited && x'.counter == x.counter
                       && x'.waker == x.waker && x'.wakeJ == x.wakeJ)
      && forall j :: 0 <= j < |x.deps| ==>
           x'.deps[j].parent == x.deps[j].parent && ((t == p && j == i) || x'.deps[j] == x.deps[j])
  }

  lemma CommitEffect(s: State, k: nat, p: nat, i: nat, stage: Stage)
    requires k < |s.acts| && s.acts[k] == Commit(p, i, stage) && Fits(s, s.acts[k])
    ensures CommitWrites(s, Step(s, k), k, p, i)
  {
    if stage.Wire? && i < |s.tasks[p].deps| { WireEffect(s, k, p, i); } else { PlainEffect(s, k, p, i, stage); }
  }

  lemma PlainEffect(s: State, k: nat, p: nat, i: nat, stage: Stage)
    requires k < |s.acts| && s.acts[k] == Commit(p, i, stage) && Fits(s, s.acts[k])
    requires !(stage.Wire? && i < |s.tasks[p].deps|)
    ensures CommitWrites(s, Step(s, k), k, p, i)
  {
    if stage.Init? { InitEffect(s, k, p, i); }
    else if stage.Swap? { SwapEffect(s, k, p, i); }
    else if stage.Drop? { DropEffect(s, k, p, i); }
    else { MoveEffect(s, k, p, i); }
  }

  lemma InitEffect(s: State, k: nat, p: nat, i: nat)
    requires k < |s.acts| && s.acts[k] == Commit(p, i, Init) && Fits(s, s.acts[k])
    ensures CommitWrites(s, Step(s, k), k, p, i)
  {
  }

  lemma SwapEffect(s: State, k: nat, p: nat, i: nat)
    requires k < |s.acts| && s.acts[k].Commit? && s.acts[k].p == p && s.acts[k].i == i && s.acts[k].stage.Swap?
    requires Fits(s, s.acts[k])
    ensures CommitWrites(s, Step(s, k), k, p, i)
  {
  }

  lemma DropEffect(s: State, k: nat, p: nat, i: nat)
    requires k < |s.acts| && s.acts[k] == Commit(p, i, Drop) && Fits(s, s.acts[k])
    ensures CommitWrites(s, Step(s, k), k, p, i)
  {
  }

  /** Steps that only move the commit on. */
  lemma MoveEffect(s: State, k: nat, p: nat, i: nat)
    requires k < |s.acts| && s.acts[k].Commit? && s.acts[k].p == p && s.acts[k].i == i && Fits(s, s.acts[k])
    requires s.acts[k].stage.Scan? || s.acts[k].stage.Rec? || (s.acts[k].stage.Wire? && i >= |s.tasks[p].deps|)
    ensures CommitWrites(s, Step(s, k), k, p, i)
  {
    assert Step(s, k).tasks == s.tasks;
  }

  lemma WireEffect(s: State, k: nat, p: nat, i: nat)
    requires k < |s.acts| && s.acts[k] == Commit(p, i, Wire) && Fits(s, s.acts[k]) && i < |s.tasks[p].deps|
    ensures CommitWrites(s, Step(s, k), k, p, i)
  {
  }

  lemma CommitCover(s: State, k: nat, p: nat, i: nat, stage: Stage, c: nat, j: nat)
    requires Shape(s) && Own(s) && Count(s) && !s.requeued && k < |s.acts|
    requires s.acts[k] == Commit(p, i, stage) && Fits(s, s.acts[k])
    requires c < |s.tasks| && j < |s.tasks[c].deps| && EdgeCover(s, c, j)
    ensures var s' := Step(s, k); c < |s'.tasks| && j < |s'.tasks[c].deps| && EdgeCover(s', c, j)
  {
    var s' := Step(s, k);
    assert FrameShape(s, s.acts[k]) && FrameOwn(s, k) && FrameCount(s, s.acts[k]);
    assert TaskCount(s, c) && EdgeInv(s, c, j);
    CommitEffect(s, k, p, i, stage);
    if c != p {
      CoverOtherCommit(s, s', k, c, j);
    } else {
      PassUnmoved(s, s', k, c, j);
      CoverCommit(s, k, p, i, stage, j);
    }
  }

  lemma PassUnmoved(s: State, s': State, k: nat, c: nat, j: nat)
    requires k < |s.acts| && s.acts[k].Commit? && CommitWrites(s, s', k, s.acts[k].p, s.acts[k].i)
    requires c < |s.tasks| && j < |s.tasks[c].deps| && s.tasks[c].deps[j].parent < |s.tasks|
    ensures var p := s.tasks[c].deps[j].parent; PassAhead(s, c, j, p) ==> PassAhead(s', c, j, p)
  {
    var p := s.tasks[c].deps[j].parent;
    if PassAhead(s, c, j, p) {
      RestGrows(s.tasks[p].childs, s'.tasks[p].childs, PassAt(FrameAt(s, s.tasks[p].owner), p).value, Ref(c, j));
    }
  }

  lemma CoverOtherCommit(s: State, s': State, k: nat, c: nat, j: nat)
    requires k < |s.acts| && s.acts[k].Commit? && CommitWrites(s, s', k, s.acts[k].p, s.acts[k].i)
    requires c < |s.tasks| && j < |s.tasks[c].deps| && EdgeCover(s, c, j) && c != s.acts[k].p
    ensures EdgeCover(s', c, j)
  {
    PassUnmoved(s, s', k, c, j);
    assert s'.tasks[c].deps[j] == s.tasks[c].deps[j];
    assert s'.tasks[c].committer == s.tasks[c].committer;
  }

  /** The commit of a task leaves a record behind only when its completion is counted or still to be told. */
  lemma CoverCommit(s: State, k: nat, p: nat, i: nat, stage: Stage, j: nat)
    requires k < |s.acts| && s.acts[k] == Commit(p, i, stage) && Fits(s, s.acts[k]) && FrameShape(s, s.acts[k])
    requires FrameOwn(s, k) && FrameCount(s, s.acts[k])
    requires j < |s.tasks[p].deps| && EdgeCover(s, p, j) && EdgeInv(s, p, j)
    requires CommitWrites(s, Step(s, k), k, p, i)
    requires var q := s.tasks[p].deps[j].parent; PassAhead(s, p, j, q) ==> PassAhead(Step(s, k), p, j, q)
    ensures EdgeCover(Step(s, k), p, j)
  {
    var s' := Step(s, k);
    var e, e' := s.tasks[p].deps[j], s'.tasks[p].deps[j];
    assert s'.tasks[p].committer == k && FrameAt(s', k) == s'.acts[k];
    match stage
    case Init => CoverInit(s, k, p, i, j);
    case Wire => CoverWire(s, k, p, i, j);
    case Swap(ps, ds) => CoverSwap(s, k, p, i, ps, ds, j);
    case Drop => CoverDrop(s, k, p, i, j);
    case _ => CoverLook(s, k, p, i, stage, j);
  }

  lemma CoverInit(s: State, k: nat, p: nat, i: nat, j: nat)
    requires k < |s.acts| && s.acts[k] == Commit(p, i, Init) && Fits(s, s.acts[k]) && FrameOwn(s, k)
    requires j < |s.tasks[p].deps| && EdgeCover(s, p, j) && EdgeInv(s, p, j)
    ensures EdgeCover(Step(s, k), p, j)
  {
  }

  lemma CoverSwap(s: State, k: nat, p: nat, i: nat, ps: int, ds: int, j: nat)
    requires k < |s.acts| && s.acts[k] == Commit(p, i, Swap(ps, ds)) && Fits(s, s.acts[k]) && FrameShape(s, s.acts[k])
    requires FrameOwn(s, k) && FrameCount(s, s.acts[k])
    requires j < |s.tasks[p].deps| && EdgeCover(s, p, j) && EdgeInv(s, p, j)
    requires CommitWrites(s, Step(s, k), k, p, i)
    requires var q := s.tasks[p].deps[j].parent; PassAhead(s, p, j, q) ==> PassAhead(Step(s, k), p, j, q)
    ensures EdgeCover(Step(s, k), p, j)
  {
    if j == i { CoverSwapped(s, k, p, i, ps, ds); } else { CoverUnswapped(s, k, p, i, ps, ds, j); }
  }

  lemma CoverSwapped(s: State, k: nat, p: nat, i: nat, ps: int, ds: int)
    requires k < |s.acts| && s.acts[k] == Commit(p, i, Swap(ps, ds)) && Fits(s, s.acts[k]) && FrameShape(s, s.acts[k])
    requires FrameOwn(s, k) && FrameCount(s, s.acts[k])
    requires i < |s.tasks[p].deps| && EdgeCover(s, p, i) && EdgeInv(s, p, i)
    requires CommitWrites(s, Step(s, k), k, p, i)
    requires var q := s.tasks[p].deps[i].parent; PassAhead(s, p, i, q) ==> PassAhead(Step(s, k), p, i, q)
    ensures EdgeCover(Step(s, k), p, i)
  {
  }

  lemma CoverUnswapped(s: State, k: nat, p: nat, i: nat, ps: int, ds: int, j: nat)
    requires k < |s.acts| && s.acts[k] == Commit(p, i, Swap(ps, ds)) && Fits(s, s.acts[k]) && FrameOwn(s, k)
    requires j != i && j < |s.tasks[p].deps| && EdgeCover(s, p, j)
    requires CommitWrites(s, Step(s, k), k, p, i)
    requires var q := s.tasks[p].deps[j].parent; PassAhead(s, p, j, q) ==> PassAhead(Step(s, k), p, j, q)
    ensures EdgeCover(Step(s, k), p, j)
  {
    assert Step(s, k).tasks[p].deps[j] == s.tasks[p].deps[j];
  }

  lemma CoverDrop(s: State, k: nat, p: nat, i: nat, j: nat)
    requires k < |s.acts| && s.acts[k] == Commit(p, i, Drop) && Fits(s, s.acts[k]) && FrameShape(s, s.acts[k])
    requires FrameOwn(s, k) && FrameCount(s, s.acts[k])
    requires j < |s.tasks[p].deps| && EdgeCover(s, p, j) && EdgeInv(s, p, j)
    requires CommitWrites(s, Step(s, k), k, p, i)
    requires var q := s.tasks[p].deps[j].parent; PassAhead(s, p, j, q) ==> PassAhead(Step(s, k), p, j, q)
    ensures EdgeCover(Step(s, k), p, j)
  {
  }

  lemma CoverLook(s: State, k: nat, p: nat, i: nat, stage: Stage, j: nat)
    requires k < |s.acts| && s.acts[k] == Commit(p, i, stage) && Fits(s, s.acts[k]) && (stage.Scan? || stage.Rec?)
    requires FrameOwn(s, k) && j < |s.tasks[p].deps| && EdgeCover(s, p, j) && EdgeInv(s, p, j)
    requires var q := s.tasks[p].deps[j].parent; PassAhead(s, p, j, q) ==> PassAhead(Step(s, k), p, j, q)
    ensures EdgeCover(Step(s, k), p, j)
  {
  }

  lemma CoverWire(s: State, k: nat, p: nat, i: nat, j: nat)
    requires k < |s.acts| && s.acts[k] == Commit(p, i, Wire) && Fits(s, s.acts[k]) && FrameShape(s, s.acts[k])
    requires FrameOwn(s, k) && FrameCount(s, s.acts[k]) && j < |s.tasks[p].deps| && EdgeCover(s, p, j)
    requires CommitWrites(s, Step(s, k), k, p, i)
    ensures EdgeCover(Step(s, k), p, j)
  {
    var s' := Step(s, k);
    var e, e' := s.tasks[p].deps[j], s'.tasks[p].deps[j];
    assert s'.tasks[p].committer == k && s'.tasks[p].inited;
    assert s'.acts[k].Commit? && (s'.acts[k].stage.Wire? || s'.acts[k] == Commit(p, 0, Scan));
    assert e'.scanned == e.scanned && e'.decS == e.decS;
    assert e.wired || i <= j;
  }

  lemma CommitWoken(s: State, k: nat, p: nat, i: nat, stage: Stage, c: nat)
    requires Shape(s) && Own(s) && Count(s) && !s.requeued && k < |s.acts|
    requires s.acts[k] == Commit(p, i, stage) && Fits(s, s.acts[k])
    requires c < |s.tasks| && Woken(s, c)
    ensures c < |Step(s, k).tasks| && Woken(Step(s, k), c)
  {
    assert FrameShape(s, s.acts[k]) && FrameOwn(s, k) && TaskCount(s, c);
    CommitEffect(s, k, p, i, stage);
    if c != p || stage.Wire? || stage.Scan? || stage.Rec? || stage.Swap? {
      WokenOtherCommit(s, Step(s, k), k, c);
    } else {
      WokenCommit(s, k, p, i, stage);
    }
  }

  lemma WokenOtherCommit(s: State, s': State, k: nat, c: nat)
    requires k < |s.acts| && s.acts[k].Commit? && CommitWrites(s, s', k, s.acts[k].p, s.acts[k].i)
    requires c < |s.tasks| && Woken(s, c)
    requires s'.tasks[c].inited == s.tasks[c].inited && s'.tasks[c].counter == s.tasks[c].counter
    requires s'.tasks[c].waker == s.tasks[c].waker && s'.tasks[c].wakeJ == s.tasks[c].wakeJ
    ensures Woken(s', c)
  {
    var t, t' := s.tasks[c], s'.tasks[c];
    if t.inited && t.counter <= 0 && t.status == DEPHOLD && t.waker != t.committer {
      assert t'.deps[t.wakeJ].parent == t.deps[t.wakeJ].parent;
      assert s'.tasks[t.deps[t.wakeJ].parent].owner == s.tasks[t.deps[t.wakeJ].parent].owner;
    }
  }

  lemma WokenCommit(s: State, k: nat, p: nat, i: nat, stage: Stage)
    requires k < |s.acts| && s.acts[k] == Commit(p, i, stage) && Fits(s, s.acts[k]) && FrameShape(s, s.acts[k])
    requires FrameOwn(s, k) && Woken(s, p) && CommitWrites(s, Step(s, k), k, p, i) && (stage.Init? || stage.Drop?)
    ensures Woken(Step(s, k), p)
  {
    var s' := Step(s, k);
    var t, t' := s.tasks[p], s'.tasks[p];
    if stage.Drop? && t.counter != 1 && t'.counter <= 0 && t.status == DEPHOLD && t.waker != t.committer {
      assert t'.deps[t.wakeJ].parent == t.deps[t.wakeJ].parent;
      assert s'.tasks[t.deps[t.wakeJ].parent].owner == s.tasks[t.deps[t.wakeJ].parent].owner;
    }
  }

  // ---------------------------------------------------------------------------------------------
  // Everything else
  // ---------------------------------------------------------------------------------------------

  /** A step of a frame that neither notifies, commits nor changes a status. */
  lemma IdleStep(s: State, k: nat, c: nat)
    requires Shape(s) && Own(s) && !s.requeued && FrameFits(s, k) && c < |s.tasks|
    requires !s.acts[k].Update? && !s.acts[k].Notify? && !s.acts[k].Commit?
    ensures var s' := Step(s, k);
      && Elsewhere(s, s', k, c) && s'.tasks[c].deps == s.tasks[c].deps
      && forall p :: 0 <= p < |s.tasks| ==> SameParent(s, s', p)
  {
    if s.acts[k].Enqueue? { assert FrameOwn(s, k); }
  }

  lemma IdleCover(s: State, k: nat)
    requires Shape(s) && Own(s) && !s.requeued && FrameFits(s, k) && Cover(s)
    requires !s.acts[k].Update? && !s.acts[k].Notify? && !s.acts[k].Commit?
    ensures Cover(Step(s, k))
  {
    var s' := Step(s, k);
    StepTaskCount(s, k);
    CallsCompleted(s);
    forall c, j | 0 <= c < |s'.tasks| && 0 <= j < |s'.tasks[c].deps| ensures EdgeCover(s', c, j) {
      IdleStep(s, k, c);
      assert EdgeCover(s, c, j);
      CoverElsewhere(s, s', k, c, j);
    }
    forall c | 0 <= c < |s'.tasks| ensures Woken(s', c) {
      IdleStep(s, k, c);
      forall p | 0 <= p < |s.tasks| && s.tasks[p].status == COMPLETED ensures s'.tasks[p].owner == s.tasks[p].owner {
        assert SameParent(s, s', p);
      }
      WokenElsewhere(s, s', k, c);
    }
  }

  lemma StepKeepsCover(s: State, k: nat)
    requires Shape(s) && Own(s) && Count(s) && !s.requeued && FrameFits(s, k) && Cover(s)
    ensures Cover(Step(s, k))
  {
    var s' := Step(s, k);
    if !s.acts[k].Update? && !s.acts[k].Notify? && !s.acts[k].Commit? {
      IdleCover(s, k);
    } else {
      StepTaskCount(s, k);
      SameDeps(s, k);
      forall c, j | 0 <= c < |s'.tasks| && 0 <= j < |s'.tasks[c].deps| ensures EdgeCover(s', c, j) {
        assert EdgeCover(s, c, j);
        StepCoversEdge(s, k, c, j);
      }
      forall c | 0 <= c < |s'.tasks| ensures Woken(s', c) {
        assert Woken(s, c);
        StepWakes(s, k, c);
      }
    }
  }

  lemma SameDeps(s: State, k: nat)
    requires FrameFits(s, k)
    ensures |Step(s, k).tasks| == |s.tasks|
    ensures forall c :: 0 <= c < |s.tasks| ==> |Step(s, k).tasks[c].deps| == |s.tasks[c].deps|
  {
    StepTaskCount(s, k);
    forall c | 0 <= c < |s.tasks| ensures |Step(s, k).tasks[c].deps| == |s.tasks[c].deps| {
      if s.acts[k].Notify? { NotifyTouches(s, k, c); }
      else if s.acts[k].Commit? { CommitTouches(s, k, c); }
      else { OtherTouches(s, k, c); }
    }
  }

  lemma StepCoversEdge(s: State, k: nat, c: nat, j: nat)
    requires Shape(s) && Own(s) && Count(s) && !s.requeued && FrameFits(s, k)
    requires s.acts[k].Update? || s.acts[k].Notify? || s.acts[k].Commit?
    requires c < |s.tasks| && j < |s.tasks[c].deps| && EdgeCover(s, c, j)
    ensures var s' := Step(s, k); c < |s'.tasks| && j < |s'.tasks[c].deps| && EdgeCover(s', c, j)
  {
    match s.acts[k]
    case Update(p, was, now) => UpdateCover(s, k, p, was, now, c, j);
    case Notify(p, now, i, at) => NotifyCover(s, k, p, now, i, at, c, j);
    case Commit(p, i, stage) => CommitCover(s, k, p, i, stage, c, j);
  }

  lemma StepWakes(s: State, k: nat, c: nat)
    requires Shape(s) && Own(s) && Count(s) && !s.requeued && FrameFits(s, k)
    requires s.acts[k].Update? || s.acts[k].Notify? || s.acts[k].Commit?
    requires c < |s.tasks| && Woken(s, c)
    ensures c < |Step(s, k).tasks| && Woken(Step(s, k), c)
  {
    match s.acts[k]
    case Update(p, was, now) => UpdateWoken(s, k, p, was, now, c);
    case Notify(p, now, i, at) => NotifyWoken(s, k, p, now, i, at, c);
    case Commit(p, i, stage) => CommitWoken(s, k, p, i, stage, c);
  }

  lemma CallKeepsCover(s: State, a: Action)
    requires Shape(s) && Own(s) && Cover(s) && !a.Go?
    ensures Cover(Next(s, a))
  {
    var s' := Next(s, a);
    var k := if a.HandlerReturns? && FrameAt(s, a.k).InHandler? then a.k else |s.acts|;
    CallsCompleted(s);
    forall c, j | 0 <= c < |s'.tasks| && 0 <= j < |s'.tasks[c].deps| ensures EdgeCover(s', c, j) {
      if c < |s.tasks| {
        assert TaskOwn(s.tasks[c]);
        CallWrites(s, a, k, c);
        if j < |s.tasks[c].deps| {
          assert EdgeCover(s, c, j);
          CallParent(s, a, s.tasks[c].deps[j].parent);
          CoverElsewhere(s, s', k, c, j);
        } else {
          NewRecord(s, a, c, j);
        }
      }
    }
    forall c | 0 <= c < |s'.tasks| ensures Woken(s', c) {
      if c < |s.tasks| {
        assert Woken(s, c) && TaskOwn(s.tasks[c]);
        CallWrites(s, a, k, c);
        forall p | 0 <= p < |s.tasks| ensures SameParent(s, s', p) { CallParent(s, a, p); }
        WokenElsewhere(s, s', k, c);
      }
    }
  }

  /** A call writes no more than the dependencies of a task that has not been committed. */
  lemma CallWrites(s: State, a: Action, k: nat, c: nat)
    requires !a.Go? && c < |s.tasks| && TaskOwn(s.tasks[c])
    requires k == if a.HandlerReturns? && FrameAt(s, a.k).InHandler? then a.k else |s.acts|
    ensures var s' := Next(s, a);
      && Elsewhere(s, s', k, c) && s.tasks[c].deps <= s'.tasks[c].deps
      && (s.tasks[c].inited ==> s'.tasks[c].deps == s.tasks[c].deps)
  {
  }

  lemma CallParent(s: State, a: Action, p: nat)
    requires !a.Go? && p < |s.tasks|
    ensures SameParent(s, Next(s, a), p)
  {
  }

  lemma NewRecord(s: State, a: Action, c: nat, j: nat)
    requires !a.Go? && c < |s.tasks| && TaskOwn(s.tasks[c]) && |s.tasks[c].deps| <= j < |Next(s, a).tasks[c].deps|
    ensures EdgeCover(Next(s, a), c, j)
  {
  }

  lemma {:induction false} RunCover(acts: seq<Action>)
    ensures !Run(acts).requeued ==> Cover(Run(acts))
  {
    if acts != [] {
      var s, a := Run(acts[..|acts| - 1]), acts[|acts| - 1];
      RunCover(acts[..|acts| - 1]);
      RunCount(acts[..|acts| - 1]);
      if !Next(s, a).requeued {
        if a.Go? {
          if FrameFits(s, a.k) {
            StepFrames(s, a.k);
            StepKeepsCover(s, a.k);
          }
        } else {
          CallKeepsCover(s, a);
        }
      }
    }
  }

  // ---------------------------------------------------------------------------------------------
  // Main result
  // ---------------------------------------------------------------------------------------------

  /** The commit of `c` has returned and no completion pass of one of its parents is still going on. */
  ghost predicate Settled(s: State, c: nat)
    requires c < |s.tasks|
  {
    var t := s.tasks[c];
    && t.inited && FrameAt(s, t.committer).Done?
    && forall j :: 0 <= j < |t.deps| ==>
         && t.deps[j].parent < |s.tasks| && s.tasks[t.deps[j].parent].status == COMPLETED
         && FrameAt(s, s.tasks[t.deps[j].parent].owner).Done?
  }

  /**
   No completion is lost. Whatever way the wiring and the scan of commit interleave with the parents'
   notification passes: once the commit has returned, every parent is COMPLETED and its pass is over,
   the task has left DEPHOLD, and exactly one decrement returned READY.
   */
  lemma NoCompletionLost(acts: seq<Action>, c: nat)
    requires !Run(acts).requeued && c < |Run(acts).tasks| && Settled(Run(acts), c)
    ensures Run(acts).tasks[c].status != DEPHOLD
    ensures Run(acts).tasks[c].deps != [] && Run(acts).tasks[c].status != ABORTED ==> Run(acts).tasks[c].zeroes == 1
  {
    RunCover(acts);
    RunCount(acts);
    var s := Run(acts);
    var t := s.tasks[c];
    assert TaskCount(s, c) && Woken(s, c) && TaskOwn(t) && TaskShape(s, c);
    if t.status == DEPHOLD {
      forall j | 0 <= j < |t.deps| ensures t.deps[j].decN || t.deps[j].decS {
        assert EdgeCover(s, c, j);
      }
      EachCounted(t.deps);
    }
  }

  lemma {:induction false} EachCounted(deps: seq<Edge>)
    requires forall j :: 0 <= j < |deps| ==> deps[j].decN || deps[j].decS
    ensures Decs(deps) >= |deps|
  {
    if deps != [] { EachCounted(deps[..|deps| - 1]); }
  }
}
