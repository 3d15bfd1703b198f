/**
 Why the timestamp fetch and the push of a dispose have to be taken as one step: a run in which a thread
 is delayed between the two, and a flush then handles an object that another thread still holds.
 */
module DisposerSplit {
  import opened Common
  import opened Disposer

  lemma Do(acts: seq<Action>, a: Action) returns (more: seq<Action>)
    ensures Run(Init(3), more) == Next(Run(Init(3), acts), a)
  {
    more := acts + [a];
    assert more[..|acts|] == acts;
  }

  const NEVER := Thread(None, 0, {}, Idle)
  const FLUSHER := Thread(Some(0), 1, {}, Idle)
  const READER := Thread(Some(1), 1, {13}, Idle)
  const LATE := NEVER.(pc := Pushing(Trash(12, 3)))

  /** Thread `t` disposes `obj` without being delayed. */
  lemma DisposeNow(acts: seq<Action>, t: nat, obj: nat) returns (more: seq<Action>)
    requires var s := Run(Init(3), acts);
      t < |s.threads| && s.threads[t].pc == Idle && !Gone(s, obj) && s.ts < 9 && !s.misordered
      && (s.list != [] ==> s.list[0].ts <= s.ts)
    ensures var s, x := Run(Init(3), acts), Trash(obj, Run(Init(3), acts).ts);
      Run(Init(3), more) == s.(ts := s.ts + 1, list := [x] + s.list, disposed := s.disposed + [x],
        pushed := s.pushed + [x])
  {
    ghost var s := Run(Init(3), acts);
    more := Do(acts, Dispose(t, obj));
    more := Do(more, Go(t));
    var u := s.threads[t].(pc := Pushing(Trash(obj, s.ts)));
    assert s.threads[t := u][t := s.threads[t]] == s.threads;
  }

  const FOUR := [Trash(10, 1), Trash(11, 2), Trash(12, 3), Trash(13, 4)]
  const LIST := [Trash(12, 3), Trash(13, 4), Trash(11, 2), Trash(10, 1)]
  const PUSHED := [Trash(10, 1), Trash(11, 2), Trash(13, 4), Trash(12, 3)]

  /** The state while thread 1 flushes. */
  function During(tss: seq<int>, lock: Option<nat>, list: seq<Trash>, doomed: seq<Trash>, pc: Pc): State {
    State(5, 0, tss, lock, list, doomed, [NEVER, FLUSHER.(pc := pc), READER], FOUR, PUSHED, [], true)
  }

  /** The state before: thread 0 has timestamp 3 in hand. */
  function Before(ts: int, tss: seq<int>, list: seq<Trash>, reader: Thread, disposed: seq<Trash>,
      pushed: seq<Trash>): State {
    State(ts, 0, tss, None, list, [], [LATE, FLUSHER, reader], disposed, pushed, [], false)
  }

  /** Thread 1 disposes two objects; thread 0 gets timestamp 3 and is delayed. */
  lemma Delayed() returns (acts: seq<Action>)
    ensures Run(Init(3), acts) == Before(4, [1], LIST[2..], NEVER, FOUR[..3], FOUR[..2])
  {
    acts := TwoDisposed();
    FetchLate();
    acts := Do(acts, Dispose(0, 12));
  }

  /** The flusher has joined and has disposed the objects of `list`. */
  function Early(ts: int, list: seq<Trash>, disposed: seq<Trash>): State {
    State(ts, 0, [1], None, list, [], [NEVER, FLUSHER, NEVER], disposed, disposed, [], false)
  }

  lemma FirstJoins() returns (acts: seq<Action>)
    ensures Run(Init(3), acts) == Early(1, [], [])
  {
    acts := [];
    assert Run(Init(3), acts).threads == [NEVER, NEVER, NEVER];
    acts := Do(acts, Join(1));
    assert Run(Init(3), acts).threads == [NEVER, FLUSHER, NEVER];
  }

  lemma TwoDisposed() returns (acts: seq<Action>)
    ensures Run(Init(3), acts) == Early(3, LIST[2..], FOUR[..2])
  {
    acts := FirstJoins();
    acts := DisposeNow(acts, 1, 10);
    var none: seq<Trash> := [];
    assert [Trash(10, 1)] + none == [Trash(10, 1)] && none + [Trash(10, 1)] == [Trash(10, 1)];
    assert Run(Init(3), acts) == Early(2, [Trash(10, 1)], [Trash(10, 1)]);
    acts := DisposeNow(acts, 1, 11);
    assert [Trash(11, 2)] + [Trash(10, 1)] == LIST[2..];
    assert [Trash(10, 1)] + [Trash(11, 2)] == FOUR[..2];
  }

  lemma FetchLate()
    ensures Next(Early(3, LIST[2..], FOUR[..2]), Dispose(0, 12))
      == Before(4, [1], LIST[2..], NEVER, FOUR[..3], FOUR[..2])
  {
    assert FOUR[..2] + [Trash(12, 3)] == FOUR[..3];
    assert [NEVER, FLUSHER, NEVER][0 := LATE] == [LATE, FLUSHER, NEVER];
  }

  lemma ReaderJoins(list: seq<Trash>, disposed: seq<Trash>, pushed: seq<Trash>)
    ensures Next(Before(4, [1], list, NEVER, disposed, pushed), Join(2))
      == Before(4, [1, 4], list, READER.(holds := {}), disposed, pushed)
  {
  }

  lemma ReaderAcquires(list: seq<Trash>, disposed: seq<Trash>, pushed: seq<Trash>)
    requires forall i :: 0 <= i < |disposed| ==> disposed[i].obj != 13
    ensures Next(Before(4, [1, 4], list, READER.(holds := {}), disposed, pushed), Acquire(2, 13))
      == Before(4, [1, 4], list, READER, disposed, pushed)
  {
    assert READER.(holds := {}).holds + {13} == {13};
    assert [LATE, FLUSHER, READER.(holds := {})][2 := READER] == [LATE, FLUSHER, READER];
  }

  lemma Held() returns (acts: seq<Action>)
    ensures Run(Init(3), acts) == Before(4, [1, 4], LIST[2..], READER, FOUR[..3], FOUR[..2])
  {
    acts := Delayed();
    ReaderJoins(LIST[2..], FOUR[..3], FOUR[..2]);
    acts := Do(acts, Join(2));
    ReaderAcquires(LIST[2..], FOUR[..3], FOUR[..2]);
    acts := Do(acts, Acquire(2, 13));
  }

  /** Thread 2 joins at timestamp 4 and picks up object 13; thread 1 disposes it; only now thread 0 pushes. */
  lemma Misorder() returns (acts: seq<Action>)
    ensures Run(Init(3), acts) == During([1, 4], None, LIST, [], Idle)
  {
    acts := Held();
    acts := DisposeNow(acts, 1, 13);
    assert [Trash(13, 4)] + LIST[2..] == LIST[1..];
    assert FOUR[..3] + [Trash(13, 4)] == FOUR;
    assert FOUR[..2] + [Trash(13, 4)] == PUSHED[..3];
    LatePush(FOUR);
    acts := Do(acts, Go(0));
  }

  lemma LatePush(disposed: seq<Trash>)
    requires disposed == FOUR
    ensures Next(Before(5, [1, 4], LIST[1..], READER, disposed, PUSHED[..3]), Go(0))
      == During([1, 4], None, LIST, [], Idle)
  {
    assert [Trash(12, 3)] + LIST[1..] == LIST;
    assert PUSHED[..3] + [Trash(12, 3)] == PUSHED;
    assert [LATE, FLUSHER, READER][0 := NEVER] == [NEVER, FLUSHER.(pc := Idle), READER];
  }

  lemma Begins()
    ensures Next(During([1, 4], None, LIST, [], Idle), Flush(1)) == During([1, 4], None, LIST, [], Clock)
    ensures Next(During([1, 4], None, LIST, [], Clock), Go(1)) == During([1, 4], None, LIST, [], Publish(5))
  {
  }

  lemma Publishes()
    ensures Next(During([1, 4], None, LIST, [], Publish(5)), Go(1)) == During([5, 4], None, LIST, [], Compare)
    ensures Next(During([5, 4], None, LIST, [], Compare), Go(1)) == During([5, 4], None, LIST, [], TryLock)
  {
  }

  lemma Locks()
    ensures Next(During([5, 4], None, LIST, [], TryLock), Go(1)) == During([5, 4], Some(1), LIST, [], Scan(0, MAX))
  {
  }

  lemma Scans()
    ensures Next(During([5, 4], Some(1), LIST, [], Scan(0, MAX)), Go(1))
      == During([5, 4], Some(1), LIST, [], Scan(1, 5))
    ensures Next(During([5, 4], Some(1), LIST, [], Scan(1, 5)), Go(1)) == During([5, 4], Some(1), LIST, [], Scan(2, 4))
    ensures Next(During([5, 4], Some(1), LIST, [], Scan(2, 4)), Go(1)) == During([5, 4], Some(1), LIST, [], Cut(4))
  {
  }

  lemma Cuts()
    ensures Next(During([5, 4], Some(1), LIST, [], Cut(4)), Go(1))
      == During([5, 4], Some(1), [Trash(12, 3)], [Trash(13, 4), Trash(11, 2), Trash(10, 1)], Free(4))
  {
    assert Kept(LIST, 4) == 1;
    assert LIST[..1] == [Trash(12, 3)];
    assert LIST[1..] == [Trash(13, 4), Trash(11, 2), Trash(10, 1)];
  }

  lemma Handles(rest: seq<Trash>)
    requires rest == [Trash(11, 2), Trash(10, 1)]
    ensures var s' := Next(During([5, 4], Some(1), [Trash(12, 3)], [Trash(13, 4)] + rest, Free(4)), Go(1));
      s'.handled == [Trash(13, 4)] && s'.threads == [NEVER, FLUSHER.(pc := Free(4)), READER]
  {
  }

  lemma FlushLocks() returns (acts: seq<Action>)
    ensures Run(Init(3), acts) == During([5, 4], Some(1), LIST, [], Scan(0, MAX))
  {
    acts := Misorder();
    Begins();
    acts := Do(acts, Flush(1));
    acts := Do(acts, Go(1));
    Publishes();
    acts := Do(acts, Go(1));
    acts := Do(acts, Go(1));
    Locks();
    acts := Do(acts, Go(1));
  }

  lemma FlushCuts() returns (acts: seq<Action>)
    ensures Run(Init(3), acts)
      == During([5, 4], Some(1), [Trash(12, 3)], [Trash(13, 4), Trash(11, 2), Trash(10, 1)], Free(4))
  {
    acts := FlushLocks();
    Scans();
    acts := Do(acts, Go(1));
    acts := Do(acts, Go(1));
    acts := Do(acts, Go(1));
    Cuts();
    acts := Do(acts, Go(1));
  }

  /** Object 13 is handled while thread 2 holds it. */
  lemma HandledWhileHeld() returns (acts: seq<Action>)
    ensures var s := Run(Init(3), acts); |s.threads| == 3 && 13 in s.threads[2].holds && s.handled == [Trash(13, 4)]
  {
    acts := FlushCuts();
    Handles([Trash(11, 2), Trash(10, 1)]);
    assert [Trash(13, 4)] + [Trash(11, 2), Trash(10, 1)] == [Trash(13, 4), Trash(11, 2), Trash(10, 1)];
    acts := Do(acts, Go(1));
  }
}
