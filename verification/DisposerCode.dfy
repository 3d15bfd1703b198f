/**
 The disposer as the code of src/common/twi_disposer.c:40-223, one call at a time. The timestamps the threads have
 agreed on are kept in an array that grows, the trash in a list whose front is the node pushed last. Every access
 is proved to be the step `Next` allows; since calls do not overlap, a dispose is never split.
 */
module DisposerCode {
  import opened Common
  import opened Disposer
  import opened DisposerSafety
  import opened DisposerBound

  lemma RunSnoc(s: State, trace: seq<Action>, a: Action)
    ensures Run(s, trace + [a]) == Next(Run(s, trace), a)
  {
    assert (trace + [a])[..|trace|] == trace;
  }

  lemma AtomicSnoc(trace: seq<Action>, a: Action)
    requires Atomic(trace) && (trace != [] && trace[|trace| - 1].Dispose? ==> a == Go(trace[|trace| - 1].t))
    ensures Atomic(trace + [a])
  {
  }

  predicate Settled(trace: seq<Action>) { trace == [] || !trace[|trace| - 1].Dispose? }

  lemma FetchIs(s: State, t: nat, obj: nat)
    requires t < |s.threads| && s.threads[t].pc == Idle && !Gone(s, obj) && s.ts + 1 < MAX
    ensures var x := Trash(obj, s.ts);
      Next(s, Action.Dispose(t, obj))
        == s.(threads := s.threads[t := s.threads[t].(pc := Pushing(x))], ts := s.ts + 1, disposed := s.disposed + [x])
  {
  }

  lemma PushIs(s: State, t: nat, x: Trash)
    requires t < |s.threads| && s.threads[t].pc == Pushing(x)
    ensures Next(s, Go(t))
      == s.(threads := s.threads[t := s.threads[t].(pc := Idle)], list := [x] + s.list, pushed := s.pushed + [x],
            misordered := s.misordered || (s.list != [] && s.list[0].ts > x.ts))
  {
  }

  lemma ScanIs(s: State, t: nat, i: nat, m: int)
    requires t < |s.threads| && s.threads[t].pc == Scan(i, m) && i < |s.tss|
    requires s.threads[t].id.Some? && s.threads[t].id.value < |s.tss|
    ensures Next(s, Go(t))
      == s.(threads := s.threads[t := s.threads[t].(pc := Scan(i + 1, if m > s.tss[i] then s.tss[i] else m))])
  {
  }

  class DisposerHandle {
    var ts: int
    var tmin: int
    var nt: nat
    var tss: array<int>
    var lock: Option<nat>
    var list: seq<Trash>
    var doomed: seq<Trash>
    /** The thread-local variables of each thread, what it holds, and where it stands. */
    var threads: seq<Thread>
    var handled: seq<Trash>
    ghost var disposed: seq<Trash>
    ghost var pushed: seq<Trash>
    ghost var misordered: bool
    ghost var trace: seq<Action>
    const n: nat

    ghost function Abs(): State
      requires nt <= tss.Length
      reads this, tss
    {
      State(ts, tmin, tss[..nt], lock, list, doomed, threads, disposed, pushed, handled, misordered)
    }

    ghost predicate Valid()
      reads this, tss
    {
      nt < tss.Length && Abs() == Run(Init(n), trace) && Atomic(trace) && |threads| == n
    }

    /** No call is in progress. */
    ghost predicate Calm()
      reads this, tss
    {
      Valid() && Settled(trace) && lock == None && doomed == [] && forall u :: 0 <= u < n ==> threads[u].pc == Idle
    }

    constructor (n: nat)
      ensures Calm() && this.n == n && fresh(tss) && list == [] && handled == [] && disposed == []
    {
      this.n := n;
      ts, tmin, nt, lock, list, doomed := 1, 0, 0, None, [], [];
      tss := new int[32];
      threads := seq(n, _ => Thread(None, 0, {}, Idle));
      handled, disposed, pushed, misordered, trace := [], [], [], false, [];
    }

    /** Records an action whose effect on the fields has just been made, in state `s`. */
    ghost method Tick(s: State, a: Action)
      requires nt < tss.Length && s == Run(Init(n), trace) && Atomic(trace) && |threads| == n
      requires trace != [] && trace[|trace| - 1].Dispose? ==> a == Go(trace[|trace| - 1].t)
      requires Abs() == Next(s, a)
      modifies this`trace
      ensures Valid() && trace == old(trace) + [a]
    {
      RunSnoc(Init(n), trace, a);
      AtomicSnoc(trace, a);
      trace := trace + [a];
    }

    /** Doubles the array when it is full. */
    method Grow()
      requires 0 < nt <= tss.Length
      modifies this`tss
      ensures nt < tss.Length && tss[..nt] == old(tss[..nt]) && (tss == old(tss) || fresh(tss))
    {
      if nt == tss.Length {
        var bigger := new int[2 * tss.Length];
        var i := 0;
        while i < tss.Length
          invariant 0 <= i <= tss.Length && tss == old(tss) && bigger.Length == 2 * tss.Length
            && bigger[..i] == tss[..i]
          invariant tss[..] == old(tss[..])
        {
          bigger[i] := tss[i];
          i := i + 1;
        }
        tss := bigger;
      }
    }

    /** Joins; the first of nested joins takes part in the agreement from the present timestamp on. */
    method Join(t: nat)
      requires Calm() && t < n
      modifies this, tss
      ensures Calm() && (tss == old(tss) || fresh(tss))
      ensures Abs() == Next(old(Abs()), Action.Join(t))
      ensures threads[t].cnt == old(threads[t].cnt) + 1
    {
      ghost var s := Abs();
      Joined(n, trace, t);
      CountJoin(t);
      Tick(s, Action.Join(t));
    }

    /** The count of nested joins, and the entry at the first. */
    method CountJoin(t: nat)
      requires nt < tss.Length && t < |threads| && lock == None && threads[t].pc == Idle
      requires threads[t].id.Some? ==> threads[t].id.value < nt
      modifies this`nt, this`tss, this`threads, tss
      ensures nt < tss.Length && (tss == old(tss) || fresh(tss))
      ensures Abs() == Next(old(Abs()), Action.Join(t)) && threads[t].cnt == old(threads[t].cnt) + 1
    {
      Joins(Abs(), t);
      if threads[t].cnt == 0 {
        Enlist(t);
      } else {
        threads := threads[t := threads[t].(cnt := threads[t].cnt + 1)];
      }
    }

    /** The locked part of the first join: an entry in the array, a new one if the thread never joined before. */
    method Enlist(t: nat)
      requires nt < tss.Length && t < |threads| && threads[t].cnt == 0
      requires threads[t].id.Some? ==> threads[t].id.value < nt
      modifies this`nt, this`tss, this`threads, tss
      ensures nt < tss.Length && (tss == old(tss) || fresh(tss))
      ensures var x := old(threads[t]);
        && threads == old(threads)[t := x.(cnt := 1, id := if x.id.None? then Some(old(nt)) else x.id)]
        && tss[..nt] == if x.id.None? then old(tss[..nt]) + [ts] else old(tss[..nt])[x.id.value := ts]
    {
      threads := threads[t := threads[t].(cnt := 1)];
      var id := nt;
      if threads[t].id.None? {
        nt := nt + 1;
        threads := threads[t := threads[t].(id := Some(id))];
      } else {
        id := threads[t].id.value;
      }
      Grow();
      tss[id] := ts;
    }

    /** Leaves; the last of nested leaves drops out of the agreement for good. */
    method Leave(t: nat)
      requires Calm() && t < n && threads[t].cnt > 0
      modifies this, tss
      ensures Calm() && tss == old(tss)
      ensures Abs() == Next(old(Abs()), Action.Leave(t))
      ensures threads[t].cnt == old(threads[t].cnt) - 1
    {
      ghost var s := Abs();
      Joined(n, trace, t);
      Leaves(s, t);
      var cnt := threads[t].cnt - 1;
      if cnt == 0 {
        var id := threads[t].id.value;
        tss[id] := MAX;
        threads := threads[t := threads[t].(cnt := 0, holds := {})];
        assert tss[..nt] == s.tss[id := MAX];
      } else {
        threads := threads[t := threads[t].(cnt := cnt)];
      }
      assert Abs() == Next(s, Action.Leave(t));
      Tick(s, Action.Leave(t));
    }

    /** The caller picks up an object while it has joined and before the object is disposed. */
    method Acquire(t: nat, obj: nat)
      requires Calm() && t < n && threads[t].cnt > 0 && !Gone(Abs(), obj)
      modifies this
      ensures Calm() && tss == old(tss)
      ensures Abs() == Next(old(Abs()), Action.Acquire(t, obj))
    {
      ghost var s := Abs();
      threads := threads[t := threads[t].(holds := threads[t].holds + {obj})];
      Tick(s, Action.Acquire(t, obj));
    }

    /** Puts an object that has not been disposed before on the list. */
    method Dispose(t: nat, obj: nat)
      requires Calm() && t < n && !Gone(Abs(), obj) && ts + 1 < MAX
      modifies this
      ensures Calm() && tss == old(tss)
      ensures list == [Trash(obj, old(ts))] + old(list) && ts == old(ts) + 1 && handled == old(handled)
      ensures disposed == old(disposed) + [Trash(obj, old(ts))] && threads == old(threads)
    {
      ghost var before := threads;
      var x := FetchStamp(t, obj);
      PushTrash(t, x);
      assert before[t := before[t].(pc := Pushing(x))][t := before[t]] == before;
    }

    method FetchStamp(t: nat, obj: nat) returns (x: Trash)
      requires Calm() && t < n && !Gone(Abs(), obj) && ts + 1 < MAX
      modifies this
      ensures Valid() && tss == old(tss) && trace != [] && trace[|trace| - 1] == Action.Dispose(t, obj)
      ensures x == Trash(obj, old(ts)) && ts == old(ts) + 1
        && threads == old(threads)[t := old(threads[t]).(pc := Pushing(x))]
      ensures disposed == old(disposed) + [x] && list == old(list) && handled == old(handled) && lock == None
        && doomed == []
      ensures forall u :: 0 <= u < n && u != t ==> threads[u].pc == Idle
    {
      ghost var s := Abs();
      FetchIs(s, t, obj);
      x := Trash(obj, ts);
      ts := ts + 1;
      threads := threads[t := threads[t].(pc := Pushing(x))];
      disposed := disposed + [x];
      Tick(s, Action.Dispose(t, obj));
    }

    method PushTrash(t: nat, x: Trash)
      requires Valid() && t < n && threads[t].pc == Pushing(x) && trace != [] && lock == None && doomed == []
      requires trace[|trace| - 1].Dispose? && trace[|trace| - 1].t == t
      requires forall u :: 0 <= u < n && u != t ==> threads[u].pc == Idle
      modifies this
      ensures Calm() && tss == old(tss)
      ensures list == [x] + old(list) && ts == old(ts) && handled == old(handled) && disposed == old(disposed)
      ensures threads == old(threads)[t := old(threads[t]).(pc := Idle)]
    {
      ghost var s := Abs();
      PushIs(s, t, x);
      misordered := misordered || (list != [] && list[0].ts > x.ts);
      list := [x] + list;
      threads := threads[t := threads[t].(pc := Idle)];
      pushed := pushed + [x];
      Tick(s, Go(t));
    }

    // -------------------------------------------------------------------------------------------
    // Flush
    // -------------------------------------------------------------------------------------------

    /** Thread `t` is inside a flush, about to do what `pc` says; nobody else is inside a call. */
    ghost predicate Inside(t: nat, pc: Pc)
      reads this, tss
    {
      && Valid() && Settled(trace) && t < n && threads[t].id.Some? && threads[t].id.value < nt && threads[t].pc == pc
      && forall u :: 0 <= u < n && u != t ==> threads[u].pc == Idle
    }

    method ReadClock(t: nat) returns (now: int)
      requires Calm() && t < n && threads[t].id.Some?
      modifies this`threads, this`trace
      ensures Inside(t, Publish(now)) && now == ts
      ensures threads == old(threads)[t := old(threads[t]).(pc := Publish(now), holds := {})]
    {
      Joined(n, trace, t);
      ghost var s := Abs();
      threads := threads[t := threads[t].(pc := Clock, holds := {})];
      Tick(s, Action.Flush(t));
      ghost var s1 := Abs();
      now := ts;
      threads := threads[t := threads[t].(pc := Publish(now))];
      Tick(s1, Go(t));
    }

    method Agree(t: nat, now: int) returns (newer: bool)
      requires Inside(t, Publish(now))
      modifies this`threads, this`trace, tss
      ensures Inside(t, if newer then Compare else Idle) && OnlyPc(old(threads), threads, t)
      ensures newer <==> old(tss[threads[t].id.value]) < now
      ensures tss[..nt] == if newer then old(tss[..nt])[threads[t].id.value := now] else old(tss[..nt])
    {
      ghost var s := Abs();
      var id := threads[t].id.value;
      newer := tss[id] < now;
      if newer { tss[id] := now; }
      threads := threads[t := threads[t].(pc := if newer then Compare else Idle)];
      Tick(s, Go(t));
    }

    method Enough(t: nat) returns (enough: bool)
      requires Inside(t, Compare)
      modifies this`threads, this`trace
      ensures Inside(t, if enough then TryLock else Idle) && OnlyPc(old(threads), threads, t)
      ensures enough <==> tss[threads[t].id.value] - tmin > BIN_SIZE
    {
      ghost var s := Abs();
      enough := tss[threads[t].id.value] - tmin > BIN_SIZE;
      threads := threads[t := threads[t].(pc := if enough then TryLock else Idle)];
      Tick(s, Go(t));
    }

    method TakeLock(t: nat)
      requires Inside(t, TryLock) && lock == None
      modifies this`threads, this`trace, this`lock
      ensures Inside(t, Scan(0, MAX)) && lock == Some(t) && OnlyPc(old(threads), threads, t)
    {
      ghost var s := Abs();
      lock := Some(t);
      threads := threads[t := threads[t].(pc := Scan(0, MAX))];
      Tick(s, Go(t));
    }

    method ScanOne(t: nat, i: nat, m: int) returns (m': int)
      requires Inside(t, Scan(i, m)) && i < nt
      modifies this`threads, this`trace
      ensures Inside(t, Scan(i + 1, m')) && OnlyPc(old(threads), threads, t)
      ensures m' == if m > tss[i] then tss[i] else m
    {
      ghost var s := Abs();
      ScanIs(s, t, i, m);
      m' := if m > tss[i] then tss[i] else m;
      threads := threads[t := threads[t].(pc := Scan(i + 1, m'))];
      Tick(s, Go(t));
    }

    method EndScan(t: nat, m: int)
      requires Inside(t, Scan(nt, m))
      modifies this`threads, this`trace
      ensures Inside(t, Cut(m)) && OnlyPc(old(threads), threads, t)
    {
      ghost var s := Abs();
      threads := threads[t := threads[t].(pc := Cut(m))];
      Tick(s, Go(t));
    }

    /** The least timestamp anybody has agreed on. */
    method LeastAgreed(t: nat) returns (m: int)
      requires Inside(t, Scan(0, MAX))
      modifies this`threads, this`trace
      ensures Inside(t, Cut(m)) && m == Least(tss[..nt]) && OnlyPc(old(threads), threads, t)
    {
      var i := 0;
      m := MAX;
      while i < nt
        invariant i <= nt && Inside(t, Scan(i, m)) && m == Least(tss[..i]) && OnlyPc(old(threads), threads, t)
      {
        m := ScanNext(t, i, m, old(threads));
        i := i + 1;
      }
      ghost var b := threads;
      EndScan(t, m);
      OnlyPcThen(old(threads), b, threads, t);
    }

    /** One turn of the loop, in a flush that found the threads as in `before`. */
    method ScanNext(t: nat, i: nat, m: int, ghost before: seq<Thread>) returns (m': int)
      requires Inside(t, Scan(i, m)) && i < nt && m == Least(tss[..i]) && OnlyPc(before, threads, t)
      modifies this`threads, this`trace
      ensures Inside(t, Scan(i + 1, m')) && m' == Least(tss[..i + 1]) && OnlyPc(before, threads, t)
    {
      assert tss[..i + 1][..i] == tss[..i];
      m' := ScanOne(t, i, m);
      OnlyPcThen(before, old(threads), threads, t);
    }

    /** Walks to the first node everybody has passed; the list is not empty. */
    method FirstPassed(t: nat, m: int) returns (k: nat)
      requires Inside(t, Cut(m))
      ensures k == Kept(list, m)
    {
      AtomicWalk(n, trace, t);
      k := KeptWalk(list, m);
    }

    method CutAfterFirst(t: nat, m: int)
      requires Inside(t, Cut(m)) && doomed == []
      modifies this`threads, this`trace, this`list, this`doomed
      ensures Inside(t, Free(m)) && OnlyPc(old(threads), threads, t)
      ensures list == old(list)[..Kept(old(list), m)] && doomed == old(list)[Kept(old(list), m)..]
    {
      var k := FirstPassed(t, m);
      CutAt(t, m, k);
    }

    method CutAt(t: nat, m: int, k: nat)
      requires Inside(t, Cut(m)) && doomed == [] && k == Kept(list, m)
      modifies this`threads, this`trace, this`list, this`doomed
      ensures Inside(t, Free(m)) && OnlyPc(old(threads), threads, t)
      ensures list == old(list)[..k] && doomed == old(list)[k..]
    {
      ghost var s := Abs();
      list, doomed := list[..k], list[k..];
      threads := threads[t := threads[t].(pc := Free(m))];
      Tick(s, Go(t));
    }

    method HandleOne(t: nat, m: int)
      requires Inside(t, Free(m)) && doomed != []
      modifies this`trace, this`doomed, this`handled
      ensures Inside(t, Free(m)) && handled == old(handled) + [old(doomed[0])] && doomed == old(doomed[1..])
    {
      ghost var s := Abs();
      handled := handled + [doomed[0]];
      doomed := doomed[1..];
      Tick(s, Go(t));
    }

    method Unlock(t: nat, m: int)
      requires Inside(t, Free(m)) && lock == Some(t) && doomed == []
      modifies this`threads, this`trace, this`tmin, this`lock
      ensures Calm() && tmin == m && OnlyPc(old(threads), threads, t)
    {
      ghost var s := Abs();
      tmin, lock := m, None;
      threads := threads[t := threads[t].(pc := Idle)];
      Tick(s, Go(t));
    }

    /** Runs the handler of every node cut off, then publishes the timestamp and gives up the lock. */
    method HandleRest(t: nat, m: int)
      requires Inside(t, Free(m)) && lock == Some(t)
      modifies this`threads, this`trace, this`doomed, this`handled, this`tmin, this`lock
      ensures Calm() && handled == old(handled) + old(doomed) && tmin == m && OnlyPc(old(threads), threads, t)
    {
      ghost var all := handled + doomed;
      while doomed != []
        invariant Inside(t, Free(m)) && handled + doomed == all && lock == Some(t) && threads == old(threads)
        decreases |doomed|
      {
        MoveFront(handled, doomed);
        HandleOne(t, m);
      }
      Unlock(t, m);
    }

    /** The part of a flush under the lock. */
    method Reclaim(t: nat)
      requires Inside(t, TryLock) && lock == None && doomed == []
      modifies this`threads, this`trace, this`list, this`doomed, this`handled, this`tmin, this`lock
      ensures Calm() && tmin == Least(tss[..nt]) && list == old(list)[..Kept(old(list), tmin)]
      ensures handled == old(handled) + old(list)[|list|..] && OnlyPc(old(threads), threads, t)
    {
      TakeLock(t);
      ghost var b := threads;
      var m := LeastAgreed(t);
      ghost var c := threads;
      OnlyPcThen(old(threads), b, c, t);
      CutAndHandle(t, m);
      OnlyPcThen(old(threads), c, threads, t);
    }

    method CutAndHandle(t: nat, m: int)
      requires Inside(t, Cut(m)) && lock == Some(t) && doomed == []
      modifies this`threads, this`trace, this`list, this`doomed, this`handled, this`tmin, this`lock
      ensures Calm() && tmin == m && list == old(list)[..Kept(old(list), m)]
      ensures handled == old(handled) + old(list)[|list|..] && OnlyPc(old(threads), threads, t)
    {
      CutAfterFirst(t, m);
      HandleRest(t, m);
    }

    method AgreeAndReclaim(t: nat, now: int, ghost own: int)
      requires Inside(t, Publish(now)) && lock == None && doomed == [] && own == tss[threads[t].id.value]
      modifies this`threads, this`trace, this`list, this`doomed, this`handled, this`tmin, this`lock, tss
      ensures Calm() && OnlyPc(old(threads), threads, t)
      ensures tss[..nt] == Agreed(old(tss[..nt]), threads[t].id.value, now)
      ensures if own < now && now - old(tmin) > BIN_SIZE
        then tmin == Least(tss[..nt]) && list == old(list)[..Kept(old(list), tmin)]
          && handled == old(handled) + old(list)[|list|..]
        else tmin == old(tmin) && list == old(list) && handled == old(handled)
    {
      var newer := Agree(t, now);
      if newer {
        ghost var b := threads;
        assert tss[..nt][threads[t].id.value] == now;
        CheckAndReclaim(t, now);
        OnlyPcThen(old(threads), b, threads, t);
      }
    }

    /** Looks whether enough has been disposed, and reclaims it. */
    method CheckAndReclaim(t: nat, ghost own: int)
      requires Inside(t, Compare) && lock == None && doomed == [] && own == tss[threads[t].id.value]
      modifies this`threads, this`trace, this`list, this`doomed, this`handled, this`tmin, this`lock
      ensures Calm() && OnlyPc(old(threads), threads, t)
      ensures if own - old(tmin) > BIN_SIZE
        then tmin == Least(tss[..nt]) && list == old(list)[..Kept(old(list), tmin)]
          && handled == old(handled) + old(list)[|list|..]
        else tmin == old(tmin) && list == old(list) && handled == old(handled)
    {
      var enough := Enough(t);
      if enough {
        ghost var b := threads;
        Reclaim(t);
        OnlyPcThen(old(threads), b, threads, t);
      }
    }

    /** Thread `t` has something new to agree on, and enough has been disposed since the last reclamation. */
    predicate Due(t: nat)
      requires nt <= tss.Length && t < |threads| && threads[t].id.Some?
      reads this, tss
    {
      threads[t].id.value < nt && tss[threads[t].id.value] < ts && ts - tmin > BIN_SIZE
    }

    /**
     Agrees on the present timestamp. If that is new and enough has been disposed since the last time, and only then,
     handles everything behind the first node that everybody has passed: of those that everybody has passed at most one
     is left. No handler has run on an object that anybody still holds.
     */
    method Flush(t: nat)
      requires Calm() && t < n && threads[t].id.Some?
      modifies this`threads, this`trace, this`list, this`doomed, this`handled, this`tmin, this`lock, tss
      ensures Calm() && threads == old(threads)[t := old(threads[t]).(holds := {})]
      ensures tss[..nt] == Agreed(old(tss[..nt]), threads[t].id.value, ts)
      ensures if old(Due(t))
        then tmin == Least(tss[..nt]) && list == old(list)[..Kept(old(list), tmin)]
          && handled == old(handled) + old(list)[|list|..]
        else tmin == old(tmin) && list == old(list) && handled == old(handled)
      ensures old(Due(t)) ==> forall i :: 0 <= i < |list| - 1 ==> list[i].ts > tmin
      ensures forall i :: 0 <= i < |handled| ==> !Held(threads, handled[i].obj)
    {
      Joined(n, trace, t);
      ghost var own := tss[threads[t].id.value];
      var now := ReadClock(t);
      AgreeAndReclaim(t, now, own);
      KeptTight(old(list), tmin);
      NobodyHolds();
    }

    /**
     Every thread that has joined flushes in turn. If one of them had not agreed on the present timestamp, all nodes but
     BIN_SIZE + 1 have been handled at the end, whoever has disposed how much before.
     */
    method FlushEach()
      requires Calm()
      modifies this`threads, this`trace, this`list, this`doomed, this`handled, this`tmin, this`lock, tss
      ensures Calm()
      ensures (exists u :: Stale(old(Abs()), u)) ==> ts - tmin <= BIN_SIZE && |list| <= BIN_SIZE + 1
    {
      ghost var due := exists u :: Stale(Abs(), u);
      var i := 0;
      while i < n
        invariant i <= n && Calm() && (due ==> UnderWay(Abs(), i))
      {
        if threads[i].cnt > 0 { FlushNext(i); }
        i := i + 1;
      }
      FewLeft(n, trace);
    }

    method FlushNext(i: nat)
      requires Calm() && i < n && threads[i].cnt > 0
      modifies this`threads, this`trace, this`list, this`doomed, this`handled, this`tmin, this`lock, tss
      ensures Calm() && (old(UnderWay(Abs(), i)) ==> UnderWay(Abs(), i + 1))
    {
      ghost var s := Abs();
      Known(n, trace, i);
      Flush(i);
      Known(n, trace, i);
      RunOwned(n, trace);
      if UnderWay(s, i) { GetsOn(s, Abs(), i); }
    }

    lemma NobodyHolds()
      requires Valid()
      ensures forall i :: 0 <= i < |handled| ==> !Held(threads, handled[i].obj)
    {
      HandledUnheld(Abs(), n, trace);
    }

    /** Handles what is left on the list: then every object ever disposed has been handled exactly once. */
    method Finalize()
      requires Calm()
      modifies this`list, this`handled
      ensures list == []
      ensures forall x :: multiset(handled)[x] == if x in disposed then 1 else 0
    {
      ghost var all := handled + list;
      ghost var s := Abs();
      while list != []
        invariant handled + list == all
        decreases |list|
      {
        handled := handled + [list[0]];
        list := list[1..];
      }
      forall x ensures multiset(handled)[x] == if x in disposed then 1 else 0 {
        HandledExactlyOnce(n, trace, x);
        assert handled == all == DisposerSafety.Finalize(s).handled;
      }
    }
  }

  /** The timestamps after thread `id` has agreed on `now`, if that is newer than what it agreed on before. */
  function Agreed(tss: seq<int>, id: nat, now: int): seq<int>
  {
    if id < |tss| && tss[id] < now then tss[id := now] else tss
  }

  /** Of the threads, only `t` may have changed, and only in where it stands. */
  predicate OnlyPc(a: seq<Thread>, b: seq<Thread>, t: nat) {
    t < |a| == |b| && b == a[t := a[t].(pc := b[t].pc)]
  }

  /** Thread `t` has joined and not agreed on the present timestamp yet. */
  predicate Stale(s: State, t: nat) {
    && t < |s.threads| && s.threads[t].cnt > 0 && s.threads[t].id.Some? && s.threads[t].id.value < |s.tss|
    && s.tss[s.threads[t].id.value] < s.ts
  }

  /** Somebody from thread `i` on has something new to agree on, or little has been disposed since the floor. */
  ghost predicate UnderWay(s: State, i: nat) {
    && (forall u :: 0 <= u < i ==> !Stale(s, u))
    && (s.ts - s.tmin <= BIN_SIZE || exists u :: i <= u && Stale(s, u))
  }

  /** What a flush of thread `i` does to the clocks. */
  ghost predicate Flushed(s: State, s': State, i: nat) {
    && i < |s.threads| && s.threads[i].cnt > 0 && s.threads[i].id.Some? && s.threads[i].id.value < |s.tss|
    && s'.threads == s.threads[i := s.threads[i].(holds := {})] && s'.ts == s.ts
    && s'.tss == Agreed(s.tss, s.threads[i].id.value, s.ts)
    && s'.tmin == if Stale(s, i) && s.ts - s.tmin > BIN_SIZE then Least(s'.tss) else s.tmin
  }

  /** The flush leaves other threads as stale as they were, and thread `i` up to date. */
  lemma StaleAfter(s: State, s': State, i: nat, u: nat)
    requires Clocks(s) && Flushed(s, s', i)
    ensures Stale(s', u) <==> u != i && Stale(s, u)
  {
    if u < |s.threads| && u != i { assert s.threads[u].id.Some? ==> s.threads[u].id != s.threads[i].id; }
  }

  /** If nobody is stale, everybody has agreed on the present timestamp or left. */
  lemma NobodyStale(s: State)
    requires Clocks(s) && AllOwned(s) && forall u :: 0 <= u < |s.threads| ==> !Stale(s, u)
    ensures Least(s.tss) >= s.ts
  {
    forall e | 0 <= e < |s.tss| ensures s.tss[e] >= s.ts {
      assert Owned(s, e);
      var u :| Owns(s, u, e);
      assert ThreadInv(s, u) && !Stale(s, u);
    }
  }

  lemma GetsOn(s: State, s': State, i: nat)
    requires Clocks(s) && Clocks(s') && AllOwned(s') && Flushed(s, s', i) && UnderWay(s, i)
    ensures UnderWay(s', i + 1)
  {
    forall u ensures Stale(s', u) <==> u != i && Stale(s, u) { StaleAfter(s, s', i, u); }
    if s'.ts - s'.tmin > BIN_SIZE && !exists u :: i + 1 <= u && Stale(s', u) {
      var u :| i <= u && Stale(s, u);
      assert u == i;
      forall v | 0 <= v < |s'.threads| ensures !Stale(s', v) {
      }
      NobodyStale(s');
    }
  }

  lemma OnlyPcThen(a: seq<Thread>, b: seq<Thread>, c: seq<Thread>, t: nat)
    requires OnlyPc(a, b, t) && OnlyPc(b, c, t)
    ensures OnlyPc(a, c, t)
  {
  }

  lemma MoveFront(a: seq<Trash>, b: seq<Trash>)
    requires b != []
    ensures a + b == (a + [b[0]]) + b[1..]
  {
  }

  /** The walk over a list, which has to have a first node. */
  method KeptWalk(list: seq<Trash>, m: int) returns (k: nat)
    requires list != []
    ensures k == Kept(list, m)
  {
    var j := 0;
    k := j + 1;
    while list[j].ts > m && k < |list|
      invariant 0 <= j < |list| && k == j + 1 && Kept(list, m) == j + Kept(list[j..], m)
      decreases |list| - j
    {
      KeptStep(list, m, j);
      j := k;
      k := j + 1;
    }
    KeptStep(list, m, j);
  }

  lemma HandledUnheld(s: State, n: nat, trace: seq<Action>)
    requires Atomic(trace) && s == Run(Init(n), trace)
    ensures forall i :: 0 <= i < |s.handled| ==> !Held(s.threads, s.handled[i].obj)
  {
    AtomicInOrder(n, trace);
    RunSafe(n, trace);
  }

  /** The least of a list of timestamps, or MAX. */
  function Least(tss: seq<int>): (m: int)
    ensures forall i :: 0 <= i < |tss| ==> m <= tss[i]
    ensures m == MAX || m in tss
  {
    if tss == [] then MAX
    else
      var m := Least(tss[..|tss| - 1]);
      if m > tss[|tss| - 1] then tss[|tss| - 1] else m
  }

  lemma KeptStep(list: seq<Trash>, m: int, j: nat)
    requires j < |list|
    ensures Kept(list[j..], m) == if list[j].ts <= m then 1 else 1 + Kept(list[j + 1..], m)
  {
    assert list[j..][1..] == list[j + 1..];
  }

  /** What a reachable state tells about thread `t`. */
  lemma Known(n: nat, trace: seq<Action>, t: nat)
    requires t < n
    ensures var s := Run(Init(n), trace);
      Clocks(s) && |s.threads| == n && ThreadInv(s, t)
  {
    RunSafe(n, trace);
    RunThreads(n, trace);
  }

  /** A leave that finds the lock free. */
  lemma Leaves(s: State, t: nat)
    requires t < |s.threads| && s.threads[t].pc == Idle && s.lock == None && s.threads[t].cnt > 0
    requires s.threads[t].id.Some? && s.threads[t].id.value < |s.tss|
    ensures var x := s.threads[t];
      Next(s, Action.Leave(t)) ==
        if x.cnt > 1 then s.(threads := s.threads[t := x.(cnt := x.cnt - 1)])
        else s.(threads := s.threads[t := x.(cnt := 0, holds := {})], tss := s.tss[x.id.value := MAX])
  {
  }

  lemma Joined(n: nat, trace: seq<Action>, t: nat)
    requires t < n
    ensures var s := Run(Init(n), trace);
      && |s.threads| == n
      && (s.threads[t].id.Some? ==> s.threads[t].id.value < |s.tss|)
      && (s.threads[t].cnt > 0 ==> s.threads[t].id.Some?)
  {
    Known(n, trace, t);
  }

  lemma {:induction false} RunThreads(n: nat, trace: seq<Action>)
    ensures |Run(Init(n), trace).threads| == n
  {
    if trace != [] {
      RunThreads(n, trace[..|trace| - 1]);
      SameThreads(Run(Init(n), trace[..|trace| - 1]), trace[|trace| - 1]);
    }
  }

  lemma SameThreads(s: State, a: Action)
    ensures |Next(s, a).threads| == |s.threads|
  {
    if a.t < |s.threads| && a.Go? { SameStep(s, a.t); }
  }

  lemma SameStep(s: State, t: nat)
    requires t < |s.threads|
    ensures |Step(s, t).threads| == |s.threads|
  {
  }

  /** A join that finds the lock free. */
  lemma Joins(s: State, t: nat)
    requires t < |s.threads| && s.threads[t].pc == Idle && s.lock == None
    requires s.threads[t].id.Some? ==> s.threads[t].id.value < |s.tss|
    ensures var x := s.threads[t];
      Next(s, Action.Join(t)) ==
        if x.cnt > 0 then s.(threads := s.threads[t := x.(cnt := x.cnt + 1)])
        else if x.id.None? then s.(threads := s.threads[t := x.(cnt := 1, id := Some(|s.tss|))], tss := s.tss + [s.ts])
        else s.(threads := s.threads[t := x.(cnt := 1)], tss := s.tss[x.id.value := s.ts])
  {
  }
}
