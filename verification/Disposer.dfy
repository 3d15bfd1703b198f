/**
 Deferred reclamation, src/common/twi_disposer.c, as an interleaved state machine. Joining and leaving
 are locked sections and happen in one step; a dispose fetches its timestamp in one step and pushes
 its node in another; a flush reads the clock, publishes its own timestamp, tries the lock, reads the
 other timestamps one by one, cuts the list, and runs the handlers one by one.

 What the callers promise is built into the actions: an object is disposed once; a thread picks up an
 object only while it has joined and before the object is disposed, and drops everything it holds
 when it flushes and when it leaves for the last time.
 */
module Disposer {
  import opened Common

  const MAX: int := 2147483647
  const BIN_SIZE: int := 4

  datatype Trash = Trash(obj: nat, ts: int)

  datatype Pc =
    | Idle
    | Pushing(x: Trash)
    | Clock
    | Publish(now: int)
    | Compare
    | TryLock
    | Scan(i: nat, m: int)
    | Cut(m: int)
    | Free(m: int)

  datatype Thread = Thread(id: Option<nat>, cnt: nat, holds: set<nat>, pc: Pc)

  /**
   `list` runs from the head, the node pushed last. `doomed` is what the flush that holds the lock has
   cut off and not yet handled. The last four fields are history: every timestamp handed out with its
   object, the nodes pushed, the nodes handled, and whether a node was pushed on top of a newer one.
   */
  datatype State = State(
    ts: int,
    tmin: int,
    tss: seq<int>,
    lock: Option<nat>,
    list: seq<Trash>,
    doomed: seq<Trash>,
    threads: seq<Thread>,
    disposed: seq<Trash>,
    pushed: seq<Trash>,
    handled: seq<Trash>,
    misordered: bool)

  datatype Action =
    | Join(t: nat)
    | Leave(t: nat)
    | Acquire(t: nat, obj: nat)
    | Dispose(t: nat, obj: nat)
    | Flush(t: nat)
    | Go(t: nat)

  function Init(n: nat): State {
    State(1, 0, [], None, [], [], seq(n, _ => Thread(None, 0, {}, Idle)), [], [], [], false)
  }

  function Set(s: State, t: nat, x: Thread): State
    requires t < |s.threads|
  {
    s.(threads := s.threads[t := x])
  }

  /** The number of nodes kept: up to and including the first whose timestamp everyone has passed. */
  function Kept(list: seq<Trash>, m: int): (k: nat)
    ensures k <= |list|
  {
    if list == [] then 0 else if list[0].ts <= m then 1 else 1 + Kept(list[1..], m)
  }

  predicate Gone(s: State, obj: nat) {
    exists i :: 0 <= i < |s.disposed| && s.disposed[i].obj == obj
  }

  function JoinStep(s: State, t: nat): State
    requires t < |s.threads|
  {
    var x := s.threads[t];
    if x.cnt > 0 then Set(s, t, x.(cnt := x.cnt + 1))
    else if s.lock.Some? then s
    else if x.id.None? then Set(s, t, x.(cnt := 1, id := Some(|s.tss|))).(tss := s.tss + [s.ts])
    else if x.id.value < |s.tss| then Set(s, t, x.(cnt := 1)).(tss := s.tss[x.id.value := s.ts])
    else s
  }

  function LeaveStep(s: State, t: nat): State
    requires t < |s.threads|
  {
    var x := s.threads[t];
    if x.cnt > 1 then Set(s, t, x.(cnt := x.cnt - 1))
    else if x.cnt == 0 || s.lock.Some? || x.id.None? || x.id.value >= |s.tss| then s
    else Set(s, t, x.(cnt := 0, holds := {})).(tss := s.tss[x.id.value := MAX])
  }

  /** The next step of a dispose or a flush in progress. */
  function Step(s: State, t: nat): State
    requires t < |s.threads|
  {
    var x := s.threads[t];
    if x.pc.Pushing? then
      Set(s, t, x.(pc := Idle)).(list := [x.pc.x] + s.list, pushed := s.pushed + [x.pc.x],
        misordered := s.misordered || (s.list != [] && s.list[0].ts > x.pc.x.ts))
    else if x.id.None? || x.id.value >= |s.tss| then s
    else
      var id := x.id.value;
      match x.pc
      case Clock => Set(s, t, x.(pc := Publish(s.ts)))
      case Publish(now) =>
        if s.tss[id] < now then Set(s, t, x.(pc := Compare)).(tss := s.tss[id := now])
        else Set(s, t, x.(pc := Idle))
      case Compare => Set(s, t, x.(pc := if s.tss[id] - s.tmin > BIN_SIZE then TryLock else Idle))
      case TryLock =>
        if s.lock.Some? then Set(s, t, x.(pc := Idle))
        else Set(s, t, x.(pc := Scan(0, MAX))).(lock := Some(t))
      case Scan(i, m) =>
        if i < |s.tss| then Set(s, t, x.(pc := Scan(i + 1, if m > s.tss[i] then s.tss[i] else m)))
        else Set(s, t, x.(pc := Cut(m)))
      case Cut(m) =>
        Set(s, t, x.(pc := Free(m))).(list := s.list[..Kept(s.list, m)], doomed := s.list[Kept(s.list, m)..])
      case Free(m) =>
        if s.doomed != [] then s.(doomed := s.doomed[1..], handled := s.handled + [s.doomed[0]])
        else Set(s, t, x.(pc := Idle)).(tmin := m, lock := None)
      case _ => s
  }

  function Next(s: State, a: Action): State {
    if a.t >= |s.threads| then s
    else if a.Go? then Step(s, a.t)
    else if s.threads[a.t].pc != Idle then s
    else
      var x := s.threads[a.t];
      match a
      case Join(t) => JoinStep(s, t)
      case Leave(t) => LeaveStep(s, t)
      case Acquire(t, obj) => if x.cnt > 0 && !Gone(s, obj) then Set(s, t, x.(holds := x.holds + {obj})) else s
      case Dispose(t, obj) =>
        if Gone(s, obj) || s.ts + 1 >= MAX then s
        else Set(s, t, x.(pc := Pushing(Trash(obj, s.ts)))).(ts := s.ts + 1,
          disposed := s.disposed + [Trash(obj, s.ts)])
      case Flush(t) => if x.id.None? then s else Set(s, t, x.(pc := Clock, holds := {}))
      case Go(_) => s
  }

  function Run(s: State, acts: seq<Action>): State {
    if acts == [] then s else Next(Run(s, acts[..|acts| - 1]), acts[|acts| - 1])
  }

  // ---------------------------------------------------------------------------------------------
  // Timestamps
  // ---------------------------------------------------------------------------------------------

  predicate Locked(pc: Pc) { pc.Scan? || pc.Cut? || pc.Free? }

  predicate Flushing(pc: Pc) { pc != Idle && !pc.Pushing? }

  ghost predicate Below(m: int, tss: seq<int>, n: nat) {
    forall i :: 0 <= i < n && i < |tss| ==> m <= tss[i]
  }

  /** What holds of one thread. */
  ghost predicate ThreadInv(s: State, t: nat)
    requires t < |s.threads|
  {
    var x := s.threads[t];
    && (x.id.Some? ==> x.id.value < |s.tss|)
    && (x.cnt > 0 ==> x.id.Some? && s.tmin <= s.tss[x.id.value] <= s.ts)
    && (x.cnt == 0 ==> x.holds == {} && (x.id.Some? ==> s.tss[x.id.value] == MAX))
    && (Flushing(x.pc) ==> x.holds == {} && x.id.Some?)
    && (x.pc.Publish? ==> x.pc.now <= s.ts)
    && (x.pc.Compare? || x.pc.TryLock? || Locked(x.pc) ==> x.cnt > 0)
    && (x.pc.TryLock? || Locked(x.pc) ==> s.ts > BIN_SIZE)
    && (Locked(x.pc) <==> s.lock == Some(t))
    && (x.pc.Scan? ==> Below(x.pc.m, s.tss, x.pc.i) && x.pc.m >= 1)
    && (x.pc.Cut? || x.pc.Free? ==> Below(x.pc.m, s.tss, |s.tss|) && x.pc.m >= 1)
  }

  ghost predicate Clocks(s: State) {
    && 1 <= s.ts < MAX && 0 <= s.tmin <= s.ts
    && (forall t :: 0 <= t < |s.threads| ==> ThreadInv(s, t))
    && (forall t, u :: 0 <= t < u < |s.threads| && s.threads[t].id.Some? ==> s.threads[t].id != s.threads[u].id)
    && (s.lock.Some? ==> s.lock.value < |s.threads|)
    && (forall i :: 0 <= i < |s.tss| ==> s.tss[i] >= 1)
  }

  /** Steps that leave timestamps and the lock alone keep what other threads rely on. */
  lemma OtherThread(s: State, s': State, t: nat, u: nat)
    requires t < |s.threads| == |s'.threads| && u < |s.threads| && u != t && s'.threads[u] == s.threads[u]
    requires ThreadInv(s, u) && s'.ts >= s.ts && s'.tmin == s.tmin && s'.tss == s.tss
    requires s'.lock == Some(u) <==> s.lock == Some(u)
    ensures ThreadInv(s', u)
  {
  }

  lemma PublishKeeps(s: State, t: nat)
    requires Clocks(s) && t < |s.threads| && s.threads[t].pc.Publish?
    ensures Clocks(Step(s, t))
  {
    var s' := Step(s, t);
    assert ThreadInv(s, t);
    forall u | 0 <= u < |s'.threads| ensures ThreadInv(s', u) {
      assert ThreadInv(s, u);
    }
  }

  lemma UnlockKeeps(s: State, t: nat)
    requires Clocks(s) && t < |s.threads| && s.threads[t].pc.Free? && s.doomed == []
    ensures Clocks(Step(s, t))
  {
    var s' := Step(s, t);
    assert ThreadInv(s, t);
    forall u | 0 <= u < |s'.threads| ensures ThreadInv(s', u) {
      assert ThreadInv(s, u);
    }
  }

  lemma StepKeepsClocks(s: State, t: nat)
    requires Clocks(s) && t < |s.threads|
    ensures Clocks(Step(s, t))
  {
    var s' := Step(s, t);
    assert ThreadInv(s, t);
    if s.threads[t].pc.Publish? {
      PublishKeeps(s, t);
    } else if s.threads[t].pc.Free? && s.doomed == [] {
      UnlockKeeps(s, t);
    } else {
      StepSelf(s, t);
      forall u | 0 <= u < |s'.threads| && u != t ensures ThreadInv(s', u) {
        assert ThreadInv(s, u);
        OtherThread(s, s', t, u);
      }
    }
  }

  lemma StepSelf(s: State, t: nat)
    requires t < |s.threads| && ThreadInv(s, t) && !s.threads[t].pc.Publish?
    requires s.threads[t].pc.Free? ==> s.doomed != []
    requires 1 <= s.ts && s.tmin >= 0 && forall i :: 0 <= i < |s.tss| ==> s.tss[i] >= 1
    ensures var s' := Step(s, t);
      && |s'.threads| == |s.threads| && ThreadInv(s', t) && s'.ts == s.ts && s'.tmin == s.tmin && s'.tss == s.tss
      && (forall u :: 0 <= u < |s.threads| && u != t ==>
            s'.threads[u] == s.threads[u] && (s'.lock == Some(u) <==> s.lock == Some(u)))
      && s'.threads[t].id == s.threads[t].id
      && (s'.lock == s.lock || s'.lock == Some(t))
  {
    StepRest(s, t);
    if Locked(s.threads[t].pc) { LockedStep(s, t); } else { UnlockedStep(s, t); }
  }

  lemma StepRest(s: State, t: nat)
    requires t < |s.threads| && !s.threads[t].pc.Publish? && (s.threads[t].pc.Free? ==> s.doomed != [])
    ensures var s' := Step(s, t);
      && |s'.threads| == |s.threads| && s'.ts == s.ts && s'.tmin == s.tmin && s'.tss == s.tss
      && (forall u :: 0 <= u < |s.threads| && u != t ==> s'.threads[u] == s.threads[u])
      && s'.threads[t].id == s.threads[t].id
      && (s'.lock == s.lock || (s.lock.None? && s'.lock == Some(t)))
  {
  }

  lemma LockedStep(s: State, t: nat)
    requires t < |s.threads| && ThreadInv(s, t) && Locked(s.threads[t].pc)
    requires s.threads[t].pc.Free? ==> s.doomed != []
    requires forall i :: 0 <= i < |s.tss| ==> s.tss[i] >= 1
    ensures t < |Step(s, t).threads| && ThreadInv(Step(s, t), t)
  {
  }

  lemma UnlockedStep(s: State, t: nat)
    requires t < |s.threads| && ThreadInv(s, t) && !s.threads[t].pc.Publish? && !Locked(s.threads[t].pc)
    requires s.tmin >= 0
    ensures t < |Step(s, t).threads| && ThreadInv(Step(s, t), t)
  {
  }

  lemma JoinKeepsClocks(s: State, t: nat)
    requires Clocks(s) && t < |s.threads|
    ensures Clocks(JoinStep(s, t))
  {
    var s' := JoinStep(s, t);
    assert ThreadInv(s, t);
    forall u | 0 <= u < |s'.threads| ensures ThreadInv(s', u) {
      assert ThreadInv(s, u);
    }
    forall u, v | 0 <= u < v < |s'.threads| && s'.threads[u].id.Some? ensures s'.threads[u].id != s'.threads[v].id {
      assert ThreadInv(s, u) && ThreadInv(s, v);
    }
  }

  lemma LeaveKeepsClocks(s: State, t: nat)
    requires Clocks(s) && t < |s.threads| && s.threads[t].pc == Idle
    ensures Clocks(LeaveStep(s, t))
  {
    var s' := LeaveStep(s, t);
    assert ThreadInv(s, t);
    forall u | 0 <= u < |s'.threads| ensures ThreadInv(s', u) {
      assert ThreadInv(s, u);
    }
  }

  lemma CallKeepsClocks(s: State, a: Action)
    requires Clocks(s) && a.t < |s.threads| && !a.Go? && s.threads[a.t].pc == Idle
    ensures Clocks(Next(s, a))
  {
    if a.Join? {
      JoinKeepsClocks(s, a.t);
    } else if a.Leave? {
      LeaveKeepsClocks(s, a.t);
    } else {
      var s' := Next(s, a);
      assert ThreadInv(s, a.t);
      PlainCall(s, a);
      forall u | 0 <= u < |s'.threads| ensures ThreadInv(s', u) {
        assert ThreadInv(s, u);
        if u != a.t { OtherThread(s, s', a.t, u); }
      }
    }
  }

  lemma PlainCall(s: State, a: Action)
    requires a.t < |s.threads| && ThreadInv(s, a.t) && s.threads[a.t].pc == Idle
    requires a.Acquire? || a.Dispose? || a.Flush?
    ensures var s' := Next(s, a);
      && |s'.threads| == |s.threads| && ThreadInv(s', a.t)
      && (s'.ts == s.ts || (s'.ts == s.ts + 1 && s'.ts < MAX)) && s'.tmin == s.tmin && s'.tss == s.tss
        && s'.lock == s.lock
      && (forall u :: 0 <= u < |s.threads| && u != a.t ==> s'.threads[u] == s.threads[u])
      && s'.threads[a.t].id == s.threads[a.t].id
  {
  }

  lemma NextKeepsClocks(s: State, a: Action)
    requires Clocks(s)
    ensures Clocks(Next(s, a))
  {
    if a.t < |s.threads| {
      if a.Go? {
        StepKeepsClocks(s, a.t);
      } else if s.threads[a.t].pc == Idle {
        CallKeepsClocks(s, a);
      }
    }
  }

  // ---------------------------------------------------------------------------------------------
  // What has been disposed, and who may still hold it
  // ---------------------------------------------------------------------------------------------

  /** Nodes are numbered: the `i`-th dispose got timestamp i + 1. */
  ghost predicate Numbered(s: State) {
    && s.ts == |s.disposed| + 1
    && (forall i :: 0 <= i < |s.disposed| ==> s.disposed[i].ts == i + 1)
    && (forall i, j :: 0 <= i < j < |s.disposed| ==> s.disposed[i].obj != s.disposed[j].obj)
  }

  predicate IsDisposed(s: State, x: Trash) {
    1 <= x.ts <= |s.disposed| && s.disposed[x.ts - 1] == x
  }

  /** A thread that still holds a disposed object has not passed its timestamp. */
  ghost predicate HoldsOld(s: State, t: nat)
    requires t < |s.threads|
  {
    forall i :: 0 <= i < |s.disposed| && s.disposed[i].obj in s.threads[t].holds ==>
      && s.threads[t].id.Some? && s.threads[t].id.value < |s.tss|
      && s.tss[s.threads[t].id.value] <= s.disposed[i].ts
  }

  ghost predicate Holders(s: State) {
    && Numbered(s)
    && forall t :: 0 <= t < |s.threads| ==> HoldsOld(s, t)
  }

  lemma NextNumbered(s: State, a: Action)
    requires Numbered(s)
    ensures Numbered(Next(s, a)) && |Next(s, a).threads| == |s.threads|
  {
    if a.Go? {
      if a.t < |s.threads| { StepNumbers(s, a.t); }
    } else {
      CallNumbers(s, a);
    }
  }

  lemma StepNumbers(s: State, t: nat)
    requires t < |s.threads|
    ensures var s' := Step(s, t); s'.ts == s.ts && s'.disposed == s.disposed && |s'.threads| == |s.threads|
  {
  }

  lemma CallNumbers(s: State, a: Action)
    requires Numbered(s) && !a.Go?
    ensures Numbered(Next(s, a)) && |Next(s, a).threads| == |s.threads|
  {
  }

  lemma NextKeepsHolders(s: State, a: Action)
    requires Clocks(s) && Holders(s)
    ensures Holders(Next(s, a))
  {
    var s' := Next(s, a);
    NextNumbered(s, a);
    if a.t < |s.threads| {
      assert ThreadInv(s, a.t);
      forall u | 0 <= u < |s'.threads| ensures HoldsOld(s', u) {
        assert HoldsOld(s, u) && ThreadInv(s, u);
        OneHolder(s, a, u);
      }
    }
  }

  lemma OneHolder(s: State, a: Action, u: nat)
    requires a.t < |s.threads| && u < |s.threads| && ThreadInv(s, a.t) && ThreadInv(s, u) && HoldsOld(s, u)
    requires u != a.t && s.threads[a.t].id.Some? ==> s.threads[a.t].id != s.threads[u].id
    requires forall i :: 0 <= i < |s.disposed| ==> s.disposed[i].ts < s.ts
    ensures u < |Next(s, a).threads| && HoldsOld(Next(s, a), u)
  {
    if a.Go? {
      if s.threads[a.t].pc.Publish? { PublishHolder(s, a.t, u); } else { StepHolder(s, a.t, u); }
    } else if s.threads[a.t].pc == Idle {
      if a.Join? { JoinHolder(s, a.t, u); }
      else if a.Leave? { LeaveHolder(s, a.t, u); }
      else { CallHolder(s, a, u); }
    }
  }

  lemma PublishHolder(s: State, t: nat, u: nat)
    requires t < |s.threads| && u < |s.threads| && ThreadInv(s, t) && HoldsOld(s, u) && s.threads[t].pc.Publish?
    requires u != t && s.threads[t].id.Some? ==> s.threads[t].id != s.threads[u].id
    ensures u < |Step(s, t).threads| && HoldsOld(Step(s, t), u)
  {
  }

  /** Steps that leave the timestamps alone. */
  lemma StepHolder(s: State, t: nat, u: nat)
    requires t < |s.threads| && u < |s.threads| && HoldsOld(s, u) && !s.threads[t].pc.Publish?
    ensures u < |Step(s, t).threads| && HoldsOld(Step(s, t), u)
  {
    var s' := Step(s, t);
    StepTimes(s, t, u);
    assert s'.disposed == s.disposed;
  }

  lemma StepTimes(s: State, t: nat, u: nat)
    requires t < |s.threads| && u < |s.threads| && !s.threads[t].pc.Publish?
    ensures var s' := Step(s, t);
      && |s'.threads| == |s.threads| && s'.tss == s.tss && s'.disposed == s.disposed
      && s'.threads[u].holds == s.threads[u].holds && s'.threads[u].id == s.threads[u].id
  {
    if s.threads[t].pc.Pushing? { PushTimes(s, t, u); }
    else if Locked(s.threads[t].pc) { LockedTimes(s, t, u); }
    else { UnlockedTimes(s, t, u); }
  }

  lemma PushTimes(s: State, t: nat, u: nat)
    requires t < |s.threads| && u < |s.threads| && s.threads[t].pc.Pushing?
    ensures var s' := Step(s, t);
      && |s'.threads| == |s.threads| && s'.tss == s.tss && s'.disposed == s.disposed
      && s'.threads[u].holds == s.threads[u].holds && s'.threads[u].id == s.threads[u].id
  {
  }

  lemma LockedTimes(s: State, t: nat, u: nat)
    requires t < |s.threads| && u < |s.threads| && Locked(s.threads[t].pc)
    ensures var s' := Step(s, t);
      && |s'.threads| == |s.threads| && s'.tss == s.tss && s'.disposed == s.disposed
      && s'.threads[u].holds == s.threads[u].holds && s'.threads[u].id == s.threads[u].id
  {
  }

  lemma UnlockedTimes(s: State, t: nat, u: nat)
    requires t < |s.threads| && u < |s.threads|
    requires !s.threads[t].pc.Publish? && !s.threads[t].pc.Pushing? && !Locked(s.threads[t].pc)
    ensures var s' := Step(s, t);
      && |s'.threads| == |s.threads| && s'.tss == s.tss && s'.disposed == s.disposed
      && s'.threads[u].holds == s.threads[u].holds && s'.threads[u].id == s.threads[u].id
  {
  }

  lemma JoinHolder(s: State, t: nat, u: nat)
    requires t < |s.threads| && u < |s.threads| && ThreadInv(s, t) && ThreadInv(s, u) && HoldsOld(s, u)
    requires u != t && s.threads[t].id.Some? ==> s.threads[t].id != s.threads[u].id
    ensures u < |JoinStep(s, t).threads| && HoldsOld(JoinStep(s, t), u)
  {
  }

  lemma LeaveHolder(s: State, t: nat, u: nat)
    requires t < |s.threads| && u < |s.threads| && ThreadInv(s, t) && HoldsOld(s, u)
    requires u != t && s.threads[t].id.Some? ==> s.threads[t].id != s.threads[u].id
    ensures u < |LeaveStep(s, t).threads| && HoldsOld(LeaveStep(s, t), u)
  {
  }

  lemma CallHolder(s: State, a: Action, u: nat)
    requires a.t < |s.threads| && u < |s.threads| && ThreadInv(s, u) && HoldsOld(s, u) && s.threads[a.t].pc == Idle
    requires a.Acquire? || a.Dispose? || a.Flush?
    requires forall i :: 0 <= i < |s.disposed| ==> s.disposed[i].ts < s.ts
    ensures u < |Next(s, a).threads| && HoldsOld(Next(s, a), u)
  {
  }
}
