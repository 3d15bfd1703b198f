/**
 Safe and exact reclamation: a handler never runs while some thread still holds the object, and every
 disposed object is handled exactly once.
 */
module DisposerSafety {
  import opened Common
  import opened Disposer

  // ---------------------------------------------------------------------------------------------
  // Where every node is
  // ---------------------------------------------------------------------------------------------

  /** Node `x` has its timestamp but is not on the list yet. */
  ghost predicate InFlight(s: State, x: Trash) {
    exists t :: 0 <= t < |s.threads| && s.threads[t].pc == Pushing(x)
  }

  ghost predicate Books(s: State) {
    && (forall x :: x in s.pushed ==> IsDisposed(s, x))
    && (forall x :: x in s.disposed ==> x in s.pushed || InFlight(s, x))
    && (forall t :: 0 <= t < |s.threads| && s.threads[t].pc.Pushing? ==>
          IsDisposed(s, s.threads[t].pc.x) && s.threads[t].pc.x !in s.pushed)
    && (forall t, u :: 0 <= t < u < |s.threads| && s.threads[t].pc.Pushing? ==> s.threads[t].pc != s.threads[u].pc)
    && NoDup(s.pushed)
    && multiset(s.pushed) == multiset(s.list) + multiset(s.doomed) + multiset(s.handled)
    && (s.doomed != [] ==> s.lock.Some? && s.lock.value < |s.threads| && s.threads[s.lock.value].pc.Free?)
    && (s.list == [] ==> s.pushed == [])
  }

  lemma InFlightStays(s: State, s': State, t: nat, x: Trash)
    requires t < |s.threads| == |s'.threads| && InFlight(s, x)
    requires forall u :: 0 <= u < |s.threads| && u != t ==> s'.threads[u] == s.threads[u]
    requires s.threads[t].pc == Pushing(x) ==> s'.threads[t].pc == Pushing(x)
    ensures InFlight(s', x)
  {
    var u :| 0 <= u < |s.threads| && s.threads[u].pc == Pushing(x);
    assert s'.threads[u].pc == Pushing(x);
  }

  lemma DisposeBooks(s: State, t: nat, obj: nat)
    requires Clocks(s) && Holders(s) && Books(s) && t < |s.threads| && s.threads[t].pc == Idle
    ensures Books(Next(s, Dispose(t, obj)))
  {
    var s' := Next(s, Dispose(t, obj));
    if s' != s {
      var x := Trash(obj, s.ts);
      assert s'.disposed[x.ts - 1] == x;
      assert s'.threads[t].pc == Pushing(x);
      forall y | y in s'.disposed ensures y in s'.pushed || InFlight(s', y) {
        if y in s.disposed {
          if y !in s.pushed { InFlightStays(s, s', t, y); }
        } else {
          assert y == x;
        }
      }
      assert x !in s.pushed;
    }
  }

  /** Thread `t` put node `x` on the list. */
  predicate Pushes(s: State, s': State, t: nat, x: Trash) {
    && t < |s.threads| && s'.threads == s.threads[t := s.threads[t].(pc := Idle)] && s'.disposed == s.disposed
    && s'.pushed == s.pushed + [x] && s'.list == [x] + s.list
    && s'.doomed == s.doomed && s'.handled == s.handled && s'.lock == s.lock
  }

  lemma PushBooks(s: State, t: nat)
    requires Clocks(s) && Books(s) && t < |s.threads| && s.threads[t].pc.Pushing?
    ensures Books(Step(s, t))
  {
    var s', x := Step(s, t), s.threads[t].pc.x;
    assert Pushes(s, s', t, x);
    PushedBooks(s, s', t, x);
  }

  lemma PushedBooks(s: State, s': State, t: nat, x: Trash)
    requires Books(s) && Pushes(s, s', t, x) && s.threads[t].pc == Pushing(x)
    ensures Books(s')
  {
    assert x in s'.pushed by { assert s'.pushed[|s.pushed|] == x; }
    forall y | y in s'.disposed ensures y in s'.pushed || InFlight(s', y) {
      if y in s.pushed {
        var i :| 0 <= i < |s.pushed| && s.pushed[i] == y;
        assert s'.pushed[i] == y;
      } else if y != x {
        InFlightStays(s, s', t, y);
      }
    }
    forall y | y in s'.pushed ensures IsDisposed(s', y) {
      assert y in s.pushed || y == x;
    }
    NoDupSnoc(s.pushed, x);
  }

  lemma NoDupSnoc(s: seq<Trash>, x: Trash)
    requires NoDup(s) && x !in s
    ensures NoDup(s + [x])
  {
  }

  lemma CutBooks(s: State, t: nat)
    requires Clocks(s) && Books(s) && t < |s.threads| && s.threads[t].pc.Cut?
    ensures Books(Step(s, t))
  {
    var s' := Step(s, t);
    assert ThreadInv(s, t);
    var k := Kept(s.list, s.threads[t].pc.m);
    assert s.doomed == [];
    assert s.list == s.list[..k] + s.list[k..];
    SameFlight(s, s', t);
  }

  lemma FreeBooks(s: State, t: nat)
    requires Clocks(s) && Books(s) && t < |s.threads| && s.threads[t].pc.Free?
    ensures Books(Step(s, t))
  {
    var s' := Step(s, t);
    assert ThreadInv(s, t);
    if s.doomed != [] { assert s.doomed == [s.doomed[0]] + s.doomed[1..]; }
    SameFlight(s, s', t);
  }

  /** Steps that neither hand out a timestamp nor push. */
  lemma SameFlight(s: State, s': State, t: nat)
    requires Books(s) && t < |s.threads| == |s'.threads| && s'.disposed == s.disposed && s'.pushed == s.pushed
    requires forall u :: 0 <= u < |s.threads| && u != t ==> s'.threads[u] == s.threads[u]
    requires !s.threads[t].pc.Pushing? && !s'.threads[t].pc.Pushing?
    ensures forall x :: x in s'.disposed ==> x in s'.pushed || InFlight(s', x)
    ensures forall x :: x in s'.pushed ==> IsDisposed(s', x)
    ensures forall t :: 0 <= t < |s'.threads| && s'.threads[t].pc.Pushing? ==>
      IsDisposed(s', s'.threads[t].pc.x) && s'.threads[t].pc.x !in s'.pushed
    ensures forall t, u :: 0 <= t < u < |s'.threads| && s'.threads[t].pc.Pushing? ==>
      s'.threads[t].pc != s'.threads[u].pc
  {
    forall x | x in s'.disposed ensures x in s'.pushed || InFlight(s', x) {
      if x !in s.pushed { InFlightStays(s, s', t, x); }
    }
  }

  lemma OtherBooks(s: State, s': State, t: nat)
    requires Clocks(s) && Books(s) && t < |s.threads| == |s'.threads|
    requires s'.disposed == s.disposed && s'.pushed == s.pushed
    requires forall u :: 0 <= u < |s.threads| && u != t ==> s'.threads[u] == s.threads[u]
    requires !s.threads[t].pc.Pushing? && !s'.threads[t].pc.Pushing?
    requires s'.list == s.list && s'.doomed == s.doomed && s'.handled == s.handled
    requires !s.threads[t].pc.Free?
    requires s.lock.Some? ==> s'.lock == s.lock
    ensures Books(s')
  {
    SameFlight(s, s', t);
  }

  lemma StepBooks(s: State, t: nat)
    requires Clocks(s) && Books(s) && t < |s.threads| && !s.threads[t].pc.Pushing? && !s.threads[t].pc.Cut?
      && !s.threads[t].pc.Free?
    ensures Books(Step(s, t))
  {
    assert ThreadInv(s, t);
    QuietStep(s, t);
    OtherBooks(s, Step(s, t), t);
  }

  lemma QuietStep(s: State, t: nat)
    requires t < |s.threads| && !s.threads[t].pc.Pushing? && !s.threads[t].pc.Cut? && !s.threads[t].pc.Free?
    ensures var s' := Step(s, t);
      && |s'.threads| == |s.threads| && s'.disposed == s.disposed && s'.pushed == s.pushed && !s'.threads[t].pc.Pushing?
      && s'.list == s.list && s'.doomed == s.doomed && s'.handled == s.handled && (s.lock.Some? ==> s'.lock == s.lock)
      && forall u :: 0 <= u < |s.threads| && u != t ==> s'.threads[u] == s.threads[u]
  {
  }

  lemma CallBooks(s: State, a: Action)
    requires Clocks(s) && Books(s) && a.t < |s.threads| && s.threads[a.t].pc == Idle && !a.Go? && !a.Dispose?
    ensures Books(Next(s, a))
  {
    QuietCall(s, a);
    OtherBooks(s, Next(s, a), a.t);
  }

  lemma QuietCall(s: State, a: Action)
    requires a.t < |s.threads| && s.threads[a.t].pc == Idle && !a.Go? && !a.Dispose?
    ensures var s', t := Next(s, a), a.t;
      && |s'.threads| == |s.threads| && s'.disposed == s.disposed && s'.pushed == s.pushed && !s'.threads[t].pc.Pushing?
      && s'.list == s.list && s'.doomed == s.doomed && s'.handled == s.handled && s'.lock == s.lock
      && forall u :: 0 <= u < |s.threads| && u != t ==> s'.threads[u] == s.threads[u]
  {
  }

  lemma NextKeepsBooks(s: State, a: Action)
    requires Clocks(s) && Holders(s) && Books(s)
    ensures Books(Next(s, a))
  {
    if a.t < |s.threads| {
      var pc := s.threads[a.t].pc;
      if !a.Go? {
        if pc == Idle {
          if a.Dispose? { DisposeBooks(s, a.t, a.obj); } else { CallBooks(s, a); }
        }
      } else if pc.Pushing? {
        PushBooks(s, a.t);
      } else if pc.Cut? {
        CutBooks(s, a.t);
      } else if pc.Free? {
        FreeBooks(s, a.t);
      } else {
        StepBooks(s, a.t);
      }
    }
  }

  // ---------------------------------------------------------------------------------------------
  // Safety
  // ---------------------------------------------------------------------------------------------

  ghost predicate Ordered(list: seq<Trash>) {
    forall i, j :: 0 <= i < j < |list| ==> list[i].ts > list[j].ts
  }

  predicate Held(threads: seq<Thread>, obj: nat) {
    exists t :: 0 <= t < |threads| && obj in threads[t].holds
  }

  ghost predicate Unheld(threads: seq<Thread>, xs: seq<Trash>) {
    forall i :: 0 <= i < |xs| ==> !Held(threads, xs[i].obj)
  }

  /** As long as nodes went on the list in timestamp order, nobody holds what is being reclaimed. */
  ghost predicate Safe(s: State) {
    !s.misordered ==> Ordered(s.list) && Unheld(s.threads, s.doomed) && Unheld(s.threads, s.handled)
  }

  /** A thread that picks up nothing on a list leaves that list unheld. */
  lemma UnheldStays(threads: seq<Thread>, t: nat, x: Thread, xs: seq<Trash>)
    requires Unheld(threads, xs) && t < |threads|
    requires forall i :: 0 <= i < |xs| ==> xs[i].obj in x.holds ==> xs[i].obj in threads[t].holds
    ensures Unheld(threads[t := x], xs)
  {
    forall i | 0 <= i < |xs| ensures !Held(threads[t := x], xs[i].obj) {
      assert !Held(threads, xs[i].obj);
    }
  }

  /** Everything after the first node at most `m` in an ordered list is strictly older than `m`. */
  lemma {:induction false} KeptOlder(list: seq<Trash>, m: int, i: nat)
    requires Ordered(list) && Kept(list, m) <= i < |list|
    ensures list[i].ts < m
  {
    if list[0].ts > m {
      assert Ordered(list[1..]);
      KeptOlder(list[1..], m, i - 1);
    }
  }

  lemma ListDisposed(s: State, x: Trash)
    requires Books(s) && (x in s.list || x in s.doomed || x in s.handled)
    ensures IsDisposed(s, x)
  {
    assert x in multiset(s.pushed);
  }

  /** What a flush cuts off has been passed by every joined thread, so by every thread that holds anything. */
  lemma CutUnheld(s: State, t: nat, i: nat)
    requires Clocks(s) && Holders(s) && Books(s) && Ordered(s.list) && t < |s.threads| && s.threads[t].pc.Cut?
    requires Kept(s.list, s.threads[t].pc.m) <= i < |s.list|
    ensures !Held(s.threads, s.list[i].obj)
  {
    var m, x := s.threads[t].pc.m, s.list[i];
    assert ThreadInv(s, t);
    KeptOlder(s.list, m, i);
    ListDisposed(s, x);
    forall u | 0 <= u < |s.threads| ensures x.obj !in s.threads[u].holds {
      assert ThreadInv(s, u) && HoldsOld(s, u);
      assert s.disposed[x.ts - 1].obj == x.obj;
    }
  }

  lemma CutSafe(s: State, t: nat)
    requires Clocks(s) && Holders(s) && Books(s) && Safe(s) && t < |s.threads| && s.threads[t].pc.Cut?
    ensures Safe(Step(s, t))
  {
    var s', m := Step(s, t), s.threads[t].pc.m;
    assert ThreadInv(s, t);
    if !s.misordered {
      var k := Kept(s.list, m);
      forall i | 0 <= i < |s.list[k..]| ensures !Held(s.threads, s.list[k..][i].obj) {
        CutUnheld(s, t, k + i);
      }
      UnheldStays(s.threads, t, s'.threads[t], s.list[k..]);
      UnheldStays(s.threads, t, s'.threads[t], s.handled);
    }
  }

  lemma PushSafe(s: State, t: nat)
    requires Clocks(s) && Holders(s) && Books(s) && Safe(s) && t < |s.threads| && s.threads[t].pc.Pushing?
    ensures Safe(Step(s, t))
  {
    var s', x := Step(s, t), s.threads[t].pc.x;
    if !s'.misordered {
      if s.list != [] {
        assert s.list[0] in s.list;
        ListDisposed(s, s.list[0]);
        assert s.list[0].ts != x.ts by {
          assert s.list[0] in multiset(s.pushed);
        }
      }
      OrderedCons(s.list, x);
      UnheldStays(s.threads, t, s'.threads[t], s.doomed);
      UnheldStays(s.threads, t, s'.threads[t], s.handled);
    }
  }

  lemma OrderedCons(list: seq<Trash>, x: Trash)
    requires Ordered(list) && (list != [] ==> list[0].ts < x.ts)
    ensures Ordered([x] + list)
  {
  }

  lemma FreeSafe(s: State, t: nat)
    requires Safe(s) && t < |s.threads| && s.threads[t].pc.Free? && ThreadInv(s, t) && s.doomed != []
    ensures Safe(Step(s, t))
  {
  }

  lemma AcquireSafe(s: State, t: nat, obj: nat)
    requires Books(s) && Safe(s) && t < |s.threads|
    ensures Safe(Next(s, Acquire(t, obj)))
  {
    var s' := Next(s, Acquire(t, obj));
    if s' != s && !s.misordered {
      forall i | 0 <= i < |s.doomed| ensures s.doomed[i].obj != obj {
        ListDisposed(s, s.doomed[i]);
      }
      forall i | 0 <= i < |s.handled| ensures s.handled[i].obj != obj {
        ListDisposed(s, s.handled[i]);
      }
      UnheldStays(s.threads, t, s'.threads[t], s.doomed);
      UnheldStays(s.threads, t, s'.threads[t], s.handled);
    }
  }

  /** Every other step leaves the lists alone and lets at most thread `t` drop what it holds. */
  lemma QuietSafe(s: State, s': State, t: nat)
    requires Safe(s) && t < |s.threads| == |s'.threads|
    requires s'.threads == s.threads[t := s'.threads[t]] && s'.threads[t].holds <= s.threads[t].holds
    requires s'.list == s.list && s'.doomed == s.doomed && s'.handled == s.handled && s'.misordered == s.misordered
    ensures Safe(s')
  {
    if !s.misordered {
      UnheldStays(s.threads, t, s'.threads[t], s.doomed);
      UnheldStays(s.threads, t, s'.threads[t], s.handled);
    }
  }

  lemma StepSafe(s: State, t: nat)
    requires Clocks(s) && Holders(s) && Books(s) && Safe(s) && t < |s.threads|
    ensures Safe(Step(s, t))
  {
    assert ThreadInv(s, t);
    if s.threads[t].pc.Cut? {
      CutSafe(s, t);
    } else if s.threads[t].pc.Pushing? {
      PushSafe(s, t);
    } else if s.threads[t].pc.Free? && s.doomed != [] {
      FreeSafe(s, t);
    } else {
      StepDrops(s, t);
      QuietSafe(s, Step(s, t), t);
    }
  }

  /** Any other step of a thread leaves what it holds and the lists alone. */
  lemma StepDrops(s: State, t: nat)
    requires t < |s.threads| && !s.threads[t].pc.Pushing? && !s.threads[t].pc.Cut?
    requires s.threads[t].pc.Free? ==> s.doomed == []
    ensures var s' := Step(s, t);
      && |s'.threads| == |s.threads| && s'.threads == s.threads[t := s'.threads[t]]
      && s'.threads[t].holds == s.threads[t].holds
      && s'.list == s.list && s'.doomed == s.doomed && s'.handled == s.handled && s'.misordered == s.misordered
  {
  }

  /** A call other than picking up an object picks nothing up. */
  lemma CallDrops(s: State, a: Action)
    requires a.t < |s.threads| && !a.Go? && !a.Acquire?
    ensures var s', t := Next(s, a), a.t;
      && |s'.threads| == |s.threads| && s'.threads == s.threads[t := s'.threads[t]]
      && s'.threads[t].holds <= s.threads[t].holds
      && s'.list == s.list && s'.doomed == s.doomed && s'.handled == s.handled && s'.misordered == s.misordered
  {
  }

  lemma NextKeepsSafe(s: State, a: Action)
    requires Clocks(s) && Holders(s) && Books(s) && Safe(s)
    ensures Safe(Next(s, a))
  {
    if a.t < |s.threads| {
      if a.Go? {
        StepSafe(s, a.t);
      } else if a.Acquire? {
        AcquireSafe(s, a.t, a.obj);
      } else {
        CallDrops(s, a);
        QuietSafe(s, Next(s, a), a.t);
      }
    }
  }

  lemma {:induction false} RunSafe(n: nat, acts: seq<Action>)
    ensures var s := Run(Init(n), acts); Clocks(s) && Holders(s) && Books(s) && Safe(s)
  {
    if acts != [] {
      var s, a := Run(Init(n), acts[..|acts| - 1]), acts[|acts| - 1];
      RunSafe(n, acts[..|acts| - 1]);
      NextKeepsClocks(s, a);
      NextKeepsHolders(s, a);
      NextKeepsBooks(s, a);
      NextKeepsSafe(s, a);
    }
  }

  // ---------------------------------------------------------------------------------------------
  // Main results
  // ---------------------------------------------------------------------------------------------

  /** The published floor is never above a joined thread's timestamp, and neither is above the clock. */
  lemma FloorBelowEveryone(n: nat, acts: seq<Action>, t: nat)
    requires t < |Run(Init(n), acts).threads| && Run(Init(n), acts).threads[t].cnt > 0
    ensures var s := Run(Init(n), acts); var id := s.threads[t].id;
      id.Some? && id.value < |s.tss| && 0 <= s.tmin <= s.tss[id.value] <= s.ts
  {
    RunSafe(n, acts);
    assert ThreadInv(Run(Init(n), acts), t);
  }

  /** No handler runs, or has run, on an object that some thread holds. */
  lemma SafeReclamation(n: nat, acts: seq<Action>, x: Trash)
    requires !Run(Init(n), acts).misordered
    requires x in Run(Init(n), acts).doomed || x in Run(Init(n), acts).handled
    ensures !Held(Run(Init(n), acts).threads, x.obj)
  {
    RunSafe(n, acts);
  }

  /** Every dispose fetches its timestamp and pushes its node with nothing in between. */
  ghost predicate Atomic(acts: seq<Action>) {
    forall i :: 0 <= i < |acts| - 1 && acts[i].Dispose? ==> acts[i + 1] == Go(acts[i].t)
  }

  /** Only thread `t` is between its fetch and its push, with the newest timestamp. */
  ghost predicate OnlyPusher(s: State, t: nat) {
    forall u :: 0 <= u < |s.threads| && s.threads[u].pc.Pushing? ==> u == t && s.threads[u].pc.x.ts == |s.disposed|
  }

  ghost predicate NoPusher(s: State) { forall u :: 0 <= u < |s.threads| ==> !s.threads[u].pc.Pushing? }

  lemma PushInOrder(s: State, t: nat)
    requires Holders(s) && Books(s) && OnlyPusher(s, t) && !s.misordered
    ensures !Next(s, Go(t)).misordered && NoPusher(Next(s, Go(t)))
  {
    if t < |s.threads| && s.threads[t].pc.Pushing? && s.list != [] {
      assert s.list[0] in s.list;
      ListDisposed(s, s.list[0]);
    }
  }

  lemma OtherInOrder(s: State, a: Action)
    requires NoPusher(s) && !s.misordered && s.ts == |s.disposed| + 1
    ensures !Next(s, a).misordered
    ensures if a.Dispose? then OnlyPusher(Next(s, a), a.t) else NoPusher(Next(s, a))
  {
    if a.Go? && a.t < |s.threads| { StepNoPusher(s, a.t); }
  }

  lemma StepNoPusher(s: State, t: nat)
    requires NoPusher(s) && !s.misordered && t < |s.threads|
    ensures !Step(s, t).misordered && NoPusher(Step(s, t))
  {
  }

  lemma {:induction false} AtomicInOrder(n: nat, acts: seq<Action>)
    requires Atomic(acts)
    ensures !Run(Init(n), acts).misordered
    ensures if acts != [] && acts[|acts| - 1].Dispose? then OnlyPusher(Run(Init(n), acts), acts[|acts| - 1].t)
            else NoPusher(Run(Init(n), acts))
  {
    if acts != [] {
      var rest, a := acts[..|acts| - 1], acts[|acts| - 1];
      AtomicInOrder(n, rest);
      RunSafe(n, rest);
      if rest != [] && rest[|rest| - 1].Dispose? {
        assert acts[|rest| - 1].Dispose?;
        PushInOrder(Run(Init(n), rest), a.t);
      } else {
        OtherInOrder(Run(Init(n), rest), a);
      }
    }
  }

  /** With the fetch and the push taken as one step, reclamation is safe in every run. */
  lemma AtomicSafe(n: nat, acts: seq<Action>, x: Trash)
    requires Atomic(acts) && (x in Run(Init(n), acts).doomed || x in Run(Init(n), acts).handled)
    ensures !Held(Run(Init(n), acts).threads, x.obj)
  {
    AtomicInOrder(n, acts);
    SafeReclamation(n, acts, x);
  }

  /** A cut at any floor takes only nodes below that floor exactly when the list is in timestamp order. */
  lemma CutExact(list: seq<Trash>)
    ensures Ordered(list) <==> forall m, i :: Kept(list, m) <= i < |list| ==> list[i].ts < m
  {
    if Ordered(list) {
      forall m, i | Kept(list, m) <= i < |list| ensures list[i].ts < m {
        KeptOlder(list, m, i);
      }
    } else {
      var i, j :| 0 <= i < j < |list| && list[i].ts <= list[j].ts;
      KeptUpTo(list, list[i].ts, i);
      assert Kept(list, list[i].ts) <= j;
    }
  }

  lemma {:induction false} KeptUpTo(list: seq<Trash>, m: int, i: nat)
    requires i < |list| && list[i].ts <= m
    ensures Kept(list, m) <= i + 1
  {
    if i > 0 { KeptUpTo(list[1..], m, i - 1); }
  }

  /** No object is handled twice, nor handled while it is still on the list. */
  lemma HandledAtMostOnce(n: nat, acts: seq<Action>)
    ensures var s := Run(Init(n), acts); NoDup(s.handled + s.doomed + s.list)
    ensures var s := Run(Init(n), acts); forall x, y :: x in s.disposed && y in s.disposed && x.obj == y.obj ==> x == y
  {
    var s := Run(Init(n), acts);
    RunSafe(n, acts);
    SameNoDup(s.pushed, s.handled + s.doomed + s.list);
  }

  lemma NoDupCounts(s: seq<Trash>)
    requires forall x :: multiset(s)[x] <= 1
    ensures NoDup(s)
  {
    forall i, j | 0 <= i < j < |s| ensures s[i] != s[j] {
      assert s == s[..j] + [s[j]] + s[j + 1..];
      assert multiset(s)[s[j]] == multiset(s[..j])[s[j]] + 1 + multiset(s[j + 1..])[s[j]];
      assert s[j] !in s[..j];
      assert s[..j][i] == s[i];
    }
  }

  lemma {:induction false} CountsNoDup(s: seq<Trash>, x: Trash)
    requires NoDup(s)
    ensures multiset(s)[x] == if x in s then 1 else 0
  {
    if s != [] {
      assert s == [s[0]] + s[1..];
      CountsNoDup(s[1..], x);
    }
  }

  lemma SameNoDup(a: seq<Trash>, b: seq<Trash>)
    requires NoDup(a) && multiset(a) == multiset(b)
    ensures NoDup(b)
  {
    forall x ensures multiset(b)[x] <= 1 { CountsNoDup(a, x); }
    NoDupCounts(b);
  }

  ghost predicate Quiet(s: State) { forall t :: 0 <= t < |s.threads| ==> s.threads[t].pc == Idle }

  /** TWI_Disposer_finalize handles what is left on the list. */
  function Finalize(s: State): State { s.(list := [], handled := s.handled + s.list) }

  /** Once nobody is inside a call, finalizing handles every disposed object, each exactly once. */
  lemma HandledExactlyOnce(n: nat, acts: seq<Action>, x: Trash)
    requires Quiet(Run(Init(n), acts))
    ensures var s := Run(Init(n), acts); multiset(Finalize(s).handled)[x] == (if x in s.disposed then 1 else 0)
  {
    var s := Run(Init(n), acts);
    RunSafe(n, acts);
    assert s.doomed == [];
    CountsNoDup(s.pushed, x);
    if x in s.disposed { assert !InFlight(s, x); }
    if x in s.pushed { assert IsDisposed(s, x); }
  }

  /**
   The walk of a flush starts at an empty list exactly when every object disposed so far is still between
   its timestamp and its push; at least BIN_SIZE disposals have then begun.
   */
  lemma WalkEmpty(n: nat, acts: seq<Action>, t: nat)
    requires t < |Run(Init(n), acts).threads| && Run(Init(n), acts).threads[t].pc.Cut?
    ensures var s := Run(Init(n), acts);
      && |s.disposed| >= BIN_SIZE
      && (s.list == [] <==> forall x :: x in s.disposed ==> InFlight(s, x))
  {
    var s := Run(Init(n), acts);
    RunSafe(n, acts);
    assert ThreadInv(s, t);
    if s.list == [] {
      assert s.pushed == [];
    } else {
      assert s.list[0] in s.list;
      ListDisposed(s, s.list[0]);
      assert s.list[0] in multiset(s.pushed);
      assert !InFlight(s, s.list[0]);
    }
  }

  /** With the fetch and the push as one step the walk always finds a node. */
  lemma AtomicWalk(n: nat, acts: seq<Action>, t: nat)
    requires Atomic(acts) && t < |Run(Init(n), acts).threads| && Run(Init(n), acts).threads[t].pc.Cut?
    ensures Run(Init(n), acts).list != []
  {
    var s := Run(Init(n), acts);
    AtomicInOrder(n, acts);
    RunSafe(n, acts);
    WalkEmpty(n, acts, t);
    assert IsDisposed(s, s.disposed[0]);
    assert !InFlight(s, s.disposed[0]);
  }
}
