/**
 How much is left to reclaim, src/common/twi_disposer.c:168-223: with one-step disposes the list is never longer than
 the clock is ahead of the floor that was published last, and one more.
 */
module DisposerBound {
  import opened Disposer
  import opened DisposerSafety

  /** Only the last node of the list may be older than `m`. */
  ghost predicate TailOnly(list: seq<Trash>, m: int) {
    forall i :: 0 <= i < |list| - 1 ==> list[i].ts >= m
  }

  /** Newer nodes are in front, and all of them are older than `now`. */
  ghost predicate Strict(list: seq<Trash>, now: int) {
    && (forall i, j :: 0 <= i < j < |list| ==> list[i].ts > list[j].ts)
    && forall i :: 0 <= i < |list| ==> list[i].ts < now
  }

  /** The floor published, and the one about to be, are at most `now`. */
  ghost predicate FloorsUpTo(s: State, now: int) {
    s.tmin <= now && forall t :: 0 <= t < |s.threads| && s.threads[t].pc.Free? ==> s.threads[t].pc.m <= now
  }

  ghost predicate Few(s: State) {
    && TailOnly(s.list, s.tmin) && Strict(s.list, s.ts) && FloorsUpTo(s, s.ts)
    && forall t :: 0 <= t < |s.threads| && s.threads[t].pc.Free? ==> TailOnly(s.list, s.threads[t].pc.m)
  }

  /** The node thread `t` is about to push, if it is, is newer than all that is on the list. */
  ghost predicate Ready(s: State, t: nat) {
    t < |s.threads| && s.threads[t].pc.Pushing? ==>
      s.threads[t].pc.x.ts < s.ts && Strict(s.list, s.threads[t].pc.x.ts) && FloorsUpTo(s, s.threads[t].pc.x.ts)
  }

  /** Every node kept is newer than the floor, apart from the last one, which is not unless it is the last of all. */
  lemma {:induction false} KeptTight(list: seq<Trash>, m: int)
    ensures forall i :: 0 <= i < Kept(list, m) - 1 ==> list[i].ts > m
    ensures 0 < Kept(list, m) < |list| ==> list[Kept(list, m) - 1].ts <= m
    ensures list != [] ==> Kept(list, m) > 0
  {
    if list != [] && list[0].ts > m { KeptTight(list[1..], m); }
  }

  lemma PushFew(s: State, t: nat)
    requires t < |s.threads| && s.threads[t].pc.Pushing? && Few(s) && Ready(s, t)
    ensures Few(Step(s, t))
  {
  }

  lemma CutFew(s: State, t: nat)
    requires Clocks(s) && t < |s.threads| && s.threads[t].pc.Cut? && Few(s)
    ensures Few(Step(s, t))
  {
    var m, s' := s.threads[t].pc.m, Step(s, t);
    assert ThreadInv(s, t);
    KeptTight(s.list, m);
    assert s'.list == s.list[..Kept(s.list, m)];
    forall u | 0 <= u < |s'.threads| && s'.threads[u].pc.Free? ensures TailOnly(s'.list, s'.threads[u].pc.m) {
      if u != t { assert TailOnly(s.list, s.threads[u].pc.m); }
    }
  }

  lemma FreeFew(s: State, t: nat)
    requires t < |s.threads| && s.threads[t].pc.Free? && Few(s)
    ensures Few(Step(s, t))
  {
  }

  lemma QuietFew(s: State, t: nat)
    requires t < |s.threads| && Few(s)
    requires !s.threads[t].pc.Pushing? && !s.threads[t].pc.Cut? && !s.threads[t].pc.Free?
    ensures Few(Step(s, t))
  {
    var s' := Step(s, t);
    assert s'.list == s.list && s'.tmin == s.tmin && s'.ts == s.ts;
    forall u | 0 <= u < |s'.threads| && s'.threads[u].pc.Free? ensures u != t && s'.threads[u] == s.threads[u] {
    }
  }

  lemma StepFew(s: State, t: nat)
    requires Clocks(s) && t < |s.threads| && Few(s) && Ready(s, t)
    ensures Few(Step(s, t))
  {
    var pc := s.threads[t].pc;
    if pc.Pushing? { PushFew(s, t); }
    else if pc.Cut? { CutFew(s, t); }
    else if pc.Free? { FreeFew(s, t); }
    else { QuietFew(s, t); }
  }

  lemma DisposeFew(s: State, t: nat, obj: nat)
    requires Few(s) && NoPusher(s)
    ensures Few(Next(s, Dispose(t, obj))) && Ready(Next(s, Dispose(t, obj)), t)
  {
    var s' := Next(s, Dispose(t, obj));
    if s' != s {
      forall u | 0 <= u < |s'.threads| && s'.threads[u].pc.Free? ensures u != t && s'.threads[u] == s.threads[u] {
      }
    }
  }

  /** The other calls change neither the list nor the clock nor a floor. */
  lemma CallSame(s: State, a: Action, u: nat)
    requires !a.Go? && !a.Dispose?
    ensures var s' := Next(s, a);
      && s'.list == s.list && s'.ts == s.ts && s'.tmin == s.tmin && |s'.threads| == |s.threads|
      && (u < |s.threads| && s'.threads[u].pc.Free? ==> s'.threads[u].pc == s.threads[u].pc)
  {
  }

  lemma CallFew(s: State, a: Action)
    requires Few(s) && !a.Go? && !a.Dispose?
    ensures Few(Next(s, a))
  {
    var s' := Next(s, a);
    CallSame(s, a, 0);
    forall u | 0 <= u < |s'.threads| && s'.threads[u].pc.Free? ensures s'.threads[u].pc == s.threads[u].pc {
      CallSame(s, a, u);
    }
  }

  lemma NextFew(s: State, a: Action)
    requires Clocks(s) && Few(s) && (if a.Go? then Ready(s, a.t) else a.Dispose? ==> NoPusher(s))
    ensures Few(Next(s, a)) && (a.Dispose? ==> Ready(Next(s, a), a.t))
  {
    if a.Dispose? { DisposeFew(s, a.t, a.obj); }
    else if !a.Go? { CallFew(s, a); }
    else if a.t < |s.threads| { StepFew(s, a.t); }
  }

  lemma {:induction false} RunFew(n: nat, acts: seq<Action>)
    requires Atomic(acts)
    ensures Few(Run(Init(n), acts))
    ensures acts != [] && acts[|acts| - 1].Dispose? ==> Ready(Run(Init(n), acts), acts[|acts| - 1].t)
  {
    if acts != [] {
      var rest, a := acts[..|acts| - 1], acts[|acts| - 1];
      RunFew(n, rest);
      RunSafe(n, rest);
      AtomicInOrder(n, rest);
      if rest != [] && rest[|rest| - 1].Dispose? { assert acts[|rest| - 1].Dispose?; }
      NextFew(Run(Init(n), rest), a);
    }
  }

  lemma {:induction false} StrictAt(list: seq<Trash>, now: int, i: nat)
    requires Strict(list, now) && i < |list|
    ensures list[i].ts <= now - 1 - i
  {
    if i > 0 { StrictAt(list, now, i - 1); }
  }

  /** With one-step disposes, what is on the list is at most what was disposed since the floor, and one node more. */
  lemma FewLeft(n: nat, acts: seq<Action>)
    requires Atomic(acts)
    ensures var s := Run(Init(n), acts); |s.list| <= 1 + s.ts - s.tmin
  {
    RunFew(n, acts);
    var s := Run(Init(n), acts);
    if |s.list| >= 2 { StrictAt(s.list, s.ts, |s.list| - 2); }
  }

  // ---------------------------------------------------------------------------------------------
  // Whose the timestamps are
  // ---------------------------------------------------------------------------------------------

  predicate Owns(s: State, t: nat, e: nat) { t < |s.threads| && s.threads[t].id.Some? && s.threads[t].id.value == e }

  ghost predicate Owned(s: State, e: nat) { exists t :: Owns(s, t, e) }

  ghost predicate AllOwned(s: State) {
    forall e :: 0 <= e < |s.tss| ==> Owned(s, e)
  }

  lemma NextOwned(s: State, a: Action)
    requires AllOwned(s)
    ensures AllOwned(Next(s, a))
  {
    var s' := Next(s, a);
    forall e | 0 <= e < |s'.tss| ensures Owned(s', e) {
      if e < |s.tss| {
        assert Owned(s, e);
        var t :| Owns(s, t, e);
        IdStays(s, a, t);
        assert Owns(s', t, e);
      } else {
        NewEntry(s, a);
        assert Owns(s', a.t, e);
      }
    }
  }

  lemma IdStays(s: State, a: Action, t: nat)
    requires t < |s.threads| && s.threads[t].id.Some?
    ensures t < |Next(s, a).threads| && Next(s, a).threads[t].id == s.threads[t].id
  {
    if a.t < |s.threads| && a.Go? { StepIds(s, a.t, t); }
  }

  lemma StepIds(s: State, t: nat, u: nat)
    requires t < |s.threads| && u < |s.threads|
    ensures u < |Step(s, t).threads| && Step(s, t).threads[u].id == s.threads[u].id && |Step(s, t).tss| == |s.tss|
  {
  }

  /** Only a thread's first join adds an entry, and it is that thread's. */
  lemma NewEntry(s: State, a: Action)
    requires |Next(s, a).tss| > |s.tss|
    ensures |Next(s, a).tss| == |s.tss| + 1 && Owns(Next(s, a), a.t, |s.tss|)
  {
    if a.t < |s.threads| && a.Go? { StepIds(s, a.t, a.t); }
  }

  /** In every run each entry of the array of timestamps is some thread's, and MAX unless the thread has joined. */
  lemma {:induction false} RunOwned(n: nat, acts: seq<Action>)
    ensures AllOwned(Run(Init(n), acts))
  {
    if acts != [] {
      RunOwned(n, acts[..|acts| - 1]);
      NextOwned(Run(Init(n), acts[..|acts| - 1]), acts[|acts| - 1]);
    }
  }
}
