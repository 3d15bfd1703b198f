/**
 Node accounting: every node ever allocated is queued, on the recycle chain or in one thread's hands,
 so that finalizing a queue nobody is using frees each node exactly once.
 */
module NbQueueNodes {
  import opened Common
  import opened NbQueue
  import opened NbQueueRuns

  /** `v` is in the hands of some thread. */
  ghost predicate Held(s: State, v: int) {
    exists t :: 0 <= t < |s.pcs| && Own(s.pcs[t]) == v
  }

  ghost predicate Accounted(s: State) {
    && (forall v :: 0 < v < |s.m.next| && v !in s.g.ins ==> Held(s, v))
    && (forall v :: v in s.g.rem && v !in s.g.rec ==> Held(s, v))
  }

  /** A step puts down the node it holds only by publishing or by recycling it. */
  lemma PutsDown(m: Mem, g: Log, pc: Pc)
    requires MemInv(m, g) && LocalInv(m, g, pc) && Own(pc) != NULL
    ensures var o := Step(m, g, pc);
      Own(o.pc) == Own(pc) || (Own(pc) in o.g.ins && Own(pc) !in g.rem && o.g.rem == g.rem) || Own(pc) in o.g.rec
  {
    if pc.PushCas? {
      if pc.np in g.rem { RemNode(m, g, pc.np); }
      assert (g.ins + [pc.np])[|g.ins|] == pc.np;
    } else if pc.RecCas? {
      assert (g.rec + [pc.tail])[|g.rec|] == pc.tail;
    }
  }

  /** A step picks up every node it allocates or removes. */
  lemma PicksUp(m: Mem, g: Log, pc: Pc, v: int)
    requires MemInv(m, g) && LocalInv(m, g, pc)
    ensures var o := Step(m, g, pc);
      && (0 < v < |o.m.next| && !(0 < v < |m.next|) ==> Own(o.pc) == v)
      && (v in o.g.rem && v !in g.rem ==> Own(o.pc) == v)
      && (v in g.ins ==> v in o.g.ins) && (v in g.rec ==> v in o.g.rec)
  {
    StepEvolves(m, g, pc, NULL);
    var o := Step(m, g, pc);
    NewNodes(m, g, pc);
    if v in g.ins { InPrefix(g.ins, o.g.ins, v); }
    if v in g.rec { InPrefix(g.rec, o.g.rec, v); }
  }

  lemma NewNodes(m: Mem, g: Log, pc: Pc)
    ensures var o := Step(m, g, pc);
      && (|o.m.next| == |m.next| || (|o.m.next| == |m.next| + 1 && Own(o.pc) == |m.next|))
      && (o.g.rem == g.rem || o.g.rem == g.rem + [Own(o.pc)])
  {
  }

  lemma HeldStays(s: State, t: nat, pc': Pc, s': State, v: int)
    requires t < |s.pcs| && s'.pcs == s.pcs[t := pc'] && Held(s, v)
    requires Own(s.pcs[t]) == v ==> Own(pc') == v
    ensures Held(s', v)
  {
    var u :| 0 <= u < |s.pcs| && Own(s.pcs[u]) == v;
    assert Own(s'.pcs[u]) == v;
  }

  lemma GoKeepsAccounted(s: State, t: nat)
    requires Inv(s) && Accounted(s) && t < |s.pcs|
    ensures var o := Step(s.m, s.g, s.pcs[t]);
      Accounted(State(o.m, o.g, s.h + Effects(t, o.ev), s.pcs[t := o.pc]))
  {
    var o := Step(s.m, s.g, s.pcs[t]);
    var s' := State(o.m, o.g, s.h + Effects(t, o.ev), s.pcs[t := o.pc]);
    assert Own(s'.pcs[t]) == Own(o.pc);
    if Own(s.pcs[t]) != NULL { PutsDown(s.m, s.g, s.pcs[t]); }
    forall v | 0 < v < |o.m.next| && v !in o.g.ins ensures Held(s', v) {
      PicksUp(s.m, s.g, s.pcs[t], v);
      if Own(o.pc) != v { HeldStays(s, t, o.pc, s', v); }
    }
    forall v | v in o.g.rem && v !in o.g.rec ensures Held(s', v) {
      StepKeeps(s.m, s.g, s.pcs[t]);
      RemNode(o.m, o.g, v);
      PicksUp(s.m, s.g, s.pcs[t], v);
      if Own(o.pc) != v { HeldStays(s, t, o.pc, s', v); }
    }
  }

  lemma NextKeepsAccounted(s: State, a: Action)
    requires Inv(s) && Accounted(s)
    ensures Accounted(Next(s, a))
  {
    var s' := Next(s, a);
    if a.t < |s.pcs| {
      if a.Go? && !s.pcs[a.t].Idle? && !s.pcs[a.t].PushRet? && !s.pcs[a.t].PopRet? {
        GoKeepsAccounted(s, a.t);
      } else if s' != s {
        forall v | v != NULL && Held(s, v) ensures Held(s', v) {
          HeldStays(s, a.t, s'.pcs[a.t], s', v);
        }
        forall v | v in s.g.rem ensures v != NULL { RemNode(s.m, s.g, v); }
      }
    }
  }

  lemma {:induction false} RunAccounted(n: nat, acts: seq<Action>)
    ensures Accounted(Run(Init(n), acts))
  {
    if acts != [] {
      RunAccounted(n, acts[..|acts| - 1]);
      RunKeeps(n, acts[..|acts| - 1]);
      NextKeepsAccounted(Run(Init(n), acts[..|acts| - 1]), acts[|acts| - 1]);
    }
  }

  lemma {:induction false} FollowRecycled(m: Mem, g: Log, i: nat, fuel: nat)
    requires Shape(m, g) && Recycled(m, g) && i <= |g.rec| && i <= fuel
    ensures Follow(m.nextFree, RecLink(g, i), fuel) == Reverse(g.rec[..i])
    decreases i
  {
    if i > 0 {
      var v, rest := g.rec[i - 1], g.rec[..i - 1];
      FollowRecycled(m, g, i - 1, fuel - 1);
      assert RecLink(g, i) == v && m.nextFree[v] == RecLink(g, i - 1);
      FollowOne(m.nextFree, v, RecLink(g, i - 1), fuel);
      ReverseSnoc(rest, v);
      assert g.rec[..i] == rest + [v];
    }
  }

  ghost predicate Quiescent(s: State) {
    forall t :: 0 <= t < |s.pcs| ==> s.pcs[t] == Idle
  }

  /** The nodes finalize frees, in order: it walks the head chain, then the recycle chain. */
  function Finalized(m: Mem): seq<int> {
    if Valid(m, HEAD) then Follow(m.next, m.next[HEAD], |m.next|) + Follow(m.nextFree, m.recycle, |m.next|) else []
  }

  /** When no operation is in progress, finalize frees every node ever allocated, and each one once. */
  lemma FinalizeFreesAll(n: nat, acts: seq<Action>)
    requires Quiescent(Run(Init(n), acts))
    ensures var s := Run(Init(n), acts); var freed := Finalized(s.m);
      && NoDup(freed)
      && forall v :: v in freed <==> 0 < v < |s.m.next|
  {
    RunKeeps(n, acts);
    RunAccounted(n, acts);
    QuiescentFinalize(Run(Init(n), acts));
  }

  /** The two chains in memory, as the history knows them. */
  lemma FinalizedIs(m: Mem, g: Log)
    requires Shape(m, g) && Recycled(m, g)
    ensures Finalized(m) == Reverse(g.ins[|g.rem|..|g.ins|]) + Reverse(g.rec)
  {
    Bounded(g.ins, |m.next|);
    Bounded(g.rec, |m.next|);
    FollowQueue(m.next, g, |g.ins|, |m.next|);
    FollowRecycled(m, g, |g.rec|, |m.next|);
    assert g.rec[..|g.rec|] == g.rec;
  }

  lemma QueuedNotRecycled(g: Log, v: int)
    requires NoDup(g.ins) && g.rem <= g.ins && v in g.ins[|g.rem|..|g.ins|]
    requires forall w :: w in g.rec ==> w in g.rem
    ensures v !in g.rec
  {
    var i :| 0 <= i < |g.ins[|g.rem|..|g.ins|]| && g.ins[|g.rem|..|g.ins|][i] == v;
    assert g.ins[|g.rem| + i] == v;
  }

  lemma QuiescentFinalize(s: State)
    requires Inv(s) && Accounted(s) && Quiescent(s)
    ensures var freed := Finalized(s.m);
      NoDup(freed) && forall v :: v in freed <==> 0 < v < |s.m.next|
  {
    var queued := s.g.ins[|s.g.rem|..|s.g.ins|];
    FinalizedIs(s.m, s.g);
    forall v ensures (v in queued || v in s.g.rec) <==> 0 < v < |s.m.next| {
      WhereIs(s, v);
    }
    forall v | v in queued ensures v !in s.g.rec {
      QueuedNotRecycled(s.g, v);
    }
    assert NoDup(queued);
    Concatenate(queued, s.g.rec);
  }

  lemma WhereIs(s: State, v: int)
    requires Inv(s) && Accounted(s) && Quiescent(s)
    ensures (v in s.g.ins[|s.g.rem|..|s.g.ins|] || v in s.g.rec) <==> 0 < v < |s.m.next|
  {
    if 0 < v < |s.m.next| {
      assert v in s.g.ins;
      var p :| 0 <= p < |s.g.ins| && s.g.ins[p] == v;
      if p < |s.g.rem| {
        assert s.g.rem[p] == v;
      } else {
        assert s.g.ins[|s.g.rem|..|s.g.ins|][p - |s.g.rem|] == v;
      }
    }
  }

  lemma Concatenate(a: seq<int>, b: seq<int>)
    requires NoDup(a) && NoDup(b) && forall v :: v in a ==> v !in b
    ensures NoDup(Reverse(a) + Reverse(b))
    ensures forall v :: v in Reverse(a) + Reverse(b) <==> v in a || v in b
  {
    var ra, rb := Reverse(a), Reverse(b);
    forall v ensures v in ra + rb <==> v in a || v in b {
      ReverseHas(a, v);
      ReverseHas(b, v);
    }
    ReverseNoDup(a);
    ReverseNoDup(b);
    forall v | v in ra ensures v !in rb {
      ReverseHas(a, v);
      ReverseHas(b, v);
    }
    JoinNoDup(ra, rb);
  }

  lemma JoinNoDup(a: seq<int>, b: seq<int>)
    requires NoDup(a) && NoDup(b) && forall v :: v in a ==> v !in b
    ensures NoDup(a + b)
  {
    forall i, j | 0 <= i < j < |a + b| ensures (a + b)[i] != (a + b)[j] {
      if i < |a| <= j { assert a[i] in a && b[j - |a|] in b; }
    }
  }

  lemma ReverseNoDup(a: seq<int>)
    requires NoDup(a)
    ensures NoDup(Reverse(a))
  {
    forall i, j | 0 <= i < j < |a| ensures Reverse(a)[i] != Reverse(a)[j] {
      ReverseAt(a, i);
      ReverseAt(a, j);
    }
  }

  lemma {:induction false} ReverseHas(a: seq<int>, v: int)
    ensures v in Reverse(a) <==> v in a
  {
    if a != [] { ReverseHas(a[1..], v); }
  }

  /** Distinct positive numbers below `n` are fewer than `n`. */
  lemma {:induction false} Bounded(s: seq<int>, n: nat)
    requires NoDup(s) && forall i :: 0 <= i < |s| ==> 0 < s[i] < n
    ensures |s| <= n
  {
    if s != [] {
      assert 0 < s[0] < n;
      var top := n - 1;
      if top in s {
        var i :| 0 <= i < |s| && s[i] == top;
        var t := s[..i] + s[i + 1..];
        Bounded(t, n - 1);
      } else {
        Bounded(s, n - 1);
      }
    }
  }
}
