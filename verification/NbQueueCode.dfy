/**
 Push and pop as the loops of src/common/twi_nb_queue.c:20-29 and 105-178, running against arbitrary interference.

 A `Queue` holds the memory cells of the queue in its fields. The actions other threads are going to take
 are listed in `todo`, and any number of them may happen between two accesses of ours. Every access is
 proved to be the step `Next` allows, so what holds for all runs of the state machine holds here; and every
 retry of a loop is paid for by a step some other thread took, so every call terminates.
 */
module NbQueueCode {
  import opened Common
  import opened NbQueue
  import opened NbQueueRuns
  import NbQueueNodes

  /** What thread `t` has done, in order. */
  function Mine(h: seq<Event>, t: nat): seq<Event> {
    if h == [] then [] else Mine(h[..|h| - 1], t) + if h[|h| - 1].t == t then [h[|h| - 1]] else []
  }

  lemma MineSnoc(h: seq<Event>, e: Event, t: nat)
    ensures Mine(h + [e], t) == Mine(h, t) + if e.t == t then [e] else []
  {
    assert (h + [e])[..|h|] == h;
  }

  /** What `steps` steps of other threads leave alone. */
  ghost predicate Elsewhere(s: State, s': State, me: nat, steps: nat) {
    && |s'.pcs| == |s.pcs| && (me < |s.pcs| ==> s'.pcs[me] == s.pcs[me])
    && Mine(s'.h, me) == Mine(s.h, me)
    && s.m.data <= s'.m.data && s.g.ins <= s'.g.ins && |s'.g.ins| <= |s.g.ins| + steps
  }

  lemma OtherEffects(h: seq<Event>, t: nat, ops: seq<Op>, me: nat)
    requires t != me && |ops| <= 1
    ensures Mine(h + Effects(t, ops), me) == Mine(h, me)
  {
    if |ops| == 1 {
      assert ops[..0] == [];
      assert Effects(t, ops) == [Effect(t, ops[0])];
      MineSnoc(h, Effect(t, ops[0]), me);
    } else {
      assert h + Effects(t, ops) == h;
    }
  }

  lemma StepSmall(m: Mem, g: Log, pc: Pc)
    ensures var o := Step(m, g, pc);
      |o.ev| <= 1 && m.data <= o.m.data && g.ins <= o.g.ins && |o.g.ins| <= |g.ins| + 1
  {
  }

  lemma OtherNext(s: State, a: Action, me: nat)
    requires a.t != me
    ensures Elsewhere(s, Next(s, a), me, 1)
  {
    if a.t < |s.pcs| {
      var pc := s.pcs[a.t];
      if a.Go? && !pc.Idle? && !pc.PushRet? && !pc.PopRet? {
        StepSmall(s.m, s.g, pc);
        OtherEffects(s.h, a.t, Step(s.m, s.g, pc).ev, me);
      } else if Next(s, a) != s {
        MineSnoc(s.h, Next(s, a).h[|s.h|], me);
      }
    }
  }

  lemma Farther(s: State, s1: State, s2: State, me: nat, i: nat)
    requires Elsewhere(s, s1, me, i) && Elsewhere(s1, s2, me, 1)
    ensures Elsewhere(s, s2, me, i + 1)
  {
  }

  /** My own step, with the event it records. */
  lemma OwnNext(s: State, me: nat)
    requires me < |s.pcs| && !s.pcs[me].Idle? && !s.pcs[me].PushRet? && !s.pcs[me].PopRet?
    ensures var o := Step(s.m, s.g, s.pcs[me]);
      && Next(s, Go(me)) == State(o.m, o.g, Next(s, Go(me)).h, s.pcs[me := o.pc])
      && Mine(Next(s, Go(me)).h, me) == Mine(s.h, me) + if |o.ev| == 1 then [Effect(me, o.ev[0])] else []
  {
    var o := Step(s.m, s.g, s.pcs[me]);
    StepSmall(s.m, s.g, s.pcs[me]);
    if |o.ev| == 1 {
      assert o.ev[..0] == [];
      assert Effects(me, o.ev) == [Effect(me, o.ev[0])];
      MineSnoc(s.h, Effect(me, o.ev[0]), me);
    } else {
      assert s.h + Effects(me, o.ev) == s.h;
    }
  }

  /** A step of mine that has no effect on the abstract queue. */
  lemma QuietNext(s: State, me: nat, m: Mem, pc: Pc)
    requires me < |s.pcs| && !s.pcs[me].Idle? && !s.pcs[me].PushRet? && !s.pcs[me].PopRet?
    requires Step(s.m, s.g, s.pcs[me]) == Out(m, s.g, [], pc)
    ensures var s' := Next(s, Go(me));
      s'.m == m && s'.g == s.g && s'.pcs == s.pcs[me := pc] && Mine(s'.h, me) == Mine(s.h, me)
  {
    OwnNext(s, me);
  }

  lemma AllocIs(m: Mem, g: Log, x: int)
    requires NbQueue.Valid(m, HEAD)
    ensures Step(m, g, PushAlloc(x)) == Out(Alloc(m, x), g, [], PushLoad(|m.next|))
    ensures var data := Alloc(m, x).data; |m.next| < |data| && data[|m.next|] == x
  {
  }

  lemma AllocStep(n: nat, acts: seq<Action>, me: nat, x: int)
    requires me < |Run(Init(n), acts).pcs| && Run(Init(n), acts).pcs[me] == PushAlloc(x)
    ensures var s := Run(Init(n), acts); var s', np := Next(s, Go(me)), |s.m.next|;
      && s'.m == Alloc(s.m, x) && np < |s'.m.data| && s'.m.data[np] == x
      && s'.pcs == s.pcs[me := PushLoad(np)] && Mine(s'.h, me) == Mine(s.h, me)
  {
    var s := Run(Init(n), acts);
    HeadFacts(n, acts);
    AllocIs(s.m, s.g, x);
    QuietNext(s, me, Alloc(s.m, x), PushLoad(|s.m.next|));
  }

  lemma PreIs(m: Mem, g: Log, np: int, cn: int)
    requires NbQueue.Valid(m, cn)
    ensures Step(m, g, PushPre(np, cn)) == Out(m.(pre := m.pre[cn := np]), g, [], PushRet(np))
  {
  }

  lemma Begins(s: State, me: nat, call: Call)
    requires me < |s.pcs| && s.pcs[me] == Idle
    ensures Next(s, if call.CallPush? then BeginPush(me, call.x) else BeginPop(me))
      == s.(h := s.h + [Invoke(me, call)], pcs := s.pcs[me := if call.CallPush? then PushAlloc(call.x) else PopTail])
  {
  }

  lemma RunSnoc(s: State, acts: seq<Action>, a: Action)
    ensures Run(s, acts + [a]) == Next(Run(s, acts), a)
  {
    assert (acts + [a])[..|acts|] == acts;
  }

  /** What a reachable state tells thread `me`. */
  lemma Facts(n: nat, acts: seq<Action>, me: nat)
    requires me < n
    ensures var s := Run(Init(n), acts);
      |s.pcs| == n && MemInv(s.m, s.g) && LocalInv(s.m, s.g, s.pcs[me])
  {
    RunKeeps(n, acts);
  }

  /** How long a backward walk from `v` can still be: every node on it was inserted later than the one before. */
  ghost function BackRank(g: Log, more: nat, v: int): nat {
    if v == NULL then 0 else if v == HEAD then 1
    else if exists p :: 0 <= p < |g.ins| && g.ins[p] == v then
      var p :| 0 <= p < |g.ins| && g.ins[p] == v; 2 + |g.ins| - p + more
    else 0
  }

  lemma RankOf(g: Log, more: nat, p: nat)
    requires NoDup(g.ins) && p < |g.ins| && g.ins[p] != NULL && g.ins[p] != HEAD
    ensures BackRank(g, more, g.ins[p]) == 2 + |g.ins| - p + more
  {
  }

  class Queue {
    var next: seq<int>
    var pre: seq<int>
    var data: seq<int>
    var nextFree: seq<int>
    var tail: int
    var recycle: int

    // History, and where every thread stands.
    var g: Log
    var h: seq<Event>
    var pcs: seq<Pc>
    var todo: seq<Action>
    const n: nat
    const me: nat
    ghost var acts: seq<Action>

    function Abs(): State
      reads this
    {
      State(Mem(next, pre, data, nextFree, tail, recycle), g, h, pcs)
    }

    ghost predicate Valid()
      reads this
    {
      && me < n && Abs() == Run(Init(n), acts) && |pcs| == n
      && forall i :: 0 <= i < |todo| ==> todo[i].t != me
    }

    constructor (n: nat, me: nat, todo: seq<Action>)
      requires me < n && forall i :: 0 <= i < |todo| ==> todo[i].t != me
      ensures Valid() && this.n == n && this.me == me && this.todo == todo && pcs[me] == Idle && h == []
    {
      next, pre, data, nextFree := [NULL], [NULL], [NULL], [NULL];
      tail, recycle := HEAD, NULL;
      g, h, pcs := Log([], [], []), [], seq(n, _ => Idle);
      this.n, this.me, this.todo, acts := n, me, todo, [];
    }

    /** One step of another thread. */
    method OneOther()
      requires Valid() && todo != []
      modifies this
      ensures Valid() && |todo| == old(|todo|) - 1 && old(acts) <= acts
      ensures Elsewhere(old(Abs()), Abs(), me, 1)
    {
      var s := Next(Abs(), todo[0]);
      OtherNext(Abs(), todo[0], me);
      RunSnoc(Init(n), acts, todo[0]);
      Put(s);
      acts := acts + [todo[0]];
      todo := todo[1..];
    }

    method Put(s: State)
      modifies this`next, this`pre, this`data, this`nextFree, this`tail, this`recycle, this`g, this`h, this`pcs
      ensures Abs() == s
    {
      next, pre, data, nextFree, tail, recycle := s.m.next, s.m.pre, s.m.data, s.m.nextFree, s.m.tail, s.m.recycle;
      g, h, pcs := s.g, s.h, s.pcs;
    }

    /** Any number of the steps other threads are to take. */
    method Interfere()
      requires Valid()
      modifies this
      ensures Valid() && |todo| <= old(|todo|) && old(acts) <= acts
      ensures Elsewhere(old(Abs()), Abs(), me, old(|todo|) - |todo|)
      ensures |todo| == old(|todo|) ==> Abs() == old(Abs())
    {
      var k: nat :| k <= |todo|;
      var i := 0;
      while i < k
        invariant 0 <= i <= k <= old(|todo|) && |todo| == old(|todo|) - i && old(acts) <= acts && Valid()
        invariant Elsewhere(old(Abs()), Abs(), me, i)
        invariant i == 0 ==> Abs() == old(Abs())
      {
        ghost var s := Abs();
        OneOther();
        Farther(old(Abs()), s, Abs(), me, i);
        i := i + 1;
      }
    }

    /** Records that the access just made, in state `s`, is the step of this thread. */
    method Tick(s: State)
      requires me < n && s == Run(Init(n), acts) && |s.pcs| == n && g == s.g && h == s.h && pcs == s.pcs
      requires forall i :: 0 <= i < |todo| ==> todo[i].t != me
      requires Mem(next, pre, data, nextFree, tail, recycle) == Next(s, Go(me)).m
      modifies this`g, this`h, this`pcs, this`acts
      ensures Valid() && Abs() == Next(s, Go(me)) && acts == old(acts) + [Go(me)]
    {
      var s' := Next(s, Go(me));
      RunSnoc(Init(n), acts, Go(me));
      g, h, pcs := s'.g, s'.h, s'.pcs;
      acts := acts + [Go(me)];
    }

    method Begin(call: Call)
      requires Valid() && pcs[me] == Idle
      modifies this
      ensures Valid() && |todo| <= old(|todo|) && old(acts) <= acts
      ensures Mine(h, me) == old(Mine(h, me)) + [Invoke(me, call)]
      ensures pcs[me] == if call.CallPush? then PushAlloc(call.x) else PopTail
    {
      BeginNow(call);
      Interfere();
    }

    method BeginNow(call: Call)
      requires Valid() && pcs[me] == Idle
      modifies this
      ensures Valid() && todo == old(todo) && old(acts) <= acts
      ensures Mine(h, me) == old(Mine(h, me)) + [Invoke(me, call)]
      ensures pcs[me] == if call.CallPush? then PushAlloc(call.x) else PopTail
    {
      var a := if call.CallPush? then BeginPush(me, call.x) else BeginPop(me);
      Begins(Abs(), me, call);
      MineSnoc(h, Invoke(me, call), me);
      RunSnoc(Init(n), acts, a);
      h := h + [Invoke(me, call)];
      pcs := pcs[me := if call.CallPush? then PushAlloc(call.x) else PopTail];
      acts := acts + [a];
    }

    method Finish()
      requires Valid() && (pcs[me].PopRet? || (pcs[me].PushRet? && NbQueue.Valid(Abs().m, pcs[me].np)))
      modifies this
      ensures Valid() && |todo| <= old(|todo|) && old(acts) <= acts && pcs[me] == Idle
      ensures Mine(h, me) == old(Mine(h, me))
        + [Event.Return(me, if old(pcs[me]).PopRet? then Deq(old(pcs[me]).r) else Enq(old(data)[old(pcs[me]).np]))]
    {
      var s := Abs();
      MineSnoc(h, Event.Return(me, if pcs[me].PopRet? then Deq(pcs[me].r) else Enq(data[pcs[me].np])), me);
      Tick(s);
      Interfere();
    }

    // -------------------------------------------------------------------------------------------
    // Push
    // -------------------------------------------------------------------------------------------

    method AllocNode(x: int) returns (np: int)
      requires Valid() && pcs[me] == PushAlloc(x)
      modifies this
      ensures Valid() && |todo| <= old(|todo|) && old(acts) <= acts && Mine(h, me) == old(Mine(h, me))
      ensures pcs[me] == PushLoad(np) && 0 <= np < |data| && data[np] == x
    {
      np := AllocNow(x);
      Interfere();
    }

    method AllocNow(x: int) returns (np: int)
      requires Valid() && pcs[me] == PushAlloc(x)
      modifies this
      ensures Valid() && todo == old(todo) && old(acts) <= acts && Mine(h, me) == old(Mine(h, me))
      ensures pcs[me] == PushLoad(np) && 0 <= np < |data| && data[np] == x
    {
      var s := Abs();
      AllocStep(n, acts, me, x);
      np := |next|;
      next, pre, data, nextFree := next + [NULL], pre + [HEAD], data + [x], nextFree + [NULL];
      Tick(s);
    }

    /** Inserts the node at the front of the chain: one effect, however often the compare-and-swap is retried. */
    method InsertFront(np: int)
      requires Valid() && pcs[me] == PushLoad(np) && 0 <= np < |data|
      modifies this
      ensures Valid() && |todo| <= old(|todo|) && old(acts) <= acts
      ensures pcs[me] == PushNext(np) && old(data) <= data
      ensures Mine(h, me) == old(Mine(h, me)) + [Effect(me, Enq(old(data)[np]))]
    {
      var curNext := LoadFront(np);
      var done := false;
      while !done
        invariant Valid() && |todo| <= old(|todo|) && old(acts) <= acts && old(data) <= data
        invariant !done ==>
          pcs[me] == PushStore(np, curNext) && Mine(h, me) == old(Mine(h, me)) && next != [] && next[HEAD] == curNext
        invariant done ==> pcs[me] == PushNext(np) && Mine(h, me) == old(Mine(h, me)) + [Effect(me, Enq(old(data)[np]))]
        decreases !done, |todo|
      {
        curNext, done := TryInsert(np, curNext);
      }
      Interfere();
    }

    method LoadFront(np: int) returns (curNext: int)
      requires Valid() && pcs[me] == PushLoad(np)
      modifies this
      ensures Valid() && todo == old(todo) && old(acts) <= acts && data == old(data) && Mine(h, me) == old(Mine(h, me))
      ensures pcs[me] == PushStore(np, curNext) && next != [] && next[HEAD] == curNext
    {
      var s := Abs();
      Facts(n, acts, me);
      OwnNext(s, me);
      curNext := next[HEAD];
      Tick(s);
    }

    /** One turn of the insertion loop; it fails only if another thread took a step. */
    method TryInsert(np: int, oldNext: int) returns (curNext: int, done: bool)
      requires Valid() && pcs[me] == PushStore(np, oldNext) && next != [] && next[HEAD] == oldNext && 0 <= np < |data|
      modifies this
      ensures Valid() && old(acts) <= acts && old(data) <= data && next != []
      ensures if done then |todo| <= old(|todo|) else |todo| < old(|todo|)
      ensures !done ==> pcs[me] == PushStore(np, curNext) && Mine(h, me) == old(Mine(h, me)) && next[HEAD] == curNext
      ensures done ==> pcs[me] == PushNext(np) && Mine(h, me) == old(Mine(h, me)) + [Effect(me, Enq(old(data)[np]))]
    {
      Interfere();
      StoreNext(np, oldNext);
      Interfere();
      curNext, done := CasFront(np, oldNext);
    }

    method StoreNext(np: int, oldNext: int)
      requires Valid() && pcs[me] == PushStore(np, oldNext)
      modifies this
      ensures Valid() && todo == old(todo) && old(acts) <= acts && data == old(data) && Mine(h, me) == old(Mine(h, me))
      ensures pcs[me] == PushCas(np, oldNext) && next != [] && old(next) != [] && next[HEAD] == old(next)[HEAD]
    {
      var s := Abs();
      Facts(n, acts, me);
      OwnNext(s, me);
      next := next[np := oldNext];
      Tick(s);
    }

    method CasFront(np: int, oldNext: int) returns (curNext: int, done: bool)
      requires Valid() && pcs[me] == PushCas(np, oldNext) && 0 <= np < |data|
      modifies this
      ensures Valid() && todo == old(todo) && old(acts) <= acts && data == old(data) && next != [] && old(next) != []
      ensures done <==> old(next)[HEAD] == oldNext
      ensures !done ==> pcs[me] == PushStore(np, curNext) && Mine(h, me) == old(Mine(h, me)) && next[HEAD] == curNext
      ensures done ==> pcs[me] == PushNext(np) && Mine(h, me) == old(Mine(h, me)) + [Effect(me, Enq(data[np]))]
    {
      var s := Abs();
      Facts(n, acts, me);
      OwnNext(s, me);
      curNext := next[HEAD];
      done := curNext == oldNext;
      if done { next := next[HEAD := np]; }
      Tick(s);
    }

    /** Updates the back pointer of the next node, or the tail when there is none. */
    method LinkBack(np: int)
      requires Valid() && pcs[me] == PushNext(np)
      modifies this
      ensures Valid() && |todo| <= old(|todo|) && old(acts) <= acts && old(data) <= data
        && Mine(h, me) == old(Mine(h, me))
      ensures pcs[me] == PushRet(np)
    {
      var curNext := LoadNext(np);
      Interfere();
      if curNext != NULL { StorePre(np, curNext); } else { StoreTail(np); }
      Interfere();
    }

    method LoadNext(np: int) returns (curNext: int)
      requires Valid() && pcs[me] == PushNext(np)
      modifies this
      ensures Valid() && todo == old(todo) && old(acts) <= acts && data == old(data) && Mine(h, me) == old(Mine(h, me))
      ensures pcs[me] == if curNext != NULL then PushPre(np, curNext) else PushTail(np)
    {
      var s := Abs();
      Facts(n, acts, me);
      OwnNext(s, me);
      curNext := next[np];
      Tick(s);
    }

    method StorePre(np: int, cn: int)
      requires Valid() && pcs[me] == PushPre(np, cn)
      modifies this
      ensures Valid() && todo == old(todo) && old(acts) <= acts && data == old(data) && Mine(h, me) == old(Mine(h, me))
      ensures pcs[me] == PushRet(np)
    {
      var s := Abs();
      Facts(n, acts, me);
      PreKeeps(s.m, g, np, cn);
      PreIs(s.m, g, np, cn);
      QuietNext(s, me, s.m.(pre := pre[cn := np]), PushRet(np));
      pre := pre[cn := np];
      Tick(s);
    }

    method StoreTail(np: int)
      requires Valid() && pcs[me] == PushTail(np)
      modifies this
      ensures Valid() && todo == old(todo) && old(acts) <= acts && data == old(data) && Mine(h, me) == old(Mine(h, me))
      ensures pcs[me] == PushRet(np)
    {
      var s := Abs();
      OwnNext(s, me);
      tail := np;
      Tick(s);
    }

    /** Whatever the other threads do, a push takes effect once, between its call and its return, and always returns. */
    method Push(x: int)
      requires Valid() && pcs[me] == Idle
      modifies this
      ensures Valid() && old(acts) <= acts && pcs[me] == Idle
      ensures Mine(h, me)
        == old(Mine(h, me)) + [Invoke(me, CallPush(x)), Effect(me, Enq(x)), Event.Return(me, Enq(x))]
    {
      Begin(CallPush(x));
      var np := AllocNode(x);
      InsertFront(np);
      LinkBack(np);
      Facts(n, acts, me);
      Finish();
    }

    // -------------------------------------------------------------------------------------------
    // Pop
    // -------------------------------------------------------------------------------------------

    method LoadTail() returns (prev: int)
      requires Valid() && pcs[me] == PopTail
      modifies this
      ensures Valid() && |todo| <= old(|todo|) && old(acts) <= acts && Mine(h, me) == old(Mine(h, me))
      ensures pcs[me] == PopBack(prev) && prev != NULL
    {
      Interfere();
      var s := Abs();
      Facts(n, acts, me);
      OwnNext(s, me);
      prev := tail;
      Tick(s);
    }

    /** Reads the link of `prev`; the head with a NULL link is where an unsuccessful pop takes effect. */
    method ReadBack(prev: int) returns (link: int)
      requires Valid() && pcs[me] == PopBack(prev)
      modifies this
      ensures Valid() && todo == old(todo) && old(acts) <= acts && next == old(next) && g == old(g)
      ensures pcs[me] == (if link == NULL then PopPre(prev) else PopFwd(prev)) && 0 <= prev < |next|
        && next[prev] == link
      ensures Mine(h, me)
        == old(Mine(h, me)) + if link == NULL && prev == HEAD then [Effect(me, Deq(None))] else []
    {
      var s := Abs();
      Facts(n, acts, me);
      OwnNext(s, me);
      link := next[prev];
      Tick(s);
    }

    method ReadPre(prev: int) returns (p: int)
      requires Valid() && pcs[me] == PopPre(prev)
      modifies this
      ensures Valid() && todo == old(todo) && old(acts) <= acts && g == old(g) && Mine(h, me) == old(Mine(h, me))
      ensures pcs[me] == if p == NULL then PopRet(None) else PopBack(p)
      ensures p == NULL <==> prev == HEAD
      ensures BackRank(g, |todo|, p) < BackRank(g, |todo|, prev)
    {
      var s := Abs();
      Facts(n, acts, me);
      OwnNext(s, me);
      PreOnPath(s.m, g, prev);
      PreRank(s.m, g, prev, |todo|);
      p := pre[prev];
      Tick(s);
    }

    /** Lets other threads go on while this one stands on `prev`; its walk gets no longer. */
    method InterfereAt(prev: int)
      requires Valid() && (pcs[me] == PopBack(prev) || pcs[me] == PopPre(prev))
      modifies this
      ensures Valid() && |todo| <= old(|todo|) && old(acts) <= acts
      ensures pcs[me] == old(pcs[me]) && Mine(h, me) == old(Mine(h, me))
      ensures BackRank(g, |todo|, prev) <= old(BackRank(g, |todo|, prev))
    {
      ghost var s, more := Abs(), |todo|;
      PathFacts(n, acts, me);
      Interfere();
      PathFacts(n, acts, me);
      RankShrinks(s.g, g, more, |todo|, prev);
    }

    /** One turn of the backward walk. */
    method BackStep(from: int) returns (prev: int, found: bool)
      requires Valid() && pcs[me] == PopBack(from)
      modifies this
      ensures Valid() && |todo| <= old(|todo|) && old(acts) <= acts
      ensures prev == NULL ==> pcs[me] == PopRet(None) && Mine(h, me) == old(Mine(h, me)) + [Effect(me, Deq(None))]
      ensures prev != NULL ==> Mine(h, me) == old(Mine(h, me))
      ensures prev != NULL && !found ==> pcs[me] == PopBack(prev)
      ensures prev != NULL && found ==> pcs[me] == PopFwd(prev) && 0 <= prev < |next| && next[prev] != NULL
      ensures found || BackRank(g, |todo|, prev) < old(BackRank(g, |todo|, from))
    {
      prev, found := from, false;
      InterfereAt(prev);
      var link := ReadBack(prev);
      if link != NULL {
        found := true;
      } else {
        InterfereAt(prev);
        prev := ReadPre(prev);
      }
    }

    /** Walks back from the tail hint to a node with a link, or past the head, where there is none. */
    method FindBack() returns (prev: int)
      requires Valid() && pcs[me] == PopTail
      modifies this
      ensures Valid() && |todo| <= old(|todo|) && old(acts) <= acts
      ensures prev == NULL ==> pcs[me] == PopRet(None) && Mine(h, me) == old(Mine(h, me)) + [Effect(me, Deq(None))]
      ensures prev != NULL ==>
        && pcs[me] == PopFwd(prev) && Mine(h, me) == old(Mine(h, me))
        && 0 <= prev < |next| && next[prev] != NULL
    {
      prev := LoadTail();
      var found := false;
      while prev != NULL && !found
        invariant Valid() && |todo| <= old(|todo|) && old(acts) <= acts
        invariant prev == NULL ==> pcs[me] == PopRet(None) && Mine(h, me) == old(Mine(h, me)) + [Effect(me, Deq(None))]
        invariant prev != NULL ==> Mine(h, me) == old(Mine(h, me))
        invariant prev != NULL && !found ==> pcs[me] == PopBack(prev)
        invariant prev != NULL && found ==> pcs[me] == PopFwd(prev) && 0 <= prev < |next| && next[prev] != NULL
        decreases !found, BackRank(g, |todo|, prev)
      {
        prev, found := BackStep(prev);
      }
    }

    // -- forward ---------------------------------------------------------------------------------

    /** Reads the link of `prev` again; it can be gone only if another thread took a step. */
    method ReadForward(prev: int) returns (tl: int)
      requires Valid() && pcs[me] == PopFwd(prev) && 0 <= prev < |next| && next[prev] != NULL
      modifies this
      ensures Valid() && |todo| <= old(|todo|) && old(acts) <= acts && Mine(h, me) == old(Mine(h, me))
      ensures tl == NULL ==> pcs[me] == PopTail && |todo| < old(|todo|)
      ensures tl != NULL ==> pcs[me] == PopWalk(prev, tl) && 0 <= prev < |next| && next[prev] == tl
    {
      Interfere();
      var s := Abs();
      Facts(n, acts, me);
      OwnNext(s, me);
      tl := next[prev];
      Tick(s);
    }

    method ReadWalk(prev: int, tl: int) returns (i: int)
      requires Valid() && pcs[me] == PopWalk(prev, tl)
      modifies this
      ensures Valid() && todo == old(todo) && old(acts) <= acts && Mine(h, me) == old(Mine(h, me))
      ensures next == old(next) && g == old(g) && 0 <= tl < |next| && next[tl] == i
      ensures pcs[me] == if i == NULL then PopCas(prev, tl) else PopWalk(tl, i)
      ensures i != NULL ==> Position(g, i) < Position(g, tl)
    {
      var s := Abs();
      Facts(n, acts, me);
      OwnNext(s, me);
      i := next[tl];
      if i != NULL { LinkPosition(s.m, g, tl); }
      Tick(s);
    }

    method InterfereBefore(prev: int, tl: int)
      requires Valid() && (pcs[me] == PopWalk(prev, tl) || pcs[me] == PopCas(prev, tl))
      modifies this
      ensures Valid() && |todo| <= old(|todo|) && old(acts) <= acts
      ensures pcs[me] == old(pcs[me]) && Mine(h, me) == old(Mine(h, me))
      ensures |todo| == old(|todo|) ==> Abs() == old(Abs())
      ensures Position(g, tl) == old(Position(g, tl))
    {
      ghost var s := Abs();
      PathFacts(n, acts, me);
      Interfere();
      PathFacts(n, acts, me);
      SamePosition(s.g, g, tl);
    }

    /** Walks forward to a node without a link. */
    method WalkForward(from: int, start: int) returns (prev: int, tl: int)
      requires Valid() && pcs[me] == PopWalk(from, start) && 0 <= from < |next| && next[from] == start
      modifies this
      ensures Valid() && |todo| <= old(|todo|) && old(acts) <= acts && Mine(h, me) == old(Mine(h, me))
      ensures pcs[me] == PopCas(prev, tl)
      ensures |todo| < old(|todo|) || (0 <= prev < |next| && next[prev] == tl)
    {
      prev, tl := from, start;
      var done := false;
      while !done
        invariant Valid() && |todo| <= old(|todo|) && old(acts) <= acts && Mine(h, me) == old(Mine(h, me))
        invariant pcs[me] == if done then PopCas(prev, tl) else PopWalk(prev, tl)
        invariant |todo| < old(|todo|) || (0 <= prev < |next| && next[prev] == tl)
        decreases !done, Position(g, tl)
      {
        InterfereBefore(prev, tl);
        var i := ReadWalk(prev, tl);
        if i == NULL { done := true; } else { prev, tl := tl, i; }
      }
    }

    // -- removal ---------------------------------------------------------------------------------

    /** The compare-and-swap that removes the oldest item; it fails only if the link has changed. */
    method CasTail(prev: int, tl: int) returns (done: bool)
      requires Valid() && pcs[me] == PopCas(prev, tl)
      modifies this
      ensures Valid() && todo == old(todo) && old(acts) <= acts && data == old(data) && 0 <= prev < |old(next)|
      ensures done <==> old(next)[prev] == tl
      ensures !done ==> pcs[me] == PopTail && Mine(h, me) == old(Mine(h, me))
      ensures done ==>
        && pcs[me] == PopStore(prev, tl) && 0 <= tl < |data|
        && Mine(h, me) == old(Mine(h, me)) + [Effect(me, Deq(Some(data[tl])))]
    {
      var s := Abs();
      Facts(n, acts, me);
      OwnNext(s, me);
      done := next[prev] == tl;
      if done { next := next[prev := NULL]; }
      Tick(s);
    }

    /** Removes `tl`, or finds that another thread took a step. */
    method TryRemove(prev: int, tl: int) returns (done: bool)
      requires Valid() && pcs[me] == PopCas(prev, tl) && 0 <= prev < |next|
      modifies this
      ensures Valid() && |todo| <= old(|todo|) && old(acts) <= acts
      ensures !done ==>
        pcs[me] == PopTail && Mine(h, me) == old(Mine(h, me)) && (|todo| < old(|todo|) || old(next)[prev] != tl)
      ensures done ==>
        && pcs[me] == PopStore(prev, tl) && 0 <= tl < |data|
        && Mine(h, me) == old(Mine(h, me)) + [Effect(me, Deq(Some(data[tl])))]
    {
      InterfereBefore(prev, tl);
      done := CasTail(prev, tl);
    }

    method StoreHint(prev: int, tl: int)
      requires Valid() && pcs[me] == PopStore(prev, tl) && 0 <= tl < |data|
      modifies this
      ensures Valid() && |todo| <= old(|todo|) && old(acts) <= acts && old(data) <= data
        && Mine(h, me) == old(Mine(h, me))
      ensures pcs[me] == RecLoad(tl)
    {
      Interfere();
      var s := Abs();
      OwnNext(s, me);
      tail := prev;
      Tick(s);
    }

    // -- recycling -------------------------------------------------------------------------------

    method LoadRecycle(tl: int) returns (cur: int)
      requires Valid() && pcs[me] == RecLoad(tl)
      modifies this
      ensures Valid() && |todo| <= old(|todo|) && old(acts) <= acts && old(data) <= data
        && Mine(h, me) == old(Mine(h, me))
      ensures pcs[me] == RecStore(tl, cur) && recycle == cur
    {
      Interfere();
      var s := Abs();
      OwnNext(s, me);
      cur := recycle;
      Tick(s);
    }

    method StoreFree(tl: int, was: int)
      requires Valid() && pcs[me] == RecStore(tl, was)
      modifies this
      ensures Valid() && todo == old(todo) && old(acts) <= acts && data == old(data) && Mine(h, me) == old(Mine(h, me))
      ensures pcs[me] == RecCas(tl, was) && recycle == old(recycle)
    {
      var s := Abs();
      Facts(n, acts, me);
      OwnNext(s, me);
      RemNode(s.m, g, tl);
      nextFree := nextFree[tl := was];
      Tick(s);
    }

    method CasRecycle(tl: int, was: int) returns (cur: int, done: bool)
      requires Valid() && pcs[me] == RecCas(tl, was) && 0 <= tl < |data|
      modifies this
      ensures Valid() && todo == old(todo) && old(acts) <= acts && data == old(data) && Mine(h, me) == old(Mine(h, me))
      ensures done <==> old(recycle) == was
      ensures if done then pcs[me] == PopRet(Some(data[tl])) else pcs[me] == RecStore(tl, cur) && recycle == cur
    {
      var s := Abs();
      Facts(n, acts, me);
      OwnNext(s, me);
      RemNode(s.m, g, tl);
      cur := recycle;
      done := cur == was;
      if done { recycle := tl; }
      Tick(s);
    }

    /** Puts the removed node on the recycle chain. */
    method RecycleNode(tl: int)
      requires Valid() && pcs[me] == RecLoad(tl) && 0 <= tl < |data|
      modifies this
      ensures Valid() && |todo| <= old(|todo|) && old(acts) <= acts && Mine(h, me) == old(Mine(h, me))
      ensures pcs[me] == PopRet(Some(old(data)[tl]))
    {
      var cur := LoadRecycle(tl);
      var done := false;
      while !done
        invariant Valid() && |todo| <= old(|todo|) && old(acts) <= acts && old(data) <= data
          && Mine(h, me) == old(Mine(h, me))
        invariant if done then pcs[me] == PopRet(Some(old(data)[tl]))
                  else pcs[me] == RecStore(tl, cur) && recycle == cur
        decreases !done, |todo|
      {
        Interfere();
        StoreFree(tl, cur);
        Interfere();
        cur, done := CasRecycle(tl, cur);
      }
    }

    /** From a node with a link: walk to the end, remove, update the hint, recycle. */
    method RemoveFrom(from: int, start: int) returns (item: int, success: bool)
      requires Valid() && pcs[me] == PopWalk(from, start) && 0 <= from < |next| && next[from] == start
      modifies this
      ensures Valid() && |todo| <= old(|todo|) && old(acts) <= acts
      ensures success ==>
        pcs[me] == PopRet(Some(item)) && Mine(h, me) == old(Mine(h, me)) + [Effect(me, Deq(Some(item)))]
      ensures !success ==> pcs[me] == PopTail && Mine(h, me) == old(Mine(h, me)) && |todo| < old(|todo|)
    {
      item := NULL;
      var prev, tl := WalkForward(from, start);
      PathFacts(n, acts, me);
      success := TryRemove(prev, tl);
      if success {
        StoreHint(prev, tl);
        item := data[tl];
        RecycleNode(tl);
      }
    }

    /** One turn of the outer loop of pop; without an answer, another thread took a step. */
    method TryPop() returns (item: int, success: bool, done: bool)
      requires Valid() && pcs[me] == PopTail
      modifies this
      ensures Valid() && |todo| <= old(|todo|) && old(acts) <= acts
      ensures !done ==> pcs[me] == PopTail && Mine(h, me) == old(Mine(h, me)) && |todo| < old(|todo|)
      ensures done ==>
        && pcs[me] == PopRet(Answer(item, success))
        && Mine(h, me) == old(Mine(h, me)) + [Effect(me, Deq(Answer(item, success)))]
    {
      item, success, done := NULL, false, false;
      var prev := FindBack();
      if prev == NULL {
        done := true;
      } else {
        var tl := ReadForward(prev);
        if tl != NULL {
          item, success := RemoveFrom(prev, tl);
          done := success;
        }
      }
    }

    /** Whatever the other threads do, a pop takes effect once, answers what that effect took, and always returns. */
    method Pop() returns (item: int, success: bool)
      requires Valid() && pcs[me] == Idle
      modifies this
      ensures Valid() && old(acts) <= acts && pcs[me] == Idle
      ensures Mine(h, me)
        == old(Mine(h, me))
           + [Invoke(me, CallPop), Effect(me, Deq(Answer(item, success))), Event.Return(me, Deq(Answer(item, success)))]
    {
      Begin(CallPop);
      item, success := NULL, false;
      var done := false;
      while !done
        invariant Valid() && old(acts) <= acts
        invariant pcs[me] == if done then PopRet(Answer(item, success)) else PopTail
        invariant Mine(h, me) == old(Mine(h, me)) + [Invoke(me, CallPop)]
                  + if done then [Effect(me, Deq(Answer(item, success)))] else []
        decreases !done, |todo|
      {
        item, success, done := TryPop();
      }
      Finish();
    }

    // -------------------------------------------------------------------------------------------
    // Finalize
    // -------------------------------------------------------------------------------------------

    /** Frees the head chain and then the recycle chain: with no call in progress that is every node, once. */
    method Finalize() returns (freed: seq<int>)
      requires Valid() && NbQueueNodes.Quiescent(Abs())
      ensures NoDup(freed) && forall v :: v in freed <==> 0 < v < |next|
    {
      Facts(n, acts, me);
      NbQueueNodes.FinalizeFreesAll(n, acts);
      freed := FreeQueued();
      NbQueueNodes.Bounded(g.rec, |next|);
      ChainOf(Abs().m, g);
      var rest := FreeRecycled();
      freed := freed + rest;
    }

    method FreeQueued() returns (freed: seq<int>)
      requires next != [] && Shape(Abs().m, g)
      ensures freed == Follow(next, next[HEAD], |next|)
    {
      freed := [];
      ghost var p, fuel := |g.ins|, |next|;
      NbQueueNodes.Bounded(g.ins, |next|);
      var i := next[HEAD];
      while i != NULL
        invariant |g.rem| <= p <= |g.ins| && p <= fuel && i == LinkAt(g, p)
        invariant freed + Follow(next, i, fuel) == Follow(next, next[HEAD], |next|)
        decreases p
      {
        var j := next[i];
        FollowOne(next, i, j, fuel);
        freed := freed + [i];
        i, p, fuel := j, p - 1, fuel - 1;
      }
    }

    method FreeRecycled() returns (freed: seq<int>)
      requires RecycleChain(nextFree, g.rec) && |g.rec| <= |next| && recycle == RecAt(g.rec, |g.rec|)
      ensures freed == Follow(nextFree, recycle, |next|)
    {
      freed := [];
      ghost var p, fuel := |g.rec|, |next|;
      var i := recycle;
      while i != NULL
        invariant 0 <= p <= |g.rec| && p <= fuel && i == RecAt(g.rec, p)
        invariant freed + Follow(nextFree, i, fuel) == Follow(nextFree, recycle, |next|)
        decreases p
      {
        assert RecAt(g.rec, p - 1) == nextFree[g.rec[p - 1]];
        var j := nextFree[i];
        FollowOne(nextFree, i, j, fuel);
        freed := freed + [i];
        i, p, fuel := j, p - 1, fuel - 1;
      }
    }
  }

  /** The recycle links, from the node recycled last to the first. */
  ghost predicate RecycleChain(nextFree: seq<int>, rec: seq<int>) {
    && (forall i :: 0 <= i < |rec| ==> 0 < rec[i] < |nextFree|)
    && (forall i {:trigger RecAt(rec, i)} :: 0 <= i < |rec| ==> nextFree[rec[i]] == RecAt(rec, i))
  }

  function RecAt(rec: seq<int>, i: int): int { if 0 < i <= |rec| then rec[i - 1] else NULL }

  lemma ChainOf(m: Mem, g: Log)
    requires Shape(m, g) && Recycled(m, g)
    ensures RecycleChain(m.nextFree, g.rec) && m.recycle == RecAt(g.rec, |g.rec|)
  {
    forall i | 0 <= i < |g.rec| ensures m.nextFree[g.rec[i]] == RecAt(g.rec, i) {
      assert m.nextFree[g.rec[i]] == RecLink(g, i);
    }
  }

  /** What a pop hands to its caller. */
  function Answer(item: int, success: bool): Option<int> { if success then Some(item) else None }

  lemma HeadFacts(n: nat, acts: seq<Action>)
    ensures NbQueue.Valid(Run(Init(n), acts).m, HEAD)
  {
    RunKeeps(n, acts);
  }

  /** What a walking thread knows. */
  lemma PathFacts(n: nat, acts: seq<Action>, me: nat)
    requires me < n
    ensures var s := Run(Init(n), acts);
      && |s.pcs| == n && NoDup(s.g.ins)
      && (s.pcs[me].PopBack? || s.pcs[me].PopPre? ==> OnPath(s.g, s.pcs[me].prev))
      && (s.pcs[me].PopWalk? || s.pcs[me].PopCas? ==> s.pcs[me].tail in s.g.ins && NbQueue.Valid(s.m, s.pcs[me].prev))
  {
    Facts(n, acts, me);
  }

  /** When a node was inserted. */
  ghost function Position(g: Log, v: int): nat {
    if exists p :: 0 <= p < |g.ins| && g.ins[p] == v then
      var p :| 0 <= p < |g.ins| && g.ins[p] == v; p
    else 0
  }

  lemma PositionOf(g: Log, p: nat)
    requires NoDup(g.ins) && p < |g.ins|
    ensures Position(g, g.ins[p]) == p
  {
  }

  lemma SamePosition(g: Log, g': Log, v: int)
    requires g.ins <= g'.ins && NoDup(g'.ins) && v in g.ins
    ensures Position(g', v) == Position(g, v)
  {
    var p :| 0 <= p < |g.ins| && g.ins[p] == v;
    assert g'.ins[p] == v;
    PositionOf(g, p);
    PositionOf(g', p);
  }

  /** Links run from later to earlier nodes. */
  lemma LinkPosition(m: Mem, g: Log, v: int)
    requires Shape(m, g) && v in g.ins && m.next[v] != NULL
    ensures Position(g, m.next[v]) < Position(g, v)
  {
    var b := LinkTarget(m, g, v);
    PositionOf(g, b);
    PositionOf(g, b - 1);
  }

  /** The back pointer of a node names a later one, or the head. */
  lemma PreRank(m: Mem, g: Log, prev: int, more: nat)
    requires MemInv(m, g) && OnPath(g, prev)
    ensures BackRank(g, more, m.pre[prev]) < BackRank(g, more, prev)
  {
    if prev != HEAD {
      var p :| 0 <= p < |g.ins| && g.ins[p] == prev;
      assert Later(g, p, m.pre[g.ins[p]]);
      RankOf(g, more, p);
      if m.pre[prev] != HEAD {
        var q :| p < q < |g.ins| && g.ins[q] == m.pre[prev];
        RankOf(g, more, q);
      }
    }
  }

  /** Other threads may insert nodes, but each uses up one of the steps they have left. */
  lemma RankShrinks(g: Log, g': Log, more: nat, more': nat, v: int)
    requires g.ins <= g'.ins && |g'.ins| + more' <= |g.ins| + more && OnPath(g, v) && NoDup(g'.ins)
    ensures BackRank(g', more', v) <= BackRank(g, more, v)
  {
    if v != HEAD && v != NULL {
      var p :| 0 <= p < |g.ins| && g.ins[p] == v;
      assert NoDup(g.ins);
      assert g'.ins[p] == v;
      RankOf(g, more, p);
      RankOf(g', more', p);
    }
  }
}
