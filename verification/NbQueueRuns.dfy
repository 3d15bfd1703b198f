/**
 Any number of threads pushing and popping at once: every run of the queue is linearizable.

 A run records a history of invocations, effects and returns. The two folds `Contents` and `PhaseOf`
 are the reference: the first replays the effects on a plain sequence and fails on the first one a
 sequential FIFO queue would not allow, the second checks that every operation takes effect exactly
 once, between its invocation and its return, and returns what that effect answered.
 */
module NbQueueRuns {
  import opened Common
  import opened NbQueue

  datatype State = State(m: Mem, g: Log, h: seq<Event>, pcs: seq<Pc>)

  datatype Action = Go(t: nat) | BeginPush(t: nat, x: int) | BeginPop(t: nat)

  function Init(n: nat): State {
    State(Mem([NULL], [NULL], [NULL], [NULL], HEAD, NULL), Log([], [], []), [], seq(n, _ => Idle))
  }

  function Effects(t: nat, ops: seq<Op>): seq<Event> {
    if ops == [] then [] else Effects(t, ops[..|ops| - 1]) + [Effect(t, ops[|ops| - 1])]
  }

  function Next(s: State, a: Action): State {
    if a.t >= |s.pcs| then s
    else
      var pc := s.pcs[a.t];
      match a
      case BeginPush(t, x) =>
        if !pc.Idle? then s else s.(h := s.h + [Invoke(t, CallPush(x))], pcs := s.pcs[t := PushAlloc(x)])
      case BeginPop(t) =>
        if !pc.Idle? then s else s.(h := s.h + [Invoke(t, CallPop)], pcs := s.pcs[t := PopTail])
      case Go(t) =>
        if pc.Idle? then s
        else if pc.PushRet? then
          if Valid(s.m, pc.np) then s.(h := s.h + [Return(t, Enq(s.m.data[pc.np]))], pcs := s.pcs[t := Idle]) else s
        else if pc.PopRet? then s.(h := s.h + [Return(t, Deq(pc.r))], pcs := s.pcs[t := Idle])
        else
          var o := Step(s.m, s.g, pc);
          State(o.m, o.g, s.h + Effects(t, o.ev), s.pcs[t := o.pc])
  }

  function Run(s: State, acts: seq<Action>): State {
    if acts == [] then s else Next(Run(s, acts[..|acts| - 1]), acts[|acts| - 1])
  }

  // ---------------------------------------------------------------------------------------------
  // The reference: a sequential queue and a well-formed history
  // ---------------------------------------------------------------------------------------------

  function Apply(q: seq<int>, op: Op): Option<seq<int>> {
    match op
    case Enq(x) => Some(q + [x])
    case Deq(Some(x)) => if q != [] && q[0] == x then Some(q[1..]) else None
    case Deq(None) => if q == [] then Some(q) else None
  }

  /** The queue a sequential replay of the effects ends in; None when some effect was not allowed. */
  function Contents(h: seq<Event>): Option<seq<int>> {
    if h == [] then Some([])
    else
      match Contents(h[..|h| - 1])
      case None => None
      case Some(q) => if h[|h| - 1].Effect? then Apply(q, h[|h| - 1].op) else Some(q)
  }

  datatype Phase = Ready | Called(call: Call) | Done(op: Op) | Broken

  predicate Answers(call: Call, op: Op) {
    match call
    case CallPush(x) => op == Enq(x)
    case CallPop => op.Deq?
  }

  function Advance(p: Phase, e: Event): Phase {
    match e
    case Invoke(_, call) => if p.Ready? then Called(call) else Broken
    case Effect(_, op) => if p.Called? && Answers(p.call, op) then Done(op) else Broken
    case Return(_, op) => if p == Done(op) then Ready else Broken
  }

  function PhaseOf(h: seq<Event>, t: nat): Phase {
    if h == [] then Ready
    else
      var p := PhaseOf(h[..|h| - 1], t);
      if h[|h| - 1].t == t then Advance(p, h[|h| - 1]) else p
  }

  // ---------------------------------------------------------------------------------------------
  // The invariant over all threads
  // ---------------------------------------------------------------------------------------------

  ghost predicate Inv(s: State) {
    && MemInv(s.m, s.g)
    && (forall t :: 0 <= t < |s.pcs| ==> LocalInv(s.m, s.g, s.pcs[t]))
    && (forall t, u :: 0 <= t < |s.pcs| && 0 <= u < |s.pcs| && t != u && Own(s.pcs[t]) != NULL ==>
          Own(s.pcs[t]) != Own(s.pcs[u]))
  }

  lemma OwnIsValid(m: Mem, g: Log, pc: Pc)
    requires MemInv(m, g) && LocalInv(m, g, pc)
    ensures Own(pc) == NULL || Valid(m, Own(pc))
  {
    if pc.PopStore? || pc.RecLoad? || pc.RecStore? || pc.RecCas? {
      RemNode(m, g, pc.tail);
    }
  }

  /** A step either hands its node on, lets go of it, allocates one or takes the one it removed. */
  lemma OwnAfter(m: Mem, g: Log, pc: Pc)
    requires MemInv(m, g) && LocalInv(m, g, pc)
    ensures var o := Step(m, g, pc);
      || Own(o.pc) == Own(pc)
      || Own(o.pc) == NULL
      || (Own(pc) == NULL && Own(o.pc) == |m.next|)
      || (Own(pc) == NULL && Own(o.pc) in g.ins && Own(o.pc) !in g.rem)
  {
    if pc.PopCas? {
      PopCasOwn(m, g, pc.prev, pc.tail);
    } else {
      OtherOwn(m, g, pc);
    }
  }

  lemma OtherOwn(m: Mem, g: Log, pc: Pc)
    requires !pc.PopCas?
    ensures var o := Step(m, g, pc);
      Own(o.pc) == Own(pc) || Own(o.pc) == NULL || (Own(pc) == NULL && Own(o.pc) == |m.next|)
  {
  }

  lemma PopCasOwn(m: Mem, g: Log, prev: int, tail: int)
    requires MemInv(m, g) && LocalInv(m, g, PopCas(prev, tail))
    ensures Valid(m, prev) && Valid(m, tail) && tail in g.ins
    ensures m.next[prev] == tail ==> tail !in g.rem && Own(Step(m, g, PopCas(prev, tail)).pc) == tail
    ensures m.next[prev] != tail ==> Own(Step(m, g, PopCas(prev, tail)).pc) == NULL
  {
    if m.next[prev] == tail { RemovesOldest(m, g, prev, tail); }
  }

  /** A node that was in the queue before a step is owned by nobody. */
  lemma InQueueUnowned(m: Mem, g: Log, pc: Pc, v: int)
    requires MemInv(m, g) && LocalInv(m, g, pc) && v in g.ins && v !in g.rem
    ensures Own(pc) != v
  {
  }

  lemma GoKeepsInv(s: State, t: nat)
    requires Inv(s) && t < |s.pcs|
    ensures var o := Step(s.m, s.g, s.pcs[t]); Inv(State(o.m, o.g, s.h + Effects(t, o.ev), s.pcs[t := o.pc]))
  {
    var o := Step(s.m, s.g, s.pcs[t]);
    StepKeeps(s.m, s.g, s.pcs[t]);
    forall u | 0 <= u < |s.pcs| && u != t
      ensures LocalInv(o.m, o.g, s.pcs[u])
      ensures Own(s.pcs[u]) != NULL ==> Own(s.pcs[u]) != Own(o.pc)
    {
      OtherKeeps(s.m, s.g, s.pcs[t], s.pcs[u]);
    }
  }

  /** What another thread relies on survives the step of a thread that owns another node. */
  lemma OtherKeeps(m: Mem, g: Log, pc: Pc, other: Pc)
    requires MemInv(m, g) && LocalInv(m, g, pc) && LocalInv(m, g, other)
    requires (Own(pc) != NULL ==> Own(pc) != Own(other)) && (Own(other) != NULL ==> Own(other) != Own(pc))
    requires var o := Step(m, g, pc); MemInv(o.m, o.g)
    ensures var o := Step(m, g, pc);
      LocalInv(o.m, o.g, other) && (Own(other) != NULL ==> Own(other) != Own(o.pc))
  {
    var o := Step(m, g, pc);
    OwnAfter(m, g, pc);
    OwnIsValid(m, g, other);
    StepEvolves(m, g, pc, Own(other));
    LocalStable(m, g, o.m, o.g, other);
    if Own(o.pc) in g.ins && Own(o.pc) !in g.rem { InQueueUnowned(m, g, other, Own(o.pc)); }
  }

  lemma NextKeepsInv(s: State, a: Action)
    requires Inv(s)
    ensures Inv(Next(s, a))
  {
    if a.Go? && a.t < |s.pcs| && !s.pcs[a.t].Idle? && !s.pcs[a.t].PushRet? && !s.pcs[a.t].PopRet? {
      GoKeepsInv(s, a.t);
    } else {
      CallKeepsInv(s, a);
    }
  }

  lemma CallKeepsInv(s: State, a: Action)
    requires Inv(s) && !(a.Go? && a.t < |s.pcs| && !s.pcs[a.t].Idle? && !s.pcs[a.t].PushRet? && !s.pcs[a.t].PopRet?)
    ensures Inv(Next(s, a))
  {
    var s' := Next(s, a);
    CallChanges(s, a);
    forall t | 0 <= t < |s'.pcs| ensures LocalInv(s.m, s.g, s'.pcs[t]) {
      assert t < |s.pcs| && LocalInv(s.m, s.g, s.pcs[t]);
    }
  }

  /** Calling and returning changes only where the thread stands; it owns no node then. */
  lemma CallChanges(s: State, a: Action)
    requires !(a.Go? && a.t < |s.pcs| && !s.pcs[a.t].Idle? && !s.pcs[a.t].PushRet? && !s.pcs[a.t].PopRet?)
    ensures var s' := Next(s, a);
      && s'.m == s.m && s'.g == s.g && |s'.pcs| == |s.pcs|
      && forall t :: 0 <= t < |s.pcs| ==>
           s'.pcs[t] == s.pcs[t] || s'.pcs[t].Idle? || s'.pcs[t].PushAlloc? || s'.pcs[t].PopTail?
  {
  }

  // ---------------------------------------------------------------------------------------------
  // Linearizability
  // ---------------------------------------------------------------------------------------------

  function DataAt(m: Mem, v: int): int {
    if 0 <= v < |m.data| then m.data[v] else NULL
  }

  /** The items stored in the given nodes. */
  function Items(m: Mem, nodes: seq<int>): (r: seq<int>)
    ensures |r| == |nodes|
  {
    if nodes == [] then [] else Items(m, nodes[..|nodes| - 1]) + [DataAt(m, nodes[|nodes| - 1])]
  }

  /** The items in the queue, oldest first. */
  function Values(m: Mem, g: Log): seq<int> {
    if |g.rem| <= |g.ins| then Items(m, g.ins[|g.rem|..]) else []
  }

  function Expected(m: Mem, pc: Pc): Phase {
    match pc
    case Idle => Ready
    case PushAlloc(x) => Called(CallPush(x))
    case PushLoad(np) => Called(CallPush(DataAt(m, np)))
    case PushStore(np, _) => Called(CallPush(DataAt(m, np)))
    case PushCas(np, _) => Called(CallPush(DataAt(m, np)))
    case PushNext(np) => Done(Enq(DataAt(m, np)))
    case PushPre(np, _) => Done(Enq(DataAt(m, np)))
    case PushTail(np) => Done(Enq(DataAt(m, np)))
    case PushRet(np) => Done(Enq(DataAt(m, np)))
    case PopPre(prev) => if prev == HEAD then Done(Deq(None)) else Called(CallPop)
    case PopStore(_, tail) => Done(Deq(Some(DataAt(m, tail))))
    case RecLoad(tail) => Done(Deq(Some(DataAt(m, tail))))
    case RecStore(tail, _) => Done(Deq(Some(DataAt(m, tail))))
    case RecCas(tail, _) => Done(Deq(Some(DataAt(m, tail))))
    case PopRet(r) => Done(Deq(r))
    case _ => Called(CallPop)
  }

  ghost predicate Linear(s: State) {
    && Contents(s.h) == Some(Values(s.m, s.g))
    && (forall t :: 0 <= t < |s.pcs| ==> PhaseOf(s.h, t) == Expected(s.m, s.pcs[t]))
  }

  /** The outcome changes the abstract queue by exactly the effect it reports. */
  ghost predicate Yields(m: Mem, g: Log, pc: Pc, o: Out) {
    if o.ev == [] then Values(o.m, o.g) == Values(m, g) && Expected(o.m, o.pc) == Expected(m, pc)
    else
      && |o.ev| == 1
      && Apply(Values(m, g), o.ev[0]) == Some(Values(o.m, o.g))
      && Expected(m, pc).Called? && Answers(Expected(m, pc).call, o.ev[0])
      && Expected(o.m, o.pc) == Done(o.ev[0])
  }

  ghost predicate Applies(m: Mem, g: Log, pc: Pc) { Yields(m, g, pc, Step(m, g, pc)) }

  lemma StepApplies(m: Mem, g: Log, pc: Pc)
    requires MemInv(m, g) && LocalInv(m, g, pc)
    ensures Applies(m, g, pc)
  {
    match pc
    case PushAlloc(x) => AllocApplies(m, g, x);
    case PushCas(np, was) => PublishApplies(m, g, np, was);
    case PopBack(prev) => EmptyApplies(m, g, prev);
    case PopPre(prev) => PreApplies(m, g, prev);
    case PopCas(prev, tail) => RemoveApplies(m, g, prev, tail);
    case RecCas(tail, was) => RecycleApplies(m, g, tail, was);
    case _ => SameData(m, g, pc);
  }

  lemma SameData(m: Mem, g: Log, pc: Pc)
    requires !pc.PushAlloc? && !pc.PushCas? && !pc.PopBack? && !pc.PopPre? && !pc.PopCas? && !pc.RecCas?
    ensures Applies(m, g, pc)
  {
    if pc.PopTail? || pc.PopFwd? || pc.PopWalk? || pc.PopStore? || pc.RecLoad? || pc.RecStore? {
      QuietPop(m, g, pc);
    } else {
      QuietPush(m, g, pc);
    }
    SameValues(m, Step(m, g, pc).m, g);
  }

  lemma QuietPop(m: Mem, g: Log, pc: Pc)
    requires pc.PopTail? || pc.PopFwd? || pc.PopWalk? || pc.PopStore? || pc.RecLoad? || pc.RecStore?
    ensures var o := Step(m, g, pc); o.m.data == m.data && o.g == g && o.ev == []
  {
  }

  lemma QuietPush(m: Mem, g: Log, pc: Pc)
    requires pc.Idle? || pc.PushLoad? || pc.PushStore? || pc.PushNext? || pc.PushPre? || pc.PushTail? || pc.PushRet?
             || pc.PopRet?
    ensures var o := Step(m, g, pc); o.m.data == m.data && o.g == g && o.ev == []
  {
  }

  lemma {:induction false} SameItems(m: Mem, m': Mem, nodes: seq<int>)
    requires forall i :: 0 <= i < |nodes| ==> DataAt(m', nodes[i]) == DataAt(m, nodes[i])
    ensures Items(m', nodes) == Items(m, nodes)
  {
    if nodes != [] { SameItems(m, m', nodes[..|nodes| - 1]); }
  }

  lemma SameValues(m: Mem, m': Mem, g: Log)
    requires m'.data == m.data
    ensures Values(m', g) == Values(m, g)
  {
    if |g.rem| <= |g.ins| { SameItems(m, m', g.ins[|g.rem|..]); }
  }

  /** The item of the first node comes first. */
  lemma {:induction false} ItemsFirst(m: Mem, nodes: seq<int>)
    requires nodes != []
    ensures Items(m, nodes) == [DataAt(m, nodes[0])] + Items(m, nodes[1..])
  {
    if |nodes| > 1 {
      ItemsFirst(m, nodes[..|nodes| - 1]);
      assert nodes[..|nodes| - 1][1..] == nodes[1..][..|nodes[1..]| - 1];
    }
  }

  lemma AllocApplies(m: Mem, g: Log, x: int)
    requires MemInv(m, g)
    ensures Applies(m, g, PushAlloc(x))
  {
    SameItems(m, Alloc(m, x), g.ins[|g.rem|..]);
    AllocSame(m, g, x);
  }

  lemma AllocSame(m: Mem, g: Log, x: int)
    requires |m.data| == |m.next| && Values(Alloc(m, x), g) == Values(m, g)
    ensures Applies(m, g, PushAlloc(x))
  {
  }

  lemma PublishApplies(m: Mem, g: Log, np: int, was: int)
    requires MemInv(m, g) && LocalInv(m, g, PushCas(np, was))
    ensures Applies(m, g, PushCas(np, was))
  {
    PublishValues(m, g, np);
    PublishStep(m, g, np, was);
    if m.next[HEAD] == was { PublishYields(m, g, np, was); }
  }

  lemma PublishStep(m: Mem, g: Log, np: int, was: int)
    requires Valid(m, HEAD) && Valid(m, np)
    ensures Step(m, g, PushCas(np, was)) ==
      if m.next[HEAD] == was
      then Out(m.(next := m.next[HEAD := np]), g.(ins := g.ins + [np]), [Enq(m.data[np])], PushNext(np))
      else Out(m, g, [], PushStore(np, m.next[HEAD]))
  {
  }

  lemma PublishYields(m: Mem, g: Log, np: int, was: int)
    requires Valid(m, HEAD) && Valid(m, np)
    requires Values(m.(next := m.next[HEAD := np]), g.(ins := g.ins + [np])) == Values(m, g) + [m.data[np]]
    ensures Yields(m, g, PushCas(np, was),
      Out(m.(next := m.next[HEAD := np]), g.(ins := g.ins + [np]), [Enq(m.data[np])], PushNext(np)))
  {
  }

  lemma PublishValues(m: Mem, g: Log, np: int)
    requires g.rem <= g.ins && Valid(m, np) && Valid(m, HEAD)
    ensures Values(m.(next := m.next[HEAD := np]), g.(ins := g.ins + [np])) == Values(m, g) + [m.data[np]]
  {
    var m', nodes := m.(next := m.next[HEAD := np]), g.ins[|g.rem|..];
    assert (g.ins + [np])[|g.rem|..] == nodes + [np];
    assert (nodes + [np])[..|nodes|] == nodes;
    SameItems(m, m', nodes);
  }

  lemma RemoveApplies(m: Mem, g: Log, prev: int, tail: int)
    requires MemInv(m, g) && LocalInv(m, g, PopCas(prev, tail))
    ensures Applies(m, g, PopCas(prev, tail))
  {
    PathValid(m, g, prev);
    RemoveStep(m, g, prev, tail);
    if m.next[prev] == tail {
      RemovesOldest(m, g, prev, tail);
      TailValues(m, g, prev);
      RemoveYields(m, g, prev, tail);
    }
  }

  lemma RemoveStep(m: Mem, g: Log, prev: int, tail: int)
    requires Valid(m, prev) && Valid(m, tail)
    ensures Step(m, g, PopCas(prev, tail)) ==
      if m.next[prev] == tail
      then Out(m.(next := m.next[prev := NULL]), g.(rem := g.rem + [tail]), [Deq(Some(m.data[tail]))],
        PopStore(prev, tail))
      else Out(m, g, [], PopTail)
  {
  }

  lemma RemoveYields(m: Mem, g: Log, prev: int, tail: int)
    requires Valid(m, prev) && Valid(m, tail)
    requires Values(m, g) == [DataAt(m, tail)] + Values(m.(next := m.next[prev := NULL]), g.(rem := g.rem + [tail]))
    ensures Yields(m, g, PopCas(prev, tail),
      Out(m.(next := m.next[prev := NULL]), g.(rem := g.rem + [tail]), [Deq(Some(m.data[tail]))], PopStore(prev, tail)))
  {
    ApplyDeq(Values(m, g), m.data[tail], Values(m.(next := m.next[prev := NULL]), g.(rem := g.rem + [tail])));
  }

  lemma ApplyDeq(q: seq<int>, x: int, rest: seq<int>)
    requires q == [x] + rest
    ensures Apply(q, Deq(Some(x))) == Some(rest)
  {
    assert q[1..] == rest;
  }

  lemma TailValues(m: Mem, g: Log, prev: int)
    requires Valid(m, prev) && |g.rem| < |g.ins|
    ensures var m', g' := m.(next := m.next[prev := NULL]), g.(rem := g.rem + [g.ins[|g.rem|]]);
      Values(m, g) == [DataAt(m, g.ins[|g.rem|])] + Values(m', g')
  {
    var m', nodes := m.(next := m.next[prev := NULL]), g.ins[|g.rem|..];
    assert nodes[1..] == g.ins[|g.rem| + 1..];
    SameItems(m, m', nodes[1..]);
    ItemsFirst(m, nodes);
  }

  lemma EmptyApplies(m: Mem, g: Log, prev: int)
    requires MemInv(m, g) && OnPath(g, prev)
    ensures Applies(m, g, PopBack(prev))
  {
    if prev == HEAD && m.next[HEAD] == NULL { NullHead(m, g); }
    BackApplies(m, g, prev);
  }

  lemma BackApplies(m: Mem, g: Log, prev: int)
    requires prev == HEAD && Valid(m, HEAD) && m.next[HEAD] == NULL ==> Values(m, g) == []
    ensures Applies(m, g, PopBack(prev))
  {
  }

  /** The head link is NULL exactly when the queue is empty. */
  lemma NullHead(m: Mem, g: Log)
    requires Shape(m, g)
    ensures m.next[HEAD] == NULL <==> Values(m, g) == []
  {
    if |g.ins| > |g.rem| { assert 0 < g.ins[|g.ins| - 1]; }
  }

  lemma PreApplies(m: Mem, g: Log, prev: int)
    requires MemInv(m, g) && OnPath(g, prev)
    ensures Applies(m, g, PopPre(prev))
  {
    PreOnPath(m, g, prev);
    PreEither(m, g, prev);
  }

  lemma PreEither(m: Mem, g: Log, prev: int)
    requires Valid(m, prev) && (m.pre[prev] == NULL <==> prev == HEAD)
    ensures Applies(m, g, PopPre(prev))
  {
  }

  lemma RecycleApplies(m: Mem, g: Log, tail: int, was: int)
    requires MemInv(m, g) && LocalInv(m, g, RecCas(tail, was))
    ensures Applies(m, g, RecCas(tail, was))
  {
    RecycleSame(m, g, tail, was);
  }

  lemma RecycleSame(m: Mem, g: Log, tail: int, was: int)
    requires Valid(m, tail)
    ensures Applies(m, g, RecCas(tail, was))
  {
    var o := Step(m, g, RecCas(tail, was));
    assert o.m.data == m.data && o.g.ins == g.ins && o.g.rem == g.rem && o.ev == [];
    SameValues(m, o.m, g);
  }

  lemma HistoryGrows(h: seq<Event>, e: Event, t: nat)
    ensures Contents(h + [e]) == (match Contents(h)
                                  case None => None
                                  case Some(q) => if e.Effect? then Apply(q, e.op) else Some(q))
    ensures PhaseOf(h + [e], t) == if e.t == t then Advance(PhaseOf(h, t), e) else PhaseOf(h, t)
  {
    assert (h + [e])[..|h|] == h;
  }

  lemma NextKeepsLinear(s: State, a: Action)
    requires Inv(s) && Linear(s)
    ensures Linear(Next(s, a))
  {
    if a.t < |s.pcs| {
      if a.Go? && !s.pcs[a.t].Idle? && !s.pcs[a.t].PushRet? && !s.pcs[a.t].PopRet? {
        StepApplies(s.m, s.g, s.pcs[a.t]);
        StepKeepsLinear(s, a.t);
      } else if Next(s, a) != s {
        CallKeepsLinear(s, a);
      }
    }
  }

  /** Adding one event of thread `t` to the history moves only the phase of `t`. */
  lemma OneEvent(s: State, e: Event, m': Mem, g': Log, pc': Pc)
    requires Linear(s) && e.t < |s.pcs|
    requires Some(Values(m', g')) == if e.Effect? then Apply(Values(s.m, s.g), e.op) else Some(Values(s.m, s.g))
    requires Expected(m', pc') == Advance(Expected(s.m, s.pcs[e.t]), e)
    requires forall u :: 0 <= u < |s.pcs| && u != e.t ==> Expected(m', s.pcs[u]) == Expected(s.m, s.pcs[u])
    ensures Linear(State(m', g', s.h + [e], s.pcs[e.t := pc']))
  {
    HistoryGrows(s.h, e, e.t);
    forall u | 0 <= u < |s.pcs|
      ensures PhaseOf(s.h + [e], u) == Expected(m', s.pcs[e.t := pc'][u])
    {
      HistoryGrows(s.h, e, u);
    }
  }

  lemma CallKeepsLinear(s: State, a: Action)
    requires Linear(s) && a.t < |s.pcs| && Next(s, a) != s
    requires a.Go? ==> s.pcs[a.t].PushRet? || s.pcs[a.t].PopRet?
    ensures Linear(Next(s, a))
  {
    var s' := Next(s, a);
    var e := s'.h[|s.h|];
    OneEvent(s, e, s.m, s.g, s'.pcs[a.t]);
  }

  lemma StepKeepsLinear(s: State, t: nat)
    requires Inv(s) && Linear(s) && t < |s.pcs| && Applies(s.m, s.g, s.pcs[t])
    ensures var o := Step(s.m, s.g, s.pcs[t]);
      Linear(State(o.m, o.g, s.h + Effects(t, o.ev), s.pcs[t := o.pc]))
  {
    var o := Step(s.m, s.g, s.pcs[t]);
    forall u | 0 <= u < |s.pcs| && u != t ensures Expected(o.m, s.pcs[u]) == Expected(s.m, s.pcs[u]) {
      OtherExpected(s.m, s.g, s.pcs[t], s.pcs[u]);
    }
    if o.ev == [] {
      assert s.h + Effects(t, o.ev) == s.h;
    } else {
      assert Effects(t, o.ev) == [Effect(t, o.ev[0])];
      OneEvent(s, Effect(t, o.ev[0]), o.m, o.g, o.pc);
    }
  }

  /** Data is written once, at allocation, so what another thread holds does not change its value. */
  lemma OtherExpected(m: Mem, g: Log, pc: Pc, other: Pc)
    requires MemInv(m, g) && LocalInv(m, g, pc) && LocalInv(m, g, other)
    ensures Expected(Step(m, g, pc).m, other) == Expected(m, other)
  {
    var v := Held(other);
    HeldIsValid(m, g, other);
    StepKeepsData(m, g, pc);
    assert 0 <= v < |m.data| ==> DataAt(Step(m, g, pc).m, v) == DataAt(m, v);
  }

  /** The node whose item a thread will answer with. */
  function Held(pc: Pc): int {
    match pc
    case PushLoad(np) => np
    case PushStore(np, _) => np
    case PushCas(np, _) => np
    case PushNext(np) => np
    case PushPre(np, _) => np
    case PushTail(np) => np
    case PushRet(np) => np
    case PopStore(_, tail) => tail
    case RecLoad(tail) => tail
    case RecStore(tail, _) => tail
    case RecCas(tail, _) => tail
    case _ => HEAD
  }

  lemma HeldIsValid(m: Mem, g: Log, pc: Pc)
    requires MemInv(m, g) && LocalInv(m, g, pc)
    ensures Valid(m, Held(pc))
  {
    if pc.PopStore? || pc.RecLoad? || pc.RecStore? || pc.RecCas? { RemNode(m, g, pc.tail); }
  }

  lemma StepKeepsData(m: Mem, g: Log, pc: Pc)
    ensures m.data <= Step(m, g, pc).m.data
  {
  }

  // ---------------------------------------------------------------------------------------------
  // Main results
  // ---------------------------------------------------------------------------------------------

  lemma InitKeeps(n: nat)
    ensures Inv(Init(n)) && Linear(Init(n)) && |Init(n).pcs| == n
  {
  }

  lemma NextThreads(s: State, a: Action)
    ensures |Next(s, a).pcs| == |s.pcs|
  {
  }

  lemma {:induction false} RunKeeps(n: nat, acts: seq<Action>)
    ensures var s := Run(Init(n), acts); Inv(s) && Linear(s) && |s.pcs| == n
  {
    if acts == [] {
      InitKeeps(n);
    } else {
      var s, a := Run(Init(n), acts[..|acts| - 1]), acts[|acts| - 1];
      RunKeeps(n, acts[..|acts| - 1]);
      NextKeepsInv(s, a);
      NextKeepsLinear(s, a);
      NextThreads(s, a);
    }
  }

  /** The nodes met by following `links` from `v`, at most `fuel` of them. */
  function Follow(links: seq<int>, v: int, fuel: nat): seq<int>
    decreases fuel
  {
    if fuel == 0 || !(0 <= v < |links|) then [] else [v] + Follow(links, links[v], fuel - 1)
  }

  /** Following the links from any queued node visits the older ones, newest first, and then stops. */
  lemma {:induction false} FollowQueue(links: seq<int>, g: Log, p: nat, fuel: nat)
    requires |g.rem| <= p <= |g.ins| && p <= fuel
    requires forall i :: 0 <= i < |g.ins| ==> 0 <= g.ins[i] < |links|
    requires forall i {:trigger LinkAt(g, i)} :: 0 <= i < |g.ins| ==> links[g.ins[i]] == LinkAt(g, i)
    ensures Follow(links, LinkAt(g, p), fuel) == Reverse(g.ins[|g.rem|..p])
    decreases p
  {
    if p > |g.rem| {
      var v, rest := g.ins[p - 1], g.ins[|g.rem|..p - 1];
      FollowQueue(links, g, p - 1, fuel - 1);
      assert LinkAt(g, p) == v && links[v] == LinkAt(g, p - 1);
      FollowOne(links, v, LinkAt(g, p - 1), fuel);
      ReverseSnoc(rest, v);
      assert g.ins[|g.rem|..p] == rest + [v];
    }
  }

  lemma FollowOne(links: seq<int>, v: int, w: int, fuel: nat)
    requires fuel > 0 && 0 <= v < |links| && links[v] == w
    ensures Follow(links, v, fuel) == [v] + Follow(links, w, fuel - 1)
  {
  }

  /** The head chain in memory, oldest node first, is what has been inserted and not removed. */
  lemma ChainIsQueue(m: Mem, g: Log)
    requires Shape(m, g)
    ensures Reverse(Follow(m.next, m.next[HEAD], |g.ins|)) == g.ins[|g.rem|..]
  {
    FollowQueue(m.next, g, |g.ins|, |g.ins|);
    assert g.ins[|g.rem|..|g.ins|] == g.ins[|g.rem|..];
    ReverseTwice(g.ins[|g.rem|..]);
  }

  /**
   Linearizability, for any number of threads and any interleaving. The effects replay on a sequential
   FIFO queue; every operation takes effect once, between its invocation and its return, and returns
   what the effect answered; and the chain of nodes in memory, from oldest to newest, is the replayed
   queue.
   */
  lemma Linearizable(n: nat, acts: seq<Action>)
    ensures var s := Run(Init(n), acts);
      && Contents(s.h).Some?
      && (forall t :: 0 <= t < n ==> PhaseOf(s.h, t) != Broken)
      && Valid(s.m, HEAD)
      && Contents(s.h) == Some(Items(s.m, Reverse(Follow(s.m.next, s.m.next[HEAD], |s.g.ins|))))
  {
    RunKeeps(n, acts);
    LinearState(Run(Init(n), acts));
  }

  lemma LinearState(s: State)
    requires Shape(s.m, s.g) && Linear(s)
    ensures Contents(s.h) == Some(Items(s.m, Reverse(Follow(s.m.next, s.m.next[HEAD], |s.g.ins|))))
    ensures forall t :: 0 <= t < |s.pcs| ==> PhaseOf(s.h, t) != Broken
  {
    assert Contents(s.h) == Some(Values(s.m, s.g));
    ChainIsQueue(s.m, s.g);
    NeverBroken(s);
  }

  lemma NeverBroken(s: State)
    requires Linear(s)
    ensures forall t :: 0 <= t < |s.pcs| ==> PhaseOf(s.h, t) != Broken
  {
    forall t | 0 <= t < |s.pcs| ensures PhaseOf(s.h, t) != Broken {
      assert PhaseOf(s.h, t) == Expected(s.m, s.pcs[t]);
    }
  }

  /** Items leave in the order they were put in: the removals are a prefix of the insertions. */
  lemma FirstInFirstOut(n: nat, acts: seq<Action>)
    ensures var s := Run(Init(n), acts);
      && Valid(s.m, HEAD) && NoDup(s.g.ins) && s.g.rem <= s.g.ins
      && s.g.ins == s.g.rem + Reverse(Follow(s.m.next, s.m.next[HEAD], |s.g.ins|))
  {
    RunKeeps(n, acts);
    ChainIsQueue(Run(Init(n), acts).m, Run(Init(n), acts).g);
  }

  lemma {:induction false} ContentsPrefix(h: seq<Event>, i: nat)
    requires Contents(h).Some? && i <= |h|
    ensures Contents(h[..i]).Some?
    ensures i < |h| && h[i].Effect? ==> Apply(Contents(h[..i]).value, h[i].op).Some?
  {
    if i < |h| {
      var front := h[..|h| - 1];
      assert front[..i] == h[..i];
      ContentsPrefix(front, i);
    } else {
      assert h[..i] == h;
    }
  }

  /** Where the operation a thread is in the middle of was called and where it took effect. */
  lemma {:induction false} EffectBeforeReturn(h: seq<Event>, t: nat) returns (k: nat, i: nat)
    requires PhaseOf(h, t).Done?
    ensures k < i < |h| && h[k].Invoke? && h[k].t == t && h[i] == Effect(t, PhaseOf(h, t).op)
    ensures forall j :: k < j < |h| && j != i ==> h[j].t != t
  {
    var last := |h| - 1;
    if h[last].t == t {
      i := last;
      k := InvokeBefore(h[..last], t);
    } else {
      k, i := EffectBeforeReturn(h[..last], t);
    }
  }

  lemma {:induction false} InvokeBefore(h: seq<Event>, t: nat) returns (k: nat)
    requires PhaseOf(h, t).Called?
    ensures k < |h| && h[k].Invoke? && h[k].t == t && forall j :: k < j < |h| ==> h[j].t != t
  {
    var last := |h| - 1;
    if h[last].t == t {
      k := last;
    } else {
      k := InvokeBefore(h[..last], t);
    }
  }

  /** A pop answers "empty" only if the queue was empty at some instant between its call and its return. */
  lemma EmptyAnswer(n: nat, acts: seq<Action>, t: nat) returns (k: nat, i: nat)
    requires t < |Run(Init(n), acts).pcs| && Run(Init(n), acts).pcs[t] == PopRet(None)
    ensures var h := Run(Init(n), acts).h;
      && k < i < |h| && h[k].Invoke? && h[k].t == t && h[i] == Effect(t, Deq(None))
      && (forall j :: k < j < |h| && j != i ==> h[j].t != t)
      && Contents(h[..i]) == Some([])
  {
    RunKeeps(n, acts);
    var s := Run(Init(n), acts);
    assert PhaseOf(s.h, t) == Expected(s.m, s.pcs[t]);
    k, i := EffectBeforeReturn(s.h, t);
    ContentsPrefix(s.h, i);
  }
}
