/**
 The lock-free FIFO queue of src/common/twi_nb_queue.c as an interleaved state machine.

 Nodes are numbered in allocation order; node 0 is the head embedded in the queue record. Every
 load, store and compare-and-swap of a shared cell is one step of one thread. `Next` is total: an
 action that makes no sense in a state leaves it unchanged, so a theorem about `Run(s, actions)`
 for all `actions` is a theorem about every interleaving.
 */
module NbQueue {
  import opened Common

  const NULL: int := -1
  const HEAD: int := 0

  /** The shared memory: one entry per allocated node, plus the two words of the queue record. */
  datatype Mem = Mem(
    next: seq<int>,
    pre: seq<int>,
    data: seq<int>,
    nextFree: seq<int>,
    tail: int,
    recycle: int)

  /** History: nodes in the order their insertion, removal and recycling compare-and-swap succeeded. */
  datatype Log = Log(ins: seq<int>, rem: seq<int>, rec: seq<int>)

  datatype Call = CallPush(x: int) | CallPop

  /** What an operation did to the abstract queue, with the value it answers. */
  datatype Op = Enq(x: int) | Deq(r: Option<int>)

  datatype Event =
    | Invoke(t: nat, call: Call)
    | Effect(t: nat, op: Op)
    | Return(t: nat, op: Op)

  /** Where a thread stands; each constructor but Idle names the shared access it does next. */
  datatype Pc =
    | Idle
    | PushAlloc(x: int)
    | PushLoad(np: int)
    | PushStore(np: int, was: int)
    | PushCas(np: int, was: int)
    | PushNext(np: int)
    | PushPre(np: int, cn: int)
    | PushTail(np: int)
    | PushRet(np: int)
    | PopTail
    | PopBack(prev: int)
    | PopPre(prev: int)
    | PopFwd(prev: int)
    | PopWalk(prev: int, tail: int)
    | PopCas(prev: int, tail: int)
    | PopStore(prev: int, tail: int)
    | RecLoad(tail: int)
    | RecStore(tail: int, was: int)
    | RecCas(tail: int, was: int)
    | PopRet(r: Option<int>)

  datatype Out = Out(m: Mem, g: Log, ev: seq<Op>, pc: Pc)

  // ---------------------------------------------------------------------------------------------
  // The steps
  // ---------------------------------------------------------------------------------------------

  predicate Valid(m: Mem, v: int) {
    && 0 <= v < |m.next|
    && |m.pre| == |m.next| && |m.data| == |m.next| && |m.nextFree| == |m.next|
  }

  function Alloc(m: Mem, x: int): Mem {
    m.(next := m.next + [NULL], pre := m.pre + [HEAD], data := m.data + [x], nextFree := m.nextFree + [NULL])
  }

  /** One step of a push. */
  function PushStep(m: Mem, g: Log, pc: Pc): Out {
    match pc
    case PushAlloc(x) => Out(Alloc(m, x), g, [], PushLoad(|m.next|))
    case PushLoad(np) =>
      if !Valid(m, HEAD) then Out(m, g, [], pc) else Out(m, g, [], PushStore(np, m.next[HEAD]))
    case PushStore(np, was) =>
      if !Valid(m, np) then Out(m, g, [], pc) else Out(m.(next := m.next[np := was]), g, [], PushCas(np, was))
    case PushCas(np, was) =>
      if !Valid(m, HEAD) || !Valid(m, np) then Out(m, g, [], pc)
      else if m.next[HEAD] == was then
        Out(m.(next := m.next[HEAD := np]), g.(ins := g.ins + [np]), [Enq(m.data[np])], PushNext(np))
      else Out(m, g, [], PushStore(np, m.next[HEAD]))
    case PushNext(np) =>
      if !Valid(m, np) then Out(m, g, [], pc)
      else if m.next[np] != NULL then Out(m, g, [], PushPre(np, m.next[np]))
      else Out(m, g, [], PushTail(np))
    case PushPre(np, cn) =>
      if !Valid(m, cn) then Out(m, g, [], pc) else Out(m.(pre := m.pre[cn := np]), g, [], PushRet(np))
    case PushTail(np) => Out(m.(tail := np), g, [], PushRet(np))
    case _ => Out(m, g, [], pc)
  }

  /** One step of a pop, up to and including the removal and the tail update. */
  function PopStep(m: Mem, g: Log, pc: Pc): Out {
    match pc
    case PopTail => Out(m, g, [], PopBack(m.tail))
    case PopBack(prev) =>
      if !Valid(m, prev) then Out(m, g, [], pc)
      else if m.next[prev] == NULL then Out(m, g, if prev == HEAD then [Deq(None)] else [], PopPre(prev))
      else Out(m, g, [], PopFwd(prev))
    case PopPre(prev) =>
      if !Valid(m, prev) then Out(m, g, [], pc)
      else if m.pre[prev] == NULL then Out(m, g, [], PopRet(None))
      else Out(m, g, [], PopBack(m.pre[prev]))
    case PopFwd(prev) =>
      if !Valid(m, prev) then Out(m, g, [], pc)
      else if m.next[prev] == NULL then Out(m, g, [], PopTail)
      else Out(m, g, [], PopWalk(prev, m.next[prev]))
    case PopWalk(prev, tail) =>
      if !Valid(m, tail) then Out(m, g, [], pc)
      else if m.next[tail] != NULL then Out(m, g, [], PopWalk(tail, m.next[tail]))
      else Out(m, g, [], PopCas(prev, tail))
    case PopCas(prev, tail) =>
      if !Valid(m, prev) || !Valid(m, tail) then Out(m, g, [], pc)
      else if m.next[prev] == tail then
        Out(m.(next := m.next[prev := NULL]), g.(rem := g.rem + [tail]), [Deq(Some(m.data[tail]))],
          PopStore(prev, tail))
      else Out(m, g, [], PopTail)
    case PopStore(prev, tail) => Out(m.(tail := prev), g, [], RecLoad(tail))
    case _ => Out(m, g, [], pc)
  }

  /** One step of putting a removed node on the recycle chain. */
  function RecStep(m: Mem, g: Log, pc: Pc): Out {
    match pc
    case RecLoad(tail) => Out(m, g, [], RecStore(tail, m.recycle))
    case RecStore(tail, was) =>
      if !Valid(m, tail) then Out(m, g, [], pc)
      else Out(m.(nextFree := m.nextFree[tail := was]), g, [], RecCas(tail, was))
    case RecCas(tail, was) =>
      if !Valid(m, tail) then Out(m, g, [], pc)
      else if m.recycle == was then
        Out(m.(recycle := tail), g.(rec := g.rec + [tail]), [], PopRet(Some(m.data[tail])))
      else Out(m, g, [], RecStore(tail, m.recycle))
    case _ => Out(m, g, [], pc)
  }

  function Step(m: Mem, g: Log, pc: Pc): Out {
    if pc.PopTail? || pc.PopBack? || pc.PopPre? || pc.PopFwd? || pc.PopWalk? || pc.PopCas? || pc.PopStore?
    then PopStep(m, g, pc)
    else if pc.RecLoad? || pc.RecStore? || pc.RecCas? then RecStep(m, g, pc)
    else PushStep(m, g, pc)
  }

  // ---------------------------------------------------------------------------------------------
  // The memory invariant
  // ---------------------------------------------------------------------------------------------

  /** A walk may stand on `v`: it is the head or a node that has been inserted. */
  predicate OnPath(g: Log, v: int) { v == HEAD || v in g.ins }

  /** Node `v` was inserted after the node at position `p`, or is the head. */
  ghost predicate Later(g: Log, p: nat, v: int) {
    v == HEAD || exists q :: p < q < |g.ins| && g.ins[q] == v
  }

  /** The link of the node inserted `p`-th: to its predecessor while that one is still in the queue. */
  function LinkAt(g: Log, p: nat): int
    requires p <= |g.ins|
  {
    if p > |g.rem| then g.ins[p - 1] else NULL
  }

  function RecLink(g: Log, i: nat): int
    requires i <= |g.rec|
  {
    if i == 0 then NULL else g.rec[i - 1]
  }

  ghost predicate Shape(m: Mem, g: Log) {
    && Valid(m, HEAD)
    && NoDup(g.ins)
    && (forall p :: 0 <= p < |g.ins| ==> 0 < g.ins[p] < |m.next|)
    && g.rem <= g.ins
    && m.next[HEAD] == LinkAt(g, |g.ins|)
    && (forall p {:trigger LinkAt(g, p)} :: 0 <= p < |g.ins| ==> m.next[g.ins[p]] == LinkAt(g, p))
  }

  ghost predicate Hints(m: Mem, g: Log)
    requires Shape(m, g)
  {
    && m.pre[HEAD] == NULL
    && OnPath(g, m.tail)
    && (forall p :: 0 <= p < |g.ins| ==> Later(g, p, m.pre[g.ins[p]]))
  }

  ghost predicate Recycled(m: Mem, g: Log)
    requires Shape(m, g)
  {
    && NoDup(g.rec)
    && (forall v :: v in g.rec ==> v in g.rem)
    && (forall i :: 0 <= i < |g.rec| ==> 0 < g.rec[i] < |m.next|)
    && m.recycle == RecLink(g, |g.rec|)
    && (forall i {:trigger RecLink(g, i)} :: 0 <= i < |g.rec| ==> m.nextFree[g.rec[i]] == RecLink(g, i))
  }

  ghost predicate MemInv(m: Mem, g: Log) {
    Shape(m, g) && Hints(m, g) && Recycled(m, g)
  }

  ghost predicate Unpublished(m: Mem, g: Log, np: int) {
    Valid(m, np) && np != HEAD && np !in g.ins && m.pre[np] == HEAD
  }

  ghost predicate Before(g: Log, a: int, b: int) {
    exists p, q :: 0 <= p < q < |g.ins| && g.ins[p] == a && g.ins[q] == b
  }

  /** What a thread may rely on about its own local variables. */
  ghost predicate LocalInv(m: Mem, g: Log, pc: Pc) {
    match pc
    case PushLoad(np) => Unpublished(m, g, np)
    case PushStore(np, _) => Unpublished(m, g, np)
    case PushCas(np, was) => Unpublished(m, g, np) && m.next[np] == was
    case PushNext(np) => np in g.ins
    case PushPre(np, cn) => Before(g, cn, np)
    case PushTail(np) => np in g.ins
    case PushRet(np) => np in g.ins
    case PopBack(prev) => OnPath(g, prev)
    case PopPre(prev) => OnPath(g, prev)
    case PopFwd(prev) => OnPath(g, prev)
    case PopWalk(prev, tail) => OnPath(g, prev) && tail in g.ins
    case PopCas(prev, tail) => OnPath(g, prev) && tail in g.ins && Valid(m, tail) && m.next[tail] == NULL
    case PopStore(prev, tail) => OnPath(g, prev) && tail in g.rem && tail !in g.rec
    case RecLoad(tail) => tail in g.rem && tail !in g.rec
    case RecStore(tail, _) => tail in g.rem && tail !in g.rec
    case RecCas(tail, was) => tail in g.rem && tail !in g.rec && Valid(m, tail) && m.nextFree[tail] == was
    case _ => true
  }

  /** The node a thread has to itself: one it has not published yet or one it has just removed. */
  function Own(pc: Pc): int {
    match pc
    case PushLoad(np) => np
    case PushStore(np, _) => np
    case PushCas(np, _) => np
    case PopStore(_, tail) => tail
    case RecLoad(tail) => tail
    case RecStore(tail, _) => tail
    case RecCas(tail, _) => tail
    case _ => NULL
  }

  /** What any number of steps by threads that do not own `mine` may do to the memory. */
  ghost predicate Evolves(m: Mem, g: Log, m': Mem, g': Log, mine: int) {
    && |m.next| <= |m'.next| && g.ins <= g'.ins && g.rem <= g'.rem && g.rec <= g'.rec
    && m.data <= m'.data
    && (mine !in g.ins ==> mine !in g'.ins)
    && (mine !in g.rec ==> mine !in g'.rec)
    && (Valid(m, mine) && mine != HEAD && mine !in g.ins ==>
          Valid(m', mine) && m'.next[mine] == m.next[mine] && m'.pre[mine] == m.pre[mine])
    && (Valid(m, mine) && mine in g.rem && mine !in g.rec ==>
          Valid(m', mine) && m'.nextFree[mine] == m.nextFree[mine])
  }

  // ---------------------------------------------------------------------------------------------
  // Every step keeps the memory invariant and what other threads rely on
  // ---------------------------------------------------------------------------------------------

  lemma LaterGrows(g: Log, g': Log, p: nat, v: int)
    requires g.ins <= g'.ins && Later(g, p, v)
    ensures Later(g', p, v)
  {
    if v != HEAD {
      var q :| p < q < |g.ins| && g.ins[q] == v;
      assert g'.ins[q] == v;
    }
  }

  lemma HintsGrow(m: Mem, g: Log, m': Mem, g': Log)
    requires Shape(m, g) && Shape(m', g') && Hints(m, g)
    requires g.ins <= g'.ins && m'.pre[HEAD] == NULL && OnPath(g', m'.tail)
    requires forall p :: 0 <= p < |g.ins| ==> m'.pre[g.ins[p]] == m.pre[g.ins[p]]
    requires forall p :: |g.ins| <= p < |g'.ins| ==> m'.pre[g'.ins[p]] == HEAD
    ensures Hints(m', g')
  {
    forall p | 0 <= p < |g'.ins| ensures Later(g', p, m'.pre[g'.ins[p]]) {
      if p < |g.ins| {
        LaterGrows(g, g', p, m.pre[g.ins[p]]);
      }
    }
  }

  lemma AllocKeeps(m: Mem, g: Log, x: int)
    requires MemInv(m, g)
    ensures MemInv(Alloc(m, x), g) && Unpublished(Alloc(m, x), g, |m.next|)
  {
    HintsGrow(m, g, Alloc(m, x), g);
    RecycledStays(m, g, Alloc(m, x), g);
  }

  lemma RecycledStays(m: Mem, g: Log, m': Mem, g': Log)
    requires Shape(m, g) && Shape(m', g') && Recycled(m, g)
    requires g.rem <= g'.rem && g'.rec == g.rec && |m.next| <= |m'.next|
    requires m'.nextFree[..|m.next|] == m.nextFree && m'.recycle == m.recycle
    ensures Recycled(m', g')
  {
    forall v | v in g.rec ensures v in g'.rem {
      InPrefix(g.rem, g'.rem, v);
    }
    forall i | 0 <= i < |g.rec| ensures m'.nextFree[g.rec[i]] == RecLink(g, i) {
      assert m'.nextFree[g.rec[i]] == m'.nextFree[..|m.next|][g.rec[i]] == m.nextFree[g.rec[i]];
    }
  }

  lemma RecycledSame(m: Mem, g: Log, m': Mem)
    requires Shape(m, g) && Recycled(m, g) && Shape(m', g) && |m'.next| == |m.next|
    requires m'.nextFree == m.nextFree && m'.recycle == m.recycle
    ensures Recycled(m', g)
  {
  }

  lemma InPrefix(s: seq<int>, t: seq<int>, v: int)
    requires s <= t && v in s
    ensures v in t
  {
    var i :| 0 <= i < |s| && s[i] == v;
    assert t[i] == v;
  }

  /** A successful compare-and-swap in push adds at the front of the head chain. */
  lemma PublishKeeps(m: Mem, g: Log, np: int)
    requires MemInv(m, g) && Unpublished(m, g, np) && m.next[np] == m.next[HEAD]
    ensures MemInv(m.(next := m.next[HEAD := np]), g.(ins := g.ins + [np]))
  {
    var m', g' := m.(next := m.next[HEAD := np]), g.(ins := g.ins + [np]);
    PublishShape(m, g, np);
    HintsGrow(m, g, m', g');
    RecycledStays(m, g, m', g');
  }

  lemma PublishShape(m: Mem, g: Log, np: int)
    requires Shape(m, g) && Valid(m, np) && np != HEAD && np !in g.ins && m.next[np] == m.next[HEAD]
    ensures Shape(m.(next := m.next[HEAD := np]), g.(ins := g.ins + [np]))
  {
    var m', g' := m.(next := m.next[HEAD := np]), g.(ins := g.ins + [np]);
    forall p | 0 <= p < |g'.ins| ensures m'.next[g'.ins[p]] == LinkAt(g', p) {
      if p < |g.ins| {
        assert g'.ins[p] == g.ins[p] && m.next[g.ins[p]] == LinkAt(g, p);
      } else {
        assert g'.ins[p] == np;
      }
    }
  }

  /** Where the link of a node on a path can point: only backwards in insertion order. */
  lemma LinkTarget(m: Mem, g: Log, prev: int) returns (b: nat)
    requires Shape(m, g) && OnPath(g, prev) && m.next[prev] != NULL
    ensures |g.rem| < b <= |g.ins| && m.next[prev] == g.ins[b - 1]
    ensures if prev == HEAD then b == |g.ins| else b < |g.ins| && prev == g.ins[b]
  {
    if prev == HEAD {
      b := |g.ins|;
    } else {
      b :| 0 <= b < |g.ins| && g.ins[b] == prev;
    }
    assert m.next[prev] == LinkAt(g, b);
  }

  /** A node with a NULL link is the oldest in the queue or has left it. */
  lemma NullLink(m: Mem, g: Log, tail: int) returns (a: nat)
    requires Shape(m, g) && tail in g.ins && m.next[tail] == NULL
    ensures a < |g.ins| && g.ins[a] == tail && a <= |g.rem|
  {
    a :| 0 <= a < |g.ins| && g.ins[a] == tail;
    assert m.next[tail] == LinkAt(g, a);
  }

  /** A successful compare-and-swap in pop removes exactly the oldest node of the head chain. */
  lemma RemovesOldest(m: Mem, g: Log, prev: int, tail: int)
    requires Shape(m, g) && OnPath(g, prev) && tail in g.ins && m.next[tail] == NULL && m.next[prev] == tail
    ensures |g.rem| < |g.ins| && tail == g.ins[|g.rem|] && tail !in g.rem
    ensures prev == if |g.rem| + 1 == |g.ins| then HEAD else g.ins[|g.rem| + 1]
  {
    var a := NullLink(m, g, tail);
    assert tail > 0;
    var b := LinkTarget(m, g, prev);
    assert g.ins[b - 1] == g.ins[a];
    assert a == b - 1;
    forall i | 0 <= i < |g.rem| ensures g.rem[i] != tail {
      assert g.rem[i] == g.ins[i];
    }
  }

  lemma RemoveShape(m: Mem, g: Log, prev: int, tail: int)
    requires Shape(m, g) && |g.rem| < |g.ins| && tail == g.ins[|g.rem|]
    requires prev == if |g.rem| + 1 == |g.ins| then HEAD else g.ins[|g.rem| + 1]
    ensures Shape(m.(next := m.next[prev := NULL]), g.(rem := g.rem + [tail]))
  {
    var m', g' := m.(next := m.next[prev := NULL]), g.(rem := g.rem + [tail]);
    assert g'.rem == g.ins[..|g.rem| + 1];
    forall p | 0 <= p < |g.ins| ensures m'.next[g.ins[p]] == LinkAt(g', p) {
      RemoveLink(m, g, prev, tail, p);
    }
    assert m.next[HEAD] == LinkAt(g, |g.ins|);
  }

  lemma RemoveLink(m: Mem, g: Log, prev: int, tail: int, p: nat)
    requires Valid(m, HEAD) && NoDup(g.ins) && p < |g.ins| && 0 < g.ins[p] < |m.next|
    requires |g.rem| < |g.ins| && m.next[g.ins[p]] == LinkAt(g, p)
    requires prev == if |g.rem| + 1 == |g.ins| then HEAD else g.ins[|g.rem| + 1]
    ensures 0 <= prev < |m.next| ==> m.next[prev := NULL][g.ins[p]] == LinkAt(g.(rem := g.rem + [tail]), p)
  {
  }

  lemma RemoveKeeps(m: Mem, g: Log, prev: int, tail: int)
    requires MemInv(m, g) && OnPath(g, prev) && tail in g.ins && m.next[tail] == NULL && m.next[prev] == tail
    ensures MemInv(m.(next := m.next[prev := NULL]), g.(rem := g.rem + [tail]))
  {
    RemovesOldest(m, g, prev, tail);
    RemoveShape(m, g, prev, tail);
    HintsGrow(m, g, m.(next := m.next[prev := NULL]), g.(rem := g.rem + [tail]));
    RecycledStays(m, g, m.(next := m.next[prev := NULL]), g.(rem := g.rem + [tail]));
  }

  lemma PreKeeps(m: Mem, g: Log, np: int, cn: int)
    requires MemInv(m, g) && Before(g, cn, np)
    ensures Valid(m, cn) && MemInv(m.(pre := m.pre[cn := np]), g)
  {
    var a, b :| 0 <= a < b < |g.ins| && g.ins[a] == cn && g.ins[b] == np;
    PreHints(m, g, a, b);
    RecycledSame(m, g, m.(pre := m.pre[cn := np]));
  }

  lemma PreHints(m: Mem, g: Log, a: nat, b: nat)
    requires Shape(m, g) && Hints(m, g) && a < b < |g.ins|
    ensures Valid(m, g.ins[a])
    ensures var m' := m.(pre := m.pre[g.ins[a] := g.ins[b]]); Shape(m', g) && Hints(m', g)
  {
    var m' := m.(pre := m.pre[g.ins[a] := g.ins[b]]);
    assert Shape(m', g);
    forall p | 0 <= p < |g.ins| ensures Later(g, p, m'.pre[g.ins[p]]) {
      if p == a { assert Later(g, a, g.ins[b]); } else { assert g.ins[p] != g.ins[a] && Later(g, p, m.pre[g.ins[p]]); }
    }
  }

  lemma StoreKeeps(m: Mem, g: Log, np: int, was: int)
    requires MemInv(m, g) && Unpublished(m, g, np)
    ensures MemInv(m.(next := m.next[np := was]), g)
  {
    var m' := m.(next := m.next[np := was]);
    HintsGrow(m, g, m', g);
    RecycledStays(m, g, m', g);
  }

  lemma PushStepKeeps(m: Mem, g: Log, pc: Pc)
    requires MemInv(m, g) && LocalInv(m, g, pc)
    ensures var o := PushStep(m, g, pc); MemInv(o.m, o.g) && LocalInv(o.m, o.g, o.pc)
  {
    match pc
    case PushAlloc(x) => AllocKeeps(m, g, x);
    case PushStore(np, was) => StoreKeeps(m, g, np, was);
    case PushCas(np, was) =>
      if m.next[HEAD] == was { PublishKeeps(m, g, np); }
    case PushNext(np) =>
      if m.next[np] != NULL {
        var b := LinkTarget(m, g, np);
        assert Before(g, g.ins[b - 1], g.ins[b]);
      }
    case PushPre(np, cn) => PreKeeps(m, g, np, cn);
    case PushTail(np) => RecycledStays(m, g, m.(tail := np), g);
    case _ =>
  }

  lemma PopWalkKeeps(m: Mem, g: Log, pc: Pc)
    requires MemInv(m, g) && LocalInv(m, g, pc) && (pc.PopFwd? || pc.PopWalk?)
    ensures var o := PopStep(m, g, pc); o.m == m && o.g == g && LocalInv(m, g, o.pc)
  {
    var v := if pc.PopFwd? then pc.prev else pc.tail;
    PathValid(m, g, v);
    if m.next[v] != NULL { var b := LinkTarget(m, g, v); }
  }

  lemma PathValid(m: Mem, g: Log, v: int)
    requires Shape(m, g) && OnPath(g, v)
    ensures Valid(m, v)
  {
    if v != HEAD { var p :| 0 <= p < |g.ins| && g.ins[p] == v; }
  }

  lemma TailKeeps(m: Mem, g: Log, v: int)
    requires MemInv(m, g) && OnPath(g, v)
    ensures MemInv(m.(tail := v), g)
  {
    RecycledStays(m, g, m.(tail := v), g);
  }

  lemma PopStepKeeps(m: Mem, g: Log, pc: Pc)
    requires MemInv(m, g) && LocalInv(m, g, pc)
    ensures var o := PopStep(m, g, pc); MemInv(o.m, o.g) && LocalInv(o.m, o.g, o.pc)
  {
    if pc.PopFwd? || pc.PopWalk? {
      PopWalkKeeps(m, g, pc);
    } else if pc.PopCas? {
      PopCasKeeps(m, g, pc.prev, pc.tail);
    } else if pc.PopPre? {
      PreOnPath(m, g, pc.prev);
    } else if pc.PopStore? {
      TailKeeps(m, g, pc.prev);
    }
  }

  lemma PopCasKeeps(m: Mem, g: Log, prev: int, tail: int)
    requires MemInv(m, g) && LocalInv(m, g, PopCas(prev, tail))
    ensures Valid(m, prev)
    ensures var o := PopStep(m, g, PopCas(prev, tail)); MemInv(o.m, o.g) && LocalInv(o.m, o.g, o.pc)
  {
    PathValid(m, g, prev);
    if m.next[prev] == tail {
      RemovesOldest(m, g, prev, tail);
      RemoveKeeps(m, g, prev, tail);
      RemoveLocal(m, g, prev, tail);
    }
  }

  lemma RemoveLocal(m: Mem, g: Log, prev: int, tail: int)
    requires Shape(m, g) && Recycled(m, g) && OnPath(g, prev) && tail !in g.rem
    ensures Valid(m, prev)
      && LocalInv(m.(next := m.next[prev := NULL]), g.(rem := g.rem + [tail]), PopStore(prev, tail))
  {
    PathValid(m, g, prev);
    assert (g.rem + [tail])[|g.rem|] == tail;
  }

  lemma PreOnPath(m: Mem, g: Log, prev: int)
    requires MemInv(m, g) && OnPath(g, prev)
    ensures m.pre[prev] == NULL <==> prev == HEAD
    ensures prev != HEAD ==> OnPath(g, m.pre[prev])
  {
    if prev != HEAD {
      var p :| 0 <= p < |g.ins| && g.ins[p] == prev;
      assert Later(g, p, m.pre[g.ins[p]]);
    }
  }

  lemma RecStoreKeeps(m: Mem, g: Log, tail: int, was: int)
    requires MemInv(m, g) && tail in g.rem && tail !in g.rec && Valid(m, tail)
    ensures MemInv(m.(nextFree := m.nextFree[tail := was]), g)
  {
    var m' := m.(nextFree := m.nextFree[tail := was]);
    HintsGrow(m, g, m', g);
    forall i | 0 <= i < |g.rec| ensures m'.nextFree[g.rec[i]] == RecLink(g, i) {
      assert g.rec[i] != tail;
    }
  }

  lemma SameShape(m: Mem, g: Log, m': Mem, g': Log)
    requires Shape(m, g) && m'.next == m.next && g'.ins == g.ins && g'.rem == g.rem && Valid(m', HEAD)
    ensures Shape(m', g')
  {
    forall p | 0 <= p < |g.ins| ensures m'.next[g.ins[p]] == LinkAt(g', p) { assert m.next[g.ins[p]] == LinkAt(g, p); }
    assert LinkAt(g', |g.ins|) == LinkAt(g, |g.ins|);
  }

  lemma RecPushKeeps(m: Mem, g: Log, tail: int)
    requires MemInv(m, g) && tail in g.rem && tail !in g.rec && Valid(m, tail) && tail != HEAD
      && m.nextFree[tail] == m.recycle
    ensures MemInv(m.(recycle := tail), g.(rec := g.rec + [tail]))
  {
    var m', g' := m.(recycle := tail), g.(rec := g.rec + [tail]);
    SameShape(m, g, m', g');
    HintsGrow(m, g, m', g');
    RecPushChain(m, g, tail);
  }

  lemma RecPushChain(m: Mem, g: Log, tail: int)
    requires Shape(m, g) && Recycled(m, g) && Shape(m.(recycle := tail), g.(rec := g.rec + [tail]))
    requires tail in g.rem && tail !in g.rec && 0 < tail < |m.next| && m.nextFree[tail] == m.recycle
    ensures Recycled(m.(recycle := tail), g.(rec := g.rec + [tail]))
  {
    var rec := g.rec + [tail];
    forall v | v in rec ensures v in g.rem { assert v in g.rec || v == tail; }
    RecPushLinks(m.nextFree, g, tail, |m.next|);
    assert NoDup(rec);
  }

  lemma RecPushLinks(nextFree: seq<int>, g: Log, tail: int, n: nat)
    requires n == |nextFree| && 0 < tail < n && nextFree[tail] == RecLink(g, |g.rec|)
    requires forall i :: 0 <= i < |g.rec| ==> 0 < g.rec[i] < n && nextFree[g.rec[i]] == RecLink(g, i)
    ensures var g' := g.(rec := g.rec + [tail]);
      forall i :: 0 <= i < |g'.rec| ==> 0 < g'.rec[i] < n && nextFree[g'.rec[i]] == RecLink(g', i)
  {
    var rec := g.rec + [tail];
    forall i | 0 <= i < |rec| ensures 0 < rec[i] < n && nextFree[rec[i]] == RecLink(g.(rec := rec), i) {
      if i < |g.rec| { assert rec[i] == g.rec[i]; }
    }
  }

  lemma RecStepKeeps(m: Mem, g: Log, pc: Pc)
    requires MemInv(m, g) && LocalInv(m, g, pc)
    ensures var o := RecStep(m, g, pc); MemInv(o.m, o.g) && LocalInv(o.m, o.g, o.pc)
  {
    if pc.RecStore? {
      RemNode(m, g, pc.tail);
      RecStoreKeeps(m, g, pc.tail, pc.was);
    } else if pc.RecCas? {
      RemNode(m, g, pc.tail);
      if m.recycle == pc.was { RecPushKeeps(m, g, pc.tail); }
    }
  }

  lemma RemNode(m: Mem, g: Log, v: int)
    requires Shape(m, g) && v in g.rem
    ensures v in g.ins && 0 < v < |m.next|
  {
    InPrefix(g.rem, g.ins, v);
  }

  lemma StepKeeps(m: Mem, g: Log, pc: Pc)
    requires MemInv(m, g) && LocalInv(m, g, pc)
    ensures var o := Step(m, g, pc); MemInv(o.m, o.g) && LocalInv(o.m, o.g, o.pc)
  {
    if pc.PopTail? || pc.PopBack? || pc.PopPre? || pc.PopFwd? || pc.PopWalk? || pc.PopCas? || pc.PopStore? {
      PopStepKeeps(m, g, pc);
    } else if pc.RecLoad? || pc.RecStore? || pc.RecCas? {
      RecStepKeeps(m, g, pc);
    } else {
      PushStepKeeps(m, g, pc);
    }
  }

  /** A step is invisible to a thread that owns some other node, beyond what `Evolves` allows. */
  lemma StepEvolves(m: Mem, g: Log, pc: Pc, mine: int)
    requires MemInv(m, g) && LocalInv(m, g, pc)
    requires mine == NULL || (Valid(m, mine) && mine != Own(pc))
    ensures var o := Step(m, g, pc); Evolves(m, g, o.m, o.g, mine)
  {
    if pc.PushAlloc? || pc.PushStore? || pc.PushPre? {
      WriteEvolves(m, g, pc, mine);
    } else if pc.PushCas? {
      PushCasEvolves(m, g, pc.np, pc.was, mine);
    } else if pc.PopCas? {
      PopCasEvolves(m, g, pc.prev, pc.tail, mine);
    } else if pc.RecStore? || pc.RecCas? {
      RecEvolves(m, g, pc, mine);
    } else {
      SameNodes(m, g, pc, mine);
    }
  }

  lemma WriteEvolves(m: Mem, g: Log, pc: Pc, mine: int)
    requires MemInv(m, g) && LocalInv(m, g, pc) && (mine == NULL || (Valid(m, mine) && mine != Own(pc)))
    requires pc.PushAlloc? || pc.PushStore? || pc.PushPre?
    ensures var o := PushStep(m, g, pc); Evolves(m, g, o.m, o.g, mine)
  {
  }

  lemma SameNodes(m: Mem, g: Log, pc: Pc, mine: int)
    requires MemInv(m, g) && LocalInv(m, g, pc)
    requires !pc.PushAlloc? && !pc.PushStore? && !pc.PushCas? && !pc.PushPre?
    requires !pc.PopCas? && !pc.RecStore? && !pc.RecCas?
    ensures var o := Step(m, g, pc); Evolves(m, g, o.m, o.g, mine)
  {
    var o := Step(m, g, pc);
    assert o.g == g && (o.m == m || o.m == m.(tail := o.m.tail));
  }

  lemma PushCasEvolves(m: Mem, g: Log, np: int, was: int, mine: int)
    requires MemInv(m, g) && LocalInv(m, g, PushCas(np, was)) && (mine == NULL || Valid(m, mine)) && mine != np
    ensures var o := PushStep(m, g, PushCas(np, was)); Evolves(m, g, o.m, o.g, mine)
  {
  }

  lemma PopCasEvolves(m: Mem, g: Log, prev: int, tail: int, mine: int)
    requires MemInv(m, g) && LocalInv(m, g, PopCas(prev, tail)) && (mine == NULL || Valid(m, mine))
    ensures var o := PopStep(m, g, PopCas(prev, tail)); Evolves(m, g, o.m, o.g, mine)
  {
    PopCasKeeps(m, g, prev, tail);
  }

  lemma RecEvolves(m: Mem, g: Log, pc: Pc, mine: int)
    requires MemInv(m, g) && LocalInv(m, g, pc) && (mine == NULL || Valid(m, mine)) && mine != Own(pc)
    ensures var o := RecStep(m, g, pc); Evolves(m, g, o.m, o.g, mine)
  {
  }

  lemma LocalStable(m: Mem, g: Log, m': Mem, g': Log, pc: Pc)
    requires MemInv(m, g) && LocalInv(m, g, pc) && MemInv(m', g') && Evolves(m, g, m', g', Own(pc))
    ensures LocalInv(m', g', pc)
  {
    match pc
    case PushPre(np, cn) =>
      var a, b :| 0 <= a < b < |g.ins| && g.ins[a] == cn && g.ins[b] == np;
      assert g'.ins[a] == cn && g'.ins[b] == np;
    case PopCas(prev, tail) =>
      var a := NullLink(m, g, tail);
      assert g'.ins[a] == tail && m'.next[tail] == LinkAt(g', a);
    case _ =>
  }
}
