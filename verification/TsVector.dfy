/**
 Concurrent appends to the vector of src/common/twi_ts_vector.c:135-156 and 335-363: any number of threads
 push at the same time, under a readers-writer lock that only growing takes for writing. Taking and giving up
 the lock, the ticket, the size check, the reallocation, the new capacity and the write are one step each.
 */
module TsVector {
  import opened Common

  const INIT_SIZE := 32
  const ALLOC_MULTIPLIER := 20

  datatype Pc =
    | Idle
    | Locked(x: nat)
    | Check(x: nat, i: nat)
    | Release(x: nat, i: nat)
    | Expand(x: nat, i: nat)
    | Realloc(x: nat, i: nat)
    | Publish(x: nat, i: nat)
    | WriteUnlock(x: nat, i: nat)
    | Relock(x: nat, i: nat)
    | Write(x: nat, i: nat)
    | Unlock

  /** One append: who made it, and what was appended. */
  datatype Push = Push(t: nat, x: nat)

  /** A slot never written holds None. `begun` and `order` are history: the pushes by call and by ticket. */
  datatype State = State(
    size: nat,
    nalloc: nat,
    data: seq<Option<nat>>,
    threads: seq<Pc>,
    begun: seq<Push>,
    order: seq<Push>)

  datatype Action = Begin(t: nat, x: nat) | Go(t: nat)

  /** The capacity the growth loop ends with. */
  function Capacity(n: nat, need: nat): (c: nat)
    requires n > 0
    ensures c >= n && c >= need
    decreases need - n
  {
    if n < need then Capacity(n * ALLOC_MULTIPLIER, need) else n
  }

  function Filled(pre: seq<nat>): seq<Option<nat>> { seq(|pre|, i requires 0 <= i < |pre| => Some(pre[i])) }

  /** A vector that holds `pre`, with `spare` unused slots, and `n` threads. */
  function Start(pre: seq<nat>, spare: nat, n: nat): State {
    State(|pre|, |pre| + spare, Filled(pre) + seq(spare, _ => None), seq(n, _ => Idle), [], [])
  }

  predicate Reading(pc: Pc) { pc.Locked? || pc.Check? || pc.Release? || pc.Write? || pc.Unlock? }

  predicate Writing(pc: Pc) { pc.Realloc? || pc.Publish? || pc.WriteUnlock? }

  predicate MayRead(s: State) { forall t :: 0 <= t < |s.threads| ==> !Writing(s.threads[t]) }

  predicate MayWrite(s: State) {
    forall t :: 0 <= t < |s.threads| ==> !Writing(s.threads[t]) && !Reading(s.threads[t])
  }

  function Set(s: State, t: nat, pc: Pc): State
    requires t < |s.threads|
  {
    s.(threads := s.threads[t := pc])
  }

  function Step(s: State, t: nat): State
    requires t < |s.threads|
  {
    match s.threads[t]
    case Locked(x) => Set(s, t, Check(x, s.size)).(size := s.size + 1, order := s.order + [Push(t, x)])
    case Check(x, i) => Set(s, t, if i >= s.nalloc then Release(x, i) else Write(x, i))
    case Release(x, i) => Set(s, t, Expand(x, i))
    case Expand(x, i) => if MayWrite(s) then Set(s, t, Realloc(x, i)) else s
    case Realloc(x, i) =>
      var more := if s.nalloc == 0 then 0 else Capacity(s.nalloc, i + 1) - s.nalloc;
      Set(s, t, Publish(x, i)).(data := s.data + seq(more, _ => None))
    case Publish(x, i) => Set(s, t, WriteUnlock(x, i)).(nalloc := |s.data|)
    case WriteUnlock(x, i) => Set(s, t, Relock(x, i))
    case Relock(x, i) => if MayRead(s) then Set(s, t, Write(x, i)) else s
    case Write(x, i) =>
      if i < |s.data| then Set(s, t, Unlock).(data := s.data[i := Some(x)]) else s
    case Unlock => Set(s, t, Idle)
    case Idle => s
  }

  function Next(s: State, a: Action): State {
    if a.t >= |s.threads| then s
    else if a.Go? then Step(s, a.t)
    else if s.threads[a.t].Idle? && MayRead(s) then Set(s, a.t, Locked(a.x)).(begun := s.begun + [Push(a.t, a.x)])
    else s
  }

  function Run(s: State, acts: seq<Action>): State {
    if acts == [] then s else Next(Run(s, acts[..|acts| - 1]), acts[|acts| - 1])
  }

  // ---------------------------------------------------------------------------------------------
  // Who owns which slot
  // ---------------------------------------------------------------------------------------------

  /** The thread has a ticket and has not used it. */
  predicate Holds(pc: Pc) { !pc.Idle? && !pc.Locked? && !pc.Unlock? }

  /** Some thread is yet to write slot `i`. */
  predicate Awaited(threads: seq<Pc>, i: nat) {
    exists t :: 0 <= t < |threads| && Holds(threads[t]) && threads[t].i == i
  }

  ghost predicate Buffer(s: State, pre: seq<nat>) {
    && s.size == |pre| + |s.order|
    && 0 < s.nalloc <= |s.data|
    && (MayRead(s) ==> |s.data| == s.nalloc)
    && |pre| <= |s.data|
    && (forall i :: 0 <= i < |pre| ==> s.data[i] == Some(pre[i]))
    && (forall i :: |pre| <= i < s.size && !Awaited(s.threads, i) ==>
          i < |s.data| && s.data[i] == Some(s.order[i - |pre|].x))
  }

  ghost predicate Ticket(s: State, pre: seq<nat>, t: nat)
    requires t < |s.threads|
  {
    var pc := s.threads[t];
    && (Holds(pc) ==> |pre| <= pc.i < s.size && pc.i - |pre| < |s.order| && s.order[pc.i - |pre|] == Push(t, pc.x))
    && (pc.Publish? ==> pc.i < |s.data|)
    && (pc.WriteUnlock? ==> |s.data| == s.nalloc)
    && (pc.Realloc? ==> |s.data| == s.nalloc)
    && (pc.WriteUnlock? || pc.Relock? || pc.Write? ==> pc.i < s.nalloc)
  }

  ghost predicate Locks(threads: seq<Pc>) {
    && (forall t, u :: 0 <= t < |threads| && 0 <= u < |threads| && t != u && Writing(threads[t]) ==>
          !Reading(threads[u]) && !Writing(threads[u]))
    && (forall t, u :: 0 <= t < u < |threads| && Holds(threads[t]) && Holds(threads[u]) ==>
      threads[t].i != threads[u].i)
  }

  /** The items of thread `t`, in order. */
  function ItemsOf(s: seq<Push>, t: nat): seq<nat> {
    if s == [] then []
    else ItemsOf(s[..|s| - 1], t) + if s[|s| - 1].t == t then [s[|s| - 1].x] else []
  }

  /** What thread `t` has called push with is what it has drawn tickets for, and the call it is in. */
  ghost predicate Program(s: State, t: nat)
    requires t < |s.threads|
  {
    ItemsOf(s.begun, t) == ItemsOf(s.order, t) + if s.threads[t].Locked? then [s.threads[t].x] else []
  }

  ghost predicate Inv(s: State, pre: seq<nat>) {
    && Buffer(s, pre) && Locks(s.threads)
    && forall t :: 0 <= t < |s.threads| ==> Ticket(s, pre, t) && Program(s, t)
  }

  // ---------------------------------------------------------------------------------------------
  // Every step keeps the invariant
  // ---------------------------------------------------------------------------------------------

  /** Thread `t` keeps its ticket, or has none before and after. */
  lemma SameAwaited(threads: seq<Pc>, t: nat, pc: Pc, i: nat)
    requires t < |threads| && Holds(threads[t]) == Holds(pc) && (Holds(pc) ==> threads[t].i == pc.i)
    ensures Awaited(threads[t := pc], i) == Awaited(threads, i)
  {
    if Awaited(threads, i) {
      var u :| 0 <= u < |threads| && Holds(threads[u]) && threads[u].i == i;
      assert Holds(threads[t := pc][u]) && threads[t := pc][u].i == i;
    }
  }

  lemma TakesTicket(threads: seq<Pc>, t: nat, x: nat, n: nat, i: nat)
    requires t < |threads| && !Holds(threads[t])
    ensures Awaited(threads[t := Check(x, n)], i) <==> Awaited(threads, i) || i == n
  {
    var threads' := threads[t := Check(x, n)];
    assert Holds(threads'[t]) && threads'[t].i == n;
    if Awaited(threads, i) {
      var u :| 0 <= u < |threads| && Holds(threads[u]) && threads[u].i == i;
      assert Holds(threads'[u]) && threads'[u].i == i;
    }
  }

  lemma UsesTicket(threads: seq<Pc>, t: nat, i: nat)
    requires t < |threads| && Holds(threads[t]) && Locks(threads)
    ensures Awaited(threads[t := Unlock], i) <==> Awaited(threads, i) && i != threads[t].i
  {
    var threads' := threads[t := Unlock];
    if Awaited(threads, i) && i != threads[t].i {
      var u :| 0 <= u < |threads| && Holds(threads[u]) && threads[u].i == i;
      assert Holds(threads'[u]) && threads'[u].i == i;
    }
  }

  /** Buffer survives a step that only moves thread `t`, keeping its ticket. */
  lemma MoveBuffer(s: State, pre: seq<nat>, t: nat, pc: Pc)
    requires Buffer(s, pre) && t < |s.threads|
    requires Holds(s.threads[t]) == Holds(pc) && (Holds(pc) ==> s.threads[t].i == pc.i)
    requires Writing(s.threads[t]) && !Writing(pc) ==> |s.data| == s.nalloc
    ensures Buffer(Set(s, t, pc), pre)
  {
    var s' := Set(s, t, pc);
    forall i: nat ensures Awaited(s'.threads, i) == Awaited(s.threads, i) { SameAwaited(s.threads, t, pc, i); }
    if MayRead(s') && Writing(pc) == Writing(s.threads[t]) {
      forall u | 0 <= u < |s.threads| ensures !Writing(s.threads[u]) { assert !Writing(s'.threads[u]); }
    }
    if MayRead(s') && !Writing(s.threads[t]) {
      forall u | 0 <= u < |s.threads| ensures !Writing(s.threads[u]) { assert u != t ==> !Writing(s'.threads[u]); }
    }
  }

  lemma TicketBuffer(s: State, pre: seq<nat>, t: nat)
    requires Buffer(s, pre) && t < |s.threads| && s.threads[t].Locked?
    ensures Buffer(Step(s, t), pre)
  {
    var s' := Step(s, t);
    forall i: nat ensures Awaited(s'.threads, i) <==> Awaited(s.threads, i) || i == s.size {
      TakesTicket(s.threads, t, s.threads[t].x, s.size, i);
    }
    if MayRead(s') {
      forall u | 0 <= u < |s.threads| ensures !Writing(s.threads[u]) { assert u != t ==> !Writing(s'.threads[u]); }
    }
  }

  lemma WriteBuffer(s: State, pre: seq<nat>, t: nat)
    requires Buffer(s, pre) && Locks(s.threads) && t < |s.threads| && s.threads[t].Write? && Ticket(s, pre, t)
    ensures Buffer(Step(s, t), pre)
  {
    var s' := Step(s, t);
    forall i: nat ensures Awaited(s'.threads, i) <==> Awaited(s.threads, i) && i != s.threads[t].i {
      UsesTicket(s.threads, t, i);
    }
    if MayRead(s') {
      forall u | 0 <= u < |s.threads| ensures !Writing(s.threads[u]) { assert u != t ==> !Writing(s'.threads[u]); }
    }
  }

  /** Reallocating keeps the contents, publishing the capacity keeps the buffer. */
  lemma GrowBuffer(s: State, pre: seq<nat>, t: nat)
    requires Buffer(s, pre) && t < |s.threads| && (s.threads[t].Realloc? || s.threads[t].Publish?) && Ticket(s, pre, t)
    ensures Buffer(Step(s, t), pre)
  {
    var s' := Step(s, t);
    forall i: nat ensures Awaited(s'.threads, i) == Awaited(s.threads, i) {
      SameAwaited(s.threads, t, s'.threads[t], i);
    }
    assert Writing(s'.threads[t]);
    assert !MayRead(s');
  }

  lemma StepBuffer(s: State, pre: seq<nat>, t: nat)
    requires Inv(s, pre) && t < |s.threads|
    ensures Buffer(Step(s, t), pre)
  {
    var pc := s.threads[t];
    assert Ticket(s, pre, t);
    if pc.Locked? {
      TicketBuffer(s, pre, t);
    } else if pc.Write? {
      WriteBuffer(s, pre, t);
    } else if pc.Realloc? || pc.Publish? {
      GrowBuffer(s, pre, t);
    } else {
      MoveBuffer(s, pre, t, Step(s, t).threads[t]);
    }
  }

  lemma StepLocks(s: State, pre: seq<nat>, t: nat)
    requires Inv(s, pre) && t < |s.threads|
    ensures Locks(Step(s, t).threads)
  {
    var s', pc := Step(s, t), s.threads[t];
    if s' != s {
      forall u | 0 <= u < |s.threads| && u != t && Holds(s.threads[u]) ensures s.threads[u].i < s.size {
        assert Ticket(s, pre, u);
      }
      MovesOn(s, t);
      SetLocks(s.threads, t, s'.threads[t]);
    }
  }

  /** A step takes no lock that somebody else holds in the way, and no ticket but a new one. */
  lemma MovesOn(s: State, t: nat)
    requires t < |s.threads| && Locks(s.threads)
    requires forall u :: 0 <= u < |s.threads| && u != t && Holds(s.threads[u]) ==> s.threads[u].i < s.size
    ensures var s' := Step(s, t);
      s'.threads == s.threads[t := s'.threads[t]] && MayTurn(s.threads, t, s'.threads[t])
  {
  }

  /** The thread may be where `pc` says as far as the others are concerned. */
  ghost predicate MayTurn(threads: seq<Pc>, t: nat, pc: Pc) {
    forall u :: 0 <= u < |threads| && u != t ==>
      && (Writing(pc) ==> !Reading(threads[u]) && !Writing(threads[u]))
      && (Reading(pc) ==> !Writing(threads[u]))
      && (Holds(pc) && Holds(threads[u]) ==> threads[u].i != pc.i)
  }

  lemma SetLocks(threads: seq<Pc>, t: nat, pc: Pc)
    requires Locks(threads) && t < |threads| && MayTurn(threads, t, pc)
    ensures Locks(threads[t := pc])
  {
  }

  lemma OwnTicket(s: State, pre: seq<nat>, t: nat)
    requires Buffer(s, pre) && t < |s.threads| && Ticket(s, pre, t)
    ensures Ticket(Step(s, t), pre, t)
  {
    if s.threads[t].Expand? && MayWrite(s) { assert MayRead(s); }
  }

  lemma OtherTicket(s: State, pre: seq<nat>, t: nat, u: nat)
    requires t < |s.threads| && u < |s.threads| && t != u && Locks(s.threads) && Ticket(s, pre, u) && Ticket(s, pre, t)
    requires s.nalloc <= |s.data|
    ensures Ticket(Step(s, t), pre, u)
  {
  }

  lemma ItemsSnoc(s: seq<Push>, p: Push, t: nat)
    ensures ItemsOf(s + [p], t) == ItemsOf(s, t) + if p.t == t then [p.x] else []
  {
    assert (s + [p])[..|s|] == s;
  }

  lemma TicketIs(s: State, t: nat)
    requires t < |s.threads| && s.threads[t].Locked?
    ensures var s', x := Step(s, t), s.threads[t].x;
      && s'.begun == s.begun && s'.order == s.order + [Push(t, x)]
      && s'.threads == s.threads[t := Check(x, s.size)]
  {
  }

  lemma TicketProgram(s: State, t: nat, u: nat)
    requires t < |s.threads| && u < |s.threads| && Program(s, u) && s.threads[t].Locked?
    ensures u < |Step(s, t).threads| && Program(Step(s, t), u)
  {
    TicketIs(s, t);
    ItemsSnoc(s.order, Push(t, s.threads[t].x), u);
    var mine := ItemsOf(s.order, u);
    assert u != t && !s.threads[u].Locked? ==> mine + [] == mine;
  }

  lemma SameLists(s: State, t: nat)
    requires t < |s.threads| && !s.threads[t].Locked?
    ensures var s' := Step(s, t); s'.begun == s.begun && s'.order == s.order && |s'.threads| == |s.threads|
    ensures forall u :: 0 <= u < |s.threads| ==>
      s.threads[u] == Step(s, t).threads[u] || (!s.threads[u].Locked? && !Step(s, t).threads[u].Locked?)
  {
  }

  lemma StepProgram(s: State, t: nat, u: nat)
    requires t < |s.threads| && u < |s.threads| && Program(s, u)
    ensures u < |Step(s, t).threads| && Program(Step(s, t), u)
  {
    if s.threads[t].Locked? { TicketProgram(s, t, u); } else { SameLists(s, t); }
  }

  lemma BeginKeeps(s: State, pre: seq<nat>, t: nat, x: nat)
    requires Inv(s, pre) && t < |s.threads| && s.threads[t].Idle? && MayRead(s)
    ensures Inv(Next(s, Begin(t, x)), pre)
  {
    var s' := Next(s, Begin(t, x));
    MoveBuffer(s, pre, t, Locked(x));
    assert s'.begun[..|s'.begun| - 1] == s.begun;
    forall u | 0 <= u < |s'.threads| ensures Ticket(s', pre, u) && Program(s', u) {
      assert Ticket(s, pre, u) && Program(s, u);
    }
  }

  lemma NextKeeps(s: State, pre: seq<nat>, a: Action)
    requires Inv(s, pre)
    ensures Inv(Next(s, a), pre)
  {
    if a.t < |s.threads| {
      if a.Go? {
        var s' := Next(s, a);
        StepBuffer(s, pre, a.t);
        StepLocks(s, pre, a.t);
        forall u | 0 <= u < |s'.threads| ensures Ticket(s', pre, u) && Program(s', u) {
          assert Ticket(s, pre, u) && Program(s, u) && Ticket(s, pre, a.t);
          StepProgram(s, a.t, u);
          if u == a.t { OwnTicket(s, pre, u); } else { OtherTicket(s, pre, a.t, u); }
        }
      } else if s.threads[a.t].Idle? && MayRead(s) {
        BeginKeeps(s, pre, a.t, a.x);
      }
    }
  }

  lemma {:induction false} RunKeeps(pre: seq<nat>, spare: nat, n: nat, acts: seq<Action>)
    requires |pre| + spare > 0
    ensures Inv(Run(Start(pre, spare, n), acts), pre)
  {
    if acts != [] {
      RunKeeps(pre, spare, n, acts[..|acts| - 1]);
      NextKeeps(Run(Start(pre, spare, n), acts[..|acts| - 1]), pre, acts[|acts| - 1]);
    }
  }

  // ---------------------------------------------------------------------------------------------
  // Main results
  // ---------------------------------------------------------------------------------------------

  /**
   A thread about to write has a slot inside the buffer that no other thread has, and nobody is replacing the buffer.
   */
  lemma OwnSlot(pre: seq<nat>, spare: nat, n: nat, acts: seq<Action>, t: nat, u: nat)
    requires |pre| + spare > 0
    requires var s := Run(Start(pre, spare, n), acts);
      t < |s.threads| && u < |s.threads| && t != u && s.threads[t].Write?
    ensures var s := Run(Start(pre, spare, n), acts); var i := s.threads[t].i;
      && |pre| <= i < |s.data|
      && (Holds(s.threads[u]) ==> s.threads[u].i != i)
      && !Writing(s.threads[u])
  {
    RunKeeps(pre, spare, n, acts);
    var s := Run(Start(pre, spare, n), acts);
    assert Ticket(s, pre, t) && Ticket(s, pre, u);
  }

  /**
   What has been written stays: the contents are the old ones and then the items, by ticket, that no thread is yet to
   write.
   */
  lemma WrittenStays(pre: seq<nat>, spare: nat, n: nat, acts: seq<Action>, i: nat)
    requires |pre| + spare > 0
    requires var s := Run(Start(pre, spare, n), acts); |pre| <= i < s.size && !Awaited(s.threads, i)
    ensures var s := Run(Start(pre, spare, n), acts);
      i < |s.data| && i - |pre| < |s.order| && s.data[i] == Some(s.order[i - |pre|].x)
  {
    RunKeeps(pre, spare, n, acts);
  }

  /** The items of a list of pushes. */
  function Items(s: seq<Push>): seq<nat> { seq(|s|, i requires 0 <= i < |s| => s[i].x) }

  /**
   Once all appends have returned the vector is the old contents followed by one item per append, in ticket
   order, and each thread's items are among them in the order it pushed them.
   */
  lemma AppendsExact(pre: seq<nat>, spare: nat, n: nat, acts: seq<Action>)
    requires |pre| + spare > 0
    requires forall t :: 0 <= t < |Run(Start(pre, spare, n), acts).threads| ==>
      Run(Start(pre, spare, n), acts).threads[t].Idle?
    ensures var s := Run(Start(pre, spare, n), acts);
      && s.size <= s.nalloc == |s.data|
      && s.data[..s.size] == Filled(pre + Items(s.order))
      && forall t :: 0 <= t < |s.threads| ==> ItemsOf(s.order, t) == ItemsOf(s.begun, t)
  {
    var s := Run(Start(pre, spare, n), acts);
    RunKeeps(pre, spare, n, acts);
    assert MayRead(s);
    forall i | |pre| <= i < s.size ensures i < |s.data| && s.data[i] == Some(s.order[i - |pre|].x) {
      assert !Awaited(s.threads, i);
    }
    if |s.order| > 0 { assert !Awaited(s.threads, s.size - 1); }
    forall t | 0 <= t < |s.threads| ensures ItemsOf(s.order, t) == ItemsOf(s.begun, t) { assert Program(s, t); }
  }

  // ---------------------------------------------------------------------------------------------
  // Every append returns
  // ---------------------------------------------------------------------------------------------

  /** How many steps an append has left. */
  function StepsLeft(pc: Pc): nat {
    match pc
    case Locked(_) => 10
    case Check(_, _) => 9
    case Release(_, _) => 8
    case Expand(_, _) => 7
    case Realloc(_, _) => 6
    case Publish(_, _) => 5
    case WriteUnlock(_, _) => 4
    case Relock(_, _) => 3
    case Write(_, _) => 2
    case Unlock => 1
    case Idle => 0
  }

  function AllLeft(threads: seq<Pc>): nat {
    if threads == [] then 0 else AllLeft(threads[..|threads| - 1]) + StepsLeft(threads[|threads| - 1])
  }

  lemma {:induction false} LeftSplit(threads: seq<Pc>, t: nat, pc: Pc)
    requires t < |threads|
    ensures AllLeft(threads[t := pc]) + StepsLeft(threads[t]) == AllLeft(threads) + StepsLeft(pc)
  {
    var last := |threads| - 1;
    if t < last {
      LeftSplit(threads[..last], t, pc);
      assert threads[t := pc][..last] == threads[..last][t := pc];
    } else {
      assert threads[t := pc][..last] == threads[..last];
    }
  }

  /** A thread that does not wait for the lock makes a step. */
  lemma StepGetsOn(s: State, t: nat)
    requires t < |s.threads| && !s.threads[t].Idle? && (s.threads[t].Write? ==> s.threads[t].i < |s.data|)
    requires (s.threads[t].Expand? ==> MayWrite(s)) && (s.threads[t].Relock? ==> MayRead(s))
    ensures AllLeft(Step(s, t).threads) < AllLeft(s.threads) && Step(s, t).begun == s.begun
  {
    LeftSplit(s.threads, t, Step(s, t).threads[t]);
    assert Step(s, t).threads == s.threads[t := Step(s, t).threads[t]];
  }

  predicate AllIdle(s: State) { forall t :: 0 <= t < |s.threads| ==> s.threads[t].Idle? }

  /** Nobody appends, and the vector holds `pre` and the items of the pushes `begun`, each thread's in its order. */
  ghost predicate Complete(s: State, pre: seq<nat>, begun: seq<Push>) {
    && AllIdle(s) && s.size <= |s.data| && s.data[..s.size] == Filled(pre + Items(s.order))
    && forall t :: 0 <= t < |s.threads| ==> ItemsOf(s.order, t) == ItemsOf(begun, t)
  }

  /** As long as an append is in progress, some thread does not have to wait. */
  lemma SomeGetsOn(s: State, pre: seq<nat>) returns (t: nat)
    requires Inv(s, pre) && !AllIdle(s)
    ensures t < |s.threads| && AllLeft(Step(s, t).threads) < AllLeft(s.threads) && Step(s, t).begun == s.begun
  {
    if u :| 0 <= u < |s.threads| && (Writing(s.threads[u]) || Reading(s.threads[u])) {
      t := u;
    } else {
      t :| 0 <= t < |s.threads| && !s.threads[t].Idle?;
    }
    assert Ticket(s, pre, t);
    StepGetsOn(s, t);
  }

  /**
   No append waits for ever: from every state some steps lead to all of them having returned, and then the vector is
   the old contents followed by the items of every append begun.
   */
  lemma {:induction false} AppendsReturn(pre: seq<nat>, spare: nat, n: nat, acts: seq<Action>)
    returns (all: seq<Action>)
    requires |pre| + spare > 0
    ensures acts <= all && forall i :: |acts| <= i < |all| ==> all[i].Go?
    ensures Complete(Run(Start(pre, spare, n), all), pre, Run(Start(pre, spare, n), acts).begun)
    decreases AllLeft(Run(Start(pre, spare, n), acts).threads)
  {
    var s := Run(Start(pre, spare, n), acts);
    RunKeeps(pre, spare, n, acts);
    if AllIdle(s) {
      all := acts;
      AppendsExact(pre, spare, n, acts);
    } else {
      var t := SomeGetsOn(s, pre);
      var more := acts + [Go(t)];
      assert more[..|acts|] == acts;
      all := AppendsReturn(pre, spare, n, more);
      assert all[|acts|] == more[|acts|];
    }
  }

  /** A thread that appends while nobody replaces the buffer is let in, and its item ends up in the vector. */
  lemma AppendGetsDone(pre: seq<nat>, spare: nat, n: nat, acts: seq<Action>, t: nat, x: nat)
    returns (all: seq<Action>)
    requires |pre| + spare > 0 && t < |Run(Start(pre, spare, n), acts).threads|
    requires Run(Start(pre, spare, n), acts).threads[t].Idle? && MayRead(Run(Start(pre, spare, n), acts))
    ensures acts + [Begin(t, x)] <= all && forall i :: |acts| < i < |all| ==> all[i].Go?
    ensures Complete(Run(Start(pre, spare, n), all), pre, Run(Start(pre, spare, n), acts).begun + [Push(t, x)])
  {
    var more := acts + [Begin(t, x)];
    assert more[..|acts|] == acts;
    all := AppendsReturn(pre, spare, n, more);
  }
}
