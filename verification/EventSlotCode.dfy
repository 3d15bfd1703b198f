/**
 Committing and resetting an event as the code of src/eal/libevent/twlibevt_event.c:66-99 and
 src/eal/libevent/twlibevti_event.c:15-30, running against whatever the other thread does in between.

 An `Event` is used by one side, the committing thread or the callback thread; the actions the other side is going
 to take are listed in `todo`, and any number of them may happen before each access.
 */
module EventSlotCode {
  import opened Common
  import opened EventSlot

  datatype Side = User | Callback

  predicate Of(a: Action, side: Side) {
    side.User? <==> a.UserCommit? || a.UserGo?
  }

  function OwnPc(s: State, side: Side): Pc { if side.User? then s.user else s.callback }

  function OwnGo(side: Side): Action { if side.User? then UserGo else CallbackGo }

  predicate Committing(pc: Pc) { pc.Commit? || pc.HandlerCommit? || pc.Recommit? }

  /** The thread is in a commit for `loop`, about to do `line`. */
  predicate At(s: State, side: Side, line: Line, loop: nat) {
    var pc := OwnPc(s, side);
    (if side.User? then pc.Commit? else pc.HandlerCommit? || pc.Recommit?) && pc.line == line && pc.loop == loop
  }

  /** Where a thread is after its commit. */
  function Home(pc: Pc): Pc { if pc.HandlerCommit? then Handler else Idle }

  /** The thread at the same commit, one line on. */
  function Onward(pc: Pc, line: Line, loop: nat): Pc {
    if pc.Commit? then Commit(line, loop)
    else if pc.HandlerCommit? then HandlerCommit(line, loop)
    else Recommit(line, loop)
  }

  /** A line of a commit does the same on either side. */
  lemma LineStep(s: State, side: Side, line: Line, loop: nat)
    requires At(s, side, line, loop)
    ensures var s', e := Next(s, OwnGo(side)), CommitLine(s.status, s.slot, line, loop);
      && s'.status == e.status && s'.slot == e.slot && s'.fired == s.fired
      && OwnPc(s', side)
         == (if e.progress.Goto? then Onward(OwnPc(s, side), e.progress.line, loop) else Home(OwnPc(s, side)))
      && (e.progress.Failed? ==>
            s'.refused == s.refused + multiset{loop} || s'.dropped == s.dropped + multiset{loop})
      && (e.progress.Armed? ==>
            s'.armed == s.armed + multiset{loop} && s.status == PENDING && s'.status == COMMITED)
  {
    if side.User? { UserLine(s, line, loop); } else { CallbackLine(s, line, loop); }
  }

  lemma UserLine(s: State, line: Line, loop: nat)
    requires s.user == Commit(line, loop)
    ensures var s', e := UserStep(s), CommitLine(s.status, s.slot, line, loop);
      && s'.status == e.status && s'.slot == e.slot && s'.fired == s.fired
      && s'.user == (if e.progress.Goto? then Commit(e.progress.line, loop) else Idle)
      && (e.progress.Failed? ==>
            s'.refused == s.refused + multiset{loop} || s'.dropped == s.dropped + multiset{loop})
      && (e.progress.Armed? ==>
            s'.armed == s.armed + multiset{loop} && s.status == PENDING && s'.status == COMMITED)
  {
  }

  lemma CallbackLine(s: State, line: Line, loop: nat)
    requires s.callback == HandlerCommit(line, loop) || s.callback == Recommit(line, loop)
    ensures var s', e := CallbackStep(s), CommitLine(s.status, s.slot, line, loop);
      && s'.status == e.status && s'.slot == e.slot && s'.fired == s.fired
      && s'.callback == (if e.progress.Goto? then Onward(s.callback, e.progress.line, loop) else Home(s.callback))
      && (e.progress.Failed? ==>
            s'.refused == s.refused + multiset{loop} || s'.dropped == s.dropped + multiset{loop})
      && (e.progress.Armed? ==>
            s'.armed == s.armed + multiset{loop} && s.status == PENDING && s'.status == COMMITED)
  {
  }

  /** An action of the other side leaves this thread where it is. */
  lemma OtherStays(s: State, a: Action, side: Side)
    requires !Of(a, side)
    ensures OwnPc(Next(s, a), side) == OwnPc(s, side) && (side.Callback? ==> Next(s, a).fired == s.fired)
  {
  }

  lemma CallStep(s: State, loop: nat)
    requires s.callback == Handler
    ensures Next(s, Call(loop)) == s.(callback := HandlerCommit(Arm, loop), issued := s.issued + multiset{loop})
  {
  }

  lemma RunSnoc(acts: seq<Action>, a: Action)
    ensures Run(acts + [a]) == Next(Run(acts), a)
  {
    assert (acts + [a])[..|acts|] == acts;
  }

  // ---------------------------------------------------------------------------------------------
  // What a side has done with a request, read off the run
  // ---------------------------------------------------------------------------------------------

  /** One step of a run: whether this side took it, and the states around it. */
  datatype Moment = Moment(own: bool, before: State, after: State)

  function History(acts: seq<Action>, side: Side): seq<Moment> {
    if acts == [] then []
    else
      var front, a := acts[..|acts| - 1], acts[|acts| - 1];
      History(front, side) + [Moment(a == OwnGo(side), Run(front), Next(Run(front), a))]
  }

  /** The pending event was armed, so that the callback will run its handler. */
  predicate Arms(m: Moment, loop: nat) {
    m.own && m.before.status == PENDING && m.after.status == COMMITED
    && m.after.armed == m.before.armed + multiset{loop}
  }

  predicate Parks(m: Moment, loop: nat) { m.own && m.before.slot.None? && m.after.slot == Some(loop) }

  predicate Takes(m: Moment, loop: nat) { m.own && m.before.slot == Some(loop) && m.after.slot.None? }

  predicate Fails(m: Moment, loop: nat) {
    m.own && (m.after.refused == m.before.refused + multiset{loop}
      || m.after.dropped == m.before.dropped + multiset{loop})
  }

  /** From moment `from` on, this side leaves the slot alone. */
  predicate LeavesSlot(history: seq<Moment>, from: nat) {
    forall i :: from <= i < |history| && history[i].own ==> history[i].after.slot == history[i].before.slot
  }

  /** From moment `from` on, this side armed the event for `loop`, or parked the request and left it there. */
  ghost predicate Settles(history: seq<Moment>, from: nat, loop: nat) {
    exists i :: from <= i < |history|
      && (Arms(history[i], loop) || (Parks(history[i], loop) && LeavesSlot(history, i + 1)))
  }

  /** Steps of the other side, and then this one. */
  predicate Adds(history: seq<Moment>, history': seq<Moment>, m: Moment) {
    && history <= history' && |history| < |history'| && history'[|history'| - 1] == m
    && forall i :: |history| <= i < |history'| - 1 ==> !history'[i].own
  }

  /** Steps of the other side only. */
  predicate Others(history: seq<Moment>, history': seq<Moment>) {
    history <= history' && forall i :: |history| <= i < |history'| ==> !history'[i].own
  }

  /** What a moment in which a commit did `line` and got as far as `progress` did with its request. */
  predicate Means(m: Moment, line: Line, loop: nat, progress: Progress) {
    && (progress.Armed? ==> Arms(m, loop))
    && (progress.Failed? ==> Fails(m, loop))
    && (line == Park && progress.Goto? ==> Parks(m, loop))
    && (line == Look || (line == TakeBack && progress.Parked?) ==> m.after.slot == m.before.slot)
  }

  lemma LineMeans(s: State, side: Side, line: Line, loop: nat)
    requires At(s, side, line, loop)
    ensures var s', e := Next(s, OwnGo(side)), CommitLine(s.status, s.slot, line, loop);
      && s'.status == e.status && s'.slot == e.slot && s'.fired == s.fired
      && Means(Moment(true, s, s'), line, loop, e.progress) && Possible(line, e.progress)
      && OwnPc(s', side)
         == (if e.progress.Goto? then Onward(OwnPc(s, side), e.progress.line, loop) else Home(OwnPc(s, side)))
  {
    LineStep(s, side, line, loop);
  }

  /** Steps of the other side, and then one of this side's. */
  lemma Joined(a: seq<Moment>, b: seq<Moment>, c: seq<Moment>, m: Moment)
    requires Others(a, b) && c == b + [m]
    ensures Adds(a, c, m)
  {
  }

  /** What a line can come to. */
  predicate Possible(line: Line, progress: Progress) {
    match line
    case Arm => progress.Armed? || progress == Goto(Park)
    case Park => progress.Failed? || progress == Goto(Look)
    case Look => progress.Parked? || progress == Goto(TakeBack)
    case TakeBack => progress.Parked? || progress == Goto(ArmAgain)
    case ArmAgain => progress.Armed? || progress.Failed?
  }

  lemma HistorySnoc(acts: seq<Action>, a: Action, side: Side)
    ensures History(acts + [a], side) == History(acts, side) + [Moment(a == OwnGo(side), Run(acts), Next(Run(acts), a))]
  {
    assert (acts + [a])[..|acts|] == acts;
  }

  class Event {
    var status: Status
    var nlp: Option<nat>

    // Where both threads stand, and what has happened so far.
    var user: Pc
    var callback: Pc
    var issued: multiset<nat>
    var armed: multiset<nat>
    var refused: multiset<nat>
    var dropped: multiset<nat>
    var fired: nat
    var todo: seq<Action>
    const side: Side
    ghost var acts: seq<Action>
    ghost var history: seq<Moment>

    function Abs(): State
      reads this
    {
      State(status, nlp, user, callback, issued, armed, refused, dropped, fired)
    }

    ghost predicate Valid()
      reads this
    {
      && Abs() == Run(acts)
      && history == History(acts, side)
      && forall i :: 0 <= i < |todo| ==> !Of(todo[i], side)
    }

    function Pc(): Pc
      reads this
    {
      OwnPc(Abs(), side)
    }

    constructor (side: Side, todo: seq<Action>)
      requires forall i :: 0 <= i < |todo| ==> !Of(todo[i], side)
      ensures Valid() && this.side == side && Pc() == Idle && history == []
    {
      status, nlp, user, callback := PENDING, None, Idle, Idle;
      issued, armed, refused, dropped, fired := multiset{}, multiset{}, multiset{}, multiset{}, 0;
      this.todo, this.side, acts, history := todo, side, [], [];
    }

    method Put(s: State)
      modifies this`status, this`nlp, this`user, this`callback, this`issued, this`armed, this`refused, this`dropped
      modifies this`fired
      ensures Abs() == s
    {
      status, nlp, user, callback := s.status, s.slot, s.user, s.callback;
      issued, armed, refused, dropped, fired := s.issued, s.armed, s.refused, s.dropped, s.fired;
    }

    /** Any number of the steps the other thread is to take. */
    method Interfere()
      requires Valid()
      modifies this
      ensures Valid() && Pc() == old(Pc()) && Others(old(history), history) && (side.Callback? ==> fired == old(fired))
    {
      var k: nat :| k <= |todo|;
      while k > 0
        invariant k <= |todo| && Valid() && Pc() == old(Pc()) && Others(old(history), history)
        invariant side.Callback? ==> fired == old(fired)
      {
        OtherStep(todo[0]);
        todo := todo[1..];
        k := k - 1;
      }
    }

    /** A step of the other thread. */
    method OtherStep(a: Action)
      requires Valid() && !Of(a, side)
      modifies this
      ensures Valid() && Pc() == old(Pc()) && (side.Callback? ==> fired == old(fired)) && todo == old(todo)
      ensures history == old(history) + [Moment(false, old(Abs()), Abs())]
    {
      var s := Abs();
      OtherStays(s, a, side);
      Record(a);
      Put(Next(s, a));
    }

    /** Enters an action in the record of the run. */
    ghost method Record(a: Action)
      requires history == History(acts, side)
      modifies this`acts, this`history
      ensures acts == old(acts) + [a] && history == History(acts, side) && Run(acts) == Next(Run(old(acts)), a)
      ensures history == old(history) + [Moment(a == OwnGo(side), Run(old(acts)), Run(acts))]
    {
      RunSnoc(acts, a);
      HistorySnoc(acts, a, side);
      history := history + [Moment(a == OwnGo(side), Run(acts), Next(Run(acts), a))];
      acts := acts + [a];
    }

    /** Records that the access just made, in state `s`, is this thread's step. */
    method Tick(s: State)
      requires s == Run(acts) && status == Next(s, OwnGo(side)).status && nlp == Next(s, OwnGo(side)).slot
      requires history == History(acts, side) && forall i :: 0 <= i < |todo| ==> !Of(todo[i], side)
      modifies this`status, this`nlp, this`user, this`callback, this`issued, this`armed, this`refused, this`dropped
      modifies this`fired, this`acts, this`history
      ensures Valid() && Abs() == Next(s, OwnGo(side)) && history == old(history) + [Moment(true, s, Abs())]
    {
      Record(OwnGo(side));
      Put(Next(s, OwnGo(side)));
    }

    /** Makes the access of one line of a commit, after the other thread has had its chance. */
    method Access(line: Line, loop: nat) returns (progress: Progress, ghost m: Moment)
      requires Valid() && At(Abs(), side, line, loop)
      modifies this
      ensures Valid() && m.own && m.after == Abs() && Adds(old(history), history, m)
      ensures Pc() == if progress.Goto? then Onward(old(Pc()), progress.line, loop) else Home(old(Pc()))
      ensures Possible(line, progress) && Means(m, line, loop, progress) && (side.Callback? ==> fired == old(fired))
    {
      Interfere();
      ghost var before := history;
      progress, m := AccessNow(line, loop);
      Joined(old(history), before, history, m);
    }

    method AccessNow(line: Line, loop: nat) returns (progress: Progress, ghost m: Moment)
      requires Valid() && At(Abs(), side, line, loop)
      modifies this
      ensures Valid() && m.own && m.after == Abs() && history == old(history) + [m]
      ensures Pc() == if progress.Goto? then Onward(old(Pc()), progress.line, loop) else Home(old(Pc()))
      ensures Possible(line, progress) && Means(m, line, loop, progress) && (side.Callback? ==> fired == old(fired))
    {
      var s := Abs();
      LineMeans(s, side, line, loop);
      var e := CommitLine(status, nlp, line, loop);
      status, nlp, progress := e.status, e.slot, e.progress;
      Tick(s);
      m := Moment(true, s, Abs());
    }

    /**
     The five accesses of a commit, whatever the other thread does in between. On success one of them armed the event,
     or put the request in the slot and none took it back; otherwise the last one failed, and that cannot happen as
     long as commits wait for each other.
     */
    method FinishCommit(loop: nat) returns (ok: bool)
      requires Valid() && At(Abs(), side, Arm, loop)
      modifies this
      ensures Valid() && old(history) <= history && Pc() == Home(old(Pc()))
      ensures ok ==> Settles(history, |old(history)|, loop)
      ensures !ok ==> history != [] && Fails(history[|history| - 1], loop)
      ensures Disciplined(acts) ==> ok
      ensures side.Callback? ==> fired == old(fired)
    {
      var p, m := Access(Arm, loop);
      if p.Armed? { assert Arms(history[|history| - 1], loop); }
      if p.Goto? {
        p, m := Access(Park, loop);
        if p.Goto? { p := AfterPark(loop); }
      }
      ok := !p.Failed?;
      if !ok { NoFailure(acts, loop); }
    }

    /** The rest of a commit whose last step put the request in the slot. */
    method AfterPark(loop: nat) returns (p: Progress)
      requires Valid() && At(Abs(), side, Look, loop)
      requires history != [] && Parks(history[|history| - 1], loop)
      modifies this
      ensures Valid() && old(history) <= history && !p.Goto? && Pc() == Home(old(Pc()))
      ensures !p.Failed? ==> Settles(history, |old(history)| - 1, loop)
      ensures p.Failed? ==>
        history != [] && history[|history| - 1].after == Abs() && Fails(history[|history| - 1], loop)
      ensures side.Callback? ==> fired == old(fired)
    {
      ghost var parked := history;
      ghost var m: Moment;
      p, m := Access(Look, loop);
      ghost var looked := history;
      if p.Goto? { p, m := Access(TakeBack, loop); }
      if p.Parked? { StaysParked(parked, looked, history, loop); } else { p := ArmLast(loop); }
    }

    /** The second attempt to arm the event, with the request taken back from the slot. */
    method ArmLast(loop: nat) returns (p: Progress)
      requires Valid() && At(Abs(), side, ArmAgain, loop)
      modifies this
      ensures Valid() && old(history) <= history && !p.Goto? && Pc() == Home(old(Pc()))
      ensures !p.Failed? ==> Settles(history, |old(history)|, loop)
      ensures p.Failed? ==>
        history != [] && history[|history| - 1].after == Abs() && Fails(history[|history| - 1], loop)
      ensures side.Callback? ==> fired == old(fired)
    {
      ghost var m: Moment;
      p, m := Access(ArmAgain, loop);
      if p.Armed? { assert Arms(history[|history| - 1], loop); }
    }

    /** A commit by the committing thread. */
    method CommitEvent(loop: nat) returns (ok: bool)
      requires Valid() && side.User? && user == Idle
      modifies this
      ensures Valid() && user == Idle && old(history) <= history
      ensures ok ==> Settles(history, |old(history)|, loop)
      ensures !ok ==> history != [] && Fails(history[|history| - 1], loop)
      ensures Disciplined(acts) ==> ok
    {
      Interfere();
      Record(UserCommit(loop));
      user := Commit(Arm, loop);
      issued := issued + multiset{loop};
      ok := FinishCommit(loop);
    }

    /**
     After the handler has returned: the event is pending again, and a parked request, if it is still there when the
     callback thread takes it, is committed anew: it ends up armed, parked, or failed. A request that was not taken is
     left where it is.
     */
    method StatReset() returns (ok: bool, ghost taken: Option<nat>)
      requires Valid() && side.Callback? && callback == Reset
      modifies this
      ensures Valid() && callback == Idle && old(history) <= history
      ensures taken.None? ==> ok && LeavesSlot(history, |old(history)|)
      ensures taken.Some? ==> exists i :: |old(history)| <= i < |history| && Takes(history[i], taken.value)
      ensures taken.Some? && ok ==> Settles(history, |old(history)|, taken.value)
      ensures taken.Some? && !ok ==> history != [] && Fails(history[|history| - 1], taken.value)
      ensures Disciplined(acts) ==> ok
      ensures fired == old(fired)
    {
      ok, taken := true, None;
      StorePending();
      var lp := LoadSlot();
      if lp.Some? {
        var took := TakeSlot(lp.value);
        if took {
          ghost var emptied := |history| - 1;
          taken := lp;
          ok := FinishCommit(lp.value);
          assert Takes(history[emptied], lp.value);
        }
      }
    }

    /**
     The callback, with a handler that commits the event for the loops `again`: it runs the handler exactly if it meets
     an arming that has not been served, and serves it by that.
     */
    method RunCallback(again: seq<nat>) returns (ran: bool, ghost met: State)
      requires Valid() && side.Callback? && callback == Idle
      modifies this
      ensures Valid() && callback == Idle && old(history) <= history && fired == old(fired) + Bit(ran)
      ensures exists i :: |old(history)| <= i < |history| && history[i].before == met
      ensures ran <==> |met.armed| == met.fired + 1
    {
      ran, met := TryFire();
      ghost var at := |history| - 1;
      if ran { Serve(again); }
      assert history[at].before == met;
    }

    /** The handler, its return, and the reset of the event. */
    method Serve(again: seq<nat>)
      requires Valid() && side.Callback? && callback == Handler
      modifies this
      ensures Valid() && callback == Idle && old(history) <= history && fired == old(fired)
    {
      Handle(again);
      Record(Return);
      callback := Reset;
      var ok, taken := StatReset();
    }

    /** The compare-and-swap that takes an armed event to RUNNING. */
    method TryFire() returns (ran: bool, ghost met: State)
      requires Valid() && side.Callback? && callback == Idle
      modifies this
      ensures Valid() && callback == (if ran then Handler else Idle) && fired == old(fired) + Bit(ran)
      ensures old(history) <= history && |old(history)| < |history| && history[|history| - 1].before == met
      ensures ran <==> |met.armed| == met.fired + 1
    {
      Interfere();
      met := Abs();
      FiresOncePerArming(acts);
      Record(Fire);
      ran := status == COMMITED;
      if ran { status, callback, fired := RUNNING, Handler, fired + 1; }
    }

    /** A handler that commits its own event. */
    method Handle(again: seq<nat>)
      requires Valid() && side.Callback? && callback == Handler
      modifies this
      ensures Valid() && callback == Handler && old(history) <= history && fired == old(fired)
    {
      for i := 0 to |again|
        invariant Valid() && callback == Handler && old(history) <= history && fired == old(fired)
      {
        var ok := CommitAgain(again[i]);
      }
    }

    /** A commit of the event by its own handler. */
    method CommitAgain(loop: nat) returns (ok: bool)
      requires Valid() && side.Callback? && callback == Handler
      modifies this
      ensures Valid() && callback == Handler && old(history) <= history && fired == old(fired)
      ensures ok ==> Settles(history, |old(history)|, loop)
      ensures !ok ==> history != [] && Fails(history[|history| - 1], loop)
      ensures Disciplined(acts) ==> ok
    {
      Interfere();
      CallStep(Abs(), loop);
      Record(Call(loop));
      callback := HandlerCommit(Arm, loop);
      issued := issued + multiset{loop};
      ok := FinishCommit(loop);
    }

    method StorePending()
      requires Valid() && side.Callback? && callback == Reset
      modifies this
      ensures Valid() && callback == Load && status == PENDING
      ensures old(history) <= history && LeavesSlot(history, |old(history)|) && fired == old(fired)
    {
      Interfere();
      var s := Abs();
      status := PENDING;
      Tick(s);
    }

    method LoadSlot() returns (lp: Option<nat>)
      requires Valid() && side.Callback? && callback == Load
      modifies this
      ensures Valid() && callback == if lp.Some? then Take(lp.value) else Idle
      ensures old(history) <= history && LeavesSlot(history, |old(history)|) && fired == old(fired)
    {
      Interfere();
      var s := Abs();
      lp := nlp;
      Tick(s);
    }

    method TakeSlot(loop: nat) returns (took: bool)
      requires Valid() && side.Callback? && callback == Take(loop)
      modifies this
      ensures Valid() && callback == if took then Recommit(Arm, loop) else Idle
      ensures old(history) <= history && |old(history)| < |history| && fired == old(fired)
      ensures if took then Takes(history[|history| - 1], loop) else LeavesSlot(history, |old(history)|)
    {
      Interfere();
      var s := Abs();
      took := nlp == Some(loop);
      if took { nlp := None; }
      Tick(s);
    }
  }

  /**
   A request that was parked, looked at, and perhaps found taken when it was to be taken back, is left in the slot.
   */
  lemma StaysParked(parked: seq<Moment>, looked: seq<Moment>, history: seq<Moment>, loop: nat)
    requires parked != [] && Parks(parked[|parked| - 1], loop) && |parked| < |looked|
    requires Adds(parked, looked, looked[|looked| - 1])
      && looked[|looked| - 1].after.slot == looked[|looked| - 1].before.slot
    requires history != [] && (history == looked || (Adds(looked, history, history[|history| - 1])
               && history[|history| - 1].after.slot == history[|history| - 1].before.slot))
    ensures Settles(history, |parked| - 1, loop)
  {
    var i := |parked| - 1;
    assert history[i] == parked[i] && LeavesSlot(history, i + 1);
  }

  lemma NoFailure(acts: seq<Action>, loop: nat)
    requires loop in Run(acts).refused || loop in Run(acts).dropped
    ensures !Disciplined(acts)
  {
    if Disciplined(acts) { RunSingle(acts); }
  }
}
