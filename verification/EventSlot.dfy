/**
 The re-commit slot of an event, src/eal/libevent/twlibevt_event.c:77-99 and
 src/eal/libevent/twlibevti_event.c:15-114: one committing thread and one callback thread share the
 `status` word and the one-place slot `nlp`. Every atomic operation is one step. A request is known by
 the loop it names; the handler may itself commit the event it is running for.
 */
module EventSlot {
  import opened Common

  datatype Status = PENDING | COMMITED | RUNNING

  /** The five atomic operations of a commit, lines 77, 81, 82, 85 and 86. */
  datatype Line = Arm | Park | Look | TakeBack | ArmAgain

  datatype Pc =
    | Idle
    | Commit(line: Line, loop: nat)
    | Handler
    | HandlerCommit(line: Line, loop: nat)
    | Reset
    | Load
    | Take(loop: nat)
    | Recommit(line: Line, loop: nat)

  /**
   `issued`, `armed`, `refused` and `dropped` are history: requests made, requests that armed the event,
   requests answered with an error, and re-commits of the callback thread that ended in an error nobody reads.
   So is `fired`, how often the callback has begun to run the handler.
   */
  datatype State = State(
    status: Status,
    slot: Option<nat>,
    user: Pc,
    callback: Pc,
    issued: multiset<nat>,
    armed: multiset<nat>,
    refused: multiset<nat>,
    dropped: multiset<nat>,
    fired: nat)

  const INIT := State(PENDING, None, Idle, Idle, multiset{}, multiset{}, multiset{}, multiset{}, 0)

  datatype Action =
    | UserCommit(loop: nat)
    | UserGo
    | Fire
    | Call(loop: nat)
    | Return
    | CallbackGo

  /** How far one line gets a commit. */
  datatype Progress = Goto(line: Line) | Armed | Parked | Failed

  datatype Effect = Effect(status: Status, slot: Option<nat>, progress: Progress)

  function CommitLine(status: Status, slot: Option<nat>, line: Line, loop: nat): Effect {
    match line
    case Arm => if status == PENDING then Effect(COMMITED, slot, Armed) else Effect(status, slot, Goto(Park))
    case Park => if slot.None? then Effect(status, Some(loop), Goto(Look)) else Effect(status, slot, Failed)
    case Look => Effect(status, slot, if status == PENDING then Goto(TakeBack) else Parked)
    case TakeBack => if slot == Some(loop) then Effect(status, None, Goto(ArmAgain)) else Effect(status, slot, Parked)
    case ArmAgain => if status == PENDING then Effect(COMMITED, slot, Armed) else Effect(status, slot, Failed)
  }

  function UserStep(s: State): State {
    if !s.user.Commit? then s
    else
      var e := CommitLine(s.status, s.slot, s.user.line, s.user.loop);
      var one := multiset{s.user.loop};
      var s1 := s.(status := e.status, slot := e.slot);
      match e.progress
      case Goto(line) => s1.(user := Commit(line, s.user.loop))
      case Armed => s1.(user := Idle, armed := s.armed + one)
      case Parked => s1.(user := Idle)
      case Failed => s1.(user := Idle, refused := s.refused + one)
  }

  function CallbackStep(s: State): State {
    match s.callback
    case HandlerCommit(line, loop) =>
      var e := CommitLine(s.status, s.slot, line, loop);
      var s1 := s.(status := e.status, slot := e.slot);
      (match e.progress
       case Goto(next) => s1.(callback := HandlerCommit(next, loop))
       case Armed => s1.(callback := Handler, armed := s.armed + multiset{loop})
       case Parked => s1.(callback := Handler)
       case Failed => s1.(callback := Handler, refused := s.refused + multiset{loop}))
    case Reset => s.(status := PENDING, callback := Load)
    case Load => s.(callback := if s.slot.Some? then Take(s.slot.value) else Idle)
    case Take(loop) =>
      if s.slot == Some(loop) then s.(slot := None, callback := Recommit(Arm, loop)) else s.(callback := Idle)
    case Recommit(line, loop) =>
      var e := CommitLine(s.status, s.slot, line, loop);
      var s1 := s.(status := e.status, slot := e.slot);
      (match e.progress
       case Goto(next) => s1.(callback := Recommit(next, loop))
       case Armed => s1.(callback := Idle, armed := s.armed + multiset{loop})
       case Parked => s1.(callback := Idle)
       case Failed => s1.(callback := Idle, dropped := s.dropped + multiset{loop}))
    case _ => s
  }

  function Next(s: State, a: Action): State {
    match a
    case UserCommit(loop) =>
      if s.user == Idle then s.(user := Commit(Arm, loop), issued := s.issued + multiset{loop}) else s
    case UserGo => UserStep(s)
    case Fire =>
      if s.callback == Idle && s.status == COMMITED
      then s.(status := RUNNING, callback := Handler, fired := s.fired + 1)
      else s
    case Call(loop) =>
      if s.callback == Handler then s.(callback := HandlerCommit(Arm, loop), issued := s.issued + multiset{loop}) else s
    case Return => if s.callback == Handler then s.(callback := Reset) else s
    case CallbackGo => CallbackStep(s)
  }

  function Run(acts: seq<Action>): State {
    if acts == [] then INIT else Next(Run(acts[..|acts| - 1]), acts[|acts| - 1])
  }

  // ---------------------------------------------------------------------------------------------
  // Where the requests are
  // ---------------------------------------------------------------------------------------------

  /** How many requests for `loop` a thread has in its hands: not yet parked, or taken from the slot. */
  function Hands(pc: Pc, loop: nat): nat {
    if (pc.Commit? || pc.HandlerCommit? || pc.Recommit?) && pc.line != Look && pc.line != TakeBack && pc.loop == loop
    then 1 else 0
  }

  function Slot(slot: Option<nat>, loop: nat): nat { if slot == Some(loop) then 1 else 0 }

  ghost predicate Accounted(s: State, loop: nat) {
    s.issued[loop] == s.armed[loop] + Slot(s.slot, loop) + Hands(s.user, loop) + Hands(s.callback, loop)
                    + s.refused[loop] + s.dropped[loop]
  }

  /** What each thread knows about the status and the slot. */
  ghost predicate Handshake(s: State) {
    && (s.user == Idle || s.user.Commit?)
    && !s.callback.Commit?
    && ((s.callback == Handler || s.callback == Reset || s.callback.HandlerCommit?) ==> s.status == RUNNING)
    && (s.status == RUNNING ==> s.callback == Handler || s.callback == Reset || s.callback.HandlerCommit?)
    && (s.callback.HandlerCommit? || s.callback.Recommit? ==> s.callback.line in {Arm, Park, Look})
    && (s.callback.Recommit? && s.callback.line != Arm ==> s.status == COMMITED)
    && (s.status == PENDING && s.slot.Some? ==>
          || (s.user.Commit? && s.user.line in {Look, TakeBack} && s.user.loop == s.slot.value)
          || s.callback == Load
          || s.callback == Take(s.slot.value))
  }

  /** How many requests for `loop` are still in hand after a line, and how many were armed or failed by it. */
  function After(p: Progress, mine: nat, loop: nat): nat {
    match p
    case Goto(line) => Hands(Commit(line, mine), loop)
    case Parked => 0
    case _ => if mine == loop then 1 else 0
  }

  /** One line moves a request between hand, slot and outcome. */
  lemma LineMoves(status: Status, slot: Option<nat>, line: Line, mine: nat, loop: nat)
    ensures var e := CommitLine(status, slot, line, mine);
      Slot(slot, loop) + Hands(Commit(line, mine), loop) == Slot(e.slot, loop) + After(e.progress, mine, loop)
  {
  }

  lemma UserAccounted(s: State, loop: nat)
    requires Accounted(s, loop) && s.user.Commit?
    ensures Accounted(UserStep(s), loop)
  {
    LineMoves(s.status, s.slot, s.user.line, s.user.loop, loop);
  }

  lemma CallAccounted(s: State, loop: nat)
    requires Accounted(s, loop) && s.callback.HandlerCommit?
    ensures Accounted(CallbackStep(s), loop)
  {
    LineMoves(s.status, s.slot, s.callback.line, s.callback.loop, loop);
  }

  lemma RecommitAccounted(s: State, loop: nat)
    requires Accounted(s, loop) && s.callback.Recommit?
    ensures Accounted(CallbackStep(s), loop)
  {
    LineMoves(s.status, s.slot, s.callback.line, s.callback.loop, loop);
  }

  lemma NextAccounted(s: State, a: Action, loop: nat)
    requires Accounted(s, loop)
    ensures Accounted(Next(s, a), loop)
  {
    if a.UserGo? {
      if s.user.Commit? { UserAccounted(s, loop); }
    } else if a.CallbackGo? && s.callback.HandlerCommit? {
      CallAccounted(s, loop);
    } else if a.CallbackGo? && s.callback.Recommit? {
      RecommitAccounted(s, loop);
    }
  }

  lemma UserHandshake(s: State)
    requires Handshake(s) && s.user.Commit?
    ensures Handshake(UserStep(s))
  {
  }

  lemma CallbackHandshake(s: State)
    requires Handshake(s)
    ensures Handshake(CallbackStep(s))
  {
  }

  lemma NextHandshake(s: State, a: Action)
    requires Handshake(s)
    ensures Handshake(Next(s, a))
  {
    if a.UserGo? {
      if s.user.Commit? { UserHandshake(s); }
    } else if a.CallbackGo? {
      CallbackHandshake(s);
    }
  }

  /** The handler has been run once for every time the event was armed, except the last if it is armed now. */
  ghost predicate Balanced(s: State) {
    |s.armed| == s.fired + Bit(s.status == COMMITED)
  }

  lemma UserBalanced(s: State)
    requires Balanced(s)
    ensures Balanced(UserStep(s))
  {
  }

  lemma CallbackBalanced(s: State)
    requires Handshake(s) && Balanced(s)
    ensures Balanced(CallbackStep(s))
  {
  }

  lemma NextBalanced(s: State, a: Action)
    requires Handshake(s) && Balanced(s)
    ensures Balanced(Next(s, a))
  {
    if a.UserGo? { UserBalanced(s); } else if a.CallbackGo? { CallbackBalanced(s); }
  }

  lemma {:induction false} RunKeeps(acts: seq<Action>)
    ensures Handshake(Run(acts)) && Balanced(Run(acts)) && forall loop :: Accounted(Run(acts), loop)
  {
    if acts != [] {
      var s, a := Run(acts[..|acts| - 1]), acts[|acts| - 1];
      RunKeeps(acts[..|acts| - 1]);
      forall loop ensures Accounted(Run(acts), loop) { NextAccounted(s, a, loop); }
      NextHandshake(s, a);
      NextBalanced(s, a);
    }
  }

  // ---------------------------------------------------------------------------------------------
  // Main results
  // ---------------------------------------------------------------------------------------------

  /** Every request is in exactly one place: armed, parked, in a thread's hands, refused, or dropped. */
  lemma Conserved(acts: seq<Action>, loop: nat)
    ensures Accounted(Run(acts), loop)
  {
    RunKeeps(acts);
  }

  /** A parked request of a pending event has a thread on its way to pick it up. */
  lemma NeverStranded(acts: seq<Action>)
    requires Run(acts).status == PENDING && Run(acts).slot.Some?
    ensures var s := Run(acts);
      || (s.user.Commit? && s.user.line in {Look, TakeBack} && s.user.loop == s.slot.value)
      || s.callback == Load
      || s.callback == Take(s.slot.value)
  {
    RunKeeps(acts);
  }

  /** A request is dropped exactly when the callback thread, coming back to park it, finds the slot full. */
  lemma DropExactly(acts: seq<Action>, a: Action)
    ensures var s := Run(acts);
      Next(s, a).dropped != s.dropped <==>
        a == CallbackGo && s.callback.Recommit? && s.callback.line == Park && s.slot.Some?
  {
    var s := Run(acts);
    RunKeeps(acts);
    if a.CallbackGo? && s.callback.Recommit? {
      DropStep(s);
    }
  }

  lemma DropStep(s: State)
    requires Handshake(s) && s.callback.Recommit?
    ensures CallbackStep(s).dropped != s.dropped <==> s.callback.line == Park && s.slot.Some?
  {
    assert (s.dropped + multiset{s.callback.loop})[s.callback.loop] == s.dropped[s.callback.loop] + 1;
  }

  /** A request is refused exactly when it finds the slot full, or the event armed again after it was taken back. */
  lemma RefuseExactly(acts: seq<Action>, a: Action)
    ensures var s := Run(acts);
      Next(s, a).refused != s.refused <==>
        || (a == UserGo && s.user.Commit? && s.user.line == Park && s.slot.Some?)
        || (a == UserGo && s.user.Commit? && s.user.line == ArmAgain && s.status != PENDING)
        || (a == CallbackGo && s.callback.HandlerCommit? && s.callback.line == Park && s.slot.Some?)
  {
    var s := Run(acts);
    RunKeeps(acts);
    if a.UserGo? && s.user.Commit? {
      assert (s.refused + multiset{s.user.loop})[s.user.loop] == s.refused[s.user.loop] + 1;
    } else if a.CallbackGo? && s.callback.HandlerCommit? {
      assert (s.refused + multiset{s.callback.loop})[s.callback.loop] == s.refused[s.callback.loop] + 1;
    }
  }

  // ---------------------------------------------------------------------------------------------
  // Every arming runs the handler once
  // ---------------------------------------------------------------------------------------------

  /**
   In every run the handler has been run once for every time the event was armed, but for the last time if the event
   is armed now. So the callback runs the handler exactly if it is free and one arming is still to be served.
   */
  lemma FiresOncePerArming(acts: seq<Action>)
    ensures var s := Run(acts);
      && |s.armed| == s.fired + Bit(s.status == COMMITED)
      && (Next(s, Fire) != s <==> s.callback == Idle && |s.armed| == s.fired + 1)
      && (Next(s, Fire) != s ==> Next(s, Fire).callback == Handler && Next(s, Fire).fired == s.fired + 1)
  {
    RunKeeps(acts);
  }

  /** A step that arms the event finds every earlier arming served, and leaves the event armed. */
  lemma NeverArmsTwice(acts: seq<Action>, a: Action)
    requires Next(Run(acts), a).armed != Run(acts).armed
    ensures var s, s' := Run(acts), Next(Run(acts), a);
      s.status == PENDING && |s.armed| == s.fired && s'.status == COMMITED && |s'.armed| == s.fired + 1
  {
    var s := Run(acts);
    RunKeeps(acts);
    if a.UserGo? { UserArms(s); } else { CallbackArms(s); }
    NextBalanced(s, a);
    NextFires(s, a);
  }

  lemma UserArms(s: State)
    requires UserStep(s).armed != s.armed
    ensures s.status == PENDING && UserStep(s).status == COMMITED
  {
  }

  lemma CallbackArms(s: State)
    requires CallbackStep(s).armed != s.armed
    ensures s.status == PENDING && CallbackStep(s).status == COMMITED
  {
  }

  lemma NextFires(s: State, a: Action)
    ensures Next(s, a).fired == s.fired + Bit(a == Fire && Next(s, a) != s)
  {
  }

  /** An armed event stays armed until the callback runs the handler. */
  lemma ArmedUntilFired(acts: seq<Action>, a: Action)
    requires Run(acts).status == COMMITED
    ensures Next(Run(acts), a).status == COMMITED || (a == Fire && Next(Run(acts), a).callback == Handler)
  {
    RunKeeps(acts);
  }

  // ---------------------------------------------------------------------------------------------
  // Everything comes to rest
  // ---------------------------------------------------------------------------------------------

  /** Steps of the two threads that start no new commit. */
  predicate Finishing(a: Action) { !a.UserCommit? && !a.Call? }

  predicate AtRest(s: State) { s.user == Idle && s.callback == Idle && s.status == PENDING && s.slot.None? }

  function LinesLeft(line: Line): nat {
    match line
    case Arm => 5
    case Park => 4
    case Look => 3
    case TakeBack => 2
    case ArmAgain => 1
  }

  function UserLeft(pc: Pc): nat { if pc.Commit? then LinesLeft(pc.line) else 0 }

  function CallbackLeft(pc: Pc): nat {
    match pc
    case HandlerCommit(line, _) => 13 + LinesLeft(line)
    case Handler => 12
    case Reset => 11
    case Load => 10
    case Take(_) => 9
    case Recommit(line, _) => LinesLeft(line)
    case _ => 0
  }

  /** A bound on the callback thread's steps while nobody commits: each request it may still arm costs another round. */
  function RoundsLeft(s: State): nat {
    40 * (Bit(s.slot.Some?) + Bit((s.callback.HandlerCommit? || s.callback.Recommit?) && s.callback.line != Look))
    + 20 * Bit(s.status == COMMITED) + CallbackLeft(s.callback)
  }

  function CallbackTurn(s: State): Action {
    if s.callback == Idle then Fire else if s.callback == Handler then Return else CallbackGo
  }

  lemma CallbackMoves(s: State)
    requires Handshake(s) && s.user == Idle && !AtRest(s)
    ensures var s' := Next(s, CallbackTurn(s));
      RoundsLeft(s') < RoundsLeft(s) && s'.user == Idle && s'.issued == s.issued
  {
  }

  lemma UserMoves(s: State)
    requires Handshake(s) && s.user != Idle
    ensures var s' := Next(s, UserGo); UserLeft(s'.user) < UserLeft(s.user) && s'.issued == s.issued
  {
  }

  lemma Do(acts: seq<Action>, a: Action) returns (more: seq<Action>)
    ensures Run(more) == Next(Run(acts), a) && more == acts + [a]
  {
    more := acts + [a];
    assert more[..|acts|] == acts;
  }

  /** `all` goes on from `acts` without new commits. */
  ghost predicate Finishes(acts: seq<Action>, all: seq<Action>) {
    acts <= all && forall i :: |acts| <= i < |all| ==> Finishing(all[i])
  }

  lemma {:induction false} UserFinishes(acts: seq<Action>) returns (all: seq<Action>)
    ensures Finishes(acts, all) && Run(all).user == Idle && Run(all).issued == Run(acts).issued
    decreases UserLeft(Run(acts).user)
  {
    RunKeeps(acts);
    all := acts;
    if Run(acts).user != Idle {
      UserMoves(Run(acts));
      all := Do(acts, UserGo);
      all := UserFinishes(all);
    }
  }

  lemma {:induction false} CallbackFinishes(acts: seq<Action>) returns (all: seq<Action>)
    requires Run(acts).user == Idle
    ensures Finishes(acts, all) && AtRest(Run(all)) && Run(all).issued == Run(acts).issued
    decreases RoundsLeft(Run(acts))
  {
    RunKeeps(acts);
    all := acts;
    if !AtRest(Run(acts)) {
      CallbackMoves(Run(acts));
      all := Do(acts, CallbackTurn(Run(acts)));
      all := CallbackFinishes(all);
    }
  }

  /**
   From every state the two threads can come to rest without new commits; then every request made has armed the event
   and been served by a run of the handler, or was refused or dropped.
   */
  lemma ComesToRest(acts: seq<Action>) returns (all: seq<Action>)
    ensures Finishes(acts, all) && AtRest(Run(all)) && Run(all).issued == Run(acts).issued
    ensures |Run(all).armed| == Run(all).fired
    ensures forall loop :: Answered(Run(all), loop)
  {
    all := UserFinishes(acts);
    all := CallbackFinishes(all);
    RunKeeps(all);
    forall loop ensures Answered(Run(all), loop) { RestAnswers(Run(all), loop); }
  }

  /** Every request for `loop` armed the event, was refused, or was dropped. */
  predicate Answered(s: State, loop: nat) { s.issued[loop] == s.armed[loop] + s.refused[loop] + s.dropped[loop] }

  lemma RestAnswers(s: State, loop: nat)
    requires AtRest(s) && Accounted(s, loop)
    ensures Answered(s, loop)
  {
  }

  /** No request is parked or being committed. */
  predicate Free(s: State) {
    s.slot.None? && !s.user.Commit? && !s.callback.HandlerCommit? && !s.callback.Recommit?
  }

  /** Nobody commits the event again while an earlier request is still on its way. */
  ghost predicate Disciplined(acts: seq<Action>) {
    forall i :: 0 <= i < |acts| && (acts[i].UserCommit? || acts[i].Call?) ==> Free(Run(acts[..i]))
  }

  /** At most one request is on its way. */
  ghost predicate Single(s: State) {
    && (s.user.Commit? && s.user.line in {Arm, Park, ArmAgain} ==>
          s.slot.None? && !s.callback.HandlerCommit? && !s.callback.Recommit?)
    && (s.callback.HandlerCommit? || s.callback.Recommit? ==> s.callback.line in {Arm, Park} ==> s.slot.None?)
    && (s.callback.HandlerCommit? ==> s.user == Idle)
    && (s.user.Commit? && s.user.line == TakeBack && (s.slot.Some? || s.callback.Recommit?) ==> s.status == PENDING)
    && (s.user.Commit? && s.user.line == ArmAgain ==> s.status == PENDING)
    && s.refused == multiset{} && s.dropped == multiset{}
  }

  lemma UserSingle(s: State)
    requires Handshake(s) && Single(s) && s.user.Commit?
    ensures Single(UserStep(s))
  {
  }

  lemma CallbackSingle(s: State)
    requires Handshake(s) && Single(s)
    ensures Single(CallbackStep(s))
  {
  }

  lemma NextSingle(s: State, a: Action)
    requires Handshake(s) && Single(s) && (a.UserCommit? || a.Call? ==> Free(s))
    ensures Single(Next(s, a))
  {
    if a.UserGo? {
      if s.user.Commit? { UserSingle(s); }
    } else if a.CallbackGo? {
      CallbackSingle(s);
    }
  }

  lemma {:induction false} RunSingle(acts: seq<Action>)
    requires Disciplined(acts)
    ensures Single(Run(acts))
  {
    if acts != [] {
      var rest := acts[..|acts| - 1];
      forall i | 0 <= i < |rest| && (rest[i].UserCommit? || rest[i].Call?) ensures Free(Run(rest[..i])) {
        assert rest[i] == acts[i] && rest[..i] == acts[..i];
      }
      RunSingle(rest);
      RunKeeps(rest);
      NextSingle(Run(rest), acts[|acts| - 1]);
    }
  }

  lemma SettledCount(s: State, loop: nat)
    requires Handshake(s) && Single(s) && Accounted(s, loop) && s.status == PENDING && s.user == Idle
      && s.callback == Idle
    ensures s.issued[loop] == s.armed[loop]
  {
  }

  /**
   With one request on its way at a time nothing is refused or dropped, and every request ends up arming the event.
   */
  lemma DisciplinedArms(acts: seq<Action>, loop: nat)
    requires Disciplined(acts)
    ensures Run(acts).refused == multiset{} && Run(acts).dropped == multiset{}
    ensures Run(acts).status == PENDING && Run(acts).user == Idle && Run(acts).callback == Idle ==>
      Run(acts).issued[loop] == Run(acts).armed[loop]
  {
    RunSingle(acts);
    RunKeeps(acts);
    var s := Run(acts);
    if s.status == PENDING && s.user == Idle && s.callback == Idle { SettledCount(s, loop); }
  }

  // ---------------------------------------------------------------------------------------------
  // Without the discipline a re-commit can be lost
  // ---------------------------------------------------------------------------------------------

  lemma FirstFires() returns (acts: seq<Action>)
    ensures var s := Run(acts);
      && s.status == RUNNING && s.slot == None && s.user == Idle && s.callback == Handler
      && s.dropped == multiset{} && s.refused == multiset{}
  {
    acts := Do([], UserCommit(0));
    acts := Do(acts, UserGo);
    acts := Do(acts, Fire);
  }

  /** Request 1 is parked while the handler for request 0 runs, and taken by the callback thread. */
  lemma TakenByCallback() returns (acts: seq<Action>)
    ensures var s := Run(acts);
      && s.status == PENDING && s.slot == None && s.user == Idle && s.callback == Recommit(Arm, 1)
      && s.dropped == multiset{} && s.refused == multiset{}
  {
    acts := FirstFires();
    acts := ParkWhileBusy(acts, 1);
    acts := TakeParked(acts, 1);
  }

  lemma ResetStep(s: State)
    requires s.callback == Reset
    ensures Next(s, CallbackGo) == s.(status := PENDING, callback := Load)
  {
  }

  lemma TakeStep(s: State, loop: nat)
    requires s.slot == Some(loop) && (s.callback == Load || s.callback == Take(loop))
    ensures Next(s, CallbackGo) ==
      if s.callback == Load then s.(callback := Take(loop)) else s.(slot := None, callback := Recommit(Arm, loop))
  {
  }

  /** The handler returns, and its thread resets the event and takes the parked request. */
  lemma TakeParked(before: seq<Action>, loop: nat) returns (acts: seq<Action>)
    requires Run(before).callback == Handler && Run(before).slot == Some(loop)
    ensures Run(acts) == Run(before).(status := PENDING, slot := None, callback := Recommit(Arm, loop))
  {
    acts := Do(before, Return);
    ResetStep(Run(acts));
    acts := Do(acts, CallbackGo);
    TakeStep(Run(acts), loop);
    acts := Do(acts, CallbackGo);
    TakeStep(Run(acts), loop);
    acts := Do(acts, CallbackGo);
  }

  /** A commit of a busy event parks its request and reports success. */
  lemma ParkWhileBusy(before: seq<Action>, loop: nat) returns (acts: seq<Action>)
    requires Run(before).status != PENDING && Run(before).slot == None && Run(before).user == Idle
    ensures Run(acts) == Run(before).(slot := Some(loop), issued := Run(before).issued + multiset{loop})
  {
    var s := Run(before).(issued := Run(before).issued + multiset{loop});
    acts := Do(before, UserCommit(loop));
    assert Run(acts) == s.(user := Commit(Arm, loop));
    acts := Do(acts, UserGo);
    assert Run(acts) == s.(user := Commit(Park, loop));
    acts := Do(acts, UserGo);
    assert Run(acts) == s.(user := Commit(Look, loop), slot := Some(loop));
    acts := Do(acts, UserGo);
  }

  lemma ArmStep(s: State, loop: nat)
    requires s.status == PENDING && s.user == Commit(Arm, loop)
    ensures Next(s, UserGo) == s.(status := COMMITED, user := Idle, armed := s.armed + multiset{loop})
  {
  }

  /** Back at its commit, the callback thread finds the event armed and the slot full. */
  lemma RecommitFails(before: seq<Action>, loop: nat) returns (acts: seq<Action>)
    requires Run(before).status == COMMITED && Run(before).slot.Some? && Run(before).callback == Recommit(Arm, loop)
    ensures Run(acts) == Run(before).(callback := Idle, dropped := Run(before).dropped + multiset{loop})
  {
    acts := Do(before, CallbackGo);
    assert Run(acts) == Run(before).(callback := Recommit(Park, loop));
    acts := Do(acts, CallbackGo);
  }

  /**
   Request 1 was accepted, and is lost: the committer arms request 2 and parks request 3 before the callback thread
   goes on.
   */
  lemma LosingRun() returns (acts: seq<Action>)
    ensures Run(acts).dropped == multiset{1} && Run(acts).refused == multiset{}
    ensures Run(acts).user == Idle && Run(acts).callback == Idle
  {
    acts := TakenByCallback();
    acts := Do(acts, UserCommit(2));
    ArmStep(Run(acts), 2);
    acts := Do(acts, UserGo);
    acts := ParkWhileBusy(acts, 3);
    acts := RecommitFails(acts, 1);
    assert multiset{} + multiset{1} == multiset{1};
  }
}
