/** The always-warm handler, and the event loop of a frontend running with it: two loops
    that meet on an unbuffered command channel and on a channel of warm tokens. */
module Always {
  import opened Wrappers
  import opened Lifecycle

  datatype Command = CmdStart | CmdStop | CmdClose

  /** What the handler's own loop received and queued. */
  datatype LoopEvent = Received(cmd: Command) | Queued

  /** The handler's loop is at its outer select, at the inner one that offers a token, or over. */
  datatype LoopPc = Waiting | Offering | Exited

  datatype Handler = Handler(closed: bool, pc: LoopPc, running: bool, tokens: nat, log: seq<LoopEvent>)

  const NEW_HANDLER := Handler(false, Waiting, false, 0, [])

  const TOKEN_CAPACITY := 1

  function CommandOf(call: Call): Command {
    match call
    case CallStart => CmdStart
    case CallStop => CmdStop
    case CallClose => CmdClose
  }

  /** `Start`, `Stop` and `Close` before the send: nothing to send once closed. */
  function BeginCall(h: Handler, call: Call): (Handler, Option<Command>) {
    if h.closed then (h, None)
    else if call.CallClose? then (h.(closed := true), Some(CmdClose))
    else (h, Some(CommandOf(call)))
  }

  /** The loop receives a command at its outer select. */
  function Receive(h: Handler, cmd: Command): Handler {
    var h := h.(log := h.log + [Received(cmd)]);
    match cmd
    case CmdStart => h.(running := true)
    case CmdStop => h.(running := false)
    case CmdClose => h.(pc := Exited)
  }

  function Tick(h: Handler): Handler {
    if h.running then h.(pc := Offering) else h
  }

  /** A token is queued if there is room; the send never waits. */
  function Offer(h: Handler): Handler {
    if h.tokens < TOKEN_CAPACITY then h.(pc := Waiting, tokens := h.tokens + 1, log := h.log + [Queued])
    else h.(pc := Waiting)
  }

  /** How far a handler call made by the frontend's loop has come. */
  datatype CallPc = NoCall | Checking | Sending(cmd: Command) | Returning

  datatype System = System(front: Front, call: CallPc, handler: Handler)

  const NEW_SYSTEM := System(NEW_FRONT, NoCall, NEW_HANDLER)

  datatype Move =
    | FrontMove(a: Action)
    | EnterCall
    | CheckClosed
    | Rendezvous
    | ReturnCall
    | TakeToken
    | TickMove
    | OfferMove

  /** One step of the two loops and the callers; None when it is not possible. */
  function Advance(s: System, move: Move): Option<System> {
    match move
    case FrontMove(a) =>
      if a.LoopEnter? || a.LoopLeave? || a.LoopWarm? then None
      else
        var f := Next(s.front, a);
        if f.Some? then Some(s.(front := f.value)) else None
    case EnterCall =>
      var f := Next(s.front, LoopEnter);
      if f.Some? then Some(s.(front := f.value, call := Checking)) else None
    case CheckClosed =>
      if s.call.Checking? && s.front.pc.Inside? then
        var r := BeginCall(s.handler, s.front.pc.call);
        Some(s.(handler := r.0, call := if r.1.Some? then Sending(r.1.value) else Returning))
      else None
    case Rendezvous =>
      if s.call.Sending? && s.handler.pc.Waiting?
      then Some(s.(handler := Receive(s.handler, s.call.cmd), call := Returning))
      else None
    case ReturnCall =>
      var f := Next(s.front, LoopLeave(true));
      if s.call.Returning? && f.Some? then Some(s.(front := f.value, call := NoCall)) else None
    case TakeToken =>
      if s.front.pc.Select? && s.handler.tokens > 0
      then Some(s.(handler := s.handler.(tokens := s.handler.tokens - 1)))
      else None
    case TickMove => if s.handler.pc.Waiting? then Some(s.(handler := Tick(s.handler))) else None
    case OfferMove => if s.handler.pc.Offering? then Some(s.(handler := Offer(s.handler))) else None
  }

  /** The last command received is a start, and only tokens were queued since. */
  ghost predicate LastIsStart(log: seq<LoopEvent>, n: nat) {
    n <= |log| && exists j :: 0 <= j < n && log[j] == Received(CmdStart) && forall k :: j < k < n ==> log[k] == Queued
  }

  /** Tokens are queued only between a received start and the next received stop or close. */
  ghost predicate WarmOnlyWhileStarted(log: seq<LoopEvent>) {
    forall i :: 0 <= i < |log| && log[i] == Queued ==> LastIsStart(log, i)
  }

  /** The frontend's loop is past the handler's Close. */
  predicate PastClose(f: Front) {
    f.pc.EndDelete? || f.pc.EndCommit? || f.pc.Done?
  }

  ghost predicate SysInv(s: System) {
    && Inv(s.front)
    && (s.call.NoCall? <==> !s.front.pc.Inside?)
    && (s.call.Sending? ==> s.call.cmd == CommandOf(s.front.pc.call))
    && (s.handler.closed <==> PastClose(s.front) ||
                              (s.front.pc == Inside(CallClose) && (s.call.Sending? || s.call.Returning?)))
    && (s.handler.pc.Exited? <==> PastClose(s.front) || (s.front.pc == Inside(CallClose) && s.call.Returning?))
    && (s.handler.pc.Offering? ==> s.handler.running)
    && (!s.handler.pc.Exited? ==> (s.handler.running <==> LastIsStart(s.handler.log, |s.handler.log|)))
    && s.handler.tokens <= TOKEN_CAPACITY
    && WarmOnlyWhileStarted(s.handler.log)
  }

  lemma LogGrows(log: seq<LoopEvent>, e: LoopEvent)
    requires WarmOnlyWhileStarted(log) && (e == Queued ==> LastIsStart(log, |log|))
    ensures WarmOnlyWhileStarted(log + [e])
    ensures LastIsStart(log + [e], |log| + 1) <==> e == Queued || e == Received(CmdStart)
  {
    var log' := log + [e];
    forall i | 0 <= i < |log'| && log'[i] == Queued ensures LastIsStart(log', i) {
      var j :| 0 <= j < i && log[j] == Received(CmdStart) && forall k :: j < k < i ==> log[k] == Queued;
      assert log'[j] == Received(CmdStart);
    }
    if e == Queued {
      var j :| 0 <= j < |log| && log[j] == Received(CmdStart) && forall k :: j < k < |log| ==> log[k] == Queued;
      assert log'[j] == Received(CmdStart);
    }
    assert log'[|log|] == e;
  }

  lemma MoveKeeps(s: System, move: Move)
    requires SysInv(s) && Advance(s, move).Some?
    ensures SysInv(Advance(s, move).value)
  {
    hide WarmOnlyWhileStarted, LastIsStart;
    match move
    case FrontMove(a) =>
      NextKeeps(s.front, a);
      FrontMoveKeeps(s, a);
    case EnterCall =>
      NextKeeps(s.front, LoopEnter);
      EnterCallKeeps(s);
    case ReturnCall =>
      NextKeeps(s.front, LoopLeave(true));
      ReturnCallKeeps(s);
    case Rendezvous =>
      hide Inv;
      LogGrows(s.handler.log, Received(s.call.cmd));
    case OfferMove =>
      hide Inv;
      LogGrows(s.handler.log, Queued);
    case _ =>
      hide Inv;
  }

  lemma FrontMoveKeeps(s: System, a: Action)
    requires SysInv(s) && Advance(s, FrontMove(a)).Some? && Inv(Advance(s, FrontMove(a)).value.front)
    ensures SysInv(Advance(s, FrontMove(a)).value)
  {
    hide Inv, WarmOnlyWhileStarted, LastIsStart;
  }

  lemma EnterCallKeeps(s: System)
    requires SysInv(s) && Advance(s, EnterCall).Some? && Inv(Advance(s, EnterCall).value.front)
    ensures SysInv(Advance(s, EnterCall).value)
  {
    hide Inv, WarmOnlyWhileStarted, LastIsStart;
  }

  lemma ReturnCallKeeps(s: System)
    requires SysInv(s) && Advance(s, ReturnCall).Some? && Inv(Advance(s, ReturnCall).value.front)
    ensures SysInv(Advance(s, ReturnCall).value)
  {
    hide Inv, WarmOnlyWhileStarted, LastIsStart;
  }

  function RunSystem(s: System, moves: seq<Move>): Option<System> {
    if moves == [] then Some(s)
    else
      var r := RunSystem(s, moves[..|moves| - 1]);
      if r.None? then None else Advance(r.value, moves[|moves| - 1])
  }

  lemma {:induction false} RunSystemKeeps(moves: seq<Move>)
    requires RunSystem(NEW_SYSTEM, moves).Some?
    ensures SysInv(RunSystem(NEW_SYSTEM, moves).value)
  {
    hide SysInv, Advance;
    if moves == [] {
      FreshSystem();
    } else {
      RunSystemKeeps(moves[..|moves| - 1]);
      MoveKeeps(RunSystem(NEW_SYSTEM, moves[..|moves| - 1]).value, moves[|moves| - 1]);
    }
  }

  /** The loops never wait for each other forever: whenever the frontend's loop is sending a
      command, the handler's loop is alive and at most one step of its own away from receiving it;
      and tokens are queued only between a received start and the next received stop or close. */
  lemma NoMutualWait(moves: seq<Move>)
    requires RunSystem(NEW_SYSTEM, moves).Some?
    ensures var s := RunSystem(NEW_SYSTEM, moves).value;
            && SysInv(s) && History(s.front.trace)
            && WarmOnlyWhileStarted(s.handler.log)
            && (s.call.Sending? ==>
                  || Advance(s, Rendezvous).Some?
                  || (Advance(s, OfferMove).Some? && Advance(Advance(s, OfferMove).value, Rendezvous).Some?))
            && (s.front.pc.Inside? && !s.call.Sending? ==>
                  Advance(s, CheckClosed).Some? || Advance(s, ReturnCall).Some?)
  {
    RunSystemKeeps(moves);
    var s := RunSystem(NEW_SYSTEM, moves).value;
    CallReturns(s);
    hide RunSystem, Advance, WarmOnlyWhileStarted, LastIsStart, Inv, History;
    InvHistory(s.front);
  }

  lemma CallReturns(s: System)
    requires SysInv(s)
    ensures s.call.Sending? ==>
              || Advance(s, Rendezvous).Some?
              || (Advance(s, OfferMove).Some? && Advance(Advance(s, OfferMove).value, Rendezvous).Some?)
    ensures s.front.pc.Inside? && !s.call.Sending? ==> Advance(s, CheckClosed).Some? || Advance(s, ReturnCall).Some?
  {
    hide WarmOnlyWhileStarted, LastIsStart, Inv;
  }

  // The handler follows its calls

  /** The last call that was left is a Start. */
  function StartedLast(t: seq<Event>): bool {
    if t == [] then false
    else if t[|t| - 1].Leave? then t[|t| - 1].call.CallStart?
    else StartedLast(t[..|t| - 1])
  }

  lemma StartedLastGrows(t: seq<Event>, e: Event)
    ensures StartedLast(t + [e]) == if e.Leave? then e.call.CallStart? else StartedLast(t)
  {
    assert (t + [e])[..|t|] == t;
  }

  /** Until its loop ends, the handler is running exactly when the last finished call, or the one that is about to
      return, is a Start. */
  ghost predicate FollowsCalls(s: System) {
    !s.handler.pc.Exited? ==>
      (s.handler.running <==>
       if s.call.Returning? && s.front.pc.Inside? then s.front.pc.call.CallStart? else StartedLast(s.front.trace))
  }

  lemma MoveFollows(s: System, move: Move)
    requires SysInv(s) && FollowsCalls(s) && Advance(s, move).Some?
    ensures FollowsCalls(Advance(s, move).value)
  {
    hide StartedLast, Inv, LastIsStart, WarmOnlyWhileStarted;
    if move.EnterCall? {
      StartedLastGrows(s.front.trace, Enter(s.front.pc.call));
    } else if move.ReturnCall? {
      StartedLastGrows(s.front.trace, Leave(s.front.pc.call, true));
    }
  }

  lemma {:induction false} RunningMeaning(moves: seq<Move>)
    requires RunSystem(NEW_SYSTEM, moves).Some?
    ensures FollowsCalls(RunSystem(NEW_SYSTEM, moves).value)
  {
    hide SysInv, FollowsCalls, Advance;
    if moves == [] {
      FreshFollows();
    } else {
      var init, last := moves[..|moves| - 1], moves[|moves| - 1];
      RunningMeaning(init);
      RunSystemKeeps(init);
      MoveFollows(RunSystem(NEW_SYSTEM, init).value, last);
    }
  }

  lemma FreshFollows()
    ensures FollowsCalls(NEW_SYSTEM)
  {
  }

  // Tokens

  function QueuedIn(log: seq<LoopEvent>): nat {
    if log == [] then 0 else QueuedIn(log[..|log| - 1]) + if log[|log| - 1] == Queued then 1 else 0
  }

  function TakenIn(moves: seq<Move>): nat {
    if moves == [] then 0 else TakenIn(moves[..|moves| - 1]) + if moves[|moves| - 1].TakeToken? then 1 else 0
  }

  lemma QueuedLast(log: seq<LoopEvent>, e: LoopEvent)
    ensures QueuedIn(log + [e]) == QueuedIn(log) + if e == Queued then 1 else 0
  {
    assert (log + [e])[..|log|] == log;
  }

  /** Every token that was queued is still there or was taken by the frontend's loop. */
  lemma {:induction false} TokensConserved(moves: seq<Move>)
    requires RunSystem(NEW_SYSTEM, moves).Some?
    ensures var h := RunSystem(NEW_SYSTEM, moves).value.handler;
            QueuedIn(h.log) == h.tokens + TakenIn(moves)
  {
    hide QueuedIn, Advance;
    if moves == [] {
      NothingQueued();
    } else {
      var init, last := moves[..|moves| - 1], moves[|moves| - 1];
      TokensConserved(init);
      MoveConserves(RunSystem(NEW_SYSTEM, init).value, last);
    }
  }

  lemma NothingQueued()
    ensures QueuedIn([]) == 0
  {
  }

  lemma MoveConserves(s: System, move: Move)
    requires Advance(s, move).Some?
    ensures var h, h' := s.handler, Advance(s, move).value.handler;
            QueuedIn(h'.log) - h'.tokens == QueuedIn(h.log) - h.tokens + if move.TakeToken? then 1 else 0
  {
    hide QueuedIn, Next;
    QueuedLast(s.handler.log, Queued);
    if s.call.Sending? {
      QueuedLast(s.handler.log, Received(s.call.cmd));
    }
  }

  /** A tick of the timer queues a token exactly when the handler is running and none is waiting, and either way
      the loop is back at its select. */
  lemma TickQueues(s: System)
    requires s.handler.pc.Waiting?
    ensures Advance(s, TickMove).Some?
    ensures var t := Advance(s, TickMove).value;
            && (t.handler.pc.Offering? <==> s.handler.running)
            && (!s.handler.running ==> t == s)
            && (s.handler.running ==>
                  && Advance(t, OfferMove).Some?
                  && var u := Advance(t, OfferMove).value.handler;
                     && u.pc.Waiting? && u.running
                     && u.tokens == (if s.handler.tokens == 0 then 1 else s.handler.tokens)
                     && u.log == if s.handler.tokens == 0 then s.handler.log + [Queued] else s.handler.log)
  {
  }

  lemma FreshSystem()
    ensures SysInv(NEW_SYSTEM)
  {
    FreshInv();
  }

  /** The handler as an object; `commands` is the channel its two halves meet on. */
  class AlwaysHandler {
    var closed: bool
    var running: bool
    var tokens: nat
    ghost var pc: LoopPc
    ghost var log: seq<LoopEvent>

    ghost function View(): Handler
      reads this
    {
      Handler(closed, pc, running, tokens, log)
    }

    constructor ()
      ensures View() == NEW_HANDLER
    {
      closed, running, tokens, pc, log := false, false, 0, Waiting, [];
    }

    /** `Start` and `Stop` up to the send. */
    method Command(call: Call) returns (cmd: Option<Command>)
      requires !call.CallClose?
      ensures (View(), cmd) == BeginCall(View(), call)
    {
      if closed { return None; }
      return Some(CommandOf(call));
    }

    /** `Close` up to the send. */
    method CommandClose() returns (cmd: Option<Command>)
      modifies this`closed
      ensures (View(), cmd) == BeginCall(old(View()), CallClose)
    {
      if closed { return None; }
      closed := true;
      return Some(CmdClose);
    }

    /** A round of the loop that received a command; `more` tells whether another follows. */
    method LoopCommand(cmd: Command) returns (more: bool)
      requires pc == Waiting
      modifies this
      ensures View() == Receive(old(View()), cmd) && (more <==> pc == Waiting)
    {
      log := log + [Received(cmd)];
      match cmd
      case CmdStart =>
        if !running { running := true; }
        return true;
      case CmdStop =>
        if running { running := false; }
        return true;
      case CmdClose =>
        pc := Exited;
        return false;
    }

    /** A round of the loop on a tick of the timer. */
    method LoopTick()
      requires pc == Waiting
      modifies this
      ensures View() == if old(running) then Offer(Tick(old(View()))) else old(View())
      ensures tokens == if old(running) && old(tokens) == 0 then 1 else old(tokens)
    {
      if running {
        if tokens < TOKEN_CAPACITY {
          tokens := tokens + 1;
          log := log + [Queued];
        }
      }
    }
  }
}
