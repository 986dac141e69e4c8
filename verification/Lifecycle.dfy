/** The lifecycle of a frontend as a state machine of atomic steps: callers, the
    cancelling of the context, and the event loop, interleaved in any way. */
module Lifecycle {
  import opened Wrappers

  datatype State = Stopped | Starting | Running | Stopping | Closed

  datatype Call = CallStart | CallStop | CallClose

  /** The handler is entered and left outside the lock. */
  datatype Event = Enter(call: Call) | Leave(call: Call, ok: bool)

  /** Where the event loop is: at its select, in `startBlocking` or `stopBlocking` (before the
      guard, past it, inside the handler, or before the second lock), or in `endBlocking`. */
  datatype Pc =
    | Select
    | Guard(call: Call)
    | Calling(call: Call)
    | Inside(call: Call)
    | Commit(call: Call, ok: bool)
    | EndMark
    | EndDelete(ok: bool)
    | EndCommit(ok: bool)
    | Done

  /** `err` tells whether the last error is set; `requests` is the channel of capacity one. */
  datatype Front = Front(
    state: State,
    err: bool,
    requests: seq<State>,
    cancelled: bool,
    pc: Pc,
    trace: seq<Event>)

  const CAPACITY := 1

  const NEW_FRONT := Front(Stopped, false, [], false, Select, [])

  datatype Action =
    | DoStart
    | DoStop
    | DoMarkClosed
    | DoCancel
    | LoopCancelled
    | LoopWarm
    | LoopReceive
    | LoopGuard
    | LoopEnter
    | LoopLeave(ok: bool)
    | LoopCommit
    | LoopMark
    | LoopDelete(ok: bool)
    | LoopEnd

  predicate IsLoop(a: Action) {
    !(a.DoStart? || a.DoStop? || a.DoMarkClosed? || a.DoCancel?)
  }

  /** A send made while the lock is held: nothing can happen when the channel is full. */
  function Send(s: Front, request: State): Option<Front> {
    if |s.requests| < CAPACITY
    then Some(s.(err := false, state := request, requests := s.requests + [request]))
    else None
  }

  /** One atomic step, or None when the action is not possible or blocks. */
  function Next(s: Front, a: Action): Option<Front> {
    match a
    case DoStart => if s.state.Stopped? then Send(s, Starting) else Some(s)
    case DoStop => if s.state.Running? then Send(s, Stopping) else Some(s)
    case DoMarkClosed => Some(s.(state := Closed))
    case DoCancel => Some(s.(cancelled := true))
    case LoopCancelled => if s.pc.Select? && s.cancelled then Some(s.(pc := EndMark)) else None
    case LoopWarm => if s.pc.Select? then Some(s) else None
    case LoopReceive =>
      if s.pc.Select? && s.requests != [] then
        Some(s.(requests := s.requests[1..],
                pc := if s.requests[0] == Starting then Guard(CallStart)
                      else if s.requests[0] == Stopping then Guard(CallStop)
                      else Select))
      else None
    case LoopGuard =>
      if s.pc.Guard? then Some(s.(pc := if s.state.Closed? then Select else Calling(s.pc.call))) else None
    case LoopEnter =>
      if s.pc.Calling? then Some(s.(pc := Inside(s.pc.call), trace := s.trace + [Enter(s.pc.call)])) else None
    case LoopLeave(ok) =>
      if s.pc.Inside? then
        Some(s.(pc := if s.pc.call.CallClose? then EndDelete(ok) else Commit(s.pc.call, ok),
                trace := s.trace + [Leave(s.pc.call, ok)]))
      else None
    case LoopCommit =>
      if !s.pc.Commit? then None
      else if s.state.Closed? then Some(s.(pc := Select))
      else
        var failed := if s.pc.call.CallStart? then Stopping else Starting;
        var reached := if s.pc.call.CallStart? then Running else Stopped;
        Some(s.(err := !s.pc.ok, state := if s.pc.ok then reached else failed, pc := Select))
    case LoopMark => if s.pc.EndMark? then Some(s.(state := Closed, pc := Calling(CallClose))) else None
    case LoopDelete(ok) => if s.pc.EndDelete? then Some(s.(pc := EndCommit(s.pc.ok && ok))) else None
    case LoopEnd => if s.pc.EndCommit? then Some(s.(err := !s.pc.ok, pc := Done)) else None
  }

  /** What `Start` and `Stop` answer. */
  predicate StartReply(state: State) { state.Stopped? || state.Starting? || state.Running? }

  predicate StopReply(state: State) { state.Running? || state.Stopping? || state.Stopped? }

  // The history of handler calls

  /** The event at position `i` of Start Stop Start Stop ..., all successful. */
  function Expected(i: nat): Event {
    if i % 4 == 0 then Enter(CallStart)
    else if i % 4 == 1 then Leave(CallStart, true)
    else if i % 4 == 2 then Enter(CallStop)
    else Leave(CallStop, true)
  }

  /** Calls never overlap; they alternate between Start and Stop, beginning with Start, until
      one Close, which is the last; and after a Start or Stop that failed only Close follows. */
  ghost predicate History(t: seq<Event>) {
    && (forall i :: 0 <= i < |t| && i % 2 == 0 ==> t[i].Enter?)
    && (forall i :: 0 <= i < |t| && i % 2 == 1 ==> t[i].Leave? && t[i].call == t[i - 1].call)
    && (forall i :: 0 <= i < |t| && t[i].call.CallClose? ==> i + 2 >= |t|)
    && (forall i :: 0 <= i < |t| && !t[i].call.CallClose? ==> t[i].call == Expected(i).call)
    && (forall i :: 0 <= i < |t| - 1 && t[i].Leave? && !t[i].ok ==> t[i + 1] == Enter(CallClose))
  }

  ghost predicate Regular(t: seq<Event>) {
    forall i :: 0 <= i < |t| ==> t[i] == Expected(i)
  }

  ghost predicate ReadyToStart(t: seq<Event>) { |t| % 4 == 0 && Regular(t) }

  ghost predicate ReadyToStop(t: seq<Event>) { |t| % 4 == 2 && Regular(t) }

  ghost predicate Ready(t: seq<Event>, call: Call) {
    if call.CallStart? then ReadyToStart(t) else call.CallStop? && ReadyToStop(t)
  }

  /** The last call failed, and it was this one. */
  ghost predicate Failed(t: seq<Event>, call: Call) {
    && |t| > 0
    && |t| % 4 == (if call.CallStart? then 2 else 0)
    && Regular(t[..|t| - 1])
    && t[|t| - 1] == Leave(call, false)
    && !call.CallClose?
  }

  /** All calls are over. */
  ghost predicate Settled(t: seq<Event>) {
    ReadyToStart(t) || ReadyToStop(t) || Failed(t, CallStart) || Failed(t, CallStop)
  }

  function Init(t: seq<Event>, n: nat): seq<Event> {
    if n <= |t| then t[..|t| - n] else []
  }

  // The invariant

  /** The state word, the channel and the history while the loop is at its select. */
  ghost predicate AtRest(s: Front) {
    && Settled(s.trace)
    && (s.state.Stopped? ==> s.requests == [] && ReadyToStart(s.trace))
    && (s.state.Running? ==> s.requests == [] && ReadyToStop(s.trace))
    && (s.state.Starting? ==> s.requests == [Starting] || (s.requests == [] && Failed(s.trace, CallStop)))
    && (s.state.Stopping? ==> s.requests == [Stopping] || (s.requests == [] && Failed(s.trace, CallStart)))
    && (s.requests == [Starting] ==> ReadyToStart(s.trace))
    && (s.requests == [Stopping] ==> ReadyToStop(s.trace))
  }

  /** The request for this call has been taken and nothing else can be sent. */
  ghost predicate Serving(s: Front, call: Call) {
    s.requests == [] && (s.state.Closed? || s.state == if call.CallStart? then Starting else Stopping)
  }

  ghost predicate Inv(s: Front) {
    && (s.requests == [] || s.requests == [Starting] || s.requests == [Stopping])
    && match s.pc
       case Select => AtRest(s)
       case Guard(call) => Serving(s, call) && Ready(s.trace, call)
       case Calling(call) =>
         if call.CallClose? then s.state.Closed? && s.cancelled && Settled(s.trace)
         else Serving(s, call) && Ready(s.trace, call)
       case Inside(call) =>
         && |s.trace| > 0 && s.trace[|s.trace| - 1] == Enter(call)
         && if call.CallClose? then s.state.Closed? && s.cancelled && Settled(Init(s.trace, 1))
            else Serving(s, call) && Ready(Init(s.trace, 1), call)
       case Commit(call, ok) =>
         && !call.CallClose? && |s.trace| > 1
         && s.trace[|s.trace| - 1] == Leave(call, ok) && s.trace[|s.trace| - 2] == Enter(call)
         && Serving(s, call) && Ready(Init(s.trace, 2), call)
       case EndMark => AtRest(s) && s.cancelled
       case _ =>
         && s.state.Closed? && s.cancelled && |s.trace| > 1
         && s.trace[|s.trace| - 1].Leave? && s.trace[|s.trace| - 1].call.CallClose?
         && s.trace[|s.trace| - 2] == Enter(CallClose)
         && Settled(Init(s.trace, 2))
  }

  lemma CallSettles(t: seq<Event>, call: Call, ok: bool)
    requires |t| > 1 && t[|t| - 1] == Leave(call, ok) && t[|t| - 2] == Enter(call)
    requires Ready(Init(t, 2), call)
    ensures if !ok then Failed(t, call) else if call.CallStart? then ReadyToStop(t) else ReadyToStart(t)
  {
    var n := |t|;
    assert forall i :: 0 <= i < n - 2 ==> t[i] == Init(t, 2)[i];
    assert t[n - 2] == Expected(n - 2);
    assert ok ==> t[n - 1] == Expected(n - 1);
  }

  /** Every step keeps the invariant, and Closed is never left. */
  lemma NextKeeps(s: Front, a: Action)
    requires Inv(s) && Next(s, a).Some?
    ensures Inv(Next(s, a).value)
    ensures s.state.Closed? ==> Next(s, a).value.state.Closed?
  {
    match a
    case LoopEnter => EnterKeeps(s);
    case LoopLeave(ok) => LeaveKeeps(s, ok);
    case LoopCommit => CommitKeeps(s);
    case LoopGuard => GuardKeeps(s);
    case LoopReceive => ReceiveKeeps(s);
    case _ =>
      hide Inv;
      if IsLoop(a) {
        MoveOnKeeps(s, a);
      } else {
        CallerKeeps(s, a);
      }
  }

  lemma EnterKeeps(s: Front)
    requires Inv(s) && Next(s, LoopEnter).Some?
    ensures Inv(Next(s, LoopEnter).value)
  {
    assert Init(s.trace + [Enter(s.pc.call)], 1) == s.trace;
    hide Ready, Settled, AtRest, Init;
  }

  lemma LeaveKeeps(s: Front, ok: bool)
    requires Inv(s) && Next(s, LoopLeave(ok)).Some?
    ensures Inv(Next(s, LoopLeave(ok)).value)
  {
    var t := s.trace + [Leave(s.pc.call, ok)];
    assert Init(t, 2) == Init(s.trace, 1);
    hide Ready, Settled, AtRest, Init;
  }

  lemma CommitKeeps(s: Front)
    requires Inv(s) && Next(s, LoopCommit).Some?
    ensures Inv(Next(s, LoopCommit).value)
  {
    hide Regular, Expected;
    CallSettles(s.trace, s.pc.call, s.pc.ok);
  }

  lemma GuardKeeps(s: Front)
    requires Inv(s) && Next(s, LoopGuard).Some?
    ensures Inv(Next(s, LoopGuard).value)
  {
    hide ReadyToStart, ReadyToStop, Failed;
  }

  lemma ReceiveKeeps(s: Front)
    requires Inv(s) && Next(s, LoopReceive).Some?
    ensures Inv(Next(s, LoopReceive).value)
  {
    hide Settled, ReadyToStart, ReadyToStop, Failed;
  }

  lemma MoveOnKeeps(s: Front, a: Action)
    requires a.LoopCancelled? || a.LoopWarm? || a.LoopMark? || a.LoopDelete? || a.LoopEnd?
    requires Inv(s) && Next(s, a).Some?
    ensures Inv(Next(s, a).value)
  {
    hide Settled, ReadyToStart, ReadyToStop, Failed, Init;
  }

  /** What callers do needs nothing of the history but where the next request may go. */
  lemma CallerKeeps(s: Front, a: Action)
    requires Inv(s) && !IsLoop(a) && Next(s, a).Some?
    ensures Inv(Next(s, a).value)
    ensures s.state.Closed? ==> Next(s, a).value.state.Closed?
  {
    hide Settled, ReadyToStart, ReadyToStop, Failed, Init, Ready;
    if a.DoMarkClosed? || a.DoCancel? {
      assert a.DoMarkClosed? ==> Next(s, a) == Some(s.(state := Closed));
    } else if s.state.Stopped? || s.state.Running? {
      SendNeverBlocks(s);
    }
  }

  /** The send made while holding the lock never blocks, in any reachable state; more
      generally Stopped and Running mean that nothing is pending and no Start or Stop runs. */
  lemma SendNeverBlocks(s: Front)
    requires Inv(s)
    ensures Next(s, DoStart).Some? && Next(s, DoStop).Some?
    ensures s.state.Stopped? || s.state.Running? ==> s.requests == [] && (s.pc.Select? || s.pc.EndMark?)
  {
  }

  lemma ExpectedShape(i: nat)
    ensures !Expected(i).call.CallClose?
    ensures i % 2 == 0 ==> Expected(i).Enter?
    ensures i % 2 == 1 ==> Expected(i).Leave? && Expected(i).ok && Expected(i).call == Expected(i - 1).call
  {
    Parity(i / 4, i % 4);
  }

  lemma Parity(k: nat, r: nat)
    requires r < 4
    ensures (4 * k + r) % 2 == r % 2 && (4 * k + r) % 4 == r
    ensures r % 2 == 1 ==> (4 * k + r - 1) % 4 == r - 1
  {
  }

  lemma RegularHistory(t: seq<Event>)
    requires Regular(t)
    ensures History(t) && forall i :: 0 <= i < |t| ==> !t[i].call.CallClose? && (t[i].Leave? ==> t[i].ok)
  {
    hide Expected;
    forall i | 0 <= i < |t| ensures !t[i].call.CallClose? && t[i].call == Expected(i).call {
      ExpectedShape(i);
    }
    forall i | 0 <= i < |t| ensures t[i].Leave? ==> t[i].ok {
      ExpectedShape(i);
    }
    forall i | 0 <= i < |t| && i % 2 == 0 ensures t[i].Enter? {
      ExpectedShape(i);
    }
    forall i | 0 <= i < |t| && i % 2 == 1 ensures t[i].Leave? && t[i].call == t[i - 1].call {
      ExpectedShape(i);
      assert t[i - 1] == Expected(i - 1);
    }
  }

  /** One more event after a history without a close. */
  lemma HistoryGrows(t: seq<Event>, e: Event)
    requires History(t) && forall i :: 0 <= i < |t| ==> !t[i].call.CallClose?
    requires if |t| % 2 == 0 then e.Enter? else e.Leave? && e.call == t[|t| - 1].call
    requires e.call.CallClose? || e.call == Expected(|t|).call
    requires |t| > 0 && t[|t| - 1].Leave? && !t[|t| - 1].ok ==> e == Enter(CallClose)
    ensures History(t + [e])
  {
    hide Expected;
    var u := t + [e];
    assert forall i :: 0 <= i < |t| ==> u[i] == t[i];
  }

  lemma SettledHistory(t: seq<Event>)
    requires Settled(t)
    ensures |t| % 2 == 0 && History(t) && forall i :: 0 <= i < |t| ==> !t[i].call.CallClose?
  {
    hide History, Regular;
    if Failed(t, CallStart) {
      FailedHistory(t, CallStart);
    } else if Failed(t, CallStop) {
      FailedHistory(t, CallStop);
    } else {
      hide Failed;
      EvenLength(|t|);
      RegularHistory(t);
    }
  }

  lemma EvenLength(n: nat)
    requires n % 4 == 0 || n % 4 == 2
    ensures n % 2 == 0
  {
    Parity(n / 4, n % 4);
  }

  lemma FailedHistory(t: seq<Event>, call: Call)
    requires Failed(t, call)
    ensures |t| % 2 == 0 && History(t) && forall i :: 0 <= i < |t| ==> !t[i].call.CallClose?
  {
    var init, n := t[..|t| - 1], |t|;
    EvenLength(n);
    RegularHistory(init);
    assert t == init + [t[n - 1]];
    assert init[n - 2] == Expected(n - 2) == Enter(call);
    assert Expected(n - 1).call == call;
    hide Expected, Regular;
    HistoryGrows(init, t[n - 1]);
  }

  lemma EnteredHistory(t: seq<Event>, call: Call)
    requires |t| > 0 && t[|t| - 1] == Enter(call)
    requires if call.CallClose? then Settled(Init(t, 1)) else Ready(Init(t, 1), call)
    ensures History(t)
  {
    SettledHistory(Init(t, 1));
    if !call.CallClose? {
      RegularHistory(Init(t, 1));
    }
    assert t == Init(t, 1) + [Enter(call)];
    HistoryGrows(Init(t, 1), Enter(call));
  }

  lemma ClosedHistory(t: seq<Event>, ok: bool)
    requires |t| > 1 && t[|t| - 1] == Leave(CallClose, ok) && t[|t| - 2] == Enter(CallClose) && Settled(Init(t, 2))
    ensures History(t)
  {
    var base := Init(t, 2);
    SettledHistory(base);
    hide Expected, Settled;
    HistoryGrows(base, Enter(CallClose));
    CloseReturns(base + [Enter(CallClose)], ok);
    assert t == base + [Enter(CallClose)] + [Leave(CallClose, ok)];
  }

  lemma CloseReturns(u: seq<Event>, ok: bool)
    requires History(u) && |u| % 2 == 1 && u[|u| - 1] == Enter(CallClose)
    requires forall i :: 0 <= i < |u| - 1 ==> !u[i].call.CallClose?
    ensures History(u + [Leave(CallClose, ok)])
  {
    hide Expected;
    var t := u + [Leave(CallClose, ok)];
    assert forall i :: 0 <= i < |u| ==> t[i] == u[i];
    assert t[|u|].call == t[|u| - 1].call;
  }

  /** The invariant says what the history looks like. */
  lemma InvHistory(s: Front)
    requires Inv(s)
    ensures History(s.trace)
    ensures s.pc.Done? ==> |s.trace| > 1 && s.trace[|s.trace| - 1].call.CallClose?
  {
    hide History, Regular, Failed;
    var t := s.trace;
    match s.pc
    case Select => SettledHistory(t);
    case EndMark => SettledHistory(t);
    case Guard(call) => SettledHistory(t);
    case Calling(call) => SettledHistory(t);
    case Inside(call) => EnteredHistory(t, call);
    case Commit(call, ok) =>
      CallSettles(t, call, ok);
      SettledHistory(t);
    case _ => ClosedHistory(t, t[|t| - 1].ok);
  }

  // Runs

  function Run(s: Front, actions: seq<Action>): Option<Front> {
    if actions == [] then Some(s)
    else
      var r := Run(s, actions[..|actions| - 1]);
      if r.None? then None else Next(r.value, actions[|actions| - 1])
  }

  /** In every interleaving of callers, cancellation and the loop, the handler's call history
      is a prefix of (Start Stop)* [Start] Close without overlap, and no send under the lock blocks. */
  lemma {:induction false} EveryInterleaving(actions: seq<Action>)
    requires Run(NEW_FRONT, actions).Some?
    ensures var s := Run(NEW_FRONT, actions).value;
            && Inv(s) && History(s.trace)
            && Next(s, DoStart).Some? && Next(s, DoStop).Some?
            && (s.state.Stopped? || s.state.Running? ==> s.requests == [] && (s.pc.Select? || s.pc.EndMark?))
  {
    hide Inv, History, Next;
    if actions == [] {
      FreshInv();
    } else {
      var r := Run(NEW_FRONT, actions[..|actions| - 1]).value;
      EveryInterleaving(actions[..|actions| - 1]);
      NextKeeps(r, actions[|actions| - 1]);
    }
    var s := Run(NEW_FRONT, actions).value;
    InvHistory(s);
    SendNeverBlocks(s);
  }

  /** How often the handler's Start or Stop was entered. */
  function Entered(t: seq<Event>): nat {
    if t == [] then 0
    else
      var e := t[|t| - 1];
      Entered(t[..|t| - 1]) + if e.Enter? && !e.call.CallClose? then 1 else 0
  }

  /** The loop is past its guard and about to enter Start or Stop. */
  predicate PastGuard(s: Front) {
    s.pc.Calling? && !s.pc.call.CallClose?
  }

  /** In a closed frontend a step enters Start or Stop only by leaving the place past the guard,
      and none leads there. */
  lemma ClosedStep(s: Front, a: Action)
    requires s.state.Closed? && Next(s, a).Some?
    ensures var t := Next(s, a).value;
            && t.state.Closed? && Entered(t.trace) >= Entered(s.trace)
            && Entered(t.trace) + (if PastGuard(t) then 1 else 0) == Entered(s.trace) + (if PastGuard(s) then 1 else 0)
  {
    hide Entered;
    var t := Next(s, a).value;
    if a.LoopEnter? {
      EnteredLast(s.trace, Enter(s.pc.call));
    } else if a.LoopLeave? {
      EnteredLast(s.trace, Leave(s.pc.call, a.ok));
    } else {
      assert t.trace == s.trace;
    }
  }

  lemma EnteredLast(t: seq<Event>, e: Event)
    ensures Entered(t + [e]) == Entered(t) + if e.Enter? && !e.call.CallClose? then 1 else 0
  {
    assert (t + [e])[..|t|] == t;
  }

  /** After Closed was set, at most one more Start or Stop is entered, and none unless the loop
      was past its guard at that moment. */
  lemma {:induction false} AtMostOneLateCall(s: Front, actions: seq<Action>)
    requires s.state.Closed? && Run(s, actions).Some?
    ensures var t := Run(s, actions).value;
            && t.state.Closed?
            && Entered(s.trace) <= Entered(t.trace) <= Entered(s.trace) + (if PastGuard(s) then 1 else 0)
            && Entered(t.trace) + (if PastGuard(t) then 1 else 0) == Entered(s.trace) + (if PastGuard(s) then 1 else 0)
  {
    hide Next, Entered;
    if actions == [] {
    } else {
      AtMostOneLateCall(s, actions[..|actions| - 1]);
      ClosedStep(Run(s, actions[..|actions| - 1]).value, actions[|actions| - 1]);
    }
  }

  /** The handler can still be started or stopped after Closed was set exactly when the loop was
      past its guard at that moment. */
  lemma LateCall(s: Front)
    requires s.state.Closed?
    ensures PastGuard(s) <==>
            exists actions :: Run(s, actions).Some? && Entered(Run(s, actions).value.trace) > Entered(s.trace)
  {
    if PastGuard(s) {
      var t := Next(s, LoopEnter).value;
      assert [LoopEnter][..0] == [];
      assert Run(s, [LoopEnter]) == Some(t);
      EnteredLast(s.trace, Enter(s.pc.call));
      assert Entered(Run(s, [LoopEnter]).value.trace) > Entered(s.trace);
    }
    hide Run, Next, Entered;
    forall actions | Run(s, actions).Some? && Entered(Run(s, actions).value.trace) > Entered(s.trace)
      ensures PastGuard(s)
    {
      AtMostOneLateCall(s, actions);
    }
  }

  /** After a failed Start or Stop the frontend is stuck between two states: nothing is pending,
      and neither `Start` nor `Stop` changes anything until it is closed. */
  lemma FailureIsFinal(s: Front, call: Call)
    requires Inv(s) && s.pc.Select? && !s.state.Closed?
    requires s.trace != [] && s.trace[|s.trace| - 1] == Leave(call, false)
    ensures s.requests == [] && s.state == if call.CallStart? then Stopping else Starting
    ensures Next(s, DoStart) == Some(s) && Next(s, DoStop) == Some(s)
  {
    var n := |s.trace|;
    ExpectedShape(n - 1);
    assert Expected(n - 1) != Leave(call, false);
    assert !Regular(s.trace);
    hide Regular, Expected;
  }

  // The last error

  predicate LastFailed(t: seq<Event>) {
    t != [] && t[|t| - 1].Leave? && !t[|t| - 1].ok
  }

  /** While the frontend is open, the last error is set exactly when the last handler call failed, as soon as
      the loop has the lock again; at the end it also tells of the close and of the deletion. */
  ghost predicate ErrOk(s: Front) {
    match s.pc
    case Commit(_, _) => s.state.Closed? || !s.err
    case EndDelete(ok) => ok <==> !LastFailed(s.trace)
    case EndCommit(_) => true
    case Done => true
    case _ => s.state.Closed? || (s.err <==> LastFailed(s.trace))
  }

  lemma NextErr(s: Front, a: Action)
    requires Inv(s) && ErrOk(s) && Next(s, a).Some?
    ensures ErrOk(Next(s, a).value)
  {
    if a.DoStart? || a.DoStop? {
      SendNeverBlocks(s);
      if s.state.Stopped? || s.state.Running? {
        NothingFailed(s);
      }
    }
    hide Regular, Expected, Failed, Settled, ReadyToStart, ReadyToStop, Ready, Init;
  }

  lemma NothingFailed(s: Front)
    requires Inv(s) && (s.state.Stopped? || s.state.Running?)
    ensures !LastFailed(s.trace)
  {
    SendNeverBlocks(s);
    if s.trace != [] {
      ExpectedShape(|s.trace| - 1);
    }
    hide Expected;
  }

  lemma {:induction false} ErrMeaning(actions: seq<Action>)
    requires Run(NEW_FRONT, actions).Some?
    ensures Inv(Run(NEW_FRONT, actions).value) && ErrOk(Run(NEW_FRONT, actions).value)
  {
    hide Inv, ErrOk, Next;
    if actions == [] {
      FreshInv();
      FreshErr();
    } else {
      var init, last := actions[..|actions| - 1], actions[|actions| - 1];
      ErrMeaning(init);
      NextKeeps(Run(NEW_FRONT, init).value, last);
      NextErr(Run(NEW_FRONT, init).value, last);
    }
  }

  lemma FreshErr()
    ensures ErrOk(NEW_FRONT)
  {
  }

  // What a request leads to

  lemma RunAfter(s: Front, actions: seq<Action>, a: Action, r: Front, t: Front)
    requires Run(s, actions) == Some(r) && Next(r, a) == Some(t)
    ensures Run(s, actions + [a]) == Some(t)
  {
    hide Next;
    RunLast(s, actions, a);
  }

  /** The loop's part in a call of Start or Stop. */
  function Served(ok: bool): seq<Action> {
    [LoopReceive] + [LoopGuard] + [LoopEnter] + [LoopLeave(ok)] + [LoopCommit]
  }

  lemma RequestServed(s: Front, call: Call, ok: bool)
    requires !call.CallClose? && s.pc.Select? && s.requests == [if call.CallStart? then Starting else Stopping]
    requires !s.state.Closed?
    ensures Run(s, Served(ok)) ==
            Some(s.(requests := [], err := !ok, trace := s.trace + [Enter(call), Leave(call, ok)],
                    state := if call.CallStart? then (if ok then Running else Stopping)
                             else (if ok then Stopped else Starting)))
  {
    var s1 := s.(requests := [], pc := Guard(call));
    var s2 := s1.(pc := Calling(call));
    var s3 := s2.(pc := Inside(call), trace := s.trace + [Enter(call)]);
    var s4 := s3.(pc := Commit(call, ok), trace := s.trace + [Enter(call), Leave(call, ok)]);
    var s5 := s4.(pc := Select, err := !ok,
                  state := if call.CallStart? then (if ok then Running else Stopping)
                           else (if ok then Stopped else Starting));
    assert s.requests[1..] == [];
    assert s.trace + [Enter(call)] + [Leave(call, ok)] == s.trace + [Enter(call), Leave(call, ok)];
    assert Next(s, LoopReceive) == Some(s1) && Next(s1, LoopGuard) == Some(s2) && Next(s2, LoopEnter) == Some(s3);
    assert Next(s3, LoopLeave(ok)) == Some(s4) && Next(s4, LoopCommit) == Some(s5);
    RunNothing(s);
    hide Run, Next;
    assert [] + [LoopReceive] == [LoopReceive];
    RunAfter(s, [], LoopReceive, s, s1);
    RunAfter(s, [LoopReceive], LoopGuard, s1, s2);
    RunAfter(s, [LoopReceive] + [LoopGuard], LoopEnter, s2, s3);
    RunAfter(s, [LoopReceive] + [LoopGuard] + [LoopEnter], LoopLeave(ok), s3, s4);
    RunAfter(s, [LoopReceive] + [LoopGuard] + [LoopEnter] + [LoopLeave(ok)], LoopCommit, s4, s5);
  }

  lemma RunNothing(s: Front)
    ensures Run(s, []) == Some(s)
  {
  }

  /** A Start of a stopped frontend whose loop is at its select leads to the handler's Start, and that to
      Running, or to Stopping with the error set. */
  lemma StartServed(s: Front, ok: bool)
    requires Inv(s) && s.pc.Select? && s.state.Stopped?
    ensures Next(s, DoStart).Some?
    ensures Run(Next(s, DoStart).value, Served(ok)) ==
            Some(s.(err := !ok, trace := s.trace + [Enter(CallStart), Leave(CallStart, ok)],
                    state := if ok then Running else Stopping))
  {
    SendNeverBlocks(s);
    assert [] + [Starting] == [Starting];
    RequestServed(Next(s, DoStart).value, CallStart, ok);
  }

  /** A Stop of a running frontend whose loop is at its select leads to the handler's Stop, and that to
      Stopped, or to Starting with the error set. */
  lemma StopServed(s: Front, ok: bool)
    requires Inv(s) && s.pc.Select? && s.state.Running?
    ensures Next(s, DoStop).Some?
    ensures Run(Next(s, DoStop).value, Served(ok)) ==
            Some(s.(err := !ok, trace := s.trace + [Enter(CallStop), Leave(CallStop, ok)],
                    state := if ok then Stopped else Starting))
  {
    SendNeverBlocks(s);
    assert [] + [Stopping] == [Stopping];
    RequestServed(Next(s, DoStop).value, CallStop, ok);
  }

  function Ended(ok: bool, deleted: bool): seq<Action> {
    [DoMarkClosed] + [DoCancel] + [LoopCancelled] + [LoopMark] + [LoopEnter] + [LoopLeave(ok)] + [LoopDelete(deleted)]
    + [LoopEnd]
  }

  /** A Close, with the loop at its select, leads to the handler's Close and the end of the loop; the error is
      set exactly when that close or the deletion of the mapping failed. */
  lemma CloseServed(s: Front, ok: bool, deleted: bool)
    requires s.pc.Select?
    ensures Run(s, Ended(ok, deleted)) ==
            Some(s.(state := Closed, cancelled := true, pc := Done, err := !(ok && deleted),
                    trace := s.trace + [Enter(CallClose), Leave(CallClose, ok)]))
  {
    var s1 := s.(state := Closed);
    var s2 := s1.(cancelled := true);
    var s3 := s2.(pc := EndMark);
    var s4 := s3.(pc := Calling(CallClose));
    var s5 := s4.(pc := Inside(CallClose), trace := s.trace + [Enter(CallClose)]);
    var s6 := s5.(pc := EndDelete(ok), trace := s.trace + [Enter(CallClose), Leave(CallClose, ok)]);
    var s7 := s6.(pc := EndCommit(ok && deleted));
    var s8 := s7.(pc := Done, err := !(ok && deleted));
    assert s.trace + [Enter(CallClose)] + [Leave(CallClose, ok)] == s.trace + [Enter(CallClose), Leave(CallClose, ok)];
    assert Next(s, DoMarkClosed) == Some(s1) && Next(s1, DoCancel) == Some(s2) && Next(s2, LoopCancelled) == Some(s3);
    assert Next(s3, LoopMark) == Some(s4) && Next(s4, LoopEnter) == Some(s5) && Next(s5, LoopLeave(ok)) == Some(s6);
    assert Next(s6, LoopDelete(deleted)) == Some(s7) && Next(s7, LoopEnd) == Some(s8);
    RunNothing(s);
    hide Run, Next;
    var a := [DoMarkClosed] + [DoCancel] + [LoopCancelled] + [LoopMark];
    assert [] + [DoMarkClosed] == [DoMarkClosed];
    RunAfter(s, [], DoMarkClosed, s, s1);
    RunAfter(s, [DoMarkClosed], DoCancel, s1, s2);
    RunAfter(s, [DoMarkClosed] + [DoCancel], LoopCancelled, s2, s3);
    RunAfter(s, [DoMarkClosed] + [DoCancel] + [LoopCancelled], LoopMark, s3, s4);
    RunAfter(s, a, LoopEnter, s4, s5);
    RunAfter(s, a + [LoopEnter], LoopLeave(ok), s5, s6);
    RunAfter(s, a + [LoopEnter] + [LoopLeave(ok)], LoopDelete(deleted), s6, s7);
    RunAfter(s, a + [LoopEnter] + [LoopLeave(ok)] + [LoopDelete(deleted)], LoopEnd, s7, s8);
  }

  lemma FreshInv()
    ensures Inv(NEW_FRONT)
  {
  }

  /** The handler may still be started after Close was requested, because the lock is
      released between the check and the call. */
  lemma StartAfterCloseRequested()
    ensures var r := Run(NEW_FRONT, [DoStart, LoopReceive, LoopGuard, DoMarkClosed, LoopEnter]);
            r.Some? && r.value.state.Closed? && r.value.trace == [Enter(CallStart)]
  {
    var s1 := Front(Starting, false, [Starting], false, Select, []);
    var s2 := Front(Starting, false, [], false, Guard(CallStart), []);
    RunTwo(NEW_FRONT, DoStart, LoopReceive, s1, s2) by {
      assert NEW_FRONT.requests + [Starting] == [Starting] && s1.requests[1..] == [];
    }
    hide Run;
    RunLast(NEW_FRONT, [DoStart, LoopReceive], LoopGuard);
    RunLast(NEW_FRONT, [DoStart, LoopReceive] + [LoopGuard], DoMarkClosed);
    RunLast(NEW_FRONT, [DoStart, LoopReceive] + [LoopGuard] + [DoMarkClosed], LoopEnter);
    assert [DoStart, LoopReceive] + [LoopGuard] + [DoMarkClosed] + [LoopEnter]
        == [DoStart, LoopReceive, LoopGuard, DoMarkClosed, LoopEnter];
  }

  lemma RunTwo(s: Front, a: Action, b: Action, t: Front, u: Front)
    requires Next(s, a) == Some(t) && Next(t, b) == Some(u)
    ensures Run(s, [a, b]) == Some(u)
  {
    hide Next;
    assert [a, b][..1] == [a] && [a][..0] == [];
    assert Run(s, [a]) == Next(s, a);
  }

  lemma RunLast(s: Front, actions: seq<Action>, a: Action)
    ensures Run(s, actions + [a]) == if Run(s, actions).None? then None else Next(Run(s, actions).value, a)
  {
    hide Next;
    assert (actions + [a])[..|actions|] == actions;
  }

  // Shutdown

  /** How many loop steps other than warm signals can still happen. */
  function Remaining(s: Front): nat {
    var pending := if s.pc.Select? || s.pc.Guard? || s.pc.Commit? || (s.pc.Calling? && !s.pc.call.CallClose?)
                      || (s.pc.Inside? && !s.pc.call.CallClose?) then 5 * |s.requests| else 0;
    pending + match s.pc
              case Done => 0
              case EndCommit(_) => 1
              case EndDelete(_) => 2
              case Inside(call) => if call.CallClose? then 3 else 8
              case Calling(call) => if call.CallClose? then 4 else 9
              case EndMark => 5
              case Select => 6
              case Commit(_, _) => 7
              case Guard(_) => 10
  }

  /** Once closed and cancelled, every step of the loop but a warm signal brings it closer to
      its end, nothing the callers do pushes it back, and it is never stuck before the end.
      So a loop whose select does not serve warm signals forever ends, after one handler Close. */
  lemma ShutdownProgress(s: Front, a: Action)
    requires Inv(s) && s.state.Closed? && s.cancelled
    ensures Next(s, a).Some? && IsLoop(a) && !a.LoopWarm? ==> Remaining(Next(s, a).value) < Remaining(s)
    ensures Next(s, a).Some? && (!IsLoop(a) || a.LoopWarm?) ==> Remaining(Next(s, a).value) == Remaining(s)
    ensures Next(s, a).Some? ==> Next(s, a).value.cancelled
    ensures !s.pc.Done? ==> exists b :: IsLoop(b) && !b.LoopWarm? && Next(s, b).Some?
  {
    var b := match s.pc
      case Select => LoopCancelled
      case Guard(_) => LoopGuard
      case Calling(_) => LoopEnter
      case Inside(_) => LoopLeave(true)
      case Commit(_, _) => LoopCommit
      case EndMark => LoopMark
      case EndDelete(_) => LoopDelete(true)
      case EndCommit(_) => LoopEnd
      case Done => LoopWarm;
    assert !s.pc.Done? ==> IsLoop(b) && !b.LoopWarm? && Next(s, b).Some?;
  }
}
