/** The frontend as an object. Each method is one critical section of the source, or one
    move of the event loop between two of them, and is proved to be one step of `Lifecycle`. */
module Frontends {
  import opened Wrappers
  import opened Lifecycle

  class Frontend {
    var state: State
    var err: bool
    var requests: seq<State>
    var cancelled: bool
    ghost var pc: Pc
    ghost var trace: seq<Event>

    ghost function View(): Front
      reads this
    {
      Front(state, err, requests, cancelled, pc, trace)
    }

    ghost predicate Valid()
      reads this
    {
      Inv(View())
    }

    constructor ()
      ensures Valid() && View() == NEW_FRONT
    {
      state, err, requests, cancelled := Stopped, false, [], false;
      pc, trace := Select, [];
      new;
      FreshInv();
    }

    /** Marks the frontend closed; the caller cancels the context next if it was not closed already. */
    method MarkClosed() returns (first: bool)
      requires Valid()
      modifies this
      ensures Valid() && Next(old(View()), DoMarkClosed) == Some(View()) && first == !old(state).Closed?
    {
      NextKeeps(View(), DoMarkClosed);
      if state == Closed { return false; }
      state := Closed;
      return true;
    }

    method Cancel()
      requires Valid()
      modifies this
      ensures Valid() && Next(old(View()), DoCancel) == Some(View())
    {
      NextKeeps(View(), DoCancel);
      cancelled := true;
    }

    /** The send is made while the lock is held; it always finds room. */
    method Start() returns (ok: bool)
      requires Valid()
      modifies this
      ensures Valid() && Next(old(View()), DoStart) == Some(View()) && ok == StartReply(old(state))
      ensures ok <==> state.Starting? || state.Running?
      ensures old(state).Stopped? ==> state.Starting? && !err && requests == [Starting]
    {
      SendNeverBlocks(View());
      NextKeeps(View(), DoStart);
      match state
      case Running => return true;
      case Starting => return true;
      case Stopping => return false;
      case Closed => return false;
      case Stopped =>
        err := false;
        state := Starting;
        assert |requests| < CAPACITY;
        requests := requests + [Starting];
        return true;
    }

    method Stop() returns (ok: bool)
      requires Valid()
      modifies this
      ensures Valid() && Next(old(View()), DoStop) == Some(View()) && ok == StopReply(old(state))
      ensures ok <==> state.Stopping? || state.Stopped?
      ensures old(state).Running? ==> state.Stopping? && !err && requests == [Stopping]
    {
      SendNeverBlocks(View());
      NextKeeps(View(), DoStop);
      match state
      case Stopped => return true;
      case Stopping => return true;
      case Starting => return false;
      case Closed => return false;
      case Running =>
        err := false;
        state := Stopping;
        assert |requests| < CAPACITY;
        requests := requests + [Stopping];
        return true;
    }

    /** The event loop takes the pending request. */
    method Receive() returns (next: State)
      requires Valid() && pc == Select && requests != []
      modifies this
      ensures Valid() && Next(old(View()), LoopReceive) == Some(View()) && next == old(requests)[0]
    {
      NextKeeps(View(), LoopReceive);
      next := requests[0];
      pc := if next == Starting then Guard(CallStart) else if next == Stopping then Guard(CallStop) else Select;
      requests := requests[1..];
    }

    /** The check at the head of `startBlocking` and of `stopBlocking`. */
    method MayCall() returns (go: bool)
      requires Valid() && pc.Guard?
      modifies this`pc
      ensures Valid() && Next(old(View()), LoopGuard) == Some(View()) && (go <==> pc.Calling?)
    {
      NextKeeps(View(), LoopGuard);
      go := state != Closed;
      pc := if go then Calling(pc.call) else Select;
    }

    /** The handler is called, and returns, outside the lock. */
    ghost method EnterHandler()
      requires Valid() && pc.Calling?
      modifies this`pc, this`trace
      ensures Valid() && Next(old(View()), LoopEnter) == Some(View())
    {
      NextKeeps(View(), LoopEnter);
      trace := trace + [Enter(pc.call)];
      pc := Inside(pc.call);
    }

    ghost method LeaveHandler(ok: bool)
      requires Valid() && pc.Inside?
      modifies this`pc, this`trace
      ensures Valid() && Next(old(View()), LoopLeave(ok)) == Some(View())
    {
      NextKeeps(View(), LoopLeave(ok));
      trace := trace + [Leave(pc.call, ok)];
      pc := if pc.call.CallClose? then EndDelete(ok) else Commit(pc.call, ok);
    }

    /** The end of `startBlocking`. */
    method StartReturned(failed: bool)
      requires Valid() && pc == Commit(CallStart, !failed)
      modifies this
      ensures Valid() && Next(old(View()), LoopCommit) == Some(View())
    {
      NextKeeps(View(), LoopCommit);
      pc := Select;
      if state == Closed { return; }
      err := failed;
      if err {
        state := Stopping;
        return;
      }
      state := Running;
    }

    /** The end of `stopBlocking`. */
    method StopReturned(failed: bool)
      requires Valid() && pc == Commit(CallStop, !failed)
      modifies this
      ensures Valid() && Next(old(View()), LoopCommit) == Some(View())
    {
      NextKeeps(View(), LoopCommit);
      pc := Select;
      if state == Closed { return; }
      err := failed;
      if err {
        state := Starting;
        return;
      }
      state := Stopped;
    }

    /** The event loop sees the cancelled context and begins `endBlocking`. */
    method BeginEnd()
      requires Valid() && pc == Select && cancelled
      modifies this
      ensures Valid()
      ensures var mid := Next(old(View()), LoopCancelled); mid.Some? && Next(mid.value, LoopMark) == Some(View())
    {
      NextKeeps(View(), LoopCancelled);
      NextKeeps(Next(View(), LoopCancelled).value, LoopMark);
      state := Closed;
      pc := Calling(CallClose);
    }

    /** The end of `endBlocking`: the close error joined with the error of deleting the mapping. */
    method FinishEnd(closeFailed: bool, deleteFailed: bool)
      requires Valid() && pc == EndDelete(!closeFailed)
      modifies this
      ensures Valid()
      ensures var mid := Next(old(View()), LoopDelete(!deleteFailed));
              mid.Some? && Next(mid.value, LoopEnd) == Some(View())
    {
      NextKeeps(View(), LoopDelete(!deleteFailed));
      NextKeeps(Next(View(), LoopDelete(!deleteFailed)).value, LoopEnd);
      err := closeFailed || deleteFailed;
      pc := Done;
    }
  }
}
