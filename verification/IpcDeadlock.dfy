/** The read loop sends to the channel of requests while it holds the lock that `Respond` needs.
    How many outstanding requests can make that send block for good, while `Serve` runs and
    after it has returned; and below that number every request is answered. */
module IpcDeadlock {
  import opened Ipc
  import opened IpcRuns

  /** The read loop waits for room in the channel, and `Serve` for the lock. */
  predicate Deadlocked(s: System, capacity: nat) {
    s.server.Locked() && |s.server.reqs| >= capacity && s.serving.Handling?
  }

  /** The read loop waits for room in the channel, and `Serve` has returned. */
  predicate Abandoned(s: System, capacity: nat) {
    s.server.Locked() && |s.server.reqs| >= capacity && s.serving.Returned?
  }

  /** Whatever anyone does from here on, the send made under the lock does not complete. */
  ghost predicate BlocksForGood(s: System, capacity: nat)
    requires s.client.Valid()
  {
    && s.server.Locked()
    && forall actions :: Run(s, actions, capacity).Some? ==>
         Run(s, actions, capacity).value.server.held == s.server.held
  }

  function Outstanding(s: System): nat {
    |s.client.outbox|
  }

  /** Once there, nothing that anyone does gets a request answered. */
  lemma DeadlockForever(s: System, a: Action, capacity: nat)
    requires s.client.Valid() && Deadlocked(s, capacity) && Next(s, a, capacity).Some?
    ensures var t := Next(s, a, capacity).value;
            Deadlocked(t, capacity) && t.made == s.made && t.server == s.server && t.serving == s.serving
  {
  }

  lemma AbandonedForever(s: System, a: Action, capacity: nat)
    requires s.client.Valid() && Abandoned(s, capacity) && Next(s, a, capacity).Some?
    ensures var t := Next(s, a, capacity).value;
            Abandoned(t, capacity) && t.made == s.made && t.server == s.server
  {
  }

  lemma {:induction false} StuckForever(s: System, actions: seq<Action>, capacity: nat)
    requires s.client.Valid() && (Deadlocked(s, capacity) || Abandoned(s, capacity))
    requires Run(s, actions, capacity).Some?
    ensures var t := Run(s, actions, capacity).value;
            (Deadlocked(t, capacity) || Abandoned(t, capacity)) && t.server == s.server
  {
    hide Next, Deadlocked, Abandoned;
    if actions == [] {
    } else {
      var init, last := actions[..|actions| - 1], actions[|actions| - 1];
      StuckForever(s, init, capacity);
      var r := Run(s, init, capacity).value;
      if Deadlocked(r, capacity) {
        DeadlockForever(r, last, capacity);
      } else {
        AbandonedForever(r, last, capacity);
      }
    }
  }

  /** A send under the lock blocks for good in exactly two ways: the channel is full, and `Serve`
      either waits for the lock or has returned. */
  lemma WhenSendBlocks(s: System, capacity: nat)
    requires s.client.Valid() && s.server.Locked() && |s.server.reqs| <= capacity && capacity > 0
    ensures BlocksForGood(s, capacity) <==> Deadlocked(s, capacity) || Abandoned(s, capacity)
  {
    if Deadlocked(s, capacity) || Abandoned(s, capacity) {
      forall actions | Run(s, actions, capacity).Some?
        ensures Run(s, actions, capacity).value.server.held == s.server.held
      {
        StuckForever(s, actions, capacity);
      }
    } else if |s.server.reqs| < capacity {
      RunOne(s, ServerPush, capacity);
      assert Run(s, [ServerPush], capacity).value.server.held.None?;
    } else {
      var t := Next(s, ServeTake, capacity).value;
      RunOne(s, ServeTake, capacity);
      RunLast(s, [ServeTake], ServerPush, capacity);
      assert Run(s, [ServeTake] + [ServerPush], capacity).value.server.held.None?;
    }
  }

  /** The channel never holds more than its capacity. */
  lemma {:induction false} ChannelFits(actions: seq<Action>, capacity: nat)
    requires Run(INITIAL, actions, capacity).Some?
    ensures |Run(INITIAL, actions, capacity).value.server.reqs| <= capacity
  {
    hide Next;
    if actions == [] {
    } else {
      var init, last := actions[..|actions| - 1], actions[|actions| - 1];
      ChannelFits(init, capacity);
      StepFits(Run(INITIAL, init, capacity).value, last, capacity);
    }
  }

  lemma StepFits(s: System, a: Action, capacity: nat)
    requires s.client.Valid() && |s.server.reqs| <= capacity && Next(s, a, capacity).Some?
    ensures |Next(s, a, capacity).value.server.reqs| <= capacity
  {
    hide Request, RequestPacket, ClientReceive, ClientEnd, Answer;
  }

  lemma RunOne(s: System, a: Action, capacity: nat)
    requires s.client.Valid()
    ensures Run(s, [a], capacity) == Next(s, a, capacity)
  {
    hide Next;
    assert [a][..0] == [];
  }

  // Below the threshold

  lemma {:induction false} Fits(ps: seq<Packet>, outbox: map<Id, nat>)
    requires Increasing(ps) && forall p :: p in ps ==> p.id in outbox && outbox[p.id] == p.origin
    ensures |ps| <= |outbox|
  {
    if ps == [] {
    } else {
      var init, last := ps[..|ps| - 1], ps[|ps| - 1];
      assert last in ps;
      forall p | p in init ensures p in ps && p.id != last.id {
        var i :| 0 <= i < |init| && init[i] == p;
        assert ps[i] == p;
      }
      Fits(init, outbox - {last.id});
      assert (outbox - {last.id}).Keys == outbox.Keys - {last.id};
    }
  }

  /** Everything in the pipe is counted as outstanding. */
  lemma PipeFits(s: System)
    requires Inv(s)
    ensures |Pipe(s)| <= Outstanding(s)
  {
    hide Increasing, OutboxOk, ChannelsOk, InboxOk, Requests;
    Fits(Pipe(s), s.client.outbox);
  }

  /** A deadlock takes one request handled, a full channel and one request blocked. */
  lemma DeadlockNeeds(s: System, capacity: nat)
    requires Inv(s) && Deadlocked(s, capacity)
    ensures Outstanding(s) >= capacity + 2
  {
    PipeFits(s);
  }

  lemma NotDeadlocked(s: System, capacity: nat)
    requires Inv(s) && Outstanding(s) <= capacity + 1
    ensures !Deadlocked(s, capacity)
  {
    if Deadlocked(s, capacity) {
      DeadlockNeeds(s, capacity);
    }
  }

  /** A reader left alone takes a full channel and one request blocked. */
  lemma AbandonedNeeds(s: System, capacity: nat)
    requires Inv(s) && Abandoned(s, capacity)
    ensures Outstanding(s) >= capacity + 1
  {
    PipeFits(s);
  }

  // At the threshold

  /** A run during which the client never has more than `n` requests outstanding. */
  ghost predicate Bounded(actions: seq<Action>, n: nat, capacity: nat) {
    forall i :: 0 <= i <= |actions| ==>
      var r := Run(INITIAL, actions[..i], capacity);
      r.Some? && Outstanding(r.value) <= n
  }

  ghost function End(actions: seq<Action>, n: nat, capacity: nat): (s: System)
    requires Bounded(actions, n, capacity)
    ensures s.client.Valid() && Outstanding(s) <= n
  {
    assert actions[..|actions|] == actions;
    Run(INITIAL, actions, capacity).value
  }

  lemma Extend(actions: seq<Action>, a: Action, n: nat, capacity: nat)
    requires Bounded(actions, n, capacity)
    requires var s := End(actions, n, capacity);
             Next(s, a, capacity).Some? && Outstanding(Next(s, a, capacity).value) <= n
    ensures Bounded(actions + [a], n, capacity)
    ensures End(actions + [a], n, capacity) == Next(End(actions, n, capacity), a, capacity).value
  {
    hide Next;
    var more := actions + [a];
    assert actions[..|actions|] == actions && more[..|more|] == more;
    RunLast(INITIAL, actions, a, capacity);
    forall i | 0 <= i <= |more|
      ensures var r := Run(INITIAL, more[..i], capacity); r.Some? && Outstanding(r.value) <= n
    {
      assert i < |more| ==> more[..i] == actions[..i];
    }
  }

  lemma EndInv(actions: seq<Action>, n: nat, capacity: nat)
    requires Bounded(actions, n, capacity)
    ensures Inv(End(actions, n, capacity))
  {
    assert actions[..|actions|] == actions;
    InitialInv();
    RunKeeps(INITIAL, actions, capacity);
  }

  /** The server has read nothing and the client has asked `k` times. */
  ghost predicate Asked(s: System, k: nat) {
    && s.server == NEW_SERVER && s.serverReads && s.serving.Waiting?
    && s.client.nextId == k && |s.uplink| == k && Outstanding(s) == k
    && forall id :: id in s.client.outbox ==> id <= k
  }

  lemma {:induction false} AskMany(k: nat, n: nat, capacity: nat) returns (actions: seq<Action>)
    requires k <= n && k < 0xffff_ffff
    ensures Bounded(actions, n, capacity) && Asked(End(actions, n, capacity), k)
  {
    if k == 0 {
      actions := [];
    } else {
      actions := AskMany(k - 1, n, capacity);
      var s := End(actions, n, capacity);
      var a := Ask(STATUS_REQUEST, Content(""), true);
      AskOnce(s, k - 1, capacity);
      Extend(actions, a, n, capacity);
      actions := actions + [a];
    }
  }

  lemma AskOnce(s: System, k: nat, capacity: nat)
    requires s.client.Valid() && Asked(s, k) && k + 1 < 0xffff_ffff
    ensures var t := Next(s, Ask(STATUS_REQUEST, Content(""), true), capacity);
            t.Some? && Asked(t.value, k + 1)
  {
    assert (s.client.outbox[k + 1 := |s.client.channels|]).Keys == s.client.outbox.Keys + {k + 1};
  }

  /** The server reads one more request; if there is room it gets on into the channel. */
  lemma ReadOne(actions: seq<Action>, n: nat, capacity: nat) returns (more: seq<Action>)
    requires Bounded(actions, n, capacity)
    requires var s := End(actions, n, capacity); s.serverReads && !s.server.Locked() && s.uplink != []
    ensures Bounded(more, n, capacity)
    ensures var s, t := End(actions, n, capacity), End(more, n, capacity);
            && t.serverReads && t.serving == s.serving && |t.uplink| == |s.uplink| - 1
            && if |s.server.reqs| < capacity then !t.server.Locked() && |t.server.reqs| == |s.server.reqs| + 1
               else t.server.Locked() && t.server.reqs == s.server.reqs
  {
    var s := End(actions, n, capacity);
    EndInv(actions, n, capacity);
    ReadMoves(s, true);
    var t := Next(s, ServerRead(true), capacity).value;
    hide Inv, ServerReadStep, Requests, Inside, End, Bounded;
    Extend(actions, ServerRead(true), n, capacity);
    more := actions + [ServerRead(true)];
    if |s.server.reqs| < capacity {
      Extend(more, ServerPush, n, capacity);
      more := more + [ServerPush];
    }
  }

  lemma {:induction false} ReadMany(actions: seq<Action>, k: nat, n: nat, capacity: nat) returns (more: seq<Action>)
    requires Bounded(actions, n, capacity)
    requires var s := End(actions, n, capacity);
             s.serverReads && !s.server.Locked() && |s.uplink| >= k && |s.server.reqs| + k <= capacity
    ensures Bounded(more, n, capacity)
    ensures var s, t := End(actions, n, capacity), End(more, n, capacity);
            && t.serverReads && !t.server.Locked() && t.serving == s.serving
            && |t.uplink| == |s.uplink| - k && |t.server.reqs| == |s.server.reqs| + k
    decreases k
  {
    hide Bounded, End;
    if k == 0 {
      more := actions;
    } else {
      more := ReadOne(actions, n, capacity);
      more := ReadMany(more, k - 1, n, capacity);
    }
  }

  /** One request handled, `capacity` buffered and one blocked. */
  lemma DeadlockReached(n: nat, capacity: nat) returns (actions: seq<Action>)
    requires n >= capacity + 2 && 0 < capacity < 0xffff_fff0
    ensures Bounded(actions, n, capacity) && Deadlocked(End(actions, n, capacity), capacity)
  {
    hide Bounded, End;
    actions := AskMany(capacity + 2, n, capacity);
    actions := ReadOne(actions, n, capacity);
    Extend(actions, ServeTake, n, capacity);
    actions := actions + [ServeTake];
    actions := ReadMany(actions, capacity, n, capacity);
    actions := ReadOne(actions, n, capacity);
  }

  /** A client that keeps at most `n` requests outstanding can deadlock the server exactly when
      `n` is at least the capacity and two more. */
  lemma Threshold(n: nat, capacity: nat)
    requires 0 < capacity < 0xffff_fff0
    ensures n >= capacity + 2 <==>
            exists actions :: Bounded(actions, n, capacity) && Deadlocked(End(actions, n, capacity), capacity)
  {
    forall actions | Bounded(actions, n, capacity) && Deadlocked(End(actions, n, capacity), capacity)
      ensures n >= capacity + 2
    {
      EndInv(actions, n, capacity);
      DeadlockNeeds(End(actions, n, capacity), capacity);
    }
    if n >= capacity + 2 {
      var actions := DeadlockReached(n, capacity);
    }
  }

  /** `capacity` buffered and one blocked, after `Serve` has returned. */
  lemma AbandonedReached(n: nat, capacity: nat) returns (actions: seq<Action>)
    requires n >= capacity + 1 && 0 < capacity < 0xffff_fff0
    ensures Bounded(actions, n, capacity) && Abandoned(End(actions, n, capacity), capacity)
  {
    hide Bounded, End;
    actions := AskMany(capacity + 1, n, capacity);
    Extend(actions, ServeReturns, n, capacity);
    actions := actions + [ServeReturns];
    actions := ReadMany(actions, capacity, n, capacity);
    actions := ReadOne(actions, n, capacity);
  }

  /** The send made under the lock can block for good with at most `n` requests outstanding exactly
      when `n` is at least the capacity and one more. */
  lemma BlockingThreshold(n: nat, capacity: nat)
    requires 0 < capacity < 0xffff_fff0
    ensures n >= capacity + 1 <==>
            exists actions :: Bounded(actions, n, capacity) && BlocksForGood(End(actions, n, capacity), capacity)
  {
    hide Bounded, End, BlocksForGood, Deadlocked, Abandoned;
    forall actions | Bounded(actions, n, capacity) && BlocksForGood(End(actions, n, capacity), capacity)
      ensures n >= capacity + 1
    {
      NeedsForBlock(actions, n, capacity);
    }
    if n >= capacity + 1 {
      var actions := AbandonedReached(n, capacity);
      EndFits(actions, n, capacity);
      AbandonedIsLocked(End(actions, n, capacity), capacity);
      WhenSendBlocks(End(actions, n, capacity), capacity);
    }
  }

  /** In runs in which `Serve` does not return, it takes one request more. */
  lemma BlockingThresholdServed(n: nat, capacity: nat)
    requires 0 < capacity < 0xffff_fff0
    ensures n >= capacity + 2 <==>
            exists actions :: Bounded(actions, n, capacity) && !End(actions, n, capacity).serving.Returned?
                              && BlocksForGood(End(actions, n, capacity), capacity)
  {
    hide Bounded, End, BlocksForGood;
    forall actions | Bounded(actions, n, capacity) && !End(actions, n, capacity).serving.Returned?
                     && BlocksForGood(End(actions, n, capacity), capacity)
      ensures n >= capacity + 2
    {
      NeedsForBlock(actions, n, capacity);
    }
    if n >= capacity + 2 {
      var actions := DeadlockReached(n, capacity);
      EndFits(actions, n, capacity);
      WhenSendBlocks(End(actions, n, capacity), capacity);
    }
  }

  lemma EndFits(actions: seq<Action>, n: nat, capacity: nat)
    requires Bounded(actions, n, capacity)
    ensures |End(actions, n, capacity).server.reqs| <= capacity
  {
    hide Run;
    assert actions[..|actions|] == actions;
    ChannelFits(actions, capacity);
  }

  lemma NeedsForBlock(actions: seq<Action>, n: nat, capacity: nat)
    requires Bounded(actions, n, capacity) && BlocksForGood(End(actions, n, capacity), capacity) && capacity > 0
    ensures n >= capacity + if End(actions, n, capacity).serving.Returned? then 1 else 2
  {
    hide Bounded, Run, Next;
    var s := End(actions, n, capacity);
    EndInv(actions, n, capacity);
    EndFits(actions, n, capacity);
    WhenSendBlocks(s, capacity);
    if Deadlocked(s, capacity) {
      DeadlockNeeds(s, capacity);
    } else {
      AbandonedNeeds(s, capacity);
    }
  }

  lemma AbandonedIsLocked(s: System, capacity: nat)
    requires Abandoned(s, capacity)
    ensures s.server.Locked()
  {
  }

  /** With the channel of the source, while `Serve` runs: seventeen are safe, eighteen are not. */
  lemma SeventeenIsSafe()
    ensures forall actions :: Bounded(actions, 17, CAPACITY) && !End(actions, 17, CAPACITY).serving.Returned? ==>
              !BlocksForGood(End(actions, 17, CAPACITY), CAPACITY)
    ensures forall actions :: Bounded(actions, 17, CAPACITY) ==> !Deadlocked(End(actions, 17, CAPACITY), CAPACITY)
    ensures exists actions :: Bounded(actions, 18, CAPACITY) && Deadlocked(End(actions, 18, CAPACITY), CAPACITY)
  {
    hide Bounded, End, BlocksForGood;
    Threshold(17, CAPACITY);
    Threshold(18, CAPACITY);
    BlockingThresholdServed(17, CAPACITY);
  }

  /** Also when `Serve` may return, only sixteen are safe: seventeen can leave the read loop
      blocked with the lock for good. */
  lemma OnlySixteenIsSafe()
    ensures forall actions :: Bounded(actions, 16, CAPACITY) ==> !BlocksForGood(End(actions, 16, CAPACITY), CAPACITY)
    ensures exists actions :: Bounded(actions, 17, CAPACITY) && BlocksForGood(End(actions, 17, CAPACITY), CAPACITY)
  {
    hide Bounded, End, BlocksForGood;
    BlockingThreshold(16, CAPACITY);
    BlockingThreshold(17, CAPACITY);
  }

  // Below the threshold every request is answered

  /** What the two ends do by themselves while no write fails. */
  predicate Works(a: Action) {
    a.ClientRead? || a.ServerRead? || a.ServerPush? || a.ServeTake? || (a.ServeRespond? && a.ok)
  }

  /** How many steps the packets in the pipe still have before them. */
  function Work(s: System): nat {
    5 * |s.uplink| + 4 * |ToSeq(s.server.held)| + 3 * |s.server.reqs| + 2 * |Hand(s.serving)| + |s.downlink|
  }

  function Ids(ps: seq<Packet>): set<Id> {
    set p | p in ps :: p.id
  }

  ghost predicate Alive(s: System) {
    s.client.Valid() && s.clientReads && s.serverReads && !s.serving.Returned?
  }

  /** All loops are running and no answer has been lost. */
  ghost predicate Running(s: System) {
    Alive(s) && s.client.outbox.Keys <= Ids(Pipe(s))
  }

  /** While the loops run, only a deadlock can stop them before all work is done. */
  lemma NeverStuck(s: System, capacity: nat) returns (a: Action)
    requires Alive(s) && !Deadlocked(s, capacity) && capacity > 0 && Work(s) > 0
    ensures Works(a) && Next(s, a, capacity).Some?
  {
    hide RespondStep, ServerReadStep, ClientReceive;
    if s.downlink != [] {
      a := ClientRead;
    } else if s.serving.Handling? && !s.server.Locked() {
      a := ServeRespond("", true);
    } else if s.serving.Waiting? && s.server.reqs != [] {
      a := ServeTake;
    } else if s.server.Locked() {
      a := ServerPush;
    } else {
      a := ServerRead(true);
    }
  }

  /** Every step that works brings an end nearer and keeps the loops running. */
  lemma WorkShrinks(s: System, a: Action, capacity: nat)
    requires Inv(s) && Running(s) && Works(a) && Next(s, a, capacity).Some?
    ensures var t := Next(s, a, capacity).value;
            && Work(t) == Work(s) - 1 && Outstanding(t) <= Outstanding(s) && t.sent == s.sent
            && Running(t)
  {
    var t := Next(s, a, capacity).value;
    hide Inv, ServerReadStep, RespondStep, ClientReceive, Ids, Requests;
    match a
    case ClientRead => ReadShrinks(s);
    case ServerRead(ok) =>
      ReadMoves(s, ok);
      assert Pipe(t) == Pipe(s);
    case ServeRespond(status, ok) => RespondShrinks(s, status);
    case _ => ShiftShrinks(s, a, capacity);
  }

  lemma ShiftShrinks(s: System, a: Action, capacity: nat)
    requires Running(s) && (a.ServerPush? || a.ServeTake?) && Next(s, a, capacity).Some?
    ensures var t := Next(s, a, capacity).value;
            Work(t) == Work(s) - 1 && t.client == s.client && t.sent == s.sent && Running(t)
  {
    var t := Next(s, a, capacity).value;
    assert a.ServeTake? ==> s.server.reqs == [s.server.reqs[0]] + t.server.reqs;
    assert Pipe(t) == Pipe(s);
  }

  lemma ReadShrinks(s: System)
    requires Inv(s) && Running(s) && s.downlink != []
    ensures var t := s.(client := ClientReceive(s.client, s.downlink[0]), downlink := s.downlink[1..]);
            Work(t) == Work(s) - 1 && Outstanding(t) <= Outstanding(s) && Running(t)
  {
    var t := s.(client := ClientReceive(s.client, s.downlink[0]), downlink := s.downlink[1..]);
    var p := s.downlink[0];
    Delivery(s);
    ReceiveKeepsValid(s.client, p);
    hide Inv, ClientReceive, Running, Work;
    assert s.downlink == [p] + t.downlink;
    HeadShrinks(s, t, p);
  }

  lemma ReceiveKeepsValid(c: Client, p: Packet)
    requires c.Valid()
    ensures ClientReceive(c, p).Valid()
  {
  }

  lemma HeadShrinks(s: System, t: System, p: Packet)
    requires Running(s) && t == s.(client := t.client, downlink := t.downlink) && t.client.Valid()
    requires s.downlink == [p] + t.downlink && t.client.outbox == s.client.outbox - {p.id}
    ensures Work(t) == Work(s) - 1 && Outstanding(t) <= Outstanding(s) && Running(t)
  {
    OutboxShrinks(s.client.outbox, p.id);
    assert Requests(t) == Requests(s);
    hide Requests;
    assert Pipe(s) == [] + [p] + Pipe(t);
    IdsSplit([], p, Pipe(t));
    hide Ids, Pipe;
  }

  lemma OutboxShrinks(outbox: map<Id, nat>, id: Id)
    ensures (outbox - {id}).Keys == outbox.Keys - {id} && |outbox - {id}| <= |outbox|
  {
    assert |outbox| == |outbox.Keys| && |outbox - {id}| == |(outbox - {id}).Keys|;
    SubsetSize((outbox - {id}).Keys, outbox.Keys);
  }

  lemma {:induction false} SubsetSize(a: set<Id>, b: set<Id>)
    requires a <= b
    ensures |a| <= |b|
  {
    if a != {} {
      var x :| x in a;
      SubsetSize(a - {x}, b - {x});
    }
  }

  lemma RespondShrinks(s: System, status: string)
    requires Inv(s) && Running(s) && s.serving.Handling?
    ensures var t := RespondStep(s, status, true);
            Work(t) == Work(s) - 1 && t.client == s.client && t.sent == s.sent && Running(t)
  {
    var t := RespondStep(s, status, true);
    var req, res := s.serving.req, Answer(s.serving.req, status);
    RespondAccepted(s, status, true);
    hide Inv, Answer;
    var rest := s.server.reqs + ToSeq(s.server.held) + s.uplink;
    RespondMoves(s, t, req, rest);
    assert Pipe(t) == s.downlink + [res] + rest;
    hide Requests, Inside, Pipe, RespondStep;
    assert Ids(s.downlink + [res] + rest) == Ids(s.downlink + [req] + rest) by {
      assert res.id == req.id;
      IdsSplit(s.downlink, req, rest);
      IdsSplit(s.downlink, res, rest);
    }
  }

  lemma IdsSplit(left: seq<Packet>, p: Packet, right: seq<Packet>)
    ensures Ids(left + [p] + right) == Ids(left) + {p.id} + Ids(right)
    ensures Ids([]) == {}
  {
    assert p in left + [p] + right;
  }

  /** With at most `capacity + 1` requests outstanding, the loops alone bring every one of them
      home: after exactly `Work` steps every channel has its answer or was closed by a
      failed write. */
  lemma {:induction false} EveryRequestAnswered(s: System, capacity: nat) returns (actions: seq<Action>)
    requires Inv(s) && Running(s) && capacity > 0 && Outstanding(s) <= capacity + 1
    ensures |actions| == Work(s) && (forall a :: a in actions ==> Works(a))
    ensures var r := Run(s, actions, capacity);
            && r.Some? && Inv(r.value) && Outstanding(r.value) == 0
            && r.value.sent == s.sent && |r.value.client.channels| == |s.sent|
            && forall k :: 0 <= k < |s.sent| ==> Settled(r.value.client.channels[k])
    decreases Work(s)
  {
    hide Inv, Next, Work, Works, Deadlocked, Settled, Ids, Pipe;
    if Work(s) == 0 {
      actions := [];
      AllSettled(s);
    } else {
      NotDeadlocked(s, capacity);
      var a := NeverStuck(s, capacity);
      WorkShrinks(s, a, capacity);
      NextKeeps(s, a, capacity);
      var t := Next(s, a, capacity).value;
      hide Running, Run;
      var rest := EveryRequestAnswered(t, capacity);
      actions := [a] + rest;
      RunFirst(s, a, rest, capacity);
    }
  }

  lemma AllSettled(s: System)
    requires Inv(s) && Running(s) && Work(s) == 0
    ensures Outstanding(s) == 0 && |s.client.channels| == |s.sent|
    ensures forall k :: 0 <= k < |s.sent| ==> Settled(s.client.channels[k])
  {
    assert Pipe(s) == [];
    assert s.client.outbox.Keys == {};
    hide ChannelsOk, PipeOk, InboxOk;
  }

  lemma {:induction false} RunFirst(s: System, a: Action, rest: seq<Action>, capacity: nat)
    requires s.client.Valid() && Next(s, a, capacity).Some?
    ensures Run(s, [a] + rest, capacity) == Run(Next(s, a, capacity).value, rest, capacity)
    decreases |rest|
  {
    hide Next;
    if rest == [] {
      assert [a] + rest == [] + [a];
      RunLast(s, [], a, capacity);
    } else {
      var init := rest[..|rest| - 1];
      RunFirst(s, a, init, capacity);
      assert ([a] + rest)[..|rest|] == [a] + init;
    }
  }

  // Which runs keep the loops running

  /** Neither the end of a loop nor a failed write of an answer. A request whose write fails is quiet. */
  predicate Quiet(a: Action) {
    !a.ClientEnds? && !a.ServerEnds? && !a.ServeReturns? && (a.ServeRespond? ==> a.ok)
  }

  lemma AskKeepsRunning(s: System, code: Method, body: Body, ok: bool)
    requires Inv(s) && Running(s)
    ensures Running(AskStep(s, code, body, ok))
  {
    var t := AskStep(s, code, body, ok);
    var p := RequestPacket(s.client, code, body);
    AskKeeps(s, code, body, ok);
    assert t.client.Valid();
    AskShape(s, code, body, ok);
    hide Inv, AskStep, RequestPacket, Ids, Pipe;
    if t.uplink == s.uplink {
      SamePipe(s, t);
    } else {
      PipeGrows(s, t, p);
    }
  }

  /** A call of `Request` either leaves both the outbox and the link alone or adds to both. */
  lemma AskShape(s: System, code: Method, body: Body, ok: bool)
    ensures var t, p := AskStep(s, code, body, ok), RequestPacket(s.client, code, body);
            && t == s.(client := t.client, sent := t.sent, uplink := t.uplink)
            && if t.uplink == s.uplink then t.client.outbox == s.client.outbox
               else t.uplink == s.uplink + [p] && t.client.outbox.Keys == s.client.outbox.Keys + {p.id}
  {
    hide FollowingId;
  }

  lemma SamePipe(s: System, t: System)
    requires t == s.(client := t.client, sent := t.sent)
    ensures Pipe(t) == Pipe(s)
  {
  }

  lemma PipeGrows(s: System, t: System, p: Packet)
    requires t == s.(client := t.client, sent := t.sent, uplink := s.uplink + [p])
    ensures Ids(Pipe(t)) == Ids(Pipe(s)) + {p.id}
  {
    assert Inside(t) == Inside(s);
    hide Inside;
    assert Pipe(t) == Pipe(s) + [p] + [];
    IdsSplit(Pipe(s), p, []);
  }

  /** A quiet step keeps the loops running, and any other step ends one of them for good. */
  lemma OnlyQuietKeepsRunning(s: System, a: Action, capacity: nat)
    requires Inv(s) && Next(s, a, capacity).Some?
    ensures Running(s) && Quiet(a) ==> Running(Next(s, a, capacity).value)
    ensures !Alive(s) || !Quiet(a) ==> !Alive(Next(s, a, capacity).value)
  {
    QuietIsWork(a);
    assert s.client.Valid();
    if !Alive(s) || !Quiet(a) {
      EndsForGood(s, a, capacity);
    } else if Running(s) {
      hide Inv, Running, Works, Quiet, AskStep, ServerReadStep, RespondStep, ClientReceive, ClientEnd, Work;
      if a.Ask? {
        AskKeepsRunning(s, a.code, a.body, a.ok);
      } else {
        WorkShrinks(s, a, capacity);
      }
    }
  }

  lemma QuietIsWork(a: Action)
    ensures Quiet(a) <==> a.Ask? || Works(a)
  {
  }

  lemma EndsForGood(s: System, a: Action, capacity: nat)
    requires Inv(s) && Next(s, a, capacity).Some? && (!Alive(s) || !Quiet(a))
    ensures !Alive(Next(s, a, capacity).value)
  {
    assert s.client.Valid();
    if a.ServeRespond? {
      RespondAccepted(s, a.status, a.ok);
    }
    hide ClientReceive, ClientEnd, Request, ServerReceive, Answer, OutboxOk, ChannelsOk, PipeOk, InboxOk;
  }

  predicate AllQuiet(actions: seq<Action>) {
    forall a :: a in actions ==> Quiet(a)
  }

  lemma AllQuietLast(actions: seq<Action>)
    requires actions != []
    ensures AllQuiet(actions) <==> AllQuiet(actions[..|actions| - 1]) && Quiet(actions[|actions| - 1])
  {
    hide Quiet;
    assert actions == actions[..|actions| - 1] + [actions[|actions| - 1]];
  }

  lemma InitiallyRunning()
    ensures Running(INITIAL) && AllQuiet([])
  {
    assert INITIAL.client.outbox.Keys == {};
  }

  /** After any run the loops are all running, with no answer lost, exactly when every step was quiet. */
  lemma {:induction false} UndisturbedRuns(actions: seq<Action>, capacity: nat)
    requires Run(INITIAL, actions, capacity).Some?
    ensures var s := Run(INITIAL, actions, capacity).value;
            && Inv(s)
            && (AllQuiet(actions) ==> Running(s))
            && (!AllQuiet(actions) ==> !Alive(s))
  {
    hide Inv, Next, Quiet, AllQuiet, Running, Alive;
    InitialInv();
    InitiallyRunning();
    if actions == [] {
    } else {
      var init, last := actions[..|actions| - 1], actions[|actions| - 1];
      UndisturbedRuns(init, capacity);
      AllQuietLast(actions);
      NextKeeps(Run(INITIAL, init, capacity).value, last, capacity);
      OnlyQuietKeepsRunning(Run(INITIAL, init, capacity).value, last, capacity);
    }
  }

  /** In every run without the end of a loop and without a failed answer, a client with at most
      `capacity + 1` requests outstanding gets all of them answered, if it only waits. */
  lemma EveryRunAnswered(actions: seq<Action>, capacity: nat) returns (more: seq<Action>)
    requires capacity > 0 && Run(INITIAL, actions, capacity).Some? && AllQuiet(actions)
    requires Outstanding(Run(INITIAL, actions, capacity).value) <= capacity + 1
    ensures var s := Run(INITIAL, actions, capacity).value;
            && |more| == Work(s) && (forall a :: a in more ==> Works(a))
            && var r := Run(s, more, capacity);
               && r.Some? && Inv(r.value) && Outstanding(r.value) == 0
               && r.value.sent == s.sent && |r.value.client.channels| == |s.sent|
               && forall k :: 0 <= k < |s.sent| ==> Settled(r.value.client.channels[k])
  {
    UndisturbedRuns(actions, capacity);
    hide Run, Inv, Running, AllQuiet, Works, Work, Settled;
    more := EveryRequestAnswered(Run(INITIAL, actions, capacity).value, capacity);
  }
}
