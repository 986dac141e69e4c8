/** The packets of the control protocol, and what the two ends remember of them. */
module Ipc {
  import opened Wrappers

  type Id = x: int | 0 <= x < 0x1_0000_0000
  type Method = x: int | 0 <= x < 0x1_0000

  const ERROR_RESPONSE: Method := 1
  const STATUS_REQUEST: Method := 2
  const STATUS_RESPONSE: Method := 3

  /** Odd methods below the notifications answer something. */
  predicate IsResponse(code: Method) {
    code < 32768 && code % 2 == 1
  }

  datatype Body = Content(data: string) | Unsupported(code: Method) | InFlight

  /** `origin` is not on the wire: it tells which channel of the client the packet is about,
      travels with the packet and decides nothing. */
  datatype Packet = Packet(id: Id, code: Method, body: Body, origin: nat)

  function ToSeq<T>(o: Option<T>): seq<T> {
    match o
    case None => []
    case Some(x) => [x]
  }

  // The client

  /** A channel of capacity one: what was sent to it, whether it is closed, and whether it was
      ever misused by a send to it after a close, a second send or a second close. */
  datatype Channel = Channel(got: seq<Packet>, closed: bool, misused: bool) {
    function Send(p: Packet): Channel {
      if closed || got != [] then this.(misused := true) else this.(got := [p])
    }

    function Close(): Channel {
      if closed then this.(misused := true) else this.(closed := true)
    }
  }

  const NEW_CHANNEL := Channel([], false, false)

  /** `channels` holds every channel ever made; the outbox maps an id to one of them. */
  datatype Client = Client(outbox: map<Id, nat>, nextId: Id, channels: seq<Channel>) {
    ghost predicate Valid() {
      forall id :: id in outbox ==> outbox[id] < |channels|
    }
  }

  const NEW_CLIENT := Client(map[], 0, [])

  datatype RequestResult = Requested(channel: nat) | ErrResponse | ErrIdInUse | ErrWrite

  function FollowingId(id: Id): Id {
    if (id + 1) % 0x1_0000_0000 == 0 then 1 else (id + 1) % 0x1_0000_0000
  }

  /** `ok` tells whether the write succeeds. */
  function Request(c: Client, code: Method, body: Body, ok: bool): (Client, RequestResult) {
    var id := FollowingId(c.nextId);
    var k := |c.channels|;
    if IsResponse(code) then (c, ErrResponse)
    else if id in c.outbox then (c.(nextId := id), ErrIdInUse)
    else if !ok then (c.(nextId := id, channels := c.channels + [NEW_CHANNEL.Close()]), ErrWrite)
    else (Client(c.outbox[id := k], id, c.channels + [NEW_CHANNEL]), Requested(k))
  }

  /** The packet that a call of `Request` writes. */
  function RequestPacket(c: Client, code: Method, body: Body): Packet {
    Packet(FollowingId(c.nextId), code, body, |c.channels|)
  }

  function MatchResp(c: Client, p: Packet): Client
    requires c.Valid()
  {
    if p.id !in c.outbox then c
    else
      var k := c.outbox[p.id];
      c.(outbox := c.outbox - {p.id}, channels := c.channels[k := c.channels[k].Send(p)])
  }

  /** A packet the client's read loop has read. */
  function ClientReceive(c: Client, p: Packet): Client
    requires c.Valid()
  {
    if p.id == 0 || !IsResponse(p.code) then c else MatchResp(c, p)
  }

  /** The end of the client's read loop: pending channels are closed and stay in the outbox. */
  function ClientEnd(c: Client): Client {
    c.(channels := seq(|c.channels|, k requires 0 <= k < |c.channels| =>
                       if k in c.outbox.Values then c.channels[k].Close() else c.channels[k]))
  }

  // The server

  const CAPACITY := 16

  /** `held` is a packet the read loop is sending to the channel of requests while it holds the lock. */
  datatype Server = Server(inbox: set<Id>, reqs: seq<Packet>, held: Option<Packet>) {
    predicate Locked() { held.Some? }
  }

  const NEW_SERVER := Server({}, [], None)

  /** `dispatchReq` up to its send; or the packet with which it refuses. */
  function Dispatch(v: Server, p: Packet): (Server, Option<Packet>) {
    if p.id in v.inbox then (v, Some(Packet(p.id, ERROR_RESPONSE, InFlight, p.origin)))
    else (v.(inbox := v.inbox + {p.id}, held := Some(p)), None)
  }

  /** The send, which blocks while the channel is full. */
  function Push(v: Server, capacity: nat): Option<Server> {
    if v.Locked() && |v.reqs| < capacity
    then Some(v.(reqs := v.reqs + [v.held.value], held := None)) else None
  }

  /** A packet the server's read loop has read: responses are skipped, notifications go elsewhere. */
  function ServerReceive(v: Server, p: Packet): (Server, Option<Packet>) {
    if p.id == 0 || IsResponse(p.code) then (v, None) else Dispatch(v, p)
  }

  datatype RespondResult = Responded | ErrZeroId | ErrNotResponse | ErrNotPending | ErrRespondWrite

  function Respond(v: Server, res: Packet, ok: bool): (Server, RespondResult) {
    if res.id == 0 then (v, ErrZeroId)
    else if !IsResponse(res.code) then (v, ErrNotResponse)
    else if res.id !in v.inbox then (v, ErrNotPending)
    else if !ok then (v, ErrRespondWrite)
    else (v.(inbox := v.inbox - {res.id}), Responded)
  }

  /** What `handle` makes of a request; `status` is the engine's state at that moment. */
  function Answer(req: Packet, status: string): Packet {
    if req.code == STATUS_REQUEST then Packet(req.id, STATUS_RESPONSE, Content(status), req.origin)
    else Packet(req.id, ERROR_RESPONSE, Unsupported(req.code), req.origin)
  }

  // What the two ends answer

  /** Every answer of `Request` with its reason, and what it leaves of the client. */
  lemma RequestAnswers(c: Client, code: Method, body: Body, ok: bool)
    ensures var (d, res) := Request(c, code, body, ok);
            var id := FollowingId(c.nextId);
            && (res == ErrResponse <==> code < 32768 && code % 2 == 1)
            && (res == ErrIdInUse <==> res != ErrResponse && id in c.outbox)
            && (res == ErrWrite <==> res != ErrResponse && id !in c.outbox && !ok)
            && (res.Requested? <==> res != ErrResponse && id !in c.outbox && ok)
            && (res == ErrResponse ==> d == c)
            && (res != ErrResponse ==> d.nextId == id)
            && (res.Requested? ==> res.channel == |c.channels| && d.outbox == c.outbox[id := |c.channels|]
                                   && d.channels == c.channels + [Channel([], false, false)])
            && (!res.Requested? ==> d.outbox == c.outbox)
            && (res == ErrWrite ==> d.channels == c.channels + [Channel([], true, false)])
            && (res == ErrIdInUse ==> d.channels == c.channels)
  {
  }

  /** Every answer of `Respond` with its reason; only a response that was written leaves the inbox. */
  lemma RespondAnswers(v: Server, res: Packet, ok: bool)
    ensures var (w, r) := Respond(v, res, ok);
            && (r == ErrZeroId <==> res.id == 0)
            && (r == ErrNotResponse <==> res.id != 0 && (res.code >= 32768 || res.code % 2 == 0))
            && (r == ErrNotPending <==> r != ErrZeroId && r != ErrNotResponse && res.id !in v.inbox)
            && (r == ErrRespondWrite <==> r != ErrZeroId && r != ErrNotResponse && res.id in v.inbox && !ok)
            && w.reqs == v.reqs && w.held == v.held
            && forall id :: id in w.inbox <==> id in v.inbox && !(r == Responded && id == res.id)
  {
  }

  /** A packet that the server has read: responses and notifications leave it alone, a known id is refused
      under that id, and any other request enters the inbox and waits for the channel. */
  lemma ReceiveAnswers(v: Server, p: Packet)
    ensures var (w, reply) := ServerReceive(v, p);
            var request := p.id != 0 && !(p.code < 32768 && p.code % 2 == 1);
            && (reply.Some? <==> request && p.id in v.inbox)
            && (reply.Some? ==> reply.value.id == p.id && reply.value.code == 1 && reply.value.body == InFlight)
            && (if request && p.id !in v.inbox
                then w.held == Some(p) && w.reqs == v.reqs && w.inbox == v.inbox + {p.id}
                else w == v)
  {
  }

  /** A packet that the client has read: only a response with a pending id changes anything. */
  lemma MatchAnswers(c: Client, p: Packet)
    requires c.Valid()
    ensures var d := ClientReceive(c, p);
            && (!(p.id != 0 && p.code < 32768 && p.code % 2 == 1 && p.id in c.outbox) ==> d == c)
            && d.nextId == c.nextId && |d.channels| == |c.channels|
            && (forall k :: 0 <= k < |c.channels| && !(p.id in c.outbox && c.outbox[p.id] == k) ==>
                  d.channels[k] == c.channels[k])
  {
  }

  /** The end of the client's loop closes the channels in the outbox and no others. */
  lemma EndAnswers(c: Client, k: nat)
    requires c.Valid() && k < |c.channels|
    ensures var d := ClientEnd(c);
            && |d.channels| == |c.channels| && d.outbox == c.outbox && d.channels[k].got == c.channels[k].got
            && (d.channels[k].closed <==> c.channels[k].closed || exists id :: id in c.outbox && c.outbox[id] == k)
  {
  }

  // Identifiers

  /** The id that the n-th call of `assignId` hands out. */
  function NthId(n: nat): Id {
    if n == 0 then 0 else FollowingId(NthId(n - 1))
  }

  /** The number of ids is 2^32 - 1. */
  function Cycle(n: nat): nat {
    n % 0xffff_ffff
  }

  lemma {:induction false} NthIdValue(n: nat)
    requires n > 0
    ensures NthId(n) == Cycle(n - 1) + 1
  {
    if n > 1 {
      NthIdValue(n - 1);
      Successor(n - 2, NthId(n - 1));
    }
  }

  lemma Successor(a: nat, id: Id)
    requires id == Cycle(a) + 1
    ensures FollowingId(id) == Cycle(a + 1) + 1
  {
  }

  /** Zero is never handed out; ids repeat after exactly 2^32 - 1 calls and never sooner. */
  lemma IdsRepeat(n: nat, m: nat)
    requires 0 < n < m
    ensures NthId(n) != 0
    ensures NthId(n) == NthId(m) <==> Cycle(m - n) == 0
  {
    hide Cycle, NthId;
    NthIdValue(n);
    NthIdValue(m);
    CycleShift(n - 1, m - n);
  }

  lemma CycleShift(a: nat, d: nat)
    ensures Cycle(a + d) == Cycle(a) <==> Cycle(d) == 0
  {
    Congruence(a, d, 0xffff_ffff);
  }

  lemma Congruence(a: nat, d: nat, q: int)
    requires q > 0
    ensures (a + d) % q == a % q <==> d % q == 0
  {
    var r := a % q + d % q;
    if r < q {
      Unique(a + d, a / q + d / q, r, q);
    } else {
      Unique(a + d, a / q + d / q + 1, r - q, q);
    }
  }

  lemma Unique(y: int, k: int, r: int, q: int)
    requires q > 0 && 0 <= r < q && y == k * q + r
    ensures y % q == r
  {
    var d := k - y / q;
    assert d * q == y % q - r;
    assert d >= 1 ==> d * q >= q;
    assert d <= -1 ==> d * q <= -q;
  }
}

/** The two ends as objects: each method does to its fields what the functions say. */
module IpcPeers {
  import opened Wrappers
  import opened Ipc

  class BaseClient {
    var outbox: map<Id, nat>
    var nextId: Id
    var channels: seq<Channel>

    ghost function View(): Client
      reads this
    {
      Client(outbox, nextId, channels)
    }

    /** No two pending ids share a channel, so that each can be closed once. */
    ghost predicate Valid()
      reads this
    {
      && View().Valid()
      && forall i, j :: i in outbox && j in outbox && outbox[i] == outbox[j] ==> i == j
    }

    constructor ()
      ensures Valid() && View() == NEW_CLIENT
    {
      outbox, nextId, channels := map[], 0, [];
    }

    method AssignId() returns (id: Id)
      modifies this`nextId
      ensures id == nextId == FollowingId(old(nextId))
    {
      nextId := (nextId + 1) % 0x1_0000_0000;
      if nextId == 0 {
        nextId := 1;
      }
      return nextId;
    }

    method Request(code: Method, body: Body, ok: bool) returns (res: RequestResult, written: Option<Packet>)
      requires Valid()
      modifies this
      ensures Valid() && (View(), res) == Ipc.Request(old(View()), code, body, ok)
      ensures written == if res.Requested? then Some(RequestPacket(old(View()), code, body)) else None
    {
      if IsResponse(code) { return ErrResponse, None; }
      var id := AssignId();
      if id in outbox { return ErrIdInUse, None; }
      var ch := |channels|;
      channels := channels + [NEW_CHANNEL];
      outbox := outbox[id := ch];
      if !ok {
        outbox := outbox - {id};
        assert outbox == old(outbox);
        channels := channels[ch := channels[ch].Close()];
        assert channels == old(channels) + [NEW_CHANNEL.Close()];
        return ErrWrite, None;
      }
      return Requested(ch), Some(Packet(id, code, body, ch));
    }

    method MatchResp(res: Packet)
      requires Valid()
      modifies this`outbox, this`channels
      ensures Valid() && View() == Ipc.MatchResp(old(View()), res)
    {
      if res.id !in outbox { return; }
      var ch := outbox[res.id];
      outbox := outbox - {res.id};
      channels := channels[ch := channels[ch].Send(res)];
    }

    method Receive(p: Packet)
      requires Valid()
      modifies this`outbox, this`channels
      ensures Valid() && View() == ClientReceive(old(View()), p)
    {
      if p.id != 0 && !IsResponse(p.code) { return; }
      if p.id == 0 { return; }
      MatchResp(p);
    }

    /** The outbox is walked in any order. */
    method End()
      requires Valid()
      modifies this`channels
      ensures Valid() && View() == ClientEnd(old(View()))
    {
      ghost var was := View();
      ghost var done: set<nat> := {};
      var todo := outbox.Keys;
      while todo != {}
        invariant todo <= outbox.Keys && |channels| == |was.channels|
        invariant done == set id | id in outbox.Keys - todo :: outbox[id]
        invariant forall k :: 0 <= k < |channels| ==>
                    channels[k] == if k in done then was.channels[k].Close() else was.channels[k]
      {
        var id :| id in todo;
        channels := channels[outbox[id] := channels[outbox[id]].Close()];
        done := done + {outbox[id]};
        todo := todo - {id};
      }
      assert done == outbox.Values;
      assert channels == ClientEnd(was).channels;
    }
  }

  class BaseServer {
    var inbox: set<Id>
    var reqs: seq<Packet>
    var held: Option<Packet>

    ghost function View(): Server
      reads this
    {
      Server(inbox, reqs, held)
    }

    constructor ()
      ensures View() == NEW_SERVER
    {
      inbox, reqs, held := {}, [], None;
    }

    /** The first part of `dispatchReq`; the lock is kept while a packet is held. */
    method DispatchReq(req: Packet) returns (reply: Option<Packet>)
      requires held.None?
      modifies this
      ensures (View(), reply) == Dispatch(old(View()), req)
    {
      if req.id in inbox {
        return Some(Packet(req.id, ERROR_RESPONSE, InFlight, req.origin));
      }
      inbox := inbox + {req.id};
      held := Some(req);
      return None;
    }

    /** The second part: one try of the send. */
    method TrySend() returns (sent: bool)
      modifies this`reqs, this`held
      ensures var next := Push(old(View()), CAPACITY);
              sent == next.Some? && View() == if sent then next.value else old(View())
    {
      if held.None? || |reqs| >= CAPACITY { return false; }
      reqs := reqs + [held.value];
      held := None;
      return true;
    }

    method Receive(p: Packet) returns (reply: Option<Packet>)
      requires held.None?
      modifies this
      ensures (View(), reply) == ServerReceive(old(View()), p)
    {
      if p.id != 0 && IsResponse(p.code) { return None; }
      if p.id == 0 { return None; }
      reply := DispatchReq(p);
    }

    method Respond(res: Packet, ok: bool) returns (result: RespondResult)
      requires held.None?
      modifies this`inbox
      ensures (View(), result) == Ipc.Respond(old(View()), res, ok)
    {
      if res.id == 0 { return ErrZeroId; }
      if !IsResponse(res.code) { return ErrNotResponse; }
      if res.id !in inbox { return ErrNotPending; }
      if !ok { return ErrRespondWrite; }
      inbox := inbox - {res.id};
      return Responded;
    }

    /** `Serve` takes a request. */
    method NextRequest() returns (req: Packet)
      requires reqs != []
      modifies this`reqs
      ensures old(reqs) == [req] + reqs
    {
      req := reqs[0];
      reqs := reqs[1..];
    }

    method Handle(req: Packet, status: string, ok: bool) returns (res: Packet, result: RespondResult)
      requires held.None?
      modifies this`inbox
      ensures res == Answer(req, status)
      ensures (View(), result) == Ipc.Respond(old(View()), res, ok)
    {
      if req.code == STATUS_REQUEST {
        res := Packet(req.id, STATUS_RESPONSE, Content(status), req.origin);
      } else {
        res := Packet(req.id, ERROR_RESPONSE, Unsupported(req.code), req.origin);
      }
      result := Respond(res, ok);
    }
  }
}
