/** A client, a server and `Serve` over a reliable link, interleaved in any way.
    A packet that a read loop has read but for which it does not have the lock yet counts as
    still on the link: nothing else can see the difference. */
module IpcRuns {
  import opened Wrappers
  import opened Ipc

  datatype Serving = Waiting | Handling(req: Packet) | Returned

  /** `sent` lists the packets of all calls of `Request`, and `made` the answers by call. */
  datatype System = System(
    client: Client,
    clientReads: bool,
    uplink: seq<Packet>,
    server: Server,
    serverReads: bool,
    serving: Serving,
    downlink: seq<Packet>,
    sent: seq<Packet>,
    made: map<nat, Packet>)

  const INITIAL := System(NEW_CLIENT, true, [], NEW_SERVER, true, Waiting, [], [], map[])

  /** `ok` says whether a write succeeds. */
  datatype Action =
    | Ask(code: Method, body: Body, ok: bool)
    | ClientRead
    | ClientEnds
    | ServerRead(ok: bool)
    | ServerPush
    | ServerEnds
    | ServeTake
    | ServeRespond(status: string, ok: bool)
    | ServeReturns

  function Hand(serving: Serving): seq<Packet> {
    match serving
    case Handling(p) => [p]
    case _ => []
  }

  function AskStep(s: System, code: Method, body: Body, ok: bool): System {
    var (c, res) := Request(s.client, code, body, ok);
    var p := RequestPacket(s.client, code, body);
    s.(client := c,
       sent := if |c.channels| > |s.client.channels| then s.sent + [p] else s.sent,
       uplink := if res.Requested? then s.uplink + [p] else s.uplink)
  }

  function ServerReadStep(s: System, ok: bool): System
    requires s.uplink != []
  {
    var (v, reply) := ServerReceive(s.server, s.uplink[0]);
    s.(server := v, uplink := s.uplink[1..],
       serverReads := reply.None? || ok,
       downlink := if reply.Some? && ok then s.downlink + [reply.value] else s.downlink)
  }

  function RespondStep(s: System, status: string, ok: bool): System
    requires s.serving.Handling?
  {
    var res := Answer(s.serving.req, status);
    var (v, result) := Respond(s.server, res, ok);
    s.(server := v, made := s.made[s.serving.req.origin := res],
       serving := if result.Responded? then Waiting else Returned,
       downlink := if result.Responded? then s.downlink + [res] else s.downlink)
  }

  /** One atomic step, or None when the action is not possible or blocks. A step that needs the
      server's lock blocks while the read loop holds a packet. */
  function Next(s: System, a: Action, capacity: nat): (r: Option<System>)
    requires s.client.Valid()
    ensures r.Some? ==> r.value.client.Valid()
  {
    match a
    case Ask(code, body, ok) => Some(AskStep(s, code, body, ok))
    case ClientRead =>
      if s.clientReads && s.downlink != []
      then Some(s.(client := ClientReceive(s.client, s.downlink[0]), downlink := s.downlink[1..])) else None
    case ClientEnds =>
      if s.clientReads then Some(s.(client := ClientEnd(s.client), clientReads := false)) else None
    case ServerRead(ok) =>
      if s.serverReads && !s.server.Locked() && s.uplink != [] then Some(ServerReadStep(s, ok)) else None
    case ServerPush =>
      var v := Push(s.server, capacity);
      if v.Some? then Some(s.(server := v.value)) else None
    case ServerEnds => if s.serverReads && !s.server.Locked() then Some(s.(serverReads := false)) else None
    case ServeTake =>
      if s.serving.Waiting? && s.server.reqs != []
      then Some(s.(serving := Handling(s.server.reqs[0]), server := s.server.(reqs := s.server.reqs[1..]))) else None
    case ServeRespond(status, ok) =>
      if s.serving.Handling? && !s.server.Locked() then Some(RespondStep(s, status, ok)) else None
    case ServeReturns => if s.serving.Waiting? then Some(s.(serving := Returned)) else None
  }

  // The invariant

  /** Requests that the server has read and not finished, in order. */
  function Inside(s: System): seq<Packet> {
    Hand(s.serving) + s.server.reqs + ToSeq(s.server.held)
  }

  function Requests(s: System): seq<Packet> {
    Inside(s) + s.uplink
  }

  /** Everything between the two ends of the client, oldest first. */
  function Pipe(s: System): seq<Packet> {
    s.downlink + Requests(s)
  }

  /** Packets keep the order of their calls. */
  ghost predicate Increasing(ps: seq<Packet>) {
    forall i, j :: 0 <= i < j < |ps| ==> ps[i].origin < ps[j].origin
  }

  /** This packet answers that one. */
  predicate Answers(res: Packet, req: Packet) {
    && res.id == req.id && res.origin == req.origin && IsResponse(res.code)
    && if req.code == STATUS_REQUEST then res.code == STATUS_RESPONSE && res.body.Content?
       else res.code == ERROR_RESPONSE && res.body == Unsupported(req.code)
  }

  /** The outbox points to its own channels, these are untouched while the client reads, and
      every other channel has its answer or is closed. */
  ghost predicate OutboxOk(s: System) {
    && s.client.Valid() && |s.sent| == |s.client.channels|
    && (forall id :: id in s.client.outbox ==>
          && s.sent[s.client.outbox[id]].id == id
          && var ch := s.client.channels[s.client.outbox[id]];
             ch.got == [] && (s.clientReads ==> !ch.closed))
    && forall k :: 0 <= k < |s.sent| && !Settled(s.client.channels[k]) ==> Pending(s, s.sent[k])
  }

  predicate Settled(ch: Channel) { ch.got != [] || ch.closed }

  /** A channel holds nothing but the answer to its own request and was never misused. */
  ghost predicate ChannelsOk(s: System) {
    && |s.sent| == |s.client.channels|
    && (forall k :: 0 <= k < |s.sent| ==>
          && s.sent[k].origin == k && s.sent[k].id != 0 && !IsResponse(s.sent[k].code)
          && var ch := s.client.channels[k];
             !ch.misused && (ch.got != [] ==> k in s.made && ch.got == [s.made[k]]))
    && forall k :: k in s.made ==> k < |s.sent| && Answers(s.made[k], s.sent[k])
  }

  /** Everything in the pipe is still pending. */
  ghost predicate Pending(s: System, p: Packet) {
    && p.id in s.client.outbox && s.client.outbox[p.id] == p.origin < |s.sent|
  }

  ghost predicate PipeOk(s: System) {
    && Increasing(Pipe(s))
    && (forall p :: p in s.downlink || p in Requests(s) ==> Pending(s, p))
    && (forall p :: p in Requests(s) ==> p.origin < |s.sent| && p == s.sent[p.origin])
    && (forall p :: p in s.downlink ==> p.origin in s.made && p == s.made[p.origin])
    && (forall p, k :: p in Requests(s) && k in s.made ==> k < p.origin)
  }

  /** The inbox lists what is inside, and nothing that is still to come or already answered. */
  ghost predicate InboxOk(s: System) {
    && s.server.inbox <= s.client.outbox.Keys
    && (forall p :: p in Inside(s) ==> p.id in s.server.inbox)
    && (forall p :: p in s.downlink || p in s.uplink ==> p.id !in s.server.inbox)
  }

  ghost predicate Inv(s: System) {
    OutboxOk(s) && ChannelsOk(s) && PipeOk(s) && InboxOk(s)
  }

  lemma InitialInv()
    ensures Inv(INITIAL)
  {
    assert Inside(INITIAL) == [] && Requests(INITIAL) == [] && Pipe(INITIAL) == [];
    hide Inside, Requests, Pipe;
  }

  /** No request finds its id in the inbox, and none is skipped. */
  lemma NeverInFlight(s: System)
    requires Inv(s) && s.uplink != []
    ensures var p := s.uplink[0];
            ServerReceive(s.server, p) == (s.server.(inbox := s.server.inbox + {p.id}, held := Some(p)), None)
  {
    assert s.uplink[0] in s.uplink && s.uplink[0] in Requests(s);
  }

  /** `Serve` never sees one of the errors of `Respond` but a failed write. */
  lemma RespondAccepted(s: System, status: string, ok: bool)
    requires Inv(s) && s.serving.Handling?
    ensures var req := s.serving.req;
            var res := Answer(req, status);
            && req.origin < |s.sent| && req == s.sent[req.origin] && Answers(res, req)
            && Respond(s.server, res, ok)
               == if ok then (s.server.(inbox := s.server.inbox - {res.id}), Responded) else (s.server, ErrRespondWrite)
  {
    assert s.serving.req == Inside(s)[0] && s.serving.req == Requests(s)[0];
    assert s.serving.req in Inside(s) && s.serving.req in Requests(s);
  }

  // Every step keeps the invariant

  lemma ReadMoves(s: System, ok: bool)
    requires Inv(s) && !s.server.Locked() && s.uplink != []
    ensures var t := ServerReadStep(s, ok);
            && t == s.(uplink := s.uplink[1..], serverReads := true,
                       server := s.server.(inbox := s.server.inbox + {s.uplink[0].id}, held := Some(s.uplink[0])))
            && Requests(t) == Requests(s)
            && Inside(t) == Inside(s) + [s.uplink[0]]
  {
    NeverInFlight(s);
    hide Inv;
    assert s.uplink == [s.uplink[0]] + s.uplink[1..];
  }

  lemma ReadKeeps(s: System, ok: bool)
    requires Inv(s) && !s.server.Locked() && s.uplink != []
    ensures Inv(ServerReadStep(s, ok))
  {
    var t, p := ServerReadStep(s, ok), s.uplink[0];
    ReadMoves(s, ok);
    hide OutboxOk, ChannelsOk, PipeOk, InboxOk, Increasing, ServerReadStep;
    Distinct(s, s.downlink + Inside(s), p, s.uplink[1..]) by {
      assert s.uplink == [p] + s.uplink[1..];
      assert Pipe(s) == s.downlink + Inside(s) + [p] + s.uplink[1..];
    }
    assert p in Requests(s);
    hide Inside, Requests;
    assert OutboxOk(t) && ChannelsOk(t) && PipeOk(t) by { SameElsewhere(s, t); }
    EnterInbox(s, t, p);
  }

  lemma EnterInbox(s: System, t: System, p: Packet)
    requires InboxOk(s) && p.id in s.client.outbox && Inside(t) == Inside(s) + [p]
    requires t.client == s.client && t.downlink == s.downlink && s.uplink == [p] + t.uplink
    requires t.server.inbox == s.server.inbox + {p.id}
    requires forall q :: q in s.downlink || q in t.uplink ==> q.id != p.id
    ensures InboxOk(t)
  {
    hide Inside;
  }

  lemma SameElsewhere(s: System, t: System)
    requires OutboxOk(s) && ChannelsOk(s) && PipeOk(s) && Requests(t) == Requests(s)
    requires t == s.(server := t.server, serverReads := t.serverReads, serving := t.serving, uplink := t.uplink)
    ensures OutboxOk(t) && ChannelsOk(t) && PipeOk(t)
  {
    hide Requests, Increasing, Answers;
  }

  /** The other steps inside the server move no packet in or out. */
  lemma ShiftKeeps(s: System, t: System)
    requires Inv(s) && t == s.(server := t.server, serverReads := t.serverReads, serving := t.serving)
    requires t.server.inbox == s.server.inbox && Inside(t) == Inside(s)
    ensures Inv(t)
  {
    hide Inside;
    assert Requests(t) == Requests(s);
    assert InboxOk(t) by { hide OutboxOk, ChannelsOk, PipeOk; }
    hide OutboxOk, ChannelsOk, PipeOk, InboxOk, Requests;
    SameElsewhere(s, t);
  }

  /** A packet in the pipe differs from those before and after it in origin and id. */
  lemma Distinct(s: System, left: seq<Packet>, p: Packet, right: seq<Packet>)
    requires PipeOk(s) && Pipe(s) == left + [p] + right
    ensures Pending(s, p)
    ensures forall q :: q in left ==> q.origin < p.origin && q.id != p.id
    ensures forall q :: q in right ==> q.origin > p.origin && q.id != p.id
  {
    hide Requests;
    var ps, n := Pipe(s), |left|;
    assert ps[n] == p && ps[n] in ps;
    assert forall q :: q in left || q in right ==> q in ps;
    forall q | q in left ensures q.origin < p.origin {
      var i :| 0 <= i < n && left[i] == q;
      assert ps[i] == q;
    }
    forall q | q in right ensures q.origin > p.origin {
      var i :| 0 <= i < |right| && right[i] == q;
      assert ps[n + 1 + i] == q;
    }
  }

  lemma IncreasingAppend(ps: seq<Packet>, p: Packet)
    requires Increasing(ps) && forall q :: q in ps ==> q.origin < p.origin
    ensures Increasing(ps + [p])
  {
  }

  lemma IncreasingChange(left: seq<Packet>, p: Packet, right: seq<Packet>, q: Packet)
    requires Increasing(left + [p] + right) && p.origin == q.origin
    ensures Increasing(left + [q] + right) && Increasing(left + right)
  {
    var ps, qs, rs := left + [p] + right, left + [q] + right, left + right;
    assert forall i :: 0 <= i < |ps| ==> ps[i].origin == qs[i].origin;
    forall i, j | 0 <= i < j < |rs| ensures rs[i].origin < rs[j].origin {
      var i', j' := if i < |left| then i else i + 1, if j < |left| then j else j + 1;
      assert ps[i'] == rs[i] && ps[j'] == rs[j];
    }
  }

  lemma FollowingIdNonZero(id: Id)
    ensures FollowingId(id) != 0
  {
  }

  lemma AskKeeps(s: System, code: Method, body: Body, ok: bool)
    requires Inv(s)
    ensures Inv(AskStep(s, code, body, ok))
  {
    var t := AskStep(s, code, body, ok);
    var p := RequestPacket(s.client, code, body);
    FollowingIdNonZero(s.client.nextId);
    assert s.client.Valid() && |s.sent| == |s.client.channels|;
    hide FollowingId, Inside, OutboxOk, ChannelsOk, PipeOk, InboxOk;
    if Request(s.client, code, body, ok).1.Requested? {
      AskEnters(s, t, p);
    } else if IsResponse(code) || p.id in s.client.outbox {
      AskRefused(s, t);
    } else {
      AskLost(s, t, p);
    }
  }

  lemma AskRefused(s: System, t: System)
    requires Inv(s) && t == s.(client := s.client.(nextId := t.client.nextId))
    ensures Inv(t)
  {
    hide Increasing, Answers;
    assert Inside(t) == Inside(s);
    hide Inside;
    assert Requests(t) == Requests(s);
  }

  lemma AskLost(s: System, t: System, p: Packet)
    requires Inv(s) && p.origin == |s.sent| && p.id != 0 && !IsResponse(p.code)
    requires t == s.(client := s.client.(nextId := t.client.nextId,
                                         channels := s.client.channels + [NEW_CHANNEL.Close()]),
                     sent := s.sent + [p])
    ensures Inv(t)
  {
    hide OutboxOk, ChannelsOk, PipeOk, InboxOk;
    assert Inside(t) == Inside(s);
    hide Inside;
    assert Requests(t) == Requests(s);
    hide Requests;
    assert Pipe(t) == Pipe(s);
    hide Pipe;
    AskChannels(s, t, p);
    LostOutbox(s, t, p);
    LostPipe(s, t, p);
  }

  lemma LostOutbox(s: System, t: System, p: Packet)
    requires OutboxOk(s) && p.origin == |s.sent|
    requires t.client.outbox == s.client.outbox && t.client.channels == s.client.channels + [NEW_CHANNEL.Close()]
    requires t.sent == s.sent + [p] && t.clientReads == s.clientReads
    ensures OutboxOk(t)
  {
  }

  lemma LostPipe(s: System, t: System, p: Packet)
    requires PipeOk(s) && InboxOk(s) && Inside(t) == Inside(s) && Requests(t) == Requests(s) && Pipe(t) == Pipe(s)
    requires t == s.(client := t.client, sent := s.sent + [p]) && t.client.outbox == s.client.outbox
    ensures PipeOk(t) && InboxOk(t)
  {
    hide Inside, Requests, Pipe, Increasing;
    assert PipeOk(t) by { hide InboxOk; }
  }

  lemma AskEnters(s: System, t: System, p: Packet)
    requires Inv(s) && p.origin == |s.sent| && p.id != 0 && !IsResponse(p.code) && p.id !in s.client.outbox
    requires t == s.(client := Client(s.client.outbox[p.id := p.origin], t.client.nextId,
                                      s.client.channels + [NEW_CHANNEL]),
                     sent := s.sent + [p], uplink := s.uplink + [p])
    ensures Inv(t)
  {
    assert forall k :: k in s.made ==> k < |s.sent|;
    hide OutboxOk, ChannelsOk, PipeOk, InboxOk;
    assert Inside(t) == Inside(s);
    hide Inside;
    assert Requests(t) == Requests(s) + [p];
    assert forall q :: q in Inside(s) || q in s.uplink ==> q in Requests(s);
    hide Requests;
    assert Pipe(t) == Pipe(s) + [p];
    assert forall q :: q in Pipe(s) ==> q in s.downlink || q in Requests(s);
    hide Pipe;
    AskOutbox(s, t, p);
    AskChannels(s, t, p);
    AskPipe(s, t, p);
    AskInbox(s, t, p);
  }

  lemma AskOutbox(s: System, t: System, p: Packet)
    requires OutboxOk(s) && p.origin == |s.sent| && p.id !in s.client.outbox
    requires t == s.(client := Client(s.client.outbox[p.id := p.origin], t.client.nextId,
                                      s.client.channels + [NEW_CHANNEL]),
                     sent := s.sent + [p], uplink := t.uplink)
    ensures OutboxOk(t)
  {
  }

  lemma AskChannels(s: System, t: System, p: Packet)
    requires ChannelsOk(s) && p.origin == |s.sent| && p.id != 0 && !IsResponse(p.code)
    requires t == s.(client := t.client, sent := s.sent + [p], uplink := t.uplink)
    requires || t.client.channels == s.client.channels + [NEW_CHANNEL]
             || t.client.channels == s.client.channels + [NEW_CHANNEL.Close()]
    ensures ChannelsOk(t)
  {
    hide Answers;
  }

  lemma AskPipe(s: System, t: System, p: Packet)
    requires OutboxOk(s) && PipeOk(s) && forall k :: k in s.made ==> k < |s.sent|
    requires p.origin == |s.sent| && p.id !in s.client.outbox
    requires Requests(t) == Requests(s) + [p] && Pipe(t) == Pipe(s) + [p]
    requires t == s.(client := t.client, sent := s.sent + [p], uplink := t.uplink)
    requires t.client.outbox == s.client.outbox[p.id := p.origin]
    requires forall q :: q in Pipe(s) ==> q in s.downlink || q in Requests(s)
    ensures PipeOk(t)
  {
    hide Requests, Pipe;
    IncreasingAppend(Pipe(s), p);
    hide Increasing;
  }

  lemma AskInbox(s: System, t: System, p: Packet)
    requires InboxOk(s) && PipeOk(s) && p.id !in s.client.outbox && Inside(t) == Inside(s)
    requires t == s.(client := t.client, sent := t.sent, uplink := s.uplink + [p])
    requires t.client.outbox == s.client.outbox[p.id := p.origin]
    ensures InboxOk(t)
  {
    hide Requests, Pipe, Inside, Increasing;
  }

  lemma RespondKeeps(s: System, status: string, ok: bool)
    requires Inv(s) && s.serving.Handling?
    ensures Inv(RespondStep(s, status, ok))
  {
    var t := RespondStep(s, status, ok);
    var req, res := s.serving.req, Answer(s.serving.req, status);
    var rest := s.server.reqs + ToSeq(s.server.held) + s.uplink;
    RespondAccepted(s, status, ok);
    hide Answer, Increasing, OutboxOk, ChannelsOk, InboxOk, PipeOk;
    assert t == s.(server := t.server, made := s.made[req.origin := res], serving := t.serving,
                   downlink := if ok then s.downlink + [res] else s.downlink);
    assert t.server == if ok then s.server.(inbox := s.server.inbox - {res.id}) else s.server;
    assert Hand(t.serving) == [];
    hide RespondStep;
    RespondMoves(s, t, req, rest);
    Distinct(s, s.downlink, req, rest);
    hide Requests, Inside, Pipe;
    assert Increasing(Pipe(t)) by {
      IncreasingChange(s.downlink, req, rest, res);
    }
    RespondChannels(s, t, req, res);
    RespondPipe(s, t, req, res, rest);
    RespondInbox(s, t, req, res, rest, ok);
  }

  lemma RespondMoves(s: System, t: System, req: Packet, rest: seq<Packet>)
    requires s.serving == Handling(req) && rest == s.server.reqs + ToSeq(s.server.held) + s.uplink
    requires t == s.(server := t.server, made := t.made, serving := t.serving, downlink := t.downlink)
    requires t.server == s.server.(inbox := t.server.inbox) && Hand(t.serving) == []
    ensures Requests(s) == [req] + rest && Requests(t) == rest && Inside(s) == [req] + Inside(t)
    ensures Pipe(s) == s.downlink + [req] + rest && Pipe(t) == t.downlink + rest
    ensures forall q :: q in Inside(t) || q in s.uplink ==> q in rest
  {
    assert Inside(s) == [req] + Inside(t);
    assert rest == Inside(t) + s.uplink;
  }

  lemma RespondInbox(s: System, t: System, req: Packet, res: Packet, rest: seq<Packet>, ok: bool)
    requires InboxOk(s) && res.id == req.id && Inside(s) == [req] + Inside(t)
    requires t == s.(server := t.server, made := t.made, serving := t.serving,
                     downlink := if ok then s.downlink + [res] else s.downlink)
    requires t.server.inbox == if ok then s.server.inbox - {res.id} else s.server.inbox
    requires forall q :: q in Inside(t) || q in s.uplink ==> q in rest
    requires forall q :: q in s.downlink || q in rest ==> q.id != req.id
    ensures InboxOk(t)
  {
    hide Inside;
  }

  lemma RespondPipe(s: System, t: System, req: Packet, res: Packet, rest: seq<Packet>)
    requires PipeOk(s) && Increasing(Pipe(t)) && Pending(s, req) && res.id == req.id && res.origin == req.origin
    requires t == s.(server := t.server, made := s.made[req.origin := res], serving := t.serving,
                     downlink := t.downlink)
    requires t.downlink == s.downlink + [res] || t.downlink == s.downlink
    requires Requests(s) == [req] + rest && Requests(t) == rest
    requires forall q :: q in s.downlink ==> q.origin < req.origin
    requires forall q :: q in rest ==> q.origin > req.origin
    ensures PipeOk(t)
  {
    hide Requests, Pipe, Increasing;
    assert forall q :: q in rest ==> q in Requests(s);
  }

  /** The first answer to a call is its only one. */
  lemma RespondChannels(s: System, t: System, req: Packet, res: Packet)
    requires OutboxOk(s) && ChannelsOk(s) && Answers(res, req) && Pending(s, req) && req == s.sent[req.origin]
    requires t == s.(server := t.server, made := s.made[req.origin := res], serving := t.serving,
                     downlink := t.downlink)
    ensures OutboxOk(t) && ChannelsOk(t)
  {
    hide Answers;
  }

  lemma ClientReadKeeps(s: System)
    requires Inv(s) && s.clientReads && s.downlink != []
    ensures Inv(s.(client := ClientReceive(s.client, s.downlink[0]), downlink := s.downlink[1..]))
  {
    var t := s.(client := ClientReceive(s.client, s.downlink[0]), downlink := s.downlink[1..]);
    var p := s.downlink[0];
    Delivery(s);
    hide OutboxOk, ChannelsOk, InboxOk, PipeOk, ClientReceive;
    assert s.downlink == [p] + t.downlink;
    assert Requests(t) == Requests(s) && Inside(t) == Inside(s);
    hide Requests, Inside;
    assert Pipe(s) == [] + [p] + Pipe(t);
    assert forall q :: q in t.downlink || q in Requests(t) ==> q in Pipe(t);
    Distinct(s, [], p, Pipe(t));
    hide Pipe;
    ReadClient(s, t, p);
    ReadPipe(s, t, p);
    ReadInbox(s, t, p);
  }

  /** A packet from the link reaches an open channel that got nothing yet. */
  lemma Delivery(s: System)
    requires Inv(s) && s.clientReads && s.downlink != []
    ensures var p := s.downlink[0];
            && Pending(s, p) && s.client.channels[p.origin] == NEW_CHANNEL
            && p.origin in s.made && p == s.made[p.origin] && Answers(p, s.sent[p.origin])
            && ClientReceive(s.client, p)
               == s.client.(outbox := s.client.outbox - {p.id},
                            channels := s.client.channels[p.origin := Channel([p], false, false)])
  {
    hide Increasing, Requests, Inside, InboxOk;
    assert s.downlink[0] in s.downlink;
  }

  lemma ReadClient(s: System, t: System, p: Packet)
    requires OutboxOk(s) && ChannelsOk(s) && Pending(s, p) && p.origin in s.made && p == s.made[p.origin]
    requires s.client.channels[p.origin] == NEW_CHANNEL
    requires t == s.(client := s.client.(outbox := s.client.outbox - {p.id},
                                         channels := s.client.channels[p.origin := Channel([p], false, false)]),
                     downlink := t.downlink)
    ensures OutboxOk(t) && ChannelsOk(t)
  {
    assert OutboxOk(t) by { hide ChannelsOk; }
    assert ChannelsOk(t) by { hide Answers; }
  }

  lemma ReadPipe(s: System, t: System, p: Packet)
    requires PipeOk(s) && s.downlink == [p] + t.downlink
    requires Requests(t) == Requests(s) && Pipe(s) == [] + [p] + Pipe(t)
    requires t == s.(client := t.client, downlink := t.downlink) && t.client.outbox == s.client.outbox - {p.id}
    requires forall q :: q in t.downlink || q in Requests(t) ==> q.id != p.id
    ensures PipeOk(t)
  {
    hide Requests, Pipe;
    IncreasingChange([], p, Pipe(t), p);
    assert [] + Pipe(t) == Pipe(t);
    hide Increasing;
  }

  lemma ReadInbox(s: System, t: System, p: Packet)
    requires InboxOk(s) && s.downlink == [p] + t.downlink && Inside(t) == Inside(s)
    requires t == s.(client := t.client, downlink := t.downlink) && t.client.outbox == s.client.outbox - {p.id}
    ensures InboxOk(t)
  {
    hide Inside;
  }

  lemma ClientEndsKeeps(s: System)
    requires Inv(s) && s.clientReads
    ensures Inv(s.(client := ClientEnd(s.client), clientReads := false))
  {
    var t := s.(client := ClientEnd(s.client), clientReads := false);
    assert Pipe(s) == Pipe(t) && Requests(s) == Requests(t) && Inside(s) == Inside(t);
  }

  /** Every step keeps the invariant. */
  lemma NextKeeps(s: System, a: Action, capacity: nat)
    requires Inv(s) && Next(s, a, capacity).Some?
    ensures Inv(Next(s, a, capacity).value)
  {
    var t := Next(s, a, capacity).value;
    hide OutboxOk, ChannelsOk, PipeOk, InboxOk, AskStep, RespondStep, ServerReadStep, ClientReceive, ClientEnd;
    match a
    case Ask(code, body, ok) => AskKeeps(s, code, body, ok);
    case ClientRead => ClientReadKeeps(s);
    case ClientEnds => ClientEndsKeeps(s);
    case ServerRead(ok) => ReadKeeps(s, ok);
    case ServerPush => ShiftKeeps(s, t);
    case ServerEnds => ShiftKeeps(s, t);
    case ServeTake =>
      assert s.server.reqs == [s.server.reqs[0]] + s.server.reqs[1..];
      ShiftKeeps(s, t);
    case ServeRespond(status, ok) => RespondKeeps(s, status, ok);
    case ServeReturns => ShiftKeeps(s, t);
  }

  // Runs

  function Run(s: System, actions: seq<Action>, capacity: nat): (r: Option<System>)
    requires s.client.Valid()
    ensures r.Some? ==> r.value.client.Valid()
  {
    if actions == [] then Some(s)
    else
      var r := Run(s, actions[..|actions| - 1], capacity);
      if r.None? then None else Next(r.value, actions[|actions| - 1], capacity)
  }

  lemma RunLast(s: System, actions: seq<Action>, a: Action, capacity: nat)
    requires s.client.Valid() && Run(s, actions, capacity).Some?
    ensures Run(s, actions + [a], capacity) == Next(Run(s, actions, capacity).value, a, capacity)
  {
    hide Next;
    assert (actions + [a])[..|actions|] == actions;
  }

  lemma {:induction false} RunKeeps(s: System, actions: seq<Action>, capacity: nat)
    requires Inv(s) && Run(s, actions, capacity).Some?
    ensures Inv(Run(s, actions, capacity).value)
  {
    assert s.client.Valid();
    hide Next, Inv;
    if actions == [] {
    } else {
      RunKeeps(s, actions[..|actions| - 1], capacity);
      NextKeeps(Run(s, actions[..|actions| - 1], capacity).value, actions[|actions| - 1], capacity);
    }
  }

  /** Step `i` of the run is the call of `Request` that made channel `k`, and `p` is the packet it was to write. */
  ghost predicate AskedAt(actions: seq<Action>, capacity: nat, i: nat, k: nat, p: Packet) {
    && i < |actions| && actions[i].Ask?
    && (var before := Run(INITIAL, actions[..i], capacity);
        before.Some? && |before.value.client.channels| == k)
    && p.code == actions[i].code && p.body == actions[i].body
  }

  /** Step `i` of the run is `Serve` answering `req` by `res`: a status request, number 2, with the status of
      that moment in a response of number 3, and any other with an error, number 1, that names its number. */
  ghost predicate AnsweredAt(actions: seq<Action>, capacity: nat, i: nat, req: Packet, res: Packet) {
    && i < |actions| && actions[i].ServeRespond?
    && (var before := Run(INITIAL, actions[..i], capacity);
        before.Some? && before.value.serving == Handling(req))
    && res.id == req.id
    && if req.code == 2 then res.code == 3 && res.body == Content(actions[i].status)
       else res.code == 1 && res.body == Unsupported(req.code)
  }

  lemma EarlierStep(actions: seq<Action>, a: Action, capacity: nat, i: nat)
    ensures forall k, p :: AskedAt(actions, capacity, i, k, p) ==> AskedAt(actions + [a], capacity, i, k, p)
    ensures forall p, q :: AnsweredAt(actions, capacity, i, p, q) ==> AnsweredAt(actions + [a], capacity, i, p, q)
  {
    hide Run;
    assert i < |actions| ==> (actions + [a])[..i] == actions[..i] && (actions + [a])[i] == actions[i];
  }

  /** Requests and answers only grow, by what the step says. */
  lemma StepRecords(s: System, a: Action, capacity: nat)
    requires Inv(s) && Next(s, a, capacity).Some?
    ensures var t := Next(s, a, capacity).value;
            && |s.sent| == |s.client.channels| && |t.sent| == |t.client.channels|
            && (t.sent == s.sent || (a.Ask? && |t.sent| == |s.sent| + 1 && t.sent[..|s.sent|] == s.sent
                                     && t.sent[|s.sent|].code == a.code && t.sent[|s.sent|].body == a.body))
            && (if a.ServeRespond? && s.serving.Handling? then
                  var req := s.serving.req;
                  && req.origin < |s.sent| && req == s.sent[req.origin] && t.sent == s.sent
                  && t.made == s.made[req.origin := Answer(req, a.status)]
                else t.made == s.made)
  {
    if a.ServeRespond? {
      RespondAccepted(s, a.status, a.ok);
    }
    assert |s.sent| == |s.client.channels|;
    hide Inv, ServerReceive, Respond, ClientReceive, Push, FollowingId, Answer;
    if a.ClientRead? {
      ReceiveKeepsChannels(s.client, s.downlink[0]);
    }
  }

  lemma ReceiveKeepsChannels(c: Client, p: Packet)
    requires c.Valid()
    ensures |ClientReceive(c, p).channels| == |c.channels|
  {
  }

  lemma {:induction false} AskedBy(actions: seq<Action>, capacity: nat, k: nat) returns (i: nat)
    requires Run(INITIAL, actions, capacity).Some? && k < |Run(INITIAL, actions, capacity).value.sent|
    ensures AskedAt(actions, capacity, i, k, Run(INITIAL, actions, capacity).value.sent[k])
  {
    InitialInv();
    hide Inv, Next;
    var init, last := actions[..|actions| - 1], actions[|actions| - 1];
    var r, s := Run(INITIAL, init, capacity).value, Run(INITIAL, actions, capacity).value;
    RunKeeps(INITIAL, init, capacity);
    StepRecords(r, last, capacity);
    assert actions == init + [last];
    hide Run;
    if k < |r.sent| {
      assert s.sent[k] == r.sent[k];
      i := AskedBy(init, capacity, k);
      EarlierStep(init, last, capacity, i);
    } else {
      i := |actions| - 1;
      assert actions[..i] == init;
    }
  }

  lemma {:induction false} AnsweredBy(actions: seq<Action>, capacity: nat, k: nat) returns (i: nat)
    requires Run(INITIAL, actions, capacity).Some?
    requires var s := Run(INITIAL, actions, capacity).value; k in s.made && k < |s.sent|
    ensures var s := Run(INITIAL, actions, capacity).value;
            AnsweredAt(actions, capacity, i, s.sent[k], s.made[k])
  {
    InitialInv();
    hide Inv, Next;
    var init, last := actions[..|actions| - 1], actions[|actions| - 1];
    var r, s := Run(INITIAL, init, capacity).value, Run(INITIAL, actions, capacity).value;
    RunKeeps(INITIAL, init, capacity);
    MadeIsSent(r);
    StepRecords(r, last, capacity);
    assert actions == init + [last];
    hide Run;
    if last.ServeRespond? && r.serving.Handling? && r.serving.req.origin == k {
      i := |actions| - 1;
      assert actions[..i] == init;
      assert s.made == r.made[k := Answer(r.serving.req, last.status)] && s.sent == r.sent;
    } else {
      assert k in r.made && s.made[k] == r.made[k] && s.sent[k] == r.sent[k];
      i := AnsweredBy(init, capacity, k);
      EarlierStep(init, last, capacity, i);
    }
  }

  lemma MadeIsSent(s: System)
    requires Inv(s)
    ensures forall k :: k in s.made ==> k < |s.sent|
  {
  }

  ghost predicate WasAsked(actions: seq<Action>, capacity: nat, k: nat, p: Packet) {
    exists i :: AskedAt(actions, capacity, i, k, p)
  }

  ghost predicate WasAnswered(actions: seq<Action>, capacity: nat, req: Packet, res: Packet) {
    exists i :: AnsweredAt(actions, capacity, i, req, res)
  }

  /** Channel `k` was never misused, and some call of `Request` made it for the packet `sent[k]`. It got at most
      one packet: the answer that some step of `Serve` made to that very request. */
  ghost predicate Explained(actions: seq<Action>, capacity: nat, s: System, k: nat) {
    && k < |s.client.channels| && k < |s.sent|
    && !s.client.channels[k].misused
    && WasAsked(actions, capacity, k, s.sent[k])
    && var got := s.client.channels[k].got;
       got == [] || (|got| == 1 && WasAnswered(actions, capacity, s.sent[k], got[0]))
  }

  lemma ChannelExplained(actions: seq<Action>, capacity: nat, k: nat)
    requires Run(INITIAL, actions, capacity).Some?
    requires k < |Run(INITIAL, actions, capacity).value.client.channels|
    ensures Explained(actions, capacity, Run(INITIAL, actions, capacity).value, k)
  {
    hide Run, Next, Inv, WasAsked, WasAnswered;
    InitialInv();
    RunKeeps(INITIAL, actions, capacity);
    var s := Run(INITIAL, actions, capacity).value;
    ChannelMeaning(s, k);
    AskRecorded(actions, capacity, k);
    if k in s.made {
      AnswerRecorded(actions, capacity, k);
    }
  }

  lemma AskRecorded(actions: seq<Action>, capacity: nat, k: nat)
    requires Run(INITIAL, actions, capacity).Some? && k < |Run(INITIAL, actions, capacity).value.sent|
    ensures WasAsked(actions, capacity, k, Run(INITIAL, actions, capacity).value.sent[k])
  {
    hide Run, Next, AskedAt;
    var i := AskedBy(actions, capacity, k);
  }

  lemma AnswerRecorded(actions: seq<Action>, capacity: nat, k: nat)
    requires Run(INITIAL, actions, capacity).Some?
    requires var s := Run(INITIAL, actions, capacity).value; k in s.made && k < |s.sent|
    ensures var s := Run(INITIAL, actions, capacity).value; WasAnswered(actions, capacity, s.sent[k], s.made[k])
  {
    hide Run, Next, AnsweredAt;
    var i := AnsweredBy(actions, capacity, k);
  }

  /** Over any run, also one in which ids have come round: each channel gets at most one packet,
      the server's answer to the very request of that channel, as some call of `Request` wrote it, with the
      status of the moment when it was answered; none is sent to after its close, sent to twice or
      closed twice; and the server never finds a request in flight already. */
  lemma Correlation(actions: seq<Action>, capacity: nat)
    requires Run(INITIAL, actions, capacity).Some?
    ensures var s := Run(INITIAL, actions, capacity).value;
            && Inv(s)
            && (forall k :: 0 <= k < |s.client.channels| ==> Explained(actions, capacity, s, k))
            && (s.uplink != [] ==> ServerReceive(s.server, s.uplink[0]).1.None?)
  {
    InitialInv();
    RunKeeps(INITIAL, actions, capacity);
    var s := Run(INITIAL, actions, capacity).value;
    hide Run, Next, Inv, Explained;
    if s.uplink != [] {
      NeverInFlight(s);
    }
    forall k | 0 <= k < |s.client.channels| ensures Explained(actions, capacity, s, k) {
      ChannelExplained(actions, capacity, k);
    }
  }

  lemma ChannelMeaning(s: System, k: nat)
    requires Inv(s) && k < |s.client.channels|
    ensures k < |s.sent| && !s.client.channels[k].misused
    ensures var got := s.client.channels[k].got; got == [] || (k in s.made && got == [s.made[k]])
  {
    hide PipeOk, InboxOk, Answers;
  }

  /** The server's loop can end whenever it holds no packet, for good; what it has passed on is still served. */
  lemma ServerEndStops(s: System, capacity: nat)
    requires s.client.Valid()
    ensures Next(s, ServerEnds, capacity).Some? <==> s.serverReads && !s.server.Locked()
    ensures Next(s, ServerEnds, capacity).Some? ==>
              var t := Next(s, ServerEnds, capacity).value;
              && t.server == s.server && t.serving == s.serving && t.client == s.client
              && (forall ok :: Next(t, ServerRead(ok), capacity).None?) && Next(t, ServerEnds, capacity).None?
              && (s.serving.Waiting? && s.server.reqs != [] ==> Next(t, ServeTake, capacity).Some?)
  {
  }

  // Requests after the client's loop has ended

  lemma StaysUnsettled(s: System, a: Action, capacity: nat, k: nat)
    requires s.client.Valid() && !s.clientReads && k < |s.client.channels| && Next(s, a, capacity).Some?
    ensures var t := Next(s, a, capacity).value;
            !t.clientReads && k < |t.client.channels| && t.client.channels[k] == s.client.channels[k]
  {
    hide ServerReceive, Respond, Answer, Push, FollowingId;
  }

  /** Once the client's loop has ended, no channel changes any more. */
  lemma {:induction false} NeverSettled(s: System, actions: seq<Action>, capacity: nat, k: nat)
    requires s.client.Valid() && !s.clientReads && k < |s.client.channels| && Run(s, actions, capacity).Some?
    ensures var t := Run(s, actions, capacity).value;
            !t.clientReads && k < |t.client.channels| && t.client.channels[k] == s.client.channels[k]
  {
    hide Next;
    if actions == [] {
    } else {
      var init, last := actions[..|actions| - 1], actions[|actions| - 1];
      NeverSettled(s, init, capacity, k);
      StaysUnsettled(Run(s, init, capacity).value, last, capacity, k);
    }
  }

  /** A channel that has neither its answer nor a close can still come to one exactly while the
      client's loop runs. */
  lemma WhenSettled(s: System, capacity: nat, k: nat)
    requires Inv(s) && k < |s.client.channels| && !Settled(s.client.channels[k])
    ensures s.clientReads <==>
            exists actions :: SettlesIn(s, actions, capacity, k)
  {
    if s.clientReads {
      var t := Next(s, ClientEnds, capacity).value;
      assert Pending(s, s.sent[k]) && s.client.outbox[s.sent[k].id] == k;
      assert k in s.client.outbox.Values;
      assert Settled(t.client.channels[k]);
      hide Next;
      assert [ClientEnds][..0] == [];
      assert Run(s, [ClientEnds], capacity) == Some(t);
      assert SettlesIn(s, [ClientEnds], capacity, k);
    } else {
      hide Next, Inv, Run;
      assert s.client.Valid();
      forall actions | Run(s, actions, capacity).Some? ensures !SettlesIn(s, actions, capacity, k) {
        NeverSettled(s, actions, capacity, k);
      }
    }
  }

  predicate SettlesIn(s: System, actions: seq<Action>, capacity: nat, k: nat)
    requires s.client.Valid()
  {
    var r := Run(s, actions, capacity);
    r.Some? && k < |r.value.client.channels| && Settled(r.value.client.channels[k])
  }

  /** So the channel of a request that is written after the loop has ended, which can happen when a
      body did not parse, is neither answered nor closed in any run. */
  lemma LateRequest(s: System, code: Method, body: Body, actions: seq<Action>, capacity: nat)
    requires s.client.Valid() && !s.clientReads && Request(s.client, code, body, true).1.Requested?
    ensures var t := AskStep(s, code, body, true);
            && Next(s, Ask(code, body, true), capacity) == Some(t) && t.client.Valid()
            && (Run(t, actions, capacity).Some? ==>
                  !SettlesIn(t, actions, capacity, Request(s.client, code, body, true).1.channel))
  {
    var t := AskStep(s, code, body, true);
    assert Next(s, Ask(code, body, true), capacity) == Some(t);
    var k := Request(s.client, code, body, true).1.channel;
    assert t.client.channels[k] == NEW_CHANNEL && !t.clientReads;
    hide Next, Run, AskStep, Request;
    if Run(t, actions, capacity).Some? {
      NeverSettled(t, actions, capacity, k);
    }
  }

  /** The shortest run to such a request. */
  lemma LateRequestReached(capacity: nat)
    ensures var r := Run(INITIAL, [ClientEnds, Ask(STATUS_REQUEST, Content(""), true)], capacity);
            && r.Some? && !r.value.clientReads
            && |r.value.client.channels| == 1 && !Settled(r.value.client.channels[0])
  {
    var s := INITIAL.(clientReads := false);
    assert Next(INITIAL, ClientEnds, capacity) == Some(s) by {
      assert ClientEnd(NEW_CLIENT).channels == [];
    }
    assert [ClientEnds][..0] == [] && [ClientEnds] + [Ask(STATUS_REQUEST, Content(""), true)]
        == [ClientEnds, Ask(STATUS_REQUEST, Content(""), true)];
    assert Run(INITIAL, [ClientEnds], capacity) == Some(s);
    RunLast(INITIAL, [ClientEnds], Ask(STATUS_REQUEST, Content(""), true), capacity);
    hide Run;
  }
}
