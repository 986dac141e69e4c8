/** The dataplane as a value: what each operation does to the groups and to the
    kernel, and what holds after any run of operations with any flush answers. */
module Plane {
  import opened Wrappers
  import opened Net
  import opened Mappings
  import opened Encoding
  import opened Routing
  import opened Kernel

  datatype DnatKey = DnatKey(addr: AddrPort, proto: Byte)

  function SrcKey(m: Mapping): DnatKey { DnatKey(m.source, m.protocol) }

  function DstKey(m: Mapping): DnatKey { DnatKey(m.destination, m.protocol) }

  /** An open group: the two indexes, the timeout recorded for each source that has
      a timeout object, and whether its mappings are installed. */
  datatype GroupState = GroupState(
    bySrc: map<DnatKey, Mapping>,
    byDst: map<DnatKey, Mapping>,
    flow: map<DnatKey, TTL>,
    enabled: bool)

  /** The open groups by name, the kernel, and the number of flushes so far. */
  datatype PlaneState = PlaneState(
    groups: map<string, GroupState>,
    kernel: KernelState,
    clock: nat,
    closed: bool)

  /** The errors of the source; `ErrDump` is any error of the flow dump. */
  datatype Error =
    | ErrClosed
    | ErrGroupAlreadyRegistered
    | ErrNoSuchMapping
    | ErrInvalid
    | ErrOverlap
    | ErrFlush
    | ErrDump

  datatype Result = Result(plane: PlaneState, err: Option<Error>)

  const EMPTY_GROUP := GroupState(map[], map[], map[], false)

  // Timeout objects

  /** Timeout bookkeeping after a flush or none: the entries, the clock, and success. */
  datatype FlowResult = FlowResult(flow: map<DnatKey, TTL>, clock: nat, ok: bool)

  function TimeoutDeleted(o: Oracle, flow: map<DnatKey, TTL>, clock: nat, key: DnatKey): (r: FlowResult)
    ensures clock <= r.clock <= clock + 1
  {
    if key !in flow then FlowResult(flow, clock, true)
    else if o(clock) == FlushFailed then FlowResult(flow, clock + 1, false)
    else FlowResult(flow - {key}, clock + 1, true)
  }

  /** An existing entry takes the new value before the flush and keeps it if the flush fails. */
  function TimeoutSet(o: Oracle, flow: map<DnatKey, TTL>, clock: nat, key: DnatKey, ttl: TTL): (r: FlowResult)
    ensures clock <= r.clock <= clock + 1
  {
    if ttl == 0 then TimeoutDeleted(o, flow, clock, key)
    else if key in flow then FlowResult(flow[key := ttl], clock + 1, o(clock) == FlushOk)
    else if o(clock) == FlushOk then FlowResult(flow[key := ttl], clock + 1, true)
    else FlowResult(flow, clock + 1, false)
  }

  /** The timeouts of a batch, set in order; a failure does not stop the rest. */
  function TimeoutsSet(o: Oracle, flow: map<DnatKey, TTL>, clock: nat, ms: seq<Mapping>): (r: FlowResult)
    ensures clock <= r.clock
  {
    if ms == [] then FlowResult(flow, clock, true)
    else
      var m := ms[|ms| - 1];
      var r := TimeoutsSet(o, flow, clock, ms[..|ms| - 1]);
      var r' := TimeoutSet(o, r.flow, r.clock, SrcKey(m), m.timeout);
      r'.(ok := r.ok && r'.ok)
  }

  function TimeoutsDeleted(o: Oracle, flow: map<DnatKey, TTL>, clock: nat, ms: seq<Mapping>): (r: FlowResult)
    ensures clock <= r.clock
  {
    if ms == [] then FlowResult(flow, clock, true)
    else
      var r := TimeoutsDeleted(o, flow, clock, ms[..|ms| - 1]);
      var r' := TimeoutDeleted(o, r.flow, r.clock, SrcKey(ms[|ms| - 1]));
      r'.(ok := r.ok && r'.ok)
  }

  // DNAT elements

  function AddMsgs(ms: seq<Mapping>): seq<Msg> {
    if ms == [] then []
    else
      var m := ms[|ms| - 1];
      AddMsgs(ms[..|ms| - 1]) +
      if m.source.addr.IsValid() then [AddElement(SlotOf(m), CompileSetElement(m).val)] else []
  }

  function DelMsgs(ms: seq<Mapping>): seq<Msg> {
    if ms == [] then []
    else
      var m := ms[|ms| - 1];
      DelMsgs(ms[..|ms| - 1]) + if m.source.addr.IsValid() then [DelElement(SlotOf(m))] else []
  }

  /** One batch, flushed unless there is nothing to send. */
  function Submit(o: Oracle, p: PlaneState, ms: seq<Mapping>, msgs: seq<Msg>): (r: Result)
    ensures r.plane.groups == p.groups && r.plane.closed == p.closed
    ensures r.plane.clock == if ms == [] then p.clock else p.clock + 1
    ensures r.err.Some? ==> r.plane == p.(clock := p.clock + 1) && r.err.value == ErrFlush
  {
    if ms == [] then Result(p, None)
    else
      var r := Transact(o(p.clock), p.kernel, msgs);
      Result(p.(kernel := r.1, clock := p.clock + 1), if r.0 == FlushOk then None else Some(ErrFlush))
  }

  // Operations

  /** Some registered mapping conflicts with `m`. */
  predicate Taken(p: PlaneState, m: Mapping) {
    exists n, k :: n in p.groups && k in p.groups[n].bySrc && Overlaps(m, p.groups[n].bySrc[k])
  }

  /** The first complaint about a batch, in batch order. */
  function FirstConflict(p: PlaneState, ms: seq<Mapping>): Option<Error> {
    if ms == [] then None
    else
      var init, m := ms[..|ms| - 1], ms[|ms| - 1];
      var r := FirstConflict(p, init);
      if r.Some? then r
      else if !Validate(m) then Some(ErrInvalid)
      else if (exists x :: x in init && Overlaps(m, x)) || Taken(p, m) then Some(ErrOverlap)
      else None
  }

  /** The mappings of `ms` under a key of each; later ones win. */
  function IndexBySrc(index: map<DnatKey, Mapping>, ms: seq<Mapping>): map<DnatKey, Mapping> {
    if ms == [] then index
    else IndexBySrc(index, ms[..|ms| - 1])[SrcKey(ms[|ms| - 1]) := ms[|ms| - 1]]
  }

  function IndexByDst(index: map<DnatKey, Mapping>, ms: seq<Mapping>): map<DnatKey, Mapping> {
    if ms == [] then index
    else IndexByDst(index, ms[..|ms| - 1])[DstKey(ms[|ms| - 1]) := ms[|ms| - 1]]
  }

  function SrcKeys(ms: seq<Mapping>): set<DnatKey> { set m | m in ms :: SrcKey(m) }

  function DstKeys(ms: seq<Mapping>): set<DnatKey> { set m | m in ms :: DstKey(m) }

  /** A group name with no open group under it stands for a closed group. */
  predicate IsOpen(p: PlaneState, name: string) {
    name in p.groups && !p.closed
  }

  function NewGroup(p: PlaneState, name: string): Result {
    if p.closed then Result(p, Some(ErrClosed))
    else if name in p.groups then Result(p, Some(ErrGroupAlreadyRegistered))
    else Result(p.(groups := p.groups[name := EMPTY_GROUP]), None)
  }

  function AddMappings(o: Oracle, p: PlaneState, name: string, ms: seq<Mapping>): (r: Result)
    ensures p.clock <= r.plane.clock
  {
    if !IsOpen(p, name) then Result(p, Some(ErrClosed))
    else if ms == [] then Result(p, None)
    else if FirstConflict(p, ms).Some? then Result(p, FirstConflict(p, ms))
    else
      var g := p.groups[name];
      var r := if g.enabled then Submit(o, p, ms, AddMsgs(ms)) else Result(p, None);
      if r.err.Some? then r
      else
        var f := TimeoutsSet(o, g.flow, r.plane.clock, ms);
        var g' := g.(bySrc := IndexBySrc(g.bySrc, ms), byDst := IndexByDst(g.byDst, ms), flow := f.flow);
        Result(r.plane.(groups := p.groups[name := g'], clock := f.clock), None)
  }

  /** The group holds exactly this source with exactly this destination. */
  predicate Holds(g: GroupState, m: Mapping) {
    SrcKey(m) in g.bySrc && g.bySrc[SrcKey(m)].destination == m.destination
  }

  /** The first complaint about a batch to delete. */
  function FirstMissing(g: GroupState, ms: seq<Mapping>): Option<Error> {
    if ms == [] then None
    else
      var r := FirstMissing(g, ms[..|ms| - 1]);
      if r.Some? then r
      else if !Validate(ms[|ms| - 1]) then Some(ErrInvalid)
      else if !Holds(g, ms[|ms| - 1]) then Some(ErrNoSuchMapping)
      else None
  }

  /** Deletion from an open group, whether or not the dataplane is closing. */
  function Delete(o: Oracle, p: PlaneState, name: string, ms: seq<Mapping>): (r: Result)
    requires name in p.groups
    ensures p.clock <= r.plane.clock
  {
    var g := p.groups[name];
    if ms == [] then Result(p, None)
    else if FirstMissing(g, ms).Some? then Result(p, FirstMissing(g, ms))
    else
      var r := if g.enabled then Submit(o, p, ms, DelMsgs(ms)) else Result(p, None);
      if r.err.Some? then r
      else
        var f := TimeoutsDeleted(o, g.flow, r.plane.clock, ms);
        var g' := g.(bySrc := g.bySrc - SrcKeys(ms), byDst := g.byDst - DstKeys(ms), flow := f.flow);
        Result(r.plane.(groups := p.groups[name := g'], clock := f.clock), None)
  }

  function DelMappings(o: Oracle, p: PlaneState, name: string, ms: seq<Mapping>): (r: Result)
    ensures p.clock <= r.plane.clock
  {
    if !IsOpen(p, name) then Result(p, Some(ErrClosed)) else Delete(o, p, name, ms)
  }

  /** The first state has `enabled` set to `on` with the elements of `order` sent in that order. */
  function Switch(o: Oracle, p: PlaneState, name: string, order: seq<Mapping>, on: bool): (r: Result)
    ensures p.clock <= r.plane.clock
  {
    if !IsOpen(p, name) then Result(p, Some(ErrClosed))
    else if p.groups[name].enabled == on then Result(p, None)
    else
      var r := Submit(o, p, order, if on then AddMsgs(order) else DelMsgs(order));
      if r.err.Some? then r
      else Result(r.plane.(groups := p.groups[name := p.groups[name].(enabled := on)]), None)
  }

  function SetTimeout(o: Oracle, p: PlaneState, name: string, key: DnatKey, ttl: TTL): (r: Result)
    ensures p.clock <= r.plane.clock
  {
    if !IsOpen(p, name) then Result(p, Some(ErrClosed))
    else
      var g := p.groups[name];
      if key !in g.bySrc then Result(p, Some(ErrNoSuchMapping))
      else if g.bySrc[key].timeout == ttl then Result(p, None)
      else
        var f := TimeoutSet(o, g.flow, p.clock, key, ttl);
        var m := g.bySrc[key].(timeout := ttl);
        var g' := if f.ok then GroupState(g.bySrc[key := m], g.byDst[DstKey(m) := m], f.flow, g.enabled)
                  else g.(flow := f.flow);
        Result(p.(groups := p.groups[name := g'], clock := f.clock), if f.ok then None else Some(ErrFlush))
  }

  /** Closing unregisters the group even when its mappings could not be deleted. */
  function CloseGroup(o: Oracle, p: PlaneState, name: string, order: seq<Mapping>): (r: Result)
    ensures p.clock <= r.plane.clock
  {
    if name !in p.groups then Result(p, None)
    else
      var r := Delete(o, p, name, order);
      Result(r.plane.(groups := r.plane.groups - {name}), r.err)
  }

  /** Every group is closed in turn, each with its mappings in some order. */
  function CloseGroups(o: Oracle, p: PlaneState, plan: seq<(string, seq<Mapping>)>): (r: PlaneState)
    ensures p.clock <= r.clock
  {
    if plan == [] then p
    else
      var last := plan[|plan| - 1];
      CloseGroup(o, CloseGroups(o, p, plan[..|plan| - 1]), last.0, last.1).plane
  }

  /** The errors that the groups report while they are closed. */
  function CloseErrors(o: Oracle, p: PlaneState, plan: seq<(string, seq<Mapping>)>): seq<Error> {
    if plan == [] then []
    else
      var init, last := plan[..|plan| - 1], plan[|plan| - 1];
      var err := CloseGroup(o, CloseGroups(o, p, init), last.0, last.1).err;
      CloseErrors(o, p, init) + if err.Some? then [err.value] else []
  }

  function ClosePlane(o: Oracle, p: PlaneState, plan: seq<(string, seq<Mapping>)>): (r: PlaneState)
    ensures p.clock <= r.clock
  {
    if p.closed then p
    else
      var q := CloseGroups(o, p.(closed := true), plan);
      q.(kernel := Transact(o(q.clock), q.kernel, [DelTable]).1, clock := q.clock + 1)
  }

  /** The errors that closing the dataplane joins; that the table is gone already is none. */
  function ClosePlaneErrors(o: Oracle, p: PlaneState, plan: seq<(string, seq<Mapping>)>): seq<Error> {
    if p.closed then []
    else
      var start := p.(closed := true);
      var q := CloseGroups(o, start, plan);
      CloseErrors(o, start, plan) +
      if Transact(o(q.clock), q.kernel, [DelTable]).0 == FlushFailed then [ErrFlush] else []
  }
}
