/** Whole runs of dataplane operations, under every sequence of flush answers. */
module PlaneRuns {
  import opened Wrappers
  import opened Net
  import opened Mappings
  import opened Encoding
  import opened Rules
  import opened Routing
  import opened Kernel
  import opened Plane
  import opened PlaneProofs
  import opened PlaneOps

  /** Operations carry the order in which the source happens to walk a Go map. */
  datatype Op =
    | OpNew(name: string)
    | OpAdd(name: string, ms: seq<Mapping>)
    | OpDel(name: string, ms: seq<Mapping>)
    | OpClear(name: string, order: seq<Mapping>)
    | OpEnable(name: string, order: seq<Mapping>)
    | OpDisable(name: string, order: seq<Mapping>)
    | OpSetTimeout(name: string, key: DnatKey, ttl: TTL)
    | OpClose(name: string, order: seq<Mapping>)
    | OpClosePlane(plan: seq<(string, seq<Mapping>)>)

  function Step(o: Oracle, p: PlaneState, op: Op): (q: PlaneState)
    ensures p.clock <= q.clock
  {
    match op
    case OpNew(n) => NewGroup(p, n).plane
    case OpAdd(n, ms) => AddMappings(o, p, n, ms).plane
    case OpDel(n, ms) => DelMappings(o, p, n, ms).plane
    case OpClear(n, order) => DelMappings(o, p, n, order).plane
    case OpEnable(n, order) => Switch(o, p, n, order, true).plane
    case OpDisable(n, order) => Switch(o, p, n, order, false).plane
    case OpSetTimeout(n, key, ttl) => SetTimeout(o, p, n, key, ttl).plane
    case OpClose(n, order) => CloseGroup(o, p, n, order).plane
    case OpClosePlane(plan) => ClosePlane(o, p, plan)
  }

  /** A plan closes every open group once, each with its mappings in some order. */
  ghost predicate IsPlan(p: PlaneState, plan: seq<(string, seq<Mapping>)>) {
    && (forall i, j :: 0 <= i < j < |plan| ==> plan[i].0 != plan[j].0)
    && (forall i :: 0 <= i < |plan| ==> plan[i].0 in p.groups && Enumerates(plan[i].1, p.groups[plan[i].0]))
    && (forall n :: n in p.groups ==> exists i :: 0 <= i < |plan| && plan[i].0 == n)
  }

  /** The orders of an operation are orders of what is there. */
  ghost predicate Legit(p: PlaneState, op: Op) {
    match op
    case OpClear(n, order) => n in p.groups ==> Enumerates(order, p.groups[n])
    case OpEnable(n, order) => n in p.groups ==> Enumerates(order, p.groups[n])
    case OpDisable(n, order) => n in p.groups ==> Enumerates(order, p.groups[n])
    case OpClose(n, order) => n in p.groups ==> Enumerates(order, p.groups[n])
    case OpClosePlane(plan) => p.closed || IsPlan(p, plan)
    case _ => true
  }

  /** No group is unregistered by a close whose flush fails. */
  ghost predicate Clean(o: Oracle, p: PlaneState, op: Op) {
    match op
    case OpClose(n, _) => CleanClose(o, p, n)
    case OpClosePlane(plan) => p.closed || CleanCloses(o, p.(closed := true), plan)
    case _ => true
  }

  ghost predicate CleanCloses(o: Oracle, p: PlaneState, plan: seq<(string, seq<Mapping>)>) {
    plan == [] ||
    var init := plan[..|plan| - 1];
    && CleanCloses(o, p, init)
    && CleanClose(o, CloseGroups(o, p, init), plan[|plan| - 1].0)
  }

  /** The state after a run. */
  function Run(o: Oracle, p: PlaneState, ops: seq<Op>): (q: PlaneState)
    ensures p.clock <= q.clock
  {
    if ops == [] then p else Step(o, Run(o, p, ops[..|ops| - 1]), ops[|ops| - 1])
  }

  ghost predicate IsRun(o: Oracle, p: PlaneState, ops: seq<Op>) {
    ops == [] || (IsRun(o, p, ops[..|ops| - 1]) && Legit(Run(o, p, ops[..|ops| - 1]), ops[|ops| - 1]))
  }

  ghost predicate CleanRun(o: Oracle, p: PlaneState, ops: seq<Op>) {
    ops == [] || (CleanRun(o, p, ops[..|ops| - 1]) && Clean(o, Run(o, p, ops[..|ops| - 1]), ops[|ops| - 1]))
  }

  /** A new dataplane: no groups, empty maps, and the four rules. */
  predicate Initial(p: PlaneState) {
    p.groups == map[] && p.kernel == KernelState(map[], DNAT_RULES) && !p.closed
  }

  lemma {:induction false} CloseGroupsKeeps(o: Oracle, p: PlaneState, q: PlaneState, plan: seq<(string, seq<Mapping>)>)
    requires Inv(p) && q == CloseGroups(o, p, plan)
    requires forall i, j :: 0 <= i < j < |plan| ==> plan[i].0 != plan[j].0
    requires forall i :: 0 <= i < |plan| ==> plan[i].0 in p.groups && Enumerates(plan[i].1, p.groups[plan[i].0])
    ensures Inv(q) && q.closed == p.closed
    ensures forall n :: n in q.groups <==> n in p.groups && forall i :: 0 <= i < |plan| ==> plan[i].0 != n
    ensures forall n :: n in q.groups ==> q.groups[n] == p.groups[n]
    ensures KernelAgrees(p) && CleanCloses(o, p, plan) ==> KernelAgrees(q)
    decreases |plan|
  {
    hide Inv, KernelAgrees, CleanClose, Enumerates;
    if plan == [] {
    } else {
      var init, last := plan[..|plan| - 1], plan[|plan| - 1];
      assert forall i :: 0 <= i < |init| ==> init[i] == plan[i];
      var r := CloseGroups(o, p, init);
      CloseGroupsKeeps(o, p, r, init);
      assert last == plan[|plan| - 1];
      CloseGroupKeeps(o, r, last.0, last.1);
    }
  }

  lemma ClosePlaneKeeps(o: Oracle, p: PlaneState, plan: seq<(string, seq<Mapping>)>)
    requires Inv(p) && (p.closed || IsPlan(p, plan))
    ensures var q := ClosePlane(o, p, plan);
            && Inv(q) && q.closed && (!p.closed ==> q.groups == map[])
            && (KernelAgrees(p) && Clean(o, p, OpClosePlane(plan)) ==> KernelAgrees(q))
  {
    if !p.closed {
      hide Inv, KernelAgrees, Enumerates, CleanClose, CloseGroups;
      var start := p.(closed := true);
      SameGroups(p, start);
      AgreesOnSame(p, start);
      var r := CloseGroups(o, start, plan);
      CloseGroupsKeeps(o, start, r, plan);
      forall n ensures n !in r.groups {
      }
      assert r.groups == map[];
      var q := ClosePlane(o, p, plan);
      SameGroups(r, q);
      EmptyTable(r, q, o(r.clock));
    }
  }

  lemma AgreesOnSame(p: PlaneState, q: PlaneState)
    requires q.groups == p.groups && q.kernel == p.kernel
    ensures KernelAgrees(q) == KernelAgrees(p)
  {
    SameGroups(p, q);
  }

  /** Dropping the table of a plane without groups. */
  lemma EmptyTable(r: PlaneState, q: PlaneState, answer: FlushResult)
    requires r.groups == map[] && q.groups == map[] && q.kernel == Transact(answer, r.kernel, [DelTable]).1
    ensures KernelAgrees(r) ==> KernelAgrees(q)
  {
    SameGroups(r, q);
    forall m ensures m !in Live(q) {
    }
    assert ApplyAll(r.kernel, [DelTable]) == Some(KernelState(map[], [])) by {
      ApplyAllLast(r.kernel, [], DelTable);
      assert [] + [DelTable] == [DelTable];
    }
  }

  /** Every single step keeps the invariants, and the four rules while the dataplane is open. */
  lemma StepKeeps(o: Oracle, p: PlaneState, op: Op)
    requires Inv(p) && Legit(p, op)
    ensures var q := Step(o, p, op);
            && Inv(q)
            && (p.closed ==> q.closed)
            && (!q.closed ==> q.kernel.chain == p.kernel.chain)
            && (KernelAgrees(p) && Clean(o, p, op) ==> KernelAgrees(q))
  {
    hide Inv, Enumerates, CloseGroup, CleanClose, Submit, Delete, ClosePlane, IsPlan;
    match op
    case OpNew(n) =>
      NewGroupKeeps(p, n);
    case OpAdd(n, ms) =>
      hide KernelAgrees;
      AddMappingsKeeps(o, p, n, ms);
    case OpDel(n, ms) =>
      hide KernelAgrees;
      if n in p.groups { DeleteKeeps(o, p, n, ms); }
    case OpClear(n, order) =>
      hide KernelAgrees;
      if n in p.groups { DeleteKeeps(o, p, n, order); }
    case OpEnable(n, order) =>
      hide KernelAgrees;
      SwitchKeeps(o, p, n, order, true);
    case OpDisable(n, order) =>
      hide KernelAgrees;
      SwitchKeeps(o, p, n, order, false);
    case OpSetTimeout(n, key, ttl) =>
      hide KernelAgrees;
      SetTimeoutKeeps(o, p, n, key, ttl);
    case OpClose(n, order) =>
      hide KernelAgrees;
      CloseGroupKeeps(o, p, n, order);
    case OpClosePlane(plan) =>
      hide KernelAgrees;
      ClosePlaneKeeps(o, p, plan);
      ClosedStays(o, p, plan);
  }

  /** Closing every group reports an error exactly when some group loses its flush. */
  lemma {:induction false} CloseErrorsMeaning(o: Oracle, p: PlaneState, plan: seq<(string, seq<Mapping>)>)
    requires Inv(p) && KernelAgrees(p)
    requires forall i, j :: 0 <= i < j < |plan| ==> plan[i].0 != plan[j].0
    requires forall i :: 0 <= i < |plan| ==> plan[i].0 in p.groups && Enumerates(plan[i].1, p.groups[plan[i].0])
    ensures CloseErrors(o, p, plan) == [] <==> CleanCloses(o, p, plan)
    decreases |plan|
  {
    hide Inv, KernelAgrees, CleanClose, Enumerates, CloseGroup;
    if plan == [] {
    } else {
      var init, last := plan[..|plan| - 1], plan[|plan| - 1];
      assert forall i :: 0 <= i < |init| ==> init[i] == plan[i];
      CloseErrorsMeaning(o, p, init);
      var r := CloseGroups(o, p, init);
      CloseGroupsKeeps(o, p, r, init);
      assert last == plan[|plan| - 1];
      if CleanCloses(o, p, init) {
        CloseErrorMeaning(o, r, last.0, last.1);
      }
    }
  }

  lemma CloseErrorMeaning(o: Oracle, p: PlaneState, name: string, order: seq<Mapping>)
    requires Inv(p) && KernelAgrees(p) && (name in p.groups ==> Enumerates(order, p.groups[name]))
    ensures CloseGroup(o, p, name, order).err.None? <==> CleanClose(o, p, name)
  {
    hide Inv, KernelAgrees, Enumerates, Delete, Contents, Deletable, DistinctSources;
    if name in p.groups {
      GroupConsistent(p, name);
      EmptyEnumeration(p.groups[name], order);
      EnumerationBatch(p, name, order);
      DeleteKeeps(o, p, name, order);
    }
  }

  /** `Close` of a dataplane in agreement with the kernel reports an error exactly when some group
      loses its flush or the table cannot be dropped. */
  lemma ClosePlaneErrorsMeaning(o: Oracle, p: PlaneState, plan: seq<(string, seq<Mapping>)>)
    requires Inv(p) && KernelAgrees(p) && !p.closed && IsPlan(p, plan)
    ensures ClosePlaneErrors(o, p, plan) == [] <==>
            Clean(o, p, OpClosePlane(plan)) && o(CloseGroups(o, p.(closed := true), plan).clock) != FlushFailed
  {
    hide Inv, KernelAgrees, Enumerates, CloseGroups, CloseErrors, CleanCloses;
    var start := p.(closed := true);
    SameGroups(p, start);
    AgreesOnSame(p, start);
    CloseErrorsMeaning(o, start, plan);
    TableDropped(o(CloseGroups(o, start, plan).clock), CloseGroups(o, start, plan).kernel);
  }

  /** `Close` leaves no table in the kernel if its last flush is answered well, whatever the flushes of the
      groups were answered; otherwise the kernel is what closing the groups left. */
  lemma ClosePlaneKernel(o: Oracle, p: PlaneState, plan: seq<(string, seq<Mapping>)>)
    requires !p.closed && IsPlan(p, plan) && Inv(p)
    ensures var q, r := ClosePlane(o, p, plan), CloseGroups(o, p.(closed := true), plan);
            && q.closed && q.groups == map[] && q.clock == r.clock + 1
            && q.kernel == if o(r.clock) == FlushOk then KernelState(map[], []) else r.kernel
  {
    hide Inv, Enumerates, CloseGroups, IsPlan;
    ClosePlaneKeeps(o, p, plan);
    TableDropped(o(CloseGroups(o, p.(closed := true), plan).clock), CloseGroups(o, p.(closed := true), plan).kernel);
  }

  lemma TableDropped(answer: FlushResult, k: KernelState)
    ensures Transact(answer, k, [DelTable]).0 == answer
    ensures Transact(answer, k, [DelTable]).1 == if answer == FlushOk then KernelState(map[], []) else k
  {
    assert [] + [DelTable] == [DelTable];
    ApplyAllLast(k, [], DelTable);
  }

  lemma ClosedStays(o: Oracle, p: PlaneState, plan: seq<(string, seq<Mapping>)>)
    ensures p.closed ==> ClosePlane(o, p, plan) == p
  {
  }

  /** After any run, the registered mappings are valid and pairwise non-overlapping and
      the indexes agree; and if no closing group lost its flush, the kernel maps are the
      compilation of precisely the mappings of the enabled open groups. */
  lemma {:induction false} RunKeeps(o: Oracle, p: PlaneState, ops: seq<Op>)
    requires Initial(p) && IsRun(o, p, ops)
    ensures var q := Run(o, p, ops);
            && Inv(q)
            && (!q.closed ==> q.kernel.chain == DNAT_RULES)
            && (CleanRun(o, p, ops) ==> KernelAgrees(q))
  {
    if ops == [] {
      StartAgrees(p);
    } else {
      hide Inv, KernelAgrees, Legit, Clean, Step;
      RunKeeps(o, p, ops[..|ops| - 1]);
      StepKeeps(o, Run(o, p, ops[..|ops| - 1]), ops[|ops| - 1]);
    }
  }

  /** The gateway, end to end. In every state that a clean run reaches, and for every
      packet, the prerouting rules rewrite to the destination of the one mapping of an
      enabled group that covers the packet, and pass every other packet on. The queued
      chain is one order of the four rules; any other would do as well. */
  lemma GatewayRoutes(o: Oracle, p: PlaneState, ops: seq<Op>, pkt: Packet, c: Cpu, ids: seq<SetId>)
    requires Initial(p) && IsRun(o, p, ops) && CleanRun(o, p, ops)
    requires WellFormed(pkt) && forall id: SetId :: id in ids
    ensures var q := Run(o, p, ops);
            var end := ExecChain(q.kernel.tables, pkt, RulesInOrder(ids), c);
            && (forall m :: m in Live(q) && Covers(m, TargetOf(pkt)) ==> end == RewriteTo(m.destination))
            && ((forall m :: m in Live(q) ==> !Covers(m, TargetOf(pkt))) ==> end.Next?)
            && (!q.closed ==> q.kernel.chain == RulesInOrder(QUEUED_ORDER))
  {
    hide Validate, Covers, Indexed, ExecChain, TargetOf, WellFormed;
    var q := Run(o, p, ops);
    RunKeeps(o, p, ops);
    LiveConsistent(q);
    ChainRoutes(q.kernel.tables, Live(q), pkt, ids, c);
    QueuedOrder();
  }

  lemma LiveConsistent(p: PlaneState)
    requires Inv(p)
    ensures Consistent(Live(p)) && Live(p) <= All(p)
  {
    hide Validate, Overlaps, Indexed;
    forall m | m in Live(p) ensures m in All(p) {
      var n :| Owns(p, n, m) && p.groups[n].enabled;
    }
  }

  /** In every reachable state routing is, per protocol, a one-to-one function whose
      literal sources are disjoint from its literal destinations. */
  lemma ReachableOneToOne(o: Oracle, p: PlaneState, ops: seq<Op>, m: Mapping, x: Mapping)
    requires Initial(p) && IsRun(o, p, ops)
    requires var q := Run(o, p, ops); m in All(q) && x in All(q) && m.protocol == x.protocol
    ensures m != x ==> m.source != x.source && m.destination != x.destination
    ensures m.source != x.destination
  {
    RunKeeps(o, p, ops);
    RoutingOneToOne(All(Run(o, p, ops)), m, x);
  }

  /** In every reachable state at most one registered mapping has a timeout rule that matches a
      packet, and that mapping is the one which covers the packet as it reaches the chain. */
  lemma OneTimeoutRule(o: Oracle, p: PlaneState, ops: seq<Op>, pkt: Packet, m: Mapping, x: Mapping, obj: string,
                       obj': string, c: Cpu, c': Cpu)
    requires Initial(p) && IsRun(o, p, ops) && WellFormed(pkt)
    requires m in All(Run(o, p, ops)) && x in All(Run(o, p, ops))
    ensures var q := Run(o, p, ops);
            var hit := ExecRule(q.kernel.tables, pkt, DefineTimeoutRule(m.protocol, m.source, obj), c).Next?;
            && (hit <==> Covers(m, TargetOf(pkt)))
            && (hit && ExecRule(q.kernel.tables, pkt, DefineTimeoutRule(x.protocol, x.source, obj'), c').Next? ==>
                  m == x)
  {
    var q := Run(o, p, ops);
    RunKeeps(o, p, ops);
    assert Consistent(All(q));
    hide Run, ExecRule, DefineTimeoutRule, LookupKey, CompileSetElement, TargetOf, Inv;
    assert Validate(m) && Validate(x);
    TimeoutRuleMatches(q.kernel.tables, pkt, m, obj, c);
    TimeoutRuleMatches(q.kernel.tables, pkt, x, obj', c');
    KeyMeetsTarget(m, pkt);
    KeyMeetsTarget(x, pkt);
    if Covers(m, TargetOf(pkt)) && Covers(x, TargetOf(pkt)) {
      RoutingIsFunction(All(q), m, x, TargetOf(pkt));
    }
  }

  /** A run that leaves the kernel with an element of no group: one mapping is added and
      enabled, and then its group is closed while the netlink layer fails once. */
  lemma FailedCloseLeaks(p: PlaneState, m: Mapping, o: Oracle, ops: seq<Op>)
    requires Initial(p) && Validate(m) && m.timeout == 0
    requires o(p.clock) == FlushOk && o(p.clock + 1) == FlushFailed
    requires ops == [OpNew("g"), OpAdd("g", [m]), OpEnable("g", [m]), OpClose("g", [m])]
    ensures IsRun(o, p, ops) && Run(o, p, ops).groups == map[] && !KernelAgrees(Run(o, p, ops))
  {
    hide Validate, Overlaps, Inv, KernelAgrees, Enumerates, Run, IsRun, Submit, AddMappings, CloseGroup;
    var p1 := Step(o, p, OpNew("g"));
    var p2 := Step(o, p1, OpAdd("g", [m]));
    var p3 := Step(o, p2, OpEnable("g", [m]));
    OneMapping(o, p, m);
    RunOfFour(o, p, OpNew("g"), OpAdd("g", [m]), OpEnable("g", [m]), OpClose("g", [m]));
    StartAgrees(p);
    StepKeeps(o, p, OpNew("g"));
    StepKeeps(o, p1, OpAdd("g", [m]));
    StepKeeps(o, p2, OpEnable("g", [m]));
    SwitchKeeps(o, p2, "g", [m], true);
    assert p3.groups["g"].bySrc == map[SrcKey(m) := m] && SrcKey(m) in p3.groups["g"].bySrc;
    CloseGroupKeeps(o, p3, "g", [m]);
    assert p3.groups - {"g"} == map[];
  }

  lemma StartAgrees(p: PlaneState)
    requires Initial(p)
    ensures Inv(p) && KernelAgrees(p)
  {
    assert forall m :: m !in All(p);
    assert forall m :: m !in Live(p);
  }

  lemma RunOfFour(o: Oracle, p: PlaneState, a: Op, b: Op, c: Op, d: Op)
    ensures Run(o, p, [a, b, c, d]) == Step(o, Step(o, Step(o, Step(o, p, a), b), c), d)
    ensures IsRun(o, p, [a, b, c, d]) <==>
            && Legit(p, a) && Legit(Step(o, p, a), b) && Legit(Step(o, Step(o, p, a), b), c)
            && Legit(Step(o, Step(o, Step(o, p, a), b), c), d)
  {
    hide Step, Legit;
    assert [a, b, c, d][..3] == [a, b, c] && [a, b, c][..2] == [a, b] && [a, b][..1] == [a] && [a][..0] == [];
    assert Run(o, p, [a]) == Step(o, p, a);
    assert Run(o, p, [a, b]) == Step(o, Step(o, p, a), b);
    assert Run(o, p, [a, b, c]) == Step(o, Step(o, Step(o, p, a), b), c);
    assert IsRun(o, p, [a]) == Legit(p, a);
    assert IsRun(o, p, [a, b]) == (IsRun(o, p, [a]) && Legit(Run(o, p, [a]), b));
    assert IsRun(o, p, [a, b, c]) == (IsRun(o, p, [a, b]) && Legit(Run(o, p, [a, b]), c));
  }

  /** The timeout entries of a group with this one mapping. */
  function EntryOf(m: Mapping): map<DnatKey, TTL> {
    if m.timeout == 0 then map[] else map[SrcKey(m) := m.timeout]
  }

  lemma OneMapping(o: Oracle, p: PlaneState, m: Mapping)
    requires p.groups == map[] && !p.closed && Validate(m) && (m.timeout != 0 ==> o(p.clock) == FlushOk)
    ensures var p2 := Step(o, Step(o, p, OpNew("g")), OpAdd("g", [m]));
            var g := GroupState(map[SrcKey(m) := m], map[DstKey(m) := m], EntryOf(m), false);
            && p2 == p.(groups := map["g" := g], clock := if m.timeout == 0 then p.clock else p.clock + 1)
            && Enumerates([m], g) && Enumerates([m], g.(enabled := true))
  {
    hide Validate, Overlaps;
    var p1 := Step(o, p, OpNew("g"));
    assert [m][..0] == [] && [m][0] == m;
    assert FirstConflict(p1, [m][..0]).None?;
    assert FirstConflict(p1, [m]).None?;
    var g := GroupState(map[SrcKey(m) := m], map[DstKey(m) := m], EntryOf(m), false);
    assert IndexBySrc(map[], [m][..0]) == map[] && IndexByDst(map[], [m][..0]) == map[];
    assert TimeoutsSet(o, map[], p.clock, [m][..0]) == FlowResult(map[], p.clock, true);
    assert TimeoutsSet(o, map[], p.clock, [m]).flow == EntryOf(m);
    assert p1.groups["g" := g] == map["g" := g];
    assert Batch([m]) == Contents(g) && Batch([m]) == Contents(g.(enabled := true));
  }

  lemma RunMore(o: Oracle, p: PlaneState, ops: seq<Op>, op: Op)
    ensures Run(o, p, ops + [op]) == Step(o, Run(o, p, ops), op)
    ensures IsRun(o, p, ops + [op]) <==> IsRun(o, p, ops) && Legit(Run(o, p, ops), op)
    ensures CleanRun(o, p, ops + [op]) <==> CleanRun(o, p, ops) && Clean(o, Run(o, p, ops), op)
  {
    hide Step, Legit, Clean;
    assert (ops + [op])[..|ops|] == ops;
  }

  lemma RunOfThree(o: Oracle, p: PlaneState, a: Op, b: Op, c: Op)
    ensures Run(o, p, [a, b]) == Step(o, Step(o, p, a), b)
    ensures Run(o, p, [a, b, c]) == Step(o, Step(o, Step(o, p, a), b), c)
    ensures IsRun(o, p, [a, b]) <==> Legit(p, a) && Legit(Step(o, p, a), b)
    ensures IsRun(o, p, [a, b, c]) <==> IsRun(o, p, [a, b]) && Legit(Step(o, Step(o, p, a), b), c)
    ensures CleanRun(o, p, [a, b, c]) <==>
            Clean(o, p, a) && Clean(o, Step(o, p, a), b) && Clean(o, Step(o, Step(o, p, a), b), c)
  {
    EmptyRun(o, p);
    hide Step, Legit, Clean, Run, IsRun, CleanRun;
    assert [] + [a] == [a] && [a] + [b] == [a, b] && [a, b] + [c] == [a, b, c];
    RunMore(o, p, [], a);
    RunMore(o, p, [a], b);
    RunMore(o, p, [a, b], c);
  }

  lemma EmptyRun(o: Oracle, p: PlaneState)
    ensures Run(o, p, []) == p && IsRun(o, p, []) && CleanRun(o, p, [])
  {
  }

  /** Naming one mapping twice in a deletion: it succeeds while the group is disabled and gets an
      error once it is enabled, whatever its flush is answered. */
  lemma DuplicateDeletion(o: Oracle, p: PlaneState, m: Mapping)
    requires Initial(p) && Validate(m) && m.timeout == 0 && o(p.clock) == FlushOk
    ensures var off, on := [OpNew("g"), OpAdd("g", [m])], [OpNew("g"), OpAdd("g", [m]), OpEnable("g", [m])];
            && IsRun(o, p, off) && IsRun(o, p, on)
            && DelMappings(o, Run(o, p, off), "g", [m, m]).err.None?
            && DelMappings(o, Run(o, p, on), "g", [m, m]).err.Some?
  {
    hide Validate, Overlaps, Inv, KernelAgrees, Enumerates, Run, IsRun, Submit, AddMappings, Delete, FirstMissing;
    var p1 := Step(o, p, OpNew("g"));
    var p2 := Step(o, p1, OpAdd("g", [m]));
    var p3 := Step(o, p2, OpEnable("g", [m]));
    OneMapping(o, p, m);
    RunOfThree(o, p, OpNew("g"), OpAdd("g", [m]), OpEnable("g", [m]));
    StartAgrees(p);
    StepKeeps(o, p, OpNew("g"));
    StepKeeps(o, p1, OpAdd("g", [m]));
    StepKeeps(o, p2, OpEnable("g", [m]));
    SwitchKeeps(o, p2, "g", [m], true);
    TwiceDeletable(m, p2.groups["g"]);
    TwiceDeletable(m, p3.groups["g"]);
    DeleteKeeps(o, p2, "g", [m, m]);
    DeleteKeeps(o, p3, "g", [m, m]);
  }

  lemma TwiceDeletable(m: Mapping, g: GroupState)
    requires Validate(m) && g.bySrc == map[SrcKey(m) := m]
    ensures Deletable([m, m], Contents(g)) && !DistinctSources([m, m])
  {
    hide Validate;
    assert m in Contents(g);
    assert SrcKey([m, m][0]) == SrcKey([m, m][1]);
  }
}
