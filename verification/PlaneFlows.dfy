/** The timeout entries of the groups: when they stay in step with the mappings, and exactly when
    they do not. */
module PlaneFlows {
  import opened Wrappers
  import opened Net
  import opened Mappings
  import opened Kernel
  import opened Plane
  import opened PlaneProofs
  import opened PlaneRuns

  /** An entry exactly for the mappings with a nonzero timeout, carrying that timeout. */
  ghost predicate FlowMatches(flow: map<DnatKey, TTL>, bySrc: map<DnatKey, Mapping>) {
    && (forall k :: k in flow <==> k in bySrc && bySrc[k].timeout != 0)
    && (forall k :: k in flow ==> flow[k] == bySrc[k].timeout)
  }

  ghost predicate FlowsMatch(p: PlaneState) {
    forall n :: n in p.groups ==> FlowMatches(p.groups[n].flow, p.groups[n].bySrc)
  }

  /** The flush count when the timeout calls of a batch begin. */
  function AfterElements(p: PlaneState, g: GroupState, ms: seq<Mapping>): nat {
    if g.enabled && ms != [] then p.clock + 1 else p.clock
  }

  /** The timeout calls that a step makes, if it comes to make any, succeed; nothing is said of its
      other flushes. What a closing group's calls answer is of no consequence. */
  predicate TimeoutsSucceed(o: Oracle, p: PlaneState, op: Op) {
    match op
    case OpAdd(n, ms) =>
      AddMappings(o, p, n, ms).err.None? ==>
        TimeoutsSet(o, p.groups[n].flow, AfterElements(p, p.groups[n], ms), ms).ok
    case OpDel(n, ms) => DeletionsSucceed(o, p, n, ms)
    case OpClear(n, order) => DeletionsSucceed(o, p, n, order)
    case OpSetTimeout(n, key, ttl) => SetTimeout(o, p, n, key, ttl).err != Some(ErrFlush)
    case _ => true
  }

  predicate DeletionsSucceed(o: Oracle, p: PlaneState, name: string, ms: seq<Mapping>) {
    DelMappings(o, p, name, ms).err.None? ==>
      TimeoutsDeleted(o, p.groups[name].flow, AfterElements(p, p.groups[name], ms), ms).ok
  }

  lemma {:induction false} TimeoutsSetMatch(o: Oracle, flow: map<DnatKey, TTL>, bySrc: map<DnatKey, Mapping>,
                                             clock: nat, ms: seq<Mapping>)
    requires FlowMatches(flow, bySrc)
    ensures var r := TimeoutsSet(o, flow, clock, ms);
            r.ok ==> FlowMatches(r.flow, IndexBySrc(bySrc, ms))
  {
    if ms == [] {
    } else {
      TimeoutsSetMatch(o, flow, bySrc, clock, ms[..|ms| - 1]);
    }
  }

  lemma {:induction false} TimeoutsDeletedMatch(o: Oracle, flow: map<DnatKey, TTL>, bySrc: map<DnatKey, Mapping>,
                                                 clock: nat, ms: seq<Mapping>)
    requires FlowMatches(flow, bySrc)
    ensures var r := TimeoutsDeleted(o, flow, clock, ms);
            r.ok ==> FlowMatches(r.flow, bySrc - SrcKeys(ms))
  {
    if ms == [] {
      assert bySrc - SrcKeys(ms) == bySrc;
    } else {
      TimeoutsDeletedMatch(o, flow, bySrc, clock, ms[..|ms| - 1]);
      assert SrcKeys(ms) == SrcKeys(ms[..|ms| - 1]) + {SrcKey(ms[|ms| - 1])};
    }
  }

  lemma AddMatches(o: Oracle, p: PlaneState, name: string, ms: seq<Mapping>)
    requires FlowsMatch(p) && TimeoutsSucceed(o, p, OpAdd(name, ms))
    ensures FlowsMatch(AddMappings(o, p, name, ms).plane)
  {
    hide FlowMatches, FirstConflict, TimeoutsSet, Submit, IndexBySrc, IndexByDst;
    if IsOpen(p, name) {
      var g := p.groups[name];
      TimeoutsSetMatch(o, g.flow, g.bySrc, AfterElements(p, g, ms), ms);
    }
  }

  lemma DeleteMatches(o: Oracle, p: PlaneState, name: string, ms: seq<Mapping>)
    requires FlowsMatch(p) && DeletionsSucceed(o, p, name, ms)
    ensures FlowsMatch(DelMappings(o, p, name, ms).plane)
  {
    hide FlowMatches, FirstMissing, TimeoutsDeleted, Submit;
    if IsOpen(p, name) {
      var g := p.groups[name];
      TimeoutsDeletedMatch(o, g.flow, g.bySrc, AfterElements(p, g, ms), ms);
    }
  }

  /** Closing touches the entries of no other group. */
  lemma CloseMatches(o: Oracle, p: PlaneState, name: string, order: seq<Mapping>)
    requires FlowsMatch(p)
    ensures FlowsMatch(CloseGroup(o, p, name, order).plane)
  {
    hide FlowMatches, FirstMissing, TimeoutsDeleted, Submit;
  }

  lemma {:induction false} CloseGroupsMatch(o: Oracle, p: PlaneState, plan: seq<(string, seq<Mapping>)>)
    requires FlowsMatch(p)
    ensures FlowsMatch(CloseGroups(o, p, plan))
  {
    hide FlowsMatch, CloseGroup;
    if plan == [] {
    } else {
      CloseGroupsMatch(o, p, plan[..|plan| - 1]);
      var last := plan[|plan| - 1];
      CloseMatches(o, CloseGroups(o, p, plan[..|plan| - 1]), last.0, last.1);
    }
  }

  lemma SetTimeoutMatches(o: Oracle, p: PlaneState, name: string, key: DnatKey, ttl: TTL)
    requires FlowsMatch(p) && TimeoutsSucceed(o, p, OpSetTimeout(name, key, ttl))
    ensures FlowsMatch(SetTimeout(o, p, name, key, ttl).plane)
  {
    if IsOpen(p, name) && key in p.groups[name].bySrc && p.groups[name].bySrc[key].timeout != ttl {
      var g, q := p.groups[name], SetTimeout(o, p, name, key, ttl).plane;
      assert FlowMatches(g.flow, g.bySrc);
      assert FlowMatches(q.groups[name].flow, q.groups[name].bySrc);
    }
  }

  /** `SetTimeout` whose flush gets any error loses the agreement exactly when the source already
      has a timeout object and another nonzero timeout is asked for: the object's policy is
      changed before the flush, and the mapping after it. */
  lemma FailedSetTimeout(o: Oracle, p: PlaneState, name: string, key: DnatKey, ttl: TTL)
    requires FlowsMatch(p) && IsOpen(p, name) && key in p.groups[name].bySrc
    requires o(p.clock) != FlushOk
    ensures FlowsMatch(SetTimeout(o, p, name, key, ttl).plane) <==>
            var t := p.groups[name].bySrc[key].timeout;
            ttl == t || ttl == 0 || t == 0
  {
    var q := SetTimeout(o, p, name, key, ttl).plane;
    var g := q.groups[name];
    assert FlowsMatch(q) ==> FlowMatches(g.flow, g.bySrc);
  }

  /** A step whose timeout calls succeed keeps the timeout entries in step with the mappings,
      whatever its other flushes are answered. */
  lemma StepFlows(o: Oracle, p: PlaneState, op: Op)
    requires FlowsMatch(p) && TimeoutsSucceed(o, p, op)
    ensures FlowsMatch(Step(o, p, op))
  {
    hide FlowMatches, AddMappings, DelMappings, CloseGroup, CloseGroups, SetTimeout;
    hide Submit, TimeoutsSet, TimeoutsDeleted;
    match op
    case OpNew(n) => NewMatches(p, n);
    case OpAdd(n, ms) => AddMatches(o, p, n, ms);
    case OpDel(n, ms) => DeleteMatches(o, p, n, ms);
    case OpClear(n, order) => DeleteMatches(o, p, n, order);
    case OpEnable(n, order) =>
    case OpDisable(n, order) =>
    case OpSetTimeout(n, key, ttl) => SetTimeoutMatches(o, p, n, key, ttl);
    case OpClose(n, order) => CloseMatches(o, p, n, order);
    case OpClosePlane(plan) => CloseGroupsMatch(o, p.(closed := true), plan);
  }

  lemma NewMatches(p: PlaneState, name: string)
    requires FlowsMatch(p)
    ensures FlowsMatch(NewGroup(p, name).plane)
  {
  }

  ghost predicate TimeoutsSucceedAlong(o: Oracle, p: PlaneState, ops: seq<Op>) {
    ops == [] ||
    var init := ops[..|ops| - 1];
    TimeoutsSucceedAlong(o, p, init) && TimeoutsSucceed(o, Run(o, p, init), ops[|ops| - 1])
  }

  /** As long as the timeout calls succeed, the timeout entries are exactly the nonzero timeouts of
      the registered mappings, whatever the flushes of set elements and of the table are answered. */
  lemma {:induction false} RunFlows(o: Oracle, p: PlaneState, ops: seq<Op>)
    requires Initial(p) && TimeoutsSucceedAlong(o, p, ops)
    ensures FlowsMatch(Run(o, p, ops))
  {
    if ops == [] {
    } else {
      hide Step, FlowsMatch, TimeoutsSucceed;
      RunFlows(o, p, ops[..|ops| - 1]);
      StepFlows(o, Run(o, p, ops[..|ops| - 1]), ops[|ops| - 1]);
    }
  }

  // Exactly when a step loses the agreement

  /** What is known of a batch with new and distinct sources, whatever its flushes are answered. */
  predicate SetEntries(flow: map<DnatKey, TTL>, r: FlowResult, ms: seq<Mapping>) {
    && (forall k :: k in r.flow && k !in SrcKeys(ms) ==> k in flow)
    && (forall k :: k in flow ==> k in r.flow && r.flow[k] == flow[k])
    && (forall m :: m in ms && SrcKey(m) in r.flow ==> m.timeout != 0 && r.flow[SrcKey(m)] == m.timeout)
    && (r.ok <==> forall m :: m in ms && m.timeout != 0 ==> SrcKey(m) in r.flow)
  }

  lemma OneNewTimeout(o: Oracle, flow: map<DnatKey, TTL>, clock: nat, key: DnatKey, ttl: TTL)
    requires key !in flow
    ensures var r := TimeoutSet(o, flow, clock, key, ttl);
            && r.flow == (if ttl != 0 && r.ok then flow[key := ttl] else flow)
            && (ttl == 0 ==> r.ok)
  {
  }

  lemma {:induction false} TimeoutsSetEntries(o: Oracle, flow: map<DnatKey, TTL>, clock: nat, ms: seq<Mapping>)
    requires DistinctSources(ms) && forall m :: m in ms ==> SrcKey(m) !in flow
    ensures SetEntries(flow, TimeoutsSet(o, flow, clock, ms), ms)
  {
    if ms == [] {
    } else {
      var init, last := ms[..|ms| - 1], ms[|ms| - 1];
      DistinctSourcesInit(ms);
      TimeoutsSetEntries(o, flow, clock, init);
      var r := TimeoutsSet(o, flow, clock, init);
      hide DistinctSources, SetEntries, TimeoutSet;
      assert SrcKey(last) !in r.flow by { StillNew(flow, r, init, SrcKey(last)); }
      OneNewTimeout(o, r.flow, r.clock, SrcKey(last), last.timeout);
      assert ms == init + [last];
      OneMoreEntry(flow, r, init, last, TimeoutsSet(o, flow, clock, ms));
    }
  }

  lemma StillNew(flow: map<DnatKey, TTL>, r: FlowResult, ms: seq<Mapping>, key: DnatKey)
    requires SetEntries(flow, r, ms) && key !in SrcKeys(ms) && key !in flow
    ensures key !in r.flow
  {
  }

  lemma OneMoreEntry(flow: map<DnatKey, TTL>, r: FlowResult, init: seq<Mapping>, last: Mapping, r': FlowResult)
    requires SetEntries(flow, r, init) && SrcKey(last) !in SrcKeys(init) && SrcKey(last) !in flow
    requires SrcKey(last) !in r.flow
    requires r'.flow == r.flow || (last.timeout != 0 && r'.flow == r.flow[SrcKey(last) := last.timeout])
    requires r'.ok <==> r.ok && (last.timeout == 0 || r'.flow != r.flow)
    ensures SetEntries(flow, r', init + [last])
  {
    assert forall m :: m in init + [last] <==> m in init || m == last;
    assert SrcKeys(init + [last]) == SrcKeys(init) + {SrcKey(last)};
    assert forall m :: m in init ==> SrcKey(m) in SrcKeys(init);
    hide SrcKeys;
    assert SrcKey(last) in r'.flow <==> r'.flow != r.flow;
  }

  lemma {:induction false} IndexedEntries(bySrc: map<DnatKey, Mapping>, ms: seq<Mapping>)
    requires DistinctSources(ms)
    ensures var index := IndexBySrc(bySrc, ms);
            && (forall k :: k in index <==> k in bySrc || k in SrcKeys(ms))
            && (forall k :: k in bySrc && k !in SrcKeys(ms) ==> index[k] == bySrc[k])
            && (forall m :: m in ms ==> SrcKey(m) in index && index[SrcKey(m)] == m)
  {
    if ms == [] {
    } else {
      var init, last := ms[..|ms| - 1], ms[|ms| - 1];
      DistinctSourcesInit(ms);
      assert forall m :: m in ms <==> m in init || m == last;
      IndexedEntries(bySrc, init);
      assert SrcKeys(ms) == SrcKeys(init) + {SrcKey(last)};
      assert forall m :: m in init ==> SrcKey(m) in SrcKeys(init);
    }
  }

  lemma TimeoutsSetExactly(o: Oracle, flow: map<DnatKey, TTL>, bySrc: map<DnatKey, Mapping>, clock: nat,
                           ms: seq<Mapping>)
    requires FlowMatches(flow, bySrc) && DistinctSources(ms) && forall m :: m in ms ==> SrcKey(m) !in bySrc
    ensures var r := TimeoutsSet(o, flow, clock, ms);
            && (r.ok <==> FlowMatches(r.flow, IndexBySrc(bySrc, ms)))
            && (r.ok <==> forall m :: m in ms && m.timeout != 0 ==> SrcKey(m) in r.flow)
  {
    TimeoutsSetEntries(o, flow, clock, ms);
    IndexedEntries(bySrc, ms);
    hide TimeoutsSet, IndexBySrc;
    var r := TimeoutsSet(o, flow, clock, ms);
    forall k | k in SrcKeys(ms) ensures exists m :: m in ms && SrcKey(m) == k {
    }
    if r.ok {
      TimeoutsSetMatch(o, flow, bySrc, clock, ms);
    } else {
      var m :| m in ms && m.timeout != 0 && SrcKey(m) !in r.flow;
      assert IndexBySrc(bySrc, ms)[SrcKey(m)] == m;
    }
  }

  /** What can be added has new and distinct sources. */
  lemma NewSources(p: PlaneState, name: string, ms: seq<Mapping>)
    requires Inv(p) && name in p.groups && Addable(ms, All(p))
    ensures DistinctSources(ms) && forall m :: m in ms ==> SrcKey(m) !in p.groups[name].bySrc
  {
    var g := p.groups[name];
    forall m | m in ms ensures SrcKey(m) !in g.bySrc {
      if SrcKey(m) in g.bySrc {
        var x := g.bySrc[SrcKey(m)];
        assert Owns(p, name, x);
        assert x in All(p) && Overlaps(m, x);
      }
    }
    forall i, j | 0 <= i < j < |ms| ensures SrcKey(ms[i]) != SrcKey(ms[j]) {
      assert !Overlaps(ms[j], ms[i]);
    }
  }

  /** A batch that was added left the entries in step exactly when all its timeout calls succeeded, that
      is, when every mapping of it with a timeout has its entry. */
  lemma AddExactly(o: Oracle, p: PlaneState, name: string, ms: seq<Mapping>)
    requires Inv(p) && FlowsMatch(p) && AddMappings(o, p, name, ms).err.None?
    ensures var q := AddMappings(o, p, name, ms).plane;
            && name in q.groups
            && (FlowsMatch(q) <==> TimeoutsSucceed(o, p, OpAdd(name, ms)))
            && (FlowsMatch(q) <==> forall m :: m in ms && m.timeout != 0 ==> SrcKey(m) in q.groups[name].flow)
  {
    assert DistinctSources([]);
    hide Inv, All, FlowMatches, FirstConflict, TimeoutsSet, Submit, IndexBySrc, IndexByDst, Addable, DistinctSources;
    var g, q := p.groups[name], AddMappings(o, p, name, ms).plane;
    if ms == [] {
      TimeoutsSetExactly(o, g.flow, g.bySrc, p.clock, []);
    } else {
      ScanAcceptsAddable(p, ms);
      NewSources(p, name, ms);
      TimeoutsSetExactly(o, g.flow, g.bySrc, AfterElements(p, g, ms), ms);
      assert FlowsMatch(q) <==> FlowMatches(q.groups[name].flow, q.groups[name].bySrc);
    }
  }

  /** What is known of a batch of deletions, whatever its flushes are answered. */
  predicate DeletedOnly(flow: map<DnatKey, TTL>, r: FlowResult, ms: seq<Mapping>) {
    && (forall k :: k in r.flow ==> k in flow && r.flow[k] == flow[k])
    && (forall k :: k in flow && k !in SrcKeys(ms) ==> k in r.flow)
    && (r.ok ==> forall m :: m in ms ==> SrcKey(m) !in r.flow)
    && (DistinctSources(ms) && (forall m :: m in ms ==> SrcKey(m) !in r.flow) ==> r.ok)
  }

  lemma {:induction false} TimeoutsDeletedEntries(o: Oracle, flow: map<DnatKey, TTL>, clock: nat, ms: seq<Mapping>)
    ensures DeletedOnly(flow, TimeoutsDeleted(o, flow, clock, ms), ms)
  {
    if ms == [] {
    } else {
      var init, last := ms[..|ms| - 1], ms[|ms| - 1];
      DistinctSourcesInit(ms);
      TimeoutsDeletedEntries(o, flow, clock, init);
      var r, r' := TimeoutsDeleted(o, flow, clock, init), TimeoutsDeleted(o, flow, clock, ms);
      assert r'.flow == r.flow || r'.flow == r.flow - {SrcKey(last)};
      assert r'.ok <==> r.ok && SrcKey(last) !in r'.flow;
      assert ms == init + [last];
      hide DistinctSources, DeletedOnly, TimeoutsDeleted, TimeoutDeleted;
      OneDeletionMore(flow, r, init, last, r');
    }
  }

  lemma OneDeletionMore(flow: map<DnatKey, TTL>, r: FlowResult, init: seq<Mapping>, last: Mapping, r': FlowResult)
    requires DeletedOnly(flow, r, init)
    requires r'.flow == r.flow || r'.flow == r.flow - {SrcKey(last)}
    requires r'.ok <==> r.ok && SrcKey(last) !in r'.flow
    requires DistinctSources(init + [last]) ==> DistinctSources(init) && SrcKey(last) !in SrcKeys(init)
    ensures DeletedOnly(flow, r', init + [last])
  {
    assert forall m :: m in init + [last] <==> m in init || m == last;
    assert SrcKeys(init + [last]) == SrcKeys(init) + {SrcKey(last)};
    assert forall m :: m in init ==> SrcKey(m) in SrcKeys(init);
    hide SrcKeys, DistinctSources;
  }

  /** A batch that was deleted left the entries in step exactly when no source of it has its entry any more,
      which for distinct sources means that all its timeout calls succeeded. */
  lemma DeleteExactly(o: Oracle, p: PlaneState, name: string, ms: seq<Mapping>)
    requires FlowsMatch(p) && DelMappings(o, p, name, ms).err.None?
    ensures var q := DelMappings(o, p, name, ms).plane;
            && name in q.groups
            && (FlowsMatch(q) <==> forall m :: m in ms ==> SrcKey(m) !in q.groups[name].flow)
            && (DistinctSources(ms) ==> (FlowsMatch(q) <==> DeletionsSucceed(o, p, name, ms)))
  {
    hide FirstMissing, TimeoutsDeleted, Submit, DistinctSources, FlowMatches;
    var g, q := p.groups[name], DelMappings(o, p, name, ms).plane;
    TimeoutsDeletedEntries(o, g.flow, AfterElements(p, g, ms), ms);
    if ms == [] {
      assert q == p;
      assert TimeoutsDeleted(o, g.flow, p.clock, []).ok by { EmptyDeletion(o, g.flow, p.clock); }
    } else {
      DeletedEntries(g, q.groups[name].flow, ms);
      assert q.groups[name].bySrc == g.bySrc - SrcKeys(ms);
      assert FlowsMatch(q) <==> FlowMatches(q.groups[name].flow, q.groups[name].bySrc);
    }
  }

  lemma EmptyDeletion(o: Oracle, flow: map<DnatKey, TTL>, clock: nat)
    ensures TimeoutsDeleted(o, flow, clock, []).ok
  {
  }

  lemma DeletedEntries(g: GroupState, flow: map<DnatKey, TTL>, ms: seq<Mapping>)
    requires FlowMatches(g.flow, g.bySrc) && flow.Keys <= g.flow.Keys
    requires forall k :: k in flow ==> flow[k] == g.flow[k]
    requires forall k :: k in g.flow && k !in SrcKeys(ms) ==> k in flow
    ensures FlowMatches(flow, g.bySrc - SrcKeys(ms)) <==> forall m :: m in ms ==> SrcKey(m) !in flow
  {
    if m :| m in ms && SrcKey(m) in flow {
      assert SrcKey(m) in SrcKeys(ms) && SrcKey(m) !in g.bySrc - SrcKeys(ms);
    }
  }

  // Runs that show it

  /** A mapping with a timeout is added, and the flush of a change to another timeout gets an error:
      the entry then carries a timeout that the mapping does not. */
  lemma FailedSetTimeoutReached(o: Oracle, p: PlaneState, m: Mapping, ttl: TTL, ops: seq<Op>)
    requires Initial(p) && Validate(m) && m.timeout != 0 && ttl != 0 && ttl != m.timeout
    requires o(p.clock) == FlushOk && o(p.clock + 1) != FlushOk
    requires ops == [OpNew("g"), OpAdd("g", [m]), OpSetTimeout("g", SrcKey(m), ttl)]
    ensures IsRun(o, p, ops) && !FlowsMatch(Run(o, p, ops))
  {
    var p2 := Step(o, Step(o, p, OpNew("g")), OpAdd("g", [m]));
    OneMapping(o, p, m);
    hide Validate, Run, IsRun;
    assert FlowsMatch(p2);
    FailedSetTimeout(o, p2, "g", SrcKey(m), ttl);
    RunOfThree(o, p, OpNew("g"), OpAdd("g", [m]), OpSetTimeout("g", SrcKey(m), ttl));
  }
}
