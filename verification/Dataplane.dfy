/** The dataplane and its groups as objects. Each method is proved against the
    operation of the same name in `Plane`; the lock makes every public method one
    critical section, so methods are atomic here. */
module Dataplane {
  import opened Wrappers
  import opened Net
  import opened Mappings
  import opened Encoding
  import opened Rules
  import opened Kernel
  import opened Plane
  import opened PlaneProofs
  import opened PlaneOps
  import opened PlaneRuns

  lemma ConflictIsFinal(p: PlaneState, ms: seq<Mapping>, i: nat)
    requires i <= |ms| && FirstConflict(p, ms[..i]).Some?
    ensures FirstConflict(p, ms) == FirstConflict(p, ms[..i])
    decreases |ms| - i
  {
    if i < |ms| {
      assert ms[..i + 1][..i] == ms[..i];
      ConflictIsFinal(p, ms, i + 1);
    } else {
      assert ms[..i] == ms;
    }
  }

  lemma MissingIsFinal(g: GroupState, ms: seq<Mapping>, i: nat)
    requires i <= |ms| && FirstMissing(g, ms[..i]).Some?
    ensures FirstMissing(g, ms) == FirstMissing(g, ms[..i])
    decreases |ms| - i
  {
    if i < |ms| {
      assert ms[..i + 1][..i] == ms[..i];
      MissingIsFinal(g, ms, i + 1);
    } else {
      assert ms[..i] == ms;
    }
  }

  lemma RulesBatch(msgs: seq<Msg>)
    requires msgs == [] + [AddRule(WILDCARD4_RULE), AddRule(WILDCARD6_RULE),
                           AddRule(SPECIFIC4_RULE), AddRule(SPECIFIC6_RULE)]
    ensures ApplyAll(KernelState(map[], []), msgs) == Some(KernelState(map[], DNAT_RULES))
  {
    var k := KernelState(map[], []);
    var r4, r6 := AddRule(WILDCARD4_RULE), AddRule(WILDCARD6_RULE);
    var s4, s6 := AddRule(SPECIFIC4_RULE), AddRule(SPECIFIC6_RULE);
    hide WILDCARD4_RULE, WILDCARD6_RULE, SPECIFIC4_RULE, SPECIFIC6_RULE;
    ApplyAllLast(k, [], r4);
    ApplyAllLast(k, [] + [r4], r6);
    ApplyAllLast(k, [] + [r4] + [r6], s4);
    ApplyAllLast(k, [] + [r4] + [r6] + [s4], s6);
    assert msgs == [] + [r4] + [r6] + [s4] + [s6];
    assert DNAT_RULES == [] + [WILDCARD4_RULE] + [WILDCARD6_RULE] + [SPECIFIC4_RULE] + [SPECIFIC6_RULE];
  }

  class Connft {
    const nft: NftConn
    var groups: map<string, ConnftGroup>
    var closed: bool
    /** Every group this dataplane ever made, open or closed. */
    ghost var all: set<ConnftGroup>

    /** A group is open exactly when it is the one registered under its name. */
    ghost predicate Valid()
      reads this, nft, all
    {
      && nft.pending == []
      && (forall g :: g in all ==> g.dplane == this)
      && (forall n :: n in groups ==> groups[n] in all && groups[n].name == n && !groups[n].closed)
      && (forall g :: g in all && !g.closed ==> g.name in groups && groups[g.name] == g)
    }

    ghost function View(): PlaneState
      requires Valid()
      reads this, nft, all
    {
      PlaneState(map n | n in groups :: groups[n].Value(), nft.kernel, nft.clock, closed)
    }

    ghost predicate Sound()
      reads this, nft, all
    {
      Valid() && Inv(View())
    }

    lemma Outline()
      requires Valid()
      ensures nft.pending == [] && View().kernel == nft.kernel && View().clock == nft.clock && View().closed == closed
      ensures View().groups.Keys == groups.Keys
    {
    }

    constructor (oracle: Oracle)
      ensures Sound() && fresh(nft) && fresh(all)
      ensures groups == map[] && !closed && nft.kernel == KernelState(map[], []) && nft.oracle == oracle
    {
      nft := new NftConn(oracle, KernelState(map[], []));
      groups, closed, all := map[], false, {};
      new;
      assert forall m :: m !in All(View());
    }

    /** Queues the four rules of the prerouting chain. */
    method AddDNATRules()
      modifies nft`pending
      ensures nft.pending == old(nft.pending) + [AddRule(WILDCARD4_RULE), AddRule(WILDCARD6_RULE),
                                                 AddRule(SPECIFIC4_RULE), AddRule(SPECIFIC6_RULE)]
    {
      nft.Queue(AddRule(WILDCARD4_RULE));
      nft.Queue(AddRule(WILDCARD6_RULE));
      nft.Queue(AddRule(SPECIFIC4_RULE));
      nft.Queue(AddRule(SPECIFIC6_RULE));
    }

    /** The last step of bringing the table up: the rules, in one batch. */
    method InstallRules() returns (ok: bool)
      requires Sound() && groups == map[] && !closed && nft.kernel == KernelState(map[], [])
      modifies nft
      ensures Sound() && (ok ==> Initial(View()))
      ensures ok <==> nft.oracle(old(nft.clock)) == FlushOk
    {
      label start:
      AddDNATRules();
      RulesBatch(nft.pending);
      var result := nft.Flush();
      ok := result == FlushOk;
      SameGroups(old@start(View()), View());
    }

    method NewGroup(name: string) returns (g: ConnftGroup?, err: Option<Error>)
      requires Sound()
      modifies this
      ensures Sound()
      ensures (View(), err) == var r := Plane.NewGroup(old(View()), name); (r.plane, r.err)
      ensures err.None? ==> g != null && fresh(g) && g.name == name && g.dplane == this && !g.closed
      ensures err.None? ==> all == old(all) + {g} && groups == old(groups)[name := g]
      ensures err.Some? ==> g == null && unchanged(this)
    {
      hide Inv, All, Live, Contents, Batch, Without, Retimed, KernelAgrees;
      hide Addable, Deletable, DistinctSources, CleanClose;
      hide FirstConflict, FirstMissing, TimeoutsSet, TimeoutsDeleted, IndexBySrc, IndexByDst, AddMsgs, DelMsgs, Submit;
      NewGroupKeeps(View(), name);
      if closed { return null, Some(ErrClosed); }
      if name in groups { return null, Some(ErrGroupAlreadyRegistered); }
      ghost var was := View();
      var ng := new ConnftGroup(this, name);
      label made:
      groups := groups[name := ng];
      all := all + {ng};
      GroupJoins@made(ng);
      return ng, None;
    }

    twostate lemma GroupJoins(g: ConnftGroup)
      requires old(Valid()) && g.name !in old(groups) && g.dplane == this && !g.closed && unchanged(g)
      requires groups == old(groups)[g.name := g] && all == old(all) + {g} && closed == old(closed)
      requires unchanged(nft) && forall h :: h in old(all) ==> unchanged(h)
      ensures Valid()
      ensures View() == old(View()).(groups := old(View()).groups[g.name := g.Value()])
    {
      hide Inv;
      assert Valid();
      assert View().groups == old(View()).groups[g.name := g.Value()];
    }

    twostate lemma OnlyFlagChanged()
      requires old(Valid()) && unchanged(nft) && unchanged(`groups) && unchanged(`all) && closed
      requires forall g :: g in all ==> unchanged(g)
      ensures Valid() && View() == old(View()).(closed := true)
    {
      hide Inv;
      assert Valid();
      assert View().groups == old(View()).groups;
    }

    twostate lemma OnlyKernelChanged()
      requires old(Valid()) && unchanged(this) && nft.pending == []
      requires forall g :: g in all ==> unchanged(g)
      ensures Valid() && View() == old(View()).(kernel := nft.kernel, clock := nft.clock)
    {
      hide Inv;
      assert Valid();
      assert View().groups == old(View()).groups;
    }

    /** What is known of a registered group. */
    lemma Member(n: string)
      requires Sound() && n in groups
      ensures groups[n] in all && groups[n].dplane == this && groups[n].name == n && !groups[n].closed
      ensures View().groups[n] == groups[n].Value()
    {
    }

    /** The groups close one by one, each being the one registered under its name. */
    method CloseOne(n: string) returns (err: Option<Error>, ghost order: seq<Mapping>)
      requires Sound() && n in groups
      modifies this, nft, all
      ensures Sound() && all == old(all) && closed == old(closed) && groups == old(groups) - {n}
      ensures Enumerates(order, old(View()).groups[n])
      ensures Result(View(), err) == Plane.CloseGroup(nft.oracle, old(View()), n, order)
    {
      hide Inv, Connft.Valid, Connft.View, Enumerates, CloseGroup;
      Member(n);
      err, order := groups[n].Close();
    }

    /** Closes every group, in whatever order the registry is walked. */
    method CloseEach() returns (errs: seq<Error>, ghost plan: seq<(string, seq<Mapping>)>)
      requires Sound()
      modifies this, nft, all
      ensures Sound() && closed == old(closed) && all == old(all) && groups == map[]
      ensures IsPlan(old(View()), plan)
      ensures View() == CloseGroups(nft.oracle, old(View()), plan)
      ensures errs == CloseErrors(nft.oracle, old(View()), plan)
    {
      hide Inv, IsPlan, CloseGroups, CloseErrors, CloseGroup, Connft.Valid, Connft.View, PartialPlan, Enumerates;
      ghost var start := View();
      errs, plan := [], [];
      var todo := groups;
      StartPlan(nft.oracle, start);
      while todo != map[]
        invariant Sound() && closed == old(closed) && all == old(all) && groups == todo
        invariant View() == CloseGroups(nft.oracle, start, plan) && errs == CloseErrors(nft.oracle, start, plan)
        invariant PartialPlan(start, plan, View().groups)
        decreases |todo|
      {
        var n :| n in todo;
        Outline();
        ghost var before := View();
        var err, order := CloseOne(n);
        PlanStep(nft.oracle, start, plan, before, n, order);
        PlanErrors(nft.oracle, start, plan, n, order);
        plan := plan + [(n, order)];
        errs := errs + if err.Some? then [err.value] else [];
        todo := todo - {n};
      }
      Outline();
      PlanDone(start, plan, View());
    }

    /** Marks the dataplane closed, closes every group and drops the table; `errs` are the errors joined. */
    method Close() returns (errs: seq<Error>, ghost plan: seq<(string, seq<Mapping>)>)
      requires Sound()
      modifies this, nft, all
      ensures Sound() && closed && all == old(all) && (!old(closed) ==> nft.clock > 0)
      ensures old(closed) || IsPlan(old(View()), plan)
      ensures View() == Plane.ClosePlane(nft.oracle, old(View()), plan)
      ensures errs == ClosePlaneErrors(nft.oracle, old(View()), plan)
      ensures !old(closed) && nft.oracle(nft.clock - 1) == FlushOk ==> nft.kernel == KernelState(map[], [])
      ensures !old(closed) ==> groups == map[]
    {
      hide Inv, CloseGroups, CloseErrors, Transact, Enumerates, Connft.Valid, Connft.View;
      Outline();
      if closed { return [], []; }
      ghost var was := View();
      label open:
      closed := true;
      OnlyFlagChanged@open();
      SameGroups(was, View());
      errs, plan := CloseEach();
      Outline();
      ClosePlaneKeeps(nft.oracle, was, plan);
      TableDropped(nft.oracle(nft.clock), nft.kernel);
      label emptied:
      nft.Queue(DelTable);
      assert nft.pending == [DelTable];
      var result := nft.Flush();
      errs := errs + if result == FlushFailed then [ErrFlush] else [];
      OnlyKernelChanged@emptied();
    }

    /** The two critical sections of `StaleGroups`, with no other operation between them. The flows are
        dumped only if the first section finds groups; a dump that failed is passed as None. */
    method StaleGroups(dump: Option<seq<Flow>>) returns (stale: seq<ConnftGroup>, err: Option<Error>)
      requires Sound()
      ensures err == if closed then Some(ErrClosed)
                     else if groups != map[] && dump.None? then Some(ErrDump) else None
      ensures err.Some? || groups == map[] ==> stale == []
      ensures err.None? && groups != map[] ==>
                && (forall g :: g in stale <==> exists n :: n in groups && groups[n] == g && IsIdle(g, dump.value))
                && (forall i, j :: 0 <= i < j < |stale| ==> stale[i] != stale[j])
                && |stale| + |dump.value| >= |groups|
    {
      if closed { return [], Some(ErrClosed); }
      if groups == map[] { return [], None; }
      stale, err := StaleAmong(dump);
    }

    /** What follows the first section, which may find another state than that did: the registered groups
        none of whose destinations is the reply source of a dumped flow. The error of a failed
        dump goes before all others. */
    method StaleAmong(dump: Option<seq<Flow>>) returns (stale: seq<ConnftGroup>, err: Option<Error>)
      requires Sound()
      ensures err == if dump.None? then Some(ErrDump) else if closed then Some(ErrClosed) else None
      ensures err.Some? ==> stale == []
      ensures err.None? ==>
                && (forall g :: g in stale <==> exists n :: n in groups && groups[n] == g && IsIdle(g, dump.value))
                && (forall i, j :: 0 <= i < j < |stale| ==> stale[i] != stale[j])
                && |stale| + |dump.value| >= |groups|
    {
      if dump.None? { return [], Some(ErrDump); }
      if closed { return [], Some(ErrClosed); }
      if groups == map[] { return [], None; }
      hide Inv;
      var notSeen := Survivors(dump.value);
      stale := Values(notSeen);
      err := None;
    }

    /** The elimination loop, with its early exit. */
    method Survivors(flows: seq<Flow>) returns (notSeen: map<string, ConnftGroup>)
      requires Sound()
      ensures forall n :: n in notSeen <==> n in groups && IsIdle(groups[n], flows)
      ensures forall n :: n in notSeen ==> notSeen[n] == groups[n]
      ensures |notSeen| + |flows| >= |groups|
    {
      hide Connft.Valid, Inv, IsIdle, Connft.View;
      notSeen := groups;
      var i := 0;
      forall n | n in groups ensures IsIdle(groups[n], flows[..0]) {
        IdleSplits(groups[n], flows, 0);
      }
      while i < |flows| && notSeen != map[]
        invariant 0 <= i <= |flows|
        invariant forall n :: n in notSeen <==> n in groups && IsIdle(groups[n], flows[..i])
        invariant forall n :: n in notSeen ==> notSeen[n] == groups[n]
        invariant |notSeen| + i >= |groups|
      {
        ghost var before := notSeen;
        notSeen := DropSeen(notSeen, flows[i]);
        forall n ensures n in notSeen <==> n in groups && IsIdle(groups[n], flows[..i + 1]) {
          if n in groups {
            IdleSplits(groups[n], flows, i);
          }
        }
        i := i + 1;
      }
      forall n | n in groups ensures n in notSeen <==> IsIdle(groups[n], flows) {
        IdleSplits(groups[n], flows, i);
      }
    }

    /** The values of a map from names, in whatever order it is walked. */
    method Values(named: map<string, ConnftGroup>) returns (list: seq<ConnftGroup>)
      requires forall n :: n in named ==> named[n].name == n
      ensures forall g :: g in list <==> exists n :: n in named && named[n] == g
      ensures forall i, j :: 0 <= i < j < |list| ==> list[i] != list[j]
      ensures |list| == |named|
    {
      list := [];
      var names := named.Keys;
      while names != {}
        invariant names <= named.Keys && |list| + |names| == |named|
        invariant forall g :: g in list <==> exists n :: n in named.Keys - names && named[n] == g
        invariant forall g :: g in list ==> g.name !in names
        invariant forall j, k :: 0 <= j < k < |list| ==> list[j] != list[k]
      {
        var n :| n in names;
        list := list + [named[n]];
        names := names - {n};
      }
    }

    ghost predicate IsIdle(g: ConnftGroup, flows: seq<Flow>)
      reads g
    {
      forall f :: f in flows ==> DnatKey(f.replySource, f.protocol) !in g.mappingsByDst
    }

    lemma IdleSplits(g: ConnftGroup, flows: seq<Flow>, i: nat)
      requires i <= |flows|
      ensures IsIdle(g, flows[..0])
      ensures IsIdle(g, flows) ==> IsIdle(g, flows[..i])
      ensures i == |flows| ==> (IsIdle(g, flows[..i]) <==> IsIdle(g, flows))
      ensures i < |flows| ==> (IsIdle(g, flows[..i + 1]) <==> IsIdle(g, flows[..i]) && IsIdle(g, [flows[i]]))
    {
      assert i == |flows| ==> flows[..i] == flows;
      if i < |flows| {
        assert flows[..i + 1] == flows[..i] + [flows[i]];
      }
    }

    /** One flow takes at most one group out. */
    method DropSeen(notSeen: map<string, ConnftGroup>, flow: Flow) returns (rest: map<string, ConnftGroup>)
      requires Sound() && forall n :: n in notSeen ==> n in groups && notSeen[n] == groups[n]
      ensures forall n :: n in rest <==> n in notSeen && IsIdle(notSeen[n], [flow])
      ensures forall n :: n in rest ==> rest[n] == notSeen[n]
      ensures |rest| + 1 >= |notSeen|
    {
      var key := DnatKey(flow.replySource, flow.protocol);
      assert forall n :: n in notSeen ==> (IsIdle(notSeen[n], [flow]) <==> key !in notSeen[n].mappingsByDst);
      rest := notSeen;
      var names := notSeen.Keys;
      while names != {}
        invariant names <= notSeen.Keys
        invariant forall n :: n in rest <==> n in notSeen && (n in names || key !in notSeen[n].mappingsByDst)
        invariant forall n :: n in rest ==> rest[n] == notSeen[n]
        invariant rest == notSeen ||
                  exists hit :: hit in notSeen && key in notSeen[hit].mappingsByDst && rest == notSeen - {hit}
      {
        var n :| n in names;
        if key in notSeen[n].mappingsByDst {
          forall n' | n' in notSeen && key in notSeen[n'].mappingsByDst ensures n' == n {
            OneGroupPerDestination(View(), n, n', key);
          }
          rest := rest - {n};
          assert rest == notSeen - {n};
        }
        names := names - {n};
      }
    }
  }

  /** `plan` closed the groups of `start` that are not `left`. */
  ghost predicate PartialPlan(start: PlaneState, plan: seq<(string, seq<Mapping>)>, left: map<string, GroupState>) {
    && (forall i, j :: 0 <= i < j < |plan| ==> plan[i].0 != plan[j].0)
    && (forall i :: 0 <= i < |plan| ==> plan[i].0 in start.groups && plan[i].0 !in left)
    && (forall i :: 0 <= i < |plan| && plan[i].0 in start.groups ==> Enumerates(plan[i].1, start.groups[plan[i].0]))
    && (forall n :: n in left ==> n in start.groups && left[n] == start.groups[n])
    && (forall n :: n in start.groups && n !in left ==> exists i :: 0 <= i < |plan| && plan[i].0 == n)
  }

  lemma StartPlan(o: Oracle, start: PlaneState)
    ensures PartialPlan(start, [], start.groups) && CloseGroups(o, start, []) == start
    ensures CloseErrors(o, start, []) == []
  {
  }

  lemma PlanStep(o: Oracle, start: PlaneState, plan: seq<(string, seq<Mapping>)>, p: PlaneState, n: string,
                 order: seq<Mapping>)
    requires PartialPlan(start, plan, p.groups) && p == CloseGroups(o, start, plan)
    requires Inv(p) && n in p.groups && Enumerates(order, p.groups[n])
    ensures var q := CloseGroup(o, p, n, order).plane;
            && CloseGroups(o, start, plan + [(n, order)]) == q
            && q.groups == p.groups - {n} && PartialPlan(start, plan + [(n, order)], q.groups)
  {
    hide Enumerates, Inv, CloseGroup, KernelAgrees, All, Contents, CleanClose;
    CloseGroupKeeps(o, p, n, order);
    var longer := plan + [(n, order)];
    assert longer[..|longer| - 1] == plan && longer[|plan|].0 == n;
    forall n' | n' in start.groups && n' !in p.groups - {n} ensures exists i :: 0 <= i < |longer| && longer[i].0 == n' {
      if n' != n {
        var i :| 0 <= i < |plan| && plan[i].0 == n';
        assert longer[i].0 == n';
      }
    }
  }

  lemma PlanErrors(o: Oracle, start: PlaneState, plan: seq<(string, seq<Mapping>)>, n: string, order: seq<Mapping>)
    ensures var err := CloseGroup(o, CloseGroups(o, start, plan), n, order).err;
            CloseErrors(o, start, plan + [(n, order)])
            == CloseErrors(o, start, plan) + if err.Some? then [err.value] else []
  {
    hide CloseGroup, CloseGroups;
    var longer := plan + [(n, order)];
    assert longer[..|longer| - 1] == plan;
  }

  lemma PlanDone(start: PlaneState, plan: seq<(string, seq<Mapping>)>, end: PlaneState)
    requires PartialPlan(start, plan, end.groups) && end.groups == map[]
    ensures IsPlan(start, plan)
  {
    hide Enumerates;
  }

  /** The reply tuple's source endpoint and protocol of a dumped flow. */
  datatype Flow = Flow(replySource: AddrPort, protocol: Byte)

  class ConnftGroup {
    const dplane: Connft
    const name: string
    var mappingsBySrc: map<DnatKey, Mapping>
    var mappingsByDst: map<DnatKey, Mapping>
    var flowInfoBySrc: map<DnatKey, TTL>
    var enabled: bool
    var closed: bool

    constructor (dplane: Connft, name: string)
      ensures this.dplane == dplane && this.name == name && !closed && Value() == EMPTY_GROUP
    {
      this.dplane, this.name := dplane, name;
      mappingsBySrc, mappingsByDst, flowInfoBySrc := map[], map[], map[];
      enabled, closed := false, false;
    }

    ghost function Value(): GroupState
      reads this
    {
      GroupState(mappingsBySrc, mappingsByDst, flowInfoBySrc, enabled)
    }

    /** This group belongs to a dataplane in good order. */
    ghost predicate Usable()
      reads this, dplane, dplane.nft, dplane.all
    {
      dplane.Sound() && this in dplane.all
    }

    /** An open group is what the plane holds under its name. */
    lemma Registration()
      requires Usable() && !closed
      ensures name in dplane.View().groups && dplane.View().groups[name] == Value() && Indexed(Value())
    {
    }

    /** After this group alone changed, the plane changed at its name alone. */
    twostate lemma ViewChanges()
      requires old(Usable()) && old(!closed) && !closed && dplane.nft.pending == []
      requires dplane.groups == old(dplane.groups) && dplane.all == old(dplane.all)
      requires dplane.closed == old(dplane.closed)
      requires forall g :: g in dplane.all && g != this ==> unchanged(g)
      ensures dplane.Valid()
      ensures dplane.View() == PlaneState(old(dplane.View()).groups[name := Value()], dplane.nft.kernel,
                                          dplane.nft.clock, old(dplane.closed))
    {
      hide Inv;
      assert dplane.Valid();
      assert dplane.View().groups == old(dplane.View()).groups[name := Value()];
    }

    /** After this group alone was closed and unregistered, the plane is without its name. */
    twostate lemma Unregistered()
      requires old(Usable()) && old(!closed) && closed && unchanged(dplane.nft)
      requires dplane.groups == old(dplane.groups) - {name} && dplane.all == old(dplane.all)
      requires dplane.closed == old(dplane.closed)
      requires forall g :: g in dplane.all && g != this ==> unchanged(g)
      ensures dplane.Valid()
      ensures dplane.View() == old(dplane.View()).(groups := old(dplane.View()).groups - {name})
    {
      hide Inv;
      assert dplane.Valid();
      assert dplane.View().groups == old(dplane.View()).groups - {name};
    }

    method EnsureTimeoutDeleted(key: DnatKey) returns (ok: bool)
      requires dplane.nft.pending == []
      modifies this`flowInfoBySrc, dplane.nft
      ensures dplane.nft.pending == [] && dplane.nft.kernel == old(dplane.nft.kernel)
      ensures FlowResult(flowInfoBySrc, dplane.nft.clock, ok)
           == TimeoutDeleted(dplane.nft.oracle, old(flowInfoBySrc), old(dplane.nft.clock), key)
    {
      if key !in flowInfoBySrc { return true; }
      var result := dplane.nft.Flush();
      if result == FlushFailed { return false; }
      flowInfoBySrc := flowInfoBySrc - {key};
      return true;
    }

    method EnsureTimeoutSet(key: DnatKey, ttl: TTL) returns (ok: bool)
      requires dplane.nft.pending == []
      modifies this`flowInfoBySrc, dplane.nft
      ensures dplane.nft.pending == [] && dplane.nft.kernel == old(dplane.nft.kernel)
      ensures FlowResult(flowInfoBySrc, dplane.nft.clock, ok)
           == TimeoutSet(dplane.nft.oracle, old(flowInfoBySrc), old(dplane.nft.clock), key, ttl)
    {
      if ttl == 0 {
        ok := EnsureTimeoutDeleted(key);
        return;
      }
      if key in flowInfoBySrc {
        flowInfoBySrc := flowInfoBySrc[key := ttl];
        var result := dplane.nft.Flush();
        return result == FlushOk;
      }
      var result := dplane.nft.Flush();
      if result != FlushOk { return false; }
      flowInfoBySrc := flowInfoBySrc[key := ttl];
      return true;
    }

    method EnsureDNATAdded(ms: seq<Mapping>, ghost p: PlaneState) returns (err: Option<Error>)
      requires dplane.nft.pending == [] && p.kernel == dplane.nft.kernel && p.clock == dplane.nft.clock
      modifies dplane.nft
      ensures dplane.nft.pending == []
      ensures Result(p.(kernel := dplane.nft.kernel, clock := dplane.nft.clock), err)
           == Submit(dplane.nft.oracle, p, ms, AddMsgs(ms))
    {
      hide EncodeWildcardKey, EncodeSpecificKey, EncodeMapValue, Transact;
      if |ms| == 0 { return None; }
      for i := 0 to |ms|
        invariant dplane.nft.pending == AddMsgs(ms[..i])
        invariant dplane.nft.kernel == old(dplane.nft.kernel) && dplane.nft.clock == old(dplane.nft.clock)
      {
        var elem := CompileSetElement(ms[i]);
        assert ms[..i + 1][..i] == ms[..i];
        if ms[i].source.addr.Is6() {
          var id := Specific6;
          if ms[i].source.addr.IsUnspecified() { id := Wildcard6; }
          dplane.nft.Queue(AddElement(Slot(id, elem.key), elem.val));
        }
        if ms[i].source.addr.Is4() {
          var id := Specific4;
          if ms[i].source.addr.IsUnspecified() { id := Wildcard4; }
          dplane.nft.Queue(AddElement(Slot(id, elem.key), elem.val));
        }
      }
      assert ms[..|ms|] == ms;
      var result := dplane.nft.Flush();
      err := if result == FlushOk then None else Some(ErrFlush);
    }

    method EnsureDNATDeleted(ms: seq<Mapping>, ghost p: PlaneState) returns (err: Option<Error>)
      requires dplane.nft.pending == [] && p.kernel == dplane.nft.kernel && p.clock == dplane.nft.clock
      modifies dplane.nft
      ensures dplane.nft.pending == []
      ensures Result(p.(kernel := dplane.nft.kernel, clock := dplane.nft.clock), err)
           == Submit(dplane.nft.oracle, p, ms, DelMsgs(ms))
    {
      hide EncodeWildcardKey, EncodeSpecificKey, EncodeMapValue, Transact;
      if |ms| == 0 { return None; }
      for i := 0 to |ms|
        invariant dplane.nft.pending == DelMsgs(ms[..i])
        invariant dplane.nft.kernel == old(dplane.nft.kernel) && dplane.nft.clock == old(dplane.nft.clock)
      {
        var elem := CompileSetElement(ms[i]);
        assert ms[..i + 1][..i] == ms[..i];
        if ms[i].source.addr.Is6() {
          var id := Specific6;
          if ms[i].source.addr.IsUnspecified() { id := Wildcard6; }
          dplane.nft.Queue(DelElement(Slot(id, elem.key)));
        }
        if ms[i].source.addr.Is4() {
          var id := Specific4;
          if ms[i].source.addr.IsUnspecified() { id := Wildcard4; }
          dplane.nft.Queue(DelElement(Slot(id, elem.key)));
        }
      }
      assert ms[..|ms|] == ms;
      var result := dplane.nft.Flush();
      err := if result == FlushOk then None else Some(ErrFlush);
    }

    /** The mappings, in whatever order the map is walked. */
    method Collect() returns (ms: seq<Mapping>)
      requires Indexed(Value())
      ensures Enumerates(ms, Value())
    {
      ms := [];
      var todo := mappingsBySrc.Keys;
      while todo != {}
        invariant todo <= mappingsBySrc.Keys
        invariant forall m :: m in ms <==> SrcKey(m) in mappingsBySrc.Keys - todo && mappingsBySrc[SrcKey(m)] == m
        invariant forall i, j :: 0 <= i < j < |ms| ==> ms[i] != ms[j]
      {
        var k :| k in todo;
        ms := ms + [mappingsBySrc[k]];
        todo := todo - {k};
      }
    }

    /** The scan for conflicts with any registered mapping. */
    method IsTaken(m: Mapping) returns (taken: bool)
      requires dplane.Valid()
      ensures taken <==> Taken(dplane.View(), m)
    {
      var names := dplane.groups.Keys;
      while names != {}
        invariant names <= dplane.groups.Keys
        invariant forall n, k :: n in dplane.groups.Keys - names && k in dplane.groups[n].mappingsBySrc ==>
                    !Overlaps(m, dplane.groups[n].mappingsBySrc[k])
      {
        var n :| n in names;
        var keys := dplane.groups[n].mappingsBySrc.Keys;
        while keys != {}
          invariant keys <= dplane.groups[n].mappingsBySrc.Keys
          invariant forall k :: k in dplane.groups[n].mappingsBySrc.Keys - keys ==>
                      !Overlaps(m, dplane.groups[n].mappingsBySrc[k])
        {
          var k :| k in keys;
          if Overlaps(m, dplane.groups[n].mappingsBySrc[k]) {
            assert k in dplane.View().groups[n].bySrc;
            return true;
          }
          keys := keys - {k};
        }
        names := names - {n};
      }
      return false;
    }

    method CheckNew(ms: seq<Mapping>) returns (err: Option<Error>)
      requires dplane.Valid()
      ensures err == FirstConflict(dplane.View(), ms)
    {
      hide Validate, Overlaps, Taken, Connft.Valid, Connft.View;
      ghost var p := dplane.View();
      for i := 0 to |ms|
        invariant FirstConflict(p, ms[..i]).None?
      {
        var m := ms[i];
        assert ms[..i + 1][..i] == ms[..i];
        if !Validate(m) {
          ConflictIsFinal(p, ms, i + 1);
          return Some(ErrInvalid);
        }
        for j := 0 to i
          invariant forall x :: x in ms[..j] ==> !Overlaps(m, x)
        {
          if Overlaps(m, ms[j]) {
            assert ms[j] in ms[..i];
            ConflictIsFinal(p, ms, i + 1);
            return Some(ErrOverlap);
          }
          assert ms[..j + 1] == ms[..j] + [ms[j]];
        }
        var taken := IsTaken(m);
        if taken {
          ConflictIsFinal(p, ms, i + 1);
          return Some(ErrOverlap);
        }
      }
      assert ms[..|ms|] == ms;
      return None;
    }

    method CheckOld(ms: seq<Mapping>) returns (err: Option<Error>)
      ensures err == FirstMissing(Value(), ms)
    {
      for i := 0 to |ms|
        invariant FirstMissing(Value(), ms[..i]).None?
      {
        var m := ms[i];
        assert ms[..i + 1][..i] == ms[..i];
        if !Validate(m) {
          MissingIsFinal(Value(), ms, i + 1);
          return Some(ErrInvalid);
        }
        if SrcKey(m) !in mappingsBySrc || mappingsBySrc[SrcKey(m)].destination != m.destination {
          MissingIsFinal(Value(), ms, i + 1);
          return Some(ErrNoSuchMapping);
        }
      }
      assert ms[..|ms|] == ms;
      return None;
    }

    /** Enters a checked batch into the indexes, setting timeouts on the way. */
    method Enter(ms: seq<Mapping>)
      requires dplane.nft.pending == []
      modifies this, dplane.nft
      ensures dplane.nft.pending == [] && dplane.nft.kernel == old(dplane.nft.kernel)
      ensures enabled == old(enabled) && closed == old(closed)
      ensures mappingsBySrc == IndexBySrc(old(mappingsBySrc), ms) && mappingsByDst == IndexByDst(old(mappingsByDst), ms)
      ensures var f := TimeoutsSet(dplane.nft.oracle, old(flowInfoBySrc), old(dplane.nft.clock), ms);
              flowInfoBySrc == f.flow && dplane.nft.clock == f.clock
    {
      for i := 0 to |ms|
        invariant dplane.nft.pending == [] && dplane.nft.kernel == old(dplane.nft.kernel)
        invariant enabled == old(enabled) && closed == old(closed)
        invariant mappingsBySrc == IndexBySrc(old(mappingsBySrc), ms[..i])
        invariant mappingsByDst == IndexByDst(old(mappingsByDst), ms[..i])
        invariant var f := TimeoutsSet(dplane.nft.oracle, old(flowInfoBySrc), old(dplane.nft.clock), ms[..i]);
                  flowInfoBySrc == f.flow && dplane.nft.clock == f.clock
      {
        var m := ms[i];
        assert ms[..i + 1][..i] == ms[..i];
        mappingsBySrc := mappingsBySrc[SrcKey(m) := m];
        mappingsByDst := mappingsByDst[DstKey(m) := m];
        var _ := EnsureTimeoutSet(SrcKey(m), m.timeout);
      }
      assert ms[..|ms|] == ms;
    }

    method Remove(ms: seq<Mapping>)
      requires dplane.nft.pending == []
      modifies this, dplane.nft
      ensures dplane.nft.pending == [] && dplane.nft.kernel == old(dplane.nft.kernel)
      ensures enabled == old(enabled) && closed == old(closed)
      ensures mappingsBySrc == old(mappingsBySrc) - SrcKeys(ms) && mappingsByDst == old(mappingsByDst) - DstKeys(ms)
      ensures var f := TimeoutsDeleted(dplane.nft.oracle, old(flowInfoBySrc), old(dplane.nft.clock), ms);
              flowInfoBySrc == f.flow && dplane.nft.clock == f.clock
    {
      hide TimeoutDeleted;
      for i := 0 to |ms|
        invariant dplane.nft.pending == [] && dplane.nft.kernel == old(dplane.nft.kernel)
        invariant enabled == old(enabled) && closed == old(closed)
        invariant mappingsBySrc == old(mappingsBySrc) - SrcKeys(ms[..i])
        invariant mappingsByDst == old(mappingsByDst) - DstKeys(ms[..i])
        invariant var f := TimeoutsDeleted(dplane.nft.oracle, old(flowInfoBySrc), old(dplane.nft.clock), ms[..i]);
                  flowInfoBySrc == f.flow && dplane.nft.clock == f.clock
      {
        var m := ms[i];
        assert ms[..i + 1][..i] == ms[..i];
        assert SrcKeys(ms[..i + 1]) == SrcKeys(ms[..i]) + {SrcKey(m)};
        assert DstKeys(ms[..i + 1]) == DstKeys(ms[..i]) + {DstKey(m)};
        mappingsBySrc := mappingsBySrc - {SrcKey(m)};
        mappingsByDst := mappingsByDst - {DstKey(m)};
        var _ := EnsureTimeoutDeleted(SrcKey(m));
      }
      assert ms[..|ms|] == ms;
    }

    /** On an open group of an open dataplane this is `Plane.AddMappings`; anything else is refused. */
    method AddMappings(ms: seq<Mapping>) returns (err: Option<Error>)
      requires Usable()
      modifies this, dplane.nft
      ensures Usable()
      ensures closed == old(closed)
      ensures old(closed || dplane.closed) ==> err == Some(ErrClosed) && unchanged(this, dplane.nft)
      ensures !old(closed) ==>
                Result(dplane.View(), err) == Plane.AddMappings(dplane.nft.oracle, old(dplane.View()), name, ms)
    {
      hide Inv, All, Live, Contents, Batch, Without, Retimed, KernelAgrees;
      hide Addable, Deletable, DistinctSources, CleanClose;
      hide FirstConflict, FirstMissing, TimeoutsSet, TimeoutsDeleted, IndexBySrc, IndexByDst, AddMsgs, DelMsgs, Submit;
      hide Connft.Valid, Connft.View;
      dplane.Outline();
      if closed || dplane.closed { return Some(ErrClosed); }
      Registration();
      if |ms| == 0 { return None; }
      label start:
      ghost var was := dplane.View();
      AddMappingsKeeps(dplane.nft.oracle, was, name, ms);
      err := CheckNew(ms);
      if err.Some? { return; }
      if enabled {
        err := EnsureDNATAdded(ms, was);
        if err.Some? {
          ViewChanges@start();
          assert was.groups[name := Value()] == was.groups;
          return;
        }
      }
      Enter(ms);
      ViewChanges@start();
    }

    /** Deletion without the check for closedness. */
    method Delete(ms: seq<Mapping>) returns (err: Option<Error>)
      requires Usable() && !closed
      modifies this, dplane.nft
      ensures Usable() && !closed
      ensures Result(dplane.View(), err) == Plane.Delete(dplane.nft.oracle, old(dplane.View()), name, ms)
    {
      hide Inv, All, Live, Contents, Batch, Without, Retimed, KernelAgrees;
      hide Addable, Deletable, DistinctSources, CleanClose;
      hide FirstConflict, FirstMissing, TimeoutsSet, TimeoutsDeleted, IndexBySrc, IndexByDst, AddMsgs, DelMsgs, Submit;
      hide Connft.Valid, Connft.View;
      dplane.Outline();
      Registration();
      if |ms| == 0 { return None; }
      label start:
      ghost var was := dplane.View();
      DeleteKeeps(dplane.nft.oracle, was, name, ms);
      err := CheckOld(ms);
      if err.Some? { return; }
      if enabled {
        err := EnsureDNATDeleted(ms, was);
        if err.Some? {
          ViewChanges@start();
          assert was.groups[name := Value()] == was.groups;
          return;
        }
      }
      Remove(ms);
      ViewChanges@start();
    }

    method DelMappings(ms: seq<Mapping>) returns (err: Option<Error>)
      requires Usable()
      modifies this, dplane.nft
      ensures Usable() && closed == old(closed)
      ensures old(closed || dplane.closed) ==> err == Some(ErrClosed) && unchanged(this, dplane.nft)
      ensures !old(closed) ==>
                Result(dplane.View(), err) == Plane.DelMappings(dplane.nft.oracle, old(dplane.View()), name, ms)
    {
      if closed || dplane.closed { return Some(ErrClosed); }
      err := Delete(ms);
    }

    method ClearMappings() returns (err: Option<Error>, ghost order: seq<Mapping>)
      requires Usable()
      modifies this, dplane.nft
      ensures Usable() && closed == old(closed)
      ensures old(closed || dplane.closed) ==> err == Some(ErrClosed) && unchanged(this, dplane.nft)
      ensures !old(closed) ==>
                && Enumerates(order, old(Value()))
                && Result(dplane.View(), err) == Plane.DelMappings(dplane.nft.oracle, old(dplane.View()), name, order)
    {
      hide Inv, All, Live, Contents, Batch, Without, Retimed, KernelAgrees;
      hide Addable, Deletable, DistinctSources, CleanClose;
      hide FirstConflict, FirstMissing, TimeoutsSet, TimeoutsDeleted, IndexBySrc, IndexByDst, AddMsgs, DelMsgs, Submit;
      if closed { return Some(ErrClosed), []; }
      Registration();
      var ms := Collect();
      order := ms;
      if dplane.closed { return Some(ErrClosed), order; }
      err := Delete(ms);
    }

    method Enable() returns (err: Option<Error>, ghost order: seq<Mapping>)
      requires Usable()
      modifies this, dplane.nft
      ensures Usable() && closed == old(closed)
      ensures old(closed || dplane.closed) ==> err == Some(ErrClosed) && unchanged(this, dplane.nft)
      ensures !old(closed) ==>
                && Enumerates(order, old(Value()))
                && Result(dplane.View(), err) == Plane.Switch(dplane.nft.oracle, old(dplane.View()), name, order, true)
    {
      hide Inv, All, Live, Contents, Batch, Without, Retimed, KernelAgrees;
      hide Addable, Deletable, DistinctSources, CleanClose;
      hide FirstConflict, FirstMissing, TimeoutsSet, TimeoutsDeleted, IndexBySrc, IndexByDst, AddMsgs, DelMsgs, Submit;
      hide Connft.Valid, Connft.View;
      dplane.Outline();
      if closed {
        return Some(ErrClosed), [];
      }
      Registration();
      var ms := Collect();
      order := ms;
      if dplane.closed { return Some(ErrClosed), order; }
      if enabled { return None, order; }
      label start:
      ghost var was := dplane.View();
      SwitchKeeps(dplane.nft.oracle, was, name, order, true);
      err := EnsureDNATAdded(ms, was);
      if err.None? {
        enabled := true;
      }
      ViewChanges@start();
      assert err.Some? ==> was.groups[name := Value()] == was.groups;
    }

    method Disable() returns (err: Option<Error>, ghost order: seq<Mapping>)
      requires Usable()
      modifies this, dplane.nft
      ensures Usable() && closed == old(closed)
      ensures old(closed || dplane.closed) ==> err == Some(ErrClosed) && unchanged(this, dplane.nft)
      ensures !old(closed) ==>
                && Enumerates(order, old(Value()))
                && Result(dplane.View(), err) == Plane.Switch(dplane.nft.oracle, old(dplane.View()), name, order, false)
    {
      hide Inv, All, Live, Contents, Batch, Without, Retimed, KernelAgrees;
      hide Addable, Deletable, DistinctSources, CleanClose;
      hide FirstConflict, FirstMissing, TimeoutsSet, TimeoutsDeleted, IndexBySrc, IndexByDst, AddMsgs, DelMsgs, Submit;
      hide Connft.Valid, Connft.View;
      dplane.Outline();
      if closed {
        return Some(ErrClosed), [];
      }
      Registration();
      var ms := Collect();
      order := ms;
      if dplane.closed { return Some(ErrClosed), order; }
      if !enabled { return None, order; }
      label start:
      ghost var was := dplane.View();
      SwitchKeeps(dplane.nft.oracle, was, name, order, false);
      err := EnsureDNATDeleted(ms, was);
      if err.None? {
        enabled := false;
      }
      ViewChanges@start();
      assert err.Some? ==> was.groups[name := Value()] == was.groups;
    }

    method SetTimeout(key: DnatKey, ttl: TTL) returns (err: Option<Error>)
      requires Usable()
      modifies this, dplane.nft
      ensures Usable() && closed == old(closed)
      ensures old(closed || dplane.closed) ==> err == Some(ErrClosed) && unchanged(this, dplane.nft)
      ensures !old(closed) ==>
                Result(dplane.View(), err) == Plane.SetTimeout(dplane.nft.oracle, old(dplane.View()), name, key, ttl)
    {
      hide Inv, All, Live, Contents, Batch, Without, Retimed, KernelAgrees;
      hide Addable, Deletable, DistinctSources, CleanClose;
      hide FirstConflict, FirstMissing, TimeoutsSet, TimeoutsDeleted, IndexBySrc, IndexByDst, AddMsgs, DelMsgs, Submit;
      hide Connft.Valid, Connft.View;
      dplane.Outline();
      if closed || dplane.closed { return Some(ErrClosed); }
      Registration();
      if key !in mappingsBySrc { return Some(ErrNoSuchMapping); }
      var m := mappingsBySrc[key];
      if m.timeout == ttl { return None; }
      label start:
      SetTimeoutKeeps(dplane.nft.oracle, dplane.View(), name, key, ttl);
      var ok := EnsureTimeoutSet(key, ttl);
      if !ok {
        ViewChanges@start();
        return Some(ErrFlush);
      }
      m := m.(timeout := ttl);
      mappingsBySrc := mappingsBySrc[key := m];
      mappingsByDst := mappingsByDst[DstKey(m) := m];
      ViewChanges@start();
      return None;
    }

    /** The first close unregisters the group; a later one changes nothing at all, so it
        cannot unregister another group that has taken the name since. */
    method Close() returns (err: Option<Error>, ghost order: seq<Mapping>)
      requires Usable()
      modifies this, dplane, dplane.nft
      ensures Usable() && closed && dplane.all == old(dplane.all) && dplane.closed == old(dplane.closed)
      ensures old(closed) ==> err == None && unchanged(this, dplane, dplane.nft)
      ensures !old(closed) ==>
                && Enumerates(order, old(Value()))
                && dplane.groups == old(dplane.groups) - {name}
                && Result(dplane.View(), err) == Plane.CloseGroup(dplane.nft.oracle, old(dplane.View()), name, order)
    {
      hide Inv, All, Live, Contents, Batch, Without, Retimed, KernelAgrees;
      hide Addable, Deletable, DistinctSources, CleanClose;
      hide FirstConflict, FirstMissing, TimeoutsSet, TimeoutsDeleted, IndexBySrc, IndexByDst, AddMsgs, DelMsgs, Submit;
      hide Connft.Valid, Connft.View;
      if closed { return None, []; }
      Registration();
      var ms := Collect();
      order := ms;
      CloseGroupKeeps(dplane.nft.oracle, dplane.View(), name, order);
      err := Delete(ms);
      label deleted:
      closed := true;
      dplane.groups := dplane.groups - {name};
      Unregistered@deleted();
    }
  }
}
