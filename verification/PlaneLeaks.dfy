/** Runs in which closing groups may lose their flushes: what the kernel maps still hold, and
    exactly which packets the elements left behind can mislead. */
module PlaneLeaks {
  import opened Wrappers
  import opened Net
  import opened Mappings
  import opened Encoding
  import opened Rules
  import opened Routing
  import opened Kernel
  import opened Plane
  import opened PlaneProofs
  import opened PlaneOps
  import opened PlaneRuns

  /** `v` is what `m` compiles to at slot `s`. */
  predicate CompilesTo(m: Mapping, s: Slot, v: Bytes) {
    Validate(m) && SlotOf(m) == s && v == EncodeMapValue(m.destination)
  }

  /** The maps hold at least the compilation of `live`, and whatever else they hold is the
      element of some valid mapping. */
  ghost predicate Carries(t: Tables, live: iset<Mapping>) {
    && (forall m :: m in live ==> SlotOf(m) in t && CompilesTo(m, SlotOf(m), t[SlotOf(m)]))
    && (forall s :: s in t ==> exists m :: CompilesTo(m, s, t[s]))
  }

  lemma CarriesFewer(t: Tables, live: iset<Mapping>, fewer: iset<Mapping>)
    requires Carries(t, live) && fewer <= live
    ensures Carries(t, fewer)
  {
  }

  /** A batch that the kernel takes is then carried, besides what was carried before. */
  lemma {:induction false} AddsOver(k: KernelState, live: iset<Mapping>, ms: seq<Mapping>)
    requires Carries(k.tables, live) && forall m :: m in ms ==> Validate(m)
    requires ApplyAll(k, AddMsgs(ms)).Some?
    ensures Carries(ApplyAll(k, AddMsgs(ms)).value.tables, live + Batch(ms))
  {
    hide Validate, SlotOf, CompileSetElement, Carries, Apply;
    if ms == [] {
      assert live + Batch(ms) == live;
    } else {
      var init, m := ms[..|ms| - 1], ms[|ms| - 1];
      var add := AddElement(SlotOf(m), CompileSetElement(m).val);
      AddMsgsLast(ms);
      ApplyAllLast(k, AddMsgs(init), add);
      AddsOver(k, live, init);
      AddsOneOver(ApplyAll(k, AddMsgs(init)).value, live + Batch(init), m);
      assert live + Batch(ms) == live + Batch(init) + iset{m};
    }
  }

  lemma AddsOneOver(k: KernelState, live: iset<Mapping>, m: Mapping)
    requires Carries(k.tables, live) && Validate(m)
    requires Apply(k, AddElement(SlotOf(m), CompileSetElement(m).val)).Some?
    ensures Carries(Apply(k, AddElement(SlotOf(m), CompileSetElement(m).val)).value.tables, live + iset{m})
  {
    hide Validate, SlotOf, EncodeMapValue;
    var v := CompileSetElement(m).val;
    assert CompilesTo(m, SlotOf(m), v);
    var t := k.tables[SlotOf(m) := v];
    forall s | s in t ensures exists x :: CompilesTo(x, s, t[s]) {
      if s != SlotOf(m) {
        assert s in k.tables && t[s] == k.tables[s];
      }
    }
  }

  /** A deletion that the kernel takes leaves the rest carried. */
  lemma {:induction false} DeletesOver(k: KernelState, live: iset<Mapping>, ms: seq<Mapping>)
    requires Carries(k.tables, live) && forall m :: m in ms ==> Validate(m)
    requires ApplyAll(k, DelMsgs(ms)).Some?
    ensures Carries(ApplyAll(k, DelMsgs(ms)).value.tables, Without(live, ms))
  {
    hide Validate, SlotOf, Carries, Apply;
    if ms == [] {
      assert Without(live, ms) == live;
    } else {
      var init, m := ms[..|ms| - 1], ms[|ms| - 1];
      DelMsgsLast(ms);
      ApplyAllLast(k, DelMsgs(init), DelElement(SlotOf(m)));
      DeletesOver(k, live, init);
      DeletesOneOver(ApplyAll(k, DelMsgs(init)).value, Without(live, init), m);
      assert SrcKeys(ms) == SrcKeys(init) + {SrcKey(m)};
      assert Without(live, ms) == iset x: Mapping | x in Without(live, init) && SrcKey(x) != SrcKey(m);
    }
  }

  lemma DeletesOneOver(k: KernelState, live: iset<Mapping>, m: Mapping)
    requires Carries(k.tables, live) && Validate(m) && Apply(k, DelElement(SlotOf(m))).Some?
    ensures Carries(Apply(k, DelElement(SlotOf(m))).value.tables,
                    iset x: Mapping | x in live && SrcKey(x) != SrcKey(m))
  {
    hide Validate, SlotOf, EncodeMapValue;
    forall x | x in live ensures SlotOf(x) == SlotOf(m) <==> SrcKey(x) == SrcKey(m) {
      SameSlot(x, m);
    }
    var t := k.tables - {SlotOf(m)};
    forall s | s in t ensures exists x :: CompilesTo(x, s, t[s]) {
      assert s in k.tables && t[s] == k.tables[s];
    }
  }

  // One operation at a time

  ghost predicate KernelCarries(p: PlaneState) {
    Carries(p.kernel.tables, Live(p))
  }

  lemma CarriesSame(p: PlaneState, q: PlaneState)
    requires KernelCarries(p) && q.groups == p.groups && q.kernel == p.kernel
    ensures KernelCarries(q)
  {
    hide Inv, Live;
    SameGroups(p, q);
  }

  lemma AddCarries(o: Oracle, p: PlaneState, name: string, ms: seq<Mapping>)
    requires Inv(p) && KernelCarries(p)
    ensures KernelCarries(AddMappings(o, p, name, ms).plane)
  {
    hide Inv, Live, All, Carries, FirstConflict, TimeoutsSet, IndexBySrc, IndexByDst, Contents;
    var r := AddMappings(o, p, name, ms);
    if r.err.Some? || ms == [] {
      CarriesSame(p, r.plane);
    } else {
      var g := p.groups[name];
      ScanAcceptsAddable(p, ms);
      if g.enabled {
        SubmitMeaning(o, p, ms, AddMsgs(ms));
        AddsOver(p.kernel, Live(p), ms);
      }
      AddedGroup(p, name, ms, r.plane.groups[name], r.plane);
    }
  }

  lemma DeleteCarries(o: Oracle, p: PlaneState, name: string, ms: seq<Mapping>)
    requires Inv(p) && KernelCarries(p) && name in p.groups
    ensures KernelCarries(Delete(o, p, name, ms).plane)
  {
    hide Live, All, Carries, FirstMissing, TimeoutsDeleted, Contents, Indexed, Consistent;
    var r := Delete(o, p, name, ms);
    if r.err.Some? || ms == [] {
      CarriesSame(p, r.plane);
    } else {
      var g := p.groups[name];
      ScanAcceptsDeletable(g, ms);
      if g.enabled {
        SubmitMeaning(o, p, ms, DelMsgs(ms));
        DeletesOver(p.kernel, Live(p), ms);
      } else {
        DisabledUnaffected(p, name, ms);
      }
      DeletedGroup(p, name, ms, r.plane.groups[name], r.plane);
    }
  }

  lemma SwitchCarries(o: Oracle, p: PlaneState, name: string, order: seq<Mapping>, on: bool)
    requires Inv(p) && KernelCarries(p) && (name in p.groups ==> Enumerates(order, p.groups[name]))
    ensures KernelCarries(Switch(o, p, name, order, on).plane)
  {
    hide Inv, Live, All, Carries, Contents, Enumerates, Without, DistinctSources;
    var r := Switch(o, p, name, order, on);
    if r.err.Some? || p.groups[name].enabled == on {
      CarriesSame(p, r.plane);
    } else {
      EnumerationBatch(p, name, order);
      SwitchedGroup(p, name, order, on, r.plane);
      if order != [] {
        SubmitMeaning(o, p, order, if on then AddMsgs(order) else DelMsgs(order));
        if on {
          AddsOver(p.kernel, Live(p), order);
        } else {
          DeletesOver(p.kernel, Live(p), order);
        }
      }
    }
  }

  lemma SetTimeoutCarries(o: Oracle, p: PlaneState, name: string, key: DnatKey, ttl: TTL)
    requires Inv(p) && KernelCarries(p)
    ensures KernelCarries(SetTimeout(o, p, name, key, ttl).plane)
  {
    hide Inv, Live, All, Carries, TimeoutSet, Retimed;
    var r := SetTimeout(o, p, name, key, ttl);
    if IsOpen(p, name) && key in p.groups[name].bySrc && p.groups[name].bySrc[key].timeout != ttl {
      if r.err.Some? {
        OtherFlow(p, name, r.plane);
      } else {
        RetimedPlane(p, name, key, ttl, r.plane);
        GroupConsistent(p, name);
        if p.groups[name].enabled {
          CarriesRetimed(p.kernel.tables, Live(p), p.groups[name].bySrc[key], ttl);
        }
      }
    }
  }

  lemma CarriesRetimed(t: Tables, live: iset<Mapping>, m: Mapping, ttl: TTL)
    requires Carries(t, live) && m in live
    ensures Carries(t, Retimed(live, m, ttl))
  {
    hide Validate, SlotOf, EncodeMapValue;
    TimeoutIrrelevant(m, ttl, m);
  }

  lemma CloseCarries(o: Oracle, p: PlaneState, name: string, order: seq<Mapping>)
    requires Inv(p) && KernelCarries(p) && (name in p.groups ==> Enumerates(order, p.groups[name]))
    ensures KernelCarries(CloseGroup(o, p, name, order).plane)
  {
    hide Inv, Live, All, Carries, Delete, Enumerates, Contents;
    if name in p.groups {
      var d, r := Delete(o, p, name, order), CloseGroup(o, p, name, order);
      DeleteCarries(o, p, name, order);
      DeleteKeeps(o, p, name, order);
      assert name in d.plane.groups;
      RemoveGroup(d.plane, name, r.plane);
      CarriesFewer(r.plane.kernel.tables, Live(d.plane), Live(r.plane));
    }
  }

  lemma {:induction false} CloseGroupsCarry(o: Oracle, p: PlaneState, plan: seq<(string, seq<Mapping>)>)
    requires Inv(p) && KernelCarries(p)
    requires forall i, j :: 0 <= i < j < |plan| ==> plan[i].0 != plan[j].0
    requires forall i :: 0 <= i < |plan| ==> plan[i].0 in p.groups && Enumerates(plan[i].1, p.groups[plan[i].0])
    ensures KernelCarries(CloseGroups(o, p, plan))
    decreases |plan|
  {
    hide Inv, KernelCarries, Enumerates, CloseGroup, KernelAgrees;
    if plan == [] {
    } else {
      var init, last := plan[..|plan| - 1], plan[|plan| - 1];
      assert forall i :: 0 <= i < |init| ==> init[i] == plan[i];
      var r := CloseGroups(o, p, init);
      CloseGroupsCarry(o, p, init);
      CloseGroupsKeeps(o, p, r, init);
      assert last == plan[|plan| - 1];
      CloseCarries(o, r, last.0, last.1);
    }
  }

  lemma ClosePlaneCarries(o: Oracle, p: PlaneState, plan: seq<(string, seq<Mapping>)>)
    requires Inv(p) && KernelCarries(p) && (p.closed || IsPlan(p, plan))
    ensures KernelCarries(ClosePlane(o, p, plan))
  {
    hide Inv, Enumerates, CloseGroups, Live, Carries;
    if !p.closed {
      var start := p.(closed := true);
      SameGroups(p, start);
      CloseGroupsCarry(o, start, plan);
      var r, q := CloseGroups(o, start, plan), ClosePlane(o, p, plan);
      SameGroups(r, q);
      assert ApplyAll(r.kernel, [DelTable][..0]) == Some(r.kernel);
      if q.kernel != r.kernel {
        ClosePlaneKeeps(o, p, plan);
        CarriesNothing(q);
      }
    }
  }

  lemma CarriesNothing(q: PlaneState)
    requires q.groups == map[] && q.kernel.tables == map[]
    ensures KernelCarries(q)
  {
    assert forall m :: m !in Live(q);
  }

  /** Every step, with whatever flush answers, keeps the enabled mappings carried. */
  lemma StepCarries(o: Oracle, p: PlaneState, op: Op)
    requires Inv(p) && Legit(p, op) && KernelCarries(p)
    ensures KernelCarries(Step(o, p, op))
  {
    hide Inv, KernelCarries, Enumerates, IsPlan, Delete, AddMappings, Switch, SetTimeout, CloseGroup, ClosePlane;
    match op
    case OpNew(n) => NewCarries(p, n);
    case OpAdd(n, ms) => AddCarries(o, p, n, ms);
    case OpDel(n, ms) => if IsOpen(p, n) { DeleteCarries(o, p, n, ms); }
    case OpClear(n, order) => if IsOpen(p, n) { DeleteCarries(o, p, n, order); }
    case OpEnable(n, order) => SwitchCarries(o, p, n, order, true);
    case OpDisable(n, order) => SwitchCarries(o, p, n, order, false);
    case OpSetTimeout(n, key, ttl) => SetTimeoutCarries(o, p, n, key, ttl);
    case OpClose(n, order) => CloseCarries(o, p, n, order);
    case OpClosePlane(plan) => ClosePlaneCarries(o, p, plan);
  }

  lemma NewCarries(p: PlaneState, name: string)
    requires Inv(p) && KernelCarries(p)
    ensures KernelCarries(NewGroup(p, name).plane)
  {
    hide Inv, Live, All, Carries;
    NewGroupKeeps(p, name);
  }

  /** After any run, also one in which closing groups lost their flushes, every mapping of an
      enabled group has its element, and every other element was compiled from a valid mapping. */
  lemma {:induction false} RunCarries(o: Oracle, p: PlaneState, ops: seq<Op>)
    requires Initial(p) && IsRun(o, p, ops)
    ensures Inv(Run(o, p, ops)) && KernelCarries(Run(o, p, ops))
  {
    RunKeeps(o, p, ops);
    if ops == [] {
      StartCarries(p);
    } else {
      hide Inv, KernelCarries, Legit, Step;
      RunKeeps(o, p, ops[..|ops| - 1]);
      RunCarries(o, p, ops[..|ops| - 1]);
      StepCarries(o, Run(o, p, ops[..|ops| - 1]), ops[|ops| - 1]);
    }
  }

  lemma StartCarries(p: PlaneState)
    requires Initial(p)
    ensures KernelCarries(p)
  {
    CarriesNothing(p);
  }

  // What the elements left behind do to packets

  lemma CarriesSized(t: Tables, live: iset<Mapping>)
    requires Carries(t, live)
    ensures Sized(t)
  {
    hide Validate, SlotOf, EncodeMapValue;
    forall s | s in t ensures |t[s]| == AddrLen(s.id) + 4 {
      var m :| CompilesTo(m, s, t[s]);
      ValueOfSlot(m, s);
    }
  }

  lemma ValueOfSlot(m: Mapping, s: Slot)
    requires Validate(m) && SlotOf(m) == s
    ensures |EncodeMapValue(m.destination)| == AddrLen(s.id) + 4
  {
    ValueIsRewrite(m);
  }

  /** The first rule whose set holds an element for the packet. */
  function FirstHit(t: Tables, pkt: Packet, ids: seq<SetId>): (r: Option<SetId>)
    requires WellFormed(pkt)
    ensures r.Some? ==> r.value in ids && Hit(t, pkt, r.value)
    ensures r.None? ==> forall id :: id in ids ==> !Hit(t, pkt, id)
  {
    if ids == [] then None
    else if Hit(t, pkt, ids[0]) then Some(ids[0])
    else FirstHit(t, pkt, ids[1..])
  }

  function HitSlot(pkt: Packet, id: SetId): Slot
    requires WellFormed(pkt) && pkt.nfproto == Family(id)
  {
    Slot(id, LookupKey(id, pkt))
  }

  /** The chain ends with the value of the first hit, if there is one. */
  lemma {:induction false} ChainEnds(t: Tables, pkt: Packet, ids: seq<SetId>, c: Cpu)
    requires Sized(t) && WellFormed(pkt)
    ensures var first := FirstHit(t, pkt, ids);
            var end := ExecChain(t, pkt, RulesInOrder(ids), c);
            if first.None? then end.Next?
            else
              var v, n := t[HitSlot(pkt, first.value)], AddrLen(first.value);
              end == Rewrite(v[..n], v[n..n + 2])
    decreases |ids|
  {
    hide ExecRule, RuleFor, LookupKey, WellFormed;
    if ids == [] {
    } else {
      RuleEffect(t, pkt, ids[0], c);
      ChainCons(t, pkt, ids, c);
      if !Hit(t, pkt, ids[0]) {
        ChainEnds(t, pkt, ids[1..], ExecRule(t, pkt, RuleFor(ids[0]), c).cpu);
      }
    }
  }

  /** An element of no enabled mapping. */
  ghost predicate Leaked(t: Tables, live: iset<Mapping>, s: Slot) {
    s in t && forall m :: m in live ==> SlotOf(m) != s
  }

  lemma SameRewrite(m: Mapping, x: Mapping)
    requires Validate(m) && Validate(x) && AddrLen(SetOf(m.source)) == AddrLen(SetOf(x.source))
    ensures RewriteTo(m.destination) == RewriteTo(x.destination) <==>
            EncodeMapValue(m.destination) == EncodeMapValue(x.destination)
  {
    ValueIsRewrite(m);
    ValueIsRewrite(x);
    Layout(m.protocol, m.destination);
    Layout(x.protocol, x.destination);
  }

  /** What a hit found: the element of the mapping that covers the packet, or one left behind. */
  lemma HitIsCoverOrLeak(t: Tables, live: iset<Mapping>, pkt: Packet, id: SetId, m: Mapping)
    requires Carries(t, live) && Consistent(live) && WellFormed(pkt) && Hit(t, pkt, id)
    ensures m in live && Covers(m, TargetOf(pkt)) ==> SlotOf(m) == HitSlot(pkt, id) || Leaked(t, live, HitSlot(pkt, id))
    ensures (forall x :: x in live ==> !Covers(x, TargetOf(pkt))) ==> Leaked(t, live, HitSlot(pkt, id))
  {
    hide Validate, Overlaps, Covers, CompileSetElement, LookupKey, TargetOf, EncodeMapValue;
    forall x | x in live && SlotOf(x) == HitSlot(pkt, id) ensures Covers(x, TargetOf(pkt)) {
      KeyMeetsTarget(x, pkt);
    }
    if x :| x in live && SlotOf(x) == HitSlot(pkt, id) && m in live && Covers(m, TargetOf(pkt)) {
      RoutingIsFunction(live, m, x, TargetOf(pkt));
    }
  }

  /** A packet that an enabled mapping covers is rewritten elsewhere exactly when the first rule
      that hits finds an element left behind with another destination. */
  lemma MisroutedExactly(t: Tables, live: iset<Mapping>, pkt: Packet, ids: seq<SetId>, c: Cpu, m: Mapping)
    requires Carries(t, live) && Consistent(live) && WellFormed(pkt) && (forall id: SetId :: id in ids)
    requires m in live && Covers(m, TargetOf(pkt))
    ensures FirstHit(t, pkt, ids).Some?
    ensures var s := HitSlot(pkt, FirstHit(t, pkt, ids).value);
            ExecChain(t, pkt, RulesInOrder(ids), c) != RewriteTo(m.destination) <==>
            Leaked(t, live, s) && t[s] != EncodeMapValue(m.destination)
  {
    CoveredHits(t, live, pkt, m);
    hide Overlaps, Covers, TargetOf, CompileSetElement, LookupKey, EncodeMapValue, RewriteTo, SlotOf, Validate;
    CarriesSized(t, live);
    ChainEnds(t, pkt, ids, c);
    var id := FirstHit(t, pkt, ids).value;
    HitIsCoverOrLeak(t, live, pkt, id, m);
    FamilyLengths(id, SetOf(m.source), pkt);
    ValueDecides(t, live, HitSlot(pkt, id), m);
  }

  /** A stored value rewrites to a mapping's destination only if it is that destination's. */
  lemma ValueDecides(t: Tables, live: iset<Mapping>, s: Slot, m: Mapping)
    requires Carries(t, live) && s in t && Validate(m) && AddrLen(SetOf(m.source)) == AddrLen(s.id)
    ensures var v, n := t[s], AddrLen(s.id);
            && |v| == n + 4
            && (Rewrite(v[..n], v[n..n + 2]) == RewriteTo(m.destination) <==> v == EncodeMapValue(m.destination))
  {
    hide Validate, EncodeMapValue, RewriteTo, SlotOf;
    var x :| CompilesTo(x, s, t[s]);
    SlotHasSet(x, s);
    ValueIsRewrite(x);
    SameRewrite(m, x);
  }

  lemma SlotHasSet(x: Mapping, s: Slot)
    requires SlotOf(x) == s
    ensures SetOf(x.source) == s.id
  {
  }

  lemma FamilyLengths(id: SetId, id': SetId, pkt: Packet)
    requires pkt.nfproto == Family(id) == Family(id')
    ensures AddrLen(id) == AddrLen(id')
  {
  }

  lemma CoveredHits(t: Tables, live: iset<Mapping>, pkt: Packet, m: Mapping)
    requires Carries(t, live) && Consistent(live) && WellFormed(pkt) && m in live && Covers(m, TargetOf(pkt))
    ensures Hit(t, pkt, SetOf(m.source)) && HitSlot(pkt, SetOf(m.source)) == SlotOf(m)
  {
    hide Validate, Overlaps, Covers, TargetOf, CompileSetElement, LookupKey, EncodeMapValue;
    KeyMeetsTarget(m, pkt);
  }

  /** A packet that no enabled mapping covers is rewritten exactly when an element left behind is hit. */
  lemma StrayExactly(t: Tables, live: iset<Mapping>, pkt: Packet, ids: seq<SetId>, c: Cpu)
    requires Carries(t, live) && Consistent(live) && WellFormed(pkt) && (forall id: SetId :: id in ids)
    requires forall m :: m in live ==> !Covers(m, TargetOf(pkt))
    ensures !ExecChain(t, pkt, RulesInOrder(ids), c).Next? <==>
            exists id: SetId :: pkt.nfproto == Family(id) && Leaked(t, live, HitSlot(pkt, id))
  {
    hide Overlaps, Covers, TargetOf, CompileSetElement, LookupKey, EncodeMapValue, SlotOf, Validate;
    CarriesSized(t, live);
    ChainEnds(t, pkt, ids, c);
    var first := FirstHit(t, pkt, ids);
    if first.Some? {
      assert Hit(t, pkt, first.value);
      HitIsCoverOrLeak(t, live, pkt, first.value, Mapping(AddrPort(NoAddr, 0), AddrPort(NoAddr, 0), 0, 0));
    }
    forall id: SetId | pkt.nfproto == Family(id) && Leaked(t, live, HitSlot(pkt, id)) ensures Hit(t, pkt, id) {
    }
  }

  /** Where a wildcard source of the mapping's family, protocol and port has its element. */
  function WildcardSlot(m: Mapping): Slot {
    Slot(if m.source.addr.Is6() then Wildcard6 else Wildcard4, EncodeWildcardKey(m.protocol, m.source.port))
  }

  lemma WildcardHit(t: Tables, pkt: Packet, m: Mapping)
    requires Validate(m) && WellFormed(pkt) && Covers(m, TargetOf(pkt)) && pkt.nfproto == Family(SetOf(m.source))
    ensures pkt.nfproto == Family(WildcardSlot(m).id) && HitSlot(pkt, WildcardSlot(m).id) == WildcardSlot(m)
  {
    PortRoundTrip(m.source.port, DportBytes(pkt));
    Layout(m.protocol, m.source);
  }

  lemma QueuedFirstHit(t: Tables, pkt: Packet, id: SetId)
    requires WellFormed(pkt) && pkt.nfproto == Family(id) && IsWildcard(id) && Hit(t, pkt, id)
    ensures FirstHit(t, pkt, QUEUED_ORDER) == Some(id)
  {
    hide LookupKey;
  }

  lemma QueuedSecondHit(t: Tables, pkt: Packet, wild: SetId, id: SetId)
    requires WellFormed(pkt) && pkt.nfproto == Family(id) == Family(wild) && IsWildcard(wild)
    requires !Hit(t, pkt, wild) && Hit(t, pkt, id)
    ensures FirstHit(t, pkt, QUEUED_ORDER) == Some(id)
  {
    hide LookupKey;
  }

  /** The gateway after any run, also one in which closing groups lost their flushes. With the rules
      in their queued order a covered packet goes to its mapping's destination exactly when
      the wildcard map holds nothing for the mapping's family, protocol and port but, at most,
      that same destination. A packet that no enabled mapping covers passes exactly when no
      element left behind is kept under its keys. */
  lemma GatewayDespiteLeaks(o: Oracle, p: PlaneState, ops: seq<Op>, pkt: Packet, c: Cpu)
    requires Initial(p) && IsRun(o, p, ops) && WellFormed(pkt)
    ensures var q := Run(o, p, ops);
            var t, end := q.kernel.tables, ExecChain(q.kernel.tables, pkt, DNAT_RULES, c);
            && (forall m :: m in Live(q) && Covers(m, TargetOf(pkt)) ==>
                  (end == RewriteTo(m.destination) <==>
                   (WildcardSlot(m) in t ==> t[WildcardSlot(m)] == EncodeMapValue(m.destination))))
            && ((forall m :: m in Live(q) ==> !Covers(m, TargetOf(pkt))) ==>
                  (end.Next? <==>
                   forall id: SetId :: pkt.nfproto == Family(id) ==> !Leaked(t, Live(q), HitSlot(pkt, id))))
  {
    var q := Run(o, p, ops);
    RunCarries(o, p, ops);
    LiveConsistent(q);
    QueuedOrder();
    hide Run, Inv, Live, Carries, Covers, TargetOf, WildcardSlot, HitSlot, Leaked, RewriteTo, EncodeMapValue, ExecChain;
    hide Consistent, WellFormed;
    forall m | m in Live(q) && Covers(m, TargetOf(pkt))
      ensures ExecChain(q.kernel.tables, pkt, DNAT_RULES, c) == RewriteTo(m.destination) <==>
              (WildcardSlot(m) in q.kernel.tables ==> q.kernel.tables[WildcardSlot(m)] == EncodeMapValue(m.destination))
    {
      CoveredByQueue(q.kernel.tables, Live(q), pkt, c, m);
    }
    if forall m :: m in Live(q) ==> !Covers(m, TargetOf(pkt)) {
      StrayExactly(q.kernel.tables, Live(q), pkt, QUEUED_ORDER, c);
    }
  }

  lemma CoveredByQueue(t: Tables, live: iset<Mapping>, pkt: Packet, c: Cpu, m: Mapping)
    requires Carries(t, live) && Consistent(live) && WellFormed(pkt) && m in live && Covers(m, TargetOf(pkt))
    ensures ExecChain(t, pkt, RulesInOrder(QUEUED_ORDER), c) == RewriteTo(m.destination) <==>
            (WildcardSlot(m) in t ==> t[WildcardSlot(m)] == EncodeMapValue(m.destination))
  {
    QueuedOrder();
    MisroutedExactly(t, live, pkt, QUEUED_ORDER, c, m);
    CoveredHits(t, live, pkt, m);
    WildcardHit(t, pkt, m);
    var w := WildcardSlot(m);
    assert CompilesTo(m, SlotOf(m), t[SlotOf(m)]);
    hide Covers, TargetOf, EncodeMapValue, RewriteTo, CompileSetElement, LookupKey, Validate, ExecChain, RulesInOrder;
    if w in t {
      QueuedFirstHit(t, pkt, w.id);
      HitIsCoverOrLeak(t, live, pkt, w.id, m);
    } else {
      QueuedSecondHit(t, pkt, w.id, SetOf(m.source));
    }
  }

  // A run that misroutes

  /** One mapping in a group of its own, added and enabled on a plane without groups. */
  lemma EnableAlone(o: Oracle, p: PlaneState, m: Mapping)
    requires p.groups == map[] && !p.closed && Validate(m) && SlotOf(m) !in p.kernel.tables
    requires o(p.clock) == FlushOk && (m.timeout != 0 ==> o(p.clock + 1) == FlushOk)
    ensures var p1 := Step(o, p, OpNew("g"));
            var p2 := Step(o, p1, OpAdd("g", [m]));
            var p3 := Step(o, p2, OpEnable("g", [m]));
            && Legit(p, OpNew("g")) && Legit(p1, OpAdd("g", [m])) && Legit(p2, OpEnable("g", [m]))
            && "g" in p3.groups && Enumerates([m], p3.groups["g"]) && p3.groups["g"].enabled
            && p3.groups["g"].bySrc == map[SrcKey(m) := m] && p3.groups["g"].flow == EntryOf(m)
            && Owns(p3, "g", m) && p3.groups.Keys == {"g"}
            && !p3.closed && p3.clock == p.clock + (if m.timeout == 0 then 1 else 2)
            && p3.kernel.tables == p.kernel.tables[SlotOf(m) := EncodeMapValue(m.destination)]
  {
    var p2 := Step(o, Step(o, p, OpNew("g")), OpAdd("g", [m]));
    OneMapping(o, p, m);
    AddMsgsLast([m]);
    assert [m][..0] == [];
    assert AddMsgs([m]) == [AddElement(SlotOf(m), CompileSetElement(m).val)];
    hide Validate, Enumerates, SlotOf, EncodeMapValue, AddMappings;
    OneAdd(p2.kernel, SlotOf(m), CompileSetElement(m).val);
  }

  lemma OneAdd(k: KernelState, s: Slot, v: Bytes)
    requires s !in k.tables
    ensures ApplyAll(k, [AddElement(s, v)]) == Some(k.(tables := k.tables[s := v]))
  {
    assert [AddElement(s, v)][..0] == [];
  }

  /** A wildcard mapping whose group loses the flush of its close captures the packets of a
      specific mapping enabled afterwards. */
  lemma LeakMisroutes(o: Oracle, p: PlaneState, m: Mapping, x: Mapping, ops: seq<Op>, pkt: Packet, c: Cpu)
    requires Initial(p) && Validate(m) && Validate(x) && m.timeout == 0 && x.timeout == 0
    requires m.source.addr.IsUnspecified() && !x.source.addr.IsUnspecified() && m.destination != x.destination
    requires m.protocol == x.protocol && m.source.port == x.source.port && m.source.addr.Is4() == x.source.addr.Is4()
    requires o(p.clock) == FlushOk && o(p.clock + 1) == FlushFailed && o(p.clock + 2) == FlushOk
    requires ops == [OpNew("g"), OpAdd("g", [m]), OpEnable("g", [m]), OpClose("g", [m])]
                    + [OpNew("g")] + [OpAdd("g", [x])] + [OpEnable("g", [x])]
    requires WellFormed(pkt) && Covers(x, TargetOf(pkt))
    ensures IsRun(o, p, ops) && x in Live(Run(o, p, ops))
    ensures ExecChain(Run(o, p, ops).kernel.tables, pkt, DNAT_RULES, c) != RewriteTo(x.destination)
  {
    var four := [OpNew("g"), OpAdd("g", [m]), OpEnable("g", [m]), OpClose("g", [m])];
    var p4 := Run(o, p, four);
    hide Run, IsRun, Step, Legit, Validate, SlotOf, EncodeMapValue, WellFormed, Covers, TargetOf, Enumerates, Owns;
    hide WildcardSlot, HitSlot, Leaked, KernelAgrees, ExecChain, RewriteTo;
    LeakedPlane(o, p, m);
    FailedCloseLeaks(p, m, o, four);
    DifferentSlots(m, x);
    EnableAlone(o, p4, x);
    RunMore(o, p, four, OpNew("g"));
    RunMore(o, p, four + [OpNew("g")], OpAdd("g", [x]));
    RunMore(o, p, four + [OpNew("g")] + [OpAdd("g", [x])], OpEnable("g", [x]));
    GatewayDespiteLeaks(o, p, ops, pkt, c);
  }

  lemma DifferentSlots(m: Mapping, x: Mapping)
    requires Validate(m) && Validate(x) && m.source.addr.IsUnspecified() && !x.source.addr.IsUnspecified()
    requires m.protocol == x.protocol && m.source.port == x.source.port && m.source.addr.Is4() == x.source.addr.Is4()
    ensures SlotOf(x) != SlotOf(m) && SlotOf(m) == WildcardSlot(x)
    ensures m.destination != x.destination ==> EncodeMapValue(m.destination) != EncodeMapValue(x.destination)
  {
    hide EncodeMapValue;
    if EncodeMapValue(m.destination) == EncodeMapValue(x.destination) {
      MapValueInjective(m.destination, x.destination);
    }
  }

  lemma LeakedPlane(o: Oracle, p: PlaneState, m: Mapping)
    requires Initial(p) && Validate(m) && m.timeout == 0
    requires o(p.clock) == FlushOk && o(p.clock + 1) == FlushFailed
    ensures var q := Run(o, p, [OpNew("g"), OpAdd("g", [m]), OpEnable("g", [m]), OpClose("g", [m])]);
            && q.groups == map[] && !q.closed && q.clock == p.clock + 2
            && q.kernel.tables == map[SlotOf(m) := EncodeMapValue(m.destination)]
  {
    var p3 := Step(o, Step(o, Step(o, p, OpNew("g")), OpAdd("g", [m])), OpEnable("g", [m]));
    RunOfFour(o, p, OpNew("g"), OpAdd("g", [m]), OpEnable("g", [m]), OpClose("g", [m]));
    EnableAlone(o, p, m);
    hide Validate, SlotOf, EncodeMapValue, AddMappings, Switch, Enumerates, Owns;
    FailedClose(o, p3, "g", m);
    assert p3.groups - {"g"} == map[];
  }

  lemma FailedClose(o: Oracle, p: PlaneState, name: string, m: Mapping)
    requires name in p.groups && p.groups[name].enabled && p.groups[name].bySrc == map[SrcKey(m) := m]
    requires Validate(m) && o(p.clock) == FlushFailed
    ensures CloseGroup(o, p, name, [m]).plane == p.(groups := p.groups - {name}, clock := p.clock + 1)
  {
    hide Validate;
    var g := p.groups[name];
    assert [m][..0] == [] && FirstMissing(g, []).None?;
    assert FirstMissing(g, [m]).None?;
  }
}
