/** What each operation answers, and what it leaves alone, in terms of the caller's arguments. */
module PlaneAnswers {
  import opened Wrappers
  import opened Net
  import opened Mappings
  import opened Routing
  import opened Kernel
  import opened Plane
  import opened PlaneProofs
  import opened PlaneOps
  import opened PlaneRuns

  // Creating a group

  lemma NewGroupAnswers(p: PlaneState, name: string)
    ensures var r := NewGroup(p, name);
            && (r.err == Some(ErrClosed) <==> p.closed)
            && (r.err == Some(ErrGroupAlreadyRegistered) <==> !p.closed && name in p.groups)
            && (r.err.None? <==> !p.closed && name !in p.groups)
            && (r.err.Some? ==> r.plane == p)
            && (r.err.None? ==>
                  && r.plane == p.(groups := r.plane.groups)
                  && r.plane.groups.Keys == p.groups.Keys + {name}
                  && r.plane.groups[name] == GroupState(map[], map[], map[], false)
                  && forall n :: n in p.groups ==> r.plane.groups[n] == p.groups[n])
  {
  }

  // Adding

  /** The complaint about a batch is about its first mapping that is illegal or conflicts: with one before
      it in the batch, or with one of any registered group. */
  lemma {:induction false} FirstComplaint(p: PlaneState, ms: seq<Mapping>) returns (i: nat)
    requires Inv(p)
    ensures i <= |ms| && Addable(ms[..i], All(p))
    ensures FirstConflict(p, ms).None? <==> i == |ms|
    ensures i < |ms| ==>
              && !(Legal(ms[i]) && forall x :: x in ms[..i] || x in All(p) ==> !Overlaps(ms[i], x))
              && FirstConflict(p, ms) == Some(if Legal(ms[i]) then ErrOverlap else ErrInvalid)
  {
    if ms == [] {
      i := 0;
    } else {
      var init, m := ms[..|ms| - 1], ms[|ms| - 1];
      i := FirstComplaint(p, init);
      assert init[..i] == ms[..i];
      ValidateExactly(m);
      TakenMeaning(p, m);
      ScanAcceptsAddable(p, ms);
      assert ms[..|ms|] == ms;
      hide Inv, All, Legal, Validate, Overlaps, Taken, Addable;
      if i == |init| && FirstConflict(p, ms).None? {
        i := |ms|;
      }
    }
  }

  /** Every answer of `AddMappings` with its reason. */
  lemma AddAnswers(o: Oracle, p: PlaneState, name: string, ms: seq<Mapping>)
    requires Inv(p) && KernelAgrees(p)
    ensures var r := AddMappings(o, p, name, ms);
            && (r.err == Some(ErrClosed) <==> !IsOpen(p, name))
            && (IsOpen(p, name) && !Addable(ms, All(p)) ==> r.err.Some? && r.err == FirstConflict(p, ms))
            && (r.err.None? <==> IsOpen(p, name) && Addable(ms, All(p))
                                 && (ms != [] && p.groups[name].enabled ==> o(p.clock) == FlushOk))
            && (r.err == Some(ErrFlush) <==>
                  IsOpen(p, name) && Addable(ms, All(p)) && ms != [] && p.groups[name].enabled && o(p.clock) != FlushOk)
  {
    AddMappingsKeeps(o, p, name, ms);
    ScanAcceptsAddable(p, ms);
    ConflictErrors(p, ms);
    hide Inv, KernelAgrees, Addable, All, FirstConflict, TimeoutsSet, Contents;
  }

  lemma {:induction false} ConflictErrors(p: PlaneState, ms: seq<Mapping>)
    ensures FirstConflict(p, ms) in {None, Some(ErrInvalid), Some(ErrOverlap)}
    ensures ms == [] ==> FirstConflict(p, ms).None?
  {
    hide Validate, Overlaps, Taken;
    if ms == [] {
    } else {
      ConflictErrors(p, ms[..|ms| - 1]);
    }
  }

  /** One mapping, for an open disabled group of a dataplane without mappings: it is added exactly when it is
      legal, and refused as invalid otherwise. */
  lemma AddOneAnswers(o: Oracle, p: PlaneState, name: string, m: Mapping)
    requires Inv(p) && IsOpen(p, name) && !p.groups[name].enabled && All(p) == iset{}
    ensures var r := AddMappings(o, p, name, [m]);
            if Legal(m) then
              && r.err.None? && name in r.plane.groups && !r.plane.groups[name].enabled
              && r.plane.groups[name].bySrc == map[SrcKey(m) := m]
              && r.plane.groups[name].byDst == map[DstKey(m) := m]
            else r.err == Some(ErrInvalid) && r.plane == p
  {
    var i := FirstComplaint(p, [m]);
    hide Inv, Legal, Overlaps, Validate, Taken, FirstConflict, TimeoutsSet, All;
    assert [m][..0] == [];
    assert forall x :: x !in [m][..0];
    var g := p.groups[name];
    NoContents(p, name);
    assert IndexBySrc(g.bySrc, []) == g.bySrc && IndexByDst(g.byDst, []) == g.byDst;
    assert IndexBySrc(g.bySrc, [m]) == map[SrcKey(m) := m] && IndexByDst(g.byDst, [m]) == map[DstKey(m) := m];
  }

  lemma NoContents(p: PlaneState, name: string)
    requires Inv(p) && name in p.groups && All(p) == iset{}
    ensures p.groups[name].bySrc == map[] && p.groups[name].byDst == map[]
  {
    var g := p.groups[name];
    forall m ensures m in Contents(g) ==> m in All(p) {
      assert m in Contents(g) ==> Owns(p, name, m);
    }
    assert Contents(g) == iset{};
    NoMembers(g);
  }

  // Deleting

  /** The complaint about a batch to delete is about its first mapping that is illegal or that the group does
      not hold with this source and this destination. */
  lemma {:induction false} FirstMissingAt(g: GroupState, ms: seq<Mapping>) returns (i: nat)
    ensures i <= |ms| && forall j :: 0 <= j < i ==> Legal(ms[j]) && Holds(g, ms[j])
    ensures FirstMissing(g, ms).None? <==> i == |ms|
    ensures i < |ms| ==>
              && !(Legal(ms[i]) && Holds(g, ms[i]))
              && FirstMissing(g, ms) == Some(if Legal(ms[i]) then ErrNoSuchMapping else ErrInvalid)
  {
    if ms == [] {
      i := 0;
    } else {
      i := FirstMissingAt(g, ms[..|ms| - 1]);
      ValidateExactly(ms[|ms| - 1]);
      hide Legal, Validate, Holds;
      if i == |ms| - 1 && FirstMissing(g, ms).None? {
        i := |ms|;
      }
    }
  }

  /** Every answer of `DelMappings` with its reason. */
  lemma DeleteAnswers(o: Oracle, p: PlaneState, name: string, ms: seq<Mapping>)
    requires Inv(p) && KernelAgrees(p)
    ensures var r := DelMappings(o, p, name, ms);
            && (r.err == Some(ErrClosed) <==> !IsOpen(p, name))
            && (IsOpen(p, name) && FirstMissing(p.groups[name], ms).Some? ==>
                  r.err == FirstMissing(p.groups[name], ms))
            && (r.err.None? <==>
                  && IsOpen(p, name) && FirstMissing(p.groups[name], ms).None?
                  && (ms != [] && p.groups[name].enabled ==> DistinctSources(ms) && o(p.clock) == FlushOk))
            && (r.err == Some(ErrFlush) <==>
                  && IsOpen(p, name) && FirstMissing(p.groups[name], ms).None? && ms != [] && p.groups[name].enabled
                  && !(DistinctSources(ms) && o(p.clock) == FlushOk))
  {
    if IsOpen(p, name) {
      DeleteKeeps(o, p, name, ms);
      GroupConsistent(p, name);
      ScanAcceptsDeletable(p.groups[name], ms);
      MissingErrors(p.groups[name], ms);
    }
    hide Inv, KernelAgrees, Deletable, All, FirstMissing, TimeoutsDeleted, Contents, DistinctSources, Without;
  }

  lemma {:induction false} MissingErrors(g: GroupState, ms: seq<Mapping>)
    ensures FirstMissing(g, ms) in {None, Some(ErrInvalid), Some(ErrNoSuchMapping)}
    ensures ms == [] ==> FirstMissing(g, ms).None?
  {
    hide Validate, Holds;
    if ms == [] {
    } else {
      MissingErrors(g, ms[..|ms| - 1]);
    }
  }

  /** `ClearMappings` leaves the group without mappings, and with its switch as it was. */
  lemma ClearEmpties(o: Oracle, p: PlaneState, name: string, order: seq<Mapping>)
    requires Inv(p) && KernelAgrees(p) && IsOpen(p, name) && Enumerates(order, p.groups[name])
    ensures var r := DelMappings(o, p, name, order);
            && (r.err.None? <==> (order != [] && p.groups[name].enabled ==> o(p.clock) == FlushOk))
            && Step(o, p, OpClear(name, order)) == r.plane
            && (r.err.None? ==>
                  && name in r.plane.groups
                  && r.plane.groups[name].bySrc == map[] && r.plane.groups[name].byDst == map[]
                  && r.plane.groups[name].enabled == p.groups[name].enabled)
  {
    hide Inv, KernelAgrees, All, Live, Delete, Contents, Deletable, DistinctSources, Without, Enumerates, Indexed;
    var r := DelMappings(o, p, name, order);
    EnumerationBatch(p, name, order);
    DeleteKeeps(o, p, name, order);
    DeleteKeepsSwitch(o, p, name, order);
    if r.err.None? {
      EmptyContents(r.plane, name);
    }
  }

  lemma DeleteKeepsSwitch(o: Oracle, p: PlaneState, name: string, ms: seq<Mapping>)
    requires name in p.groups
    ensures var r := Delete(o, p, name, ms);
            name in r.plane.groups && r.plane.groups[name].enabled == p.groups[name].enabled
  {
    hide FirstMissing, TimeoutsDeleted, Submit;
  }

  lemma EmptyContents(p: PlaneState, name: string)
    requires Inv(p) && name in p.groups && Contents(p.groups[name]) == iset{}
    ensures p.groups[name].bySrc == map[] && p.groups[name].byDst == map[]
  {
    NoMembers(p.groups[name]);
  }

  lemma NoMembers(g: GroupState)
    requires Indexed(g) && Contents(g) == iset{}
    ensures g.bySrc == map[] && g.byDst == map[]
  {
    assert forall k :: k in g.bySrc ==> g.bySrc[k] in Contents(g);
    assert g.bySrc == map[];
    assert forall k :: k in g.byDst ==> SrcKey(g.byDst[k]) in g.bySrc;
  }

  // Switching and timeouts

  lemma SwitchAnswers(o: Oracle, p: PlaneState, name: string, order: seq<Mapping>, on: bool)
    requires Inv(p) && KernelAgrees(p) && (name in p.groups ==> Enumerates(order, p.groups[name]))
    ensures var r := Switch(o, p, name, order, on);
            && (r.err == Some(ErrClosed) <==> !IsOpen(p, name))
            && (r.err == Some(ErrFlush) <==>
                  IsOpen(p, name) && p.groups[name].enabled != on && order != [] && o(p.clock) != FlushOk)
            && (r.err.Some? ==> r.err.value in {ErrClosed, ErrFlush})
            && (r.err.None? ==> IsOpen(p, name) && name in r.plane.groups
                                && r.plane.groups[name] == p.groups[name].(enabled := on))
  {
    SwitchKeeps(o, p, name, order, on);
    hide Inv, KernelAgrees, All, Enumerates;
  }

  /** An entry is gone after its deletion exactly when there was none or the flush did not fail; that the
      kernel has no such object is no failure. */
  lemma TimeoutDeletedExactly(o: Oracle, flow: map<DnatKey, TTL>, clock: nat, key: DnatKey)
    ensures var r := TimeoutDeleted(o, flow, clock, key);
            && (r.ok <==> key !in flow || o(clock) == FlushOk || o(clock) == FlushNoEnt)
            && (r.ok <==> key !in r.flow)
            && (r.clock == clock <==> key !in flow)
            && (forall k :: k != key ==> (k in r.flow <==> k in flow) && (k in flow ==> r.flow[k] == flow[k]))
            && (!r.ok ==> r.flow == flow)
  {
  }

  /** `SetTimeout` answers by the reason, and otherwise the mapping has the new timeout. */
  lemma SetTimeoutAnswers(o: Oracle, p: PlaneState, name: string, key: DnatKey, ttl: TTL)
    requires Inv(p)
    ensures var r := SetTimeout(o, p, name, key, ttl);
            && (r.err == Some(ErrClosed) <==> !IsOpen(p, name))
            && (r.err.Some? ==> r.err.value in {ErrClosed, ErrNoSuchMapping, ErrFlush})
            && (r.err == Some(ErrNoSuchMapping) <==> IsOpen(p, name) && key !in p.groups[name].bySrc)
            && (r.err == Some(ErrFlush) <==>
                  && IsOpen(p, name) && key in p.groups[name].bySrc && p.groups[name].bySrc[key].timeout != ttl
                  && if ttl == 0 then key in p.groups[name].flow && o(p.clock) == FlushFailed
                     else o(p.clock) != FlushOk)
            && (r.err.None? ==>
                  && name in r.plane.groups && key in r.plane.groups[name].bySrc
                  && r.plane.groups[name].bySrc[key] == p.groups[name].bySrc[key].(timeout := ttl))
  {
    hide Inv;
  }

  // Other groups

  /** An operation on one group changes nothing of any other, and neither closes nor opens the dataplane. */
  lemma OthersUntouched(o: Oracle, p: PlaneState, name: string, op: Op)
    requires op.OpAdd? || op.OpDel? || op.OpClear? || op.OpEnable? || op.OpDisable? || op.OpSetTimeout? || op.OpNew?
             || op.OpClose?
    requires op.name == name
    ensures var q := Step(o, p, op);
            && q.groups - {name} == p.groups - {name}
            && q.closed == p.closed
            && (!op.OpNew? && !op.OpClose? ==> q.groups.Keys == p.groups.Keys)
  {
    hide Submit, FirstConflict, FirstMissing, TimeoutsSet, TimeoutsDeleted, TimeoutSet, IndexBySrc, IndexByDst;
  }

  // Steps of a run

  /** What each step of a run achieves when its flush is answered well. */
  lemma StepAchieves(o: Oracle, p: PlaneState, op: Op)
    requires Inv(p) && KernelAgrees(p) && Legit(p, op) && o(p.clock) == FlushOk
    ensures var q := Step(o, p, op);
            match op
            case OpNew(n) => !p.closed ==> n in q.groups
            case OpAdd(n, ms) => IsOpen(p, n) && Addable(ms, All(p)) ==> All(q) == All(p) + Batch(ms)
            case OpDel(n, ms) =>
              IsOpen(p, n) && Deletable(ms, Contents(p.groups[n])) && DistinctSources(ms) ==>
                All(q) == Without(All(p), ms)
            case OpClear(n, order) => IsOpen(p, n) ==> n in q.groups && Contents(q.groups[n]) == iset{}
            case OpEnable(n, order) => IsOpen(p, n) ==> n in q.groups && q.groups[n].enabled
            case OpDisable(n, order) => IsOpen(p, n) ==> n in q.groups && !q.groups[n].enabled
            case OpSetTimeout(n, key, ttl) =>
              IsOpen(p, n) && key in p.groups[n].bySrc ==>
                n in q.groups && key in q.groups[n].bySrc && q.groups[n].bySrc[key].timeout == ttl
            case OpClose(n, order) => n !in q.groups && q.closed == p.closed
            case OpClosePlane(plan) => q.closed && (!p.closed ==> q.groups == map[])
  {
    hide Inv, KernelAgrees, All, Live, Contents, Without, Addable, Deletable, DistinctSources, Enumerates, IsPlan;
    hide AddMappings, Delete, Switch, SetTimeout, CloseGroup, ClosePlane;
    match op
    case OpNew(n) =>
    case OpAdd(n, ms) => AddMappingsKeeps(o, p, n, ms);
    case OpDel(n, ms) => if IsOpen(p, n) { DeleteKeeps(o, p, n, ms); }
    case OpClear(n, order) => if IsOpen(p, n) { ClearedStep(o, p, n, order); }
    case OpEnable(n, order) => SwitchKeeps(o, p, n, order, true);
    case OpDisable(n, order) => SwitchKeeps(o, p, n, order, false);
    case OpSetTimeout(n, key, ttl) => SetTimeoutAnswers(o, p, n, key, ttl);
    case OpClose(n, order) => CloseGroupKeeps(o, p, n, order);
    case OpClosePlane(plan) => ClosePlaneKeeps(o, p, plan);
  }

  lemma ClearedStep(o: Oracle, p: PlaneState, name: string, order: seq<Mapping>)
    requires Inv(p) && KernelAgrees(p) && IsOpen(p, name) && Enumerates(order, p.groups[name])
    requires o(p.clock) == FlushOk
    ensures var q := DelMappings(o, p, name, order).plane; name in q.groups && Contents(q.groups[name]) == iset{}
  {
    hide Inv, KernelAgrees, Enumerates, DelMappings;
    ClearEmpties(o, p, name, order);
    assert forall m :: m !in Contents(DelMappings(o, p, name, order).plane.groups[name]);
  }
}
