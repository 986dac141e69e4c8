/** One operation at a time: what it keeps, exactly when it succeeds, and what it changes. */
module PlaneOps {
  import opened Wrappers
  import opened Net
  import opened Mappings
  import opened Encoding
  import opened Rules
  import opened Routing
  import opened Kernel
  import opened Plane
  import opened PlaneProofs

  /** Nothing but the flush count differs. */
  predicate SameButClock(p: PlaneState, q: PlaneState) {
    q.(clock := p.clock) == p
  }

  /** `order` lists the mappings of a group, each once, in some order. */
  ghost predicate Enumerates(order: seq<Mapping>, g: GroupState) {
    && Batch(order) == Contents(g)
    && (forall i, j :: 0 <= i < j < |order| ==> order[i] != order[j])
  }

  /** Replacing one group's contents by others that conflict with nothing outside it. */
  lemma ReplaceGroup(p: PlaneState, name: string, g': GroupState, q: PlaneState)
    requires Inv(p) && name in p.groups && q.groups == p.groups[name := g']
    requires Indexed(g') && Consistent(Contents(g'))
    requires forall m, x :: m in Contents(g') && x in All(p) && x !in Contents(p.groups[name]) ==> !Overlaps(m, x)
    ensures Inv(q)
    ensures All(q) == (All(p) - Contents(p.groups[name])) + Contents(g')
    ensures Live(q) == (Live(p) - Contents(p.groups[name])) + if g'.enabled then Contents(g') else iset{}
  {
    hide Validate, Indexed;
    var g := p.groups[name];
    forall n, m ensures Owns(q, n, m) <==> if n == name then m in Contents(g') else Owns(p, n, m) {
    }
    forall n, m | Owns(p, n, m) && n != name ensures m in All(p) && m !in Contents(g) && m !in Contents(g') {
      assert Registered(p, m);
      assert m in Contents(g) ==> Owns(p, name, m);
      assert Overlaps(m, m);
    }
    forall m ensures m in All(q) <==> m in (All(p) - Contents(g)) + Contents(g') {
      assert m in Contents(g') ==> Owns(q, name, m);
      if m in All(p) - Contents(g) {
        var n :| Owns(p, n, m);
        assert Owns(q, n, m);
      }
    }
    forall m ensures m in Live(q) <==> m in (Live(p) - Contents(g)) + if g'.enabled then Contents(g') else iset{} {
      assert m in Contents(g') ==> Owns(q, name, m);
      if m in Live(p) - Contents(g) {
        var n :| Owns(p, n, m) && p.groups[n].enabled;
        assert Owns(q, n, m);
      }
    }
    forall m, x | m in All(q) && x in All(q) && m != x ensures !Overlaps(m, x) {
      OverlapsSymmetric(m, x);
    }
  }

  /** One group of a plane: indexed, consistent, and in no conflict with the others. */
  lemma GroupConsistent(p: PlaneState, name: string)
    requires Inv(p) && name in p.groups
    ensures Indexed(p.groups[name])
    ensures forall m, x :: m in Contents(p.groups[name]) && x in All(p) && x !in Contents(p.groups[name]) ==>
              !Overlaps(m, x)
    ensures Contents(p.groups[name]) <= All(p) && Consistent(Contents(p.groups[name]))
    ensures p.groups[name].enabled ==> Contents(p.groups[name]) <= Live(p)
    ensures !p.groups[name].enabled ==> Contents(p.groups[name]) !! Live(p)
    ensures Live(p) <= All(p) && Consistent(Live(p))
  {
    hide Validate, Overlaps, Indexed;
    forall m | m in Contents(p.groups[name]) ensures m in All(p) {
      assert Owns(p, name, m);
    }
    forall m | m in Contents(p.groups[name]) && p.groups[name].enabled ensures m in Live(p) {
      assert Owns(p, name, m);
    }
    forall m | m in Live(p) ensures m in All(p) && (m in Contents(p.groups[name]) ==> p.groups[name].enabled) {
      var n :| Owns(p, n, m) && p.groups[n].enabled;
      assert m in Contents(p.groups[name]) ==> Owns(p, name, m);
    }
  }

  /** A submitted batch either changes the kernel as a whole or leaves the plane as it was. */
  lemma SubmitMeaning(o: Oracle, p: PlaneState, ms: seq<Mapping>, msgs: seq<Msg>)
    requires ms != []
    ensures var r := Submit(o, p, ms, msgs);
            if o(p.clock) == FlushOk && ApplyAll(p.kernel, msgs).Some?
            then r == Result(p.(kernel := ApplyAll(p.kernel, msgs).value, clock := p.clock + 1), None)
            else r.err == Some(ErrFlush) && r.plane == p.(clock := p.clock + 1)
  {
  }

  lemma NewGroupKeeps(p: PlaneState, name: string)
    requires Inv(p)
    ensures var r := NewGroup(p, name);
            && Inv(r.plane) && (r.err.Some? ==> r.plane == p)
            && All(r.plane) == All(p) && Live(r.plane) == Live(p)
  {
    hide Validate, Overlaps;
    var q := NewGroup(p, name).plane;
    if NewGroup(p, name).err.None? {
      assert Contents(EMPTY_GROUP) == iset{};
      forall n, m ensures Owns(q, n, m) <==> Owns(p, n, m) {
      }
      assert All(q) == All(p);
      assert Live(q) == Live(p);
    }
  }

  lemma SameGroups(p: PlaneState, q: PlaneState)
    requires q.groups == p.groups
    ensures Inv(q) == Inv(p) && All(q) == All(p) && Live(q) == Live(p)
  {
    hide Validate, Overlaps, Indexed, Contents;
    forall n, m ensures Owns(q, n, m) == Owns(p, n, m) {
    }
    assert All(q) == All(p);
    assert Live(q) == Live(p);
  }

  /** `AddMappings` is all or nothing, and with a kernel that agrees it succeeds exactly
      when the batch is addable and its flush, if one is needed, is answered well. */
  lemma AddMappingsKeeps(o: Oracle, p: PlaneState, name: string, ms: seq<Mapping>)
    requires Inv(p)
    ensures var r := AddMappings(o, p, name, ms);
            && Inv(r.plane)
            && (r.err.Some? ==> SameButClock(p, r.plane))
            && (r.err.None? ==> All(r.plane) == All(p) + Batch(ms) && name in r.plane.groups && name in p.groups
                                && Contents(r.plane.groups[name]) == Contents(p.groups[name]) + Batch(ms))
            && r.plane.kernel.chain == p.kernel.chain
    ensures KernelAgrees(p) ==>
            var r := AddMappings(o, p, name, ms);
            && KernelAgrees(r.plane)
            && (IsOpen(p, name) ==>
                  (r.err.None? <==> Addable(ms, All(p))
                                    && (ms != [] && p.groups[name].enabled ==> o(p.clock) == FlushOk)))
  {
    ScanAcceptsAddable(p, ms);
    if IsOpen(p, name) && ms == [] {
      assert All(p) + Batch(ms) == All(p);
      assert Contents(p.groups[name]) + Batch(ms) == Contents(p.groups[name]);
    } else if IsOpen(p, name) && FirstConflict(p, ms).None? {
      AddCheckedKeeps(o, p, name, ms);
    }
  }

  lemma AddCheckedKeeps(o: Oracle, p: PlaneState, name: string, ms: seq<Mapping>)
    requires Inv(p) && IsOpen(p, name) && ms != [] && FirstConflict(p, ms).None? && Addable(ms, All(p))
    ensures var r := AddMappings(o, p, name, ms);
            && Inv(r.plane)
            && (r.err.Some? ==> SameButClock(p, r.plane))
            && (r.err.None? ==> All(r.plane) == All(p) + Batch(ms) && name in r.plane.groups
                                && Contents(r.plane.groups[name]) == Contents(p.groups[name]) + Batch(ms))
            && r.plane.kernel.chain == p.kernel.chain
            && (KernelAgrees(p) ==>
                  && KernelAgrees(r.plane)
                  && (r.err.None? <==> (p.groups[name].enabled ==> o(p.clock) == FlushOk)))
  {
    hide Validate, Overlaps, Indexed, Implements, FirstConflict, Consistent, Addable, Inv, Live, All;
    hide TimeoutsSet, IndexBySrc, IndexByDst, Contents;
    var r := AddMappings(o, p, name, ms);
    var g := p.groups[name];
    if g.enabled {
      SubmitMeaning(o, p, ms, AddMsgs(ms));
      KeepsChain(p.kernel, ms);
      if KernelAgrees(p) {
        LiveAddable(p, ms);
        KernelAdds(p.kernel, Live(p), ms);
      }
    }
    if r.err.Some? {
      SameGroups(p, r.plane);
    } else {
      AddedGroup(p, name, ms, r.plane.groups[name], r.plane);
    }
  }

  lemma LiveAddable(p: PlaneState, ms: seq<Mapping>)
    requires Inv(p) && Addable(ms, All(p))
    ensures Addable(ms, Live(p)) && Consistent(Live(p))
  {
    hide Validate, Overlaps, Indexed;
    assert Live(p) <= All(p);
  }

  lemma {:induction false} KeepsChain(k: KernelState, ms: seq<Mapping>)
    ensures ApplyAll(k, AddMsgs(ms)).Some? ==> ApplyAll(k, AddMsgs(ms)).value.chain == k.chain
    ensures ApplyAll(k, DelMsgs(ms)).Some? ==> ApplyAll(k, DelMsgs(ms)).value.chain == k.chain
  {
    hide SlotOf, CompileSetElement;
    if ms == [] {
    } else {
      var init, m := ms[..|ms| - 1], ms[|ms| - 1];
      KeepsChain(k, init);
      if m.source.addr.IsValid() {
        var add, del := AddElement(SlotOf(m), CompileSetElement(m).val), DelElement(SlotOf(m));
        assert AddMsgs(ms) == AddMsgs(init) + [add];
        assert DelMsgs(ms) == DelMsgs(init) + [del];
        ApplyAllLast(k, AddMsgs(init), add);
        ApplyAllLast(k, DelMsgs(init), del);
      } else {
        assert AddMsgs(ms) == AddMsgs(init);
        assert DelMsgs(ms) == DelMsgs(init);
      }
    }
  }

  lemma AddedGroup(p: PlaneState, name: string, ms: seq<Mapping>, g': GroupState, q: PlaneState)
    requires Inv(p) && name in p.groups && Addable(ms, All(p))
    requires g'.bySrc == IndexBySrc(p.groups[name].bySrc, ms) && g'.byDst == IndexByDst(p.groups[name].byDst, ms)
    requires q.groups == p.groups[name := g']
    ensures Inv(q) && Contents(g') == Contents(p.groups[name]) + Batch(ms)
    ensures All(q) == All(p) + Batch(ms)
    ensures g'.enabled == p.groups[name].enabled ==>
              Live(q) == if g'.enabled then Live(p) + Batch(ms) else Live(p)
  {
    hide Validate, Overlaps, Indexed, IndexBySrc, IndexByDst;
    var g := p.groups[name];
    GroupConsistent(p, name);
    IndexedAdd(g, ms, g');
    AddableConsistent(ms, All(p));
    assert Consistent(Contents(g'));
    forall m, x | m in Contents(g') && x in All(p) && x !in Contents(g) ensures !Overlaps(m, x) {
      assert m != x;
    }
    ReplaceGroup(p, name, g', q);
    assert (All(p) - Contents(g)) + (Contents(g) + Batch(ms)) == All(p) + Batch(ms);
    assert (Live(p) - Contents(g)) + (if g.enabled then Contents(g) + Batch(ms) else iset{})
        == if g.enabled then Live(p) + Batch(ms) else Live(p);
  }

  // Deletion

  /** A source used in one group is used in no other. */
  lemma WithoutOneGroup(p: PlaneState, name: string, ms: seq<Mapping>)
    requires Inv(p) && name in p.groups && Deletable(ms, Contents(p.groups[name]))
    ensures Without(All(p), ms) == (All(p) - Contents(p.groups[name])) + Without(Contents(p.groups[name]), ms)
    ensures Without(Live(p), ms) == (Live(p) - Contents(p.groups[name]))
                                    + if p.groups[name].enabled then Without(Contents(p.groups[name]), ms) else iset{}
  {
    var g := p.groups[name];
    GroupConsistent(p, name);
    forall y | y in All(p) && y !in Contents(g) ensures SrcKey(y) !in SrcKeys(ms) {
      forall m | m in ms ensures SrcKey(m) != SrcKey(y) {
        var x :| x in Contents(g) && SrcKey(x) == SrcKey(m) && DstKey(x) == DstKey(m);
        assert x in All(p) && !Overlaps(x, y);
      }
    }
    hide Validate, Overlaps, Indexed, Inv, All, Live;
    forall y ensures y in Without(All(p), ms) <==> y in (All(p) - Contents(g)) + Without(Contents(g), ms) {
    }
    forall y ensures y in Without(Live(p), ms) <==>
      y in (Live(p) - Contents(g)) + if g.enabled then Without(Contents(g), ms) else iset{} {
    }
  }

  lemma DeletedGroup(p: PlaneState, name: string, ms: seq<Mapping>, g': GroupState, q: PlaneState)
    requires Inv(p) && name in p.groups && Deletable(ms, Contents(p.groups[name]))
    requires g'.bySrc == p.groups[name].bySrc - SrcKeys(ms) && g'.byDst == p.groups[name].byDst - DstKeys(ms)
    requires g'.enabled == p.groups[name].enabled && q.groups == p.groups[name := g']
    ensures Inv(q) && Contents(g') == Without(Contents(p.groups[name]), ms)
    ensures All(q) == Without(All(p), ms)
    ensures Live(q) == Without(Live(p), ms)
  {
    var g := p.groups[name];
    GroupConsistent(p, name);
    IndexedDel(g, ms, g');
    hide Validate, Overlaps, Indexed;
    WithoutOneGroup(p, name, ms);
    assert Contents(g') <= Contents(g);
    ReplaceGroup(p, name, g', q);
  }

  lemma LiveDeletable(p: PlaneState, name: string, ms: seq<Mapping>)
    requires Inv(p) && name in p.groups && p.groups[name].enabled && Deletable(ms, Contents(p.groups[name]))
    ensures Deletable(ms, Live(p)) && Consistent(Live(p))
  {
    hide Validate, Overlaps, Indexed;
    GroupConsistent(p, name);
    forall m | m in ms ensures exists x :: x in Live(p) && SrcKey(x) == SrcKey(m) && DstKey(x) == DstKey(m) {
      var x :| x in Contents(p.groups[name]) && SrcKey(x) == SrcKey(m) && DstKey(x) == DstKey(m);
      assert x in Live(p);
    }
  }

  /** Deletion is all or nothing. With a kernel that agrees, it succeeds exactly when
      the group holds every source with its destination and, if the group is enabled,
      no source is named twice and the flush is answered well. */
  lemma DeleteKeeps(o: Oracle, p: PlaneState, name: string, ms: seq<Mapping>)
    requires Inv(p) && name in p.groups
    ensures var r := Delete(o, p, name, ms);
            && Inv(r.plane)
            && (r.err.Some? ==> SameButClock(p, r.plane))
            && (r.err.None? ==> All(r.plane) == Without(All(p), ms) && name in r.plane.groups
                                && Contents(r.plane.groups[name]) == Without(Contents(p.groups[name]), ms))
            && r.plane.groups - {name} == p.groups - {name}
            && r.plane.kernel.chain == p.kernel.chain && r.plane.closed == p.closed
    ensures KernelAgrees(p) ==>
            var r := Delete(o, p, name, ms);
            && KernelAgrees(r.plane)
            && (r.err.None? <==> Deletable(ms, Contents(p.groups[name]))
                                 && (ms != [] && p.groups[name].enabled ==>
                                       DistinctSources(ms) && o(p.clock) == FlushOk))
  {
    ScanAcceptsDeletable(p.groups[name], ms);
    if ms == [] {
      assert Without(All(p), ms) == All(p);
      assert Without(Contents(p.groups[name]), ms) == Contents(p.groups[name]);
    } else if FirstMissing(p.groups[name], ms).None? {
      DeleteCheckedKeeps(o, p, name, ms);
    }
  }

  lemma DeleteCheckedKeeps(o: Oracle, p: PlaneState, name: string, ms: seq<Mapping>)
    requires Inv(p) && name in p.groups && ms != []
    requires FirstMissing(p.groups[name], ms).None? && Deletable(ms, Contents(p.groups[name]))
    ensures var r := Delete(o, p, name, ms);
            && Inv(r.plane)
            && (r.err.Some? ==> SameButClock(p, r.plane))
            && (r.err.None? ==> All(r.plane) == Without(All(p), ms) && name in r.plane.groups
                                && Contents(r.plane.groups[name]) == Without(Contents(p.groups[name]), ms))
            && r.plane.groups - {name} == p.groups - {name}
            && r.plane.kernel.chain == p.kernel.chain && r.plane.closed == p.closed
            && (KernelAgrees(p) ==>
                  && KernelAgrees(r.plane)
                  && (r.err.None? <==> (p.groups[name].enabled ==> DistinctSources(ms) && o(p.clock) == FlushOk)))
  {
    hide Validate, Overlaps, Indexed, Implements, FirstMissing, Consistent, Deletable, Inv, Live, All;
    hide TimeoutsDeleted, Contents, Without, DistinctSources;
    var r := Delete(o, p, name, ms);
    var g := p.groups[name];
    if g.enabled {
      SubmitMeaning(o, p, ms, DelMsgs(ms));
      KeepsChain(p.kernel, ms);
      if KernelAgrees(p) {
        LiveDeletable(p, name, ms);
        KernelDeletes(p.kernel, Live(p), ms);
      }
    }
    if r.err.Some? {
      SameGroups(p, r.plane);
    } else {
      if !g.enabled && KernelAgrees(p) {
        DisabledUnaffected(p, name, ms);
      }
      DeletedGroup(p, name, ms, r.plane.groups[name], r.plane);
    }
  }

  lemma DisabledUnaffected(p: PlaneState, name: string, ms: seq<Mapping>)
    requires Inv(p) && name in p.groups && !p.groups[name].enabled && Deletable(ms, Contents(p.groups[name]))
    ensures Without(Live(p), ms) == Live(p)
  {
    WithoutOneGroup(p, name, ms);
    GroupConsistent(p, name);
  }

  // Switching a group on and off

  /** All mappings of a group, in any order, make an addable and a deletable batch. */
  lemma EnumerationBatch(p: PlaneState, name: string, order: seq<Mapping>)
    requires Inv(p) && name in p.groups && Enumerates(order, p.groups[name])
    ensures !p.groups[name].enabled ==> Addable(order, Live(p))
    ensures Deletable(order, Contents(p.groups[name])) && DistinctSources(order)
    ensures Without(Contents(p.groups[name]), order) == iset{}
  {
    var g := p.groups[name];
    GroupConsistent(p, name);
    assert forall m :: m in order <==> m in Batch(order);
    forall i, j | 0 <= i < j < |order| ensures !Overlaps(order[j], order[i]) && SrcKey(order[i]) != SrcKey(order[j]) {
      assert order[i] in order && order[j] in order;
      assert order[i] in All(p) && order[j] in All(p) && !Overlaps(order[j], order[i]);
    }
    forall m | m in Contents(g) ensures SrcKey(m) in SrcKeys(order) {
      assert m in Batch(order);
    }
  }

  /** `Enable` and `Disable` are all or nothing, and with a kernel that agrees they succeed
      exactly when no flush is needed or it is answered well. */
  lemma SwitchKeeps(o: Oracle, p: PlaneState, name: string, order: seq<Mapping>, on: bool)
    requires Inv(p) && (name in p.groups ==> Enumerates(order, p.groups[name]))
    ensures var r := Switch(o, p, name, order, on);
            && Inv(r.plane)
            && (r.err.Some? ==> SameButClock(p, r.plane))
            && (r.err.None? ==> name in r.plane.groups && r.plane.groups[name].enabled == on)
            && All(r.plane) == All(p)
            && r.plane.kernel.chain == p.kernel.chain
    ensures KernelAgrees(p) ==>
            var r := Switch(o, p, name, order, on);
            && KernelAgrees(r.plane)
            && (IsOpen(p, name) ==>
                  (r.err.None? <==> p.groups[name].enabled == on || order == [] || o(p.clock) == FlushOk))
  {
    if IsOpen(p, name) && p.groups[name].enabled != on {
      hide Validate, Overlaps, Indexed, Implements, Consistent, Deletable, Addable, Inv, Live, All;
      hide Contents, Without, DistinctSources, Enumerates;
      var r := Switch(o, p, name, order, on);
      EnumerationBatch(p, name, order);
      if order != [] {
        SubmitMeaning(o, p, order, if on then AddMsgs(order) else DelMsgs(order));
        KeepsChain(p.kernel, order);
        if KernelAgrees(p) {
          GroupConsistent(p, name);
          if on {
            KernelAdds(p.kernel, Live(p), order);
          } else {
            LiveDeletable(p, name, order);
            KernelDeletes(p.kernel, Live(p), order);
          }
        }
      }
      if r.err.Some? {
        SameGroups(p, r.plane);
      } else {
        SwitchedGroup(p, name, order, on, r.plane);
      }
    }
  }

  lemma SwitchedGroup(p: PlaneState, name: string, order: seq<Mapping>, on: bool, q: PlaneState)
    requires Inv(p) && name in p.groups && Enumerates(order, p.groups[name]) && p.groups[name].enabled != on
    requires q.groups == p.groups[name := p.groups[name].(enabled := on)]
    ensures Inv(q) && All(q) == All(p)
    ensures Live(q) == if on then Live(p) + Batch(order) else Without(Live(p), order)
    ensures order == [] ==> Live(q) == Live(p)
  {
    hide Validate, Overlaps, Indexed, Inv, All, Live, Contents, Without;
    var g := p.groups[name];
    GroupConsistent(p, name);
    EnumerationBatch(p, name, order);
    WithoutOneGroup(p, name, order);
    SwitchedContents(g, on);
    ReplaceGroup(p, name, g.(enabled := on), q);
    assert (All(p) - Contents(g)) + Contents(g) == All(p);
    if on {
      assert (Live(p) - Contents(g)) + Contents(g) == Live(p) + Batch(order);
    }
    if order == [] {
      assert Contents(g) == iset{};
    }
  }

  lemma SwitchedContents(g: GroupState, on: bool)
    ensures Contents(g.(enabled := on)) == Contents(g) && Indexed(g.(enabled := on)) == Indexed(g)
  {
  }

  // Changing a timeout

  lemma TimeoutIrrelevant(m: Mapping, ttl: TTL, x: Mapping)
    ensures Validate(m.(timeout := ttl)) == Validate(m)
    ensures Overlaps(m.(timeout := ttl), x) == Overlaps(m, x) && Overlaps(x, m.(timeout := ttl)) == Overlaps(x, m)
    ensures SlotOf(m.(timeout := ttl)) == SlotOf(m)
    ensures SrcKey(m.(timeout := ttl)) == SrcKey(m) && DstKey(m.(timeout := ttl)) == DstKey(m)
  {
  }

  ghost function Retimed(ms: iset<Mapping>, m: Mapping, ttl: TTL): iset<Mapping> {
    (ms - iset{m}) + iset{m.(timeout := ttl)}
  }

  lemma ImplementsRetimed(t: Tables, live: iset<Mapping>, m: Mapping, ttl: TTL)
    requires Implements(t, live) && m in live
    ensures Implements(t, Retimed(live, m, ttl))
  {
    TimeoutIrrelevant(m, ttl, m);
    hide SlotOf;
    forall s | s in t ensures exists x :: x in Retimed(live, m, ttl) && SlotOf(x) == s {
      var x :| x in live && SlotOf(x) == s;
      assert x in Retimed(live, m, ttl) || x == m;
      assert m.(timeout := ttl) in Retimed(live, m, ttl);
    }
  }

  lemma RetimedGroup(g: GroupState, key: DnatKey, ttl: TTL, g': GroupState)
    requires Indexed(g) && Consistent(Contents(g)) && key in g.bySrc && g.bySrc[key].timeout != ttl
    requires var m := g.bySrc[key].(timeout := ttl);
             g'.bySrc == g.bySrc[key := m] && g'.byDst == g.byDst[DstKey(m) := m]
    ensures Indexed(g') && Contents(g') == Retimed(Contents(g), g.bySrc[key], ttl)
    ensures Consistent(Contents(g')) && g.bySrc[key] in Contents(g)
  {
    var m := g.bySrc[key];
    RetimedIndex(g, key, ttl, g');
    forall x ensures x in Contents(g') <==> x in Retimed(Contents(g), m, ttl) {
    }
    hide Indexed;
    forall x | x in Contents(g') ensures Validate(x) {
      TimeoutIrrelevant(m, ttl, x);
    }
    hide Validate, Overlaps;
    forall x, y | x in Contents(g') && y in Contents(g') && x != y ensures !Overlaps(x, y) {
      TimeoutIrrelevant(m, ttl, x);
      TimeoutIrrelevant(m, ttl, y);
      assert m in Contents(g);
    }
  }

  lemma RetimedIndex(g: GroupState, key: DnatKey, ttl: TTL, g': GroupState)
    requires Indexed(g) && key in g.bySrc
    requires var m := g.bySrc[key].(timeout := ttl);
             g'.bySrc == g.bySrc[key := m] && g'.byDst == g.byDst[DstKey(m) := m]
    ensures Indexed(g')
  {
  }

  /** `SetTimeout` changes at most the timeout of the one mapping it names, and
      keeps the kernel maps whatever its flush is answered. */
  lemma SetTimeoutKeeps(o: Oracle, p: PlaneState, name: string, key: DnatKey, ttl: TTL)
    requires Inv(p)
    ensures var r := SetTimeout(o, p, name, key, ttl);
            && Inv(r.plane)
            && (r.err.Some? ==> All(r.plane) == All(p))
            && (r.err.None? ==> IsOpen(p, name) && key in p.groups[name].bySrc &&
                                All(r.plane) == Retimed(All(p), p.groups[name].bySrc[key], ttl))
            && r.plane.kernel == p.kernel
            && (KernelAgrees(p) ==> KernelAgrees(r.plane))
  {
    hide Validate, Overlaps, Implements, Inv, All, Live;
    var r := SetTimeout(o, p, name, key, ttl);
    if IsOpen(p, name) && key in p.groups[name].bySrc {
      var g := p.groups[name];
      var m := g.bySrc[key];
      GroupConsistent(p, name);
      assert m in Contents(g);
      assert m.timeout == ttl ==> Retimed(All(p), m, ttl) == All(p) by {
        assert m.timeout == ttl ==> m.(timeout := ttl) == m;
      }
      if m.timeout != ttl {
        if r.err.Some? {
          OtherFlow(p, name, r.plane);
        } else {
          RetimedPlane(p, name, key, ttl, r.plane);
        }
      }
    }
  }

  lemma OtherFlow(p: PlaneState, name: string, q: PlaneState)
    requires Inv(p) && name in p.groups && name in q.groups
    requires q.groups == p.groups[name := p.groups[name].(flow := q.groups[name].flow)]
    ensures Inv(q) && All(q) == All(p) && Live(q) == Live(p)
  {
    hide Validate, Overlaps;
    GroupConsistent(p, name);
    var g := p.groups[name];
    assert Contents(q.groups[name]) == Contents(g) && Indexed(q.groups[name]);
    hide Indexed, Inv, All, Live, Contents;
    ReplaceGroup(p, name, q.groups[name], q);
    assert (All(p) - Contents(g)) + Contents(g) == All(p);
    assert (Live(p) - Contents(g)) + (if g.enabled then Contents(g) else iset{}) == Live(p);
  }

  lemma RetimedPlane(p: PlaneState, name: string, key: DnatKey, ttl: TTL, q: PlaneState)
    requires Inv(p) && name in p.groups && key in p.groups[name].bySrc && p.groups[name].bySrc[key].timeout != ttl
    requires var m := p.groups[name].bySrc[key].(timeout := ttl);
             && name in q.groups && q.groups == p.groups[name := q.groups[name]]
             && q.groups[name].bySrc == p.groups[name].bySrc[key := m]
             && q.groups[name].byDst == p.groups[name].byDst[DstKey(m) := m]
             && q.groups[name].enabled == p.groups[name].enabled
    requires q.kernel == p.kernel
    ensures Inv(q) && All(q) == Retimed(All(p), p.groups[name].bySrc[key], ttl)
    ensures Live(q) == if p.groups[name].enabled then Retimed(Live(p), p.groups[name].bySrc[key], ttl) else Live(p)
    ensures KernelAgrees(p) ==> KernelAgrees(q)
  {
    hide Validate, Overlaps, Implements, Indexed, Inv, All, Live, Contents, Consistent, Retimed;
    var g, g' := p.groups[name], q.groups[name];
    var m := g.bySrc[key];
    GroupConsistent(p, name);
    RetimedGroup(g, key, ttl, g');
    RetimedMembers(Contents(g), m, ttl);
    forall x, y | x in Contents(g') && y in All(p) && y !in Contents(g) ensures !Overlaps(x, y) {
      TimeoutIrrelevant(m, ttl, y);
    }
    ReplaceGroup(p, name, g', q);
    RetimedUnion(All(p), Contents(g), m, ttl);
    if g.enabled {
      RetimedUnion(Live(p), Contents(g), m, ttl);
      if KernelAgrees(p) {
        ImplementsRetimed(p.kernel.tables, Live(p), m, ttl);
      }
    } else {
      assert (Live(p) - Contents(g)) + iset{} == Live(p);
    }
  }

  lemma RetimedMembers(ms: iset<Mapping>, m: Mapping, ttl: TTL)
    ensures forall x :: x in Retimed(ms, m, ttl) ==> x in ms || x == m.(timeout := ttl)
  {
  }

  lemma RetimedUnion(all: iset<Mapping>, part: iset<Mapping>, m: Mapping, ttl: TTL)
    requires m in part && part <= all
    ensures (all - part) + Retimed(part, m, ttl) == Retimed(all, m, ttl)
  {
  }

  // Closing

  /** Unregistering a group: its mappings are gone from the plane, whatever the kernel holds. */
  lemma RemoveGroup(p: PlaneState, name: string, q: PlaneState)
    requires Inv(p) && name in p.groups && q.groups == p.groups - {name}
    ensures Inv(q)
    ensures All(q) == All(p) - Contents(p.groups[name])
    ensures Live(q) == Live(p) - Contents(p.groups[name])
  {
    hide Validate, Overlaps, Indexed;
    var g := p.groups[name];
    forall n, m ensures Owns(q, n, m) <==> n != name && Owns(p, n, m) {
    }
    forall n, m | Owns(p, n, m) ensures m in Contents(g) <==> n == name {
      assert m in Contents(g) ==> Owns(p, name, m);
    }
    forall m ensures m in All(q) <==> m in All(p) - Contents(g) {
      if m in All(p) - Contents(g) {
        var n :| Owns(p, n, m);
        assert Owns(q, n, m);
      }
    }
    forall m ensures m in Live(q) <==> m in Live(p) - Contents(g) {
      if m in Live(p) - Contents(g) {
        var n :| Owns(p, n, m) && p.groups[n].enabled;
        assert Owns(q, n, m);
      }
    }
  }

  /** The flush a closing group needs, if any, is answered well. */
  predicate CleanClose(o: Oracle, p: PlaneState, name: string) {
    name in p.groups && p.groups[name].enabled && p.groups[name].bySrc != map[] ==> o(p.clock) == FlushOk
  }

  lemma EmptyEnumeration(g: GroupState, order: seq<Mapping>)
    requires Indexed(g) && Enumerates(order, g)
    ensures order == [] <==> g.bySrc == map[]
    ensures order == [] <==> Contents(g) == iset{}
  {
    assert forall m :: m in order <==> m in Contents(g);
    if k :| k in g.bySrc {
      assert g.bySrc[k] in Contents(g);
    }
    if order != [] {
      assert order[0] in Contents(g);
    }
  }

  /** A group is gone after `Close`, even when its flush failed; and then, exactly
      then, the kernel keeps elements that belong to no group. */
  lemma CloseGroupKeeps(o: Oracle, p: PlaneState, name: string, order: seq<Mapping>)
    requires Inv(p) && (name in p.groups ==> Enumerates(order, p.groups[name]))
    ensures var r := CloseGroup(o, p, name, order);
            && Inv(r.plane) && r.plane.groups == p.groups - {name} && r.plane.closed == p.closed
            && r.plane.kernel.chain == p.kernel.chain
            && All(r.plane) == All(p) - (if name in p.groups then Contents(p.groups[name]) else iset{})
    ensures KernelAgrees(p) ==>
            (KernelAgrees(CloseGroup(o, p, name, order).plane) <==> CleanClose(o, p, name))
  {
    if name in p.groups {
      var g := p.groups[name];
      GroupConsistent(p, name);
      EmptyEnumeration(g, order);
      EnumerationBatch(p, name, order);
      DeleteKeeps(o, p, name, order);
      ClosedPlane(o, p, name, order);
    } else {
      assert p.groups - {name} == p.groups;
    }
  }

  lemma ClosedPlane(o: Oracle, p: PlaneState, name: string, order: seq<Mapping>)
    requires Inv(p) && name in p.groups && Enumerates(order, p.groups[name])
    requires order == [] <==> p.groups[name].bySrc == map[]
    requires order == [] <==> Contents(p.groups[name]) == iset{}
    requires var r := Delete(o, p, name, order);
            && Inv(r.plane)
            && (r.err.Some? ==> SameButClock(p, r.plane))
            && (r.err.None? ==> name in r.plane.groups && Contents(r.plane.groups[name]) == iset{})
            && (r.err.None? ==> All(r.plane) == Without(All(p), order))
            && r.plane.groups - {name} == p.groups - {name}
            && (KernelAgrees(p) ==> KernelAgrees(r.plane))
            && (KernelAgrees(p) ==>
               (r.err.None? <==> (order != [] && p.groups[name].enabled ==> o(p.clock) == FlushOk)))
    ensures var r := CloseGroup(o, p, name, order);
            && Inv(r.plane) && All(r.plane) == All(p) - Contents(p.groups[name])
            && (KernelAgrees(p) ==> (KernelAgrees(r.plane) <==> CleanClose(o, p, name)))
  {
    hide Validate, Overlaps, Indexed, Implements, Delete;
    var d, r := Delete(o, p, name, order), CloseGroup(o, p, name, order);
    RemoveGroup(p, name, r.plane);
    if KernelAgrees(p) {
      if d.err.None? {
        RemoveGroup(d.plane, name, r.plane);
        assert Live(r.plane) == Live(d.plane);
      } else {
        assert Live(r.plane) == Live(p) - Contents(p.groups[name]);
        GroupConsistent(p, name);
        assert order[0] in Batch(order);
        LeftBehind(p, Live(r.plane), order[0]);
      }
    }
  }

  /** Without one of its mappings the tables are no longer the compilation of the rest. */
  lemma LeftBehind(p: PlaneState, rest: iset<Mapping>, m: Mapping)
    requires Inv(p) && KernelAgrees(p) && m in Live(p) && m !in rest && rest <= Live(p)
    ensures !Implements(p.kernel.tables, rest)
  {
    assert forall x :: x in Live(p) ==> x in All(p);
    forall x | x in rest ensures SlotOf(x) != SlotOf(m) {
      SameSlot(x, m);
      assert SrcKey(x) == SrcKey(m) ==> Overlaps(x, m);
    }
    assert SlotOf(m) in p.kernel.tables;
  }

  /** No destination belongs to two groups. */
  lemma OneGroupPerDestination(p: PlaneState, n: string, n': string, key: DnatKey)
    requires Inv(p) && n in p.groups && n' in p.groups
    requires key in p.groups[n].byDst && key in p.groups[n'].byDst
    ensures n == n'
  {
    hide Overlaps, Validate;
    var m, m' := p.groups[n].byDst[key], p.groups[n'].byDst[key];
    assert Owns(p, n, m) && Owns(p, n', m');
    assert m in All(p) && m' in All(p);
    RoutingOneToOne(All(p), m, m');
  }
}
