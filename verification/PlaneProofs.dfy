/** What the operations of the dataplane keep. */
module PlaneProofs {
  import opened Wrappers
  import opened Mappings
  import opened Encoding
  import opened Rules
  import opened Routing
  import opened Kernel
  import opened Plane

  ghost function Contents(g: GroupState): iset<Mapping> {
    iset m: Mapping | SrcKey(m) in g.bySrc && g.bySrc[SrcKey(m)] == m
  }

  ghost function Batch(ms: seq<Mapping>): iset<Mapping> {
    iset m: Mapping | m in ms
  }

  /** Both indexes hold the same mappings, each under its own key. */
  ghost predicate Indexed(g: GroupState) {
    && (forall k :: k in g.bySrc ==> SrcKey(g.bySrc[k]) == k)
    && (forall k :: k in g.bySrc ==> DstKey(g.bySrc[k]) in g.byDst && g.byDst[DstKey(g.bySrc[k])] == g.bySrc[k])
    && (forall k :: k in g.byDst ==> DstKey(g.byDst[k]) == k)
    && (forall k :: k in g.byDst ==> SrcKey(g.byDst[k]) in g.bySrc && g.bySrc[SrcKey(g.byDst[k])] == g.byDst[k])
  }

  ghost predicate Owns(p: PlaneState, n: string, m: Mapping) {
    n in p.groups && m in Contents(p.groups[n])
  }

  ghost predicate Registered(p: PlaneState, m: Mapping) {
    exists n :: Owns(p, n, m)
  }

  ghost predicate Installed(p: PlaneState, m: Mapping) {
    exists n :: Owns(p, n, m) && p.groups[n].enabled
  }

  /** The mappings of all registered groups. */
  ghost function All(p: PlaneState): iset<Mapping> {
    iset m: Mapping | Registered(p, m)
  }

  /** The mappings of the enabled groups. */
  ghost function Live(p: PlaneState): iset<Mapping> {
    iset m: Mapping | Installed(p, m)
  }

  /** Every group is well indexed, no two registered mappings conflict, and no
      mapping belongs to two groups. */
  ghost predicate Inv(p: PlaneState) {
    && (forall n :: n in p.groups ==> Indexed(p.groups[n]))
    && Consistent(All(p))
    && (forall n, n', m :: Owns(p, n, m) && Owns(p, n', m) ==> n == n')
  }

  /** The four kernel maps are the compilation of precisely the mappings of the enabled groups. */
  ghost predicate KernelAgrees(p: PlaneState) {
    Implements(p.kernel.tables, Live(p))
  }

  // Batches to add

  /** The batch may be added: all valid, and no conflict inside it or with `taken`. */
  ghost predicate Addable(ms: seq<Mapping>, taken: iset<Mapping>) {
    && (forall m :: m in ms ==> Validate(m))
    && (forall i, j :: 0 <= i < j < |ms| ==> !Overlaps(ms[j], ms[i]))
    && (forall m, x :: m in ms && x in taken ==> !Overlaps(m, x))
  }

  lemma TakenMeaning(p: PlaneState, m: Mapping)
    requires Inv(p)
    ensures Taken(p, m) <==> exists x :: x in All(p) && Overlaps(m, x)
  {
    if Taken(p, m) {
      var n, k :| n in p.groups && k in p.groups[n].bySrc && Overlaps(m, p.groups[n].bySrc[k]);
      assert Owns(p, n, p.groups[n].bySrc[k]);
      assert p.groups[n].bySrc[k] in All(p);
    }
    if x :| x in All(p) && Overlaps(m, x) {
      var n :| Owns(p, n, x);
      assert SrcKey(x) in p.groups[n].bySrc;
    }
  }

  /** The conflict scan accepts exactly the batches that can be added as a set. */
  lemma {:induction false} ScanAcceptsAddable(p: PlaneState, ms: seq<Mapping>)
    requires Inv(p)
    ensures FirstConflict(p, ms).None? <==> Addable(ms, All(p))
  {
    if ms == [] {
    } else {
      var init, m := ms[..|ms| - 1], ms[|ms| - 1];
      ScanAcceptsAddable(p, init);
      TakenMeaning(p, m);
      assert forall x :: x in ms <==> x in init || x == m;
      if Addable(ms, All(p)) {
        forall i, j | 0 <= i < j < |init| ensures !Overlaps(init[j], init[i]) {
          assert !Overlaps(ms[j], ms[i]);
        }
        forall x | x in init ensures !Overlaps(m, x) {
          var i :| 0 <= i < |init| && init[i] == x;
          assert !Overlaps(ms[|ms| - 1], ms[i]);
        }
      }
      if FirstConflict(p, ms).None? {
        forall i, j | 0 <= i < j < |ms| ensures !Overlaps(ms[j], ms[i]) {
          if j < |ms| - 1 {
            assert !Overlaps(init[j], init[i]);
          } else {
            assert init[i] == ms[i];
          }
        }
      }
    }
  }

  /** Without its last mapping a batch is still addable, and the last one conflicts with none of it. */
  lemma AddableInit(ms: seq<Mapping>, taken: iset<Mapping>)
    requires ms != [] && Addable(ms, taken)
    ensures Addable(ms[..|ms| - 1], taken)
    ensures Validate(ms[|ms| - 1])
    ensures forall x :: x in taken || x in ms[..|ms| - 1] ==> !Overlaps(ms[|ms| - 1], x)
  {
    var init, m := ms[..|ms| - 1], ms[|ms| - 1];
    forall x | x in init ensures !Overlaps(m, x) {
      var i :| 0 <= i < |init| && init[i] == x;
      assert !Overlaps(ms[|ms| - 1], ms[i]);
    }
    forall i, j | 0 <= i < j < |init| ensures !Overlaps(init[j], init[i]) {
      assert !Overlaps(ms[j], ms[i]);
    }
  }

  lemma AddableConsistent(ms: seq<Mapping>, taken: iset<Mapping>)
    requires Addable(ms, taken) && Consistent(taken)
    ensures Consistent(taken + Batch(ms))
    ensures taken !! Batch(ms)
  {
    forall m, x | m in taken + Batch(ms) && x in taken + Batch(ms) && m != x ensures !Overlaps(m, x) {
      OverlapsSymmetric(m, x);
      if m in ms && x in ms {
        var i, j :| 0 <= i < |ms| && 0 <= j < |ms| && ms[i] == m && ms[j] == x;
        if i < j {
          assert !Overlaps(ms[j], ms[i]);
        }
      }
    }
  }

  /** A mapping that conflicts with none of a group has both its keys free there. */
  lemma KeysFree(g: GroupState, m: Mapping)
    requires Indexed(g) && Validate(m)
    requires forall x :: x in Contents(g) ==> Validate(x) && !Overlaps(m, x)
    ensures SrcKey(m) !in g.bySrc && DstKey(m) !in g.byDst
  {
    assert forall k :: k in g.bySrc ==> g.bySrc[k] in Contents(g);
    assert forall k :: k in g.byDst ==> g.byDst[k] in Contents(g);
  }

  /** Adding one mapping that conflicts with none of the group keeps the indexes in step. */
  lemma IndexedAddOne(g: GroupState, m: Mapping, g': GroupState)
    requires Indexed(g) && Validate(m)
    requires forall x :: x in Contents(g) ==> Validate(x) && !Overlaps(m, x)
    requires g'.bySrc == g.bySrc[SrcKey(m) := m] && g'.byDst == g.byDst[DstKey(m) := m]
    ensures Indexed(g') && Contents(g') == Contents(g) + iset{m}
  {
    KeysFree(g, m);
    IndexedInsert(g, m, g');
  }

  lemma IndexedInsert(g: GroupState, m: Mapping, g': GroupState)
    requires Indexed(g) && SrcKey(m) !in g.bySrc && DstKey(m) !in g.byDst
    requires g'.bySrc == g.bySrc[SrcKey(m) := m] && g'.byDst == g.byDst[DstKey(m) := m]
    ensures Indexed(g') && Contents(g') == Contents(g) + iset{m}
  {
    forall k | k in g'.bySrc
      ensures SrcKey(g'.bySrc[k]) == k
      ensures DstKey(g'.bySrc[k]) in g'.byDst && g'.byDst[DstKey(g'.bySrc[k])] == g'.bySrc[k]
    {
    }
    forall k | k in g'.byDst
      ensures DstKey(g'.byDst[k]) == k
      ensures SrcKey(g'.byDst[k]) in g'.bySrc && g'.bySrc[SrcKey(g'.byDst[k])] == g'.byDst[k]
    {
    }
    forall x ensures x in Contents(g') <==> x in Contents(g) + iset{m} {
    }
  }

  lemma IndexedExt(g: GroupState, g': GroupState)
    requires g'.bySrc == g.bySrc && g'.byDst == g.byDst
    ensures Indexed(g') == Indexed(g)
  {
  }

  lemma {:induction false} IndexedAdd(g: GroupState, ms: seq<Mapping>, g': GroupState)
    requires Indexed(g) && Consistent(Contents(g)) && Addable(ms, Contents(g))
    requires g'.bySrc == IndexBySrc(g.bySrc, ms) && g'.byDst == IndexByDst(g.byDst, ms)
    ensures Indexed(g') && Contents(g') == Contents(g) + Batch(ms)
  {
    hide Validate, Overlaps, Indexed;
    if ms == [] {
      assert g' == g.(bySrc := g'.bySrc, byDst := g'.byDst, flow := g'.flow, enabled := g'.enabled);
      IndexedExt(g, g');
    } else {
      var init := ms[..|ms| - 1];
      var h := g.(bySrc := IndexBySrc(g.bySrc, init), byDst := IndexByDst(g.byDst, init));
      AddableInit(ms, Contents(g));
      IndexedAdd(g, init, h);
      IndexedAddOne(h, ms[|ms| - 1], g');
      assert Batch(ms) == Batch(init) + iset{ms[|ms| - 1]};
    }
  }

  lemma ApplyAllLast(k: KernelState, msgs: seq<Msg>, msg: Msg)
    ensures ApplyAll(k, msgs + [msg]) ==
            var r := ApplyAll(k, msgs);
            if r.None? then None else Apply(r.value, msg)
  {
    assert (msgs + [msg])[..|msgs|] == msgs;
  }

  /** The kernel takes a whole addable batch, and then holds it besides what it held. */
  lemma {:induction false} KernelAdds(k: KernelState, live: iset<Mapping>, ms: seq<Mapping>)
    requires Implements(k.tables, live) && Consistent(live) && Addable(ms, live)
    ensures var r := ApplyAll(k, AddMsgs(ms));
            r.Some? && r.value.chain == k.chain && Implements(r.value.tables, live + Batch(ms))
  {
    hide Validate, Overlaps, SlotOf, CompileSetElement, Implements, Apply;
    if ms == [] {
      assert live + Batch(ms) == live;
    } else {
      var init, m := ms[..|ms| - 1], ms[|ms| - 1];
      AddableInit(ms, live);
      KernelAdds(k, live, init);
      AddableConsistent(init, live);
      AddMsgsLast(ms);
      ApplyAllLast(k, AddMsgs(init), AddElement(SlotOf(m), CompileSetElement(m).val));
      KernelAddsOne(ApplyAll(k, AddMsgs(init)).value, live + Batch(init), m);
      assert live + Batch(ms) == live + Batch(init) + iset{m};
    }
  }

  lemma KernelAddsOne(k: KernelState, live: iset<Mapping>, m: Mapping)
    requires Implements(k.tables, live) && Consistent(live) && Validate(m)
    requires forall x :: x in live ==> !Overlaps(m, x)
    ensures var r := Apply(k, AddElement(SlotOf(m), CompileSetElement(m).val));
            r.Some? && r.value.chain == k.chain && Implements(r.value.tables, live + iset{m})
  {
    forall x | x in live ensures SlotOf(x) != SlotOf(m) {
      if SlotOf(x) == SlotOf(m) {
        SlotCollisionOverlaps(m, x);
      }
    }
    var t := k.tables[SlotOf(m) := CompileSetElement(m).val];
    forall s | s in t ensures exists x :: x in live + iset{m} && SlotOf(x) == s {
      if s == SlotOf(m) {
        assert m in live + iset{m};
      } else {
        var x :| x in live && SlotOf(x) == s;
        assert x in live + iset{m};
      }
    }
  }

  // Batches to delete

  /** No source is named twice. */
  predicate DistinctSources(ms: seq<Mapping>) {
    forall i, j :: 0 <= i < j < |ms| ==> SrcKey(ms[i]) != SrcKey(ms[j])
  }

  ghost function Without(live: iset<Mapping>, ms: seq<Mapping>): iset<Mapping> {
    iset m: Mapping | m in live && SrcKey(m) !in SrcKeys(ms)
  }

  /** Every mapping of the batch names a member by source and destination. */
  ghost predicate Deletable(ms: seq<Mapping>, live: iset<Mapping>) {
    forall m :: m in ms ==> Validate(m) && exists x :: x in live && SrcKey(x) == SrcKey(m) && DstKey(x) == DstKey(m)
  }

  lemma {:induction false} ScanAcceptsDeletable(g: GroupState, ms: seq<Mapping>)
    requires Indexed(g)
    ensures FirstMissing(g, ms).None? <==> Deletable(ms, Contents(g))
  {
    if ms == [] {
    } else {
      var init, m := ms[..|ms| - 1], ms[|ms| - 1];
      ScanAcceptsDeletable(g, init);
      assert forall x :: x in ms <==> x in init || x == m;
      if Holds(g, m) {
        assert g.bySrc[SrcKey(m)] in Contents(g);
      }
    }
  }

  lemma IndexedDel(g: GroupState, ms: seq<Mapping>, g': GroupState)
    requires Indexed(g) && Deletable(ms, Contents(g))
    requires g'.bySrc == g.bySrc - SrcKeys(ms) && g'.byDst == g.byDst - DstKeys(ms)
    ensures Indexed(g') && Contents(g') == Without(Contents(g), ms)
  {
    forall k | k in g.bySrc ensures DstKey(g.bySrc[k]) in DstKeys(ms) ==> k in SrcKeys(ms) {
      forall m | m in ms && DstKey(m) == DstKey(g.bySrc[k]) ensures SrcKey(m) == k {
        var x :| x in Contents(g) && SrcKey(x) == SrcKey(m) && DstKey(x) == DstKey(m);
        assert g.byDst[DstKey(g.bySrc[SrcKey(x)])] == x;
      }
    }
    forall k | k in g.byDst ensures SrcKey(g.byDst[k]) in SrcKeys(ms) ==> k in DstKeys(ms) {
      forall m | m in ms && SrcKey(m) == SrcKey(g.byDst[k]) ensures DstKey(m) == k {
        var x :| x in Contents(g) && SrcKey(x) == SrcKey(m) && DstKey(x) == DstKey(m);
      }
    }
  }

  /** The kernel deletes a batch exactly when no source is named twice in it. */
  lemma {:induction false} KernelDeletes(k: KernelState, live: iset<Mapping>, ms: seq<Mapping>)
    requires Implements(k.tables, live) && Consistent(live) && Deletable(ms, live)
    ensures var r := ApplyAll(k, DelMsgs(ms));
            && (r.Some? <==> DistinctSources(ms))
            && (r.Some? ==> r.value.chain == k.chain && Implements(r.value.tables, Without(live, ms)))
  {
    hide SlotOf, Validate, Overlaps, Implements, Apply;
    if ms == [] {
      assert Without(live, ms) == live;
    } else {
      var init, m := ms[..|ms| - 1], ms[|ms| - 1];
      KernelDeletes(k, live, init);
      assert m in ms;
      DelMsgsLast(ms);
      ApplyAllLast(k, DelMsgs(init), DelElement(SlotOf(m)));
      DistinctSourcesInit(ms);
      if DistinctSources(init) {
        KernelDeletesLast(ApplyAll(k, DelMsgs(init)).value, live, init, m);
        assert ms == init + [m];
      }
    }
  }

  lemma AddMsgsLast(ms: seq<Mapping>)
    requires ms != [] && Validate(ms[|ms| - 1])
    ensures AddMsgs(ms) == AddMsgs(ms[..|ms| - 1])
                         + [AddElement(SlotOf(ms[|ms| - 1]), CompileSetElement(ms[|ms| - 1]).val)]
  {
  }

  lemma DelMsgsLast(ms: seq<Mapping>)
    requires ms != [] && Validate(ms[|ms| - 1])
    ensures DelMsgs(ms) == DelMsgs(ms[..|ms| - 1]) + [DelElement(SlotOf(ms[|ms| - 1]))]
  {
  }

  lemma KernelDeletesLast(k: KernelState, live: iset<Mapping>, init: seq<Mapping>, m: Mapping)
    requires Implements(k.tables, Without(live, init)) && Consistent(live) && Validate(m)
    requires exists x :: x in live && SrcKey(x) == SrcKey(m)
    ensures var r := Apply(k, DelElement(SlotOf(m)));
            && (r.Some? <==> SrcKey(m) !in SrcKeys(init))
            && (r.Some? ==> r.value.chain == k.chain && Implements(r.value.tables, Without(live, init + [m])))
  {
    hide SlotOf, Validate, Overlaps;
    var x :| x in live && SrcKey(x) == SrcKey(m);
    KernelDeletesOne(k, Without(live, init), m);
    assert SrcKey(m) !in SrcKeys(init) ==> x in Without(live, init);
    assert SrcKeys(init + [m]) == SrcKeys(init) + {SrcKey(m)};
    assert Without(live, init + [m]) == iset y: Mapping | y in Without(live, init) && SrcKey(y) != SrcKey(m);
  }

  lemma DistinctSourcesInit(ms: seq<Mapping>)
    requires ms != []
    ensures DistinctSources(ms) <==>
            DistinctSources(ms[..|ms| - 1]) && SrcKey(ms[|ms| - 1]) !in SrcKeys(ms[..|ms| - 1])
  {
    var init, m := ms[..|ms| - 1], ms[|ms| - 1];
    assert forall i :: 0 <= i < |init| ==> init[i] == ms[i];
    if DistinctSources(ms) {
      forall x | x in init ensures SrcKey(x) != SrcKey(m) {
        var i :| 0 <= i < |init| && init[i] == x;
        assert SrcKey(ms[i]) != SrcKey(ms[|ms| - 1]);
      }
    }
    if DistinctSources(init) && SrcKey(m) !in SrcKeys(init) {
      forall i, j | 0 <= i < j < |ms| ensures SrcKey(ms[i]) != SrcKey(ms[j]) {
        assert ms[i] == init[i] && SrcKey(init[i]) in SrcKeys(init);
      }
    }
  }

  lemma SameSlot(x: Mapping, m: Mapping)
    requires Validate(x) && Validate(m)
    ensures SlotOf(x) == SlotOf(m) <==> SrcKey(x) == SrcKey(m)
  {
    if SlotOf(x) == SlotOf(m) {
      SlotCollisionOverlaps(x, m);
    }
  }

  lemma KernelDeletesOne(k: KernelState, live: iset<Mapping>, m: Mapping)
    requires Implements(k.tables, live) && (forall x :: x in live ==> Validate(x)) && Validate(m)
    ensures var r := Apply(k, DelElement(SlotOf(m)));
            && (r.Some? <==> exists x :: x in live && SrcKey(x) == SrcKey(m))
            && (r.Some? ==> r.value.chain == k.chain &&
                            Implements(r.value.tables, iset x: Mapping | x in live && SrcKey(x) != SrcKey(m)))
  {
    hide SlotOf, Validate;
    forall x | x in live ensures SlotOf(x) == SlotOf(m) <==> SrcKey(x) == SrcKey(m) {
      SameSlot(x, m);
    }
    DropSlot(k.tables, live, SlotOf(m));
    var rest := iset x: Mapping | x in live && SrcKey(x) != SrcKey(m);
    assert rest == iset x: Mapping | x in live && SlotOf(x) != SlotOf(m);
  }

  lemma DropSlot(t: Tables, live: iset<Mapping>, s: Slot)
    requires Implements(t, live)
    ensures s in t <==> exists x :: x in live && SlotOf(x) == s
    ensures Implements(t - {s}, iset x: Mapping | x in live && SlotOf(x) != s)
  {
    hide SlotOf;
    var rest := iset x: Mapping | x in live && SlotOf(x) != s;
    forall s' | s' in t - {s} ensures exists x :: x in rest && SlotOf(x) == s' {
      var x :| x in live && SlotOf(x) == s';
      assert x in rest;
    }
  }
}
