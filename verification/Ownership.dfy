/** Frontends and the mappings they own in their target's group, while frontends are
    created and shut down in any order and other groups change at the same time. */
module Ownership {
  import opened Wrappers
  import opened Mappings
  import opened Kernel
  import opened Plane
  import opened PlaneProofs
  import opened PlaneOps
  import opened PlaneRuns

  /** The dataplane, and the frontends built on the target whose shutdown has not yet
      deleted their mapping. */
  datatype Owners = Owners(plane: PlaneState, live: map<nat, Mapping>)

  datatype Event =
    | Create(id: nat, m: Mapping)
    | Shutdown(id: nat)
    | Elsewhere(op: Op)

  /** What frontends of the target do not do: edit the mappings of the target's group by
      other means, or close it or the dataplane. */
  ghost predicate Spares(op: Op, name: string) {
    match op
    case OpEnable(_, _) => true
    case OpDisable(_, _) => true
    case OpNew(_) => true
    case OpClosePlane(_) => false
    case _ => op.name != name
  }

  /** `frontend.New` adds the mapping and fails with it; `endBlocking` deletes it. */
  function Happen(o: Oracle, name: string, s: Owners, e: Event): (r: (Owners, Option<Error>))
    requires e.Shutdown? ==> e.id in s.live
  {
    match e
    case Create(id, m) =>
      var r := AddMappings(o, s.plane, name, [m]);
      (Owners(r.plane, if r.err.None? then s.live[id := m] else s.live), r.err)
    case Shutdown(id) =>
      var r := DelMappings(o, s.plane, name, [s.live[id]]);
      (Owners(r.plane, s.live - {id}), r.err)
    case Elsewhere(op) => (s.(plane := Step(o, s.plane, op)), None)
  }

  ghost predicate Possible(o: Oracle, name: string, s: Owners, e: Event) {
    match e
    case Create(id, _) => id !in s.live
    case Shutdown(id) => id in s.live
    case Elsewhere(op) => Spares(op, name) && Legit(s.plane, op) && Clean(o, s.plane, op)
  }

  /** The group's mappings are exactly those of the live frontends, one each. */
  ghost predicate Owned(name: string, s: Owners) {
    && Inv(s.plane) && KernelAgrees(s.plane) && IsOpen(s.plane, name)
    && OneEach(s.live, Contents(s.plane.groups[name]))
  }

  ghost predicate OneEach(live: map<nat, Mapping>, ms: iset<Mapping>) {
    && (forall id :: id in live ==> live[id] in ms)
    && (forall m :: m in ms ==> exists id :: id in live && live[id] == m)
    && (forall id, id' :: id in live && id' in live && live[id] == live[id'] ==> id == id')
  }

  lemma OneMore(live: map<nat, Mapping>, ms: iset<Mapping>, id: nat, m: Mapping)
    requires OneEach(live, ms) && id !in live && m !in ms
    ensures OneEach(live[id := m], ms + iset{m})
  {
    var live' := live[id := m];
    forall x | x in ms + iset{m} ensures exists i :: i in live' && live'[i] == x {
      if x == m {
        assert live'[id] == x;
      } else {
        var i :| i in live && live[i] == x;
        assert live'[i] == x;
      }
    }
  }

  lemma OneLess(live: map<nat, Mapping>, ms: iset<Mapping>, id: nat)
    requires OneEach(live, ms) && id in live
    ensures OneEach(live - {id}, ms - iset{live[id]})
  {
    forall x | x in ms - iset{live[id]} ensures exists i :: i in live - {id} && (live - {id})[i] == x {
      var i :| i in live && live[i] == x;
      assert (live - {id})[i] == x;
    }
  }

  /** What is addable to a consistent plane is new to every group. */
  lemma NewToGroup(p: PlaneState, name: string, m: Mapping)
    requires Inv(p) && name in p.groups && Addable([m], All(p))
    ensures m !in Contents(p.groups[name]) && Batch([m]) == iset{m}
  {
    hide Validate, Overlaps, Inv, Indexed;
    GroupConsistent(p, name);
    assert m in [m];
    SelfOverlap(m);
  }

  lemma SelfOverlap(m: Mapping)
    ensures Overlaps(m, m)
  {
  }

  lemma CreateKeeps(o: Oracle, name: string, s: Owners, id: nat, m: Mapping)
    requires Owned(name, s) && id !in s.live
    ensures Owned(name, Happen(o, name, s, Create(id, m)).0)
    ensures var (t, err) := Happen(o, name, s, Create(id, m));
            && (err.None? <==> Addable([m], All(s.plane))
                               && (s.plane.groups[name].enabled ==> o(s.plane.clock) == FlushOk))
            && (err.None? ==> t.live == s.live[id := m])
            && (err.Some? ==> t.live == s.live && SameButClock(s.plane, t.plane))
  {
    hide Validate, Inv, KernelAgrees, OneEach, Contents, All, Addable, AddMappings;
    var p, r := s.plane, AddMappings(o, s.plane, name, [m]);
    AddMappingsKeeps(o, p, name, [m]);
    if r.err.None? {
      NewToGroup(p, name, m);
      OneMore(s.live, Contents(p.groups[name]), id, m);
      AddStaysOpen(o, p, name, [m]);
    }
  }

  lemma AddStaysOpen(o: Oracle, p: PlaneState, name: string, ms: seq<Mapping>)
    ensures AddMappings(o, p, name, ms).plane.closed == p.closed
  {
    hide Submit, FirstConflict, TimeoutsSet;
  }

  lemma DropOne(g: GroupState, m: Mapping)
    requires Indexed(g) && Consistent(Contents(g)) && m in Contents(g)
    ensures Deletable([m], Contents(g)) && DistinctSources([m])
    ensures Without(Contents(g), [m]) == Contents(g) - iset{m}
  {
    assert m in [m];
    forall x | x in Contents(g) ensures SrcKey(x) in SrcKeys([m]) <==> x == m {
    }
  }

  /** The flush a shutdown needs, if its group is enabled, is answered well. */
  predicate Answered(o: Oracle, name: string, s: Owners, e: Event) {
    e.Shutdown? && name in s.plane.groups && s.plane.groups[name].enabled ==> o(s.plane.clock) == FlushOk
  }

  /** A shutdown finds its mapping. It deletes it without error, and leaves the group to the other
      frontends, exactly when its flush is answered well; otherwise the mapping stays without an owner. */
  lemma ShutdownKeeps(o: Oracle, name: string, s: Owners, id: nat)
    requires Owned(name, s) && id in s.live
    ensures Owned(name, Happen(o, name, s, Shutdown(id)).0) <==> Answered(o, name, s, Shutdown(id))
    ensures Happen(o, name, s, Shutdown(id)).1.None? <==> Answered(o, name, s, Shutdown(id))
  {
    hide Inv, KernelAgrees, DelMappings, Contents;
    hide OneEach;
    MappingFound(s, name, id);
    DeleteOne(o, s.plane, name, s.live[id]);
    var ms := Contents(s.plane.groups[name]);
    OneLess(s.live, ms, id);
    NoOwner(s.live, ms, id);
    SameContents(s.plane, DelMappings(o, s.plane, name, [s.live[id]]).plane, name);
  }

  lemma MappingFound(s: Owners, name: string, id: nat)
    requires Owned(name, s) && id in s.live
    ensures s.live[id] in Contents(s.plane.groups[name])
  {
  }

  lemma SameContents(p: PlaneState, q: PlaneState, name: string)
    requires IsOpen(p, name)
    ensures SameButClock(p, q) ==> IsOpen(q, name) && Contents(q.groups[name]) == Contents(p.groups[name])
  {
  }

  /** Deleting one mapping that the group holds. */
  lemma DeleteOne(o: Oracle, p: PlaneState, name: string, m: Mapping)
    requires Inv(p) && KernelAgrees(p) && IsOpen(p, name) && m in Contents(p.groups[name])
    ensures var r := DelMappings(o, p, name, [m]);
            && (r.err.None? <==> (p.groups[name].enabled ==> o(p.clock) == FlushOk))
            && (if r.err.Some? then SameButClock(p, r.plane)
                else && Inv(r.plane) && KernelAgrees(r.plane) && IsOpen(r.plane, name)
                     && Contents(r.plane.groups[name]) == Contents(p.groups[name]) - iset{m})
  {
    hide Validate, Overlaps, Inv, KernelAgrees, Contents, All, Deletable, DistinctSources, Delete, Without;
    GroupConsistent(p, name);
    DropOne(p.groups[name], m);
    DeleteKeeps(o, p, name, [m]);
  }

  lemma NoOwner(live: map<nat, Mapping>, ms: iset<Mapping>, id: nat)
    requires OneEach(live, ms) && id in live
    ensures !OneEach(live - {id}, ms)
  {
    assert live[id] in ms;
  }

  lemma ElsewhereKeeps(o: Oracle, name: string, s: Owners, op: Op)
    requires Owned(name, s) && Possible(o, name, s, Elsewhere(op))
    ensures Owned(name, Happen(o, name, s, Elsewhere(op)).0)
  {
    StepKeeps(o, s.plane, op);
    OtherGroupsStay(o, s.plane, op, name);
    hide Validate, Overlaps, Inv, Step, Legit, Clean, Spares;
  }

  lemma OtherGroupsStay(o: Oracle, p: PlaneState, op: Op, name: string)
    requires IsOpen(p, name) && Spares(op, name)
    ensures var q := Step(o, p, op);
            && IsOpen(q, name) && q.groups[name].bySrc == p.groups[name].bySrc
            && Contents(q.groups[name]) == Contents(p.groups[name])
  {
    hide Submit, FirstConflict, FirstMissing, TimeoutsSet, TimeoutsDeleted, IndexBySrc, IndexByDst;
  }

  function After(o: Oracle, name: string, s: Owners, events: seq<Event>): Owners {
    if events == [] then s
    else
      var r := After(o, name, s, events[..|events| - 1]);
      var e := events[|events| - 1];
      if e.Shutdown? && e.id !in r.live then r else Happen(o, name, r, e).0
  }

  ghost predicate AllPossible(o: Oracle, name: string, s: Owners, events: seq<Event>) {
    events == [] || (AllPossible(o, name, s, events[..|events| - 1]) &&
                     Possible(o, name, After(o, name, s, events[..|events| - 1]), events[|events| - 1]))
  }

  /** Every shutdown of the run has its flush answered well; nothing is said of any other flush. */
  ghost predicate AllAnswered(o: Oracle, name: string, s: Owners, events: seq<Event>) {
    events == [] ||
    var init := events[..|events| - 1];
    AllAnswered(o, name, s, init) && Answered(o, name, After(o, name, s, init), events[|events| - 1])
  }

  /** While the target's group stays open, the flushes of shutdowns succeed and only frontends edit the
      group, its mappings are exactly those of the frontends not yet shut down, in every
      interleaving; and a shutdown deletes its mapping exactly when its flush is answered well. */
  lemma {:induction false} MappingsAreOwned(o: Oracle, name: string, s: Owners, events: seq<Event>)
    requires Owned(name, s) && AllPossible(o, name, s, events) && AllAnswered(o, name, s, events)
    ensures Owned(name, After(o, name, s, events))
    ensures var q := After(o, name, s, events);
            forall id :: id in q.live ==>
              (Happen(o, name, q, Shutdown(id)).1.None? <==> Answered(o, name, q, Shutdown(id)))
  {
    hide Owned, Spares, Step, Answered;
    if events == [] {
    } else {
      var r, e := After(o, name, s, events[..|events| - 1]), events[|events| - 1];
      MappingsAreOwned(o, name, s, events[..|events| - 1]);
      match e
      case Create(id, m) => CreateKeeps(o, name, r, id, m);
      case Shutdown(id) => ShutdownKeeps(o, name, r, id);
      case Elsewhere(op) => ElsewhereKeeps(o, name, r, op);
    }
    var q := After(o, name, s, events);
    forall id | id in q.live
      ensures Happen(o, name, q, Shutdown(id)).1.None? <==> Answered(o, name, q, Shutdown(id))
    {
      ShutdownKeeps(o, name, q, id);
    }
  }

  /** The run of a target begins with its fresh group, which no frontend has a mapping in. */
  lemma FreshGroupOwned(p: PlaneState, name: string)
    requires Inv(p) && KernelAgrees(p) && NewGroup(p, name).err.None?
    ensures Owned(name, Owners(NewGroup(p, name).plane, map[]))
  {
    NewGroupKeeps(p, name);
    hide Inv, Live;
    assert forall m :: m !in Contents(EMPTY_GROUP);
  }
}
