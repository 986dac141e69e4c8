/** The engine's idle detector: what it remembers of a target over a run of
    registrations and polls, and exactly when it drains one. */
module Idle {
  import opened Net

  /** Nanoseconds, as Go's `time` package counts them. */
  type Time = int

  /** A group handle; a target registered again under its name has another one. */
  type GroupId = nat

  const SECOND := 1_000_000_000
  const MAX_INT64 := 0x7fff_ffff_ffff_ffff
  const MIN_INT64 := -0x8000_0000_0000_0000

  /** `Time.Sub` saturates at the limits of a signed 64-bit word. */
  function Sub(t: Time, u: Time): int {
    if t - u > MAX_INT64 then MAX_INT64 else if t - u < MIN_INT64 then MIN_INT64 else t - u
  }

  function ToDuration(ttl: TTL): int {
    ttl * SECOND
  }

  /** Every TTL fits a 64-bit duration with room to spare, so that saturation never
      changes the comparison of the detector. */
  lemma DurationArithmetic(ttl: TTL, t: Time, u: Time)
    ensures 0 <= ToDuration(ttl) == ttl * 1_000_000_000 <= 0x7fff_ffff_ffff_ffff
    ensures Sub(t, u) > ToDuration(ttl) <==> t - u > ToDuration(ttl)
  {
  }

  datatype TargetInfo = TargetInfo(group: GroupId, timeout: TTL)

  datatype EngineState = EngineState(targets: map<string, TargetInfo>, lastSeen: map<string, Time>)

  function Listed(stale: seq<GroupId>): set<GroupId> {
    set g | g in stale
  }

  const NEW_ENGINE := EngineState(map[], map[])

  datatype Event =
    | Register(name: string, info: TargetInfo, now: Time)
    | Forget(name: string)
    | Retime(name: string, timeout: TTL)
    | Poll(stale: set<GroupId>, at: Time)

  /** What `detectTimeouts` leaves in `lastSeen`. */
  function Seen(s: EngineState, stale: set<GroupId>, at: Time): map<string, Time> {
    s.lastSeen + (map n | n in s.targets && s.targets[n].group !in stale :: at)
  }

  /** The targets `detectTimeouts` drains. */
  function Drained(s: EngineState, stale: set<GroupId>, at: Time): set<string> {
    set n | n in s.targets && n in s.lastSeen && s.targets[n].group in stale
            && Sub(at, s.lastSeen[n]) > ToDuration(s.targets[n].timeout)
  }

  function Apply(s: EngineState, e: Event): EngineState {
    match e
    case Register(n, info, now) =>
      if n in s.targets then s else EngineState(s.targets[n := info], s.lastSeen[n := now])
    case Forget(n) => EngineState(s.targets - {n}, s.lastSeen - {n})
    case Retime(n, t) => if n in s.targets then s.(targets := s.targets[n := s.targets[n].(timeout := t)]) else s
    case Poll(stale, at) => s.(lastSeen := Seen(s, stale, at))
  }

  function Run(s: EngineState, events: seq<Event>): EngineState {
    if events == [] then s else Apply(Run(s, events[..|events| - 1]), events[|events| - 1])
  }

  predicate Fresh(e: Event, g: GroupId) { e.Poll? && g !in e.stale }

  /** The event at `r` made the registration of this target that still stands. */
  ghost predicate RegisteredAt(events: seq<Event>, r: nat, name: string) {
    && r < |events|
    && events[r].Register? && events[r].name == name
    && name !in Run(NEW_ENGINE, events[..r]).targets
    && forall j :: r < j < |events| ==> events[j] != Forget(name)
  }

  /** `t` is the time of the latest poll after `r` that did not list the group as stale, or
      the registration time if there is none. */
  ghost predicate LatestSign(events: seq<Event>, r: nat, g: GroupId, t: Time)
    requires r < |events| && events[r].Register?
  {
    || (events[r].now == t && forall j :: r < j < |events| ==> !Fresh(events[j], g))
    || (exists k :: r < k < |events| && Fresh(events[k], g) && events[k].at == t
                    && forall j :: k < j < |events| ==> !Fresh(events[j], g))
  }

  /** `lastSeen` over whole runs. */
  lemma {:induction false} LastSeenMeaning(events: seq<Event>, name: string) returns (r: nat)
    requires name in Run(NEW_ENGINE, events).targets
    ensures RegisteredAt(events, r, name)
    ensures var s := Run(NEW_ENGINE, events);
            && name in s.lastSeen
            && events[r].info.group == s.targets[name].group
            && LatestSign(events, r, s.targets[name].group, s.lastSeen[name])
  {
    var init, e := events[..|events| - 1], events[|events| - 1];
    var p, s := Run(NEW_ENGINE, init), Run(NEW_ENGINE, events);
    if name !in p.targets {
      r := |events| - 1;
      assert LatestSign(events, r, s.targets[name].group, s.lastSeen[name]);
    } else {
      hide LatestSign;
      r := LastSeenMeaning(init, name);
      assert init[..r] == events[..r];
      var g := p.targets[name].group;
      assert s.targets[name].group == g;
      SignCarriesOver(init, e, r, g, p.lastSeen[name]);
      if Fresh(e, g) {
        assert s.lastSeen[name] == e.at;
      } else {
        assert s.lastSeen[name] == p.lastSeen[name];
      }
      assert events == init + [e];
    }
  }

  lemma SignCarriesOver(init: seq<Event>, e: Event, r: nat, g: GroupId, t: Time)
    requires r < |init| && init[r].Register? && LatestSign(init, r, g, t)
    ensures LatestSign(init + [e], r, g, if Fresh(e, g) then e.at else t)
  {
    var events := init + [e];
    assert forall j :: 0 <= j < |init| ==> events[j] == init[j];
    if Fresh(e, g) {
      assert events[|init|] == e;
    } else if !(init[r].now == t && forall j :: r < j < |init| ==> !Fresh(init[j], g)) {
      var k :| r < k < |init| && Fresh(init[k], g) && init[k].at == t
               && forall j :: k < j < |init| ==> !Fresh(init[j], g);
      assert Fresh(events[k], g);
    }
  }

  predicate Retimes(e: Event, name: string) { e.Retime? && e.name == name }

  /** `t` is what the latest change of the timeout after `r` set, or what was registered if there is none. */
  ghost predicate LatestTimeout(events: seq<Event>, r: nat, name: string, t: TTL)
    requires r < |events| && events[r].Register?
  {
    || (events[r].info.timeout == t && forall j :: r < j < |events| ==> !Retimes(events[j], name))
    || (exists k :: r < k < |events| && events[k] == Retime(name, t)
                    && forall j :: k < j < |events| ==> !Retimes(events[j], name))
  }

  /** What stands registered over whole runs: the group of the standing registration, with the timeout it was
      last given. */
  lemma {:induction false} RegistrationMeaning(events: seq<Event>, r: nat, name: string)
    requires RegisteredAt(events, r, name)
    ensures var s := Run(NEW_ENGINE, events);
            && name in s.targets && s.targets[name].group == events[r].info.group
            && LatestTimeout(events, r, name, s.targets[name].timeout)
  {
    var init, e := events[..|events| - 1], events[|events| - 1];
    if r == |events| - 1 {
      assert events[..r] == init;
    } else {
      assert init[..r] == events[..r];
      RegistrationMeaning(init, r, name);
      var t := Run(NEW_ENGINE, init).targets[name].timeout;
      hide RegisteredAt, LatestTimeout, Run;
      TimeoutCarriesOver(init, e, r, name, t);
      assert events == init + [e];
    }
  }

  lemma TimeoutCarriesOver(init: seq<Event>, e: Event, r: nat, name: string, t: TTL)
    requires r < |init| && init[r].Register? && LatestTimeout(init, r, name, t)
    ensures LatestTimeout(init + [e], r, name, if Retimes(e, name) then e.timeout else t)
  {
    var events := init + [e];
    assert forall j :: 0 <= j < |init| ==> events[j] == init[j];
    if Retimes(e, name) {
      assert events[|init|] == Retime(name, e.timeout);
    } else if !(init[r].info.timeout == t && forall j :: r < j < |init| ==> !Retimes(init[j], name)) {
      var k :| r < k < |init| && init[k] == Retime(name, t) && forall j :: k < j < |init| ==> !Retimes(init[j], name);
      assert events[k] == Retime(name, t);
    }
  }

  /** A name is registered exactly when it was registered while free and not forgotten since. */
  lemma RegisteredExactly(events: seq<Event>, name: string)
    ensures name in Run(NEW_ENGINE, events).targets <==> exists r :: RegisteredAt(events, r, name)
  {
    if name in Run(NEW_ENGINE, events).targets {
      var r := LastSeenMeaning(events, name);
    }
    forall r | RegisteredAt(events, r, name) ensures name in Run(NEW_ENGINE, events).targets {
      RegistrationMeaning(events, r, name);
    }
  }

  /** What each event does to each name, in any state. */
  lemma Pointwise(s: EngineState, e: Event, n: string)
    ensures var t := Apply(s, e);
            && (n in t.targets <==> (n in s.targets && e != Forget(n)) || (e.Register? && e.name == n))
            && (e.Register? && e.name == n && n !in s.targets ==>
                  n in t.lastSeen && t.targets[n] == e.info && t.lastSeen[n] == e.now)
            && (n in s.targets && n in t.targets ==>
                  && t.targets[n].group == s.targets[n].group
                  && t.targets[n].timeout == if Retimes(e, n) then e.timeout else s.targets[n].timeout)
            && (n in s.targets && n in s.lastSeen && n in t.targets ==>
                  && n in t.lastSeen
                  && t.lastSeen[n] == if Fresh(e, s.targets[n].group) then e.at else s.lastSeen[n])
  {
  }

  /** Polls come with nondecreasing timestamps. */
  ghost predicate Ordered(events: seq<Event>) {
    forall j, k :: 0 <= j < k < |events| && events[j].Poll? && events[k].Poll? ==> events[j].at <= events[k].at
  }

  /** A poll at time T drains a target exactly when it lists the target's group as stale, every
      poll in [T - timeout, T] since the registration did so too, and, if no poll since the
      registration ever missed the group, the registration is longer ago than the timeout. The
      group is the registered one and the timeout the one last given, in seconds. */
  lemma DrainMeaning(events: seq<Event>, name: string, stale: set<GroupId>, at: Time) returns (r: nat, ttl: TTL)
    requires Ordered(events + [Poll(stale, at)])
    requires name in Run(NEW_ENGINE, events).targets
    ensures RegisteredAt(events, r, name) && LatestTimeout(events, r, name, ttl)
    ensures var g, d := events[r].info.group, ttl * 1_000_000_000;
            name in Drained(Run(NEW_ENGINE, events), stale, at) <==>
              && g in stale
              && (forall k :: r < k < |events| && events[k].Poll? && events[k].at >= at - d ==> g in events[k].stale)
              && ((forall k :: r < k < |events| ==> !Fresh(events[k], g)) ==> at - events[r].now > d)
  {
    r := LastSeenMeaning(events, name);
    RegistrationMeaning(events, r, name);
    var s := Run(NEW_ENGINE, events);
    ttl := s.targets[name].timeout;
    DurationArithmetic(ttl, at, s.lastSeen[name]);
    hide Run, RegisteredAt, LatestTimeout, ToDuration, Sub;
    DrainCondition(events, r, stale, at, events[r].info.group, s.lastSeen[name], ttl * 1_000_000_000);
  }

  lemma DrainCondition(events: seq<Event>, r: nat, stale: set<GroupId>, at: Time, g: GroupId, t: Time, d: Time)
    requires Ordered(events + [Poll(stale, at)]) && d >= 0
    requires r < |events| && events[r].Register? && LatestSign(events, r, g, t)
    ensures at - t > d <==>
              && (forall k :: r < k < |events| && events[k].Poll? && events[k].at >= at - d ==> g in events[k].stale)
              && ((forall k :: r < k < |events| ==> !Fresh(events[k], g)) ==> at - events[r].now > d)
  {
    var all := events + [Poll(stale, at)];
    assert forall k :: 0 <= k < |events| ==> all[k] == events[k];
    assert Ordered(events);
    if k :| r < k < |events| && Fresh(events[k], g) && events[k].at == t
            && forall j :: k < j < |events| ==> !Fresh(events[j], g) {
      forall j | r < j < |events| && events[j].Poll? && events[j].at > t ensures g in events[j].stale {
        assert j > k;
      }
      assert at - t > d || events[k].at >= at - d;
    }
  }

  /** A target that stays stale is drained in time. After its last sign of life, let every poll list
      it, let each poll come at most `period` after an earlier one or after that sign, and let
      some poll come later than the timeout. Then a poll no later than sign + timeout + period
      drains it, and every later poll drains it again. */
  lemma DrainInTime(s: EngineState, name: string, tail: seq<Event>, period: Time) returns (k: nat)
    requires name in s.targets && name in s.lastSeen && period >= 0 && Ordered(tail)
    requires forall e :: e in tail ==> e != Forget(name) && !(e.Retime? && e.name == name)
                                       && !Fresh(e, s.targets[name].group)
    requires forall i :: 0 <= i < |tail| && tail[i].Poll? ==>
               || tail[i].at - s.lastSeen[name] <= period
               || exists j :: 0 <= j < i && tail[j].Poll? && tail[i].at - tail[j].at <= period
    requires exists i :: 0 <= i < |tail| && tail[i].Poll?
                         && tail[i].at - s.lastSeen[name] > ToDuration(s.targets[name].timeout)
    ensures k < |tail| && tail[k].Poll?
    ensures tail[k].at <= s.lastSeen[name] + ToDuration(s.targets[name].timeout) + period
    ensures forall i :: k <= i < |tail| && tail[i].Poll? ==>
              name in Drained(Run(s, tail[..i]), tail[i].stale, tail[i].at)
    ensures forall i :: 0 <= i < k && tail[i].Poll? ==>
              name !in Drained(Run(s, tail[..i]), tail[i].stale, tail[i].at)
  {
    var t, d := s.lastSeen[name], ToDuration(s.targets[name].timeout);
    DurationArithmetic(s.targets[name].timeout, 0, 0);
    k := FirstLatePoll(tail, t, d, period);
    forall i | 0 <= i < |tail| && tail[i].Poll?
      ensures name in Drained(Run(s, tail[..i]), tail[i].stale, tail[i].at) <==> tail[i].at - t > d
    {
      DrainsIfLate(s, name, tail, i);
    }
  }

  /** The first poll later than `t + d` follows it by at most `period`. */
  lemma FirstLatePoll(tail: seq<Event>, t: Time, d: Time, period: Time) returns (k: nat)
    requires d >= 0 && period >= 0 && Ordered(tail)
    requires forall i :: 0 <= i < |tail| && tail[i].Poll? ==>
               || tail[i].at - t <= period
               || exists j :: 0 <= j < i && tail[j].Poll? && tail[i].at - tail[j].at <= period
    requires exists i :: 0 <= i < |tail| && tail[i].Poll? && tail[i].at - t > d
    ensures k < |tail| && tail[k].Poll? && d < tail[k].at - t <= d + period
    ensures forall i :: k <= i < |tail| && tail[i].Poll? ==> tail[i].at - t > d
    ensures forall i :: 0 <= i < k && tail[i].Poll? ==> tail[i].at - t <= d
  {
    k := 0;
    while !(tail[k].Poll? && tail[k].at - t > d)
      invariant k < |tail| && exists i :: k <= i < |tail| && tail[i].Poll? && tail[i].at - t > d
      invariant forall i :: 0 <= i < k && tail[i].Poll? ==> tail[i].at - t <= d
      decreases |tail| - k
    {
      k := k + 1;
    }
  }

  /** While a target stays stale, its sign of life stays where it is. */
  lemma DrainsIfLate(s: EngineState, name: string, tail: seq<Event>, i: nat)
    requires name in s.targets && name in s.lastSeen
    requires forall e :: e in tail ==> e != Forget(name) && !(e.Retime? && e.name == name)
                                       && !Fresh(e, s.targets[name].group)
    requires i < |tail| && tail[i].Poll?
    ensures name in Drained(Run(s, tail[..i]), tail[i].stale, tail[i].at)
       <==> tail[i].at - s.lastSeen[name] > ToDuration(s.targets[name].timeout)
  {
    hide Run, ToDuration, Sub;
    StaleStays(s, name, tail[..i]);
    DurationArithmetic(s.targets[name].timeout, tail[i].at, s.lastSeen[name]);
    assert !Fresh(tail[i], s.targets[name].group);
  }

  lemma {:induction false} StaleStays(s: EngineState, name: string, tail: seq<Event>)
    requires name in s.targets && name in s.lastSeen
    requires forall e :: e in tail ==> e != Forget(name) && !(e.Retime? && e.name == name)
                                       && !Fresh(e, s.targets[name].group)
    ensures var q := Run(s, tail);
            && name in q.targets && q.targets[name] == s.targets[name]
            && name in q.lastSeen && q.lastSeen[name] == s.lastSeen[name]
  {
    if tail == [] {
    } else {
      StaleStays(s, name, tail[..|tail| - 1]);
      assert tail[|tail| - 1] in tail;
    }
  }

  /** Over a run of polls in order, a poll moves `lastSeen` back exactly when it does not list the
      group, its tick is from before the registration that still stands, and no poll since
      then missed the group. */
  lemma WhenLastSeenMovesBack(events: seq<Event>, name: string, stale: set<GroupId>, at: Time) returns (r: nat)
    requires Ordered(events + [Poll(stale, at)])
    requires name in Run(NEW_ENGINE, events).targets
    ensures RegisteredAt(events, r, name)
    ensures var s := Run(NEW_ENGINE, events);
            var g := s.targets[name].group;
            && name in s.lastSeen && name in Seen(s, stale, at)
            && (Seen(s, stale, at)[name] < s.lastSeen[name] <==>
                  && g !in stale && at < events[r].now
                  && forall k :: r < k < |events| ==> !Fresh(events[k], g))
  {
    r := LastSeenMeaning(events, name);
    var s := Run(NEW_ENGINE, events);
    var g := s.targets[name].group;
    hide Run, RegisteredAt;
    var all := events + [Poll(stale, at)];
    if k :| r < k < |events| && Fresh(events[k], g) && events[k].at == s.lastSeen[name] {
      assert all[k].at <= all[|events|].at;
    }
  }

  /** A tick from before a registration moves `lastSeen` back when its poll is handled after it. */
  lemma LastSeenMovesBack(name: string, info: TargetInfo, registered: Time, tick: Time)
    requires tick < registered
    ensures var before := Run(NEW_ENGINE, [Register(name, info, registered)]);
            var after := Run(NEW_ENGINE, [Register(name, info, registered), Poll({}, tick)]);
            && name in before.lastSeen && name in after.lastSeen
            && after.lastSeen[name] < before.lastSeen[name]
  {
    var e1, e2 := Register(name, info, registered), Poll({}, tick);
    assert [e1, e2][..1] == [e1] && [e1][..0] == [];
    assert Run(NEW_ENGINE, [e1]) == Apply(NEW_ENGINE, e1);
  }
}

/** The part of the engine that owns the registry of targets and the idle detector. */
module Engines {
  import opened Wrappers
  import opened Idle

  datatype Error =
    | ErrClosed
    | ErrTargetAlreadyRegistered
    | ErrTargetKindNotRegistered
    | ErrHandler
    | ErrFlowGroup
    | ErrTarget
    | ErrTargetInUse

  /** How far the making of a target comes: through the lookup of its kind, the making of its
      handler, the registration of its group and its own constructor. */
  datatype Making = NoKind | NoHandler | NoGroup | NoTarget | Made(info: TargetInfo) {
    function Failure(): Option<Error> {
      match this
      case NoKind => Some(ErrTargetKindNotRegistered)
      case NoHandler => Some(ErrHandler)
      case NoGroup => Some(ErrFlowGroup)
      case NoTarget => Some(ErrTarget)
      case Made(_) => None
    }
  }

  class Engine {
    var targets: map<string, TargetInfo>
    var lastSeen: map<string, Time>
    var closed: bool

    ghost function View(): EngineState
      reads this
    {
      EngineState(targets, lastSeen)
    }

    /** Every registered target has a time, and nothing else has. */
    ghost predicate Valid()
      reads this
    {
      targets.Keys == lastSeen.Keys
    }

    constructor ()
      ensures Valid() && View() == NEW_ENGINE && !closed
    {
      targets, lastSeen, closed := map[], map[], false;
    }

    method Close()
      modifies this`closed
      ensures closed
    {
      if closed { return; }
      closed := true;
    }

    method NewTarget(name: string, making: Making, now: Time) returns (err: Option<Error>)
      requires Valid()
      modifies this
      ensures Valid() && closed == old(closed)
      ensures err == if closed then Some(ErrClosed)
                     else if name in old(targets) then Some(ErrTargetAlreadyRegistered)
                     else making.Failure()
      ensures err.None? ==> making.Made? && View() == Apply(old(View()), Register(name, making.info, now))
      ensures err.None? ==> targets == old(targets)[name := making.info] && lastSeen == old(lastSeen)[name := now]
      ensures err.Some? ==> View() == old(View())
    {
      if closed { return Some(ErrClosed); }
      if name in targets { return Some(ErrTargetAlreadyRegistered); }
      match making
      case NoKind => return Some(ErrTargetKindNotRegistered);
      case NoHandler => return Some(ErrHandler);
      case NoGroup => return Some(ErrFlowGroup);
      case NoTarget => return Some(ErrTarget);
      case Made(info) =>
        targets := targets[name := info];
        lastSeen := lastSeen[name := now];
        return None;
    }

    /** Only a target that is closed itself can be forgotten. */
    method DelTarget(name: string, isClosed: bool) returns (err: Option<Error>)
      requires Valid()
      modifies this
      ensures Valid() && closed == old(closed)
      ensures err == if closed then Some(ErrClosed)
                     else if name in old(targets) && !isClosed then Some(ErrTargetInUse) else None
      ensures err.None? ==> View() == Apply(old(View()), Forget(name))
      ensures err.Some? ==> View() == old(View())
    {
      if closed { return Some(ErrClosed); }
      if name !in targets {
        assert targets - {name} == targets && lastSeen - {name} == lastSeen;
        return None;
      }
      if !isClosed { return Some(ErrTargetInUse); }
      targets := targets - {name};
      lastSeen := lastSeen - {name};
      return None;
    }

    /** One poll: the targets are walked in any order. */
    method DetectTimeouts(stale: seq<GroupId>, at: Time) returns (drained: set<string>)
      requires Valid()
      modifies this`lastSeen
      ensures Valid()
      ensures View() == Apply(old(View()), Poll(Listed(stale), at))
      ensures drained == Drained(old(View()), Listed(stale), at)
    {
      hide Sub, ToDuration;
      ghost var was := View();
      ghost var seen, due := Seen(was, Listed(stale), at), Drained(was, Listed(stale), at);
      drained := {};
      var todo := targets.Keys;
      while todo != {}
        invariant todo <= targets.Keys == lastSeen.Keys && targets == was.targets
        invariant forall n :: n in lastSeen ==> lastSeen[n] == (if n in todo then was.lastSeen[n] else seen[n])
        invariant drained == due - todo
      {
        var n :| n in todo;
        if targets[n].group in stale {
          if Sub(at, lastSeen[n]) > ToDuration(targets[n].timeout) {
            drained := drained + {n};
          }
        } else {
          lastSeen := lastSeen[n := at];
        }
        todo := todo - {n};
      }
      assert lastSeen == seen;
    }
  }
}
