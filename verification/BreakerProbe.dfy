/**
 The circuit breaker under overlapping calls. Execute and Reset are cut into steps,
 and the steps of any number of calls interleave freely. A step is one atomic load,
 store, addition or compare-and-swap, except that some join neighbouring operations:
 `CheckTimeout` loads the last failure and reads the clock, `StampFailure` and
 `TripStamp` read the clock and store it, each change of state loads the old state and
 stores the new one, `AtLock` locks the mutex and loads the counter, and the last step
 before the mutex is given up, at `AtGuard` or `TripStamp`, also unlocks it.
 */
module BreakerProbe {
  import opened Basics
  import B = Breaker

  /** Where a call stands; `probe` is its local flag wasHalfOpen. */
  datatype Pc =
    // Execute, up to the probe slot
    | LoadState | CheckTimeout | SwapProbe | StoreHalfOpen
    // the section under the mutex
    | AtLock(probe: bool) | AtGuard(probe: bool, seen: int) | TripState(probe: bool) | TripStamp(probe: bool)
    // the protected function, and the release of the slot
    | InFunction(probe: bool) | AtRelease(probe: bool, ok: bool)
    // after a failure
    | CountFailure | StampFailure | LoadFailures | StoreOpen
    // after a success
    | LoadHalfOpen | StoreClosed | ClearFailures
    // Reset
    | ResetFailures | ResetProbe | ResetState | ResetStamp
    // returned; `Tripped(true)` left through the guard as the probe
    | Refused | Tripped(probe: bool) | Finished(ok: bool) | ResetDone

  datatype System = System(core: B.Core, lock: Option<nat>, calls: seq<Pc>)

  datatype Event =
    | StartExecute
    | StartReset
    /** The next step of a call: the clock it reads, and the function's answer, if it needs them. */
    | Advance(call: nat, now: Time, ok: bool)

  /** One step of the call `id`, which stands at `pc`. */
  function Act(s: System, id: nat, pc: Pc, now: Time, ok: bool): (B.Core, Option<nat>, Pc) {
    var c := s.core;
    match pc
    case LoadState => (c, s.lock, if c.state == B.Open then CheckTimeout else AtLock(false))
    case CheckTimeout => (c, s.lock, if now - c.lastFailure > c.resetTimeout then SwapProbe else Refused)
    case SwapProbe => if c.probing then (c, s.lock, Refused) else (c.(probing := true), s.lock, StoreHalfOpen)
    case StoreHalfOpen => (B.SetState(c, B.HalfOpen), s.lock, AtLock(true))
    case AtLock(p) => if s.lock.None? then (c, Some(id), AtGuard(p, c.failures)) else (c, s.lock, pc)
    case AtGuard(p, seen) =>
      if seen >= c.maxFailures && c.state == B.Closed then (c, s.lock, TripState(p)) else (c, None, InFunction(p))
    case TripState(p) => (B.SetState(c, B.Open), s.lock, TripStamp(p))
    case TripStamp(p) => (c.(lastFailure := now), None, Tripped(p))
    case InFunction(p) => (c, s.lock, AtRelease(p, ok))
    case AtRelease(p, result) =>
      (if p then c.(probing := false) else c, s.lock, if result then LoadHalfOpen else CountFailure)
    case CountFailure => (c.(failures := c.failures + 1), s.lock, StampFailure)
    case StampFailure => (c.(lastFailure := now), s.lock, LoadFailures)
    case LoadFailures => (c, s.lock, if c.failures >= c.maxFailures then StoreOpen else Finished(false))
    case StoreOpen => (B.SetState(c, B.Open), s.lock, Finished(false))
    case LoadHalfOpen => (c, s.lock, if c.state == B.HalfOpen then StoreClosed else ClearFailures)
    case StoreClosed => (B.SetState(c, B.Closed), s.lock, ClearFailures)
    case ClearFailures => (c.(failures := 0), s.lock, Finished(true))
    case ResetFailures => (c.(failures := 0), s.lock, ResetProbe)
    case ResetProbe => (c.(probing := false), s.lock, ResetState)
    case ResetState => (B.SetState(c, B.Closed), s.lock, ResetStamp)
    case ResetStamp => (c.(lastFailure := B.NEVER), s.lock, ResetDone)
    case _ => (c, s.lock, pc)
  }

  function Step(s: System, e: Event): System {
    match e
    case StartExecute => s.(calls := s.calls + [LoadState])
    case StartReset => s.(calls := s.calls + [ResetFailures])
    case Advance(id, now, ok) =>
      if id >= |s.calls| then s
      else
        var (core, lock, pc) := Act(s, id, s.calls[id], now, ok);
        System(core, lock, s.calls[id := pc])
  }

  function Run(s: System, events: seq<Event>): System {
    if events == [] then s else Step(Run(s, events[..|events| - 1]), events[|events| - 1])
  }

  function Fresh(maxFailures: int, resetTimeout: Time): System {
    System(B.Fresh(maxFailures, resetTimeout), None, [])
  }

  predicate Returned(pc: Pc) {
    pc.Refused? || pc.Tripped? || pc.Finished? || pc.ResetDone?
  }

  /** The call has won the compare-and-swap and not yet released the slot. */
  predicate Holding(pc: Pc) {
    match pc
    case StoreHalfOpen => true
    case AtLock(p) => p
    case AtGuard(p, _) => p
    case TripState(p) => p
    case TripStamp(p) => p
    case InFunction(p) => p
    case AtRelease(p, _) => p
    case _ => false
  }

  /** The call has returned without releasing the slot it won. */
  predicate LeftHolding(pc: Pc) {
    pc == Tripped(true)
  }

  predicate Resetting(pc: Pc) {
    pc.ResetFailures? || pc.ResetProbe? || pc.ResetState? || pc.ResetStamp?
  }

  /** Nothing is in flight. */
  ghost predicate AtRest(s: System) {
    forall k :: 0 <= k < |s.calls| ==> Returned(s.calls[k])
  }

  ghost predicate NoReset(events: seq<Event>) {
    forall k :: 0 <= k < |events| ==> events[k] != StartReset
  }

  // ---------------------------------------------------------------- the mutex

  predicate InSection(pc: Pc) {
    pc.AtGuard? || pc.TripState? || pc.TripStamp?
  }

  /** The mutex is held exactly by the call that is in the section it protects. */
  ghost predicate LockMatches(s: System) {
    && (s.lock.Some? ==> s.lock.value < |s.calls|)
    && forall k :: 0 <= k < |s.calls| ==> (InSection(s.calls[k]) <==> s.lock == Some(k))
  }

  lemma ActMovesLock(s: System, id: nat, pc: Pc, now: Time, ok: bool)
    requires InSection(pc) <==> s.lock == Some(id)
    ensures var (_, lock, next) := Act(s, id, pc, now, ok);
            && (InSection(next) <==> lock == Some(id))
            && (lock == s.lock || (lock == None && s.lock == Some(id)) || (lock == Some(id) && s.lock.None?))
  {
  }

  /** In every interleaving, resets included, at most one call is between the mutex's lock and unlock. */
  lemma {:induction false} MutexIsExclusive(maxFailures: int, resetTimeout: Time, events: seq<Event>)
    ensures LockMatches(Run(Fresh(maxFailures, resetTimeout), events))
  {
    if events != [] {
      var init, e := events[..|events| - 1], events[|events| - 1];
      MutexIsExclusive(maxFailures, resetTimeout, init);
      var s := Run(Fresh(maxFailures, resetTimeout), init);
      if e.Advance? && e.call < |s.calls| {
        ActMovesLock(s, e.call, s.calls[e.call], e.now, e.ok);
      }
    }
  }

  // ---------------------------------------------------------------- who owns the slot

  predicate Owns(pc: Pc) {
    Holding(pc) || LeftHolding(pc)
  }

  /** With resets about: a taken slot has an owner. */
  ghost predicate TakenHasOwner(s: System) {
    s.core.probing ==> exists k :: 0 <= k < |s.calls| && Owns(s.calls[k])
  }

  /** Without resets: the slot is taken exactly when it has an owner, and it has at most one. */
  ghost predicate OneOwner(s: System) {
    && (s.core.probing <==> exists k :: 0 <= k < |s.calls| && Owns(s.calls[k]))
    && (forall j, k :: 0 <= j < k < |s.calls| ==> !(Owns(s.calls[j]) && Owns(s.calls[k])))
    && (forall k :: 0 <= k < |s.calls| ==> !Resetting(s.calls[k]))
  }

  /** A step takes the slot, gives it back, or leaves it alone, as its call's ownership changes. */
  lemma ActMovesSlot(s: System, id: nat, pc: Pc, now: Time, ok: bool)
    requires !Resetting(pc)
    ensures var (core, _, next) := Act(s, id, pc, now, ok);
            && !Resetting(next)
            && (Owns(pc) == Owns(next) ==> core.probing == s.core.probing)
            && (!Owns(pc) && Owns(next) ==> !s.core.probing && core.probing)
            && (Owns(pc) && !Owns(next) ==> !core.probing)
  {
  }

  lemma UpdateKeepsOneOwner(s: System, t: System, id: nat)
    requires OneOwner(s) && id < |s.calls| == |t.calls| && t.calls == s.calls[id := t.calls[id]]
    requires !Resetting(t.calls[id])
    requires Owns(s.calls[id]) == Owns(t.calls[id]) ==> t.core.probing == s.core.probing
    requires !Owns(s.calls[id]) && Owns(t.calls[id]) ==> !s.core.probing && t.core.probing
    requires Owns(s.calls[id]) && !Owns(t.calls[id]) ==> !t.core.probing
    ensures OneOwner(t)
  {
    if k :| 0 <= k < |s.calls| && k != id && Owns(s.calls[k]) {
      assert Owns(t.calls[k]);
    }
  }

  lemma StepKeepsOneOwner(s: System, e: Event)
    requires OneOwner(s) && e != StartReset
    ensures OneOwner(Step(s, e))
  {
    var t := Step(s, e);
    if e.Advance? && e.call < |s.calls| {
      ActMovesSlot(s, e.call, s.calls[e.call], e.now, e.ok);
      UpdateKeepsOneOwner(s, t, e.call);
    } else {
      assert forall k :: 0 <= k < |s.calls| ==> t.calls[k] == s.calls[k];
    }
  }

  lemma StepKeepsTakenHasOwner(s: System, e: Event)
    requires TakenHasOwner(s)
    ensures TakenHasOwner(Step(s, e))
  {
    var t := Step(s, e);
    if t.core.probing {
      if e.Advance? && e.call < |s.calls| && Owns(t.calls[e.call]) {
      } else {
        assert s.core.probing;
        var k :| 0 <= k < |s.calls| && Owns(s.calls[k]);
        assert Owns(t.calls[k]);
      }
    }
  }

  lemma {:induction false} RunKeepsOwnership(s: System, events: seq<Event>)
    ensures TakenHasOwner(s) ==> TakenHasOwner(Run(s, events))
    ensures OneOwner(s) && NoReset(events) ==> OneOwner(Run(s, events))
  {
    if events != [] {
      var init, e := events[..|events| - 1], events[|events| - 1];
      RunKeepsOwnership(s, init);
      if TakenHasOwner(Run(s, init)) {
        StepKeepsTakenHasOwner(Run(s, init), e);
      }
      if OneOwner(Run(s, init)) && e != StartReset {
        StepKeepsOneOwner(Run(s, init), e);
      }
    }
  }

  /** Exactly one call in flight sits between winning the slot and releasing it. */
  ghost predicate OneHolder(s: System) {
    exists k :: 0 <= k < |s.calls| && Holding(s.calls[k]) &&
      forall j :: 0 <= j < |s.calls| && j != k ==> !Holding(s.calls[j])
  }

  /**
   In every interleaving without Reset there is never a second holder, and the
   slot is taken exactly when one call in flight holds it, if and only if no call
   has returned through the guard under the mutex as the probe.
   */
  lemma SlotMatchesHolderIff(maxFailures: int, resetTimeout: Time, events: seq<Event>)
    requires NoReset(events)
    ensures var s := Run(Fresh(maxFailures, resetTimeout), events);
            && (forall j, k :: 0 <= j < k < |s.calls| ==> !(Holding(s.calls[j]) && Holding(s.calls[k])))
            && ((s.core.probing <==> OneHolder(s)) <==> forall k :: 0 <= k < |s.calls| ==> !LeftHolding(s.calls[k]))
  {
    var s := Run(Fresh(maxFailures, resetTimeout), events);
    RunKeepsOwnership(Fresh(maxFailures, resetTimeout), events);
    if k :| 0 <= k < |s.calls| && Owns(s.calls[k]) {
      assert s.core.probing;
      assert forall j :: 0 <= j < |s.calls| && j != k ==> !Owns(s.calls[j]);
      assert Holding(s.calls[k]) ==> OneHolder(s);
    }
  }

  // ---------------------------------------------------------------- when the slot is lost

  /** The next step is that of the probe at the guard, and the guard is true. */
  predicate GuardFires(s: System, e: Event) {
    && e.Advance? && e.call < |s.calls|
    && s.calls[e.call].AtGuard? && s.calls[e.call].probe
    && s.calls[e.call].seen >= s.core.maxFailures && s.core.state == B.Closed
  }

  /** At some point of the run the guard fires for the probe. */
  predicate GuardFired(s: System, events: seq<Event>) {
    events != [] &&
    (GuardFired(s, events[..|events| - 1]) || GuardFires(Run(s, events[..|events| - 1]), events[|events| - 1]))
  }

  predicate Losing(pc: Pc) {
    pc == TripState(true) || pc == TripStamp(true) || pc == Tripped(true)
  }

  predicate SomeLosing(s: System) {
    exists k :: 0 <= k < |s.calls| && Losing(s.calls[k])
  }

  lemma StepLosesIffGuardFires(s: System, e: Event)
    ensures SomeLosing(Step(s, e)) <==> SomeLosing(s) || GuardFires(s, e)
  {
    var t := Step(s, e);
    if k :| 0 <= k < |s.calls| && Losing(s.calls[k]) {
      assert Losing(t.calls[k]);
    }
    if GuardFires(s, e) {
      assert Losing(t.calls[e.call]);
    }
  }

  lemma {:induction false} LostIffGuardFired(s: System, events: seq<Event>)
    requires !SomeLosing(s)
    ensures SomeLosing(Run(s, events)) <==> GuardFired(s, events)
  {
    if events != [] {
      LostIffGuardFired(s, events[..|events| - 1]);
      StepLosesIffGuardFires(Run(s, events[..|events| - 1]), events[|events| - 1]);
    }
  }

  /**
   When every call has returned, in a run without Reset, the slot is free if and
   only if the guard never fired for the probe.
   */
  lemma SlotFreeAtRestIff(maxFailures: int, resetTimeout: Time, events: seq<Event>)
    requires NoReset(events)
    requires AtRest(Run(Fresh(maxFailures, resetTimeout), events))
    ensures !Run(Fresh(maxFailures, resetTimeout), events).core.probing
            <==> !GuardFired(Fresh(maxFailures, resetTimeout), events)
  {
    RunKeepsOwnership(Fresh(maxFailures, resetTimeout), events);
    LostIffGuardFired(Fresh(maxFailures, resetTimeout), events);
    var s := Run(Fresh(maxFailures, resetTimeout), events);
    assert forall k :: 0 <= k < |s.calls| ==> (Owns(s.calls[k]) <==> Losing(s.calls[k]));
  }

  /** Whatever resets interleave, only the guard can leave the slot taken when all calls have returned. */
  lemma OnlyTheGuardLosesTheSlot(maxFailures: int, resetTimeout: Time, events: seq<Event>)
    requires AtRest(Run(Fresh(maxFailures, resetTimeout), events))
    requires !GuardFired(Fresh(maxFailures, resetTimeout), events)
    ensures !Run(Fresh(maxFailures, resetTimeout), events).core.probing
  {
    RunKeepsOwnership(Fresh(maxFailures, resetTimeout), events);
    LostIffGuardFired(Fresh(maxFailures, resetTimeout), events);
  }

  /** The step is a compare-and-swap that wins the slot. */
  predicate Wins(s: System, e: Event) {
    e.Advance? && e.call < |s.calls| && s.calls[e.call] == SwapProbe && !s.core.probing
  }

  /** The step stores a free slot: the release by a probe, or a Reset. */
  predicate Clears(s: System, e: Event) {
    && e.Advance? && e.call < |s.calls|
    && (s.calls[e.call].ResetProbe? || (s.calls[e.call].AtRelease? && s.calls[e.call].probe))
  }

  /** The call that last won the slot, if neither a release nor a Reset has freed it since. */
  function Winner(s: System, events: seq<Event>): Option<nat> {
    if events == [] then None
    else
      var init, e := events[..|events| - 1], events[|events| - 1];
      if Wins(Run(s, init), e) then Some(e.call)
      else if Clears(Run(s, init), e) then None
      else Winner(s, init)
  }

  /** Only winning sets the flag and only clearing unsets it; an owner stays one until it clears it. */
  lemma ActOnFlag(s: System, id: nat, pc: Pc, now: Time, ok: bool)
    ensures var (core, _, next) := Act(s, id, pc, now, ok);
            var clears := pc.ResetProbe? || (pc.AtRelease? && pc.probe);
            && (core.probing <==> pc == SwapProbe || (s.core.probing && !clears))
            && (pc == SwapProbe && !s.core.probing ==> Owns(next))
            && (Owns(pc) && !clears ==> Owns(next))
  {
  }

  lemma StepKeepsWinner(s: System, e: Event, w: Option<nat>)
    requires s.core.probing <==> w.Some?
    requires w.Some? ==> w.value < |s.calls| && Owns(s.calls[w.value])
    ensures var t, w' := Step(s, e), if Wins(s, e) then Some(e.call) else if Clears(s, e) then None else w;
            && (t.core.probing <==> w'.Some?)
            && (w'.Some? ==> w'.value < |t.calls| && Owns(t.calls[w'.value]))
  {
    if e.Advance? && e.call < |s.calls| {
      ActOnFlag(s, e.call, s.calls[e.call], e.now, e.ok);
      var t := Step(s, e);
      assert forall k :: 0 <= k < |s.calls| && k != e.call ==> t.calls[k] == s.calls[k];
    }
  }

  lemma {:induction false} WinnerOwns(s: System, events: seq<Event>)
    requires !s.core.probing
    ensures var t, w := Run(s, events), Winner(s, events);
            && (t.core.probing <==> w.Some?)
            && (w.Some? ==> w.value < |t.calls| && Owns(t.calls[w.value]))
  {
    if events != [] {
      var init := events[..|events| - 1];
      WinnerOwns(s, init);
      StepKeepsWinner(Run(s, init), events[|events| - 1], Winner(s, init));
    }
  }

  /**
   Whatever resets interleave, when every call has returned the slot is taken if and
   only if the call that last won it, with no Reset since, left through the guard.
   */
  lemma SlotTakenAtRestIff(maxFailures: int, resetTimeout: Time, events: seq<Event>)
    requires AtRest(Run(Fresh(maxFailures, resetTimeout), events))
    ensures var s, w := Run(Fresh(maxFailures, resetTimeout), events), Winner(Fresh(maxFailures, resetTimeout), events);
            s.core.probing <==> w.Some? && w.value < |s.calls| && s.calls[w.value] == Tripped(true)
  {
    WinnerOwns(Fresh(maxFailures, resetTimeout), events);
  }

  // ---------------------------------------------------------------- why it is lost

  predicate StepsFrom(s: System, e: Event, pc: Pc) {
    e.Advance? && e.call < |s.calls| && s.calls[e.call] == pc
  }

  /** Call `p` is the probe and has not passed the guard. */
  predicate ProbeBeforeGuard(s: System, p: nat) {
    p < |s.calls| && match s.calls[p] case AtLock(probe) => probe case AtGuard(probe, _) => probe case _ => false
  }

  lemma {:induction false} ProbeStoredHalfOpen(s: System, events: seq<Event>, p: nat) returns (i: nat)
    requires !ProbeBeforeGuard(s, p) && ProbeBeforeGuard(Run(s, events), p)
    ensures i < |events| && StepsFrom(Run(s, events[..i]), events[i], StoreHalfOpen) && events[i].call == p
  {
    var n := |events| - 1;
    if ProbeBeforeGuard(Run(s, events[..n]), p) {
      i := ProbeStoredHalfOpen(s, events[..n], p);
      assert events[..n][..i] == events[..i];
    } else {
      i := n;
    }
  }

  lemma StepClosesUnderProbe(s: System, e: Event, p: nat)
    requires forall k :: 0 <= k < |s.calls| ==> !Resetting(s.calls[k])
    requires ProbeBeforeGuard(Step(s, e), p) && Step(s, e).core.state == B.Closed
    ensures ProbeBeforeGuard(s, p)
    ensures s.core.state == B.Closed || (StepsFrom(s, e, StoreClosed) && e.call != p)
  {
  }

  /** Only a late success can close the breaker between the probe's "half-open" and its guard. */
  lemma {:induction false} ClosedUnderProbe(s: System, events: seq<Event>, p: nat) returns (i: nat, j: nat)
    requires OneOwner(s) && NoReset(events) && !ProbeBeforeGuard(s, p)
    requires ProbeBeforeGuard(Run(s, events), p) && Run(s, events).core.state == B.Closed
    ensures i < j < |events| && events[i].Advance? && events[i].call == p
    ensures StepsFrom(Run(s, events[..i]), events[i], StoreHalfOpen)
    ensures StepsFrom(Run(s, events[..j]), events[j], StoreClosed) && events[j].call != p
  {
    var n := |events| - 1;
    var init := events[..n];
    RunKeepsOwnership(s, init);
    StepClosesUnderProbe(Run(s, init), events[n], p);
    if Run(s, init).core.state == B.Closed {
      i, j := ClosedUnderProbe(s, init, p);
      assert init[..j] == events[..j];
    } else {
      i := ProbeStoredHalfOpen(s, init, p);
      j := n;
    }
    assert init[..i] == events[..i];
  }

  /**
   Whenever the guard fires for a probe, in a run without Reset, another call has
   stored "closed" after a success since the probe stored "half-open".
   */
  lemma {:induction false} LossNeedsLateSuccess(maxFailures: int, resetTimeout: Time, events: seq<Event>, e: Event)
    returns (i: nat, j: nat)
    requires NoReset(events) && GuardFires(Run(Fresh(maxFailures, resetTimeout), events), e)
    ensures i < j < |events| && events[i].Advance? && events[i].call == e.call
    ensures var blank := Fresh(maxFailures, resetTimeout);
            && StepsFrom(Run(blank, events[..i]), events[i], StoreHalfOpen)
            && StepsFrom(Run(blank, events[..j]), events[j], StoreClosed) && events[j].call != e.call
  {
    i, j := ClosedUnderProbe(Fresh(maxFailures, resetTimeout), events, e.call);
  }

  // ---------------------------------------------------------------- what losing it costs

  /** A call that can no longer get past the breaker. */
  predicate Shut(pc: Pc) {
    pc == LoadState || pc == CheckTimeout || pc == SwapProbe || pc == Refused
  }

  ghost predicate Stuck(s: System, from: nat) {
    && s.core.probing && s.core.state == B.Open
    && from <= |s.calls|
    && (forall k :: 0 <= k < from ==> Returned(s.calls[k]))
    && (forall k :: from <= k < |s.calls| ==> Shut(s.calls[k]))
  }

  /**
   An open breaker at rest with its slot taken never recovers: without a Reset,
   no later call ever reaches the protected function, however long it waits.
   */
  lemma {:induction false} LostSlotStaysOpen(s: System, events: seq<Event>)
    requires AtRest(s) && s.core.probing && s.core.state == B.Open && NoReset(events)
    ensures Stuck(Run(s, events), |s.calls|)
  {
    if events != [] {
      LostSlotStaysOpen(s, events[..|events| - 1]);
      assert NoReset(events[..|events| - 1]);
    }
  }

  // ---------------------------------------------------------------- it does happen

  /** A run without Reset whose clock readings never go back and end by `now`. */
  predicate Timely(events: seq<Event>, now: Time) {
    events == [] ||
    var init := events[..|events| - 1];
    match events[|events| - 1]
    case StartExecute => Timely(init, now)
    case StartReset => false
    case Advance(_, at, _) => at <= now && Timely(init, at)
  }

  lemma {:induction false} TimelyHasNoReset(events: seq<Event>, now: Time)
    requires Timely(events, now)
    ensures NoReset(events)
  {
    if events != [] {
      var e := events[|events| - 1];
      TimelyHasNoReset(events[..|events| - 1], if e.Advance? then e.now else now);
    }
  }

  lemma {:induction false} TimelyLater(events: seq<Event>, now: Time, later: Time)
    requires Timely(events, now) && now <= later
    ensures Timely(events, later)
  {
    if events != [] && events[|events| - 1].StartExecute? {
      TimelyLater(events[..|events| - 1], now, later);
    }
  }

  /** A run that has reached `s`, with the clock at `now`. */
  ghost predicate Reaches(blank: System, events: seq<Event>, now: Time, s: System) {
    Run(blank, events) == s && Timely(events, now)
  }

  /** One more step of call `id`. */
  lemma Then(blank: System, events: seq<Event>, before: Time, s: System, id: nat, now: Time, ok: bool)
    returns (longer: seq<Event>, next: System)
    requires Reaches(blank, events, before, s) && before <= now
    ensures next == Step(s, Advance(id, now, ok)) && Reaches(blank, longer, now, next)
  {
    var e := Advance(id, now, ok);
    longer, next := events + [e], Step(s, e);
    assert longer[..|events|] == events;
    TimelyLater(events, before, now);
  }

  /** Starts three calls; the first is left inside the protected function. */
  lemma SlowCallEnters() returns (events: seq<Event>, s: System)
    ensures Reaches(Fresh(1, 10), events, 1, s)
    ensures s == System(B.Fresh(1, 10), None, [InFunction(false), LoadState, LoadState])
  {
    var blank := Fresh(1, 10);
    assert [StartExecute][..0] == [] && [StartExecute, StartExecute][..1] == [StartExecute];
    events := [StartExecute, StartExecute, StartExecute];
    assert events[..2] == [StartExecute, StartExecute];
    s := Run(blank, events);
    events, s := Then(blank, events, 1, s, 0, 1, true);
    events, s := Then(blank, events, 1, s, 0, 1, true);
    events, s := Then(blank, events, 1, s, 0, 1, true);
  }

  lemma SecondCallRuns() returns (events: seq<Event>, s: System)
    ensures Reaches(Fresh(1, 10), events, 5, s)
    ensures s == System(B.Fresh(1, 10), None, [InFunction(false), AtRelease(false, false), LoadState])
  {
    var blank := Fresh(1, 10);
    events, s := SlowCallEnters();
    events, s := Then(blank, events, 1, s, 1, 5, false);
    events, s := Then(blank, events, 5, s, 1, 5, false);
    events, s := Then(blank, events, 5, s, 1, 5, false);
    events, s := Then(blank, events, 5, s, 1, 5, false);
  }

  lemma SecondCallCounts() returns (events: seq<Event>, s: System)
    ensures Reaches(Fresh(1, 10), events, 5, s)
    ensures s == System(B.Core(1, 10, 1, 5, B.Closed, false, []), None, [InFunction(false), LoadFailures, LoadState])
  {
    var blank := Fresh(1, 10);
    events, s := SecondCallRuns();
    events, s := Then(blank, events, 5, s, 1, 5, false);
    events, s := Then(blank, events, 5, s, 1, 5, false);
    events, s := Then(blank, events, 5, s, 1, 5, false);
  }

  /** The second call fails and opens the breaker. */
  lemma SecondCallOpens() returns (events: seq<Event>, s: System)
    ensures Reaches(Fresh(1, 10), events, 5, s)
    ensures s == System(B.Core(1, 10, 1, 5, B.Open, false, [(B.Closed, B.Open)]), None,
                        [InFunction(false), Finished(false), LoadState])
  {
    var blank := Fresh(1, 10);
    events, s := SecondCallCounts();
    events, s := Then(blank, events, 5, s, 1, 5, false);
    events, s := Then(blank, events, 5, s, 1, 5, false);
  }

  /** The third call wins the probe slot. */
  lemma ThirdCallProbes() returns (events: seq<Event>, s: System)
    ensures Reaches(Fresh(1, 10), events, 20, s)
    ensures s == System(B.Core(1, 10, 1, 5, B.HalfOpen, true, [(B.Closed, B.Open), (B.Open, B.HalfOpen)]), None,
                        [InFunction(false), Finished(false), AtLock(true)])
  {
    var blank := Fresh(1, 10);
    events, s := SecondCallOpens();
    events, s := Then(blank, events, 5, s, 2, 20, true);
    events, s := Then(blank, events, 20, s, 2, 20, true);
    events, s := Then(blank, events, 20, s, 2, 20, true);
    events, s := Then(blank, events, 20, s, 2, 20, true);
  }

  /** The first call succeeds and closes the breaker, but has yet to clear the counter. */
  lemma LateSuccessCloses() returns (events: seq<Event>, s: System)
    ensures Reaches(Fresh(1, 10), events, 20, s)
    ensures s == System(B.Core(1, 10, 1, 5, B.Closed, true,
                               [(B.Closed, B.Open), (B.Open, B.HalfOpen), (B.HalfOpen, B.Closed)]), None,
                        [ClearFailures, Finished(false), AtLock(true)])
  {
    var blank := Fresh(1, 10);
    events, s := ThirdCallProbes();
    events, s := Then(blank, events, 20, s, 0, 20, true);
    events, s := Then(blank, events, 20, s, 0, 20, true);
    events, s := Then(blank, events, 20, s, 0, 20, true);
    events, s := Then(blank, events, 20, s, 0, 20, true);
  }

  /** The probe finds a full counter and a closed breaker, and opens it again. */
  lemma ProbeTrips() returns (events: seq<Event>, s: System)
    ensures Reaches(Fresh(1, 10), events, 20, s)
    ensures s.calls == [ClearFailures, Finished(false), TripStamp(true)]
    ensures s.core.probing && s.core.state == B.Open
  {
    var blank := Fresh(1, 10);
    events, s := LateSuccessCloses();
    events, s := Then(blank, events, 20, s, 2, 20, true);
    events, s := Then(blank, events, 20, s, 2, 20, true);
    events, s := Then(blank, events, 20, s, 2, 20, true);
  }

  /**
   The slot does get lost: with a limit of one failure, a slow success that closes
   the breaker just before the probe takes the mutex makes the probe leave through
   the guard. All calls return, the breaker is open and its slot is taken.
   */
  lemma SlotCanBeLost() returns (events: seq<Event>)
    ensures Timely(events, 20) && NoReset(events)
    ensures var s := Run(Fresh(1, 10), events);
            AtRest(s) && s.core.probing && s.core.state == B.Open && s.core.failures == 0
  {
    var blank := Fresh(1, 10);
    var s: System;
    events, s := ProbeTrips();
    events, s := Then(blank, events, 20, s, 2, 20, true);
    events, s := Then(blank, events, 20, s, 0, 20, true);
    TimelyHasNoReset(events, 20);
  }

  // ---------------------------------------------------------------- a call on its own

  /** The clock reading that a step of call `e` takes. */
  function Clock(pc: Pc, e: B.Event): Time
    requires e.Call?
  {
    match pc
    case CheckTimeout => e.checkedAt
    case TripStamp(_) => e.lockedAt
    case _ => e.finishedAt
  }

  /** An upper bound on the steps still to come. */
  function Rank(pc: Pc): nat {
    match pc
    case LoadState => 15
    case CheckTimeout => 14
    case SwapProbe => 13
    case StoreHalfOpen => 12
    case AtLock(_) => 11
    case AtGuard(_, _) => 10
    case TripState(_) => 9
    case TripStamp(_) => 8
    case InFunction(_) => 7
    case AtRelease(_, _) => 6
    case CountFailure => 5
    case StampFailure => 4
    case LoadFailures => 3
    case StoreOpen => 2
    case LoadHalfOpen => 3
    case StoreClosed => 2
    case ClearFailures => 1
    case ResetFailures => 4
    case ResetProbe => 3
    case ResetState => 2
    case ResetStamp => 1
    case _ => 0
  }

  /** Runs one call to its end with no other call stepping in between. */
  function Solo(c: B.Core, lock: Option<nat>, id: nat, pc: Pc, e: B.Event): (B.Core, Option<nat>, Pc)
    requires e.Call? && (pc.AtLock? ==> lock.None?)
    requires Rank(pc) > 11 ==> lock.None?
    decreases Rank(pc)
  {
    if Returned(pc) then (c, lock, pc)
    else
      var (c', lock', pc') := Act(System(c, lock, []), id, pc, Clock(pc, e), e.ok);
      Solo(c', lock', id, pc', e)
  }

  lemma SoloSuccess(c: B.Core, id: nat, e: B.Event)
    requires e.Call? && e.ok
    ensures Solo(c, None, id, LoadHalfOpen, e) == (B.Settle(c, e, false), None, Finished(true))
  {
    var c1 := if c.state == B.HalfOpen then B.SetState(c, B.Closed) else c;
    assert Solo(c1, None, id, ClearFailures, e) == (c1.(failures := 0), None, Finished(true));
    assert Solo(c, None, id, LoadHalfOpen, e) == Solo(c1, None, id, ClearFailures, e);
  }

  lemma SoloFailure(c: B.Core, id: nat, e: B.Event)
    requires e.Call? && !e.ok
    ensures Solo(c, None, id, CountFailure, e) == (B.Settle(c, e, false), None, Finished(false))
  {
    var c1 := c.(failures := c.failures + 1, lastFailure := e.finishedAt);
    var c2 := if c1.failures >= c1.maxFailures then B.SetState(c1, B.Open) else c1;
    assert Solo(c1, None, id, LoadFailures, e) == (c2, None, Finished(false));
    assert Solo(c, None, id, CountFailure, e) == Solo(c1, None, id, LoadFailures, e);
  }

  lemma SoloSettles(c: B.Core, id: nat, probe: bool, e: B.Event)
    requires e.Call?
    ensures Solo(c, None, id, AtRelease(probe, e.ok), e) == (B.Settle(c, e, probe), None, Finished(e.ok))
  {
    var c1 := if probe then c.(probing := false) else c;
    if e.ok {
      SoloSuccess(c1, id, e);
    } else {
      SoloFailure(c1, id, e);
    }
  }

  /** From the mutex on. */
  lemma SoloFromLock(c: B.Core, id: nat, probe: bool, e: B.Event)
    requires e.Call?
    ensures Solo(c, None, id, AtLock(probe), e) ==
            if c.failures >= c.maxFailures && c.state == B.Closed
            then (B.SetState(c, B.Open).(lastFailure := e.lockedAt), None, Tripped(probe))
            else (B.Settle(c, e, probe), None, Finished(e.ok))
  {
    var g := AtGuard(probe, c.failures);
    assert Solo(c, None, id, AtLock(probe), e) == Solo(c, Some(id), id, g, e);
    if c.failures >= c.maxFailures && c.state == B.Closed {
      var open := B.SetState(c, B.Open);
      assert Solo(open, Some(id), id, TripStamp(probe), e) == (open.(lastFailure := e.lockedAt), None, Tripped(probe));
      assert Solo(c, Some(id), id, g, e) == Solo(open, Some(id), id, TripStamp(probe), e);
    } else {
      SoloSettles(c, id, probe, e);
      assert Solo(c, Some(id), id, g, e) == Solo(c, None, id, AtRelease(probe, e.ok), e);
    }
  }

  /** A call that no other call overlaps does what the sequential breaker does. */
  lemma {:induction false} SoloCallIsExecute(c: B.Core, id: nat, e: B.Event)
    requires e.Call?
    ensures var (after, lock, pc) := Solo(c, None, id, LoadState, e);
            && (after, if pc.Finished? then B.Ran(e.ok, e.finishedAt) else B.Refused) == B.Execute(c, e)
            && lock.None? && Returned(pc)
  {
    if c.state != B.Open {
      SoloFromLock(c, id, false, e);
    } else if B.TurnedAway(c, e) {
      assert Solo(c, None, id, LoadState, e) == Solo(c, None, id, CheckTimeout, e);
    } else {
      var half := B.SetState(c.(probing := true), B.HalfOpen);
      SoloFromLock(half, id, true, e);
      assert Solo(c, None, id, LoadState, e) == Solo(c, None, id, SwapProbe, e);
      assert Solo(c, None, id, SwapProbe, e) == Solo(half, None, id, AtLock(true), e);
    }
  }

  /** A reset that nothing overlaps does what the sequential one does. */
  lemma {:induction false} SoloResetIsReset(c: B.Core, id: nat, e: B.Event)
    requires e.Call?
    ensures Solo(c, None, id, ResetFailures, e) == (B.Reset(c), None, ResetDone)
  {
    var closed := B.SetState(c.(failures := 0, probing := false), B.Closed);
    assert Solo(closed, None, id, ResetStamp, e) == (B.Reset(c), None, ResetDone);
    assert Solo(c, None, id, ResetFailures, e) == Solo(c.(failures := 0, probing := false), None, id, ResetState, e);
  }
}
