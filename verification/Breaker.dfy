/**
 The circuit breaker, one call after another. The failure counter is an unbounded
 integer, and the protected function is represented by the outcome it would have.
 */
module Breaker {
  import opened Basics

  datatype State = Closed | HalfOpen | Open

  /** The breaker's fields, and the state changes it has announced. */
  datatype Core = Core(
    maxFailures: int,
    resetTimeout: Time,
    failures: int,
    lastFailure: Time,
    state: State,
    probing: bool,
    announced: seq<(State, State)>)

  const DEFAULT_FAILURES := 5
  const DEFAULT_TIMEOUT: Time := 30 * SECOND

  /** The zero time. */
  const NEVER: Time := 0

  function Fresh(maxFailures: int, resetTimeout: Time): Core {
    Core(if maxFailures <= 0 then DEFAULT_FAILURES else maxFailures,
         if resetTimeout <= 0 then DEFAULT_TIMEOUT else resetTimeout,
         0, NEVER, Closed, false, [])
  }

  function SetState(c: Core, s: State): Core {
    c.(state := s, announced := if c.state != s then c.announced + [(c.state, s)] else c.announced)
  }

  /** A call with the instants at which it reads the clock, and what the function would answer; or a reset. */
  datatype Event =
    | Call(checkedAt: Time, lockedAt: Time, finishedAt: Time, ok: bool)
    | ResetCall

  /** What became of an event. */
  datatype Entry =
    | Ran(ok: bool, at: Time)
    | Refused
    | WasReset

  /** A call is refused before it reaches the counter. */
  predicate TurnedAway(c: Core, e: Event)
    requires e.Call?
  {
    c.state == Open && (e.checkedAt - c.lastFailure <= c.resetTimeout || c.probing)
  }

  function Admit(c: Core): Core {
    if c.state == Open then SetState(c.(probing := true), HalfOpen) else c
  }

  function Settle(c: Core, e: Event, probe: bool): Core
    requires e.Call?
  {
    var c := if probe then c.(probing := false) else c;
    if e.ok then
      (if c.state == HalfOpen then SetState(c, Closed) else c).(failures := 0)
    else
      var c := c.(failures := c.failures + 1, lastFailure := e.finishedAt);
      if c.failures >= c.maxFailures then SetState(c, Open) else c
  }

  function Execute(c: Core, e: Event): (Core, Entry)
    requires e.Call?
  {
    if TurnedAway(c, e) then (c, Refused)
    else
      var a := Admit(c);
      if a.failures >= a.maxFailures && a.state == Closed then
        (SetState(a, Open).(lastFailure := e.lockedAt), Refused)
      else (Settle(a, e, c.state == Open), Ran(e.ok, e.finishedAt))
  }

  function Reset(c: Core): Core {
    SetState(c.(failures := 0, probing := false), Closed).(lastFailure := NEVER)
  }

  function Step(c: Core, e: Event): (Core, Entry) {
    if e.ResetCall? then (Reset(c), WasReset) else Execute(c, e)
  }

  class Breaker {
    const maxFailures: int
    const resetTimeout: Time
    var failures: int
    var lastFailure: Time
    var state: State
    var probing: bool
    var announced: seq<(State, State)>

    function Model(): Core reads this {
      Core(maxFailures, resetTimeout, failures, lastFailure, state, probing, announced)
    }

    constructor (maxFailures: int, resetTimeout: Time)
      ensures Model() == Fresh(maxFailures, resetTimeout)
    {
      this.maxFailures := if maxFailures <= 0 then DEFAULT_FAILURES else maxFailures;
      this.resetTimeout := if resetTimeout <= 0 then DEFAULT_TIMEOUT else resetTimeout;
      failures, lastFailure, state, probing, announced := 0, NEVER, Closed, false, [];
    }

    method SetStateTo(s: State)
      modifies this`state, this`announced
      ensures Model() == SetState(old(Model()), s)
    {
      var before := state;
      state := s;
      if before != s {
        announced := announced + [(before, s)];
      }
    }

    method Execute(e: Event) returns (r: Entry)
      requires e.Call?
      modifies this
      ensures (Model(), r) == Step(old(Model()), e)
    {
      var wasHalfOpen := false;
      if state == Open {
        if e.checkedAt - lastFailure > resetTimeout {
          if probing {
            return Refused;
          }
          probing := true;
          SetStateTo(HalfOpen);
          wasHalfOpen := true;
        } else {
          return Refused;
        }
      }
      if failures >= maxFailures && state == Closed {
        SetStateTo(Open);
        lastFailure := e.lockedAt;
        return Refused;
      }
      if wasHalfOpen {
        probing := false;
      }
      if !e.ok {
        failures := failures + 1;
        lastFailure := e.finishedAt;
        if failures >= maxFailures {
          SetStateTo(Open);
        }
      } else {
        if state == HalfOpen {
          SetStateTo(Closed);
        }
        failures := 0;
      }
      return Ran(e.ok, e.finishedAt);
    }

    method Reset()
      modifies this
      ensures (Model(), WasReset) == Step(old(Model()), ResetCall)
    {
      failures := 0;
      probing := false;
      SetStateTo(Closed);
      lastFailure := NEVER;
    }
  }

  // ---------------------------------------------------------------- the history says it all

  /** Failures of executed calls since the last success or reset. */
  function Trailing(h: seq<Entry>): nat {
    if h == [] then 0
    else
      match h[|h| - 1]
      case Ran(ok, _) => if ok then 0 else Trailing(h[..|h| - 1]) + 1
      case Refused => Trailing(h[..|h| - 1])
      case WasReset => 0
  }

  /** When the last executed call since the last reset failed. */
  function LastFailed(h: seq<Entry>): Time {
    if h == [] || h[|h| - 1].WasReset? then NEVER
    else if h[|h| - 1].Ran? && !h[|h| - 1].ok then h[|h| - 1].at
    else LastFailed(h[..|h| - 1])
  }

  /** Whether the function runs for a call made after history `h`. */
  predicate Admits(maxFailures: int, resetTimeout: Time, h: seq<Entry>, now: Time) {
    Trailing(h) < maxFailures || now - LastFailed(h) > resetTimeout
  }

  /** The history of a sequence of events by the reference rule alone. */
  function Expected(maxFailures: int, resetTimeout: Time, events: seq<Event>): seq<Entry> {
    if events == [] then []
    else
      var h := Expected(maxFailures, resetTimeout, events[..|events| - 1]);
      var e := events[|events| - 1];
      h + [if e.ResetCall? then WasReset
           else if Admits(maxFailures, resetTimeout, h, e.checkedAt) then Ran(e.ok, e.finishedAt)
           else Refused]
  }

  /** The breaker after a sequence of events, and what it answered. */
  function Run(c: Core, events: seq<Event>): (Core, seq<Entry>) {
    if events == [] then (c, [])
    else
      var (mid, h) := Run(c, events[..|events| - 1]);
      var (after, entry) := Step(mid, events[|events| - 1]);
      (after, h + [entry])
  }

  /** The state changes to announce, by the history alone: opening, probing and its outcome, and resetting. */
  function Changes(maxFailures: int, h: seq<Entry>): seq<(State, State)> {
    if h == [] then []
    else
      var before := h[..|h| - 1];
      var open := Trailing(before) >= maxFailures;
      Changes(maxFailures, before) +
      match h[|h| - 1]
      case Ran(ok, _) =>
        if open then [(Open, HalfOpen), (HalfOpen, if ok then Closed else Open)]
        else if Trailing(h) >= maxFailures then [(Closed, Open)]
        else []
      case Refused => []
      case WasReset => if open then [(Open, Closed)] else []
  }

  ghost predicate Reflects(c: Core, h: seq<Entry>) {
    && c.failures == Trailing(h)
    && c.state == (if Trailing(h) >= c.maxFailures then Open else Closed)
    && c.lastFailure == LastFailed(h)
    && !c.probing
    && c.announced == Changes(c.maxFailures, h)
  }

  lemma StepReflects(c: Core, h: seq<Entry>, e: Event)
    requires Reflects(c, h) && c.maxFailures > 0
    ensures var (after, entry) := Step(c, e);
            && Reflects(after, h + [entry])
            && after.maxFailures == c.maxFailures && after.resetTimeout == c.resetTimeout
            && entry == (if e.ResetCall? then WasReset
                         else if Admits(c.maxFailures, c.resetTimeout, h, e.checkedAt) then Ran(e.ok, e.finishedAt)
                         else Refused)
  {
    var entry := Step(c, e).1;
    assert (h + [entry])[..|h|] == h;
  }

  /** The limit and the timeout that options ask for. */
  function LimitFor(maxFailures: int): int {
    if maxFailures > 0 then maxFailures else 5
  }

  function TimeoutFor(resetTimeout: Time): Time {
    if resetTimeout > 0 then resetTimeout else 30 * SECOND
  }

  /**
   After any sequence of calls and resets the breaker has answered by the reference
   rule for its options, counts exactly the trailing failures, is open exactly when
   they reach the limit (so never half-open), has its probe slot free, and has
   announced exactly the changes that the history asks for.
   */
  lemma {:induction false} HistoryDeterminesState(maxFailures: int, resetTimeout: Time, events: seq<Event>)
    ensures var (c, h) := Run(Fresh(maxFailures, resetTimeout), events);
            && h == Expected(LimitFor(maxFailures), TimeoutFor(resetTimeout), events)
            && c.maxFailures == LimitFor(maxFailures) && c.resetTimeout == TimeoutFor(resetTimeout)
            && Reflects(c, h)
  {
    if events != [] {
      var init, e := events[..|events| - 1], events[|events| - 1];
      HistoryDeterminesState(maxFailures, resetTimeout, init);
      var (mid, before) := Run(Fresh(maxFailures, resetTimeout), init);
      StepReflects(mid, before, e);
    }
  }

  // ---------------------------------------------------------------- an outage

  function Executed(h: seq<Entry>): nat {
    if h == [] then 0
    else Executed(h[..|h| - 1]) + if h[|h| - 1].Ran? then 1 else 0
  }

  /** Calls one after another within `[start, end]`, all of which fail if they run. */
  ghost predicate Outage(events: seq<Event>, start: Time, end: Time) {
    && start <= end
    && forall k :: 0 <= k < |events| ==>
         && events[k].Call? && !events[k].ok
         && start <= events[k].checkedAt <= events[k].finishedAt <= end
         && (k > 0 ==> events[k - 1].Call? && events[k - 1].finishedAt <= events[k].checkedAt)
  }

  lemma {:induction false} ProbesAreSpaced(maxFailures: int, resetTimeout: Time, events: seq<Event>, start: Time,
                                           end: Time)
    requires maxFailures > 0 && resetTimeout > 0 && Outage(events, start, end)
    ensures var h := Expected(maxFailures, resetTimeout, events);
            && Trailing(h) == Executed(h)
            && (Executed(h) > 0 ==> start <= LastFailed(h) <= end && LastFailed(h) <= events[|events| - 1].finishedAt)
            && (Executed(h) > maxFailures ==> Times(Executed(h) - maxFailures, resetTimeout) < LastFailed(h) - start)
  {
    if events != [] {
      var init, e := events[..|events| - 1], events[|events| - 1];
      ProbesAreSpaced(maxFailures, resetTimeout, init, start, end);
      var before := Expected(maxFailures, resetTimeout, init);
      var h := Expected(maxFailures, resetTimeout, events);
      assert h[..|h| - 1] == before;
    }
  }

  lemma ExpectedLoadIsBounded(maxFailures: int, resetTimeout: Time, events: seq<Event>, start: Time, end: Time)
    requires maxFailures > 0 && resetTimeout > 0 && Outage(events, start, end)
    ensures Executed(Expected(maxFailures, resetTimeout, events)) <= maxFailures + (end - start) / resetTimeout
  {
    ProbesAreSpaced(maxFailures, resetTimeout, events, start, end);
    var n := Executed(Expected(maxFailures, resetTimeout, events));
    PeriodsFit(if n > maxFailures then n - maxFailures else 0, resetTimeout, end - start);
  }

  /**
   Through an outage that starts on a fresh breaker, the failing dependency is
   called at most `maxFailures + T / resetTimeout` times in time `T`.
   */
  lemma OutageLoadIsBounded(maxFailures: int, resetTimeout: Time, events: seq<Event>, start: Time, end: Time)
    requires Outage(events, start, end)
    ensures Executed(Run(Fresh(maxFailures, resetTimeout), events).1)
         <= LimitFor(maxFailures) + (end - start) / TimeoutFor(resetTimeout)
  {
    HistoryDeterminesState(maxFailures, resetTimeout, events);
    ExpectedLoadIsBounded(LimitFor(maxFailures), TimeoutFor(resetTimeout), events, start, end);
  }
}
