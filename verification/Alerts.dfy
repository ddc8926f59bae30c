/**
 The alert table and its writers: deduplicated creation, acknowledgement, the
 monitor's passes, and the retention job that deletes old rows. Every database
 statement is a step of its own, so that calls of CreateAlert may overlap one another
 and anything else may happen between a call's query and its insert. A day has 24 hours.
 */
module Alerts {
  import opened Basics

  datatype Alert = Alert(device: string, kind: string, at: Time, acknowledged: bool)

  /** A call of CreateAlert whose query, made at `asked`, did not stop it. */
  datatype Call = Call(device: string, kind: string, asked: Time)

  /** The table by row id, the id that the next row will get, and the calls about to insert. */
  datatype Table = Table(rows: map<nat, Alert>, next: nat, calls: map<nat, Call>)

  datatype Event =
    /** The dedup query of a call; `query`: it works. */
    | Ask(call: nat, device: string, kind: string, asked: Time, query: bool)
    /** The insert of that call; `works`: it works. */
    | Insert(call: nat, at: Time, works: bool)
    | Acknowledge(id: nat)
    /** A run of the retention job; it leaves alerts alone unless `days` is positive. */
    | Retain(days: int, now: Time)

  /** The row makes the dedup query answer that there is such an alert already. */
  predicate Blocks(r: Alert, device: string, kind: string, now: Time) {
    r.device == device && r.kind == kind && !r.acknowledged && r.at > now - DAY
  }

  predicate Duplicate(t: Table, device: string, kind: string, now: Time) {
    exists id :: id in t.rows && Blocks(t.rows[id], device, kind, now)
  }

  /** The query lets its call go on: a failed query does not stop it. */
  predicate GoesOn(t: Table, e: Event) {
    e.Ask? && e.call !in t.calls && !(e.query && Duplicate(t, e.device, e.kind, e.asked))
  }

  /** The insert of a call in flight adds a row. */
  predicate Creates(t: Table, e: Event) {
    e.Insert? && e.call in t.calls && e.works
  }

  function Retained(t: Table, days: int, now: Time): Table {
    if days > 0 then t.(rows := map id | id in t.rows && t.rows[id].at >= now - days * DAY :: t.rows[id]) else t
  }

  function Step(t: Table, e: Event): Table {
    match e
    case Ask(call, device, kind, asked, _) =>
      if GoesOn(t, e) then t.(calls := t.calls[call := Call(device, kind, asked)]) else t
    case Insert(call, at, _) =>
      if Creates(t, e) then
        var c := t.calls[call];
        Table(t.rows[t.next := Alert(c.device, c.kind, at, false)], t.next + 1, t.calls - {call})
      else t.(calls := t.calls - {call})
    case Acknowledge(id) =>
      if id in t.rows then t.(rows := t.rows[id := t.rows[id].(acknowledged := true)]) else t
    case Retain(days, now) => Retained(t, days, now)
  }

  function Run(t: Table, events: seq<Event>): Table {
    if events == [] then t else Step(Run(t, events[..|events| - 1]), events[|events| - 1])
  }

  /** How a monitor pass's statements turn out, numbered by the row they are about. */
  datatype Pass = Pass(kind: string, clock: nat -> Time, query: nat -> bool, insert: nat -> bool)

  function PassAsk(pass: Pass, device: string, k: nat): Event {
    Ask(0, device, pass.kind, (pass.clock)(2 * k), (pass.query)(k))
  }

  function PassInsert(pass: Pass, k: nat): Event {
    Insert(0, (pass.clock)(2 * k + 1), (pass.insert)(k))
  }

  /** What a monitor pass does: a call of CreateAlert for each row that names a device. */
  function PassEvents(pass: Pass, devices: seq<Option<string>>): seq<Event> {
    if devices == [] then []
    else
      var k := |devices| - 1;
      var before := PassEvents(pass, devices[..k]);
      match devices[k]
      case None => before
      case Some(d) => before + [PassAsk(pass, d, k)] + [PassInsert(pass, k)]
  }

  /** The devices that queries ask about, in order. */
  function Asked(events: seq<Event>): seq<string> {
    if events == [] then []
    else
      var e := events[|events| - 1];
      Asked(events[..|events| - 1]) + if e.Ask? then [e.device] else []
  }

  function Named(devices: seq<Option<string>>): seq<string> {
    if devices == [] then []
    else
      var d := devices[|devices| - 1];
      Named(devices[..|devices| - 1]) + if d.Some? then [d.value] else []
  }

  /** A pass asks about each device named, once for each row and in order, with an insert for each query. */
  lemma {:induction false} PassAsksEach(pass: Pass, devices: seq<Option<string>>)
    ensures var events := PassEvents(pass, devices);
            Asked(events) == Named(devices) && |events| == 2 * |Named(devices)|
  {
    if devices != [] {
      var k := |devices| - 1;
      PassAsksEach(pass, devices[..k]);
      if devices[k].Some? {
        var before := PassEvents(pass, devices[..k]);
        var ask, insert := PassAsk(pass, devices[k].value, k), PassInsert(pass, k);
        AskedNext(before, ask);
        AskedNext(before + [ask], insert);
      }
    }
  }

  lemma AskedNext(events: seq<Event>, e: Event)
    ensures Asked(events + [e]) == Asked(events) + if e.Ask? then [e.device] else []
  {
    assert (events + [e])[..|events|] == events;
  }

  lemma PassNext(t: Table, pass: Pass, devices: seq<Option<string>>, k: nat)
    requires k < |devices|
    ensures Run(t, PassEvents(pass, devices[..k + 1])) ==
            var before := Run(t, PassEvents(pass, devices[..k]));
            match devices[k]
            case None => before
            case Some(d) => Step(Step(before, PassAsk(pass, d, k)), PassInsert(pass, k))
  {
    assert devices[..k + 1][..k] == devices[..k];
    var before := PassEvents(pass, devices[..k]);
    if devices[k].Some? {
      var ask, insert := PassAsk(pass, devices[k].value, k), PassInsert(pass, k);
      assert (before + [ask])[..|before|] == before;
      assert (before + [ask] + [insert])[..|before| + 1] == before + [ask];
    }
  }

  class AlertTable {
    var rows: map<nat, Alert>
    var next: nat

    function Model(): Table reads this {
      Table(rows, next, map[])
    }

    constructor ()
      ensures Model() == Table(map[], 0, map[])
    {
      rows, next := map[], 0;
    }

    /** A call that nothing overlaps: its query and its insert. */
    method CreateAlert(ask: Event, insert: Event) returns (created: bool)
      requires ask.Ask? && insert.Insert? && ask.call == insert.call
      modifies this
      ensures created == (GoesOn(old(Model()), ask) && insert.works)
      ensures Model() == Step(Step(old(Model()), ask), insert)
    {
      if ask.query && exists id :: id in rows && Blocks(rows[id], ask.device, ask.kind, ask.asked) {
        return false;
      }
      if !insert.works {
        return false;
      }
      rows, next := rows[next := Alert(ask.device, ask.kind, insert.at, false)], next + 1;
      return true;
    }

    method Acknowledge(id: nat)
      modifies this`rows
      ensures Model() == Step(old(Model()), Event.Acknowledge(id))
    {
      if id in rows {
        rows := rows[id := rows[id].(acknowledged := true)];
      }
    }

    method PurgeOld(days: int, now: Time)
      modifies this`rows
      ensures Model() == Step(old(Model()), Retain(days, now))
    {
      if days > 0 {
        rows := map id | id in rows && rows[id].at >= now - days * DAY :: rows[id];
      }
    }

    /** One of the monitor's check loops; `None` is a row without a device. */
    method CheckDevices(pass: Pass, devices: seq<Option<string>>)
      modifies this
      ensures Model() == Run(old(Model()), PassEvents(pass, devices))
    {
      for k := 0 to |devices|
        invariant Model() == Run(old(Model()), PassEvents(pass, devices[..k]))
      {
        PassNext(old(Model()), pass, devices, k);
        if devices[k].Some? {
          var created := CreateAlert(PassAsk(pass, devices[k].value, k), PassInsert(pass, k));
        }
      }
      assert devices[..|devices|] == devices;
    }
  }

  // ---------------------------------------------------------------- what becomes of a call and of a row

  /** The event is a statement of the call. */
  predicate Of(e: Event, call: nat) {
    (e.Ask? || e.Insert?) && e.call == call
  }

  /** A call in flight stays so until its own next statement. */
  lemma {:induction false} StaysInFlight(t: Table, events: seq<Event>, call: nat)
    requires forall k :: 0 <= k < |events| ==> !Of(events[k], call)
    ensures call in Run(t, events).calls <==> call in t.calls
    ensures call in t.calls ==> Run(t, events).calls[call] == t.calls[call]
  {
    if events != [] {
      StaysInFlight(t, events[..|events| - 1], call);
      assert !Of(events[|events| - 1], call);
    }
  }

  ghost predicate HasOpenSince(t: Table, device: string, kind: string, since: Time) {
    exists r :: r in t.rows.Values && r.device == device && r.kind == kind && !r.acknowledged && since < r.at
  }

  /**
   Whatever happens between a call's query and its insert, the call adds exactly its own
   row if its insert works, unless its query worked and found an unacknowledged alert of
   that device and kind from the last 24 hours; in that case it changes nothing.
   */
  lemma CallCreatesIff(t: Table, ask: Event, between: seq<Event>, insert: Event)
    requires ask.Ask? && insert.Insert? && ask.call == insert.call && ask.call !in t.calls
    requires forall k :: 0 <= k < |between| ==> !Of(between[k], ask.call)
    ensures var mid := Run(Step(t, ask), between);
            var blocked := ask.query && HasOpenSince(t, ask.device, ask.kind, ask.asked - 24 * HOUR);
            && (Creates(mid, insert) <==> insert.works && !blocked)
            && Step(mid, insert).rows ==
               if insert.works && !blocked
               then mid.rows[mid.next := Alert(ask.device, ask.kind, insert.at, false)] else mid.rows
  {
    StaysInFlight(Step(t, ask), between, ask.call);
    if id :| id in t.rows && Blocks(t.rows[id], ask.device, ask.kind, ask.asked) {
      assert t.rows[id] in t.rows.Values;
    }
  }

  /** Some retention run of the events finds a row of that time older than its number of days. */
  predicate Outlived(events: seq<Event>, at: Time) {
    exists k :: 0 <= k < |events| && OutlivedBy(events[k], at)
  }

  predicate OutlivedBy(e: Event, at: Time) {
    e.Retain? && e.days > 0 && at < e.now - e.days * 24 * HOUR
  }

  /**
   A row is deleted by exactly the retention runs whose number of days it outlived, and
   by nothing else; until then it stays as it is, but for being acknowledged.
   */
  lemma {:induction false} KeptUntilOutlived(t: Table, events: seq<Event>, id: nat)
    requires id in t.rows && id < t.next
    ensures var end, row := Run(t, events), t.rows[id];
            && id < end.next
            && (id in end.rows <==> !Outlived(events, row.at))
            && (id in end.rows ==>
                  end.rows[id] == row.(acknowledged := row.acknowledged || Acknowledge(id) in events))
  {
    if events != [] {
      var n := |events| - 1;
      var init, e := events[..n], events[n];
      KeptUntilOutlived(t, init, id);
      assert events == init + [e];
      OutlivedNext(init, e, t.rows[id].at);
    }
  }

  lemma OutlivedNext(events: seq<Event>, e: Event, at: Time)
    ensures Outlived(events + [e], at) <==> Outlived(events, at) || OutlivedBy(e, at)
  {
    var more := events + [e];
    assert more[|events|] == e;
    if k :| 0 <= k < |events| && OutlivedBy(events[k], at) {
      assert OutlivedBy(more[k], at);
    }
  }

  // ---------------------------------------------------------------- spacing

  /** When the event happens, for those that read the clock. */
  function At(e: Event, now: Time): Time {
    match e
    case Ask(_, _, _, asked, _) => asked
    case Insert(_, at, _) => at
    case Acknowledge(_) => now
    case Retain(_, at) => at
  }

  /** Everything in the run happens from `start` to `now`, and the clock never goes back. */
  predicate Timely(events: seq<Event>, start: Time, now: Time) {
    if events == [] then start <= now
    else
      var at := At(events[|events| - 1], now);
      at <= now && Timely(events[..|events| - 1], start, at)
  }

  ghost predicate WellFormed(t: Table, now: Time) {
    && (forall id :: id in t.rows ==> id < t.next && t.rows[id].at <= now)
    && (forall c :: c in t.calls ==> t.calls[c].asked <= now)
  }

  lemma {:induction false} StaysWellFormed(t: Table, events: seq<Event>, start: Time, now: Time)
    requires WellFormed(t, start) && Timely(events, start, now)
    ensures WellFormed(Run(t, events), now)
  {
    if events != [] {
      StaysWellFormed(t, events[..|events| - 1], start, At(events[|events| - 1], now));
    }
  }

  ghost predicate SameOpen(x: Alert, y: Alert) {
    x.device == y.device && x.kind == y.kind && !x.acknowledged && !y.acknowledged
  }

  /** Unacknowledged alerts of one device and kind are at least a day apart. */
  ghost predicate Spaced(t: Table) {
    forall i, j :: i in t.rows && j in t.rows && i != j && SameOpen(t.rows[i], t.rows[j]) ==>
      t.rows[i].at - t.rows[j].at >= DAY || t.rows[j].at - t.rows[i].at >= DAY
  }

  /** The insert comes less than a day after an unacknowledged alert of its device and kind. */
  predicate Clashes(t: Table, e: Event) {
    Creates(t, e) && Duplicate(t, t.calls[e.call].device, t.calls[e.call].kind, e.at)
  }

  /** An insert keeps the spacing exactly when there is no unacknowledged alert of its kind less than a day old. */
  lemma InsertKeepsSpacingIff(t: Table, e: Event)
    requires Creates(t, e) && Spaced(t) && WellFormed(t, e.at)
    ensures Spaced(Step(t, e)) <==> !Clashes(t, e)
  {
    var after, c := Step(t, e), t.calls[e.call];
    if id :| id in t.rows && Blocks(t.rows[id], c.device, c.kind, e.at) {
      assert SameOpen(after.rows[id], after.rows[t.next]);
    }
  }

  /** Some insert of the run clashes. */
  predicate SomeClash(t: Table, events: seq<Event>) {
    events != [] &&
    var init := events[..|events| - 1];
    SomeClash(t, init) || Clashes(Run(t, init), events[|events| - 1])
  }

  /** The alerts are spaced throughout the run. */
  ghost predicate AlwaysSpaced(t: Table, events: seq<Event>) {
    Spaced(Run(t, events)) && (events == [] || AlwaysSpaced(t, events[..|events| - 1]))
  }

  /**
   However calls overlap and queries fail, unacknowledged alerts of one device and
   kind are a day apart throughout a run if and only if no insert in it clashes.
   */
  lemma {:induction false} AlwaysSpacedIff(t: Table, events: seq<Event>, start: Time, now: Time)
    requires Spaced(t) && WellFormed(t, start) && Timely(events, start, now)
    ensures AlwaysSpaced(t, events) <==> !SomeClash(t, events)
  {
    if events != [] {
      var init, e := events[..|events| - 1], events[|events| - 1];
      var at := At(e, now);
      AlwaysSpacedIff(t, init, start, at);
      StaysWellFormed(t, init, start, at);
      if AlwaysSpaced(t, init) && Creates(Run(t, init), e) {
        InsertKeepsSpacingIff(Run(t, init), e);
      }
    }
  }

  ghost predicate QueriesSucceed(events: seq<Event>) {
    forall k :: 0 <= k < |events| && events[k].Ask? ==> events[k].query
  }

  /** No call is in flight for that device and kind. */
  ghost predicate NoneInFlight(t: Table, device: string, kind: string) {
    forall c :: c in t.calls ==> t.calls[c].device != device || t.calls[c].kind != kind
  }

  /** A call for a device and kind begins only when no other one for them is in flight. */
  ghost predicate CallsDisjoint(t: Table, events: seq<Event>) {
    events == [] ||
    var init, e := events[..|events| - 1], events[|events| - 1];
    CallsDisjoint(t, init) && (e.Ask? ==> NoneInFlight(Run(t, init), e.device, e.kind))
  }

  /** No two calls in flight are for one device and kind. */
  ghost predicate Separate(t: Table) {
    forall c, d :: c in t.calls && d in t.calls && c != d ==>
      t.calls[c].device != t.calls[d].device || t.calls[c].kind != t.calls[d].kind
  }

  /** What the queries of the calls in flight found is still so. */
  ghost predicate Clear(t: Table) {
    forall c :: c in t.calls ==> !Duplicate(t, t.calls[c].device, t.calls[c].kind, t.calls[c].asked)
  }

  lemma StepKeepsSeparate(t: Table, e: Event)
    requires Separate(t) && (e.Ask? ==> NoneInFlight(t, e.device, e.kind))
    ensures Separate(Step(t, e))
  {
  }

  lemma StepKeepsClear(t: Table, e: Event)
    requires Separate(t) && Clear(t) && (e.Ask? ==> e.query)
    ensures Clear(Step(t, e))
  {
    var after := Step(t, e);
    forall c | c in after.calls
      ensures !Duplicate(after, after.calls[c].device, after.calls[c].kind, after.calls[c].asked)
    {
      var call := after.calls[c];
      if id :| id in after.rows && Blocks(after.rows[id], call.device, call.kind, call.asked) {
        assert id in t.rows && Blocks(t.rows[id], call.device, call.kind, call.asked);
      }
    }
  }

  lemma {:induction false} StaysClear(t: Table, events: seq<Event>)
    requires Separate(t) && Clear(t) && QueriesSucceed(events) && CallsDisjoint(t, events)
    ensures Separate(Run(t, events)) && Clear(Run(t, events))
  {
    if events != [] {
      var init, e := events[..|events| - 1], events[|events| - 1];
      assert QueriesSucceed(init);
      StaysClear(t, init);
      StepKeepsSeparate(Run(t, init), e);
      StepKeepsClear(Run(t, init), e);
    }
  }

  lemma {:induction false} NoneClash(t: Table, events: seq<Event>, start: Time, now: Time)
    requires Separate(t) && Clear(t) && QueriesSucceed(events) && CallsDisjoint(t, events)
    requires WellFormed(t, start) && Timely(events, start, now)
    ensures !SomeClash(t, events)
  {
    if events != [] {
      var init, e := events[..|events| - 1], events[|events| - 1];
      assert QueriesSucceed(init);
      NoneClash(t, init, start, At(e, now));
      StaysClear(t, init);
      StaysWellFormed(t, init, start, At(e, now));
    }
  }

  /**
   If the dedup queries work and no two calls for one device and kind overlap, its
   unacknowledged alerts are always at least a day apart, whatever other calls,
   acknowledgements and retention runs fall between a query and its insert.
   */
  lemma SpacingHolds(t: Table, events: seq<Event>, start: Time, now: Time)
    requires Spaced(t) && WellFormed(t, start) && Separate(t) && Clear(t)
    requires Timely(events, start, now) && QueriesSucceed(events) && CallsDisjoint(t, events)
    ensures AlwaysSpaced(t, events)
  {
    NoneClash(t, events, start, now);
    AlwaysSpacedIff(t, events, start, now);
  }

  /** One more event, at `now`. */
  lemma Then(t: Table, events: seq<Event>, e: Event, start: Time, now: Time) returns (longer: seq<Event>)
    requires QueriesSucceed(events) && Timely(events, start, now) && At(e, now) == now && (e.Ask? ==> e.query)
    ensures QueriesSucceed(longer) && Timely(longer, start, now)
    ensures Run(t, longer) == Step(Run(t, events), e)
  {
    longer := events + [e];
    assert longer[..|events|] == events;
  }

  /** Overlapping calls for one device and kind can both insert, though every query works. */
  lemma OverlapBreaksSpacing(device: string, kind: string, now: Time) returns (events: seq<Event>)
    ensures QueriesSucceed(events) && Timely(events, now, now)
    ensures !Spaced(Run(Table(map[], 0, map[]), events))
  {
    var empty := Table(map[], 0, map[]);
    events := Then(empty, [], Ask(0, device, kind, now, true), now, now);
    events := Then(empty, events, Ask(1, device, kind, now, true), now, now);
    events := Then(empty, events, Insert(0, now, true), now, now);
    events := Then(empty, events, Insert(1, now, true), now, now);
    var t := Run(empty, events);
    assert SameOpen(t.rows[0], t.rows[1]);
  }

  // ---------------------------------------------------------------- how many there can be

  /** The event inserts an alert of that device and kind. */
  predicate CreatesFor(t: Table, e: Event, device: string, kind: string) {
    Creates(t, e) && t.calls[e.call].device == device && t.calls[e.call].kind == kind
  }

  /** How many alerts of a device and kind the run creates. */
  function Created(t: Table, events: seq<Event>, device: string, kind: string): nat {
    if events == [] then 0
    else
      var init := events[..|events| - 1];
      Created(t, init, device, kind) + if CreatesFor(Run(t, init), events[|events| - 1], device, kind) then 1 else 0
  }

  /** The alert of time `last` still blocks duplicates, or is too old to. */
  ghost predicate Covered(t: Table, device: string, kind: string, last: Time, now: Time) {
    last < now - DAY || exists id :: id in t.rows && t.rows[id] == Alert(device, kind, last, false)
  }

  /** A call in flight for that device and kind asked at least a day after `last`. */
  ghost predicate AskedAfter(t: Table, device: string, kind: string, last: Time) {
    forall c :: c in t.calls && t.calls[c].device == device && t.calls[c].kind == kind ==>
      last <= t.calls[c].asked - DAY
  }

  lemma StepKeepsCovered(t: Table, e: Event, device: string, kind: string, last: Time, before: Time, now: Time)
    requires Covered(t, device, kind, last, before) && before <= now && !e.Acknowledge? && WellFormed(t, before)
    requires e.Retain? ==> e.now <= now
    ensures Covered(Step(t, e), device, kind, last, now)
  {
    if last >= now - DAY {
      var id :| id in t.rows && t.rows[id] == Alert(device, kind, last, false);
      assert e.Retain? && e.days > 0 ==> e.days * DAY >= DAY;
      assert id in Step(t, e).rows && Step(t, e).rows[id] == t.rows[id];
    }
  }

  lemma StepKeepsAskedAfter(t: Table, e: Event, device: string, kind: string, last: Time, before: Time)
    requires Covered(t, device, kind, last, before) && AskedAfter(t, device, kind, last)
    requires e.Ask? ==> e.query && before == e.asked
    ensures AskedAfter(Step(t, e), device, kind, last)
  {
    if GoesOn(t, e) && e.device == device && e.kind == kind && last >= before - DAY {
      var id :| id in t.rows && t.rows[id] == Alert(device, kind, last, false);
      assert !Blocks(t.rows[id], device, kind, e.asked);
    }
  }

  lemma {:induction false} CreationsAreSpaced(t: Table, events: seq<Event>, device: string, kind: string,
                                              start: Time, now: Time)
    returns (last: Time)
    requires WellFormed(t, start) && Separate(t) && Clear(t)
    requires Timely(events, start, now) && QueriesSucceed(events) && CallsDisjoint(t, events)
    requires forall k :: 0 <= k < |events| ==> !events[k].Acknowledge?
    ensures var n, after := Created(t, events, device, kind), Run(t, events);
            n > 0 ==>
              && start <= last <= now && Times(n - 1, DAY) <= last - start
              && Covered(after, device, kind, last, now) && AskedAfter(after, device, kind, last)
  {
    last := start;
    if events != [] {
      var init, e := events[..|events| - 1], events[|events| - 1];
      var before := At(e, now);
      var mid := Run(t, init);
      assert QueriesSucceed(init);
      StaysWellFormed(t, init, start, before);
      last := CreationsAreSpaced(t, init, device, kind, start, before);
      if CreatesFor(mid, e, device, kind) {
        TimelyStarts(init, start, before);
        StaysClear(t, init);
        last := e.at;
        assert Run(t, events).rows[mid.next] == Alert(device, kind, last, false);
      } else if Created(t, init, device, kind) > 0 {
        StepKeepsCovered(mid, e, device, kind, last, before, now);
        StepKeepsAskedAfter(mid, e, device, kind, last, before);
      }
    }
  }

  lemma {:induction false} TimelyStarts(events: seq<Event>, start: Time, now: Time)
    requires Timely(events, start, now)
    ensures start <= now
  {
    if events != [] {
      TimelyStarts(events[..|events| - 1], start, At(events[|events| - 1], now));
    }
  }

  /**
   Under the conditions of `SpacingHolds` and without acknowledgements, at most
   `T / 24h + 1` alerts of one device and kind are created in time `T`, whatever the
   retention job deletes meanwhile.
   */
  lemma AlertsAreBounded(t: Table, events: seq<Event>, device: string, kind: string, start: Time, now: Time)
    requires WellFormed(t, start) && Separate(t) && Clear(t)
    requires Timely(events, start, now) && QueriesSucceed(events) && CallsDisjoint(t, events)
    requires forall k :: 0 <= k < |events| ==> !events[k].Acknowledge?
    ensures Created(t, events, device, kind) <= (now - start) / DAY + 1
  {
    TimelyStarts(events, start, now);
    var last := CreationsAreSpaced(t, events, device, kind, start, now);
    var n := Created(t, events, device, kind);
    PeriodsFit(if n > 0 then n - 1 else 0, DAY, now - start);
  }

  // ---------------------------------------------------------------- retention

  function WithoutRetention(events: seq<Event>): seq<Event> {
    if events == [] then []
    else
      var rest := WithoutRetention(events[..|events| - 1]);
      if events[|events| - 1].Retain? then rest else rest + [events[|events| - 1]]
  }

  /** Whether each statement of a call of CreateAlert, in order, let it go on or inserted its row. */
  function Decisions(t: Table, events: seq<Event>): seq<bool> {
    if events == [] then []
    else
      var init, e := events[..|events| - 1], events[|events| - 1];
      Decisions(t, init) + if e.Ask? || e.Insert? then [GoesOn(Run(t, init), e) || Creates(Run(t, init), e)] else []
  }

  /** `v` is `w` less rows that are more than a day old. */
  ghost predicate Trimmed(v: Table, w: Table, now: Time) {
    && v.next == w.next && v.calls == w.calls
    && (forall id :: id in v.rows ==> id in w.rows && v.rows[id] == w.rows[id])
    && (forall id :: id in w.rows && id !in v.rows ==> w.rows[id].at < now - DAY)
  }

  lemma TrimmedDecides(v: Table, w: Table, e: Event, now: Time)
    requires Trimmed(v, w, now) && (e.Ask? ==> now == e.asked)
    ensures GoesOn(v, e) == GoesOn(w, e) && Creates(v, e) == Creates(w, e)
  {
    if e.Ask? && Duplicate(w, e.device, e.kind, e.asked) {
      var id :| id in w.rows && Blocks(w.rows[id], e.device, e.kind, e.asked);
      assert id in v.rows;
    }
  }

  lemma TrimmedStep(v: Table, w: Table, e: Event, before: Time, now: Time)
    requires Trimmed(v, w, before) && before <= now
    requires e.Ask? ==> before == e.asked
    requires e.Retain? ==> before == e.now
    ensures Trimmed(Step(v, e), if e.Retain? then w else Step(w, e), now)
  {
    TrimmedDecides(v, w, e, before);
    if e.Retain? && e.days > 0 {
      assert e.days * DAY >= DAY;
    }
  }

  /**
   Retention, for whatever number of days and at whatever moments, never changes
   whether a query lets its call go on or an insert adds a row.
   */
  lemma {:induction false} RetentionIsUnobservable(t: Table, events: seq<Event>, start: Time, now: Time)
    requires Timely(events, start, now)
    ensures Trimmed(Run(t, events), Run(t, WithoutRetention(events)), now)
    ensures Decisions(t, events) == Decisions(t, WithoutRetention(events))
  {
    if events != [] {
      var init, e := events[..|events| - 1], events[|events| - 1];
      var before := At(e, now);
      RetentionIsUnobservable(t, init, start, before);
      var rest := WithoutRetention(init);
      TrimmedDecides(Run(t, init), Run(t, rest), e, before);
      TrimmedStep(Run(t, init), Run(t, rest), e, before, now);
      assert (rest + [e])[..|rest|] == rest;
    }
  }
}
