/**
 The WebSocket hub: broadcast to every registered client through a bounded
 channel, eviction of clients whose channel is full, and two ways of closing one.
 A client is identified by a number, as the source identifies it by its address.
 */
module Hub {
  import opened Basics

  /** Capacity of a client's send channel. */
  const CAPACITY := 256

  /** A client's channel. */
  datatype Conn<M> = Conn(queue: seq<M>, closed: bool)

  /** `panicked` records a send on a closed channel or the closing of a closed one. */
  datatype State<M> = State(clients: set<nat>, conns: map<nat, Conn<M>>, panicked: bool)

  datatype Event<M> =
    | Connect(id: nat)      // a request is upgraded: its client is new
    | Unregister(id: nat)   // the read pump ends
    | Broadcast(message: M)
    | Receive(id: nat)      // the write pump takes the next message, if there is one

  function Empty<M>(): State<M> {
    State({}, map[], false)
  }

  /** What a broadcast does to a registered client's channel. */
  function Offer<M>(c: Conn<M>, message: M): Conn<M> {
    if |c.queue| < CAPACITY then c.(queue := c.queue + [message]) else c.(closed := true)
  }

  function Step<M>(s: State<M>, e: Event<M>): State<M> {
    match e
    case Connect(id) =>
      if id in s.conns then s
      else s.(clients := s.clients + {id}, conns := s.conns[id := Conn([], false)])
    case Unregister(id) =>
      if id in s.clients && id in s.conns then
        State(s.clients - {id}, s.conns[id := s.conns[id].(closed := true)], s.panicked || s.conns[id].closed)
      else s
    case Broadcast(m) =>
      State(
        set id | id in s.clients && (id in s.conns ==> |s.conns[id].queue| < CAPACITY),
        map id | id in s.conns :: if id in s.clients then Offer(s.conns[id], m) else s.conns[id],
        s.panicked || exists id :: id in s.clients && id in s.conns && s.conns[id].closed)
    case Receive(id) =>
      if id in s.conns && s.conns[id].queue != [] then
        s.(conns := s.conns[id := s.conns[id].(queue := s.conns[id].queue[1..])])
      else s
  }

  /** What a receive from the client's channel hands out. */
  function Received<M>(s: State<M>, id: nat): Option<M> {
    if id in s.conns && s.conns[id].queue != [] then Some(s.conns[id].queue[0]) else None
  }

  /** A broadcast that has reached the clients in `done` so far. */
  ghost function Reached<M>(s: State<M>, done: set<nat>, m: M): State<M>
    requires s.clients <= s.conns.Keys
  {
    State(
      set id | id in s.clients && (id in done ==> |s.conns[id].queue| < CAPACITY),
      map id | id in s.conns :: if id in done then Offer(s.conns[id], m) else s.conns[id],
      s.panicked || exists id :: id in done && id in s.conns && s.conns[id].closed)
  }

  /** Sending to one client. */
  function SendOne<M>(s: State<M>, id: nat, m: M): State<M>
    requires id in s.conns
  {
    State(
      if |s.conns[id].queue| < CAPACITY then s.clients else s.clients - {id},
      s.conns[id := Offer(s.conns[id], m)],
      s.panicked || s.conns[id].closed)
  }

  lemma ReachedOneMore<M>(s: State<M>, done: set<nat>, id: nat, m: M)
    requires s.clients <= s.conns.Keys && done <= s.clients && id in s.clients && id !in done
    ensures Reached(s, done + {id}, m) == SendOne(Reached(s, done, m), id, m)
  {
    var one, two := Reached(s, done + {id}, m), SendOne(Reached(s, done, m), id, m);
    assert one.clients == two.clients;
    assert one.conns == two.conns;
    assert one.panicked == two.panicked by {
      if k :| k in done && k in s.conns && s.conns[k].closed {
        assert k in done + {id};
      }
      if s.conns[id].closed {
        assert id in done + {id};
      }
    }
  }

  lemma ReachedEnds<M>(s: State<M>, m: M)
    requires s.clients <= s.conns.Keys
    ensures Reached(s, {}, m) == s
    ensures Reached(s, s.clients, m) == Step(s, Broadcast(m))
  {
    assert Reached(s, {}, m).conns == s.conns;
    assert Reached(s, {}, m).clients == s.clients;
    assert Reached(s, s.clients, m).conns == Step(s, Broadcast(m)).conns;
    assert Reached(s, s.clients, m).clients == Step(s, Broadcast(m)).clients;
  }

  class WSHub<M> {
    var clients: set<nat>
    var conns: map<nat, Conn<M>>
    var panicked: bool

    ghost predicate Valid() reads this {
      clients <= conns.Keys
    }

    function Model(): State<M> reads this {
      State(clients, conns, panicked)
    }

    constructor ()
      ensures Valid() && Model() == Empty()
    {
      clients, conns, panicked := {}, map[], false;
    }

    method Register(id: nat)
      requires Valid() && id in conns
      modifies this`clients
      ensures Valid() && clients == old(clients) + {id}
    {
      clients := clients + {id};
    }

    /** The handler of a connection: a new client with an empty channel, registered. */
    method Connect(id: nat)
      requires Valid() && id !in conns
      modifies this
      ensures Valid() && Model() == Step(old(Model()), Event.Connect(id))
    {
      conns := conns[id := Conn([], false)];
      Register(id);
    }

    method Close(id: nat)
      requires id in conns
      modifies this`conns, this`panicked
      ensures conns == old(conns)[id := old(conns)[id].(closed := true)]
      ensures panicked == (old(panicked) || old(conns)[id].closed)
    {
      panicked := panicked || conns[id].closed;
      conns := conns[id := conns[id].(closed := true)];
    }

    method Unregister(id: nat)
      requires Valid()
      modifies this
      ensures Valid() && Model() == Step(old(Model()), Event.Unregister(id))
    {
      if id in clients {
        clients := clients - {id};
        Close(id);
      }
    }

    /** The select statement for one client. */
    method Send(id: nat, m: M)
      requires Valid() && id in conns
      modifies this
      ensures Valid() && Model() == SendOne(old(Model()), id, m)
    {
      if |conns[id].queue| < CAPACITY {
        panicked := panicked || conns[id].closed;
        conns := conns[id := conns[id].(queue := conns[id].queue + [m])];
      } else {
        Close(id);
        clients := clients - {id};
      }
    }

    /** Go ranges over the map of clients in no particular order. */
    method Broadcast(m: M)
      requires Valid()
      modifies this
      ensures Valid() && Model() == Step(old(Model()), Event.Broadcast(m))
    {
      ghost var s0 := Model();
      ghost var done: set<nat> := {};
      var todo := clients;
      ReachedEnds(s0, m);
      while todo != {}
        invariant Valid() && s0.clients <= s0.conns.Keys
        invariant done <= s0.clients && todo == s0.clients - done
        invariant Model() == Reached(s0, done, m)
        decreases |todo|
      {
        var id :| id in todo;
        todo := todo - {id};
        ReachedOneMore(s0, done, id, m);
        assert id in Reached(s0, done, m).conns;
        Send(id, m);
        done := done + {id};
      }
      assert done == s0.clients;
    }

    method Receive(id: nat) returns (message: Option<M>)
      requires Valid()
      modifies this`conns
      ensures Valid() && Model() == Step(old(Model()), Event.Receive(id))
      ensures message == Received(old(Model()), id)
    {
      message := None;
      if id in conns && conns[id].queue != [] {
        var c := conns[id];
        message := Some(c.queue[0]);
        conns := conns[id := c.(queue := c.queue[1..])];
      }
    }
  }

  // ---------------------------------------------------------------- whole runs

  function Run<M>(events: seq<Event<M>>): State<M> {
    if events == [] then Empty() else Step(Run(events[..|events| - 1]), events[|events| - 1])
  }

  /** Everything broadcast, in order. */
  function Log<M>(events: seq<Event<M>>): seq<M> {
    if events == [] then []
    else
      var before := Log(events[..|events| - 1]);
      match events[|events| - 1]
      case Broadcast(m) => before + [m]
      case _ => before
  }

  /** How much had been broadcast when a client first connected. */
  function Joined<M>(events: seq<Event<M>>, id: nat): Option<nat> {
    if events == [] then None
    else
      var init := events[..|events| - 1];
      match Joined(init, id)
      case Some(k) => Some(k)
      case None => if events[|events| - 1] == Event<M>.Connect(id) then Some(|Log(init)|) else None
  }

  /** A channel is open exactly while its client is registered, and nothing has panicked. */
  ghost predicate Safe<M>(s: State<M>) {
    && !s.panicked
    && s.clients <= s.conns.Keys
    && forall id :: id in s.conns ==> (s.conns[id].closed <==> id !in s.clients) && |s.conns[id].queue| <= CAPACITY
  }

  /** In every interleaving no channel is closed twice or sent to once closed, and none overflows. */
  lemma {:induction false} NeverPanics<M>(events: seq<Event<M>>)
    ensures Safe(Run(events))
  {
    if events != [] {
      NeverPanics(events[..|events| - 1]);
    }
  }

  /** What the event hands out to the client. */
  function HandedBy<M>(s: State<M>, e: Event<M>, id: nat): seq<M> {
    if e == Event<M>.Receive(id) && Received(s, id).Some? then [Received(s, id).value] else []
  }

  /** Everything that the client's write pump has received, in order. */
  function Handed<M>(events: seq<Event<M>>, id: nat): seq<M> {
    if events == [] then []
    else
      var init := events[..|events| - 1];
      Handed(init, id) + HandedBy(Run(init), events[|events| - 1], id)
  }

  /** What the event puts into the client's channel. */
  function PutBy<M>(s: State<M>, e: Event<M>, id: nat): seq<M> {
    if e.Broadcast? && id in s.clients && id in s.conns && |s.conns[id].queue| < 256 then [e.message] else []
  }

  /**
   One event moves at most one message through a channel: a broadcast puts its message
   at the end, exactly when the client is registered with fewer than 256 waiting, and a
   receive hands out the first. A registered client with 256 waiting is removed.
   */
  lemma {:induction false} StepDelivers<M>(s: State<M>, e: Event<M>, id: nat)
    requires Safe(s) && id in s.conns
    ensures id in Step(s, e).conns
    ensures HandedBy(s, e, id) + Step(s, e).conns[id].queue == s.conns[id].queue + PutBy(s, e, id)
    ensures e == Event<M>.Receive(id) && s.conns[id].queue != [] ==> HandedBy(s, e, id) != []
    ensures id in Step(s, e).clients <==>
            id in s.clients && e != Event<M>.Unregister(id) && (e.Broadcast? ==> |s.conns[id].queue| < 256)
  {
  }

  /** How much had been broadcast when a client lost its registration; `None` while it has not. */
  function LeftAt<M>(events: seq<Event<M>>, id: nat): Option<nat> {
    if events == [] then None
    else
      var init := events[..|events| - 1];
      match LeftAt(init, id)
      case Some(k) => Some(k)
      case None => if id in Run(init).clients && id !in Run(events).clients then Some(|Log(init)|) else None
  }

  /** A client is registered exactly while it has joined and not left. */
  lemma {:induction false} RegisteredWhileJoined<M>(events: seq<Event<M>>, id: nat)
    ensures id in Run(events).conns <==> Joined(events, id).Some?
    ensures id in Run(events).clients <==> Joined(events, id).Some? && LeftAt(events, id).None?
    ensures LeftAt(events, id).Some? ==> Joined(events, id).Some?
  {
    if events != [] {
      var init := events[..|events| - 1];
      NeverPanics(init);
      RegisteredWhileJoined(init, id);
      if id in Run(init).conns {
        StepDelivers(Run(init), events[|events| - 1], id);
      }
    }
  }

  /** How much had been broadcast by the time the client left, or until now. */
  function EndOf<M>(events: seq<Event<M>>, id: nat): nat {
    if LeftAt(events, id).Some? then LeftAt(events, id).value else |Log(events)|
  }

  /** The client's part of the log grows exactly by what is put into its channel. */
  lemma EndMoves<M>(events: seq<Event<M>>, e: Event<M>, id: nat)
    requires Joined(events, id).Some? && EndOf(events, id) <= |Log(events)|
    ensures Joined(events + [e], id) == Joined(events, id)
    ensures Log(events + [e]) == Log(events) + if e.Broadcast? then [e.message] else []
    ensures EndOf(events + [e], id) == EndOf(events, id) + |PutBy(Run(events), e, id)|
    ensures PutBy(Run(events), e, id) != [] ==> EndOf(events, id) == |Log(events)|
  {
    assert (events + [e])[..|events|] == events;
    NeverPanics(events);
    RegisteredWhileJoined(events, id);
    StepDelivers(Run(events), e, id);
  }

  lemma AppendParts<M>(handed: seq<M>, out: seq<M>, queue: seq<M>, after: seq<M>, put: seq<M>, log: seq<M>,
                       more: seq<M>, start: nat, end: nat)
    requires start <= end <= |log| && log <= more && (put != [] ==> end == |log| && more == log + put)
    requires handed + queue == log[start..end] && out + after == queue + put
    ensures end + |put| <= |more| && handed + out + after == more[start..end + |put|]
  {
    assert handed + out + after == handed + (out + after);
    assert more[start..end + |put|] == log[start..end] + put;
  }

  /** What the client was handed and what it will still find, against the log. */
  ghost predicate Gapless<M>(events: seq<Event<M>>, id: nat) {
    match Joined(events, id)
    case None => Handed(events, id) == []
    case Some(start) =>
      && id in Run(events).conns && start <= EndOf(events, id) <= |Log(events)|
      && Handed(events, id) + Run(events).conns[id].queue == Log(events)[start..EndOf(events, id)]
  }

  lemma GaplessNext<M>(events: seq<Event<M>>, e: Event<M>, id: nat)
    requires Gapless(events, id) && Joined(events, id).Some?
    ensures Gapless(events + [e], id)
  {
    var s, end, more := Run(events), EndOf(events, id), events + [e];
    assert more[..|events|] == events;
    NeverPanics(events);
    EndMoves(events, e, id);
    StepDelivers(s, e, id);
    AppendParts(Handed(events, id), HandedBy(s, e, id), s.conns[id].queue, Step(s, e).conns[id].queue, PutBy(s, e, id),
                Log(events), Log(more), Joined(events, id).value, end);
  }

  lemma GaplessFirst<M>(events: seq<Event<M>>, e: Event<M>, id: nat)
    requires Gapless(events, id) && Joined(events, id).None?
    ensures Gapless(events + [e], id)
  {
    assert (events + [e])[..|events|] == events;
    RegisteredWhileJoined(events, id);
    RegisteredWhileJoined(events + [e], id);
  }

  /**
   What a client's receives handed out, followed by its queue, is exactly the broadcasts
   from its registration until it lost it, or until now: nothing is missing at either
   end, skipped, or handed out twice.
   */
  lemma {:induction false} DeliversContiguousRun<M>(events: seq<Event<M>>, id: nat)
    ensures Gapless(events, id)
    ensures id in Run(events).conns <==> Joined(events, id).Some?
    ensures id in Run(events).clients <==> Joined(events, id).Some? && LeftAt(events, id).None?
  {
    RegisteredWhileJoined(events, id);
    if events != [] {
      var init, e := events[..|events| - 1], events[|events| - 1];
      assert events == init + [e];
      DeliversContiguousRun(init, id);
      if Joined(init, id).Some? {
        GaplessNext(init, e, id);
      } else {
        GaplessFirst(init, e, id);
      }
    }
  }
}
