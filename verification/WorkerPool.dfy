/**
 The scan worker pool: a channel of capacity 20 used as a counting semaphore, and a
 batch of goroutines that each scan one address and write one slot of the results.
 Other callers of DeepScan share the pool.
 */
module WorkerPool {
  import opened Basics

  const CAPACITY := 20

  /** Where the goroutine of one address stands. */
  datatype Phase<R> =
    | Started
    | Waiting              // address accepted, no slot yet
    | Scanning             // holds a slot
    | Ended(result: R)     // has a result on some return path, deferred release still to run
    | Returned(result: R)  // DeepScan has returned
    | Stored               // result written
    | Finished             // wait group told

  /** `slots` is the length of the channel, `others` how many of them other callers hold. */
  datatype System<R> = System(
    slots: nat, others: nat,
    jobs: seq<Phase<R>>, pending: int,
    results: seq<Option<(string, R)>>)

  /** What DeepScan answers: an address that is not sane is refused without a slot. */
  datatype Scanner<!R> = Scanner(sane: string -> bool, scan: string -> R, refusal: R) {
    function DeepScan(ip: string): R {
      if sane(ip) then scan(ip) else refusal
    }
  }

  datatype Event =
    | Spawn               // the loop starts the next goroutine
    | Advance(job: nat)   // a goroutine takes its next step
    | OtherAcquires
    | OtherReleases

  function Start<R>(n: nat, others: nat): System<R> {
    System(others, others, [], 0, seq(n, _ => None))
  }

  function Act<R>(sc: Scanner<R>, ips: seq<string>, s: System<R>, i: nat): System<R>
    requires i < |s.jobs| && |s.jobs| <= |ips| && |s.results| == |ips|
  {
    match s.jobs[i]
    case Started =>
      s.(jobs := s.jobs[i := if sc.sane(ips[i]) then Waiting else Returned(sc.refusal)])
    case Waiting =>
      if s.slots < CAPACITY then s.(slots := s.slots + 1, jobs := s.jobs[i := Scanning]) else s
    case Scanning => s.(jobs := s.jobs[i := Ended(sc.scan(ips[i]))])
    case Ended(r) => s.(slots := if s.slots > 0 then s.slots - 1 else 0, jobs := s.jobs[i := Returned(r)])
    case Returned(r) => s.(results := s.results[i := Some((ips[i], r))], jobs := s.jobs[i := Stored])
    case Stored => s.(pending := s.pending - 1, jobs := s.jobs[i := Finished])
    case Finished => s
  }

  function Step<R>(sc: Scanner<R>, ips: seq<string>, s: System<R>, e: Event): System<R>
    requires |s.jobs| <= |ips| && |s.results| == |ips|
    ensures var t := Step(sc, ips, s, e); |t.jobs| <= |ips| && |t.results| == |ips|
  {
    match e
    case Spawn => if |s.jobs| < |ips| then s.(jobs := s.jobs + [Started], pending := s.pending + 1) else s
    case Advance(i) => if i < |s.jobs| then Act(sc, ips, s, i) else s
    case OtherAcquires => if s.slots < CAPACITY then s.(slots := s.slots + 1, others := s.others + 1) else s
    case OtherReleases => if s.others > 0 && s.slots > 0 then s.(slots := s.slots - 1, others := s.others - 1) else s
  }

  function Run<R>(sc: Scanner<R>, ips: seq<string>, others: nat, events: seq<Event>): System<R>
    ensures var t := Run(sc, ips, others, events); |t.jobs| <= |ips| && |t.results| == |ips|
  {
    if events == [] then Start(|ips|, others)
    else Step(sc, ips, Run(sc, ips, others, events[..|events| - 1]), events[|events| - 1])
  }

  /** The wait at the end of the batch returns: everything was started and nothing is pending. */
  predicate Waited<R>(ips: seq<string>, s: System<R>) {
    |s.jobs| == |ips| && s.pending == 0
  }

  // ---------------------------------------------------------------- slots and pending jobs

  predicate Holds<R>(p: Phase<R>) {
    p.Scanning? || p.Ended?
  }

  function Holders<R>(jobs: seq<Phase<R>>): nat {
    if jobs == [] then 0 else Holders(jobs[..|jobs| - 1]) + if Holds(jobs[|jobs| - 1]) then 1 else 0
  }

  function Unfinished<R>(jobs: seq<Phase<R>>): nat {
    if jobs == [] then 0 else Unfinished(jobs[..|jobs| - 1]) + if jobs[|jobs| - 1].Finished? then 0 else 1
  }

  lemma {:induction false} CountsAfterUpdate<R>(jobs: seq<Phase<R>>, i: nat, p: Phase<R>)
    requires i < |jobs|
    ensures Holders(jobs[i := p]) == Holders(jobs) + (if Holds(p) then 1 else 0) - (if Holds(jobs[i]) then 1 else 0)
    ensures Unfinished(jobs[i := p]) ==
            Unfinished(jobs) + (if p.Finished? then 0 else 1) - (if jobs[i].Finished? then 0 else 1)
  {
    var n := |jobs| - 1;
    if i == n {
      assert jobs[i := p][..n] == jobs[..n];
    } else {
      assert jobs[i := p][..n] == jobs[..n][i := p];
      CountsAfterUpdate(jobs[..n], i, p);
    }
  }

  lemma CountsAfterSpawn<R>(jobs: seq<Phase<R>>)
    ensures Holders(jobs + [Started]) == Holders(jobs)
    ensures Unfinished(jobs + [Started]) == Unfinished(jobs) + 1
  {
    assert (jobs + [Started])[..|jobs|] == jobs;
  }

  lemma {:induction false} NoneUnfinished<R>(jobs: seq<Phase<R>>)
    ensures Unfinished(jobs) == 0 <==> forall i :: 0 <= i < |jobs| ==> jobs[i].Finished?
    ensures (forall i :: 0 <= i < |jobs| ==> jobs[i].Finished?) ==> Holders(jobs) == 0
  {
    if jobs != [] {
      NoneUnfinished(jobs[..|jobs| - 1]);
    }
  }

  lemma {:induction false} SomeHolder<R>(jobs: seq<Phase<R>>) returns (i: nat)
    requires Holders(jobs) > 0
    ensures i < |jobs| && Holds(jobs[i])
  {
    if Holds(jobs[|jobs| - 1]) {
      i := |jobs| - 1;
    } else {
      i := SomeHolder(jobs[..|jobs| - 1]);
    }
  }

  /** The job's result is that of its own address, and is in its own place once stored. */
  ghost predicate JobOk<R>(sc: Scanner<R>, ip: string, p: Phase<R>, result: Option<(string, R)>) {
    match p
    case Ended(r) => sc.sane(ip) && r == sc.DeepScan(ip)
    case Returned(r) => r == sc.DeepScan(ip)
    case Waiting => sc.sane(ip)
    case Scanning => sc.sane(ip)
    case Stored => result == Some((ip, sc.DeepScan(ip)))
    case Finished => result == Some((ip, sc.DeepScan(ip)))
    case Started => true
  }

  ghost predicate Inv<R>(sc: Scanner<R>, ips: seq<string>, s: System<R>) {
    && |s.jobs| <= |ips| && |s.results| == |ips|
    && s.slots == Holders(s.jobs) + s.others && s.slots <= CAPACITY
    && s.pending == Unfinished(s.jobs)
    && forall i :: 0 <= i < |s.jobs| ==> JobOk(sc, ips[i], s.jobs[i], s.results[i])
  }

  lemma ActKeepsInv<R>(sc: Scanner<R>, ips: seq<string>, s: System<R>, i: nat)
    requires Inv(sc, ips, s) && i < |s.jobs|
    ensures Inv(sc, ips, Act(sc, ips, s, i))
  {
    var t := Act(sc, ips, s, i);
    CountsAfterUpdate(s.jobs, i, t.jobs[i]);
    assert t.jobs == s.jobs[i := t.jobs[i]];
    assert JobOk(sc, ips[i], t.jobs[i], t.results[i]);
    forall k | 0 <= k < |t.jobs| ensures JobOk(sc, ips[k], t.jobs[k], t.results[k]) {
      assert k != i ==> t.jobs[k] == s.jobs[k] && t.results[k] == s.results[k];
    }
  }

  lemma StepKeepsInv<R>(sc: Scanner<R>, ips: seq<string>, s: System<R>, e: Event)
    requires Inv(sc, ips, s)
    ensures Inv(sc, ips, Step(sc, ips, s, e))
  {
    if e.Spawn? {
      CountsAfterSpawn(s.jobs);
    } else if e.Advance? && e.job < |s.jobs| {
      ActKeepsInv(sc, ips, s, e.job);
    }
  }

  lemma {:induction false} RunKeepsInv<R>(sc: Scanner<R>, ips: seq<string>, others: nat, events: seq<Event>)
    requires others <= CAPACITY
    ensures Inv(sc, ips, Run(sc, ips, others, events))
  {
    if events != [] {
      RunKeepsInv(sc, ips, others, events[..|events| - 1]);
      StepKeepsInv(sc, ips, Run(sc, ips, others, events[..|events| - 1]), events[|events| - 1]);
    }
  }

  /**
   In every interleaving the channel's length is the number of scans that hold a
   slot, never above 20, and only sane addresses get one. When the wait returns the
   batch holds none, and result i is address i with its scan, or the refusal.
   */
  lemma {:induction false} BatchIsCorrect<R>(sc: Scanner<R>, ips: seq<string>, others: nat, events: seq<Event>)
    requires others <= CAPACITY
    ensures var s := Run(sc, ips, others, events);
            && s.slots == Holders(s.jobs) + s.others <= 20
            && (Waited(ips, s) ==>
                  && s.slots == s.others
                  && forall i :: 0 <= i < |ips| ==>
                       s.results[i] == Some((ips[i], if sc.sane(ips[i]) then sc.scan(ips[i]) else sc.refusal)))
            && (forall i :: 0 <= i < |s.jobs| && Holds(s.jobs[i]) ==> sc.sane(ips[i]))
  {
    RunKeepsInv(sc, ips, others, events);
    NoneUnfinished(Run(sc, ips, others, events).jobs);
  }

  // ---------------------------------------------------------------- the batch ends

  function Rank<R>(p: Phase<R>): nat {
    match p
    case Started => 6
    case Waiting => 5
    case Scanning => 4
    case Ended(_) => 3
    case Returned(_) => 2
    case Stored => 1
    case Finished => 0
  }

  function Left<R>(jobs: seq<Phase<R>>): nat {
    if jobs == [] then 0 else Left(jobs[..|jobs| - 1]) + Rank(jobs[|jobs| - 1])
  }

  /** Steps the batch still has to take. */
  function Work<R>(ips: seq<string>, s: System<R>): nat
    requires |s.jobs| <= |ips|
  {
    Left(s.jobs) + 7 * (|ips| - |s.jobs|)
  }

  lemma {:induction false} LeftAfterUpdate<R>(jobs: seq<Phase<R>>, i: nat, p: Phase<R>)
    requires i < |jobs|
    ensures Left(jobs[i := p]) == Left(jobs) + Rank(p) - Rank(jobs[i])
  {
    var n := |jobs| - 1;
    if i == n {
      assert jobs[i := p][..n] == jobs[..n];
    } else {
      assert jobs[i := p][..n] == jobs[..n][i := p];
      LeftAfterUpdate(jobs[..n], i, p);
    }
  }

  /** Every step that changes anything brings the batch closer to its end, or is another caller's. */
  lemma StepsMakeProgress<R>(sc: Scanner<R>, ips: seq<string>, s: System<R>, e: Event)
    requires Inv(sc, ips, s) && (e.Spawn? || e.Advance?) && Step(sc, ips, s, e) != s
    ensures Work(ips, Step(sc, ips, s, e)) < Work(ips, s)
  {
    if e.Spawn? {
      assert (s.jobs + [Started])[..|s.jobs|] == s.jobs;
    } else {
      LeftAfterUpdate(s.jobs, e.job, Step(sc, ips, s, e).jobs[e.job]);
    }
  }

  /** How many steps of the batch in the run changed anything. */
  ghost function Effective<R>(sc: Scanner<R>, ips: seq<string>, others: nat, events: seq<Event>): nat {
    if events == [] then 0
    else
      var init, e := events[..|events| - 1], events[|events| - 1];
      var s := Run(sc, ips, others, init);
      Effective(sc, ips, others, init) + if (e.Spawn? || e.Advance?) && Step(sc, ips, s, e) != s then 1 else 0
  }

  /** In every interleaving the batch takes at most seven effective steps for each address. */
  lemma {:induction false} BatchStepsAreBounded<R>(sc: Scanner<R>, ips: seq<string>, others: nat, events: seq<Event>)
    requires others <= CAPACITY
    ensures Effective(sc, ips, others, events) + Work(ips, Run(sc, ips, others, events)) <= 7 * |ips|
  {
    if events != [] {
      var init, e := events[..|events| - 1], events[|events| - 1];
      var s := Run(sc, ips, others, init);
      BatchStepsAreBounded(sc, ips, others, init);
      RunKeepsInv(sc, ips, others, init);
      if (e.Spawn? || e.Advance?) && Step(sc, ips, s, e) != s {
        StepsMakeProgress(sc, ips, s, e);
      }
    }
  }

  /** A goroutine is held up exactly while it waits for a slot and all 20 are held. */
  lemma BlockedIffFull<R>(sc: Scanner<R>, ips: seq<string>, s: System<R>, i: nat)
    requires Inv(sc, ips, s) && i < |s.jobs| && !s.jobs[i].Finished?
    ensures Step(sc, ips, s, Advance(i)) == s <==> s.jobs[i].Waiting? && Holders(s.jobs) + s.others == 20
  {
    assert Step(sc, ips, s, Advance(i)) != s <== Step(sc, ips, s, Advance(i)).jobs[i] != s.jobs[i];
  }

  /** Until the wait returns, some step can be taken: there is no deadlock. */
  lemma NeverDeadlocks<R>(sc: Scanner<R>, ips: seq<string>, s: System<R>) returns (e: Event)
    requires Inv(sc, ips, s) && !Waited(ips, s)
    ensures e != OtherAcquires && Step(sc, ips, s, e) != s
  {
    NoneUnfinished(s.jobs);
    if |s.jobs| < |ips| {
      e := Spawn;
    } else {
      var i :| 0 <= i < |s.jobs| && !s.jobs[i].Finished?;
      if s.jobs[i].Waiting? && s.slots == CAPACITY {
        if s.others > 0 {
          e := OtherReleases;
        } else {
          var h := SomeHolder(s.jobs);
          e := Advance(h);
        }
      } else {
        e := Advance(i);
      }
    }
    assert e.Advance? ==> Step(sc, ips, s, e).jobs[e.job] != s.jobs[e.job];
  }
}
