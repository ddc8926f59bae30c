/**
 Any number of replicas running their migrations at the same time against one
 database, each from its own possibly stale reading of the applied set.
 */
module MigrationReplicas {
  import opened Basics
  import opened Migrations

  /**
   Where a replica stands in RunMigrations. `base` is the database its
   transaction saw and `schema` what the file's SQL made of it.
   */
  datatype Phase<S> =
    | Idle
    | Looking(at: nat, applied: map<string, string>)
    | Begun(at: nat, applied: map<string, string>)
    | Ran(at: nat, applied: map<string, string>, base: Db<S>, schema: S)
    | Staged(at: nat, applied: map<string, string>, base: Db<S>, schema: S)
    | Succeeded
    | Failed

  /** A replica runs the files of its own release. */
  datatype Runner<S> = Runner(files: seq<Migration>, phase: Phase<S>)

  datatype System<S> = System(db: Db<S>, runners: seq<Runner<S>>)

  /**
   What happens to a replica next. `Refused` is an error from the current call with
   no effect; `CommitUnacknowledged` is a commit that takes effect although the
   replica is told it failed; `Crash` ends the process, and its open transaction.
   A replica that is idle, has succeeded or has failed may boot again.
   */
  datatype Move = Proceed | Refused | CommitUnacknowledged | Crash

  datatype Event = Event(runner: nat, move: Move)

  /**
   One call of RunMigrations. The insert is checked against the rows committed so
   far, and again at commit. The commit installs the schema computed from `base`
   even if the database has moved on since: that this never loses an update is
   proved (CommitSeesItsBase), not built in.
   */
  function Act<S>(exec: (S, string) -> Option<S>, db: Db<S>, r: Runner<S>, move: Move): (Db<S>, Phase<S>)
  {
    if move == Crash then (db, Idle)
    else
      match r.phase
      case Idle => (db, if move == Refused then Failed else Looking(0, Snapshot(db.records)))
      case Succeeded => (db, if move == Refused then Failed else Looking(0, Snapshot(db.records)))
      case Failed => (db, if move == Refused then Failed else Looking(0, Snapshot(db.records)))
      case Looking(i, applied) =>
        if i >= |r.files| then (db, Succeeded)
        else if r.files[i].version in applied then
          (db, if applied[r.files[i].version] != r.files[i].checksum then Failed else Looking(i + 1, applied))
        else (db, if move == Refused then Failed else Begun(i, applied))
      case Begun(i, applied) =>
        if move == Refused || i >= |r.files| then (db, Failed)
        else
          (match exec(db.schema, r.files[i].content)
           case None => (db, Failed)
           case Some(s) => (db, Ran(i, applied, db, s)))
      case Ran(i, applied, base, s) =>
        if move == Refused || i >= |r.files| || Recorded(db.records, r.files[i].version) then (db, Failed)
        else (db, Staged(i, applied, base, s))
      case Staged(i, applied, base, s) =>
        if move == Refused || i >= |r.files| || Recorded(db.records, r.files[i].version) then (db, Failed)
        else
          (Db(s, db.records + [RecordOf(r.files[i])]),
           if move == CommitUnacknowledged then Failed else Looking(i + 1, applied))
  }

  function Step<S>(exec: (S, string) -> Option<S>, sys: System<S>, e: Event): System<S> {
    if e.runner >= |sys.runners| then sys
    else
      var r := sys.runners[e.runner];
      var (db, phase) := Act(exec, sys.db, r, e.move);
      System(db, sys.runners[e.runner := r.(phase := phase)])
  }

  function Run<S>(exec: (S, string) -> Option<S>, sys: System<S>, events: seq<Event>): System<S>
    decreases |events|
  {
    if events == [] then sys
    else Run(exec, Step(exec, sys, events[0]), events[1..])
  }

  /** The replica's next call is not to the database: it has seen the file in the applied set, or is at the end. */
  predicate OnlyLooks<S>(r: Runner<S>) {
    r.phase.Looking? && (r.phase.at >= |r.files| || r.files[r.phase.at].version in r.phase.applied)
  }

  /** An error from a database call or a crash changes nothing in the database, and the boot is over. */
  lemma FaultsHaveNoEffect<S>(exec: (S, string) -> Option<S>, db: Db<S>, r: Runner<S>)
    ensures Act(exec, db, r, Crash) == (db, Idle)
    ensures !OnlyLooks(r) ==> Act(exec, db, r, Refused) == (db, Failed)
    ensures OnlyLooks(r) ==> Act(exec, db, r, Refused) == Act(exec, db, r, Proceed)
  {
  }

  /** A version that is already recorded fails the insert as well as the commit. */
  lemma RecordedFailsInsert<S>(exec: (S, string) -> Option<S>, db: Db<S>, r: Runner<S>, move: Move)
    requires (r.phase.Ran? || r.phase.Staged?) && r.phase.at < |r.files| && move != Crash
    requires Recorded(db.records, r.files[r.phase.at].version)
    ensures Act(exec, db, r, move) == (db, Failed)
  {
  }

  ghost predicate PhaseOk<S>(exec: (S, string) -> Option<S>, empty: S, master: seq<Migration>, n: nat, r: Runner<S>) {
    && r.files <= master
    && n <= |master|
    && match r.phase
       case Idle => true
       case Failed => true
       case Succeeded => |r.files| <= n
       case Looking(i, applied) => i <= |r.files| && i <= n && Knows(master, n, applied)
       case Begun(i, applied) => i < |r.files| && i <= n && Knows(master, n, applied)
       case Ran(i, applied, base, s) => TxOk(exec, empty, master, n, r.files, i, applied, base, s)
       case Staged(i, applied, base, s) => TxOk(exec, empty, master, n, r.files, i, applied, base, s)
  }

  ghost predicate TxOk<S>(exec: (S, string) -> Option<S>, empty: S, master: seq<Migration>, n: nat,
                          files: seq<Migration>, i: nat, applied: map<string, string>, base: Db<S>, s: S)
  {
    && i < |files|
    && IsPrefix(exec, empty, master, base)
    && i <= |base.records| <= n
    && exec(base.schema, files[i].content) == Some(s)
    && Knows(master, n, applied)
  }

  ghost predicate Inv<S>(exec: (S, string) -> Option<S>, empty: S, master: seq<Migration>, sys: System<S>) {
    && Distinct(master)
    && IsPrefix(exec, empty, master, sys.db)
    && forall k :: 0 <= k < |sys.runners| ==> PhaseOk(exec, empty, master, |sys.db.records|, sys.runners[k])
  }

  /** The system before any boot: an empty database and replicas of releases that extend one another. */
  ghost predicate Init<S>(empty: S, master: seq<Migration>, sys: System<S>) {
    && Distinct(master)
    && sys.db == Db(empty, [])
    && forall k :: 0 <= k < |sys.runners| ==> sys.runners[k].phase == Idle && sys.runners[k].files <= master
  }

  lemma PhaseGrows<S>(exec: (S, string) -> Option<S>, empty: S, master: seq<Migration>, n: nat, m: nat, r: Runner<S>)
    requires PhaseOk(exec, empty, master, n, r) && n <= m <= |master|
    ensures PhaseOk(exec, empty, master, m, r)
  {
    if r.phase.Looking? || r.phase.Begun? || r.phase.Ran? || r.phase.Staged? {
      KnowsGrows(master, n, m, r.phase.applied);
    }
  }

  /**
   A commit that passes the primary key was computed from the database it
   replaces, so no other replica's migration is overwritten.
   */
  lemma CommitSeesItsBase<S>(exec: (S, string) -> Option<S>, empty: S, master: seq<Migration>, sys: System<S>, k: nat)
    requires Inv(exec, empty, master, sys) && k < |sys.runners|
    requires sys.runners[k].phase.Staged?
    requires !Recorded(sys.db.records, sys.runners[k].files[sys.runners[k].phase.at].version)
    ensures sys.runners[k].phase.base == sys.db
    ensures sys.runners[k].phase.at == |sys.db.records|
  {
    var n, i := |sys.db.records|, sys.runners[k].phase.at;
    RecordedIffBelow(master, n, i);
    assert sys.runners[k].files[i] == master[i];
  }

  lemma CommitExtendsPrefix<S>(exec: (S, string) -> Option<S>, empty: S, master: seq<Migration>, sys: System<S>, k: nat)
    requires Inv(exec, empty, master, sys) && k < |sys.runners|
    requires sys.runners[k].phase.Staged?
    requires !Recorded(sys.db.records, sys.runners[k].files[sys.runners[k].phase.at].version)
    ensures var r := sys.runners[k];
            && r.phase.at == |sys.db.records| < |master|
            && IsPrefix(exec, empty, master, Db(r.phase.schema, sys.db.records + [RecordOf(r.files[r.phase.at])]))
  {
    var n, r := |sys.db.records|, sys.runners[k];
    CommitSeesItsBase(exec, empty, master, sys, k);
    assert r.files[n] == master[n];
    RecordsGrow(master, n);
    assert master[..n + 1][..n] == master[..n];
  }

  /** Every call of every replica keeps the invariant and only ever extends the log. */
  lemma ActKeepsInv<S>(exec: (S, string) -> Option<S>, empty: S, master: seq<Migration>, sys: System<S>, k: nat,
                       move: Move)
    requires Inv(exec, empty, master, sys) && k < |sys.runners|
    ensures var (db, phase) := Act(exec, sys.db, sys.runners[k], move);
            && IsPrefix(exec, empty, master, db)
            && sys.db.records <= db.records
            && PhaseOk(exec, empty, master, |db.records|, sys.runners[k].(phase := phase))
  {
    var r, n := sys.runners[k], |sys.db.records|;
    SnapshotKnows(exec, empty, master, sys.db);
    match r.phase {
      case Looking(i, applied) =>
        if i < |r.files| && r.files[i].version in applied {
          AppliedIsCommitted(master, n, applied, i);
        }
      case Staged(i, applied, base, s) =>
        if !(move == Crash || move == Refused || Recorded(sys.db.records, r.files[i].version)) {
          CommitExtendsPrefix(exec, empty, master, sys, k);
          KnowsGrows(master, n, n + 1, applied);
        }
      case _ =>
    }
  }

  lemma StepKeepsInv<S>(exec: (S, string) -> Option<S>, empty: S, master: seq<Migration>, sys: System<S>, e: Event)
    requires Inv(exec, empty, master, sys)
    ensures Inv(exec, empty, master, Step(exec, sys, e))
    ensures sys.db.records <= Step(exec, sys, e).db.records
  {
    if e.runner < |sys.runners| {
      ActKeepsInv(exec, empty, master, sys, e.runner, e.move);
      var next := Step(exec, sys, e);
      forall k | 0 <= k < |next.runners|
        ensures PhaseOk(exec, empty, master, |next.db.records|, next.runners[k])
      {
        if k != e.runner {
          PhaseGrows(exec, empty, master, |sys.db.records|, |next.db.records|, sys.runners[k]);
        }
      }
    }
  }

  lemma {:induction false} RunKeepsInv<S>(exec: (S, string) -> Option<S>, empty: S, master: seq<Migration>,
                                          sys: System<S>, events: seq<Event>)
    requires Inv(exec, empty, master, sys)
    ensures Inv(exec, empty, master, Run(exec, sys, events))
    ensures sys.db.records <= Run(exec, sys, events).db.records
    decreases |events|
  {
    if events != [] {
      StepKeepsInv(exec, empty, master, sys, events[0]);
      RunKeepsInv(exec, empty, master, Step(exec, sys, events[0]), events[1..]);
    }
  }

  /**
   In every interleaving of any number of replicas, with crashes, rollbacks and
   unacknowledged commits, the log is a prefix of the directory in order, no
   version is in it twice, and the schema is the fold of that log.
   */
  lemma LogIsPrefixOfDirectory<S>(exec: (S, string) -> Option<S>, empty: S, master: seq<Migration>, sys: System<S>,
                                  events: seq<Event>)
    requires Init(empty, master, sys)
    ensures var db := Run(exec, sys, events).db;
            && db.records <= RecordsOf(master)
            && (forall j, k :: 0 <= j < k < |db.records| ==> db.records[j].version != db.records[k].version)
            && ApplyAll(exec, empty, master[..|db.records|]) == Some(db.schema)
  {
    assert master[..0] == [];
    RunKeepsInv(exec, empty, master, sys, events);
  }

  /** What one boot without any fault makes of an empty database. */
  ghost predicate IsCleanBoot<S>(exec: (S, string) -> Option<S>, empty: S, files: seq<Migration>, db: Db<S>) {
    db.records == RecordsOf(files) && ApplyAll(exec, empty, files) == Some(db.schema)
  }

  /**
   As soon as any replica of the newest release has succeeded, the database is
   that of a clean boot, and no later event of any replica changes it again.
   */
  lemma SuccessIsCleanAndFinal<S>(exec: (S, string) -> Option<S>, empty: S, master: seq<Migration>, sys: System<S>,
                                  before: seq<Event>, k: nat, after: seq<Event>)
    requires Init(empty, master, sys)
    requires k < |Run(exec, sys, before).runners|
    requires Run(exec, sys, before).runners[k].phase == Succeeded
    requires Run(exec, sys, before).runners[k].files == master
    ensures IsCleanBoot(exec, empty, master, Run(exec, sys, before).db)
    ensures Run(exec, Run(exec, sys, before), after).db == Run(exec, sys, before).db
  {
    assert master[..0] == [];
    RunKeepsInv(exec, empty, master, sys, before);
    var mid := Run(exec, sys, before);
    assert master[..|master|] == master;
    assert PhaseOk(exec, empty, master, |mid.db.records|, mid.runners[k]);
    RunKeepsInv(exec, empty, master, mid, after);
  }

  // ---------------------------------------------------------------- one replica alone

  lemma RunCons<S>(exec: (S, string) -> Option<S>, sys: System<S>, e: Event, events: seq<Event>)
    ensures Run(exec, sys, [e] + events) == Run(exec, Step(exec, sys, e), events)
  {
    assert ([e] + events)[1..] == events;
  }

  /** Replica `k` making these moves. */
  function Moves(k: nat, moves: seq<Move>): seq<Event> {
    seq(|moves|, j requires 0 <= j < |moves| => Event(k, moves[j]))
  }

  lemma {:induction false} RunMoves<S>(exec: (S, string) -> Option<S>, sys: System<S>, k: nat, moves: seq<Move>,
                                       events: seq<Event>)
    ensures Run(exec, sys, Moves(k, moves) + events) == Run(exec, Run(exec, sys, Moves(k, moves)), events)
    decreases |moves|
  {
    if moves == [] {
      assert Moves(k, moves) + events == events;
    } else {
      var e := Event(k, moves[0]);
      assert Moves(k, moves) == [e] + Moves(k, moves[1..]);
      assert Moves(k, moves) + events == [e] + (Moves(k, moves[1..]) + events);
      RunCons(exec, sys, e, Moves(k, moves[1..]));
      RunCons(exec, sys, e, Moves(k, moves[1..]) + events);
      RunMoves(exec, Step(exec, sys, e), k, moves[1..], events);
    }
  }

  /** The transaction of one file, step by step, has the effect of the sequential boot's attempt. */
  lemma SoloAttempt<S>(exec: (S, string) -> Option<S>, sys: System<S>, k: nat, fault: Migrations.Fault)
    returns (moves: seq<Move>)
    requires k < |sys.runners| && sys.runners[k].phase.Looking?
    requires var r := sys.runners[k]; r.phase.at < |r.files| && r.files[r.phase.at].version !in r.phase.applied
    ensures var r := sys.runners[k];
            var now := Attempt(exec, sys.db, r.files[r.phase.at], fault);
            Run(exec, sys, Moves(k, moves)) ==
            match now
            case None => sys.(runners := sys.runners[k := r.(phase := Failed)])
            case Some(db) =>
              var phase := if fault == AfterCommit then Failed else Looking(r.phase.at + 1, r.phase.applied);
              System(db, sys.runners[k := r.(phase := phase)])
    ensures fault == Migrations.NoFault ==> forall j :: 0 <= j < |moves| ==> moves[j] == Proceed
  {
    var last := if fault == AfterCommit then CommitUnacknowledged else Proceed;
    var first := Event(k, Proceed);
    var r := sys.runners[k];
    if fault == BeforeCommit {
      moves := [Refused];
      assert Moves(k, moves) == [Event(k, Refused)] + [];
      RunCons(exec, sys, Event(k, Refused), []);
    } else {
      var s1 := Step(exec, sys, first);
      var s2 := Step(exec, s1, first);
      RunCons(exec, sys, first, [first]);
      RunCons(exec, s1, first, []);
      if s2.runners[k].phase == Failed {
        moves := [Proceed, Proceed];
        assert Moves(k, moves) == [first] + [first];
      } else {
        var s3 := Step(exec, s2, first);
        RunCons(exec, sys, first, [first, first]);
        RunCons(exec, s1, first, [first]);
        RunCons(exec, s2, first, []);
        if s3.runners[k].phase == Failed {
          moves := [Proceed, Proceed, Proceed];
          assert Moves(k, moves) == [first] + [first, first];
        } else {
          var fin := Event(k, last);
          moves := [Proceed, Proceed, Proceed, last];
          assert Moves(k, moves) == [first] + [first, first, fin];
          RunCons(exec, sys, first, [first, first, fin]);
          RunCons(exec, s1, first, [first, fin]);
          RunCons(exec, s2, first, [fin]);
          RunCons(exec, s3, fin, []);
          assert [first] + [first, fin] == [first, first, fin];
          assert [first] + [fin] == [first, fin];
        }
      }
    }
  }

  /** A boot with no other replica about is a run of the replica machine. */
  lemma {:induction false} SoloBootIsRun<S>(exec: (S, string) -> Option<S>, sys: System<S>, k: nat,
                                            faults: nat -> Migrations.Fault)
    returns (moves: seq<Move>)
    requires k < |sys.runners| && sys.runners[k].phase.Looking?
    requires var r := sys.runners[k]; r.phase.at <= |r.files| && FilesOk(r.files) && AppliedOk(r.phase.applied)
    ensures var r := sys.runners[k];
            var (db, outcome) := Boot(exec, r.files, r.phase.applied, faults, sys.db, r.phase.at);
            Run(exec, sys, Moves(k, moves))
            == System(db, sys.runners[k := r.(phase := if outcome == UpToDate then Succeeded else Failed)])
    ensures (forall i :: faults(i) == Migrations.NoFault) ==> forall j :: 0 <= j < |moves| ==> moves[j] == Proceed
    decreases |sys.runners[k].files| - sys.runners[k].phase.at
  {
    var r := sys.runners[k];
    var i := r.phase.at;
    var e := Event(k, Proceed);
    var next := Step(exec, sys, e);
    if i < |r.files| && r.files[i].version !in r.phase.applied {
      var begin := SoloAttempt(exec, sys, k, faults(i));
      var mid := Run(exec, sys, Moves(k, begin));
      if mid.runners[k].phase == Failed {
        moves := begin;
      } else {
        var rest := SoloBootIsRun(exec, mid, k, faults);
        moves := begin + rest;
        assert Moves(k, moves) == Moves(k, begin) + Moves(k, rest);
        RunMoves(exec, sys, k, begin, Moves(k, rest));
      }
    } else if next.runners[k].phase.Looking? {
      var rest := SoloBootIsRun(exec, next, k, faults);
      moves := [Proceed] + rest;
      assert Moves(k, moves) == [e] + Moves(k, rest);
      RunCons(exec, sys, e, Moves(k, rest));
    } else {
      moves := [Proceed];
      assert Moves(k, moves) == [e] + [];
      RunCons(exec, sys, e, []);
    }
  }

  lemma CrashStep<S>(exec: (S, string) -> Option<S>, sys: System<S>, k: nat)
    requires k < |sys.runners|
    ensures var r := sys.runners[k];
            Step(exec, Step(exec, sys, Event(k, Crash)), Event(k, Proceed)) ==
            sys.(runners := sys.runners[k := r.(phase := Looking(0, Snapshot(sys.db.records)))])
  {
    var r := sys.runners[k];
    var down := Step(exec, sys, Event(k, Crash));
    assert down == sys.(runners := sys.runners[k := r.(phase := Idle)]);
    assert Act(exec, down.db, down.runners[k], Proceed) == (sys.db, Looking(0, Snapshot(sys.db.records)));
  }

  lemma {:induction false} CrashAndBoot<S>(exec: (S, string) -> Option<S>, sys: System<S>, k: nat, rest: seq<Move>)
    requires k < |sys.runners|
    ensures var r := sys.runners[k];
            Run(exec, sys, Moves(k, [Crash, Proceed] + rest)) ==
            Run(exec, sys.(runners := sys.runners[k := r.(phase := Looking(0, Snapshot(sys.db.records)))]),
                Moves(k, rest))
  {
    var crash, boot := Event(k, Crash), Event(k, Proceed);
    assert Moves(k, [Crash, Proceed] + rest) == [crash] + ([boot] + Moves(k, rest));
    RunCons(exec, sys, crash, [boot] + Moves(k, rest));
    RunCons(exec, Step(exec, sys, crash), boot, Moves(k, rest));
    CrashStep(exec, sys, k);
  }

  /**
   Whatever has happened, a replica of the newest release whose process is killed and
   started again, and left alone, succeeds, provided that the directory applies at all;
   the database is then that of a clean boot.
   */
  lemma {:induction false} RestartSucceeds<S>(exec: (S, string) -> Option<S>, empty: S, master: seq<Migration>,
                                              sys: System<S>, events: seq<Event>, k: nat)
    returns (moves: seq<Move>)
    requires Init(empty, master, sys) && FilesOk(master) && ApplyAll(exec, empty, master).Some?
    requires k < |Run(exec, sys, events).runners| && Run(exec, sys, events).runners[k].files == master
    ensures |moves| > 0 && moves[0] == Crash && forall j :: 0 < j < |moves| ==> moves[j] == Proceed
    ensures var end := Run(exec, Run(exec, sys, events), Moves(k, moves));
            && k < |end.runners| && end.runners[k].phase == Succeeded
            && IsCleanBoot(exec, empty, master, end.db)
  {
    assert master[..0] == [] && master[..|master|] == master;
    RunKeepsInv(exec, empty, master, sys, events);
    var mid := Run(exec, sys, events);
    SnapshotOk(mid.db.records);
    PrefixBoot(exec, empty, master, (_: nat) => Migrations.NoFault, mid.db);
    var r := mid.runners[k];
    var up := mid.(runners := mid.runners[k := r.(phase := Looking(0, Snapshot(mid.db.records)))]);
    var rest := SoloBootIsRun(exec, up, k, (_: nat) => Migrations.NoFault);
    moves := [Crash, Proceed] + rest;
    CrashAndBoot(exec, mid, k, rest);
  }
}
