/**
 The migration runner: the directory it discovers, and boots one after another.

 The schema is any type `S`; a file's SQL acts on it through `exec`, which
 answers `None` when the SQL fails.
 */
module Migrations {
  import opened Basics

  datatype Migration = Migration(version: string, content: string, checksum: string)

  /** A row of schema_migrations. */
  datatype Record = Record(version: string, checksum: string)

  /** The database: its schema, and the migration rows in commit order. */
  datatype Db<S> = Db(schema: S, records: seq<Record>)

  predicate Recorded(records: seq<Record>, version: string) {
    exists k :: 0 <= k < |records| && records[k].version == version
  }

  function RecordOf(m: Migration): Record {
    Record(m.version, m.checksum)
  }

  function RecordsOf(files: seq<Migration>): seq<Record> {
    seq(|files|, k requires 0 <= k < |files| => RecordOf(files[k]))
  }

  ghost predicate Distinct(files: seq<Migration>) {
    forall j, k :: 0 <= j < k < |files| ==> files[j].version != files[k].version
  }

  /** The schema after every file, in order; `None` as soon as one fails. */
  function ApplyAll<S>(exec: (S, string) -> Option<S>, schema: S, files: seq<Migration>): Option<S> {
    if files == [] then Some(schema)
    else
      match ApplyAll(exec, schema, files[..|files| - 1])
      case None => None
      case Some(s) => exec(s, files[|files| - 1].content)
  }

  // ---------------------------------------------------------------- the applied set

  /** The rows as the map that a boot works from. */
  function Snapshot(records: seq<Record>): map<string, string> {
    if records == [] then map[]
    else
      var last := records[|records| - 1];
      Snapshot(records[..|records| - 1])[last.version := last.checksum]
  }

  method AppliedMigrations(records: seq<Record>) returns (out: map<string, string>)
    ensures out == Snapshot(records)
  {
    out := map[];
    for k := 0 to |records|
      invariant out == Snapshot(records[..k])
    {
      assert records[..k + 1][..k] == records[..k];
      out := out[records[k].version := records[k].checksum];
    }
    assert records[..|records|] == records;
  }

  /** The snapshot holds a version exactly when it is recorded, with the checksum of one of its rows. */
  lemma {:induction false} SnapshotIsTable(records: seq<Record>, version: string)
    ensures version in Snapshot(records) <==> Recorded(records, version)
    ensures version in Snapshot(records) ==> Record(version, Snapshot(records)[version]) in records
  {
    if records != [] {
      var init := records[..|records| - 1];
      SnapshotIsTable(init, version);
      assert records == init + [records[|records| - 1]];
      assert Recorded(init, version) ==> Recorded(records, version);
    }
  }

  /** The database is what the first `|records|` files of `master` make of `empty`. */
  ghost predicate IsPrefix<S>(exec: (S, string) -> Option<S>, empty: S, master: seq<Migration>, db: Db<S>) {
    && |db.records| <= |master|
    && db.records == RecordsOf(master[..|db.records|])
    && ApplyAll(exec, empty, master[..|db.records|]) == Some(db.schema)
  }

  /** Everything read about the applied set is still true of the first `n` files. */
  ghost predicate Knows(master: seq<Migration>, n: nat, applied: map<string, string>) {
    n <= |master| &&
    forall v :: v in applied ==> Record(v, applied[v]) in RecordsOf(master[..n])
  }

  lemma RecordedIffBelow(master: seq<Migration>, n: nat, i: nat)
    requires Distinct(master) && n <= |master| && i < |master|
    ensures Recorded(RecordsOf(master[..n]), master[i].version) <==> i < n
  {
    if i < n {
      assert RecordsOf(master[..n])[i].version == master[i].version;
    }
  }

  lemma RecordsGrow(master: seq<Migration>, n: nat)
    requires n < |master|
    ensures RecordsOf(master[..n]) + [RecordOf(master[n])] == RecordsOf(master[..n + 1])
  {
  }

  lemma KnowsGrows(master: seq<Migration>, n: nat, m: nat, applied: map<string, string>)
    requires Knows(master, n, applied) && n <= m <= |master|
    ensures Knows(master, m, applied)
  {
    forall v | v in applied ensures Record(v, applied[v]) in RecordsOf(master[..m]) {
      var k :| 0 <= k < n && RecordsOf(master[..n])[k] == Record(v, applied[v]);
      assert RecordsOf(master[..m])[k] == Record(v, applied[v]);
    }
  }

  lemma SnapshotKnows<S>(exec: (S, string) -> Option<S>, empty: S, master: seq<Migration>, db: Db<S>)
    requires IsPrefix(exec, empty, master, db)
    ensures Knows(master, |db.records|, Snapshot(db.records))
  {
    forall v | v in Snapshot(db.records) ensures Record(v, Snapshot(db.records)[v]) in db.records {
      SnapshotIsTable(db.records, v);
    }
  }

  /** A file found in the applied set is already committed, under the checksum the replica sees on disk. */
  lemma AppliedIsCommitted(master: seq<Migration>, n: nat, applied: map<string, string>, i: nat)
    requires Distinct(master) && i < |master| && Knows(master, n, applied) && master[i].version in applied
    ensures i < n && applied[master[i].version] == master[i].checksum
  {
    var v := master[i].version;
    var k :| 0 <= k < n && RecordsOf(master[..n])[k] == Record(v, applied[v]);
    assert master[k].version == v;
  }

  // ---------------------------------------------------------------- one boot

  /**
   What befalls the transaction of a file: nothing, an error or crash before it
   commits, or an error or crash after it has committed.
   */
  datatype Fault = NoFault | BeforeCommit | AfterCommit

  /** How a boot ends; `Modified` carries the first 12 characters of both checksums. */
  datatype Outcome = UpToDate | Aborted | Modified(version: string, recorded: string, onDisk: string)

  /** Checksums are hexadecimal SHA-256 digests. */
  const CHECKSUM_LENGTH := 64

  ghost predicate ChecksumsOk(records: seq<Record>) {
    forall k :: 0 <= k < |records| ==> |records[k].checksum| == CHECKSUM_LENGTH
  }

  ghost predicate FilesOk(files: seq<Migration>) {
    forall k :: 0 <= k < |files| ==> |files[k].checksum| == CHECKSUM_LENGTH
  }

  ghost predicate AppliedOk(applied: map<string, string>) {
    forall v :: v in applied ==> |applied[v]| == CHECKSUM_LENGTH
  }

  lemma SnapshotOk(records: seq<Record>)
    requires ChecksumsOk(records)
    ensures AppliedOk(Snapshot(records))
  {
    forall v | v in Snapshot(records) ensures |Snapshot(records)[v]| == CHECKSUM_LENGTH {
      SnapshotIsTable(records, v);
    }
  }

  /** The transaction of one file: its SQL and its row, together or not at all. */
  function Attempt<S>(exec: (S, string) -> Option<S>, db: Db<S>, m: Migration, fault: Fault): Option<Db<S>> {
    if fault == BeforeCommit || Recorded(db.records, m.version) then None
    else
      match exec(db.schema, m.content)
      case None => None
      case Some(s) => Some(Db(s, db.records + [RecordOf(m)]))
  }

  /** The loop of RunMigrations from file `i` on. */
  function Boot<S>(exec: (S, string) -> Option<S>, files: seq<Migration>, applied: map<string, string>,
                   faults: nat -> Fault, db: Db<S>, i: nat): (Db<S>, Outcome)
    requires i <= |files| && FilesOk(files) && AppliedOk(applied)
    decreases |files| - i
  {
    if i == |files| then (db, UpToDate)
    else if files[i].version in applied then
      var prev := applied[files[i].version];
      if prev != files[i].checksum then (db, Modified(files[i].version, prev[..12], files[i].checksum[..12]))
      else Boot(exec, files, applied, faults, db, i + 1)
    else
      match Attempt(exec, db, files[i], faults(i))
      case None => (db, Aborted)
      case Some(db') =>
        if faults(i) == AfterCommit then (db', Aborted) else Boot(exec, files, applied, faults, db', i + 1)
  }

  /** The database connection that RunMigrations works through. */
  class Database<S> {
    const exec: (S, string) -> Option<S>
    var schema: S
    var records: seq<Record>

    ghost predicate Valid() reads this {
      ChecksumsOk(records)
    }

    constructor (exec: (S, string) -> Option<S>, empty: S)
      ensures Valid() && this.exec == exec && schema == empty && records == []
    {
      this.exec, schema, records := exec, empty, [];
    }

    method RunMigrations(files: seq<Migration>, faults: nat -> Fault) returns (outcome: Outcome)
      requires Valid() && FilesOk(files)
      modifies this
      ensures Valid() && AppliedOk(Snapshot(old(records)))
      ensures (Db(schema, records), outcome)
           == Boot(exec, files, Snapshot(old(records)), faults, old(Db(schema, records)), 0)
    {
      var applied := AppliedMigrations(records);
      SnapshotOk(records);
      ghost var whole := Boot(exec, files, applied, faults, Db(schema, records), 0);
      for i := 0 to |files|
        invariant Valid()
        invariant Boot(exec, files, applied, faults, Db(schema, records), i) == whole
      {
        var m := files[i];
        if m.version in applied {
          var prev := applied[m.version];
          if prev != m.checksum {
            return Modified(m.version, prev[..12], m.checksum[..12]);
          }
          continue;
        }
        if faults(i) == BeforeCommit || Recorded(records, m.version) {
          return Aborted;
        }
        var ran := exec(schema, m.content);
        if ran.None? {
          return Aborted;
        }
        schema, records := ran.value, records + [RecordOf(m)];
        if faults(i) == AfterCommit {
          return Aborted;
        }
      }
      return UpToDate;
    }
  }

  /** The files a boot still has to apply. */
  function Pending(files: seq<Migration>, applied: map<string, string>): seq<Migration> {
    if files == [] then []
    else
      var rest := Pending(files[..|files| - 1], applied);
      if files[|files| - 1].version in applied then rest else rest + [files[|files| - 1]]
  }

  /** File `j` is recorded under a checksum that is no longer the file's. */
  predicate Edited(files: seq<Migration>, applied: map<string, string>, j: nat) {
    j < |files| && files[j].version in applied && applied[files[j].version] != files[j].checksum
  }

  /** The error about an edited file: what was recorded, then what is on disk. */
  function Complaint(m: Migration, applied: map<string, string>): Outcome
    requires m.version in applied && |applied[m.version]| == CHECKSUM_LENGTH == |m.checksum|
  {
    Modified(m.version, applied[m.version][..12], m.checksum[..12])
  }

  /** What has been added to `start` is exactly the pending part of `files[..i]`, in order. */
  ghost predicate Applied<S>(exec: (S, string) -> Option<S>, files: seq<Migration>, applied: map<string, string>,
                             start: Db<S>, db: Db<S>, i: nat)
  {
    && i <= |files|
    && db.records == start.records + RecordsOf(Pending(files[..i], applied))
    && ApplyAll(exec, start.schema, Pending(files[..i], applied)) == Some(db.schema)
  }

  lemma SkipKeepsApplied<S>(exec: (S, string) -> Option<S>, files: seq<Migration>, applied: map<string, string>,
                            start: Db<S>, db: Db<S>, i: nat)
    requires Applied(exec, files, applied, start, db, i) && i < |files| && files[i].version in applied
    ensures Applied(exec, files, applied, start, db, i + 1)
  {
    assert files[..i + 1][..i] == files[..i];
  }

  lemma AttemptKeepsApplied<S>(exec: (S, string) -> Option<S>, files: seq<Migration>, applied: map<string, string>,
                               fault: Fault, start: Db<S>, db: Db<S>, i: nat)
    requires Applied(exec, files, applied, start, db, i) && i < |files| && files[i].version !in applied
    requires Attempt(exec, db, files[i], fault).Some?
    ensures Applied(exec, files, applied, start, Attempt(exec, db, files[i], fault).value, i + 1)
  {
    var done, m := Pending(files[..i], applied), files[i];
    assert files[..i + 1][..i] == files[..i];
    assert Pending(files[..i + 1], applied) == done + [m];
    assert (done + [m])[..|done|] == done;
    assert RecordsOf(done + [m]) == RecordsOf(done) + [RecordOf(m)];
  }

  /** How far a boot from file `i` gets: every file below is recorded when it ends. */
  ghost function Reach<S>(exec: (S, string) -> Option<S>, files: seq<Migration>, applied: map<string, string>,
                          faults: nat -> Fault, db: Db<S>, i: nat): nat
    requires i <= |files|
    decreases |files| - i
  {
    if i == |files| || Edited(files, applied, i) then i
    else if files[i].version in applied then Reach(exec, files, applied, faults, db, i + 1)
    else
      match Attempt(exec, db, files[i], faults(i))
      case None => i
      case Some(db') => if faults(i) == AfterCommit then i + 1 else Reach(exec, files, applied, faults, db', i + 1)
  }

  /** A boot applies the pending files it reaches, in order. */
  lemma {:induction false} BootAppliesPending<S>(exec: (S, string) -> Option<S>, files: seq<Migration>,
                                                 applied: map<string, string>, faults: nat -> Fault, start: Db<S>,
                                                 db: Db<S>, i: nat)
    requires FilesOk(files) && AppliedOk(applied) && Applied(exec, files, applied, start, db, i)
    ensures Applied(exec, files, applied, start, Boot(exec, files, applied, faults, db, i).0,
                    Reach(exec, files, applied, faults, db, i))
    decreases |files| - i
  {
    if i < |files| && !Edited(files, applied, i) {
      if files[i].version in applied {
        SkipKeepsApplied(exec, files, applied, start, db, i);
        BootAppliesPending(exec, files, applied, faults, start, db, i + 1);
      } else {
        var now := Attempt(exec, db, files[i], faults(i));
        if now.Some? {
          AttemptKeepsApplied(exec, files, applied, faults(i), start, db, i);
          if faults(i) != AfterCommit {
            BootAppliesPending(exec, files, applied, faults, start, now.value, i + 1);
          }
        }
      }
    }
  }

  /** It does not get past an edited file, and succeeds only by reaching the end. */
  lemma {:induction false} ReachStopsAtEdited<S>(exec: (S, string) -> Option<S>, files: seq<Migration>,
                                                 applied: map<string, string>, faults: nat -> Fault, db: Db<S>,
                                                 i: nat, j: nat)
    requires i <= |files| && FilesOk(files) && AppliedOk(applied)
    ensures var p, outcome := Reach(exec, files, applied, faults, db, i), Boot(exec, files, applied, faults, db, i).1;
            && i <= p <= |files|
            && (outcome == UpToDate ==> p == |files|)
            && (i <= j && Edited(files, applied, j) ==> p <= j && outcome != UpToDate)
            && (outcome.Modified? ==> Edited(files, applied, p) && outcome == Complaint(files[p], applied))
    decreases |files| - i
  {
    if i < |files| && !Edited(files, applied, i) {
      if files[i].version in applied {
        ReachStopsAtEdited(exec, files, applied, faults, db, i + 1, j);
      } else {
        var now := Attempt(exec, db, files[i], faults(i));
        if now.Some? && faults(i) != AfterCommit {
          ReachStopsAtEdited(exec, files, applied, faults, now.value, i + 1, j);
        }
      }
    }
  }

  /**
   When a recorded file has been edited the boot fails, whatever else goes wrong,
   and what it has newly applied are unrecorded files ordered before the edited one.
   */
  lemma EditedFileStopsBoot<S>(exec: (S, string) -> Option<S>, files: seq<Migration>, faults: nat -> Fault, db: Db<S>,
                               j: nat)
    returns (p: nat)
    requires FilesOk(files) && ChecksumsOk(db.records)
    requires Edited(files, Snapshot(db.records), j)
    ensures AppliedOk(Snapshot(db.records))
    ensures p <= j
    ensures var (after, outcome) := Boot(exec, files, Snapshot(db.records), faults, db, 0);
            && outcome != UpToDate
            && after.records == db.records + RecordsOf(Pending(files[..p], Snapshot(db.records)))
            && ApplyAll(exec, db.schema, Pending(files[..p], Snapshot(db.records))) == Some(after.schema)
            && (outcome.Modified? ==>
                  && Edited(files, Snapshot(db.records), p)
                  && outcome == Complaint(files[p], Snapshot(db.records)))
  {
    SnapshotOk(db.records);
    assert files[..0] == [];
    assert RecordsOf([]) == [];
    p := Reach(exec, files, Snapshot(db.records), faults, db, 0);
    BootAppliesPending(exec, files, Snapshot(db.records), faults, db, db, 0);
    ReachStopsAtEdited(exec, files, Snapshot(db.records), faults, db, 0, j);
  }

  lemma {:induction false} PendingGrows(files: seq<Migration>, applied: map<string, string>, i: nat, j: nat)
    requires i <= j <= |files|
    ensures Pending(files[..i], applied) <= Pending(files[..j], applied)
  {
    if i < j {
      assert files[..j][..j - 1] == files[..j - 1];
      PendingGrows(files, applied, i, j - 1);
    }
  }

  lemma NextPendingApplies<S>(exec: (S, string) -> Option<S>, schema: S, files: seq<Migration>,
                              applied: map<string, string>, i: nat, j: nat)
    requires i < j <= |files| && files[i].version !in applied
    requires ApplyAll(exec, schema, Pending(files[..j], applied)).Some?
    ensures var s := ApplyAll(exec, schema, Pending(files[..i], applied));
            s.Some? && exec(s.value, files[i].content).Some?
  {
    var done, all := Pending(files[..i], applied), Pending(files[..j], applied);
    assert files[..i + 1][..i] == files[..i];
    assert Pending(files[..i + 1], applied) == done + [files[i]];
    PendingGrows(files, applied, i + 1, j);
    ApplyAllPrefix(exec, schema, all, |done| + 1);
    assert all[..|done| + 1] == done + [files[i]];
    assert (done + [files[i]])[..|done|] == done;
  }

  /** From file `i` on, a boot on which nothing else goes wrong complains about the first edited file. */
  lemma {:induction false} ReportsEdited<S>(exec: (S, string) -> Option<S>, files: seq<Migration>,
                                            applied: map<string, string>, faults: nat -> Fault, start: Db<S>,
                                            db: Db<S>, i: nat, j: nat)
    requires Distinct(files) && FilesOk(files) && AppliedOk(applied) && Applied(exec, files, applied, start, db, i)
    requires i <= j && Edited(files, applied, j) && forall k :: 0 <= k < j ==> !Edited(files, applied, k)
    requires forall k :: 0 <= k < j ==> faults(k) == NoFault
    requires ApplyAll(exec, start.schema, Pending(files[..j], applied)).Some?
    requires forall k :: i <= k < |files| && files[k].version !in applied ==> !Recorded(db.records, files[k].version)
    ensures Boot(exec, files, applied, faults, db, i).1 == Complaint(files[j], applied)
    decreases |files| - i
  {
    if i < j {
      assert !Edited(files, applied, i);
      if files[i].version in applied {
        SkipKeepsApplied(exec, files, applied, start, db, i);
        ReportsEdited(exec, files, applied, faults, start, db, i + 1, j);
      } else {
        NextPendingApplies(exec, start.schema, files, applied, i, j);
        var now := Attempt(exec, db, files[i], faults(i));
        AttemptKeepsApplied(exec, files, applied, faults(i), start, db, i);
        ReportsEdited(exec, files, applied, faults, start, now.value, i + 1, j);
      }
    }
  }

  /**
   If the pending files before the first edited one apply and nothing befalls them, the
   boot's error names that file, with its recorded checksum and then the one on disk.
   */
  lemma EditedFileIsReported<S>(exec: (S, string) -> Option<S>, files: seq<Migration>, faults: nat -> Fault,
                                db: Db<S>, j: nat)
    requires Distinct(files) && FilesOk(files) && ChecksumsOk(db.records)
    requires Edited(files, Snapshot(db.records), j)
    requires forall k :: 0 <= k < j ==> !Edited(files, Snapshot(db.records), k)
    requires forall k :: 0 <= k < j ==> faults(k) == NoFault
    requires ApplyAll(exec, db.schema, Pending(files[..j], Snapshot(db.records))).Some?
    ensures AppliedOk(Snapshot(db.records))
    ensures Boot(exec, files, Snapshot(db.records), faults, db, 0).1 == Complaint(files[j], Snapshot(db.records))
  {
    SnapshotOk(db.records);
    assert files[..0] == [] && RecordsOf([]) == [];
    forall k | 0 <= k < |files| && files[k].version !in Snapshot(db.records)
      ensures !Recorded(db.records, files[k].version)
    {
      SnapshotIsTable(db.records, files[k].version);
    }
    ReportsEdited(exec, files, Snapshot(db.records), faults, db, db, 0, j);
  }

  /** Rows are only ever written with 64-character checksums, so the error's slices are always in range. */
  lemma {:induction false} BootKeepsChecksums<S>(exec: (S, string) -> Option<S>, files: seq<Migration>,
                                                 applied: map<string, string>, faults: nat -> Fault, db: Db<S>, i: nat)
    requires i <= |files| && FilesOk(files) && AppliedOk(applied) && ChecksumsOk(db.records)
    ensures ChecksumsOk(Boot(exec, files, applied, faults, db, i).0.records)
    decreases |files| - i
  {
    if i < |files| {
      if files[i].version in applied {
        BootKeepsChecksums(exec, files, applied, faults, db, i + 1);
      } else {
        var now := Attempt(exec, db, files[i], faults(i));
        if now.Some? {
          BootKeepsChecksums(exec, files, applied, faults, now.value, i + 1);
        }
      }
    }
  }

  // ---------------------------------------------------------------- boot after boot

  /** The next file after a prefix: it applies when the whole directory does, and extends the prefix. */
  lemma AttemptExtendsPrefix<S>(exec: (S, string) -> Option<S>, empty: S, files: seq<Migration>, fault: Fault,
                                db: Db<S>)
    requires Distinct(files) && IsPrefix(exec, empty, files, db) && |db.records| < |files|
    ensures var now := Attempt(exec, db, files[|db.records|], fault);
            && (now.Some? ==> IsPrefix(exec, empty, files, now.value) && |now.value.records| == |db.records| + 1)
            && (now.None? <==> fault == BeforeCommit || ApplyAll(exec, empty, files[..|db.records| + 1]).None?)
            && (now.None? ==> fault == BeforeCommit || ApplyAll(exec, empty, files).None?)
  {
    var n := |db.records|;
    RecordedIffBelow(files, n, n);
    assert files[..n + 1][..n] == files[..n];
    RecordsGrow(files, n);
    ApplyAllPrefix(exec, empty, files, n + 1);
  }

  /** Why a boot that began with `n` files recorded ends with `p` of them. */
  ghost predicate StoppedBy<S>(exec: (S, string) -> Option<S>, empty: S, files: seq<Migration>, faults: nat -> Fault,
                               n: nat, p: nat)
  {
    || (&& p < |files| && (faults(p) == BeforeCommit || ApplyAll(exec, empty, files[..p + 1]).None?)
        && forall k :: n <= k < p ==> faults(k) == NoFault)
    || (n < p <= |files| && faults(p - 1) == AfterCommit && forall k :: n <= k < p - 1 ==> faults(k) == NoFault)
  }

  /**
   A boot on `n` recorded files loses none, and succeeds, by completing the directory,
   exactly if every file applies and nothing befalls those not yet recorded; otherwise it
   stops at the first file that fails or is interrupted.
   */
  ghost predicate EndsProperly<S>(exec: (S, string) -> Option<S>, empty: S, files: seq<Migration>,
                                  faults: nat -> Fault, n: nat, p: nat, outcome: Outcome)
  {
    && n <= p
    && (outcome == UpToDate <==>
          ApplyAll(exec, empty, files).Some? && forall k :: n <= k < |files| ==> faults(k) == NoFault)
    && (if outcome == UpToDate then p == |files| else outcome == Aborted && StoppedBy(exec, empty, files, faults, n, p))
  }

  lemma EndsOneEarlier<S>(exec: (S, string) -> Option<S>, empty: S, files: seq<Migration>, faults: nat -> Fault,
                          n: nat, p: nat, outcome: Outcome)
    requires EndsProperly(exec, empty, files, faults, n + 1, p, outcome) && faults(n) == NoFault
    ensures EndsProperly(exec, empty, files, faults, n, p, outcome)
  {
    forall k | n <= k < |files| && (forall j :: n + 1 <= j < |files| ==> faults(j) == NoFault)
      ensures faults(k) == NoFault
    {
    }
  }

  lemma AbortEndsProperly<S>(exec: (S, string) -> Option<S>, empty: S, files: seq<Migration>, faults: nat -> Fault,
                             db: Db<S>)
    requires Distinct(files) && IsPrefix(exec, empty, files, db) && |db.records| < |files|
    ensures var n := |db.records|;
            match Attempt(exec, db, files[n], faults(n))
            case None => EndsProperly(exec, empty, files, faults, n, n, Aborted)
            case Some(_) => faults(n) == AfterCommit ==> EndsProperly(exec, empty, files, faults, n, n + 1, Aborted)
  {
    AttemptExtendsPrefix(exec, empty, files, faults(|db.records|), db);
  }

  /** A boot on the database that some earlier boots left behind, `applied` being its first `m` rows. */
  lemma {:induction false} BootFromPrefix<S>(exec: (S, string) -> Option<S>, empty: S, files: seq<Migration>, m: nat,
                                             applied: map<string, string>, faults: nat -> Fault, db: Db<S>, i: nat)
    requires Distinct(files) && FilesOk(files) && IsPrefix(exec, empty, files, db) && AppliedOk(applied)
    requires m <= |db.records| && (i <= m == |db.records| || i == |db.records|)
    requires forall k :: 0 <= k < |files| ==> (files[k].version in applied <==> k < m)
    requires forall k :: 0 <= k < m ==> applied[files[k].version] == files[k].checksum
    ensures var (after, outcome) := Boot(exec, files, applied, faults, db, i);
            && IsPrefix(exec, empty, files, after)
            && EndsProperly(exec, empty, files, faults, |db.records|, |after.records|, outcome)
    decreases |files| - i
  {
    if i == |files| {
      assert files[..i] == files;
    } else {
      if i < m {
        BootFromPrefix(exec, empty, files, m, applied, faults, db, i + 1);
      } else {
        AttemptExtendsPrefix(exec, empty, files, faults(i), db);
        AbortEndsProperly(exec, empty, files, faults, db);
        var now := Attempt(exec, db, files[i], faults(i));
        if now.Some? && faults(i) == NoFault {
          BootFromPrefix(exec, empty, files, m, applied, faults, now.value, i + 1);
          var (after, outcome) := Boot(exec, files, applied, faults, now.value, i + 1);
          EndsOneEarlier(exec, empty, files, faults, i, |after.records|, outcome);
        }
      }
    }
  }

  lemma {:induction false} PrefixBoot<S>(exec: (S, string) -> Option<S>, empty: S, files: seq<Migration>,
                                         faults: nat -> Fault, db: Db<S>)
    requires Distinct(files) && FilesOk(files) && IsPrefix(exec, empty, files, db) && AppliedOk(Snapshot(db.records))
    ensures var (after, outcome) := Boot(exec, files, Snapshot(db.records), faults, db, 0);
            && IsPrefix(exec, empty, files, after)
            && EndsProperly(exec, empty, files, faults, |db.records|, |after.records|, outcome)
  {
    var n, applied := |db.records|, Snapshot(db.records);
    SnapshotKnows(exec, empty, files, db);
    forall k | 0 <= k < |files|
      ensures files[k].version in applied <==> k < n
      ensures k < n ==> applied[files[k].version] == files[k].checksum
    {
      SnapshotIsTable(db.records, files[k].version);
      RecordedIffBelow(files, n, k);
      if k < n {
        AppliedIsCommitted(files, n, applied, k);
      }
    }
    BootFromPrefix(exec, empty, files, n, applied, faults, db, 0);
  }

  lemma {:induction false} ApplyAllPrefix<S>(exec: (S, string) -> Option<S>, schema: S, files: seq<Migration>, n: nat)
    requires n <= |files|
    ensures ApplyAll(exec, schema, files).Some? ==> ApplyAll(exec, schema, files[..n]).Some?
    decreases |files|
  {
    if n < |files| {
      ApplyAllPrefix(exec, schema, files[..|files| - 1], n);
      assert files[..|files| - 1][..n] == files[..n];
    } else {
      assert files[..n] == files;
    }
  }

  /** The database after boots that crashed or failed as `boots` says. */
  function Boots<S>(exec: (S, string) -> Option<S>, files: seq<Migration>, db: Db<S>, boots: seq<nat -> Fault>): Db<S>
    requires FilesOk(files) && ChecksumsOk(db.records)
    decreases |boots|
  {
    if boots == [] then db
    else
      SnapshotOk(db.records);
      BootKeepsChecksums(exec, files, Snapshot(db.records), boots[0], db, 0);
      Boots(exec, files, Boot(exec, files, Snapshot(db.records), boots[0], db, 0).0, boots[1..])
  }

  lemma {:induction false} BootsKeepPrefix<S>(exec: (S, string) -> Option<S>, empty: S, files: seq<Migration>,
                                              db: Db<S>, boots: seq<nat -> Fault>)
    requires Distinct(files) && FilesOk(files) && ChecksumsOk(db.records) && IsPrefix(exec, empty, files, db)
    ensures IsPrefix(exec, empty, files, Boots(exec, files, db, boots))
    ensures ChecksumsOk(Boots(exec, files, db, boots).records)
    ensures |db.records| <= |Boots(exec, files, db, boots).records|
    decreases |boots|
  {
    if boots != [] {
      SnapshotOk(db.records);
      BootKeepsChecksums(exec, files, Snapshot(db.records), boots[0], db, 0);
      PrefixBoot(exec, empty, files, boots[0], db);
      BootsKeepPrefix(exec, empty, files, Boot(exec, files, Snapshot(db.records), boots[0], db, 0).0, boots[1..]);
    }
  }

  /**
   However many boots crashed or failed first, one successful boot leaves exactly
   the database of a single boot without faults, which then succeeds too; and
   whatever happens in later boots changes nothing.
   */
  lemma RecoversToCleanBoot<S>(exec: (S, string) -> Option<S>, empty: S, files: seq<Migration>,
                               boots: seq<nat -> Fault>, last: nat -> Fault, later: seq<nat -> Fault>)
    requires Distinct(files) && FilesOk(files)
    ensures AppliedOk(Snapshot([])) && AppliedOk(Snapshot(Boots(exec, files, Db(empty, []), boots).records))
    ensures var db := Boots(exec, files, Db(empty, []), boots);
            var (after, outcome) := Boot(exec, files, Snapshot(db.records), last, db, 0);
            outcome == UpToDate ==>
              && Boot(exec, files, Snapshot([]), (_: nat) => NoFault, Db(empty, []), 0) == (after, UpToDate)
              && ChecksumsOk(after.records)
              && Boots(exec, files, after, later) == after
  {
    var blank := Db(empty, []);
    assert files[..0] == [] && RecordsOf([]) == [];
    var db := Boots(exec, files, blank, boots);
    BootsKeepPrefix(exec, empty, files, blank, boots);
    SnapshotOk(db.records);
    SnapshotOk(blank.records);
    PrefixBoot(exec, empty, files, last, db);
    BootKeepsChecksums(exec, files, Snapshot(db.records), last, db, 0);
    var (after, outcome) := Boot(exec, files, Snapshot(db.records), last, db, 0);
    if outcome == UpToDate {
      assert files[..|files|] == files;
      PrefixBoot(exec, empty, files, (_: nat) => NoFault, blank);
      BootsKeepPrefix(exec, empty, files, after, later);
    }
  }
}
