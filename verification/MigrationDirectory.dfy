/** Discovery of the migration files: which files count, and the order they are applied in. */
module MigrationDirectory {
  import opened Basics
  import opened Migrations

  /** An entry of the directory; `content` is `None` when reading the file fails. */
  datatype DirEntry = DirEntry(name: string, isDir: bool, content: Option<string>)

  const SUFFIX := ".sql"

  predicate IsMigration(e: DirEntry) {
    !e.isDir && |SUFFIX| <= |e.name| && e.name[|e.name| - |SUFFIX|..] == SUFFIX
  }

  /** The files are those whose name ends in `.sql`. */
  lemma IsMigrationIff(e: DirEntry)
    ensures IsMigration(e) <==> !e.isDir && exists stem :: e.name == stem + ".sql"
  {
    if IsMigration(e) {
      assert e.name == e.name[..|e.name| - 4] + ".sql";
    }
    if stem :| e.name == stem + ".sql" {
      assert e.name[|stem|..] == ".sql";
    }
  }

  function MigrationOf(e: DirEntry, hash: string -> string): Migration
    requires e.content.Some?
  {
    Migration(e.name, e.content.value, hash(e.content.value))
  }

  /** Lexical order, which for zero-padded names is the order to apply them in. */
  predicate Before(a: string, b: string) {
    b != [] && (a == [] || a[0] < b[0] || (a[0] == b[0] && Before(a[1..], b[1..])))
  }

  lemma {:induction false} BeforeIsStrictOrder(a: string, b: string, c: string)
    ensures !Before(a, a)
    ensures Before(a, b) && Before(b, c) ==> Before(a, c)
    ensures a == b || Before(a, b) || Before(b, a)
    decreases |a| + |b| + |c|
  {
    if a != [] && b != [] && c != [] {
      BeforeIsStrictOrder(a[1..], b[1..], c[1..]);
    } else if a != [] && b != [] {
      BeforeIsStrictOrder(a[1..], b[1..], c);
    } else if a != [] {
      BeforeIsStrictOrder(a[1..], b, c);
    }
    if a != [] && b != [] && a[0] == b[0] && a[1..] == b[1..] {
      assert a == [a[0]] + a[1..] && b == [b[0]] + b[1..];
    }
  }

  /** A string of decimal digits. */
  ghost predicate IsNumber(s: string) {
    forall k :: 0 <= k < |s| ==> '0' <= s[k] <= '9'
  }

  function Power(n: nat): nat {
    if n == 0 then 1 else 10 * Power(n - 1)
  }

  function Value(s: string): int {
    if s == "" then 0 else (s[0] as int - '0' as int) * Power(|s| - 1) + Value(s[1..])
  }

  lemma DigitTimes(d: int, power: nat)
    requires 0 <= d <= 9
    ensures 0 <= d * power <= 9 * power
  {
    assert (9 - d) * power >= 0;
  }

  lemma {:induction false} ValueBounds(s: string)
    requires IsNumber(s)
    ensures 0 <= Value(s) < Power(|s|)
  {
    if s != "" {
      ValueBounds(s[1..]);
      DigitTimes(s[0] as int - '0' as int, Power(|s| - 1));
    }
  }

  /** Names that begin with zero-padded numbers are in the order of these numbers. */
  lemma {:induction false} NumberedInOrder(a: string, b: string, x: string, y: string)
    requires IsNumber(a) && IsNumber(b) && |a| == |b| && Value(a) < Value(b)
    ensures Before(a + x, b + y)
  {
    ValueBounds(a[1..]);
    ValueBounds(b[1..]);
    assert (a + x)[1..] == a[1..] + x && (b + y)[1..] == b[1..] + y;
    if a[0] == b[0] {
      NumberedInOrder(a[1..], b[1..], x, y);
    } else {
      FirstDigitDecides(a[0] as int - '0' as int, b[0] as int - '0' as int, Power(|a| - 1),
                        Value(a[1..]), Value(b[1..]));
    }
  }

  lemma FirstDigitDecides(d: int, e: int, power: nat, v: int, w: int)
    requires d * power + v < e * power + w && 0 <= v && w < power
    ensures d <= e
  {
    assert (d - e - 1) * power < 0;
  }

  ghost predicate InOrder(files: seq<Migration>) {
    forall j, k :: 0 <= j < k < |files| ==> Before(files[j].version, files[k].version)
  }

  /** Puts a file at its place in a list already in order. */
  function Place(files: seq<Migration>, m: Migration): seq<Migration> {
    if files == [] || Before(m.version, files[0].version) then [m] + files
    else [files[0]] + Place(files[1..], m)
  }

  lemma {:induction false} PlaceKeepsOrder(files: seq<Migration>, m: Migration)
    requires InOrder(files)
    requires forall k :: 0 <= k < |files| ==> files[k].version != m.version
    ensures InOrder(Place(files, m))
    ensures forall x :: x in Place(files, m) <==> x == m || x in files
  {
    if files == [] {
    } else if Before(m.version, files[0].version) {
      forall k | 0 <= k < |files| ensures Before(m.version, files[k].version) {
        BeforeIsStrictOrder(m.version, files[0].version, files[k].version);
      }
    } else {
      PlaceKeepsOrder(files[1..], m);
      BeforeIsStrictOrder(files[0].version, m.version, m.version);
      var rest := Place(files[1..], m);
      forall k | 0 <= k < |rest| ensures Before(files[0].version, rest[k].version) {
        assert rest[k] == m || rest[k] in files[1..];
      }
      assert files == [files[0]] + files[1..];
    }
  }

  /** Some file that should be read cannot be. */
  ghost predicate Unreadable(entries: seq<DirEntry>) {
    exists k :: 0 <= k < |entries| && IsMigration(entries[k]) && entries[k].content.None?
  }

  /** The migrations of a readable listing, whatever its order. */
  ghost predicate Holds(entries: seq<DirEntry>, hash: string -> string, m: Migration) {
    exists k :: 0 <= k < |entries| && IsMigration(entries[k]) && entries[k].content.Some?
                && m == MigrationOf(entries[k], hash)
  }

  /** `entries` is `None` when the directory itself cannot be read. Names in a directory are distinct. */
  method DiscoverMigrations(entries: Option<seq<DirEntry>>, hash: string -> string) returns (r: Option<seq<Migration>>)
    requires entries.Some? ==>
               forall j, k :: 0 <= j < k < |entries.value| ==> entries.value[j].name != entries.value[k].name
    requires forall s :: |hash(s)| == CHECKSUM_LENGTH
    ensures r.None? <==> entries.None? || Unreadable(entries.value)
    ensures r.Some? ==> InOrder(r.value) && Distinct(r.value) && FilesOk(r.value)
    ensures r.Some? ==> forall m :: m in r.value <==> Holds(entries.value, hash, m)
  {
    if entries.None? {
      return None;
    }
    var out: seq<Migration> := [];
    for i := 0 to |entries.value|
      invariant InOrder(out) && FilesOk(out)
      invariant !Unreadable(entries.value[..i])
      invariant forall m :: m in out <==> Holds(entries.value[..i], hash, m)
    {
      var e := entries.value[i];
      ghost var seen, more := entries.value[..i], entries.value[..i + 1];
      assert more == seen + [e];
      if !IsMigration(e) {
        continue;
      }
      if e.content.None? {
        assert Unreadable(entries.value);
        return None;
      }
      var m := MigrationOf(e, hash);
      forall k | 0 <= k < |out| ensures out[k].version != m.version {
        assert Holds(seen, hash, out[k]);
      }
      PlaceKeepsOrder(out, m);
      HoldsNext(seen, e, hash);
      forall x | x in Place(out, m) ensures |x.checksum| == CHECKSUM_LENGTH {
        assert x == m || x in out;
      }
      out := Place(out, m);
    }
    assert entries.value[..|entries.value|] == entries.value;
    InOrderIsDistinct(out);
    return Some(out);
  }

  lemma HoldsNext(seen: seq<DirEntry>, e: DirEntry, hash: string -> string)
    requires IsMigration(e) && e.content.Some?
    ensures forall m :: Holds(seen + [e], hash, m) <==> Holds(seen, hash, m) || m == MigrationOf(e, hash)
  {
    forall m ensures Holds(seen + [e], hash, m) <==> Holds(seen, hash, m) || m == MigrationOf(e, hash) {
      assert (seen + [e])[|seen|] == e;
      if Holds(seen, hash, m) {
        var k :| 0 <= k < |seen| && IsMigration(seen[k]) && seen[k].content.Some? && m == MigrationOf(seen[k], hash);
        assert (seen + [e])[k] == seen[k];
      }
    }
  }

  lemma InOrderIsDistinct(files: seq<Migration>)
    requires InOrder(files)
    ensures Distinct(files)
  {
    forall j, k | 0 <= j < k < |files| ensures files[j].version != files[k].version {
      BeforeIsStrictOrder(files[j].version, files[j].version, files[j].version);
    }
  }

  /** Replicas that see the same files, listed in any order, apply them in the same order. */
  lemma {:induction false} OrderIsDetermined(a: seq<Migration>, b: seq<Migration>)
    requires InOrder(a) && InOrder(b)
    requires forall m :: m in a <==> m in b
    ensures a == b
  {
    assert a != [] ==> a[0] in a;
    assert b != [] ==> b[0] in b;
    if a != [] && b != [] {
      FirstIsLeast(a, b);
      FirstIsLeast(b, a);
      BeforeIsStrictOrder(a[0].version, b[0].version, a[0].version);
      InOrderIsDistinct(a);
      InOrderIsDistinct(b);
      assert a == [a[0]] + a[1..] && b == [b[0]] + b[1..];
      forall m ensures m in a[1..] <==> m in b[1..] {
        assert m in a[1..] ==> m in a && m != a[0];
        assert m in b[1..] ==> m in b && m != b[0];
      }
      OrderIsDetermined(a[1..], b[1..]);
    }
  }

  lemma FirstIsLeast(a: seq<Migration>, b: seq<Migration>)
    requires InOrder(a) && a != [] && b != [] && b[0] in a
    ensures a[0] == b[0] || Before(a[0].version, b[0].version)
  {
  }
}
