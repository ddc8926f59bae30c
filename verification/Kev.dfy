/** The catalog of known exploited vulnerabilities and its index by CVE id. */
module Kev {
  import opened Basics

  datatype Entry = Entry(cve: string, details: string)

  /** The index maps an upper-cased CVE id to the position of its entry. */
  datatype Catalog = Catalog(entries: seq<Entry>, count: nat, index: map<string, nat>)

  function Index(upper: string -> string, entries: seq<Entry>): map<string, nat> {
    if entries == [] then map[]
    else Index(upper, entries[..|entries| - 1])[upper(entries[|entries| - 1].cve) := |entries| - 1]
  }

  function Load(upper: string -> string, entries: seq<Entry>): Catalog {
    Catalog(entries, |entries|, Index(upper, entries))
  }

  /** A refresh that fails, at the fetch or at the reload, leaves the catalog alone. */
  function Refreshed(upper: string -> string, c: Catalog, fetched: Option<seq<Entry>>): Catalog {
    match fetched
    case None => c
    case Some(entries) => Load(upper, entries)
  }

  function Run(upper: string -> string, first: Option<seq<Entry>>, refreshes: seq<Option<seq<Entry>>>): Catalog {
    if refreshes == [] then Refreshed(upper, Catalog([], 0, map[]), first)
    else Refreshed(upper, Run(upper, first, refreshes[..|refreshes| - 1]), refreshes[|refreshes| - 1])
  }

  predicate IsKev(upper: string -> string, c: Catalog, cve: string) {
    upper(cve) in c.index
  }

  function GetEntry(upper: string -> string, c: Catalog, cve: string): Option<nat> {
    if upper(cve) in c.index then Some(c.index[upper(cve)]) else None
  }

  class KEVCatalog {
    const upper: string -> string
    var entries: seq<Entry>
    var count: nat
    var index: map<string, nat>

    function Model(): Catalog reads this {
      Catalog(entries, count, index)
    }

    /** What StartKEVUpdater begins with: the loaded file, or an empty catalog. */
    constructor (upper: string -> string, loaded: Option<seq<Entry>>)
      ensures this.upper == upper && Model() == Run(upper, loaded, [])
    {
      this.upper := upper;
      entries, count, index := [], 0, map[];
      new;
      if loaded.Some? {
        entries, count := loaded.value, |loaded.value|;
        index := BuildIndex(loaded.value);
      }
    }

    method BuildIndex(list: seq<Entry>) returns (built: map<string, nat>)
      ensures built == Index(upper, list)
    {
      built := map[];
      for i := 0 to |list|
        invariant built == Index(upper, list[..i])
      {
        assert list[..i + 1][..i] == list[..i];
        built := built[upper(list[i].cve) := i];
      }
      assert list[..|list|] == list;
    }

    /** One tick of the updater: the swap under the lock. */
    method Refresh(fetched: Option<seq<Entry>>)
      modifies this
      ensures Model() == Refreshed(upper, old(Model()), fetched)
    {
      if fetched.None? {
        return;
      }
      var built := BuildIndex(fetched.value);
      entries, count, index := fetched.value, |fetched.value|, built;
    }
  }

  ghost predicate Matches(upper: string -> string, e: Entry, cve: string) {
    upper(e.cve) == upper(cve)
  }

  lemma {:induction false} IndexIsLinearScan(upper: string -> string, entries: seq<Entry>, cve: string)
    ensures upper(cve) in Index(upper, entries) <==> exists k :: 0 <= k < |entries| && Matches(upper, entries[k], cve)
    ensures upper(cve) in Index(upper, entries) ==>
              var k := Index(upper, entries)[upper(cve)];
              && k < |entries| && Matches(upper, entries[k], cve)
              && forall j :: k < j < |entries| ==> !Matches(upper, entries[j], cve)
  {
    if entries != [] {
      var n := |entries| - 1;
      IndexIsLinearScan(upper, entries[..n], cve);
      assert forall k :: 0 <= k < n ==> entries[..n][k] == entries[k];
      if k :| 0 <= k < |entries[..n]| && Matches(upper, entries[..n][k], cve) {
        assert Matches(upper, entries[k], cve);
      }
    }
  }

  lemma {:induction false} IndexIsCurrent(upper: string -> string, first: Option<seq<Entry>>,
                                          refreshes: seq<Option<seq<Entry>>>)
    ensures var c := Run(upper, first, refreshes); c.index == Index(upper, c.entries) && c.count == |c.entries|
  {
    if refreshes != [] {
      IndexIsCurrent(upper, first, refreshes[..|refreshes| - 1]);
    }
  }

  /** The catalog that the last successful load fetched. */
  function Latest(first: Option<seq<Entry>>, refreshes: seq<Option<seq<Entry>>>): seq<Entry> {
    if refreshes == [] then (if first.Some? then first.value else [])
    else if refreshes[|refreshes| - 1].Some? then refreshes[|refreshes| - 1].value
    else Latest(first, refreshes[..|refreshes| - 1])
  }

  /**
   After any number of refreshes, successful or not, a lookup agrees with a
   case-insensitive scan of the last catalog loaded: it finds something exactly if
   there is a match, and then the last match; and the count is that catalog's.
   */
  lemma {:induction false} LookupIsLinearScan(upper: string -> string, first: Option<seq<Entry>>,
                                              refreshes: seq<Option<seq<Entry>>>, cve: string)
    ensures var c := Run(upper, first, refreshes);
            var list := Latest(first, refreshes);
            && c.entries == list && c.count == |list|
            && (IsKev(upper, c, cve) <==> exists k :: 0 <= k < |list| && Matches(upper, list[k], cve))
            && (GetEntry(upper, c, cve).Some? <==> IsKev(upper, c, cve))
            && (IsKev(upper, c, cve) ==>
                  var k := GetEntry(upper, c, cve).value;
                  && k < |list| && Matches(upper, list[k], cve)
                  && forall j :: k < j < |list| ==> !Matches(upper, list[j], cve))
  {
    IndexIsCurrent(upper, first, refreshes);
    IndexIsLinearScan(upper, Run(upper, first, refreshes).entries, cve);
    if refreshes != [] && refreshes[|refreshes| - 1].None? {
      LookupIsLinearScan(upper, first, refreshes[..|refreshes| - 1], cve);
    }
  }
}
