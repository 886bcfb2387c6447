/** Vault export and import: a bundle of memories is merged into a host's store, deduplicated
    by the hash of the whitespace-normalised content. */
module Vault {
  import opened Options
  import opened PyText

  datatype Row = Row(kind: string, content: string, source: string, importance: real)

  datatype Record = Record(
    kind: string, content: string, sha: string, importance: real, source: string, learnedBy: string)

  /** SHA-256, kept abstract; a hex digest is never empty. */
  type Sha = string -> string

  ghost predicate Digests(sha: Sha) {
    forall s :: sha(s) != ""
  }

  /** `content_hash`: the words count, not how they are wrapped. */
  function ContentHash(sha: Sha, text: string): string {
    sha(Join(Split(text)))
  }

  /** Rewrapping a text does not change its hash; with a collision-free digest nothing but
      rewrapping leaves it unchanged. */
  lemma HashIgnoresWrapping(sha: Sha, a: string, b: string)
    ensures Split(a) == Split(b) ==> ContentHash(sha, a) == ContentHash(sha, b)
    ensures (forall s, t :: sha(s) == sha(t) ==> s == t) && ContentHash(sha, a) == ContentHash(sha, b) ==>
            Split(a) == Split(b)
  {
    hide Split, Join;
    SplitJoin(Split(a));
    SplitJoin(Split(b));
  }

  function Digest(sha: Sha, r: Record): string {
    if r.sha != "" then r.sha else ContentHash(sha, r.content)
  }

  /** The digest a record carries is that of its content, or missing. */
  predicate WellFormed(sha: Sha, r: Record) {
    r.sha == "" || r.sha == ContentHash(sha, r.content)
  }

  ghost predicate AllWellFormed(sha: Sha, bundle: seq<Record>) {
    forall i :: 0 <= i < |bundle| ==> WellFormed(sha, bundle[i])
  }

  /** The content hashes of a store, and the digests of a bundle. */
  function Hashes(sha: Sha, rows: seq<Row>): set<string> {
    if rows == [] then {} else {ContentHash(sha, rows[0].content)} + Hashes(sha, rows[1..])
  }

  function BundleDigests(sha: Sha, bundle: seq<Record>): set<string> {
    if bundle == [] then {} else BundleDigests(sha, bundle[..|bundle| - 1]) + {Digest(sha, bundle[|bundle| - 1])}
  }

  function Imported(r: Record): Row {
    var origin := if r.learnedBy != "" then r.learnedBy else "unknown-host";
    var base := if r.source != "" then r.source else "vault";
    var source := "vault:" + origin + "/" + base;
    Row(r.kind, r.content, if |source| <= 200 then source else source[..200], r.importance)
  }

  function Exported(sha: Sha, host: string, r: Row): Record {
    Record(r.kind, r.content, ContentHash(sha, r.content), r.importance, r.source, host)
  }

  // ----- the merge as a fold -----

  /** The store (newest row first), the hashes known so far, and the counters. */
  datatype Merge = Merge(rows: seq<Row>, known: set<string>, added: nat, skipped: nat, failed: nat)

  /** `fails` tells which attempts to embed and write a record raise. */
  function MergeOne(sha: Sha, fails: nat -> bool, dryRun: bool, m: Merge, r: Record): Merge {
    var d := Digest(sha, r);
    if d in m.known then m.(skipped := m.skipped + 1)
    else if dryRun then m.(known := m.known + {d}, added := m.added + 1)
    else if fails(m.added + m.failed) then m.(failed := m.failed + 1)
    else m.(rows := [Imported(r)] + m.rows, known := m.known + {d}, added := m.added + 1)
  }

  function MergeAll(sha: Sha, fails: nat -> bool, dryRun: bool, m: Merge, bundle: seq<Record>): Merge {
    if bundle == [] then m
    else MergeOne(sha, fails, dryRun, MergeAll(sha, fails, dryRun, m, bundle[..|bundle| - 1]), bundle[|bundle| - 1])
  }

  function Start(rows: seq<Row>, known: set<string>): Merge {
    Merge(rows, known, 0, 0, 0)
  }

  /** Nothing is removed, the store grows by exactly what is counted as added, and so do the
      known hashes. */
  ghost predicate Grows(m: Merge, n: Merge, dryRun: bool) {
    && n.added >= m.added && |n.rows| == |m.rows| + (if dryRun then 0 else n.added - m.added)
    && n.rows[|n.rows| - |m.rows|..] == m.rows
    && m.known <= n.known && |n.known| == |m.known| + (n.added - m.added)
  }

  lemma GrowsOne(sha: Sha, fails: nat -> bool, dryRun: bool, m: Merge, r: Record)
    ensures var n := MergeOne(sha, fails, dryRun, m, r);
            && Grows(m, n, dryRun) && n.added + n.skipped + n.failed == m.added + m.skipped + m.failed + 1
            && n.known <= m.known + {Digest(sha, r)}
  {
    hide Digest, Imported;
  }

  lemma GrowsTransitive(l: Merge, m: Merge, n: Merge, dryRun: bool)
    requires Grows(l, m, dryRun) && Grows(m, n, dryRun)
    ensures Grows(l, n, dryRun)
  {
    assert n.rows[|n.rows| - |m.rows|..][|m.rows| - |l.rows|..] == n.rows[|n.rows| - |l.rows|..];
  }

  /** Whatever fails, every record is counted once, nothing is removed, and the store grows
      by exactly the records counted as added, none of which it knew. */
  lemma {:induction false} MergeConserves(sha: Sha, fails: nat -> bool, dryRun: bool, m: Merge, bundle: seq<Record>)
    ensures var n := MergeAll(sha, fails, dryRun, m, bundle);
            && n.added + n.skipped + n.failed == m.added + m.skipped + m.failed + |bundle|
            && Grows(m, n, dryRun) && n.known <= m.known + BundleDigests(sha, bundle)
  {
    hide Digest, Imported, MergeOne, Grows;
    if bundle == [] {
      GrowsSame(m, dryRun);
    } else {
      var k := |bundle| - 1;
      MergeConserves(sha, fails, dryRun, m, bundle[..k]);
      var n := MergeAll(sha, fails, dryRun, m, bundle[..k]);
      GrowsOne(sha, fails, dryRun, n, bundle[k]);
      GrowsTransitive(m, n, MergeOne(sha, fails, dryRun, n, bundle[k]), dryRun);
    }
  }

  lemma GrowsSame(m: Merge, dryRun: bool)
    ensures Grows(m, m, dryRun)
  {
    assert m.rows[0..] == m.rows;
  }

  predicate Never(n: nat) { false }

  /** Without failures, the known hashes become the union with the bundle's digests, so the
      number of additions is the number of digests that are new, in a real run and in a dry
      run alike. */
  lemma {:induction false} MergeUnion(sha: Sha, dryRun: bool, m: Merge, bundle: seq<Record>)
    ensures var n := MergeAll(sha, Never, dryRun, m, bundle);
            && n.known == m.known + BundleDigests(sha, bundle) && n.failed == m.failed
            && n.added == m.added + |BundleDigests(sha, bundle) - m.known|
  {
    hide Digest, Imported;
    if bundle != [] { MergeUnion(sha, dryRun, m, bundle[..|bundle| - 1]); }
    MergeConserves(sha, Never, dryRun, m, bundle);
    Cardinality(m.known, BundleDigests(sha, bundle));
  }

  lemma Cardinality<T>(a: set<T>, b: set<T>)
    ensures |a + b| == |a| + |b - a|
  {
    assert a + b == a + (b - a);
  }

  lemma StoredDigest(sha: Sha, r: Record)
    requires WellFormed(sha, r)
    ensures Hashes(sha, [Imported(r)]) == {Digest(sha, r)}
  {
    hide ContentHash;
    HashesOne(sha, Imported(r));
  }

  /** With well-formed digests, the hashes known are the hashes of the rows stored, also
      when writes fail. */
  lemma {:induction false} KnownAreStored(sha: Sha, fails: nat -> bool, m: Merge, bundle: seq<Record>)
    requires AllWellFormed(sha, bundle) && m.known == Hashes(sha, m.rows)
    ensures var n := MergeAll(sha, fails, false, m, bundle); n.known == Hashes(sha, n.rows)
  {
    hide ContentHash, Hashes, Imported, WellFormed;
    if bundle != [] {
      var k := |bundle| - 1;
      assert forall i :: 0 <= i < k ==> bundle[..k][i] == bundle[i];
      KnownAreStored(sha, fails, m, bundle[..k]);
      var n := MergeAll(sha, fails, false, m, bundle[..k]);
      StoredDigest(sha, bundle[k]);
      HashesAppend(sha, [Imported(bundle[k])], n.rows);
    }
  }

  // ----- the stores and the code -----

  const PAGE := 500
  const MAX_MEMORIES := 50_000

  datatype Report = Report(added: nat, skipped: nat, failed: nat, identityApplied: bool)

  // ----- the identity -----

  datatype Identity = Identity(revision: int, content: string)

  /** `resolve_identity`: one of the two, with the higher revision; a local identity is only
      given up for a higher one. The flag says whether the host's identity becomes another. */
  function ResolveIdentity(incoming: Identity, current: Option<Identity>): (r: (Identity, bool))
    ensures r.0 == incoming || current == Some(r.0)
    ensures r.0.revision >= incoming.revision && (current.Some? ==> r.0.revision >= current.value.revision)
    ensures current.Some? && current.value.revision == r.0.revision ==> r.0 == current.value
    ensures r.1 <==> current != Some(r.0)
  {
    if current.None? then (incoming, true)
    else if incoming.revision > current.value.revision then (incoming, true)
    else if incoming.revision < current.value.revision then (current.value, false)
    else (current.value, false)
  }

  /** What a host would end with if it resolved several bundles one after another by the
      documented rule. No import does this: none stores an identity. */
  function ResolveAll(current: Option<Identity>, bundles: seq<Identity>): Option<Identity> {
    if bundles == [] then current
    else Some(ResolveIdentity(bundles[|bundles| - 1], ResolveAll(current, bundles[..|bundles| - 1])).0)
  }

  predicate AllLower(bundles: seq<Identity>, w: Identity) {
    forall j :: 0 <= j < |bundles| ==> bundles[j].revision < w.revision
  }

  /** `w` is there first among those of the highest revision: the local identity, if it has
      that revision, or else the earliest such bundle. */
  ghost predicate FirstHighest(w: Identity, current: Option<Identity>, bundles: seq<Identity>) {
    && (forall i :: 0 <= i < |bundles| ==> bundles[i].revision <= w.revision)
    && (current.Some? ==> current.value.revision <= w.revision)
    && if current.Some? && current.value.revision == w.revision then w == current.value
       else exists i :: 0 <= i < |bundles| && bundles[i] == w && AllLower(bundles[..i], w)
  }

  lemma {:induction false} HighestRevisionWins(current: Option<Identity>, bundles: seq<Identity>)
    requires current.Some? || bundles != []
    ensures ResolveAll(current, bundles).Some? && FirstHighest(ResolveAll(current, bundles).value, current, bundles)
  {
    if bundles != [] {
      var n := |bundles| - 1;
      if current.Some? || n > 0 {
        HighestRevisionWins(current, bundles[..n]);
        var v, w := ResolveAll(current, bundles[..n]).value, ResolveAll(current, bundles).value;
        assert forall i :: 0 <= i < n ==> bundles[i] == bundles[..n][i];
        if v == w {
          if !(current.Some? && current.value.revision == w.revision) {
            var i :| 0 <= i < n && bundles[..n][i] == v && AllLower(bundles[..n][..i], v);
            assert bundles[i] == w && bundles[..n][..i] == bundles[..i];
          }
        } else {
          assert bundles[n] == w;
        }
      } else {
        assert bundles[0] == ResolveAll(current, bundles).value;
      }
    }
  }

  /** The flag that `import_bundle` reports, next to the one its merge rule promises to a host
      whose identity is `current`. */
  predicate ReportsRightly(applied: bool, incoming: Identity, current: Option<Identity>, dryRun: bool) {
    applied == (ResolveIdentity(incoming, current).1 && !dryRun)
  }

  /** `import_bundle` reports `!dryRun`. That is right if and only if it is a dry run, or the
      host has no identity, or the bundle's revision is higher. */
  lemma IdentityFlagIff(incoming: Identity, current: Option<Identity>, dryRun: bool)
    ensures ReportsRightly(!dryRun, incoming, current, dryRun) <==>
            dryRun || current.None? || incoming.revision > current.value.revision
  {
  }

  /** A tie keeps the local identity, and yet the bundle's is reported as applied. */
  lemma TieIsReportedAsApplied()
    ensures var local, other := Identity(1, "local"), Identity(1, "other");
            ResolveIdentity(other, Some(local)) == (local, false) && !ReportsRightly(true, other, Some(local), false)
  {
  }

  class Store {
    /** Newest first. */
    var rows: seq<Row>

    method ListRecent(limit: nat, offset: nat) returns (page: seq<Row>)
      ensures page == if offset > |rows| then []
                      else rows[offset..if offset + limit <= |rows| then offset + limit else |rows|]
    {
      if offset > |rows| { return []; }
      page := rows[offset..if offset + limit <= |rows| then offset + limit else |rows|];
    }

    method Write(row: Row)
      modifies this
      ensures rows == [row] + old(rows)
    {
      rows := [row] + rows;
    }
  }

  lemma {:induction false} HashesAppend(sha: Sha, a: seq<Row>, b: seq<Row>)
    ensures Hashes(sha, a + b) == Hashes(sha, a) + Hashes(sha, b)
  {
    hide ContentHash;
    if a == [] {
      assert a + b == b;
    } else {
      assert (a + b)[1..] == a[1..] + b;
      HashesAppend(sha, a[1..], b);
    }
  }

  method AddPage(hashes: set<string>, sha: Sha, page: seq<Row>) returns (more: set<string>)
    ensures more == hashes + Hashes(sha, page)
  {
    hide ContentHash;
    more := hashes;
    for i := 0 to |page|
      invariant more == hashes + Hashes(sha, page[..i])
    {
      assert page[..i + 1] == page[..i] + [page[i]];
      HashesAppend(sha, page[..i], [page[i]]);
      HashesOne(sha, page[i]);
      more := more + {ContentHash(sha, page[i].content)};
    }
    assert page[..|page|] == page;
  }

  lemma HashesOne(sha: Sha, row: Row)
    ensures Hashes(sha, [row]) == {ContentHash(sha, row.content)}
  {
    hide ContentHash;
    assert Hashes(sha, [row]) == {ContentHash(sha, row.content)} + Hashes(sha, []);
  }

  /** What a scan from `offset` sees: it ends at the first page that cannot be read, and at
      the first page that is not full. */
  function Scan(sha: Sha, rows: seq<Row>, unreadable: nat -> bool, offset: nat): set<string>
    requires offset <= |rows|
    decreases |rows| - offset
  {
    if unreadable(offset) || offset == |rows| then {}
    else if |rows| - offset < PAGE then Hashes(sha, rows[offset..])
    else Hashes(sha, rows[offset..offset + PAGE]) + Scan(sha, rows, unreadable, offset + PAGE)
  }

  /** A scan invents no hash, and one that can read every page misses none. */
  lemma {:induction false} ScanLaw(sha: Sha, rows: seq<Row>, unreadable: nat -> bool, offset: nat)
    requires offset <= |rows|
    ensures Scan(sha, rows, unreadable, offset) <= Hashes(sha, rows[offset..])
    ensures (forall n :: !unreadable(n)) ==> Scan(sha, rows, unreadable, offset) == Hashes(sha, rows[offset..])
    decreases |rows| - offset
  {
    hide Hashes;
    if offset == |rows| {
      HashesNothing(sha);
    } else if |rows| - offset >= PAGE {
      ScanLaw(sha, rows, unreadable, offset + PAGE);
      HashesAppend(sha, rows[offset..offset + PAGE], rows[offset + PAGE..]);
      assert rows[offset..] == rows[offset..offset + PAGE] + rows[offset + PAGE..];
    }
  }

  /** `_known_hashes`: pages through the store; a page that cannot be read ends the scan. */
  method KnownHashes(store: Store, sha: Sha, unreadable: nat -> bool) returns (hashes: set<string>)
    ensures hashes == Scan(sha, store.rows, unreadable, 0)
    ensures hashes <= Hashes(sha, store.rows)
    ensures (forall n :: !unreadable(n)) ==> hashes == Hashes(sha, store.rows)
  {
    hide Hashes;
    hashes := {};
    var offset := 0;
    ScanLaw(sha, store.rows, unreadable, 0);
    assert store.rows[0..] == store.rows;
    while true
      invariant offset <= |store.rows|
                && Scan(sha, store.rows, unreadable, 0) == hashes + Scan(sha, store.rows, unreadable, offset)
      decreases |store.rows| - offset
    {
      if unreadable(offset) { break; }
      var page := store.ListRecent(PAGE, offset);
      if page == [] { break; }
      assert |page| < PAGE ==> page == store.rows[offset..];
      hashes := AddPage(hashes, sha, page);
      offset := offset + |page|;
      if |page| < PAGE { break; }
    }
  }

  lemma HashesNothing(sha: Sha)
    ensures Hashes(sha, []) == {}
  {
  }

  /** `import_bundle`, with the hashes a caller may bring along. The identity is resolved
      against nothing at all, so it is reported as applied by every import that is not a dry
      run, whatever the revisions are. */
  method ImportBundle(store: Store, sha: Sha, bundle: seq<Record>, identity: Identity, existing: Option<set<string>>,
                      unreadable: nat -> bool, fails: nat -> bool, dryRun: bool)
    returns (report: Report, known: set<string>)
    modifies store
    ensures var start := if existing.Some? then existing.value else Scan(sha, old(store.rows), unreadable, 0);
            var m := MergeAll(sha, fails, dryRun, Start(old(store.rows), start), bundle);
            store.rows == m.rows && known == m.known && report == Report(m.added, m.skipped, m.failed, !dryRun)
    ensures forall current :: ReportsRightly(report.identityApplied, identity, current, dryRun) <==>
              dryRun || current.None? || identity.revision > current.value.revision
  {
    hide Digest, Imported, Hashes, MergeOne, Scan;
    if existing.Some? {
      known := existing.value;
    } else {
      known := KnownHashes(store, sha, unreadable);
    }
    var added, skipped, failed := 0, 0, 0;
    ghost var start := Start(store.rows, known);
    for i := 0 to |bundle|
      invariant Merge(store.rows, known, added, skipped, failed) == MergeAll(sha, fails, dryRun, start, bundle[..i])
    {
      assert bundle[..i + 1][..i] == bundle[..i];
      ghost var before := Merge(store.rows, known, added, skipped, failed);
      MergeOneIs(sha, fails, dryRun, before, bundle[i]);
      var digest := Digest(sha, bundle[i]);
      if digest in known {
        skipped := skipped + 1;
        continue;
      }
      if dryRun {
        added := added + 1;
        known := known + {digest};
        continue;
      }
      if fails(added + failed) {
        failed := failed + 1;
        continue;
      }
      store.Write(Imported(bundle[i]));
      known := known + {digest};
      added := added + 1;
    }
    assert bundle[..|bundle|] == bundle;
    var changed := ResolveIdentity(identity, None).1;
    report := Report(added, skipped, failed, changed && !dryRun);
  }

  lemma MergeOneIs(sha: Sha, fails: nat -> bool, dryRun: bool, m: Merge, r: Record)
    ensures var d := Digest(sha, r);
            MergeOne(sha, fails, dryRun, m, r) ==
            if d in m.known then Merge(m.rows, m.known, m.added, m.skipped + 1, m.failed)
            else if dryRun then Merge(m.rows, m.known + {d}, m.added + 1, m.skipped, m.failed)
            else if fails(m.added + m.failed) then Merge(m.rows, m.known, m.added, m.skipped, m.failed + 1)
            else Merge([Imported(r)] + m.rows, m.known + {d}, m.added + 1, m.skipped, m.failed)
  {
    hide Digest, Imported;
  }

  /** What an export takes: the newest rows, up to the cap. */
  function Window(rows: seq<Row>): seq<Row> {
    if |rows| <= MAX_MEMORIES then rows else rows[..MAX_MEMORIES]
  }

  function ExportAll(sha: Sha, host: string, rows: seq<Row>): (r: seq<Record>)
    ensures |r| == |rows|
  {
    seq(|rows|, i requires 0 <= i < |rows| => Exported(sha, host, rows[i]))
  }

  ghost predicate Clean(dirty: string -> bool, rows: seq<Row>) {
    forall i :: 0 <= i < |rows| ==> !dirty(rows[i].content) && !dirty(rows[i].source)
  }

  function PageStart(p: nat): nat {
    PAGE * p
  }

  /** Every page that an export of `n` rows reads can be read. */
  ghost predicate Readable(unreadable: nat -> bool, n: nat) {
    forall p: nat :: PageStart(p) <= n && PageStart(p) < MAX_MEMORIES ==> !unreadable(PageStart(p))
  }

  /** The paging loop of `build_bundle`. Anything that looks like a secret fails the export,
      and so does a page that cannot be read: unlike the scan of an import, it does not stop
      at what it has. None stands for both exceptions. */
  method BuildBundle(store: Store, sha: Sha, host: string, dirty: string -> bool, unreadable: nat -> bool)
    returns (bundle: Option<seq<Record>>)
    ensures bundle == if Clean(dirty, Window(store.rows)) && Readable(unreadable, |store.rows|)
                      then Some(ExportAll(sha, host, Window(store.rows))) else None
  {
    hide ContentHash, ExportAll, Exported, Clean;
    NothingExported(sha, host, dirty);
    var memories: seq<Record> := [];
    var offset := 0;
    ghost var pages: nat := 0;
    while |memories| < MAX_MEMORIES
      invariant offset == |memories| == PageStart(pages) <= |store.rows| && offset <= MAX_MEMORIES
      invariant memories == ExportAll(sha, host, store.rows[..offset]) && Clean(dirty, store.rows[..offset])
      invariant forall p: nat :: PageStart(p) < PageStart(pages) ==> !unreadable(PageStart(p))
      decreases MAX_MEMORIES - |memories|
    {
      if unreadable(offset) { return None; }
      var page := store.ListRecent(PAGE, offset);
      if page == [] { break; }
      PageOf(sha, host, dirty, store.rows, offset, |page|);
      var more := ExportPage(sha, host, page, dirty);
      if more.None? { return None; }
      memories := memories + more.value;
      offset := offset + |page|;
      if |page| < PAGE { break; }
      pages := pages + 1;
    }
    assert store.rows[..offset] == Window(store.rows);
    bundle := Some(memories);
  }

  lemma NothingExported(sha: Sha, host: string, dirty: string -> bool)
    ensures ExportAll(sha, host, []) == [] && Clean(dirty, [])
  {
  }

  lemma PageOf(sha: Sha, host: string, dirty: string -> bool, rows: seq<Row>, offset: nat, n: nat)
    requires offset + n <= |rows| && offset + n <= MAX_MEMORIES
    ensures ExportAll(sha, host, rows[..offset + n]) ==
            ExportAll(sha, host, rows[..offset]) + ExportAll(sha, host, rows[offset..offset + n])
    ensures Clean(dirty, rows[..offset + n]) <==> Clean(dirty, rows[..offset]) && Clean(dirty, rows[offset..offset + n])
    ensures Clean(dirty, Window(rows)) ==> Clean(dirty, rows[offset..offset + n])
  {
    hide ContentHash;
    assert rows[..offset + n] == rows[..offset] + rows[offset..offset + n];
    assert rows[offset..offset + n] == Window(rows)[offset..offset + n];
  }

  method ExportPage(sha: Sha, host: string, page: seq<Row>, dirty: string -> bool)
    returns (records: Option<seq<Record>>)
    ensures records == if Clean(dirty, page) then Some(ExportAll(sha, host, page)) else None
  {
    hide ContentHash;
    var out: seq<Record> := [];
    for i := 0 to |page|
      invariant out == ExportAll(sha, host, page[..i]) && Clean(dirty, page[..i])
    {
      if dirty(page[i].content) || dirty(page[i].source) { return None; }
      out := out + [Exported(sha, host, page[i])];
      assert page[..i + 1] == page[..i] + [page[i]];
    }
    assert page[..|page|] == page;
    records := Some(out);
  }

  // ----- what travels -----

  /** An exported row says what it is, where it was learned, and the hash of its words. */
  lemma ExportedIs(sha: Sha, host: string, rows: seq<Row>, i: nat)
    requires i < |rows|
    ensures var r := ExportAll(sha, host, rows)[i];
            && r.kind == rows[i].kind && r.content == rows[i].content && r.importance == rows[i].importance
            && r.source == rows[i].source && r.learnedBy == host && r.sha == sha(Join(Split(rows[i].content)))
  {
    hide Join, Split;
  }

  /** A memory that has travelled is the same memory, and its source says that it came through
      a vault, and from which host. */
  lemma TravelsIntact(sha: Sha, host: string, row: Row)
    ensures var there := Imported(Exported(sha, host, row));
            var from := if host == "" then "unknown-host" else host;
            && there.kind == row.kind && there.content == row.content && there.importance == row.importance
            && |there.source| <= 200
              && there.source <= "vault:" + from + "/" + (if row.source == "" then "vault" else row.source)
            && (|from| <= 100 ==> "vault:" + from + "/" <= there.source)
  {
    hide ContentHash;
    var from := if host == "" then "unknown-host" else host;
    var base := if row.source == "" then "vault" else row.source;
    var source := "vault:" + from + "/" + base;
    assert source == ("vault:" + from + "/") + base;
    if |from| <= 100 && |source| > 200 {
      assert source[..200][..|"vault:" + from + "/"|] == "vault:" + from + "/";
    }
  }

  /** An export takes the newest fifty thousand rows. */
  lemma WindowIs(rows: seq<Row>)
    ensures Window(rows) <= rows && |Window(rows)| == if |rows| > 50_000 then 50_000 else |rows|
  {
  }

  /** A record counts as known by the hash it carries, or else by that of its words. */
  lemma MergedIs(sha: Sha, fails: nat -> bool, dryRun: bool, m: Merge, r: Record)
    ensures var d, n := if r.sha == "" then sha(Join(Split(r.content))) else r.sha, MergeOne(sha, fails, dryRun, m, r);
            && (d in m.known ==> n == m.(skipped := m.skipped + 1))
            && (d !in m.known && dryRun ==> n == m.(known := m.known + {d}, added := m.added + 1))
            && (d !in m.known && !dryRun && fails(m.added + m.failed) ==> n == m.(failed := m.failed + 1))
            && (d !in m.known && !dryRun && !fails(m.added + m.failed) ==>
                  && n.known == m.known + {d} && n.added == m.added + 1 && n.skipped == m.skipped
                    && n.failed == m.failed
                  && |n.rows| == |m.rows| + 1 && n.rows[1..] == m.rows
                  && n.rows[0].content == r.content && n.rows[0].kind == r.kind && n.rows[0].importance == r.importance)
  {
    hide Join, Split;
  }

  // ----- the merge is a join -----

  /** What a completed import of a well-formed bundle without failed writes does: it removes
      nothing, ends with the union of the hashes, adds each new hash once, and the dry run
      predicts its counts. */
  lemma ImportIsJoin(sha: Sha, rows: seq<Row>, bundle: seq<Record>)
    requires AllWellFormed(sha, bundle)
    ensures var h, d := Hashes(sha, rows), BundleDigests(sha, bundle);
            var done := MergeAll(sha, Never, false, Start(rows, h), bundle);
            var dry := MergeAll(sha, Never, true, Start(rows, h), bundle);
            && Hashes(sha, done.rows) == h + d
            && done.added == |d - h| && done.failed == 0 && |done.rows| == |rows| + done.added
            && done.rows[done.added..] == rows
            && dry.rows == rows && dry.added == done.added && dry.skipped == done.skipped && dry.failed == 0
  {
    hide Digest, Imported, Hashes, MergeAll, ContentHash;
    var start := Start(rows, Hashes(sha, rows));
    MergeUnion(sha, false, start, bundle);
    MergeUnion(sha, true, start, bundle);
    MergeConserves(sha, Never, false, start, bundle);
    MergeConserves(sha, Never, true, start, bundle);
    KnownAreStored(sha, Never, start, bundle);
    var dry := MergeAll(sha, Never, true, start, bundle);
    assert dry.rows[0..] == dry.rows;
  }

  function After(sha: Sha, rows: seq<Row>, bundle: seq<Record>): seq<Row> {
    MergeAll(sha, Never, false, Start(rows, Hashes(sha, rows)), bundle).rows
  }

  /** Importing the same bundle again adds nothing, and importing two bundles in either
      order ends with the same hashes. */
  lemma ImportIdempotentCommutative(sha: Sha, rows: seq<Row>, a: seq<Record>, b: seq<Record>)
    requires AllWellFormed(sha, a) && AllWellFormed(sha, b)
    ensures After(sha, After(sha, rows, a), a) == After(sha, rows, a)
    ensures Hashes(sha, After(sha, After(sha, rows, a), b)) == Hashes(sha, After(sha, After(sha, rows, b), a))
  {
    hide Digest, Imported, Hashes, MergeOne, ContentHash, MergeAll;
    ImportIsJoin(sha, rows, a);
    ImportIsJoin(sha, rows, b);
    ImportIsJoin(sha, After(sha, rows, a), a);
    ImportIsJoin(sha, After(sha, rows, a), b);
    ImportIsJoin(sha, After(sha, rows, b), a);
    var d, h := BundleDigests(sha, a), Hashes(sha, rows);
    assert d - (h + d) == {};
  }

  lemma {:induction false} ExportDigests(sha: Sha, host: string, rows: seq<Row>)
    requires Digests(sha)
    ensures AllWellFormed(sha, ExportAll(sha, host, rows))
    ensures BundleDigests(sha, ExportAll(sha, host, rows)) == Hashes(sha, rows)
    decreases |rows|
  {
    hide ContentHash;
    if rows != [] {
      var n := |rows| - 1;
      ExportDigests(sha, host, rows[..n]);
      assert ExportAll(sha, host, rows)[..n] == ExportAll(sha, host, rows[..n]);
      assert rows == rows[..n] + [rows[n]];
      HashesAppend(sha, rows[..n], [rows[n]]);
      HashesOne(sha, rows[n]);
      HashNotEmpty(sha, rows[n].content);
    }
  }

  lemma HashNotEmpty(sha: Sha, text: string)
    requires Digests(sha)
    ensures ContentHash(sha, text) != ""
  {
  }

  /** Two hosts that import each other's exports end with the same hashes, whether they
      exchange bundles at the same time or one after the other, provided neither holds more
      memories than an export takes. */
  lemma ExchangeConverges(sha: Sha, hostA: string, hostB: string, a: seq<Row>, b: seq<Row>)
    requires Digests(sha) && |a| <= MAX_MEMORIES && |b| <= MAX_MEMORIES
    ensures var a' := After(sha, a, ExportAll(sha, hostB, Window(b)));
            var b' := After(sha, b, ExportAll(sha, hostA, Window(a)));
            Hashes(sha, a') == Hashes(sha, b') == Hashes(sha, a) + Hashes(sha, b)
    ensures var a' := After(sha, a, ExportAll(sha, hostB, Window(b)));
            |a'| <= MAX_MEMORIES ==> Hashes(sha, After(sha, b, ExportAll(sha, hostA, Window(a')))) == Hashes(sha, a')
  {
    hide Digest, Imported, Hashes, MergeOne, ContentHash, MergeAll, ExportAll;
    ExportDigests(sha, hostA, a);
    ExportDigests(sha, hostB, b);
    ImportIsJoin(sha, a, ExportAll(sha, hostB, b));
    ImportIsJoin(sha, b, ExportAll(sha, hostA, a));
    var a' := After(sha, a, ExportAll(sha, hostB, b));
    ExportDigests(sha, hostA, a');
    ImportIsJoin(sha, b, ExportAll(sha, hostA, a'));
  }

  /** Record `i` is added to a store with the hashes `h`: its digest is new there, and no
      earlier record of the bundle has it. */
  predicate IsAdded(sha: Sha, h: set<string>, bundle: seq<Record>, i: nat)
    requires i < |bundle|
  {
    && Digest(sha, bundle[i]) !in h
    && forall j :: 0 <= j < i ==> Digest(sha, bundle[j]) != Digest(sha, bundle[i])
  }

  /** The content hashes that an import brings into a store with the hashes `h`; for malformed
      records these are not their digests. */
  ghost function Brought(sha: Sha, h: set<string>, bundle: seq<Record>): set<string> {
    set i | 0 <= i < |bundle| && IsAdded(sha, h, bundle, i) :: ContentHash(sha, bundle[i].content)
  }

  lemma {:induction false} DigestsOf(sha: Sha, bundle: seq<Record>, d: string)
    ensures d in BundleDigests(sha, bundle) <==> exists j :: 0 <= j < |bundle| && Digest(sha, bundle[j]) == d
  {
    hide Digest;
    if bundle != [] {
      var n := |bundle| - 1;
      DigestsOf(sha, bundle[..n], d);
      assert forall j :: 0 <= j < n ==> bundle[..n][j] == bundle[j];
    }
  }

  lemma BroughtSnoc(sha: Sha, h: set<string>, bundle: seq<Record>, r: Record)
    ensures Brought(sha, h, bundle + [r]) ==
            Brought(sha, h, bundle)
            + if Digest(sha, r) in h + BundleDigests(sha, bundle) then {} else {ContentHash(sha, r.content)}
  {
    hide Digest, ContentHash, BundleDigests;
    var more, n := bundle + [r], |bundle|;
    DigestsOf(sha, bundle, Digest(sha, r));
    assert forall j :: 0 <= j < n ==> more[j] == bundle[j];
    assert forall j :: 0 <= j < n ==> (IsAdded(sha, h, more, j) <==> IsAdded(sha, h, bundle, j));
    assert IsAdded(sha, h, more, n) <==> Digest(sha, r) !in h + BundleDigests(sha, bundle);
  }

  /** After an import, well-formed or not, the store has its old hashes and those brought. */
  lemma {:induction false} StoredAfter(sha: Sha, rows: seq<Row>, h: set<string>, bundle: seq<Record>)
    ensures Hashes(sha, MergeAll(sha, Never, false, Start(rows, h), bundle).rows) ==
            Hashes(sha, rows) + Brought(sha, h, bundle)
  {
    hide Digest, ContentHash, Hashes, Imported, MergeOne, BundleDigests, Brought;
    if bundle == [] {
      assert Brought(sha, h, []) == {} by { NothingBrought(sha, h); }
    } else {
      var n := |bundle| - 1;
      var m := MergeAll(sha, Never, false, Start(rows, h), bundle[..n]);
      StoredAfter(sha, rows, h, bundle[..n]);
      MergeUnion(sha, false, Start(rows, h), bundle[..n]);
      BroughtSnoc(sha, h, bundle[..n], bundle[n]);
      assert bundle == bundle[..n] + [bundle[n]];
      StoredOne(sha, m, bundle[n]);
    }
  }

  lemma NothingBrought(sha: Sha, h: set<string>)
    ensures Brought(sha, h, []) == {}
  {
  }

  lemma StoredOne(sha: Sha, m: Merge, r: Record)
    ensures Hashes(sha, MergeOne(sha, Never, false, m, r).rows) ==
            Hashes(sha, m.rows) + if Digest(sha, r) in m.known then {} else {ContentHash(sha, r.content)}
  {
    hide Digest, ContentHash, Hashes;
    HashesOne(sha, Imported(r));
    HashesAppend(sha, [Imported(r)], m.rows);
  }

  /** For any bundle, well-formed or not: importing it again adds nothing if and only if each
      of its digests is a hash of the store, or the content hash of a record that the first
      import adds. */
  lemma IdempotentIff(sha: Sha, rows: seq<Row>, bundle: seq<Record>)
    ensures After(sha, After(sha, rows, bundle), bundle) == After(sha, rows, bundle) <==>
            BundleDigests(sha, bundle) <= Hashes(sha, rows) + Brought(sha, Hashes(sha, rows), bundle)
  {
    hide Digest, Imported, Hashes, MergeAll, MergeOne, ContentHash, BundleDigests, Grows, Brought;
    var once := After(sha, rows, bundle);
    var start := Start(once, Hashes(sha, once));
    StoredAfter(sha, rows, Hashes(sha, rows), bundle);
    MergeUnion(sha, false, start, bundle);
    MergeConserves(sha, Never, false, start, bundle);
    SameRowsIff(start, MergeAll(sha, Never, false, start, bundle));
    NoDifference(BundleDigests(sha, bundle), Hashes(sha, once));
  }

  lemma SameRowsIff(m: Merge, n: Merge)
    requires Grows(m, n, false)
    ensures n.rows == m.rows <==> n.added == m.added
  {
    if n.added == m.added { assert n.rows[0..] == n.rows; }
  }

  lemma NoDifference(a: set<string>, b: set<string>)
    ensures |a - b| == 0 <==> a <= b
  {
    forall x | x in a && x !in b ensures x in a - b { }
  }

  /** A record whose digest is not that of its content, imported on its own into an empty
      store, is added again by the next import. */
  lemma MalformedIsNotIdempotent(sha: Sha, r: Record)
    requires r.sha != "" && r.sha != ContentHash(sha, r.content)
    ensures |After(sha, [], [r])| == 1 && |After(sha, After(sha, [], [r]), [r])| == 2
  {
    hide ContentHash, Hashes;
    HashesNothing(sha);
    MergeSingle(sha, Start([], Hashes(sha, [])), r);
    assert After(sha, [], [r]) == [Imported(r)];
    HashesOne(sha, Imported(r));
    MergeSingle(sha, Start([Imported(r)], Hashes(sha, [Imported(r)])), r);
  }

  lemma MergeSingle(sha: Sha, m: Merge, r: Record)
    requires Digest(sha, r) !in m.known
    ensures MergeAll(sha, Never, false, m, [r]).rows == [Imported(r)] + m.rows
  {
    hide Digest, Imported;
    assert [r][..0] == [];
  }
}
