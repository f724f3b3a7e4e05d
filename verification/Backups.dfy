/** Stored configuration backups (app/main.py, poll_backups): deduplication against the latest stored version and
  * pruning, against the history of what was fetched. */
module Backups {
  import opened Wrappers

  type Device = nat
  type Archive = seq<bv8>

  /** A device_backups row. Rows are listed in order of created_at, which is also the order of id. */
  datatype Backup = Backup(id: nat, device: Device, sha: int, archive: Archive)

  /** One device's turn in a poll: what the fetch gave, whether telemetry has registered the device, and
    * the retention setting. */
  datatype Fetch = Fetch(device: Device, archive: Option<Archive>, registered: bool, retention: int)

  /** WHERE device_id = d ORDER BY created_at */
  function OfDevice(rows: seq<Backup>, d: Device): seq<Backup> {
    if rows == [] then []
    else
      var n := |rows| - 1;
      OfDevice(rows[..n], d) + if rows[n].device == d then [rows[n]] else []
  }

  function Last<T>(s: seq<T>): Option<T> {
    if s == [] then None else Some(s[|s| - 1])
  }

  function LastN<T>(s: seq<T>, n: nat): seq<T> {
    if |s| <= n then s else s[|s| - n..]
  }

  function Ids(rows: seq<Backup>): set<nat> {
    set r | r in rows :: r.id
  }

  /** DELETE ... WHERE device_id = d AND id NOT IN (...) */
  function DeleteOthers(rows: seq<Backup>, d: Device, ids: set<nat>): seq<Backup> {
    if rows == [] then []
    else
      var n := |rows| - 1;
      DeleteOthers(rows[..n], d, ids) + if rows[n].device == d && rows[n].id !in ids then [] else [rows[n]]
  }

  function Prune(rows: seq<Backup>, d: Device, n: nat): seq<Backup> {
    DeleteOthers(rows, d, Ids(LastN(OfDevice(rows, d), n)))
  }

  datatype Table = Table(rows: seq<Backup>, nextId: nat)

  function AfterFetch(t: Table, digest: Archive -> int, f: Fetch): Table {
    if f.archive.None? || f.archive.value == [] || !f.registered then t
    else
      var sha := digest(f.archive.value);
      var latest := Last(OfDevice(t.rows, f.device));
      if latest.Some? && latest.value.sha == sha then t
      else AfterInsert(t, f.device, sha, f.archive.value, f.retention)
  }

  function AfterInsert(t: Table, d: Device, sha: int, archive: Archive, retention: int): Table {
    var rows := t.rows + [Backup(t.nextId, d, sha, archive)];
    Table(if retention > 0 then Prune(rows, d, retention) else rows, t.nextId + 1)
  }

  function AfterFetches(t: Table, digest: Archive -> int, fetches: seq<Fetch>): Table {
    if fetches == [] then t
    else AfterFetch(AfterFetches(t, digest, fetches[..|fetches| - 1]), digest, fetches[|fetches| - 1])
  }

  /** The table. */
  class DeviceBackups {
    var rows: seq<Backup>
    var nextId: nat
    const digest: Archive -> int

    function Contents(): Table
      reads this
    {
      Table(rows, nextId)
    }

    constructor (digest: Archive -> int)
      ensures Contents() == Table([], 0) && this.digest == digest
    {
      rows, nextId := [], 0;
      this.digest := digest;
    }

    /** One pass over the devices; a fetch that failed, came back empty or is of an unregistered device
      * is skipped, the others go on. */
    method PollBackups(fetches: seq<Fetch>)
      modifies this
      ensures Contents() == AfterFetches(old(Contents()), digest, fetches)
    {
      for k := 0 to |fetches|
        invariant Contents() == AfterFetches(old(Contents()), digest, fetches[..k])
      {
        assert fetches[..k + 1][..k] == fetches[..k];
        StoreIfNew(fetches[k]);
      }
      assert fetches[..|fetches|] == fetches;
    }

    method StoreIfNew(f: Fetch)
      modifies this
      ensures Contents() == AfterFetch(old(Contents()), digest, f)
    {
      if f.archive.None? || f.archive.value == [] || !f.registered {
        return;
      }
      var sha := digest(f.archive.value);
      var latest := Last(OfDevice(rows, f.device));
      if latest.Some? && latest.value.sha == sha {
        return;
      }
      InsertAndPrune(f.device, sha, f.archive.value, f.retention);
    }

    method InsertAndPrune(d: Device, sha: int, archive: Archive, retention: int)
      modifies this
      ensures Contents() == AfterInsert(old(Contents()), d, sha, archive, retention)
    {
      rows := rows + [Backup(nextId, d, sha, archive)];
      nextId := nextId + 1;
      if retention > 0 {
        rows := Prune(rows, d, retention);
      }
    }
  }

  // ---------- Pruning ----------

  predicate IdsAscend(rows: seq<Backup>) {
    forall i, j :: 0 <= i < j < |rows| ==> rows[i].id < rows[j].id
  }

  function OnlyIds(rows: seq<Backup>, ids: set<nat>): seq<Backup> {
    if rows == [] then []
    else
      var n := |rows| - 1;
      OnlyIds(rows[..n], ids) + if rows[n].id in ids then [rows[n]] else []
  }

  lemma OfDeviceSnoc(rows: seq<Backup>, r: Backup, d: Device)
    ensures OfDevice(rows + [r], d) == if r.device == d then OfDevice(rows, d) + [r] else OfDevice(rows, d)
  {
    assert (rows + [r])[..|rows|] == rows;
  }

  lemma OnlyIdsSnoc(rows: seq<Backup>, r: Backup, ids: set<nat>)
    ensures OnlyIds(rows + [r], ids) == if r.id in ids then OnlyIds(rows, ids) + [r] else OnlyIds(rows, ids)
  {
    assert (rows + [r])[..|rows|] == rows;
  }

  lemma DeleteOthersSnoc(rows: seq<Backup>, r: Backup, d: Device, ids: set<nat>)
    ensures DeleteOthers(rows + [r], d, ids) ==
      if r.device == d && r.id !in ids then DeleteOthers(rows, d, ids) else DeleteOthers(rows, d, ids) + [r]
  {
    assert (rows + [r])[..|rows|] == rows;
  }

  lemma {:induction false} DeleteOthersByDevice(rows: seq<Backup>, d: Device, ids: set<nat>, e: Device)
    ensures OfDevice(DeleteOthers(rows, d, ids), e) ==
      if e == d then OnlyIds(OfDevice(rows, d), ids) else OfDevice(rows, e)
    decreases |rows|
  {
    if rows != [] {
      var before, r := rows[..|rows| - 1], rows[|rows| - 1];
      assert rows == before + [r];
      DeleteOthersByDevice(before, d, ids, e);
      DeleteOthersSnoc(before, r, d, ids);
      OfDeviceSnoc(DeleteOthers(before, d, ids), r, e);
      OfDeviceSnoc(before, r, e);
      OnlyIdsSnoc(OfDevice(before, d), r, ids);
    }
  }

  lemma {:induction false} OnlyIdsSplit(a: seq<Backup>, b: seq<Backup>, ids: set<nat>)
    ensures OnlyIds(a + b, ids) == OnlyIds(a, ids) + OnlyIds(b, ids)
    decreases |b|
  {
    if b == [] {
      assert a + b == a;
    } else {
      var n := |b| - 1;
      assert (a + b)[..|a| + n] == a + b[..n];
      OnlyIdsSplit(a, b[..n], ids);
    }
  }

  lemma {:induction false} OnlyIdsAllOrNone(rows: seq<Backup>, ids: set<nat>)
    ensures (forall r :: r in rows ==> r.id in ids) ==> OnlyIds(rows, ids) == rows
    ensures (forall r :: r in rows ==> r.id !in ids) ==> OnlyIds(rows, ids) == []
    decreases |rows|
  {
    if rows != [] {
      OnlyIdsAllOrNone(rows[..|rows| - 1], ids);
      assert rows == rows[..|rows| - 1] + [rows[|rows| - 1]];
    }
  }

  lemma OlderAreOthers(older: seq<Backup>, newest: seq<Backup>)
    requires IdsAscend(older + newest)
    ensures forall r :: r in older ==> r.id !in Ids(newest)
  {
    var rows := older + newest;
    forall i, j | 0 <= i < |older| && 0 <= j < |newest| ensures older[i].id < newest[j].id {
      assert rows[i] == older[i] && rows[|older| + j] == newest[j];
    }
  }

  lemma OnlyNewest(rows: seq<Backup>, n: nat)
    requires IdsAscend(rows)
    ensures OnlyIds(rows, Ids(LastN(rows, n))) == LastN(rows, n)
  {
    var newest := LastN(rows, n);
    var older := rows[..|rows| - |newest|];
    assert rows == older + newest;
    OlderAreOthers(older, newest);
    OnlyIdsSplit(older, newest, Ids(newest));
    OnlyIdsAllOrNone(newest, Ids(newest));
    OnlyIdsAllOrNone(older, Ids(newest));
  }

  lemma {:induction false} OfDeviceSelects(rows: seq<Backup>, d: Device)
    requires IdsAscend(rows)
    ensures IdsAscend(OfDevice(rows, d)) && forall r :: r in OfDevice(rows, d) ==> r in rows
    decreases |rows|
  {
    if rows != [] {
      var n := |rows| - 1;
      OfDeviceSelects(rows[..n], d);
      forall r | r in OfDevice(rows[..n], d) ensures r.id < rows[n].id {
        assert r in rows[..n];
      }
    }
  }

  /** Pruning leaves the device's newest n versions and every other device's as they are. */
  lemma PruneKeepsNewest(rows: seq<Backup>, d: Device, n: nat, e: Device)
    requires IdsAscend(rows)
    ensures OfDevice(Prune(rows, d, n), e) == if e == d then LastN(OfDevice(rows, d), n) else OfDevice(rows, e)
  {
    OfDeviceSelects(rows, d);
    DeleteOthersByDevice(rows, d, Ids(LastN(OfDevice(rows, d), n)), e);
    OnlyNewest(OfDevice(rows, d), n);
  }

  // ---------- Runs ----------

  /** What a device's turns brought that was not empty. */
  function Fetched(fetches: seq<Fetch>, d: Device): seq<Archive> {
    if fetches == [] then []
    else
      var n := |fetches| - 1;
      var f := fetches[n];
      Fetched(fetches[..n], d) +
      if f.device == d && f.registered && f.archive.Some? && f.archive.value != [] then [f.archive.value] else []
  }

  /** Without adjacent duplicates. */
  function Changes(archives: seq<Archive>): seq<Archive> {
    if archives == [] then []
    else
      var n := |archives| - 1;
      Changes(archives[..n]) + if n > 0 && archives[n - 1] == archives[n] then [] else [archives[n]]
  }

  lemma {:induction false} ChangesEnd(archives: seq<Archive>)
    ensures Last(Changes(archives)) == Last(archives)
    decreases |archives|
  {
    if archives != [] {
      ChangesEnd(archives[..|archives| - 1]);
    }
  }

  lemma ChangesSnoc(archives: seq<Archive>, a: Archive)
    ensures Changes(archives + [a]) == Changes(archives) + if Last(archives) == Some(a) then [] else [a]
  {
    assert (archives + [a])[..|archives|] == archives;
  }

  function Archives(rows: seq<Backup>): seq<Archive> {
    seq(|rows|, k requires 0 <= k < |rows| => rows[k].archive)
  }

  function Stored(t: Table, d: Device): seq<Archive> {
    Archives(OfDevice(t.rows, d))
  }

  /** Equal digests only of equal archives. */
  ghost predicate Injective(digest: Archive -> int) {
    forall a, b :: digest(a) == digest(b) ==> a == b
  }

  ghost predicate Consistent(t: Table, digest: Archive -> int) {
    && IdsAscend(t.rows) && (forall r :: r in t.rows ==> r.id < t.nextId && r.sha == digest(r.archive))
  }

  lemma {:induction false} DeleteKeepsConsistent(t: Table, digest: Archive -> int, d: Device, ids: set<nat>)
    requires Consistent(t, digest)
    ensures Consistent(Table(DeleteOthers(t.rows, d, ids), t.nextId), digest)
    ensures forall r :: r in DeleteOthers(t.rows, d, ids) ==> r in t.rows
    decreases |t.rows|
  {
    if t.rows != [] {
      var n := |t.rows| - 1;
      DeleteKeepsConsistent(Table(t.rows[..n], t.nextId), digest, d, ids);
      forall r | r in DeleteOthers(t.rows[..n], d, ids) ensures r.id < t.rows[n].id {
        assert r in t.rows[..n];
      }
    }
  }

  lemma FetchKeepsConsistent(t: Table, digest: Archive -> int, f: Fetch)
    requires Consistent(t, digest)
    ensures Consistent(AfterFetch(t, digest, f), digest)
  {
    if f.archive.Some? {
      var rows := t.rows + [Backup(t.nextId, f.device, digest(f.archive.value), f.archive.value)];
      if f.retention > 0 {
        DeleteKeepsConsistent(Table(rows, t.nextId + 1), digest, f.device,
                              Ids(LastN(OfDevice(rows, f.device), f.retention)));
      }
    }
  }

  lemma {:induction false} RunConsistent(digest: Archive -> int, fetches: seq<Fetch>)
    ensures Consistent(AfterFetches(Table([], 0), digest, fetches), digest)
    decreases |fetches|
  {
    if fetches != [] {
      RunConsistent(digest, fetches[..|fetches| - 1]);
      var n := |fetches| - 1;
      FetchKeepsConsistent(AfterFetches(Table([], 0), digest, fetches[..n]), digest, fetches[n]);
    }
  }

  lemma SameDigestSameArchive(t: Table, digest: Archive -> int, d: Device, a: Archive)
    requires Consistent(t, digest) && Injective(digest)
    ensures var latest := Last(OfDevice(t.rows, d));
      (latest.Some? && latest.value.sha == digest(a)) <==> Last(Stored(t, d)) == Some(a)
  {
    OfDeviceSelects(t.rows, d);
    var of := OfDevice(t.rows, d);
    if of != [] {
      assert of[|of| - 1] in t.rows;
    }
  }

  lemma StoredSnoc(rows: seq<Backup>, row: Backup, d: Device)
    ensures Archives(OfDevice(rows + [row], d)) ==
      Archives(OfDevice(rows, d)) + if row.device == d then [row.archive] else []
  {
    assert (rows + [row])[..|rows|] == rows;
  }

  lemma ArchivesOfNewest(rows: seq<Backup>, n: nat)
    ensures Archives(LastN(rows, n)) == LastN(Archives(rows), n)
  {
  }

  /** What one turn does to a device's stored versions: a new version is appended, then the oldest ones
    * may go. */
  function StoredNext(stored: seq<Archive>, news: seq<Archive>, retention: int): seq<Archive> {
    if news == [] || Last(stored) == Last(news) then stored
    else if retention > 0 then LastN(stored + news, retention)
    else stored + news
  }

  lemma FetchedOne(f: Fetch, d: Device)
    ensures Fetched([f], d) ==
      if f.device == d && f.registered && f.archive.Some? && f.archive.value != [] then [f.archive.value] else []
  {
    assert [f][..0] == [];
  }

  lemma InsertStores(t: Table, digest: Archive -> int, e: Device, archive: Archive, retention: int, d: Device)
    requires Consistent(t, digest)
    ensures Stored(AfterInsert(t, e, digest(archive), archive, retention), d) ==
      if e != d then Stored(t, d)
      else if retention > 0 then LastN(Stored(t, d) + [archive], retention)
      else Stored(t, d) + [archive]
  {
    var row := Backup(t.nextId, e, digest(archive), archive);
    StoredSnoc(t.rows, row, d);
    if retention > 0 {
      PruneKeepsNewest(t.rows + [row], e, retention, d);
      ArchivesOfNewest(OfDevice(t.rows + [row], e), retention);
    }
  }

  lemma FetchStores(t: Table, digest: Archive -> int, f: Fetch, d: Device)
    requires Consistent(t, digest) && Injective(digest)
    ensures Stored(AfterFetch(t, digest, f), d) == StoredNext(Stored(t, d), Fetched([f], d), f.retention)
  {
    FetchedOne(f, d);
    if f.archive.Some? && f.archive.value != [] && f.registered {
      SameDigestSameArchive(t, digest, f.device, f.archive.value);
      InsertStores(t, digest, f.device, f.archive.value, f.retention, d);
    }
  }

  /** The versions a device has gone through: what was fetched, without adjacent duplicates. */
  function Versions(fetches: seq<Fetch>, d: Device): seq<Archive> {
    Changes(Fetched(fetches, d))
  }

  function VersionsNext(all: seq<Archive>, news: seq<Archive>): seq<Archive> {
    if news == [] || Last(all) == Last(news) then all else all + news
  }

  lemma VersionsSnoc(fetches: seq<Fetch>, f: Fetch, d: Device)
    ensures Versions(fetches + [f], d) == VersionsNext(Versions(fetches, d), Fetched([f], d))
  {
    FetchedOne(f, d);
    assert (fetches + [f])[..|fetches|] == fetches;
    ChangesEnd(Fetched(fetches, d));
    if Fetched([f], d) != [] {
      ChangesSnoc(Fetched(fetches, d), f.archive.value);
    } else {
      assert Fetched(fetches + [f], d) == Fetched(fetches, d);
    }
  }

  /** What is stored for d after a run. */
  function StoredAfter(digest: Archive -> int, fetches: seq<Fetch>, d: Device): seq<Archive> {
    Stored(AfterFetches(Table([], 0), digest, fetches), d)
  }

  lemma RunSnoc(digest: Archive -> int, fetches: seq<Fetch>, d: Device)
    requires Injective(digest) && fetches != []
    ensures var n := |fetches| - 1; var news := Fetched([fetches[n]], d);
      && |news| <= 1
      && Versions(fetches, d) == VersionsNext(Versions(fetches[..n], d), news)
      && StoredAfter(digest, fetches, d) == StoredNext(StoredAfter(digest, fetches[..n], d), news, fetches[n].retention)
  {
    var n := |fetches| - 1;
    assert fetches == fetches[..n] + [fetches[n]];
    FetchedOne(fetches[n], d);
    VersionsSnoc(fetches[..n], fetches[n], d);
    RunConsistent(digest, fetches[..n]);
    FetchStores(AfterFetches(Table([], 0), digest, fetches[..n]), digest, fetches[n], d);
  }

  /** `stored` are the last of `all`, at least one if there is one. */
  predicate AreLatest(stored: seq<Archive>, all: seq<Archive>) {
    |stored| <= |all| && stored == all[|all| - |stored|..] && (all != [] ==> stored != [])
  }

  lemma LastNAreLatest(stored: seq<Archive>, all: seq<Archive>, n: nat)
    requires AreLatest(stored, all) && n > 0
    ensures AreLatest(LastN(stored, n), all)
    ensures LastN(stored, n) == if |stored| < n then stored else LastN(all, n)
  {
    var kept := LastN(stored, n);
    assert kept == all[|all| - |kept|..];
  }

  lemma AppendAreLatest(stored: seq<Archive>, all: seq<Archive>, news: seq<Archive>)
    requires AreLatest(stored, all)
    ensures AreLatest(stored + news, all + news)
  {
    assert stored + news == (all + news)[|all| - |stored|..];
  }

  lemma NextAreLatest(stored: seq<Archive>, all: seq<Archive>, news: seq<Archive>, retention: int)
    requires AreLatest(stored, all) && |news| <= 1
    ensures AreLatest(StoredNext(stored, news, retention), VersionsNext(all, news))
    ensures retention <= 0 && stored == all ==> StoredNext(stored, news, retention) == VersionsNext(all, news)
    ensures retention > 0 && stored == LastN(all, retention) ==>
      StoredNext(stored, news, retention) == LastN(VersionsNext(all, news), retention)
  {
    assert Last(stored) == Last(all);
    if news != [] && Last(all) != Last(news) {
      AppendAreLatest(stored, all, news);
      if retention > 0 {
        LastNAreLatest(stored + news, all + news, retention);
      }
    }
  }

  /** Whatever the retention setting does from poll to poll, a device's stored versions are the latest of
    * its versions, at least one as soon as there is one. */
  lemma {:induction false} StoredAreLatest(digest: Archive -> int, fetches: seq<Fetch>, d: Device)
    requires Injective(digest)
    ensures AreLatest(StoredAfter(digest, fetches, d), Versions(fetches, d))
    decreases |fetches|
  {
    if fetches != [] {
      var n := |fetches| - 1;
      StoredAreLatest(digest, fetches[..n], d);
      RunSnoc(digest, fetches, d);
      NextAreLatest(StoredAfter(digest, fetches[..n], d), Versions(fetches[..n], d), Fetched([fetches[n]], d),
                    fetches[n].retention);
    }
  }

  lemma {:induction false} StoredAreLastN(digest: Archive -> int, fetches: seq<Fetch>, d: Device, retention: int)
    requires Injective(digest) && forall k :: 0 <= k < |fetches| ==> fetches[k].retention == retention
    ensures var all := Versions(fetches, d);
      StoredAfter(digest, fetches, d) == if retention > 0 then LastN(all, retention) else all
    decreases |fetches|
  {
    if fetches != [] {
      var n := |fetches| - 1;
      StoredAreLastN(digest, fetches[..n], d, retention);
      StoredAreLatest(digest, fetches[..n], d);
      RunSnoc(digest, fetches, d);
      NextAreLatest(StoredAfter(digest, fetches[..n], d), Versions(fetches[..n], d), Fetched([fetches[n]], d),
                    retention);
    }
  }

  /** With a fixed retention of N, exactly the last N versions are stored, or all if there are fewer;
    * with retention zero (or less), all of them. */
  lemma StoredIsLastN(digest: Archive -> int, fetches: seq<Fetch>, d: Device, retention: int)
    requires Injective(digest) && forall k :: 0 <= k < |fetches| ==> fetches[k].retention == retention
    ensures var all := Versions(fetches, d);
      StoredAfter(digest, fetches, d) == if 0 < retention < |all| then all[|all| - retention..] else all
  {
    StoredAreLastN(digest, fetches, d, retention);
  }
}
