/** The cached backup state of every guest on every PBS storage, and its evaluation. */
module BackupStatus {
  import opened Wrappers

  type Vmid = int
  type Seconds = int

  const STALE_S := 36 * 60 * 60

  // One entry of a storage listing.
  datatype Backup = Backup(vmid: Option<Vmid>, ctime: Seconds, size: Option<int>, verification: Option<string>)

  // A row of backup_status, under its key (vmid, storage).
  datatype StatusRow = StatusRow(
    checkedAt: Seconds, lastBackupAt: Option<Seconds>, size: Option<int>, verification: Option<string>)

  type Key = (Vmid, string)
  type StatusTable = map<Key, StatusRow>

  // What the storages answered, in the order they were asked; None is a listing that raised.
  type Listings = seq<(string, Option<seq<Backup>>)>

  // ---------- the newest backup of a guest ----------

  function LatestBackup(backups: seq<Backup>, vmid: Vmid): Option<Backup> {
    if backups == [] then None
    else
      var b := backups[|backups| - 1];
      var current := LatestBackup(backups[..|backups| - 1], vmid);
      if b.vmid == Some(vmid) && (current.None? || b.ctime > current.value.ctime) then Some(b) else current
  }

  /** Position i holds the guest's newest backup, the first one among equally new ones. */
  ghost predicate IsNewest(backups: seq<Backup>, vmid: Vmid, i: int) {
    && 0 <= i < |backups| && backups[i].vmid == Some(vmid)
    && (forall j | 0 <= j < |backups| && backups[j].vmid == Some(vmid) :: backups[j].ctime <= backups[i].ctime)
    && (forall j | 0 <= j < i && backups[j].vmid == Some(vmid) :: backups[j].ctime < backups[i].ctime)
  }

  /** LatestBackup is the first of the guest's newest backups, and None only without one. */
  lemma {:induction false} LatestIsNewest(backups: seq<Backup>, vmid: Vmid) returns (i: int)
    ensures match LatestBackup(backups, vmid)
            case None => i == -1 && forall j | 0 <= j < |backups| :: backups[j].vmid != Some(vmid)
            case Some(b) => IsNewest(backups, vmid, i) && backups[i] == b
    ensures forall j | IsNewest(backups, vmid, j) :: j == i
  {
    i := -1;
    if backups != [] {
      var n := |backups| - 1;
      var rest := backups[..n];
      i := LatestIsNewest(rest, vmid);
      assert forall j | 0 <= j < n :: rest[j] == backups[j];
      var b := backups[n];
      if b.vmid == Some(vmid) && (i == -1 || b.ctime > rest[i].ctime) {
        i := n;
      }
    }
  }

  method LatestByVmid(backups: seq<Backup>) returns (latest: map<Vmid, Backup>)
    ensures forall v: Vmid ::
              LatestBackup(backups, v) == if v in latest then Some(latest[v]) else None
  {
    latest := map[];
    for i := 0 to |backups|
      invariant forall v: Vmid ::
                  LatestBackup(backups[..i], v) == if v in latest then Some(latest[v]) else None
    {
      var b := backups[i];
      assert backups[..i + 1][..i] == backups[..i];
      if b.vmid.Some? {
        var vmid := b.vmid.value;
        if vmid !in latest || b.ctime > latest[vmid].ctime {
          latest := latest[vmid := b];
        }
      }
    }
    assert backups[..|backups|] == backups;
  }

  // ---------- refreshing the table ----------

  // The listings that succeeded; a storage listed twice keeps its last answer.
  function Answered(listings: Listings): map<string, seq<Backup>> {
    if listings == [] then map[]
    else
      var (storage, backups) := listings[|listings| - 1];
      var before := Answered(listings[..|listings| - 1]);
      if backups.Some? then before[storage := backups.value] else before
  }

  // The i-th listing is the last of its storage that succeeded.
  predicate LastAnswer(listings: Listings, s: string, i: int) {
    && 0 <= i < |listings| && listings[i].0 == s && listings[i].1.Some?
    && forall j | i < j < |listings| && listings[j].0 == s :: listings[j].1.None?
  }

  lemma {:induction false} AnsweredAt(listings: Listings, s: string) returns (i: int)
    ensures if i == -1 then s !in Answered(listings) && forall j | 0 <= j < |listings| && listings[j].0 == s ::
                              listings[j].1.None?
            else LastAnswer(listings, s, i) && s in Answered(listings)
                 && Answered(listings)[s] == listings[i].1.value
  {
    i := -1;
    if listings != [] {
      var n := |listings| - 1;
      i := AnsweredAt(listings[..n], s);
      assert forall j | 0 <= j < n :: listings[..n][j] == listings[j];
      if listings[n].0 == s && listings[n].1.Some? {
        i := n;
      }
    }
  }

  /** A listing that raised counts for nothing: a storage has answered exactly if one of its
      listings succeeded, and then with the last of these. */
  lemma AnsweredExactly(listings: Listings, s: string)
    ensures s in Answered(listings) <==> exists i :: LastAnswer(listings, s, i)
    ensures s in Answered(listings) <==> exists i :: 0 <= i < |listings| && listings[i].0 == s && listings[i].1.Some?
    ensures forall i | LastAnswer(listings, s, i) ::
              s in Answered(listings) && Answered(listings)[s] == listings[i].1.value
  {
    var k := AnsweredAt(listings, s);
    forall i | LastAnswer(listings, s, i)
      ensures i == k
    {
      assert k != -1 && !(i < k) && !(k < i);
    }
  }

  function NewRow(b: Option<Backup>, now: Seconds): StatusRow {
    match b
    case None => StatusRow(now, None, None, None)
    case Some(b) => StatusRow(now, Some(b.ctime), b.size, b.verification)
  }

  function Pairs(vmids: set<Vmid>, storages: set<string>): set<Key> {
    set v, s | v in vmids && s in storages :: (v, s)
  }

  lemma InPairs(vmids: set<Vmid>, storages: set<string>, k: Key)
    ensures k in Pairs(vmids, storages) <==> k.0 in vmids && k.1 in storages
  {
    var (v, s) := k;
    if v in vmids && s in storages {
      assert (v, s) in Pairs(vmids, storages);
    }
  }

  // INSERT … ON CONFLICT DO UPDATE for every key of `keys`.
  function Upserted(table: StatusTable, keys: set<Key>, answered: map<string, seq<Backup>>, now: Seconds): StatusTable
    requires forall k | k in keys :: k.1 in answered
  {
    map k | k in table.Keys + keys ::
      if k in keys then NewRow(LatestBackup(answered[k.1], k.0), now) else table[k]
  }

  function Synced(table: StatusTable, vmids: set<Vmid>, listings: Listings, now: Seconds): StatusTable {
    Upserted(table, Pairs(vmids, Answered(listings).Keys), Answered(listings), now)
  }

  // The row describes the guest's newest backup in the listing, or that there is none.
  ghost predicate Describes(row: StatusRow, backups: seq<Backup>, vmid: Vmid, now: Seconds) {
    if exists i :: IsNewest(backups, vmid, i) then
      exists i ::
        && IsNewest(backups, vmid, i)
        && row == StatusRow(now, Some(backups[i].ctime), backups[i].size, backups[i].verification)
    else
      && (forall b | b in backups :: b.vmid != Some(vmid))
      && row == StatusRow(now, None, None, None)
  }

  lemma NewRowDescribes(backups: seq<Backup>, vmid: Vmid, now: Seconds)
    ensures Describes(NewRow(LatestBackup(backups, vmid), now), backups, vmid, now)
  {
    var i := LatestIsNewest(backups, vmid);
  }

  // What a refresh of the table is to achieve, from the listings themselves.
  ghost predicate RefreshedRow(table: StatusTable, t: StatusTable, vmids: set<Vmid>, listings: Listings, now: Seconds,
                               k: Key)
  {
    if k.0 in vmids && exists i :: LastAnswer(listings, k.1, i)
    then exists i :: LastAnswer(listings, k.1, i) && k in t && Describes(t[k], listings[i].1.value, k.0, now)
    else (k in t <==> k in table) && (k in table ==> t[k] == table[k])
  }

  /** A sync rewrites exactly the rows of known guests on storages of which a listing succeeded, each
      from the guest's newest backup there, and leaves every other row alone, those of a storage
      that could not be listed in particular. */
  lemma TableSyncIsExact(table: StatusTable, vmids: set<Vmid>, listings: Listings, now: Seconds, k: Key)
    ensures RefreshedRow(table, Synced(table, vmids, listings, now), vmids, listings, now, k)
  {
    var answered := Answered(listings);
    InPairs(vmids, answered.Keys, k);
    AnsweredExactly(listings, k.1);
    if k.0 in vmids && k.1 in answered {
      NewRowDescribes(answered[k.1], k.0, now);
    }
  }

  /** Syncing again from the same answers only moves the time of the check. */
  lemma SyncTwice(table: StatusTable, vmids: set<Vmid>, listings: Listings, before: Seconds, now: Seconds)
    ensures Synced(Synced(table, vmids, listings, before), vmids, listings, now)
         == Synced(table, vmids, listings, now)
  {
  }

  method AskStorages(listings: Listings) returns (per: map<string, map<Vmid, Backup>>)
    ensures per.Keys == Answered(listings).Keys
    ensures forall s, v: Vmid | s in per ::
              LatestBackup(Answered(listings)[s], v) == if v in per[s] then Some(per[s][v]) else None
  {
    per := map[];
    for i := 0 to |listings|
      invariant per.Keys == Answered(listings[..i]).Keys
      invariant forall s, v: Vmid | s in per ::
                  LatestBackup(Answered(listings[..i])[s], v) == if v in per[s] then Some(per[s][v]) else None
    {
      assert listings[..i + 1][..i] == listings[..i];
      var (storage, backups) := listings[i];
      if backups.Some? {
        var latest := LatestByVmid(backups.value);
        per := per[storage := latest];
      }
    }
    assert listings[..|listings|] == listings;
  }

  lemma UpsertOne(table: StatusTable, keys: set<Key>, answered: map<string, seq<Backup>>, now: Seconds, k: Key)
    requires k.1 in answered && forall k | k in keys :: k.1 in answered
    ensures Upserted(table, keys, answered, now)[k := NewRow(LatestBackup(answered[k.1], k.0), now)]
         == Upserted(table, keys + {k}, answered, now)
  {
  }

  lemma PairsGrow(vmids: set<Vmid>, todo: set<Vmid>, v: Vmid, s: string)
    requires v in todo && todo <= vmids
    ensures Pairs(vmids - (todo - {v}), {s}) == Pairs(vmids - todo, {s}) + {(v, s)}
  {
    forall k: Key
      ensures k in Pairs(vmids - (todo - {v}), {s}) <==> k in Pairs(vmids - todo, {s}) + {(v, s)}
    {
      InPairs(vmids - (todo - {v}), {s}, k);
      InPairs(vmids - todo, {s}, k);
    }
  }

  lemma PairsJoin(vmids: set<Vmid>, done: set<string>, s: string)
    ensures Pairs(vmids, done) + Pairs(vmids, {s}) == Pairs(vmids, done + {s})
  {
    forall k: Key
      ensures k in Pairs(vmids, done) + Pairs(vmids, {s}) <==> k in Pairs(vmids, done + {s})
    {
      InPairs(vmids, done, k);
      InPairs(vmids, {s}, k);
      InPairs(vmids, done + {s}, k);
    }
  }

  // All known guests on one storage.
  method SyncStorage(table: StatusTable, vmids: set<Vmid>, s: string, latest: map<Vmid, Backup>, now: Seconds,
                     ghost answered: map<string, seq<Backup>>, ghost before: StatusTable, ghost done: set<Key>)
    returns (r: StatusTable)
    requires s in answered && forall k | k in done :: k.1 in answered
    requires table == Upserted(before, done, answered, now)
    requires forall v: Vmid ::
               LatestBackup(answered[s], v) == if v in latest then Some(latest[v]) else None
    ensures r == Upserted(before, done + Pairs(vmids, {s}), answered, now)
  {
    r := table;
    var todo := vmids;
    ghost var keys := done;
    while todo != {}
      invariant todo <= vmids && keys == done + Pairs(vmids - todo, {s})
      invariant r == Upserted(before, keys, answered, now)
    {
      var v := AnyOf(todo);
      UpsertOne(before, keys, answered, now, (v, s));
      PairsGrow(vmids, todo, v, s);
      r := r[(v, s) := NewRow(if v in latest then Some(latest[v]) else None, now)];
      todo, keys := todo - {v}, keys + {(v, s)};
    }
    assert vmids - todo == vmids;
  }

  method SyncAll(table: StatusTable, vmids: set<Vmid>, listings: Listings, now: Seconds) returns (r: StatusTable)
    ensures r == Synced(table, vmids, listings, now)
  {
    ghost var answered := Answered(listings);
    var per := AskStorages(listings);
    r := table;
    var storages := per.Keys;
    assert per.Keys - storages == {};
    while storages != {}
      invariant storages <= per.Keys
      invariant r == Upserted(table, Pairs(vmids, per.Keys - storages), answered, now)
    {
      var s := AnyOf(storages);
      r := SyncStorage(r, vmids, s, per[s], now, answered, table, Pairs(vmids, per.Keys - storages));
      PairsJoin(vmids, per.Keys - storages, s);
      assert per.Keys - (storages - {s}) == per.Keys - storages + {s};
      storages := storages - {s};
    }
    assert per.Keys - storages == per.Keys;
  }

  // ---------- evaluation ----------

  // `overall_ok` of one row
  predicate RowOk(row: StatusRow, now: Seconds) {
    && row.lastBackupAt.Some?
    && now - row.lastBackupAt.value <= STALE_S
    && row.verification != Some("failed")
  }

  // overall_status: None | "ok" | "failed" | "warning"
  datatype Verdict = Unchecked | AllGood | NoneGood | SomeGood

  // What the panel says about a guest whose rows are `rows`.
  ghost predicate Says(rows: seq<StatusRow>, now: Seconds, verdict: Verdict) {
    && (verdict.Unchecked? <==> rows == [])
    && (verdict.AllGood? <==> rows != [] && forall row | row in rows :: RowOk(row, now))
    && (verdict.NoneGood? <==> rows != [] && forall row | row in rows :: !RowOk(row, now))
  }

  /** The aggregate view of one guest's rows. */
  method GetEvaluated(rows: seq<StatusRow>, now: Seconds) returns (verdict: Verdict)
    ensures Says(rows, now, verdict)
  {
    if rows == [] {
      return Unchecked;
    }
    var oks := 0;
    for i := 0 to |rows|
      invariant 0 <= oks <= i
      invariant oks == i <==> forall row | row in rows[..i] :: RowOk(row, now)
      invariant oks == 0 <==> forall row | row in rows[..i] :: !RowOk(row, now)
    {
      assert rows[..i + 1] == rows[..i] + [rows[i]];
      if RowOk(rows[i], now) {
        oks := oks + 1;
      }
    }
    assert rows[..|rows|] == rows;
    verdict := if oks == |rows| then AllGood else if oks == 0 then NoneGood else SomeGood;
  }

  // SELECT * FROM backup_status WHERE vmid = ?
  ghost predicate IsQuery(rows: seq<StatusRow>, table: StatusTable, vmid: Vmid) {
    && (forall row | row in rows :: exists s :: (vmid, s) in table && table[(vmid, s)] == row)
    && (forall s | (vmid, s) in table :: table[(vmid, s)] in rows)
  }

  // The guest's newest backup on a storage is recent and did not fail verification.
  ghost predicate NewestGood(backups: seq<Backup>, vmid: Vmid, now: Seconds) {
    exists i ::
      && IsNewest(backups, vmid, i)
      && now - backups[i].ctime <= 36 * 3600 && backups[i].verification != Some("failed")
  }

  lemma SyncedRowOk(table: StatusTable, vmids: set<Vmid>, listings: Listings, checked: Seconds,
                    now: Seconds, k: Key)
    requires k.0 in vmids && k.1 in Answered(listings)
    ensures k in Synced(table, vmids, listings, checked)
    ensures RowOk(Synced(table, vmids, listings, checked)[k], now)
            <==> NewestGood(Answered(listings)[k.1], k.0, now)
  {
    InPairs(vmids, Answered(listings).Keys, k);
    LatestDecides(Answered(listings)[k.1], k.0, now);
  }

  lemma LatestDecides(backups: seq<Backup>, vmid: Vmid, now: Seconds)
    ensures NewestGood(backups, vmid, now) <==>
            && LatestBackup(backups, vmid).Some?
            && var b := LatestBackup(backups, vmid).value;
               now - b.ctime <= STALE_S && b.verification != Some("failed")
  {
    var i := LatestIsNewest(backups, vmid);
  }

  /** From storage listings to the verdict. When the storages that answered are all that the
      table knows of a guest, it is judged good if and only if its newest backup is good on
      every storage, failed if and only if that holds on none, and a warning in between. */
  lemma VerdictFromListings(table: StatusTable, vmids: set<Vmid>, listings: Listings, checked: Seconds,
                            vmid: Vmid, rows: seq<StatusRow>, now: Seconds, verdict: Verdict)
    requires vmid in vmids
    requires forall s | (vmid, s) in table :: s in Answered(listings)
    requires IsQuery(rows, Synced(table, vmids, listings, checked), vmid)
    requires Says(rows, now, verdict)
    ensures verdict.Unchecked? <==> Answered(listings) == map[]
    ensures verdict.AllGood? <==>
            && Answered(listings) != map[]
            && forall s | s in Answered(listings) :: NewestGood(Answered(listings)[s], vmid, now)
    ensures verdict.NoneGood? <==>
            && Answered(listings) != map[]
            && forall s | s in Answered(listings) :: !NewestGood(Answered(listings)[s], vmid, now)
  {
    var answered := Answered(listings);
    var t := Synced(table, vmids, listings, checked);
    forall s
      ensures (vmid, s) in t <==> s in answered
      ensures s in answered ==> (RowOk(t[(vmid, s)], now) <==> NewestGood(answered[s], vmid, now))
    {
      if s in answered {
        SyncedRowOk(table, vmids, listings, checked, now, (vmid, s));
      }
    }
    assert forall s | s in answered :: t[(vmid, s)] in rows;
    assert rows != [] ==> rows[0] in rows;
  }
}
