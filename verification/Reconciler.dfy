/** Keeping three stores in step: what Proxmox reports, the SQLite tables with their foreign
    keys, and the scheduler's in-memory jobs. SQLite rolls back, the job store does not. */
module Reconciler {
  import opened Wrappers
  import opened Text
  import opened Tags
  import opened BackupStatus

  // Everything discovery reports about a guest besides its vmid.
  datatype Info = Info(
    node: string, name: string, kind: string, appType: string, tags: string, maxmem: int, maxcpu: int,
    ip: string, osFamily: string, osId: string, updateSupported: bool)

  datatype Discovered = Discovered(vmid: Vmid, info: Info)

  datatype GuestRow = GuestRow(info: Info, lastSeen: Seconds)

  datatype Schedule = Schedule(cron: string, enabled: bool)

  // A history row of a guest; what it records does not matter here.
  datatype Entry = Entry(vmid: Vmid, content: string)

  datatype Database = Database(
    guests: map<Vmid, GuestRow>,
    schedules: map<Vmid, Schedule>,
    securityChecks: map<Vmid, string>,
    status: StatusTable,
    runs: map<nat, Entry>,
    backupRuns: map<nat, Entry>)

  // The guest jobs of the scheduler: the cron each fires on.
  type Jobs = map<Vmid, string>

  const DEFAULT_CRON_BY_NODE: map<string, string> := map[
    "dell-5060" := "0 4 * * 6",
    "lenovo-m700" := "0 6 * * 6"
  ]

  const DEFAULT_CRON := "0 5 * * 6"

  function DefaultCron(node: string): string {
    if node in DEFAULT_CRON_BY_NODE then DEFAULT_CRON_BY_NODE[node] else DEFAULT_CRON
  }

  function DefaultSchedule(info: Info): Schedule {
    Schedule(DefaultCron(info.node), AUTO_UPDATE_TAG in ParseTags(Some(info.tags)))
  }

  /** What a new guest gets: `managed` alone does not have it updated, only `auto-update` does; and
      the hour is that of its node. The tags are in the form in which discovery reports them. */
  lemma NewGuestSchedule(info: Info, raw: Option<string>)
    requires info.tags == Stored(raw)
    ensures DefaultSchedule(info).enabled <==> "auto-update" in ParseTags(raw)
    ensures DefaultSchedule(info).cron
         == (match info.node
             case "dell-5060" => "0 4 * * 6"
             case "lenovo-m700" => "0 6 * * 6"
             case _ => "0 5 * * 6")
  {
    ParseIsIdempotent(raw);
  }

  /** On a list of tags in canonical form, the flag is membership. */
  lemma EnabledByTag(info: Info, tags: seq<string>)
    requires Canonical(tags) && info.tags == Join(tags, ";")
    ensures DefaultSchedule(info).enabled <==> "auto-update" in tags
  {
    ParseOfJoin(tags);
  }

  predicate ForeignKeysHold(db: Database) {
    && (forall v | v in db.schedules :: v in db.guests)
    && (forall v | v in db.securityChecks :: v in db.guests)
    && (forall k | k in db.status :: k.0 in db.guests)
    && (forall id | id in db.runs :: db.runs[id].vmid in db.guests)
    && (forall id | id in db.backupRuns :: db.backupRuns[id].vmid in db.guests)
  }

  // ---------- statements ----------

  function UpsertGuest(db: Database, g: Discovered, now: Seconds): Database {
    db.(guests := db.guests[g.vmid := GuestRow(g.info, now)])
  }

  function AddSchedule(db: Database, g: Discovered): Database {
    if g.vmid in db.schedules then db
    else db.(schedules := db.schedules[g.vmid := DefaultSchedule(g.info)])
  }

  datatype Child = Schedules | SecurityChecks | BackupStatuses | Runs | BackupRuns

  // The order of the DELETEs.
  const CHILDREN := [Schedules, SecurityChecks, BackupStatuses, Runs, BackupRuns]

  function DeleteChild(db: Database, child: Child, vmids: set<Vmid>): Database {
    match child
    case Schedules => db.(schedules := db.schedules - vmids)
    case SecurityChecks => db.(securityChecks := db.securityChecks - vmids)
    case BackupStatuses => db.(status := map k | k in db.status && k.0 !in vmids :: db.status[k])
    case Runs => db.(runs := map id | id in db.runs && db.runs[id].vmid !in vmids :: db.runs[id])
    case BackupRuns =>
      db.(backupRuns := map id | id in db.backupRuns && db.backupRuns[id].vmid !in vmids :: db.backupRuns[id])
  }

  function DeleteGuests(db: Database, vmids: set<Vmid>): Database {
    db.(guests := db.guests - vmids)
  }

  // ---------- what a sync is to achieve ----------

  function Registered(db: Database, found: seq<Discovered>, now: Seconds): Database {
    if found == [] then db
    else
      var g := found[|found| - 1];
      AddSchedule(UpsertGuest(Registered(db, found[..|found| - 1], now), g, now), g)
  }

  function Pruned(db: Database, vmids: set<Vmid>): Database {
    Database(
      db.guests - vmids,
      db.schedules - vmids,
      db.securityChecks - vmids,
      map k | k in db.status && k.0 !in vmids :: db.status[k],
      map id | id in db.runs && db.runs[id].vmid !in vmids :: db.runs[id],
      map id | id in db.backupRuns && db.backupRuns[id].vmid !in vmids :: db.backupRuns[id])
  }

  function Seen(found: seq<Discovered>): set<Vmid> {
    set g | g in found :: g.vmid
  }

  function Stale(db: Database, found: seq<Discovered>): set<Vmid> {
    db.guests.Keys - Seen(found)
  }

  function Reconciled(db: Database, found: seq<Discovered>, now: Seconds): Database {
    Pruned(Registered(db, found, now), Stale(db, found))
  }

  // With the backup refresh that follows.
  function Refreshed(db: Database, found: seq<Discovered>, listings: Listings, now: Seconds): Database {
    var r := Reconciled(db, found, now);
    r.(status := Synced(r.status, r.guests.Keys, listings, now))
  }

  function EnabledJobs(schedules: map<Vmid, Schedule>): Jobs {
    map v | v in schedules && schedules[v].enabled :: schedules[v].cron
  }

  // reload_jobs touches the jobs of scheduled guests only.
  function Reloaded(jobs: Jobs, schedules: map<Vmid, Schedule>): Jobs {
    (jobs - schedules.Keys) + EnabledJobs(schedules)
  }

  // ---------- reconciliation is exact ----------

  function First(found: seq<Discovered>, vmid: Vmid): Option<Info> {
    if found == [] then None
    else
      var rest := First(found[..|found| - 1], vmid);
      var g := found[|found| - 1];
      if rest.None? && g.vmid == vmid then Some(g.info) else rest
  }

  function Last(found: seq<Discovered>, vmid: Vmid): Option<Info> {
    if found == [] then None
    else
      var g := found[|found| - 1];
      if g.vmid == vmid then Some(g.info) else Last(found[..|found| - 1], vmid)
  }

  ghost predicate RegisteredAt(db: Database, found: seq<Discovered>, now: Seconds, u: Database, v: Vmid) {
    && (v in Seen(found) <==> First(found, v).Some?)
    && (v in Seen(found) <==> Last(found, v).Some?)
    && (v in u.guests <==> v in db.guests || v in Seen(found))
    && (v in u.guests ==>
          u.guests[v] == match Last(found, v)
                         case Some(info) => GuestRow(info, now)
                         case None => db.guests[v])
    && (v in u.schedules <==> v in db.schedules || v in Seen(found))
    && (v in u.schedules ==>
          u.schedules[v] == if v in db.schedules then db.schedules[v]
                            else DefaultSchedule(First(found, v).value))
  }

  lemma {:induction false} RegisteredOthers(db: Database, found: seq<Discovered>, now: Seconds)
    ensures var u := Registered(db, found, now);
            && u.securityChecks == db.securityChecks && u.status == db.status
            && u.runs == db.runs && u.backupRuns == db.backupRuns
  {
    if found != [] {
      RegisteredOthers(db, found[..|found| - 1], now);
    }
  }

  lemma {:induction false} RegisteredExactly(db: Database, found: seq<Discovered>, now: Seconds, v: Vmid)
    ensures RegisteredAt(db, found, now, Registered(db, found, now), v)
  {
    if found != [] {
      var rest, g := found[..|found| - 1], found[|found| - 1];
      assert found == rest + [g];
      RegisteredExactly(db, rest, now, v);
    }
  }

  // Of the other child rows, those of the guests in `keep` are left, and only those.
  ghost predicate HistoryKept(db: Database, r: Database, keep: set<Vmid>) {
    && r.securityChecks == (map v | v in db.securityChecks && v in keep :: db.securityChecks[v])
    && r.status == (map k | k in db.status && k.0 in keep :: db.status[k])
    && r.runs == (map id | id in db.runs && db.runs[id].vmid in keep :: db.runs[id])
    && r.backupRuns == (map id | id in db.backupRuns && db.backupRuns[id].vmid in keep :: db.backupRuns[id])
  }

  lemma PrunedHistory(db: Database, u: Database, keep: set<Vmid>)
    requires ForeignKeysHold(db)
    requires u.securityChecks == db.securityChecks && u.status == db.status
    requires u.runs == db.runs && u.backupRuns == db.backupRuns
    ensures HistoryKept(db, Pruned(u, db.guests.Keys - keep), keep)
  {
    var gone := db.guests.Keys - keep;
    assert forall v: Vmid | v in db.guests :: v in gone <==> v !in keep;
    assert forall v | v in db.securityChecks :: v in db.securityChecks - gone <==> v in keep;
  }

  /** After a sync the guests are the discovered ones, each with its latest report; each has one
      schedule, the one it had or else its node's default, enabled by its tag; the history of the
      surviving guests is untouched, and that of the others is gone. */
  lemma ReconcileIsExact(db: Database, found: seq<Discovered>, now: Seconds)
    requires ForeignKeysHold(db)
    ensures var r := Reconciled(db, found, now);
            && r.guests.Keys == Seen(found) == r.schedules.Keys
            && (forall v | v in r.guests :: Last(found, v).Some? && r.guests[v] == GuestRow(Last(found, v).value, now))
            && (forall v | v in r.schedules && v in db.schedules :: r.schedules[v] == db.schedules[v])
            && (forall v | v in r.schedules && v !in db.schedules ::
                  First(found, v).Some? && r.schedules[v] == DefaultSchedule(First(found, v).value)
                  && (r.schedules[v].enabled <==> "auto-update" in ParseTags(Some(First(found, v).value.tags))))
            && HistoryKept(db, r, Seen(found))
    ensures ForeignKeysHold(Reconciled(db, found, now))
  {
    var r := Reconciled(db, found, now);
    RegisteredOthers(db, found, now);
    PrunedHistory(db, Registered(db, found, now), Seen(found));
    forall v: Vmid
      ensures v in r.guests.Keys <==> v in Seen(found)
      ensures v in r.schedules.Keys <==> v in Seen(found)
    {
      ReconciledAt(db, found, now, v);
    }
    assert r.guests.Keys == Seen(found);
    assert r.schedules.Keys == Seen(found);
    forall v | v in Seen(found)
      ensures Last(found, v).Some? && r.guests[v] == GuestRow(Last(found, v).value, now)
      ensures v in db.schedules ==> r.schedules[v] == db.schedules[v]
      ensures v !in db.schedules ==>
                First(found, v).Some? && r.schedules[v] == DefaultSchedule(First(found, v).value)
    {
      ReconciledAt(db, found, now, v);
    }
  }

  // The rows of one guest.
  lemma ReconciledAt(db: Database, found: seq<Discovered>, now: Seconds, v: Vmid)
    requires ForeignKeysHold(db)
    ensures var r := Reconciled(db, found, now);
            && (v in r.guests <==> v in Seen(found))
            && (v in r.schedules <==> v in Seen(found))
            && (v in Seen(found) ==>
                  && Last(found, v).Some? && r.guests[v] == GuestRow(Last(found, v).value, now)
                  && First(found, v).Some?
                  && r.schedules[v] == (if v in db.schedules then db.schedules[v]
                                        else DefaultSchedule(First(found, v).value)))
  {
    RegisteredExactly(db, found, now, v);
  }

  /** The backup status after a whole sync: a guest that was discovered has, for each storage of which
      a listing succeeded, the row of its newest backup there, and for the others what it had; no
      row of another guest is left. */
  lemma RefreshedIsExact(db: Database, found: seq<Discovered>, listings: Listings, now: Seconds, k: Key)
    requires ForeignKeysHold(db)
    ensures var t := Refreshed(db, found, listings, now).status;
            if k.0 in Seen(found) then RefreshedRow(db.status, t, Seen(found), listings, now, k) else k !in t
  {
    var r := Reconciled(db, found, now);
    ReconcileIsExact(db, found, now);
    TableSyncIsExact(r.status, r.guests.Keys, listings, now, k);
  }

  /** A second sync that discovers the same guests and backups changes nothing but times. */
  lemma SyncTwiceIsOnce(db: Database, found: seq<Discovered>, listings: Listings, before: Seconds, now: Seconds)
    requires ForeignKeysHold(db)
    ensures Refreshed(Refreshed(db, found, listings, before), found, listings, now)
         == Refreshed(db, found, listings, now)
  {
    var r := Reconciled(db, found, before);
    var once := Refreshed(db, found, listings, before);
    ReconcileIsExact(db, found, before);
    ReconcileIsExact(db, found, now);
    RefreshKeepsKeys(r, listings, before);
    ReconcileIsExact(once, found, now);
    ReconciledTwice(db, once, found, before, now);
    SyncTwice(r.status, r.guests.Keys, listings, before, now);
  }

  lemma ReconciledTwice(db: Database, once: Database, found: seq<Discovered>, before: Seconds, now: Seconds)
    requires ForeignKeysHold(db) && ForeignKeysHold(once)
    requires once == Reconciled(db, found, before).(status := once.status)
    ensures Reconciled(once, found, now) == Reconciled(db, found, now).(status := once.status)
  {
    GuestsTwice(db, once, found, before, now);
    SchedulesTwice(db, once, found, before, now);
    forall v | v in once.guests
      ensures v in Seen(found)
    {
      ReconciledAt(db, found, before, v);
    }
    OthersTwice(db, once, found, before, now);
  }

  lemma GuestsTwice(db: Database, once: Database, found: seq<Discovered>, before: Seconds, now: Seconds)
    requires ForeignKeysHold(db) && ForeignKeysHold(once)
    requires once == Reconciled(db, found, before).(status := once.status)
    ensures Reconciled(once, found, now).guests == Reconciled(db, found, now).guests
  {
    var again, direct := Reconciled(once, found, now).guests, Reconciled(db, found, now).guests;
    forall v: Vmid
      ensures v in again <==> v in direct
      ensures v in again ==> again[v] == direct[v]
    {
      SameRowsTwice(db, once, found, before, now, v);
    }
    assert again.Keys == direct.Keys;
  }

  lemma SchedulesTwice(db: Database, once: Database, found: seq<Discovered>, before: Seconds, now: Seconds)
    requires ForeignKeysHold(db) && ForeignKeysHold(once)
    requires once == Reconciled(db, found, before).(status := once.status)
    ensures Reconciled(once, found, now).schedules == Reconciled(db, found, now).schedules
  {
    var again, direct := Reconciled(once, found, now).schedules, Reconciled(db, found, now).schedules;
    forall v: Vmid
      ensures v in again <==> v in direct
      ensures v in again ==> again[v] == direct[v]
    {
      SameRowsTwice(db, once, found, before, now, v);
    }
    assert again.Keys == direct.Keys;
  }

  lemma SameRowsTwice(db: Database, once: Database, found: seq<Discovered>, before: Seconds, now: Seconds, v: Vmid)
    requires ForeignKeysHold(db) && ForeignKeysHold(once)
    requires once == Reconciled(db, found, before).(status := once.status)
    ensures var again, direct := Reconciled(once, found, now), Reconciled(db, found, now);
            && (v in again.guests <==> v in direct.guests)
            && (v in again.guests ==> again.guests[v] == direct.guests[v])
            && (v in again.schedules <==> v in direct.schedules)
            && (v in again.schedules ==> again.schedules[v] == direct.schedules[v])
  {
    ReconciledAt(db, found, before, v);
    ReconciledAt(db, found, now, v);
    ReconciledAt(once, found, now, v);
  }

  lemma OthersTwice(db: Database, once: Database, found: seq<Discovered>, before: Seconds, now: Seconds)
    requires ForeignKeysHold(db) && ForeignKeysHold(once)
    requires once == Reconciled(db, found, before).(status := once.status)
    requires once.guests.Keys <= Seen(found)
    ensures var again, direct := Reconciled(once, found, now), Reconciled(db, found, now);
            && again.securityChecks == direct.securityChecks && again.status == once.status
            && again.runs == direct.runs && again.backupRuns == direct.backupRuns
  {
    RegisteredOthers(db, found, before);
    RegisteredOthers(db, found, now);
    RegisteredOthers(once, found, now);
    PrunedHistory(db, Registered(db, found, before), Seen(found));
    PrunedHistory(db, Registered(db, found, now), Seen(found));
    PrunedHistory(once, Registered(once, found, now), Seen(found));
    HistoryKeptTwice(db, once, Reconciled(once, found, now), Reconciled(db, found, now), Seen(found));
  }

  lemma HistoryKeptTwice(db: Database, once: Database, again: Database, direct: Database, keep: set<Vmid>)
    requires ForeignKeysHold(once) && once.guests.Keys <= keep
    requires HistoryKept(db, once.(status := direct.status), keep) && HistoryKept(db, direct, keep)
    requires HistoryKept(once, again, keep)
    ensures again.securityChecks == direct.securityChecks && again.status == once.status
    ensures again.runs == direct.runs && again.backupRuns == direct.backupRuns
  {
    assert again.securityChecks == once.securityChecks;
  }

  lemma RefreshKeepsKeys(r: Database, listings: Listings, now: Seconds)
    requires ForeignKeysHold(r)
    ensures ForeignKeysHold(r.(status := Synced(r.status, r.guests.Keys, listings, now)))
  {
    forall k | k in Synced(r.status, r.guests.Keys, listings, now)
      ensures k.0 in r.guests
    {
      TableSyncIsExact(r.status, r.guests.Keys, listings, now, k);
    }
  }
}
