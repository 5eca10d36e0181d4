/** The operations on the panel's stores, statement by statement, and what they keep of the
    agreement between schedules and scheduler jobs over every run. */
module JobStore {
  import opened Wrappers
  import opened BackupStatus
  import opened Reconciler

  datatype SqlError = Unavailable | ForeignKeyFailed | BadCron

  datatype Sql = Done | Raised(error: SqlError) {
    predicate IsFailure() {
      Raised?
    }

    function PropagateFailure(): Sql
      requires IsFailure()
    {
      this
    }
  }

  datatype ScheduleError = GuestNotFound | InvalidCron | Broke(error: SqlError)

  // The committed tables and the job store.
  datatype Stores = Stores(db: Database, jobs: Jobs)

  type CronCheck = string -> bool

  predicate CronsValid(db: Database, validCron: CronCheck) {
    forall v | v in db.schedules :: validCron(db.schedules[v].cron)
  }

  // What holds at all times, also after an operation broke off.
  predicate Sound(s: Stores, validCron: CronCheck) {
    && ForeignKeysHold(s.db)
    && CronsValid(s.db, validCron)
    && (forall v | v in s.jobs :: v in s.db.schedules)
  }

  // What holds after every completed operation.
  predicate Agreed(s: Stores) {
    s.jobs == EnabledJobs(s.db.schedules)
  }

  predicate DefaultsValid(validCron: CronCheck) {
    validCron(DEFAULT_CRON) && forall n | n in DEFAULT_CRON_BY_NODE :: validCron(DEFAULT_CRON_BY_NODE[n])
  }

  // ---------- operations, as steps between stores ----------

  datatype Op =
    | Sync(found: seq<Discovered>, listings: Option<Listings>, now: Seconds)
    | SetSchedule(vmid: Vmid, cron: string, enabled: bool)
    | Reload

  // Only jobs of guests in `gone` are missing.
  predicate JobsWithout(before: Jobs, after: Jobs, gone: set<Vmid>) {
    && (forall v | v in after :: v in before && after[v] == before[v])
    && (forall v | v in before && v !in after :: v in gone)
  }

  /** A step that completes did all its work; one that breaks off did a prefix of it, with the
      tables changed by a whole transaction or not at all. */
  predicate Step(s: Stores, op: Op, s': Stores, done: bool) {
    match op
    case Sync(found, listings, now) =>
      var r := Reconciled(s.db, found, now);
      if done then
        && listings.Some? && s'.db == Refreshed(s.db, found, listings.value, now)
        && s'.jobs == Reloaded(s.jobs - Stale(s.db, found), r.schedules)
      else
        || (s'.db == s.db && JobsWithout(s.jobs, s'.jobs, Stale(s.db, found)))
        || (s'.db == r && s'.jobs == s.jobs - Stale(s.db, found))
        || (s'.db == r && s'.jobs == Reloaded(s.jobs - Stale(s.db, found), r.schedules))
    case SetSchedule(vmid, cron, enabled) =>
      var db' := s.db.(schedules := s.db.schedules[vmid := Schedule(cron, enabled)]);
      if done then s' == Stores(db', Reloaded(s.jobs, db'.schedules))
      else s' == s || s' == Stores(db', s.jobs)
    case Reload =>
      s' == if done then s.(jobs := Reloaded(s.jobs, s.db.schedules)) else s
  }

  // Committed, and the jobs not reloaded.
  function Edited(s: Stores, vmid: Vmid, cron: string, enabled: bool): Stores {
    s.(db := s.db.(schedules := s.db.schedules[vmid := Schedule(cron, enabled)]))
  }

  /** Where a sync ends that SQLite serves `statements` statements: before the COMMIT the tables
      are untouched, and so are the jobs until pruning begins; a whole COMMIT without its reload
      leaves the jobs of the survivors; and a reload without backup listings the enabled ones. */
  predicate SyncEnds(s: Stores, found: seq<Discovered>, listings: Option<Listings>, now: Seconds,
                     statements: nat, s': Stores, done: bool) {
    var commit := CommitStatements(s.db, found);
    && (done <==> statements > commit && listings.Some?)
    && (statements <= UpsertStatements(s.db, found) ==> s' == s)
    && (statements < commit ==> s'.db == s.db && JobsWithout(s.jobs, s'.jobs, Stale(s.db, found)))
    && (statements == commit ==> s' == Stores(Reconciled(s.db, found, now), s.jobs - Stale(s.db, found)))
    && (statements > commit && listings.None? ==>
          && s'.db == Reconciled(s.db, found, now)
          && s'.jobs == Reloaded(s.jobs - Stale(s.db, found), s'.db.schedules))
  }

  // What a caller of set_schedule gets past the checks with.
  predicate Checked(s: Stores, op: Op, validCron: CronCheck) {
    op.SetSchedule? ==> op.vmid in s.db.guests && validCron(op.cron)
  }

  // Statements of the upsert loop: two for each report, and an INSERT for each missing schedule.
  function UpsertStatements(db: Database, found: seq<Discovered>): nat {
    if found == [] then 0
    else
      var rest, v := found[..|found| - 1], found[|found| - 1].vmid;
      UpsertStatements(db, rest) + if v in db.schedules || First(rest, v).Some? then 2 else 3
  }

  // Up to and including the COMMIT: also the SELECT of all guests and six DELETEs for each stale one.
  function CommitStatements(db: Database, found: seq<Discovered>): nat {
    UpsertStatements(db, found) + 1 + 6 * |Stale(db, found)| + 1
  }

  // ---------- the panel ----------

  class Panel {
    const validCron: CronCheck
    var db: Database
    var work: Database  // the tables as the open transaction sees them
    var jobs: Jobs
    var budget: nat     // how many more statements SQLite carries out before it raises

    ghost function Now(): Stores
      reads this
    {
      Stores(db, jobs)
    }

    ghost predicate Valid()
      reads this
    {
      Sound(Now(), validCron) && DefaultsValid(validCron)
    }

    constructor (validCron: CronCheck, db: Database)
      requires ForeignKeysHold(db) && DefaultsValid(validCron)
      requires CronsValid(db, validCron)
      ensures Valid() && this.validCron == validCron && this.db == db && jobs == map[]
    {
      this.validCron, this.db, work, jobs, budget := validCron, db, db, map[], 0;
    }

    /** One statement of the open transaction, checked against the foreign keys as it ends. */
    method Execute(next: Database) returns (e: Sql)
      modifies `work, `budget
      ensures e == if old(budget) == 0 then Raised(Unavailable)
                   else if !ForeignKeysHold(next) then Raised(ForeignKeyFailed)
                   else Done
      ensures work == if e.Done? then next else old(work)
      ensures budget == if old(budget) == 0 then 0 else old(budget) - 1
    {
      if budget == 0 {
        return Raised(Unavailable);
      }
      budget := budget - 1;
      if !ForeignKeysHold(next) {
        return Raised(ForeignKeyFailed);
      }
      work := next;
      return Done;
    }

    // SELECT, or COMMIT
    method Access() returns (e: Sql)
      modifies `budget
      ensures e == if old(budget) == 0 then Raised(Unavailable) else Done
      ensures budget == if old(budget) == 0 then 0 else old(budget) - 1
    {
      if budget == 0 {
        return Raised(Unavailable);
      }
      budget := budget - 1;
      return Done;
    }

    method UpsertGuests(found: seq<Discovered>, now: Seconds) returns (e: Sql)
      requires ForeignKeysHold(work)
      modifies `work, `budget
      ensures e in {Done, Raised(Unavailable)}
      ensures e.Done? ==> work == Registered(old(work), found, now) && ForeignKeysHold(work)
      ensures e.Done? <==> old(budget) >= UpsertStatements(old(work), found)
      ensures e.Done? ==> budget == old(budget) - UpsertStatements(old(work), found)
    {
      ghost var was, spent := work, 0;
      for i := 0 to |found|
        invariant ForeignKeysHold(work)
        invariant spent == UpsertStatements(was, found[..i]) && old(budget) == budget + spent
        invariant work == Registered(was, found[..i], now)
      {
        spent := OneMoreUpsert(was, found, now, i, work);
        :- UpsertOne(found[i], now);
      }
      assert found[..|found|] == found;
      e := Done;
    }

    // The INSERT never dangles, and the guest of a new schedule is there.
    method UpsertOne(g: Discovered, now: Seconds) returns (e: Sql)
      requires ForeignKeysHold(work)
      modifies `work, `budget
      ensures e in {Done, Raised(Unavailable)}
      ensures var needed := if g.vmid in old(work).schedules then 2 else 3;
              (e.Done? <==> old(budget) >= needed) && (e.Done? ==> budget == old(budget) - needed)
      ensures e.Done? ==> work == AddSchedule(UpsertGuest(old(work), g, now), g) && ForeignKeysHold(work)
    {
      e := Done;
      :- Execute(UpsertGuest(work, g, now));
      :- Access();
      if g.vmid !in work.schedules {
        :- Execute(AddSchedule(work, g));
      }
    }

    /** Child rows first: no DELETE leaves a row whose guest is gone, so none is refused. */
    method PruneStaleGuest(vmid: Vmid) returns (e: Sql)
      requires ForeignKeysHold(work)
      modifies `work, `jobs, `budget
      ensures e in {Done, Raised(Unavailable)}
      ensures jobs == old(jobs) - {vmid}
      ensures e.Done? ==> work == Pruned(old(work), {vmid}) && ForeignKeysHold(work)
      ensures e.Done? <==> old(budget) >= 6
      ensures e.Done? ==> budget == old(budget) - 6
    {
      jobs := jobs - {vmid};
      for i := 0 to |CHILDREN|
        invariant old(budget) == budget + i
        invariant ForeignKeysHold(work) && jobs == old(jobs) - {vmid}
        invariant work == DeletedChildren(old(work), i, {vmid})
      {
        DeleteChildKeepsKeys(work, CHILDREN[i], {vmid});
        :- Execute(DeleteChild(work, CHILDREN[i], {vmid}));
      }
      ChildrenThenGuest(old(work), {vmid});
      :- Execute(DeleteGuests(work, {vmid}));
      e := Done;
    }

    method PruneAll(stale: set<Vmid>) returns (e: Sql)
      requires ForeignKeysHold(work)
      modifies `work, `jobs, `budget
      ensures e in {Done, Raised(Unavailable)}
      ensures e.Done? ==> work == Pruned(old(work), stale) && jobs == old(jobs) - stale
      ensures e.Raised? ==> JobsWithout(old(jobs), jobs, stale)
      ensures e.Done? <==> old(budget) >= 6 * |stale|
      ensures e.Done? ==> budget == old(budget) - 6 * |stale|
    {
      var todo := stale;
      ghost var was, had := work, jobs;
      ghost var gone: set<Vmid> := {};
      PrunedNone(work);
      assert jobs == had - gone;
      while todo != {}
        invariant todo <= stale && gone == stale - todo
        invariant |todo| <= |stale| && old(budget) == budget + 6 * (|stale| - |todo|)
        invariant ForeignKeysHold(work)
        invariant work == Pruned(was, gone) && jobs == had - gone
      {
        var vmid := AnyOf(todo);
        PrunedMore(was, gone, vmid);
        todo, gone := todo - {vmid}, gone + {vmid};
        assert had - gone == jobs - {vmid};
        :- PruneStaleGuest(vmid);
      }
      assert gone == stale;
      e := Done;
    }

    method ReloadJob(v: Vmid, row: Schedule) returns (e: Sql)
      modifies `jobs
      ensures e == if row.enabled && !validCron(row.cron) then Raised(BadCron) else Done
      ensures e.Done? ==> jobs == if row.enabled then old(jobs)[v := row.cron] else old(jobs) - {v}
    {
      if v in jobs {
        jobs := jobs - {v};
      }
      if row.enabled {
        if !validCron(row.cron) {
          return Raised(BadCron);
        }
        jobs := jobs[v := row.cron];
      }
      assert !row.enabled ==> jobs == old(jobs) - {v};
      e := Done;
    }

    /** Besides a failing SELECT, which changes nothing, only a stored cron that is not valid
        makes it raise. */
    method ReloadJobs() returns (e: Sql)
      modifies `jobs, `budget
      ensures e.Done? ==> jobs == Reloaded(old(jobs), db.schedules)
      ensures e == Raised(Unavailable) ==> jobs == old(jobs)
      ensures e == Raised(Unavailable) <==> old(budget) == 0
      ensures e in {Done, Raised(Unavailable)} || (e == Raised(BadCron) && !CronsValid(db, validCron))
    {
      e := Done;
      :- Access();
      var rows := db.schedules;
      var todo := rows.Keys;
      ReloadedNone(jobs, rows);
      while todo != {}
        invariant todo <= rows.Keys
        invariant jobs == Reloaded(old(jobs), rows - todo)
      {
        var v := AnyOf(todo);
        ReloadedMore(old(jobs), rows, todo, v);
        e := ReloadJob(v, rows[v]);
        if e.Raised? {
          assert !validCron(db.schedules[v].cron);
          return;
        }
        todo := todo - {v};
      }
      assert rows - todo == rows;
      e := Done;
    }

    /** sync_guests_and_schedules, with SQLite giving out after `statements` statements. */
    method SyncGuestsAndSchedules(found: Option<seq<Discovered>>, listings: Option<Listings>, now: Seconds,
                                  statements: nat) returns (e: Sql)
      requires Valid()
      modifies `db, `work, `jobs, `budget
      ensures Valid()
      ensures e in {Done, Raised(Unavailable)}
      ensures found.None? ==> e.Raised? && Now() == old(Now())
      ensures found.Some? ==> Step(old(Now()), Sync(found.value, listings, now), Now(), e.Done?)
      ensures found.Some? ==> SyncEnds(old(Now()), found.value, listings, now, statements, Now(), e.Done?)
    {
      if found.None? {
        return Raised(Unavailable);
      }
      e := SyncDiscovered(found.value, listings, now, statements);
    }

    method SyncDiscovered(found: seq<Discovered>, listings: Option<Listings>, now: Seconds, statements: nat)
      returns (e: Sql)
      requires Valid()
      modifies `db, `work, `jobs, `budget
      ensures Valid()
      ensures e in {Done, Raised(Unavailable)}
      ensures Step(old(Now()), Sync(found, listings, now), Now(), e.Done?)
      ensures SyncEnds(old(Now()), found, listings, now, statements, Now(), e.Done?)
    {
      budget := statements;
      ghost var s := Now();
      :- Commit(found, listings, now);
      e := Publish(s, found, listings, now);
    }

    method Commit(found: seq<Discovered>, ghost listings: Option<Listings>, now: Seconds) returns (e: Sql)
      requires Valid()
      modifies `db, `work, `jobs, `budget
      ensures e in {Done, Raised(Unavailable)}
      ensures e.Done? ==> db == Reconciled(old(db), found, now) && jobs == old(jobs) - Stale(old(db), found)
      ensures e.Raised? ==> db == old(db) && JobsWithout(old(jobs), jobs, Stale(old(db), found))
      ensures e.Raised? ==> Valid() && Step(old(Now()), Sync(found, listings, now), Now(), false)
      ensures old(budget) <= UpsertStatements(old(db), found) ==> jobs == old(jobs)
      ensures e.Done? <==> old(budget) >= CommitStatements(old(db), found)
      ensures e.Done? ==> budget == old(budget) - CommitStatements(old(db), found)
    {
      work := db;
      ghost var s := Now();
      e := Transaction(found, now);
      if e.Done? {
        db := work;
      } else {
        BrokenTransaction(s, found, listings, now, jobs, validCron);
      }
    }

    // After the commit: the jobs, then the backup status.
    method Publish(ghost s: Stores, found: seq<Discovered>, listings: Option<Listings>, now: Seconds) returns (e: Sql)
      requires Sound(s, validCron) && DefaultsValid(validCron)
      requires db == Reconciled(s.db, found, now) && jobs == s.jobs - Stale(s.db, found)
      modifies `db, `jobs, `budget
      ensures Valid()
      ensures e in {Done, Raised(Unavailable)}
      ensures Step(s, Sync(found, listings, now), Now(), e.Done?)
      ensures e.Done? <==> old(budget) > 0 && listings.Some?
      ensures e.Raised? ==> db == old(db)
      ensures e.Raised? ==> jobs == if old(budget) == 0 then old(jobs) else Reloaded(old(jobs), db.schedules)
    {
      ghost var op := Sync(found, listings, now);
      StepKeepsSound(s, op, Now(), false, validCron);
      :- ReloadJobs();
      StepKeepsSound(s, op, Now(), false, validCron);
      if listings.None? {
        return Raised(Unavailable);
      }
      var status := SyncAll(db.status, db.guests.Keys, listings.value, now);
      db := db.(status := status);
      StepKeepsSound(s, op, Now(), true, validCron);
      e := Done;
    }

    // The `with db.get_conn()` block up to and including its commit.
    method Transaction(found: seq<Discovered>, now: Seconds) returns (e: Sql)
      requires ForeignKeysHold(work)
      modifies `work, `jobs, `budget
      ensures e in {Done, Raised(Unavailable)}
      ensures e.Done? ==>
                && work == Reconciled(old(work), found, now)
                && jobs == old(jobs) - Stale(old(work), found)
      ensures e.Raised? ==> JobsWithout(old(jobs), jobs, Stale(old(work), found))
      ensures old(budget) <= UpsertStatements(old(work), found) ==> jobs == old(jobs)
      ensures e.Done? <==> old(budget) >= CommitStatements(old(work), found)
      ensures e.Done? ==> budget == old(budget) - CommitStatements(old(work), found)
    {
      e := Done;
      :- UpsertGuests(found, now);
      :- Access();
      var stale := work.guests.Keys - Seen(found);
      StaleAfterUpsert(old(work), found, now);
      :- PruneAll(stale);
      :- Access();
      e := Done;
    }

    /** set_schedule; on success it returns whether the guest now has a next run. */
    method SetGuestSchedule(vmid: Vmid, cron: string, enabled: bool, statements: nat)
      returns (r: Result<bool, ScheduleError>)
      requires Valid()
      modifies `db, `work, `jobs, `budget
      ensures Valid()
      ensures vmid !in old(db).guests || !validCron(cron) ==>
                && Now() == old(Now())
                && r == Err(if statements == 0 then Broke(Unavailable)
                            else if vmid !in old(db).guests then GuestNotFound
                            else InvalidCron)
      ensures vmid in old(db).guests && validCron(cron) ==>
                && Step(old(Now()), SetSchedule(vmid, cron, enabled), Now(), r.Ok?)
                && (if statements < 4 then r == Err(Broke(Unavailable))
                    else r == Ok(enabled) && (vmid in jobs <==> enabled))
                && (if statements < 3 then Now() == old(Now())
                    else if statements == 3 then Now() == Edited(old(Now()), vmid, cron, enabled)
                    else Now() == Stores(Edited(old(Now()), vmid, cron, enabled).db,
                                         Reloaded(old(jobs), db.schedules)))
    {
      budget := statements;
      ghost var op := SetSchedule(vmid, cron, enabled);
      ghost var s := Now();
      var e := Access();
      if e.Raised? {
        return Err(Broke(e.error));
      }
      if vmid !in db.guests {
        return Err(GuestNotFound);
      }
      if !validCron(cron) {
        return Err(InvalidCron);
      }
      work := db;
      e := Execute(work.(schedules := work.schedules[vmid := Schedule(cron, enabled)]));
      if e.Raised? {
        return Err(Broke(e.error));
      }
      e := Access();
      if e.Raised? {
        return Err(Broke(e.error));
      }
      db := work;
      StepKeepsSound(s, op, Now(), false, validCron);
      e := ReloadJobs();
      StepKeepsSound(s, op, Now(), e.Done?, validCron);
      if e.Raised? {
        return Err(Broke(e.error));
      }
      return Ok(vmid in jobs);
    }
  }

  // ---------- pruning, one statement at a time ----------

  function DeletedChildren(db: Database, n: nat, vmids: set<Vmid>): Database
    requires n <= |CHILDREN|
  {
    if n == 0 then db else DeleteChild(DeletedChildren(db, n - 1, vmids), CHILDREN[n - 1], vmids)
  }

  lemma DeleteChildKeepsKeys(db: Database, child: Child, vmids: set<Vmid>)
    requires ForeignKeysHold(db)
    ensures ForeignKeysHold(DeleteChild(db, child, vmids))
  {
  }

  /** Only after all five child tables are cleared can the guest go. */
  lemma ChildrenThenGuest(db: Database, vmids: set<Vmid>)
    requires ForeignKeysHold(db)
    ensures var d := DeletedChildren(db, |CHILDREN|, vmids);
            ForeignKeysHold(DeleteGuests(d, vmids)) && DeleteGuests(d, vmids) == Pruned(db, vmids)
  {
    var d1 := DeletedChildren(db, 1, vmids);
    var d2 := DeletedChildren(db, 2, vmids);
    var d3 := DeletedChildren(db, 3, vmids);
    var d4 := DeletedChildren(db, 4, vmids);
    assert DeletedChildren(db, 0, vmids) == db && CHILDREN[0] == Schedules;
    assert d1 == DeleteChild(db, Schedules, vmids);
    assert d2 == DeleteChild(d1, SecurityChecks, vmids);
    assert d3 == DeleteChild(d2, BackupStatuses, vmids);
    assert d4 == DeleteChild(d3, Runs, vmids);
    assert DeletedChildren(db, 5, vmids) == DeleteChild(d4, BackupRuns, vmids);
  }

  lemma SeenBefore(found: seq<Discovered>, i: nat)
    requires i < |found|
    ensures Seen(found[..i + 1]) == Seen(found[..i]) + {found[i].vmid}
  {
    assert found[..i + 1] == found[..i] + [found[i]];
  }

  lemma OneMoreMissing(seen: set<Vmid>, keys: set<Vmid>, v: Vmid)
    ensures |seen + {v} - keys| == |seen - keys| + if v in keys || v in seen then 0 else 1
  {
    if v in keys {
      assert seen + {v} - keys == seen - keys;
    } else if v in seen {
      assert seen + {v} == seen;
    } else {
      assert seen + {v} - keys == (seen - keys) + {v};
    }
  }

  lemma OneMoreUpsert(db: Database, found: seq<Discovered>, now: Seconds, i: nat, u: Database) returns (spent: nat)
    requires i < |found| && u == Registered(db, found[..i], now)
    ensures Registered(db, found[..i + 1], now) == AddSchedule(UpsertGuest(u, found[i], now), found[i])
    ensures UpsertStatements(db, found[..i]) + (if found[i].vmid in u.schedules then 2 else 3)
         == spent == UpsertStatements(db, found[..i + 1]) <= UpsertStatements(db, found)
  {
    assert found[..i + 1][..i] == found[..i];
    RegisteredExactly(db, found[..i], now, found[i].vmid);
    UpsertsGrow(db, found, i + 1);
    spent := UpsertStatements(db, found[..i + 1]);
  }

  lemma {:induction false} UpsertsGrow(db: Database, found: seq<Discovered>, i: nat)
    requires i <= |found|
    ensures UpsertStatements(db, found[..i]) <= UpsertStatements(db, found)
  {
    if i < |found| {
      assert found[..|found| - 1][..i] == found[..i];
      UpsertsGrow(db, found[..|found| - 1], i);
    } else {
      assert found[..i] == found;
    }
  }

  /** One INSERT for each guest that had no schedule, however often it is reported. */
  lemma {:induction false} UpsertsCounted(db: Database, found: seq<Discovered>)
    ensures UpsertStatements(db, found) == 2 * |found| + |Seen(found) - db.schedules.Keys|
  {
    if found == [] {
      assert Seen(found) - db.schedules.Keys == {};
    } else {
      var n := |found| - 1;
      assert found[..n + 1] == found;
      UpsertsCounted(db, found[..n]);
      SeenBefore(found, n);
      OneMoreMissing(Seen(found[..n]), db.schedules.Keys, found[n].vmid);
      RegisteredExactly(db, found[..n], 0, found[n].vmid);
    }
  }

  lemma PrunedNone(db: Database)
    ensures Pruned(db, {}) == db
  {
    assert Pruned(db, {}).status == db.status;
    assert Pruned(db, {}).runs == db.runs;
    assert Pruned(db, {}).backupRuns == db.backupRuns;
  }

  lemma PrunedMore(db: Database, gone: set<Vmid>, vmid: Vmid)
    ensures Pruned(Pruned(db, gone), {vmid}) == Pruned(db, gone + {vmid})
  {
    PrunedMoreRows(db, gone, vmid);
    var a, b := Pruned(Pruned(db, gone), {vmid}), Pruned(db, gone + {vmid});
    assert a.guests == b.guests && a.schedules == b.schedules && a.securityChecks == b.securityChecks;
  }

  lemma PrunedMoreRows(db: Database, gone: set<Vmid>, vmid: Vmid)
    ensures var a, b := Pruned(Pruned(db, gone), {vmid}), Pruned(db, gone + {vmid});
            a.status == b.status && a.runs == b.runs && a.backupRuns == b.backupRuns
  {
  }

  lemma StaleAfterUpsert(db: Database, found: seq<Discovered>, now: Seconds)
    ensures Stale(Registered(db, found, now), found) == Stale(db, found)
  {
    forall v: Vmid
      ensures v in Stale(Registered(db, found, now), found) <==> v in Stale(db, found)
    {
      RegisteredExactly(db, found, now, v);
    }
  }

  lemma ReloadedNone(jobs: Jobs, rows: map<Vmid, Schedule>)
    ensures Reloaded(jobs, rows - rows.Keys) == jobs
  {
    assert rows - rows.Keys == map[];
  }

  lemma ReloadedMore(jobs: Jobs, rows: map<Vmid, Schedule>, todo: set<Vmid>, v: Vmid)
    requires v in rows && v in todo
    ensures var before, after := Reloaded(jobs, rows - todo), Reloaded(jobs, rows - (todo - {v}));
            after == if rows[v].enabled then before[v := rows[v].cron] else before - {v}
  {
  }

  lemma ReloadedAll(jobs: Jobs, schedules: map<Vmid, Schedule>)
    requires forall v | v in jobs :: v in schedules
    ensures Reloaded(jobs, schedules) == EnabledJobs(schedules)
  {
    assert forall v | v in Reloaded(jobs, schedules) :: v in EnabledJobs(schedules);
  }

  // ---------- every run ----------

  lemma ReconciledCronsValid(db: Database, found: seq<Discovered>, now: Seconds, validCron: CronCheck)
    requires ForeignKeysHold(db) && DefaultsValid(validCron)
    requires CronsValid(db, validCron)
    ensures CronsValid(Reconciled(db, found, now), validCron)
  {
    var r := Reconciled(db, found, now);
    forall v | v in r.schedules
      ensures validCron(r.schedules[v].cron)
    {
      ReconciledAt(db, found, now, v);
    }
  }

  lemma StepKeepsSound(s: Stores, op: Op, s': Stores, done: bool, validCron: CronCheck)
    requires Sound(s, validCron) && DefaultsValid(validCron)
    requires Checked(s, op, validCron) && Step(s, op, s', done)
    ensures Sound(s', validCron)
    ensures done ==> Agreed(s')
  {
    match op
    case Sync(found, listings, now) =>
      ReconciledStaysSound(s, found, now, validCron);
      var r := Reconciled(s.db, found, now);
      if done {
        RefreshKeepsKeys(r, listings.value, now);
      } else if s'.db == s.db && JobsWithout(s.jobs, s'.jobs, Stale(s.db, found)) {
        LostJobsStaySound(s, s'.jobs, Stale(s.db, found), validCron);
      }
    case _ =>
      if done {
        ReloadedAll(s.jobs, s'.db.schedules);
      }
  }

  /** What a sync that completes has achieved, from what was found and listed: the guests are the
      discovered ones, the jobs their enabled schedules, and the backup status that of the listings. */
  lemma CompletedSync(s: Stores, op: Op, s': Stores, validCron: CronCheck, k: Key)
    requires op.Sync? && Sound(s, validCron) && DefaultsValid(validCron) && Step(s, op, s', true)
    ensures s'.db.guests.Keys == Seen(op.found) == s'.db.schedules.Keys && Agreed(s')
    ensures op.listings.Some?
            && if k.0 in Seen(op.found)
               then RefreshedRow(s.db.status, s'.db.status, Seen(op.found), op.listings.value, op.now, k)
               else k !in s'.db.status
  {
    StepKeepsSound(s, op, s', true, validCron);
    ReconcileIsExact(s.db, op.found, op.now);
    RefreshedIsExact(s.db, op.found, op.listings.value, op.now, k);
  }

  lemma ReconciledStaysSound(s: Stores, found: seq<Discovered>, now: Seconds, validCron: CronCheck)
    requires Sound(s, validCron) && DefaultsValid(validCron)
    ensures var r, kept := Reconciled(s.db, found, now), s.jobs - Stale(s.db, found);
            && Sound(Stores(r, kept), validCron)
            && Sound(Stores(r, Reloaded(kept, r.schedules)), validCron)
            && Reloaded(kept, r.schedules) == EnabledJobs(r.schedules)
  {
    ReconcileIsExact(s.db, found, now);
    ReconciledCronsValid(s.db, found, now, validCron);
    SurvivorsScheduled(s, found, now);
    ReloadedAll(s.jobs - Stale(s.db, found), Reconciled(s.db, found, now).schedules);
  }

  lemma LostJobsStaySound(s: Stores, jobs: Jobs, gone: set<Vmid>, validCron: CronCheck)
    requires Sound(s, validCron) && JobsWithout(s.jobs, jobs, gone)
    ensures Sound(s.(jobs := jobs), validCron)
  {
  }

  lemma BrokenTransaction(s: Stores, found: seq<Discovered>, listings: Option<Listings>, now: Seconds, jobs: Jobs,
                          validCron: CronCheck)
    requires Sound(s, validCron) && JobsWithout(s.jobs, jobs, Stale(s.db, found))
    ensures Sound(s.(jobs := jobs), validCron)
    ensures Step(s, Sync(found, listings, now), s.(jobs := jobs), false)
  {
    LostJobsStaySound(s, jobs, Stale(s.db, found), validCron);
  }

  lemma SurvivorsScheduled(s: Stores, found: seq<Discovered>, now: Seconds)
    requires ForeignKeysHold(s.db) && forall v | v in s.jobs :: v in s.db.schedules
    ensures forall v | v in s.jobs - Stale(s.db, found) :: v in Reconciled(s.db, found, now).schedules
  {
    forall v | v in s.jobs - Stale(s.db, found)
      ensures v in Reconciled(s.db, found, now).schedules
    {
      ReconciledAt(s.db, found, now, v);
    }
  }

  ghost predicate IsRun(run: seq<Stores>, ops: seq<Op>, done: seq<bool>, validCron: CronCheck) {
    && |run| == |ops| + 1 == |done| + 1
    && forall i | 0 <= i < |ops| ::
         Checked(run[i], ops[i], validCron) && Step(run[i], ops[i], run[i + 1], done[i])
  }

  /** Over every run of syncs, schedule edits and reloads, complete or broken off anywhere:
      foreign keys hold, stored crons stay valid and every guest job has a schedule; and after
      each operation that completes, the guest jobs are exactly the enabled schedules with their
      crons, whatever happened before. */
  lemma {:induction false} JobsFollowSchedules(run: seq<Stores>, ops: seq<Op>, done: seq<bool>,
                                               validCron: CronCheck, i: nat)
    requires IsRun(run, ops, done, validCron) && DefaultsValid(validCron)
    requires Sound(run[0], validCron) && i < |run|
    ensures Sound(run[i], validCron)
    ensures i > 0 && done[i - 1] ==> Agreed(run[i])
  {
    if i > 0 {
      JobsFollowSchedules(run, ops, done, validCron, i - 1);
      assert Step(run[i - 1], ops[i - 1], run[i - 1 + 1], done[i - 1]);
      StepKeepsSound(run[i - 1], ops[i - 1], run[i], done[i - 1], validCron);
    }
  }

  /** A sync that breaks off anywhere leaves, of the agreement it found, a subset: every job it
      leaves is that of an enabled schedule, with its cron. */
  lemma BrokenSyncOnlyLosesJobs(s: Stores, op: Op, s': Stores, validCron: CronCheck)
    requires op.Sync? && Sound(s, validCron) && Agreed(s) && Step(s, op, s', false)
    ensures forall v | v in s'.jobs ::
              v in EnabledJobs(s'.db.schedules) && s'.jobs[v] == EnabledJobs(s'.db.schedules)[v]
  {
    forall v | v in s'.jobs
      ensures v in EnabledJobs(s'.db.schedules) && s'.jobs[v] == EnabledJobs(s'.db.schedules)[v]
    {
      ReconciledAt(s.db, op.found, op.now, v);
    }
  }

  lemma SameEnabledJobs(before: map<Vmid, Schedule>, gone: set<Vmid>, after: map<Vmid, Schedule>)
    requires forall v: Vmid | v in before && before[v].enabled :: v in gone || (v in after && after[v] == before[v])
    requires forall v: Vmid | v in after && after[v].enabled :: v in before && v !in gone && after[v] == before[v]
    ensures EnabledJobs(before) - gone == EnabledJobs(after)
  {
    var kept, wanted := EnabledJobs(before) - gone, EnabledJobs(after);
    forall v: Vmid
      ensures v in kept <==> v in wanted
      ensures v in kept ==> kept[v] == wanted[v]
    {
    }
    assert kept.Keys == wanted.Keys;
  }

  // A guest whose first report does not ask for updates.
  predicate StaysUnscheduled(found: seq<Discovered>, v: Vmid) {
    First(found, v).Some? && !DefaultSchedule(First(found, v).value).enabled
  }

  /** One that breaks off between its COMMIT and its reload leaves them agreed if and only if no
      new guest is to be scheduled. */
  lemma CommittedSyncAgrees(s: Stores, found: seq<Discovered>, now: Seconds)
    requires ForeignKeysHold(s.db) && Agreed(s)
    ensures Agreed(Stores(Reconciled(s.db, found, now), s.jobs - Stale(s.db, found)))
            <==> forall v | v in Seen(found) && v !in s.db.schedules :: StaysUnscheduled(found, v)
  {
    var before, after := s.db.schedules, Reconciled(s.db, found, now).schedules;
    forall v: Vmid
      ensures v in after <==> v in Seen(found)
      ensures v in after ==> First(found, v).Some?
                             && after[v] == if v in before then before[v] else DefaultSchedule(First(found, v).value)
      ensures v in before && v !in Seen(found) ==> v in Stale(s.db, found)
    {
      ReconciledAt(s.db, found, now, v);
    }
    if v :| v in Seen(found) && v !in before && !StaysUnscheduled(found, v) {
      assert v in EnabledJobs(after) && v !in s.jobs;
    } else {
      SameEnabledJobs(before, Stale(s.db, found), after);
    }
  }

  /** A schedule edit that breaks off after its commit is the one step that can leave a wrong
      job, and only for the guest that was edited. */
  lemma BrokenEditIsLocal(s: Stores, op: Op, s': Stores, v: Vmid)
    requires op.SetSchedule? && Agreed(s) && Step(s, op, s', false) && v != op.vmid
    ensures v in s'.jobs <==> v in EnabledJobs(s'.db.schedules)
    ensures v in s'.jobs ==> s'.jobs[v] == EnabledJobs(s'.db.schedules)[v]
  {
  }

  /** For that guest, the committed edit agrees with the jobs left unreloaded if and only if the
      guest already had the job the edit asks for. */
  lemma CommittedEditAgrees(s: Stores, vmid: Vmid, cron: string, enabled: bool)
    requires Agreed(s)
    ensures Agreed(Edited(s, vmid, cron, enabled))
            <==> if enabled then vmid in s.jobs && s.jobs[vmid] == cron else vmid !in s.jobs
  {
    var wanted := EnabledJobs(Edited(s, vmid, cron, enabled).db.schedules);
    assert forall v | v != vmid :: v in wanted <==> v in s.jobs;
    if s.jobs == wanted {
      assert vmid in wanted <==> enabled;
    }
  }
}
