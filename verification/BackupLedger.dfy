/** On-demand backups and their history rows: starting one, running it, and what the ledger
    of `running | ok | failed` rows looks like after any sequence of both. */
module BackupLedger {
  import opened Wrappers
  import opened BackupStatus
  import opened Numbers
  import opened RunHistory

  // A row of backup_runs, under its id.
  datatype Run = Run(vmid: Vmid, startedAt: Seconds, finishedAt: Option<Seconds>, status: RunStatus,
                     summary: Option<string>)

  datatype Ledger = Ledger(runs: map<nat, Run>, nextId: nat)

  datatype Error = GuestNotFound | ForeignKey | ListingFailed | Unavailable

  /** What one run meets: whether SQLite carries out the transaction that finds or inserts the
      row, the storages as listed first and again by vzdump_all_storages, each dump, the
      verification, the listings of the final sync, and whether SQLite answers the SELECT after it
      and carries out the final UPDATE; None is an exception. */
  datatype Outside = Outside(
    opens: bool,
    storages: Option<seq<string>>,
    dumpStorages: Option<seq<string>>,
    dump: nat -> Option<bool>,
    verify: Option<bool>,
    listings: Option<Listings>,
    rereads: bool,
    closes: bool)

  // ---------- the ledger as a value ----------

  function Started(l: Ledger, vmid: Vmid, now: Seconds): Ledger {
    Ledger(l.runs[l.nextId := Run(vmid, now, None, Running, None)], l.nextId + 1)
  }

  // SELECT id … WHERE vmid = ? AND status = 'running' ORDER BY id DESC LIMIT 1
  function NewestRunning(runs: map<nat, Run>, vmid: Vmid, below: nat): (id: Option<nat>)
    ensures id.Some? ==> id.value in runs
  {
    if below == 0 then None
    else
      var id := below - 1;
      if id in runs && runs[id].vmid == vmid && runs[id].status.Running? then Some(id)
      else NewestRunning(runs, vmid, id)
  }

  // The ledger in which the run works, and the id of its row.
  function Claimed(l: Ledger, vmid: Vmid, now: Seconds): (claimed: (Ledger, nat))
    ensures claimed.1 in claimed.0.runs
  {
    match NewestRunning(l.runs, vmid, l.nextId)
    case Some(id) => (l, id)
    case None => (Started(l, vmid, now), l.nextId)
  }

  function Closed(l: Ledger, id: nat, status: RunStatus, summary: string, now: Seconds): Ledger
    requires id in l.runs
  {
    l.(runs := l.runs[id := l.runs[id].(finishedAt := Some(now), status := status, summary := Some(summary))])
  }

  predicate DumpsRaise(o: Outside) {
    o.dumpStorages.None? || exists i | 0 <= i < |o.dumpStorages.value| :: o.dump(i).None?
  }

  predicate DumpsOk(o: Outside) {
    o.dumpStorages.Some? && forall i | 0 <= i < |o.dumpStorages.value| :: o.dump(i) == Some(true)
  }

  // The run reaches its final sync_all: nothing before it raised.
  predicate ReachesSync(o: Outside)
    requires o.storages.Some?
  {
    o.storages.value == [] || (!DumpsRaise(o) && (DumpsOk(o) ==> o.verify.Some?))
  }

  /** The whole chain: there is a storage, every dump and the verification succeed, and nothing
      raises, the final sync and the SELECT after it included. */
  predicate AllWell(o: Outside) {
    && o.storages.Some? && o.storages.value != []
    && DumpsOk(o) && o.verify.Some? && o.verify.value && o.listings.Some? && o.rereads
  }

  /** One dump that fails, one call that raises, no storage, or a verification that fails: each alone
      is enough for a run not to be well, and nothing else is. */
  lemma AllWellExactly(o: Outside)
    ensures AllWell(o) <==>
              !(|| o.storages.None? || o.storages.value == []
                || o.dumpStorages.None?
                || (exists i :: 0 <= i < |o.dumpStorages.value| && o.dump(i) != Some(true))
                || o.verify != Some(true) || o.listings.None? || !o.rereads)
  {
  }

  // The `try` block is entered and the final UPDATE carried out.
  predicate Finishes(o: Outside) {
    o.opens && o.storages.Some? && o.closes
  }

  function Outcome(o: Outside): RunStatus {
    if AllWell(o) then Succeeded else Failed
  }

  function RunSummary(name: string, vmid: Vmid, status: RunStatus): string {
    Summary(Title("lxc-manager backup", name, vmid), status)
  }

  // Rows are numbered below nextId, belong to guests, and have finished iff they are terminal.
  predicate Sound(l: Ledger, guests: set<Vmid>) {
    && (forall id | id in l.runs :: id < l.nextId && l.runs[id].vmid in guests)
    && (forall id | id in l.runs :: l.runs[id].finishedAt.Some? <==> !l.runs[id].status.Running?)
  }

  function RunningIds(l: Ledger, vmid: Vmid): set<nat> {
    set id | id in l.runs && l.runs[id].vmid == vmid && l.runs[id].status.Running?
  }

  lemma {:induction false} NewestRunningIsNewest(runs: map<nat, Run>, vmid: Vmid, below: nat)
    ensures match NewestRunning(runs, vmid, below)
            case Some(id) =>
              && id < below && id in runs && runs[id].vmid == vmid && runs[id].status.Running?
              && forall other | id < other < below && other in runs && runs[other].vmid == vmid ::
                   !runs[other].status.Running?
            case None =>
              forall other | other < below && other in runs && runs[other].vmid == vmid ::
                !runs[other].status.Running?
  {
    if below > 0 {
      NewestRunningIsNewest(runs, vmid, below - 1);
    }
  }

  // ---------- one event ----------

  datatype Event =
    | Start(vmid: Vmid, at: Seconds, inserts: bool)
    | Execute(vmid: Vmid, outside: Outside, at: Seconds, until: Seconds)

  // The ledger after one event of a guest in `guests`, runs of one guest not overlapping.
  function After(l: Ledger, e: Event, guests: map<Vmid, string>): Ledger
    requires e.vmid in guests
  {
    match e
    case Start(vmid, at, inserts) => if inserts then Started(l, vmid, at) else l
    case Execute(vmid, o, at, until) =>
      if !o.opens then l
      else
        var (claimed, id) := Claimed(l, vmid, at);
        if Finishes(o) then Closed(claimed, id, Outcome(o), RunSummary(guests[vmid], vmid, Outcome(o)), until)
        else claimed
  }

  // ---------- the module's state ----------

  class Backups {
    var guests: map<Vmid, string>   // names, by vmid
    var status: StatusTable
    var ledger: Ledger
    var pending: set<Vmid>

    ghost predicate Valid()
      reads this
    {
      Sound(ledger, guests.Keys)
    }

    constructor (guests: map<Vmid, string>)
      ensures Valid() && this.guests == guests
      ensures status == map[] && ledger == Ledger(map[], 0) && pending == {}
    {
      this.guests, status, ledger, pending := guests, map[], Ledger(map[], 0), {};
    }

    /** The guest is pending before the row is inserted, and stays so if the insert fails. */
    method BeginRun(vmid: Vmid, now: Seconds, inserts: bool) returns (r: Result<(), Error>)
      requires Valid()
      modifies `ledger, `pending
      ensures Valid() && pending == old(pending) + {vmid}
      ensures r == if !inserts then Err(Unavailable) else if vmid !in guests then Err(ForeignKey) else Ok(())
      ensures ledger == if vmid in guests then After(old(ledger), Start(vmid, now, inserts), guests) else old(ledger)
    {
      pending := pending + {vmid};
      if !inserts {
        return Err(Unavailable);
      }
      if vmid !in guests {
        return Err(ForeignKey);
      }
      ledger := Started(ledger, vmid, now);
      return Ok(());
    }

    method StartBackup(vmid: Vmid, now: Seconds, answers: bool, inserts: bool) returns (r: Result<(), Error>)
      requires Valid()
      modifies `ledger, `pending
      ensures Valid()
      ensures !answers || vmid !in guests ==>
                r == Err(if answers then GuestNotFound else Unavailable) && unchanged(this)
      ensures answers && vmid in guests ==>
                && r == (if inserts then Ok(()) else Err(Unavailable))
                && ledger == After(old(ledger), Start(vmid, now, inserts), guests)
                && pending == old(pending) + {vmid}
    {
      if !answers {
        return Err(Unavailable);
      }
      if vmid !in guests {
        return Err(GuestNotFound);
      }
      r := BeginRun(vmid, now, inserts);
    }

    // vzdump on every storage, one after the other; None when a call raised.
    static method VzdumpAllStorages(o: Outside) returns (results: Option<seq<(string, bool)>>)
      ensures results.None? <==> DumpsRaise(o)
      ensures results.Some? ==>
                && |results.value| == |o.dumpStorages.value|
                && forall i | 0 <= i < |results.value| ::
                     o.dump(i).Some? && results.value[i] == (o.dumpStorages.value[i], o.dump(i).value)
      ensures results.Some? ==> (DumpsOk(o) <==> forall r | r in results.value :: r.1)
    {
      if o.dumpStorages.None? {
        return None;
      }
      var storages := o.dumpStorages.value;
      var done: seq<(string, bool)> := [];
      for i := 0 to |storages|
        invariant |done| == i
        invariant forall j | 0 <= j < i :: o.dump(j) == Some(done[j].1) && done[j].0 == storages[j]
      {
        if o.dump(i).None? {
          return None;
        }
        done := done + [(storages[i], o.dump(i).value)];
      }
      assert forall j | 0 <= j < |storages| :: o.dump(j) == Some(done[j].1);
      assert forall j | 0 <= j < |storages| :: done[j] in done;
      results := Some(done);
    }

    // Every dump, then the verification if they all succeeded; None when a call raised.
    static method RunChain(o: Outside) returns (allOk: Option<bool>)
      ensures allOk.None? <==> DumpsRaise(o) || (DumpsOk(o) && o.verify.None?)
      ensures allOk.Some? ==> (allOk.value <==> DumpsOk(o) && o.verify.Some? && o.verify.value)
    {
      var results := VzdumpAllStorages(o);
      if results.None? {
        return None;
      }
      var dumped := true;
      for i := 0 to |results.value|
        invariant dumped <==> forall r | r in results.value[..i] :: r.1
      {
        assert results.value[..i + 1] == results.value[..i] + [results.value[i]];
        if !results.value[i].1 {
          dumped := false;
        }
      }
      assert results.value[..|results.value|] == results.value;
      if !dumped {
        return Some(false);
      }
      if o.verify.None? {
        return None;
      }
      return Some(o.verify.value);
    }

    // The newest running row of the guest, or a new one.
    method ClaimRow(vmid: Vmid, now: Seconds) returns (r: Result<nat, Error>)
      requires Valid()
      modifies `ledger
      ensures Valid()
      ensures if vmid in guests
              then r == Ok(Claimed(old(ledger), vmid, now).1) && ledger == Claimed(old(ledger), vmid, now).0
                   && r.value in ledger.runs
              else r == Err(ForeignKey) && ledger == old(ledger)
    {
      NewestRunningIsNewest(ledger.runs, vmid, ledger.nextId);
      var row := NewestRunning(ledger.runs, vmid, ledger.nextId);
      if row.Some? {
        return Ok(row.value);
      }
      if vmid !in guests {
        return Err(ForeignKey);
      }
      r := Ok(ledger.nextId);
      ledger := Started(ledger, vmid, now);
    }

    // The `try` block and its handler.
    method Try(o: Outside, later: Seconds) returns (outcome: RunStatus)
      requires o.storages.Some?
      modifies `status
      ensures outcome == Outcome(o)
      ensures status == if ReachesSync(o) && o.listings.Some?
                        then Synced(old(status), guests.Keys, o.listings.value, later)
                        else old(status)
    {
      outcome := Failed;
      if o.storages.value != [] {
        var chain := RunChain(o);
        if chain.None? {
          return Failed;
        }
        outcome := if chain.value then Succeeded else Failed;
      }
      if o.listings.None? {
        return Failed;
      }
      status := SyncAll(status, guests.Keys, o.listings.value, later);
      if !o.rereads {
        return Failed;
      }
    }

    /** One on-demand backup. For a known guest whose run finishes, the returned flag, the recorded
        status and AllWell say the same, its newest running row (or a new one) is closed, and it is
        no longer pending. A first listing or a final UPDATE that raises is not covered by the
        handler: the row stays running and the guest pending. An unknown guest cannot even get a
        row. */
    method RunBackupNow(vmid: Vmid, o: Outside, now: Seconds, later: Seconds) returns (r: Result<bool, Error>)
      requires Valid()
      modifies `status, `ledger, `pending
      ensures Valid()
      ensures !o.opens || vmid !in guests ==>
                r == Err(if o.opens then ForeignKey else Unavailable)
                && ledger == old(ledger) && status == old(status)
      ensures vmid in guests ==> ledger == After(old(ledger), Execute(vmid, o, now, later), guests)
      ensures vmid in guests && o.opens && o.storages.None? ==> r == Err(ListingFailed) && status == old(status)
      ensures vmid in guests && o.opens && o.storages.Some? ==>
                && r == (if o.closes then Ok(AllWell(o)) else Err(Unavailable))
                && status == (if ReachesSync(o) && o.listings.Some?
                              then Synced(old(status), guests.Keys, o.listings.value, later)
                              else old(status))
      ensures pending == if r.Ok? then old(pending) - {vmid} else old(pending) + {vmid}
      ensures r.Ok? ==> var row := RowOf(ledger, Claimed(old(ledger), vmid, now).1);
                        && row.vmid == vmid && row.status == (if r.value then Succeeded else Failed)
                        && row.finishedAt == Some(later)
    {
      pending := pending + {vmid};
      if !o.opens {
        return Err(Unavailable);
      }
      ghost var l := ledger;
      var id :- ClaimRow(vmid, now);
      if o.storages.None? {
        return Err(ListingFailed);
      }
      var outcome := Try(o, later);
      if !o.closes {
        return Err(Unavailable);
      }
      ledger := Closed(ledger, id, outcome, RunSummary(guests[vmid], vmid, outcome), later);
      StepKeepsLedger(l, Execute(vmid, o, now, later), guests);
      ExecutedRow(l, Execute(vmid, o, now, later), guests);
      pending := pending - {vmid};
      return Ok(outcome.Succeeded?);
    }
  }

  // ---------- whole histories of one panel ----------

  function Replay(l: Ledger, es: seq<Event>, guests: map<Vmid, string>): Ledger
    requires forall e | e in es :: e.vmid in guests
    decreases |es|
  {
    if es == [] then l else Replay(After(l, es[0], guests), es[1..], guests)
  }

  // The number of running rows of a guest: up by one per start, down by one but not below zero
  // per run that finishes, at least one after a run that only got its row.
  function Counter(n: nat, es: seq<Event>, vmid: Vmid): nat
    decreases |es|
  {
    if es == [] then n
    else
      var next :=
        if es[0].vmid != vmid then n
        else match es[0]
             case Start(_, _, inserts) => if inserts then n + 1 else n
             case Execute(_, o, _, _) =>
               if !o.opens then n
               else if Finishes(o) then (if n == 0 then 0 else n - 1)
               else if n == 0 then 1 else n;
      Counter(next, es[1..], vmid)
  }

  lemma StepKeepsLedger(l: Ledger, e: Event, guests: map<Vmid, string>)
    requires Sound(l, guests.Keys) && e.vmid in guests
    ensures Sound(After(l, e, guests), guests.Keys)
    ensures forall id | id in l.runs && !l.runs[id].status.Running? ::
              id in After(l, e, guests).runs && After(l, e, guests).runs[id] == l.runs[id]
  {
    NewestRunningIsNewest(l.runs, e.vmid, l.nextId);
  }

  // A row that is there.
  function RowOf(l: Ledger, id: nat): Run {
    if id in l.runs then l.runs[id] else Run(0, 0, None, Running, None)
  }

  /** A start adds one running row under the next id, and changes no other. */
  lemma StartedRow(l: Ledger, e: Event, guests: map<Vmid, string>)
    requires Sound(l, guests.Keys) && e.Start? && e.inserts && e.vmid in guests
    ensures var l' := After(l, e, guests);
            && l'.runs.Keys == l.runs.Keys + {l.nextId} && l.nextId !in l.runs && l'.nextId == l.nextId + 1
            && RowOf(l', l.nextId) == Run(e.vmid, e.at, None, Running, None)
            && forall id | id in l.runs :: RowOf(l', id) == l.runs[id]
  {
  }

  /** A run works on one row: the guest's newest running one, or a new one under the next id if it
      has none. No other row changes. If it finishes, the row records what happened: ok exactly if
      all went well, failed otherwise; if it does not, the row is running and as it was. */
  lemma ExecutedRow(l: Ledger, e: Event, guests: map<Vmid, string>)
    requires Sound(l, guests.Keys) && e.Execute? && e.vmid in guests
    ensures !e.outside.opens ==> After(l, e, guests) == l
    ensures e.outside.opens ==>
              var l', id := After(l, e, guests), Claimed(l, e.vmid, e.at).1;
              && (if exists other :: other in RunningIds(l, e.vmid)
                  then id in RunningIds(l, e.vmid) && (forall other | other in RunningIds(l, e.vmid) :: other <= id)
                       && l'.nextId == l.nextId
                  else id == l.nextId && id !in l.runs && l'.nextId == l.nextId + 1)
              && l'.runs.Keys == l.runs.Keys + {id}
              && (forall other | other in l.runs && other != id :: RowOf(l', other) == l.runs[other])
              && RecordedRow(if id in l.runs then l.runs[id] else Run(e.vmid, e.at, None, Running, None),
                             RowOf(l', id), e, guests[e.vmid])
  {
    NewestRunningIsNewest(l.runs, e.vmid, l.nextId);
    SummaryText("lxc-manager backup", guests[e.vmid], e.vmid, Outcome(e.outside));
  }

  // The claimed row before and after the run.
  predicate RecordedRow(claimed: Run, row: Run, e: Event, name: string)
    requires e.Execute?
  {
    if Finishes(e.outside) then
      && row.vmid == claimed.vmid == e.vmid && row.startedAt == claimed.startedAt && row.finishedAt == Some(e.until)
      && (row.status == Succeeded <==> AllWell(e.outside)) && (row.status == Failed <==> !AllWell(e.outside))
      && row.summary == Some("lxc-manager backup" + " · " + name + " (" + PrintInt(e.vmid) + ") → "
                             + if AllWell(e.outside) then "ok" else "failed")
    else row == claimed && row.status.Running?
  }

  lemma StartedIds(l: Ledger, guests: map<Vmid, string>, v: Vmid, now: Seconds, vmid: Vmid)
    requires Sound(l, guests.Keys)
    ensures RunningIds(Started(l, v, now), vmid) == RunningIds(l, vmid) + (if v == vmid then {l.nextId} else {})
    ensures l.nextId !in RunningIds(l, vmid)
  {
  }

  lemma ClosedIds(l: Ledger, id: nat, s: RunStatus, summary: string, now: Seconds, vmid: Vmid)
    requires id in l.runs && !s.Running?
    ensures RunningIds(Closed(l, id, s, summary, now), vmid) == RunningIds(l, vmid) - {id}
  {
  }

  lemma ClaimedIds(l: Ledger, guests: map<Vmid, string>, v: Vmid, now: Seconds, vmid: Vmid)
    requires Sound(l, guests.Keys)
    ensures var (c, id) := Claimed(l, v, now);
            && id in c.runs && (id in RunningIds(c, vmid) <==> v == vmid)
            && |RunningIds(c, vmid)| == if v == vmid && |RunningIds(l, vmid)| == 0 then 1 else |RunningIds(l, vmid)|
  {
    NewestRunningIsNewest(l.runs, v, l.nextId);
    StartedIds(l, guests, v, now, vmid);
    if NewestRunning(l.runs, v, l.nextId).None? {
      assert RunningIds(l, v) == {};
    } else if v == vmid {
      assert NewestRunning(l.runs, v, l.nextId).value in RunningIds(l, v);
    }
  }

  lemma StepCounts(l: Ledger, e: Event, guests: map<Vmid, string>, vmid: Vmid)
    requires Sound(l, guests.Keys) && e.vmid in guests
    ensures |RunningIds(After(l, e, guests), vmid)| == Counter(|RunningIds(l, vmid)|, [e], vmid)
  {
    assert [e][1..] == [];
    match e
    case Start(v, at, _) => StartedIds(l, guests, v, at, vmid);
    case Execute(v, o, at, until) =>
      ClaimedIds(l, guests, v, at, vmid);
      var (c, id) := Claimed(l, v, at);
      ClosedIds(c, id, Outcome(o), RunSummary(guests[v], v, Outcome(o)), until, vmid);
  }

  /** A run leaves no row of its guest running if and only if it finishes and found at most one,
      or found none and could not insert one. */
  lemma LeavesNoneRunning(l: Ledger, e: Event, guests: map<Vmid, string>)
    requires Sound(l, guests.Keys) && e.Execute? && e.vmid in guests
    ensures var n := |RunningIds(l, e.vmid)|;
            RunningIds(After(l, e, guests), e.vmid) == {}
            <==> if e.outside.opens then Finishes(e.outside) && n <= 1 else n == 0
  {
    assert [e][1..] == [];
    StepCounts(l, e, guests, e.vmid);
  }

  /** Over any history: rows that finished keep every field for ever, a row has a finishing time
      exactly when it is terminal, and the running rows of each guest are counted by the
      saturating counter. */
  lemma {:induction false} LedgerHistory(l: Ledger, es: seq<Event>, guests: map<Vmid, string>, vmid: Vmid)
    requires Sound(l, guests.Keys) && forall e | e in es :: e.vmid in guests
    decreases |es|
    ensures Sound(Replay(l, es, guests), guests.Keys)
    ensures forall id | id in l.runs && !l.runs[id].status.Running? ::
              id in Replay(l, es, guests).runs && Replay(l, es, guests).runs[id] == l.runs[id]
    ensures |RunningIds(Replay(l, es, guests), vmid)| == Counter(|RunningIds(l, vmid)|, es, vmid)
  {
    if es != [] {
      StepKeepsLedger(l, es[0], guests);
      StepCounts(l, es[0], guests, vmid);
      LedgerHistory(After(l, es[0], guests), es[1..], guests, vmid);
      assert [es[0]][1..] == [];
    }
  }
}
