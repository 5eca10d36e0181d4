/** One update run of a guest: optional backup, packages, application, health check, and the
    row that records it. */
module UpdateRunner {
  import opened Wrappers
  import opened Text
  import opened BackupStatus
  import opened RunHistory

  datatype RunRow = RunRow(
    vmid: Vmid, startedAt: Seconds, finishedAt: Option<Seconds>, status: RunStatus,
    summary: Option<string>, detail: Option<string>, phase: string)

  datatype Guest = Guest(
    name: string, kind: string, osFamily: string, osId: string, updateSupported: bool, appType: string)

  datatype ActionResult = ActionResult(ok: bool, output: string)

  /** What one run meets: whether SQLite answers the first SELECT, carries out the INSERT and the
      final UPDATE, and how many phase updates it carries out; what the calls return, None being an
      exception. backup carries the flag of the backups module and the lines of its report. */
  datatype Outside = Outside(
    selects: bool,
    inserts: bool,
    backup: Option<(bool, seq<string>)>,
    apt: Option<ActionResult>,
    appUpdate: Option<ActionResult>,
    appVersion: Option<ActionResult>,
    health: Option<ActionResult>,
    phaseWrites: nat,
    closes: bool)

  const APP_UPDATE_MODE: map<string, string> := map[
    "adguard" := "auto",
    "glance" := "check-only",
    "ddns" := "check-only",
    "gitea" := "check-only",
    "npm" := "none",
    "docker-host" := "none"
  ]

  function Mode(appType: string): string {
    if appType in APP_UPDATE_MODE then APP_UPDATE_MODE[appType] else "check-only"
  }

  // output[-n:]
  function Tail(s: string, n: nat): string {
    if |s| <= n then s else s[|s| - n..]
  }

  /** Of a long output the end is kept. */
  lemma TailKeepsEnd(start: string, end: string)
    ensures Tail(start + end, |end|) == end
    ensures Tail(end, |start| + |end|) == end
  {
  }

  function YesNo(b: bool): string {
    if b then "yes" else "no"
  }

  function RunTitle(vmid: Vmid, guest: Guest): string {
    Title("lxc-manager", guest.name, vmid)
  }

  // The first two lines of a report.
  function Heading(vmid: Vmid, guest: Guest, withBackup: bool): seq<string> {
    [RunTitle(vmid, guest),
     "guest: " + guest.kind + " · os=" + guest.osId + " (" + guest.osFamily + ") · updates="
     + YesNo(guest.updateSupported) + " · pre-backup=" + YesNo(withBackup)]
  }

  predicate Healthy(res: ActionResult) {
    res.ok && Strip(res.output) != "" && Strip(res.output) != "000"
  }

  /** Which answers are healthy: the call succeeded, and its output, without surrounding blanks, is
      something other than nothing and other than curl's code for no connection. */
  lemma HealthyAnswers(ok: bool, left: string, text: string, right: string)
    requires Blank(left) && Blank(right) && Stripped(text)
    ensures Healthy(ActionResult(ok, left + text + right)) <==> ok && text != "" && text != "000"
  {
    if text == [] {
      assert left + text + right == left + right;
      StripBlank(left + right);
    } else {
      StripPadded(left, text, right);
    }
  }

  // The settings a run depends on besides the guest: is it a VM, and is it in VM_GUESTS.
  datatype Target = Target(guest: Guest, reachable: bool) {
    predicate IsVm() {
      guest.kind == "qemu" || reachable
    }

    predicate RunsApt() {
      guest.updateSupported && (IsVm() ==> reachable)
    }

    predicate RunsAppUpdate() {
      !IsVm() && Mode(guest.appType) == "auto"
    }

    predicate RunsAppVersion() {
      !IsVm() && Mode(guest.appType) == "check-only"
    }

    predicate RunsHealth() {
      !IsVm() && guest.appType != "unknown"
    }
  }

  // The phase updates of a whole run, after the first.
  function Phases(t: Target, withBackup: bool): nat {
    (if withBackup then 2 else 1) + 1
    + (if t.RunsAppUpdate() || t.RunsAppVersion() then 1 else 0)
    + (if t.RunsHealth() then 1 else 0)
  }

  predicate NothingRaises(t: Target, withBackup: bool, o: Outside) {
    && (withBackup ==> o.backup.Some?)
    && (t.RunsApt() ==> o.apt.Some?)
    && (t.RunsAppUpdate() ==> o.appUpdate.Some?)
    && (t.RunsAppVersion() ==> o.appVersion.Some?)
    && (t.RunsHealth() ==> o.health.Some?)
    && o.phaseWrites > Phases(t, withBackup)
  }

  /** A run is ok if nothing raised, a requested backup succeeded, packages were upgraded wherever
      the OS supports it, which takes an SSH target for a VM, and the health check of a container
      with a known application passed. What app-update and app-version report does not matter. */
  predicate RunOk(t: Target, withBackup: bool, o: Outside) {
    && NothingRaises(t, withBackup, o)
    && (withBackup ==> o.backup.value.0)
    && (t.guest.updateSupported ==> t.RunsApt() && o.apt.value.ok)
    && (t.RunsHealth() ==> Healthy(o.health.value))
  }

  /** For a container, written out: its packages, its application by type, and the answer of the
      health check, with the phases that have to be stored for it to get that far. */
  lemma ContainerRunOk(t: Target, withBackup: bool, o: Outside)
    requires t.guest.kind != "qemu" && !t.reachable
    ensures var app := t.guest.appType;
            RunOk(t, withBackup, o) <==>
              && (withBackup ==> o.backup.Some? && o.backup.value.0)
              && (t.guest.updateSupported ==> o.apt.Some? && o.apt.value.ok)
              && (app == "adguard" ==> o.appUpdate.Some?)
              && (app !in {"adguard", "npm", "docker-host"} ==> o.appVersion.Some?)
              && (app != "unknown" ==> o.health.Some? && Healthy(o.health.value))
              && o.phaseWrites >= (if withBackup then 4 else 3)
                                  + (if app in {"npm", "docker-host"} then 0 else 1)
                                  + (if app == "unknown" then 0 else 1)
  {
  }

  /** A container with a known application whose health check fails, or answers nothing or 000, is
      never recorded ok. */
  lemma UnhealthyRunFails(t: Target, withBackup: bool, o: Outside, left: string, text: string, right: string)
    requires t.guest.kind != "qemu" && !t.reachable && t.guest.appType != "unknown"
    requires o.health.Some? && o.health.value.output == left + text + right
    requires Blank(left) && Blank(right) && Stripped(text)
    requires !o.health.value.ok || text == "" || text == "000"
    ensures !RunOk(t, withBackup, o)
  {
    HealthyAnswers(o.health.value.ok, left, text, right);
  }

  /** For a VM, by type or by being one of the VMs with an SSH target: nothing but backup and
      packages, which an unreachable one that should be upgraded fails. */
  lemma VmRunOk(t: Target, withBackup: bool, o: Outside)
    requires t.guest.kind == "qemu" || t.reachable
    ensures RunOk(t, withBackup, o) <==>
              && (withBackup ==> o.backup.Some? && o.backup.value.0)
              && (t.guest.updateSupported ==> t.reachable && o.apt.Some? && o.apt.value.ok)
              && o.phaseWrites >= (if withBackup then 4 else 3)
  {
  }

  // ---------- the report ----------

  function BackupLines(withBackup: bool, o: Outside): seq<string>
    requires withBackup ==> o.backup.Some?
  {
    if !withBackup then ["backup: skipped (not requested)"]
    else o.backup.value.1 + [if o.backup.value.0 then "backup: ok (recorded in backups module)"
                             else "backup: FAILED (see backups history)"]
  }

  function PackagesLines(t: Target, o: Outside): seq<string>
    requires t.RunsApt() ==> o.apt.Some?
  {
    if t.RunsApt() then
      [if o.apt.value.ok then "apt-upgrade: ok" else "apt-upgrade: FAILED", Tail(o.apt.value.output, 800)]
    else if t.guest.updateSupported then ["os-update: skipped (VM not in VM_GUESTS — no SSH target)"]
    else if t.guest.osFamily == "windows" then ["os-update: skipped (Windows — OS updates disabled)"]
    else ["os-update: skipped (unsupported os_id=" + t.guest.osId + ")"]
  }

  function ApplicationLines(t: Target, o: Outside): seq<string>
    requires (t.RunsAppUpdate() ==> o.appUpdate.Some?) && (t.RunsAppVersion() ==> o.appVersion.Some?)
  {
    if t.RunsAppUpdate() then
      ["app-update (" + t.guest.appType + "): " + (if o.appUpdate.value.ok then "ok" else "FAILED"),
       Tail(o.appUpdate.value.output, 400)]
    else if t.RunsAppVersion() then
      ["app-version (" + t.guest.appType + "): " + Strip(o.appVersion.value.output)]
    else []
  }

  function HealthLines(t: Target, o: Outside): seq<string>
    requires t.RunsHealth() ==> o.health.Some?
  {
    if t.RunsHealth() then
      ["health-check: " + Strip(o.health.value.output) + (if Healthy(o.health.value) then " (ok)" else " (CHECK)")]
    else []
  }

  // What a run in which nothing raises adds to its heading.
  function Report(t: Target, withBackup: bool, o: Outside): seq<string>
    requires NothingRaises(t, withBackup, o)
  {
    SystemLines(t, withBackup, o) + ContainerLines(t, o)
  }

  function SystemLines(t: Target, withBackup: bool, o: Outside): seq<string>
    requires (withBackup ==> o.backup.Some?) && (t.RunsApt() ==> o.apt.Some?)
  {
    BackupLines(withBackup, o) + PackagesLines(t, o)
  }

  function ContainerLines(t: Target, o: Outside): seq<string>
    requires (t.RunsAppUpdate() ==> o.appUpdate.Some?) && (t.RunsAppVersion() ==> o.appVersion.Some?)
    requires t.RunsHealth() ==> o.health.Some?
  {
    ApplicationLines(t, o) + HealthLines(t, o)
  }

  function SystemPhases(withBackup: bool): nat {
    if withBackup then 3 else 2
  }

  predicate SystemAnswers(t: Target, withBackup: bool, o: Outside, writes: nat) {
    (withBackup ==> o.backup.Some?) && (t.RunsApt() ==> o.apt.Some?) && writes >= SystemPhases(withBackup)
  }

  predicate SystemOk(t: Target, withBackup: bool, o: Outside)
    requires (withBackup ==> o.backup.Some?) && (t.RunsApt() ==> o.apt.Some?)
  {
    (withBackup ==> o.backup.value.0) && (t.guest.updateSupported ==> t.RunsApt() && o.apt.value.ok)
  }

  predicate ContainerAnswers(t: Target, o: Outside, writes: nat) {
    && (t.RunsAppUpdate() ==> o.appUpdate.Some?) && (t.RunsAppVersion() ==> o.appVersion.Some?)
    && (t.RunsHealth() ==> o.health.Some?)
    && writes >= (if t.RunsAppUpdate() || t.RunsAppVersion() then 1 else 0) + (if t.RunsHealth() then 1 else 0)
  }

  predicate ContainerOk(t: Target, o: Outside)
    requires t.RunsHealth() ==> o.health.Some?
  {
    t.RunsHealth() ==> Healthy(o.health.value)
  }

  // Each of these reports, written out, is the beginning of the text.
  ghost predicate AllBegin(told: seq<seq<string>>, whole: string) {
    forall i | 0 <= i < |told| :: Join(told[i], "\n") <= whole
  }

  ghost predicate AllPrefixes(told: seq<seq<string>>, lines: seq<string>) {
    forall i | 0 <= i < |told| :: told[i] != [] && told[i] <= lines
  }

  lemma PrefixesBegin(told: seq<seq<string>>, lines: seq<string>)
    requires AllPrefixes(told, lines)
    ensures AllBegin(told, Join(lines, "\n"))
  {
    forall i | 0 <= i < |told|
      ensures Join(told[i], "\n") <= Join(lines, "\n")
    {
      assert lines == told[i] + lines[|told[i]|..];
      JoinExtends(told[i], lines[|told[i]|..], "\n");
    }
  }

  lemma InTwoSteps(before: seq<string>, a: seq<string>, b: seq<string>, between: seq<string>, after: seq<string>)
    requires between == before + a && after == between + b
    ensures after == before + (a + b)
  {
  }

  // The conditions of the two halves are those of the whole.
  lemma PartsDecide(t: Target, withBackup: bool, o: Outside, writes: nat)
    requires writes + 1 == o.phaseWrites && SystemAnswers(t, withBackup, o, writes)
    ensures NothingRaises(t, withBackup, o) <==> ContainerAnswers(t, o, writes - SystemPhases(withBackup))
    ensures NothingRaises(t, withBackup, o) ==>
              (RunOk(t, withBackup, o) <==> SystemOk(t, withBackup, o) && ContainerOk(t, o))
  {
  }

  // The newest row of a guest.
  function NewestRow(runs: map<nat, RunRow>, vmid: Vmid, below: nat): Option<RunRow> {
    if below == 0 then None
    else if below - 1 in runs && runs[below - 1].vmid == vmid then Some(runs[below - 1])
    else NewestRow(runs, vmid, below - 1)
  }

  // `running` in get_update_controls
  predicate ShownRunning(runs: map<nat, RunRow>, nextId: nat, pending: set<Vmid>, vmid: Vmid) {
    || vmid in pending
    || (var newest := NewestRow(runs, vmid, nextId); newest.Some? && newest.value.status.Running?)
  }

  datatype Error = GuestNotFound | Unavailable

  class Runner {
    const vmGuests: set<Vmid>
    var guests: map<Vmid, Guest>
    var runs: map<nat, RunRow>
    var nextId: nat
    var pending: set<Vmid>

    // the report of the run in progress, and every report stored for it
    var lines: seq<string>
    var budget: nat
    ghost var told: seq<seq<string>>
    ghost var title: string

    ghost predicate Reporting(id: nat)
      reads this
    {
      && id in runs && lines != [] && lines[0] == title && AllPrefixes(told, lines)
      && (told != [] ==> runs[id].detail == Some(Join(told[|told| - 1], "\n")))
    }

    constructor (guests: map<Vmid, Guest>, vmGuests: set<Vmid>)
      ensures this.guests == guests && this.vmGuests == vmGuests
      ensures runs == map[] && nextId == 0 && pending == {}
    {
      this.guests, this.vmGuests, runs, nextId, pending := guests, vmGuests, map[], 0, {};
      lines, budget, told, title := [], 0, [], "";
    }

    // service.start_update
    method StartUpdate(vmid: Vmid) returns (r: Result<(), Error>)
      modifies `pending
      ensures if vmid in guests then r == Ok(()) && pending == old(pending) + {vmid}
                                     && ShownRunning(runs, nextId, pending, vmid)
              else r == Err(GuestNotFound) && pending == old(pending)
    {
      if vmid !in guests {
        return Err(GuestNotFound);
      }
      pending := pending + {vmid};
      return Ok(());
    }

    method Append(id: nat, more: seq<string>)
      requires Reporting(id)
      modifies `lines
      ensures Reporting(id) && lines == old(lines) + more
    {
      lines := lines + more;
    }

    /** Stores the phase and the report so far; false when SQLite raised. */
    method SetPhase(id: nat, phase: string) returns (ok: bool)
      requires Reporting(id)
      modifies `runs, `budget, `told
      ensures Reporting(id) && OnlyRow(id)
      ensures ok <==> old(budget) > 0
      ensures budget == if ok then old(budget) - 1 else 0
      ensures runs == if ok then old(runs)[id := old(runs)[id].(phase := phase, detail := Some(Join(lines, "\n")))]
                      else old(runs)
      ensures told == if ok then old(told) + [lines] else old(told)
    {
      ok := budget > 0;
      if ok {
        budget := budget - 1;
        runs := runs[id := runs[id].(phase := phase, detail := Some(Join(lines, "\n")))];
        told := told + [lines];
      }
    }

    // Only the row of the run changes, in its phase and detail, and what was told stays told.
    twostate predicate OnlyRow(id: nat)
      reads this
    {
      && old(told) <= told
      && id in old(runs) && id in runs && runs - {id} == old(runs) - {id}
      && runs[id] == old(runs)[id].(phase := runs[id].phase, detail := runs[id].detail)
    }

    // 1. The optional backup. Each part returns None when something raised, or else whether it
    // keeps the run ok.
    method BackupPart(id: nat, withBackup: bool, o: Outside) returns (r: Option<bool>)
      requires Reporting(id)
      modifies `runs, `budget, `told, `lines
      ensures Reporting(id) && OnlyRow(id)
      ensures r.Some? <==> (withBackup ==> o.backup.Some?) && old(budget) >= (if withBackup then 2 else 1)
      ensures r.Some? ==> && r.value == (withBackup ==> o.backup.value.0)
                          && budget == old(budget) - (if withBackup then 2 else 1)
                          && lines == old(lines) + BackupLines(withBackup, o)
    {
      if !withBackup {
        Append(id, ["backup: skipped (not requested)"]);
        var ok := SetPhase(id, "backup skipped");
        return if ok then Some(true) else None;
      }
      r := RequestedBackup(id, o);
    }

    method RequestedBackup(id: nat, o: Outside) returns (r: Option<bool>)
      requires Reporting(id)
      modifies `runs, `budget, `told, `lines
      ensures Reporting(id) && OnlyRow(id)
      ensures r.Some? <==> o.backup.Some? && old(budget) >= 2
      ensures r.Some? ==> && r.value == o.backup.value.0 && budget == old(budget) - 2
                          && lines == old(lines) + BackupLines(true, o)
    {
      var ok := SetPhase(id, "backup (backups module)");
      if !ok || o.backup.None? {
        return None;
      }
      var backupOk, report := o.backup.value.0, o.backup.value.1;
      var verdict := [if backupOk then "backup: ok (recorded in backups module)"
                      else "backup: FAILED (see backups history)"];
      ghost var before := lines;
      Append(id, report);
      ghost var between := lines;
      Append(id, verdict);
      InTwoSteps(before, report, verdict, between, lines);
      ok := SetPhase(id, "backup done");
      return if ok then Some(backupOk) else None;
    }

    // 2. System packages.
    method PackagesPart(id: nat, t: Target, o: Outside) returns (r: Option<bool>)
      requires Reporting(id)
      modifies `runs, `budget, `told, `lines
      ensures Reporting(id) && OnlyRow(id)
      ensures r.Some? <==> (t.RunsApt() ==> o.apt.Some?) && old(budget) >= 1
      ensures r.Some? ==> && r.value == (t.guest.updateSupported ==> t.RunsApt() && o.apt.value.ok)
                          && budget == old(budget) - 1
                          && lines == old(lines) + PackagesLines(t, o)
    {
      if !t.guest.updateSupported {
        Append(id, [if t.guest.osFamily == "windows" then "os-update: skipped (Windows — OS updates disabled)"
                    else "os-update: skipped (unsupported os_id=" + t.guest.osId + ")"]);
        var ok := SetPhase(id, "os-update skipped");
        return if ok then Some(true) else None;
      }
      if t.IsVm() && !t.reachable {
        Append(id, ["os-update: skipped (VM not in VM_GUESTS — no SSH target)"]);
        var ok := SetPhase(id, "os-update skipped");
        return if ok then Some(false) else None;
      }
      var ok := SetPhase(id, "apt-upgrade");
      if !ok || o.apt.None? {
        return None;
      }
      var res := o.apt.value;
      Append(id, [if res.ok then "apt-upgrade: ok" else "apt-upgrade: FAILED", Tail(res.output, 800)]);
      return Some(res.ok);
    }

    // 3. The application; its result is reported only.
    method ApplicationPart(id: nat, t: Target, o: Outside) returns (r: bool)
      requires Reporting(id)
      modifies `runs, `budget, `told, `lines
      ensures Reporting(id) && OnlyRow(id)
      ensures var n := if t.RunsAppUpdate() || t.RunsAppVersion() then 1 else 0;
              && (r <==> && (t.RunsAppUpdate() ==> o.appUpdate.Some?)
                         && (t.RunsAppVersion() ==> o.appVersion.Some?)
                         && old(budget) >= n)
              && (r ==> budget == old(budget) - n && lines == old(lines) + ApplicationLines(t, o))
    {
      var appType := t.guest.appType;
      if t.RunsAppUpdate() {
        var ok := SetPhase(id, "app-update (" + appType + ")");
        if !ok || o.appUpdate.None? {
          return false;
        }
        var res := o.appUpdate.value;
        Append(id, ["app-update (" + appType + "): " + (if res.ok then "ok" else "FAILED"), Tail(res.output, 400)]);
      } else if t.RunsAppVersion() {
        var ok := SetPhase(id, "app-version (" + appType + ")");
        if !ok || o.appVersion.None? {
          return false;
        }
        Append(id, ["app-version (" + appType + "): " + Strip(o.appVersion.value.output)]);
      }
      return true;
    }

    // 4. Health.
    method HealthPart(id: nat, t: Target, o: Outside) returns (r: Option<bool>)
      requires Reporting(id)
      modifies `runs, `budget, `told, `lines
      ensures Reporting(id) && OnlyRow(id)
      ensures r.Some? <==> t.RunsHealth() ==> o.health.Some? && old(budget) >= 1
      ensures r.Some? ==> r.value == (t.RunsHealth() ==> Healthy(o.health.value))
                          && lines == old(lines) + HealthLines(t, o)
    {
      if !t.RunsHealth() {
        return Some(true);
      }
      var ok := SetPhase(id, "health-check");
      if !ok || o.health.None? {
        return None;
      }
      var res := o.health.value;
      var healthy := res.ok && Strip(res.output) !in ["", "000"];
      Append(id, ["health-check: " + Strip(res.output) + (if healthy then " (ok)" else " (CHECK)")]);
      return Some(healthy);
    }

    // Steps 1 and 2: what does not depend on the application.
    method SystemParts(id: nat, t: Target, withBackup: bool, o: Outside) returns (r: Option<bool>)
      requires Reporting(id)
      modifies `runs, `budget, `told, `lines
      ensures Reporting(id) && OnlyRow(id)
      ensures r.Some? <==> SystemAnswers(t, withBackup, o, old(budget))
      ensures r.Some? ==> r.value == SystemOk(t, withBackup, o) && budget == old(budget) - SystemPhases(withBackup)
                          && lines == old(lines) + SystemLines(t, withBackup, o)
    {
      ghost var before := lines;
      r := BackupPart(id, withBackup, o);
      if r.None? {
        return;
      }
      ghost var between := lines;
      var backupOk := r.value;
      r := PackagesPart(id, t, o);
      if r.Some? {
        r := Some(backupOk && r.value);
        InTwoSteps(before, BackupLines(withBackup, o), PackagesLines(t, o), between, lines);
      }
    }

    // Steps 3 and 4: what only containers have.
    method ContainerParts(id: nat, t: Target, o: Outside) returns (r: Option<bool>)
      requires Reporting(id)
      modifies `runs, `budget, `told, `lines
      ensures Reporting(id) && OnlyRow(id)
      ensures r.Some? <==> ContainerAnswers(t, o, old(budget))
      ensures r.Some? ==> r.value == ContainerOk(t, o) && lines == old(lines) + ContainerLines(t, o)
    {
      var went := ApplicationPart(id, t, o);
      if !went {
        return None;
      }
      r := HealthPart(id, t, o);
    }

    // The body of the `try`.
    method Parts(id: nat, t: Target, withBackup: bool, o: Outside) returns (r: Option<bool>)
      requires Reporting(id)
      requires budget + 1 == o.phaseWrites
      modifies `runs, `budget, `told, `lines
      ensures Reporting(id) && OnlyRow(id)
      ensures r.Some? <==> NothingRaises(t, withBackup, o)
      ensures r.Some? ==> r.value == RunOk(t, withBackup, o) && lines == old(lines) + Report(t, withBackup, o)
    {
      ghost var before, writes := lines, budget;
      r := SystemParts(id, t, withBackup, o);
      if r.None? {
        return;
      }
      ghost var between := lines;
      var systemOk := r.value;
      r := ContainerParts(id, t, o);
      PartsDecide(t, withBackup, o, writes);
      if r.Some? {
        r := Some(systemOk && r.value);
        InTwoSteps(before, SystemLines(t, withBackup, o), ContainerLines(t, o), between, lines);
      }
    }

    /** For a known guest whose row is inserted, exactly one row is added and no other changes. If
        the first phase is stored and the final UPDATE carried out, the row is terminal, ok if and
        only if RunOk, and every detail stored on the way is a prefix of the final one; if not, it
        stays running with the last detail stored. In every case the guest is no longer pending, so
        the panel goes on showing a running update exactly if the run raised. */
    method RunGuest(vmid: Vmid, withBackup: bool, o: Outside, exception: string, now: Seconds, later: Seconds)
      returns (r: Result<(), Error>)
      requires forall id | id in runs :: id < nextId
      modifies `runs, `nextId, `pending, `lines, `budget, `told, `title
      ensures forall id | id in runs :: id < nextId
      ensures pending == old(pending) - {vmid}
      ensures !o.selects || vmid !in guests || !o.inserts ==>
                runs == old(runs) && nextId == old(nextId)
                && r == if !o.selects || vmid in guests then Err(Unavailable) else Ok(())
      ensures o.selects && vmid in guests && o.inserts ==>
                && nextId == old(nextId) + 1
                && Recorded(old(runs), runs, old(nextId), vmid, Target(guests[vmid], vmid in vmGuests), withBackup, o,
                            now, later)
                && r == (if o.phaseWrites > 0 && o.closes then Ok(()) else Err(Unavailable))
                && (ShownRunning(runs, nextId, pending, vmid) <==> r.Err?)
    {
      pending := pending + {vmid};
      if !o.selects {
        r := Err(Unavailable);
      } else if vmid in guests {
        var t := Target(guests[vmid], vmid in vmGuests);
        r := Record(vmid, t, withBackup, o, exception, now, later);
        assert o.inserts ==> forall id | id in runs :: id == old(nextId) || id in runs - {old(nextId)};
        assert o.inserts ==> NewestRow(runs, vmid, nextId) == Some(runs[old(nextId)]);
      } else {
        r := Ok(());
      }
      pending := pending - {vmid};
    }

    // What a run leaves of its row, and of the others.
    ghost predicate Recorded(before: map<nat, RunRow>, after: map<nat, RunRow>, id: nat, vmid: Vmid, t: Target,
                             withBackup: bool, o: Outside, now: Seconds, later: Seconds)
      reads this
    {
      && id in after && after - {id} == before
      && (if o.phaseWrites == 0 then after[id] == RunRow(vmid, now, None, Running, None, None, "starting")
          else
            && told != [] && told[0] == Heading(vmid, t.guest, withBackup)
            && if !o.closes then
                 after[id] == RunRow(vmid, now, None, Running, None, Some(Join(told[|told| - 1], "\n")),
                                     after[id].phase)
               else
                 var status := if RunOk(t, withBackup, o) then Succeeded else Failed;
                 && after[id].detail.Some? && AllBegin(told, after[id].detail.value)
                 && (NothingRaises(t, withBackup, o) ==>
                       after[id].detail.value
                       == Join(Heading(vmid, t.guest, withBackup) + Report(t, withBackup, o), "\n"))
                 && after[id] == RunRow(vmid, now, Some(later), status,
                                        Some(Summary(RunTitle(vmid, t.guest), status)),
                                        after[id].detail, if RunOk(t, withBackup, o) then "ok" else "failed"))
    }

    // Adds the running row and stores the first phase.
    method Open(vmid: Vmid, guest: Guest, withBackup: bool, o: Outside, now: Seconds) returns (id: nat, ok: bool)
      requires nextId !in runs
      modifies `runs, `nextId, `lines, `budget, `told, `title
      ensures id == old(nextId) && nextId == id + 1
      ensures Reporting(id) && runs - {id} == old(runs)
      ensures lines == Heading(vmid, guest, withBackup)
      ensures ok <==> o.phaseWrites > 0
      ensures ok ==> && told == [lines] && budget + 1 == o.phaseWrites
                     && runs[id] == RunRow(vmid, now, None, Running, None, Some(Join(lines, "\n")), "starting")
      ensures !ok ==> runs[id] == RunRow(vmid, now, None, Running, None, None, "starting")
    {
      id := nextId;
      nextId := nextId + 1;
      runs := runs[id := RunRow(vmid, now, None, Running, None, None, "starting")];
      assert runs - {id} == old(runs);
      lines := [Title("lxc-manager", guest.name, vmid),
                "guest: " + guest.kind + " · os=" + guest.osId + " (" + guest.osFamily + ") · updates="
                + (if guest.updateSupported then "yes" else "no")
                + " · pre-backup=" + (if withBackup then "yes" else "no")];
      budget, told, title := o.phaseWrites, [], lines[0];
      ok := SetPhase(id, "starting");
      assert runs - {id} == old(runs);
    }

    // _run_guest for a guest that exists
    method Record(vmid: Vmid, t: Target, withBackup: bool, o: Outside, exception: string,
                  now: Seconds, later: Seconds) returns (r: Result<(), Error>)
      requires nextId !in runs
      modifies `runs, `nextId, `lines, `budget, `told, `title
      ensures !o.inserts ==> r == Err(Unavailable) && runs == old(runs) && nextId == old(nextId)
      ensures o.inserts ==>
                && nextId == old(nextId) + 1
                && Recorded(old(runs), runs, old(nextId), vmid, t, withBackup, o, now, later)
                && r == if o.phaseWrites > 0 && o.closes then Ok(()) else Err(Unavailable)
    {
      if !o.inserts {
        return Err(Unavailable);
      }
      ghost var before := runs;
      var id, started := Open(vmid, t.guest, withBackup, o, now);
      if !started {
        return Err(Unavailable);
      }
      var status := Work(id, t, withBackup, o, exception);
      assert runs - {id} == before;
      if !o.closes {
        return Err(Unavailable);
      }
      Close(id, status, later);
      assert runs - {id} == before;
      return Ok(());
    }

    // The `try` block and its handler.
    method Work(id: nat, t: Target, withBackup: bool, o: Outside, exception: string) returns (status: RunStatus)
      requires Reporting(id)
      requires budget + 1 == o.phaseWrites
      modifies `runs, `budget, `told, `lines
      ensures Reporting(id) && OnlyRow(id)
      ensures status == if RunOk(t, withBackup, o) then Succeeded else Failed
      ensures NothingRaises(t, withBackup, o) ==> lines == old(lines) + Report(t, withBackup, o)
    {
      var ok := Parts(id, t, withBackup, o);
      if ok.None? {
        Append(id, ["exception: " + exception]);
      }
      status := if ok.Some? && ok.value then Succeeded else Failed;
    }

    // The final UPDATE.
    method Close(id: nat, status: RunStatus, later: Seconds)
      requires Reporting(id)
      modifies `runs
      ensures id in runs && runs - {id} == old(runs) - {id}
      ensures var detail := Join(lines, "\n");
              && AllBegin(told, detail)
              && runs[id] == RunRow(old(runs)[id].vmid, old(runs)[id].startedAt, Some(later), status,
                                    Some(Summary(lines[0], status)), Some(detail), StatusWord(status))
    {
      PrefixesBegin(told, lines);
      var row := runs[id];
      runs := runs[id := row.(finishedAt := Some(later), status := status, summary := Some(Summary(lines[0], status)),
                              detail := Some(Join(lines, "\n")), phase := StatusWord(status))];
    }
  }
}
