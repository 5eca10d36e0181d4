/** Whole lives of a panel: updates that succeed, fail or are refused, processes that stop or
    die in the middle of an update, and restarts from whatever is on disk. */
module UpdateHistory {
  import opened Wrappers
  import opened Semver
  import opened InstallRoot
  import opened UpdateTransaction
  import opened CrashSafety
  import opened SelfUpdate

  // running is the APP_VERSION the process was started with; last the one it had when it ended.
  datatype Panel = Up(running: Version, disk: Disk) | Down(last: Version, disk: Disk) {
    function Level(): Version {
      if Up? then running else last
    }
  }

  datatype Event =
    | Request(tag: string, archives: Archives, faults: Faults, exits: bool)
    | DiesApplying(tag: string, archives: Archives, faults: Faults, at: nat)
    | Stops
    | Boots

  function Admitted(p: Panel, tag: string): Result<(string, Version), Error> {
    AdmitOver(Some(p.Level()), tag)
  }

  /** This is the guard of an updater whose APP_VERSION is the printed running version. */
  lemma AdmittedIsTheGuard(p: Panel, tag: string)
    ensures Admitted(p, tag) == Admit(true, PrintVersion(p.Level()), tag)
  {
    ParsePrint(p.Level());
  }

  function Step(p: Panel, e: Event): Panel {
    match e
    case Request(tag, archives, f, exits) =>
      if p.Down? || Admitted(p, tag).Err? then p
      else
        var end := Apply(p.disk, archives(Admitted(p, tag).value.0), f);
        if end.raised.None? && exits then Down(p.running, end.world.disk)
        else Up(p.running, end.world.disk)
    case DiesApplying(tag, archives, f, at) =>
      if p.Down? || Admitted(p, tag).Err? then p
      else
        var trail := Apply(p.disk, archives(Admitted(p, tag).value.0), f).world.trail;
        if at < |trail| then Down(p.running, trail[at]) else p
    case Stops => Down(p.Level(), p.disk)
    case Boots =>
      // without a complete tree the service cannot start
      if p.Down? && p.disk.app.Complete? then Up(p.disk.app.version, p.disk) else p
  }

  function Run(p: Panel, es: seq<Event>): Panel
    decreases |es|
  {
    if es == [] then p else Run(Step(p, es[0]), es[1..])
  }

  // The archive of the requested tag carries the version of the tag.
  predicate Honest(tag: string, archives: Archives) {
    TagFor(tag).Ok? ==> ParseVersion(tag) == Some(archives(TagFor(tag).value).version)
  }

  predicate HonestEvent(e: Event) {
    match e
    case Request(tag, archives, _, _) => Honest(tag, archives)
    case DiesApplying(tag, archives, _, _) => Honest(tag, archives)
    case _ => true
  }

  // A complete tree on disk is never older than the process that runs or ran.
  predicate NotBehind(p: Panel) {
    p.disk.app.Complete? ==> AtMost(p.Level(), p.disk.app.version)
  }

  lemma RequestIsNewer(p: Panel, tag: string, archives: Archives)
    requires Admitted(p, tag).Ok? && Honest(tag, archives)
    ensures Less(p.Level(), archives(Admitted(p, tag).value.0).version)
    ensures ParseVersion(tag) == Some(archives(Admitted(p, tag).value.0).version)
  {
    AdmittedIsTheGuard(p, tag);
    AdmittedIsNewer(true, PrintVersion(p.Level()), tag);
    ParsePrint(p.Level());
  }

  lemma StepNeverBehind(p: Panel, e: Event)
    requires NotBehind(p) && HonestEvent(e)
    ensures NotBehind(Step(p, e)) && AtMost(p.Level(), Step(p, e).Level())
  {
    match e
    case Request(tag, archives, f, exits) =>
      if p.Up? && Admitted(p, tag).Ok? {
        RequestIsNewer(p, tag, archives);
        OnlyOldOrNew(p.disk, archives(Admitted(p, tag).value.0), f);
      }
    case DiesApplying(tag, archives, f, at) =>
      if p.Up? && Admitted(p, tag).Ok? {
        RequestIsNewer(p, tag, archives);
        OnlyOldOrNew(p.disk, archives(Admitted(p, tag).value.0), f);
      }
    case _ =>
  }

  /** The running version never goes back: over every history, with every call free to fail,
      every rollback free to break and every process free to die at any moment. */
  lemma {:induction false} RunningNeverGoesBack(p: Panel, es: seq<Event>)
    requires NotBehind(p) && forall e | e in es :: HonestEvent(e)
    decreases |es|
    ensures NotBehind(Run(p, es)) && AtMost(p.Level(), Run(p, es).Level())
  {
    if es != [] {
      StepNeverBehind(p, es[0]);
      RunningNeverGoesBack(Step(p, es[0]), es[1..]);
    }
  }

  // ---------- a death that stops the service ----------

  // The same update, dying at the n-th state of its trail.
  function DyingAt(e: Event, n: nat): Event
    requires e.Request?
  {
    DiesApplying(e.tag, e.archives, e.faults, n)
  }

  predicate CannotStart(p: Panel) {
    p.Down? && Step(p, Boots) == p
  }

  /** Whoever dies within an update can be left unable to start, with the old tree intact in app.bak,
      at some moment, as soon as the update gets as far as its swap; before that, never. */
  lemma DeathCanStopService(p: Panel, e: Event)
    requires e.Request? && Updates(p, e) && p.disk.app.Complete?
    ensures BeforeSwap(Fault(p, e)) ==> forall n: nat :: !CannotStart(Step(p, DyingAt(e, n)))
    ensures !BeforeSwap(Fault(p, e)) ==>
              exists n: nat :: var q := Step(p, DyingAt(e, n)); CannotStart(q) && q.disk.bak == p.disk.app
  {
    var r := Target(p, e);
    MomentWithoutApp(p.disk, r, e.faults);
    forall n: nat
      ensures Step(p, DyingAt(e, n)) == DiedIn(p, Apply(p.disk, r, e.faults).world.trail, n)
    {
    }
    StopsWithoutApp(p, e, Apply(p.disk, r, e.faults).world.trail);
  }

  function DiedIn(p: Panel, trail: seq<Disk>, n: nat): Panel {
    if n < |trail| then Down(p.Level(), trail[n]) else p
  }

  lemma StopsWithoutApp(p: Panel, e: Event, trail: seq<Disk>)
    requires e.Request? && p.Up? && p.disk.app.Complete?
    requires forall n: nat :: Step(p, DyingAt(e, n)) == DiedIn(p, trail, n)
    ensures (forall s | s in trail :: s.app == p.disk.app) ==>
              forall n: nat :: !CannotStart(Step(p, DyingAt(e, n)))
    ensures (exists s :: s in trail && s.app.Absent? && s.bak == p.disk.app) ==>
              exists n: nat :: var q := Step(p, DyingAt(e, n)); CannotStart(q) && q.disk.bak == p.disk.app
  {
    if forall s | s in trail :: s.app == p.disk.app {
      forall n: nat
        ensures !CannotStart(DiedIn(p, trail, n))
      {
        assert n < |trail| ==> trail[n] in trail;
      }
    }
    if s :| s in trail && s.app.Absent? && s.bak == p.disk.app {
      var n: nat :| n < |trail| && trail[n] == s;
      assert CannotStart(Step(p, DyingAt(e, n)));
    }
  }

  // ---------- what is on disk ----------

  // The release an admitted event installs.
  predicate Updates(p: Panel, e: Event) {
    p.Up? && (e.Request? || e.DiesApplying?) && Admitted(p, e.tag).Ok?
  }

  function Target(p: Panel, e: Event): Release
    requires Updates(p, e)
  {
    e.archives(Admitted(p, e.tag).value.0)
  }

  lemma TargetIsTag(p: Panel, e: Event)
    requires Updates(p, e) && HonestEvent(e)
    ensures ParseVersion(e.tag) == Some(Target(p, e).version) && Less(p.Level(), Target(p, e).version)
  {
    RequestIsNewer(p, e.tag, e.archives);
  }

  // The first call that will raise.
  function Fault(p: Panel, e: Event): Option<Site>
    requires Updates(p, e)
  {
    FirstFault(p.disk, e.faults)
  }

  predicate Succeeds(p: Panel, e: Event) {
    Updates(p, e) && e.Request? && Fault(p, e).None?
  }

  // The tree on disk is complete, and the one a live process was started from.
  predicate Settled(p: Panel) {
    p.disk.app.Complete? && (p.Up? ==> p.disk.app.version == p.running)
  }

  /** Told before the event: nothing dies within an update, a success ends the process, and a
      failure is one after which the running tree is kept. */
  predicate Undone(p: Panel, e: Event) {
    Updates(p, e) ==> e.Request? && if Fault(p, e).None? then e.exits else KeepsApp(Fault(p, e).value, e.faults)
  }

  lemma ApplySettles(d: Disk, r: Release, f: Faults)
    requires d.app.Complete? && d.app.version != r.version
    ensures var end := Apply(d, r, f);
            && end.raised == FirstFault(d, f)
            && Known(end.world.disk.app, d.app, Complete(r.version))
            && (if FirstFault(d, f).None? then end.world.disk.app == Complete(r.version)
                else end.world.disk.app == d.app <==> KeepsApp(FirstFault(d, f).value, f))
  {
    FailsAtFirstFault(d, r, f);
    OnlyOldOrNew(d, r, f);
    if FirstFault(d, f).None? {
      InstalledIsAllNew(d, r, f);
    } else {
      AppKeptExactly(d, r, f);
    }
  }

  // What a request does to a live panel that admits it.
  lemma RequestStep(p: Panel, e: Event)
    requires Updates(p, e) && e.Request?
    ensures var end := Apply(p.disk, Target(p, e), e.faults);
            Step(p, e) == if end.raised.None? && e.exits then Down(p.running, end.world.disk)
                          else Up(p.running, end.world.disk)
  {
  }

  // If it does not die within an update, a panel stays settled exactly when this holds.
  lemma StepSettled(p: Panel, e: Event)
    requires Settled(p) && HonestEvent(e) && !e.DiesApplying?
    ensures Settled(Step(p, e)) <==> Undone(p, e)
    ensures Undone(p, e) ==>
              if Succeeds(p, e)
              then Less(p.disk.app.version, Step(p, e).disk.app.version)
                   && ParseVersion(e.tag) == Some(Step(p, e).disk.app.version)
              else Step(p, e).disk.app == p.disk.app
  {
    if Updates(p, e) {
      TargetIsTag(p, e);
      RequestStep(p, e);
      ApplySettles(p.disk, Target(p, e), e.faults);
    }
  }

  predicate AllUndone(p: Panel, es: seq<Event>)
    decreases |es|
  {
    es == [] || (Undone(p, es[0]) && AllUndone(Step(p, es[0]), es[1..]))
  }

  predicate AnySucceeds(p: Panel, es: seq<Event>)
    decreases |es|
  {
    es != [] && (Succeeds(p, es[0]) || AnySucceeds(Step(p, es[0]), es[1..]))
  }

  lemma LessTransitive(a: Version, b: Version, c: Version)
    requires AtMost(a, b) && AtMost(b, c)
    ensures AtMost(a, c) && (Less(a, b) || Less(b, c) ==> Less(a, c))
  {
  }

  /** With exit-on-success and failures that are undone, the installed version never decreases
      either, and has strictly increased once any update succeeded. */
  lemma {:induction false} InstalledGrows(p: Panel, es: seq<Event>)
    requires Settled(p) && AllUndone(p, es) && forall e | e in es :: HonestEvent(e)
    decreases |es|
    ensures Settled(Run(p, es))
    ensures AtMost(p.disk.app.version, Run(p, es).disk.app.version)
    ensures AnySucceeds(p, es) <==> Less(p.disk.app.version, Run(p, es).disk.app.version)
  {
    if es != [] {
      var q := Step(p, es[0]);
      StepUndone(p, es[0]);
      InstalledGrows(q, es[1..]);
      LessTransitive(p.disk.app.version, q.disk.app.version, Run(q, es[1..]).disk.app.version);
    }
  }

  lemma StepUndone(p: Panel, e: Event)
    requires Settled(p) && HonestEvent(e) && Undone(p, e)
    ensures Settled(Step(p, e))
    ensures if Succeeds(p, e) then Less(p.disk.app.version, Step(p, e).disk.app.version)
            else Step(p, e).disk.app == p.disk.app
  {
    if !e.DiesApplying? {
      StepSettled(p, e);
    }
  }

  // ---------- when the disk goes back ----------

  predicate GoesBack(p: Panel, q: Panel) {
    p.disk.app.Complete? && q.disk.app.Complete? && Less(q.disk.app.version, p.disk.app.version)
  }

  // An update to a version below v.
  predicate UpdatesBelow(p: Panel, e: Event, v: Version) {
    Updates(p, e) && ParseVersion(e.tag).Some? && Less(ParseVersion(e.tag).value, v)
  }

  predicate NotBelow(p: Panel, v: Version) {
    p.disk.app.Complete? ==> AtMost(v, p.disk.app.version)
  }

  // Every tree that an admitted event can bring is the one on disk or the one of its tag.
  lemma StepKnown(p: Panel, e: Event)
    requires HonestEvent(e)
    ensures if Updates(p, e)
            then ParseVersion(e.tag).Some?
                 && Known(Step(p, e).disk.app, p.disk.app, Complete(ParseVersion(e.tag).value))
            else Step(p, e).disk == p.disk
  {
    if Updates(p, e) {
      TargetIsTag(p, e);
      OnlyOldOrNew(p.disk, Target(p, e), e.faults);
    }
  }

  /** One request lowers the version on disk if and only if its tag, which the guard compares with
      the running version alone, lies below the tree on disk, and the new tree stays. */
  lemma GoesBackExactly(p: Panel, e: Event)
    requires p.disk.app.Complete? && Updates(p, e) && e.Request? && HonestEvent(e)
    ensures GoesBack(p, Step(p, e))
            <==> UpdatesBelow(p, e, p.disk.app.version) && NewStays(Fault(p, e), e.faults)
  {
    TargetIsTag(p, e);
    RequestStep(p, e);
    StepKnown(p, e);
    if Less(Target(p, e).version, p.disk.app.version) {
      NewStaysExactly(p.disk, Target(p, e), e.faults);
    }
  }

  /** For some behaviour of the calls, if and only if an admitted tag lies below the tree on disk. */
  lemma CanGoBackExactly(p: Panel, tag: string, archives: Archives)
    requires p.Up? && p.disk.app.Complete? && Admitted(p, tag).Ok? && Honest(tag, archives)
    ensures (exists f: Faults :: GoesBack(p, Step(p, Request(tag, archives, f, true))))
            <==> Less(ParseVersion(tag).value, p.disk.app.version)
  {
    TargetIsTag(p, Request(tag, archives, s => Completes, true));
    if Less(ParseVersion(tag).value, p.disk.app.version) {
      FirstFaultFires(p.disk, s => Completes);
      GoesBackExactly(p, Request(tag, archives, s => Completes, true));
    } else {
      forall f: Faults ensures !GoesBack(p, Step(p, Request(tag, archives, f, true))) {
        GoesBackExactly(p, Request(tag, archives, f, true));
      }
    }
  }

  /** Any event after which the disk holds an older complete tree is an update in a process that is
      older than the tree on disk, to a version between the two. */
  lemma OnlyUpdatesGoBack(p: Panel, e: Event)
    requires HonestEvent(e) && GoesBack(p, Step(p, e))
    ensures UpdatesBelow(p, e, p.disk.app.version)
    ensures p.running == p.Level() && Less(p.Level(), ParseVersion(e.tag).value)
  {
    StepKnown(p, e);
    if Updates(p, e) {
      TargetIsTag(p, e);
    }
  }

  lemma StepNotBelow(p: Panel, e: Event, v: Version)
    requires HonestEvent(e) && NotBelow(p, v)
    ensures NotBelow(Step(p, e), v) || UpdatesBelow(p, e, v)
  {
    StepKnown(p, e);
  }

  predicate AnyBelow(p: Panel, es: seq<Event>, v: Version)
    decreases |es|
  {
    es != [] && (UpdatesBelow(p, es[0], v) || AnyBelow(Step(p, es[0]), es[1..], v))
  }

  /** Over every history: if no tree below v was on disk at first and one is at the end, then some
      event on the way was an update to a version below v. */
  lemma {:induction false} DiskWentBack(p: Panel, es: seq<Event>, v: Version)
    requires NotBelow(p, v) && !NotBelow(Run(p, es), v) && forall e | e in es :: HonestEvent(e)
    decreases |es|
    ensures AnyBelow(p, es, v)
  {
    StepNotBelow(p, es[0], v);
    if !UpdatesBelow(p, es[0], v) {
      DiskWentBack(Step(p, es[0]), es[1..], v);
    }
  }

  // ---------- how a process comes to be older than the disk ----------

  /** A request leaves the process running over the newer tree exactly when the tree stays and the
      process does not exit. */
  lemma StrandsExactly(p: Panel, e: Event)
    requires p.Up? && Settled(p) && Updates(p, e) && e.Request? && HonestEvent(e)
    ensures Step(p, e) == Up(p.running, Step(p, e).disk) && Step(p, e).disk.app == Complete(ParseVersion(e.tag).value)
            <==> NewStays(Fault(p, e), e.faults) && (Fault(p, e).None? ==> !e.exits)
  {
    TargetIsTag(p, e);
    RequestStep(p, e);
    FailsAtFirstFault(p.disk, Target(p, e), e.faults);
    NewStaysExactly(p.disk, Target(p, e), e.faults);
  }

  /** From a settled panel, a request for a high version and then one for a lower, still newer one
      move the disk back exactly when the first strands its tree and the tree of the second stays. */
  lemma TwoRequestsGoBack(p: Panel, high: Event, low: Event)
    requires p.Up? && Settled(p)
    requires high.Request? && HonestEvent(high) && Updates(p, high)
    requires low.Request? && HonestEvent(low) && Updates(p, low)
    requires Less(ParseVersion(low.tag).value, ParseVersion(high.tag).value)
    ensures var q := Step(p, high);
            GoesBack(q, Run(p, [high, low]))
            <==> && NewStays(Fault(p, high), high.faults) && (Fault(p, high).None? ==> !high.exits)
                 && NewStays(FirstFault(q.disk, low.faults), low.faults)
  {
    var q := Step(p, high);
    StrandsExactly(p, high);
    StepKnown(p, high);
    TargetIsTag(p, high);
    TargetIsTag(p, low);
    assert [high, low][1..] == [low] && [low][1..] == [];
    assert Run(q, [low]) == Step(q, low);
    if q.Up? && q.disk.app.Complete? {
      GoesBackExactly(q, low);
    }
  }

  /** No call has to fail for it: with exit-on-success switched off, two successful requests do. */
  lemma DiskCanGoBackWithoutExit(p: Panel, high: Event, low: Event)
    requires p.Up? && Settled(p)
    requires high.Request? && !high.exits && HonestEvent(high) && Updates(p, high)
    requires low.Request? && HonestEvent(low) && Updates(p, low)
    requires Less(ParseVersion(low.tag).value, ParseVersion(high.tag).value)
    requires forall s :: high.faults(s).Completes? && low.faults(s).Completes?
    ensures Step(p, high).disk.app == Complete(ParseVersion(high.tag).value)
    ensures GoesBack(Step(p, high), Run(p, [high, low]))
  {
    FirstFaultFires(p.disk, high.faults);
    FirstFaultFires(Step(p, high).disk, low.faults);
    StrandsExactly(p, high);
    TwoRequestsGoBack(p, high, low);
  }

  // pip fails, and so does removing the new tree in the handler.
  predicate PipAndUndoFail(f: Faults) {
    && f(UndoRemoveApp) == Raises(Untouched)
    && forall s :: f(s).Raises? <==> s in {Pip, UndoRemoveApp}
  }

  /** With exit-on-success, a failed rollback does: it strands its tree in app while the old
      version keeps running, and that version then admits a release in between. */
  lemma DiskCanGoBack(p: Panel, high: Event, low: Event)
    requires p.Up? && Settled(p)
    requires high.Request? && HonestEvent(high) && Updates(p, high) && PipAndUndoFail(high.faults)
    requires low.Request? && HonestEvent(low) && Updates(p, low)
    requires Less(ParseVersion(low.tag).value, ParseVersion(high.tag).value)
    requires forall s :: low.faults(s).Completes?
    ensures Step(p, high).disk.app == Complete(ParseVersion(high.tag).value)
    ensures GoesBack(Step(p, high), Run(p, [high, low]))
  {
    StopsAtPip(p.disk, high.faults);
    FirstFaultFires(Step(p, high).disk, low.faults);
    StrandsExactly(p, high);
    TwoRequestsGoBack(p, high, low);
  }

  lemma StrandedNewTree(d: Disk, r: Release, f: Faults)
    requires d.app.Complete? && PipAndUndoFail(f)
    ensures Apply(d, r, f).raised == Some(Pip)
    ensures Apply(d, r, f).world.disk.app == Complete(r.version)
  {
    StopsAtPip(d, f);
    FailsAtFirstFault(d, r, f);
    NewStaysExactly(d, r, f);
  }

  lemma StopsAtPip(d: Disk, f: Faults)
    requires PipAndUndoFail(f)
    ensures FirstFault(d, f) == Some(Pip)
  {
    FirstFaultFires(d, f);
  }
}
