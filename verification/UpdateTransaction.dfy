/** What one apply guarantees about the install directory, for every starting state and
    every behaviour of the filesystem, the network and pip. */
module UpdateTransaction {
  import opened Wrappers
  import opened Semver
  import opened InstallRoot

  // ---------- what each stretch does to the files that matter ----------

  predicate SameInstall(d: Disk, e: Disk) {
    d.app == e.app && d.bak == e.bak && SameRequirements(d, e)
  }

  predicate SameRequirements(d: Disk, e: Disk) {
    d.req == e.req && d.reqBak == e.reqBak
  }

  lemma PrepareEffect(w: World, r: Release, f: Faults)
    ensures var a := Prepare(w, r, f);
            && SameInstall(w.disk, a.world.disk)
            && match a.raised
               case None => a.world.disk.staging == Complete(r.version)
               case Some(s) => s in {Download, ClearExtract, Unpack, ClearStaging, CopyApp}
  {
  }

  lemma SwapEffect(w: World, f: Faults)
    ensures var a := Swap(w, f);
            && SameRequirements(w.disk, a.world.disk)
            && match a.raised
               case None => && a.world.disk.app == w.disk.staging && a.world.disk.bak == w.disk.app
                            && a.world.disk.staging.Absent?
               case Some(MoveAppIn) => a.world.disk.app.Absent? && a.world.disk.bak == w.disk.app
               case Some(s) => s in {ClearBak, MoveAppAway} && a.world.disk.app == w.disk.app
  {
  }

  lemma RequireEffect(w: World, r: Release, f: Faults)
    ensures var a := Require(w, r, f);
            && w.disk.app == a.world.disk.app && w.disk.bak == a.world.disk.bak
            && w.disk.staging == a.world.disk.staging
            && match a.raised
               case None => true
               case Some(s) => s in {BackupReq, CopyReq, Pip}
    ensures var a := Require(w, r, f);
            a.raised != Some(BackupReq) && !w.disk.req.NoFile? ==> a.world.disk.reqBak == w.disk.req
    ensures var a := Require(w, r, f);
            a.raised != Some(BackupReq) && w.disk.req.NoFile? ==> a.world.disk.reqBak == w.disk.reqBak
    ensures var a := Require(w, r, f);
            a.raised in {None, Some(Pip)} ==> a.world.disk.req == Whole(r.req)
    ensures var a := Require(w, r, f);
            a.raised == Some(BackupReq) ==>
              && a.world.disk.req == w.disk.req && !w.disk.req.NoFile?
              && a.world.disk.reqBak == (match f(BackupReq).reach
                                        case Untouched => w.disk.reqBak
                                        case Halfway => Torn
                                        case Fully => w.disk.req)
    ensures var a := Require(w, r, f);
            a.raised == Some(CopyReq) ==>
              a.world.disk.req == (match f(CopyReq).reach
                                  case Untouched => w.disk.req
                                  case Halfway => Torn
                                  case Fully => Whole(r.req))
  {
  }

  lemma CleanupEffect(w: World, f: Faults)
    ensures var a := Cleanup(w, f);
            && w.disk.app == a.world.disk.app && w.disk.req == a.world.disk.req
            && match a.raised
               case None => && a.world.disk.bak.Absent? && a.world.disk.reqBak.NoFile?
                            && a.world.disk.staging == w.disk.staging
               case Some(DropBak) =>
                 && a.world.disk.reqBak == w.disk.reqBak
                 && !w.disk.bak.Absent?
                 && a.world.disk.bak == (if f(DropBak) == Raises(Untouched) then w.disk.bak else Partial)
               case Some(s) => s == DropReqBak && a.world.disk.bak.Absent?
  {
  }

  lemma UndoSwapEffect(w: World, f: Faults)
    requires !w.disk.app.Absent?
    ensures var a := UndoSwap(w, f);
            && SameRequirements(w.disk, a.world.disk)
            && (a.raised.None? <==> UndoCompletes(f))
            && (if UndoCompletes(f) then a.world.disk.app == w.disk.bak
                else if UndoRefused(f) then a.world.disk.app == w.disk.app
                else a.world.disk.app in {Partial, Absent})
  {
  }

  lemma UndoFilesEffect(w: World, f: Faults)
    ensures var e := UndoFiles(w, f).world.disk;
            && e.app == w.disk.app && e.bak == w.disk.bak
            && e.req == (if w.disk.reqBak.NoFile? || f(UndoCopyReq) == Raises(Untouched) then w.disk.req
                         else if f(UndoCopyReq) == Raises(Halfway) then Torn
                         else w.disk.reqBak)
  {
  }

  lemma FinishEffect(w: World, raised: Option<Site>, f: Faults)
    ensures SameInstall(w.disk, Finish(w, raised, f).disk)
  {
  }

  // ---------- which call fails ----------

  // The calls that apply makes on this directory if none before them raises.
  predicate Executes(d: Disk, site: Site) {
    match site
    case ClearExtract => !d.extract.Absent?
    case ClearStaging => !d.staging.Absent?
    case ClearBak => !d.bak.Absent?
    case MoveAppAway => !d.app.Absent?
    case BackupReq => !d.req.NoFile?
    case DropBak => !d.app.Absent?
    case DropReqBak => !d.req.NoFile? || !d.reqBak.NoFile?
    case _ => site in {Download, Unpack, CopyApp, MoveAppIn, CopyReq, Pip}
  }

  function Fires(d: Disk, f: Faults, site: Site): Option<Site> {
    if Executes(d, site) && f(site).Raises? then Some(site) else None
  }

  function Or(first: Option<Site>, second: Option<Site>): Option<Site> {
    if first.Some? then first else second
  }

  function PrepareFault(d: Disk, f: Faults): Option<Site> {
    Or(Fires(d, f, Download),
       Or(Fires(d, f, ClearExtract),
          Or(Fires(d, f, Unpack),
             Or(Fires(d, f, ClearStaging), Fires(d, f, CopyApp)))))
  }

  function SwapFault(d: Disk, f: Faults): Option<Site> {
    Or(Fires(d, f, ClearBak), Or(Fires(d, f, MoveAppAway), Fires(d, f, MoveAppIn)))
  }

  function RequireFault(d: Disk, f: Faults): Option<Site> {
    Or(Fires(d, f, BackupReq), Or(Fires(d, f, CopyReq), Fires(d, f, Pip)))
  }

  function CleanupFault(d: Disk, f: Faults): Option<Site> {
    Or(Fires(d, f, DropBak), Fires(d, f, DropReqBak))
  }

  /** The first call that raises, told from the directory and the faults before the update. */
  function FirstFault(d: Disk, f: Faults): Option<Site> {
    Or(PrepareFault(d, f), Or(SwapFault(d, f), Or(RequireFault(d, f), CleanupFault(d, f))))
  }

  lemma PrepareStops(w: World, r: Release, f: Faults)
    ensures Prepare(w, r, f).raised == PrepareFault(w.disk, f)
  {
  }

  lemma SwapStops(w: World, f: Faults)
    ensures Swap(w, f).raised == SwapFault(w.disk, f)
  {
  }

  lemma AfterSwapStops(d: Disk, w: World, r: Release, f: Faults)
    requires w.disk.bak == d.app && SameRequirements(d, w.disk)
    ensures AfterSwap(w, r, f).raised == Or(RequireFault(d, f), CleanupFault(d, f))
  {
    RequireEffect(w, r, f);
    if Require(w, r, f).raised.None? {
      CleanupStops(d, Require(w, r, f).world, f);
    }
  }

  lemma CleanupStops(d: Disk, w: World, f: Faults)
    requires w.disk.bak == d.app
    requires w.disk.reqBak == if d.req.NoFile? then d.reqBak else d.req
    ensures Cleanup(w, f).raised == CleanupFault(d, f)
  {
  }

  lemma AfterPrepareStops(d: Disk, w: World, r: Release, f: Faults)
    requires SameInstall(d, w.disk)
    ensures AfterPrepare(w, r, f).raised == Or(SwapFault(d, f), Or(RequireFault(d, f), CleanupFault(d, f)))
  {
    SwapStops(w, f);
    SwapEffect(w, f);
    if Swap(w, f).raised.None? {
      AfterSwapStops(d, Swap(w, f).world, r, f);
    }
  }

  lemma ForwardStops(d: Disk, w: World, r: Release, f: Faults)
    requires w.disk == d
    ensures Forward(w, r, f).raised == FirstFault(d, f)
  {
    PrepareStops(w, r, f);
    PrepareEffect(w, r, f);
    if Prepare(w, r, f).raised.None? {
      AfterPrepareStops(d, Prepare(w, r, f).world, r, f);
    }
  }

  /** An update fails at the first call it makes that raises, and only there: no rename or copy
      ever finds its target in the way. */
  lemma FailsAtFirstFault(d: Disk, r: Release, f: Faults)
    ensures Apply(d, r, f).raised == FirstFault(d, f)
  {
    ForwardStops(d, World(d, [d]), r, f);
  }

  // ---------- failure: exact restoration ----------

  // The handler can move app.bak back.
  predicate UndoCompletes(f: Faults) {
    f(UndoRemoveApp).Completes? && f(UndoMoveBack).Completes?
  }

  // It cannot even begin to remove app.
  predicate UndoRefused(f: Faults) {
    f(UndoRemoveApp) == Raises(Untouched)
  }

  /** After a failure at `site` the old tree runs on, whatever else the handler does. */
  predicate KeepsApp(site: Site, f: Faults) {
    match site
    case MoveAppIn => false
    case DropReqBak => false
    case DropBak => f(DropBak) == Raises(Untouched) && UndoCompletes(f)
    case _ => Swapped(site) ==> UndoCompletes(f)
  }

  // requirements.txt.bak when the handler is entered.
  function BackupAt(d: Disk, site: Site, f: Faults): File {
    match site
    case BackupReq => if f(BackupReq) == Raises(Halfway) then Torn
                      else if f(BackupReq) == Raises(Untouched) then d.reqBak
                      else d.req
    case CopyReq => if d.req.NoFile? then d.reqBak else d.req
    case Pip => if d.req.NoFile? then d.reqBak else d.req
    case DropBak => if d.req.NoFile? then d.reqBak else d.req
    case _ => d.reqBak
  }

  // requirements.txt itself.
  function CurrentAt(d: Disk, r: Release, site: Site, f: Faults): File {
    match site
    case CopyReq => if f(CopyReq) == Raises(Untouched) then d.req
                    else if f(CopyReq) == Raises(Halfway) then Torn
                    else Whole(r.req)
    case Pip => Whole(r.req)
    case DropBak => Whole(r.req)
    case _ => d.req
  }

  /** requirements.txt ends as it was: either the handler copies nothing back and it had not been
      touched, or the backup was the old file and is copied back whole. */
  predicate KeepsRequirements(d: Disk, r: Release, site: Site, f: Faults) {
    if BackupAt(d, site, f).NoFile? || f(UndoCopyReq) == Raises(Untouched) then CurrentAt(d, r, site, f) == d.req
    else f(UndoCopyReq) != Raises(Halfway) && BackupAt(d, site, f) == d.req
  }

  // A stale requirements.txt.bak is harmless only if it already holds the current file.
  predicate NoHarmfulStale(d: Disk) {
    d.reqBak.NoFile? || d.reqBak == d.req
  }

  /** With a handler that raises nowhere: when a failure at `site` puts both back. */
  predicate Restorable(d: Disk, site: Site, f: Faults) {
    match site
    case MoveAppIn => false
    case DropReqBak => false
    case DropBak => f(DropBak) == Raises(Untouched) && d.req.Whole?
    case Pip => d.req.Whole?
    case CopyReq => d.req.Whole? || (d.reqBak.NoFile? && f(CopyReq) == Raises(Untouched))
    case BackupReq => f(BackupReq) == Raises(Fully)
                      || (f(BackupReq) == Raises(Untouched) && NoHarmfulStale(d))
    case _ => NoHarmfulStale(d)
  }

  // What the directory looks like when the `try` block is left.
  ghost predicate ForwardFacts(d: Disk, a: Attempt, r: Release, f: Faults) {
    var e := a.world.disk;
    && (a.raised.Some? ==> f(a.raised.value).Raises?)
    && match a.raised
    case None =>
      && e.app == Complete(r.version) && e.req == Whole(r.req)
      && e.bak.Absent? && e.staging.Absent? && e.reqBak.NoFile?
    case Some(MoveAppIn) => e.app.Absent? && e.bak == d.app && SameRequirements(d, e)
    case Some(BackupReq) =>
      && e.app == Complete(r.version) && e.bak == d.app && e.req == d.req && !d.req.NoFile?
      && e.reqBak == (match f(BackupReq).reach
                     case Untouched => d.reqBak
                     case Halfway => Torn
                     case Fully => d.req)
    case Some(CopyReq) =>
      && e.app == Complete(r.version) && e.bak == d.app
      && e.reqBak == (if d.req.NoFile? then d.reqBak else d.req)
      && e.req == (match f(CopyReq).reach
                  case Untouched => d.req
                  case Halfway => Torn
                  case Fully => Whole(r.req))
    case Some(Pip) =>
      && e.app == Complete(r.version) && e.bak == d.app && e.req == Whole(r.req)
      && e.reqBak == (if d.req.NoFile? then d.reqBak else d.req)
    case Some(DropBak) =>
      && e.app == Complete(r.version) && e.req == Whole(r.req)
      && e.bak == (if f(DropBak) == Raises(Untouched) then d.app else Partial) && !d.app.Absent?
      && e.reqBak == (if d.req.NoFile? then d.reqBak else d.req)
    case Some(DropReqBak) => e.app == Complete(r.version) && e.bak.Absent?
    case Some(_) => !Swapped(a.raised.value) && e.app == d.app && SameRequirements(d, e)
  }

  lemma AfterSwapFacts(d: Disk, w: World, r: Release, f: Faults)
    requires w.disk.app == Complete(r.version) && w.disk.bak == d.app && SameRequirements(d, w.disk)
    requires w.disk.staging.Absent?
    ensures ForwardFacts(d, AfterSwap(w, r, f), r, f)
  {
    RequireEffect(w, r, f);
    if Require(w, r, f).raised.None? {
      CleanupEffect(Require(w, r, f).world, f);
    }
  }

  lemma AfterPrepareFacts(d: Disk, w: World, r: Release, f: Faults)
    requires w.disk.app == d.app && SameRequirements(d, w.disk)
    requires w.disk.staging == Complete(r.version)
    ensures ForwardFacts(d, AfterPrepare(w, r, f), r, f)
  {
    SwapEffect(w, f);
    if Swap(w, f).raised.None? {
      AfterSwapFacts(d, Swap(w, f).world, r, f);
    }
  }

  lemma ForwardReaches(d: Disk, w: World, r: Release, f: Faults)
    requires w.disk == d
    ensures ForwardFacts(d, Forward(w, r, f), r, f)
  {
    PrepareEffect(w, r, f);
    if Prepare(w, r, f).raised.None? {
      AfterPrepareFacts(d, Prepare(w, r, f).world, r, f);
    }
  }

  lemma HandlerKeepsApp(d: Disk, a: Attempt, r: Release, f: Faults)
    requires d.app.Complete? && d.app.version != r.version
    requires a.raised.Some? && ForwardFacts(d, a, r, f)
    ensures Leave(a, f).world.disk.app == d.app <==> KeepsApp(a.raised.value, f)
  {
    LeaveFailed(a, f);
  }

  // What the handler does to the running tree.
  lemma HandlerTree(w: World, site: Site, f: Faults)
    requires Swapped(site) ==> !w.disk.app.Absent?
    ensures var e := Rollback(w, site, f).world.disk;
            if !Swapped(site) || w.disk.bak.Absent? then e.app == w.disk.app
            else if UndoCompletes(f) then e.app == w.disk.bak
            else if UndoRefused(f) then e.app == w.disk.app
            else e.app in {Partial, Absent}
  {
    if Swapped(site) && !w.disk.bak.Absent? {
      UndoSwapEffect(w, f);
      UndoFilesEffect(UndoSwap(w, f).world, f);
    } else {
      UndoFilesEffect(w, f);
    }
  }

  // What it does to requirements.txt, if it gets that far.
  lemma HandlerRequirements(w: World, site: Site, f: Faults)
    requires Swapped(site) ==> !w.disk.app.Absent?
    requires Swapped(site) && !w.disk.bak.Absent? ==> UndoCompletes(f)
    ensures Rollback(w, site, f).world.disk.req
         == if w.disk.reqBak.NoFile? || f(UndoCopyReq) == Raises(Untouched) then w.disk.req
            else if f(UndoCopyReq) == Raises(Halfway) then Torn
            else w.disk.reqBak
  {
    if Swapped(site) && !w.disk.bak.Absent? {
      UndoSwapEffect(w, f);
      UndoFilesEffect(UndoSwap(w, f).world, f);
    } else {
      UndoFilesEffect(w, f);
    }
  }

  // The same on leaving apply.
  lemma LeaveFailed(a: Attempt, f: Faults)
    requires a.raised.Some? && (Swapped(a.raised.value) ==> !a.world.disk.app.Absent?)
    ensures var w, e := a.world.disk, Leave(a, f).world.disk;
            if !Swapped(a.raised.value) || w.bak.Absent? then e.app == w.app
            else if UndoCompletes(f) then e.app == w.bak
            else if UndoRefused(f) then e.app == w.app
            else e.app in {Partial, Absent}
    ensures var w, e := a.world.disk, Leave(a, f).world.disk;
            !Swapped(a.raised.value) || w.bak.Absent? || UndoCompletes(f) ==>
              e.req == if w.reqBak.NoFile? || f(UndoCopyReq) == Raises(Untouched) then w.req
                       else if f(UndoCopyReq) == Raises(Halfway) then Torn
                       else w.reqBak
  {
    var site := a.raised.value;
    FinishEffect(Rollback(a.world, site, f).world, a.raised, f);
    HandlerTree(a.world, site, f);
    if !Swapped(site) || a.world.disk.bak.Absent? || UndoCompletes(f) {
      HandlerRequirements(a.world, site, f);
    }
  }

  lemma HandlerKeepsRequirements(d: Disk, a: Attempt, r: Release, f: Faults)
    requires d.app.Complete? && !d.req.Torn?
    requires a.raised.Some? && ForwardFacts(d, a, r, f) && KeepsApp(a.raised.value, f)
    ensures Leave(a, f).world.disk.req == d.req <==> KeepsRequirements(d, r, a.raised.value, f)
  {
    LeaveFailed(a, f);
  }

  /** The running tree is kept if and only if this holds of the faults; nothing is assumed of
      the handler, which may raise as well. */
  lemma AppKeptExactly(d: Disk, r: Release, f: Faults)
    requires d.app.Complete? && d.app.version != r.version && FirstFault(d, f).Some?
    ensures Apply(d, r, f).world.disk.app == d.app <==> KeepsApp(FirstFault(d, f).value, f)
  {
    var w := World(d, [d]);
    ForwardStops(d, w, r, f);
    ForwardReaches(d, w, r, f);
    HandlerKeepsApp(d, Forward(w, r, f), r, f);
  }

  /** All or nothing, exactly: for every directory with a complete tree and every behaviour of
      every call, those of the handler included, a failed update leaves the running tree and
      requirements.txt both as they were if and only if this holds of directory and faults. (A torn
      file has nothing to restore, and the same version twice cannot be told apart.) */
  lemma RestoredExactly(d: Disk, r: Release, f: Faults)
    requires d.app.Complete? && d.app.version != r.version && !d.req.Torn?
    requires FirstFault(d, f).Some?
    ensures var e := Apply(d, r, f).world.disk;
            (e.app == d.app && e.req == d.req)
            <==> KeepsApp(FirstFault(d, f).value, f) && KeepsRequirements(d, r, FirstFault(d, f).value, f)
  {
    var w := World(d, [d]);
    AppKeptExactly(d, r, f);
    ForwardStops(d, w, r, f);
    ForwardReaches(d, w, r, f);
    if KeepsApp(FirstFault(d, f).value, f) {
      HandlerKeepsRequirements(d, Forward(w, r, f), r, f);
    }
  }

  /** When the new tree is in app after the call, failed or not. */
  predicate NewStays(fault: Option<Site>, f: Faults) {
    match fault
    case None => true
    case Some(DropReqBak) => true
    case Some(site) => Swapped(site) && UndoRefused(f)
  }

  /** A failed update leaves its tree in app, exactly when nothing is left to move back or the
      handler cannot remove it. */
  lemma NewStaysExactly(d: Disk, r: Release, f: Faults)
    requires d.app.Complete?
    ensures NewStays(FirstFault(d, f), f) ==> Apply(d, r, f).world.disk.app == Complete(r.version)
    ensures d.app.version != r.version && !NewStays(FirstFault(d, f), f) ==>
              Apply(d, r, f).world.disk.app != Complete(r.version)
  {
    var w := World(d, [d]);
    ForwardStops(d, w, r, f);
    ForwardReaches(d, w, r, f);
    LeaveStays(d, Forward(w, r, f), r, f);
  }

  lemma LeaveStays(d: Disk, a: Attempt, r: Release, f: Faults)
    requires d.app.Complete? && ForwardFacts(d, a, r, f)
    ensures NewStays(a.raised, f) ==> Leave(a, f).world.disk.app == Complete(r.version)
    ensures d.app.version != r.version && !NewStays(a.raised, f) ==>
              Leave(a, f).world.disk.app != Complete(r.version)
  {
    if a.raised.Some? {
      LeaveFailed(a, f);
    } else {
      LeaveInstalled(a, f);
    }
  }

  /** The same by the failing call, when the handler raises nowhere. */
  lemma RestoredByWholeHandler(d: Disk, r: Release, f: Faults)
    requires d.app.Complete? && d.app.version != r.version && !d.req.Torn?
    requires FirstFault(d, f).Some?
    requires UndoCompletes(f) && f(UndoCopyReq).Completes?
    ensures var e := Apply(d, r, f).world.disk;
            (e.app == d.app && e.req == d.req) <==> Restorable(d, FirstFault(d, f).value, f)
  {
    RestoredExactly(d, r, f);
    FirstFaultFires(d, f);
    WholeHandlerConditions(d, r, FirstFault(d, f).value, f);
  }

  lemma FirstFaultFires(d: Disk, f: Faults)
    ensures FirstFault(d, f).Some? ==> Executes(d, FirstFault(d, f).value) && f(FirstFault(d, f).value).Raises?
    ensures FirstFault(d, f).None? <==> forall s :: Fires(d, f, s).None?
  {
  }

  lemma WholeHandlerConditions(d: Disk, r: Release, site: Site, f: Faults)
    requires !d.req.Torn? && Executes(d, site) && f(site).Raises?
    requires UndoCompletes(f) && f(UndoCopyReq).Completes?
    ensures KeepsApp(site, f) && KeepsRequirements(d, r, site, f) <==> Restorable(d, site, f)
  {
    match f(site).reach
    case Untouched =>
    case Halfway =>
    case Fully =>
  }

  // ---------- failure: what else is left ----------

  function UndoFires(f: Faults, site: Site): Option<Site> {
    if f(site).Raises? then Some(site) else None
  }

  // The handler finds a tree in app.bak to move back.
  predicate MovesBack(d: Disk, site: Site) {
    site in {BackupReq, CopyReq, Pip, DropBak} && !d.app.Absent?
  }

  // It finds a requirements.txt.bak.
  predicate CopiesBack(d: Disk, site: Site, f: Faults) {
    site == DropReqBak || !BackupAt(d, site, f).NoFile?
  }

  /** The first call of the handler that raises after a failure at `site`. */
  function UndoFault(d: Disk, site: Site, f: Faults): Option<Site> {
    Or(if MovesBack(d, site) then Or(UndoFires(f, UndoRemoveApp), UndoFires(f, UndoMoveBack)) else None,
       if CopiesBack(d, site, f) then Or(UndoFires(f, UndoCopyReq), UndoFires(f, UndoDropReqBak)) else None)
  }

  // The calls of the handler on app.bak, and what a handler that runs through leaves of it.
  lemma UndoSwapStops(w: World, f: Faults)
    requires !w.disk.app.Absent?
    ensures var a := UndoSwap(w, f);
            && a.raised == Or(UndoFires(f, UndoRemoveApp), UndoFires(f, UndoMoveBack))
            && a.world.disk.reqBak == w.disk.reqBak && a.world.disk.extract == w.disk.extract
            && (a.raised.None? ==> a.world.disk.bak.Absent?)
  {
  }

  lemma UndoFilesStops(w: World, f: Faults)
    ensures var a := UndoFiles(w, f);
            && a.raised == (if w.disk.reqBak.NoFile? then None
                            else Or(UndoFires(f, UndoCopyReq), UndoFires(f, UndoDropReqBak)))
            && a.world.disk.extract == w.disk.extract && a.world.disk.bak == w.disk.bak
            && (a.raised.None? ==> a.world.disk.reqBak.NoFile?)
            && (a.raised.None? && f(DropStaging).Completes? ==> a.world.disk.staging.Absent?)
  {
  }

  lemma RollbackStops(w: World, site: Site, f: Faults)
    requires Swapped(site) ==> !w.disk.app.Absent?
    ensures var a := Rollback(w, site, f);
            && a.raised == Or(if Swapped(site) && !w.disk.bak.Absent?
                              then Or(UndoFires(f, UndoRemoveApp), UndoFires(f, UndoMoveBack)) else None,
                              if w.disk.reqBak.NoFile? then None
                              else Or(UndoFires(f, UndoCopyReq), UndoFires(f, UndoDropReqBak)))
            && a.world.disk.extract == w.disk.extract
            && (a.raised.None? ==>
                  && a.world.disk.reqBak.NoFile?
                  && (if Swapped(site) then a.world.disk.bak.Absent? else a.world.disk.bak == w.disk.bak)
                  && (f(DropStaging).Completes? ==> a.world.disk.staging.Absent?))
  {
    if Swapped(site) && !w.disk.bak.Absent? {
      UndoSwapStops(w, f);
      UndoFilesStops(UndoSwap(w, f).world, f);
    } else {
      UndoFilesStops(w, f);
    }
  }

  // The handler, entered with what the `try` block left.
  lemma HandlerStops(d: Disk, a: Attempt, r: Release, f: Faults)
    requires a.raised.Some? && ForwardFacts(d, a, r, f)
    requires a.raised == Some(DropReqBak) ==> !a.world.disk.reqBak.NoFile?
    ensures Leave(a, f).undoRaised == UndoFault(d, a.raised.value, f)
    ensures var e := Leave(a, f).world.disk;
            && (UndoFault(d, a.raised.value, f).None? ==>
                  && e.reqBak.NoFile?
                  && (if Swapped(a.raised.value) then e.bak.Absent? else e.bak == a.world.disk.bak)
                  && (f(DropStaging).Completes? ==> e.staging.Absent?))
            && (if a.raised == Some(Download) then e.extract == a.world.disk.extract
                else f(DropExtract).Completes? ==> e.extract.Absent?)
  {
    RollbackStops(a.world, a.raised.value, f);
    FinishLeavesRest(Rollback(a.world, a.raised.value, f).world, a.raised, f);
    BackupAtFacts(d, a, r, f);
  }

  lemma FinishLeavesRest(w: World, raised: Option<Site>, f: Faults)
    ensures var e := Finish(w, raised, f).disk;
            && SameInstall(w.disk, e) && e.staging == w.disk.staging
            && (if raised == Some(Download) then e.extract == w.disk.extract
                else f(DropExtract).Completes? ==> e.extract.Absent?)
  {
  }

  // app.bak and requirements.txt.bak as the handler finds them.
  lemma BackupAtFacts(d: Disk, a: Attempt, r: Release, f: Faults)
    requires a.raised.Some? && ForwardFacts(d, a, r, f)
    ensures a.raised.value != DropReqBak ==> a.world.disk.reqBak == BackupAt(d, a.raised.value, f)
    ensures Swapped(a.raised.value) ==>
              && !a.world.disk.app.Absent?
              && (a.world.disk.bak.Absent? <==> !MovesBack(d, a.raised.value))
  {
    if a.raised == Some(BackupReq) {
      match f(BackupReq).reach
      case Untouched =>
      case Halfway =>
      case Fully =>
    }
  }

  /** A failed update raises, within its handler, at exactly the first call that raises there. */
  lemma HandlerFailsAtUndoFault(d: Disk, r: Release, f: Faults)
    requires FirstFault(d, f).Some?
    ensures Apply(d, r, f).undoRaised == UndoFault(d, FirstFault(d, f).value, f)
  {
    var w := World(d, [d]);
    ForwardStops(d, w, r, f);
    ForwardReaches(d, w, r, f);
    if FirstFault(d, f) == Some(DropReqBak) {
      UnlinkFailsOverBackup(d, w, r, f);
    }
    HandlerStops(d, Forward(w, r, f), r, f);
  }

  lemma UnlinkFailsOverBackup(d: Disk, w: World, r: Release, f: Faults)
    requires w.disk == d && Forward(w, r, f).raised == Some(DropReqBak)
    ensures !Forward(w, r, f).world.disk.reqBak.NoFile?
  {
    var p := Prepare(w, r, f).world;
    var q := Swap(p, f).world;
    PrepareEffect(w, r, f);
    SwapEffect(p, f);
    RequireEffect(q, r, f);
    UnlinkFails(Require(q, r, f).world, f);
  }

  lemma UnlinkFails(w: World, f: Faults)
    requires Cleanup(w, f).raised == Some(DropReqBak)
    ensures !Cleanup(w, f).world.disk.reqBak.NoFile?
  {
  }

  /** When nothing raises in the handler, a failed update leaves no requirements.txt.bak and, if
      both directories could be discarded, neither app.new nor an extracted archive, unless the
      download itself failed, which has not touched the latter. */
  lemma NothingLeftOver(d: Disk, r: Release, f: Faults)
    requires FirstFault(d, f).Some?
    ensures var site, e := FirstFault(d, f).value, Apply(d, r, f).world.disk;
            && (UndoFault(d, site, f).None? ==>
                  && e.reqBak.NoFile?
                  && (Swapped(site) ==> e.bak.Absent?)
                  && (f(DropStaging).Completes? ==> e.staging.Absent?))
            && (if site == Download then e.extract == d.extract
                else f(DropExtract).Completes? ==> e.extract.Absent?)
  {
    var w := World(d, [d]);
    ForwardStops(d, w, r, f);
    ForwardReaches(d, w, r, f);
    if FirstFault(d, f) == Some(DropReqBak) {
      UnlinkFailsOverBackup(d, w, r, f);
    }
    HandlerStops(d, Forward(w, r, f), r, f);
    DownloadTouchesNothing(w, r, f);
  }

  lemma DownloadTouchesNothing(w: World, r: Release, f: Faults)
    ensures Forward(w, r, f).raised == Some(Download) ==> Forward(w, r, f).world == w
  {
    if f(Download).Raises? {
      assert Fetch(w, r, f) == Attempt(w, Some(Download));
    } else {
      PrepareStops(w, r, f);
      ForwardStops(w.disk, w, r, f);
    }
  }

  /** A normal return means everything is new and nothing is left over. */
  lemma InstalledIsAllNew(d: Disk, r: Release, f: Faults)
    requires Apply(d, r, f).raised.None?
    ensures var e := Apply(d, r, f).world.disk;
            && e.app == Complete(r.version) && e.req == Whole(r.req)
            && e.bak.Absent? && e.staging.Absent? && e.reqBak.NoFile?
            && (f(DropExtract).Completes? ==> e.extract.Absent?)
  {
    ForwardReaches(d, World(d, [d]), r, f);
    LeaveInstalled(Forward(World(d, [d]), r, f), f);
  }

  lemma LeaveInstalled(a: Attempt, f: Faults)
    requires a.raised.None?
    ensures var e := Leave(a, f).world.disk;
            && SameInstall(a.world.disk, e) && e.staging == a.world.disk.staging
            && (f(DropExtract).Completes? ==> e.extract.Absent?)
  {
  }

  /** It fails only because a call raised, and not when none would. */
  lemma RaisedBlamesAFault(d: Disk, r: Release, f: Faults)
    ensures var raised := Apply(d, r, f).raised;
            raised.Some? ==> f(raised.value).Raises?
    ensures (forall s :: f(s).Completes?) ==> Apply(d, r, f).raised.None?
  {
    FailsAtFirstFault(d, r, f);
    FirstFaultFires(d, f);
  }

  // ---------- the failures happen ----------

  // Exactly one call raises, after having done part of its work.
  function Only(site: Site, reach: Reach): Faults {
    s => if s == site then Raises(reach) else Completes
  }

  lemma OnlyFirst(d: Disk, site: Site, reach: Reach)
    ensures FirstFault(d, Only(site, reach)) == if Executes(d, site) then Some(site) else None
    ensures !(site in {UndoRemoveApp, UndoMoveBack, UndoCopyReq, UndoDropReqBak, DropStaging}) ==>
              var f := Only(site, reach);
              UndoCompletes(f) && f(UndoCopyReq).Completes? && f(site) == Raises(reach)
  {
    FirstFaultFires(d, Only(site, reach));
  }

  /** Every call that apply makes can be the one that fails. */
  lemma EachCallCanFail(d: Disk, r: Release, site: Site, reach: Reach)
    ensures Apply(d, r, Only(site, reach)).raised == if Executes(d, site) then Some(site) else None
  {
    FailsAtFirstFault(d, r, Only(site, reach));
    OnlyFirst(d, site, reach);
  }

  /** Dropping requirements.txt.bak fails after the commit: the new tree over the old requirements. */
  lemma FailedCleanupMixes(d: Disk, r: Release, f: Faults)
    requires d.req.Whole? && FirstFault(d, f) == Some(DropReqBak) && f(UndoCopyReq).Completes?
    ensures var e := Apply(d, r, f).world.disk; e.app == Complete(r.version) && e.req == d.req
  {
    var w := World(d, [d]);
    ForwardStops(d, w, r, f);
    ForwardReaches(d, w, r, f);
    BackupLeftByCleanup(d, w, r, f);
    LeaveFailed(Forward(w, r, f), f);
  }

  // When the last call fails, requirements.txt.bak still holds the old file.
  lemma BackupLeftByCleanup(d: Disk, w: World, r: Release, f: Faults)
    requires w.disk == d && d.req.Whole? && Forward(w, r, f).raised == Some(DropReqBak)
    ensures Forward(w, r, f).world.disk.reqBak == d.req
  {
    PrepareEffect(w, r, f);
    var p := Prepare(w, r, f).world;
    SwapEffect(p, f);
    var q := Swap(p, f).world;
    RequireEffect(q, r, f);
    CleanupLeaves(Require(q, r, f).world, f);
  }

  lemma CleanupLeaves(w: World, f: Faults)
    requires Cleanup(w, f).raised.Some?
    ensures Cleanup(w, f).world.disk.reqBak == w.disk.reqBak
  {
  }

  /** Backing up requirements.txt breaks half way: the old tree runs on over a torn file. */
  lemma HalfBackupTears(d: Disk, r: Release, f: Faults)
    requires d.app.Complete? && FirstFault(d, f) == Some(BackupReq) && f(BackupReq) == Raises(Halfway)
    requires UndoCompletes(f) && f(UndoCopyReq).Completes?
    ensures var e := Apply(d, r, f).world.disk; e.app == d.app && e.req == Torn
  {
    var w := World(d, [d]);
    ForwardStops(d, w, r, f);
    ForwardReaches(d, w, r, f);
    LeaveFailed(Forward(w, r, f), f);
  }

  /** The second rename fails: nothing is left in app, and the old tree is in app.bak. */
  lemma FailedMoveLeavesNoApp(d: Disk, r: Release, f: Faults)
    requires FirstFault(d, f) == Some(MoveAppIn)
    ensures Apply(d, r, f).world.disk.app.Absent?
  {
    var w := World(d, [d]);
    ForwardStops(d, w, r, f);
    ForwardReaches(d, w, r, f);
    LeaveFailed(Forward(w, r, f), f);
  }

  /** The download fails beside a stale backup: it replaces requirements.txt. */
  lemma StaleBackupReplaces(d: Disk, r: Release, f: Faults)
    requires FirstFault(d, f) == Some(Download) && !d.reqBak.NoFile? && f(UndoCopyReq).Completes?
    ensures var e := Apply(d, r, f).world.disk; e.app == d.app && e.req == d.reqBak
  {
    var w := World(d, [d]);
    ForwardStops(d, w, r, f);
    ForwardReaches(d, w, r, f);
    LeaveFailed(Forward(w, r, f), f);
  }

  /** On every directory with a complete tree and a requirements.txt, each of these happens when
      one call fails and no other: a torn file, no tree, a stale file, a mixture. */
  lemma RestorationCanFail(d: Disk, r: Release)
    requires d.app.Complete? && d.req.Whole?
    ensures Apply(d, r, Only(BackupReq, Halfway)).world.disk.req == Torn
    ensures Apply(d, r, Only(MoveAppIn, Untouched)).world.disk.app.Absent?
    ensures !d.reqBak.NoFile? ==> Apply(d, r, Only(Download, Untouched)).world.disk.req == d.reqBak
    ensures var e := Apply(d, r, Only(DropReqBak, Untouched)).world.disk;
            e.app == Complete(r.version) && e.req == d.req
  {
    OnlyBackupFails(d, r);
    OnlyMoveFails(d, r);
    if !d.reqBak.NoFile? {
      OnlyDownloadFails(d, r);
    }
    OnlyUnlinkFails(d, r);
  }

  lemma OnlyBackupFails(d: Disk, r: Release)
    requires d.app.Complete? && d.req.Whole?
    ensures Apply(d, r, Only(BackupReq, Halfway)).world.disk.req == Torn
  {
    OnlyFirst(d, BackupReq, Halfway);
    HalfBackupTears(d, r, Only(BackupReq, Halfway));
  }

  lemma OnlyMoveFails(d: Disk, r: Release)
    ensures Apply(d, r, Only(MoveAppIn, Untouched)).world.disk.app.Absent?
  {
    OnlyFirst(d, MoveAppIn, Untouched);
    FailedMoveLeavesNoApp(d, r, Only(MoveAppIn, Untouched));
  }

  lemma OnlyDownloadFails(d: Disk, r: Release)
    requires !d.reqBak.NoFile?
    ensures Apply(d, r, Only(Download, Untouched)).world.disk.req == d.reqBak
  {
    OnlyFirst(d, Download, Untouched);
    StaleBackupReplaces(d, r, Only(Download, Untouched));
  }

  lemma OnlyUnlinkFails(d: Disk, r: Release)
    requires d.req.Whole?
    ensures var e := Apply(d, r, Only(DropReqBak, Untouched)).world.disk;
            e.app == Complete(r.version) && e.req == d.req
  {
    OnlyFirst(d, DropReqBak, Untouched);
    FailedCleanupMixes(d, r, Only(DropReqBak, Untouched));
  }

  // ---------- what a stale backup does to a later update ----------

  lemma RequireVisits(w: World, r: Release, f: Faults)
    requires w.disk.req.Whole? && Require(w, r, f).raised.None?
    ensures Require(w, r, f).world.disk in Require(w, r, f).world.trail
    ensures Require(w, r, f).world.disk == w.disk.(req := Whole(r.req), reqBak := w.disk.req)
  {
  }

  lemma CleanupKeeps(w: World, f: Faults, s: Disk)
    requires s in w.trail
    ensures s in Cleanup(w, f).world.trail
  {
  }

  /** A process that dies while a good update runs pip leaves requirements.txt.bak behind; the
      next update, failing as early as its download, then puts the old requirements.txt back
      under the new tree. */
  lemma InterruptedThenFailed(d: Disk, r: Release, f: Faults, r2: Release, f2: Faults)
    requires d.req.Whole? && Apply(d, r, f).raised.None?
    requires f2(Download).Raises? && f2(UndoCopyReq).Completes? && f2(UndoDropReqBak).Completes?
    ensures exists s ::
              && s in Apply(d, r, f).world.trail
              && s.app == Complete(r.version) && s.req == Whole(r.req)
              && Apply(s, r2, f2).world.disk.app == s.app && Apply(s, r2, f2).world.disk.req == d.req
  {
    var w := World(d, [d]);
    PrepareEffect(w, r, f);
    var p := Prepare(w, r, f).world;
    SwapEffect(p, f);
    var q := Swap(p, f).world;
    var s := DiesInPip(d, q, r, f);
    FailedDownloadRestoresBackup(s, r2, f2);
    assert s in Apply(d, r, f).world.trail;
  }

  lemma DiesInPip(d: Disk, q: World, r: Release, f: Faults) returns (s: Disk)
    requires q.disk.app == Complete(r.version) && q.disk.req == d.req && d.req.Whole?
    requires AfterSwap(q, r, f).raised.None?
    ensures s.app == Complete(r.version) && s.req == Whole(r.req) && s.reqBak == d.req
    ensures s in Leave(AfterSwap(q, r, f), f).world.trail
  {
    RequireVisits(q, r, f);
    var w := Require(q, r, f).world;
    s := w.disk;
    CleanupKeeps(w, f, s);
  }

  lemma FailedDownloadRestoresBackup(s: Disk, r: Release, f: Faults)
    requires s.reqBak.Whole?
    requires f(Download).Raises? && f(UndoCopyReq).Completes? && f(UndoDropReqBak).Completes?
    ensures var e := Apply(s, r, f).world.disk; e.app == s.app && e.req == s.reqBak
  {
  }
}
