/** Every state the install directory passes through during one apply, including its
    rollback and the middle of every call. */
module CrashSafety {
  import opened Wrappers
  import opened InstallRoot
  import opened UpdateTransaction

  // A condition on the pair (app, app.bak).
  type Check = (Tree, Tree) -> bool

  ghost predicate Always(trail: seq<Disk>, p: Check) {
    forall s | s in trail :: p(s.app, s.bak)
  }

  ghost predicate Good(w: World, p: Check) {
    Always(w.trail, p) && p(w.disk.app, w.disk.bak)
  }

  // The pairs the `try` block can pass through: old is the running tree, stale what app.bak held.
  ghost predicate ForwardPairs(p: Check, running: Tree, stale: Tree, incoming: Tree) {
    && p(running, stale) && p(running, Partial) && p(running, Absent) && p(Absent, running)
    && p(incoming, running) && p(incoming, Partial) && p(incoming, Absent)
  }

  // The pairs the handler can pass through when it moves `saved` back.
  ghost predicate UndoPairs(p: Check, saved: Tree) {
    p(Partial, saved) && p(Absent, saved) && p(saved, Absent)
  }

  // The handler gives up before it has touched the new tree.
  predicate UndoStops(d: Disk, f: Faults) {
    !d.app.Absent? && f(UndoRemoveApp) == Raises(Untouched)
  }

  lemma FetchTrail(w: World, r: Release, f: Faults, p: Check)
    requires Good(w, p)
    ensures Good(Fetch(w, r, f).world, p)
    ensures var e := Fetch(w, r, f).world.disk; e.app == w.disk.app && e.bak == w.disk.bak
  {
  }

  lemma StageAppTrail(w: World, f: Faults, p: Check)
    requires Good(w, p)
    ensures Good(StageApp(w, f).world, p)
  {
  }

  lemma PrepareTrail(w: World, r: Release, f: Faults, p: Check)
    requires Good(w, p)
    ensures Good(Prepare(w, r, f).world, p)
  {
    FetchTrail(w, r, f, p);
    var a := Fetch(w, r, f);
    if a.raised.None? {
      StageAppTrail(a.world, f, p);
    }
  }

  lemma SwapTrail(w: World, f: Faults, p: Check)
    requires Good(w, p) && ForwardPairs(p, w.disk.app, w.disk.bak, w.disk.staging)
    ensures Good(Swap(w, f).world, p)
  {
  }

  lemma RequireTrail(w: World, r: Release, f: Faults, p: Check)
    requires Good(w, p)
    ensures Good(Require(w, r, f).world, p)
  {
  }

  lemma CleanupTrail(w: World, f: Faults, p: Check)
    requires Good(w, p) && p(w.disk.app, Partial) && p(w.disk.app, Absent)
    ensures Good(Cleanup(w, f).world, p)
  {
  }

  lemma UndoSwapTrail(w: World, f: Faults, p: Check)
    requires Good(w, p)
    requires UndoPairs(p, w.disk.bak) || UndoStops(w.disk, f)
    ensures Good(UndoSwap(w, f).world, p)
  {
  }

  lemma UndoFilesTrail(w: World, f: Faults, p: Check)
    requires Good(w, p)
    ensures Good(UndoFiles(w, f).world, p)
  {
  }

  lemma RollbackTrail(w: World, site: Site, f: Faults, p: Check)
    requires Good(w, p)
    requires Swapped(site) && !w.disk.bak.Absent? ==> UndoPairs(p, w.disk.bak) || UndoStops(w.disk, f)
    ensures Good(Rollback(w, site, f).world, p)
  {
    if Swapped(site) && !w.disk.bak.Absent? {
      UndoSwapTrail(w, f, p);
      var a := UndoSwap(w, f);
      if a.raised.None? {
        UndoFilesTrail(a.world, f, p);
      }
    } else {
      UndoFilesTrail(w, f, p);
    }
  }

  lemma FinishTrail(w: World, raised: Option<Site>, f: Faults, p: Check)
    requires Good(w, p)
    ensures Good(Finish(w, raised, f), p)
  {
  }

  lemma AfterSwapTrail(w: World, r: Release, f: Faults, p: Check)
    requires Good(w, p) && p(w.disk.app, Partial) && p(w.disk.app, Absent)
    ensures Good(AfterSwap(w, r, f).world, p)
  {
    RequireTrail(w, r, f, p);
    RequireEffect(w, r, f);
    var a := Require(w, r, f);
    if a.raised.None? {
      CleanupTrail(a.world, f, p);
    }
  }

  lemma AfterPrepareTrail(w: World, r: Release, f: Faults, p: Check)
    requires Good(w, p)
    requires ForwardPairs(p, w.disk.app, w.disk.bak, w.disk.staging)
    ensures Good(AfterPrepare(w, r, f).world, p)
  {
    SwapTrail(w, f, p);
    SwapEffect(w, f);
    var a := Swap(w, f);
    if a.raised.None? {
      AfterSwapTrail(a.world, r, f, p);
    }
  }

  lemma ForwardTrail(w: World, r: Release, f: Faults, p: Check)
    requires Good(w, p)
    requires ForwardPairs(p, w.disk.app, w.disk.bak, Complete(r.version))
    ensures Good(Forward(w, r, f).world, p)
  {
    PrepareTrail(w, r, f, p);
    PrepareEffect(w, r, f);
    var a := Prepare(w, r, f);
    if a.raised.None? {
      AfterPrepareTrail(a.world, r, f, p);
    }
  }

  lemma LeaveTrail(a: Attempt, f: Faults, p: Check)
    requires Good(a.world, p)
    requires a.raised.Some? && Swapped(a.raised.value) && !a.world.disk.bak.Absent?
             ==> UndoPairs(p, a.world.disk.bak) || UndoStops(a.world.disk, f)
    ensures Good(Leave(a, f).world, p)
  {
    if a.raised.Some? {
      RollbackTrail(a.world, a.raised.value, f, p);
      var b := Rollback(a.world, a.raised.value, f);
      FinishTrail(b.world, a.raised, f, p);
    } else {
      FinishTrail(a.world, None, f, p);
    }
  }

  // ---------- no state without a tree ----------

  predicate OneComplete(app: Tree, bak: Tree) {
    app.Complete? || bak.Complete?
  }

  // The final cleanup broke app.bak, and the handler then broke app.
  predicate LosesBoth(site: Option<Site>, f: Faults) {
    && site == Some(DropBak)
    && f(DropBak) != Raises(Untouched)
    && f(UndoRemoveApp) != Raises(Untouched)
  }

  /** Starting from a complete tree, with anything at all left over beside it, one of app and
      app.bak is a complete tree at every moment of the update and of its rollback, unless and
      only unless the cleanup after the commit breaks app.bak and the handler goes on to
      remove app. */
  lemma AlwaysOneComplete(d: Disk, r: Release, f: Faults)
    requires d.app.Complete?
    ensures Always(Apply(d, r, f).world.trail, OneComplete)
            <==> !LosesBoth(FirstFault(d, f), f)
  {
    var w := World(d, [d]);
    ForwardStops(d, w, r, f);
    var a := Forward(w, r, f);
    ForwardTrail(w, r, f, OneComplete);
    ForwardReaches(d, w, r, f);
    LeaveOneComplete(d, a, r, f);
  }

  lemma LeaveOneComplete(d: Disk, a: Attempt, r: Release, f: Faults)
    requires d.app.Complete?
    requires Good(a.world, OneComplete) && ForwardFacts(d, a, r, f)
    ensures Leave(a, f).raised == a.raised
    ensures Always(Leave(a, f).world.trail, OneComplete) <==> !LosesBoth(a.raised, f)
  {
    if LosesBoth(a.raised, f) {
      var broken := a.world.disk.(app := Partial);
      UndoVisits(a.world, f);
      LeaveKeepsUndo(a, f, broken);
      assert !OneComplete(broken.app, broken.bak);
    } else {
      LeaveTrail(a, f, OneComplete);
    }
  }

  lemma UndoVisits(w: World, f: Faults)
    requires !w.disk.app.Absent? && f(UndoRemoveApp) != Raises(Untouched)
    ensures w.disk.(app := Partial) in UndoSwap(w, f).world.trail
  {
  }

  lemma UndoFilesKeep(w: World, f: Faults, s: Disk)
    requires s in w.trail
    ensures s in UndoFiles(w, f).world.trail
  {
  }

  lemma LeaveKeepsUndo(a: Attempt, f: Faults, s: Disk)
    requires a.raised.Some? && Swapped(a.raised.value) && !a.world.disk.bak.Absent?
    requires s in UndoSwap(a.world, f).world.trail
    ensures s in Leave(a, f).world.trail
  {
    var u := UndoSwap(a.world, f);
    if u.raised.None? {
      UndoFilesKeep(u.world, f, s);
    }
  }

  /** When it happens and the handler runs through, no complete tree is left in the end. */
  lemma BrokenCleanupLosesBoth(d: Disk, r: Release, f: Faults)
    requires d.app.Complete? && LosesBoth(FirstFault(d, f), f) && UndoCompletes(f)
    ensures var e := Apply(d, r, f).world.disk; e.app.Partial? && e.bak.Absent?
  {
    var w := World(d, [d]);
    ForwardStops(d, w, r, f);
    ForwardReaches(d, w, r, f);
    LeaveBroken(Forward(w, r, f), f);
  }

  /** And it does happen, on every directory with a complete tree, when only the removal of app.bak
      breaks half way. */
  lemma BothCanBeLost(d: Disk, r: Release)
    requires d.app.Complete?
    ensures LosesBoth(FirstFault(d, Only(DropBak, Halfway)), Only(DropBak, Halfway))
    ensures var e := Apply(d, r, Only(DropBak, Halfway)).world.disk; e.app.Partial? && e.bak.Absent?
  {
    OnlyFirst(d, DropBak, Halfway);
    BrokenCleanupLosesBoth(d, r, Only(DropBak, Halfway));
  }

  lemma LeaveBroken(a: Attempt, f: Faults)
    requires a.raised == Some(DropBak) && !a.world.disk.app.Absent? && a.world.disk.bak.Partial?
    requires UndoCompletes(f)
    ensures var e := Leave(a, f).world.disk; e.app.Partial? && e.bak.Absent?
  {
    LeaveFailed(a, f);
    HandlerTakesBak(a.world, f);
    FinishEffect(Rollback(a.world, DropBak, f).world, a.raised, f);
  }

  lemma HandlerTakesBak(w: World, f: Faults)
    requires !w.disk.bak.Absent? && UndoCompletes(f)
    ensures Rollback(w, DropBak, f).world.disk.bak.Absent?
  {
    UndoSwapTakesBak(w, f);
    UndoFilesEffect(UndoSwap(w, f).world, f);
  }

  lemma UndoSwapTakesBak(w: World, f: Faults)
    requires UndoCompletes(f)
    ensures UndoSwap(w, f).raised.None? && UndoSwap(w, f).world.disk.bak.Absent?
  {
  }

  // ---------- the moment between the two renames ----------

  // The failing call comes before app is moved away, or is that call.
  predicate BeforeSwap(fault: Option<Site>) {
    && fault.Some?
    && fault.value in {Download, ClearExtract, Unpack, ClearStaging, CopyApp, ClearBak, MoveAppAway}
  }

  /** An update passes through a state without app, the old tree being in app.bak, if and only if
      it gets as far as moving app away. A process that dies there cannot be started again. */
  lemma MomentWithoutApp(d: Disk, r: Release, f: Faults)
    requires d.app.Complete?
    ensures BeforeSwap(FirstFault(d, f)) ==> forall s | s in Apply(d, r, f).world.trail :: s.app == d.app
    ensures !BeforeSwap(FirstFault(d, f)) ==>
              exists s :: s in Apply(d, r, f).world.trail && s.app.Absent? && s.bak == d.app
  {
    var w := World(d, [d]);
    ForwardStops(d, w, r, f);
    if BeforeSwap(FirstFault(d, f)) {
      var p: Check := (app, bak) => app == d.app;
      StopsBeforeSwap(w, r, f, p);
      LeaveTrail(Forward(w, r, f), f, p);
    } else {
      var s := PassesWithoutApp(w, r, f);
      LeaveKeeps(Forward(w, r, f), f, s);
    }
  }

  lemma StopsBeforeSwap(w: World, r: Release, f: Faults, p: Check)
    requires Good(w, p) && BeforeSwap(Forward(w, r, f).raised) && forall bak :: p(w.disk.app, bak)
    ensures Good(Forward(w, r, f).world, p)
  {
    PrepareTrail(w, r, f, p);
    PrepareEffect(w, r, f);
    var a := Prepare(w, r, f);
    if a.raised.None? {
      RequireAndCleanupNames(Swap(a.world, f).world, r, f);
      SwapStopsEarly(a.world, f, p);
    }
  }

  lemma RequireAndCleanupNames(w: World, r: Release, f: Faults)
    ensures !BeforeSwap(AfterSwap(w, r, f).raised)
  {
  }

  lemma SwapStopsEarly(w: World, f: Faults, p: Check)
    requires Good(w, p) && forall bak :: p(w.disk.app, bak)
    ensures BeforeSwap(Swap(w, f).raised) ==> Good(Swap(w, f).world, p)
  {
  }

  lemma PassesWithoutApp(w: World, r: Release, f: Faults) returns (s: Disk)
    requires w.disk.app.Complete? && !BeforeSwap(Forward(w, r, f).raised)
    ensures s in Forward(w, r, f).world.trail && s.app.Absent? && s.bak == w.disk.app
  {
    PrepareEffect(w, r, f);
    var p := Prepare(w, r, f).world;
    s := SwapPasses(p, f);
    var q := Swap(p, f);
    if q.raised.None? {
      RequireKeeps(q.world, r, f, s);
      if Require(q.world, r, f).raised.None? {
        CleanupKeeps(Require(q.world, r, f).world, f, s);
      }
    }
  }

  lemma SwapPasses(w: World, f: Faults) returns (s: Disk)
    requires w.disk.app.Complete? && !BeforeSwap(Swap(w, f).raised)
    ensures s in Swap(w, f).world.trail && s.app.Absent? && s.bak == w.disk.app
  {
    s := w.disk.(app := Absent, bak := w.disk.app);
  }

  lemma RequireKeeps(w: World, r: Release, f: Faults, s: Disk)
    requires s in w.trail
    ensures s in Require(w, r, f).world.trail
  {
  }

  lemma UndoSwapKeeps(w: World, f: Faults, s: Disk)
    requires s in w.trail
    ensures s in UndoSwap(w, f).world.trail
  {
  }

  lemma LeaveKeeps(a: Attempt, f: Faults, s: Disk)
    requires s in a.world.trail
    ensures s in Leave(a, f).world.trail
  {
    if a.raised.Some? {
      if Swapped(a.raised.value) && !a.world.disk.bak.Absent? {
        UndoSwapKeeps(a.world, f, s);
        LeaveKeepsUndo(a, f, s);
      } else {
        UndoFilesKeep(a.world, f, s);
      }
    }
  }

  // ---------- no state with a foreign tree ----------

  predicate Known(t: Tree, running: Tree, incoming: Tree) {
    t == running || t == incoming || t.Partial? || t.Absent?
  }

  /** Whatever raises or dies, and whatever lay about, a complete tree found in app is the
      one that was there or the one being installed. */
  lemma OnlyOldOrNew(d: Disk, r: Release, f: Faults)
    ensures forall s | s in Apply(d, r, f).world.trail :: Known(s.app, d.app, Complete(r.version))
    ensures Known(Apply(d, r, f).world.disk.app, d.app, Complete(r.version))
  {
    var p: Check := (app, bak) => Known(app, d.app, Complete(r.version));
    var w := World(d, [d]);
    var a := Forward(w, r, f);
    ForwardTrail(w, r, f, p);
    ForwardReaches(d, w, r, f);
    LeaveTrail(a, f, p);
    assert Good(Leave(a, f).world, p);
  }

  // ---------- why app has to be there at the start ----------

  predicate OnlyMoveInFails(f: Faults) {
    forall s :: f(s).Raises? <==> s == MoveAppIn
  }

  lemma UndoFilesLeaves(w: World, f: Faults)
    ensures f(UndoCopyReq).Completes? && f(UndoDropReqBak).Completes? && f(DropStaging).Completes?
            ==> UndoFiles(w, f).world.disk.staging.Absent?
  {
  }

  lemma FinishLeaves(w: World, raised: Option<Site>, f: Faults)
    ensures SameInstall(w.disk, Finish(w, raised, f).disk) && Finish(w, raised, f).disk.staging == w.disk.staging
  {
  }

  lemma LeftByFailedMove(a: Attempt, f: Faults)
    requires a.raised == Some(MoveAppIn)
    ensures var e := Leave(a, f).world.disk; e.app == a.world.disk.app && e.bak == a.world.disk.bak
    ensures f(UndoCopyReq).Completes? && f(UndoDropReqBak).Completes? && f(DropStaging).Completes?
            ==> Leave(a, f).world.disk.staging.Absent?
  {
    UndoFilesEffect(a.world, f);
    UndoFilesLeaves(a.world, f);
    FinishLeaves(UndoFiles(a.world, f).world, a.raised, f);
  }

  lemma MoveInFailsWithoutApp(w: World, r: Release, f: Faults)
    requires w.disk.app.Absent? && OnlyMoveInFails(f)
    ensures var a := Forward(w, r, f);
            a.raised == Some(MoveAppIn) && a.world.disk.app.Absent? && a.world.disk.bak.Absent?
  {
    FirstFaultFires(w.disk, f);
    ForwardStops(w.disk, w, r, f);
    ForwardReaches(w.disk, w, r, f);
  }

  /** After a failed second rename only app.bak holds a tree, and the panel goes on running. If the
      next update fails in the same place, it has cleared app.bak first: no tree is left at all. */
  lemma SecondFailedMoveLosesAll(d: Disk, r: Release, f: Faults, r2: Release, f2: Faults)
    requires d.app.Complete? && Apply(d, r, f).raised == Some(MoveAppIn) && OnlyMoveInFails(f2)
    ensures var e := Apply(d, r, f).world.disk;
            && e.app.Absent? && e.bak == d.app
            && var e2 := Apply(e, r2, f2).world.disk;
               e2.app.Absent? && e2.bak.Absent? && e2.staging.Absent?
  {
    ForwardReaches(d, World(d, [d]), r, f);
    LeftByFailedMove(Forward(World(d, [d]), r, f), f);
    RetryLosesAll(Apply(d, r, f).world.disk, r2, f2);
  }

  lemma RetryLosesAll(e: Disk, r: Release, f: Faults)
    requires e.app.Absent? && OnlyMoveInFails(f)
    ensures var e2 := Apply(e, r, f).world.disk; e2.app.Absent? && e2.bak.Absent? && e2.staging.Absent?
  {
    MoveInFailsWithoutApp(World(e, [e]), r, f);
    LeftByFailedMove(Forward(World(e, [e]), r, f), f);
  }
}
