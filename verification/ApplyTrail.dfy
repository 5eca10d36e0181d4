/** The trail of an apply begins with the directory it found and ends with the one it leaves. */
module ApplyTrail {
  import opened Wrappers
  import opened InstallRoot

  ghost predicate Tracks(w: World, d: Disk) {
    w.trail != [] && w.trail[0] == d && w.trail[|w.trail| - 1] == w.disk
  }

  lemma FetchTracks(d: Disk, w: World, r: Release, f: Faults)
    requires Tracks(w, d)
    ensures Tracks(Fetch(w, r, f).world, d)
  {
  }

  lemma StageAppTracks(d: Disk, w: World, f: Faults)
    requires Tracks(w, d)
    ensures Tracks(StageApp(w, f).world, d)
  {
  }

  lemma PrepareTracks(d: Disk, w: World, r: Release, f: Faults)
    requires Tracks(w, d)
    ensures Tracks(Prepare(w, r, f).world, d)
  {
    FetchTracks(d, w, r, f);
    if Fetch(w, r, f).raised.None? {
      StageAppTracks(d, Fetch(w, r, f).world, f);
    }
  }

  lemma SwapTracks(d: Disk, w: World, f: Faults)
    requires Tracks(w, d)
    ensures Tracks(Swap(w, f).world, d)
  {
  }

  lemma RequireTracks(d: Disk, w: World, r: Release, f: Faults)
    requires Tracks(w, d)
    ensures Tracks(Require(w, r, f).world, d)
  {
  }

  lemma CleanupTracks(d: Disk, w: World, f: Faults)
    requires Tracks(w, d)
    ensures Tracks(Cleanup(w, f).world, d)
  {
  }

  lemma AfterSwapTracks(d: Disk, w: World, r: Release, f: Faults)
    requires Tracks(w, d)
    ensures Tracks(AfterSwap(w, r, f).world, d)
  {
    RequireTracks(d, w, r, f);
    if Require(w, r, f).raised.None? {
      CleanupTracks(d, Require(w, r, f).world, f);
    }
  }

  lemma AfterPrepareTracks(d: Disk, w: World, r: Release, f: Faults)
    requires Tracks(w, d)
    ensures Tracks(AfterPrepare(w, r, f).world, d)
  {
    SwapTracks(d, w, f);
    if Swap(w, f).raised.None? {
      AfterSwapTracks(d, Swap(w, f).world, r, f);
    }
  }

  lemma ForwardTracks(d: Disk, w: World, r: Release, f: Faults)
    requires Tracks(w, d)
    ensures Tracks(Forward(w, r, f).world, d)
  {
    PrepareTracks(d, w, r, f);
    if Prepare(w, r, f).raised.None? {
      AfterPrepareTracks(d, Prepare(w, r, f).world, r, f);
    }
  }

  lemma UndoSwapTracks(d: Disk, w: World, f: Faults)
    requires Tracks(w, d)
    ensures Tracks(UndoSwap(w, f).world, d)
  {
  }

  lemma UndoFilesTracks(d: Disk, w: World, f: Faults)
    requires Tracks(w, d)
    ensures Tracks(UndoFiles(w, f).world, d)
  {
  }

  lemma RollbackTracks(d: Disk, w: World, site: Site, f: Faults)
    requires Tracks(w, d)
    ensures Tracks(Rollback(w, site, f).world, d)
  {
    if Swapped(site) && !w.disk.bak.Absent? {
      UndoSwapTracks(d, w, f);
      if UndoSwap(w, f).raised.None? {
        UndoFilesTracks(d, UndoSwap(w, f).world, f);
      }
    } else {
      UndoFilesTracks(d, w, f);
    }
  }

  lemma FinishTracks(d: Disk, w: World, raised: Option<Site>, f: Faults)
    requires Tracks(w, d)
    ensures Tracks(Finish(w, raised, f), d)
  {
  }

  lemma LeaveTracks(d: Disk, a: Attempt, f: Faults)
    requires Tracks(a.world, d)
    ensures Tracks(Leave(a, f).world, d)
  {
    if a.raised.Some? {
      RollbackTracks(d, a.world, a.raised.value, f);
      FinishTracks(d, Rollback(a.world, a.raised.value, f).world, a.raised, f);
    } else {
      FinishTracks(d, a.world, None, f);
    }
  }

  lemma ApplyTracks(d: Disk, r: Release, f: Faults)
    ensures Tracks(Apply(d, r, f).world, d)
  {
    ForwardTracks(d, World(d, [d]), r, f);
    LeaveTracks(d, Forward(World(d, [d]), r, f), f);
  }
}
