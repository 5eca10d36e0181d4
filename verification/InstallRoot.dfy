/** The install directory while an update is applied to it: `app/`, the copies beside it,
    and requirements.txt, together with every state they pass through.

    Each filesystem call is one Site. Its Fate is chosen by the environment: it completes, or
    it raises after having done none, part or all of its work. The trail lists every state the
    directory goes through, including the ones in the middle of a call, so a statement about
    the whole trail is a statement about a process that may die at any moment. */
module InstallRoot {
  import opened Wrappers
  import opened Semver

  datatype Tree = Absent | Partial | Complete(version: Version)

  datatype File = NoFile | Torn | Whole(text: string)

  datatype Disk = Disk(app: Tree, bak: Tree, staging: Tree, extract: Tree, req: File, reqBak: File)

  // What the archive of a tag holds.
  datatype Release = Release(version: Version, req: string)

  datatype Dir = App | Bak | Staging | Extract

  datatype Slot = Req | ReqBak

  datatype Site =
    | Download | ClearExtract | Unpack | ClearStaging | CopyApp
    | ClearBak | MoveAppAway | MoveAppIn
    | BackupReq | CopyReq | Pip
    | DropBak | DropReqBak
    | UndoRemoveApp | UndoMoveBack | UndoCopyReq | UndoDropReqBak
    | DropStaging | DropExtract

  datatype Reach = Untouched | Halfway | Fully

  datatype Fate = Completes | Raises(reach: Reach)

  type Faults = Site -> Fate

  datatype World = World(disk: Disk, trail: seq<Disk>) {
    function Visit(d: Disk): World {
      World(d, trail + [d])
    }
  }

  /** The result of a stretch of calls: where the directory is, and the call that raised. */
  datatype Attempt = Attempt(world: World, raised: Option<Site>) {
    predicate IsFailure() {
      raised.Some?
    }

    function PropagateFailure(): Attempt
      requires IsFailure()
    {
      this
    }

    function Extract(): World
      requires !IsFailure()
    {
      world
    }
  }

  function TreeAt(d: Disk, dir: Dir): Tree {
    match dir
    case App => d.app
    case Bak => d.bak
    case Staging => d.staging
    case Extract => d.extract
  }

  function PutTree(d: Disk, dir: Dir, t: Tree): Disk {
    match dir
    case App => d.(app := t)
    case Bak => d.(bak := t)
    case Staging => d.(staging := t)
    case Extract => d.(extract := t)
  }

  function PutFile(d: Disk, slot: Slot, f: File): Disk {
    match slot
    case Req => d.(req := f)
    case ReqBak => d.(reqBak := f)
  }

  function Outcome(w: World, site: Site, fate: Fate): Attempt {
    Attempt(w, if fate.Completes? then None else Some(site))
  }

  // A call whose target must not exist yet raises at once if it does.
  function Onto(d: Disk, dir: Dir, fate: Fate): Fate {
    if TreeAt(d, dir).Absent? then fate else Raises(Untouched)
  }

  // ---------- one call ----------

  // shutil.rmtree: a tree that is being removed is partial; the directory itself goes last.
  function Removed(w: World, dir: Dir, fate: Fate): World {
    match fate
    case Raises(Untouched) => w
    case Raises(_) => w.Visit(PutTree(w.disk, dir, Partial))
    case Completes => w.Visit(PutTree(w.disk, dir, Partial)).Visit(PutTree(w.disk, dir, Absent))
  }

  // shutil.copytree, or extractall: the target is partial until the last file is there.
  function Filled(w: World, dir: Dir, t: Tree, fate: Fate): World {
    match fate
    case Raises(Untouched) => w
    case Raises(Halfway) => w.Visit(PutTree(w.disk, dir, Partial))
    case _ => w.Visit(PutTree(w.disk, dir, Partial)).Visit(PutTree(w.disk, dir, t))
  }

  // Path.rename: atomic.
  function Renamed(w: World, src: Dir, dst: Dir, fate: Fate): World {
    if fate.Raises? then w
    else w.Visit(PutTree(PutTree(w.disk, dst, TreeAt(w.disk, src)), src, Absent))
  }

  // shutil.copy2: truncates the target first, and can still raise after the bytes are there.
  function Copied(w: World, dst: Slot, f: File, fate: Fate): World {
    match fate
    case Raises(Untouched) => w
    case Raises(Halfway) => w.Visit(PutFile(w.disk, dst, Torn))
    case _ => w.Visit(PutFile(w.disk, dst, Torn)).Visit(PutFile(w.disk, dst, f))
  }

  // Path.unlink: atomic.
  function Unlinked(w: World, slot: Slot, fate: Fate): World {
    if fate.Raises? then w else w.Visit(PutFile(w.disk, slot, NoFile))
  }

  // `if dir.exists(): shutil.rmtree(dir)`
  function Clear(w: World, dir: Dir, site: Site, f: Faults): Attempt {
    if TreeAt(w.disk, dir).Absent? then Attempt(w, None)
    else Outcome(Removed(w, dir, f(site)), site, f(site))
  }

  // ---------- the stretches of apply ----------

  // Unpacking over leftovers would mix two trees.
  function Unpacked(d: Disk, r: Release): Tree {
    if d.extract.Absent? then Complete(r.version) else Partial
  }

  // Download and unpack.
  function Fetch(w0: World, r: Release, f: Faults): Attempt {
    var w1 :- Outcome(w0, Download, f(Download));
    var w2 :- Clear(w1, Extract, ClearExtract, f);
    Outcome(Filled(w2, Extract, Unpacked(w2.disk, r), f(Unpack)), Unpack, f(Unpack))
  }

  // Put the new tree beside the running one.
  function StageApp(w0: World, f: Faults): Attempt {
    var w1 :- Clear(w0, Staging, ClearStaging, f);
    var fate := Onto(w1.disk, Staging, f(CopyApp));
    Outcome(Filled(w1, Staging, w1.disk.extract, fate), CopyApp, fate)
  }

  function Prepare(w0: World, r: Release, f: Faults): Attempt {
    var w1 :- Fetch(w0, r, f);
    StageApp(w1, f)
  }

  function Moved(w: World, src: Dir, dst: Dir, site: Site, f: Faults): Attempt {
    var fate := Onto(w.disk, dst, f(site));
    Outcome(Renamed(w, src, dst, fate), site, fate)
  }

  // Move the running tree to app.bak and the staged one into its place.
  function Swap(w0: World, f: Faults): Attempt {
    var w1 :- Clear(w0, Bak, ClearBak, f);
    var w2 :- if w1.disk.app.Absent? then Attempt(w1, None) else Moved(w1, App, Bak, MoveAppAway, f);
    Moved(w2, Staging, App, MoveAppIn, f)
  }

  // Replace requirements.txt and install it.
  function Require(w0: World, r: Release, f: Faults): Attempt {
    var w1 :- if w0.disk.req.NoFile? then Attempt(w0, None)
              else Outcome(Copied(w0, ReqBak, w0.disk.req, f(BackupReq)), BackupReq, f(BackupReq));
    var w2 :- Outcome(Copied(w1, Req, Whole(r.req), f(CopyReq)), CopyReq, f(CopyReq));
    Outcome(w2, Pip, f(Pip))
  }

  // Drop the two backups.
  function Cleanup(w0: World, f: Faults): Attempt {
    var w1 :- Clear(w0, Bak, DropBak, f);
    if w1.disk.reqBak.NoFile? then Attempt(w1, None)
    else Outcome(Unlinked(w1, ReqBak, f(DropReqBak)), DropReqBak, f(DropReqBak))
  }

  // With the new tree in place (`swapped`).
  function AfterSwap(w0: World, r: Release, f: Faults): Attempt {
    var w1 :- Require(w0, r, f);
    Cleanup(w1, f)
  }

  function AfterPrepare(w0: World, r: Release, f: Faults): Attempt {
    var w1 :- Swap(w0, f);
    AfterSwap(w1, r, f)
  }

  // The body of the `try`.
  function Forward(w0: World, r: Release, f: Faults): Attempt {
    var w1 :- Prepare(w0, r, f);
    AfterPrepare(w1, r, f)
  }

  // The local flag `swapped` at the moment `site` raises.
  predicate Swapped(site: Site) {
    site in {BackupReq, CopyReq, Pip, DropBak, DropReqBak}
  }

  function UndoSwap(w0: World, f: Faults): Attempt {
    var w1 :- Clear(w0, App, UndoRemoveApp, f);
    Moved(w1, Bak, App, UndoMoveBack, f)
  }

  function UndoRequire(w0: World, f: Faults): Attempt {
    var w1 :- Outcome(Copied(w0, Req, w0.disk.reqBak, f(UndoCopyReq)), UndoCopyReq, f(UndoCopyReq));
    Outcome(Unlinked(w1, ReqBak, f(UndoDropReqBak)), UndoDropReqBak, f(UndoDropReqBak))
  }

  // `if dir.exists(): shutil.rmtree(dir, ignore_errors=True)`
  function Discard(w: World, dir: Dir, fate: Fate): World {
    if TreeAt(w.disk, dir).Absent? then w else Removed(w, dir, fate)
  }

  function UndoFiles(w0: World, f: Faults): Attempt {
    var w1 :- if w0.disk.reqBak.NoFile? then Attempt(w0, None) else UndoRequire(w0, f);
    Attempt(Discard(w1, Staging, f(DropStaging)), None)
  }

  // The `except` handler, entered because `site` raised.
  function Rollback(w0: World, site: Site, f: Faults): Attempt {
    var w1 :- if Swapped(site) && !w0.disk.bak.Absent? then UndoSwap(w0, f) else Attempt(w0, None);
    UndoFiles(w1, f)
  }

  /** How one apply ended: which call raised, and which call of the rollback, if any. */
  datatype Ending = Ending(world: World, raised: Option<Site>, undoRaised: Option<Site>)

  // The `finally` block: extract_dir is set once the download is through.
  function Finish(w: World, raised: Option<Site>, f: Faults): World {
    if raised == Some(Download) then w else Discard(w, Extract, f(DropExtract))
  }

  function Leave(a: Attempt, f: Faults): Ending {
    if a.raised.None? then Ending(Finish(a.world, None, f), None, None)
    else
      var b := Rollback(a.world, a.raised.value, f);
      Ending(Finish(b.world, a.raised, f), a.raised, b.raised)
  }

  function Apply(d: Disk, r: Release, f: Faults): Ending {
    Leave(Forward(World(d, [d]), r, f), f)
  }
}
