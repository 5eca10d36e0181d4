/** The self-updater: its version guard, the release cache that the panel shows, and apply
    itself, changing the install directory call by call. */
module SelfUpdate {
  import opened Wrappers
  import opened Semver
  import opened ReleaseSelection
  import opened InstallRoot

  const CACHE_TTL_S := 24 * 60 * 60

  // What the download of a tag delivers.
  type Archives = string -> Release

  // The checks of apply that need no lock: the canonical tag and its version, or the refusal.
  function Admit(enabled: bool, current: string, tag: string): Result<(string, Version), Error> {
    if !enabled then Err(SelfUpdateDisabled) else AdmitOver(ParseVersion(current), tag)
  }

  function AdmitOver(current: Option<Version>, tag: string): Result<(string, Version), Error> {
    match ParseVersion(tag)
    case None => Err(InvalidRelease)
    case Some(incoming) =>
      if current.None? || AtMost(incoming, current.value) then Err(NotNewer)
      else Ok((TagFor(tag).value, incoming))
  }

  // The cached pair: nothing, or a version and its tag.
  predicate Consistent(latest: Option<string>, tag: Option<string>) {
    || (latest.None? && tag.None?)
    || (latest.Some? && tag.Some? && TagFor(latest.value) == Ok(tag.value))
  }

  // `update_available`
  predicate Available(current: string, latest: Option<string>) {
    && latest.Some? && latest.value != ""
    && ParseVersion(current).Some? && ParseVersion(latest.value).Some?
    && Less(ParseVersion(current).value, ParseVersion(latest.value).value)
  }

  /** An offered tag passes every version check of apply, and stands for the offered version. */
  lemma OfferIsAdmitted(current: string, latest: Option<string>, tag: Option<string>)
    requires Consistent(latest, tag) && Available(current, latest)
    ensures tag.Some? && ParseVersion(latest.value).Some?
    ensures Admit(true, current, tag.value) == Ok((tag.value, ParseVersion(latest.value).value))
  {
    TagForKeepsVersion(latest.value);
  }

  /** What apply admits is strictly newer, under the canonical tag of the request; and a refusal
      names the first reason that applies. */
  lemma AdmittedIsNewer(enabled: bool, current: string, tag: string)
    ensures Admit(enabled, current, tag).Ok? <==>
            && enabled && ParseVersion(tag).Some? && ParseVersion(current).Some?
            && Less(ParseVersion(current).value, ParseVersion(tag).value)
    ensures Admit(enabled, current, tag).Ok? ==>
              var (canonical, version) := Admit(enabled, current, tag).value;
              ParseVersion(tag) == Some(version) && canonical == "v" + PrintVersion(version)
    ensures Admit(enabled, current, tag) == Err(SelfUpdateDisabled) <==> !enabled
    ensures Admit(enabled, current, tag) == Err(InvalidRelease) <==> enabled && ParseVersion(tag).None?
    ensures Admit(enabled, current, tag) != Err(SelfUpdateBusy)
  {
    TagForKeepsVersion(tag);
  }

  /** Each of the three bumps of a version is admitted over it, and not the other way round. */
  lemma BumpsAreAdmitted(v: Version, minor: nat, patch: nat, next: Version)
    requires next in {Version(v.major, v.minor, v.patch + 1), Version(v.major, v.minor + 1, patch),
                      Version(v.major + 1, minor, patch)}
    ensures Admit(true, PrintVersion(v), "v" + PrintVersion(next)) == Ok(("v" + PrintVersion(next), next))
    ensures Admit(true, PrintVersion(next), "v" + PrintVersion(v)) == Err(NotNewer)
    ensures Admit(true, PrintVersion(v), "v" + PrintVersion(v)) == Err(NotNewer)
  {
    ParsePrint(v);
    ParsePrint(next);
    BumpsAreNewer(v, minor, patch);
    LessIsTotalOrder(v, next, v);
  }

  /** The panel offers a cached version exactly if apply would admit it. */
  lemma OfferedExactly(current: string, latest: Option<string>)
    ensures Available(current, latest) <==> latest.Some? && Admit(true, current, latest.value).Ok?
  {
    if latest.Some? {
      AdmittedIsNewer(true, current, latest.value);
    }
  }

  /** A filesystem or network call, as seen by the code after it. */
  datatype Call = Done | RaisedAt(site: Site) {
    predicate IsFailure() {
      RaisedAt?
    }

    function PropagateFailure(): Call
      requires IsFailure()
    {
      this
    }

    function Raising(): Option<Site> {
      if Done? then None else Some(site)
    }
  }

  datatype Failure = Rejected(error: Error) | Broke(site: Site)

  datatype StatusView = StatusView(
    enabled: bool, current: string, latest: Option<string>, tag: Option<string>,
    updateAvailable: bool, applying: bool, error: Option<Site>)

  class Updater {
    const enabled: bool
    const current: string

    var disk: Disk
    ghost var trail: seq<Disk>

    var applying: bool
    var lastError: Option<Site>

    var cacheAt: int
    var latest: Option<string>
    var cachedTag: Option<string>

    constructor (enabled: bool, current: string, disk: Disk)
      ensures this.enabled == enabled && this.current == current && this.disk == disk
      ensures !applying && lastError.None? && Consistent(latest, cachedTag)
    {
      this.enabled, this.current, this.disk, this.trail := enabled, current, disk, [disk];
      applying, lastError := false, None;
      cacheAt, latest, cachedTag := 0, None, None;
    }

    ghost function Now(): World
      reads this
    {
      World(disk, trail)
    }

    ghost predicate Reached(c: Call, a: Attempt)
      reads this
    {
      a == Attempt(Now(), c.Raising())
    }

    // ---------- single calls ----------

    method Visit(d: Disk)
      modifies `disk, `trail
      ensures Now() == old(Now()).Visit(d)
    {
      disk := d;
      trail := trail + [d];
    }

    method Remove(dir: Dir, fate: Fate)
      modifies `disk, `trail
      ensures Now() == Removed(old(Now()), dir, fate)
      ensures fate == Raises(Untouched) ==> trail == old(trail)
      ensures fate != Raises(Untouched) ==> PutTree(old(disk), dir, Partial) in trail
      ensures fate.Completes? ==> disk == PutTree(old(disk), dir, Absent)
    {
      if fate != Raises(Untouched) {
        Visit(PutTree(disk, dir, Partial));
      }
      if fate.Completes? {
        Visit(PutTree(disk, dir, Absent));
      }
    }

    method Fill(dir: Dir, t: Tree, fate: Fate)
      modifies `disk, `trail
      ensures Now() == Filled(old(Now()), dir, t, fate)
      ensures fate == Raises(Untouched) ==> trail == old(trail)
      ensures fate != Raises(Untouched) ==> PutTree(old(disk), dir, Partial) in trail
      ensures fate.Completes? ==> disk == PutTree(old(disk), dir, t)
    {
      if fate != Raises(Untouched) {
        Visit(PutTree(disk, dir, Partial));
        if fate != Raises(Halfway) {
          Visit(PutTree(disk, dir, t));
        }
      }
    }

    method Rename(src: Dir, dst: Dir, site: Site, f: Faults) returns (c: Call)
      modifies `disk, `trail
      ensures Reached(c, Moved(old(Now()), src, dst, site, f))
      ensures c.Done? <==> f(site).Completes? && TreeAt(old(disk), dst).Absent?
      ensures c.RaisedAt? ==> trail == old(trail)
      ensures c.Done? ==> trail == old(trail) + [PutTree(PutTree(old(disk), dst, TreeAt(old(disk), src)), src, Absent)]
    {
      if f(site).Raises? || !TreeAt(disk, dst).Absent? {
        return RaisedAt(site);
      }
      Visit(PutTree(PutTree(disk, dst, TreeAt(disk, src)), src, Absent));
      return Done;
    }

    method CopyTree(src: Dir, dst: Dir, site: Site, f: Faults) returns (c: Call)
      modifies `disk, `trail
      ensures var fate := Onto(old(disk), dst, f(site));
              Reached(c, Outcome(Filled(old(Now()), dst, TreeAt(old(disk), src), fate), site, fate))
      ensures c.Done? <==> f(site).Completes? && TreeAt(old(disk), dst).Absent?
      ensures c.Done? ==> disk == PutTree(old(disk), dst, TreeAt(old(disk), src))
    {
      if !TreeAt(disk, dst).Absent? {
        return RaisedAt(site);
      }
      Fill(dst, TreeAt(disk, src), f(site));
      c := Check(site, f);
    }

    method Copy(dst: Slot, f: File, fate: Fate)
      modifies `disk, `trail
      ensures Now() == Copied(old(Now()), dst, f, fate)
      ensures fate == Raises(Untouched) ==> trail == old(trail)
      ensures fate != Raises(Untouched) ==> PutFile(old(disk), dst, Torn) in trail
      ensures fate.Completes? ==> disk == PutFile(old(disk), dst, f)
    {
      if fate != Raises(Untouched) {
        Visit(PutFile(disk, dst, Torn));
        if fate != Raises(Halfway) {
          Visit(PutFile(disk, dst, f));
        }
      }
    }

    method Unlink(slot: Slot, fate: Fate)
      modifies `disk, `trail
      ensures Now() == Unlinked(old(Now()), slot, fate)
    {
      if fate.Completes? {
        Visit(PutFile(disk, slot, NoFile));
      }
    }

    // The exception of a call that did not complete.
    static function Check(site: Site, f: Faults): (c: Call)
      ensures c.Raising() == (if f(site).Completes? then None else Some(site))
    {
      if f(site).Completes? then Done else RaisedAt(site)
    }

    method ClearDir(dir: Dir, site: Site, f: Faults) returns (c: Call)
      modifies `disk, `trail
      ensures Reached(c, Clear(old(Now()), dir, site, f))
    {
      c := Done;
      if !TreeAt(disk, dir).Absent? {
        Remove(dir, f(site));
        c := Check(site, f);
      }
    }

    // ---------- the stretches of apply ----------

    method PrepareTree(r: Release, f: Faults) returns (c: Call)
      modifies `disk, `trail
      ensures Reached(c, Prepare(old(Now()), r, f))
    {
      c := Done;
      :- Check(Download, f);
      :- ClearDir(Extract, ClearExtract, f);
      Fill(Extract, Unpacked(disk, r), f(Unpack));
      :- Check(Unpack, f);
      :- ClearDir(Staging, ClearStaging, f);
      c := CopyTree(Extract, Staging, CopyApp, f);
    }

    method SwapTrees(f: Faults) returns (c: Call)
      modifies `disk, `trail
      ensures Reached(c, Swap(old(Now()), f))
    {
      c := Done;
      :- ClearDir(Bak, ClearBak, f);
      if !disk.app.Absent? {
        :- Rename(App, Bak, MoveAppAway, f);
      }
      c := Rename(Staging, App, MoveAppIn, f);
    }

    method InstallRequirements(r: Release, f: Faults) returns (c: Call)
      modifies `disk, `trail
      ensures Reached(c, Require(old(Now()), r, f))
    {
      if !disk.req.NoFile? {
        Copy(ReqBak, disk.req, f(BackupReq));
        :- Check(BackupReq, f);
      }
      Copy(Req, Whole(r.req), f(CopyReq));
      :- Check(CopyReq, f);
      c := Check(Pip, f);
    }

    method DropBackups(f: Faults) returns (c: Call)
      modifies `disk, `trail
      ensures Reached(c, Cleanup(old(Now()), f))
    {
      c := Done;
      :- ClearDir(Bak, DropBak, f);
      c := Done;
      if !disk.reqBak.NoFile? {
        Unlink(ReqBak, f(DropReqBak));
        c := Check(DropReqBak, f);
      }
    }

    method Try(r: Release, f: Faults) returns (c: Call, swapped: bool)
      modifies `disk, `trail
      ensures Reached(c, Forward(old(Now()), r, f))
      ensures c.RaisedAt? ==> swapped == Swapped(c.site)
    {
      swapped := false;
      ghost var w0 := Now();
      UpdateSites(w0, r, f);
      :- PrepareTree(r, f);
      ghost var w1 := Now();
      :- SwapTrees(f);
      swapped := true;
      ghost var w2 := Now();
      :- InstallRequirements(r, f);
      c := DropBackups(f);
    }

    static lemma UpdateSites(w: World, r: Release, f: Faults)
      ensures var s := Prepare(w, r, f).raised; s.Some? ==> !Swapped(s.value)
      ensures forall v: World :: var s := Swap(v, f).raised; s.Some? ==> !Swapped(s.value)
      ensures forall v: World :: var s := AfterSwap(v, r, f).raised; s.Some? ==> Swapped(s.value)
    {
    }

    method DiscardDir(dir: Dir, fate: Fate)
      modifies `disk, `trail
      ensures Now() == Discard(old(Now()), dir, fate)
    {
      if !TreeAt(disk, dir).Absent? {
        Remove(dir, fate);
      }
    }

    // The `except` handler.
    method Except(swapped: bool, ghost site: Site, f: Faults) returns (c: Call)
      requires swapped == Swapped(site)
      modifies `disk, `trail
      ensures Reached(c, Rollback(old(Now()), site, f))
    {
      if swapped && !disk.bak.Absent? {
        :- ClearDir(App, UndoRemoveApp, f);
        :- Rename(Bak, App, UndoMoveBack, f);
      }
      if !disk.reqBak.NoFile? {
        Copy(Req, disk.reqBak, f(UndoCopyReq));
        :- Check(UndoCopyReq, f);
        Unlink(ReqBak, f(UndoDropReqBak));
        :- Check(UndoDropReqBak, f);
      }
      DiscardDir(Staging, f(DropStaging));
      c := Done;
    }

    /** A refused request changes nothing at all. An admitted one leaves the directory exactly
        where the transaction of InstallRoot does, with its whole trail, records the error that
        broke the `try`, raises that error or the one of the handler, and always releases the flag. */
    method Apply(tag: string, archives: Archives, f: Faults) returns (res: Result<(), Failure>)
      modifies `disk, `trail, `applying, `lastError
      ensures match Admit(enabled, current, tag)
              case Err(e) => res == Err(Rejected(e)) && unchanged(this)
              case Ok(admitted) =>
                if old(applying) then res == Err(Rejected(SelfUpdateBusy)) && unchanged(this)
                else
                  var e := InstallRoot.Apply(old(disk), archives(admitted.0), f);
                  && Now() == e.world && lastError == e.raised && !applying
                  && res == (if e.raised.None? then Ok(())
                             else Err(Broke(if e.undoRaised.Some? then e.undoRaised.value
                                            else e.raised.value)))
    {
      var admitted := Admit(enabled, current, tag);
      if admitted.Err? {
        return Err(Rejected(admitted.error));
      }
      if applying {
        return Err(Rejected(SelfUpdateBusy));
      }
      applying, lastError := true, None;
      trail := [disk];
      var r := archives(admitted.value.0);
      var c, swapped := Try(r, f);
      lastError := c.Raising();
      var undo := Done;
      if c.RaisedAt? {
        undo := Except(swapped, c.site, f);
      }
      if c != RaisedAt(Download) {
        DiscardDir(Extract, f(DropExtract));
      }
      applying := false;
      if c.Done? {
        return Ok(());
      }
      return Err(Broke(if undo.RaisedAt? then undo.site else c.site));
    }

    // ---------- the release cache ----------

    twostate predicate Refreshed(g: Github, now: int)
      reads this
    {
      exists found: Result<Option<(string, string)>, Raised> ::
        && IsSelection(g, found)
        && match found
           case Err(_) => unchanged(this)
           case Ok(None) => cacheAt == now && latest.None? && cachedTag.None? && lastError.None?
           case Ok(Some((ver, tag))) =>
             cacheAt == now && latest == Some(ver) && cachedTag == Some(tag) && lastError.None?
    }

    /** A look-up that raises leaves the whole cache as it was, including its age. */
    method RefreshCache(g: Github, now: int)
      requires Consistent(latest, cachedTag)
      modifies `cacheAt, `latest, `cachedTag, `lastError
      ensures if enabled then Refreshed(g, now) else unchanged(this)
      ensures Consistent(latest, cachedTag)
    {
      if !enabled {
        return;
      }
      var found := LatestFromGithub(g);
      if found.Ok? {
        cacheAt := now;
        latest := if found.value.Some? then Some(found.value.value.0) else None;
        cachedTag := if found.value.Some? then Some(found.value.value.1) else None;
        lastError := None;
        SelectionIsConsistent(g, found);
      }
    }

    static lemma SelectionIsConsistent(g: Github, found: Result<Option<(string, string)>, Raised>)
      requires IsSelection(g, found)
      ensures found.Ok? && found.value.Some? ==>
                TagFor(found.value.value.0) == Ok(found.value.value.1)
    {
      if found.Ok? && found.value.Some? {
        var m :| IsHighest(m, Versions(Names(g))) && found == Ok(Some((PrintVersion(m), "v" + PrintVersion(m))));
        ParsePrint(m);
      }
    }

    /** A status that offers a tag offers one that apply would admit, for the version shown;
        it refreshes when forced or older than a day, and shows the old error and flag. */
    method Status(force: bool, g: Github, now: int) returns (view: StatusView)
      requires Consistent(latest, cachedTag)
      modifies `cacheAt, `latest, `cachedTag, `lastError
      ensures Consistent(latest, cachedTag)
      ensures !enabled ==>
                view == StatusView(false, current, None, None, false, false, None) && unchanged(this)
      ensures enabled && (force || now - old(cacheAt) > 24 * 3600) ==> Refreshed(g, now)
      ensures enabled && !(force || now - old(cacheAt) > 24 * 3600) ==> unchanged(this)
      ensures enabled ==>
                && view.enabled && view.current == current && view.latest == latest
                && view.applying == old(applying) && view.error == old(lastError)
                && (view.updateAvailable <==> latest.Some? && Admit(true, current, latest.value).Ok?)
      ensures view.updateAvailable <==> view.tag.Some?
      ensures view.tag.Some? ==>
                && view.latest.Some? && ParseVersion(view.latest.value).Some?
                && Admit(enabled, current, view.tag.value)
                   == Ok((view.tag.value, ParseVersion(view.latest.value).value))
    {
      if !enabled {
        return StatusView(false, current, None, None, false, false, None);
      }
      var flag, err := applying, lastError;
      if force || now - cacheAt > CACHE_TTL_S {
        RefreshCache(g, now);
      }
      var available := Available(current, latest);
      OfferedExactly(current, latest);
      if available {
        OfferIsAdmitted(current, latest, cachedTag);
      }
      view := StatusView(true, current, latest, if available then cachedTag else None, available, flag, err);
    }
  }
}
