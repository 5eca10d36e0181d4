/** Choosing the release to offer: the highest version among the repository's tags,
    merged with the tag of its latest Release object. */
module ReleaseSelection {
  import opened Wrappers
  import opened Semver

  // A network answer: nothing, or a status code with a body that may fail to decode.
  datatype Reply<+T> = Unreachable | Reply(status: int, body: Option<T>)

  // What GitHub answers during one look-up; repoOk is the owner/name check on the setting.
  datatype Github = Github(repoOk: bool, tags: Reply<seq<string>>, release: Reply<string>)

  type Entry = (Version, string)

  datatype Raised = Raised

  // The look-up got through both calls without an exception.
  predicate Answered(g: Github) {
    && g.repoOk
    && g.tags.Reply? && (g.tags.status == 200 ==> g.tags.body.Some?)
    && g.release.Reply? && (g.release.status == 200 ==> g.release.body.Some?)
  }

  function Names(g: Github): set<string>
    requires Answered(g)
  {
    (if g.tags.status == 200 then set n | n in g.tags.body.value else {})
    + (if g.release.status == 200 then {g.release.body.value} else {})
  }

  function Versions(names: set<string>): set<Version> {
    set n | n in names && ParseVersion(n).Some? :: ParseVersion(n).value
  }

  ghost predicate IsHighest(m: Version, versions: set<Version>) {
    m in versions && forall v | v in versions :: AtMost(v, m)
  }

  ghost predicate IsSelection(g: Github, r: Result<Option<(string, string)>, Raised>) {
    if !Answered(g) then r == Err(Raised)
    else if Versions(Names(g)) == {} then
      r == if 200 <= g.tags.status < 300 then Ok(None) else Err(Raised)
    else
      exists m ::
        IsHighest(m, Versions(Names(g))) && r == Ok(Some((PrintVersion(m), "v" + PrintVersion(m))))
  }

  // Every entry carries the printed form of its version.
  predicate WellPrinted(found: seq<Entry>) {
    forall e | e in found :: e.1 == PrintVersion(e.0)
  }

  function VersionsOf(found: seq<Entry>): set<Version> {
    set e | e in found :: e.0
  }

  method AddSemver(found: seq<Entry>, name: string) returns (r: seq<Entry>)
    requires WellPrinted(found)
    ensures WellPrinted(r)
    ensures VersionsOf(r) == VersionsOf(found) + Versions({name})
  {
    r := found;
    var parsed := ParseVersion(name);
    if parsed.Some? {
      r := found + [(parsed.value, PrintVersion(parsed.value))];
      assert (parsed.value, PrintVersion(parsed.value)) in r;
    }
  }

  // ---------- list.sort() on the (version, text) pairs ----------

  function Insert(e: Entry, sorted: seq<Entry>): seq<Entry> {
    if sorted == [] || AtMost(e.0, sorted[0].0) then [e] + sorted
    else [sorted[0]] + Insert(e, sorted[1..])
  }

  function Sort(s: seq<Entry>): seq<Entry> {
    if s == [] then [] else Insert(s[0], Sort(s[1..]))
  }

  ghost predicate Ascending(s: seq<Entry>) {
    forall i, j | 0 <= i < j < |s| :: AtMost(s[i].0, s[j].0)
  }

  lemma {:induction false} InsertAdds(e: Entry, sorted: seq<Entry>)
    ensures multiset(Insert(e, sorted)) == multiset{e} + multiset(sorted)
  {
    if sorted != [] && !AtMost(e.0, sorted[0].0) {
      InsertAdds(e, sorted[1..]);
      assert sorted == [sorted[0]] + sorted[1..];
    } else {
      assert multiset([e] + sorted) == multiset{e} + multiset(sorted);
    }
  }

  lemma {:induction false} InsertKeeps(e: Entry, sorted: seq<Entry>)
    requires Ascending(sorted)
    ensures Ascending(Insert(e, sorted))
  {
    if sorted != [] && !AtMost(e.0, sorted[0].0) {
      InsertKeeps(e, sorted[1..]);
      var rest := Insert(e, sorted[1..]);
      InsertAdds(e, sorted[1..]);
      forall i | 0 <= i < |rest|
        ensures AtMost(sorted[0].0, rest[i].0)
      {
        assert rest[i] in multiset(rest);
        assert rest[i] == e || rest[i] in sorted[1..];
      }
    }
  }

  lemma {:induction false} SortSorts(s: seq<Entry>)
    ensures Ascending(Sort(s)) && multiset(Sort(s)) == multiset(s)
  {
    if s != [] {
      SortSorts(s[1..]);
      InsertKeeps(s[0], Sort(s[1..]));
      InsertAdds(s[0], Sort(s[1..]));
      assert s == [s[0]] + s[1..];
    }
  }

  lemma LastIsHighest(found: seq<Entry>)
    requires found != []
    ensures |Sort(found)| == |found|
    ensures var last := Sort(found)[|found| - 1];
            last in found && IsHighest(last.0, VersionsOf(found))
  {
    SortSorts(found);
    var s := Sort(found);
    assert |multiset(s)| == |multiset(found)|;
    var last := s[|s| - 1];
    assert last in multiset(s);
    forall e | e in found
      ensures AtMost(e.0, last.0)
    {
      assert e in multiset(s);
      var i :| 0 <= i < |s| && s[i] == e;
    }
  }

  lemma Chosen(found: seq<Entry>) returns (m: Version)
    requires found != [] && WellPrinted(found)
    ensures |Sort(found)| == |found| && IsHighest(m, VersionsOf(found))
    ensures var ver := Sort(found)[|found| - 1].1;
            ver == PrintVersion(m) && TagFor(ver) == Ok("v" + PrintVersion(m))
  {
    LastIsHighest(found);
    m := Sort(found)[|found| - 1].0;
    ParsePrint(m);
  }

  method LatestFromGithub(g: Github) returns (r: Result<Option<(string, string)>, Raised>)
    ensures IsSelection(g, r)
  {
    if !g.repoOk {
      return Err(Raised);
    }
    var found: seq<Entry> := [];
    if g.tags.Unreachable? || (g.tags.status == 200 && g.tags.body.None?) {
      return Err(Raised);
    }
    if g.tags.status == 200 {
      var names := g.tags.body.value;
      for i := 0 to |names|
        invariant WellPrinted(found)
        invariant VersionsOf(found) == Versions(set n | n in names[..i])
      {
        found := AddSemver(found, names[i]);
        assert names[..i + 1] == names[..i] + [names[i]];
      }
      assert names[..|names|] == names;
    }
    if g.release.Unreachable? || (g.release.status == 200 && g.release.body.None?) {
      return Err(Raised);
    }
    if g.release.status == 200 {
      found := AddSemver(found, g.release.body.value);
    }
    assert VersionsOf(found) == Versions(Names(g));
    if found == [] {
      return if 200 <= g.tags.status < 300 then Ok(None) else Err(Raised);
    }
    assert found[0].0 in VersionsOf(found);
    ghost var m := Chosen(found);
    var ver := Sort(found)[|found| - 1].1;
    r := match TagFor(ver) case Ok(tag) => Ok(Some((ver, tag))) case Err(_) => Err(Raised);
  }

  /** No parseable name of either answer means a version with a higher number in the first place
      where it differs from the selected one. */
  lemma SelectedIsHighest(g: Github, r: Result<Option<(string, string)>, Raised>, name: string)
    requires Answered(g) && IsSelection(g, r) && ParseVersion(name).Some?
    requires || (g.tags.status == 200 && name in g.tags.body.value)
             || (g.release.status == 200 && name == g.release.body.value)
    ensures r.Ok? && r.value.Some? && ParseVersion(r.value.value.0).Some?
    ensures var v, m := ParseVersion(name).value, ParseVersion(r.value.value.0).value;
            && v.major <= m.major
            && (v.major == m.major ==> v.minor <= m.minor)
            && (v.major == m.major && v.minor == m.minor ==> v.patch <= m.patch)
    ensures r.value.value.1 == "v" + r.value.value.0
  {
    var versions := Versions(Names(g));
    assert ParseVersion(name).value in versions;
    var m :| IsHighest(m, versions) && r == Ok(Some((PrintVersion(m), "v" + PrintVersion(m))));
    ParsePrint(m);
  }

  /** Two look-ups that saw the same parseable versions, in whatever order, with whatever
      repetitions and spellings, select the same release. */
  lemma SelectionIgnoresOrder(g: Github, h: Github, r: Result<Option<(string, string)>, Raised>,
                              q: Result<Option<(string, string)>, Raised>)
    requires Answered(g) && Answered(h) && Versions(Names(g)) == Versions(Names(h)) != {}
    requires IsSelection(g, r) && IsSelection(h, q)
    ensures r == q
  {
  }
}
