/** Version numbers: parsing, printing and the canonical tag. */
module Semver {
  import opened Wrappers
  import opened Text
  import opened Numbers

  datatype Version = Version(major: nat, minor: nat, patch: nat)

  datatype Error = SelfUpdateDisabled | InvalidRelease | NotNewer | SelfUpdateBusy

  /** Precedence of release versions, Semantic Versioning 2.0.0 item 11. */
  predicate Less(a: Version, b: Version) {
    || a.major < b.major
    || (a.major == b.major && a.minor < b.minor)
    || (a.major == b.major && a.minor == b.minor && a.patch < b.patch)
  }

  predicate AtMost(a: Version, b: Version) {
    a == b || Less(a, b)
  }

  /** Raising one component, whatever becomes of those behind it, makes a newer version. */
  lemma BumpsAreNewer(v: Version, minor: nat, patch: nat)
    ensures Less(v, Version(v.major, v.minor, v.patch + 1))
    ensures Less(v, Version(v.major, v.minor + 1, patch))
    ensures Less(v, Version(v.major + 1, minor, patch))
  {
  }

  /** And no more than that: versions are strictly and totally ordered. */
  lemma LessIsTotalOrder(a: Version, b: Version, c: Version)
    ensures !Less(a, a)
    ensures Less(a, b) && Less(b, c) ==> Less(a, c)
    ensures Less(a, b) || a == b || Less(b, a)
    ensures AtMost(a, b) <==> !Less(b, a)
  {
  }

  // `_TAG_RE.fullmatch(raw)` followed by int() on the three groups
  function MatchTag(raw: string): Option<Version> {
    if raw == [] || raw[0] != 'v' then None
    else
      var parts := Split(raw[1..], '.');
      if |parts| == 3 && IsNumber(parts[0]) && IsNumber(parts[1]) && IsNumber(parts[2])
      then Some(Version(ValueOf(parts[0]), ValueOf(parts[1]), ValueOf(parts[2])))
      else None
  }

  function WithV(raw: string): string {
    if raw != [] && raw[0] == 'v' then raw else ['v'] + raw
  }

  function ParseVersion(text: string): Option<Version> {
    MatchTag(WithV(Strip(text)))
  }

  // "%d.%d.%d" % version
  function PrintVersion(v: Version): string {
    PrintNat(v.major) + "." + PrintNat(v.minor) + "." + PrintNat(v.patch)
  }

  function TagFor(text: string): Result<string, Error> {
    match ParseVersion(text)
    case None => Err(InvalidRelease)
    case Some(v) => Ok("v" + PrintVersion(v))
  }

  // ---------- the regular expression, declaratively ----------

  ghost predicate Matches(raw: string, a: string, b: string, c: string) {
    IsNumber(a) && IsNumber(b) && IsNumber(c) && raw == "v" + a + "." + b + "." + c
  }

  lemma JoinThree(parts: seq<string>)
    requires |parts| == 3
    ensures Join(parts, ".") == parts[0] + "." + parts[1] + "." + parts[2]
  {
    assert Join(parts[1..][1..], ".") == parts[2];
    assert Join(parts[1..], ".") == parts[1] + "." + parts[2];
    assert parts[0] + "." + (parts[1] + "." + parts[2]) == parts[0] + "." + parts[1] + "." + parts[2];
  }

  lemma DottedParts(a: string, b: string, c: string)
    requires IsNumber(a) && IsNumber(b) && IsNumber(c)
    ensures Split(a + "." + b + "." + c, '.') == [a, b, c]
  {
    JoinThree([a, b, c]);
    SplitJoin([a, b, c], '.');
  }

  /** MatchTag accepts exactly the strings of the pattern, with the groups' values. */
  lemma MatchTagMeaning(raw: string, v: Version)
    ensures MatchTag(raw) == Some(v) <==>
            exists a, b, c :: Matches(raw, a, b, c)
                              && v == Version(ValueOf(a), ValueOf(b), ValueOf(c))
  {
    if MatchTag(raw) == Some(v) {
      var parts := Split(raw[1..], '.');
      JoinSplit(raw[1..], '.');
      JoinThree(parts);
      assert raw == "v" + raw[1..];
      assert "v" + (parts[0] + "." + parts[1] + "." + parts[2])
          == "v" + parts[0] + "." + parts[1] + "." + parts[2];
      assert Matches(raw, parts[0], parts[1], parts[2]);
    }
    if a, b, c :| Matches(raw, a, b, c) && v == Version(ValueOf(a), ValueOf(b), ValueOf(c)) {
      assert raw[1..] == a + "." + b + "." + c;
      DottedParts(a, b, c);
    }
  }

  // ---------- round trips ----------

  lemma PrintedIsStripped(v: Version)
    ensures var s := "v" + PrintVersion(v); Stripped(s) && s[0] == 'v'
    ensures Stripped(PrintVersion(v)) && PrintVersion(v) != [] && PrintVersion(v)[0] != 'v'
  {
    PrintNatValue(v.major);
    PrintNatValue(v.patch);
    var s := PrintVersion(v);
    var first, last := PrintNat(v.major), PrintNat(v.patch);
    assert s[0] == first[0] && IsDigit(first[0]);
    assert s[|s| - 1] == last[|last| - 1] && IsDigit(last[|last| - 1]);
    var tag := "v" + s;
    assert tag[|tag| - 1] == s[|s| - 1];
  }

  /** Parsing what `%d.%d.%d` printed, with or without the `v`, gives the version back. */
  lemma ParsePrint(v: Version)
    ensures ParseVersion("v" + PrintVersion(v)) == Some(v)
    ensures ParseVersion(PrintVersion(v)) == Some(v)
  {
    var raw := "v" + PrintVersion(v);
    PrintedIsStripped(v);
    StripOfStripped(raw);
    StripOfStripped(PrintVersion(v));
    PrintNatValue(v.major);
    PrintNatValue(v.minor);
    PrintNatValue(v.patch);
    assert raw[1..] == PrintVersion(v);
    DottedParts(PrintNat(v.major), PrintNat(v.minor), PrintNat(v.patch));
  }

  /** The canonical tag of any accepted text (with or without `v`, surrounding blanks,
      leading zeros) means the same version, and taking it twice changes nothing. */
  lemma TagForKeepsVersion(text: string)
    ensures TagFor(text).Ok? <==> ParseVersion(text).Some?
    ensures TagFor(text).Ok? ==>
              && ParseVersion(TagFor(text).value) == ParseVersion(text)
              && TagFor(TagFor(text).value) == TagFor(text)
  {
    if ParseVersion(text).Some? {
      ParsePrint(ParseVersion(text).value);
    }
  }

  /** Blanks around the text and a missing `v` do not matter. */
  lemma ParseIgnoresDecoration(text: string, left: string, right: string)
    requires Stripped(text) && text != [] && text[0] != 'v'
    requires Blank(left) && Blank(right)
    ensures ParseVersion(left + text + right) == ParseVersion("v" + text) == ParseVersion(text)
  {
    StripPadded(left, text, right);
    var vText := "v" + text;
    assert vText[|vText| - 1] == text[|text| - 1];
    StripOfStripped(vText);
    StripOfStripped(text);
  }

  /** Two accepted texts have the same tag exactly when they mean the same version. */
  lemma TagsSeparateVersions(x: string, y: string)
    requires ParseVersion(x).Some? && ParseVersion(y).Some?
    ensures TagFor(x) == TagFor(y) <==> ParseVersion(x) == ParseVersion(y)
  {
    ParsePrint(ParseVersion(x).value);
    ParsePrint(ParseVersion(y).value);
  }
}
