/** Guest tags: the panel's canonical form, and the two tests the host agent makes on it. */
module Tags {
  import opened Wrappers
  import opened Text

  const REQUIRED_TAG := "managed"
  const AUTO_UPDATE_TAG := "auto-update"

  const TAG_APP_TYPE: map<string, string> := map[
    "proxy" := "npm",
    "adblock" := "adguard",
    "dashboard" := "glance",
    "ddns" := "ddns",
    "git" := "gitea",
    "docker" := "docker-host"
  ]

  // tags.replace(",", ";")
  function Normalized(s: string): string {
    seq(|s|, i requires 0 <= i < |s| => if s[i] == ',' then ';' else s[i])
  }

  // [t.strip() for t in parts if t.strip()]
  function Cleaned(parts: seq<string>): seq<string> {
    if parts == [] then []
    else (if Strip(parts[0]) != [] then [Strip(parts[0])] else []) + Cleaned(parts[1..])
  }

  function ParseTags(tags: Option<string>): seq<string> {
    if tags.None? || tags.value == [] then []
    else Cleaned(Split(Normalized(tags.value), ';'))
  }

  // The form in which discovery stores the tags.
  function Stored(tags: Option<string>): string {
    Join(ParseTags(tags), ";")
  }

  predicate IsTag(t: string) {
    t != [] && Stripped(t) && FreeOf(t, ';') && FreeOf(t, ',')
  }

  predicate Canonical(tags: seq<string>) {
    forall t | t in tags :: IsTag(t)
  }

  lemma {:induction false} CleanedMembers(parts: seq<string>)
    ensures forall t :: t in Cleaned(parts) <==> t != [] && exists p :: p in parts && Strip(p) == t
  {
    if parts != [] {
      CleanedMembers(parts[1..]);
      assert parts == [parts[0]] + parts[1..];
    }
  }

  lemma {:induction false} CleanedIsIdentity(tags: seq<string>)
    requires Canonical(tags)
    ensures Cleaned(tags) == tags
  {
    if tags != [] {
      assert IsTag(tags[0]);
      StripOfStripped(tags[0]);
      assert forall t | t in tags[1..] :: t in tags;
      CleanedIsIdentity(tags[1..]);
    }
  }

  /** Parsing yields non-empty, stripped tags without `;` and `,`, made of characters of the text. */
  lemma ParsedIsCanonical(tags: Option<string>)
    ensures Canonical(ParseTags(tags))
    ensures tags.Some? ==> forall t, c | t in ParseTags(tags) && c in t :: c in tags.value
  {
    if tags.Some? && tags.value != [] {
      var s := Normalized(tags.value);
      assert FreeOf(s, ',');
      CleanedMembers(Split(s, ';'));
      SplitParts(s, ';');
      forall t | t in ParseTags(tags)
        ensures IsTag(t) && forall c | c in t :: c in tags.value
      {
        var p :| p in Split(s, ';') && Strip(p) == t;
        var left, right := StripCuts(p);
        forall c | c in t
          ensures c in p && c in tags.value
        {
          assert c in left + t + right;
          assert FreeOf(p, ';');
          var i :| 0 <= i < |s| && s[i] == c;
          assert tags.value[i] in tags.value;
        }
      }
    }
  }

  lemma {:induction false} JoinCharacters(tags: seq<string>, c: char)
    requires forall t | t in tags :: FreeOf(t, c)
    requires c != ';'
    ensures FreeOf(Join(tags, ";"), c)
  {
    if tags != [] {
      assert FreeOf(tags[0], c);
      assert forall t | t in tags[1..] :: t in tags;
      JoinCharacters(tags[1..], c);
    }
  }

  lemma NormalizedIsIdentity(s: string)
    requires FreeOf(s, ',')
    ensures Normalized(s) == s
  {
    assert forall i | 0 <= i < |s| :: s[i] in s;
  }

  /** Parsing the joined form of a canonical list gives the list back. */
  lemma ParseOfJoin(tags: seq<string>)
    requires Canonical(tags)
    ensures ParseTags(Some(Join(tags, ";"))) == tags
  {
    if tags != [] {
      assert forall t | t in tags :: FreeOf(t, ',') && FreeOf(t, ';');
      JoinCharacters(tags, ',');
      NormalizedIsIdentity(Join(tags, ";"));
      SplitJoin(tags, ';');
      CleanedIsIdentity(tags);
      assert IsTag(tags[0]);
    }
  }

  /** So the stored form says the same as the raw tags, and is stored unchanged again. */
  lemma ParseIsIdempotent(tags: Option<string>)
    ensures ParseTags(Some(Stored(tags))) == ParseTags(tags)
    ensures Stored(Some(Stored(tags))) == Stored(tags)
  {
    ParsedIsCanonical(tags);
    ParseOfJoin(ParseTags(tags));
  }

  // ---------- the application type ----------

  // The first tag with an application type, or "unknown".
  function FirstApp(tags: seq<string>): string {
    if tags == [] then "unknown"
    else if tags[0] in TAG_APP_TYPE then TAG_APP_TYPE[tags[0]]
    else FirstApp(tags[1..])
  }

  method PanelApp(tags: seq<string>) returns (app: string)
    ensures app == FirstApp(tags)
  {
    app := "unknown";
    for i := 0 to |tags|
      invariant app == "unknown"
      invariant FirstApp(tags) == FirstApp(tags[i..])
    {
      if tags[i] in TAG_APP_TYPE {
        app := TAG_APP_TYPE[tags[i]];
        break;
      }
    }
  }

  // ---------- the host agent ----------

  // The shell pattern *needle*
  ghost predicate Contains(hay: string, needle: string) {
    exists before, after :: hay == before + needle + after
  }

  // [[ ";$tags;" == *";managed;"* ]]
  ghost predicate AgentManaged(tags: string) {
    Contains(";" + tags + ";", ";managed;")
  }

  function DropEmptyLast(fields: seq<string>): seq<string> {
    if fields != [] && fields[|fields| - 1] == [] then fields[..|fields| - 1] else fields
  }

  // IFS=';' read -r -a: the first line, without an empty last field
  function AgentFields(tags: string): seq<string> {
    DropEmptyLast(Split(Split(tags, '\n')[0], ';'))
  }

  method AgentApp(tags: string) returns (app: string)
    ensures app == FirstApp(AgentFields(tags))
  {
    app := "unknown";
    var fields := AgentFields(tags);
    for i := 0 to |fields|
      invariant app == "unknown"
      invariant FirstApp(fields) == FirstApp(fields[i..])
    {
      match fields[i] {
        case "proxy" => app := "npm"; break;
        case "adblock" => app := "adguard"; break;
        case "dashboard" => app := "glance"; break;
        case "ddns" => app := "ddns"; break;
        case "git" => app := "gitea"; break;
        case "docker" => app := "docker-host"; break;
        case _ =>
      }
    }
  }

  lemma Around(s: string)
    ensures Split(";" + s + ";", ';') == [[]] + Split(s, ';') + [[]]
  {
    SplitConcat([], ';', s + ";");
    SplitConcat(s, ';', []);
    assert [] + [';'] + (s + ";") == ";" + s + ";";
    assert s + [';'] + [] == s + ";";
    assert [[]] + (Split(s, ';') + [[]]) == [[]] + Split(s, ';') + [[]];
  }

  lemma WordInside(before: string, w: string, after: string)
    requires FreeOf(w, ';')
    ensures w in Split(before + (";" + w + ";") + after, ';')
  {
    SplitConcat(before, ';', w + ";" + after);
    SplitConcat(w, ';', after);
    SplitLast(w, ';');
    assert before + [';'] + (w + ";" + after) == before + (";" + w + ";") + after;
    assert w in [w] + Split(after, ';');
  }

  lemma JoinAround(x: seq<string>, w: string, y: seq<string>)
    requires x != [] && y != []
    ensures Join(x + [w] + y, ";") == Join(x, ";") + (";" + w + ";") + Join(y, ";")
  {
    JoinConcat(x + [w], y, ";");
    JoinConcat(x, [w], ";");
    assert Join(x, ";") + ";" + w + ";" + Join(y, ";") == Join(x, ";") + (";" + w + ";") + Join(y, ";");
  }

  lemma WordFromPart(s: string, i: nat)
    requires i < |Split(s, ';')|
    ensures Contains(";" + s + ";", ";" + Split(s, ';')[i] + ";")
  {
    Around(s);
    JoinSplit(";" + s + ";", ';');
    var parts := Split(s, ';');
    var x, y := [[]] + parts[..i], parts[i + 1..] + [[]];
    assert [[]] + parts + [[]] == x + [parts[i]] + y;
    JoinAround(x, parts[i], y);
  }

  /** On any tag string, the agent's substring test finds a word exactly when it is one of the
      `;`-separated fields, taken as they stand. */
  lemma SubstringIsMembership(s: string, w: string)
    requires FreeOf(w, ';') && w != []
    ensures Contains(";" + s + ";", ";" + w + ";") <==> w in Split(s, ';')
  {
    if before, after :| ";" + s + ";" == before + (";" + w + ";") + after {
      WordInside(before, w, after);
      Around(s);
    }
    if w in Split(s, ';') {
      var i :| 0 <= i < |Split(s, ';')| && Split(s, ';')[i] == w;
      WordFromPart(s, i);
    }
  }

  lemma AgentAsksForTag(s: string)
    ensures AgentManaged(s) <==> REQUIRED_TAG in Split(s, ';')
  {
    SubstringIsMembership(s, REQUIRED_TAG);
    assert ";" + REQUIRED_TAG + ";" == ";managed;";
  }

  lemma JoinedSplit(tags: seq<string>)
    requires Canonical(tags) && tags != []
    ensures Split(Join(tags, ";"), ';') == tags
  {
    assert forall t | t in tags :: FreeOf(t, ';');
    SplitJoin(tags, ';');
  }

  lemma OneLine(s: string)
    requires FreeOf(s, '\n')
    ensures AgentFields(s) == DropEmptyLast(Split(s, ';'))
  {
    SplitLast(s, '\n');
  }

  /** The agent's list of tags ends with the first line. */
  lemma AgentReadsOneLine(line: string, rest: string)
    requires FreeOf(line, '\n')
    ensures AgentFields(line + "\n" + rest) == AgentFields(line) == DropEmptyLast(Split(line, ';'))
  {
    SplitConcat(line, '\n', rest);
    SplitLast(line, '\n');
    assert line + "\n" + rest == line + ['\n'] + rest;
  }

  lemma JoinedFields(tags: seq<string>)
    requires Canonical(tags) && forall t | t in tags :: FreeOf(t, '\n')
    ensures AgentFields(Join(tags, ";")) == tags
  {
    JoinCharacters(tags, '\n');
    OneLine(Join(tags, ";"));
    if tags != [] {
      JoinedSplit(tags);
      assert IsTag(tags[|tags| - 1]);
    } else {
      assert DropEmptyLast(Split([], ';')) == [];
    }
  }

  lemma JoinedWords(tags: seq<string>, w: string)
    requires Canonical(tags) && w != []
    ensures w in Split(Join(tags, ";"), ';') <==> w in tags
  {
    if tags != [] {
      JoinedSplit(tags);
    } else {
      assert Split([], ';') == [[]];
    }
  }

  /** On the form that discovery stores, the agent's tests give what the panel's do: it would let
      a guest through exactly when the panel manages it, and see the same application. */
  lemma AgentAgrees(tags: Option<string>)
    requires tags.Some? ==> FreeOf(tags.value, '\n')
    ensures AgentManaged(Stored(tags)) <==> REQUIRED_TAG in ParseTags(tags)
    ensures FirstApp(AgentFields(Stored(tags))) == FirstApp(ParseTags(tags))
  {
    ParsedIsCanonical(tags);
    JoinedFields(ParseTags(tags));
    JoinedWords(ParseTags(tags), REQUIRED_TAG);
    AgentAsksForTag(Stored(tags));
  }

  /** On raw tags the agent is the stricter one: what it accepts, the panel manages. */
  lemma AgentImpliesPanel(s: string)
    requires AgentManaged(s)
    ensures REQUIRED_TAG in ParseTags(Some(s))
  {
    assert ";" + REQUIRED_TAG + ";" == ";managed;";
    var before, after :| ";" + s + ";" == before + (";" + REQUIRED_TAG + ";") + after;
    var n := Normalized(s);
    var before', after' := Normalized(before), Normalized(after);
    assert ";" + n + ";" == Normalized(";" + s + ";");
    assert Normalized(before + (";" + REQUIRED_TAG + ";") + after)
        == before' + (";" + REQUIRED_TAG + ";") + after';
    assert Contains(";" + n + ";", ";" + REQUIRED_TAG + ";");
    SubstringIsMembership(n, REQUIRED_TAG);
    StripOfStripped(REQUIRED_TAG);
    CleanedMembers(Split(n, ';'));
    SubstringIsMembership(s, REQUIRED_TAG);
  }

  lemma BlankHides(x: string, w: string)
    requires IsTag(x) && IsTag(w) && x != w
    ensures var s := x + ";" + (" " + w);
            w in ParseTags(Some(s)) && !Contains(";" + s + ";", ";" + w + ";")
  {
    var s := x + ";" + (" " + w);
    SplitLast(x, ';');
    SplitLast(" " + w, ';');
    SplitConcat(x, ';', " " + w);
    assert x + [';'] + (" " + w) == s;
    assert Split(s, ';') == [x, " " + w];
    SubstringIsMembership(s, w);
    NormalizedIsIdentity(s);
    assert (" " + w)[1..] == w;
    StripOfStripped(w);
    assert Strip(" " + w) == w;
    CleanedMembers([x, " " + w]);
    assert " " + w in [x, " " + w];
  }

  /** It is strictly so: a blank after any other tag's separator is enough for the panel to
      manage a guest that the agent refuses. */
  lemma AgentRefusesBlank(x: string)
    requires IsTag(x) && x != REQUIRED_TAG
    ensures var s := x + ";" + (" " + REQUIRED_TAG);
            REQUIRED_TAG in ParseTags(Some(s)) && !AgentManaged(s)
  {
    BlankHides(x, REQUIRED_TAG);
    assert ";" + REQUIRED_TAG + ";" == ";managed;";
  }

  /** On every raw tag line the two tests for `managed` agree if and only if the word is a field as
      it stands, or no field, split at commas as well and stripped, is that word. */
  lemma ManagedAgreesExactly(s: string)
    ensures (AgentManaged(s) <==> REQUIRED_TAG in ParseTags(Some(s)))
            <==> (REQUIRED_TAG in Split(s, ';')
                  || forall p | p in Split(Normalized(s), ';') :: Strip(p) != REQUIRED_TAG)
  {
    AgentAsksForTag(s);
    if AgentManaged(s) {
      AgentImpliesPanel(s);
    }
    CleanedMembers(Split(Normalized(s), ';'));
  }

  // ---------- the application on raw tags ----------

  // The application the panel finds within one field of the raw line.
  function SeenIn(field: string): string {
    FirstApp(Cleaned(Split(Normalized(field), ';')))
  }

  function SeenInAny(fields: seq<string>): string {
    if fields == [] then "unknown"
    else if SeenIn(fields[0]) != "unknown" then SeenIn(fields[0])
    else SeenInAny(fields[1..])
  }

  lemma {:induction false} CleanedConcat(x: seq<string>, y: seq<string>)
    ensures Cleaned(x + y) == Cleaned(x) + Cleaned(y)
  {
    if x == [] {
      assert x + y == y;
    } else {
      assert (x + y)[1..] == x[1..] + y;
      CleanedConcat(x[1..], y);
    }
  }

  lemma {:induction false} FirstAppConcat(x: seq<string>, y: seq<string>)
    ensures FirstApp(x + y) == if FirstApp(x) != "unknown" then FirstApp(x) else FirstApp(y)
  {
    if x == [] {
      assert x + y == y;
    } else {
      assert (x + y)[1..] == x[1..] + y;
      FirstAppConcat(x[1..], y);
    }
  }

  // The first field, and what follows its separator.
  lemma {:induction false} SplitHead(s: string, sep: char) returns (head: string, tail: string)
    requires !FreeOf(s, sep)
    ensures s == head + [sep] + tail && FreeOf(head, sep)
  {
    if s[0] == sep {
      head, tail := [], s[1..];
    } else {
      var rest;
      rest, tail := SplitHead(s[1..], sep);
      head := [s[0]] + rest;
    }
  }

  lemma {:induction false} PanelByField(s: string)
    decreases |s|
    ensures FirstApp(Cleaned(Split(Normalized(s), ';'))) == SeenInAny(Split(s, ';'))
  {
    if FreeOf(s, ';') {
      SplitLast(s, ';');
    } else {
      var x, y := SplitHead(s, ';');
      SplitLast(x, ';');
      SplitConcat(x, ';', y);
      assert Normalized(s) == Normalized(x) + [';'] + Normalized(y);
      SplitConcat(Normalized(x), ';', Normalized(y));
      CleanedConcat(Split(Normalized(x), ';'), Split(Normalized(y), ';'));
      FirstAppConcat(Cleaned(Split(Normalized(x), ';')), Cleaned(Split(Normalized(y), ';')));
      PanelByField(y);
      assert ([x] + Split(y, ';'))[1..] == Split(y, ';');
    }
  }

  lemma NoAppInEmptyField()
    ensures FirstApp([[]]) == "unknown"
  {
  }

  lemma NoAppAtEnd(fields: seq<string>)
    ensures FirstApp(DropEmptyLast(fields)) == FirstApp(fields)
  {
    if fields != [] && fields[|fields| - 1] == [] {
      var rest := fields[..|fields| - 1];
      NoAppInEmptyField();
      FirstAppConcat(rest, [[]]);
      assert fields == rest + [[]];
    }
  }

  lemma AgentByField(s: string)
    requires FreeOf(s, '\n')
    ensures FirstApp(AgentFields(s)) == FirstApp(Split(s, ';'))
  {
    OneLine(s);
    NoAppAtEnd(Split(s, ';'));
  }

  // A word the agent knows is one the panel sees.
  lemma KnownIsSeen(field: string)
    requires field in TAG_APP_TYPE
    ensures SeenIn(field) == TAG_APP_TYPE[field] != "unknown"
  {
    assert IsTag(field);
    ParseOfJoin([field]);
    NormalizedIsIdentity(field);
    assert FirstApp([field]) == TAG_APP_TYPE[field];
  }

  // The first field in which the panel finds an application, or their number.
  function FirstSeen(fields: seq<string>): (k: nat)
    ensures k <= |fields|
  {
    if fields == [] || SeenIn(fields[0]) != "unknown" then 0 else 1 + FirstSeen(fields[1..])
  }

  lemma {:induction false} SeenAtFirst(fields: seq<string>)
    ensures var k := FirstSeen(fields);
            SeenInAny(fields) == if k == |fields| then "unknown" else SeenIn(fields[k])
  {
    if FirstSeen(fields) != 0 {
      SeenAtFirst(fields[1..]);
    }
  }

  // Before that field the agent finds none either.
  lemma {:induction false} AgentSkips(fields: seq<string>)
    ensures FirstApp(fields) == FirstApp(fields[FirstSeen(fields)..])
  {
    var k := FirstSeen(fields);
    if k == 0 {
      assert fields[k..] == fields;
    } else {
      AgentSkips(fields[1..]);
      assert fields[1..][k - 1..] == fields[k..];
      if fields[0] in TAG_APP_TYPE {
        KnownIsSeen(fields[0]);
      }
    }
  }

  /** On every raw tag line both see the same application if and only if the agent, from the first
      field on in which the panel finds one, finds the same one. */
  lemma AppAgreesExactly(s: string)
    requires FreeOf(s, '\n')
    ensures var fields := Split(s, ';');
            var k := FirstSeen(fields);
            FirstApp(AgentFields(s)) == FirstApp(ParseTags(Some(s)))
            <==> k == |fields| || FirstApp(fields[k..]) == SeenIn(fields[k])
  {
    var fields := Split(s, ';');
    AgentByField(s);
    PanelByField(s);
    SeenAtFirst(fields);
    AgentSkips(fields);
  }

  /** They differ when a blank hides the first application from the agent. */
  lemma BlankHidesApp(x: string, y: string)
    requires x in TAG_APP_TYPE && y in TAG_APP_TYPE
    ensures var s := (" " + x) + ";" + y;
            && FirstApp(ParseTags(Some(s))) == TAG_APP_TYPE[x]
            && FirstApp(AgentFields(s)) == TAG_APP_TYPE[y]
  {
    var s := (" " + x) + ";" + y;
    TwoFields(x, y);
    AgentByField(s);
    PanelByField(s);
    BlankField(x);
    assert [" " + x, y][1..] == [y];
  }

  lemma TwoFields(x: string, y: string)
    requires x in TAG_APP_TYPE && y in TAG_APP_TYPE
    ensures var s := (" " + x) + ";" + y; Split(s, ';') == [" " + x, y] && FreeOf(s, '\n')
  {
    KnownIsTag(x);
    KnownIsTag(y);
    SplitLast(" " + x, ';');
    SplitLast(y, ';');
    SplitConcat(" " + x, ';', y);
    assert " " + x + [';'] + y == (" " + x) + ";" + y;
  }

  lemma BlankField(x: string)
    requires x in TAG_APP_TYPE
    ensures SeenIn(" " + x) == TAG_APP_TYPE[x] != "unknown" && " " + x !in TAG_APP_TYPE
  {
    KnownIsTag(x);
    PaddedTag(x);
    assert FirstApp([x]) == TAG_APP_TYPE[x];
    if " " + x in TAG_APP_TYPE {
      KnownIsTag(" " + x);
    }
    KnownIsSeen(x);
  }

  lemma KnownIsTag(x: string)
    requires x in TAG_APP_TYPE
    ensures IsTag(x) && FreeOf(x, '\n')
  {
  }

  lemma PaddedTag(x: string)
    requires IsTag(x)
    ensures Cleaned(Split(Normalized(" " + x), ';')) == [x]
  {
    NormalizedIsIdentity(" " + x);
    SplitLast(" " + x, ';');
    assert (" " + x)[1..] == x;
    StripOfStripped(x);
    assert Strip(" " + x) == x;
  }

  // Without commas and blanks the fields are already clean.
  predicate Plain(s: string) {
    forall c | c in s :: c != ',' && !IsSpace(c)
  }

  lemma PlainFieldSeen(field: string)
    requires Plain(field) && FreeOf(field, ';')
    ensures SeenIn(field) == FirstApp([field])
  {
    NormalizedIsIdentity(field);
    if field != [] {
      assert field[0] in field && field[|field| - 1] in field;
      assert Canonical([field]);
      ParseOfJoin([field]);
    } else {
      NoAppInEmptyField();
    }
  }

  lemma {:induction false} PlainFieldsSeen(fields: seq<string>)
    requires forall p | p in fields :: Plain(p) && FreeOf(p, ';')
    ensures SeenInAny(fields) == FirstApp(fields)
  {
    if fields != [] {
      assert fields == [fields[0]] + fields[1..];
      PlainFieldSeen(fields[0]);
      PlainFieldsSeen(fields[1..]);
      FirstAppConcat([fields[0]], fields[1..]);
    }
  }

  /** So on a raw line without commas and blanks panel and agent agree on everything. */
  lemma PlainTagsAgree(s: string)
    requires Plain(s)
    ensures AgentManaged(s) <==> REQUIRED_TAG in ParseTags(Some(s))
    ensures FirstApp(AgentFields(s)) == FirstApp(ParseTags(Some(s)))
  {
    SplitParts(s, ';');
    NormalizedIsIdentity(s);
    forall p | p in Split(s, ';')
      ensures Strip(p) == p
    {
      assert p == [] || (p[0] in p && p[|p| - 1] in p);
      StripOfStripped(p);
    }
    ManagedAgreesExactly(s);
    PlainFieldsSeen(Split(s, ';'));
    assert IsSpace('\n');
    AgentByField(s);
    PanelByField(s);
  }
}
