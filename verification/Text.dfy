/** The string operations of Python that the source relies on: strip, split on one
    character, and join. */
module Text {

  // What `str.strip()` removes.
  predicate IsSpace(c: char) {
    || '\t' <= c <= '\r'
    || '\U{1C}' <= c <= ' '
    || c == '\U{85}' || c == '\U{A0}' || c == '\U{1680}'
    || '\U{2000}' <= c <= '\U{200A}'
    || c == '\U{2028}' || c == '\U{2029}' || c == '\U{202F}' || c == '\U{205F}' || c == '\U{3000}'
  }

  function StripLeft(s: string): string {
    if s != [] && IsSpace(s[0]) then StripLeft(s[1..]) else s
  }

  function StripRight(s: string): string {
    if s != [] && IsSpace(s[|s| - 1]) then StripRight(s[..|s| - 1]) else s
  }

  function Strip(s: string): string {
    StripRight(StripLeft(s))
  }

  predicate Stripped(s: string) {
    s == [] || (!IsSpace(s[0]) && !IsSpace(s[|s| - 1]))
  }

  predicate Blank(s: string) {
    forall c | c in s :: IsSpace(c)
  }

  lemma {:induction false} StripLeftCuts(s: string) returns (pad: string)
    ensures Blank(pad) && s == pad + StripLeft(s)
    ensures StripLeft(s) == [] || !IsSpace(StripLeft(s)[0])
  {
    if s != [] && IsSpace(s[0]) {
      var rest := StripLeftCuts(s[1..]);
      pad := [s[0]] + rest;
    } else {
      pad := [];
    }
  }

  lemma {:induction false} StripRightCuts(s: string) returns (pad: string)
    ensures Blank(pad) && s == StripRight(s) + pad
    ensures Stripped(StripRight(s)) || (StripRight(s) != [] && IsSpace(s[0]))
  {
    if s != [] && IsSpace(s[|s| - 1]) {
      var rest := StripRightCuts(s[..|s| - 1]);
      pad := rest + [s[|s| - 1]];
    } else {
      pad := [];
    }
  }

  /** Strip(s) is s without a blank prefix and a blank suffix, and has no blank end itself. */
  lemma StripCuts(s: string) returns (left: string, right: string)
    ensures Blank(left) && Blank(right)
    ensures s == left + Strip(s) + right
    ensures Stripped(Strip(s))
  {
    left := StripLeftCuts(s);
    right := StripRightCuts(StripLeft(s));
  }

  lemma StripOfStripped(s: string)
    requires Stripped(s)
    ensures Strip(s) == s
  {
  }

  /** It undoes any padding with blanks. */
  lemma {:induction false} StripPadded(left: string, text: string, right: string)
    requires Stripped(text) && text != []
    requires Blank(left) && Blank(right)
    ensures Strip(left + text + right) == text
  {
    StripLeftPadded(left, text + right);
    assert left + text + right == left + (text + right);
    assert StripLeft(text + right) == text + right;
    StripRightPadded(text, right);
  }

  lemma {:induction false} StripLeftPadded(left: string, rest: string)
    requires Blank(left)
    ensures StripLeft(left + rest) == StripLeft(rest)
  {
    if left == [] {
      assert left + rest == rest;
    } else {
      assert (left + rest)[1..] == left[1..] + rest;
      StripLeftPadded(left[1..], rest);
    }
  }

  lemma {:induction false} StripRightPadded(text: string, right: string)
    requires Blank(right)
    ensures StripRight(text + right) == StripRight(text)
  {
    if right == [] {
      assert text + right == text;
    } else {
      var s := text + right;
      assert s[..|s| - 1] == text + right[..|right| - 1];
      StripRightPadded(text, right[..|right| - 1]);
    }
  }

  lemma StripBlank(s: string)
    requires Blank(s)
    ensures Strip(s) == []
  {
    StripLeftPadded(s, []);
    assert s + [] == s;
  }

  /** Split(s, sep) is `s.split(sep)` for a one-character separator. */
  function Split(s: string, sep: char): (parts: seq<string>)
    ensures |parts| >= 1
  {
    if s == [] then [[]]
    else
      var rest := Split(s[1..], sep);
      if s[0] == sep then [[]] + rest else [[s[0]] + rest[0]] + rest[1..]
  }

  function Join(parts: seq<string>, sep: string): string {
    if |parts| == 0 then []
    else if |parts| == 1 then parts[0]
    else parts[0] + sep + Join(parts[1..], sep)
  }

  predicate FreeOf(s: string, sep: char) {
    sep !in s
  }

  lemma {:induction false} SplitParts(s: string, sep: char)
    ensures forall p | p in Split(s, sep) :: FreeOf(p, sep) && forall c | c in p :: c in s
  {
    if s != [] {
      SplitParts(s[1..], sep);
      var rest := Split(s[1..], sep);
      forall p | p in Split(s, sep)
        ensures FreeOf(p, sep) && forall c | c in p :: c in s
      {
        if p in rest {
          assert forall c | c in p :: c in s[1..];
        } else if s[0] != sep {
          assert p == [s[0]] + rest[0];
          assert rest[0] in rest;
        }
      }
    }
  }

  lemma {:induction false} SplitConcat(x: string, sep: char, y: string)
    ensures Split(x + [sep] + y, sep) == Split(x, sep) + Split(y, sep)
  {
    var s := x + [sep] + y;
    if x == [] {
      assert s[1..] == y;
    } else {
      assert s[1..] == x[1..] + [sep] + y;
      SplitConcat(x[1..], sep, y);
    }
  }

  lemma {:induction false} SplitLast(p: string, sep: char)
    requires FreeOf(p, sep)
    ensures Split(p, sep) == [p]
  {
    if p != [] {
      SplitLast(p[1..], sep);
      assert [p[0]] + p[1..] == p;
    }
  }

  /** Splitting undoes joining when no part contains the separator. */
  lemma {:induction false} SplitJoin(parts: seq<string>, sep: char)
    requires |parts| >= 1
    requires forall p | p in parts :: FreeOf(p, sep)
    ensures Split(Join(parts, [sep]), sep) == parts
  {
    if |parts| == 1 {
      SplitLast(parts[0], sep);
    } else {
      SplitJoin(parts[1..], sep);
      SplitLast(parts[0], sep);
      SplitConcat(parts[0], sep, Join(parts[1..], [sep]));
    }
  }

  /** Joining undoes splitting. */
  lemma {:induction false} JoinSplit(s: string, sep: char)
    ensures Join(Split(s, sep), [sep]) == s
  {
    if s != [] {
      JoinSplit(s[1..], sep);
      var rest := Split(s[1..], sep);
      if s[0] == sep {
        assert ([[]] + rest)[1..] == rest;
      } else if |rest| > 1 {
        assert ([[s[0]] + rest[0]] + rest[1..])[1..] == rest[1..];
      }
    }
  }

  lemma {:induction false} JoinConcat(x: seq<string>, y: seq<string>, sep: string)
    requires x != [] && y != []
    ensures Join(x + y, sep) == Join(x, sep) + sep + Join(y, sep)
  {
    var all := x + y;
    if |x| == 1 {
      assert all[1..] == y;
    } else {
      assert all[1..] == x[1..] + y;
      JoinConcat(x[1..], y, sep);
      assert x[0] + sep + (Join(x[1..], sep) + sep + Join(y, sep))
          == x[0] + sep + Join(x[1..], sep) + sep + Join(y, sep);
    }
  }

  /** Adding parts at the end only extends the joined text. */
  lemma JoinExtends(parts: seq<string>, more: seq<string>, sep: string)
    requires parts != []
    ensures Join(parts, sep) <= Join(parts + more, sep)
  {
    if more == [] {
      assert parts + more == parts;
    } else {
      JoinConcat(parts, more, sep);
    }
  }
}
