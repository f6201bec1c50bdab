/**
 * scripts/validate_commit_msg.py: the commit-msg hook. The message file is
 * read and stripped, and its first line must match
 * `^(Action): .{1,72}$`, where Action is one of fifteen verbs.
 */
module CommitMessage {
  import opened Common

  const AllowedActions: set<string> := {
    "Add", "Update", "Fix", "Refactor", "Remove", "Rename", "Deprecate", "Test",
    "Document", "Format", "Optimize", "Configure", "Revert", "Merge", "Chore"
  }

  /** `sorted(ALLOWED_ACTIONS)`: the alternatives of the pattern, in the order the regex tries them. */
  const SortedActions: seq<string> := [
    "Add", "Chore", "Configure", "Deprecate", "Document", "Fix", "Format", "Merge",
    "Optimize", "Refactor", "Remove", "Rename", "Revert", "Test", "Update"
  ]

  const MaxDescription := 72

  lemma SortedActionsAreAllowed()
    ensures forall a :: a in SortedActions <==> a in AllowedActions
  {
  }

  // ---------------------------------------------------------------------
  // str.strip() and str.splitlines()
  // ---------------------------------------------------------------------

  /** Python's `str.isspace()` for one character. */
  predicate IsSpace(c: char)
  {
    '\t' <= c <= '\r' || '\U{1C}' <= c <= '\U{20}' || c == '\U{85}' || c == '\U{A0}' ||
    c == '\U{1680}' || '\U{2000}' <= c <= '\U{200A}' || c == '\U{2028}' || c == '\U{2029}' ||
    c == '\U{202F}' || c == '\U{205F}' || c == '\U{3000}'
  }

  /** The characters at which `str.splitlines()` ends a line. */
  predicate IsLineBreak(c: char)
  {
    '\n' <= c <= '\r' || '\U{1C}' <= c <= '\U{1E}' || c == '\U{85}' || c == '\U{2028}' || c == '\U{2029}'
  }

  predicate NoLineBreak(s: string)
  {
    forall i :: 0 <= i < |s| ==> !IsLineBreak(s[i])
  }

  /** `s.lstrip()`: drops the leading whitespace and nothing else. */
  function StripLeft(s: string): (r: string)
    ensures |r| <= |s| && r == s[|s| - |r|..]
    ensures forall i :: 0 <= i < |s| - |r| ==> IsSpace(s[i])
    ensures r != [] ==> !IsSpace(r[0])
    decreases |s|
  {
    if s != [] && IsSpace(s[0]) then StripLeft(s[1..]) else s
  }

  /** `s.rstrip()`: drops the trailing whitespace and nothing else. */
  function StripRight(s: string): (r: string)
    ensures |r| <= |s| && r == s[..|r|]
    ensures forall i :: |r| <= i < |s| ==> IsSpace(s[i])
    ensures r != [] ==> !IsSpace(r[|r| - 1])
    decreases |s|
  {
    if s != [] && IsSpace(s[|s| - 1]) then StripRight(s[..|s| - 1]) else s
  }

  /** `s.strip()` */
  function Strip(s: string): (r: string)
    ensures r == [] <==> forall i :: 0 <= i < |s| ==> IsSpace(s[i])
    ensures r != [] ==> !IsSpace(r[0]) && !IsSpace(r[|r| - 1])
  {
    StripRight(StripLeft(s))
  }

  /** `s.splitlines()[0]` for a non-empty s: everything before the first line break. */
  function FirstLine(s: string): (line: string)
    ensures |line| <= |s| && line == s[..|line|]
    ensures NoLineBreak(line)
    ensures |line| < |s| ==> IsLineBreak(s[|line|])
    decreases |s|
  {
    if s == [] || IsLineBreak(s[0]) then [] else [s[0]] + FirstLine(s[1..])
  }

  // ---------------------------------------------------------------------
  // The pattern
  // ---------------------------------------------------------------------

  predicate NoNewline(s: string)
  {
    forall i :: 0 <= i < |s| ==> s[i] != '\n'
  }

  /**
   * `.{1,72}$` against the rest of the line: one to 72 characters other
   * than a newline, then the end, where `$` also allows one final newline.
   */
  predicate DescriptionMatches(rest: string)
  {
    (1 <= |rest| <= MaxDescription && NoNewline(rest)) ||
    (2 <= |rest| <= MaxDescription + 1 && rest[|rest| - 1] == '\n' && NoNewline(rest[..|rest| - 1]))
  }

  /** The alternative `action` followed by `: ` and a matching description. */
  predicate MatchesWith(action: string, line: string)
  {
    |action| + 2 <= |line| &&
    line[..|action|] == action &&
    line[|action|..|action| + 2] == ": " &&
    DescriptionMatches(line[|action| + 2..])
  }

  /** The first alternative, in the order given, with which the pattern matches `line`. */
  function MatchFirst(alternatives: seq<string>, line: string): (r: Option<string>)
    ensures r.Some? ==> r.value in alternatives && MatchesWith(r.value, line)
    ensures r.None? <==> forall i :: 0 <= i < |alternatives| ==> !MatchesWith(alternatives[i], line)
    decreases |alternatives|
  {
    if alternatives == [] then None
    else if MatchesWith(alternatives[0], line) then Some(alternatives[0])
    else MatchFirst(alternatives[1..], line)
  }

  /** `PATTERN.match(line)` succeeds. */
  predicate PatternMatches(line: string)
    ensures PatternMatches(line) <==> exists i :: 0 <= i < |SortedActions| && MatchesWith(SortedActions[i], line)
  {
    MatchFirst(SortedActions, line).Some?
  }

  lemma {:induction false} MatchFirstIff(alternatives: seq<string>, line: string)
    ensures MatchFirst(alternatives, line).Some? <==> exists a :: a in alternatives && MatchesWith(a, line)
  {
    if MatchFirst(alternatives, line).None? {
      forall a | a in alternatives
        ensures !MatchesWith(a, line)
      {
        var i :| 0 <= i < |alternatives| && alternatives[i] == a;
      }
    }
  }

  /** A line is accepted iff some allowed verb, then ": ", then a matching description make it up. */
  lemma PatternMatchesIff(line: string)
    ensures PatternMatches(line) <==> exists a :: a in AllowedActions && MatchesWith(a, line)
  {
    SortedActionsAreAllowed();
    MatchFirstIff(SortedActions, line);
  }

  /** Every line "Action: description" with an allowed verb and 1..72 characters of description is accepted. */
  lemma AcceptsWellFormed(a: string, d: string)
    requires a in AllowedActions
    requires 1 <= |d| <= MaxDescription && NoLineBreak(d)
    ensures PatternMatches(a + ": " + d)
  {
    var line := a + ": " + d;
    assert line[..|a|] == a;
    assert line[|a|..|a| + 2] == ": ";
    assert line[|a| + 2..] == d;
    assert forall i :: 0 <= i < |d| ==> d[i] != '\n' by {
      forall i | 0 <= i < |d| ensures d[i] != '\n' { assert !IsLineBreak(d[i]); }
    }
    assert MatchesWith(a, line);
    PatternMatchesIff(line);
  }

  lemma MatchedLineShape(alternatives: seq<string>, line: string)
    requires MatchFirst(alternatives, line).Some? && NoLineBreak(line)
    ensures var a := MatchFirst(alternatives, line).value;
            a in alternatives &&
            line == a + ": " + line[|a| + 2..] &&
            1 <= |line[|a| + 2..]| <= MaxDescription
  {
    var a := MatchFirst(alternatives, line).value;
    var rest := line[|a| + 2..];
    assert line == line[..|a|] + line[|a|..|a| + 2] + rest;
  }

  /** Conversely an accepted single line is an allowed verb, ": ", and 1..72 characters of description. */
  lemma AcceptedIsWellFormed(line: string)
    requires PatternMatches(line) && NoLineBreak(line)
    ensures var a := MatchFirst(SortedActions, line).value;
            a in AllowedActions &&
            line == a + ": " + line[|a| + 2..] &&
            1 <= |line[|a| + 2..]| <= MaxDescription
  {
    SortedActionsAreAllowed();
    MatchedLineShape(SortedActions, line);
  }

  predicate NoColon(s: string)
  {
    forall i :: 0 <= i < |s| ==> s[i] != ':'
  }

  lemma NoColonInActions()
    ensures forall a :: a in SortedActions ==> NoColon(a)
  {
  }

  /**
   * Two words without a colon that are each followed by ':' at the start of
   * the same line are the same word.
   */
  lemma SameActionPrefix(a: string, b: string, line: string)
    requires NoColon(a) && NoColon(b)
    requires |a| < |line| && line[..|a|] == a && line[|a|] == ':'
    requires |b| < |line| && line[..|b|] == b && line[|b|] == ':'
    ensures a == b
  {
  }

  /**
   * On a line that starts with a word and ": ", the only alternative that can
   * match is that word; so the order in which the alternatives are tried
   * does not matter.
   */
  lemma OnlyLeadingWordMatches(alternatives: seq<string>, v: string, d: string)
    requires forall a :: a in alternatives ==> NoColon(a)
    requires NoColon(v)
    requires MatchFirst(alternatives, v + ": " + d).Some?
    ensures MatchFirst(alternatives, v + ": " + d).value == v
  {
    var line := v + ": " + d;
    var b := MatchFirst(alternatives, line).value;
    assert line[..|v|] == v && line[|v|] == ':';
    assert line[|b|] == line[|b|..|b| + 2][0];
    SameActionPrefix(v, b, line);
  }

  /** A line is refused when the word before ": " is not itself an allowed verb. */
  lemma RejectsUnknownVerb(v: string, d: string)
    requires v !in AllowedActions && NoColon(v)
    ensures !PatternMatches(v + ": " + d)
  {
    if PatternMatches(v + ": " + d) {
      NoColonInActions();
      OnlyLeadingWordMatches(SortedActions, v, d);
      SortedActionsAreAllowed();
    }
  }

  /** Matching is exact and case-sensitive: other spellings of a verb are refused. */
  lemma RejectsOtherSpellings(d: string)
    ensures forall v :: v in ["add", "Added", "ADD", "fix", "Fixed", "Updates"] ==> !PatternMatches(v + ": " + d)
  {
    forall v | v in ["add", "Added", "ADD", "fix", "Fixed", "Updates"]
      ensures !PatternMatches(v + ": " + d)
    {
      RejectsUnknownVerb(v, d);
    }
  }

  /** An empty description, or one longer than 72 characters, is refused. */
  lemma RejectsEmptyOrLongDescription(a: string, d: string)
    requires a in AllowedActions
    requires |d| == 0 || (|d| > MaxDescription && NoLineBreak(d))
    ensures !PatternMatches(a + ": " + d)
  {
    var line := a + ": " + d;
    if PatternMatches(line) {
      SortedActionsAreAllowed();
      NoColonInActions();
      OnlyLeadingWordMatches(SortedActions, a, d);
    }
  }

  // ---------------------------------------------------------------------
  // main
  // ---------------------------------------------------------------------

  /**
   * `main()`: `argv` is sys.argv, `pathExists` says which paths exist, and
   * `readText` gives a file's text, or None when reading it raises (a
   * directory, undecodable bytes), which ends the process with status 1.
   */
  function ValidateCommitMessage(argv: seq<string>, pathExists: string -> bool, readText: string -> Option<string>): (code: int)
    ensures code == 0 || code == 1
    ensures code == 0 <==>
              |argv| >= 2 && pathExists(argv[1]) && readText(argv[1]).Some? &&
              Strip(readText(argv[1]).value) != [] &&
              PatternMatches(FirstLine(Strip(readText(argv[1]).value)))
  {
    if |argv| < 2 then 1
    else
      var path := argv[1];
      if !pathExists(path) then 1
      else match readText(path)
        case None => 1
        case Some(text) =>
          var content := Strip(text);
          if content == [] then 1
          else
            var firstLine := FirstLine(content);
            if !PatternMatches(firstLine) then 1 else 0
  }

  /** A missing argument or a missing file is refused before anything is read. */
  lemma GuardsPrecedeReading(argv: seq<string>, pathExists: string -> bool, r1: string -> Option<string>, r2: string -> Option<string>)
    requires |argv| < 2 || !pathExists(argv[1])
    ensures ValidateCommitMessage(argv, pathExists, r1) == 1
    ensures ValidateCommitMessage(argv, pathExists, r1) == ValidateCommitMessage(argv, pathExists, r2)
  {
  }

  /** Status 0 means the stripped message's first line is an allowed verb, ": ", and 1..72 characters. */
  lemma AcceptedMessageIsWellFormed(argv: seq<string>, pathExists: string -> bool, readText: string -> Option<string>)
    requires ValidateCommitMessage(argv, pathExists, readText) == 0
    ensures |argv| >= 2 && readText(argv[1]).Some?
    ensures var line := FirstLine(Strip(readText(argv[1]).value));
            exists a :: a in AllowedActions && |a| + 2 <= |line| &&
              line == a + ": " + line[|a| + 2..] && 1 <= |line| - |a| - 2 <= MaxDescription
  {
    var line := FirstLine(Strip(readText(argv[1]).value));
    assert PatternMatches(line) && NoLineBreak(line);
    AcceptedIsWellFormed(line);
    var a := MatchFirst(SortedActions, line).value;
    assert |line[|a| + 2..]| == |line| - |a| - 2;
    assert a in AllowedActions && |a| + 2 <= |line| &&
           line == a + ": " + line[|a| + 2..] && 1 <= |line| - |a| - 2 <= MaxDescription;
  }

  /** Leading whitespace, including blank lines, does not change what is stripped. */
  lemma {:induction false} StripIgnoresLeadingSpace(w: string, s: string)
    requires forall i :: 0 <= i < |w| ==> IsSpace(w[i])
    ensures StripLeft(w + s) == StripLeft(s)
    decreases |w|
  {
    if w != [] {
      assert (w + s)[1..] == w[1..] + s;
      StripIgnoresLeadingSpace(w[1..], s);
    } else {
      assert w + s == s;
    }
  }

  /** Trailing whitespace is dropped only from the end: a prefix before a non-space character stays. */
  lemma {:induction false} StripRightKeepsPrefix(x: string, y: string)
    requires exists i :: 0 <= i < |y| && !IsSpace(y[i])
    ensures StripRight(x + y) == x + StripRight(y)
    decreases |y|
  {
    if IsSpace(y[|y| - 1]) {
      var i :| 0 <= i < |y| && !IsSpace(y[i]);
      assert (x + y)[..|x + y| - 1] == x + y[..|y| - 1];
      assert y[..|y| - 1][i] == y[i];
      StripRightKeepsPrefix(x, y[..|y| - 1]);
    }
  }

  lemma {:induction false} FirstLineOfBrokenLine(l: string, b: char, r: string)
    requires NoLineBreak(l) && IsLineBreak(b)
    ensures FirstLine(l + [b] + r) == l
    decreases |l|
  {
    if l != [] {
      assert (l + [b] + r)[1..] == l[1..] + [b] + r;
      FirstLineOfBrokenLine(l[1..], b, r);
    }
  }

  /**
   * Only the first line is checked: for a message made of blank space `w`,
   * a first line `l`, a line break and any later text with something in it,
   * the line that is matched is exactly `l`.
   */
  lemma LaterLinesIgnored(w: string, l: string, b: char, r: string)
    requires forall i :: 0 <= i < |w| ==> IsSpace(w[i])
    requires l != [] && !IsSpace(l[0]) && NoLineBreak(l)
    requires IsLineBreak(b)
    requires exists i :: 0 <= i < |r| && !IsSpace(r[i])
    ensures Strip(w + l + [b] + r) != []
    ensures FirstLine(Strip(w + l + [b] + r)) == l
  {
    var m := l + [b] + r;
    assert w + l + [b] + r == w + m;
    StripIgnoresLeadingSpace(w, m);
    assert StripLeft(m) == m;
    StripRightKeepsPrefix(l + [b], r);
    assert Strip(w + l + [b] + r) == l + [b] + StripRight(r);
    FirstLineOfBrokenLine(l, b, StripRight(r));
  }
}
