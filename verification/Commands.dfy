/** models.py: the command wrapper that binds a task to its directory, and its inverse. */
module Commands {
  import opened Decimals
  import opened Wrappers

  const SENTINEL := "__LOCALFLOW_RESTORE_FROZEN_CWD__"
  const BOUNDARY := "\n# localflow:user-command\n"

  // ---------------------------------------------------------------- occurrences

  predicate At(s: string, pat: string, p: nat) {
    p + |pat| <= |s| && s[p..p + |pat|] == pat
  }

  ghost predicate Contains(s: string, pat: string) {
    exists p: nat :: At(s, pat, p)
  }

  /** `s.split(pat, 1)[1]`, if `pat` occurs in `s`. */
  function AfterFirst(s: string, pat: string): Option<string>
    decreases |s|
  {
    if At(s, pat, 0) then Some(s[|pat|..])
    else if s == "" then None
    else AfterFirst(s[1..], pat)
  }

  lemma AtTail(s: string, pat: string, p: nat)
    requires s != "" && p > 0
    ensures At(s, pat, p) <==> At(s[1..], pat, p - 1)
  {
    if p + |pat| <= |s| {
      assert s[1..][p - 1..p - 1 + |pat|] == s[p..p + |pat|];
    }
  }

  lemma {:induction false} AfterFirstIs(s: string, pat: string, p: nat)
    requires At(s, pat, p) && forall q: nat :: q < p ==> !At(s, pat, q)
    ensures AfterFirst(s, pat) == Some(s[p + |pat|..])
    decreases |s|
  {
    if p > 0 {
      AtTail(s, pat, p);
      forall q: nat | q < p - 1 ensures !At(s[1..], pat, q) {
        AtTail(s, pat, q + 1);
      }
      AfterFirstIs(s[1..], pat, p - 1);
      assert s[1..][p - 1 + |pat|..] == s[p + |pat|..];
    }
  }

  lemma {:induction false} AfterFirstNone(s: string, pat: string)
    ensures AfterFirst(s, pat).None? <==> !Contains(s, pat)
    ensures AfterFirst(s, pat).Some? ==> |AfterFirst(s, pat).value| + |pat| <= |s|
    decreases |s|
  {
    if At(s, pat, 0) {
    } else if s == "" {
    } else {
      AfterFirstNone(s[1..], pat);
      if Contains(s[1..], pat) {
        var p: nat :| At(s[1..], pat, p);
        AtTail(s, pat, p + 1);
      }
      if Contains(s, pat) {
        var p: nat :| At(s, pat, p);
        AtTail(s, pat, p);
      }
    }
  }

  /** The first occurrence is not behind any occurrence. */
  lemma {:induction false} AfterFirstEarly(s: string, pat: string, p: nat)
    requires At(s, pat, p)
    ensures AfterFirst(s, pat).Some? && |AfterFirst(s, pat).value| >= |s| - p - |pat|
    decreases |s|
  {
    if !At(s, pat, 0) {
      AtTail(s, pat, p);
      AfterFirstEarly(s[1..], pat, p - 1);
    }
  }

  lemma ContainsInside(a: string, s: string, b: string, pat: string)
    requires Contains(s, pat)
    ensures Contains(a + s + b, pat)
  {
    var p: nat :| At(s, pat, p);
    assert (a + s + b)[|a| + p..|a| + p + |pat|] == s[p..p + |pat|];
    assert At(a + s + b, pat, |a| + p);
  }

  // ---------------------------------------------------------------- shlex

  /** What needs no quoting: `[\w@%+=:,./-]` */
  predicate PlainChar(c: char) {
    'a' <= c <= 'z' || 'A' <= c <= 'Z' || '0' <= c <= '9' || c in "_@%+=:,./-"
  }

  function Escaped(s: string): string {
    if s == "" then "" else
    (if s[0] == '\'' then "'\"'\"'" else [s[0]]) + Escaped(s[1..])
  }

  /** `shlex.quote` */
  function Quote(s: string): string {
    if s == "" then "''"
    else if forall i :: 0 <= i < |s| ==> PlainChar(s[i]) then s
    else "'" + Escaped(s) + "'"
  }

  /** `shlex.join` */
  function Join(args: seq<string>): string {
    if args == [] then ""
    else if |args| == 1 then Quote(args[0])
    else Quote(args[0]) + " " + Join(args[1..])
  }

  // ---------------------------------------------------------------- normalised input

  datatype Input = Line(text: string) | Argv(args: seq<string>)

  /** `normalize_command`; `login` is the detected login shell. */
  function NormalizeCommand(value: Input, shell: Option<string>, login: string): Result<seq<string>, string> {
    match value
    case Line(text) =>
      if Strip(text) == "" || '\0' in text then Err("command must be non-empty and contain no NUL")
      else Ok([if shell.Some? && shell.value != "" then shell.value else login, "-ic", SENTINEL + text])
    case Argv(args) =>
      if args == [] || exists a :: a in args && (a == "" || '\0' in a)
      then Err("command arguments must be non-empty strings and contain no NUL")
      else Ok(args)
  }

  function Stripped(paths: seq<string>): Result<seq<string>, string> {
    if paths == [] then Ok([]) else
    var first := Strip(paths[0]);
    if first == "" || '\0' in first then Err("source paths must be non-empty and contain no NUL") else
    var rest :- Stripped(paths[1..]);
    Ok([first] + rest)
  }

  /** `normalize_source_files` */
  function NormalizeSources(sources: Option<seq<string>>): Result<seq<string>, string> {
    if sources.None? then Ok([])
    else if sources.value == [] then Err("source must contain one or more non-empty paths without NUL")
    else if |sources.value| > 64 then Err("source must contain at most 64 paths")
    else Stripped(sources.value)
  }

  /** How the file system resolves a path against a directory. */
  type Resolver = (string, string) -> string

  function ResolvedAll(paths: seq<string>, directory: string, resolve: Resolver): (r: seq<string>)
    ensures |r| == |paths|
  {
    seq(|paths|, i requires 0 <= i < |paths| => resolve(directory, paths[i]))
  }

  /** `resolve_source_files` */
  function ResolveSources(sources: Option<seq<string>>, directory: string,
      resolve: Resolver): Result<seq<string>, string>
  {
    var paths :- NormalizeSources(sources);
    Ok(ResolvedAll(paths, directory, resolve))
  }

  // ---------------------------------------------------------------- the wrapper

  datatype Shell = Csh | Fish | Posix(defines: bool)

  /** The last component of a path. */
  function BaseName(path: string): string
    decreases |path|
  {
    if path == "" then ""
    else if path[|path| - 1] == '/' then BaseName(path[..|path| - 1])
    else LastPart(path)
  }

  function LastPart(path: string): string
    decreases |path|
  {
    if path == "" || path[|path| - 1] == '/' then ""
    else LastPart(path[..|path| - 1]) + [path[|path| - 1]]
  }

  function KindOf(name: string): Shell {
    if name in {"csh", "tcsh"} then Csh
    else if name == "fish" then Fish
    else Posix(name in {"sh", "dash"})
  }

  const CSH_PROMPT := "if ( ! $?prompt ) set prompt = \"localflow\""
  const CSH_CHECK := "if ( $status != 0 ) exit $status"

  const LOOK_UP := "*) command -v \"$1\" >/dev/null 2>&1 || "
  const STATUS_TEST := "if [ \"$localflow_source_status\"" + " -ne 0 ]; then "

  /** How a source file is loaded: `sh` and `dash` get a function that reports a missing file. */
  const SOURCE_FUNCTION := [
    "localflow_source() {",
    "if [ \"$#\" -eq 0 ]; then return 2; fi",
    "case \"$1\" in",
    "*/*) [ -r \"$1\" ] || return 127 ;;",
    LOOK_UP + "[ -r \"$1\" ] || return 127 ;;",
    "esac",
    ". \"$@\"",
    "}"]

  function Header(k: Shell): seq<string> {
    match k
    case Csh => [CSH_PROMPT]
    case Fish => []
    case Posix(defines) => if defines then SOURCE_FUNCTION else []
  }

  /** `source_file_command` */
  function SourceCommand(k: Shell, path: string): string {
    Join([if k == Posix(true) then "localflow_source" else "source", path])
  }

  function Checks(k: Shell): seq<string> {
    match k
    case Csh => [CSH_CHECK]
    case Fish => [
      "set localflow_source_status $status",
      "if test $localflow_source_status -ne 0",
      "exit $localflow_source_status",
      "end"]
    case Posix(_) => [
      "localflow_source_status=$?",
      STATUS_TEST + "exit \"$localflow_source_status\"; fi"]
  }

  function SourceLines(k: Shell, paths: seq<string>): seq<string> {
    if paths == [] then [] else
    SourceLines(k, paths[..|paths| - 1]) + [SourceCommand(k, paths[|paths| - 1])] + Checks(k)
  }

  function Footer(k: Shell, directory: string): seq<string> {
    ["cd " + Quote(directory)] + if k == Csh then [CSH_CHECK] else []
  }

  function Lines(k: Shell, paths: seq<string>, directory: string): seq<string> {
    Header(k) + SourceLines(k, paths) + Footer(k, directory)
  }

  function JoinLines(lines: seq<string>): string {
    if lines == [] then ""
    else if |lines| == 1 then lines[0]
    else lines[0] + "\n" + JoinLines(lines[1..])
  }

  function Prefix(directory: string): string {
    "cd " + Quote(directory) + " && "
  }

  predicate IsWrapped(command: seq<string>) {
    |command| >= 3 && command[1] == "-ic" && SENTINEL <= command[2]
  }

  function Body(k: Shell, paths: seq<string>, directory: string, user: string): string {
    if paths == [] then user
    else JoinLines(Lines(k, paths, directory)) + BOUNDARY + user
  }

  /** `freeze_command_working_directory` */
  function Freeze(command: seq<string>, directory: string, sources: Option<seq<string>>, resolve: Resolver)
    : Result<seq<string>, string>
  {
    if !IsWrapped(command) then Ok(command) else
    var paths :- ResolveSources(sources, directory, resolve);
    var body := Body(KindOf(BaseName(command[0])), paths, directory, command[2][|SENTINEL|..]);
    Ok(command[..2] + [Prefix(directory) + body] + command[3..])
  }

  /** `command_for_log` */
  function CommandForLog(command: seq<string>, directory: string): string {
    if |command| >= 3 && command[1] == "-ic" && Prefix(directory) <= command[2] then
      var visible := command[2][|Prefix(directory)|..];
      var rest := AfterFirst(visible, BOUNDARY);
      var legacy := AfterFirst(visible, " && cd " + Quote(directory) + " &&\n");
      if rest.Some? then rest.value
      else if legacy.Some? then legacy.value
      else visible
    else Join(command)
  }

  // ---------------------------------------------------------------- text that cannot start a boundary

  /** From `p` on, `s` agrees with the boundary as far as it goes. */
  ghost predicate Agrees(s: string, p: nat) {
    forall k :: 0 <= k < |BOUNDARY| && p + k < |s| ==> s[p + k] == BOUNDARY[k]
  }

  /** Whatever follows `s`, no boundary starts inside `s`. */
  ghost predicate Safe(s: string) {
    forall p :: 0 <= p < |s| ==> !Agrees(s, p)
  }

  lemma SafeAppend(a: string, b: string)
    requires Safe(a) && Safe(b)
    ensures Safe(a + b)
  {
    forall p | 0 <= p < |a + b| ensures !Agrees(a + b, p) {
      if p < |a| {
        assert !Agrees(a, p);
        var k :| 0 <= k < |BOUNDARY| && p + k < |a| && a[p + k] != BOUNDARY[k];
        assert (a + b)[p + k] == a[p + k];
      } else {
        assert !Agrees(b, p - |a|);
        var k :| 0 <= k < |BOUNDARY| && p - |a| + k < |b| && b[p - |a| + k] != BOUNDARY[k];
        assert (a + b)[p + k] == b[p - |a| + k];
      }
    }
  }

  lemma SafeOneLine(s: string)
    requires '\n' !in s
    ensures Safe(s)
  {
    forall p | 0 <= p < |s| ensures !Agrees(s, p) {
      assert s[p + 0] != BOUNDARY[0];
    }
  }

  /** A line that can follow a line break. */
  ghost predicate GoodLine(s: string) {
    s != "" && s[0] != '#' && Safe(s)
  }

  lemma BreakIsSafe(line: string)
    requires GoodLine(line)
    ensures Safe("\n" + line)
  {
    var s := "\n" + line;
    forall p | 0 <= p < |s| ensures !Agrees(s, p) {
      if p == 0 {
        assert s[0 + 1] != BOUNDARY[1];
      } else {
        assert !Agrees(line, p - 1);
        var k :| 0 <= k < |BOUNDARY| && p - 1 + k < |line| && line[p - 1 + k] != BOUNDARY[k];
        assert s[p + k] == line[p - 1 + k];
      }
    }
  }

  lemma {:induction false} GoodLinesJoin(lines: seq<string>)
    requires lines != [] && forall l :: l in lines ==> GoodLine(l)
    ensures GoodLine(JoinLines(lines))
  {
    if |lines| > 1 {
      hide Safe;
      var rest := JoinLines(lines[1..]);
      assert lines[0] in lines;
      assert forall l :: l in lines[1..] ==> l in lines;
      GoodLinesJoin(lines[1..]);
      BreakIsSafe(rest);
      SafeAppend(lines[0], "\n" + rest);
      assert lines[0] + "\n" + rest == lines[0] + ("\n" + rest);
    }
  }

  lemma AtAgrees(s: string, t: string, q: nat)
    requires At(s + t, BOUNDARY, q) && q < |s|
    ensures Agrees(s, q)
  {
    forall k | 0 <= k < |BOUNDARY| && q + k < |s| ensures s[q + k] == BOUNDARY[k] {
      assert (s + t)[q..q + |BOUNDARY|][k] == (s + t)[q + k] == s[q + k];
    }
  }

  /** Text that is free of boundaries up to the first one: `AfterFirst` finds what follows it. */
  lemma SafeThenBoundary(s: string, user: string)
    requires Safe(s)
    ensures AfterFirst(s + BOUNDARY + user, BOUNDARY) == Some(user)
  {
    var all := s + BOUNDARY + user;
    assert all[|s|..|s| + |BOUNDARY|] == BOUNDARY;
    assert all == s + (BOUNDARY + user);
    forall q: nat | q < |s| ensures !At(all, BOUNDARY, q) {
      if At(all, BOUNDARY, q) {
        AtAgrees(s, BOUNDARY + user, q);
      }
    }
    AfterFirstIs(all, BOUNDARY, |s|);
    assert all[|s| + |BOUNDARY|..] == user;
  }

  // ---------------------------------------------------------------- quoting keeps boundaries out

  /** A pattern without quotes that starts an escaped text starts the text. */
  lemma {:induction false} EscapedStart(s: string, w: string)
    requires w <= Escaped(s) && '\'' !in w
    ensures w <= s
  {
    if w != "" {
      assert w[0] == Escaped(s)[0];
      assert s[0] != '\'';
      assert Escaped(s)[1..] == Escaped(s[1..]);
      assert w[1..] <= Escaped(s)[1..];
      EscapedStart(s[1..], w[1..]);
    }
  }

  lemma {:induction false} BoundaryInEscaped(s: string, p: nat)
    requires At(Escaped(s), BOUNDARY, p)
    ensures Contains(s, BOUNDARY)
  {
    var head := if s == "" then "" else if s[0] == '\'' then "'\"'\"'" else [s[0]];
    if p == 0 {
      assert BOUNDARY <= Escaped(s);
      EscapedStart(s, BOUNDARY);
      assert At(s, BOUNDARY, 0);
    } else {
      assert Escaped(s)[p..p + |BOUNDARY|][0] == Escaped(s)[p] == '\n';
      assert p >= |head|;
      assert Escaped(s[1..])[p - |head|..p - |head| + |BOUNDARY|] == Escaped(s)[p..p + |BOUNDARY|];
      BoundaryInEscaped(s[1..], p - |head|);
      ContainsInside([s[0]], s[1..], "", BOUNDARY);
      assert [s[0]] + s[1..] + "" == s;
    }
  }

  lemma {:induction false} EscapedAppend(a: string, b: string)
    ensures Escaped(a + b) == Escaped(a) + Escaped(b)
  {
    if a == "" {
      assert a + b == b;
    } else {
      assert (a + b)[1..] == a[1..] + b;
      EscapedAppend(a[1..], b);
    }
  }

  lemma {:induction false} EscapedPlain(s: string)
    requires '\'' !in s
    ensures Escaped(s) == s
  {
    if s != "" {
      EscapedPlain(s[1..]);
    }
  }

  lemma NotPlain(s: string)
    requires '\n' in s
    ensures Quote(s) == "'" + Escaped(s) + "'"
  {
    var i :| 0 <= i < |s| && s[i] == '\n';
    assert !PlainChar(s[i]);
  }

  /** Where a text holds no boundary, none starts in the quoted text, whatever follows. */
  lemma QuoteIsSafe(s: string)
    requires !Contains(s, BOUNDARY)
    ensures GoodLine(Quote(s))
  {
    var q := Quote(s);
    if '\n' in s {
      NotPlain(s);
      forall p | 0 <= p < |q| ensures !Agrees(q, p) {
        if Agrees(q, p) {
          AgreementIsInside(s, p);
        }
      }
    } else {
      NoBreakQuoted(s);
      SafeOneLine(q);
    }
  }

  lemma {:induction false} EscapedNoBreak(s: string)
    requires '\n' !in s
    ensures '\n' !in Escaped(s)
  {
    if s != "" {
      EscapedNoBreak(s[1..]);
    }
  }

  lemma NoBreakQuoted(s: string)
    requires '\n' !in s
    ensures '\n' !in Quote(s) && Quote(s) != "" && Quote(s)[0] != '#'
  {
    EscapedNoBreak(s);
    if s != "" && forall i :: 0 <= i < |s| ==> PlainChar(s[i]) {
      assert PlainChar(s[0]);
    }
  }

  lemma AgreementEndsBeforeQuote(q: string, p: nat)
    requires p < |q| && q[|q| - 1] == '\'' && Agrees(q, p)
    ensures p + |BOUNDARY| < |q|
  {
    var k := |q| - 1 - p;
    if k < |BOUNDARY| {
      BoundaryHasNoQuote(k);
    }
  }

  lemma BoundaryHasNoQuote(k: nat)
    requires k < |BOUNDARY|
    ensures BOUNDARY[k] != '\''
  {
  }

  /** Where a quoted text agrees with the boundary, the text itself holds one: the closing quote
      cannot be part of it. */
  lemma AgreementIsInside(s: string, p: nat)
    requires '\n' in s && p < |Quote(s)| && Agrees(Quote(s), p)
    ensures Contains(s, BOUNDARY)
  {
    NotPlain(s);
    var q := Quote(s);
    assert q[p + 0] == BOUNDARY[0];
    AgreementEndsBeforeQuote(q, p);
    forall k | 0 <= k < |BOUNDARY| ensures Escaped(s)[p - 1 + k] == BOUNDARY[k] {
      assert q[p + k] == BOUNDARY[k];
    }
    assert Escaped(s)[p - 1..p - 1 + |BOUNDARY|] == BOUNDARY;
    BoundaryInEscaped(s, p - 1);
  }

  lemma BoundaryPlace(s: string) returns (p: nat)
    requires Contains(s, BOUNDARY)
    ensures At(s, BOUNDARY, p) && p + |BOUNDARY| <= |s|
  {
    p :| At(s, BOUNDARY, p);
  }

  /** Quoting does not hide a boundary. */
  lemma QuoteKeepsBoundary(s: string)
    requires Contains(s, BOUNDARY)
    ensures Contains(Quote(s), BOUNDARY)
  {
    hide At, Contains, Escaped;
    var p: nat := BoundaryPlace(s);
    HasBreak(s, p);
    NotPlain(s);
    EscapedAround(s[..p], s[p + |BOUNDARY|..]);
    SplitAt(s, BOUNDARY, p);
    var a, b := Escaped(s[..p]), Escaped(s[p + |BOUNDARY|..]);
    assert "'" + (a + BOUNDARY + b) + "'" == ("'" + a) + BOUNDARY + (b + "'");
    AtItself(BOUNDARY);
    ContainsInside("'" + a, BOUNDARY, b + "'", BOUNDARY);
  }

  lemma HasBreak(s: string, p: nat)
    requires At(s, BOUNDARY, p)
    ensures '\n' in s
  {
    assert s[p..p + |BOUNDARY|][0] == s[p];
  }

  lemma AtItself(s: string)
    ensures Contains(s, s)
  {
    assert At(s, s, 0);
  }

  lemma SplitAt(s: string, pat: string, p: nat)
    requires At(s, pat, p)
    ensures s == s[..p] + pat + s[p + |pat|..]
  {
  }

  lemma EscapedAround(a: string, b: string)
    ensures Escaped(a + BOUNDARY + b) == Escaped(a) + BOUNDARY + Escaped(b)
  {
    hide Escaped;
    EscapedAppend(a + BOUNDARY, b);
    EscapedAppend(a, BOUNDARY);
    EscapedPlain(BOUNDARY);
  }
}
