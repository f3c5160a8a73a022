/** models.py: when the wrapped command can be shown as the user wrote it, and the loops that build it. */
module CommandRoundTrip {
  import opened Commands
  import opened Decimals
  import opened Wrappers

  // ---------------------------------------------------------------- the lines of the sources

  /** The sources are loaded in their order, each followed by the check of its status: behind the lines of the
      first `i` sources come those of the next, and behind the last source nothing. */
  lemma {:induction false} SourcesInOrder(k: Shell, paths: seq<string>, i: nat)
    requires i < |paths|
    ensures var lines := SourceLines(k, paths[..i]) + ([SourceCommand(k, paths[i])] + Checks(k));
            lines <= SourceLines(k, paths) && (i + 1 == |paths| ==> lines == SourceLines(k, paths))
    ensures SourceLines(k, []) == []
    decreases |paths|
  {
    hide Checks, SourceCommand;
    var init := paths[..|paths| - 1];
    if i < |init| {
      SourcesInOrder(k, init, i);
      assert init[..i] == paths[..i];
    }
  }

  /** Each source is loaded by a command that names it quoted, and a failure ends the shell with its status. */
  lemma SourceIsChecked(k: Shell, path: string)
    ensures SourceCommand(k, path) == (if k == Posix(true) then "localflow_source" else "source") + " " + Quote(path)
    ensures match k
            case Csh => Checks(k) == ["if ( $status != 0 ) exit $status"]
            case Fish =>
              Checks(k) == ["set localflow_source_status $status", "if test $localflow_source_status -ne 0",
                            "exit $localflow_source_status", "end"]
            case Posix(_) =>
              && |Checks(k)| == 2 && Checks(k)[0] == "localflow_source_status=$?"
              && Checks(k)[1] == STATUS_TEST + "exit \"$localflow_source_status\"; fi"
  {
    hide Quote;
    var word := if k == Posix(true) then "localflow_source" else "source";
    KeywordIsPlain(k);
    assert Join([word, path]) == Quote(word) + " " + Join([path]);
  }

  // ---------------------------------------------------------------- the lines before the boundary

  predicate OneLine(s: string) {
    s != "" && s[0] != '#' && '\n' !in s
  }

  lemma OneLineIsGood(s: string)
    requires OneLine(s)
    ensures GoodLine(s)
  {
    SafeOneLine(s);
  }

  lemma OneLineAppend(a: string, b: string)
    requires OneLine(a) && '\n' !in b
    ensures OneLine(a + b)
  {
  }

  lemma LookUpIsGood()
    ensures OneLine(LOOK_UP + "[ -r \"$1\" ] || return 127 ;;")
  {
    OneLineAppend(LOOK_UP, "[ -r \"$1\" ] || return 127 ;;");
  }

  lemma StatusTestIsGood()
    ensures OneLine(STATUS_TEST + "exit \"$localflow_source_status\"; fi")
  {
    OneLineAppend("if [ \"$localflow_source_status\"", " -ne 0 ]; then ");
    OneLineAppend(STATUS_TEST, "exit \"$localflow_source_status\"; fi");
  }

  lemma SourceFunctionIsGood(i: nat)
    requires i < |SOURCE_FUNCTION|
    ensures OneLine(SOURCE_FUNCTION[i])
  {
    LookUpIsGood();
    match i
    case 0 => assert OneLine("localflow_source() {");
    case 1 => assert OneLine("if [ \"$#\" -eq 0 ]; then return 2; fi");
    case 2 => assert OneLine("case \"$1\" in");
    case 3 => assert OneLine("*/*) [ -r \"$1\" ] || return 127 ;;");
    case _ =>
  }

  lemma HeaderIsGood(k: Shell, l: string)
    requires l in Header(k)
    ensures GoodLine(l)
  {
    hide GoodLine, OneLine;
    match k
    case Csh => CshLinesAreGood();
    case Fish =>
    case Posix(_) =>
      var i :| 0 <= i < |SOURCE_FUNCTION| && SOURCE_FUNCTION[i] == l;
      SourceFunctionIsGood(i);
      OneLineIsGood(l);
  }

  lemma CshLinesAreGood()
    ensures GoodLine(CSH_PROMPT) && GoodLine(CSH_CHECK)
  {
    OneLineIsGood(CSH_PROMPT);
    OneLineIsGood(CSH_CHECK);
  }

  lemma FishLinesAreGood(i: nat)
    requires i < |Checks(Fish)|
    ensures OneLine(Checks(Fish)[i])
  {
    match i
    case 0 => assert OneLine("set localflow_source_status $status");
    case 1 => assert OneLine("if test $localflow_source_status -ne 0");
    case 2 => assert OneLine("exit $localflow_source_status");
    case _ => assert OneLine("end");
  }

  lemma PosixLinesAreGood(defines: bool, i: nat)
    requires i < |Checks(Posix(defines))|
    ensures OneLine(Checks(Posix(defines))[i])
  {
    StatusTestIsGood();
    assert OneLine("localflow_source_status=$?");
  }

  lemma ChecksAreGood(k: Shell, l: string)
    requires l in Checks(k)
    ensures GoodLine(l)
  {
    hide GoodLine, OneLine;
    match k
    case Csh => CshLinesAreGood();
    case Fish =>
      var i :| 0 <= i < |Checks(Fish)| && Checks(Fish)[i] == l;
      FishLinesAreGood(i);
      OneLineIsGood(l);
    case Posix(defines) =>
      var i :| 0 <= i < |Checks(k)| && Checks(k)[i] == l;
      PosixLinesAreGood(defines, i);
      OneLineIsGood(l);
  }

  /** A word, a blank and a quoted text make a good line if the text holds no boundary. */
  lemma WordAndQuoteAreGood(word: string, s: string)
    requires OneLine(word) && !Contains(s, BOUNDARY)
    ensures GoodLine(word + " " + Quote(s))
  {
    hide Safe, Contains;
    OneLineIsGood(word);
    SafeOneLine(" ");
    SafeAppend(word, " ");
    QuoteIsSafe(s);
    SafeAppend(word + " ", Quote(s));
  }

  lemma KeywordIsPlain(k: Shell)
    ensures var keyword := if k == Posix(true) then "localflow_source" else "source";
            Quote(keyword) == keyword && OneLine(keyword)
  {
  }

  lemma SourceCommandIs(k: Shell, path: string)
    ensures exists word :: OneLine(word) && SourceCommand(k, path) == word + " " + Quote(path)
  {
    var word := if k == Posix(true) then "localflow_source" else "source";
    KeywordIsPlain(k);
    assert Join([word, path]) == Quote(word) + " " + Join([path]);
    assert OneLine(word) && SourceCommand(k, path) == word + " " + Quote(path);
  }

  lemma {:induction false} SourceLinesAreGood(k: Shell, paths: seq<string>, l: string)
    requires l in SourceLines(k, paths) && forall p :: p in paths ==> !Contains(p, BOUNDARY)
    ensures GoodLine(l)
  {
    hide GoodLine, Contains, Checks, SourceCommand;
    var front, path := paths[..|paths| - 1], paths[|paths| - 1];
    if l in SourceLines(k, front) {
      SourceLinesAreGood(k, front, l);
    } else if l in Checks(k) {
      ChecksAreGood(k, l);
    } else {
      SourceCommandIs(k, path);
      var word :| OneLine(word) && SourceCommand(k, path) == word + " " + Quote(path);
      WordAndQuoteAreGood(word, path);
    }
  }

  /** No path that is quoted into the wrapper holds the boundary. */
  ghost predicate Bounded(paths: seq<string>, directory: string) {
    !Contains(directory, BOUNDARY) && forall p :: p in paths ==> !Contains(p, BOUNDARY)
  }

  lemma LinesAreGood(k: Shell, paths: seq<string>, directory: string)
    requires Bounded(paths, directory)
    ensures forall l :: l in Lines(k, paths, directory) ==> GoodLine(l)
  {
    hide GoodLine, Contains, Header, SourceLines;
    forall l | l in Lines(k, paths, directory) ensures GoodLine(l) {
      if l in Header(k) {
        HeaderIsGood(k, l);
      } else if l in SourceLines(k, paths) {
        SourceLinesAreGood(k, paths, l);
      } else if l == CSH_CHECK {
        ChecksAreGood(Csh, l);
      } else {
        WordAndQuoteAreGood("cd", directory);
        assert "cd" + " " + Quote(directory) == "cd " + Quote(directory);
      }
    }
  }

  lemma {:induction false} JoinLinesContains(lines: seq<string>, l: string)
    requires l in lines && Contains(l, BOUNDARY)
    ensures Contains(JoinLines(lines), BOUNDARY)
  {
    hide Contains;
    if |lines| == 1 {
    } else if l == lines[0] {
      ContainsInside("", l, "\n" + JoinLines(lines[1..]), BOUNDARY);
      assert "" + l + ("\n" + JoinLines(lines[1..])) == JoinLines(lines);
    } else {
      assert lines == [lines[0]] + lines[1..];
      JoinLinesContains(lines[1..], l);
      ContainsInside(lines[0] + "\n", JoinLines(lines[1..]), "", BOUNDARY);
      assert lines[0] + "\n" + JoinLines(lines[1..]) + "" == JoinLines(lines);
    }
  }

  lemma {:induction false} SourceLinesHold(k: Shell, paths: seq<string>, path: string)
    requires path in paths
    ensures SourceCommand(k, path) in SourceLines(k, paths)
  {
    hide SourceCommand, Checks;
    if path != paths[|paths| - 1] {
      assert paths == paths[..|paths| - 1] + [paths[|paths| - 1]];
      SourceLinesHold(k, paths[..|paths| - 1], path);
    }
  }

  lemma PrefixedContains(word: string, s: string)
    requires Contains(s, BOUNDARY)
    ensures Contains(word + Quote(s), BOUNDARY)
  {
    hide Contains, Quote;
    QuoteKeepsBoundary(s);
    ContainsInside(word, Quote(s), "", BOUNDARY);
    assert word + Quote(s) + "" == word + Quote(s);
  }

  /** A path with the boundary in it puts a boundary into the lines. */
  lemma UnboundedLines(k: Shell, paths: seq<string>, directory: string)
    requires !Bounded(paths, directory)
    ensures Contains(JoinLines(Lines(k, paths, directory)), BOUNDARY)
  {
    hide Contains, SourceLines, Header, SourceCommand, Quote;
    var lines := Lines(k, paths, directory);
    if Contains(directory, BOUNDARY) {
      PrefixedContains("cd ", directory);
      assert Footer(k, directory)[0] == "cd " + Quote(directory);
      assert "cd " + Quote(directory) in lines;
      JoinLinesContains(lines, "cd " + Quote(directory));
    } else {
      var path :| path in paths && Contains(path, BOUNDARY);
      SourceLinesHold(k, paths, path);
      SourceCommandIs(k, path);
      var word :| OneLine(word) && SourceCommand(k, path) == word + " " + Quote(path);
      PrefixedContains(word + " ", path);
      JoinLinesContains(lines, SourceCommand(k, path));
    }
  }

  /** With sources, the text behind the first boundary is the user's command exactly when no path
      holds the boundary; the user's own text may hold it. */
  lemma SourcedBody(k: Shell, paths: seq<string>, directory: string, user: string)
    requires paths != []
    ensures AfterFirst(Body(k, paths, directory, user), BOUNDARY).Some?
    ensures AfterFirst(Body(k, paths, directory, user), BOUNDARY) == Some(user) <==> Bounded(paths, directory)
  {
    hide Contains, Lines, GoodLine, Bounded, JoinLines;
    var s := JoinLines(Lines(k, paths, directory));
    if Bounded(paths, directory) {
      LinesAreGood(k, paths, directory);
      LinesExist(k, paths, directory);
      GoodLinesJoin(Lines(k, paths, directory));
      GoodIsSafe(s);
      SafeThenBoundary(s, user);
    } else {
      UnboundedLines(k, paths, directory);
      EarlyBoundary(s, user);
    }
  }

  lemma LinesExist(k: Shell, paths: seq<string>, directory: string)
    ensures Lines(k, paths, directory) != []
  {
  }

  lemma GoodIsSafe(s: string)
    requires GoodLine(s)
    ensures Safe(s)
  {
  }

  lemma EarlyBoundary(s: string, user: string)
    requires Contains(s, BOUNDARY)
    ensures var rest := AfterFirst(s + BOUNDARY + user, BOUNDARY);
            rest.Some? && |rest.value| > |user|
  {
    hide At;
    var p := BoundaryPlace(s);
    AtAppend(s, BOUNDARY + user, p);
    assert s + BOUNDARY + user == s + (BOUNDARY + user);
    AfterFirstEarly(s + BOUNDARY + user, BOUNDARY, p);
  }

  lemma AtAppend(s: string, t: string, p: nat)
    requires At(s, BOUNDARY, p)
    ensures At(s + t, BOUNDARY, p)
  {
    assert (s + t)[p..p + |BOUNDARY|] == s[p..p + |BOUNDARY|];
  }

  // ---------------------------------------------------------------- the round trip

  function Legacy(directory: string): string {
    " && cd " + Quote(directory) + " &&\n"
  }

  /** What the text of a frozen command shows. */
  function Shown(directory: string, body: string): string {
    var rest := AfterFirst(body, BOUNDARY);
    var legacy := AfterFirst(body, Legacy(directory));
    if rest.Some? then rest.value else if legacy.Some? then legacy.value else body
  }

  lemma FrozenIs(text: string, shell: Option<string>, login: string, directory: string,
      sources: Option<seq<string>>, resolve: Resolver)
    requires NormalizeCommand(Line(text), shell, login).Ok?
    requires ResolveSources(sources, directory, resolve).Ok?
    ensures var c := NormalizeCommand(Line(text), shell, login).value;
            var f := Freeze(c, directory, sources, resolve);
            var body := Body(KindOf(BaseName(c[0])), ResolveSources(sources, directory, resolve).value,
                            directory, text);
            && f == Ok([c[0], "-ic", Prefix(directory) + body])
            && CommandForLog(f.value, directory) == Shown(directory, body)
  {
    hide ResolveSources, Body, AfterFirst, KindOf, Strip, Quote;
    var c := NormalizeCommand(Line(text), shell, login).value;
    assert SENTINEL <= c[2] && c[2][|SENTINEL|..] == text;
    var body := Body(KindOf(BaseName(c[0])), ResolveSources(sources, directory, resolve).value, directory, text);
    assert c[..2] + [Prefix(directory) + body] + c[3..] == [c[0], "-ic", Prefix(directory) + body];
    assert (Prefix(directory) + body)[|Prefix(directory)|..] == body;
  }

  /** What a user's command line looks like after it has been frozen and shown again: exactly what
      the user wrote if, with source files, no path holds the boundary text, and, without, if the
      line itself holds neither boundary text; and not otherwise. */
  lemma RoundTrip(text: string, shell: Option<string>, login: string, directory: string,
      sources: Option<seq<string>>, resolve: Resolver)
    requires NormalizeCommand(Line(text), shell, login).Ok?
    requires ResolveSources(sources, directory, resolve).Ok?
    ensures var c := NormalizeCommand(Line(text), shell, login).value;
            var paths := ResolveSources(sources, directory, resolve).value;
            var f := Freeze(c, directory, sources, resolve);
            f.Ok? && (CommandForLog(f.value, directory) == text <==>
              if paths == [] then !Contains(text, BOUNDARY) && !Contains(text, Legacy(directory))
              else Bounded(paths, directory))
  {
    hide Body, ResolveSources, Freeze, CommandForLog, Bounded, Shown, Contains, KindOf, BaseName, Strip;
    FrozenIs(text, shell, login, directory, sources, resolve);
    var paths := ResolveSources(sources, directory, resolve).value;
    var k := KindOf(BaseName(NormalizeCommand(Line(text), shell, login).value[0]));
    ShownIs(k, paths, directory, text);
  }

  lemma ShownIs(k: Shell, paths: seq<string>, directory: string, user: string)
    ensures Shown(directory, Body(k, paths, directory, user)) == user <==>
      if paths == [] then !Contains(user, BOUNDARY) && !Contains(user, Legacy(directory)) else Bounded(paths, directory)
  {
    hide Contains, AfterFirst, Bounded, Lines, JoinLines;
    if paths == [] {
      AfterFirstNone(user, BOUNDARY);
      AfterFirstNone(user, Legacy(directory));
    } else {
      SourcedBody(k, paths, directory, user);
    }
  }

  /** Paths without line breaks hold no boundary, so a sourced command always comes back. */
  lemma OneLinePathsComeBack(paths: seq<string>, directory: string)
    requires '\n' !in directory && forall p :: p in paths ==> '\n' !in p
    ensures Bounded(paths, directory)
  {
    hide At;
    forall s | s == directory || s in paths ensures !Contains(s, BOUNDARY) {
      if Contains(s, BOUNDARY) {
        var p := BoundaryPlace(s);
        HasBreak(s, p);
      }
    }
  }

  /** Freezing a frozen command, for whatever directory and sources, changes nothing. */
  lemma FreezeOnce(command: seq<string>, directory: string, sources: Option<seq<string>>, resolve: Resolver,
                   directory2: string, sources2: Option<seq<string>>)
    requires Freeze(command, directory, sources, resolve).Ok?
    ensures var f := Freeze(command, directory, sources, resolve).value;
            Freeze(f, directory2, sources2, resolve) == Ok(f)
  {
    hide ResolveSources, Body, Quote;
    var f := Freeze(command, directory, sources, resolve).value;
    if IsWrapped(command) {
      assert f[2][0] == 'c' && SENTINEL[0] == '_';
    }
  }

  // ---------------------------------------------------------------- the loops

  method ResolveSourceFiles(sources: Option<seq<string>>, directory: string, resolve: Resolver)
    returns (r: Result<seq<string>, string>)
    ensures r == ResolveSources(sources, directory, resolve)
  {
    var paths := NormalizeSources(sources);
    if paths.Err? {
      return Err(paths.error);
    }
    var resolved: seq<string> := [];
    for i := 0 to |paths.value|
      invariant |resolved| == i && forall j :: 0 <= j < i ==> resolved[j] == resolve(directory, paths.value[j])
    {
      resolved := resolved + [resolve(directory, paths.value[i])];
    }
    assert resolved == ResolvedAll(paths.value, directory, resolve);
    return Ok(resolved);
  }

  method AllSourceLines(k: Shell, paths: seq<string>) returns (lines: seq<string>)
    ensures lines == Header(k) + SourceLines(k, paths)
  {
    hide SourceCommand, Checks;
    lines := Header(k);
    assert paths[..0] == [];
    for i := 0 to |paths|
      invariant lines == Header(k) + SourceLines(k, paths[..i])
    {
      assert paths[..i + 1][..i] == paths[..i];
      lines := lines + [SourceCommand(k, paths[i])];
      lines := lines + Checks(k);
    }
    assert paths[..|paths|] == paths;
  }

  method FreezeWorkingDirectory(command: seq<string>, directory: string, sources: Option<seq<string>>,
      resolve: Resolver)
    returns (r: Result<seq<string>, string>)
    ensures r == Freeze(command, directory, sources, resolve)
  {
    hide ResolveSources, JoinLines, Header, SourceLines, Quote, KindOf;
    if |command| >= 3 && command[1] == "-ic" && SENTINEL <= command[2] {
      var user := command[2][|SENTINEL|..];
      var paths := ResolveSourceFiles(sources, directory, resolve);
      if paths.Err? {
        return Err(paths.error);
      }
      var body := user;
      if paths.value != [] {
        var k := KindOf(BaseName(command[0]));
        var lines := AllSourceLines(k, paths.value);
        lines := lines + ["cd " + Quote(directory)] + (if k == Csh then [CSH_CHECK] else []);
        assert lines == Lines(k, paths.value, directory);
        body := JoinLines(lines) + BOUNDARY + user;
      }
      return Ok(command[..2] + ["cd " + Quote(directory) + " && " + body] + command[3..]);
    }
    return Ok(command);
  }
}
