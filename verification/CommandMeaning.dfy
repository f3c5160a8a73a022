/** What models.py accepts as a command, and what the shell makes of the one it freezes. */
module CommandMeaning {
  import opened Characters
  import opened Commands
  import opened Decimals
  import opened Wrappers

  // ---------------------------------------------------------------- quoted words

  /** The value of a shell word, as in section 2.2 of the POSIX Shell Command Language: within single quotes
      every character stands for itself, and so does, within double quotes, every one but four special ones.
      A text that is anything else than one such word has no value. */
  function WordValue(s: string): Option<string>
    decreases |s|, 0
  {
    if s == "" then Some("")
    else if s[0] == '\'' then SingleQuoted(s[1..])
    else if s[0] == '"' then DoubleQuoted(s[1..])
    else if PlainChar(s[0]) then Prepended(s[0], WordValue(s[1..]))
    else None
  }

  /** The value of a word from inside single quotes on. */
  function SingleQuoted(s: string): Option<string>
    decreases |s|, 1
  {
    if s == "" then None
    else if s[0] == '\'' then WordValue(s[1..])
    else Prepended(s[0], SingleQuoted(s[1..]))
  }

  /** The value of a word from inside double quotes on. */
  function DoubleQuoted(s: string): Option<string>
    decreases |s|, 1
  {
    if s == "" || s[0] in "$`\\" then None
    else if s[0] == '"' then WordValue(s[1..])
    else Prepended(s[0], DoubleQuoted(s[1..]))
  }

  function Prepended(c: char, rest: Option<string>): Option<string> {
    if rest.Some? then Some([c] + rest.value) else None
  }

  lemma {:induction false} PlainValue(s: string)
    requires forall i :: 0 <= i < |s| ==> PlainChar(s[i])
    ensures WordValue(s) == Some(s)
  {
    if s != "" {
      PlainValue(s[1..]);
      assert !PlainChar('\'') && !PlainChar('"');
      assert [s[0]] + s[1..] == s;
    }
  }

  lemma {:induction false} EscapedValue(s: string)
    ensures SingleQuoted(Escaped(s) + "'") == Some(s)
  {
    if s == "" {
      assert Escaped(s) + "'" == "'";
      assert "'"[1..] == "";
    } else {
      EscapedValue(s[1..]);
      var rest := Escaped(s[1..]) + "'";
      assert [s[0]] + s[1..] == s;
      if s[0] == '\'' {
        assert Escaped(s) + "'" == "'\"'\"'" + rest;
        EscapedQuote(rest);
      } else {
        assert (Escaped(s) + "'")[0] == s[0] && (Escaped(s) + "'")[1..] == rest;
      }
    }
  }

  lemma EscapedQuote(rest: string)
    ensures SingleQuoted("'\"'\"'" + rest) == Prepended('\'', SingleQuoted(rest))
  {
    var a := "'\"'\"'" + rest;
    var b, c, d, e := a[1..], a[2..], a[3..], a[4..];
    assert a[0] == '\'' && b[0] == '"' && c[0] == '\'' && d[0] == '"' && e[0] == '\'';
    assert b[1..] == c && c[1..] == d && d[1..] == e && e[1..] == rest;
    assert !PlainChar('\'') && !PlainChar('"');
    assert WordValue(e) == SingleQuoted(rest);
    assert DoubleQuoted(d) == WordValue(e);
    assert DoubleQuoted(c) == Prepended('\'', DoubleQuoted(d));
  }

  /** The shell reads a quoted text as one word with that text as its value. */
  lemma QuoteIsRead(s: string)
    ensures Quote(s) != "" && WordValue(Quote(s)) == Some(s)
  {
    hide WordValue, SingleQuoted, PlainChar, Escaped;
    EscapedValue(s);
    OpensQuote(Escaped(s) + "'");
    if s == "" {
      NothingEscaped();
    } else if forall i :: 0 <= i < |s| ==> PlainChar(s[i]) {
      PlainValue(s);
    } else {
      assert "'" + Escaped(s) + "'" == "'" + (Escaped(s) + "'");
    }
  }

  lemma OpensQuote(rest: string)
    ensures WordValue("'" + rest) == SingleQuoted(rest)
  {
    assert ("'" + rest)[1..] == rest;
  }

  lemma NothingEscaped()
    ensures "'" + (Escaped("") + "'") == "''"
  {
  }

  // ---------------------------------------------------------------- what is accepted

  predicate HasText(s: string) {
    exists i :: 0 <= i < |s| && !IsSpace(s[i])
  }

  /** `strip()` takes the blanks off both ends, and nothing else. */
  lemma {:induction false} StripMeans(s: string) returns (a: string, b: string)
    ensures s == a + Strip(s) + b
    ensures (forall i :: 0 <= i < |a| ==> IsSpace(a[i])) && (forall i :: 0 <= i < |b| ==> IsSpace(b[i]))
    ensures Strip(s) != "" ==> !IsSpace(Strip(s)[0]) && !IsSpace(Strip(s)[|Strip(s)| - 1])
    decreases |s|
  {
    hide IsSpace;
    a, b := "", "";
    if s == "" {
    } else if IsSpace(s[0]) {
      a, b := StripMeans(s[1..]);
      a := [s[0]] + a;
    } else if IsSpace(s[|s| - 1]) {
      a, b := StripMeans(s[..|s| - 1]);
      b := b + [s[|s| - 1]];
      assert s == s[..|s| - 1] + [s[|s| - 1]];
    }
  }

  lemma StripEmpty(s: string)
    ensures Strip(s) == "" <==> !HasText(s)
  {
    hide IsSpace, Strip;
    var a, b := StripMeans(s);
    if Strip(s) != "" {
      assert s[|a|] == Strip(s)[0];
    }
    if Strip(s) == "" {
      forall i | 0 <= i < |s| ensures IsSpace(s[i]) {
        assert s[i] == if i < |a| then a[i] else b[i - |a|];
      }
    }
  }

  /** A command line is accepted exactly if it has text and no NUL, and goes to the given shell or else to the
      login shell; a list exactly if it and its arguments are not empty and hold no NUL, and stays as it is. */
  lemma NormalizeMeans(value: Input, shell: Option<string>, login: string)
    ensures var r := NormalizeCommand(value, shell, login);
            match value
            case Line(text) =>
              && (r.Ok? <==> HasText(text) && '\0' !in text)
              && (r.Ok? ==> |r.value| == 3 && r.value[1] == "-ic" && r.value[2] == SENTINEL + text
                            && r.value[0] == if shell.Some? && |shell.value| > 0 then shell.value else login)
            case Argv(args) =>
              && (r.Ok? <==> args != [] && forall i :: 0 <= i < |args| ==> args[i] != "" && '\0' !in args[i])
              && (r.Ok? ==> r.value == args)
  {
    hide Strip;
    match value
    case Line(text) => StripEmpty(text);
    case Argv(args) =>
      assert forall i :: 0 <= i < |args| ==> args[i] in args;
      if forall i :: 0 <= i < |args| ==> args[i] != "" && '\0' !in args[i] {
        forall a | a in args ensures a != "" && '\0' !in a {
          var i :| 0 <= i < |args| && args[i] == a;
        }
      }
  }

  lemma {:induction false} StrippedMeans(paths: seq<string>)
    ensures Stripped(paths).Ok? <==> forall i :: 0 <= i < |paths| ==> HasText(paths[i]) && '\0' !in Strip(paths[i])
    ensures Stripped(paths).Ok? ==>
              var r := Stripped(paths).value;
              |r| == |paths| && forall i :: 0 <= i < |paths| ==> r[i] == Strip(paths[i])
  {
    hide Strip, HasText;
    if paths != [] {
      StrippedMeans(paths[1..]);
      StripEmpty(paths[0]);
      assert forall i :: 0 < i < |paths| ==> paths[i] == paths[1..][i - 1];
    }
  }

  /** Source files are accepted exactly if there are 1 to 64 of them, each with text and without NUL; they
      lose the blanks around them and keep their order. */
  lemma SourcesMean(sources: seq<string>)
    ensures NormalizeSources(None) == Ok([])
    ensures var r := NormalizeSources(Some(sources));
            && (r.Ok? <==> 1 <= |sources| <= 64
                           && forall i :: 0 <= i < |sources| ==> HasText(sources[i]) && '\0' !in Strip(sources[i]))
            && (r.Ok? ==> |r.value| == |sources| && forall i :: 0 <= i < |sources| ==> r.value[i] == Strip(sources[i]))
  {
    hide Strip, HasText, Stripped;
    StrippedMeans(sources);
  }

  /** Every accepted source is resolved against the directory. */
  lemma ResolvedMeans(sources: Option<seq<string>>, directory: string, resolve: Resolver)
    ensures var r := ResolveSources(sources, directory, resolve);
            && (r.Ok? <==> NormalizeSources(sources).Ok?)
            && (r.Ok? ==> var paths := NormalizeSources(sources).value;
                  |r.value| == |paths| && forall i :: 0 <= i < |paths| ==> r.value[i] == resolve(directory, paths[i]))
  {
  }

  // ---------------------------------------------------------------- the frozen command

  /** The kind of a shell is that of the last part of its path. */
  lemma {:induction false} BaseNameIs(before: string, name: string)
    requires name != "" && '/' !in name && (before == "" || before[|before| - 1] == '/')
    ensures BaseName(before + name) == name
  {
    LastPartIs(before, name);
    var s := before + name;
    assert s[|s| - 1] == name[|name| - 1] && name[|name| - 1] in name;
  }

  lemma {:induction false} LastPartIs(before: string, name: string)
    requires '/' !in name && (before == "" || before[|before| - 1] == '/')
    ensures LastPart(before + name) == name
    decreases |name|
  {
    var s := before + name;
    if name == "" {
      assert s == before;
    } else {
      var init := name[..|name| - 1];
      assert s[..|s| - 1] == before + init && s[|s| - 1] == name[|name| - 1] && name[|name| - 1] in name;
      LastPartIs(before, init);
      assert init + [name[|name| - 1]] == name;
    }
  }

  /** Slashes behind the path do not change its last part. */
  lemma {:induction false} TrailingSlashes(path: string, n: nat)
    ensures BaseName(path + Slashes(n)) == BaseName(path)
  {
    hide BaseName;
    if n == 0 {
      assert path + "" == path;
    } else {
      TrailingSlash(path + Slashes(n - 1));
      TrailingSlashes(path, n - 1);
      assert path + Slashes(n) == path + Slashes(n - 1) + "/";
    }
  }

  lemma TrailingSlash(path: string)
    ensures BaseName(path + "/") == BaseName(path)
  {
    assert (path + "/")[..|path|] == path;
  }

  function Slashes(n: nat): string {
    if n == 0 then "" else Slashes(n - 1) + "/"
  }

  /** `sh` and `dash`, and no other shell, are given the function that loads their sources; `csh` and `tcsh`
      begin with a prompt, and other shells with nothing. */
  lemma HeaderMeans(name: string)
    ensures name == "sh" || name == "dash" <==> DefinesLoader(Header(KindOf(name)))
    ensures name == "csh" || name == "tcsh" ==> Header(KindOf(name)) == ["if ( ! $?prompt ) set prompt = \"localflow\""]
    ensures name !in {"csh", "tcsh", "sh", "dash"} ==> Header(KindOf(name)) == []
  {
    assert SOURCE_FUNCTION[6] == ". \"$@\"";
  }

  predicate DefinesLoader(lines: seq<string>) {
    && |lines| >= 2 && lines[0] == "localflow_source() {" && lines[|lines| - 1] == "}"
    && exists i :: 0 < i < |lines| - 1 && lines[i] == ". \"$@\""
  }

  lemma KindMeans(name: string)
    ensures KindOf(name) == Csh <==> name == "csh" || name == "tcsh"
    ensures KindOf(name) == Fish <==> name == "fish"
    ensures KindOf(name) == Posix(true) <==> name == "sh" || name == "dash"
  {
  }

  /** A wrapped command is frozen to one that changes to the directory first; with sources it then defines
      what it needs, loads them in order, changes to the directory again, and marks where the user's command
      begins.  Everything else about the command, and every other command, stays as it is. */
  lemma FreezeMeans(command: seq<string>, directory: string, sources: Option<seq<string>>, resolve: Resolver)
    ensures !IsWrapped(command) ==> Freeze(command, directory, sources, resolve) == Ok(command)
    ensures IsWrapped(command) ==>
              var r := Freeze(command, directory, sources, resolve);
              var paths := ResolveSources(sources, directory, resolve);
              && (r.Ok? <==> paths.Ok?)
              && (r.Ok? ==>
                    && |r.value| == |command| && (forall i :: 0 <= i < |command| && i != 2 ==> r.value[i] == command[i])
                    && var k := KindOf(BaseName(command[0]));
                       var user := command[2][|SENTINEL|..];
                       var change := ["cd " + Quote(directory)];
                       var check := if k == Csh then Checks(k) else [];
                       var lines := Header(k) + SourceLines(k, paths.value) + change + check;
                       r.value[2] == "cd " + Quote(directory) + " && "
                         + if paths.value == [] then user else JoinLines(lines) + BOUNDARY + user)
  {
    hide ResolveSources, Quote, SourceLines, JoinLines, BaseName, KindOf;
    if IsWrapped(command) && ResolveSources(sources, directory, resolve).Ok? {
      var paths := ResolveSources(sources, directory, resolve).value;
      var k := KindOf(BaseName(command[0]));
      var change := ["cd " + Quote(directory)];
      var tail := if k == Csh then Checks(k) else [];
      assert Lines(k, paths, directory) == Header(k) + SourceLines(k, paths) + (change + tail);
      assert Header(k) + SourceLines(k, paths) + (change + tail) == Header(k) + SourceLines(k, paths) + change + tail;
    }
  }

  /** Joined lines are the lines with one line break after each but the last. */
  lemma {:induction false} JoinMeans(lines: seq<string>, last: string)
    ensures JoinLines(lines + [last]) == Broken(lines) + last
  {
    if lines == [] {
      assert lines + [last] == [last];
    } else {
      JoinMeans(lines[1..], last);
      assert (lines + [last])[1..] == lines[1..] + [last];
      assert lines[0] + "\n" + (Broken(lines[1..]) + last) == lines[0] + "\n" + Broken(lines[1..]) + last;
    }
  }

  function Broken(lines: seq<string>): string {
    if lines == [] then "" else lines[0] + "\n" + Broken(lines[1..])
  }
}
