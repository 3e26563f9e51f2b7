/** Shell quoting of the one local command line the runtime still builds
    (`internal/runtime/helpers.go`, `internal/runtime/local_docker_build.go`),
    read back by the tokenising rules of the POSIX.1-2017 Shell Command Language. */
module ShellQuoting {
  import opened Text

  /** `strings.ReplaceAll(s, "'", "'\"'\"'")`. */
  function EscapeSingleQuotes(s: string): string {
    if s == "" then ""
    else (if s[0] == '\'' then "'\"'\"'" else [s[0]]) + EscapeSingleQuotes(s[1..])
  }

  function ShellQuote(s: string): string {
    "'" + EscapeSingleQuotes(s) + "'"
  }

  /** `strings.Join` of the quoted arguments with one blank. */
  function QuotedArgs(args: seq<string>): string {
    if args == [] then ""
    else if |args| == 1 then ShellQuote(args[0])
    else ShellQuote(args[0]) + " " + QuotedArgs(args[1..])
  }

  function DockerBuildCommandLine(base: string, args: seq<string>): string {
    "DOCKER_CONFIG=" + ShellQuote(base + "/docker-config") + " docker build " + QuotedArgs(args)
  }

  // ---------------------------------------------------------------- the shell's side

  /** Where the tokeniser stands: outside quotes, after an unquoted backslash, inside
      single quotes (section 2.2.2), inside double quotes (section 2.2.3), or after a
      backslash inside double quotes. */
  datatype Mode = Bare | Escaped | Single | Double | DoubleEscaped

  /** Characters that start an operator or an expansion, or end the command, when unquoted. */
  predicate UnsupportedBare(c: char) {
    c in {'|', '&', ';', '<', '>', '(', ')', '$', '`', '\n'}
  }

  /** Section 2.3 token recognition over sections 2.2.1 to 2.2.3 quoting, with quote
      removal.  `word` is the token being delimited, if one has been started; `done`
      holds the tokens before it.  Anything whose meaning is not plain words
      (operators, expansions, comments, an unterminated quote) gives `None`. */
  function Scan(s: string, mode: Mode, word: Option<string>, done: seq<string>): Option<seq<string>>
    decreases |s|
  {
    var current := if word.Some? then word.value else "";
    if s == "" then
      if !mode.Bare? then None
      else Some(if word.Some? then done + [word.value] else done)
    else
      var c, rest := s[0], s[1..];
      match mode
      case Bare =>
        if c == '\'' then Scan(rest, Single, Some(current), done)
        else if c == '"' then Scan(rest, Double, Some(current), done)
        else if c == '\\' then Scan(rest, Escaped, word, done)
        else if c == ' ' || c == '\t' then
          Scan(rest, Bare, None, if word.Some? then done + [word.value] else done)
        else if UnsupportedBare(c) || (c == '#' && word.None?) then None
        else Scan(rest, Bare, Some(current + [c]), done)
      case Escaped =>
        if c == '\n' then Scan(rest, Bare, word, done)
        else Scan(rest, Bare, Some(current + [c]), done)
      case Single =>
        if c == '\'' then Scan(rest, Bare, word, done)
        else Scan(rest, Single, Some(current + [c]), done)
      case Double =>
        if c == '"' then Scan(rest, Bare, word, done)
        else if c == '\\' then Scan(rest, DoubleEscaped, word, done)
        else if c == '$' || c == '`' then None
        else Scan(rest, Double, Some(current + [c]), done)
      case DoubleEscaped =>
        if c == '\n' then Scan(rest, Double, word, done)
        else if c in {'$', '`', '"', '\\'} then Scan(rest, Double, Some(current + [c]), done)
        else Scan(rest, Double, Some(current + ['\\', c]), done)
  }

  function Tokenise(line: string): Option<seq<string>> {
    Scan(line, Bare, None, [])
  }

  // ---------------------------------------------------------------- round trip

  /** Reading an escaped text inside single quotes appends exactly that text to the open
      word and stays inside the quotes. */
  lemma {:induction false} ScanEscaped(s: string, w: string, tail: string, done: seq<string>)
    ensures Scan(EscapeSingleQuotes(s) + tail, Single, Some(w), done) == Scan(tail, Single, Some(w + s), done)
    decreases |s|
  {
    if s == "" {
      assert EscapeSingleQuotes(s) + tail == tail;
      assert w + s == w;
    } else {
      var rest := EscapeSingleQuotes(s[1..]) + tail;
      ScanEscaped(s[1..], w + [s[0]], tail, done);
      assert w + [s[0]] + s[1..] == w + s;
      if s[0] == '\'' {
        var line := EscapeSingleQuotes(s) + tail;
        assert line == "'\"'\"'" + rest;
        ScanQuoteEscape(w, rest, done);
      } else {
        assert EscapeSingleQuotes(s) + tail == [s[0]] + rest;
        assert ([s[0]] + rest)[1..] == rest;
      }
    }
  }

  /** The five-character escape closes the quotes, adds one double-quoted quote and reopens them. */
  lemma ScanQuoteEscape(w: string, rest: string, done: seq<string>)
    ensures Scan("'\"'\"'" + rest, Single, Some(w), done) == Scan(rest, Single, Some(w + ['\'']), done)
  {
    var l0 := "'\"'\"'" + rest;
    var l1 := "\"'\"'" + rest;
    var l2 := "'\"'" + rest;
    var l3 := "\"'" + rest;
    var l4 := "'" + rest;
    assert l0[1..] == l1 && l1[1..] == l2 && l2[1..] == l3 && l3[1..] == l4 && l4[1..] == rest;
    assert Scan(l0, Single, Some(w), done) == Scan(l1, Bare, Some(w), done);
    assert Scan(l1, Bare, Some(w), done) == Scan(l2, Double, Some(w), done);
    assert Scan(l2, Double, Some(w), done) == Scan(l3, Double, Some(w + ['\'']), done);
    assert Scan(l3, Double, Some(w + ['\'']), done) == Scan(l4, Bare, Some(w + ['\'']), done);
  }

  /** One quoted argument, in the middle of a line, is read as itself glued to whatever word is open. */
  lemma ScanQuoted(arg: string, word: Option<string>, tail: string, done: seq<string>)
    ensures var w := if word.Some? then word.value else "";
            Scan(ShellQuote(arg) + tail, Bare, word, done) == Scan(tail, Bare, Some(w + arg), done)
  {
    var w := if word.Some? then word.value else "";
    var line := ShellQuote(arg) + tail;
    var inner := EscapeSingleQuotes(arg) + ("'" + tail);
    assert line == "'" + inner;
    assert line[1..] == inner;
    ScanEscaped(arg, w, "'" + tail, done);
    assert ("'" + tail)[1..] == tail;
  }

  lemma {:induction false} ScanQuotedArgs(args: seq<string>, done: seq<string>)
    ensures Scan(QuotedArgs(args), Bare, None, done) == Some(done + args)
    decreases |args|
  {
    if args == [] {
      assert done + args == done;
    } else if |args| == 1 {
      ScanQuoted(args[0], None, "", done);
      assert ShellQuote(args[0]) + "" == ShellQuote(args[0]);
      assert "" + args[0] == args[0] && args == [args[0]];
    } else {
      var tail := " " + QuotedArgs(args[1..]);
      ScanQuoted(args[0], None, tail, done);
      assert QuotedArgs(args) == ShellQuote(args[0]) + tail;
      assert tail[1..] == QuotedArgs(args[1..]);
      assert "" + args[0] == args[0];
      ScanQuotedArgs(args[1..], done + [args[0]]);
      assert done + [args[0]] + args[1..] == done + args;
    }
  }

  /** Main result: the shell reads the blank-joined quoting of any argument list
      (empty strings, quotes, newlines, anything) back as exactly that list. */
  lemma QuotingRoundTrip(args: seq<string>)
    ensures Tokenise(QuotedArgs(args)) == Some(args)
  {
    ScanQuotedArgs(args, []);
    assert [] + args == args;
  }

  /** Two argument lists with the same quoting are the same list. */
  lemma QuotingInjective(a: seq<string>, b: seq<string>)
    requires QuotedArgs(a) == QuotedArgs(b)
    ensures a == b
  {
    QuotingRoundTrip(a);
    QuotingRoundTrip(b);
  }

  /** Unquoted letters, digits and punctuation that mean nothing to the tokeniser. */
  predicate Plain(c: char) {
    c !in {'\'', '"', '\\', ' ', '\t', '#'} && !UnsupportedBare(c)
  }

  lemma {:induction false} ScanPlain(s: string, word: Option<string>, tail: string, done: seq<string>)
    requires s != "" && forall c :: c in s ==> Plain(c)
    ensures var w := if word.Some? then word.value else "";
            Scan(s + tail, Bare, word, done) == Scan(tail, Bare, Some(w + s), done)
    decreases |s|
  {
    var w := if word.Some? then word.value else "";
    assert Plain(s[0]);
    assert (s + tail)[1..] == s[1..] + tail;
    if |s| == 1 {
      assert s == [s[0]] && s[1..] + tail == tail;
    } else {
      ScanPlain(s[1..], Some(w + [s[0]]), tail, done);
      assert w + [s[0]] + s[1..] == w + s;
    }
  }

  /** One blank ends the open word. */
  lemma ScanBlank(w: string, tail: string, done: seq<string>)
    ensures Scan(" " + tail, Bare, Some(w), done) == Scan(tail, Bare, None, done + [w])
  {
    assert (" " + tail)[1..] == tail;
  }

  lemma ScanPlainWord(s: string, tail: string, done: seq<string>)
    requires s != "" && forall c :: c in s ==> Plain(c)
    ensures Scan(s + " " + tail, Bare, None, done) == Scan(tail, Bare, None, done + [s])
  {
    assert s + " " + tail == s + (" " + tail);
    ScanPlain(s, None, " " + tail, done);
    assert "" + s == s;
    ScanBlank(s, tail, done);
  }

  lemma ScanBuildArguments(args: seq<string>, w: string)
    ensures Scan(" docker build " + QuotedArgs(args), Bare, Some(w), []) == Some([w, "docker", "build"] + args)
  {
    var t2 := "build" + " " + QuotedArgs(args);
    var t1 := "docker" + " " + t2;
    assert " docker build " + QuotedArgs(args) == " " + t1;
    ScanBlank(w, t1, []);
    ScanPlainWord("docker", t2, [] + [w]);
    ScanPlainWord("build", QuotedArgs(args), [] + [w] + ["docker"]);
    ScanQuotedArgs(args, [] + [w] + ["docker"] + ["build"]);
    assert [] + [w] + ["docker"] + ["build"] == [w, "docker", "build"];
  }

  /** The whole build command is one assignment word, the two words `docker build`, and the arguments verbatim. */
  lemma DockerBuildCommandWords(base: string, args: seq<string>)
    ensures Tokenise(DockerBuildCommandLine(base, args))
         == Some(["DOCKER_CONFIG=" + base + "/docker-config", "docker", "build"] + args)
  {
    var name, config := "DOCKER_CONFIG=", base + "/docker-config";
    var tail := " docker build " + QuotedArgs(args);
    assert DockerBuildCommandLine(base, args) == name + (ShellQuote(config) + tail);
    ScanPlain(name, None, ShellQuote(config) + tail, []);
    assert "" + name == name;
    ScanQuoted(config, Some(name), tail, []);
    ScanBuildArguments(args, name + config);
    assert name + config == "DOCKER_CONFIG=" + base + "/docker-config";
  }

  lemma QuotedArgsIsJoin(args: seq<string>, quoted: seq<string>)
    requires |quoted| == |args| && forall i :: 0 <= i < |args| ==> quoted[i] == ShellQuote(args[i])
    ensures Join(quoted, " ") == QuotedArgs(args)
  {
  }

  /** `localDockerBuildCommand`: quote each argument in a loop, then join. */
  method LocalDockerBuildCommand(base: string, args: seq<string>) returns (command: string)
    ensures Tokenise(command) == Some(["DOCKER_CONFIG=" + base + "/docker-config", "docker", "build"] + args)
  {
    var quoted: seq<string> := [];
    for i := 0 to |args|
      invariant |quoted| == i && forall j :: 0 <= j < i ==> quoted[j] == ShellQuote(args[j])
    {
      quoted := quoted + [ShellQuote(args[i])];
    }
    QuotedArgsIsJoin(args, quoted);
    command := "DOCKER_CONFIG=" + ShellQuote(base + "/docker-config") + " docker build " + Join(quoted, " ");
    DockerBuildCommandWords(base, args);
  }
}
