/** Generated shell text: quoting, the launcher script and the command that runs it. */
module Launcher {
  import opened Basics
  import opened ShellWords

  // --- quoting ---

  /** Every single quote closes the quoted part, adds a quoted quote, and opens it again. */
  function Escape(s: string): (r: string)
    decreases |s|
  {
    if s == "" then "" else (if s[0] == '\'' then "'\"'\"'" else [s[0]]) + Escape(s[1..])
  }

  function Quote(s: string): (r: string) {
    "'" + Escape(s) + "'"
  }

  lemma ReadEscapedQuote(r: Reader, env: Parameters, w: string)
    requires r.mode == SingleQuoted && r.inside.None? && r.word == Some(w)
    ensures ReadAll(r, env, "'\"'\"'") == r.(word := Some(w + "'"))
  {
    var q := "'\"'\"'";
    assert q == ['\''] + ['"'] + ['\''] + ['"'] + ['\''];
    ReadAllConcat(r, env, ['\''] + ['"'] + ['\''] + ['"'], ['\'']);
    ReadAllConcat(r, env, ['\''] + ['"'] + ['\''], ['"']);
    ReadAllConcat(r, env, ['\''] + ['"'], ['\'']);
    ReadAllConcat(r, env, ['\''], ['"']);
    ReadOne(r, env, '\'');
    var r1 := r.(mode := Plain);
    assert w + "" == w;
    var r2 := r.(mode := DoubleQuoted);
    ReadOne(r1, env, '"');
    ReadOne(r2, env, '\'');
    var r3 := r2.(word := Some(w + "'"));
    ReadOne(r3, env, '"');
    var r4 := r3.(mode := Plain);
    ReadOne(r4, env, '\'');
    assert w + "'" + "" == w + "'";
  }

  lemma {:induction false} ReadEscaped(r: Reader, env: Parameters, w: string, s: string)
    requires r.mode == SingleQuoted && r.inside.None? && r.word == Some(w)
    ensures ReadAll(r, env, Escape(s)) == r.(word := Some(w + s))
    decreases |s|
  {
    if s == "" {
      assert w + s == w;
    } else {
      var first := if s[0] == '\'' then "'\"'\"'" else [s[0]];
      ReadAllConcat(r, env, first, Escape(s[1..]));
      if s[0] == '\'' {
        ReadEscapedQuote(r, env, w);
      } else {
        ReadOne(r, env, s[0]);
      }
      ReadEscaped(r.(word := Some(w + [s[0]])), env, w + [s[0]], s[1..]);
      assert w + [s[0]] + s[1..] == w + s;
    }
  }

  /** A quoted string reads back as itself, at the end of whatever word is being read. */
  lemma ReadQuoted(r: Reader, env: Parameters, s: string)
    requires r.mode == Plain && r.inside.None?
    ensures ReadAll(r, env, Quote(s)) == r.(word := Some((if r.word.Some? then r.word.value else "") + s))
  {
    var w := if r.word.Some? then r.word.value else "";
    ReadAllConcat(r, env, "'" + Escape(s), "'");
    ReadAllConcat(r, env, "'", Escape(s));
    ReadOne(r, env, '\'');
    assert w + "" == w;
    var r1 := r.(mode := SingleQuoted, word := Some(w));
    ReadEscaped(r1, env, w, s);
    ReadOne(r1.(word := Some(w + s)), env, '\'');
  }

  lemma ReadBlank(r: Reader, env: Parameters)
    requires r.mode == Plain && r.inside.None?
    ensures ReadAll(r, env, " ") == EndWord(r)
  {
    ReadOne(r, env, ' ');
  }

  /** A further quoted word. */
  lemma ReadsQuoted(s: string, env: Parameters, tokens: seq<Token>, v: string)
    requires Reads(s, env, tokens)
    ensures Reads(s + " " + Quote(v), env, tokens + [Word(v)])
  {
    var r := ReadAll(START, env, s);
    ReadAllConcat(START, env, s + " ", Quote(v));
    ReadAllConcat(START, env, s, " ");
    ReadBlank(r, env);
    ReadQuoted(EndWord(r), env, v);
    assert "" + v == v;
  }

  function Joined(words: seq<string>): (s: string)
    decreases |words|
  {
    if words == [] then "" else Joined(words[..|words| - 1]) + " " + Quote(words[|words| - 1])
  }

  function AsWords(words: seq<string>): (t: seq<Token>) {
    seq(|words|, i requires 0 <= i < |words| => Word(words[i]))
  }

  /** Any list of words, quoted and joined by blanks, reads back as that list. */
  lemma {:induction false} JoinedReadsBack(words: seq<string>, env: Parameters)
    ensures Reads(Joined(words), env, AsWords(words)) && Tokens(Joined(words), env) == Some(AsWords(words))
    decreases |words|
  {
    if words != [] {
      var most := words[..|words| - 1];
      JoinedReadsBack(most, env);
      ReadsQuoted(Joined(most), env, AsWords(most), words[|words| - 1]);
      assert AsWords(words) == AsWords(most) + [Word(words[|words| - 1])];
    }
    ReadsTokens(Joined(words), env, AsWords(words));
  }

  // --- words that need no quotes ---

  /** A word made of characters that stand for themselves. */
  ghost predicate Bare(w: string) {
    w != "" && forall i :: 0 <= i < |w| ==> Ordinary(w[i])
  }

  lemma {:induction false} ReadBare(r: Reader, env: Parameters, w: string, v: string)
    requires r.mode == Plain && r.inside != Some(false) && r.word == Some(w)
    requires forall i :: 0 <= i < |v| ==> Ordinary(v[i])
    ensures ReadAll(r, env, v) == r.(word := Some(w + v))
    decreases |v|
  {
    if v == "" {
      assert w + v == w;
    } else {
      ReadBare(r.(word := Some(w + [v[0]])), env, w + [v[0]], v[1..]);
      assert w + [v[0]] + v[1..] == w + v;
    }
  }

  lemma ReadBareWord(r: Reader, env: Parameters, v: string)
    requires r.mode == Plain && r.inside != Some(false) && r.word.None? && Bare(v)
    ensures ReadAll(r, env, v) == r.(word := Some(v))
  {
    assert "" + [v[0]] == [v[0]];
    ReadBare(r.(word := Some([v[0]])), env, [v[0]], v[1..]);
    assert [v[0]] + v[1..] == v;
  }

  lemma ReadsBare(s: string, env: Parameters, tokens: seq<Token>, v: string)
    requires Reads(s, env, tokens) && Bare(v)
    ensures Reads(s + " " + v, env, tokens + [Word(v)])
  {
    var r := ReadAll(START, env, s);
    ReadAllConcat(START, env, s + " ", v);
    ReadAllConcat(START, env, s, " ");
    ReadBlank(r, env);
    ReadBareWord(EndWord(r), env, v);
  }

  lemma ReadsOperator(s: string, env: Parameters, tokens: seq<Token>, c: char)
    requires Reads(s, env, tokens) && (c == ';' || c == '\n' || c == '>')
    ensures Reads(s + [c], env, tokens + [Op([c])])
  {
    var r := ReadAll(START, env, s);
    ReadAllConcat(START, env, s, [c]);
    ReadOne(r, env, c);
  }

  // --- keeping a variable that is set ---

  ghost predicate ValidName(n: string) {
    n != "" && NameStart(n[0]) && forall i :: 0 <= i < |n| ==> NameChar(n[i])
  }

  function IfSet(n: string): (s: string) {
    "${" + n + "+" + n + "=\"$" + n + "\"}"
  }

  lemma {:induction false} ReadBraceName(r: Reader, env: Parameters, w: string, n: string)
    requires r.mode == BraceName(w) && forall i :: 0 <= i < |n| ==> NameChar(n[i])
    ensures ReadAll(r, env, n) == r.(mode := BraceName(w + n))
    decreases |n|
  {
    if n == "" {
      assert w + n == w;
    } else {
      ReadBraceName(r.(mode := BraceName(w + [n[0]])), env, w + [n[0]], n[1..]);
      assert w + [n[0]] + n[1..] == w + n;
    }
  }

  lemma {:induction false} ReadParameter(r: Reader, env: Parameters, w: string, n: string, quoted: bool)
    requires r.mode == Parameter(w, quoted) && forall i :: 0 <= i < |n| ==> NameChar(n[i])
    ensures ReadAll(r, env, n) == r.(mode := Parameter(w + n, quoted))
    decreases |n|
  {
    if n == "" {
      assert w + n == w;
    } else {
      ReadParameter(r.(mode := Parameter(w + [n[0]], quoted)), env, w + [n[0]], n[1..], quoted);
      assert w + [n[0]] + n[1..] == w + n;
    }
  }

  /** The opening `${name+`. */
  lemma ReadOpen(r: Reader, env: Parameters, n: string)
    requires r.mode == Plain && r.inside.None? && ValidName(n)
    ensures ReadAll(r, env, "${" + n + "+") == r.(inside := Some(n in env))
  {
    ReadAllConcat(r, env, "${" + n, "+");
    ReadAllConcat(r, env, "${", n);
    assert "${" == ['$'] + ['{'];
    ReadAllConcat(r, env, ['$'], ['{']);
    ReadOne(r, env, '$');
    ReadOne(r.(mode := Dollar(false)), env, '{');
    ReadBraceName(r.(mode := BraceName("")), env, "", n);
    assert "" + n == n;
    ReadOne(r.(mode := BraceName(n)), env, '+');
  }

  lemma {:induction false} ReadSuppressed(r: Reader, env: Parameters, v: string)
    requires r.mode == Plain && r.inside == Some(false) && forall i :: 0 <= i < |v| ==> Ordinary(v[i])
    ensures ReadAll(r, env, v) == r
    decreases |v|
  {
    if v != "" {
      ReadSuppressed(r, env, v[1..]);
    }
  }

  lemma NameIsBare(n: string)
    requires ValidName(n)
    ensures Bare(n) && Bare(n + "=")
  {
  }

  /** The assignment inside the braces, up to the quoted value. */
  lemma ReadInner(r: Reader, env: Parameters, n: string)
    requires r.mode == Plain && r.inside.Some? && r.word.None? && ValidName(n)
    ensures ReadAll(r, env, n + "=") == if r.inside.value then r.(word := Some(n + "=")) else r
  {
    NameIsBare(n);
    if r.inside.value {
      ReadBareWord(r, env, n + "=");
    } else {
      ReadSuppressed(r, env, n + "=");
    }
  }

  /** The quoted value and the closing brace. */
  lemma ReadValue(r: Reader, env: Parameters, n: string, w: string)
    requires r.mode == Plain && r.inside == Some(n in env) && ValidName(n)
    requires r.word == if n in env then Some(w) else None
    ensures ReadAll(r, env, "\"$" + n + "\"}") ==
              if n in env then r.(word := Some(w + env[n]), inside := None) else r.(inside := None)
  {
    assert "\"$" + n + "\"}" == "\"$" + n + "\"" + "}";
    ReadAllConcat(r, env, "\"$" + n + "\"", "}");
    ReadAllConcat(r, env, "\"$" + n, "\"");
    ReadAllConcat(r, env, "\"$", n);
    assert "\"$" == ['"'] + ['$'];
    ReadAllConcat(r, env, ['"'], ['$']);
    ReadOne(r, env, '"');
    assert w + "" == w;
    var r1 := r.(mode := DoubleQuoted);
    assert ReadAll(r, env, "\"") == r1;
    ReadOne(r1, env, '$');
    assert ReadAll(r, env, "\"$") == r.(mode := Dollar(true));
    ReadWholeName(r.(mode := Dollar(true)), env, n);
    ReadOne(r.(mode := Parameter(n, true)), env, '"');
    var r2 := if n in env then r.(word := Some(w + env[n])) else r;
    assert ReadAll(r, env, "\"$" + n + "\"") == r2;
    ReadOne(r2, env, '}');
  }

  lemma ReadWholeName(r: Reader, env: Parameters, n: string)
    requires r.mode.Dollar? && ValidName(n)
    ensures ReadAll(r, env, n) == r.(mode := Parameter(n, r.mode.quoted))
  {
    ReadParameter(r.(mode := Parameter([n[0]], r.mode.quoted)), env, [n[0]], n[1..], r.mode.quoted);
    assert [n[0]] + n[1..] == n;
  }

  /** The form gives `name=value` as one word when the variable is set, and nothing when it is not. */
  lemma ReadsIfSet(s: string, env: Parameters, tokens: seq<Token>, n: string)
    requires Reads(s, env, tokens) && ValidName(n)
    ensures Reads(s + " " + IfSet(n), env, tokens + if n in env then [Word(n + "=" + env[n])] else [])
  {
    var r := EndWord(ReadAll(START, env, s));
    var open, inner, value := "${" + n + "+", n + "=", "\"$" + n + "\"}";
    assert s + " " + IfSet(n) == s + " " + (open + inner + value);
    ReadAllConcat(START, env, s + " ", open + inner + value);
    ReadAllConcat(START, env, s, " ");
    ReadBlank(ReadAll(START, env, s), env);
    ReadAllConcat(r, env, open + inner, value);
    ReadAllConcat(r, env, open, inner);
    ReadOpen(r, env, n);
    var r1 := r.(inside := Some(n in env));
    ReadInner(r1, env, n);
    ReadValue(ReadAll(r1, env, inner), env, n, inner);
    assert tokens + [] == tokens;
  }

  // --- the launcher ---

  /** Text from the operating system, which need not be UTF-8. */
  datatype OsText = Utf8(text: string) | NotUtf8

  datatype LaunchError = InvalidUtf8(field: string) | InvalidName(name: string)

  datatype Result<T> = Ok(value: T) | Err(error: LaunchError)

  datatype Login = Login(home: string, path: string, shell: string)

  datatype Command = Command(program: OsText, args: seq<OsText>, environment: seq<(OsText, OsText)>, clearEnvironment: bool)

  const SAFE_REMOTE_ENVIRONMENT: seq<string> := [
    "USER", "LOGNAME", "LANG", "LC_ALL", "LC_CTYPE", "TERM", "NO_COLOR", "TMPDIR", "CLAUDE_HOME", "CODEX_HOME",
    "PI_CODING_AGENT_DIR", "PI_CODING_AGENT_SESSION_DIR", "SSL_CERT_FILE", "SSL_CERT_DIR"
  ]

  lemma SafeNamesAreValid(k: nat)
    requires k < |SAFE_REMOTE_ENVIRONMENT|
    ensures ValidName(SAFE_REMOTE_ENVIRONMENT[k])
  {
  }

  predicate ValidEnvironmentName(n: string)
    ensures ValidEnvironmentName(n) <==> ValidName(n)
  {
    n != "" && NameStart(n[0]) && forall i :: 1 <= i < |n| ==> NameChar(n[i])
  }

  function EntryError(entry: (OsText, OsText)): (e: Option<LaunchError>) {
    if entry.0.NotUtf8? then Some(InvalidUtf8("environment variable name"))
    else if !ValidEnvironmentName(entry.0.text) then Some(InvalidName(entry.0.text))
    else if entry.1.NotUtf8? then Some(InvalidUtf8("environment variable value"))
    else None
  }

  /** The error of the first entry that has one. */
  function EnvironmentError(environment: seq<(OsText, OsText)>): (e: Option<LaunchError>) {
    if environment == [] then None
    else if EnvironmentError(environment[..|environment| - 1]).Some? then EnvironmentError(environment[..|environment| - 1])
    else EntryError(environment[|environment| - 1])
  }

  function ArgumentError(args: seq<OsText>): (e: Option<LaunchError>) {
    if args == [] then None
    else if ArgumentError(args[..|args| - 1]).Some? then ArgumentError(args[..|args| - 1])
    else if args[|args| - 1].NotUtf8? then Some(InvalidUtf8("argument"))
    else None
  }

  /** The program is checked first, then the environment, then the arguments. */
  function CommandError(c: Command): (e: Option<LaunchError>) {
    if c.program.NotUtf8? then Some(InvalidUtf8("program"))
    else if EnvironmentError(c.environment).Some? then EnvironmentError(c.environment)
    else ArgumentError(c.args)
  }

  function Text(t: OsText): (s: string) {
    if t.Utf8? then t.text else ""
  }

  function SafeWords(env: Parameters, k: nat): (t: seq<Token>)
    requires k <= |SAFE_REMOTE_ENVIRONMENT|
  {
    if k == 0 then []
    else
      var n := SAFE_REMOTE_ENVIRONMENT[k - 1];
      SafeWords(env, k - 1) + if n in env then [Word(n + "=" + env[n])] else []
  }

  function EnvironmentWords(environment: seq<(OsText, OsText)>): (t: seq<Token>) {
    if environment == [] then []
    else
      var last := environment[|environment| - 1];
      EnvironmentWords(environment[..|environment| - 1]) + [Word(Text(last.0) + "=" + Text(last.1))]
  }

  function ArgumentWords(args: seq<OsText>): (t: seq<Token>) {
    if args == [] then [] else ArgumentWords(args[..|args| - 1]) + [Word(Text(args[|args| - 1]))]
  }

  function LoginWords(login: Login): (t: seq<Token>) {
    [Word("HOME=" + login.home), Word("PATH=" + login.path), Word("SHELL=" + login.shell)]
  }

  /** The words up to the environment of the command. */
  function PreambleTokens(c: Command, login: Login, env: Parameters): (t: seq<Token>) {
    [Op("\n"), Word("exec"), Word("env")] + (if c.clearEnvironment then [Word("-i")] else []) + LoginWords(login)
    + if c.clearEnvironment then SafeWords(env, |SAFE_REMOTE_ENVIRONMENT|) else []
  }

  function LauncherTokens(c: Command, login: Login, env: Parameters): (t: seq<Token>) {
    PreambleTokens(c, login, env) + EnvironmentWords(c.environment) + [Word(Text(c.program))] + ArgumentWords(c.args) + [Op("\n")]
  }

  lemma {:induction false} ReadComment(r: Reader, env: Parameters, s: string)
    requires r.mode == Comment && forall i :: 0 <= i < |s| ==> s[i] != '\n'
    ensures ReadAll(r, env, s) == r
    decreases |s|
  {
    if s != "" {
      ReadComment(r, env, s[1..]);
    }
  }

  const HEADER := "#!/bin/sh\nexec env"

  lemma ReadFirstLine(env: Parameters)
    ensures ReadAll(START, env, "#!/bin/sh\n") == Reader(Plain, None, [Op("\n")], None)
  {
    hide ReadAll;
    var comment := "!/bin/sh";
    assert "#!/bin/sh\n" == ['#'] + comment + ['\n'];
    ReadAllConcat(START, env, ['#'] + comment, ['\n']);
    ReadAllConcat(START, env, ['#'], comment);
    ReadOne(START, env, '#');
    ReadComment(START.(mode := Comment), env, comment);
    ReadOne(START.(mode := Comment), env, '\n');
  }

  lemma ReadsHeader(env: Parameters)
    ensures Reads(HEADER, env, [Op("\n"), Word("exec"), Word("env")])
  {
    hide ReadAll;
    var line := "#!/bin/sh\n";
    ReadFirstLine(env);
    ReadAllConcat(START, env, line, "exec");
    ReadBareWord(Reader(Plain, None, [Op("\n")], None), env, "exec");
    var read := [Op("\n")] + [Word("exec")];
    assert Reads(line + "exec", env, read);
    hide Reads;
    ReadsBare(line + "exec", env, read, "env");
    assert HEADER == line + "exec" + " " + "env";
    assert read + [Word("env")] == [Op("\n"), Word("exec"), Word("env")];
  }

  /** Whatever was read before, this adds these tokens. */
  ghost predicate Adds(before: string, after: string, tokens: seq<Token>) {
    forall env: Parameters, read: seq<Token> :: Reads(before, env, read) ==> Reads(after, env, read + tokens)
  }

  lemma AddsQuoted(before: string, v: string)
    ensures Adds(before, before + " " + Quote(v), [Word(v)])
  {
    forall env: Parameters, read: seq<Token> | Reads(before, env, read)
      ensures Reads(before + " " + Quote(v), env, read + [Word(v)])
    {
      ReadsQuoted(before, env, read, v);
    }
  }

  lemma AddsThen(a: string, b: string, c: string, first: seq<Token>, second: seq<Token>)
    requires Adds(a, b, first) && Adds(b, c, second)
    ensures Adds(a, c, first + second)
  {
    forall env: Parameters, read: seq<Token> | Reads(a, env, read)
      ensures Reads(c, env, read + (first + second))
    {
      assert Reads(b, env, read + first);
      assert read + first + second == read + (first + second);
    }
  }

  lemma AddsNothing(a: string)
    ensures Adds(a, a, [])
  {
    forall env: Parameters, read: seq<Token> | Reads(a, env, read)
      ensures Reads(a, env, read + [])
    {
      assert read + [] == read;
    }
  }

  method AppendEnvironment(output: string, environment: seq<(OsText, OsText)>) returns (r: Result<string>)
    ensures r.Err? <==> EnvironmentError(environment).Some?
    ensures r.Err? ==> EnvironmentError(environment) == Some(r.error)
    ensures r.Ok? ==> Adds(output, r.value, EnvironmentWords(environment))
  {
    hide Reads;
    var text, i := output, 0;
    AddsNothing(output);
    while i < |environment|
      invariant 0 <= i <= |environment| && EnvironmentError(environment[..i]).None?
      invariant Adds(output, text, EnvironmentWords(environment[..i]))
    {
      var (name, value) := environment[i];
      ErrorStands(environment, i + 1);
      assert environment[..i + 1][..i] == environment[..i];
      if name.NotUtf8? {
        return Err(InvalidUtf8("environment variable name"));
      }
      if !ValidEnvironmentName(name.text) {
        return Err(InvalidName(name.text));
      }
      if value.NotUtf8? {
        return Err(InvalidUtf8("environment variable value"));
      }
      var entry := name.text + "=" + value.text;
      AddsQuoted(text, entry);
      AddsThen(output, text, text + " " + Quote(entry), EnvironmentWords(environment[..i]), [Word(entry)]);
      text := text + " " + Quote(entry);
      i := i + 1;
    }
    assert environment[..i] == environment;
    r := Ok(text);
  }

  /** An error in the first entries is the error of the whole. */
  lemma {:induction false} ErrorStands(environment: seq<(OsText, OsText)>, k: nat)
    requires k <= |environment|
    ensures EnvironmentError(environment[..k]).Some? ==> EnvironmentError(environment) == EnvironmentError(environment[..k])
    decreases |environment|
  {
    if k < |environment| {
      var most := environment[..|environment| - 1];
      ErrorStands(most, k);
      assert most[..k] == environment[..k];
    } else {
      assert environment[..k] == environment;
    }
  }

  lemma {:induction false} ArgumentErrorStands(args: seq<OsText>, k: nat)
    requires k <= |args|
    ensures ArgumentError(args[..k]).Some? ==> ArgumentError(args) == ArgumentError(args[..k])
    decreases |args|
  {
    if k < |args| {
      var most := args[..|args| - 1];
      ArgumentErrorStands(most, k);
      assert most[..k] == args[..k];
    } else {
      assert args[..k] == args;
    }
  }

  method AppendArguments(output: string, args: seq<OsText>) returns (r: Result<string>)
    ensures r.Err? <==> ArgumentError(args).Some?
    ensures r.Err? ==> ArgumentError(args) == Some(r.error)
    ensures r.Ok? ==> Adds(output, r.value, ArgumentWords(args))
  {
    hide Reads;
    var text, i := output, 0;
    AddsNothing(output);
    while i < |args|
      invariant 0 <= i <= |args| && ArgumentError(args[..i]).None?
      invariant Adds(output, text, ArgumentWords(args[..i]))
    {
      ArgumentErrorStands(args, i + 1);
      assert args[..i + 1][..i] == args[..i];
      if args[i].NotUtf8? {
        return Err(InvalidUtf8("argument"));
      }
      AddsQuoted(text, args[i].text);
      AddsThen(output, text, text + " " + Quote(args[i].text), ArgumentWords(args[..i]), [Word(args[i].text)]);
      text := text + " " + Quote(args[i].text);
      i := i + 1;
    }
    assert args[..i] == args;
    r := Ok(text);
  }

  /** The safe variables, each kept only if it is set. */
  method AppendSafe(output: string) returns (text: string)
    ensures forall env: Parameters, read: seq<Token> :: Reads(output, env, read) ==>
              Reads(text, env, read + SafeWords(env, |SAFE_REMOTE_ENVIRONMENT|))
  {
    hide Reads;
    text := output;
    var k := 0;
    forall env: Parameters, read: seq<Token> | Reads(output, env, read)
      ensures Reads(output, env, read + SafeWords(env, 0))
    {
      assert read + [] == read;
    }
    while k < |SAFE_REMOTE_ENVIRONMENT|
      invariant 0 <= k <= |SAFE_REMOTE_ENVIRONMENT|
      invariant forall env: Parameters, read: seq<Token> :: Reads(output, env, read) ==> Reads(text, env, read + SafeWords(env, k))
    {
      var name := SAFE_REMOTE_ENVIRONMENT[k];
      SafeNamesAreValid(k);
      forall env: Parameters, read: seq<Token> | Reads(output, env, read)
        ensures Reads(text + " " + IfSet(name), env, read + SafeWords(env, k + 1))
      {
        ReadsIfSet(text, env, read + SafeWords(env, k), name);
        SafeStep(env, read, k);
      }
      text := text + " " + IfSet(name);
      k := k + 1;
    }
  }

  lemma SafeStep(env: Parameters, read: seq<Token>, k: nat)
    requires k < |SAFE_REMOTE_ENVIRONMENT|
    ensures var n := SAFE_REMOTE_ENVIRONMENT[k];
            read + SafeWords(env, k + 1) == read + SafeWords(env, k) + if n in env then [Word(n + "=" + env[n])] else []
  {
  }

  method Preamble(c: Command, login: Login) returns (text: string)
    ensures forall env: Parameters :: Reads(text, env, PreambleTokens(c, login, env))
  {
    hide Reads;
    text := HEADER;
    ghost var lead := [Op("\n"), Word("exec"), Word("env")];
    ghost var flag := if c.clearEnvironment then [Word("-i")] else [];
    assert lead + [] == lead;
    forall env: Parameters
      ensures Reads(HEADER, env, lead)
    {
      ReadsHeader(env);
    }
    if c.clearEnvironment {
      forall env: Parameters
        ensures Reads(text + " " + "-i", env, lead + flag)
      {
        ReadsBare(text, env, lead, "-i");
      }
      text := text + " " + "-i";
    }
    assert forall env: Parameters :: Reads(text, env, lead + flag);
    ghost var a := text;
    AddsLogin(text, login);
    text := text + " " + Quote("HOME=" + login.home) + " " + Quote("PATH=" + login.path) + " " + Quote("SHELL=" + login.shell);
    assert forall env: Parameters :: Reads(a, env, lead + flag) ==> Reads(text, env, lead + flag + LoginWords(login));
    if c.clearEnvironment {
      text := AppendSafe(text);
    } else {
      assert lead + flag + LoginWords(login) + [] == lead + flag + LoginWords(login);
    }
  }

  lemma AddsLogin(a: string, login: Login)
    ensures Adds(a, a + " " + Quote("HOME=" + login.home) + " " + Quote("PATH=" + login.path) + " " + Quote("SHELL=" + login.shell),
                 LoginWords(login))
  {
    hide Adds;
    var home, path, shell := "HOME=" + login.home, "PATH=" + login.path, "SHELL=" + login.shell;
    var b := a + " " + Quote(home);
    var c := b + " " + Quote(path);
    AddsQuoted(a, home);
    AddsQuoted(b, path);
    AddsQuoted(c, shell);
    AddsThen(a, b, c, [Word(home)], [Word(path)]);
    AddsThen(a, c, c + " " + Quote(shell), [Word(home)] + [Word(path)], [Word(shell)]);
    assert [Word(home)] + [Word(path)] + [Word(shell)] == LoginWords(login);
  }

  /** The launcher is refused for the first bad part of the command; otherwise the shell reads from it exactly
      the login environment, the safe variables that are set, the command's environment, program and arguments. */
  method BuildRemoteLauncher(c: Command, login: Login) returns (r: Result<string>)
    ensures r.Err? <==> CommandError(c).Some?
    ensures r.Err? ==> CommandError(c) == Some(r.error)
    ensures r.Ok? ==> forall env: Parameters :: Tokens(r.value, env) == Some(LauncherTokens(c, login, env))
  {
    if c.program.NotUtf8? {
      return Err(InvalidUtf8("program"));
    }
    var text := Preamble(c, login);
    var withEnvironment := AppendEnvironment(text, c.environment);
    if withEnvironment.Err? {
      return withEnvironment;
    }
    var withProgram := withEnvironment.value + " " + Quote(c.program.text);
    var withArguments := AppendArguments(withProgram, c.args);
    if withArguments.Err? {
      return withArguments;
    }
    forall env: Parameters
      ensures Tokens(withArguments.value + "\n", env) == Some(LauncherTokens(c, login, env))
    {
      LauncherReads(c, login, env, text, withEnvironment.value, withArguments.value);
    }
    r := Ok(withArguments.value + "\n");
  }

  lemma LauncherReads(c: Command, login: Login, env: Parameters, text: string, environed: string, argued: string)
    requires c.program.Utf8? && Reads(text, env, PreambleTokens(c, login, env))
    requires Adds(text, environed, EnvironmentWords(c.environment))
    requires Adds(environed + " " + Quote(c.program.text), argued, ArgumentWords(c.args))
    ensures Tokens(argued + "\n", env) == Some(LauncherTokens(c, login, env))
  {
    hide Reads;
    var t1 := PreambleTokens(c, login, env) + EnvironmentWords(c.environment);
    assert Reads(environed, env, t1);
    ReadsQuoted(environed, env, t1, c.program.text);
    var t2 := t1 + [Word(c.program.text)] + ArgumentWords(c.args);
    assert Reads(argued, env, t2);
    ReadsOperator(argued, env, t2, '\n');
    assert argued + ['\n'] == argued + "\n";
    ReadsTokens(argued + "\n", env, t2 + [Op("\n")]);
  }
}
