/** The process that the launcher becomes: its environment and arguments, by the rules of the `env` utility. */
module RemoteProcess {
  import opened Basics
  import opened ShellWords
  import opened Launcher
  import opened RemoteCommand

  datatype Process = Process(environment: Parameters, argv: seq<string>)

  predicate Assignment(word: string) {
    '=' in word
  }

  /** Operands of the form `name=value` are set, one after the other; the first other operand is the program. */
  function Operands(environment: Parameters, words: seq<string>): (p: Process)
    decreases |words|
  {
    if words == [] then Process(environment, [])
    else if Assignment(words[0]) then Operands(Assign(environment, words[0]), words[1..])
    else Process(environment, words)
  }

  /** The utility itself: with `-i` the inherited environment is ignored. */
  function Env(inherited: Parameters, words: seq<string>): (p: Process) {
    if words != [] && words[0] == "-i" then Operands(map[], words[1..]) else Operands(inherited, words)
  }

  predicate AllWords(tokens: seq<Token>) {
    forall i :: 0 <= i < |tokens| ==> tokens[i].Word?
  }

  function Texts(tokens: seq<Token>): (words: seq<string>)
    requires AllWords(tokens)
    ensures |words| == |tokens|
  {
    seq(|tokens|, i requires 0 <= i < |tokens| => tokens[i].text)
  }

  /** A script whose only command, after its first line, is `exec env` with these words. */
  predicate RunsEnv(tokens: seq<Token>, words: seq<Token>) {
    AllWords(words) && tokens == [Op("\n"), Word("exec"), Word("env")] + words + [Op("\n")]
  }

  // --- which commands can be launched ---

  predicate EntryOk(entry: (OsText, OsText)) {
    entry.0.Utf8? && entry.1.Utf8? && ValidEnvironmentName(entry.0.text)
  }

  ghost predicate Launchable(c: Command) {
    && c.program.Utf8?
    && (forall i :: 0 <= i < |c.environment| ==> EntryOk(c.environment[i]))
    && (forall i :: 0 <= i < |c.args| ==> c.args[i].Utf8?)
  }

  lemma {:induction false} EnvironmentOkIff(environment: seq<(OsText, OsText)>)
    ensures EnvironmentError(environment).None? <==> forall i :: 0 <= i < |environment| ==> EntryOk(environment[i])
    decreases |environment|
  {
    if environment != [] {
      EnvironmentOkIff(environment[..|environment| - 1]);
    }
  }

  lemma {:induction false} ArgumentsOkIff(args: seq<OsText>)
    ensures ArgumentError(args).None? <==> forall i :: 0 <= i < |args| ==> args[i].Utf8?
    decreases |args|
  {
    if args != [] {
      ArgumentsOkIff(args[..|args| - 1]);
    }
  }

  /** A command is refused exactly if some part of it is not UTF-8 or some variable's name is none a shell can assign. */
  lemma LaunchableIff(c: Command)
    ensures CommandError(c).None? <==> Launchable(c)
  {
    EnvironmentOkIff(c.environment);
    ArgumentsOkIff(c.args);
  }

  // --- setting variables ---

  function AssignAll(environment: Parameters, words: seq<string>): (r: Parameters)
    decreases |words|
  {
    if words == [] then environment else AssignAll(Assign(environment, words[0]), words[1..])
  }

  lemma {:induction false} AssignAllNext(environment: Parameters, words: seq<string>, word: string)
    ensures AssignAll(environment, words + [word]) == Assign(AssignAll(environment, words), word)
    decreases |words|
  {
    if words == [] {
      assert ([] + [word])[1..] == [];
    } else {
      assert (words + [word])[1..] == words[1..] + [word];
      AssignAllNext(Assign(environment, words[0]), words[1..], word);
    }
  }

  predicate AllAssignments(words: seq<string>) {
    forall i :: 0 <= i < |words| ==> Assignment(words[i])
  }

  lemma {:induction false} OperandsAfter(environment: Parameters, sets: seq<string>, words: seq<string>)
    requires AllAssignments(sets)
    ensures Operands(environment, sets + words) == Operands(AssignAll(environment, sets), words)
    decreases |sets|
  {
    if sets == [] {
      assert sets + words == words;
    } else {
      assert (sets + words)[1..] == sets[1..] + words;
      OperandsAfter(Assign(environment, sets[0]), sets[1..], words);
    }
  }

  function Lookup(environment: Parameters, name: string): (v: Option<string>) {
    if name in environment then Some(environment[name]) else None
  }

  predicate NoEquals(name: string) {
    forall i :: 0 <= i < |name| ==> name[i] != '='
  }

  lemma SetOne(environment: Parameters, words: seq<string>, name: string, value: string, n: string)
    requires AllAssignments(words) && NoEquals(name)
    ensures AllAssignments(words + [name + "=" + value])
    ensures Lookup(AssignAll(environment, words + [name + "=" + value]), n) ==
              if n == name then Some(value) else Lookup(AssignAll(environment, words), n)
  {
    AssignAllNext(environment, words, name + "=" + value);
    AssignSets(AssignAll(environment, words), name, value);
    var word := name + "=" + value;
    assert word[|name|] == '=';
    hide AssignAll;
    hide Assign;
  }

  lemma ValidHasNoEquals(name: string)
    requires ValidEnvironmentName(name)
    ensures NoEquals(name)
  {
  }

  lemma TextsPush(tokens: seq<Token>, word: string)
    requires AllWords(tokens)
    ensures AllWords(tokens + [Word(word)]) && Texts(tokens + [Word(word)]) == Texts(tokens) + [word]
  {
  }

  lemma TextsJoin(a: seq<Token>, b: seq<Token>)
    requires AllWords(a) && AllWords(b)
    ensures AllWords(a + b) && Texts(a + b) == Texts(a) + Texts(b)
  {
  }

  // --- the launcher's groups of words ---

  /** The value given last to this name. */
  function LastEntry(environment: seq<(OsText, OsText)>, n: string): (v: Option<string>) {
    if environment == [] then None
    else
      var last := environment[|environment| - 1];
      if last.0 == Utf8(n) then Some(Text(last.1)) else LastEntry(environment[..|environment| - 1], n)
  }

  lemma {:induction false} EnvironmentSets(base: Parameters, environment: seq<(OsText, OsText)>, n: string)
    requires forall i :: 0 <= i < |environment| ==> EntryOk(environment[i])
    ensures AllWords(EnvironmentWords(environment)) && AllAssignments(Texts(EnvironmentWords(environment)))
    ensures Lookup(AssignAll(base, Texts(EnvironmentWords(environment))), n) ==
              if LastEntry(environment, n).Some? then LastEntry(environment, n) else Lookup(base, n)
    decreases |environment|
  {
    if environment != [] {
      var most, last := environment[..|environment| - 1], environment[|environment| - 1];
      EnvironmentSets(base, most, n);
      assert EntryOk(last);
      ValidHasNoEquals(last.0.text);
      TextsPush(EnvironmentWords(most), last.0.text + "=" + last.1.text);
      SetOne(base, Texts(EnvironmentWords(most)), last.0.text, last.1.text, n);
    }
  }

  lemma SafeNameHasNoEquals(k: nat)
    requires k < |SAFE_REMOTE_ENVIRONMENT|
    ensures NoEquals(SAFE_REMOTE_ENVIRONMENT[k])
  {
    SafeNamesAreValid(k);
  }

  lemma {:induction false} SafeSets(base: Parameters, env: Parameters, k: nat, n: string)
    requires k <= |SAFE_REMOTE_ENVIRONMENT|
    ensures AllWords(SafeWords(env, k)) && AllAssignments(Texts(SafeWords(env, k)))
    ensures Lookup(AssignAll(base, Texts(SafeWords(env, k))), n) ==
              if n in SAFE_REMOTE_ENVIRONMENT[..k] && n in env then Some(env[n]) else Lookup(base, n)
    decreases k
  {
    if k == 0 {
      AssignNothing(base);
    } else {
      hide AssignAll;
      hide Lookup;
      hide Texts;
      hide NoEquals;
      SafeSets(base, env, k - 1, n);
      var name := SAFE_REMOTE_ENVIRONMENT[k - 1];
      assert SAFE_REMOTE_ENVIRONMENT[..k] == SAFE_REMOTE_ENVIRONMENT[..k - 1] + [name];
      SafeNameHasNoEquals(k - 1);
      if name in env {
        TextsPush(SafeWords(env, k - 1), name + "=" + env[name]);
        SetOne(base, Texts(SafeWords(env, k - 1)), name, env[name], n);
      } else {
        assert SafeWords(env, k) == SafeWords(env, k - 1);
      }
    }
  }

  function LoginValue(login: Login, n: string): (v: Option<string>) {
    if n == "HOME" then Some(login.home)
    else if n == "PATH" then Some(login.path)
    else if n == "SHELL" then Some(login.shell)
    else None
  }

  lemma LoginTexts(login: Login)
    ensures AllWords(LoginWords(login))
    ensures Texts(LoginWords(login)) == [] + ["HOME" + "=" + login.home] + ["PATH" + "=" + login.path] + ["SHELL" + "=" + login.shell]
  {
    assert "HOME" + "=" + login.home == "HOME=" + login.home;
    assert "PATH" + "=" + login.path == "PATH=" + login.path;
    assert "SHELL" + "=" + login.shell == "SHELL=" + login.shell;
  }

  lemma LoginNames()
    ensures NoEquals("HOME") && NoEquals("PATH") && NoEquals("SHELL")
    ensures "HOME" != "PATH" && "HOME" != "SHELL" && "PATH" != "SHELL"
  {
    assert "HOME"[0] != "PATH"[0] && "HOME"[0] != "SHELL"[0] && "PATH"[0] != "SHELL"[0];
  }

  lemma LoginSets(base: Parameters, login: Login, n: string)
    ensures AllWords(LoginWords(login)) && AllAssignments(Texts(LoginWords(login)))
    ensures Lookup(AssignAll(base, Texts(LoginWords(login))), n) ==
              if LoginValue(login, n).Some? then LoginValue(login, n) else Lookup(base, n)
  {
    LoginTexts(login);
    LoginNames();
    AssignNothing(base);
    hide LoginWords;
    hide NoEquals;
    hide AssignAll;
    hide Lookup;
    hide Texts;
    var home, path := "HOME" + "=" + login.home, "PATH" + "=" + login.path;
    SetOne(base, [], "HOME", login.home, n);
    SetOne(base, [] + [home], "PATH", login.path, n);
    SetOne(base, [] + [home] + [path], "SHELL", login.shell, n);
  }

  function Arguments(args: seq<OsText>): (words: seq<string>) {
    seq(|args|, i requires 0 <= i < |args| => Text(args[i]))
  }

  lemma {:induction false} ArgumentTexts(args: seq<OsText>)
    ensures AllWords(ArgumentWords(args)) && |ArgumentWords(args)| == |args|
    ensures Texts(ArgumentWords(args)) == Arguments(args)
    decreases |args|
  {
    if args != [] {
      ArgumentTexts(args[..|args| - 1]);
      TextsPush(ArgumentWords(args[..|args| - 1]), Text(args[|args| - 1]));
    }
  }

  // --- the result ---

  /** The value a variable should have in the remote process: what the command sets last, or else, in a cleared
      environment, the remote value of a safe variable; or else the login's; or else what is inherited. */
  function WantedValue(c: Command, login: Login, env: Parameters, inherited: Parameters, n: string): (v: Option<string>) {
    if LastEntry(c.environment, n).Some? then LastEntry(c.environment, n)
    else if c.clearEnvironment && n in SAFE_REMOTE_ENVIRONMENT && n in env then Some(env[n])
    else if LoginValue(login, n).Some? then LoginValue(login, n)
    else if !c.clearEnvironment then Lookup(inherited, n)
    else None
  }

  /** The words after `exec env`: an optional `-i`, assignments, and the command. */
  function Sets(c: Command, login: Login, env: Parameters): (t: seq<Token>) {
    LoginWords(login) + (if c.clearEnvironment then SafeWords(env, |SAFE_REMOTE_ENVIRONMENT|) else []) + EnvironmentWords(c.environment)
  }

  function Flag(c: Command): (t: seq<Token>) {
    if c.clearEnvironment then [Word("-i")] else []
  }

  function Invoked(c: Command): (t: seq<Token>) {
    [Word(Text(c.program))] + ArgumentWords(c.args)
  }

  lemma LauncherRunsEnv(c: Command, login: Login, env: Parameters)
    requires AllWords(Sets(c, login, env)) && AllWords(ArgumentWords(c.args))
    ensures RunsEnv(LauncherTokens(c, login, env), Flag(c) + Sets(c, login, env) + Invoked(c))
  {
    hide SafeWords;
    hide EnvironmentWords;
    hide ArgumentWords;
    hide LoginWords;
    assert LauncherTokens(c, login, env) ==
      [Op("\n"), Word("exec"), Word("env")] + (Flag(c) + Sets(c, login, env) + Invoked(c)) + [Op("\n")];
  }

  lemma SetsMeaning(base: Parameters, c: Command, login: Login, env: Parameters, n: string)
    requires Launchable(c)
    ensures AllWords(Sets(c, login, env)) && AllAssignments(Texts(Sets(c, login, env)))
    ensures Lookup(AssignAll(base, Texts(Sets(c, login, env))), n) ==
              if WantedValue(c, login, env, map[], n).Some? then WantedValue(c, login, env, map[], n) else Lookup(base, n)
  {
    hide AssignAll;
    hide LoginWords;
    hide SafeWords;
    hide EnvironmentWords;
    hide LastEntry;
    hide LoginValue;
    hide Texts;
    var safe := if c.clearEnvironment then SafeWords(env, |SAFE_REMOTE_ENVIRONMENT|) else [];
    LoginSets(base, login, n);
    var afterLogin := AssignAll(base, Texts(LoginWords(login)));
    MaybeSafeSets(afterLogin, c.clearEnvironment, env, n);
    var afterSafe := AssignAll(afterLogin, Texts(safe));
    EnvironmentSets(afterSafe, c.environment, n);
    TextsJoin(LoginWords(login), safe);
    TextsJoin(LoginWords(login) + safe, EnvironmentWords(c.environment));
    AssignAllJoin(base, Texts(LoginWords(login)), Texts(safe));
    AssignAllJoin(base, Texts(LoginWords(login)) + Texts(safe), Texts(EnvironmentWords(c.environment)));
  }

  lemma MaybeSafeSets(base: Parameters, clear: bool, env: Parameters, n: string)
    ensures var safe := if clear then SafeWords(env, |SAFE_REMOTE_ENVIRONMENT|) else [];
            && AllWords(safe) && AllAssignments(Texts(safe))
            && Lookup(AssignAll(base, Texts(safe)), n) ==
                 if clear && n in SAFE_REMOTE_ENVIRONMENT && n in env then Some(env[n]) else Lookup(base, n)
  {
    SafeSets(base, env, |SAFE_REMOTE_ENVIRONMENT|, n);
    assert SAFE_REMOTE_ENVIRONMENT[..|SAFE_REMOTE_ENVIRONMENT|] == SAFE_REMOTE_ENVIRONMENT;
    hide SafeWords;
  }

  lemma AssignNothing(base: Parameters)
    ensures AssignAll(base, []) == base
  {
  }

  lemma {:induction false} AssignAllJoin(base: Parameters, a: seq<string>, b: seq<string>)
    ensures AssignAll(base, a + b) == AssignAll(AssignAll(base, a), b)
    decreases |a|
  {
    if a == [] {
      assert a + b == b;
    } else {
      assert (a + b)[1..] == a[1..] + b;
      AssignAllJoin(Assign(base, a[0]), a[1..], b);
    }
  }

  /** The launcher becomes `env` with these words, and every variable has the value it should have. The program gets
      exactly its own arguments if and only if its name holds no equals sign: one that does is taken for a variable. */
  lemma LaunchMeaning(c: Command, login: Login, env: Parameters, inherited: Parameters, n: string)
    requires CommandError(c).None?
    ensures var words := Flag(c) + Sets(c, login, env) + Invoked(c);
            && RunsEnv(LauncherTokens(c, login, env), words)
            && var p := Env(inherited, Texts(words));
               && (p.argv == [Text(c.program)] + Arguments(c.args) <==> !Assignment(Text(c.program)))
               && (!Assignment(Text(c.program)) ==> Lookup(p.environment, n) == WantedValue(c, login, env, inherited, n))
  {
    LaunchableIff(c);
    var base := if c.clearEnvironment then map[] else inherited;
    SetsMeaning(base, c, login, env, n);
    ArgumentTexts(c.args);
    LauncherRunsEnv(c, login, env);
    hide CommandError;
    hide LauncherTokens;
    hide RunsEnv;
    hide EnvironmentWords;
    hide LastEntry;
    hide LoginValue;
    hide ArgumentWords;
    hide AssignAll;
    hide Sets;
    WordsSplit(c, login, env);
    EnvStarts(c, login, env, inherited);
    InvokedTexts(c);
    hide Env;
    hide Flag;
    hide Invoked;
    hide Texts;
    var sets := Texts(Sets(c, login, env));
    var command := [Text(c.program)] + Arguments(c.args);
    OperandsAfter(base, sets, command);
    ArgvIsShorter(AssignAll(base, sets), command);
    hide Operands;
  }

  lemma InvokedTexts(c: Command)
    requires AllWords(ArgumentWords(c.args)) && Texts(ArgumentWords(c.args)) == Arguments(c.args)
    ensures AllWords(Invoked(c)) && Texts(Invoked(c)) == [Text(c.program)] + Arguments(c.args)
  {
    hide ArgumentWords;
    TextsJoin([Word(Text(c.program))], ArgumentWords(c.args));
  }

  lemma {:induction false} ArgvIsShorter(environment: Parameters, words: seq<string>)
    requires words != []
    ensures |Operands(environment, words).argv| == |words| <==> !Assignment(words[0])
    ensures |Operands(environment, words).argv| <= |words|
    ensures !Assignment(words[0]) ==> Operands(environment, words) == Process(environment, words)
    decreases |words|
  {
    if Assignment(words[0]) && |words| > 1 {
      ArgvIsShorter(Assign(environment, words[0]), words[1..]);
    }
  }

  lemma WordsSplit(c: Command, login: Login, env: Parameters)
    requires AllWords(Sets(c, login, env)) && AllWords(ArgumentWords(c.args))
    ensures AllWords(Flag(c) + Sets(c, login, env) + Invoked(c)) && AllWords(Invoked(c))
    ensures Texts(Flag(c) + Sets(c, login, env) + Invoked(c)) ==
              (if c.clearEnvironment then ["-i"] else []) + (Texts(Sets(c, login, env)) + Texts(Invoked(c)))
  {
    hide Sets;
    hide ArgumentWords;
    TextsJoin(Flag(c), Sets(c, login, env));
    TextsJoin(Flag(c) + Sets(c, login, env), Invoked(c));
  }

  lemma EnvStarts(c: Command, login: Login, env: Parameters, inherited: Parameters)
    requires AllWords(Sets(c, login, env)) && AllAssignments(Texts(Sets(c, login, env))) && AllWords(Invoked(c))
    ensures var rest := Texts(Sets(c, login, env)) + Texts(Invoked(c));
            Env(inherited, (if c.clearEnvironment then ["-i"] else []) + rest) ==
              Operands(if c.clearEnvironment then map[] else inherited, rest)
  {
    var rest := Texts(Sets(c, login, env)) + Texts(Invoked(c));
    if c.clearEnvironment {
      assert (["-i"] + rest)[1..] == rest;
    } else {
      assert [] + rest == rest;
      assert LoginWords(login)[0] == Sets(c, login, env)[0];
      assert rest[0] == "HOME=" + login.home;
      assert rest[0][0] == 'H';
    }
  }
}
