/** The command that changes directory, records its process, installs the clean-up trap and runs the launcher. */
module RemoteCommand {
  import opened Basics
  import opened ShellWords
  import opened Launcher

  const PRINT := " && umask 077 && printf"
  const RECORD_PID := PRINT + " '%s\\n'" + " \"$$\"" + " >"
  const SIGNALS := " EXIT HUP INT TERM;"
  const KEEP_STATUS := "; runtime_exit_code=$?; rm -rf --"
  const LEAVE := "; trap -" + SIGNALS + " exit $runtime_exit_code"

  function Cleanup(control: string): (s: string) {
    "rm -rf --" + " " + Quote(control)
  }

  function BuildRemoteCommand(directory: OsText, control: string): (r: Result<string>) {
    if directory.NotUtf8? then Err(InvalidUtf8("working directory"))
    else
      Ok("cd --" + " " + Quote(directory.text) + RECORD_PID + " " + Quote(control + "/pid") + " && trap" + " " + Quote(Cleanup(control))
         + SIGNALS + " " + Quote(control + "/launch") + KEEP_STATUS + " " + Quote(control) + LEAVE)
  }

  // --- reading the fixed parts ---

  ghost predicate At(r: Reader, tokens: seq<Token>) {
    r.mode == Plain && r.inside.None? && EndWord(r).tokens == tokens
  }

  lemma AtBare(r: Reader, env: Parameters, tokens: seq<Token>, w: string)
    requires At(r, tokens) && Bare(w)
    ensures At(ReadAll(r, env, " " + w), tokens + [Word(w)])
  {
    ReadAllConcat(r, env, " ", w);
    ReadBlank(r, env);
    ReadBareWord(EndWord(r), env, w);
  }

  lemma AtSemicolon(r: Reader, env: Parameters, tokens: seq<Token>)
    requires At(r, tokens)
    ensures At(ReadAll(r, env, ";"), tokens + [Op(";")])
  {
    ReadOne(r, env, ';');
  }

  lemma AtAnd(r: Reader, env: Parameters, tokens: seq<Token>)
    requires At(r, tokens)
    ensures At(ReadAll(r, env, " &&"), tokens + [Op("&&")])
  {
    hide ReadAll;
    assert " &&" == [' '] + ['&'] + ['&'];
    ReadAllConcat(r, env, [' '] + ['&'], ['&']);
    ReadAllConcat(r, env, [' '], ['&']);
    var r1 := EndWord(r);
    ReadOne(r, env, ' ');
    ReadOne(r1, env, '&');
    ReadOne(r1.(mode := Ampersand), env, '&');
  }

  lemma AtRedirect(r: Reader, env: Parameters, tokens: seq<Token>)
    requires At(r, tokens)
    ensures At(ReadAll(r, env, " >"), tokens + [Op(">")])
  {
    hide ReadAll;
    assert " >" == [' '] + ['>'];
    ReadAllConcat(r, env, [' '], ['>']);
    ReadOne(r, env, ' ');
    ReadOne(EndWord(r), env, '>');
  }

  lemma AtQuoted(r: Reader, env: Parameters, tokens: seq<Token>, v: string)
    requires At(r, tokens)
    ensures At(ReadAll(r, env, " " + Quote(v)), tokens + [Word(v)])
  {
    ReadAllConcat(r, env, " ", Quote(v));
    ReadBlank(r, env);
    ReadQuoted(EndWord(r), env, v);
    assert "" + v == v;
  }

  /** `"$$"` is the process number as one word. */
  lemma AtPid(r: Reader, env: Parameters, tokens: seq<Token>)
    requires At(r, tokens) && "$" in env
    ensures At(ReadAll(r, env, " \"$$\""), tokens + [Word(env["$"])])
  {
    hide ReadAll;
    assert " \"$$\"" == [' '] + ['"'] + ['$'] + ['$'] + ['"'];
    ReadAllConcat(r, env, [' '] + ['"'] + ['$'] + ['$'], ['"']);
    ReadAllConcat(r, env, [' '] + ['"'] + ['$'], ['$']);
    ReadAllConcat(r, env, [' '] + ['"'], ['$']);
    ReadAllConcat(r, env, [' '], ['"']);
    var r1 := EndWord(r);
    ReadOne(r, env, ' ');
    ReadOne(r1, env, '"');
    assert "" + "" == "";
    var r2 := r1.(word := Some(""), mode := DoubleQuoted);
    ReadOne(r2, env, '$');
    ReadOne(r2.(mode := Dollar(true)), env, '$');
    assert "" + env["$"] == env["$"];
    ReadOne(r2.(word := Some(env["$"])), env, '"');
  }

  /** A value that needs no quotes, such as an exit status. */
  ghost predicate PlainValue(env: Parameters, name: string) {
    name in env && Bare(env[name])
  }

  lemma AtStatus(r: Reader, env: Parameters, tokens: seq<Token>)
    requires At(r, tokens) && PlainValue(env, "?")
    ensures At(ReadAll(r, env, " runtime_exit_code=$?"), tokens + [Word("runtime_exit_code=" + env["?"])])
  {
    hide ReadAll;
    var name := "runtime_exit_code=";
    assert " runtime_exit_code=$?" == [' '] + name + ['$'] + ['?'];
    ReadAllConcat(r, env, [' '] + name + ['$'], ['?']);
    ReadAllConcat(r, env, [' '] + name, ['$']);
    ReadAllConcat(r, env, [' '], name);
    var r1 := EndWord(r);
    ReadOne(r, env, ' ');
    ReadBareWord(r1, env, name);
    ReadOne(r1.(word := Some(name)), env, '$');
    ReadOne(r1.(word := Some(name), mode := Dollar(false)), env, '?');
  }

  lemma ReadsPrint(r: Reader, env: Parameters, tokens: seq<Token>)
    requires At(r, tokens)
    ensures At(ReadAll(r, env, PRINT), tokens + [Op("&&"), Word("umask"), Word("077"), Op("&&"), Word("printf")])
  {
    hide ReadAll;
    hide At;
    var a, b, c, d, e := " &&", " " + "umask", " " + "077", " &&", " " + "printf";
    assert PRINT == a + b + c + d + e;
    ReadAllConcat(r, env, a + b + c + d, e);
    ReadAllConcat(r, env, a + b + c, d);
    ReadAllConcat(r, env, a + b, c);
    ReadAllConcat(r, env, a, b);
    AtAnd(r, env, tokens);
    var r1, t1 := ReadAll(r, env, a), tokens + [Op("&&")];
    AtBare(r1, env, t1, "umask");
    var r2, t2 := ReadAll(r1, env, b), t1 + [Word("umask")];
    AtBare(r2, env, t2, "077");
    var r3, t3 := ReadAll(r2, env, c), t2 + [Word("077")];
    AtAnd(r3, env, t3);
    var r4, t4 := ReadAll(r3, env, d), t3 + [Op("&&")];
    AtBare(r4, env, t4, "printf");
    assert t4 + [Word("printf")] == tokens + [Op("&&"), Word("umask"), Word("077"), Op("&&"), Word("printf")];
  }

  lemma ReadsRecordPid(r: Reader, env: Parameters, tokens: seq<Token>)
    requires At(r, tokens) && "$" in env
    ensures At(ReadAll(r, env, RECORD_PID),
               tokens + [Op("&&"), Word("umask"), Word("077"), Op("&&"), Word("printf"), Word("%s\\n"), Word(env["$"]), Op(">")])
  {
    hide ReadAll;
    hide At;
    hide Quote;
    QuoteFormat();
    var format, pid := " " + Quote("%s\\n"), " \"$$\"";
    assert " '%s\\n'" == " " + "'%s\\n'";
    assert RECORD_PID == PRINT + format + pid + " >";
    ReadAllConcat(r, env, PRINT + format + pid, " >");
    ReadAllConcat(r, env, PRINT + format, pid);
    ReadAllConcat(r, env, PRINT, format);
    ReadsPrint(r, env, tokens);
    var r1, t1 := ReadAll(r, env, PRINT), tokens + [Op("&&"), Word("umask"), Word("077"), Op("&&"), Word("printf")];
    AtQuoted(r1, env, t1, "%s\\n");
    var r2, t2 := ReadAll(r1, env, format), t1 + [Word("%s\\n")];
    AtPid(r2, env, t2);
    var r3, t3 := ReadAll(r2, env, pid), t2 + [Word(env["$"])];
    AtRedirect(r3, env, t3);
    assert t3 + [Op(">")] ==
           tokens + [Op("&&"), Word("umask"), Word("077"), Op("&&"), Word("printf"), Word("%s\\n"), Word(env["$"]), Op(">")];
  }

  lemma QuoteFormat()
    ensures Quote("%s\\n") == "'%s\\n'"
  {
    assert Escape("%s\\n"[1..][1..][1..][1..]) == "";
    var s := "%s\\n";
    assert s[1..] == "s\\n" && s[1..][1..] == "\\n" && s[1..][1..][1..] == "n" && s[1..][1..][1..][1..] == "";
    assert Escape("n") == "n";
    assert Escape("\\n") == "\\n";
    assert Escape("s\\n") == "s\\n";
  }

  lemma ReadsTrap(r: Reader, env: Parameters, tokens: seq<Token>)
    requires At(r, tokens)
    ensures At(ReadAll(r, env, " && trap"), tokens + [Op("&&"), Word("trap")])
  {
    hide ReadAll;
    hide At;
    var b := " " + "trap";
    assert " && trap" == " &&" + b;
    ReadAllConcat(r, env, " &&", b);
    AtAnd(r, env, tokens);
    AtBare(ReadAll(r, env, " &&"), env, tokens + [Op("&&")], "trap");
    assert tokens + [Op("&&")] + [Word("trap")] == tokens + [Op("&&"), Word("trap")];
  }

  lemma ReadsSignals(r: Reader, env: Parameters, tokens: seq<Token>)
    requires At(r, tokens)
    ensures At(ReadAll(r, env, SIGNALS), tokens + [Word("EXIT"), Word("HUP"), Word("INT"), Word("TERM"), Op(";")])
  {
    hide ReadAll;
    hide At;
    var a, b, c, d := " " + "EXIT", " " + "HUP", " " + "INT", " " + "TERM";
    assert SIGNALS == a + b + c + d + ";";
    ReadAllConcat(r, env, a + b + c + d, ";");
    ReadAllConcat(r, env, a + b + c, d);
    ReadAllConcat(r, env, a + b, c);
    ReadAllConcat(r, env, a, b);
    AtBare(r, env, tokens, "EXIT");
    var r1, t1 := ReadAll(r, env, a), tokens + [Word("EXIT")];
    AtBare(r1, env, t1, "HUP");
    var r2, t2 := ReadAll(r1, env, b), t1 + [Word("HUP")];
    AtBare(r2, env, t2, "INT");
    var r3, t3 := ReadAll(r2, env, c), t2 + [Word("INT")];
    AtBare(r3, env, t3, "TERM");
    var r4, t4 := ReadAll(r3, env, d), t3 + [Word("TERM")];
    AtSemicolon(r4, env, t4);
    assert t4 + [Op(";")] == tokens + [Word("EXIT"), Word("HUP"), Word("INT"), Word("TERM"), Op(";")];
  }

  lemma ReadsRemove(r: Reader, env: Parameters, tokens: seq<Token>)
    requires At(r, tokens)
    ensures At(ReadAll(r, env, " rm -rf --"), tokens + [Word("rm"), Word("-rf"), Word("--")])
  {
    hide ReadAll;
    hide At;
    var a, b, c := " " + "rm", " " + "-rf", " " + "--";
    assert " rm -rf --" == a + b + c;
    ReadAllConcat(r, env, a + b, c);
    ReadAllConcat(r, env, a, b);
    AtBare(r, env, tokens, "rm");
    var r1, t1 := ReadAll(r, env, a), tokens + [Word("rm")];
    AtBare(r1, env, t1, "-rf");
    var r2, t2 := ReadAll(r1, env, b), t1 + [Word("-rf")];
    AtBare(r2, env, t2, "--");
    assert t2 + [Word("--")] == tokens + [Word("rm"), Word("-rf"), Word("--")];
  }

  lemma ReadsKeepStatus(r: Reader, env: Parameters, tokens: seq<Token>)
    requires At(r, tokens) && PlainValue(env, "?")
    ensures At(ReadAll(r, env, KEEP_STATUS),
               tokens + [Op(";"), Word("runtime_exit_code=" + env["?"]), Op(";"), Word("rm"), Word("-rf"), Word("--")])
  {
    hide ReadAll;
    hide At;
    var status, remove := " runtime_exit_code=$?", " rm -rf --";
    assert KEEP_STATUS == ";" + status + ";" + remove;
    ReadAllConcat(r, env, ";" + status + ";", remove);
    ReadAllConcat(r, env, ";" + status, ";");
    ReadAllConcat(r, env, ";", status);
    AtSemicolon(r, env, tokens);
    var r1, t1 := ReadAll(r, env, ";"), tokens + [Op(";")];
    AtStatus(r1, env, t1);
    var r2, t2 := ReadAll(r1, env, status), t1 + [Word("runtime_exit_code=" + env["?"])];
    AtSemicolon(r2, env, t2);
    var r3, t3 := ReadAll(r2, env, ";"), t2 + [Op(";")];
    ReadsRemove(r3, env, t3);
    assert t3 + [Word("rm"), Word("-rf"), Word("--")] ==
           tokens + [Op(";"), Word("runtime_exit_code=" + env["?"]), Op(";"), Word("rm"), Word("-rf"), Word("--")];
  }

  /** The last parameter is read up to the end of the command. */
  ghost predicate Ends(r: Reader, env: Parameters, tokens: seq<Token>) {
    var f := Finish(r, env);
    f.mode == Plain && f.inside.None? && f.tokens == tokens
  }

  lemma EndsExit(r: Reader, env: Parameters, tokens: seq<Token>)
    requires At(r, tokens) && PlainValue(env, "runtime_exit_code")
    ensures Ends(ReadAll(r, env, " exit $runtime_exit_code"), env, tokens + [Word("exit"), Word(env["runtime_exit_code"])])
  {
    hide ReadAll;
    var a, n := " " + "exit", "runtime_exit_code";
    assert " exit $runtime_exit_code" == a + [' '] + ['$'] + n;
    ReadAllConcat(r, env, a + [' '] + ['$'], n);
    ReadAllConcat(r, env, a + [' '], ['$']);
    ReadAllConcat(r, env, a, [' ']);
    AtBare(r, env, tokens, "exit");
    var r1 := ReadAll(r, env, a);
    ReadOne(r1, env, ' ');
    var r2 := EndWord(r1);
    ReadOne(r2, env, '$');
    ReadWholeName(r2.(mode := Dollar(false)), env, n);
    assert "" + env[n] == env[n];
    assert tokens + [Word("exit")] + [Word(env[n])] == tokens + [Word("exit"), Word(env[n])];
  }

  lemma ReadsLeave(r: Reader, env: Parameters, tokens: seq<Token>)
    requires At(r, tokens) && PlainValue(env, "runtime_exit_code")
    ensures Ends(ReadAll(r, env, LEAVE), env,
                 tokens + [Op(";"), Word("trap"), Word("-"), Word("EXIT"), Word("HUP"), Word("INT"), Word("TERM"), Op(";"),
                           Word("exit"), Word(env["runtime_exit_code"])])
  {
    hide ReadAll;
    hide At;
    hide Ends;
    var a, b, exit := " " + "trap", " " + "-", " exit $runtime_exit_code";
    assert "; trap -" == ";" + a + b;
    assert LEAVE == ";" + a + b + SIGNALS + exit;
    ReadAllConcat(r, env, ";" + a + b + SIGNALS, exit);
    ReadAllConcat(r, env, ";" + a + b, SIGNALS);
    ReadAllConcat(r, env, ";" + a, b);
    ReadAllConcat(r, env, ";", a);
    AtSemicolon(r, env, tokens);
    var r1, t1 := ReadAll(r, env, ";"), tokens + [Op(";")];
    AtBare(r1, env, t1, "trap");
    var r2, t2 := ReadAll(r1, env, a), t1 + [Word("trap")];
    AtBare(r2, env, t2, "-");
    var r3, t3 := ReadAll(r2, env, b), t2 + [Word("-")];
    ReadsSignals(r3, env, t3);
    var r4, t4 := ReadAll(r3, env, SIGNALS), t3 + [Word("EXIT"), Word("HUP"), Word("INT"), Word("TERM"), Op(";")];
    EndsExit(r4, env, t4);
    assert t4 + [Word("exit"), Word(env["runtime_exit_code"])] ==
           tokens + [Op(";"), Word("trap"), Word("-"), Word("EXIT"), Word("HUP"), Word("INT"), Word("TERM"), Op(";"),
                     Word("exit"), Word(env["runtime_exit_code"])];
  }

  // --- the whole command ---

  lemma AtStart(env: Parameters, a: string, b: string)
    requires Bare(a) && Bare(b)
    ensures At(ReadAll(START, env, a + " " + b), [Word(a)] + [Word(b)])
  {
    ReadAllConcat(START, env, a + " ", b);
    ReadAllConcat(START, env, a, " ");
    ReadBareWord(START, env, a);
    ReadBlank(START.(word := Some(a)), env);
    ReadBareWord(EndWord(START.(word := Some(a))), env, b);
  }

  function CommandTokens(directory: string, control: string, env: Parameters): (t: seq<Token>)
    requires "$" in env && "?" in env && "runtime_exit_code" in env
  {
    [Word("cd"), Word("--"), Word(directory)]
    + [Op("&&"), Word("umask"), Word("077"), Op("&&"), Word("printf"), Word("%s\\n"), Word(env["$"]), Op(">")]
    + [Word(control + "/pid")]
    + [Op("&&"), Word("trap")] + [Word(Cleanup(control))]
    + [Word("EXIT"), Word("HUP"), Word("INT"), Word("TERM"), Op(";")] + [Word(control + "/launch")]
    + [Op(";"), Word("runtime_exit_code=" + env["?"]), Op(";"), Word("rm"), Word("-rf"), Word("--")] + [Word(control)]
    + [Op(";"), Word("trap"), Word("-"), Word("EXIT"), Word("HUP"), Word("INT"), Word("TERM"), Op(";"),
       Word("exit"), Word(env["runtime_exit_code"])]
  }

  /** The first half: up to the trapped clean-up command. */
  lemma ReadsFirstHalf(directory: string, control: string, env: Parameters)
    requires "$" in env
    ensures At(ReadAll(START, env, "cd --" + " " + Quote(directory) + RECORD_PID + " " + Quote(control + "/pid") + " && trap" + " " + Quote(Cleanup(control))),
               [Word("cd"), Word("--"), Word(directory)]
               + [Op("&&"), Word("umask"), Word("077"), Op("&&"), Word("printf"), Word("%s\\n"), Word(env["$"]), Op(">")]
               + [Word(control + "/pid")]
               + [Op("&&"), Word("trap")] + [Word(Cleanup(control))])
  {
    hide ReadAll;
    hide At;
    hide Quote;
    hide Cleanup;
    var d, p, c := " " + Quote(directory), " " + Quote(control + "/pid"), " " + Quote(Cleanup(control));
    var cd := "cd" + " " + "--";
    assert "cd --" == cd;
    assert "cd --" + " " + Quote(directory) + RECORD_PID + " " + Quote(control + "/pid") + " && trap" + " " + Quote(Cleanup(control))
        == cd + d + RECORD_PID + p + " && trap" + c;
    ReadAllConcat(START, env, cd + d + RECORD_PID + p + " && trap", c);
    ReadAllConcat(START, env, cd + d + RECORD_PID + p, " && trap");
    ReadAllConcat(START, env, cd + d + RECORD_PID, p);
    ReadAllConcat(START, env, cd + d, RECORD_PID);
    ReadAllConcat(START, env, cd, d);
    AtStart(env, "cd", "--");
    var r1, t1 := ReadAll(START, env, cd), [Word("cd")] + [Word("--")];
    AtQuoted(r1, env, t1, directory);
    var r2, t2 := ReadAll(r1, env, d), t1 + [Word(directory)];
    assert t2 == [Word("cd"), Word("--"), Word(directory)];
    ReadsRecordPid(r2, env, t2);
    var r3, t3 := ReadAll(r2, env, RECORD_PID), t2 + [Op("&&"), Word("umask"), Word("077"), Op("&&"), Word("printf"), Word("%s\\n"), Word(env["$"]), Op(">")];
    AtQuoted(r3, env, t3, control + "/pid");
    var r4, t4 := ReadAll(r3, env, p), t3 + [Word(control + "/pid")];
    ReadsTrap(r4, env, t4);
    AtQuoted(ReadAll(r4, env, " && trap"), env, t4 + [Op("&&"), Word("trap")], Cleanup(control));
  }

  lemma ReadsSecondHalf(r: Reader, control: string, env: Parameters, tokens: seq<Token>)
    requires At(r, tokens) && PlainValue(env, "?") && PlainValue(env, "runtime_exit_code")
    ensures Ends(ReadAll(r, env, SIGNALS + " " + Quote(control + "/launch") + KEEP_STATUS + " " + Quote(control) + LEAVE), env,
                 tokens + [Word("EXIT"), Word("HUP"), Word("INT"), Word("TERM"), Op(";")] + [Word(control + "/launch")]
                 + [Op(";"), Word("runtime_exit_code=" + env["?"]), Op(";"), Word("rm"), Word("-rf"), Word("--")] + [Word(control)]
                 + [Op(";"), Word("trap"), Word("-"), Word("EXIT"), Word("HUP"), Word("INT"), Word("TERM"), Op(";"),
                    Word("exit"), Word(env["runtime_exit_code"])])
  {
    hide ReadAll;
    hide At;
    hide Ends;
    hide Quote;
    var l, c := " " + Quote(control + "/launch"), " " + Quote(control);
    assert SIGNALS + " " + Quote(control + "/launch") + KEEP_STATUS + " " + Quote(control) + LEAVE
        == SIGNALS + l + KEEP_STATUS + c + LEAVE;
    ReadAllConcat(r, env, SIGNALS + l + KEEP_STATUS + c, LEAVE);
    ReadAllConcat(r, env, SIGNALS + l + KEEP_STATUS, c);
    ReadAllConcat(r, env, SIGNALS + l, KEEP_STATUS);
    ReadAllConcat(r, env, SIGNALS, l);
    ReadsSignals(r, env, tokens);
    var r1, t1 := ReadAll(r, env, SIGNALS), tokens + [Word("EXIT"), Word("HUP"), Word("INT"), Word("TERM"), Op(";")];
    AtQuoted(r1, env, t1, control + "/launch");
    var r2, t2 := ReadAll(r1, env, l), t1 + [Word(control + "/launch")];
    ReadsKeepStatus(r2, env, t2);
    var r3, t3 := ReadAll(r2, env, KEEP_STATUS), t2 + [Op(";"), Word("runtime_exit_code=" + env["?"]), Op(";"), Word("rm"), Word("-rf"), Word("--")];
    AtQuoted(r3, env, t3, control);
    ReadsLeave(ReadAll(r3, env, c), env, t3 + [Word(control)]);
  }

  /** The shell reads the command as intended: each path is one word, and the clean-up command is one word. */
  lemma CommandReads(directory: OsText, control: string, env: Parameters)
    requires "$" in env && PlainValue(env, "?") && PlainValue(env, "runtime_exit_code")
    ensures BuildRemoteCommand(directory, control).Err? <==> directory.NotUtf8?
    ensures directory.Utf8? ==>
              Tokens(BuildRemoteCommand(directory, control).value, env) == Some(CommandTokens(directory.text, control, env))
  {
    if directory.Utf8? {
      hide ReadAll;
      hide Quote;
      hide Cleanup;
      var first := "cd --" + " " + Quote(directory.text) + RECORD_PID + " " + Quote(control + "/pid") + " && trap" + " " + Quote(Cleanup(control));
      var second := SIGNALS + " " + Quote(control + "/launch") + KEEP_STATUS + " " + Quote(control) + LEAVE;
      CommandSplits(directory.text, control);
      ReadAllConcat(START, env, first, second);
      ReadsFirstHalf(directory.text, control, env);
      var tokens := [Word("cd"), Word("--"), Word(directory.text)]
        + [Op("&&"), Word("umask"), Word("077"), Op("&&"), Word("printf"), Word("%s\\n"), Word(env["$"]), Op(">")]
        + [Word(control + "/pid")]
        + [Op("&&"), Word("trap")] + [Word(Cleanup(control))];
      ReadsSecondHalf(ReadAll(START, env, first), control, env, tokens);
    }
  }

  lemma Regroup(x: string, s: string, l: string, k: string, c: string, v: string)
    ensures x + s + " " + l + k + " " + c + v == x + (s + " " + l + k + " " + c + v)
  {
    assert x + s + " " == x + (s + " ");
    assert x + s + " " + l == x + (s + " " + l);
    assert x + s + " " + l + k == x + (s + " " + l + k);
    assert x + s + " " + l + k + " " == x + (s + " " + l + k + " ");
  }

  lemma CommandSplits(directory: string, control: string)
    ensures BuildRemoteCommand(Utf8(directory), control).value ==
              ("cd --" + " " + Quote(directory) + RECORD_PID + " " + Quote(control + "/pid") + " && trap" + " " + Quote(Cleanup(control)))
              + (SIGNALS + " " + Quote(control + "/launch") + KEEP_STATUS + " " + Quote(control) + LEAVE)
  {
    hide Quote;
    hide Cleanup;
    Regroup("cd --" + " " + Quote(directory) + RECORD_PID + " " + Quote(control + "/pid") + " && trap" + " " + Quote(Cleanup(control)),
            SIGNALS, Quote(control + "/launch"), KEEP_STATUS, Quote(control), LEAVE);
  }

  /** Read a second time, as the trap does, the clean-up word removes exactly the control directory. */
  lemma TrapUnquotes(control: string, env: Parameters)
    ensures Tokens(Cleanup(control), env) == Some([Word("rm"), Word("-rf"), Word("--"), Word(control)])
  {
    hide ReadAll;
    hide Quote;
    var rm := "rm" + " " + "-rf";
    var dashes, c := " " + "--", " " + Quote(control);
    assert "rm -rf --" == rm + dashes;
    assert Cleanup(control) == rm + dashes + c;
    ReadAllConcat(START, env, rm + dashes, c);
    ReadAllConcat(START, env, rm, dashes);
    AtStart(env, "rm", "-rf");
    var r1, t1 := ReadAll(START, env, rm), [Word("rm")] + [Word("-rf")];
    AtBare(r1, env, t1, "--");
    var r2, t2 := ReadAll(r1, env, dashes), t1 + [Word("--")];
    AtQuoted(r2, env, t2, control);
    ReadsTokens(Cleanup(control), env, t2 + [Word(control)]);
    assert t2 + [Word(control)] == [Word("rm"), Word("-rf"), Word("--"), Word(control)];
  }

  // --- the status that is returned ---

  /** The length of the part of a word before its first equals sign. */
  function NameLength(word: string): (n: nat)
    ensures n <= |word|
    decreases |word|
  {
    if word == "" || word[0] == '=' then 0 else 1 + NameLength(word[1..])
  }

  /** The parameters after an assignment word of the form `name=value` (section 2.9.1). */
  function Assign(env: Parameters, word: string): (r: Parameters) {
    var n := NameLength(word);
    if n < |word| then env[word[..n] := word[n + 1..]] else env
  }

  lemma {:induction false} NameLengthIs(name: string, value: string)
    requires forall i :: 0 <= i < |name| ==> name[i] != '='
    ensures NameLength(name + "=" + value) == |name|
    decreases |name|
  {
    var word := name + "=" + value;
    if name == "" {
      assert word[0] == '=';
    } else {
      assert word[1..] == name[1..] + "=" + value;
      NameLengthIs(name[1..], value);
    }
  }

  lemma AssignSets(env: Parameters, name: string, value: string)
    requires forall i :: 0 <= i < |name| ==> name[i] != '='
    ensures Assign(env, name + "=" + value) == env[name := value]
  {
    NameLengthIs(name, value);
    var word := name + "=" + value;
    assert word[..|name|] == name && word[|name| + 1..] == value;
  }

  /** The command exits with the status that the launcher left: the word that saves it and the word that
      is returned carry the same value, whatever the variable held before. */
  lemma CommandReturnsStatus(directory: string, control: string, env: Parameters)
    requires "$" in env && PlainValue(env, "?")
    ensures var saved := Assign(env, "runtime_exit_code=" + env["?"]);
            var read := Tokens(BuildRemoteCommand(Utf8(directory), control).value, saved);
            && read.Some? && |read.value| >= 2
            && Word("runtime_exit_code=" + env["?"]) in read.value
            && read.value[|read.value| - 2..] == [Word("exit"), Word(env["?"])]
  {
    hide Tokens;
    hide BuildRemoteCommand;
    hide Cleanup;
    var name := "runtime_exit_code";
    assert "runtime_exit_code=" + env["?"] == name + "=" + env["?"];
    AssignSets(env, name, env["?"]);
    var saved := env[name := env["?"]];
    CommandReads(Utf8(directory), control, saved);
    LastTokens(directory, control, saved);
  }

  lemma LastTokens(directory: string, control: string, env: Parameters)
    requires "$" in env && "?" in env && "runtime_exit_code" in env
    ensures var t := CommandTokens(directory, control, env);
            && |t| >= 2 && t[|t| - 2..] == [Word("exit"), Word(env["runtime_exit_code"])]
            && Word("runtime_exit_code=" + env["?"]) in t
  {
    hide Cleanup;
    var t := CommandTokens(directory, control, env);
    assert t[22] == Word("runtime_exit_code=" + env["?"]);
  }
}
