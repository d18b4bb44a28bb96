/** Which commands the remote command line runs, by the rules for lists (section 2.9.3 of the POSIX Shell Command Language). */
module CommandRun {
  import opened Basics
  import opened ShellWords
  import opened Launcher
  import opened RemoteCommand

  type Simple = seq<Token>

  /** The parts between occurrences of an operator. */
  function Split(tokens: seq<Token>, op: string): (parts: seq<seq<Token>>)
    ensures parts != []
    decreases |tokens|
  {
    if tokens == [] then [[]]
    else
      var rest := Split(tokens[1..], op);
      if tokens[0] == Op(op) then [[]] + rest else [[tokens[0]] + rest[0]] + rest[1..]
  }

  /** In a list joined by `&&` each command runs only if the one before it succeeded. */
  function RunAnd(commands: seq<Simple>, ok: Simple -> bool): (ran: seq<Simple>)
    decreases |commands|
  {
    if commands == [] then []
    else [commands[0]] + if ok(commands[0]) then RunAnd(commands[1..], ok) else []
  }

  /** Lists separated by `;` run one after the other, whatever became of the one before. */
  function RunLists(lists: seq<seq<Token>>, ok: Simple -> bool): (ran: seq<Simple>)
    decreases |lists|
  {
    if lists == [] then [] else RunAnd(Split(lists[0], "&&"), ok) + RunLists(lists[1..], ok)
  }

  function Ran(tokens: seq<Token>, ok: Simple -> bool): (ran: seq<Simple>) {
    RunLists(Split(tokens, ";"), ok)
  }

  lemma {:induction false} SplitAt(a: seq<Token>, op: string, b: seq<Token>)
    requires Op(op) !in a
    ensures Split(a + ([Op(op)] + b), op) == [a] + Split(b, op)
    decreases |a|
  {
    if a == [] {
      assert a + ([Op(op)] + b) == [Op(op)] + b;
      assert ([Op(op)] + b)[1..] == b;
    } else {
      assert (a + ([Op(op)] + b))[1..] == a[1..] + ([Op(op)] + b);
      SplitAt(a[1..], op, b);
      assert [a[0]] + a[1..] == a;
      assert ([a[1..]] + Split(b, op))[1..] == Split(b, op);
    }
  }

  lemma {:induction false} SplitNone(a: seq<Token>, op: string)
    requires Op(op) !in a
    ensures Split(a, op) == [a]
    decreases |a|
  {
    if a != [] {
      SplitNone(a[1..], op);
      assert [a[0]] + a[1..] == a;
    }
  }

  lemma RunOne(list: seq<Token>, rest: seq<seq<Token>>, ok: Simple -> bool)
    requires Op("&&") !in list
    ensures RunLists([list] + rest, ok) == [list] + RunLists(rest, ok)
  {
    SplitNone(list, "&&");
    hide Split;
    assert ([list] + rest)[1..] == rest;
    assert [list][1..] == [] && RunAnd([], ok) == [];
    assert RunAnd([list], ok) == [list];
  }

  lemma ThenRun(list: seq<Token>, tokens: seq<Token>, ok: Simple -> bool)
    requires Op("&&") !in list && Op(";") !in list
    ensures Ran(list + ([Op(";")] + tokens), ok) == [list] + Ran(tokens, ok)
  {
    SplitAt(list, ";", tokens);
    RunOne(list, Split(tokens, ";"), ok);
  }

  // --- the command line ---

  function ChangeDirectory(directory: string): (c: Simple) {
    [Word("cd"), Word("--"), Word(directory)]
  }

  const RESTRICT: Simple := [Word("umask"), Word("077")]

  function RecordProcess(control: string, pid: string): (c: Simple) {
    [Word("printf"), Word("%s\\n"), Word(pid), Op(">"), Word(control + "/pid")]
  }

  function InstallTrap(control: string): (c: Simple) {
    [Word("trap"), Word(Cleanup(control)), Word("EXIT"), Word("HUP"), Word("INT"), Word("TERM")]
  }

  function Launch(control: string): (c: Simple) {
    [Word(control + "/launch")]
  }

  function SaveStatus(status: string): (c: Simple) {
    [Word("runtime_exit_code=" + status)]
  }

  function Remove(control: string): (c: Simple) {
    [Word("rm"), Word("-rf"), Word("--"), Word(control)]
  }

  const CLEAR_TRAP: Simple := [Word("trap"), Word("-"), Word("EXIT"), Word("HUP"), Word("INT"), Word("TERM")]

  function Leave(status: string): (c: Simple) {
    [Word("exit"), Word(status)]
  }

  /** The preparation: each step only if all before it succeeded. */
  function Prepared(directory: string, control: string, pid: string, ok: Simple -> bool): (ran: seq<Simple>) {
    if !ok(ChangeDirectory(directory)) then [ChangeDirectory(directory)]
    else if !ok(RESTRICT) then [ChangeDirectory(directory), RESTRICT]
    else if !ok(RecordProcess(control, pid)) then [ChangeDirectory(directory), RESTRICT, RecordProcess(control, pid)]
    else [ChangeDirectory(directory), RESTRICT, RecordProcess(control, pid), InstallTrap(control)]
  }

  lemma PreparationTokens(directory: string, control: string, pid: string)
    ensures Preparation(directory, control, pid) + [Op(";")] ==
              [Word("cd"), Word("--"), Word(directory)]
              + [Op("&&"), Word("umask"), Word("077"), Op("&&"), Word("printf"), Word("%s\\n"), Word(pid), Op(">")]
              + [Word(control + "/pid")]
              + [Op("&&"), Word("trap")] + [Word(Cleanup(control))]
              + [Word("EXIT"), Word("HUP"), Word("INT"), Word("TERM"), Op(";")]
  {
    hide Cleanup;
  }

  /** What follows the preparation. */
  function Conclusion(control: string, status: string, saved: string): (t: seq<Token>) {
    Launch(control) + ([Op(";")] + (SaveStatus(status) + ([Op(";")] + (Remove(control) + ([Op(";")] + (CLEAR_TRAP + ([Op(";")] + Leave(saved))))))))
  }

  lemma ConclusionTokens(control: string, status: string, saved: string)
    ensures Conclusion(control, status, saved) ==
              [Word(control + "/launch")]
              + [Op(";"), Word("runtime_exit_code=" + status), Op(";"), Word("rm"), Word("-rf"), Word("--")] + [Word(control)]
              + [Op(";"), Word("trap"), Word("-"), Word("EXIT"), Word("HUP"), Word("INT"), Word("TERM"), Op(";"),
                 Word("exit"), Word(saved)]
  {
  }

  lemma TokensSplit(directory: string, control: string, env: Parameters)
    requires "$" in env && "?" in env && "runtime_exit_code" in env
    ensures CommandTokens(directory, control, env) ==
              Preparation(directory, control, env["$"]) + ([Op(";")] + Conclusion(control, env["?"], env["runtime_exit_code"]))
  {
    PreparationTokens(directory, control, env["$"]);
    ConclusionTokens(control, env["?"], env["runtime_exit_code"]);
    hide Cleanup;
    hide Preparation;
    hide Conclusion;
    var first := Preparation(directory, control, env["$"]);
    var second := Conclusion(control, env["?"], env["runtime_exit_code"]);
    assert first + ([Op(";")] + second) == first + [Op(";")] + second;
  }

  function Preparation(directory: string, control: string, pid: string): (t: seq<Token>) {
    ChangeDirectory(directory) + ([Op("&&")] + (RESTRICT + ([Op("&&")] + (RecordProcess(control, pid) + ([Op("&&")] + InstallTrap(control))))))
  }

  lemma NoOperators(directory: string, control: string, pid: string)
    ensures Op("&&") !in ChangeDirectory(directory) && Op("&&") !in RESTRICT
    ensures Op("&&") !in RecordProcess(control, pid) && Op("&&") !in InstallTrap(control)
    ensures Op(";") !in Preparation(directory, control, pid)
  {
    hide Cleanup;
    assert "&&" != ">" && ";" != ">" && ";" != "&&";
  }

  lemma PreparationSplits(directory: string, control: string, pid: string)
    ensures Split(Preparation(directory, control, pid), "&&") ==
              [ChangeDirectory(directory), RESTRICT, RecordProcess(control, pid), InstallTrap(control)]
  {
    NoOperators(directory, control, pid);
    hide ChangeDirectory;
    hide RecordProcess;
    hide InstallTrap;
    var cd, record, trap := ChangeDirectory(directory), RecordProcess(control, pid), InstallTrap(control);
    SplitAt(cd, "&&", RESTRICT + ([Op("&&")] + (record + ([Op("&&")] + trap))));
    SplitAt(RESTRICT, "&&", record + ([Op("&&")] + trap));
    SplitAt(record, "&&", trap);
    SplitNone(trap, "&&");
    hide Split;
  }

  lemma PreparationRuns(directory: string, control: string, pid: string, tokens: seq<Token>, ok: Simple -> bool)
    ensures Ran(Preparation(directory, control, pid) + ([Op(";")] + tokens), ok) ==
              Prepared(directory, control, pid, ok) + Ran(tokens, ok)
  {
    NoOperators(directory, control, pid);
    PreparationSplits(directory, control, pid);
    PreparedIsRun(directory, control, pid, ok);
    hide Preparation;
    hide Prepared;
    hide RunAnd;
    hide ChangeDirectory;
    hide RecordProcess;
    hide InstallTrap;
    var list := Preparation(directory, control, pid);
    SplitAt(list, ";", tokens);
    hide Split;
    var lists := [list] + Split(tokens, ";");
    assert lists[1..] == Split(tokens, ";");
  }

  lemma PreparedIsRun(directory: string, control: string, pid: string, ok: Simple -> bool)
    ensures RunAnd([ChangeDirectory(directory), RESTRICT, RecordProcess(control, pid), InstallTrap(control)], ok) ==
              Prepared(directory, control, pid, ok)
  {
    hide ChangeDirectory;
    hide RecordProcess;
    hide InstallTrap;
    var cd, record, trap := ChangeDirectory(directory), RecordProcess(control, pid), InstallTrap(control);
    var all := [cd, RESTRICT, record, trap];
    assert all[1..] == [RESTRICT, record, trap];
    assert all[1..][1..] == [record, trap];
    assert all[1..][1..][1..] == [trap];
    assert RunAnd([trap], ok) == [trap];
    assert RunAnd([record, trap], ok) == [record] + if ok(record) then [trap] else [];
  }

  /** Whatever succeeds or fails, even the change of directory, the launcher runs once; the very next command saves its
      status, then the control directory is removed, and the command line exits. The process identifier is recorded, and
      the clean-up trap installed, only if everything before them succeeded. */
  lemma CommandRuns(directory: string, control: string, env: Parameters, ok: Simple -> bool)
    requires "$" in env && "?" in env && "runtime_exit_code" in env
    ensures Ran(CommandTokens(directory, control, env), ok) ==
              Prepared(directory, control, env["$"], ok) +
                [Launch(control), SaveStatus(env["?"]), Remove(control), CLEAR_TRAP, Leave(env["runtime_exit_code"])]
  {
    TokensSplit(directory, control, env);
    hide CommandTokens;
    var last := Leave(env["runtime_exit_code"]);
    var t4 := CLEAR_TRAP + ([Op(";")] + last);
    var t3 := Remove(control) + ([Op(";")] + t4);
    var t2 := SaveStatus(env["?"]) + ([Op(";")] + t3);
    var t1 := Launch(control) + ([Op(";")] + t2);
    assert t1 == Conclusion(control, env["?"], env["runtime_exit_code"]);
    PreparationRuns(directory, control, env["$"], t1, ok);
    ThenRun(Launch(control), t2, ok);
    ThenRun(SaveStatus(env["?"]), t3, ok);
    ThenRun(Remove(control), t4, ok);
    ThenRun(CLEAR_TRAP, last, ok);
    LastRuns(last, ok);
    hide Ran;
    hide Prepared;
    hide Preparation;
  }

  lemma LastRuns(list: seq<Token>, ok: Simple -> bool)
    requires Op("&&") !in list && Op(";") !in list
    ensures Ran(list, ok) == [list]
  {
    SplitNone(list, ";");
    RunOne(list, [], ok);
    assert [list] + [] == [list];
  }
}
