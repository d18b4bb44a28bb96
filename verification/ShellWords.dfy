/** Reading a command line back: the part of the POSIX Shell Command Language that generated commands use.

    Token recognition (section 2.3), single and double quotes (sections 2.2.2 and 2.2.3), comments, and the
    expansions `$name`, `$$`, `$?` and `${name+word}` (section 2.6.2). Anything else that is special to the
    shell makes the reader fail. */
module ShellWords {
  import opened Basics

  datatype Token = Word(text: string) | Op(text: string)

  datatype Mode =
    | Plain
    | Comment
    | SingleQuoted
    | DoubleQuoted
    | Ampersand
    | Dollar(quoted: bool)
    | Parameter(name: string, inQuotes: bool)
    | BraceName(braced: string)
    | Failed

  /** `inside` tells, within `${name+word}`, whether the parameter is set and the word kept. */
  datatype Reader = Reader(mode: Mode, word: Option<string>, tokens: seq<Token>, inside: Option<bool>)

  type Parameters = map<string, string>

  const START: Reader := Reader(Plain, None, [], None)

  predicate NameStart(c: char) {
    c == '_' || 'a' <= c <= 'z' || 'A' <= c <= 'Z'
  }

  predicate NameChar(c: char) {
    NameStart(c) || '0' <= c <= '9'
  }

  predicate Blank(c: char) {
    c == ' ' || c == '\t'
  }

  /** Characters with an unquoted meaning that the reader does not follow. */
  predicate Unsupported(c: char) {
    c in {'|', '(', ')', '<', '`', '\\', '*', '?', '[', '~'}
  }

  /** Characters that stand for themselves outside quotes. */
  predicate Ordinary(c: char) {
    !Blank(c) && !Unsupported(c) && c !in {'\'', '"', '\n', ';', '>', '&', '#', '$', '}'}
  }

  function Append(r: Reader, s: string): (r': Reader) {
    if r.inside == Some(false) then r
    else r.(word := Some((if r.word.Some? then r.word.value else "") + s))
  }

  function EndWord(r: Reader): (r': Reader) {
    if r.word.None? then r else r.(word := None, tokens := r.tokens + [Word(r.word.value)])
  }

  function Operator(r: Reader, op: string): (r': Reader) {
    if r.inside.Some? then r.(mode := Failed)
    else var ended := EndWord(r); ended.(mode := Plain, tokens := ended.tokens + [Op(op)])
  }

  function ReadPlain(r: Reader, c: char): (r': Reader) {
    if c == '\'' then Append(r, "").(mode := SingleQuoted)
    else if c == '"' then Append(r, "").(mode := DoubleQuoted)
    else if Blank(c) then (if r.inside.Some? then r.(mode := Failed) else EndWord(r))
    else if c == '\n' || c == ';' || c == '>' then Operator(r, [c])
    else if c == '&' then r.(mode := Ampersand)
    else if c == '#' && r.word.None? && r.inside.None? then r.(mode := Comment)
    else if c == '$' then r.(mode := Dollar(false))
    else if c == '}' && r.inside.Some? then r.(inside := None)
    else if Unsupported(c) then r.(mode := Failed)
    else Append(r, [c])
  }

  function ReadDouble(r: Reader, c: char): (r': Reader) {
    if c == '"' then r.(mode := Plain)
    else if c == '$' then r.(mode := Dollar(true))
    else if c == '\\' || c == '`' then r.(mode := Failed)
    else Append(r, [c])
  }

  /** An unquoted value is split into fields and expanded further unless it is plain. */
  function Expand(r: Reader, env: Parameters, name: string, quoted: bool): (r': Reader) {
    var value := if name in env then env[name] else "";
    if quoted then Append(r, value).(mode := DoubleQuoted)
    else if value == "" then r.(mode := Plain)
    else if forall i :: 0 <= i < |value| ==> Ordinary(value[i]) then Append(r, value).(mode := Plain)
    else r.(mode := Failed)
  }

  function ReadUnit(r: Reader, c: char): (r': Reader) {
    if r.mode == DoubleQuoted then ReadDouble(r, c) else if r.mode == Plain then ReadPlain(r, c) else r
  }

  function Read(r: Reader, env: Parameters, c: char): (r': Reader) {
    match r.mode
    case Plain => ReadPlain(r, c)
    case Comment => if c == '\n' then Operator(r, "\n") else r
    case SingleQuoted => if c == '\'' then r.(mode := Plain) else Append(r, [c])
    case DoubleQuoted => ReadDouble(r, c)
    case Ampersand => if c == '&' then Operator(r, "&&") else r.(mode := Failed)
    case Dollar(quoted) =>
      if NameStart(c) then r.(mode := Parameter([c], quoted))
      else if c == '$' || c == '?' then Expand(r, env, [c], quoted)
      else if c == '{' && !quoted && r.inside.None? then r.(mode := BraceName(""))
      else r.(mode := Failed)
    case Parameter(name, quoted) =>
      if NameChar(c) then r.(mode := Parameter(name + [c], quoted))
      else ReadUnit(Expand(r, env, name, quoted), c)
    case BraceName(name) =>
      if NameChar(c) then r.(mode := BraceName(name + [c]))
      else if c == '+' && name != "" then r.(mode := Plain, inside := Some(name in env))
      else r.(mode := Failed)
    case Failed => r
  }

  function ReadAll(r: Reader, env: Parameters, s: string): (r': Reader)
    decreases |s|
  {
    if s == "" then r else ReadAll(Read(r, env, s[0]), env, s[1..])
  }

  /** The end of the input ends a parameter name and the last word. */
  function Finish(r: Reader, env: Parameters): (r': Reader) {
    match r.mode
    case Parameter(name, quoted) => EndWord(Expand(r, env, name, quoted))
    case _ => EndWord(r)
  }

  /** The tokens of a command line, if the reader can follow it. */
  function Tokens(s: string, env: Parameters): (t: Option<seq<Token>>) {
    var r := Finish(ReadAll(START, env, s), env);
    if (r.mode == Plain || r.mode == Comment) && r.inside.None? then Some(r.tokens) else None
  }

  lemma {:induction false} ReadAllConcat(r: Reader, env: Parameters, a: string, b: string)
    ensures ReadAll(r, env, a + b) == ReadAll(ReadAll(r, env, a), env, b)
    decreases |a|
  {
    if a == "" {
      assert a + b == b;
    } else {
      assert (a + b)[0] == a[0] && (a + b)[1..] == a[1..] + b;
      ReadAllConcat(Read(r, env, a[0]), env, a[1..], b);
    }
  }

  lemma ReadOne(r: Reader, env: Parameters, c: char)
    ensures ReadAll(r, env, [c]) == Read(r, env, c)
  {
    assert [c][1..] == "";
  }

  /** Reading up to here leaves the reader between or in plain words, having read these tokens. */
  ghost predicate Reads(s: string, env: Parameters, tokens: seq<Token>) {
    var r := ReadAll(START, env, s);
    r.mode == Plain && r.inside.None? && EndWord(r).tokens == tokens
  }

  lemma ReadsTokens(s: string, env: Parameters, tokens: seq<Token>)
    requires Reads(s, env, tokens)
    ensures Tokens(s, env) == Some(tokens)
  {
  }
}
