/** Printing and parsing verification steps (internal/task/verification.go), and the same text
    read by a POSIX shell. */
module StepQuoting {
  import opened Common

  datatype Step = Step(command: string, args: seq<string>, timeoutSeconds: int) {
    function Words(): seq<string> { [command] + args }
  }

  // ---------- printing ----------

  predicate BareSafeChar(c: char) {
    'a' <= c <= 'z' || 'A' <= c <= 'Z' || '0' <= c <= '9' || c == '_' || c == '@' || c == '%'
    || c == '+' || c == '=' || c == ':' || c == ',' || c == '.' || c == '/' || c == '-'
  }

  predicate IsBareSafe(s: string) {
    s != "" && forall i :: 0 <= i < |s| ==> BareSafeChar(s[i])
  }

  /** Each single quote closes the quotes, is emitted inside double quotes, and reopens them. */
  function EscapeSingle(s: string): string {
    if s == "" then ""
    else (if s[0] == '\'' then "'\"'\"'" else [s[0]]) + EscapeSingle(s[1..])
  }

  function QuoteIfNeeded(s: string): string {
    if IsBareSafe(s) then s else "'" + EscapeSingle(s) + "'"
  }

  function Join(parts: seq<string>, separator: string): string {
    if parts == [] then ""
    else if |parts| == 1 then parts[0]
    else parts[0] + separator + Join(parts[1..], separator)
  }

  function Quoted(words: seq<string>): seq<string> {
    seq(|words|, i requires 0 <= i < |words| => QuoteIfNeeded(words[i]))
  }

  function Print(s: Step): string {
    Join(Quoted(s.Words()), " ")
  }

  method String(s: Step) returns (text: string)
    ensures text == Print(s)
  {
    var parts := [QuoteIfNeeded(s.command)];
    for i := 0 to |s.args|
      invariant parts == Quoted([s.command] + s.args[..i])
    {
      parts := parts + [QuoteIfNeeded(s.args[i])];
    }
    assert s.args[..|s.args|] == s.args;
    return Join(parts, " ");
  }

  // ---------- splitting ----------

  /** Characters a shell would act on; rejected outside quotes. */
  predicate IsMetacharacter(c: char) {
    || c == '|' || c == '&' || c == ';' || c == '<' || c == '>' || c == '(' || c == ')' || c == '$'
    || c == '`' || c == '\n' || c == '\r' || c == '*' || c == '?' || c == '[' || c == ']'
    || c == '{' || c == '}' || c == '!' || c == '#' || c == '~'
  }

  predicate Blank(c: char) { c == ' ' || c == '\t' }

  predicate QuoteChar(c: char) { c == '\'' || c == '"' }

  datatype SplitError = Metacharacter(c: char) | Unterminated(quote: char)

  /** Where the splitter stands between two characters. */
  datatype Scan = Scan(fields: seq<string>, current: string, inField: bool, quote: Option<char>) {
    function Flush(): Scan {
      if inField then Scan(fields + [current], "", false, quote) else this
    }
    function Put(c: char): Scan { this.(current := current + [c], inField := true) }
  }

  const START := Scan([], "", false, None)

  /** What splitting the rest of the line from state s yields. */
  function Split(raw: string, s: Scan): Result<seq<string>, SplitError>
    decreases |raw|
  {
    if raw == "" then
      if s.quote.Some? then Err(Unterminated(s.quote.value)) else Ok(s.Flush().fields)
    else
      var r, rest := raw[0], raw[1..];
      if s.quote.Some? then
        if r == s.quote.value then Split(rest, s.(quote := None))
        else Split(rest, s.(current := s.current + [r]))
      else if QuoteChar(r) then Split(rest, s.(quote := Some(r), inField := true))
      else if Blank(r) then Split(rest, s.Flush())
      else if IsMetacharacter(r) then Err(Metacharacter(r))
      else Split(rest, s.Put(r))
  }

  method SplitFields(raw: string) returns (r: Result<seq<string>, SplitError>)
    ensures r == Split(raw, START)
  {
    var fields: seq<string>, current, inField := [], "", false;
    var quote: Option<char> := None;
    for i := 0 to |raw|
      invariant Split(raw, START) == Split(raw[i..], Scan(fields, current, inField, quote))
    {
      var c := raw[i];
      assert raw[i..][0] == c && raw[i..][1..] == raw[i + 1..];
      if quote.Some? {
        if c == quote.value {
          quote := None;
        } else {
          current := current + [c];
        }
      } else if QuoteChar(c) {
        quote, inField := Some(c), true;
      } else if Blank(c) {
        if inField {
          fields, current, inField := fields + [current], "", false;
        }
      } else if IsMetacharacter(c) {
        return Err(Metacharacter(c));
      } else {
        inField, current := true, current + [c];
      }
    }
    if quote.Some? {
      return Err(Unterminated(quote.value));
    }
    if inField {
      fields := fields + [current];
    }
    return Ok(fields);
  }

  // ---------- parsing ----------

  datatype ParseError =
    | BadSplit(error: SplitError)
    | EmptyLine
    | CommandSubstitution(arg: string)
    | EmptyCommand
    | NegativeTimeout

  predicate AllSpace(s: string) { forall i :: 0 <= i < |s| ==> Space(s[i]) }

  function Validate(s: Step): Option<ParseError> {
    if AllSpace(s.command) then Some(EmptyCommand)
    else if s.timeoutSeconds < 0 then Some(NegativeTimeout)
    else None
  }

  /** A step is valid exactly if its command has more than white space and its timeout is not negative. */
  lemma ValidIff(s: Step)
    ensures Validate(s).None? <==> (exists i :: 0 <= i < |s.command| && !Space(s.command[i])) && s.timeoutSeconds >= 0
  {
  }

  predicate IsShell(word: string) {
    Base(word) in ["sh", "bash", "dash", "zsh"]
  }

  predicate HasSubstitution(arg: string) {
    (exists i :: 0 <= i < |arg| - 1 && arg[i] == '$' && arg[i + 1] == '(') || '`' in arg
  }

  /** The step hands its text to a shell: directly, or through a wrapper such as env or timeout. */
  predicate RunsShell(s: Step) {
    IsShell(s.command)
    || exists i :: 0 <= i < |s.args| - 1 && IsShell(s.args[i]) && s.args[i + 1] == "-c"
  }

  /** The first argument whose command substitution no shell would ever perform. */
  function Refused(s: Step): Option<string> {
    if RunsShell(s) then None else FirstSubstitution(s.args)
  }

  function FirstSubstitution(args: seq<string>): Option<string> {
    if args == [] then None
    else if HasSubstitution(args[0]) then Some(args[0])
    else FirstSubstitution(args[1..])
  }

  method RejectCommandSubstitution(s: Step) returns (bad: Option<string>)
    ensures bad == Refused(s)
  {
    if IsShell(s.command) {
      return None;
    }
    for i := 0 to |s.args|
      invariant !exists j :: 0 <= j < i && j < |s.args| - 1 && IsShell(s.args[j]) && s.args[j + 1] == "-c"
    {
      if i + 1 < |s.args| && IsShell(s.args[i]) && s.args[i + 1] == "-c" {
        return None;
      }
    }
    for i := 0 to |s.args|
      invariant FirstSubstitution(s.args) == FirstSubstitution(s.args[i..])
    {
      if HasSubstitution(s.args[i]) {
        return Some(s.args[i]);
      }
    }
    return None;
  }

  function Parse(raw: string): Result<Step, ParseError> {
    match Split(raw, START)
    case Err(e) => Err(BadSplit(e))
    case Ok(fields) =>
      if fields == [] then Err(EmptyLine)
      else
        var step := Step(fields[0], fields[1..], 0);
        if Refused(step).Some? then Err(CommandSubstitution(Refused(step).value))
        else if Validate(step).Some? then Err(Validate(step).value)
        else Ok(step)
  }

  method ParseVerificationStep(raw: string) returns (r: Result<Step, ParseError>)
    ensures r == Parse(raw)
  {
    var fields := SplitFields(raw);
    if fields.Err? {
      return Err(BadSplit(fields.error));
    }
    if |fields.value| == 0 {
      return Err(EmptyLine);
    }
    var step := Step(fields.value[0], fields.value[1..], 0);
    var bad := RejectCommandSubstitution(step);
    if bad.Some? {
      return Err(CommandSubstitution(bad.value));
    }
    var invalid := Validate(step);
    if invalid.Some? {
      return Err(invalid.value);
    }
    return Ok(step);
  }

  // ---------- what is refused, and what needs no quotes ----------

  const METACHARACTERS := "|&;<>()$`\n\r*?[]{}!#~"

  lemma MetacharactersAre(c: char)
    ensures IsMetacharacter(c) <==> exists i :: 0 <= i < |METACHARACTERS| && METACHARACTERS[i] == c
  {
    var m := METACHARACTERS;
    assert m[0] == '|' && m[1] == '&' && m[2] == ';' && m[3] == '<' && m[4] == '>' && m[5] == '(' && m[6] == ')';
    assert m[7] == '$' && m[8] == '`' && m[9] == '\n' && m[10] == '\r' && m[11] == '*' && m[12] == '?' && m[13] == '[';
    assert m[14] == ']' && m[15] == '{' && m[16] == '}' && m[17] == '!' && m[18] == '#' && m[19] == '~';
  }

  /** Of a line without quotes, the first of these is refused, and nothing else is. */
  lemma {:induction false} UnquotedIff(raw: string, s: Scan)
    requires s.quote.None? && forall i :: 0 <= i < |raw| ==> raw[i] != '\'' && raw[i] != '"'
    ensures Split(raw, s).Ok? <==> forall i :: 0 <= i < |raw| ==> !IsMetacharacter(raw[i])
    ensures Split(raw, s).Err? ==>
      exists i :: 0 <= i < |raw| && Split(raw, s).error == Metacharacter(raw[i]) && IsMetacharacter(raw[i])
        && forall j :: 0 <= j < i ==> !IsMetacharacter(raw[j])
    decreases |raw|
  {
    if raw != "" && !IsMetacharacter(raw[0]) {
      var next := if Blank(raw[0]) then s.Flush() else s.Put(raw[0]);
      UnquotedIff(raw[1..], next);
      assert Split(raw, s) == Split(raw[1..], next);
      if Split(raw, s).Err? {
        var i :| 0 <= i < |raw[1..]| && Split(raw[1..], next).error == Metacharacter(raw[1..][i]) && IsMetacharacter(raw[1..][i])
          && forall j :: 0 <= j < i ==> !IsMetacharacter(raw[1..][j]);
        assert raw[i + 1] == raw[1..][i];
        forall j | 0 <= j < i + 1 ensures !IsMetacharacter(raw[j]) {
          assert j > 0 ==> raw[j] == raw[1..][j - 1];
        }
      } else {
        forall i | 0 <= i < |raw| ensures !IsMetacharacter(raw[i]) {
          assert i > 0 ==> raw[i] == raw[1..][i - 1];
        }
      }
    }
  }

  /** Only what has another character than these, or none at all, is put in quotes. */
  lemma QuotedIff(s: string)
    ensures QuoteIfNeeded(s) == s <==>
      s != "" && forall i :: 0 <= i < |s| ==>
        || 'a' <= s[i] <= 'z' || 'A' <= s[i] <= 'Z' || '0' <= s[i] <= '9' || s[i] == '_' || s[i] == '@' || s[i] == '%'
        || s[i] == '+' || s[i] == '=' || s[i] == ':' || s[i] == ',' || s[i] == '.' || s[i] == '/' || s[i] == '-'
    ensures QuoteIfNeeded(s) != s ==> |QuoteIfNeeded(s)| > |s| && QuoteIfNeeded(s)[0] == '\''
  {
    EscapedIsLonger(s);
  }

  lemma {:induction false} EscapedIsLonger(s: string)
    ensures |EscapeSingle(s)| >= |s|
  {
    if s != "" {
      EscapedIsLonger(s[1..]);
    }
  }

  // ---------- round trip ----------

  lemma BareSafeIsLiteral(c: char)
    requires BareSafeChar(c)
    ensures !QuoteChar(c) && !Blank(c) && !IsMetacharacter(c) && c != '\\'
  {
  }

  lemma SplitLiteral(c: char, rest: string, at: Scan)
    requires BareSafeChar(c) && at.quote.None?
    ensures Split([c] + rest, at) == Split(rest, at.Put(c))
  {
    BareSafeIsLiteral(c);
    assert ([c] + rest)[1..] == rest;
  }

  lemma {:induction false} SplitBare(s: string, rest: string, at: Scan)
    requires forall i :: 0 <= i < |s| ==> BareSafeChar(s[i])
    requires at.quote.None?
    ensures Split(s + rest, at)
         == Split(rest, at.(current := at.current + s, inField := at.inField || s != ""))
  {
    if s == "" {
      assert s + rest == rest && at.current + s == at.current;
    } else {
      assert s + rest == [s[0]] + (s[1..] + rest);
      SplitLiteral(s[0], s[1..] + rest, at);
      SplitBare(s[1..], rest, at.Put(s[0]));
      assert at.current + [s[0]] + s[1..] == at.current + s;
    }
  }

  /** Inside single quotes the escaped text reads back as itself, up to the closing quote. */
  lemma {:induction false} SplitEscaped(s: string, rest: string, at: Scan)
    requires at.quote == Some('\'') && at.inField
    ensures Split(EscapeSingle(s) + "'" + rest, at)
         == Split(rest, at.(current := at.current + s, quote := None))
  {
    var text := EscapeSingle(s) + "'" + rest;
    if s == "" {
      assert text[0] == '\'' && text[1..] == rest;
      assert at.current + s == at.current;
    } else {
      var tail := EscapeSingle(s[1..]) + "'" + rest;
      var next := at.(current := at.current + [s[0]]);
      if s[0] == '\'' {
        assert text == "'\"'\"'" + tail;
        Reopen(tail, at);
      } else {
        assert text == [s[0]] + tail;
        assert text[0] == s[0] && text[1..] == tail;
      }
      assert Split(text, at) == Split(tail, next);
      SplitEscaped(s[1..], rest, next);
      assert next.current + s[1..] == at.current + s;
    }
  }

  lemma Reopen(tail: string, at: Scan)
    requires at.quote == Some('\'') && at.inField
    ensures Split("'\"'\"'" + tail, at) == Split(tail, at.(current := at.current + "'"))
  {
    var t1, t2, t3, t4 := "\"'\"'" + tail, "'\"'" + tail, "\"'" + tail, "'" + tail;
    assert ("'" + t1)[1..] == t1 && "'\"'\"'" + tail == "'" + t1;
    assert ("\"" + t2)[1..] == t2 && t1 == "\"" + t2;
    assert ("'" + t3)[1..] == t3 && t2 == "'" + t3;
    assert ("\"" + t4)[1..] == t4 && t3 == "\"" + t4;
    assert t4[1..] == tail;
    var s1 := at.(quote := None);
    var s2 := at.(quote := Some('"'));
    var s3 := s2.(current := at.current + "'");
    var s4 := s3.(quote := None);
    assert Split("'" + t1, at) == Split(t1, s1);
    assert Split(t1, s1) == Split(t2, s2);
    assert Split(t2, s2) == Split(t3, s3);
    assert Split(t3, s3) == Split(t4, s4);
  }

  lemma SplitWord(word: string, rest: string, fields: seq<string>)
    ensures Split(QuoteIfNeeded(word) + rest, Scan(fields, "", false, None))
         == Split(rest, Scan(fields, word, true, None))
  {
    var at := Scan(fields, "", false, None);
    if IsBareSafe(word) {
      SplitBare(word, rest, at);
      assert "" + word == word;
    } else {
      var text := QuoteIfNeeded(word) + rest;
      assert text == "'" + (EscapeSingle(word) + "'" + rest);
      assert text[0] == '\'' && text[1..] == EscapeSingle(word) + "'" + rest;
      SplitEscaped(word, rest, Scan(fields, "", true, Some('\'')));
      assert "" + word == word;
    }
  }

  lemma JoinStep(words: seq<string>)
    ensures |words| == 1 ==> Join(Quoted(words), " ") == QuoteIfNeeded(words[0])
    ensures |words| > 1 ==> Join(Quoted(words), " ") == QuoteIfNeeded(words[0]) + (" " + Join(Quoted(words[1..]), " "))
  {
    if |words| > 1 {
      assert Quoted(words)[1..] == Quoted(words[1..]);
    }
  }

  lemma BlankEndsField(rest: string, fields: seq<string>, word: string)
    ensures Split(" " + rest, Scan(fields, word, true, None)) == Split(rest, Scan(fields + [word], "", false, None))
  {
    var text := " " + rest;
    assert text[0] == ' ' && text[1..] == rest;
  }

  /** Any words survive printing and splitting: empty ones, quotes, newlines and shell
      metacharacters included. */
  lemma {:induction false} SplitJoined(words: seq<string>, fields: seq<string>)
    ensures Split(Join(Quoted(words), " "), Scan(fields, "", false, None)) == Ok(fields + words)
  {
    JoinStep(words);
    if words == [] {
      assert fields + words == fields;
    } else {
      var first, tail := words[0], words[1..];
      assert words == [first] + tail;
      if tail == [] {
        SplitWord(first, "", fields);
        assert QuoteIfNeeded(first) + "" == QuoteIfNeeded(first);
        assert words == [first];
      } else {
        var rest := Join(Quoted(tail), " ");
        SplitWord(first, " " + rest, fields);
        BlankEndsField(rest, fields, first);
        SplitJoined(tail, fields + [first]);
        assert (fields + [first]) + tail == fields + words;
      }
    }
  }

  /** Parsing a printed step: exactly what the outcome is, for every step. */
  lemma ParsePrinted(s: Step)
    ensures Split(Print(s), START) == Ok(s.Words())
    ensures Parse(Print(s)) ==
      if Refused(s).Some? then Err(CommandSubstitution(Refused(s).value))
      else if AllSpace(s.command) then Err(EmptyCommand)
      else Ok(s.(timeoutSeconds := 0))
  {
    SplitJoined(s.Words(), []);
    assert [] + s.Words() == s.Words();
    assert s.Words()[0] == s.command && s.Words()[1..] == s.args;
    RefusedIgnoresTimeout(s);
  }

  lemma RefusedIgnoresTimeout(s: Step)
    ensures Refused(s.(timeoutSeconds := 0)) == Refused(s)
  {
  }

  /** "$(" or a backquote stands in it. */
  predicate Substitutes(arg: string) {
    exists i :: 0 <= i < |arg| && (arg[i] == '`' || (arg[i] == '$' && i + 1 < |arg| && arg[i + 1] == '('))
  }

  predicate NamesShell(word: string) {
    var name := Base(word);
    name == "sh" || name == "bash" || name == "dash" || name == "zsh"
  }

  /** A shell gets the step's text: as the command, or as an argument with -c behind it. */
  predicate GoesToShell(s: Step) {
    NamesShell(s.command) || exists i :: 0 <= i && i + 1 < |s.args| && NamesShell(s.args[i]) && s.args[i + 1] == "-c"
  }

  /** The argument that is refused is the first that substitutes, and none is where a shell gets it. */
  lemma RefusedIs(s: Step)
    ensures Refused(s).None? <==> GoesToShell(s) || forall i :: 0 <= i < |s.args| ==> !Substitutes(s.args[i])
    ensures Refused(s).Some? ==>
      exists i :: 0 <= i < |s.args| && s.args[i] == Refused(s).value && Substitutes(s.args[i])
        && forall j :: 0 <= j < i ==> !Substitutes(s.args[j])
  {
    SameShell(s);
    FirstSubstitutes(s.args);
  }

  lemma SameShell(s: Step)
    ensures RunsShell(s) <==> GoesToShell(s)
  {
    forall word ensures IsShell(word) <==> NamesShell(word) { }
  }

  lemma {:induction false} FirstSubstitutes(args: seq<string>)
    ensures FirstSubstitution(args).None? <==> forall i :: 0 <= i < |args| ==> !Substitutes(args[i])
    ensures FirstSubstitution(args).Some? ==>
      exists i :: 0 <= i < |args| && args[i] == FirstSubstitution(args).value && Substitutes(args[i])
        && forall j :: 0 <= j < i ==> !Substitutes(args[j])
  {
    if args != [] {
      SameSubstitution(args[0]);
      FirstSubstitutes(args[1..]);
      if !HasSubstitution(args[0]) && FirstSubstitution(args).Some? {
        var i :| 0 <= i < |args[1..]| && args[1..][i] == FirstSubstitution(args).value && Substitutes(args[1..][i])
          && forall j :: 0 <= j < i ==> !Substitutes(args[1..][j]);
        assert args[i + 1] == args[1..][i];
        forall j | 0 <= j < i + 1 ensures !Substitutes(args[j]) {
          assert j > 0 ==> args[j] == args[1..][j - 1];
        }
      }
      if FirstSubstitution(args).None? {
        forall i | 0 <= i < |args| ensures !Substitutes(args[i]) {
          assert i > 0 ==> args[i] == args[1..][i - 1];
        }
      }
    }
  }

  lemma SameSubstitution(arg: string)
    ensures HasSubstitution(arg) <==> Substitutes(arg)
  {
  }

  /** The printed form parses back to the same step exactly when the step carries no timeout,
      names a command, and asks for no command substitution outside a shell. */
  lemma RoundTripIff(s: Step)
    ensures Parse(Print(s)) == Ok(s) <==>
      && s.timeoutSeconds == 0
      && (exists i :: 0 <= i < |s.command| && !Space(s.command[i]))
      && (GoesToShell(s) || forall i :: 0 <= i < |s.args| ==> !Substitutes(s.args[i]))
  {
    ParsePrinted(s);
    RefusedIs(s);
  }

  // ---------- a POSIX shell's reading ----------

  datatype Mode = Plain | Single | Double

  datatype ShellError =
    | Active(c: char)   // an operator, expansion, comment or pattern: more than a literal word
    | Unclosed

  /** Outside quotes: an operator, a newline, an expansion or a pattern. */
  predicate IsActive(c: char) {
    || c == '\n' || c == '|' || c == '&' || c == ';' || c == '<' || c == '>' || c == '(' || c == ')'
    || c == '$' || c == '`' || c == '*' || c == '?' || c == '['
  }

  const OPERATORS_AND_PATTERNS := "\n|&;<>()$`*?["
  const ESCAPABLE := "$`\"\\\n"

  /** What a shell acts on outside quotes is refused by the splitter, and so is more. */
  lemma ActiveAre(c: char)
    ensures IsActive(c) <==> exists i :: 0 <= i < |OPERATORS_AND_PATTERNS| && OPERATORS_AND_PATTERNS[i] == c
    ensures IsActive(c) || c == '#' || c == '~' ==> IsMetacharacter(c)
  {
    var m := OPERATORS_AND_PATTERNS;
    assert m[0] == '\n' && m[1] == '|' && m[2] == '&' && m[3] == ';' && m[4] == '<' && m[5] == '>' && m[6] == '(';
    assert m[7] == ')' && m[8] == '$' && m[9] == '`' && m[10] == '*' && m[11] == '?' && m[12] == '[';
  }

  /** Words of a command line under sections 2.2.2, 2.2.3 and 2.3 of the POSIX Shell Command
      Language, as far as quoting decides them. */
  function Shell(raw: string, words: seq<string>, word: string, inWord: bool, mode: Mode)
    : Result<seq<string>, ShellError>
    decreases |raw|
  {
    if raw == "" then
      if mode != Plain then Err(Unclosed) else Ok(if inWord then words + [word] else words)
    else
      var c, rest := raw[0], raw[1..];
      match mode
      case Single =>
        if c == '\'' then Shell(rest, words, word, true, Plain) else Shell(rest, words, word + [c], true, Single)
      case Double =>
        if c == '"' then Shell(rest, words, word, true, Plain)
        else if c == '$' || c == '`' then Err(Active(c))
        else if c == '\\' && rest != "" && Escapable(rest[0]) then
          Shell(rest[1..], words, if rest[0] == '\n' then word else word + [rest[0]], true, Double)
        else Shell(rest, words, word + [c], true, Double)
      case Plain =>
        if c == '\'' then Shell(rest, words, word, true, Single)
        else if c == '"' then Shell(rest, words, word, true, Double)
        else if c == '\\' then
          if rest == "" then Err(Unclosed)
          else if rest[0] == '\n' then Shell(rest[1..], words, word, inWord, Plain)
          else Shell(rest[1..], words, word + [rest[0]], true, Plain)
        else if c == ' ' || c == '\t' then
          if inWord then Shell(rest, words + [word], "", false, Plain) else Shell(rest, words, "", false, Plain)
        else if IsActive(c) then Err(Active(c))
        else if (c == '#' || c == '~') && !inWord then Err(Active(c))
        else Shell(rest, words, word + [c], true, Plain)
  }

  /** Inside double quotes a shell's backslash escapes these. */
  predicate Escapable(c: char) { c == '$' || c == '`' || c == '"' || c == '\\' || c == '\n' }

  lemma EscapableAre(c: char)
    ensures Escapable(c) <==> exists i :: 0 <= i < |ESCAPABLE| && ESCAPABLE[i] == c
  {
    var m := ESCAPABLE;
    assert m[0] == '$' && m[1] == '`' && m[2] == '"' && m[3] == '\\' && m[4] == '\n';
  }

  /** The text asks for nothing the splitter does not have: no backslash outside quotes, and inside
      double quotes no expansion and no backslash that would escape something. */
  predicate Literal(raw: string, mode: Mode) {
    raw == "" ||
    (var c, rest := raw[0], raw[1..];
     match mode
     case Single => Literal(rest, if c == '\'' then Plain else Single)
     case Double =>
       && c != '$' && c != '`' && !(c == '\\' && rest != "" && Escapable(rest[0]))
       && Literal(rest, if c == '"' then Plain else Double)
     case Plain => c != '\\' && Literal(rest, if c == '\'' then Single else if c == '"' then Double else Plain))
  }

  function ModeOf(quote: Option<char>): Mode {
    if quote == Some('\'') then Single else if quote == Some('"') then Double else Plain
  }

  /** On such text the two read alike. */
  lemma {:induction false} LiteralAgrees(raw: string, s: Scan)
    requires s.quote.Some? ==> QuoteChar(s.quote.value) && s.inField
    requires !s.inField ==> s.current == ""
    requires Literal(raw, ModeOf(s.quote))
    requires Split(raw, s).Ok?
    ensures Shell(raw, s.fields, s.current, s.inField, ModeOf(s.quote)) == Ok(Split(raw, s).value)
    decreases |raw|
  {
    if raw != "" {
      var r, rest := raw[0], raw[1..];
      if s.quote.Some? {
        if r == s.quote.value {
          LiteralAgrees(rest, s.(quote := None));
        } else {
          LiteralAgrees(rest, s.(current := s.current + [r]));
        }
      } else if QuoteChar(r) {
        LiteralAgrees(rest, s.(quote := Some(r), inField := true));
      } else if Blank(r) {
        LiteralAgrees(rest, s.Flush());
      } else {
        LiteralAgrees(rest, s.Put(r));
      }
    }
  }

  function Backslashes(s: string): nat {
    if s == "" then 0 else (if s[0] == '\\' then 1 else 0) + Backslashes(s[1..])
  }

  /** The backslashes of all words. */
  function AllBackslashes(words: seq<string>): nat {
    if words == [] then 0 else AllBackslashes(words[..|words| - 1]) + Backslashes(words[|words| - 1])
  }

  lemma {:induction false} BackslashesAppend(s: string, c: char)
    ensures Backslashes(s + [c]) == Backslashes(s) + (if c == '\\' then 1 else 0)
  {
    if s != "" {
      BackslashesAppend(s[1..], c);
      assert (s + [c])[1..] == s[1..] + [c];
    }
  }

  lemma WordsAppend(words: seq<string>, word: string)
    ensures AllBackslashes(words + [word]) == AllBackslashes(words) + Backslashes(word)
  {
    assert (words + [word])[..|words|] == words;
  }

  /** The splitter keeps every backslash. */
  lemma {:induction false} SplitKeepsBackslashes(raw: string, s: Scan)
    requires Split(raw, s).Ok? && (!s.inField ==> s.current == "") && (s.quote.Some? ==> QuoteChar(s.quote.value) && s.inField)
    ensures AllBackslashes(Split(raw, s).value) == AllBackslashes(s.fields) + Backslashes(s.current) + Backslashes(raw)
    decreases |raw|
  {
    WordsAppend(s.fields, s.current);
    if raw != "" {
      var r, rest := raw[0], raw[1..];
      BackslashesAppend(s.current, r);
      if s.quote.Some? {
        if r == s.quote.value {
          SplitKeepsBackslashes(rest, s.(quote := None));
        } else {
          SplitKeepsBackslashes(rest, s.(current := s.current + [r]));
        }
      } else if QuoteChar(r) {
        SplitKeepsBackslashes(rest, s.(quote := Some(r), inField := true));
      } else if Blank(r) {
        SplitKeepsBackslashes(rest, s.Flush());
      } else {
        SplitKeepsBackslashes(rest, s.Put(r));
      }
    }
  }

  /** A shell never adds a backslash, and loses one on any text that is not literal. */
  lemma {:induction false} ShellLosesBackslashes(raw: string, words: seq<string>, word: string, inWord: bool, mode: Mode)
    requires Shell(raw, words, word, inWord, mode).Ok? && (!inWord ==> word == "")
    ensures
      var left, had := AllBackslashes(Shell(raw, words, word, inWord, mode).value),
                       AllBackslashes(words) + Backslashes(word) + Backslashes(raw);
      left <= had && (!Literal(raw, mode) ==> left < had)
    decreases |raw|
  {
    WordsAppend(words, word);
    if raw != "" {
      var c, rest := raw[0], raw[1..];
      BackslashesAppend(word, c);
      if rest != "" {
        BackslashesAppend(word, rest[0]);
      }
      match mode
      case Single =>
        if c == '\'' { ShellLosesBackslashes(rest, words, word, true, Plain); }
        else { ShellLosesBackslashes(rest, words, word + [c], true, Single); }
      case Double =>
        if c == '"' { ShellLosesBackslashes(rest, words, word, true, Plain); }
        else if c == '\\' && rest != "" && Escapable(rest[0]) {
          ShellLosesBackslashes(rest[1..], words, if rest[0] == '\n' then word else word + [rest[0]], true, Double);
        } else { ShellLosesBackslashes(rest, words, word + [c], true, Double); }
      case Plain =>
        if c == '\'' { ShellLosesBackslashes(rest, words, word, true, Single); }
        else if c == '"' { ShellLosesBackslashes(rest, words, word, true, Double); }
        else if c == '\\' {
          if rest[0] == '\n' { ShellLosesBackslashes(rest[1..], words, word, inWord, Plain); }
          else { ShellLosesBackslashes(rest[1..], words, word + [rest[0]], true, Plain); }
        } else if Blank(c) {
          ShellLosesBackslashes(rest, if inWord then words + [word] else words, "", false, Plain);
        } else { ShellLosesBackslashes(rest, words, word + [c], true, Plain); }
    }
  }

  /** Of the lines the splitter accepts, a shell reads exactly the literal ones as the same words. */
  lemma ShellAgreesIff(raw: string)
    requires Split(raw, START).Ok?
    ensures Shell(raw, [], "", false, Plain) == Ok(Split(raw, START).value) <==> Literal(raw, Plain)
  {
    if Literal(raw, Plain) {
      LiteralAgrees(raw, START);
    } else if Shell(raw, [], "", false, Plain).Ok? {
      SplitKeepsBackslashes(raw, START);
      ShellLosesBackslashes(raw, [], "", false, Plain);
    }
  }

  lemma ReopenIsLiteral(tail: string)
    requires Literal(tail, Single)
    ensures Literal("'\"'\"'" + tail, Single)
  {
    var t1, t2, t3, t4 := "\"'\"'" + tail, "'\"'" + tail, "\"'" + tail, "'" + tail;
    assert "'\"'\"'" + tail == "'" + t1 && ("'" + t1)[1..] == t1;
    assert t1[1..] == t2 && t2[1..] == t3 && t3[1..] == t4 && t4[1..] == tail;
    assert Literal(t4, Plain) && Literal(t3, Double) && Literal(t2, Double) && Literal(t1, Plain);
  }

  lemma {:induction false} EscapedIsLiteral(s: string, rest: string)
    requires Literal(rest, Plain)
    ensures Literal(EscapeSingle(s) + "'" + rest, Single)
  {
    var text := EscapeSingle(s) + "'" + rest;
    if s == "" {
      assert text[0] == '\'' && text[1..] == rest;
    } else {
      var tail := EscapeSingle(s[1..]) + "'" + rest;
      EscapedIsLiteral(s[1..], rest);
      if s[0] == '\'' {
        assert text == "'\"'\"'" + tail;
        ReopenIsLiteral(tail);
      } else {
        assert text[0] == s[0] && text[1..] == tail;
      }
    }
  }

  lemma {:induction false} BareIsLiteral(s: string, rest: string)
    requires forall i :: 0 <= i < |s| ==> BareSafeChar(s[i])
    requires Literal(rest, Plain)
    ensures Literal(s + rest, Plain)
  {
    if s == "" {
      assert s + rest == rest;
    } else {
      BareIsLiteral(s[1..], rest);
      BareSafeIsLiteral(s[0]);
      assert (s + rest)[0] == s[0] && (s + rest)[1..] == s[1..] + rest;
    }
  }

  lemma WordIsLiteral(word: string, rest: string)
    requires Literal(rest, Plain)
    ensures Literal(QuoteIfNeeded(word) + rest, Plain)
  {
    if IsBareSafe(word) {
      BareIsLiteral(word, rest);
    } else {
      var tail := EscapeSingle(word) + "'" + rest;
      EscapedIsLiteral(word, rest);
      assert QuoteIfNeeded(word) + rest == "'" + tail && ("'" + tail)[1..] == tail;
    }
  }

  lemma BlankIsLiteral(rest: string)
    requires Literal(rest, Plain)
    ensures Literal(" " + rest, Plain)
  {
    var text := " " + rest;
    assert text[0] == ' ' && text[1..] == rest;
  }

  lemma {:induction false} PrintedIsLiteral(words: seq<string>)
    ensures Literal(Join(Quoted(words), " "), Plain)
  {
    JoinStep(words);
    if |words| == 1 {
      WordIsLiteral(words[0], "");
      assert QuoteIfNeeded(words[0]) + "" == QuoteIfNeeded(words[0]);
    } else if words != [] {
      var rest := Join(Quoted(words[1..]), " ");
      PrintedIsLiteral(words[1..]);
      BlankIsLiteral(rest);
      WordIsLiteral(words[0], " " + rest);
    }
  }

  /** A printed step, handed to a POSIX shell, passes the same command and arguments. */
  lemma ShellReadsPrinted(s: Step)
    ensures Shell(Print(s), [], "", false, Plain) == Ok(s.Words())
  {
    ParsePrinted(s);
    PrintedIsLiteral(s.Words());
    ShellAgreesIff(Print(s));
  }

  /** A typed line can mean different words to the two: a shell drops an unquoted backslash,
      the splitter keeps it. */
  lemma BackslashDiffers(c: char)
    requires BareSafeChar(c)
    ensures Split(['\\', c], START) == Ok([['\\', c]])
    ensures Shell(['\\', c], [], "", false, Plain) == Ok([[c]])
  {
    var raw := ['\\', c];
    BareSafeIsLiteral(c);
    assert raw[1..] == [c] && raw[1..][1..] == [];
    assert "" + [c] == [c] && [] + [[c]] == [[c]];
    var end := Scan([], raw, true, None);
    assert end.Flush().fields == [] + [raw] == [raw];
    assert START.Put('\\').Put(c) == end;
    assert Split([], end) == Ok([raw]);
    assert Split(raw, START) == Split([c], START.Put('\\')) == Split([], end);
    assert Shell(raw, [], "", false, Plain) == Shell([], [], [c], true, Plain);
  }
}
