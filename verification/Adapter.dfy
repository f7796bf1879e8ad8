/** The command gate's parser, the rewrite it makes of an observed command, and
    the recogniser that has to know its own rewrite again. */
module Adapter {
  import opened Text
  import opened PosixShell
  import opened Shlex

  const MAX_COMMAND: nat := 8192

  const OPERATORS: set<char> := {';', '|', '>', '<', '&', '\n', '\r'}
  const DYNAMIC: set<char> := {'$', '`'}

  const OPERATOR_WORDS: set<string> := {";", "&&", "||", "|", ">", ">>", "<", "<<", "&", "\n", "\r"}

  // ---------------------------------------------------------------------------
  // The quote scanners
  // ---------------------------------------------------------------------------

  /** Where a scanner is: inside which quotes, and whether the last character was
      a backslash. A backslash escapes even inside single quotes here. */
  datatype Scan = Scan(quote: Option<char>, escaped: bool)

  const START := Scan(None, false)

  function Step(s: Scan, c: char): Scan {
    if s.escaped then s.(escaped := false)
    else if c == '\\' then s.(escaped := true)
    else if s.quote.Some? then if s.quote == Some(c) then s.(quote := None) else s
    else if c == '\'' || c == '"' then s.(quote := Some(c))
    else s
  }

  /** Where the scanner is after `n` characters. */
  function ScanAt(command: string, n: nat): Scan
    requires n <= |command|
  {
    if n == 0 then START else Step(ScanAt(command, n - 1), command[n - 1])
  }

  /** A character of `wanted` outside quotes, as far as the scanner can tell. */
  predicate ExposedAt(command: string, k: nat, wanted: set<char>)
    requires k < |command|
  {
    ScanAt(command, k) == START && command[k] in wanted
  }

  predicate Exposed(command: string, wanted: set<char>) {
    exists k :: 0 <= k < |command| && ExposedAt(command, k, wanted)
  }

  /** `_has_unquoted_shell_operator` and `_has_unquoted_dynamic_expansion`, which
      differ in what they look for. */
  method HasUnquoted(command: string, wanted: set<char>) returns (found: bool)
    requires wanted !! {'\\', '\'', '"'}
    ensures found <==> Exposed(command, wanted)
  {
    var quote: Option<char>, escaped := None, false;
    for k := 0 to |command|
      invariant Scan(quote, escaped) == ScanAt(command, k)
      invariant forall j :: 0 <= j < k ==> !ExposedAt(command, j, wanted)
    {
      var c := command[k];
      if escaped {
        escaped := false;
      } else if c == '\\' {
        escaped := true;
      } else if quote.Some? {
        if c == quote.value {
          quote := None;
        }
      } else if c == '\'' || c == '"' {
        quote := Some(c);
      } else if c in wanted {
        assert ExposedAt(command, k, wanted);
        return true;
      }
    }
    found := false;
  }

  // ---------------------------------------------------------------------------
  // Parsing
  // ---------------------------------------------------------------------------

  datatype Command = Line(text: string) | Words(argv: seq<string>)

  datatype Refusal =
    CommandTooLarge | ShellOperator | DynamicExpansion | CommandParseError | EmptyOrTooLarge | ArgumentInvalid

  datatype Parsed = Argv(argv: seq<string>) | Refused(reason: Refusal)

  predicate Holds(argv: seq<string>, wanted: set<char>) {
    exists k, i :: 0 <= k < |argv| && 0 <= i < |argv[k]| && argv[k][i] in wanted
  }

  function CheckedWords(argv: seq<string>, listed: bool): Parsed {
    if argv == [] || |argv| > 128 then Refused(EmptyOrTooLarge)
    else if Holds(argv, {'\0'}) then Refused(ArgumentInvalid)
    else if listed && ((exists k :: 0 <= k < |argv| && argv[k] in OPERATOR_WORDS) || Holds(argv, OPERATORS))
    then Refused(ShellOperator)
    else if listed && Holds(argv, DYNAMIC) then Refused(DynamicExpansion)
    else Argv(argv)
  }

  /** What `parse_argv` makes of a command. */
  function ParseOf(command: Command): Parsed {
    match command
    case Words(argv) => CheckedWords(argv, true)
    case Line(text) =>
      if |text| > MAX_COMMAND then Refused(CommandTooLarge)
      else if Exposed(text, OPERATORS) then Refused(ShellOperator)
      else if Exposed(text, DYNAMIC) then Refused(DynamicExpansion)
      else
        var argv := Split(text);
        if argv.None? then Refused(CommandParseError) else CheckedWords(argv.value, false)
  }

  /** `parse_argv` */
  method ParseArgv(command: Command) returns (parsed: Parsed)
    ensures parsed == ParseOf(command)
  {
    if command.Words? {
      return CheckedWords(command.argv, true);
    }
    if |command.text| > MAX_COMMAND {
      return Refused(CommandTooLarge);
    }
    var operator := HasUnquoted(command.text, OPERATORS);
    if operator {
      return Refused(ShellOperator);
    }
    var dynamic := HasUnquoted(command.text, DYNAMIC);
    if dynamic {
      return Refused(DynamicExpansion);
    }
    var argv := Split(command.text);
    parsed := if argv.None? then Refused(CommandParseError) else CheckedWords(argv.value, false);
  }

  // ---------------------------------------------------------------------------
  // What is accepted
  // ---------------------------------------------------------------------------

  /** Some word has such a character, wherever it stands. */
  predicate AnyIn(argv: seq<string>, chars: string) {
    exists k, i :: 0 <= k < |argv| && 0 <= i < |argv[k]| && argv[k][i] in chars
  }

  predicate RightSize(argv: seq<string>) {
    1 <= |argv| <= 128
  }

  lemma OperatorWordsHoldOperators(argv: seq<string>)
    requires exists k :: 0 <= k < |argv| && argv[k] in OPERATOR_WORDS
    ensures Holds(argv, OPERATORS)
  {
    var k :| 0 <= k < |argv| && argv[k] in OPERATOR_WORDS;
    assert |argv[k]| > 0 && argv[k][0] in OPERATORS;
  }

  lemma HoldsIff(argv: seq<string>)
    ensures Holds(argv, {'\0'}) <==> AnyIn(argv, "\0")
    ensures Holds(argv, OPERATORS) <==> AnyIn(argv, ";&|><\n\r")
    ensures Holds(argv, DYNAMIC) <==> AnyIn(argv, "$`")
  {
    SameMembers(";&|><\n\r", OPERATORS);
    SameMembers("$`", DYNAMIC);
    SameMembers("\0", {'\0'});
    HoldsSame(argv, "\0", {'\0'});
    HoldsSame(argv, ";&|><\n\r", OPERATORS);
    HoldsSame(argv, "$`", DYNAMIC);
  }

  lemma SameMembers(chars: string, wanted: set<char>)
    requires (set c | c in chars) == wanted
    ensures forall c :: c in chars <==> c in wanted
  {
    assert forall c :: c in chars <==> c in (set x | x in chars);
  }

  lemma HoldsSame(argv: seq<string>, chars: string, wanted: set<char>)
    requires forall c :: c in chars <==> c in wanted
    ensures Holds(argv, wanted) <==> AnyIn(argv, chars)
  {
  }

  /** What a list of words comes to, in the order its faults are looked for. A list
      that comes back comes back unchanged, and no word of it has in it, anywhere,
      what a shell would act on. */
  lemma WordsIff(argv: seq<string>)
    ensures
      var parsed := ParseOf(Words(argv));
      var whole := RightSize(argv) && !AnyIn(argv, "\0");
      && (parsed == Refused(EmptyOrTooLarge) <==> !RightSize(argv))
      && (parsed == Refused(ArgumentInvalid) <==> RightSize(argv) && AnyIn(argv, "\0"))
      && (parsed == Refused(ShellOperator) <==> whole && AnyIn(argv, ";&|><\n\r"))
      && (parsed == Refused(DynamicExpansion) <==> whole && !AnyIn(argv, ";&|><\n\r") && AnyIn(argv, "$`"))
      && (parsed == Argv(argv) <==> whole && !AnyIn(argv, ";&|><\n\r") && !AnyIn(argv, "$`"))
      && (parsed.Argv? ==> parsed == Argv(argv))
  {
    HoldsIff(argv);
    if exists k :: 0 <= k < |argv| && argv[k] in OPERATOR_WORDS {
      OperatorWordsHoldOperators(argv);
    }
  }

  /** What a command line comes to: only what the scanners take to stand outside
      quotes is held against it, and then how it splits. */
  lemma LineIff(text: string)
    ensures
      var parsed, words := ParseOf(Line(text)), Split(text);
      var bare := |text| <= 8192 && !Exposed(text, OPERATORS) && !Exposed(text, DYNAMIC);
      && (parsed == Refused(CommandTooLarge) <==> |text| > 8192)
      && (parsed == Refused(ShellOperator) <==> |text| <= 8192 && Exposed(text, OPERATORS))
      && (parsed == Refused(DynamicExpansion) <==>
          |text| <= 8192 && !Exposed(text, OPERATORS) && Exposed(text, DYNAMIC))
      && (parsed == Refused(CommandParseError) <==> bare && words == None)
      && (parsed == Refused(EmptyOrTooLarge) <==> bare && words.Some? && !RightSize(words.value))
      && (parsed == Refused(ArgumentInvalid) <==>
          bare && words.Some? && RightSize(words.value) && AnyIn(words.value, "\0"))
      && forall argv ::
           parsed == Argv(argv) <==> bare && words == Some(argv) && RightSize(argv) && !AnyIn(argv, "\0")
  {
    if Split(text).Some? {
      HoldsIff(Split(text).value);
    }
  }

  // ---------------------------------------------------------------------------
  // The rewrite
  // ---------------------------------------------------------------------------

  const PRINTF := "printf '%s' "

  /** What an observed command is rewritten to: print its output. */
  function Replacement(output: string): string {
    PRINTF + Quote(output)
  }

  lemma PrintfText(rest: string)
    ensures PRINTF + rest == "printf" + " " + ("'" + Replaced("%s", DOUBLE_QUOTED) + "'" + (" " + rest))
  {
    var word, left := "'%s'", " " + rest;
    NothingReplaced("%s", DOUBLE_QUOTED);
    assert "'" + Replaced("%s", DOUBLE_QUOTED) + "'" == word;
    assert PRINTF == "printf" + " " + (word + " ");
    assert word + " " + rest == word + left;
  }

  lemma ReadPrintf(rest: string)
    ensures Read(PRINTF + rest, Plain, None, [], []) == Read(rest, Plain, None, ["printf", "%s"], [])
  {
    var left := " " + rest;
    var second := "'" + Replaced("%s", DOUBLE_QUOTED) + "'" + left;
    PrintfText(rest);
    ReadPlainWord("printf", second, [], []);
    assert [] + ["printf"] == ["printf"];
    ReadQuotedWord("%s", DOUBLE_QUOTED, left, ["printf"], []);
    assert left[0] == ' ' && left[1..] == rest;
    assert ["printf"] + ["%s"] == ["printf", "%s"];
  }

  lemma SafeIsOrdinary(s: string)
    requires AllSafe(s)
    ensures AllOrdinary(s)
  {
  }

  lemma ReadBare(s: string, words: seq<string>)
    requires AllOrdinary(s) && s != ""
    ensures Read(s, Plain, None, words, []) == Some([words + [s]])
  {
    ReadOrdinary(s, "", None, words, []);
    assert s + "" == s && Sofar(None) + s == s;
    assert [] + [words + [s]] == [words + [s]];
  }

  lemma ReadLast(s: string, words: seq<string>)
    ensures Read(Quote(s), Plain, None, words, []) == Some([words + [s]])
  {
    if s != "" && AllSafe(s) {
      SafeIsOrdinary(s);
      ReadBare(s, words);
    } else {
      ReadQuotedWord(s, DOUBLE_QUOTED, "", words, []);
      assert Quote(s) == "'" + Replaced(s, DOUBLE_QUOTED) + "'" + "";
      assert [] + [words + [s]] == [words + [s]];
    }
  }

  /** The shell reads the rewrite as three words, whatever the output holds. */
  lemma ShellReadsReplacement(output: string)
    ensures Commands(Replacement(output)) == Some([["printf", "%s", output]])
  {
    ReadPrintf(Quote(output));
    ReadLast(output, ["printf", "%s"]);
    assert ["printf", "%s"] + [output] == ["printf", "%s", output];
  }

  lemma LexPrintf(rest: string)
    ensures Lex(PRINTF + rest, Between, "", false, []) == Lex(rest, Between, "", false, ["printf", "%s"])
  {
    var left := " " + rest;
    var second := "'" + Replaced("%s", DOUBLE_QUOTED) + "'" + left;
    PrintfText(rest);
    LexPlainWord("printf", second, []);
    assert [] + ["printf"] == ["printf"];
    LexQuotedWord("%s", left, ["printf"]);
    assert left[0] == ' ' && left[1..] == rest;
    assert ["printf"] + ["%s"] == ["printf", "%s"];
  }

  /** So does the splitter. */
  lemma SplitReplacement(output: string)
    ensures Split(Replacement(output)) == Some(["printf", "%s", output])
  {
    LexPrintf(Quote(output));
    LexQuoted(output, ["printf", "%s"]);
    assert ["printf", "%s"] + [output] == ["printf", "%s", output];
  }
}
