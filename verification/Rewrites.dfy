/** Whether the gate knows its own rewrite again: exactly which outputs survive
    being rewritten, parsed and looked up. */
module Rewrites {
  import opened Text
  import opened PosixShell
  import opened Shlex
  import opened Adapter

  // ---------------------------------------------------------------------------
  // What the scanner sees of an output
  // ---------------------------------------------------------------------------

  /** Where the scanner takes itself to be in a quoted output: still inside the
      quotes, in double quotes, or outside. */
  datatype Place = Inside | InDouble | Outside

  /** A quote in the output is printed as quote, double quote, quote, double quote,
      quote; a backslash before it hides the first of the five. */
  function AfterQuote(p: Place, escaped: bool): Place {
    match p
    case Inside => if escaped then InDouble else Inside
    case InDouble => Outside
    case Outside => if escaped then Inside else InDouble
  }

  /** A double quote in the output is printed as it is. */
  function AfterDouble(p: Place): Place {
    match p
    case Inside => Inside
    case InDouble => Outside
    case Outside => InDouble
  }

  /** Reading the output itself: does anything in `wanted` come up while the
      scanner takes itself to be outside? */
  predicate Leaks(output: string, p: Place, escaped: bool, wanted: set<char>) {
    output != "" &&
    var c, more := output[0], output[1..];
    if c == '\'' then Leaks(more, AfterQuote(p, escaped), false, wanted)
    else if escaped then Leaks(more, p, false, wanted)
    else if c == '\\' then Leaks(more, p, true, wanted)
    else if c == '"' then Leaks(more, AfterDouble(p), false, wanted)
    else (p == Outside && c in wanted) || Leaks(more, p, false, wanted)
  }

  predicate OutputLeaks(output: string) {
    Leaks(output, Inside, false, OPERATORS) || Leaks(output, Inside, false, DYNAMIC)
  }

  /** `Exposed`, from the middle of a command. */
  predicate ExposedFrom(rest: string, s: Scan, wanted: set<char>) {
    rest != "" && ((s == START && rest[0] in wanted) || ExposedFrom(rest[1..], Adapter.Step(s, rest[0]), wanted))
  }

  lemma {:induction false} ExposedFromIff(command: string, n: nat, wanted: set<char>)
    requires n <= |command|
    ensures ExposedFrom(command[n..], ScanAt(command, n), wanted) <==>
            exists k :: n <= k < |command| && ExposedAt(command, k, wanted)
    decreases |command| - n
  {
    if n < |command| {
      assert command[n..][0] == command[n] && command[n..][1..] == command[n + 1..];
      ExposedFromIff(command, n + 1, wanted);
      assert ExposedAt(command, n, wanted) <==> ScanAt(command, n) == START && command[n] in wanted;
    }
  }

  lemma ExposedIff(command: string, wanted: set<char>)
    ensures Exposed(command, wanted) <==> ExposedFrom(command, START, wanted)
  {
    ExposedFromIff(command, 0, wanted);
    assert command[0..] == command;
  }

  // ---------------------------------------------------------------------------
  // Scanning known text
  // ---------------------------------------------------------------------------

  function ScanOf(p: Place, escaped: bool): Scan {
    Scan(match p case Inside => Some('\'') case InDouble => Some('"') case Outside => None, escaped)
  }

  predicate Harmless(wanted: set<char>) {
    wanted !! {'\\', '\'', '"'}
  }

  /** The scan over a text, all of it. */
  function ScanOver(text: string, s: Scan): Scan {
    if text == "" then s else ScanOver(text[1..], Adapter.Step(s, text[0]))
  }

  /** A text with nothing wanted in it only moves the scanner. */
  lemma {:induction false} PassOver(text: string, rest: string, s: Scan, wanted: set<char>)
    requires forall i :: 0 <= i < |text| ==> text[i] !in wanted
    ensures ExposedFrom(text + rest, s, wanted) == ExposedFrom(rest, ScanOver(text, s), wanted)
  {
    if text == "" {
      assert text + rest == rest;
    } else {
      assert (text + rest)[0] == text[0] && (text + rest)[1..] == text[1..] + rest;
      PassOver(text[1..], rest, Adapter.Step(s, text[0]), wanted);
    }
  }

  lemma QuoteMoves(p: Place, escaped: bool)
    ensures ScanOver(DOUBLE_QUOTED, ScanOf(p, escaped)) == ScanOf(AfterQuote(p, escaped), false)
  {
    var d := DOUBLE_QUOTED;
    var s := ScanOf(p, escaped);
    assert d[1..] == "\"'\"'" && d[1..][1..] == "'\"'" && d[1..][1..][1..] == "\"'";
    assert d[1..][1..][1..][1..] == "'" && d[1..][1..][1..][1..][1..] == "";
    var a := Adapter.Step(s, '\'');
    var b := Adapter.Step(a, '"');
    var c := Adapter.Step(b, '\'');
    var e := Adapter.Step(c, '"');
    assert ScanOver("'", e) == Adapter.Step(e, '\'');
    assert ScanOver("\"'", c) == ScanOver("'", e);
    assert ScanOver("'\"'", b) == ScanOver("\"'", c);
    assert ScanOver("\"'\"'", a) == ScanOver("'\"'", b);
    assert ScanOver(d, s) == ScanOver("\"'\"'", a);
  }

  lemma {:induction false} ExposedIsLeak(output: string, p: Place, escaped: bool, wanted: set<char>)
    requires Harmless(wanted)
    ensures ExposedFrom(Replaced(output, DOUBLE_QUOTED) + "'", ScanOf(p, escaped), wanted) ==
            Leaks(output, p, escaped, wanted)
  {
    if output == "" {
      assert Replaced(output, DOUBLE_QUOTED) + "'" == "'" && "'"[1..] == "";
    } else {
      var c, more := output[0], output[1..];
      var left := Replaced(more, DOUBLE_QUOTED) + "'";
      var first := if c == '\'' then DOUBLE_QUOTED else [c];
      assert Replaced(output, DOUBLE_QUOTED) + "'" == first + left;
      if c == '\'' {
        QuoteMoves(p, escaped);
        PassOver(DOUBLE_QUOTED, left, ScanOf(p, escaped), wanted);
        ExposedIsLeak(more, AfterQuote(p, escaped), false, wanted);
      } else {
        assert (first + left)[0] == c && (first + left)[1..] == left;
        var next := if !escaped && c == '"' then AfterDouble(p) else p;
        ExposedIsLeak(more, next, !escaped && c == '\\', wanted);
        assert Adapter.Step(ScanOf(p, escaped), c) == ScanOf(next, !escaped && c == '\\');
      }
    }
  }

  /** An output of safe characters never leaves the place it starts in. */
  lemma {:induction false} SafeNeverLeaks(output: string, wanted: set<char>)
    requires AllSafe(output)
    ensures !Leaks(output, Inside, false, wanted)
  {
    if output != "" {
      SafeNeverLeaks(output[1..], wanted);
    }
  }

  /** The two parts of the rewrite before the output. */
  const COMMAND := "printf "
  const FORMAT := "'%s' "

  lemma NothingWanted(wanted: set<char>)
    requires wanted == OPERATORS || wanted == DYNAMIC
    ensures forall i :: 0 <= i < |COMMAND| ==> COMMAND[i] !in wanted
    ensures forall i :: 0 <= i < |FORMAT| ==> FORMAT[i] !in wanted
  {
  }

  lemma PrintfIsHarmless(rest: string, wanted: set<char>)
    requires wanted == OPERATORS || wanted == DYNAMIC
    ensures ExposedFrom(PRINTF + rest, START, wanted) == ExposedFrom(rest, START, wanted)
  {
    NothingWanted(wanted);
    assert PRINTF + rest == COMMAND + (FORMAT + rest);
    PassOver(COMMAND, FORMAT + rest, START, wanted);
    PlainMoves(COMMAND);
    PassOver(FORMAT, rest, START, wanted);
    QuotedMoves();
  }

  lemma {:induction false} PlainMoves(text: string)
    requires forall i :: 0 <= i < |text| ==> text[i] != '\\' && text[i] != '\'' && text[i] != '"'
    ensures ScanOver(text, START) == START
  {
    if text != "" {
      PlainMoves(text[1..]);
    }
  }

  lemma QuotedMoves()
    ensures ScanOver(FORMAT, START) == START
  {
    var inside := Scan(Some('\''), false);
    var text := FORMAT;
    assert text[1..] == "%s' " && text[1..][1..] == "s' " && text[1..][1..][1..] == "' ";
    assert text[1..][1..][1..][1..] == " " && text[1..][1..][1..][1..][1..] == "";
    assert ScanOver(" ", START) == START;
    assert ScanOver("' ", inside) == ScanOver(" ", START);
    assert ScanOver("s' ", inside) == ScanOver("' ", inside);
    assert ScanOver("%s' ", inside) == ScanOver("s' ", inside);
  }

  lemma {:induction false} SafeIsUnexposed(output: string, wanted: set<char>)
    requires AllSafe(output) && (wanted == OPERATORS || wanted == DYNAMIC)
    ensures !ExposedFrom(output, START, wanted)
  {
    if output != "" {
      SafeIsUnexposed(output[1..], wanted);
    }
  }

  /** The scanners' verdict on a rewrite, told from the output alone. */
  lemma ReplacementExposedIff(output: string, wanted: set<char>)
    requires wanted == OPERATORS || wanted == DYNAMIC
    ensures Exposed(Replacement(output), wanted) <==> Leaks(output, Inside, false, wanted)
  {
    var quoted := Quote(output);
    ExposedIff(Replacement(output), wanted);
    PrintfIsHarmless(quoted, wanted);
    if output != "" && AllSafe(output) {
      SafeNeverLeaks(output, wanted);
      SafeIsUnexposed(output, wanted);
    } else {
      var text := Replaced(output, DOUBLE_QUOTED) + "'";
      assert quoted == "'" + text;
      assert quoted[0] == '\'' && quoted[1..] == text;
      ExposedIsLeak(output, Inside, false, wanted);
    }
  }

  // ---------------------------------------------------------------------------
  // Parsing the rewrite
  // ---------------------------------------------------------------------------

  /** The rewrite parses back to its three words exactly when it is within the
      limit, holds no NUL, and nothing in the output comes up where the scanners
      take themselves to be outside its quotes. */
  lemma ReplacementParsesIff(output: string)
    ensures ParseOf(Line(Replacement(output))) == Argv(["printf", "%s", output]) <==>
            |Replacement(output)| <= MAX_COMMAND && '\0' !in output && !OutputLeaks(output)
  {
    ReplacementExposedIff(output, OPERATORS);
    ReplacementExposedIff(output, DYNAMIC);
    SplitReplacement(output);
    HoldsNul(output);
  }

  lemma HoldsNul(output: string)
    ensures Holds(["printf", "%s", output], {'\0'}) <==> '\0' in output
  {
    var argv := ["printf", "%s", output];
    if '\0' in output {
      var i :| 0 <= i < |output| && output[i] == '\0';
      assert argv[2][i] in {'\0'};
    }
    if Holds(argv, {'\0'}) {
      var k, i :| 0 <= k < |argv| && 0 <= i < |argv[k]| && argv[k][i] in {'\0'};
      assert k == 2;
    }
  }

  /** No backslash, no leak. */
  lemma {:induction false} NoBackslashNoLeak(output: string, wanted: set<char>)
    requires '\\' !in output
    ensures !Leaks(output, Inside, false, wanted)
  {
    if output != "" {
      NoBackslashNoLeak(output[1..], wanted);
    }
  }

  /** So every output without a backslash and without a NUL, within the limit,
      comes back. */
  lemma ReplacementParses(output: string)
    requires '\\' !in output && '\0' !in output && |Replacement(output)| <= MAX_COMMAND
    ensures ParseOf(Line(Replacement(output))) == Argv(["printf", "%s", output])
  {
    NoBackslashNoLeak(output, OPERATORS);
    NoBackslashNoLeak(output, DYNAMIC);
    ReplacementParsesIff(output);
  }

  /** With a backslash it may not, although the shell would read it: inside single
      quotes the shell takes a backslash literally and the scanners do not. */
  lemma BackslashedQuoteIsRefused()
    ensures
      var output := "\\'\";";
      && ParseOf(Line(Replacement(output))) == Refused(ShellOperator)
      && Commands(Replacement(output)) == Some([["printf", "%s", output]])
  {
    var output := "\\'\";";
    ShellReadsReplacement(output);
    ReplacementExposedIff(output, OPERATORS);
    assert output[1..] == "'\";" && output[1..][1..] == "\";" && output[1..][1..][1..] == ";";
    assert Leaks(";", Outside, false, OPERATORS);
    assert Leaks("\";", InDouble, false, OPERATORS);
    assert Leaks("'\";", Inside, true, OPERATORS);
    assert Leaks(output, Inside, false, OPERATORS);
    assert !AllSafe(output) by {
      assert !IsSafe(output[0]);
    }
    ShortReplacement(output);
  }

  lemma ShortReplacement(output: string)
    requires output == "\\'\";"
    ensures |Replacement(output)| <= MAX_COMMAND
  {
    assert output[1..] == "'\";" && output[1..][1..] == "\";" && output[1..][1..][1..] == ";" && ";"[1..] == "";
    assert |Replaced(";", DOUBLE_QUOTED)| == 1;
    assert |Replaced("\";", DOUBLE_QUOTED)| == 2;
    assert |Replaced("'\";", DOUBLE_QUOTED)| == 7;
    assert |Replaced(output, DOUBLE_QUOTED)| == 8;
  }

  // ---------------------------------------------------------------------------
  // Looking the output up
  // ---------------------------------------------------------------------------

  datatype Exception = AdapterError | ValueError | OtherError

  /** What a virtual command gives under one profile. */
  datatype Probe = Output(stdout: string, exitCode: int, failure: Option<string>) | Raised(exception: Exception)

  /** The forms a rewrite is compared with; an error in one of the first nine is
      passed over, in one of the last three it is not. */
  const SINGLE: nat := 9
  const FORMS: seq<seq<string>> :=
    [["hostname"], ["whoami"], ["id"], ["uname"], ["pwd"], ["date"], ["env"], ["locale"], ["printenv"],
     ["uname", "-a"], ["date", "-u"], ["date", "+%Y-%m-%d"]]

  /** The forms: nine single words, and three commands with one argument. An error is
      passed over for the single words only. */
  lemma FormIff(form: seq<string>)
    ensures form in FORMS <==>
            || (|form| == 1 &&
                form[0] in {"hostname", "whoami", "id", "uname", "pwd", "date", "env", "locale", "printenv"})
            || form in {["uname", "-a"], ["date", "-u"], ["date", "+%Y-%m-%d"]}
    ensures forall k :: 0 <= k < |FORMS| ==> (k < SINGLE <==> |FORMS[k]| == 1)
    ensures FORMS[SINGLE..] == [["uname", "-a"], ["date", "-u"], ["date", "+%Y-%m-%d"]]
  {
    if |form| == 1 {
      assert form == [form[0]];
    }
  }

  datatype Recognition = Recognised(payload: string) | NotRecognised | Propagated(exception: Exception)

  type Profile = seq<string> -> Probe

  predicate Gives(profile: Profile, k: nat, payload: string)
    requires k < |FORMS|
  {
    profile(FORMS[k]) == Output(payload, 0, None)
  }

  /** An error that gets out of the recogniser. */
  predicate Throws(profile: Profile, k: nat)
    requires k < |FORMS|
  {
    profile(FORMS[k]).Raised? && (k >= SINGLE || profile(FORMS[k]).exception == OtherError)
  }

  /** The first `n` forms neither give the payload nor throw. */
  predicate PassedOver(profile: Profile, payload: string, n: nat)
    requires n <= |FORMS|
  {
    forall k :: 0 <= k < n ==> !Gives(profile, k, payload) && !Throws(profile, k)
  }

  /** Some form gives the payload, and none before it throws. */
  predicate Found(profile: Profile, payload: string) {
    exists k :: 0 <= k < |FORMS| && Gives(profile, k, payload) && PassedOver(profile, payload, k)
  }

  /** The command is a rewrite of an output some form gives. */
  predicate Recognises(profile: Profile, command: Command, payload: string) {
    command.Line? && ParseOf(command) == Argv(["printf", "%s", payload]) && Found(profile, payload)
  }

  /** Form `k` throws `exception`, and none before it gives the payload or throws. */
  predicate ThrownAt(profile: Profile, payload: string, k: nat, exception: Exception)
    requires k < |FORMS|
  {
    profile(FORMS[k]) == Raised(exception) && Throws(profile, k) && PassedOver(profile, payload, k)
  }

  /** What comes out of a rewrite's recognition is an exception. */
  ghost predicate Escapes(profile: Profile, command: Command, exception: Exception) {
    command.Line? &&
    exists payload, k: nat :: k < |FORMS| && ParseOf(command) == Argv(["printf", "%s", payload]) &&
      ThrownAt(profile, payload, k, exception)
  }

  /** One form: give it up, recognise it, or go on. */
  method TryForm(profile: Profile, k: nat, payload: string) returns (r: Recognition)
    requires k < |FORMS|
    ensures r.Recognised? <==> Gives(profile, k, payload)
    ensures r.Recognised? ==> r.payload == payload
    ensures r.Propagated? <==> Throws(profile, k)
    ensures r.Propagated? ==> profile(FORMS[k]) == Raised(r.exception)
  {
    match profile(FORMS[k])
    case Output(stdout, exitCode, failure) =>
      r := if failure.None? && exitCode == 0 && payload == stdout then Recognised(payload) else NotRecognised;
    case Raised(exception) =>
      r := if k < SINGLE && exception != OtherError then NotRecognised else Propagated(exception);
  }

  /** `_profile_replacement_output`: the payload of a rewrite, if some form gives
      it before any form throws, or else what the first to throw throws. */
  method Recognise(profile: Profile, command: Command) returns (r: Recognition)
    ensures r.Recognised? ==> Recognises(profile, command, r.payload)
    ensures !r.Recognised? ==> forall payload :: !Recognises(profile, command, payload)
    ensures r.Propagated? ==> Escapes(profile, command, r.exception)
    ensures !r.Propagated? ==> forall exception :: !Escapes(profile, command, exception)
  {
    if command.Words? {
      return NotRecognised;
    }
    var parsed := ParseArgv(command);
    if parsed.Refused? || |parsed.argv| != 3 || parsed.argv[0] != "printf" || parsed.argv[1] != "%s" {
      return NotRecognised;
    }
    var payload := parsed.argv[2];
    assert parsed.argv == ["printf", "%s", payload];
    for k := 0 to |FORMS|
      invariant PassedOver(profile, payload, k)
    {
      r := TryForm(profile, k, payload);
      if r.Recognised? {
        return r;
      }
      if r.Propagated? {
        assert ThrownAt(profile, payload, k, r.exception);
        return r;
      }
    }
    r := NotRecognised;
  }

  /** The gate knows its own rewrite of an output exactly when the rewrite parses
      back, which the output decides, and some listed form still gives that output
      with nothing thrown before it. */
  lemma OwnRewriteIsRecognisedIff(profile: Profile, output: string)
    ensures Recognises(profile, Line(Replacement(output)), output) <==>
            && |Replacement(output)| <= MAX_COMMAND && '\0' !in output && !OutputLeaks(output)
            && Found(profile, output)
  {
    ReplacementParsesIff(output);
  }

  /** So under a profile where nothing throws, every listed form's output that is
      within the limit and has no backslash and no NUL is recognised. */
  lemma ListedFormsAreRecognised(profile: Profile, k: nat, output: string)
    requires k < |FORMS| && Gives(profile, k, output)
    requires forall j :: 0 <= j < |FORMS| ==> !Throws(profile, j)
    requires '\\' !in output && '\0' !in output && |Replacement(output)| <= MAX_COMMAND
    ensures Recognises(profile, Line(Replacement(output)), output)
  {
    ReplacementParses(output);
    FirstGiver(profile, output, k);
  }

  lemma {:induction false} FirstGiver(profile: Profile, output: string, k: nat)
    requires k < |FORMS| && Gives(profile, k, output)
    requires forall j :: 0 <= j < |FORMS| ==> !Throws(profile, j)
    ensures Found(profile, output)
  {
    if j :| 0 <= j < k && Gives(profile, j, output) {
      FirstGiver(profile, output, j);
    } else {
      assert PassedOver(profile, output, k);
    }
  }
}
