/** The shell script a launch plan prints, and what a shell makes of it. */
module Launch {
  import opened Text
  import opened Sums
  import opened PosixShell

  const APPLY_HEADER := "ags-environment-apply-v1"

  datatype LaunchPlan = LaunchPlan(profileId: string, setEnv: seq<(string, string)>, unsetEnv: seq<string>)

  /** What applying a plan does to an environment, one change at a time. */
  datatype Change = Set(name: string, value: string) | Unset(name: string)

  /** The changes a plan makes to a launch directly: set in order, then unset. */
  function ChangesOf(plan: LaunchPlan): seq<Change> {
    SetsOf(plan.setEnv) + UnsetsOf(plan.unsetEnv)
  }

  function SetsOf(setEnv: seq<(string, string)>): seq<Change> {
    if setEnv == [] then [] else [Set(setEnv[0].0, setEnv[0].1)] + SetsOf(setEnv[1..])
  }

  function UnsetsOf(unsetEnv: seq<string>): seq<Change> {
    if unsetEnv == [] then [] else [Unset(unsetEnv[0])] + UnsetsOf(unsetEnv[1..])
  }

  // ---------------------------------------------------------------------------
  // The script
  // ---------------------------------------------------------------------------

  /** `posix_single_quote` */
  function SingleQuoted(value: string): string {
    "'" + Replaced(value, BACKSLASHED) + "'"
  }

  function ExportLine(entry: (string, string)): string {
    "export " + entry.0 + "=" + SingleQuoted(entry.1)
  }

  function UnsetLine(name: string): string {
    "unset " + name
  }

  /** `lines.join("\n")` */
  function Join(lines: seq<string>): string {
    if lines == [] then "" else if |lines| == 1 then lines[0] else lines[0] + "\n" + Join(lines[1..])
  }

  function Exports(setEnv: seq<(string, string)>): seq<string> {
    seq(|setEnv|, k requires 0 <= k < |setEnv| => ExportLine(setEnv[k]))
  }

  function Unsets(unsetEnv: seq<string>): seq<string> {
    seq(|unsetEnv|, k requires 0 <= k < |unsetEnv| => UnsetLine(unsetEnv[k]))
  }

  function Lines(plan: LaunchPlan): seq<string> {
    ["# " + APPLY_HEADER, "# " + plan.profileId] + Exports(plan.setEnv) + Unsets(plan.unsetEnv)
  }

  function Script(plan: LaunchPlan): string {
    Join(Lines(plan)) + "\n"
  }

  /** `LaunchPlan::to_shell` */
  method ToShell(plan: LaunchPlan) returns (script: string)
    ensures script == Script(plan)
  {
    var header := ["# " + APPLY_HEADER, "# " + plan.profileId];
    var lines := header;
    for k := 0 to |plan.setEnv|
      invariant lines == header + Exports(plan.setEnv[..k])
    {
      lines := lines + [ExportLine(plan.setEnv[k])];
      assert Exports(plan.setEnv[..k + 1]) == Exports(plan.setEnv[..k]) + [ExportLine(plan.setEnv[k])];
    }
    assert plan.setEnv[..|plan.setEnv|] == plan.setEnv;
    ghost var exported := lines;
    for k := 0 to |plan.unsetEnv|
      invariant lines == exported + Unsets(plan.unsetEnv[..k])
    {
      lines := lines + [UnsetLine(plan.unsetEnv[k])];
      assert Unsets(plan.unsetEnv[..k + 1]) == Unsets(plan.unsetEnv[..k]) + [UnsetLine(plan.unsetEnv[k])];
    }
    assert plan.unsetEnv[..|plan.unsetEnv|] == plan.unsetEnv;
    script := Join(lines) + "\n";
  }

  // ---------------------------------------------------------------------------
  // Reading it back
  // ---------------------------------------------------------------------------

  predicate NameStart(c: char) {
    'a' <= c <= 'z' || 'A' <= c <= 'Z' || c == '_'
  }

  /** A name a shell will assign to. */
  predicate IsName(s: string) {
    s != "" && NameStart(s[0]) && forall i :: 0 <= i < |s| ==> NameStart(s[i]) || '0' <= s[i] <= '9'
  }

  /** What a name is made of: ASCII letters, digits and underscores, by their code
      points, and no digit first. */
  lemma IsNameIff(s: string)
    ensures IsName(s) <==>
            && s != ""
            && !(48 <= s[0] as int <= 57)
            && forall i :: 0 <= i < |s| ==>
                 var n := s[i] as int;
                 48 <= n <= 57 || 65 <= n <= 90 || s[i] == '_' || 97 <= n <= 122
  {
  }

  predicate NamesAreValid(plan: LaunchPlan) {
    && (forall k :: 0 <= k < |plan.setEnv| ==> IsName(plan.setEnv[k].0))
    && (forall k :: 0 <= k < |plan.unsetEnv| ==> IsName(plan.unsetEnv[k]))
  }

  /** The part before the first `=`, or all of it. */
  function BeforeEquals(word: string): (name: string)
    ensures name <= word
  {
    if word == "" || word[0] == '=' then "" else [word[0]] + BeforeEquals(word[1..])
  }

  /** What a command changes; any other command is refused. */
  function ChangeOf(command: seq<string>): Option<Change> {
    if |command| != 2 then None
    else if command[0] == "unset" && IsName(command[1]) then Some(Unset(command[1]))
    else
      var name := BeforeEquals(command[1]);
      if command[0] == "export" && IsName(name) && |name| < |command[1]|
      then Some(Set(name, command[1][|name| + 1..]))
      else None
  }

  function AllChanges(commands: seq<seq<string>>): Option<seq<Change>> {
    if commands == [] then Some([])
    else
      var first, more := ChangeOf(commands[0]), AllChanges(commands[1..]);
      if first.None? || more.None? then None else Some([first.value] + more.value)
  }

  /** The changes a shell makes when it runs a script, if it is only that. */
  function Effect(script: string): Option<seq<Change>> {
    var commands := Commands(script);
    if commands.None? then None else AllChanges(commands.value)
  }

  lemma {:induction false} NameEnds(name: string, value: string)
    requires '=' !in name
    ensures BeforeEquals(name + "=" + value) == name
  {
    var word := name + "=" + value;
    if name != "" {
      NameEnds(name[1..], value);
      assert word[0] == name[0] && word[1..] == name[1..] + "=" + value;
    }
  }

  lemma ReadCommentLine(text: string, rest: string, commands: seq<seq<string>>)
    requires '\n' !in text
    ensures Read("# " + text + "\n" + rest, Plain, None, [], commands) == Read(rest, Plain, None, [], commands)
  {
    var comment, left := " " + text, "\n" + rest;
    var all := "# " + text + "\n" + rest;
    assert all == "#" + (comment + left);
    assert all[0] == '#' && all[1..] == comment + left;
    ReadComment(comment, left, [], commands);
    assert left[0] == '\n' && left[1..] == rest;
  }

  const EXPORT := "export"
  const UNSET := "unset"

  lemma ReadUnset(name: string, rest: string, commands: seq<seq<string>>)
    requires IsName(name)
    ensures Read(UnsetLine(name) + "\n" + rest, Plain, None, [], commands) ==
            Read(rest, Plain, None, [], commands + [["unset", name]])
  {
    var left := "\n" + rest;
    assert UnsetLine(name) + "\n" + rest == "unset" + " " + (name + left);
    ReadPlainWord(UNSET, name + left, [], commands);
    assert [] + ["unset"] == ["unset"];
    ReadOrdinary(name, left, None, ["unset"], commands);
    assert left[0] == '\n' && left[1..] == rest;
    assert Sofar(None) + name == name;
    assert ["unset"] + [name] == ["unset", name];
  }

  /** A word that is a name, an equals sign and a quoted value. */
  lemma ReadAssignment(start: string, value: string, rest: string, words: seq<string>, commands: seq<seq<string>>)
    requires AllOrdinary(start) && start != ""
    ensures Read(start + SingleQuoted(value) + rest, Plain, None, words, commands) ==
            Read(rest, Plain, Some(start + value), words, commands)
  {
    var closed := "'" + rest;
    var text := Replaced(value, BACKSLASHED) + closed;
    var quoted := "'" + text;
    assert start + SingleQuoted(value) + rest == start + quoted;
    ReadOrdinary(start, quoted, None, words, commands);
    assert Sofar(None) + start == start;
    assert quoted[0] == '\'' && quoted[1..] == text;
    ReadQuoted(value, BACKSLASHED, closed, start, words, commands);
    assert closed[0] == '\'' && closed[1..] == rest;
  }

  lemma ExportText(entry: (string, string), rest: string)
    ensures ExportLine(entry) + "\n" + rest ==
            "export" + " " + (entry.0 + "=" + SingleQuoted(entry.1) + ("\n" + rest))
  {
    var quoted := SingleQuoted(entry.1);
    assert ExportLine(entry) + "\n" + rest == "export " + (entry.0 + "=" + quoted + ("\n" + rest));
  }

  lemma ReadExport(entry: (string, string), rest: string, commands: seq<seq<string>>)
    requires IsName(entry.0)
    ensures Read(ExportLine(entry) + "\n" + rest, Plain, None, [], commands) ==
            Read(rest, Plain, None, [], commands + [["export", entry.0 + "=" + entry.1]])
  {
    var start, left := entry.0 + "=", "\n" + rest;
    var word := start + SingleQuoted(entry.1) + left;
    ExportText(entry, rest);
    ReadPlainWord(EXPORT, word, [], commands);
    assert [] + ["export"] == ["export"];
    ReadAssignment(start, entry.1, left, ["export"], commands);
    assert left[0] == '\n' && left[1..] == rest;
    assert ["export"] + [start + entry.1] == ["export", entry.0 + "=" + entry.1];
  }

  /** Lines, each with its newline. */
  function Ended(lines: seq<string>): string {
    if lines == [] then "" else lines[0] + "\n" + Ended(lines[1..])
  }

  lemma {:induction false} JoinEnded(lines: seq<string>)
    requires lines != []
    ensures Join(lines) + "\n" == Ended(lines)
  {
    if |lines| == 1 {
      assert Ended(lines[1..]) == "";
    } else {
      JoinEnded(lines[1..]);
      assert Join(lines) + "\n" == lines[0] + "\n" + (Join(lines[1..]) + "\n");
    }
  }

  lemma {:induction false} EndedBoth(a: seq<string>, b: seq<string>)
    ensures Ended(a + b) == Ended(a) + Ended(b)
  {
    if a == [] {
      assert a + b == b;
    } else {
      EndedBoth(a[1..], b);
      assert (a + b)[1..] == a[1..] + b;
      Regroup(a[0] + "\n", Ended(a[1..]), Ended(b));
    }
  }

  function ExportCommands(setEnv: seq<(string, string)>): seq<seq<string>> {
    if setEnv == [] then [] else [["export", setEnv[0].0 + "=" + setEnv[0].1]] + ExportCommands(setEnv[1..])
  }

  function UnsetCommands(unsetEnv: seq<string>): seq<seq<string>> {
    if unsetEnv == [] then [] else [["unset", unsetEnv[0]]] + UnsetCommands(unsetEnv[1..])
  }

  lemma {:induction false} ReadExports(setEnv: seq<(string, string)>, rest: string, commands: seq<seq<string>>)
    requires forall k :: 0 <= k < |setEnv| ==> IsName(setEnv[k].0)
    ensures Read(Ended(Exports(setEnv)) + rest, Plain, None, [], commands) ==
            Read(rest, Plain, None, [], commands + ExportCommands(setEnv))
  {
    if setEnv == [] {
      assert Ended(Exports(setEnv)) + rest == rest && commands + ExportCommands(setEnv) == commands;
    } else {
      var first := [["export", setEnv[0].0 + "=" + setEnv[0].1]];
      var left := Ended(Exports(setEnv[1..])) + rest;
      assert Exports(setEnv)[1..] == Exports(setEnv[1..]);
      assert Ended(Exports(setEnv)) + rest == ExportLine(setEnv[0]) + "\n" + left;
      ReadExport(setEnv[0], left, commands);
      ReadExports(setEnv[1..], rest, commands + first);
      assert commands + first + ExportCommands(setEnv[1..]) == commands + ExportCommands(setEnv);
    }
  }

  lemma {:induction false} ReadUnsets(unsetEnv: seq<string>, rest: string, commands: seq<seq<string>>)
    requires forall k :: 0 <= k < |unsetEnv| ==> IsName(unsetEnv[k])
    ensures Read(Ended(Unsets(unsetEnv)) + rest, Plain, None, [], commands) ==
            Read(rest, Plain, None, [], commands + UnsetCommands(unsetEnv))
  {
    if unsetEnv == [] {
      assert Ended(Unsets(unsetEnv)) + rest == rest && commands + UnsetCommands(unsetEnv) == commands;
    } else {
      var first := [["unset", unsetEnv[0]]];
      var left := Ended(Unsets(unsetEnv[1..])) + rest;
      assert Unsets(unsetEnv)[1..] == Unsets(unsetEnv[1..]);
      assert Ended(Unsets(unsetEnv)) + rest == UnsetLine(unsetEnv[0]) + "\n" + left;
      ReadUnset(unsetEnv[0], left, commands);
      ReadUnsets(unsetEnv[1..], rest, commands + first);
      assert commands + first + UnsetCommands(unsetEnv[1..]) == commands + UnsetCommands(unsetEnv);
    }
  }

  lemma ExportChanges(name: string, value: string)
    requires IsName(name)
    ensures ChangeOf(["export", name + "=" + value]) == Some(Set(name, value))
  {
    NameEnds(name, value);
    assert (name + "=" + value)[|name| + 1..] == value;
    assert "export" != "unset" by {
      assert "export"[0] != "unset"[0];
    }
  }

  lemma {:induction false} ExportsChange(setEnv: seq<(string, string)>, more: seq<seq<string>>)
    requires forall k :: 0 <= k < |setEnv| ==> IsName(setEnv[k].0)
    ensures AllChanges(ExportCommands(setEnv) + more) ==
            if AllChanges(more).None? then None else Some(SetsOf(setEnv) + AllChanges(more).value)
  {
    if setEnv == [] {
      assert ExportCommands(setEnv) + more == more;
      assert AllChanges(more).Some? ==> SetsOf(setEnv) + AllChanges(more).value == AllChanges(more).value;
    } else {
      var first := ["export", setEnv[0].0 + "=" + setEnv[0].1];
      var commands := ExportCommands(setEnv) + more;
      ExportsChange(setEnv[1..], more);
      ExportChanges(setEnv[0].0, setEnv[0].1);
      assert commands == [first] + (ExportCommands(setEnv[1..]) + more);
      assert commands[0] == first && commands[1..] == ExportCommands(setEnv[1..]) + more;
      if AllChanges(more).Some? {
        Regroup([Set(setEnv[0].0, setEnv[0].1)], SetsOf(setEnv[1..]), AllChanges(more).value);
      }
    }
  }

  lemma {:induction false} UnsetsChange(unsetEnv: seq<string>)
    requires forall k :: 0 <= k < |unsetEnv| ==> IsName(unsetEnv[k])
    ensures AllChanges(UnsetCommands(unsetEnv)) == Some(UnsetsOf(unsetEnv))
  {
    if unsetEnv != [] {
      UnsetsChange(unsetEnv[1..]);
      assert UnsetCommands(unsetEnv)[1..] == UnsetCommands(unsetEnv[1..]);
    }
  }

  lemma ScriptText(plan: LaunchPlan)
    ensures Script(plan) ==
            "# " + APPLY_HEADER + "\n" +
            ("# " + plan.profileId + "\n" + (Ended(Exports(plan.setEnv)) + Ended(Unsets(plan.unsetEnv))))
  {
    var one, two := "# " + APPLY_HEADER, "# " + plan.profileId;
    var body := Exports(plan.setEnv) + Unsets(plan.unsetEnv);
    assert Lines(plan) == [one] + ([two] + body);
    assert ([one] + ([two] + body))[1..] == [two] + body && ([two] + body)[1..] == body;
    JoinEnded(Lines(plan));
    EndedBoth(Exports(plan.setEnv), Unsets(plan.unsetEnv));
  }

  lemma HeaderLine()
    ensures "# " + APPLY_HEADER + "\n" == "# ags-environment-apply-v1\n"
  {
  }

  /** A script starts with the version of its form and the id of its profile. */
  lemma ScriptStarts(plan: LaunchPlan)
    ensures exists body: string ::
              Script(plan) == "# ags-environment-apply-v1\n" + ("# " + plan.profileId + "\n" + body)
  {
    HeaderLine();
    ScriptText(plan);
  }

  /** What a profile id puts after its own line, once the script has ended its
      last one. */
  function LaterLines(id: string): string {
    NextLine(id + "\n")
  }

  /** The comment an id stands in, and whatever it spills into the lines below. */
  lemma ReadId(id: string, rest: string)
    ensures Read("# " + id + "\n" + rest, Plain, None, [], []) == Read(LaterLines(id) + rest, Plain, None, [], [])
    ensures Terminated(LaterLines(id))
  {
    var line := " " + (id + "\n");
    var all := "# " + id + "\n" + rest;
    assert all == "#" + (line + rest);
    assert all[0] == '#' && all[1..] == line + rest;
    ReadToNextLine(line, rest, []);
    assert line[1..] == id + "\n" && line[0] == ' ';
  }

  lemma {:induction false} LinesAfterFirst(first: string, more: string)
    requires '\n' !in first
    ensures LaterLines(first + "\n" + more) == more + "\n"
  {
    var text := first + "\n" + more + "\n";
    if first == "" {
      assert text[0] == '\n' && text[1..] == more + "\n";
    } else {
      assert text[0] == first[0] && text[1..] == first[1..] + "\n" + more + "\n";
      LinesAfterFirst(first[1..], more);
    }
  }

  lemma {:induction false} IdleLines(id: string)
    requires '\n' !in id
    ensures LaterLines(id) == ""
  {
    if id == "" {
      assert id + "\n" == "\n";
    } else {
      assert (id + "\n")[0] == id[0] && (id + "\n")[1..] == id[1..] + "\n";
      IdleLines(id[1..]);
    }
  }

  /** A script reads as its body does, with whatever the id spills over first. */
  lemma ReadScript(plan: LaunchPlan)
    ensures
      var body := Ended(Exports(plan.setEnv)) + Ended(Unsets(plan.unsetEnv));
      Commands(Script(plan)) == Read(LaterLines(plan.profileId) + body, Plain, None, [], [])
    ensures Terminated(LaterLines(plan.profileId))
  {
    var body := Ended(Exports(plan.setEnv)) + Ended(Unsets(plan.unsetEnv));
    ScriptText(plan);
    ReadCommentLine(APPLY_HEADER, "# " + plan.profileId + "\n" + body, []);
    ReadId(plan.profileId, body);
  }

  lemma ScriptCommands(plan: LaunchPlan)
    requires Idle(LaterLines(plan.profileId)) && NamesAreValid(plan)
    ensures Commands(Script(plan)) == Some(ExportCommands(plan.setEnv) + UnsetCommands(plan.unsetEnv))
  {
    var unsets := Ended(Unsets(plan.unsetEnv));
    var body := Ended(Exports(plan.setEnv)) + unsets;
    ReadScript(plan);
    ReadIdle(LaterLines(plan.profileId), body, []);
    ReadExports(plan.setEnv, unsets, []);
    ReadUnsets(plan.unsetEnv, "", ExportCommands(plan.setEnv));
    assert unsets + "" == unsets;
    assert [] + ExportCommands(plan.setEnv) == ExportCommands(plan.setEnv);
  }

  ghost predicate AllNamed(changes: seq<Change>) {
    forall k :: 0 <= k < |changes| ==> IsName(changes[k].name)
  }

  /** A shell assigns to names only. */
  lemma {:induction false} EffectsAreNamed(commands: seq<seq<string>>)
    requires AllChanges(commands).Some?
    ensures AllNamed(AllChanges(commands).value)
  {
    if commands != [] {
      EffectsAreNamed(commands[1..]);
    }
  }

  lemma {:induction false} SetsAreNamed(setEnv: seq<(string, string)>)
    ensures AllNamed(SetsOf(setEnv)) <==> forall k :: 0 <= k < |setEnv| ==> IsName(setEnv[k].0)
    ensures |SetsOf(setEnv)| == |setEnv|
  {
    if setEnv != [] {
      var first, more := Set(setEnv[0].0, setEnv[0].1), SetsOf(setEnv[1..]);
      SetsAreNamed(setEnv[1..]);
      NamedBoth([first], more);
      assert [first][0] == first;
      assert forall k :: 0 < k < |setEnv| ==> setEnv[1..][k - 1] == setEnv[k];
    }
  }

  lemma {:induction false} UnsetsAreNamed(unsetEnv: seq<string>)
    ensures AllNamed(UnsetsOf(unsetEnv)) <==> forall k :: 0 <= k < |unsetEnv| ==> IsName(unsetEnv[k])
  {
    if unsetEnv != [] {
      UnsetsAreNamed(unsetEnv[1..]);
      NamedBoth([Unset(unsetEnv[0])], UnsetsOf(unsetEnv[1..]));
      assert [Unset(unsetEnv[0])][0].name == unsetEnv[0];
      assert forall k :: 0 < k < |unsetEnv| ==> unsetEnv[1..][k - 1] == unsetEnv[k];
    }
  }

  lemma NamedBoth(a: seq<Change>, b: seq<Change>)
    ensures AllNamed(a + b) <==> AllNamed(a) && AllNamed(b)
  {
    assert forall k :: 0 <= k < |a| ==> (a + b)[k] == a[k];
    assert forall k :: 0 <= k < |b| ==> (a + b)[|a| + k] == b[k];
  }

  /** Running the printed script changes the environment as the plan says. */
  predicate Works(plan: LaunchPlan) {
    Effect(Script(plan)) == Some(ChangesOf(plan))
  }

  lemma OnlyNamesWork(plan: LaunchPlan)
    requires Works(plan)
    ensures NamesAreValid(plan)
  {
    EffectsAreNamed(Commands(Script(plan)).value);
    SetsAreNamed(plan.setEnv);
    UnsetsAreNamed(plan.unsetEnv);
    NamedBoth(SetsOf(plan.setEnv), UnsetsOf(plan.unsetEnv));
  }

  lemma NamesWork(plan: LaunchPlan)
    requires Idle(LaterLines(plan.profileId)) && NamesAreValid(plan)
    ensures Works(plan)
  {
    ScriptCommands(plan);
    ExportsChange(plan.setEnv, UnsetCommands(plan.unsetEnv));
    UnsetsChange(plan.unsetEnv);
  }

  /** The plan that changes nothing tells whether an id can be trusted. */
  lemma EmptyPlanWorksIff(id: string)
    ensures Works(LaunchPlan(id, [], [])) <==> Idle(LaterLines(id))
  {
    var plan, lines := LaunchPlan(id, [], []), LaterLines(id);
    ReadScript(plan);
    assert Exports(plan.setEnv) == [] && Unsets(plan.unsetEnv) == [];
    assert Ended(Exports(plan.setEnv)) + Ended(Unsets(plan.unsetEnv)) == "";
    assert lines + "" == lines;
    assert Commands(Script(plan)) == Commands(lines);
    SaysNothingIff(lines);
  }

  /** Which profile ids are safe, and what a script does under one. Running it
      makes exactly the plan's changes, whatever the values hold (quotes, newlines,
      backslashes), for all plans under an id whose names are ones a shell assigns
      to and for no others, if and only if the lines an id goes on to after its
      first are idle. */
  lemma ScriptDoesWhatThePlanSaysIff(id: string)
    ensures Idle(LaterLines(id)) <==>
            forall plan: LaunchPlan :: plan.profileId == id ==> (Works(plan) <==> NamesAreValid(plan))
  {
    forall plan: LaunchPlan | Idle(LaterLines(id)) && plan.profileId == id
      ensures Works(plan) <==> NamesAreValid(plan)
    {
      if NamesAreValid(plan) {
        NamesWork(plan);
      }
      if Works(plan) {
        OnlyNamesWork(plan);
      }
    }
    EmptyPlanWorksIff(id);
    assert LaunchPlan(id, [], []).profileId == id && NamesAreValid(LaunchPlan(id, [], []));
  }

  /** An id on one line is safe. */
  lemma OneLineIdIsSafe(plan: LaunchPlan)
    requires '\n' !in plan.profileId
    ensures Works(plan) <==> NamesAreValid(plan)
  {
    IdleLines(plan.profileId);
    ScriptDoesWhatThePlanSaysIff(plan.profileId);
  }

  /** The profile id stands in a comment, unquoted: what follows a newline in it is
      read as commands. */
  lemma IdCanHoldCommands()
    ensures
      var plan := LaunchPlan("a\nunset X", [], []);
      Effect(Script(plan)) == Some([Unset("X")]) && ChangesOf(plan) == []
  {
    var id, line := "a\nunset X", UnsetLine("X");
    assert id == "a" + "\n" + line;
    LinesAfterFirst("a", line);
    HeldUnsetIsRun(id, "X");
    assert UnsetsOf(["X"]) == [Unset("X")];
  }

  lemma HeldUnsetIsRun(id: string, name: string)
    requires IsName(name) && LaterLines(id) == UnsetLine(name) + "\n"
    ensures Effect(Script(LaunchPlan(id, [], []))) == Some(UnsetsOf([name]))
  {
    var plan := LaunchPlan(id, [], []);
    ReadScript(plan);
    assert Exports(plan.setEnv) == [] && Unsets(plan.unsetEnv) == [];
    assert LaterLines(id) + (Ended([]) + Ended([])) == UnsetLine(name) + "\n" + "";
    ReadUnset(name, "", []);
    UnsetsChange([name]);
    assert UnsetCommands([name]) == [["unset", name]] == [] + [["unset", name]];
  }

  /** An unsafe id can still suit some plan: this one's later line is an empty word
      that runs on into the first line of the body. */
  lemma UnsafeIdCanWork()
    ensures Works(LaunchPlan("a\n''\\", [], ["X"])) && !Works(LaunchPlan("a\n''\\", [], []))
  {
    var id := "a\n''\\";
    assert id == "a" + "\n" + "''\\";
    LinesAfterFirst("a", "''\\");
    EmptyPlanWorksIff(id);
    SpillWorks(id);
  }

  lemma SpillWorks(id: string)
    requires LaterLines(id) == "''\\\n"
    ensures Works(LaunchPlan(id, [], ["X"]))
  {
    var plan := LaunchPlan(id, [], ["X"]);
    ReadScript(plan);
    assert Ended(Exports(plan.setEnv)) + Ended(Unsets(plan.unsetEnv)) == "unset X\n" by {
      assert Exports(plan.setEnv) == [] && Unsets(plan.unsetEnv) == [UnsetLine("X")];
      assert Ended([UnsetLine("X")]) == UnsetLine("X") + "\n" + Ended([]);
    }
    ReadSpill("unset X\n");
    ReadRunOn();
    UnsetsChange(["X"]);
    assert UnsetCommands(["X"]) == [["unset", "X"]];
    assert ChangesOf(plan) == UnsetsOf(["X"]);
  }

  lemma ReadRunOn()
    ensures Read("unset X\n", Plain, Some(""), [], []) == Some([["unset", "X"]])
  {
    var end := "\n";
    var name := "X" + end;
    var tail := " " + name;
    assert "unset X\n" == UNSET + tail;
    ReadOrdinary(UNSET, tail, Some(""), [], []);
    assert "" + UNSET == "unset";
    assert tail[0] == ' ' && tail[1..] == name;
    assert [] + ["unset"] == ["unset"];
    assert Read(tail, Plain, Some("unset"), [], []) == Read(name, Plain, None, ["unset"], []);
    assert AllOrdinary("X");
    ReadOrdinary("X", end, None, ["unset"], []);
    assert Sofar(None) + "X" == "X";
    assert end[0] == '\n' && end[1..] == "";
    assert ["unset"] + ["X"] == ["unset", "X"];
    assert [] + [["unset", "X"]] == [["unset", "X"]];
  }

  /** An empty quotation and a continuation leave a word begun and empty. */
  lemma ReadSpill(rest: string)
    ensures Read("''\\\n" + rest, Plain, None, [], []) == Read(rest, Plain, Some(""), [], [])
  {
    var three := ['\n'] + rest;
    var two := ['\\'] + three;
    var one := ['\''] + two;
    assert "''\\\n" + rest == ['\''] + one;
    assert Read(['\''] + one, Plain, None, [], []) == Read(one, Single, Some(""), [], []);
    assert Read(one, Single, Some(""), [], []) == Read(two, Plain, Some(""), [], []);
    assert Read(two, Plain, Some(""), [], []) == Read(three, Escape, Some(""), [], []);
  }
}
