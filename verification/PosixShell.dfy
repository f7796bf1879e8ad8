/** What a shell makes of a script, for scripts that are only words: the quoting
    rules of section 2.2 of the POSIX.1-2017 Shell Command Language, comments and
    newlines. Anything that would be expanded, redirected or joined is refused. */
module PosixShell {
  import opened Text

  /** How the next character is taken: as it is; inside single quotes (2.2.2);
      inside double quotes (2.2.3); after a backslash (2.2.1), outside double
      quotes or inside them; or as part of a comment. */
  datatype Mode = Plain | Single | Double | Escape | DoubleEscape | Comment

  /** Characters with a meaning of their own outside quotes. */
  predicate IsSpecial(c: char) {
    || c == '|' || c == '&' || c == ';' || c == '<' || c == '>' || c == '(' || c == ')'
    || c == '$' || c == '`' || c == '*' || c == '?' || c == '[' || c == ']'
    || c == '~' || c == '!' || c == '{' || c == '}'
  }

  predicate IsBlank(c: char) {
    c == ' ' || c == '\t'
  }

  function Sofar(word: Option<string>): string {
    if word.Some? then word.value else ""
  }

  function EndWord(words: seq<string>, word: Option<string>): seq<string> {
    if word.Some? then words + [word.value] else words
  }

  function EndLine(commands: seq<seq<string>>, words: seq<string>): seq<seq<string>> {
    if words == [] then commands else commands + [words]
  }

  /** Read on from the middle of a script: the commands so far, the words of the
      command so far, and the word so far. `None` is a script that is refused. */
  function Read(rest: string, mode: Mode, word: Option<string>, words: seq<string>, commands: seq<seq<string>>)
    : Option<seq<seq<string>>>
  {
    if rest == "" then
      if mode == Plain || mode == Comment then Some(EndLine(commands, EndWord(words, word))) else None
    else
      var c, more := rest[0], rest[1..];
      match mode
      case Plain =>
        if c == '\n' then Read(more, Plain, None, [], EndLine(commands, EndWord(words, word)))
        else if IsBlank(c) then Read(more, Plain, None, EndWord(words, word), commands)
        else if c == '\\' then Read(more, Escape, word, words, commands)
        else if c == '\'' then Read(more, Single, Some(Sofar(word)), words, commands)
        else if c == '"' then Read(more, Double, Some(Sofar(word)), words, commands)
        else if c == '#' && word == None then Read(more, Comment, None, words, commands)
        else if IsSpecial(c) then None
        else Read(more, Plain, Some(Sofar(word) + [c]), words, commands)
      case Single =>
        if c == '\'' then Read(more, Plain, word, words, commands)
        else Read(more, Single, Some(Sofar(word) + [c]), words, commands)
      case Double =>
        if c == '"' then Read(more, Plain, word, words, commands)
        else if c == '$' || c == '`' then None
        else if c == '\\' then Read(more, DoubleEscape, word, words, commands)
        else Read(more, Double, Some(Sofar(word) + [c]), words, commands)
      case Escape =>
        if c == '\n' then Read(more, Plain, word, words, commands)
        else Read(more, Plain, Some(Sofar(word) + [c]), words, commands)
      case DoubleEscape =>
        if c == '\n' then Read(more, Double, word, words, commands)
        else if c == '$' || c == '`' || c == '"' || c == '\\'
        then Read(more, Double, Some(Sofar(word) + [c]), words, commands)
        else Read(more, Double, Some(Sofar(word) + ['\\', c]), words, commands)
      case Comment =>
        if c == '\n' then Read(more, Plain, None, [], EndLine(commands, words))
        else Read(more, Comment, None, words, commands)
  }

  /** The commands of a script, each a list of words. */
  function Commands(script: string): Option<seq<seq<string>>> {
    Read(script, Plain, None, [], [])
  }

  // ---------------------------------------------------------------------------
  // The rules, one by one
  // ---------------------------------------------------------------------------

  /** Outside quotes an operator, an expansion or a pattern is refused. */
  lemma UnquotedIsRefused(c: char, rest: string, word: Option<string>, words: seq<string>, commands: seq<seq<string>>)
    requires c in {'|', '&', ';', '<', '>', '(', ')', '$', '`', '*', '?', '[', ']', '~', '!', '{', '}'}
    ensures Read([c] + rest, Plain, word, words, commands) == None
  {
    assert ([c] + rest)[0] == c;
  }

  /** Inside double quotes only an expansion is. */
  lemma ExpansionIsRefused(c: char, rest: string, word: Option<string>, words: seq<string>,
                           commands: seq<seq<string>>)
    requires c in "$`"
    ensures Read([c] + rest, Double, word, words, commands) == None
  {
    assert ([c] + rest)[0] == c;
  }

  /** A backslash takes the next character as it is, and a line end away. */
  lemma BackslashReads(c: char, rest: string, word: Option<string>, words: seq<string>, commands: seq<seq<string>>)
    ensures Read(['\\', c] + rest, Plain, word, words, commands) ==
            Read(rest, Plain, if c == '\n' then word else Some(Sofar(word) + [c]), words, commands)
  {
    var left := [c] + rest;
    assert ['\\', c] + rest == ['\\'] + left && left[0] == c && left[1..] == rest;
  }

  /** Inside double quotes it does so for what has a meaning there, and stands for
      itself before anything else. */
  lemma QuotedBackslashReads(c: char, rest: string, w: string, words: seq<string>, commands: seq<seq<string>>)
    ensures Read(['\\', c] + rest, Double, Some(w), words, commands) ==
            Read(rest, Double,
                 Some(if c == '\n' then w else if c in "$`\"\\" then w + [c] else w + ['\\', c]), words, commands)
  {
    var left := [c] + rest;
    assert ['\\', c] + rest == ['\\'] + left && left[0] == c && left[1..] == rest;
  }

  /** A script may end in a comment. */
  lemma CommentMayEnd(text: string)
    requires '\n' !in text
    ensures Commands("#" + text) == Some([])
  {
    var all := "#" + text;
    assert all[0] == '#' && all[1..] == text;
    assert text + "" == text;
    ReadComment(text, "", [], []);
  }

  // ---------------------------------------------------------------------------
  // Reading known text
  // ---------------------------------------------------------------------------

  /** Characters that stand for themselves anywhere in a word. */
  predicate Ordinary(c: char) {
    c != '\n' && !IsBlank(c) && c != '\\' && c != '\'' && c != '"' && c != '#' && !IsSpecial(c)
  }

  predicate AllOrdinary(s: string) {
    forall i :: 0 <= i < |s| ==> Ordinary(s[i])
  }

  lemma {:induction false} ReadOrdinary(s: string, rest: string, word: Option<string>, words: seq<string>,
                                        commands: seq<seq<string>>)
    requires AllOrdinary(s) && s != ""
    ensures Read(s + rest, Plain, word, words, commands) == Read(rest, Plain, Some(Sofar(word) + s), words, commands)
  {
    var c, more := s[0], s[1..];
    assert (s + rest)[0] == c && (s + rest)[1..] == more + rest;
    if more == "" {
      assert more + rest == rest && s == [c];
    } else {
      ReadOrdinary(more, rest, Some(Sofar(word) + [c]), words, commands);
      assert Sofar(word) + [c] + more == Sofar(word) + s;
    }
  }

  /** Inside single quotes everything is itself but the quote. */
  lemma {:induction false} ReadSingle(s: string, rest: string, w: string, words: seq<string>,
                                      commands: seq<seq<string>>)
    requires '\'' !in s
    ensures Read(s + rest, Single, Some(w), words, commands) == Read(rest, Single, Some(w + s), words, commands)
  {
    if s == "" {
      assert s + rest == rest && w + s == w;
    } else {
      var c, more := s[0], s[1..];
      assert (s + rest)[0] == c && (s + rest)[1..] == more + rest;
      ReadSingle(more, rest, w + [c], words, commands);
      assert w + [c] + more == w + s;
    }
  }

  /** A comment takes no notice of anything but the newline. */
  lemma {:induction false} ReadComment(s: string, rest: string, words: seq<string>, commands: seq<seq<string>>)
    requires '\n' !in s
    ensures Read(s + rest, Comment, None, words, commands) == Read(rest, Comment, None, words, commands)
  {
    if s == "" {
      assert s + rest == rest;
    } else {
      assert (s + rest)[0] == s[0] && (s + rest)[1..] == s[1..] + rest;
      ReadComment(s[1..], rest, words, commands);
    }
  }

  // ---------------------------------------------------------------------------
  // Text that says nothing
  // ---------------------------------------------------------------------------

  /** What is left after the first newline. */
  function NextLine(s: string): (rest: string)
    ensures |rest| <= |s| && (s != "" ==> |rest| < |s|)
  {
    if s == "" then "" else if s[0] == '\n' then s[1..] else NextLine(s[1..])
  }

  /** Only blanks, comments, line ends and continuations. */
  predicate Idle(s: string)
    decreases |s|
  {
    s == "" ||
    if s[0] == '\n' || IsBlank(s[0]) then Idle(s[1..])
    else if s[0] == '#' then Idle(NextLine(s))
    else s[0] == '\\' && |s| > 1 && s[1] == '\n' && Idle(s[2..])
  }

  /** Lines that are all complete. */
  predicate Terminated(s: string) {
    s != "" ==> s[|s| - 1] == '\n'
  }

  /** A comment, and all that was on its line. */
  lemma {:induction false} ReadToNextLine(s: string, rest: string, commands: seq<seq<string>>)
    requires Terminated(s) && s != ""
    ensures Read(s + rest, Comment, None, [], commands) == Read(NextLine(s) + rest, Plain, None, [], commands)
    ensures Terminated(NextLine(s))
  {
    assert (s + rest)[0] == s[0] && (s + rest)[1..] == s[1..] + rest;
    if s[0] != '\n' {
      ReadToNextLine(s[1..], rest, commands);
    }
  }

  lemma {:induction false} ReadIdle(s: string, rest: string, commands: seq<seq<string>>)
    requires Terminated(s) && Idle(s)
    ensures Read(s + rest, Plain, None, [], commands) == Read(rest, Plain, None, [], commands)
    decreases |s|
  {
    if s == "" {
      assert s + rest == rest;
    } else {
      var more := s[1..];
      assert (s + rest)[0] == s[0] && (s + rest)[1..] == more + rest;
      if s[0] == '#' {
        ReadToNextLine(more, rest, commands);
        ReadIdle(NextLine(s), rest, commands);
      } else if s[0] == '\\' {
        assert (more + rest)[0] == '\n' && (more + rest)[1..] == s[2..] + rest;
        ReadIdle(s[2..], rest, commands);
      } else {
        ReadIdle(more, rest, commands);
      }
    }
  }

  /** What has begun is never forgotten. */
  lemma {:induction false} BegunIsSaid(s: string, mode: Mode, word: Option<string>, words: seq<string>,
                                       commands: seq<seq<string>>)
    requires word.Some? || words != [] || commands != []
    requires mode == Comment ==> word == None
    ensures Read(s, mode, word, words, commands) != Some([])
  {
    if s != "" {
      var c, more := s[0], s[1..];
      match mode
      case Plain =>
        if c == '\n' {
          BegunIsSaid(more, Plain, None, [], EndLine(commands, EndWord(words, word)));
        } else if IsBlank(c) {
          BegunIsSaid(more, Plain, None, EndWord(words, word), commands);
        } else if c == '\\' {
          BegunIsSaid(more, Escape, word, words, commands);
        } else if c == '\'' {
          BegunIsSaid(more, Single, Some(Sofar(word)), words, commands);
        } else if c == '"' {
          BegunIsSaid(more, Double, Some(Sofar(word)), words, commands);
        } else if c == '#' && word == None {
          BegunIsSaid(more, Comment, None, words, commands);
        } else {
          BegunIsSaid(more, Plain, Some(Sofar(word) + [c]), words, commands);
        }
      case Single =>
        BegunIsSaid(more, Plain, word, words, commands);
        BegunIsSaid(more, Single, Some(Sofar(word) + [c]), words, commands);
      case Double =>
        BegunIsSaid(more, Plain, word, words, commands);
        BegunIsSaid(more, DoubleEscape, word, words, commands);
        BegunIsSaid(more, Double, Some(Sofar(word) + [c]), words, commands);
      case Escape =>
        BegunIsSaid(more, Plain, word, words, commands);
        BegunIsSaid(more, Plain, Some(Sofar(word) + [c]), words, commands);
      case DoubleEscape =>
        BegunIsSaid(more, Double, word, words, commands);
        BegunIsSaid(more, Double, Some(Sofar(word) + [c]), words, commands);
        BegunIsSaid(more, Double, Some(Sofar(word) + ['\\', c]), words, commands);
      case Comment =>
        BegunIsSaid(more, Plain, None, [], EndLine(commands, words));
        BegunIsSaid(more, Comment, None, words, commands);
    }
  }

  /** Complete lines amount to no command at all, and to none that is refused, if
      and only if they are idle. */
  lemma {:induction false} SaysNothingIff(s: string)
    requires Terminated(s)
    ensures Commands(s) == Some([]) <==> Idle(s)
    decreases |s|
  {
    if s != "" {
      var c, more := s[0], s[1..];
      assert s + "" == s && more + "" == more;
      if c == '\n' || IsBlank(c) {
        SaysNothingIff(more);
      } else if c == '#' {
        ReadToNextLine(more, "", []);
        assert NextLine(s) + "" == NextLine(s);
        SaysNothingIff(NextLine(s));
      } else if c == '\\' {
        assert Commands(s) == Read(more, Escape, None, [], []);
        if more != "" && more[0] == '\n' {
          assert more[1..] == s[2..];
          SaysNothingIff(s[2..]);
        } else if more != "" {
          BegunIsSaid(more[1..], Plain, Some(Sofar(None) + [more[0]]), [], []);
        }
      } else if c == '\'' {
        BegunIsSaid(more, Single, Some(""), [], []);
      } else if c == '"' {
        BegunIsSaid(more, Double, Some(""), [], []);
      } else if !IsSpecial(c) {
        BegunIsSaid(more, Plain, Some(Sofar(None) + [c]), [], []);
      }
    }
  }

  // ---------------------------------------------------------------------------
  // Single-quoted text with its quotes replaced
  // ---------------------------------------------------------------------------

  /** `s.replace("'", inner)` */
  function Replaced(s: string, inner: string): string {
    if s == "" then "" else (if s[0] == '\'' then inner else [s[0]]) + Replaced(s[1..], inner)
  }

  /** The two ways out of single quotes, through one literal quote, and back in:
      by a backslash, and by double quotes. */
  const BACKSLASHED := "'\\''"
  const DOUBLE_QUOTED := "'\"'\"'"

  lemma ReadBackslashed(rest: string, w: string, words: seq<string>, commands: seq<seq<string>>)
    ensures Read(BACKSLASHED + rest, Single, Some(w), words, commands) ==
            Read(rest, Single, Some(w + "'"), words, commands)
  {
    var three := ['\''] + rest;
    var two := ['\''] + three;
    var one := ['\\'] + two;
    var all := ['\''] + one;
    assert BACKSLASHED + rest == all;
    assert Read(all, Single, Some(w), words, commands) == Read(one, Plain, Some(w), words, commands);
    assert Read(one, Plain, Some(w), words, commands) == Read(two, Escape, Some(w), words, commands);
    assert Read(two, Escape, Some(w), words, commands) == Read(three, Plain, Some(w + "'"), words, commands);
    assert Read(three, Plain, Some(w + "'"), words, commands) == Read(rest, Single, Some(w + "'"), words, commands);
  }

  lemma ReadDoubleQuoted(rest: string, w: string, words: seq<string>, commands: seq<seq<string>>)
    ensures Read(DOUBLE_QUOTED + rest, Single, Some(w), words, commands) ==
            Read(rest, Single, Some(w + "'"), words, commands)
  {
    var four := ['\''] + rest;
    var three := ['"'] + four;
    var two := ['\''] + three;
    var one := ['"'] + two;
    var all := ['\''] + one;
    assert DOUBLE_QUOTED + rest == all;
    assert Read(all, Single, Some(w), words, commands) == Read(one, Plain, Some(w), words, commands);
    assert Read(one, Plain, Some(w), words, commands) == Read(two, Double, Some(w), words, commands);
    assert Read(two, Double, Some(w), words, commands) == Read(three, Double, Some(w + "'"), words, commands);
    assert Read(three, Double, Some(w + "'"), words, commands) == Read(four, Plain, Some(w + "'"), words, commands);
    assert Read(four, Plain, Some(w + "'"), words, commands) == Read(rest, Single, Some(w + "'"), words, commands);
  }

  /** Whatever the text, quoting it and reading it gives it back. */
  lemma {:induction false} ReadQuoted(s: string, inner: string, rest: string, w: string, words: seq<string>,
                                      commands: seq<seq<string>>)
    requires inner == BACKSLASHED || inner == DOUBLE_QUOTED
    ensures Read(Replaced(s, inner) + rest, Single, Some(w), words, commands) ==
            Read(rest, Single, Some(w + s), words, commands)
  {
    if s == "" {
      assert Replaced(s, inner) + rest == rest && w + s == w;
    } else {
      var c, more := s[0], s[1..];
      var first := if c == '\'' then inner else [c];
      var left := Replaced(more, inner) + rest;
      assert Replaced(s, inner) + rest == first + left;
      if c == '\'' {
        if inner == BACKSLASHED {
          ReadBackslashed(left, w, words, commands);
        } else {
          ReadDoubleQuoted(left, w, words, commands);
        }
      } else {
        ReadSingle([c], left, w, words, commands);
      }
      ReadQuoted(more, inner, rest, w + [c], words, commands);
      assert w + [c] + more == w + s;
    }
  }

  // ---------------------------------------------------------------------------
  // Reading whole words
  // ---------------------------------------------------------------------------

  /** A plain word and the blank after it. */
  lemma ReadPlainWord(s: string, rest: string, words: seq<string>, commands: seq<seq<string>>)
    requires AllOrdinary(s) && s != ""
    ensures Read(s + " " + rest, Plain, None, words, commands) == Read(rest, Plain, None, words + [s], commands)
  {
    var left := " " + rest;
    assert s + " " + rest == s + left;
    ReadOrdinary(s, left, None, words, commands);
    assert Sofar(None) + s == s;
    assert left[0] == ' ' && left[1..] == rest;
  }

  /** A word that is one quotation. */
  lemma ReadQuotedWord(s: string, inner: string, rest: string, words: seq<string>, commands: seq<seq<string>>)
    requires inner == BACKSLASHED || inner == DOUBLE_QUOTED
    ensures Read("'" + Replaced(s, inner) + "'" + rest, Plain, None, words, commands) ==
            Read(rest, Plain, Some(s), words, commands)
  {
    var closed := "'" + rest;
    var text := Replaced(s, inner) + closed;
    var quoted := "'" + text;
    assert "'" + Replaced(s, inner) + "'" + rest == quoted;
    assert quoted[0] == '\'' && quoted[1..] == text;
    ReadQuoted(s, inner, closed, "", words, commands);
    assert "" + s == s;
    assert closed[0] == '\'' && closed[1..] == rest;
  }

  /** Text without quotes is not changed by replacing them. */
  lemma {:induction false} NothingReplaced(s: string, inner: string)
    requires '\'' !in s
    ensures Replaced(s, inner) == s
  {
    if s != "" {
      NothingReplaced(s[1..], inner);
    }
  }
}
