/** Where the splitter and the shell read one command alike. */
module ShellsAgree {
  import opened Text
  import opened PosixShell
  import opened Shlex

  /** A character that neither reader treats in a way of its own: no operator, no
      expansion, no comment, and no line end. */
  predicate Common(c: char) {
    !IsSpecial(c) && c != '#' && c != '\n' && c != '\r'
  }

  predicate AllCommon(s: string) {
    forall i :: 0 <= i < |s| ==> Common(s[i])
  }

  /** The shell is where the splitter is. */
  ghost predicate Abreast(state: State, token: string, quoted: bool, mode: Mode, word: Option<string>) {
    match state
    case Between => mode == Plain && word == None && token == "" && !quoted
    case InWord => mode == Plain && word == Some(token) && (token != "" || quoted)
    case InQuote(quote) =>
      quoted && word == Some(token) && ((quote == '\'' && mode == Single) || (quote == '"' && mode == Double))
    case Escaped(None) =>
      mode == Escape &&
      ((word == None && token == "" && !quoted) || (word == Some(token) && (token != "" || quoted)))
    case Escaped(Some(quote)) => quoted && quote == '"' && mode == DoubleEscape && word == Some(token)
  }

  /** The one command that some words are, if there are any. */
  function OneCommand(words: Option<seq<string>>): Option<seq<seq<string>>> {
    if words.None? then None else if words.value == [] then Some([]) else Some([words.value])
  }

  lemma {:induction false} StayAbreast(rest: string, state: State, token: string, quoted: bool, mode: Mode,
                                       word: Option<string>, tokens: seq<string>)
    requires AllCommon(rest) && Abreast(state, token, quoted, mode, word)
    ensures Read(rest, mode, word, tokens, []) == OneCommand(Lex(rest, state, token, quoted, tokens))
  {
    if rest == "" {
      assert [] + [tokens] == [tokens] && [] + [tokens + [token]] == [tokens + [token]];
    } else {
      var c, more := rest[0], rest[1..];
      assert Common(c) && AllCommon(more);
      match state
      case Between =>
        if IsWhite(c) {
          StayAbreast(more, Between, token, quoted, Plain, None, tokens);
        } else if c == '\\' {
          StayAbreast(more, Escaped(None), token, quoted, Escape, None, tokens);
        } else if c == '\'' || c == '"' {
          StayAbreast(more, InQuote(c), token, true, if c == '"' then Double else Single, Some(""), tokens);
        } else {
          assert "" + [c] == [c];
          StayAbreast(more, InWord, [c], quoted, Plain, Some([c]), tokens);
        }
      case InWord =>
        if IsWhite(c) {
          StayAbreast(more, Between, "", false, Plain, None, tokens + [token]);
        } else if c == '\'' || c == '"' {
          StayAbreast(more, InQuote(c), token, true, if c == '"' then Double else Single, word, tokens);
        } else if c == '\\' {
          StayAbreast(more, Escaped(None), token, quoted, Escape, word, tokens);
        } else {
          StayAbreast(more, InWord, token + [c], quoted, Plain, Some(token + [c]), tokens);
        }
      case InQuote(quote) =>
        if c == quote {
          StayAbreast(more, InWord, token, quoted, Plain, word, tokens);
        } else if c == '\\' && quote == '"' {
          StayAbreast(more, Escaped(Some(quote)), token, quoted, DoubleEscape, word, tokens);
        } else {
          StayAbreast(more, InQuote(quote), token + [c], quoted, mode, Some(token + [c]), tokens);
        }
      case Escaped(inside) =>
        if inside.None? {
          StayAbreast(more, InWord, token + [c], quoted, Plain, Some(token + [c]), tokens);
        } else if c != '\\' && c != '"' {
          StayAbreast(more, InQuote('"'), token + ['\\', c], quoted, Double, Some(token + ['\\', c]), tokens);
        } else {
          StayAbreast(more, InQuote('"'), token + [c], quoted, Double, Some(token + [c]), tokens);
        }
    }
  }

  /** On text of common characters the splitter gives words exactly when the shell
      reads a single command, of the same words; and none when the shell reads
      none. */
  lemma SplitIsRead(text: string)
    requires AllCommon(text)
    ensures Commands(text) == OneCommand(Split(text))
  {
    StayAbreast(text, Between, "", false, Plain, None, []);
  }

  /** Line ends separate words for the splitter, where they end a command for the
      shell. */
  lemma LineEndSplits(c: char)
    requires c == '\n' || c == '\r'
    ensures Split("a" + [c] + "b") == Some(["a", "b"])
  {
    var end := "b";
    var mid := [c] + end;
    var all := ['a'] + mid;
    assert "a" + [c] + "b" == all;
    assert Lex(all, Between, "", false, []) == Lex(mid, InWord, "a", false, []);
    assert Lex(mid, InWord, "a", false, []) == Lex(end, Between, "", false, [] + ["a"]);
    assert [] + ["a"] == ["a"];
    assert Lex(end, Between, "", false, ["a"]) == Lex("", InWord, "b", false, ["a"]);
    assert ["a"] + ["b"] == ["a", "b"];
  }
}
