/** Python's `shlex.quote` and `shlex.split` (POSIX mode), and that the second
    undoes the first. */
module Shlex {
  import opened Text
  import opened PosixShell

  predicate IsSafe(c: char) {
    || 'a' <= c <= 'z'
    || 'A' <= c <= 'Z'
    || '0' <= c <= '9'
    || c == '_' || c == '@' || c == '%' || c == '+' || c == '=' || c == ':'
    || c == ',' || c == '.' || c == '/' || c == '-'
  }

  predicate AllSafe(s: string) {
    forall i :: 0 <= i < |s| ==> IsSafe(s[i])
  }

  /** `shlex.quote` */
  function Quote(s: string): string {
    if s == "" then "''" else if AllSafe(s) then s else "'" + Replaced(s, DOUBLE_QUOTED) + "'"
  }

  predicate IsWhite(c: char) {
    c == ' ' || c == '\t' || c == '\r' || c == '\n'
  }

  /** ASCII letters and digits, by their code points. */
  predicate IsAlphanumeric(c: char) {
    48 <= c as int <= 57 || 65 <= c as int <= 90 || 97 <= c as int <= 122
  }

  /** Text is left as it is exactly when there is some and all of it is safe. */
  lemma BareIff(s: string)
    ensures Quote(s) == s <==> s != "" && forall i :: 0 <= i < |s| ==> IsAlphanumeric(s[i]) || s[i] in "@%_-+=:,./"
  {
    if s != "" && !AllSafe(s) {
      QuoteIsLonger(s);
    }
  }

  lemma QuoteIsLonger(s: string)
    ensures |"'" + Replaced(s, DOUBLE_QUOTED) + "'"| > |s|
  {
    ReplacedIsNoShorter(s);
  }

  lemma {:induction false} ReplacedIsNoShorter(s: string)
    ensures |Replaced(s, DOUBLE_QUOTED)| >= |s|
  {
    if s != "" {
      ReplacedIsNoShorter(s[1..]);
    }
  }

  /** Between words, in one, inside a quotation, or after a backslash, which in
      double quotes escapes only itself and the quote. */
  datatype State = Between | InWord | InQuote(quote: char) | Escaped(inside: Option<char>)

  function Added(tokens: seq<string>, token: string, quoted: bool): seq<string> {
    if token != "" || quoted then tokens + [token] else tokens
  }

  /** Split on from the middle of a text; `None` is a quotation or an escape left
      open. */
  function Lex(rest: string, state: State, token: string, quoted: bool, tokens: seq<string>): Option<seq<string>> {
    if rest == "" then
      match state
      case Between => Some(tokens)
      case InWord => Some(Added(tokens, token, quoted))
      case InQuote(_) => None
      case Escaped(_) => None
    else
      var c, more := rest[0], rest[1..];
      match state
      case Between =>
        if IsWhite(c) then Lex(more, Between, token, quoted, tokens)
        else if c == '\\' then Lex(more, Escaped(None), token, quoted, tokens)
        else if c == '\'' || c == '"' then Lex(more, InQuote(c), token, true, tokens)
        else Lex(more, InWord, [c], quoted, tokens)
      case InQuote(quote) =>
        if c == quote then Lex(more, InWord, token, quoted, tokens)
        else if c == '\\' && quote == '"' then Lex(more, Escaped(Some(quote)), token, quoted, tokens)
        else Lex(more, InQuote(quote), token + [c], quoted, tokens)
      case Escaped(inside) =>
        if inside.None? then Lex(more, InWord, token + [c], quoted, tokens)
        else if c != '\\' && c != inside.value
        then Lex(more, InQuote(inside.value), token + ['\\', c], quoted, tokens)
        else Lex(more, InQuote(inside.value), token + [c], quoted, tokens)
      case InWord =>
        if IsWhite(c) then Lex(more, Between, "", false, Added(tokens, token, quoted))
        else if c == '\'' || c == '"' then Lex(more, InQuote(c), token, true, tokens)
        else if c == '\\' then Lex(more, Escaped(None), token, quoted, tokens)
        else Lex(more, InWord, token + [c], quoted, tokens)
  }

  /** `shlex.split(s, posix=True)` */
  function Split(s: string): Option<seq<string>> {
    Lex(s, Between, "", false, [])
  }

  // ---------------------------------------------------------------------------
  // Splitting what was quoted
  // ---------------------------------------------------------------------------

  lemma {:induction false} LexSafe(s: string, rest: string, token: string, quoted: bool, tokens: seq<string>)
    requires AllSafe(s)
    ensures Lex(s + rest, InWord, token, quoted, tokens) == Lex(rest, InWord, token + s, quoted, tokens)
  {
    if s == "" {
      assert s + rest == rest && token + s == token;
    } else {
      var c, more := s[0], s[1..];
      assert (s + rest)[0] == c && (s + rest)[1..] == more + rest;
      LexSafe(more, rest, token + [c], quoted, tokens);
      assert token + [c] + more == token + s;
    }
  }

  /** From between words, a safe word starts one. */
  lemma LexSafeWord(s: string, rest: string, tokens: seq<string>)
    requires AllSafe(s) && s != ""
    ensures Lex(s + rest, Between, "", false, tokens) == Lex(rest, InWord, s, false, tokens)
  {
    assert (s + rest)[0] == s[0] && (s + rest)[1..] == s[1..] + rest;
    LexSafe(s[1..], rest, [s[0]], false, tokens);
    assert [s[0]] + s[1..] == s;
  }

  lemma LexInner(rest: string, token: string, tokens: seq<string>)
    ensures Lex(DOUBLE_QUOTED + rest, InQuote('\''), token, true, tokens) ==
            Lex(rest, InQuote('\''), token + "'", true, tokens)
  {
    var four := ['\''] + rest;
    var three := ['"'] + four;
    var two := ['\''] + three;
    var one := ['"'] + two;
    var all := ['\''] + one;
    assert DOUBLE_QUOTED + rest == all;
    assert Lex(all, InQuote('\''), token, true, tokens) == Lex(one, InWord, token, true, tokens);
    assert Lex(one, InWord, token, true, tokens) == Lex(two, InQuote('"'), token, true, tokens);
    assert Lex(two, InQuote('"'), token, true, tokens) == Lex(three, InQuote('"'), token + "'", true, tokens);
    assert Lex(three, InQuote('"'), token + "'", true, tokens) == Lex(four, InWord, token + "'", true, tokens);
    assert Lex(four, InWord, token + "'", true, tokens) == Lex(rest, InQuote('\''), token + "'", true, tokens);
  }

  lemma {:induction false} LexReplaced(s: string, rest: string, token: string, tokens: seq<string>)
    ensures Lex(Replaced(s, DOUBLE_QUOTED) + rest, InQuote('\''), token, true, tokens) ==
            Lex(rest, InQuote('\''), token + s, true, tokens)
  {
    if s == "" {
      assert Replaced(s, DOUBLE_QUOTED) + rest == rest && token + s == token;
    } else {
      var c, more := s[0], s[1..];
      var first := if c == '\'' then DOUBLE_QUOTED else [c];
      var left := Replaced(more, DOUBLE_QUOTED) + rest;
      assert Replaced(s, DOUBLE_QUOTED) + rest == first + left;
      if c == '\'' {
        LexInner(left, token, tokens);
      } else {
        assert (first + left)[0] == c && (first + left)[1..] == left;
      }
      LexReplaced(more, rest, token + [c], tokens);
      assert token + [c] + more == token + s;
    }
  }

  /** A safe word and the blank after it. */
  lemma LexPlainWord(s: string, rest: string, tokens: seq<string>)
    requires AllSafe(s) && s != ""
    ensures Lex(s + " " + rest, Between, "", false, tokens) == Lex(rest, Between, "", false, tokens + [s])
  {
    var left := " " + rest;
    assert s + " " + rest == s + left;
    LexSafeWord(s, left, tokens);
    assert left[0] == ' ' && left[1..] == rest;
  }

  /** A word that is one quotation. */
  lemma LexQuotedWord(s: string, rest: string, tokens: seq<string>)
    ensures Lex("'" + Replaced(s, DOUBLE_QUOTED) + "'" + rest, Between, "", false, tokens) ==
            Lex(rest, InWord, s, true, tokens)
  {
    var closed := "'" + rest;
    var text := Replaced(s, DOUBLE_QUOTED) + closed;
    var quoted := "'" + text;
    assert "'" + Replaced(s, DOUBLE_QUOTED) + "'" + rest == quoted;
    assert quoted[0] == '\'' && quoted[1..] == text;
    LexReplaced(s, closed, "", tokens);
    assert "" + s == s;
    assert closed[0] == '\'' && closed[1..] == rest;
  }

  /** A quoted word, from between words to the end of the text. */
  lemma LexQuoted(s: string, tokens: seq<string>)
    ensures Lex(Quote(s), Between, "", false, tokens) == Some(tokens + [s])
  {
    if s != "" && AllSafe(s) {
      LexSafeWord(s, "", tokens);
      assert s + "" == s;
    } else {
      LexQuotedWord(s, "", tokens);
      assert Quote(s) == "'" + Replaced(s, DOUBLE_QUOTED) + "'" + "";
    }
  }

  /** Quoting a word and splitting it gives the word back, whatever it holds. */
  lemma SplitUndoesQuote(s: string)
    ensures Split(Quote(s)) == Some([s])
  {
    LexQuoted(s, []);
    assert [] + [s] == [s];
  }
}
