/** What trimming, the byte length and printed numbers amount to. */
module TextProofs {
  import opened Text

  // ---------------------------------------------------------------------------
  // Trimming
  // ---------------------------------------------------------------------------

  /** `t` with white space before and behind it. */
  ghost predicate Padded(s: string, before: string, t: string, behind: string) {
    s == before + t + behind && Blank(before) && Blank(behind)
  }

  /** Text that neither starts nor ends in white space. */
  predicate Solid(t: string) {
    t != "" && !IsSpace(t[0]) && !IsSpace(t[|t| - 1])
  }

  lemma {:induction false} StartSplits(s: string) returns (before: string)
    ensures s == before + TrimStart(s) && Blank(before)
    ensures TrimStart(s) == "" || !IsSpace(TrimStart(s)[0])
  {
    if s != "" && IsSpace(s[0]) {
      var more := StartSplits(s[1..]);
      before := [s[0]] + more;
    } else {
      before := "";
    }
  }

  lemma {:induction false} EndSplits(s: string) returns (behind: string)
    ensures s == TrimEnd(s) + behind && Blank(behind)
    ensures TrimEnd(s) == "" || !IsSpace(TrimEnd(s)[|TrimEnd(s)| - 1])
  {
    if s != "" && IsSpace(s[|s| - 1]) {
      var less := EndSplits(s[..|s| - 1]);
      behind := less + [s[|s| - 1]];
    } else {
      behind := "";
    }
  }

  lemma {:induction false} StartIs(before: string, rest: string)
    requires Blank(before) && (rest == "" || !IsSpace(rest[0]))
    ensures TrimStart(before + rest) == rest
  {
    if before == "" {
      assert before + rest == rest;
    } else {
      assert (before + rest)[0] == before[0] && (before + rest)[1..] == before[1..] + rest;
      StartIs(before[1..], rest);
    }
  }

  lemma EndStep(s: string, c: char)
    requires IsSpace(c)
    ensures TrimEnd(s + [c]) == TrimEnd(s)
  {
    assert (s + [c])[..|s|] == s;
  }

  lemma {:induction false} EndIs(rest: string, behind: string)
    requires Blank(behind) && (rest == "" || !IsSpace(rest[|rest| - 1]))
    ensures TrimEnd(rest + behind) == rest
  {
    if behind == "" {
      assert rest + behind == rest;
    } else {
      var n := |behind| - 1;
      EndIs(rest, behind[..n]);
      EndStep(rest + behind[..n], behind[n]);
      assert rest + behind == rest + behind[..n] + [behind[n]];
    }
  }

  /** What trimming leaves stands somewhere in the text with white space around it. */
  lemma TrimGives(s: string) returns (before: string, behind: string)
    ensures Padded(s, before, Trim(s), behind)
    ensures Trim(s) != "" ==> Solid(Trim(s))
  {
    before := StartSplits(s);
    behind := EndSplits(TrimStart(s));
    assert s == before + Trim(s) + behind;
    if Trim(s) != "" {
      assert Trim(s)[0] == TrimStart(s)[0];
    }
  }

  lemma TrimTakes(s: string, before: string, t: string, behind: string)
    requires Padded(s, before, t, behind) && Solid(t)
    ensures Trim(s) == t
  {
    assert s == before + (t + behind) && (t + behind)[0] == t[0];
    StartIs(before, t + behind);
    EndIs(t, behind);
  }

  lemma TrimBlank(s: string)
    requires Blank(s)
    ensures Trim(s) == ""
  {
    assert s + "" == s;
    StartIs(s, "");
  }

  /** Trimming gives the solid text inside the padding, or nothing when there is
      only padding. */
  lemma TrimIff(s: string, t: string)
    ensures Trim(s) == t <==>
            (t == "" && Blank(s)) || (Solid(t) && exists before, behind :: Padded(s, before, t, behind))
  {
    var before, behind := TrimGives(s);
    if Blank(s) {
      TrimBlank(s);
    }
    if a, b :| Padded(s, a, t, b) && Solid(t) {
      TrimTakes(s, a, t, b);
    }
  }

  /** Only text without a solid part is blank. */
  lemma TrimBlankIff(s: string)
    ensures Trim(s) == "" <==> Blank(s)
  {
    TrimIff(s, "");
  }

  /** The white space of Unicode, by code points. */
  lemma IsSpaceIff(c: char)
    ensures
      var n := c as int;
      IsSpace(c) <==>
      || 9 <= n <= 13 || 8192 <= n <= 8202
      || n in {32, 133, 160, 5760, 8232, 8233, 8239, 8287, 12288}
  {
  }

  // ---------------------------------------------------------------------------
  // Bytes
  // ---------------------------------------------------------------------------

  /** A character in UTF-8, as section 3 of RFC 3629 lays its bits out. */
  function Utf8Char(c: char): seq<int> {
    var n := c as int;
    if n <= 0x7F then [n]
    else if n <= 0x7FF then [0xC0 + n / 64, 0x80 + n % 64]
    else if n <= 0xFFFF then [0xE0 + n / 4096, 0x80 + n / 64 % 64, 0x80 + n % 64]
    else [0xF0 + n / 262144, 0x80 + n / 4096 % 64, 0x80 + n / 64 % 64, 0x80 + n % 64]
  }

  function Utf8(s: string): seq<int> {
    if s == "" then [] else Utf8Char(s[0]) + Utf8(s[1..])
  }

  lemma {:induction false} Utf8Append(a: string, c: char)
    ensures Utf8(a + [c]) == Utf8(a) + Utf8Char(c)
  {
    if a == "" {
      assert a + [c] == [c] && [c][1..] == "";
    } else {
      assert (a + [c])[0] == a[0] && (a + [c])[1..] == a[1..] + [c];
      Utf8Append(a[1..], c);
    }
  }

  /** The byte length is the length of the encoding. */
  lemma {:induction false} ByteLenIsEncoded(s: string)
    ensures ByteLen(s) == |Utf8(s)|
  {
    if s != "" {
      var n := |s| - 1;
      assert s == s[..n] + [s[n]];
      Utf8Append(s[..n], s[n]);
      ByteLenIsEncoded(s[..n]);
    }
  }

  // ---------------------------------------------------------------------------
  // Numbers
  // ---------------------------------------------------------------------------

  predicate AllDigits(s: string) {
    forall i :: 0 <= i < |s| ==> '0' <= s[i] <= '9'
  }

  /** The number some digits stand for. */
  function NumberOf(s: string): nat
    requires AllDigits(s)
  {
    if s == "" then 0 else 10 * NumberOf(s[..|s| - 1]) + (s[|s| - 1] as int - '0' as int)
  }

  lemma NumberStep(s: string, c: char)
    requires AllDigits(s) && '0' <= c <= '9'
    ensures AllDigits(s + [c]) && NumberOf(s + [c]) == 10 * NumberOf(s) + (c as int - '0' as int)
  {
    assert (s + [c])[..|s|] == s && (s + [c])[|s|] == c;
  }

  lemma DigitReads(n: nat)
    requires n < 10
    ensures '0' <= Digit(n) <= '9' && Digit(n) as int - '0' as int == n
  {
  }

  /** A printed number reads back, and has no zeros in front. */
  lemma {:induction false} DecimalReadsBack(n: nat)
    ensures AllDigits(Decimal(n)) && NumberOf(Decimal(n)) == n
    ensures Decimal(n) != "" && (n > 0 ==> Decimal(n)[0] != '0')
  {
    DigitReads(n % 10);
    if n >= 10 {
      DecimalReadsBack(n / 10);
      MoreDigits(Decimal(n / 10), n / 10, Digit(n % 10), n % 10);
    } else {
      NumberStep("", Digit(n));
      assert "" + [Digit(n)] == Decimal(n);
    }
  }

  lemma MoreDigits(front: string, q: nat, c: char, r: nat)
    requires AllDigits(front) && NumberOf(front) == q && front != "" && front[0] != '0'
    requires '0' <= c <= '9' && c as int - '0' as int == r
    ensures AllDigits(front + [c]) && NumberOf(front + [c]) == 10 * q + r && (front + [c])[0] != '0'
  {
    NumberStep(front, c);
  }
}
