/** Cutting a text down to its two ends around a marker that counts the rest. */
module Elision {
  import opened Text
  import opened TextProofs

  const BEFORE := "\n\U{2026}[ags: "
  const AFTER := " chars elided]\U{2026}\n"

  /** What stands where `omitted` characters were. */
  function Marker(omitted: nat): string {
    BEFORE + Decimal(omitted) + AFTER
  }

  function HeadLen(max: nat): nat {
    max * 2 / 3
  }

  function Elided(s: string, max: nat): string
    requires max < |s|
  {
    s[..HeadLen(max)] + Marker(|s| - max) + s[|s| - (max - HeadLen(max))..]
  }

  /** `elide_middle`: `None` when there is no cap or the text is within it. */
  function ElideMiddle(s: string, max: nat): Option<string> {
    if max == 0 || |s| <= max then None else Some(Elided(s, max))
  }

  // ---------------------------------------------------------------------------

  lemma DecimalWidths(n: nat)
    ensures n < 10 ==> |Decimal(n)| == 1
    ensures 10 <= n < 100 ==> |Decimal(n)| == 2
  {
    if n >= 10 {
      assert |Decimal(n)| == |Decimal(n / 10)| + 1;
    }
  }

  lemma {:induction false} DecimalIsShort(n: nat)
    requires n >= 26
    ensures |Decimal(n)| + 24 <= n
  {
    if n < 260 {
      DecimalWidths(n / 10);
    } else {
      DecimalIsShort(n / 10);
    }
  }

  /** The cap bounds what is kept of the text, not what comes out: the marker is
      on top, and it is as long as the count in it is wide. */
  lemma ElidedLength(s: string, max: nat)
    requires max < |s|
    ensures |Elided(s, max)| == max + 24 + |Decimal(|s| - max)|
  {
    assert |BEFORE| == 8 && |AFTER| == 16;
  }

  /** `e` is a text with its middle taken out: two thirds of what is kept come from its
      front and the rest from its end, and the digits between say how much is gone. */
  ghost predicate CutDown(s: string, max: nat, e: string, head: string, digits: string, tail: string) {
    && e == head + "\n\U{2026}[ags: " + digits + " chars elided]\U{2026}\n" + tail
    && |head| + |tail| == max < |s|
    && 3 * |head| <= 2 * max < 3 * |head| + 3
    && head == s[..|head|] && tail == s[|s| - |tail|..]
    && AllDigits(digits) && NumberOf(digits) == |s| - max && digits != "" && digits[0] != '0'
  }

  /** What eliding gives: nothing when there is no cap or the text is within it, and
      otherwise the text cut down. */
  lemma ElideMiddleSays(s: string, max: nat)
    ensures ElideMiddle(s, max).None? <==> max == 0 || |s| <= max
    ensures ElideMiddle(s, max).Some? ==>
              exists head, digits, tail :: CutDown(s, max, ElideMiddle(s, max).value, head, digits, tail)
  {
    if ElideMiddle(s, max).Some? {
      var head, digits, tail := s[..HeadLen(max)], Decimal(|s| - max), s[|s| - (max - HeadLen(max))..];
      DecimalReadsBack(|s| - max);
      assert Elided(s, max) == head + (BEFORE + digits + AFTER) + tail;
      assert CutDown(s, max, Elided(s, max), head, digits, tail);
    }
  }

  /** Eliding shortens a text exactly when more than 26 characters go, and
      lengthens it exactly when fewer than 26 do. */
  lemma ElisionShortensIff(s: string, max: nat)
    requires max < |s|
    ensures |Elided(s, max)| < |s| <==> |s| - max > 26
    ensures |Elided(s, max)| > |s| <==> |s| - max < 26
  {
    var omitted := |s| - max;
    ElidedLength(s, max);
    DecimalWidths(omitted);
    if omitted > 26 {
      DecimalIsShort(omitted - 1);
      DecimalIsShort(omitted);
      if omitted < 100 {
        assert |Decimal(omitted)| == 2;
      } else {
        MuchShorter(omitted);
      }
    }
  }

  lemma {:induction false} MuchShorter(n: nat)
    requires n >= 100
    ensures |Decimal(n)| + 24 < n
  {
    if n < 1000 {
      DecimalWidths(n / 10);
    } else {
      MuchShorter(n / 10);
    }
  }

  /** An elided text is over the cap again, and eliding it a second time
      overwrites the count in the marker: the same ends, but a marker that counts
      the first marker. */
  lemma ElidingTwice(s: string, max: nat)
    requires max < |s|
    ensures max < |Elided(s, max)|
    ensures Elided(Elided(s, max), max) ==
            s[..HeadLen(max)] + Marker(24 + |Decimal(|s| - max)|) + s[|s| - (max - HeadLen(max))..]
  {
    ElidedLength(s, max);
    var once := Elided(s, max);
    var tail := max - HeadLen(max);
    assert once[..HeadLen(max)] == s[..HeadLen(max)];
    assert once[|once| - tail..] == s[|s| - tail..];
  }

  lemma {:induction false} DecimalInjective(m: nat, n: nat)
    ensures Decimal(m) == Decimal(n) <==> m == n
  {
    if m >= 10 && n >= 10 {
      var a, b := Decimal(m), Decimal(n);
      assert a == Decimal(m / 10) + [Digit(m % 10)];
      assert b == Decimal(n / 10) + [Digit(n % 10)];
      DecimalInjective(m / 10, n / 10);
      assert a == b ==> a[..|a| - 1] == b[..|b| - 1] && a[|a| - 1] == b[|b| - 1];
      assert a[..|a| - 1] == Decimal(m / 10) && b[..|b| - 1] == Decimal(n / 10);
    }
  }

  /** Eliding an elided text leaves it alone exactly when its marker already
      counts its own length. */
  lemma ElidingTwiceIsStableIff(s: string, max: nat)
    requires max < |s|
    ensures Elided(Elided(s, max), max) == Elided(s, max) <==> |s| - max == 24 + |Decimal(|s| - max)|
    decreases |s|
  {
    var omitted := |s| - max;
    var again := 24 + |Decimal(omitted)|;
    ElidingTwice(s, max);
    var h, tail := s[..HeadLen(max)], s[|s| - (max - HeadLen(max))..];
    if h + Marker(again) + tail == h + Marker(omitted) + tail {
      MiddleIsEqual(h, Marker(again), Marker(omitted), tail);
      assert Marker(again) == BEFORE + Decimal(again) + AFTER;
      assert Marker(omitted) == BEFORE + Decimal(omitted) + AFTER;
      MiddleIsEqual(BEFORE, Decimal(again), Decimal(omitted), AFTER);
      DecimalInjective(again, omitted);
    }
  }

  lemma MiddleIsEqual(h: string, a: string, b: string, t: string)
    requires h + a + t == h + b + t
    ensures a == b
  {
    assert |a| == |b|;
    assert forall i :: 0 <= i < |a| ==> (h + a + t)[|h| + i] == a[i] && (h + b + t)[|h| + i] == b[i];
  }
}
