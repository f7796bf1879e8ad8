/** Exempt events against the count of added events: no draw is ever made
    for their text, so a target that repeats it is taken to have made it up. */
module CompareExempt {
  import opened Text
  import opened Ir
  import opened Sums
  import opened Ledger
  import opened Matching
  import opened Reduce
  import opened Compare
  import opened CompareClean
  import opened CompareAdded

  /** Everything readable in the source, exempt events included. */
  function AllText(c: Crossing): multiset<string> {
    multiset(TextKeys(c.src))
  }

  function ExemptParts(c: Crossing): seq<multiset<string>> {
    seq(|c.src|, i requires 0 <= i < |c.src| => if Exempt(c, i) then multiset(c.src[i].content) else multiset{})
  }

  function ExemptText(c: Crossing): multiset<string> {
    Sum(ExemptParts(c), |c.src|)
  }

  lemma AllTextSplits(c: Crossing)
    ensures AllText(c) == SourceText(c) + ExemptText(c)
  {
    BagOfConcat(Contents(c.src), Bags(c.src), |c.src|);
    SumOfBoth(SourceParts(c), ExemptParts(c), Bags(c.src), |c.src|);
  }

  /** Against the whole source: what the added events say is new, or is the text of
      an exempt event. */
  lemma AddedIsNewOrExempt(c: Crossing)
    ensures AddedText(c) <= (TargetText(c) - AllText(c)) + ExemptText(c)
  {
    AddedIsBeyondSource(c);
    AllTextSplits(c);
  }

  /** `tgt` says nothing that `src` does not, as often. */
  ghost predicate SaysNoMore(s: Serde, src: seq<Event>, tgt: seq<Event>) {
    multiset(TextKeys(ReduceAll(s, tgt))) <= multiset(TextKeys(ReduceAll(s, src)))
  }

  /** Sealed context of other vendors: the events that can be exempt. */
  predicate CanBeExempt(e: Event, vendor: string) {
    e.body.SealedContext? && e.capsules != [] &&
    forall k :: 0 <= k < |e.capsules| ==> !e.capsules[k].FitsVendor(vendor)
  }

  lemma {:induction false} NoneExempt(c: Crossing, n: nat)
    requires n <= |c.src| && forall i :: 0 <= i < |c.src| ==> !Exempt(c, i)
    ensures Sum(ExemptParts(c), n) == multiset{}
  {
    if n > 0 {
      NoneExempt(c, n - 1);
    }
  }

  /** One text `n` times over. */
  function Echo(text: string, n: nat): seq<Event> {
    seq(n, _ => Event("", Model, Message(User, [TextBlock(text)]), []))
  }

  lemma EchoContent(s: Serde, text: string)
    requires !Blank(text)
    ensures Substance(s, Message(User, [TextBlock(text)])) == [text]
  {
    var blocks := [TextBlock(text)];
    assert blocks[0] == TextBlock(text) && blocks[1..] == [];
    assert Payloads(s, blocks) == [text] + Payloads(s, []) == [text];
    assert [text][0] == text && [text][1..] == [];
    assert NonBlank([text]) == [text] + NonBlank([]);
  }

  lemma {:induction false} SameBags<K>(bags: seq<multiset<K>>, key: K, n: nat)
    requires n <= |bags| && forall i :: 0 <= i < n ==> bags[i] == multiset{key}
    ensures forall k :: Sum(bags, n)[k] == if k == key then n else 0
  {
    if n > 0 {
      SameBags(bags, key, n - 1);
    }
  }

  lemma EchoText(c: Crossing, text: string)
    requires forall m :: 0 <= m < |c.tgt| ==> c.tgt[m].content == [text]
    ensures forall k :: TargetText(c)[k] == if k == text then |c.tgt| else 0
    ensures |c.tgt| > 0 ==> Sum(Bags(c.tgt), 1)[text] == 1
  {
    BagOfConcat(Contents(c.tgt), Bags(c.tgt), |c.tgt|);
    SameBags(Bags(c.tgt), text, |c.tgt|);
    if |c.tgt| > 0 {
      SameBags(Bags(c.tgt), text, 1);
    }
  }

  lemma ExemptIsShort(c: Crossing, i: nat, text: string)
    requires i < |c.src| && Exempt(c, i) && text in c.src[i].content
    ensures SourceText(c)[text] < AllText(c)[text]
  {
    AllTextSplits(c);
    assert ExemptParts(c)[i][text] > 0;
    SumCountsIn(ExemptParts(c), i, text);
  }

  /** The text of an exempt event, repeated as often as the source says it, makes an
      added event. */
  lemma EchoIsSurplus(c: Crossing, i: nat, text: string)
    requires i < |c.src| && Exempt(c, i) && text in c.src[i].content
    requires |c.tgt| == AllText(c)[text] && forall m :: 0 <= m < |c.tgt| ==> c.tgt[m].content == [text]
    ensures TargetText(c) <= AllText(c) && Compared(c).addedEvents > 0
  {
    EchoText(c, text);
    ExemptIsShort(c, i, text);
    FirstIsAdded(c, text);
  }

  lemma FirstIsAdded(c: Crossing, text: string)
    requires |c.tgt| > 0 && c.tgt[0].content == [text]
    requires SourceText(c)[text] + Sum(Bags(c.tgt), 1)[text] <= TargetText(c)[text]
    ensures Compared(c).addedEvents > 0
  {
    assert forall key :: key in c.tgt[0].content ==> key == text;
    SurplusIsCounted(c, 0);
  }

  /** A target that repeats the printed form of one sealed context as a message, as
      often as the source says it, matches none of it. */
  lemma EchoIsAdded(s: Serde, src: seq<Event>, vendor: string, i: nat)
    requires PrintsUpToNull(s) && i < |src| && CanBeExempt(src[i], vendor)
    requires !Blank(s.body(src[i].body))
    ensures
      var text := s.body(src[i].body);
      var tgt := Echo(text, multiset(TextKeys(ReduceAll(s, src)))[text]);
      SaysNoMore(s, src, tgt) && Compared(CrossingOf(s, src, tgt, vendor)).addedEvents > 0
  {
    var text := s.body(src[i].body);
    var tgt := Echo(text, multiset(TextKeys(ReduceAll(s, src)))[text]);
    var c := CrossingOf(s, src, tgt, vendor);
    EchoContent(s, text);
    assert forall m :: 0 <= m < |tgt| ==> tgt[m].body == Message(User, [TextBlock(text)]);
    assert NullBlind(Message(User, [TextBlock(text)])) != NullBlind(src[i].body);
    assert text in c.src[i].content;
    EchoIsSurplus(c, i, text);
  }

  lemma SumCountsIn<K>(bags: seq<multiset<K>>, i: nat, key: K)
    requires i < |bags| && bags[i][key] > 0
    ensures Sum(bags, |bags|)[key] > 0
  {
    SumGrows(bags, i + 1, |bags|);
    assert Sum(bags, i + 1)[key] > 0;
  }

  ghost predicate EchoesAreNotAdded(s: Serde, src: seq<Event>, tgt: seq<Event>, vendor: string) {
    SaysNoMore(s, src, tgt) ==> Compared(CrossingOf(s, src, tgt, vendor)).addedEvents == 0
  }

  /** When the count can be taken at its word, that what an added event says is
      new: for the sources without sealed context of other vendors, and
      for no others. */
  lemma AddedIsNewIff(s: Serde, src: seq<Event>, vendor: string)
    requires PrintsUpToNull(s) && forall b :: !Blank(s.body(b))
    ensures (forall tgt :: EchoesAreNotAdded(s, src, tgt, vendor)) <==>
            forall i :: 0 <= i < |src| ==> !CanBeExempt(src[i], vendor)
  {
    if forall i :: 0 <= i < |src| ==> !CanBeExempt(src[i], vendor) {
      forall tgt
        ensures EchoesAreNotAdded(s, src, tgt, vendor)
      {
        var c := CrossingOf(s, src, tgt, vendor);
        forall i | 0 <= i < |c.src|
          ensures !Exempt(c, i)
        {
        }
        NoneExempt(c, |c.src|);
        AllTextSplits(c);
        if SaysNoMore(s, src, tgt) {
          NothingIsAdded(c);
        }
      }
    }
    if i :| 0 <= i < |src| && CanBeExempt(src[i], vendor) {
      EchoIsAdded(s, src, vendor, i);
      var text := s.body(src[i].body);
      assert !EchoesAreNotAdded(s, src, Echo(text, multiset(TextKeys(ReduceAll(s, src)))[text]), vendor);
    }
  }

  /** No new event is needed: put before another event, a sealed context stripped of
      its capsules is unmatched, exempt and counted as added. */
  lemma ReorderedSealedIsAdded(s: Serde, other: Event, sealed: Event, vendor: string)
    requires CanBeExempt(sealed, vendor) && s.body(other.body) != s.body(sealed.body)
    requires s.body(sealed.body) !in Substance(s, other.body)
    ensures
      var src, tgt := [other, sealed], [sealed.(capsules := []), other];
      SaysNoMore(s, src, tgt) && Compared(CrossingOf(s, src, tgt, vendor)).addedEvents > 0
  {
    var src, tgt := [other, sealed], [sealed.(capsules := []), other];
    var c := CrossingOf(s, src, tgt, vendor);
    SecondFirst(Shapes(c.src), Shapes(c.tgt));
    ReorderedIsSurplus(c, s.body(sealed.body));
  }

  lemma ReorderedIsSurplus(c: Crossing, text: string)
    requires |c.src| == |c.tgt| == 2 && !Exempt(c, 0) && Exempt(c, 1)
    requires c.src[0].content == c.tgt[1].content && c.src[1].content == c.tgt[0].content == [text]
    requires text !in c.src[0].content
    ensures TargetText(c) <= AllText(c) && Compared(c).addedEvents > 0
  {
    TextOfTwo(c.src);
    TextOfTwo(c.tgt);
    TwoParts(SourceParts(c));
    TwoParts(Bags(c.tgt));
    assert text !in multiset(c.src[0].content);
    assert SourceText(c)[text] == 0;
    FirstIsAdded(c, text);
  }

  lemma TwoParts<K>(parts: seq<multiset<K>>)
    requires |parts| == 2
    ensures Sum(parts, 1) == parts[0] && Sum(parts, 2) == parts[0] + parts[1]
  {
    assert Sum(parts, 1) == Sum(parts, 0) + parts[0];
  }

  lemma TextOfTwo(items: seq<Item>)
    requires |items| == 2
    ensures multiset(TextKeys(items)) == multiset(items[0].content) + multiset(items[1].content)
  {
    BagOfConcat(Contents(items), Bags(items), 2);
    TwoParts(Bags(items));
  }

  lemma SecondFirst<K>(source: seq<K>, target: seq<K>)
    requires |source| == |target| == 2 && source[0] == target[1] != source[1] == target[0]
    ensures MatchAt(source, target, 0) == Some(1) && MatchAt(source, target, 1) == None
  {
    assert NextAt(source, target, 0) == 0;
    assert FirstAt(target, source[0], 0) == FirstAt(target, source[0], 1) == Some(1);
    assert NextAt(source, target, 1) == 2;
  }
}
