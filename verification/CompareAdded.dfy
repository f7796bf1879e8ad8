/** What the count of added events certifies. */
module CompareAdded {
  import opened Lists
  import opened Sums
  import opened Compare
  import opened CompareClean

  /** The text of the added events. */
  function AddedBags(c: Crossing): seq<multiset<string>> {
    seq(|c.tgt|, m requires 0 <= m < |c.tgt| => if Adds(c, m) then Bags(c.tgt)[m] else multiset{})
  }

  function AddedText(c: Crossing): multiset<string> {
    Sum(AddedBags(c), |c.tgt|)
  }

  /** What is unclaimed after pass two is what the target says beyond the source,
      exempt events aside. */
  lemma UnclaimedIsBeyondSource(c: Crossing)
    ensures TextLeft(c, |c.src|) == TargetText(c) - SourceText(c)
  {
    SourceTextSplits(c);
    SpendTwice(TargetText(c), MatchedText(c), Sum(LateParts(c), |c.src|));
  }

  lemma AddedUpTo(c: Crossing, n: nat)
    requires n <= |c.tgt|
    ensures Sum(AddedBags(c), n) <= Sum(Bags(c.tgt), n)
  {
    SumBelow(AddedBags(c), Bags(c.tgt), n);
  }

  lemma LastAddedFits<K>(stock: multiset<K>, before: multiset<K>, bag: multiset<K>, key: K)
    requires bag <= stock - before && key in bag
    ensures before[key] + bag[key] <= stock[key]
  {
    assert bag[key] <= (stock - before)[key];
  }

  /** All the text of the added events is in what the target says over and above the
      source's, exempt events aside. */
  lemma AddedIsBeyondSource(c: Crossing)
    ensures AddedText(c) <= TargetText(c) - SourceText(c)
  {
    UnclaimedIsBeyondSource(c);
    forall key
      ensures AddedText(c)[key] <= TextLeft(c, |c.src|)[key]
    {
      if key in AddedText(c) {
        var m := LastDraw(AddedBags(c), |c.tgt|, key);
        assert Adds(c, m);
        AddedUpTo(c, m);
        assert Sum(AddedBags(c), m)[key] <= Sum(Bags(c.tgt), m)[key];
        LastAddedFits(TextLeft(c, |c.src|), Sum(Bags(c.tgt), m), Bags(c.tgt)[m], key);
      }
    }
  }

  lemma FitsUnspentIff<K>(bag: multiset<K>, stock: multiset<K>, source: multiset<K>, before: multiset<K>)
    ensures bag <= stock - source - before <==>
            forall key :: key in bag ==> source[key] + (before + bag)[key] <= stock[key]
  {
    if bag <= stock - source - before {
      forall key | key in bag
        ensures source[key] + (before + bag)[key] <= stock[key]
      {
        assert bag[key] <= (stock - source - before)[key];
      }
    }
    if forall key :: key in bag ==> source[key] + (before + bag)[key] <= stock[key] {
      forall key
        ensures bag[key] <= (stock - source - before)[key]
      {
        if key in bag {
          assert source[key] + (before + bag)[key] <= stock[key];
        }
      }
    }
  }

  lemma EventsAreInTarget(c: Crossing, m: nat)
    requires m < |c.tgt|
    ensures Sum(Bags(c.tgt), m) + Bags(c.tgt)[m] <= TargetText(c)
  {
    BagOfConcat(Contents(c.tgt), Bags(c.tgt), |c.tgt|);
    SumGrows(Bags(c.tgt), m + 1, |c.tgt|);
  }

  /** Target event `m` is surplus: it has content, and of each of its keys the
      target up to and with it holds no more than what it has over the source,
      exempt events aside. */
  predicate Surplus(c: Crossing, m: nat)
    requires m < |c.tgt|
  {
    c.tgt[m].content != [] &&
    forall key :: key in c.tgt[m].content ==>
      SourceText(c)[key] + Sum(Bags(c.tgt), m + 1)[key] <= TargetText(c)[key]
  }

  /** The event pass three counts, without the ledger: one that is surplus. */
  lemma AddsIff(c: Crossing, m: nat)
    requires m < |c.tgt|
    ensures Adds(c, m) <==> Surplus(c, m)
  {
    UnclaimedIsBeyondSource(c);
    FitsUnspentIff(Bags(c.tgt)[m], TargetText(c), SourceText(c), Sum(Bags(c.tgt), m));
    assert Sum(Bags(c.tgt), m + 1) == Sum(Bags(c.tgt), m) + Bags(c.tgt)[m];
    assert forall key :: key in Bags(c.tgt)[m] <==> key in c.tgt[m].content;
  }

  ghost function SurplusEvents(c: Crossing): set<nat> {
    set m: nat | m < |c.tgt| && Surplus(c, m)
  }

  lemma {:induction false} TotalIsSize(parts: seq<nat>, chosen: set<nat>, n: nat)
    requires n <= |parts|
    requires forall m :: 0 <= m < n ==> parts[m] == if m in chosen then 1 else 0
    ensures Total(parts, n) == |Below(chosen, n)|
  {
    if n > 0 {
      TotalIsSize(parts, chosen, n - 1);
      BelowStep(chosen, n - 1);
    }
  }

  /** What the count is: the number of surplus events. */
  lemma AddedAreSurplus(c: Crossing)
    ensures Compared(c).addedEvents == |SurplusEvents(c)|
  {
    forall m | 0 <= m < |c.tgt|
      ensures AddedParts(c)[m] == if m in SurplusEvents(c) then 1 else 0
    {
      AddsIff(c, m);
    }
    TotalIsSize(AddedParts(c), SurplusEvents(c), |c.tgt|);
    BelowAll(SurplusEvents(c), |c.tgt|);
  }

  /** A target event whose keys are neither the source's, exempt events aside, nor
      an earlier target event's is counted. */
  lemma InventedIsAdded(c: Crossing, m: nat)
    requires m < |c.tgt| && c.tgt[m].content != []
    requires forall key :: key in Bags(c.tgt)[m] ==> key !in SourceText(c) && key !in Sum(Bags(c.tgt), m)
    ensures Surplus(c, m) && Compared(c).addedEvents > 0
  {
    EventsAreInTarget(c, m);
    FitsUnspentIff(Bags(c.tgt)[m], TargetText(c), SourceText(c), Sum(Bags(c.tgt), m));
    SurplusIsCounted(c, m);
  }

  lemma SurplusIsCounted(c: Crossing, m: nat)
    requires m < |c.tgt| && Surplus(c, m)
    ensures Compared(c).addedEvents > 0
  {
    AddedAreSurplus(c);
    assert m in SurplusEvents(c);
  }

  /** A target that says nothing beyond the source, exempt events aside, has no event
      counted. */
  lemma NothingIsAdded(c: Crossing)
    requires TargetText(c) <= SourceText(c)
    ensures Compared(c).addedEvents == 0
  {
    AddedAreSurplus(c);
    forall m | 0 <= m < |c.tgt|
      ensures !Surplus(c, m)
    {
      var content := c.tgt[m].content;
      if content != [] {
        assert Sum(Bags(c.tgt), m + 1) == Sum(Bags(c.tgt), m) + Bags(c.tgt)[m];
        assert content[0] in Bags(c.tgt)[m];
        assert SourceText(c)[content[0]] >= TargetText(c)[content[0]];
      }
    }
  }
}
