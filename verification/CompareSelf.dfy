/** Comparing a replay with itself, and reports that are surprising but right. */
module CompareSelf {
  import opened Text
  import opened Ir
  import opened Sums
  import opened Matching
  import opened Reduce
  import opened Content
  import opened Compare
  import opened CompareClean
  import opened CompareAccounts

  lemma {:induction false} MatchesItself<K>(keys: seq<K>, i: nat)
    requires i <= |keys|
    ensures NextAt(keys, keys, i) == i
    ensures i < |keys| ==> MatchAt(keys, keys, i) == Some(i)
  {
    if i > 0 {
      MatchesItself(keys, i - 1);
    }
  }

  /** Source and target hold the same events, and each is matched to itself. */
  ghost predicate Mirrors(c: Crossing) {
    c.src == c.tgt && |c.matched| == |c.src| && forall i :: 0 <= i < |c.src| ==> c.matched[i] == Some(i)
  }

  lemma SelfMirrors(s: Serde, x: seq<Event>, vendor: string)
    ensures Mirrors(CrossingOf(s, x, x, vendor))
  {
    var c := CrossingOf(s, x, x, vendor);
    forall i | 0 <= i < |c.src|
      ensures c.matched[i] == Some(i)
    {
      MatchesItself(Shapes(c.src), i);
    }
  }

  lemma OwnCapsuleFound(c: Crossing, i: nat, j: nat)
    requires Mirrors(c) && i < |c.src| && j < |c.src[i].capsules|
    ensures c.src[i].capsules[j].sealed in OwnLeft(c, i, j)
  {
    NextIsThere(LocalParts(c, i), Keys(c.src[i].capsules), j);
  }

  function KeyBags(items: seq<Item>): seq<multiset<string>> {
    seq(|items|, i requires 0 <= i < |items| => multiset(Keys(items[i].capsules)))
  }

  lemma EventAsksForItsOwn(c: Crossing, i: nat)
    requires i < |c.src|
    ensures EventDraws(c)[i] <= KeyBags(c.src)[i]
  {
    var keys := Keys(c.src[i].capsules);
    AskedIsThere(GlobalParts(c, i), keys, |keys|);
    assert keys[..|keys|] == keys;
  }

  lemma EventsAskForTheirOwn(c: Crossing, n: nat)
    requires n <= |c.src|
    ensures Sum(EventDraws(c), n) <= Sum(KeyBags(c.src), n)
  {
    forall i | 0 <= i < n
      ensures EventDraws(c)[i] <= KeyBags(c.src)[i]
    {
      EventAsksForItsOwn(c, i);
    }
    SumBelow(EventDraws(c), KeyBags(c.src), n);
  }

  lemma EventHoldsNext(c: Crossing, i: nat, j: nat)
    requires i < |c.src| && j < |c.src[i].capsules|
    ensures c.src[i].capsules[j].sealed in KeyBags(c.src)[i] - Sum(GlobalParts(c, i), j)
  {
    NextIsThere(GlobalParts(c, i), Keys(c.src[i].capsules), j);
  }

  lemma FileHoldsEvents(c: Crossing, i: nat)
    requires Mirrors(c) && i < |c.src|
    ensures Sum(KeyBags(c.src), i) + KeyBags(c.src)[i] <= AllSealed(c)
  {
    BagOfConcat(KeysPerEvent(c.tgt), KeyBags(c.src), |c.src|);
    SumGrows(KeyBags(c.src), i + 1, |c.src|);
  }

  lemma FileCapsuleFound(c: Crossing, i: nat, j: nat)
    requires Mirrors(c) && i < |c.src| && j < |c.src[i].capsules|
    ensures c.src[i].capsules[j].sealed in FileLeftAt(c, i, j)
  {
    FileHoldsEvents(c, i);
    EventsAskForTheirOwn(c, i);
    EventHoldsNext(c, i, j);
  }

  lemma MirrorVerdict(c: Crossing, i: nat, j: nat)
    requires Mirrors(c) && i < |c.src| && j < |c.src[i].capsules|
    ensures VerdictOf(c, i, j) == if Foreign(c, c.src[i].capsules[j]) then CarriedAcross else Conserved
  {
    OwnCapsuleFound(c, i, j);
    FileCapsuleFound(c, i, j);
  }

  lemma MirrorBucketEmpty(c: Crossing, bucket: Bucket)
    requires Mirrors(c)
    ensures LossesIn(Log(c, |c.src|), bucket) == []
  {
    forall i | 0 <= i < |c.src|
      ensures !InBucket(MarksOf(c, i), bucket)
    {
      EventBuckets(c, i, bucket);
      forall j | 0 <= j < |c.src[i].capsules|
        ensures VerdictOf(c, i, j) != UnexplainedDrop && VerdictOf(c, i, j) != PredictedDrop
      {
        MirrorVerdict(c, i, j);
      }
    }
    BucketEmptyIff(c, bucket);
  }

  lemma MirrorTextIsSpent(c: Crossing)
    requires Mirrors(c)
    ensures TextLeft(c, |c.src|) == multiset{}
  {
    var bags := Bags(c.tgt);
    BagOfConcat(Contents(c.tgt), bags, |c.tgt|);
    assert MatchedParts(c) == bags;
    assert SpareText(c) == multiset{};
  }

  lemma MirrorCarries(c: Crossing)
    requires Mirrors(c)
    ensures Compared(c).carriedForeign == [] <==>
            forall i, j :: 0 <= i < |c.src| && 0 <= j < |c.src[i].capsules| ==> !Foreign(c, c.src[i].capsules[j])
  {
    NothingCarriedIff(c);
    forall i, j | 0 <= i < |c.src| && 0 <= j < |c.src[i].capsules|
      ensures Smuggled(c, i, j) <==> Foreign(c, c.src[i].capsules[j])
    {
      FileCapsuleFound(c, i, j);
    }
  }

  lemma MirrorLosesNothing(c: Crossing)
    requires Mirrors(c)
    ensures
      var report := Compared(c);
      report.predicted == [] && report.degraded == [] && report.unexplained == []
  {
    MirrorBucketEmpty(c, Predicted);
    MirrorBucketEmpty(c, Degraded);
    MirrorBucketEmpty(c, Unexplained);
  }

  lemma NothingToAdd(c: Crossing, m: nat)
    requires TextLeft(c, |c.src|) == multiset{} && m < |c.tgt|
    ensures !Adds(c, m)
  {
    if c.tgt[m].content != [] {
      NothingLeft(c.tgt[m].content, TextLeft(c, |c.src|), Sum(Bags(c.tgt), m));
    }
  }

  lemma MirrorAddsNothing(c: Crossing)
    requires Mirrors(c)
    ensures Compared(c).addedEvents == 0
  {
    MirrorTextIsSpent(c);
    forall m | 0 <= m < |c.tgt|
      ensures AddedParts(c)[m] == 0
    {
      NothingToAdd(c, m);
    }
    ZeroIff(AddedParts(c), |c.tgt|);
  }

  ghost predicate AllNative(events: seq<Event>, vendor: string) {
    forall i, j :: 0 <= i < |events| && 0 <= j < |events[i].capsules| ==> events[i].capsules[j].FitsVendor(vendor)
  }

  lemma NativeIff(s: Serde, x: seq<Event>, vendor: string)
    ensures
      var c := CrossingOf(s, x, x, vendor);
      AllNative(x, vendor) <==>
      forall i, j :: 0 <= i < |c.src| && 0 <= j < |c.src[i].capsules| ==> !Foreign(c, c.src[i].capsules[j])
  {
    var c := CrossingOf(s, x, x, vendor);
    assert |c.src| == |x| && forall i :: 0 <= i < |x| ==> c.src[i].capsules == x[i].capsules;
    if i, j :| 0 <= i < |x| && 0 <= j < |x[i].capsules| && !x[i].capsules[j].FitsVendor(vendor) {
      assert Foreign(c, c.src[i].capsules[j]);
    }
  }

  lemma SelfReport(s: Serde, x: seq<Event>, vendor: string)
    ensures
      var report := Compared(CrossingOf(s, x, x, vendor));
      && report.predicted == [] && report.degraded == [] && report.unexplained == []
      && report.addedEvents == 0
      && (report.carriedForeign == [] <==> AllNative(x, vendor))
  {
    var c := CrossingOf(s, x, x, vendor);
    SelfMirrors(s, x, vendor);
    MirrorLosesNothing(c);
    MirrorAddsNothing(c);
    MirrorCarries(c);
    NativeIff(s, x, vendor);
  }

  /** A replay compared with itself: every event is matched to its own position,
      nothing is lost, reshaped, predicted or added, the grade is the best a
      comparison gives, and the report is clean exactly when the replay holds no
      capsule foreign to the vendor. */
  lemma SelfComparison(s: Serde, x: seq<Event>, vendor: string)
    ensures
      var c := CrossingOf(s, x, x, vendor);
      var report := Compared(c);
      && (forall i :: 0 <= i < |x| ==> MatchOf(c, i) == Some(i))
      && report.predicted == [] && report.degraded == [] && report.unexplained == []
      && report.addedEvents == 0
      && report.Fidelity() == ContextComplete
      && (report.IsClean() <==> AllNative(x, vendor))
  {
    var c := CrossingOf(s, x, x, vendor);
    SelfMirrors(s, x, vendor);
    SelfReport(s, x, vendor);
    CompleteIff(c);
  }

  // ---------------------------------------------------------------------------
  // Reports that surprise
  // ---------------------------------------------------------------------------

  /** A reasoning event with nothing to read: `blanks` blank lines and one capsule. */
  function Husk(blanks: nat, cap: Capsule): Event {
    Event("", Model, Reasoning(None, seq(blanks, _ => " ")), [cap])
  }

  /** Two source husks, the first with a capsule of the target's vendor and the
      second with a foreign one, and a target husk with a copy of the first's. */
  function SharedBytes(s: Serde, vendor: string, mine: Capsule, theirs: Capsule): Crossing {
    CrossingOf(s, [Husk(0, mine), Husk(1, theirs)], [Husk(2, mine)], vendor)
  }

  lemma UnlikePrintsMatchNothing(s: Serde, src: seq<Event>, target: Event, vendor: string, i: nat)
    requires i < |src| <= 2 && forall e :: e in src ==> s.body(e.body) != s.body(target.body)
    ensures MatchOf(CrossingOf(s, src, [target], vendor), i).None?
  {
    var c := CrossingOf(s, src, [target], vendor);
    var source, key := Shapes(c.src), Shapes(c.tgt);
    assert source[0] == s.body(src[0].body) && key[0] == s.body(target.body);
    assert NextAt(source, key, 0) == 0 && MatchAt(source, key, 0) == None;
    if i == 1 {
      assert source[1] == s.body(src[1].body);
      assert NextAt(source, key, 1) == 0 && MatchAt(source, key, 1) == None;
    }
    assert c.matched[i] == MatchAt(source, key, i);
  }

  lemma SharedBytesAreSpent(c: Crossing, mine: Capsule)
    requires |c.src| == 2 && |c.tgt| == 1 && c.src[0].capsules == c.tgt[0].capsules == [mine]
    requires MatchOf(c, 0).None?
    ensures AllSealed(c) == multiset{mine.sealed} && FileLeft(c, 1) == multiset{}
  {
    var key := mine.sealed;
    assert Concat(KeysPerEvent(c.tgt), 1) == Concat(KeysPerEvent(c.tgt), 0) + [key];
    assert GlobalParts(c, 0)[0] == multiset{key};
    assert Sum(GlobalParts(c, 0), 1) == Sum(GlobalParts(c, 0), 0) + multiset{key};
    assert EventDraws(c)[0] == multiset{key};
    assert Sum(EventDraws(c), 1) == Sum(EventDraws(c), 0) + multiset{key};
  }

  lemma SpentIsNotSmuggled(c: Crossing, mine: Capsule, theirs: Capsule)
    requires |c.src| == 2 && |c.tgt| == 1 && c.src[0].capsules == c.tgt[0].capsules == [mine]
    requires c.src[1].capsules == [theirs] && MatchOf(c, 0).None?
    requires mine.FitsVendor(c.vendor)
    ensures NothingSmuggled(c)
  {
    SharedBytesAreSpent(c, mine);
    assert FileLeftAt(c, 1, 0) == FileLeft(c, 1) - Sum(GlobalParts(c, 1), 0);
    assert !Smuggled(c, 0, 0) && !Smuggled(c, 1, 0);
    forall i, j | 0 <= i < |c.src| && 0 <= j < |c.src[i].capsules|
      ensures !Smuggled(c, i, j)
    {
      assert (i == 0 || i == 1) && j == 0;
    }
  }

  /** Telling vendors apart by their bytes is needed: here the first event spends
      the only copy, and the foreign bytes in the target are not reported. */
  lemma SharedBytesHideACarry(s: Serde, vendor: string, mine: Capsule, theirs: Capsule)
    requires mine.FitsVendor(vendor) && !theirs.FitsVendor(vendor) && mine.sealed == theirs.sealed
    requires s.body(Husk(0, mine).body) != s.body(Husk(2, mine).body)
    requires s.body(Husk(1, theirs).body) != s.body(Husk(2, mine).body)
    ensures
      var c := SharedBytes(s, vendor, mine, theirs);
      Compared(c).carriedForeign == [] && theirs.sealed in AllSealed(c)
  {
    var c := SharedBytes(s, vendor, mine, theirs);
    UnlikePrintsMatchNothing(s, [Husk(0, mine), Husk(1, theirs)], Husk(2, mine), vendor, 0);
    SharedBytesAreSpent(c, mine);
    SpentIsNotSmuggled(c, mine, theirs);
    NothingCarriedIff(c);
  }

  /** An unmatched event with nothing to read is damage as soon as one of its
      capsules is of the target's vendor, found or not. */
  lemma BareEventIsUnexplained(c: Crossing, i: nat)
    requires i < |c.src| && MatchOf(c, i).None?
    requires c.src[i].content == [] && c.src[i].capsules != [] && !AllForeign(c, c.src[i])
    ensures Compared(c).unexplained != []
  {
    EventBuckets(c, i, Unexplained);
    BucketEmptyIff(c, Unexplained);
  }

  lemma HuskIsEmpty(s: Serde, blanks: nat, cap: Capsule)
    ensures Substance(s, Husk(blanks, cap).body) == []
  {
    BlankLines(blanks);
    assert [] + Husk(blanks, cap).body.summary == Husk(blanks, cap).body.summary;
  }

  lemma {:induction false} BlankLines(n: nat)
    ensures NonBlank(seq(n, _ => " ")) == []
  {
    if n > 0 {
      var lines := seq(n, _ => " ");
      assert lines[1..] == seq(n - 1, _ => " ");
      BlankLines(n - 1);
      assert Blank(lines[0]);
    }
  }

  lemma OnlyCapsuleFound(c: Crossing, mine: Capsule)
    requires |c.src| == 1 && |c.tgt| == 1 && c.src[0].capsules == c.tgt[0].capsules == [mine]
    requires MatchOf(c, 0).None? && mine.FitsVendor(c.vendor)
    ensures VerdictOf(c, 0, 0) == Conserved
  {
    assert Concat(KeysPerEvent(c.tgt), 1) == Concat(KeysPerEvent(c.tgt), 0) + [mine.sealed];
    assert Sum(EventDraws(c), 0) == multiset{} && Sum(GlobalParts(c, 0), 0) == multiset{};
    assert mine.sealed in FileLeftAt(c, 0, 0);
  }

  /** So a husk reshaped into another husk with the same capsule is reported as
      damage, although the capsule was looked for in the file and found. */
  lemma FoundHuskIsUnexplained(s: Serde, vendor: string, mine: Capsule)
    requires mine.FitsVendor(vendor) && s.body(Husk(0, mine).body) != s.body(Husk(1, mine).body)
    ensures
      var c := CrossingOf(s, [Husk(0, mine)], [Husk(1, mine)], vendor);
      VerdictOf(c, 0, 0) == Conserved && Compared(c).unexplained != []
  {
    var c := CrossingOf(s, [Husk(0, mine)], [Husk(1, mine)], vendor);
    UnlikePrintsMatchNothing(s, [Husk(0, mine)], Husk(1, mine), vendor, 0);
    HuskIsEmpty(s, 0, mine);
    OnlyCapsuleFound(c, mine);
    assert c.src[0].capsules[0] == mine;
    BareEventIsUnexplained(c, 0);
  }

  /** A call written without an argument that held anything readable is damage when
      the written call is all there is. */
  lemma DeletedArgumentIsDamage(s: Serde, call: Event, fields: seq<Field>, i: nat, vendor: string)
    requires PrintsTellContent(s)
    requires call.body.ToolCall? && call.body.input == JsonArgs(Obj(fields), None)
    requires i < |fields| && NonBlank(Leaves(fields[i].value)) != []
    ensures
      var cut := call.(body := call.body.(input := JsonArgs(Obj(fields[..i] + fields[i + 1..]), None)));
      Compared(CrossingOf(s, [call], [cut], vendor)).unexplained != []
  {
    var cut := call.(body := call.body.(input := JsonArgs(Obj(fields[..i] + fields[i + 1..]), None)));
    DeletedArgumentIsMissedIff(s, call.body, fields, i, None);
    MissedKeysAreDamage(s, call, cut, vendor);
  }

  /** So is a message or a tool result written without a block that held anything
      readable. */
  lemma DeletedBlockIsDamage(s: Serde, e: Event, i: nat, text: string, vendor: string)
    requires PrintsTellContent(s)
    requires (e.body.Message? || e.body.ToolResult?) && i < |BlocksOf(e.body)|
    requires Shows(s, BlocksOf(e.body)[i], text) && !Blank(text)
    ensures
      var cut := e.(body := WithBlocks(e.body, BlocksOf(e.body)[..i] + BlocksOf(e.body)[i + 1..]));
      Compared(CrossingOf(s, [e], [cut], vendor)).unexplained != []
  {
    var cut := e.(body := WithBlocks(e.body, BlocksOf(e.body)[..i] + BlocksOf(e.body)[i + 1..]));
    DeletedBlockIsMissedIff(s, e.body, i);
    MissedKeysAreDamage(s, e, cut, vendor);
  }

  lemma MissedKeysAreDamage(s: Serde, e: Event, cut: Event, vendor: string)
    requires PrintsTellContent(s) && !e.body.SealedContext?
    requires multiset(Substance(s, cut.body)) < multiset(Substance(s, e.body))
    ensures Compared(CrossingOf(s, [e], [cut], vendor)).unexplained != []
  {
    var c := CrossingOf(s, [e], [cut], vendor);
    PassOneMatchesWell(s, [e], [cut], vendor);
    NoDamageIff(c);
    SourceOfOne(c);
    TargetOfOne(c);
  }

  lemma SourceOfOne(c: Crossing)
    requires |c.src| == 1 && !c.src[0].sealedContext
    ensures SourceText(c) == multiset(c.src[0].content)
  {
    assert Sum(SourceParts(c), 1) == Sum(SourceParts(c), 0) + SourceParts(c)[0];
  }

  lemma TargetOfOne(c: Crossing)
    requires |c.tgt| == 1
    ensures TargetText(c) == multiset(c.tgt[0].content)
  {
    assert Concat(Contents(c.tgt), 1) == Concat(Contents(c.tgt), 0) + Contents(c.tgt)[0];
  }
}
