/** What a clean report certifies, and exactly when a report is clean. */
module CompareClean {
  import opened Text
  import opened Ir
  import opened Sums
  import opened Matching
  import opened Tallies
  import opened Reduce
  import opened Compare

  // ---------------------------------------------------------------------------
  // What pass one guarantees
  // ---------------------------------------------------------------------------

  /** Matches are in order, and matched events hold the same content. */
  ghost predicate WellMatched(c: Crossing) {
    && OneToOne(c)
    && (forall i, j :: 0 <= i < j < |c.matched| && c.matched[i].Some? && c.matched[j].Some? ==>
          c.matched[i].value < c.matched[j].value)
    && (forall i :: 0 <= i < |c.matched| && c.matched[i].Some? ==>
          c.tgt[c.matched[i].value].content == c.src[i].content)
  }

  /** Events are matched on their whole serialised body, so what the model reads
      of a matched event is what it read of the original. */
  lemma PassOneMatchesWell(s: Serde, src: seq<Event>, tgt: seq<Event>, vendor: string)
    requires PrintsTellContent(s)
    ensures WellMatched(CrossingOf(s, src, tgt, vendor))
  {
    var c := CrossingOf(s, src, tgt, vendor);
    MatchingIsOneToOne(s, src, tgt, vendor);
    forall i, j | 0 <= i < j < |c.matched| && c.matched[i].Some? && c.matched[j].Some?
      ensures c.matched[i].value < c.matched[j].value
    {
      MatchesIncrease(Shapes(c.src), Shapes(c.tgt), i, j);
    }
    forall i | 0 <= i < |c.matched| && c.matched[i].Some?
      ensures c.tgt[c.matched[i].value].content == c.src[i].content
    {
      var p := c.matched[i].value;
      assert Shapes(c.tgt)[p] == Shapes(c.src)[i];
      assert s.body(tgt[p].body) == s.body(src[i].body);
      assert Substance(s, tgt[p].body) == Substance(s, src[i].body);
    }
  }

  // ---------------------------------------------------------------------------
  // Text
  // ---------------------------------------------------------------------------

  /** Matched text is drawn from distinct target events, so all of it is there. */
  lemma MatchedTextFits(c: Crossing)
    requires WellMatched(c)
    ensures MatchedText(c) <= TargetText(c)
  {
    var places := seq(|c.src|, i requires 0 <= i < |c.src| =>
      if MatchOf(c, i).Some? then MatchOf(c, i).value else -1);
    InOrderFits(MatchedParts(c), places, Bags(c.tgt), |c.src|, |c.tgt|);
    BagOfConcat(Contents(c.tgt), Bags(c.tgt), |c.tgt|);
  }

  /** Drawing the late events' text one event at a time succeeds throughout
      exactly when the target held all of it over and above the matched text. */
  lemma LateTextFits(c: Crossing)
    requires WellMatched(c)
    ensures (forall i :: 0 <= i < |c.src| && Late(c, i) ==> multiset(c.src[i].content) <= TextLeft(c, i)) <==>
            MatchedText(c) + Sum(LateParts(c), |c.src|) <= TargetText(c)
  {
    var spare, parts := SpareText(c), LateParts(c);
    MatchedTextFits(c);
    SequentialDraws(spare, parts, |c.src|);
    forall i | 0 <= i < |c.src|
      ensures StillThere(spare, parts, i) <==> (Late(c, i) ==> multiset(c.src[i].content) <= TextLeft(c, i))
    {
    }
  }

  /** An unmatched event that was nothing but another vendor's sealed history:
      the one kind of event whose disappearance the comparator excuses although
      it serialises to something. */
  predicate Exempt(c: Crossing, i: nat)
    requires i < |c.src|
  {
    MatchOf(c, i).None? && AllForeign(c, c.src[i]) && c.src[i].sealedContext
  }

  function SourceParts(c: Crossing): seq<multiset<string>> {
    seq(|c.src|, i requires 0 <= i < |c.src| => if Exempt(c, i) then multiset{} else multiset(c.src[i].content))
  }

  /** Everything readable in the source, exempt events aside. */
  function SourceText(c: Crossing): multiset<string> {
    Sum(SourceParts(c), |c.src|)
  }

  lemma SourceTextSplits(c: Crossing)
    ensures SourceText(c) == MatchedText(c) + Sum(LateParts(c), |c.src|)
  {
    var all, matched, late := SourceParts(c), MatchedParts(c), LateParts(c);
    forall i | 0 <= i < |c.src|
      ensures all[i] == matched[i] + late[i]
    {
      if MatchOf(c, i).None? && !Exempt(c, i) && !Late(c, i) {
        assert c.src[i].content == [];
      }
    }
    SumOfBoth(matched, late, all, |c.src|);
  }

  // ---------------------------------------------------------------------------
  // Capsules on the matched event
  // ---------------------------------------------------------------------------

  /** Everything event `i` asks of its own target event is on it. */
  ghost predicate DrawsFit(c: Crossing, i: nat)
    requires i < |c.src|
  {
    Sum(LocalParts(c, i), |c.src[i].capsules|) <= OwnStock(c, i)
  }

  predicate InStock(c: Crossing, i: nat, j: nat)
    requires i < |c.src| && j < |c.src[i].capsules|
  {
    c.src[i].capsules[j].sealed in OwnLeft(c, i, j)
  }

  lemma LocalDrawsFit(c: Crossing, i: nat)
    requires i < |c.src|
    ensures DrawsFit(c, i) <==> forall j :: 0 <= j < |c.src[i].capsules| && Local(c, i, j) ==> InStock(c, i, j)
  {
    var stock, parts := OwnStock(c, i), LocalParts(c, i);
    SequentialDraws(stock, parts, |c.src[i].capsules|);
    forall j | 0 <= j < |c.src[i].capsules|
      ensures StillThere(stock, parts, j) <==> (Local(c, i, j) ==> InStock(c, i, j))
    {
    }
  }

  // ---------------------------------------------------------------------------
  // Empty buckets
  // ---------------------------------------------------------------------------

  lemma EveryKindIsListed(kind: LossKind)
    ensures exists k :: 0 <= k < |KINDS| && KINDS[k] == kind
  {
    match kind
    case ConversationLoss => assert KINDS[0] == kind;
    case MediaLoss => assert KINDS[1] == kind;
    case MetadataLoss => assert KINDS[2] == kind;
    case ReasoningLoss => assert KINDS[3] == kind;
    case SealedContextLoss => assert KINDS[4] == kind;
    case ToolProtocolLoss => assert KINDS[5] == kind;
  }

  lemma EveryCapsuleKindIsListed(kind: CapsuleKind)
    ensures exists k :: 0 <= k < |CAPSULE_KINDS| && CAPSULE_KINDS[k] == kind
  {
    match kind
    case AnthropicRedactedThinking => assert CAPSULE_KINDS[0] == kind;
    case AnthropicThinkingSignature => assert CAPSULE_KINDS[1] == kind;
    case OpenaiCompactedContext => assert CAPSULE_KINDS[2] == kind;
    case OpenaiReasoningEncryptedContent => assert CAPSULE_KINDS[3] == kind;
  }

  ghost predicate InBucket(marks: seq<Mark<Finding>>, bucket: Bucket) {
    exists m :: m in marks && m.key.bucket == bucket
  }

  lemma BucketEmptyInLog(log: seq<seq<Mark<Finding>>>, bucket: Bucket)
    ensures LossesIn(log, bucket) == [] <==> forall i :: 0 <= i < |log| ==> !InBucket(log[i], bucket)
  {
    var lines := LossLines(log, bucket);
    ConcatEmpty(lines, |KINDS|);
    if i :| 0 <= i < |log| && InBucket(log[i], bucket) {
      var m :| m in log[i] && m.key.bucket == bucket;
      EveryKindIsListed(m.key.kind);
      var k :| 0 <= k < |KINDS| && KINDS[k] == m.key.kind;
      NoEventNothing(log, m.key);
      assert Mentions(log[i], m.key);
      assert lines[k] == LossLine(log, bucket, m.key.kind);
      assert lines[k] != [];
    } else {
      forall k | 0 <= k < |KINDS|
        ensures lines[k] == []
      {
        NoEventNothing(log, Finding(bucket, KINDS[k]));
      }
    }
  }

  /** A bucket of the report is empty exactly when no event has a finding in it. */
  lemma BucketEmptyIff(c: Crossing, bucket: Bucket)
    ensures LossesIn(Log(c, |c.src|), bucket) == [] <==>
            forall i :: 0 <= i < |c.src| ==> !InBucket(MarksOf(c, i), bucket)
  {
    var log := Log(c, |c.src|);
    BucketEmptyInLog(log, bucket);
    forall i | 0 <= i < |c.src|
      ensures log[i] == MarksOf(c, i)
    {
    }
  }

  lemma NoneCarriedInLog(log: seq<seq<Mark<CapsuleKind>>>)
    ensures CarriesIn(log) == [] <==> forall i :: 0 <= i < |log| ==> log[i] == []
  {
    var lines := CarryLines(log);
    ConcatEmpty(lines, |CAPSULE_KINDS|);
    if i :| 0 <= i < |log| && log[i] != [] {
      var kind := log[i][0].key;
      EveryCapsuleKindIsListed(kind);
      var k :| 0 <= k < |CAPSULE_KINDS| && CAPSULE_KINDS[k] == kind;
      NoEventNothing(log, kind);
      assert Mentions(log[i], kind);
      assert lines[k] == CarryLine(log, kind);
      assert lines[k] != [];
    } else {
      forall k | 0 <= k < |CAPSULE_KINDS|
        ensures lines[k] == []
      {
        NoEventNothing(log, CAPSULE_KINDS[k]);
      }
    }
  }

  // ---------------------------------------------------------------------------
  // Which events have a finding in which bucket
  // ---------------------------------------------------------------------------

  /** Some capsule of event `i` met `verdict`. */
  ghost predicate Met(c: Crossing, i: nat, verdict: Verdict)
    requires i < |c.src|
  {
    exists j :: 0 <= j < |c.src[i].capsules| && VerdictOf(c, i, j) == verdict
  }

  /** The verdict that files into a bucket. */
  function Files(bucket: Bucket): Option<Verdict> {
    match bucket
    case Predicted => Some(PredictedDrop)
    case Unexplained => Some(UnexplainedDrop)
    case Degraded => None
  }

  lemma CapsuleBuckets(verdicts: seq<Verdict>, capsules: seq<Capsule>, bucket: Bucket)
    requires |verdicts| == |capsules|
    ensures InBucket(Concat(CapsuleMarks(verdicts, capsules), |capsules|), bucket) <==>
            exists j :: 0 <= j < |verdicts| && Files(bucket) == Some(verdicts[j])
  {
    var parts := CapsuleMarks(verdicts, capsules);
    var all := Concat(parts, |capsules|);
    if m :| m in all && m.key.bucket == bucket {
      InConcat(parts, |capsules|, m);
      var j :| 0 <= j < |capsules| && m in parts[j];
    }
    if j :| 0 <= j < |verdicts| && Files(bucket) == Some(verdicts[j]) {
      assert parts[j] == CapsuleMark(verdicts[j], capsules[j]);
      InConcat(parts, |capsules|, parts[j][0]);
      assert parts[j][0] in all;
    }
  }

  lemma CapsulesCarried(verdicts: seq<Verdict>, capsules: seq<Capsule>)
    requires |verdicts| == |capsules|
    ensures Concat(CarriedMarks(verdicts, capsules), |capsules|) != [] <==> CarriedAcross in verdicts
  {
    var parts := CarriedMarks(verdicts, capsules);
    ConcatEmpty(parts, |capsules|);
    forall j | 0 <= j < |verdicts|
      ensures verdicts[j] == CarriedAcross <==> parts[j] != []
    {
    }
  }

  lemma MetIff(c: Crossing, i: nat, verdict: Verdict)
    requires i < |c.src|
    ensures Met(c, i, verdict) <==> verdict in Verdicts(c, i)
  {
    var verdicts := Verdicts(c, i);
    if Met(c, i, verdict) {
      var j :| 0 <= j < |c.src[i].capsules| && VerdictOf(c, i, j) == verdict;
      assert verdicts[j] == verdict;
    }
  }

  lemma EventBuckets(c: Crossing, i: nat, bucket: Bucket)
    requires i < |c.src|
    ensures InBucket(MarksOf(c, i), bucket) <==>
            match bucket
            case Unexplained => Met(c, i, UnexplainedDrop) || (Late(c, i) && !Survives(c, i))
            case Predicted => Met(c, i, PredictedDrop)
            case Degraded => Late(c, i) && Survives(c, i)
  {
    CapsuleBuckets(Verdicts(c, i), c.src[i].capsules, bucket);
    MetIff(c, i, UnexplainedDrop);
    MetIff(c, i, PredictedDrop);
    if Late(c, i) {
      assert EventMarks(c, i)[0] == Sealed(TextFinding(c.src[i], Survives(c, i)), 0);
    }
  }

  lemma EventCarries(c: Crossing, i: nat)
    requires i < |c.src|
    ensures CarriesOf(c, i) != [] <==> Met(c, i, CarriedAcross)
  {
    CapsulesCarried(Verdicts(c, i), c.src[i].capsules);
    MetIff(c, i, CarriedAcross);
  }

  // ---------------------------------------------------------------------------
  // When a report is clean
  // ---------------------------------------------------------------------------

  /** Everything the model read is in the target, as a bag. */
  ghost predicate ReadableConserved(c: Crossing) {
    SourceText(c) <= TargetText(c)
  }

  /** No unmatched event without content has a capsule of the target's vendor:
      such an event counts as damage wherever its capsules are. */
  ghost predicate NoBareHusk(c: Crossing) {
    forall i :: 0 <= i < |c.src| && MatchOf(c, i).None? && c.src[i].content == [] && c.src[i].capsules != [] ==>
      AllForeign(c, c.src[i])
  }

  /** Every matched event's same-vendor capsules are on the very event it
      matched, as a bag. */
  ghost predicate CapsulesInPlace(c: Crossing) {
    forall i :: 0 <= i < |c.src| && MatchOf(c, i).Some? ==>
      DrawsFit(c, i)
  }

  /** A same-vendor capsule of an unmatched event is nowhere in the file, over
      and above what earlier draws on the file asked for. */
  predicate Astray(c: Crossing, i: nat, j: nat)
    requires i < |c.src| && j < |c.src[i].capsules|
  {
    !Foreign(c, c.src[i].capsules[j]) && c.src[i].capsules[j].sealed !in FileLeftAt(c, i, j)
  }

  ghost predicate StraysFound(c: Crossing) {
    forall i, j :: 0 <= i < |c.src| && 0 <= j < |c.src[i].capsules| && MatchOf(c, i).None? ==> !Astray(c, i, j)
  }

  /** A foreign capsule whose draw on the file succeeds. */
  predicate Smuggled(c: Crossing, i: nat, j: nat)
    requires i < |c.src| && j < |c.src[i].capsules|
  {
    Foreign(c, c.src[i].capsules[j]) && c.src[i].capsules[j].sealed in FileLeftAt(c, i, j)
  }

  ghost predicate NothingSmuggled(c: Crossing) {
    forall i, j :: 0 <= i < |c.src| && 0 <= j < |c.src[i].capsules| ==> !Smuggled(c, i, j)
  }

  lemma LateSurvivalIff(c: Crossing)
    requires WellMatched(c)
    ensures (forall i :: 0 <= i < |c.src| && Late(c, i) ==> Survives(c, i)) <==>
            ReadableConserved(c) && NoBareHusk(c)
  {
    LateTextFits(c);
    SourceTextSplits(c);
    forall i | 0 <= i < |c.src|
      ensures Late(c, i) && c.src[i].content == [] <==>
              MatchOf(c, i).None? && c.src[i].content == [] && c.src[i].capsules != [] && !AllForeign(c, c.src[i])
    {
    }
  }

  ghost predicate SomeAstray(c: Crossing, i: nat)
    requires i < |c.src|
  {
    exists j :: 0 <= j < |c.src[i].capsules| && Astray(c, i, j)
  }

  lemma UnexplainedWhen(c: Crossing, i: nat, j: nat)
    requires i < |c.src| && j < |c.src[i].capsules|
    ensures VerdictOf(c, i, j) == UnexplainedDrop <==>
            if MatchOf(c, i).Some? then Local(c, i, j) && !InStock(c, i, j) else Astray(c, i, j)
  {
  }

  lemma EventConservationIff(c: Crossing, i: nat)
    requires i < |c.src|
    ensures Met(c, i, UnexplainedDrop) <==>
            if MatchOf(c, i).Some? then !DrawsFit(c, i) else SomeAstray(c, i)
  {
    var n := |c.src[i].capsules|;
    LocalDrawsFit(c, i);
    if j :| 0 <= j < n && VerdictOf(c, i, j) == UnexplainedDrop {
      UnexplainedWhen(c, i, j);
    }
    if j :| 0 <= j < n && (if MatchOf(c, i).Some? then Local(c, i, j) && !InStock(c, i, j) else Astray(c, i, j)) {
      UnexplainedWhen(c, i, j);
    }
  }

  lemma CapsuleConservationIff(c: Crossing)
    ensures (forall i :: 0 <= i < |c.src| ==> !Met(c, i, UnexplainedDrop)) <==> CapsulesInPlace(c) && StraysFound(c)
  {
    forall i | 0 <= i < |c.src|
      ensures Met(c, i, UnexplainedDrop) <==>
              if MatchOf(c, i).Some? then !DrawsFit(c, i) else SomeAstray(c, i)
    {
      EventConservationIff(c, i);
    }
    if i, j :| 0 <= i < |c.src| && 0 <= j < |c.src[i].capsules| && MatchOf(c, i).None? && Astray(c, i, j) {
      assert SomeAstray(c, i);
    }
  }

  /** The report has no damage exactly when the source's readable content is in
      the target as a bag and every same-vendor capsule is where it belongs. */
  lemma NoDamageIff(c: Crossing)
    requires WellMatched(c)
    ensures Compared(c).unexplained == [] <==>
            ReadableConserved(c) && NoBareHusk(c) && CapsulesInPlace(c) && StraysFound(c)
  {
    BucketEmptyIff(c, Unexplained);
    LateSurvivalIff(c);
    CapsuleConservationIff(c);
    forall i | 0 <= i < |c.src|
      ensures InBucket(MarksOf(c, i), Unexplained) <==>
              Met(c, i, UnexplainedDrop) || (Late(c, i) && !Survives(c, i))
    {
      EventBuckets(c, i, Unexplained);
    }
  }

  ghost predicate EventSmuggles(c: Crossing, i: nat)
    requires i < |c.src|
  {
    exists j :: 0 <= j < |c.src[i].capsules| && Smuggled(c, i, j)
  }

  lemma EventSmugglesIff(c: Crossing, i: nat)
    requires i < |c.src|
    ensures CarriesOf(c, i) != [] <==> EventSmuggles(c, i)
  {
    EventCarries(c, i);
    forall j | 0 <= j < |c.src[i].capsules|
      ensures VerdictOf(c, i, j) == CarriedAcross <==> Smuggled(c, i, j)
    {
    }
  }

  lemma NothingLoggedIff(c: Crossing)
    ensures (forall i :: 0 <= i < |c.src| ==> CarriedLog(c, |c.src|)[i] == []) <==> NothingSmuggled(c)
  {
    var log := CarriedLog(c, |c.src|);
    forall i | 0 <= i < |c.src|
      ensures log[i] == [] <==> !EventSmuggles(c, i)
    {
      assert log[i] == CarriesOf(c, i);
      EventSmugglesIff(c, i);
    }
    if i, j :| 0 <= i < |c.src| && 0 <= j < |c.src[i].capsules| && Smuggled(c, i, j) {
      assert EventSmuggles(c, i);
    }
    if i :| 0 <= i < |c.src| && EventSmuggles(c, i) {
      var j :| 0 <= j < |c.src[i].capsules| && Smuggled(c, i, j);
    }
  }

  lemma NothingCarriedIff(c: Crossing)
    ensures Compared(c).carriedForeign == [] <==> NothingSmuggled(c)
  {
    var log := CarriedLog(c, |c.src|);
    assert |log| == |c.src|;
    NoneCarriedInLog(log);
    NothingLoggedIff(c);
  }

  /** The comparator's verdict, spelled out: what a clean report of two replays
      certifies is this and no less, and every pair of replays that has it gets
      a clean report. */
  lemma CleanIff(s: Serde, src: seq<Event>, tgt: seq<Event>, vendor: string)
    requires PrintsTellContent(s)
    ensures
      var c := CrossingOf(s, src, tgt, vendor);
      Compared(c).IsClean() <==>
      ReadableConserved(c) && NoBareHusk(c) && CapsulesInPlace(c) && StraysFound(c) && NothingSmuggled(c)
  {
    var c := CrossingOf(s, src, tgt, vendor);
    PassOneMatchesWell(s, src, tgt, vendor);
    NoDamageIff(c);
    NothingCarriedIff(c);
  }

  /** Every source event is matched exactly when the source's bodies occur in
      the target in order; then nothing can be degraded. */
  lemma AllMatchedIffInOrder(s: Serde, src: seq<Event>, tgt: seq<Event>, vendor: string)
    ensures
      var c := CrossingOf(s, src, tgt, vendor);
      && ((forall i :: 0 <= i < |src| ==> MatchOf(c, i).Some?) <==> Subsequence(Shapes(c.src), Shapes(c.tgt)))
      && (Subsequence(Shapes(c.src), Shapes(c.tgt)) ==> Compared(c).degraded == [])
  {
    var c := CrossingOf(s, src, tgt, vendor);
    MatchesAllIffSubsequence(Shapes(c.src), Shapes(c.tgt));
    assert forall i :: 0 <= i < |src| ==> MatchOf(c, i) == MatchAt(Shapes(c.src), Shapes(c.tgt), i);
    if Subsequence(Shapes(c.src), Shapes(c.tgt)) {
      BucketEmptyIff(c, Degraded);
      forall i | 0 <= i < |c.src|
        ensures !InBucket(MarksOf(c, i), Degraded)
      {
        EventBuckets(c, i, Degraded);
      }
    }
  }

  // ---------------------------------------------------------------------------
  // Foreign bytes
  // ---------------------------------------------------------------------------

  /** No same-vendor source capsule has the bytes of a foreign one. */
  ghost predicate BytesTellVendors(c: Crossing) {
    forall i, j, p, q | 0 <= i < |c.src| && 0 <= j < |c.src[i].capsules| &&
                        0 <= p < |c.src| && 0 <= q < |c.src[p].capsules| &&
                        Foreign(c, c.src[i].capsules[j]) && !Foreign(c, c.src[p].capsules[q]) ::
      c.src[i].capsules[j].sealed != c.src[p].capsules[q].sealed
  }

  lemma FirstInEvent(c: Crossing, i: nat, n: nat, key: string) returns (q: nat)
    requires i < |c.src| && n <= |c.src[i].capsules|
    requires key in FileLeft(c, i) && Sum(GlobalParts(c, i), n)[key] > 0
    ensures q < n && c.src[i].capsules[q].sealed == key
    ensures !Local(c, i, q) && key in FileLeftAt(c, i, q)
  {
    var parts := GlobalParts(c, i);
    q := FirstDraw(parts, n, key);
    assert parts[q] == if Local(c, i, q) then multiset{} else multiset{c.src[i].capsules[q].sealed};
  }

  /** If the file holds `key` but not when capsule `j` of event `i` comes up, the
      first capsule to ask the file for it found it. */
  lemma FirstDrawFound(c: Crossing, i: nat, j: nat) returns (p: nat, q: nat)
    requires i < |c.src| && j < |c.src[i].capsules|
    requires c.src[i].capsules[j].sealed in AllSealed(c)
    requires c.src[i].capsules[j].sealed !in FileLeftAt(c, i, j)
    ensures p < |c.src| && q < |c.src[p].capsules|
    ensures c.src[p].capsules[q].sealed == c.src[i].capsules[j].sealed
    ensures !Local(c, p, q) && c.src[p].capsules[q].sealed in FileLeftAt(c, p, q)
  {
    var key := c.src[i].capsules[j].sealed;
    if Sum(EventDraws(c), i)[key] > 0 {
      p := FirstDraw(EventDraws(c), i, key);
      q := FirstInEvent(c, p, |c.src[p].capsules|, key);
    } else {
      p := i;
      q := FirstInEvent(c, i, j, key);
    }
  }

  lemma FoundMeansSmuggled(c: Crossing, i: nat, j: nat)
    requires BytesTellVendors(c)
    requires i < |c.src| && j < |c.src[i].capsules| && Foreign(c, c.src[i].capsules[j])
    requires c.src[i].capsules[j].sealed in AllSealed(c)
    ensures !NothingSmuggled(c)
  {
    if !Smuggled(c, i, j) {
      var p, q := FirstDrawFound(c, i, j);
      if Foreign(c, c.src[p].capsules[q]) {
        assert Smuggled(c, p, q);
      }
    }
  }

  /** When bytes tell the vendors apart, nothing is reported as carried across
      exactly when no foreign source capsule's bytes are on any target event. */
  lemma NothingCarriedIffNowhere(c: Crossing)
    requires BytesTellVendors(c)
    ensures Compared(c).carriedForeign == [] <==>
            forall i, j :: 0 <= i < |c.src| && 0 <= j < |c.src[i].capsules| && Foreign(c, c.src[i].capsules[j]) ==>
              c.src[i].capsules[j].sealed !in AllSealed(c)
  {
    NothingCarriedIff(c);
    if NothingSmuggled(c) {
      forall i, j | 0 <= i < |c.src| && 0 <= j < |c.src[i].capsules| && Foreign(c, c.src[i].capsules[j])
        ensures c.src[i].capsules[j].sealed !in AllSealed(c)
      {
        if c.src[i].capsules[j].sealed in AllSealed(c) {
          FoundMeansSmuggled(c, i, j);
        }
      }
    }
  }
}
