/** The comparator's books balance: every sealed capsule of the source is in
    exactly one place of the report, by count and by bytes. */
module CompareAccounts {
  import opened Text
  import opened Ir
  import opened Lists
  import opened Sums
  import opened Tallies
  import opened Reduce
  import opened Compare
  import opened CompareClean

  // ---------------------------------------------------------------------------
  // Keyed tallies, added up over their keys
  // ---------------------------------------------------------------------------

  /** Either measure of a finding: its bytes, or how many capsules it stands for. */
  function Size<K>(m: Mark<K>, bytes: bool): nat {
    if bytes then m.bytes else m.capsules
  }

  function Part(t: Tally, bytes: bool): nat {
    if bytes then t.bytes else t.capsules
  }

  function SizeUnder<K(==)>(marks: seq<Mark<K>>, key: K, bytes: bool): nat {
    if bytes then Bytes(marks, key) else Capsules(marks, key)
  }

  /** The findings filed under any of `keys`. */
  function Gathered<K(==)>(marks: seq<Mark<K>>, keys: seq<K>, bytes: bool): nat {
    if marks == [] then 0
    else
      var m := marks[|marks| - 1];
      Gathered(marks[..|marks| - 1], keys, bytes) + if m.key in keys then Size(m, bytes) else 0
  }

  function PerKey<K(==)>(marks: seq<Mark<K>>, keys: seq<K>, bytes: bool): seq<nat> {
    seq(|keys|, k requires 0 <= k < |keys| => SizeUnder(marks, keys[k], bytes))
  }

  function TotalsPerKey<K(==)>(log: seq<seq<Mark<K>>>, keys: seq<K>, bytes: bool): seq<nat> {
    seq(|keys|, k requires 0 <= k < |keys| => Part(Totals(log, keys[k]), bytes))
  }

  function PerEvent<K(==)>(log: seq<seq<Mark<K>>>, keys: seq<K>, bytes: bool): seq<nat> {
    seq(|log|, i requires 0 <= i < |log| => Gathered(log[i], keys, bytes))
  }

  function OneKey<K(==)>(keys: seq<K>, key: K, size: nat): seq<nat> {
    seq(|keys|, k requires 0 <= k < |keys| => if keys[k] == key then size else 0)
  }

  lemma {:induction false} CountedOnce<K>(keys: seq<K>, key: K, size: nat, n: nat)
    requires NoRepeats(keys) && n <= |keys|
    ensures Total(OneKey(keys, key, size), n) == if key in keys[..n] then size else 0
  {
    if n > 0 {
      CountedOnce(keys, key, size, n - 1);
      assert keys[..n] == keys[..n - 1] + [keys[n - 1]];
    }
  }

  lemma {:induction false} EventGathers<K>(marks: seq<Mark<K>>, keys: seq<K>, bytes: bool)
    requires NoRepeats(keys)
    ensures Total(PerKey(marks, keys, bytes), |keys|) == Gathered(marks, keys, bytes)
  {
    if marks == [] {
      ZeroIff(PerKey(marks, keys, bytes), |keys|);
    } else {
      var rest, m := marks[..|marks| - 1], marks[|marks| - 1];
      EventGathers(rest, keys, bytes);
      CountedOnce(keys, m.key, Size(m, bytes), |keys|);
      assert keys[..|keys|] == keys;
      TotalOfBoth(PerKey(rest, keys, bytes), OneKey(keys, m.key, Size(m, bytes)), PerKey(marks, keys, bytes), |keys|);
    }
  }

  /** Adding the tallies of all keys adds the findings of all events. */
  lemma {:induction false} LogGathers<K>(log: seq<seq<Mark<K>>>, keys: seq<K>, bytes: bool)
    requires NoRepeats(keys)
    ensures Total(TotalsPerKey(log, keys, bytes), |keys|) == Total(PerEvent(log, keys, bytes), |log|)
  {
    if log == [] {
      ZeroIff(TotalsPerKey(log, keys, bytes), |keys|);
    } else {
      var rest, last := log[..|log| - 1], log[|log| - 1];
      LogGathers(rest, keys, bytes);
      EventGathers(last, keys, bytes);
      TotalOfBoth(TotalsPerKey(rest, keys, bytes), PerKey(last, keys, bytes), TotalsPerKey(log, keys, bytes), |keys|);
      TotalPrefix(PerEvent(rest, keys, bytes), PerEvent(log, keys, bytes), |rest|);
    }
  }

  lemma {:induction false} GatheredAppend<K>(a: seq<Mark<K>>, b: seq<Mark<K>>, keys: seq<K>, bytes: bool)
    ensures Gathered(a + b, keys, bytes) == Gathered(a, keys, bytes) + Gathered(b, keys, bytes)
  {
    if b == [] {
      assert a + b == a;
    } else {
      GatheredAppend(a, b[..|b| - 1], keys, bytes);
      assert (a + b)[..|a + b| - 1] == a + b[..|b| - 1];
    }
  }

  function GatheredParts<K(==)>(parts: seq<seq<Mark<K>>>, keys: seq<K>, bytes: bool): seq<nat> {
    seq(|parts|, j requires 0 <= j < |parts| => Gathered(parts[j], keys, bytes))
  }

  lemma {:induction false} GatheredConcat<K>(parts: seq<seq<Mark<K>>>, keys: seq<K>, bytes: bool, n: nat)
    requires n <= |parts|
    ensures Gathered(Concat(parts, n), keys, bytes) == Total(GatheredParts(parts, keys, bytes), n)
  {
    if n > 0 {
      GatheredConcat(parts, keys, bytes, n - 1);
      GatheredAppend(Concat(parts, n - 1), parts[n - 1], keys, bytes);
    }
  }

  // ---------------------------------------------------------------------------
  // The report's side
  // ---------------------------------------------------------------------------

  function LossSize(losses: seq<Loss>, bytes: bool): nat {
    if losses == [] then 0
    else
      var loss := losses[|losses| - 1];
      LossSize(losses[..|losses| - 1], bytes) + if bytes then loss.bytes else loss.capsules
  }

  function CarrySize(carries: seq<ForeignCarry>, bytes: bool): nat {
    if carries == [] then 0
    else
      var carry := carries[|carries| - 1];
      CarrySize(carries[..|carries| - 1], bytes) + if bytes then carry.bytes else carry.capsules
  }

  function BucketKeys(bucket: Bucket): seq<Finding> {
    seq(|KINDS|, k requires 0 <= k < |KINDS| => Finding(bucket, KINDS[k]))
  }

  lemma LossSizeAppend(losses: seq<Loss>, loss: Loss, bytes: bool)
    ensures LossSize(losses + [loss], bytes) == LossSize(losses, bytes) + if bytes then loss.bytes else loss.capsules
    ensures losses + [] == losses
  {
    assert (losses + [loss])[..|losses|] == losses;
  }

  lemma CarrySizeAppend(carries: seq<ForeignCarry>, carry: ForeignCarry, bytes: bool)
    ensures CarrySize(carries + [carry], bytes) ==
            CarrySize(carries, bytes) + if bytes then carry.bytes else carry.capsules
    ensures carries + [] == carries
  {
    assert (carries + [carry])[..|carries|] == carries;
  }

  lemma {:induction false} LinesAddUp(log: seq<seq<Mark<Finding>>>, bucket: Bucket, bytes: bool, n: nat)
    requires n <= |KINDS|
    ensures LossSize(Concat(LossLines(log, bucket), n), bytes) ==
            Total(TotalsPerKey(log, BucketKeys(bucket), bytes), n)
  {
    if n > 0 {
      LinesAddUp(log, bucket, bytes, n - 1);
      var kind := KINDS[n - 1];
      var t := Totals(log, Finding(bucket, kind));
      NoEventNothing(log, Finding(bucket, kind));
      LossSizeAppend(Concat(LossLines(log, bucket), n - 1),
                     Loss(kind, t.events, t.capsules, t.bytes, GradeOf(kind, bucket == Degraded)), bytes);
    }
  }

  lemma {:induction false} CarryLinesAddUp(log: seq<seq<Mark<CapsuleKind>>>, bytes: bool, n: nat)
    requires n <= |CAPSULE_KINDS|
    ensures CarrySize(Concat(CarryLines(log), n), bytes) == Total(TotalsPerKey(log, CAPSULE_KINDS, bytes), n)
  {
    if n > 0 {
      CarryLinesAddUp(log, bytes, n - 1);
      var kind := CAPSULE_KINDS[n - 1];
      var t := Totals(log, kind);
      NoEventNothing(log, kind);
      CarrySizeAppend(Concat(CarryLines(log), n - 1), ForeignCarry(kind, t.events, t.capsules, t.bytes), bytes);
    }
  }

  lemma BucketAddsUp(log: seq<seq<Mark<Finding>>>, bucket: Bucket, bytes: bool)
    ensures LossSize(LossesIn(log, bucket), bytes) == Total(PerEvent(log, BucketKeys(bucket), bytes), |log|)
  {
    LinesAddUp(log, bucket, bytes, |KINDS|);
    assert NoRepeats(BucketKeys(bucket));
    LogGathers(log, BucketKeys(bucket), bytes);
  }

  lemma CarriedAddsUp(log: seq<seq<Mark<CapsuleKind>>>, bytes: bool)
    ensures CarrySize(CarriesIn(log), bytes) == Total(PerEvent(log, CAPSULE_KINDS, bytes), |log|)
  {
    CarryLinesAddUp(log, bytes, |CAPSULE_KINDS|);
    assert NoRepeats(CAPSULE_KINDS);
    LogGathers(log, CAPSULE_KINDS, bytes);
  }

  // ---------------------------------------------------------------------------
  // The source's side
  // ---------------------------------------------------------------------------

  /** What a capsule weighs under a verdict: its bytes, or one capsule. An empty
      capsule counts for nothing unless it was carried across. */
  function Weight(cap: Capsule, verdict: Verdict, bytes: bool): nat {
    if bytes then ByteLen(cap.sealed)
    else if ByteLen(cap.sealed) > 0 || verdict == CarriedAcross then 1
    else 0
  }

  function Weights(verdicts: seq<Verdict>, capsules: seq<Capsule>, verdict: Verdict, bytes: bool): seq<nat>
    requires |verdicts| == |capsules|
  {
    seq(|capsules|, j requires 0 <= j < |capsules| =>
      if verdicts[j] == verdict then Weight(capsules[j], verdict, bytes) else 0)
  }

  function EventWeights(c: Crossing, verdict: Verdict, bytes: bool): seq<nat> {
    seq(|c.src|, i requires 0 <= i < |c.src| =>
      Total(Weights(Verdicts(c, i), c.src[i].capsules, verdict, bytes), |c.src[i].capsules|))
  }

  /** All capsules of the source that met `verdict`. */
  function VerdictWeight(c: Crossing, verdict: Verdict, bytes: bool): nat {
    Total(EventWeights(c, verdict, bytes), |c.src|)
  }

  lemma KeysOfBucket(bucket: Bucket, key: Finding)
    ensures key in BucketKeys(bucket) <==> key.bucket == bucket
  {
    var keys := BucketKeys(bucket);
    if key.bucket == bucket {
      match key.kind
      case ConversationLoss => assert keys[0] == key;
      case MediaLoss => assert keys[1] == key;
      case MetadataLoss => assert keys[2] == key;
      case ReasoningLoss => assert keys[3] == key;
      case SealedContextLoss => assert keys[4] == key;
      case ToolProtocolLoss => assert keys[5] == key;
    }
  }

  /** The verdict whose capsules a bucket tells of. */
  predicate Tells(bucket: Bucket, verdict: Verdict) {
    (bucket == Predicted && verdict == PredictedDrop) || (bucket == Unexplained && verdict == UnexplainedDrop)
  }

  lemma OneCapsuleGathers(verdict: Verdict, cap: Capsule, bucket: Bucket, bytes: bool)
    ensures Gathered(CapsuleMark(verdict, cap), BucketKeys(bucket), bytes) ==
            if Tells(bucket, verdict) then Weight(cap, verdict, bytes) else 0
  {
    var marks := CapsuleMark(verdict, cap);
    if marks != [] {
      KeysOfBucket(bucket, marks[0].key);
      assert marks[..0] == [];
    }
  }

  lemma CapsulesGather(verdicts: seq<Verdict>, capsules: seq<Capsule>, bucket: Bucket, verdict: Verdict,
                       bytes: bool)
    requires |verdicts| == |capsules| && Tells(bucket, verdict)
    ensures Gathered(Concat(CapsuleMarks(verdicts, capsules), |capsules|), BucketKeys(bucket), bytes) ==
            Total(Weights(verdicts, capsules, verdict, bytes), |capsules|)
  {
    var parts := CapsuleMarks(verdicts, capsules);
    GatheredConcat(parts, BucketKeys(bucket), bytes, |capsules|);
    forall j | 0 <= j < |capsules|
      ensures GatheredParts(parts, BucketKeys(bucket), bytes)[j] == Weights(verdicts, capsules, verdict, bytes)[j]
    {
      OneCapsuleGathers(verdicts[j], capsules[j], bucket, bytes);
    }
    TotalPrefix(GatheredParts(parts, BucketKeys(bucket), bytes), Weights(verdicts, capsules, verdict, bytes),
                |capsules|);
  }

  lemma EventMarksWeighNothing(c: Crossing, i: nat, bucket: Bucket, bytes: bool)
    requires i < |c.src|
    ensures Gathered(EventMarks(c, i), BucketKeys(bucket), bytes) == 0
  {
    var marks := EventMarks(c, i);
    if marks != [] {
      assert marks[..0] == [];
    }
  }

  lemma EventWeighs(c: Crossing, i: nat, bucket: Bucket, verdict: Verdict, bytes: bool)
    requires i < |c.src| && Tells(bucket, verdict)
    ensures Gathered(MarksOf(c, i), BucketKeys(bucket), bytes) == EventWeights(c, verdict, bytes)[i]
  {
    GatheredAppend(MarksTo(c, i, |c.src[i].capsules|), EventMarks(c, i), BucketKeys(bucket), bytes);
    EventMarksWeighNothing(c, i, bucket, bytes);
    CapsulesGather(Verdicts(c, i), c.src[i].capsules, bucket, verdict, bytes);
  }

  lemma LogEntries(c: Crossing)
    ensures forall i :: 0 <= i < |c.src| ==> Log(c, |c.src|)[i] == MarksOf(c, i)
  {
  }

  /** A bucket's capsules and bytes are those of the capsules that met its verdict. */
  lemma BucketWeighs(c: Crossing, bucket: Bucket, verdict: Verdict, bytes: bool)
    requires Tells(bucket, verdict)
    ensures LossSize(LossesIn(Log(c, |c.src|), bucket), bytes) == VerdictWeight(c, verdict, bytes)
  {
    var log, keys := Log(c, |c.src|), BucketKeys(bucket);
    BucketAddsUp(log, bucket, bytes);
    LogEntries(c);
    forall i | 0 <= i < |c.src|
      ensures PerEvent(log, keys, bytes)[i] == EventWeights(c, verdict, bytes)[i]
    {
      EventWeighs(c, i, bucket, verdict, bytes);
    }
    TotalPrefix(PerEvent(log, keys, bytes), EventWeights(c, verdict, bytes), |c.src|);
  }

  lemma EventDegradesNoCapsule(c: Crossing, i: nat, bytes: bool)
    requires i < |c.src|
    ensures Gathered(MarksOf(c, i), BucketKeys(Degraded), bytes) == 0
  {
    var parts, keys := CapsuleMarks(Verdicts(c, i), c.src[i].capsules), BucketKeys(Degraded);
    GatheredAppend(MarksTo(c, i, |c.src[i].capsules|), EventMarks(c, i), keys, bytes);
    EventMarksWeighNothing(c, i, Degraded, bytes);
    GatheredConcat(parts, keys, bytes, |parts|);
    forall j | 0 <= j < |parts|
      ensures GatheredParts(parts, keys, bytes)[j] == 0
    {
      OneCapsuleGathers(Verdicts(c, i)[j], c.src[i].capsules[j], Degraded, bytes);
    }
    ZeroIff(GatheredParts(parts, keys, bytes), |parts|);
  }

  /** A reshaping never holds sealed material. */
  lemma DegradedWeighsNothing(c: Crossing, bytes: bool)
    ensures LossSize(LossesIn(Log(c, |c.src|), Degraded), bytes) == 0
  {
    var log, keys := Log(c, |c.src|), BucketKeys(Degraded);
    BucketAddsUp(log, Degraded, bytes);
    LogEntries(c);
    forall i | 0 <= i < |c.src|
      ensures PerEvent(log, keys, bytes)[i] == 0
    {
      EventDegradesNoCapsule(c, i, bytes);
    }
    ZeroIff(PerEvent(log, keys, bytes), |c.src|);
  }

  lemma OneCarryGathers(verdict: Verdict, cap: Capsule, bytes: bool)
    ensures Gathered(CarriedMark(verdict, cap), CAPSULE_KINDS, bytes) ==
            if verdict == CarriedAcross then Weight(cap, verdict, bytes) else 0
  {
    var marks := CarriedMark(verdict, cap);
    if marks != [] {
      assert marks[..0] == [];
      match cap.kind
      case AnthropicRedactedThinking => assert CAPSULE_KINDS[0] == cap.kind;
      case AnthropicThinkingSignature => assert CAPSULE_KINDS[1] == cap.kind;
      case OpenaiCompactedContext => assert CAPSULE_KINDS[2] == cap.kind;
      case OpenaiReasoningEncryptedContent => assert CAPSULE_KINDS[3] == cap.kind;
    }
  }

  lemma CarriesGather(verdicts: seq<Verdict>, capsules: seq<Capsule>, bytes: bool)
    requires |verdicts| == |capsules|
    ensures Gathered(Concat(CarriedMarks(verdicts, capsules), |capsules|), CAPSULE_KINDS, bytes) ==
            Total(Weights(verdicts, capsules, CarriedAcross, bytes), |capsules|)
  {
    var parts := CarriedMarks(verdicts, capsules);
    GatheredConcat(parts, CAPSULE_KINDS, bytes, |capsules|);
    forall j | 0 <= j < |capsules|
      ensures GatheredParts(parts, CAPSULE_KINDS, bytes)[j] == Weights(verdicts, capsules, CarriedAcross, bytes)[j]
    {
      OneCarryGathers(verdicts[j], capsules[j], bytes);
    }
    TotalPrefix(GatheredParts(parts, CAPSULE_KINDS, bytes), Weights(verdicts, capsules, CarriedAcross, bytes),
                |capsules|);
  }

  lemma CarriedWeighs(c: Crossing, bytes: bool)
    ensures CarrySize(CarriesIn(CarriedLog(c, |c.src|)), bytes) == VerdictWeight(c, CarriedAcross, bytes)
  {
    var log := CarriedLog(c, |c.src|);
    CarriedAddsUp(log, bytes);
    forall i | 0 <= i < |c.src|
      ensures PerEvent(log, CAPSULE_KINDS, bytes)[i] == EventWeights(c, CarriedAcross, bytes)[i]
    {
      assert log[i] == CarriesOf(c, i);
      CarriesGather(Verdicts(c, i), c.src[i].capsules, bytes);
    }
    TotalPrefix(PerEvent(log, CAPSULE_KINDS, bytes), EventWeights(c, CarriedAcross, bytes), |c.src|);
  }

  // ---------------------------------------------------------------------------
  // The books
  // ---------------------------------------------------------------------------

  /** The same measure of all of one event's capsules, whatever became of them. */
  function AllWeights(verdicts: seq<Verdict>, capsules: seq<Capsule>, bytes: bool): seq<nat>
    requires |verdicts| == |capsules|
  {
    seq(|capsules|, j requires 0 <= j < |capsules| => Weight(capsules[j], verdicts[j], bytes))
  }

  function SourceWeights(c: Crossing, bytes: bool): seq<nat> {
    seq(|c.src|, i requires 0 <= i < |c.src| =>
      Total(AllWeights(Verdicts(c, i), c.src[i].capsules, bytes), |c.src[i].capsules|))
  }

  lemma {:induction false} TotalOfFour(p: seq<nat>, q: seq<nat>, r: seq<nat>, s: seq<nat>, all: seq<nat>, n: nat)
    requires n <= |p| && n <= |q| && n <= |r| && n <= |s| && n <= |all|
    requires forall i :: 0 <= i < n ==> all[i] == p[i] + q[i] + r[i] + s[i]
    ensures Total(all, n) == Total(p, n) + Total(q, n) + Total(r, n) + Total(s, n)
  {
    if n > 0 {
      TotalOfFour(p, q, r, s, all, n - 1);
    }
  }

  lemma VerdictsPartition(verdicts: seq<Verdict>, capsules: seq<Capsule>, bytes: bool)
    requires |verdicts| == |capsules|
    ensures Total(Weights(verdicts, capsules, Conserved, bytes), |capsules|)
          + Total(Weights(verdicts, capsules, PredictedDrop, bytes), |capsules|)
          + Total(Weights(verdicts, capsules, UnexplainedDrop, bytes), |capsules|)
          + Total(Weights(verdicts, capsules, CarriedAcross, bytes), |capsules|)
         == Total(AllWeights(verdicts, capsules, bytes), |capsules|)
  {
    TotalOfFour(Weights(verdicts, capsules, Conserved, bytes),
                Weights(verdicts, capsules, PredictedDrop, bytes),
                Weights(verdicts, capsules, UnexplainedDrop, bytes),
                Weights(verdicts, capsules, CarriedAcross, bytes),
                AllWeights(verdicts, capsules, bytes), |capsules|);
  }

  lemma SourcePartition(c: Crossing, bytes: bool)
    ensures VerdictWeight(c, Conserved, bytes) + VerdictWeight(c, PredictedDrop, bytes)
          + VerdictWeight(c, UnexplainedDrop, bytes) + VerdictWeight(c, CarriedAcross, bytes)
         == Total(SourceWeights(c, bytes), |c.src|)
  {
    forall i | 0 <= i < |c.src|
      ensures SourceWeights(c, bytes)[i] ==
              EventWeights(c, Conserved, bytes)[i] + EventWeights(c, PredictedDrop, bytes)[i] +
              EventWeights(c, UnexplainedDrop, bytes)[i] + EventWeights(c, CarriedAcross, bytes)[i]
    {
      VerdictsPartition(Verdicts(c, i), c.src[i].capsules, bytes);
    }
    TotalOfFour(EventWeights(c, Conserved, bytes), EventWeights(c, PredictedDrop, bytes),
                EventWeights(c, UnexplainedDrop, bytes), EventWeights(c, CarriedAcross, bytes),
                SourceWeights(c, bytes), |c.src|);
  }

  /** Every sealed byte of the source, and every capsule that holds any, is
      conserved or is in exactly one of the predicted losses, the unexplained
      losses and the foreign carries; reshapings hold none of it. */
  lemma BooksBalance(c: Crossing, bytes: bool)
    ensures
      var report := Compared(c);
      && LossSize(report.predicted, bytes) == VerdictWeight(c, PredictedDrop, bytes)
      && LossSize(report.unexplained, bytes) == VerdictWeight(c, UnexplainedDrop, bytes)
      && CarrySize(report.carriedForeign, bytes) == VerdictWeight(c, CarriedAcross, bytes)
      && LossSize(report.degraded, bytes) == 0
      && VerdictWeight(c, Conserved, bytes) + LossSize(report.predicted, bytes) +
         LossSize(report.unexplained, bytes) + CarrySize(report.carriedForeign, bytes)
         == Total(SourceWeights(c, bytes), |c.src|)
  {
    BucketWeighs(c, Predicted, PredictedDrop, bytes);
    BucketWeighs(c, Unexplained, UnexplainedDrop, bytes);
    DegradedWeighsNothing(c, bytes);
    CarriedWeighs(c, bytes);
    SourcePartition(c, bytes);
  }

  lemma LineCountsEvents(log: seq<seq<Mark<Finding>>>, bucket: Bucket, loss: Loss)
    requires loss in LossesIn(log, bucket)
    ensures loss.events == |EventsMentioning(log, Finding(bucket, loss.kind))| > 0
  {
    InConcat(LossLines(log, bucket), |KINDS|, loss);
    EventsAreDistinct(log, Finding(bucket, loss.kind));
  }

  ghost function EventsBehind(c: Crossing, bucket: Bucket, kind: LossKind): set<nat> {
    set i: nat | i < |c.src| && Mentions(MarksOf(c, i), Finding(bucket, kind))
  }

  /** A loss line counts the distinct source events behind it, however many
      capsules each of them lost. */
  lemma LossCountsEvents(c: Crossing, bucket: Bucket, loss: Loss)
    requires loss in LossesIn(Log(c, |c.src|), bucket)
    ensures loss.events == |EventsBehind(c, bucket, loss.kind)| > 0
  {
    var log, key := Log(c, |c.src|), Finding(bucket, loss.kind);
    LogEntries(c);
    LineCountsEvents(log, bucket, loss);
    assert EventsMentioning(log, key) == EventsBehind(c, bucket, loss.kind);
  }

  lemma CarryLineCountsEvents(log: seq<seq<Mark<CapsuleKind>>>, carry: ForeignCarry)
    requires carry in CarriesIn(log)
    ensures carry.events == |EventsMentioning(log, carry.kind)| > 0
  {
    InConcat(CarryLines(log), |CAPSULE_KINDS|, carry);
    EventsAreDistinct(log, carry.kind);
  }

  lemma CarriedEntries(c: Crossing)
    ensures |CarriedLog(c, |c.src|)| == |c.src|
    ensures forall i :: 0 <= i < |c.src| ==> CarriedLog(c, |c.src|)[i] == CarriesOf(c, i)
  {
  }

  /** The events with a capsule of a kind that got across. */
  ghost function EventsCarrying(c: Crossing, kind: CapsuleKind): set<nat> {
    set i: nat | i < |c.src| && Mentions(CarriesOf(c, i), kind)
  }

  /** So does a foreign carry. */
  lemma CarryCountsEvents(c: Crossing, carry: ForeignCarry)
    requires carry in CarriesIn(CarriedLog(c, |c.src|))
    ensures carry.events == |EventsCarrying(c, carry.kind)| > 0
  {
    var log := CarriedLog(c, |c.src|);
    CarriedEntries(c);
    CarryLineCountsEvents(log, carry);
    assert EventsMentioning(log, carry.kind) == EventsCarrying(c, carry.kind);
  }

  /** The grade of a report names the worst thing in it: it is `ContextComplete`
      exactly when nothing was lost or reshaped, predicted or not. */
  lemma CompleteIff(c: Crossing)
    ensures
      var report := Compared(c);
      report.Fidelity() == ContextComplete <==>
      report.predicted == [] && report.degraded == [] && report.unexplained == []
  {
    var log := Log(c, |c.src|);
    GradesAreWorse(log, Predicted);
    GradesAreWorse(log, Degraded);
    GradesAreWorse(log, Unexplained);
    var report := Compared(c);
    WorstIs(ContextComplete, report.predicted);
    WorstIs(Worst(ContextComplete, report.predicted), report.degraded);
    WorstIs(Worst(Worst(ContextComplete, report.predicted), report.degraded), report.unexplained);
  }

  /** Nothing is said of event `i`: no capsule of it is foreign, none is missed, and
      its text is not looked for elsewhere. */
  ghost predicate Unscathed(c: Crossing, i: nat)
    requires i < |c.src|
  {
    !Met(c, i, PredictedDrop) && !Met(c, i, CarriedAcross) && !Met(c, i, UnexplainedDrop) && !Late(c, i)
  }

  /** No finding on event `i` in any bucket, and no carry. */
  ghost predicate Unmarked(c: Crossing, i: nat)
    requires i < |c.src|
  {
    CarriesOf(c, i) == [] && !InBucket(MarksOf(c, i), Predicted) &&
    !InBucket(MarksOf(c, i), Degraded) && !InBucket(MarksOf(c, i), Unexplained)
  }

  lemma BucketIsEmpty(c: Crossing, bucket: Bucket)
    requires forall i :: 0 <= i < |c.src| ==> Unmarked(c, i)
    ensures LossesIn(Log(c, |c.src|), bucket) == []
  {
    BucketEmptyIff(c, bucket);
    forall i | 0 <= i < |c.src|
      ensures !InBucket(MarksOf(c, i), bucket)
    {
      assert Unmarked(c, i);
    }
  }

  lemma CarriesAreEmpty(c: Crossing)
    requires forall i :: 0 <= i < |c.src| ==> Unmarked(c, i)
    ensures CarriesIn(CarriedLog(c, |c.src|)) == []
  {
    var log := CarriedLog(c, |c.src|);
    CarriedEntries(c);
    NoneCarriedInLog(log);
    forall i | 0 <= i < |log|
      ensures log[i] == []
    {
      assert Unmarked(c, i);
    }
  }

  ghost predicate NothingReported(c: Crossing) {
    && LossesIn(Log(c, |c.src|), Predicted) == [] && LossesIn(Log(c, |c.src|), Degraded) == []
    && LossesIn(Log(c, |c.src|), Unexplained) == [] && CarriesIn(CarriedLog(c, |c.src|)) == []
  }

  lemma UnmarkedWhenEmpty(c: Crossing, i: nat)
    requires i < |c.src| && NothingReported(c)
    ensures Unmarked(c, i)
  {
    BucketEmptyIff(c, Predicted);
    BucketEmptyIff(c, Degraded);
    BucketEmptyIff(c, Unexplained);
    CarriedEntries(c);
    NoneCarriedInLog(CarriedLog(c, |c.src|));
  }

  lemma AllUnmarkedIff(c: Crossing)
    ensures (forall i :: 0 <= i < |c.src| ==> Unmarked(c, i)) <==> NothingReported(c)
  {
    if NothingReported(c) {
      forall i | 0 <= i < |c.src|
        ensures Unmarked(c, i)
      {
        UnmarkedWhenEmpty(c, i);
      }
    }
    if forall i :: 0 <= i < |c.src| ==> Unmarked(c, i) {
      BucketIsEmpty(c, Predicted);
      BucketIsEmpty(c, Degraded);
      BucketIsEmpty(c, Unexplained);
      CarriesAreEmpty(c);
    }
  }

  lemma UnmarkedIff(c: Crossing, i: nat)
    requires i < |c.src|
    ensures Unmarked(c, i) <==> Unscathed(c, i)
  {
    EventCarries(c, i);
    EventBuckets(c, i, Predicted);
    EventBuckets(c, i, Degraded);
    EventBuckets(c, i, Unexplained);
  }

  lemma AllUnscathedIff(c: Crossing)
    ensures
      var report := Compared(c);
      report.IsClean() && report.Fidelity() == ContextComplete <==>
      forall i :: 0 <= i < |c.src| ==> Unscathed(c, i)
  {
    CompleteIff(c);
    AllUnmarkedIff(c);
    forall i | 0 <= i < |c.src|
      ensures Unscathed(c, i) <==> Unmarked(c, i)
    {
      UnmarkedIff(c, i);
    }
  }

  ghost predicate AllNativeIn(c: Crossing, i: nat)
    requires i < |c.src|
  {
    forall j :: 0 <= j < |c.src[i].capsules| ==> !Foreign(c, c.src[i].capsules[j])
  }

  /** A foreign capsule is dropped as predicted or else carried. */
  lemma ForeignIsSeen(c: Crossing, i: nat)
    requires i < |c.src|
    ensures AllNativeIn(c, i) <==> !Met(c, i, PredictedDrop) && !Met(c, i, CarriedAcross)
  {
    if j :| 0 <= j < |c.src[i].capsules| && Foreign(c, c.src[i].capsules[j]) {
      assert VerdictOf(c, i, j) == PredictedDrop || VerdictOf(c, i, j) == CarriedAcross;
    }
  }

  /** Event `i` is native and has its counterpart with all its capsules on it, unless
      there is nothing in it. */
  ghost predicate Intact(c: Crossing, i: nat)
    requires i < |c.src|
  {
    AllNativeIn(c, i) &&
    if MatchOf(c, i).Some? then DrawsFit(c, i) else c.src[i].content == [] && c.src[i].capsules == []
  }

  /** What a clean report of the best grade certifies: every event with anything in
      it has its counterpart, no capsule was another vendor's, and every capsule is
      on the counterpart of its event. */
  lemma CleanAndCompleteIff(c: Crossing)
    ensures
      var report := Compared(c);
      report.IsClean() && report.Fidelity() == ContextComplete <==>
      forall i :: 0 <= i < |c.src| ==> Intact(c, i)
  {
    AllUnscathedIff(c);
    forall i | 0 <= i < |c.src|
      ensures Unscathed(c, i) <==> Intact(c, i)
    {
      ForeignIsSeen(c, i);
      EventConservationIff(c, i);
      if AllNativeIn(c, i) && c.src[i].capsules != [] {
        assert !AllForeign(c, c.src[i]) by {
          assert !Foreign(c, c.src[i].capsules[0]);
        }
      }
    }
  }

  lemma GradesAreWorse(log: seq<seq<Mark<Finding>>>, bucket: Bucket)
    ensures forall loss :: loss in LossesIn(log, bucket) ==> loss.grade.Rank() > ContextComplete.Rank()
  {
    forall loss | loss in LossesIn(log, bucket)
      ensures loss.grade.Rank() > ContextComplete.Rank()
    {
      InConcat(LossLines(log, bucket), |KINDS|, loss);
    }
  }

  lemma {:induction false} WorstIs(start: Fidelity, losses: seq<Loss>)
    requires start.Rank() >= ContextComplete.Rank()
    requires forall loss :: loss in losses ==> loss.grade.Rank() > ContextComplete.Rank()
    ensures Worst(start, losses).Rank() >= ContextComplete.Rank()
    ensures Worst(start, losses) == ContextComplete <==> start == ContextComplete && losses == []
  {
    if losses != [] {
      assert losses[|losses| - 1] in losses;
      assert forall loss :: loss in losses[..|losses| - 1] ==> loss in losses;
      WorstIs(start, losses[..|losses| - 1]);
    }
  }

  /** `worst` is no better than any grade in `losses`, and is `start` or one of
      them. */
  ghost predicate IsWorst(worst: Fidelity, start: Fidelity, losses: seq<Loss>) {
    && start.Rank() <= worst.Rank()
    && (forall loss :: loss in losses ==> loss.grade.Rank() <= worst.Rank())
    && (worst == start || exists loss :: loss in losses && loss.grade == worst)
  }

  lemma {:induction false} WorstIsWorst(start: Fidelity, losses: seq<Loss>)
    ensures IsWorst(Worst(start, losses), start, losses)
  {
    if losses != [] {
      var init, last := losses[..|losses| - 1], losses[|losses| - 1];
      WorstIsWorst(start, init);
      assert losses == init + [last];
      assert forall loss :: loss in losses <==> loss in init || loss == last;
    }
  }

  /** The grade of a report is the worst of its losses, in whichever bucket. */
  lemma FidelityIsTheWorst(report: Comparison)
    ensures IsWorst(report.Fidelity(), ContextComplete, report.predicted + report.degraded + report.unexplained)
  {
    var one := Worst(ContextComplete, report.predicted);
    var two := Worst(one, report.degraded);
    WorstIsWorst(ContextComplete, report.predicted);
    WorstIsWorst(one, report.degraded);
    WorstIsWorst(two, report.unexplained);
  }
}
