/** Which kinds of loss a report names, and how it grades them. */
module CompareKinds {
  import opened Text
  import opened Ir
  import opened Sums
  import opened Tallies
  import opened Reduce
  import opened Content
  import opened Compare
  import opened CompareClean
  import opened CompareAccounts

  // ---------------------------------------------------------------------------
  // Which kinds are named
  // ---------------------------------------------------------------------------

  /** What the loss of a capsule is called: a compacted context is sealed context,
      and the three other formats are reasoning. */
  predicate SealedAs(kind: CapsuleKind, loss: LossKind) {
    || (kind == OpenaiCompactedContext && loss == SealedContextLoss)
    || (kind in {AnthropicThinkingSignature, AnthropicRedactedThinking, OpenaiReasoningEncryptedContent} &&
        loss == ReasoningLoss)
  }

  /** A capsule of event `i`, foreign or not, is not found, and its loss is called
      `kind`. */
  ghost predicate LosesCapsule(c: Crossing, i: nat, foreign: bool, kind: LossKind)
    requires i < |c.src|
  {
    exists j :: 0 <= j < |c.src[i].capsules| && (Foreign(c, c.src[i].capsules[j]) <==> foreign) && !Crossed(c, i, j) &&
      SealedAs(c.src[i].capsules[j].kind, kind)
  }

  /** Event `i` has something of that kind to answer for in a bucket: a foreign
      capsule not found is predicted, any other unexplained; content that is nowhere
      is unexplained under the name of its loss, and content that is elsewhere is
      degraded under the name of its reshaping. */
  ghost predicate Loses(c: Crossing, i: nat, bucket: Bucket, kind: LossKind)
    requires i < |c.src|
  {
    match bucket
    case Predicted => LosesCapsule(c, i, true, kind)
    case Unexplained => LosesCapsule(c, i, false, kind) || (Late(c, i) && !Survives(c, i) && c.src[i].gone == kind)
    case Degraded => Late(c, i) && Survives(c, i) && c.src[i].reshaped == kind
  }

  lemma OneMarkIff(verdict: Verdict, cap: Capsule, bucket: Bucket, kind: LossKind)
    ensures Mentions(CapsuleMark(verdict, cap), Finding(bucket, kind)) <==>
            Files(bucket) == Some(verdict) && SealedAs(cap.kind, kind)
  {
    var marks := CapsuleMark(verdict, cap);
    if marks != [] {
      assert marks[0] in marks && marks == [marks[0]];
    }
  }

  ghost predicate FilesCapsule(verdicts: seq<Verdict>, capsules: seq<Capsule>, bucket: Bucket, kind: LossKind)
    requires |verdicts| == |capsules|
  {
    exists j :: 0 <= j < |capsules| && Files(bucket) == Some(verdicts[j]) && SealedAs(capsules[j].kind, kind)
  }

  lemma AllMarksIff(verdicts: seq<Verdict>, capsules: seq<Capsule>, bucket: Bucket, kind: LossKind)
    requires |verdicts| == |capsules|
    ensures Mentions(Concat(CapsuleMarks(verdicts, capsules), |capsules|), Finding(bucket, kind)) <==>
            FilesCapsule(verdicts, capsules, bucket, kind)
  {
    var n, key, parts := |capsules|, Finding(bucket, kind), CapsuleMarks(verdicts, capsules);
    if m: Mark<Finding> :| m in Concat(parts, n) && m.key == key {
      InConcat(parts, n, m);
      var j :| 0 <= j < n && m in parts[j];
      OneMarkIff(verdicts[j], capsules[j], bucket, kind);
    }
    if j :| 0 <= j < n && Files(bucket) == Some(verdicts[j]) && SealedAs(capsules[j].kind, kind) {
      OneMarkIff(verdicts[j], capsules[j], bucket, kind);
      var m: Mark<Finding> :| m in parts[j] && m.key == key;
      InConcat(parts, n, m);
    }
  }

  lemma FilesIff(c: Crossing, i: nat, j: nat, bucket: Bucket)
    requires i < |c.src| && j < |c.src[i].capsules|
    ensures Files(bucket) == Some(VerdictOf(c, i, j)) <==>
            bucket != Degraded && (Foreign(c, c.src[i].capsules[j]) <==> bucket == Predicted) && !Crossed(c, i, j)
  {
  }

  lemma FilesWhenLost(c: Crossing, i: nat, bucket: Bucket, kind: LossKind)
    requires i < |c.src| && bucket != Degraded && LosesCapsule(c, i, bucket == Predicted, kind)
    ensures FilesCapsule(Verdicts(c, i), c.src[i].capsules, bucket, kind)
  {
    var capsules := c.src[i].capsules;
    var j :| 0 <= j < |capsules| && (Foreign(c, capsules[j]) <==> bucket == Predicted) && !Crossed(c, i, j) &&
      SealedAs(capsules[j].kind, kind);
    FilesIff(c, i, j, bucket);
    assert Verdicts(c, i)[j] == VerdictOf(c, i, j);
  }

  lemma LostWhenFiles(c: Crossing, i: nat, bucket: Bucket, kind: LossKind)
    requires i < |c.src| && FilesCapsule(Verdicts(c, i), c.src[i].capsules, bucket, kind)
    ensures bucket != Degraded && LosesCapsule(c, i, bucket == Predicted, kind)
  {
    var capsules, verdicts := c.src[i].capsules, Verdicts(c, i);
    var j :| 0 <= j < |capsules| && Files(bucket) == Some(verdicts[j]) && SealedAs(capsules[j].kind, kind);
    FilesIff(c, i, j, bucket);
  }

  lemma CapsulesMarkedIff(c: Crossing, i: nat, bucket: Bucket, kind: LossKind)
    requires i < |c.src|
    ensures Mentions(MarksTo(c, i, |c.src[i].capsules|), Finding(bucket, kind)) <==>
            bucket != Degraded && LosesCapsule(c, i, bucket == Predicted, kind)
  {
    AllMarksIff(Verdicts(c, i), c.src[i].capsules, bucket, kind);
    if FilesCapsule(Verdicts(c, i), c.src[i].capsules, bucket, kind) {
      LostWhenFiles(c, i, bucket, kind);
    } else if bucket != Degraded && LosesCapsule(c, i, bucket == Predicted, kind) {
      FilesWhenLost(c, i, bucket, kind);
    }
  }

  lemma TextMarkedIff(c: Crossing, i: nat, bucket: Bucket, kind: LossKind)
    requires i < |c.src|
    ensures Mentions(EventMarks(c, i), Finding(bucket, kind)) <==>
            Late(c, i) && TextFinding(c.src[i], Survives(c, i)) == Finding(bucket, kind)
  {
    if Late(c, i) {
      assert EventMarks(c, i)[0] in EventMarks(c, i);
    }
  }

  lemma MarkedIff(c: Crossing, i: nat, bucket: Bucket, kind: LossKind)
    requires i < |c.src|
    ensures Mentions(MarksOf(c, i), Finding(bucket, kind)) <==> Loses(c, i, bucket, kind)
  {
    CapsulesMarkedIff(c, i, bucket, kind);
    TextMarkedIff(c, i, bucket, kind);
    MentionsEither(MarksTo(c, i, |c.src[i].capsules|), EventMarks(c, i), Finding(bucket, kind));
  }

  lemma MentionsEither<K>(a: seq<Mark<K>>, b: seq<Mark<K>>, key: K)
    ensures Mentions(a + b, key) <==> Mentions(a, key) || Mentions(b, key)
  {
    assert forall m :: m in a + b <==> m in a || m in b;
  }

  lemma LineInBucket(log: seq<seq<Mark<Finding>>>, bucket: Bucket, loss: Loss)
    ensures loss in LossesIn(log, bucket) <==> loss in LossLine(log, bucket, loss.kind)
  {
    var lines := LossLines(log, bucket);
    InConcat(lines, |KINDS|, loss);
    EveryKindIsListed(loss.kind);
    var k :| 0 <= k < |KINDS| && KINDS[k] == loss.kind;
    assert lines[k] == LossLine(log, bucket, loss.kind);
  }

  ghost predicate Named(losses: seq<Loss>, kind: LossKind) {
    exists loss :: loss in losses && loss.kind == kind
  }

  lemma NamedInLog(log: seq<seq<Mark<Finding>>>, bucket: Bucket, kind: LossKind)
    ensures Named(LossesIn(log, bucket), kind) <==>
            exists i :: 0 <= i < |log| && Mentions(log[i], Finding(bucket, kind))
  {
    NoEventNothing(log, Finding(bucket, kind));
    if loss :| loss in LossesIn(log, bucket) && loss.kind == kind {
      LineInBucket(log, bucket, loss);
    }
    if i :| 0 <= i < |log| && Mentions(log[i], Finding(bucket, kind)) {
      var line := LossLine(log, bucket, kind);
      assert line[0] in line;
      LineInBucket(log, bucket, line[0]);
    }
  }

  /** Which kinds of loss each bucket of a report names. */
  lemma KindNamedIff(c: Crossing, bucket: Bucket, kind: LossKind)
    ensures Named(LossesIn(Log(c, |c.src|), bucket), kind) <==>
            exists i :: 0 <= i < |c.src| && Loses(c, i, bucket, kind)
  {
    var log := Log(c, |c.src|);
    LogEntries(c);
    NamedInLog(log, bucket, kind);
    forall i | 0 <= i < |c.src|
      ensures Mentions(log[i], Finding(bucket, kind)) <==> Loses(c, i, bucket, kind)
    {
      MarkedIff(c, i, bucket, kind);
    }
  }

  /** How each line is graded: sealed context that is gone leaves the history
      incomplete, predicted or not; reasoning costs itself when gone; anything else
      gone leaves the history incomplete; and what was reshaped leaves the
      conversation. */
  lemma LineIsGraded(log: seq<seq<Mark<Finding>>>, bucket: Bucket, loss: Loss)
    requires loss in LossesIn(log, bucket)
    ensures loss.grade ==
            if loss.kind == SealedContextLoss || loss.kind == ConversationLoss then HistoryIncomplete
            else if bucket == Degraded then ConversationOnly
            else if loss.kind == ReasoningLoss then ContextNoReasoning
            else HistoryIncomplete
  {
    LineInBucket(log, bucket, loss);
  }

  /** The grades from best to worst. */
  const GRADES: seq<Fidelity> :=
    [ByteIdentical, NativeEquivalent, ContextComplete, ContextNoReasoning, ConversationOnly, TranscriptOnly,
     HistoryIncomplete]

  /** Each grade ranks before those that follow it, and of two the worse is taken. */
  lemma GradesAreOrdered(i: nat, j: nat)
    requires i < j < |GRADES|
    ensures GRADES[i].Rank() < GRADES[j].Rank()
    ensures GRADES[i].WorseOf(GRADES[j]) == GRADES[j].WorseOf(GRADES[i]) == GRADES[j]
    ensures forall grade: Fidelity :: grade in GRADES
  {
    EveryGradeIsListed();
  }

  lemma EveryGradeIsListed()
    ensures forall grade: Fidelity :: grade in GRADES
  {
    forall grade: Fidelity
      ensures grade in GRADES
    {
      match grade
      case ByteIdentical => assert GRADES[0] == grade;
      case NativeEquivalent => assert GRADES[1] == grade;
      case ContextComplete => assert GRADES[2] == grade;
      case ContextNoReasoning => assert GRADES[3] == grade;
      case ConversationOnly => assert GRADES[4] == grade;
      case TranscriptOnly => assert GRADES[5] == grade;
      case HistoryIncomplete => assert GRADES[6] == grade;
    }
  }

  // ---------------------------------------------------------------------------
  // One event that is lost
  // ---------------------------------------------------------------------------

  /** An event without capsules, whose first key a target does not have, is an
      unexplained loss of its kind and of no other. */
  lemma LostEventIsNamed(s: Serde, e: Event, tgt: seq<Event>, vendor: string, kind: LossKind)
    requires e.capsules == [] && Substance(s, e.body) != []
    requires forall m :: 0 <= m < |tgt| ==> s.body(tgt[m].body) != s.body(e.body)
    requires Substance(s, e.body)[0] !in TextKeys(ReduceAll(s, tgt))
    ensures
      var report := Compared(CrossingOf(s, [e], tgt, vendor));
      Named(report.unexplained, kind) <==> GoneAs(e.body, kind)
  {
    var c := CrossingOf(s, [e], tgt, vendor);
    NoMatch(s, e, tgt, vendor);
    LoneLoss(c, kind);
    GoneIff(s, e, kind);
  }

  lemma LoneLoss(c: Crossing, kind: LossKind)
    requires |c.src| == 1 && MatchOf(c, 0).None? && c.src[0].capsules == [] && c.src[0].content != []
    requires c.src[0].content[0] !in TargetText(c)
    ensures Named(LossesIn(Log(c, 1), Unexplained), kind) <==> c.src[0].gone == kind
  {
    KindNamedIff(c, Unexplained, kind);
    OnlyTextLost(c, kind);
    if i :| 0 <= i < |c.src| && Loses(c, i, Unexplained, kind) {
      assert i == 0;
    }
  }

  lemma OnlyTextLost(c: Crossing, kind: LossKind)
    requires |c.src| == 1 && MatchOf(c, 0).None? && c.src[0].capsules == [] && c.src[0].content != []
    requires c.src[0].content[0] !in TargetText(c)
    ensures Loses(c, 0, Unexplained, kind) <==> c.src[0].gone == kind
  {
    NowhereToSurvive(c);
    assert Late(c, 0);
    assert !LosesCapsule(c, 0, false, kind);
  }

  lemma NowhereToSurvive(c: Crossing)
    requires |c.src| == 1 && c.src[0].content != [] && c.src[0].content[0] !in TargetText(c)
    ensures !Survives(c, 0)
  {
    assert c.src[0].content[0] in multiset(c.src[0].content);
  }

  lemma NoMatch(s: Serde, e: Event, tgt: seq<Event>, vendor: string)
    requires forall m :: 0 <= m < |tgt| ==> s.body(tgt[m].body) != s.body(e.body)
    ensures MatchOf(CrossingOf(s, [e], tgt, vendor), 0).None?
  {
    var c := CrossingOf(s, [e], tgt, vendor);
    forall m | 0 <= m < |tgt|
      ensures Shapes(c.tgt)[m] != Shapes(c.src)[0]
    {
    }
  }
}
