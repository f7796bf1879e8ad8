/** The budget and the comparator agree: what the comparator says of a replay
    that was cut down and the replay it was cut from. */
module BudgetCompare {
  import opened Text
  import opened Ir
  import opened Sums
  import opened Matching
  import opened Tallies
  import opened Reduce
  import opened Compare
  import opened CompareClean
  import opened CompareSelf
  import opened Budget
  import opened BudgetAccounts

  /** Every event of `c` is matched. */
  ghost predicate AllMatched(c: Crossing) {
    |c.matched| == |c.src| && forall i :: 0 <= i < |c.src| ==> c.matched[i].Some?
  }

  lemma PartIsMatched(s: Serde, part: seq<Event>, whole: seq<Event>, vendor: string)
    requires Subsequence(part, whole)
    ensures AllMatched(CrossingOf(s, part, whole, vendor))
    ensures Compared(CrossingOf(s, part, whole, vendor)).degraded == []
  {
    var c := CrossingOf(s, part, whole, vendor);
    var places :| Embeds(places, part, whole);
    assert Embeds(places, Shapes(c.src), Shapes(c.tgt));
    AllMatchedIffInOrder(s, part, whole, vendor);
    forall i | 0 <= i < |part|
      ensures c.matched[i].Some?
    {
      assert MatchOf(c, i).Some?;
    }
  }

  /** The sealed bytes of every event are, as a bag, on the target event it was
      matched to. */
  ghost predicate CapsulesHeld(c: Crossing) {
    forall i :: 0 <= i < |c.src| ==> multiset(Keys(c.src[i].capsules)) <= OwnStock(c, i)
  }

  ghost predicate NoneForeign(c: Crossing) {
    forall i, j :: 0 <= i < |c.src| && 0 <= j < |c.src[i].capsules| ==> !Foreign(c, c.src[i].capsules[j])
  }

  lemma {:induction false} LocalsAreKeys(c: Crossing, i: nat, n: nat)
    requires i < |c.src| && MatchOf(c, i).Some? && NoneForeign(c) && n <= |c.src[i].capsules|
    ensures Sum(LocalParts(c, i), n) == multiset(Keys(c.src[i].capsules)[..n])
  {
    if n > 0 {
      LocalsAreKeys(c, i, n - 1);
      var keys := Keys(c.src[i].capsules);
      assert keys[..n] == keys[..n - 1] + [keys[n - 1]];
      assert Local(c, i, n - 1);
    }
  }

  lemma HeldIffInPlace(c: Crossing)
    requires AllMatched(c) && NoneForeign(c)
    ensures CapsulesHeld(c) <==> CapsulesInPlace(c)
  {
    forall i | 0 <= i < |c.src|
      ensures DrawsFit(c, i) <==> multiset(Keys(c.src[i].capsules)) <= OwnStock(c, i)
    {
      var keys := Keys(c.src[i].capsules);
      LocalsAreKeys(c, i, |keys|);
      assert keys[..|keys|] == keys;
    }
  }

  lemma MatchedTextIsAll(c: Crossing)
    requires AllMatched(c) && WellMatched(c)
    ensures ReadableConserved(c) && NoBareHusk(c) && StraysFound(c)
  {
    assert SourceParts(c) == MatchedParts(c);
    MatchedTextFits(c);
  }

  lemma CapsuleIsInFile(c: Crossing, m: nat, j: nat)
    requires m < |c.tgt| && j < |c.tgt[m].capsules|
    ensures c.tgt[m].capsules[j].sealed in AllSealed(c)
  {
    var key := c.tgt[m].capsules[j].sealed;
    assert Keys(c.tgt[m].capsules)[j] == key;
    assert key in KeysPerEvent(c.tgt)[m];
    InConcat(KeysPerEvent(c.tgt), |c.tgt|, key);
  }

  /** With every event matched only foreign capsules draw on the file, so the
      first of them to look for bytes that are there finds them. */
  lemma ForeignIsSmuggled(c: Crossing, i: nat, j: nat)
    requires AllMatched(c) && i < |c.src| && j < |c.src[i].capsules| && Foreign(c, c.src[i].capsules[j])
    requires c.src[i].capsules[j].sealed in AllSealed(c)
    ensures !NothingSmuggled(c)
  {
    if !Smuggled(c, i, j) {
      var p, q := FirstDrawFound(c, i, j);
      assert MatchOf(c, p).Some?;
      assert Smuggled(c, p, q);
    }
  }

  lemma PartSmuggles(s: Serde, part: seq<Event>, whole: seq<Event>, vendor: string)
    requires Subsequence(part, whole)
    ensures
      var c := CrossingOf(s, part, whole, vendor);
      NothingSmuggled(c) <==> NoneForeign(c)
  {
    var c := CrossingOf(s, part, whole, vendor);
    PartIsMatched(s, part, whole, vendor);
    var places :| Embeds(places, part, whole);
    if i, j :| 0 <= i < |c.src| && 0 <= j < |c.src[i].capsules| && Foreign(c, c.src[i].capsules[j]) {
      assert c.tgt[places[i]].capsules == c.src[i].capsules;
      CapsuleIsInFile(c, places[i], j);
      ForeignIsSmuggled(c, i, j);
    }
  }

  /** A replay compared with one it is part of: everything is matched, nothing
      is reshaped, and the report is clean exactly when no capsule is foreign and
      each event's sealed bytes are on the target event it was matched to. */
  lemma PartIsCleanIff(s: Serde, part: seq<Event>, whole: seq<Event>, vendor: string)
    requires PrintsTellContent(s) && Subsequence(part, whole)
    ensures
      var c := CrossingOf(s, part, whole, vendor);
      Compared(c).IsClean() <==> NoneForeign(c) && CapsulesHeld(c)
  {
    var c := CrossingOf(s, part, whole, vendor);
    PartIsMatched(s, part, whole, vendor);
    PassOneMatchesWell(s, part, whole, vendor);
    MatchedTextIsAll(c);
    PartSmuggles(s, part, whole, vendor);
    CleanIff(s, part, whole, vendor);
    if NoneForeign(c) {
      HeldIffInPlace(c);
    }
  }

  /** Comparing a budgeted replay with the replay it came from matches every
      event and reshapes none, and the report is clean exactly when nothing kept
      is foreign and the kept capsules are where the matches look for them. */
  lemma BudgetedCompares(s: Serde, b: ContextBudget, size: Measure, events: seq<Event>, vendor: string)
    requires PrintsTellContent(s) && b.maxToolOutput == 0
    ensures
      var c := CrossingOf(s, Applied(b, size, events).events, events, vendor);
      && AllMatched(c)
      && Compared(c).degraded == []
      && (Compared(c).IsClean() <==> NoneForeign(c) && CapsulesHeld(c))
  {
    var fitted := Applied(b, size, events).events;
    FittedIsSubsequence(b, size, events);
    assert Staged(b, events) == events;
    assert Subsequence(fitted, events);
    PartIsMatched(s, fitted, events, vendor);
    PartIsCleanIff(s, fitted, events, vendor);
  }

  /** Events whose bodies print alike carry equal sealed bytes. */
  ghost predicate CapsulesFollowPrints(s: Serde, events: seq<Event>) {
    forall i, j ::
      0 <= i < |events| && 0 <= j < |events| && s.body(events[i].body) == s.body(events[j].body) ==>
      multiset(Keys(events[i].capsules)) == multiset(Keys(events[j].capsules))
  }

  lemma MatchedBody(s: Serde, part: seq<Event>, whole: seq<Event>, vendor: string, i: nat)
    requires i < |part|
    requires MatchOf(CrossingOf(s, part, whole, vendor), i).Some?
    ensures
      var c := CrossingOf(s, part, whole, vendor);
      var m := MatchOf(c, i).value;
      && m < |whole| && s.body(whole[m].body) == s.body(part[i].body)
      && OwnStock(c, i) == multiset(Keys(whole[m].capsules))
  {
    var c := CrossingOf(s, part, whole, vendor);
    var m := MatchOf(c, i).value;
    assert c.matched[i] == MatchAt(Shapes(c.src), Shapes(c.tgt), i);
    assert Shapes(c.tgt)[m] == Shapes(c.src)[i];
    assert s.body(whole[m].body) == s.body(part[i].body);
  }

  lemma PartIsHeld(s: Serde, part: seq<Event>, whole: seq<Event>, vendor: string)
    requires Subsequence(part, whole) && CapsulesFollowPrints(s, whole)
    ensures CapsulesHeld(CrossingOf(s, part, whole, vendor))
  {
    var c := CrossingOf(s, part, whole, vendor);
    PartIsMatched(s, part, whole, vendor);
    var places :| Embeds(places, part, whole);
    forall i | 0 <= i < |c.src|
      ensures multiset(Keys(c.src[i].capsules)) <= OwnStock(c, i)
    {
      assert MatchOf(c, i).Some?;
      MatchedBody(s, part, whole, vendor, i);
      assert part[i] == whole[places[i]];
    }
  }

  lemma PartIsNative(s: Serde, part: seq<Event>, whole: seq<Event>, vendor: string)
    requires Subsequence(part, whole) && AllNative(whole, vendor)
    ensures NoneForeign(CrossingOf(s, part, whole, vendor))
  {
    var c := CrossingOf(s, part, whole, vendor);
    var places :| Embeds(places, part, whole);
    forall i, j | 0 <= i < |c.src| && 0 <= j < |c.src[i].capsules|
      ensures !Foreign(c, c.src[i].capsules[j])
    {
      assert c.src[i].capsules == whole[places[i]].capsules;
    }
  }

  /** In particular it is clean for a replay of the vendor's own capsules whose
      bodies, where they print alike, carry equal ones. */
  lemma BudgetedIsClean(s: Serde, b: ContextBudget, size: Measure, events: seq<Event>, vendor: string)
    requires PrintsTellContent(s) && b.maxToolOutput == 0
    requires AllNative(events, vendor) && CapsulesFollowPrints(s, events)
    ensures Compared(CrossingOf(s, Applied(b, size, events).events, events, vendor)).IsClean()
  {
    var fitted := Applied(b, size, events).events;
    FittedIsSubsequence(b, size, events);
    assert Staged(b, events) == events;
    assert Subsequence(fitted, events);
    BudgetedCompares(s, b, size, events, vendor);
    PartIsHeld(s, fitted, events, vendor);
    PartIsNative(s, fitted, events, vendor);
  }

  lemma FirstTwinMatches<K>(key: K, source: seq<K>, target: seq<K>)
    requires |source| == 1 && |target| == 2 && source[0] == target[0] == key
    ensures MatchAt(source, target, 0) == Some(0)
  {
  }

  /** Bodies that print alike with different capsules do break it: the later of two such
      events, kept on its own, is matched to the earlier and not found there. */
  lemma TwinIsMistaken(s: Serde, earlier: Event, later: Event, vendor: string)
    requires PrintsTellContent(s) && s.body(earlier.body) == s.body(later.body)
    requires !(multiset(Keys(later.capsules)) <= multiset(Keys(earlier.capsules)))
    ensures !Compared(CrossingOf(s, [later], [earlier, later], vendor)).IsClean()
  {
    var part, whole := [later], [earlier, later];
    var c := CrossingOf(s, part, whole, vendor);
    assert Embeds([1], part, whole);
    PartIsCleanIff(s, part, whole, vendor);
    FirstTwinMatches(s.body(later.body), Shapes(c.src), Shapes(c.tgt));
    assert MatchOf(c, 0) == Some(0);
    MatchedBody(s, part, whole, vendor, 0);
    assert c.src[0].capsules == later.capsules;
  }

  // ---------------------------------------------------------------------------
  // The same loss, said twice
  // ---------------------------------------------------------------------------

  /** The budget and the comparator file a missing event under the same kind,
      unless it was a message that showed an image or a document: that one the
      budget files as conversation and the comparator as media. */
  lemma DropKindsAgreeIff(b: Body)
    ensures DropKind(b) == LossKindOf(b, false) <==>
            !(b.Message? && exists m | m in b.blocks :: m.Image? || m.Document?)
  {
  }

  lemma LineGrade(kind: LossKind, t: Tally, grade: Fidelity, survived: bool)
    requires grade == GradeOf(kind, survived)
    ensures forall loss :: loss in Line(kind, t, grade) ==> loss.grade == GradeOf(loss.kind, survived)
  {
  }

  /** But they never disagree about how bad it is: every line of the budget's
      report carries the grade the comparator gives that kind, gone or, for
      truncation, reshaped. */
  lemma DropGradesAgree(events: seq<Event>, keep: seq<bool>, truncated: Tally, loss: Loss)
    requires |events| == |keep| && loss in DroppedReport(events, keep, truncated)
    ensures loss.grade == GradeOf(loss.kind, loss.grade == ConversationOnly)
  {
    var n := |events|;
    LineGrade(SealedContextLoss, DropTally(events, keep, SealedContextLoss, n), HistoryIncomplete, false);
    LineGrade(ConversationLoss, DropTally(events, keep, ConversationLoss, n), HistoryIncomplete, false);
    LineGrade(ToolProtocolLoss, DropTally(events, keep, ToolProtocolLoss, n), HistoryIncomplete, false);
    LineGrade(ReasoningLoss, DropTally(events, keep, ReasoningLoss, n), ContextNoReasoning, false);
    LineGrade(MetadataLoss, DropTally(events, keep, MetadataLoss, n), HistoryIncomplete, false);
    LineGrade(ToolProtocolLoss, truncated, ConversationOnly, true);
  }

  /** And the grade of any missing body is the same either way. */
  lemma MissingCostsTheSame(b: Body)
    ensures GradeOf(DropKind(b), false) == GradeOf(LossKindOf(b, false), false)
  {
    DropKindsAgreeIff(b);
  }
}
