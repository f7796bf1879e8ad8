/** What a context budget reports: every event, capsule and sealed byte it
    removed, and nothing else; and what a second pass finds left to remove. */
module BudgetAccounts {
  import opened Text
  import opened Lists
  import opened Ir
  import opened Sums
  import opened Matching
  import opened Tallies
  import opened Elision
  import opened Budget
  import opened BudgetProofs

  // ---------------------------------------------------------------------------
  // The retained events
  // ---------------------------------------------------------------------------

  lemma {:induction false} RetainedAt(events: seq<Event>, keep: seq<bool>, n: nat)
    requires |events| == |keep| && n <= |events|
    ensures |Retained(events, keep, n)| == |LivePositions(keep, n)|
    ensures forall k :: 0 <= k < |Retained(events, keep, n)| ==>
              Retained(events, keep, n)[k] == events[LivePositions(keep, n)[k]]
  {
    if n > 0 {
      RetainedAt(events, keep, n - 1);
    }
  }

  lemma RetainedEmbeds(events: seq<Event>, keep: seq<bool>)
    requires |events| == |keep|
    ensures Embeds(LivePositions(keep, |keep|), Retained(events, keep, |keep|), events)
  {
    RetainedAt(events, keep, |keep|);
    PositionsIncrease(keep, |keep|);
  }

  lemma PlacedIffKept(keep: seq<bool>, i: nat)
    requires i < |keep|
    ensures keep[i] <==> i in LivePositions(keep, |keep|)
  {
    if keep[i] {
      var p := PositionOf(keep, |keep|, i);
    }
  }

  /** What is retained stands in the replay at the kept positions, in order, up
      to truncation, and those are all the kept positions. */
  lemma FittedIsSubsequence(b: ContextBudget, size: Measure, events: seq<Event>)
    ensures
      var keep := Kept(b, size, events);
      && Embeds(LivePositions(keep, |keep|), Applied(b, size, events).events, Staged(b, events))
      && forall i :: 0 <= i < |keep| ==> (keep[i] <==> i in LivePositions(keep, |keep|))
  {
    var keep := Kept(b, size, events);
    RetainedEmbeds(Staged(b, events), keep);
    forall i | 0 <= i < |keep|
      ensures keep[i] <==> i in LivePositions(keep, |keep|)
    {
      PlacedIffKept(keep, i);
    }
  }

  // ---------------------------------------------------------------------------
  // Conservation
  // ---------------------------------------------------------------------------

  /** `whole` is `t` and `u` together. */
  predicate Make(t: Tally, u: Tally, whole: Tally) {
    && t.events + u.events == whole.events
    && t.capsules + u.capsules == whole.capsules
    && t.bytes + u.bytes == whole.bytes
  }

  /** Everything a replay holds. */
  function Holdings(events: seq<Event>): Tally {
    if events == [] then NOTHING else Plus(Holdings(events[..|events| - 1]), events[|events| - 1])
  }

  /** What a report says was removed. Truncation, which removes no event, is the
      one line of its grade. */
  function Removed(losses: seq<Loss>): Tally {
    if losses == [] then NOTHING
    else
      var before, loss := Removed(losses[..|losses| - 1]), losses[|losses| - 1];
      if loss.grade == ConversationOnly then before
      else Tally(before.events + loss.events, before.capsules + loss.capsules, before.bytes + loss.bytes)
  }

  /** Everything dropped among the first `n` events, of whatever kind. */
  function DroppedTogether(events: seq<Event>, keep: seq<bool>, n: nat): Tally
    requires |events| == |keep| && n <= |events|
  {
    if n == 0 then NOTHING
    else
      var t := DroppedTogether(events, keep, n - 1);
      if keep[n - 1] then t else Plus(t, events[n - 1])
  }

  /** `whole` is the five together. */
  predicate FiveMake(sealed: Tally, conversation: Tally, tool: Tally, reasoning: Tally, metadata: Tally, whole: Tally) {
    && whole.events == sealed.events + conversation.events + tool.events + reasoning.events + metadata.events
    && whole.capsules ==
       sealed.capsules + conversation.capsules + tool.capsules + reasoning.capsules + metadata.capsules
    && whole.bytes == sealed.bytes + conversation.bytes + tool.bytes + reasoning.bytes + metadata.bytes
  }

  /** Each dropped event is filed under exactly one of the five kinds. */
  lemma {:induction false} FiledOnce(events: seq<Event>, keep: seq<bool>, n: nat)
    requires |events| == |keep| && n <= |events|
    ensures FiveMake(DropTally(events, keep, SealedContextLoss, n), DropTally(events, keep, ConversationLoss, n),
                     DropTally(events, keep, ToolProtocolLoss, n), DropTally(events, keep, ReasoningLoss, n),
                     DropTally(events, keep, MetadataLoss, n), DroppedTogether(events, keep, n))
  {
    if n > 0 {
      FiledOnce(events, keep, n - 1);
    }
  }

  lemma HoldingsTo(events: seq<Event>, n: nat)
    requires n < |events|
    ensures Holdings(events[..n + 1]) == Plus(Holdings(events[..n]), events[n])
  {
    assert events[..n + 1] == events[..n] + [events[n]];
  }

  /** What was held, what was dropped, and what there was, after `n` events. */
  predicate Balanced(events: seq<Event>, keep: seq<bool>, n: nat)
    requires |events| == |keep| && n <= |events|
  {
    Make(Holdings(Retained(events, keep, n)), DroppedTogether(events, keep, n), Holdings(events[..n]))
  }

  lemma OneKept(events: seq<Event>, keep: seq<bool>, m: nat)
    requires |events| == |keep| && m < |events| && keep[m]
    ensures Holdings(Retained(events, keep, m + 1)) == Plus(Holdings(Retained(events, keep, m)), events[m])
    ensures DroppedTogether(events, keep, m + 1) == DroppedTogether(events, keep, m)
  {
  }

  lemma OneDropped(events: seq<Event>, keep: seq<bool>, m: nat)
    requires |events| == |keep| && m < |events| && !keep[m]
    ensures Retained(events, keep, m + 1) == Retained(events, keep, m)
    ensures DroppedTogether(events, keep, m + 1) == Plus(DroppedTogether(events, keep, m), events[m])
  {
  }

  lemma BalancedStep(events: seq<Event>, keep: seq<bool>, m: nat)
    requires |events| == |keep| && m < |events| && Balanced(events, keep, m)
    ensures Balanced(events, keep, m + 1)
  {
    HoldingsTo(events, m);
    if keep[m] {
      OneKept(events, keep, m);
    } else {
      OneDropped(events, keep, m);
    }
  }

  lemma {:induction false} DropsAndKeeps(events: seq<Event>, keep: seq<bool>, n: nat)
    requires |events| == |keep| && n <= |events|
    ensures Balanced(events, keep, n)
  {
    if n == 0 {
      assert events[..n] == [];
    } else {
      DropsAndKeeps(events, keep, n - 1);
      BalancedStep(events, keep, n - 1);
    }
  }

  lemma {:induction false} SameHoldings(a: seq<Event>, b: seq<Event>)
    requires |a| == |b| && forall i :: 0 <= i < |a| ==> a[i].capsules == b[i].capsules
    ensures Holdings(a) == Holdings(b)
  {
    if a != [] {
      SameHoldings(a[..|a| - 1], b[..|b| - 1]);
    }
  }

  lemma {:induction false} RemovedByBoth(a: seq<Loss>, b: seq<Loss>)
    ensures Make(Removed(a), Removed(b), Removed(a + b))
  {
    if b == [] {
      assert a + b == a;
    } else {
      assert (a + b)[..|a + b| - 1] == a + b[..|b| - 1];
      RemovedByBoth(a, b[..|b| - 1]);
    }
  }

  lemma RemovedBySix(a: seq<Loss>, b: seq<Loss>, c: seq<Loss>, d: seq<Loss>, e: seq<Loss>, last: seq<Loss>)
    requires Removed(last) == NOTHING
    ensures FiveMake(Removed(a), Removed(b), Removed(c), Removed(d), Removed(e), Removed(a + b + c + d + e + last))
  {
    RemovedByBoth(a, b);
    RemovedByBoth(a + b, c);
    RemovedByBoth(a + b + c, d);
    RemovedByBoth(a + b + c + d, e);
    RemovedByBoth(a + b + c + d + e, last);
  }

  /** Six lines of which the last removes nothing come to the whole that the five make. */
  lemma SixComeTo(a: seq<Loss>, b: seq<Loss>, c: seq<Loss>, d: seq<Loss>, e: seq<Loss>,
                  last: seq<Loss>, whole: Tally)
    requires Removed(last) == NOTHING
    requires FiveMake(Removed(a), Removed(b), Removed(c), Removed(d), Removed(e), whole)
    ensures Removed(a + b + c + d + e + last) == whole
  {
    RemovedBySix(a, b, c, d, e, last);
    OneWhole(Removed(a), Removed(b), Removed(c), Removed(d), Removed(e), Removed(a + b + c + d + e + last), whole);
  }

  lemma OneWhole(s: Tally, c: Tally, t: Tally, r: Tally, m: Tally, whole: Tally, same: Tally)
    requires FiveMake(s, c, t, r, m, whole) && FiveMake(s, c, t, r, m, same)
    ensures whole == same
  {
  }

  lemma RemovedByLine(kind: LossKind, t: Tally, grade: Fidelity)
    requires t.events == 0 ==> t == NOTHING
    ensures Removed(Line(kind, t, grade)) == if grade == ConversationOnly then NOTHING else t
  {
    var line := Line(kind, t, grade);
    if t.events > 0 {
      assert line[..0] == [];
      assert Removed(line[..0]) == NOTHING;
    }
  }

  lemma {:induction false} EmptyDropTally(events: seq<Event>, keep: seq<bool>, kind: LossKind, n: nat)
    requires |events| == |keep| && n <= |events|
    ensures DropTally(events, keep, kind, n).events == 0 ==> DropTally(events, keep, kind, n) == NOTHING
  {
    if n > 0 {
      EmptyDropTally(events, keep, kind, n - 1);
    }
  }

  lemma DroppedLine(events: seq<Event>, keep: seq<bool>, kind: LossKind, grade: Fidelity)
    requires |events| == |keep| && grade != ConversationOnly
    ensures Removed(Line(kind, DropTally(events, keep, kind, |events|), grade)) ==
            DropTally(events, keep, kind, |events|)
  {
    EmptyDropTally(events, keep, kind, |events|);
    RemovedByLine(kind, DropTally(events, keep, kind, |events|), grade);
  }

  lemma ReportRemoves(events: seq<Event>, keep: seq<bool>, truncated: Tally)
    requires |events| == |keep| && (truncated.events == 0 ==> truncated == NOTHING)
    ensures Removed(DroppedReport(events, keep, truncated)) == DroppedTogether(events, keep, |events|)
  {
    var n := |events|;
    DroppedLine(events, keep, SealedContextLoss, HistoryIncomplete);
    DroppedLine(events, keep, ConversationLoss, HistoryIncomplete);
    DroppedLine(events, keep, ToolProtocolLoss, HistoryIncomplete);
    DroppedLine(events, keep, ReasoningLoss, ContextNoReasoning);
    DroppedLine(events, keep, MetadataLoss, HistoryIncomplete);
    RemovedByLine(ToolProtocolLoss, truncated, ConversationOnly);
    FiledOnce(events, keep, n);
    SixComeTo(Line(SealedContextLoss, DropTally(events, keep, SealedContextLoss, n), HistoryIncomplete),
              Line(ConversationLoss, DropTally(events, keep, ConversationLoss, n), HistoryIncomplete),
              Line(ToolProtocolLoss, DropTally(events, keep, ToolProtocolLoss, n), HistoryIncomplete),
              Line(ReasoningLoss, DropTally(events, keep, ReasoningLoss, n), ContextNoReasoning),
              Line(MetadataLoss, DropTally(events, keep, MetadataLoss, n), HistoryIncomplete),
              Line(ToolProtocolLoss, truncated, ConversationOnly), DroppedTogether(events, keep, n));
  }

  lemma {:induction false} EmptyTruncation(b: ContextBudget, events: seq<Event>, n: nat)
    requires n <= |events|
    ensures TruncationTally(b, events, n).events == 0 ==> TruncationTally(b, events, n) == NOTHING
    ensures TruncationTally(b, events, n).events == 0 <==>
            forall i :: 0 <= i < n ==> b.maxToolOutput == 0 || !Oversized(events[i].body, b.maxToolOutput)
  {
    if n > 0 {
      EmptyTruncation(b, events, n - 1);
    }
  }

  /** Nothing disappears without being reported: the events, capsules and sealed
      bytes that went in are those that came out and those reported removed. */
  lemma NothingGoesUnreported(b: ContextBudget, size: Measure, events: seq<Event>)
    ensures
      var fitted := Applied(b, size, events);
      && Make(Holdings(fitted.events), Removed(fitted.losses), Holdings(events))
      && |events| == |fitted.events| + Removed(fitted.losses).events
  {
    HoldingsCount(events);
    HoldingsCount(Applied(b, size, events).events);
    var staged, keep := Staged(b, events), Kept(b, size, events);
    EmptyTruncation(b, events, |events|);
    ReportRemoves(staged, keep, TruncationTally(b, events, |events|));
    DropsAndKeeps(staged, keep, |staged|);
    assert staged[..|staged|] == staged;
    SameHoldings(staged, events);
  }

  lemma {:induction false} HoldingsCount(events: seq<Event>)
    ensures Holdings(events).events == |events|
  {
    if events != [] {
      HoldingsCount(events[..|events| - 1]);
    }
  }

  lemma {:induction false} NothingDroppedIff(events: seq<Event>, keep: seq<bool>, n: nat)
    requires |events| == |keep| && n <= |events|
    ensures DroppedTogether(events, keep, n).events == 0 <==> forall i :: 0 <= i < n ==> keep[i]
    ensures DroppedTogether(events, keep, n).events == n - |Retained(events, keep, n)|
  {
    if n > 0 {
      NothingDroppedIff(events, keep, n - 1);
    }
  }

  /** No tool observation is over the limit. */
  ghost predicate NoneOversized(b: ContextBudget, events: seq<Event>) {
    forall i :: 0 <= i < |events| ==> b.maxToolOutput == 0 || !Oversized(events[i].body, b.maxToolOutput)
  }

  lemma NoReportIff(events: seq<Event>, keep: seq<bool>, truncated: Tally)
    requires |events| == |keep|
    ensures DroppedReport(events, keep, truncated) == [] <==>
            truncated.events == 0 && |Retained(events, keep, |events|)| == |events|
    ensures |Retained(events, keep, |events|)| == |events| <==> forall i :: 0 <= i < |keep| ==> keep[i]
  {
    var n := |events|;
    FiledOnce(events, keep, n);
    NothingDroppedIff(events, keep, n);
  }

  /** The report is empty exactly when nothing was dropped and nothing was over
      the limit; and then the replay comes back as it went in. */
  lemma NoLossesIff(b: ContextBudget, size: Measure, events: seq<Event>)
    ensures
      var fitted := Applied(b, size, events);
      && (fitted.losses == [] <==> |fitted.events| == |events| && NoneOversized(b, events))
      && (fitted.losses == [] ==> fitted.events == events)
  {
    var staged, keep := Staged(b, events), Kept(b, size, events);
    EmptyTruncation(b, events, |events|);
    NoReportIff(staged, keep, TruncationTally(b, events, |events|));
    if Applied(b, size, events).losses == [] {
      assert staged == events;
      KeepingAll(staged, keep, |staged|);
      assert staged[..|staged|] == staged;
    }
  }

  /** Empty messages, none of them free. */
  function Messages(n: nat): seq<Event> {
    seq(n, _ => Event("", Model, Message(User, []), []))
  }

  lemma {:induction false} NoneIsFree(size: Measure, events: seq<Event>, live: seq<bool>, i: nat)
    requires |events| == |live| && i <= |live| && forall k :: 0 <= k < |live| ==> live[k]
    ensures CostFrom(Costs(size, events), live, i) >= |live| - i
    decreases |live| - i
  {
    if i < |live| {
      NoneIsFree(size, events, live, i + 1);
    }
  }

  lemma CapBites(b: ContextBudget, size: Measure)
    requires b.maxContextTokens > 0
    ensures Applied(b, size, Messages(b.maxContextTokens + 1)).losses != []
  {
    var events := Messages(b.maxContextTokens + 1);
    NoneIsFree(size, Staged(b, events), Live(b, events), 0);
    assert Live(b, events)[1];
    KeptIff(b, size, events, 0);
    EmptyTruncation(b, events, |events|);
    NoReportIff(Staged(b, events), Kept(b, size, events), TruncationTally(b, events, |events|));
  }

  lemma LimitBites(b: ContextBudget, size: Measure)
    requires b.maxToolOutput > 0
    ensures
      var text: string := seq(b.maxToolOutput + 1, _ => 'x');
      Applied(b, size, [Event("", Model, ToolResult("", Succeeded, [TextBlock(text)], None), [])]).losses != []
  {
    var text: string := seq(b.maxToolOutput + 1, _ => 'x');
    var body := ToolResult("", Succeeded, [TextBlock(text)], None);
    assert body.output[0] == TextBlock(text);
    assert Oversized(body, b.maxToolOutput);
    var events := [Event("", Model, body, [])];
    assert events[0].body == body;
    NoLossesIff(b, size, events);
  }

  lemma DroppingBites(b: ContextBudget, size: Measure)
    requires !b.keepReasoning
    ensures Applied(b, size, [Event("", Model, Reasoning(None, []), [])]).losses != []
  {
    var events := [Event("", Model, Reasoning(None, []), [])];
    assert !Live(b, events)[0];
    KeptIff(b, size, events, 0);
    EmptyTruncation(b, events, |events|);
    NoReportIff(Staged(b, events), Kept(b, size, events), TruncationTally(b, events, |events|));
  }

  /** Whatever the measure, a budget that leaves every replay alone is the
      unlimited one. */
  lemma RemovesNothingIff(b: ContextBudget, size: Measure)
    ensures (forall events :: Applied(b, size, events).losses == []) <==> b.IsUnlimited()
  {
    if b.IsUnlimited() {
      forall events
        ensures Applied(b, size, events).losses == []
      {
        UnlimitedKeepsAll(size, events);
      }
    } else if b.maxContextTokens > 0 {
      CapBites(b, size);
    } else if b.maxToolOutput > 0 {
      LimitBites(b, size);
    } else {
      DroppingBites(b, size);
    }
  }

  // ---------------------------------------------------------------------------
  // What each line says
  // ---------------------------------------------------------------------------

  /** The kind of loss the removal of a body is. */
  predicate RemovedAs(b: Body, kind: LossKind) {
    match kind
    case ConversationLoss => b.Message?
    case ReasoningLoss => b.Reasoning?
    case ToolProtocolLoss => b.ToolCall? || b.ToolResult?
    case SealedContextLoss => b.SealedContext?
    case MetadataLoss =>
      b.TurnConfig? || b.EnvSnapshot? || b.Attachment? || b.Compaction? || b.Rollback? || b.Abort? || b.Control? ||
      b.Unknown?
    case MediaLoss => false
  }

  predicate RemovedAt(events: seq<Event>, keep: seq<bool>, kind: LossKind, i: nat)
    requires |events| == |keep| && i < |events|
  {
    !keep[i] && RemovedAs(events[i].body, kind)
  }

  /** The positions removed under a kind. */
  ghost function RemovedUnder(events: seq<Event>, keep: seq<bool>, kind: LossKind): set<nat>
    requires |events| == |keep|
  {
    set i: nat | i < |events| && RemovedAt(events, keep, kind, i)
  }

  function CapsulesUnder(events: seq<Event>, keep: seq<bool>, kind: LossKind): seq<nat>
    requires |events| == |keep|
  {
    seq(|events|, i requires 0 <= i < |events| =>
      if RemovedAt(events, keep, kind, i) then |events[i].capsules| else 0)
  }

  function BytesUnder(events: seq<Event>, keep: seq<bool>, kind: LossKind): seq<nat>
    requires |events| == |keep|
  {
    seq(|events|, i requires 0 <= i < |events| =>
      if RemovedAt(events, keep, kind, i) then SealedBytes(events[i].capsules) else 0)
  }

  lemma {:induction false} TallyTo(events: seq<Event>, keep: seq<bool>, kind: LossKind, n: nat)
    requires |events| == |keep| && n <= |events|
    ensures DropTally(events, keep, kind, n) ==
            Tally(|Below(RemovedUnder(events, keep, kind), n)|, Total(CapsulesUnder(events, keep, kind), n),
                  Total(BytesUnder(events, keep, kind), n))
  {
    BelowAll(RemovedUnder(events, keep, kind), |events|);
    if n > 0 {
      TallyTo(events, keep, kind, n - 1);
      BelowStep(RemovedUnder(events, keep, kind), n - 1);
      DropKindIff(events[n - 1].body, kind);
    }
  }

  lemma DropKindIff(b: Body, kind: LossKind)
    ensures DropKind(b) == kind <==> RemovedAs(b, kind)
  {
  }

  lemma TallyCounts(events: seq<Event>, keep: seq<bool>, kind: LossKind)
    requires |events| == |keep|
    ensures DropTally(events, keep, kind, |events|) ==
            Tally(|RemovedUnder(events, keep, kind)|, Total(CapsulesUnder(events, keep, kind), |events|),
                  Total(BytesUnder(events, keep, kind), |events|))
  {
    TallyTo(events, keep, kind, |events|);
    BelowAll(RemovedUnder(events, keep, kind), |events|);
  }

  /** A line of a removal: how many events went under its kind, the capsules they
      held and their bytes. Only reasoning that is removed is graded better than an
      incomplete history. */
  ghost predicate IsRemoval(events: seq<Event>, keep: seq<bool>, loss: Loss)
    requires |events| == |keep|
  {
    && loss.events == |RemovedUnder(events, keep, loss.kind)| > 0
    && loss.capsules == Total(CapsulesUnder(events, keep, loss.kind), |events|)
    && loss.bytes == Total(BytesUnder(events, keep, loss.kind), |events|)
    && loss.grade == if loss.kind == ReasoningLoss then ContextNoReasoning else HistoryIncomplete
  }

  ghost predicate IsTruncation(truncated: Tally, loss: Loss) {
    truncated.events > 0 &&
    loss == Loss(ToolProtocolLoss, truncated.events, truncated.capsules, truncated.bytes, ConversationOnly)
  }

  /** A report holds a line for every kind something was removed under, each with
      that kind's own numbers, one for what was truncated, and no other. */
  lemma LineIff(events: seq<Event>, keep: seq<bool>, truncated: Tally, loss: Loss)
    requires |events| == |keep|
    ensures loss in DroppedReport(events, keep, truncated) <==>
            IsRemoval(events, keep, loss) || IsTruncation(truncated, loss)
  {
    TallyCounts(events, keep, loss.kind);
    if loss.kind == MediaLoss {
      assert RemovedUnder(events, keep, MediaLoss) == {};
    }
  }

  lemma InOrderOfKinds(a: Tally, b: Tally, c: Tally, d: Tally, e: Tally, truncated: Tally, i: nat, j: nat)
    requires i < j < |Losses(a, b, c, d, e, truncated)|
    ensures
      var report := Losses(a, b, c, d, e, truncated);
      ReportRank(report[i]) < ReportRank(report[j])
  {
    var lines := [Line(SealedContextLoss, a, HistoryIncomplete), Line(ConversationLoss, b, HistoryIncomplete),
                  Line(ToolProtocolLoss, c, HistoryIncomplete), Line(ReasoningLoss, d, ContextNoReasoning),
                  Line(MetadataLoss, e, HistoryIncomplete), Line(ToolProtocolLoss, truncated, ConversationOnly)];
    assert Losses(a, b, c, d, e, truncated) == lines[0] + lines[1] + lines[2] + lines[3] + lines[4] + lines[5];
  }

  /** What truncation takes from a block: the bytes the text lost, none if it gained
      some. */
  function TakenFrom(b: Block, max: nat): nat {
    if b.TextBlock? && |b.text| > max && ByteLen(b.text) > ByteLen(Elided(b.text, max))
    then ByteLen(b.text) - ByteLen(Elided(b.text, max))
    else 0
  }

  function TakenFromAll(blocks: seq<Block>, max: nat): seq<nat> {
    seq(|blocks|, j requires 0 <= j < |blocks| => TakenFrom(blocks[j], max))
  }

  /** A tool result with a text over the limit. */
  predicate IsOver(e: Event, max: nat) {
    e.body.ToolResult? &&
    exists j :: 0 <= j < |e.body.output| && e.body.output[j].TextBlock? && |e.body.output[j].text| > max
  }

  ghost function OverAmong(events: seq<Event>, max: nat): set<nat> {
    set i: nat | i < |events| && IsOver(events[i], max)
  }

  function TakenFromEvents(events: seq<Event>, max: nat): seq<nat> {
    seq(|events|, i requires 0 <= i < |events| =>
      if IsOver(events[i], max) then Total(TakenFromAll(events[i].body.output, max), |events[i].body.output|) else 0)
  }

  lemma {:induction false} RemovedBytesAre(blocks: seq<Block>, max: nat, n: nat)
    requires max > 0 && n <= |blocks|
    ensures RemovedBytes(blocks, max, n) == Total(TakenFromAll(blocks, max), n)
  {
    if n > 0 {
      RemovedBytesAre(blocks, max, n - 1);
    }
  }

  lemma IsOverIff(e: Event, max: nat)
    ensures IsOver(e, max) <==> Oversized(e.body, max)
  {
    if Oversized(e.body, max) {
      var block :| block in e.body.output && block.TextBlock? && |block.text| > max;
      var j :| 0 <= j < |e.body.output| && e.body.output[j] == block;
    }
  }

  lemma {:induction false} TruncationTo(b: ContextBudget, events: seq<Event>, n: nat)
    requires b.maxToolOutput > 0 && n <= |events|
    ensures TruncationTally(b, events, n) ==
            Tally(|Below(OverAmong(events, b.maxToolOutput), n)|, 0,
                  Total(TakenFromEvents(events, b.maxToolOutput), n))
  {
    var max := b.maxToolOutput;
    BelowAll(OverAmong(events, max), |events|);
    if n > 0 {
      TruncationTo(b, events, n - 1);
      BelowStep(OverAmong(events, max), n - 1);
      IsOverIff(events[n - 1], max);
      if IsOver(events[n - 1], max) {
        RemovedBytesAre(events[n - 1].body.output, max, |events[n - 1].body.output|);
      }
    }
  }

  /** What is reported of truncation: how many results were over the limit, and the
      bytes their texts lost. */
  lemma TruncationCounts(b: ContextBudget, events: seq<Event>)
    requires b.maxToolOutput > 0
    ensures TruncationTally(b, events, |events|) ==
            Tally(|OverAmong(events, b.maxToolOutput)|, 0,
                  Total(TakenFromEvents(events, b.maxToolOutput), |events|))
  {
    TruncationTo(b, events, |events|);
    BelowAll(OverAmong(events, b.maxToolOutput), |events|);
  }

  /** What a truncated event is: each text over the limit cut down, and all else, its
      capsules too, as it was. */
  lemma TruncatedSays(e: Event, max: nat)
    requires max > 0
    ensures
      var t := Truncated(e, max);
      && t.id == e.id && t.visibility == e.visibility && t.capsules == e.capsules
      && (!e.body.ToolResult? ==> t == e)
      && (e.body.ToolResult? ==>
            && t.body == e.body.(output := t.body.output) && |t.body.output| == |e.body.output|
            && forall j :: 0 <= j < |e.body.output| ==>
                 t.body.output[j] ==
                 if e.body.output[j].TextBlock? && |e.body.output[j].text| > max
                 then TextBlock(Elided(e.body.output[j].text, max))
                 else e.body.output[j])
  {
    IsOverIff(e, max);
  }

  /** Where a line stands in a report. */
  function ReportRank(loss: Loss): nat {
    if loss.grade == ConversationOnly then 6
    else match loss.kind
         case SealedContextLoss => 1
         case ConversationLoss => 2
         case ToolProtocolLoss => 3
         case ReasoningLoss => 4
         case _ => 5
  }

  // ---------------------------------------------------------------------------
  // Budgeting twice
  // ---------------------------------------------------------------------------

  /** An elided observation is over the limit still. */
  lemma TruncatedStaysOversized(e: Event, max: nat)
    requires max > 0
    ensures Oversized(Truncated(e, max).body, max) <==> Oversized(e.body, max)
  {
    if Oversized(e.body, max) {
      var block :| block in e.body.output && block.TextBlock? && |block.text| > max;
      var k :| 0 <= k < |e.body.output| && e.body.output[k] == block;
      ElidedLength(block.text, max);
      assert TruncateBlocks(e.body.output, max)[k] == TextBlock(Elided(block.text, max));
      assert Truncated(e, max).body.output[k] in Truncated(e, max).body.output;
    }
  }

  /** No event that was kept had been over the limit. */
  ghost predicate NothingKeptElided(b: ContextBudget, size: Measure, events: seq<Event>) {
    forall i :: 0 <= i < |events| && Kept(b, size, events)[i] ==>
      b.maxToolOutput == 0 || !Oversized(events[i].body, b.maxToolOutput)
  }

  lemma StillOversizedIff(b: ContextBudget, size: Measure, events: seq<Event>)
    ensures NoneOversized(b, Applied(b, size, events).events) <==> NothingKeptElided(b, size, events)
  {
    var keep, fitted := Kept(b, size, events), Applied(b, size, events).events;
    FittedIsSubsequence(b, size, events);
    if b.maxToolOutput > 0 {
      forall i | 0 <= i < |events|
        ensures Oversized(Staged(b, events)[i].body, b.maxToolOutput) <==> Oversized(events[i].body, b.maxToolOutput)
      {
        TruncatedStaysOversized(events[i], b.maxToolOutput);
      }
      forall i | 0 <= i < |events| && keep[i]
        ensures Staged(b, events)[i] in fitted
      {
        var k := PositionOf(keep, |events|, i);
        assert fitted[k] == Staged(b, events)[i];
      }
    }
  }

  lemma {:induction false} TotalIsCostFrom(costs: seq<nat>, live: seq<bool>, n: nat)
    requires |costs| == |live| && n <= |costs| && forall i :: 0 <= i < |live| ==> live[i]
    ensures Total(costs, n) + CostFrom(costs, live, n) == CostFrom(costs, live, 0)
  {
    if n > 0 {
      TotalIsCostFrom(costs, live, n - 1);
    }
  }

  /** A replay that is all live and within the cap, or a single event, is kept
      whole. */
  lemma FittingIsKept(b: ContextBudget, size: Measure, events: seq<Event>)
    requires forall i :: 0 <= i < |events| ==> Live(b, events)[i]
    requires b.maxContextTokens == 0 || Cost(size, Staged(b, events)) <= b.maxContextTokens || |events| == 1
    ensures forall i :: 0 <= i < |events| ==> Kept(b, size, events)[i]
  {
    var costs, live := Costs(size, Staged(b, events)), Live(b, events);
    TotalIsCostFrom(costs, live, |live|);
    forall i | 0 <= i < |events|
      ensures Capped(b, size, events)[i]
    {
      CostShrinks(costs, live, 0, i);
    }
  }

  /** A second pass finds nothing to remove exactly when no event the first pass
      kept was over the tool-output limit, although repair zips calls and results
      anew over the shorter list. */
  lemma SecondPassRemovesNothingIff(b: ContextBudget, size: Measure, events: seq<Event>)
    ensures
      var fitted := Applied(b, size, events).events;
      Applied(b, size, fitted) == Budgeted(fitted, []) <==> NothingKeptElided(b, size, events)
  {
    var fitted := Applied(b, size, events).events;
    StillOversizedIff(b, size, events);
    NoLossesIff(b, size, fitted);
    if NothingKeptElided(b, size, events) {
      assert Staged(b, fitted) == fitted;
      FittedIsSubsequence(b, size, events);
      if b.maxContextTokens > 0 {
        FittedIsWithinCap(b, size, events);
      }
      forall k | 0 <= k < |fitted|
        ensures Live(b, fitted)[k]
      {
        var place := LivePositions(Kept(b, size, events), |events|)[k];
        assert fitted[k] == Staged(b, events)[place];
        assert Live(b, events)[place];
      }
      FittingIsKept(b, size, fitted);
      KeepingAll(fitted, Kept(b, size, fitted), |fitted|);
    }
  }

  /** Without a tool-output limit the budget is idempotent. */
  lemma BudgetingTwiceIsBudgetingOnce(b: ContextBudget, size: Measure, events: seq<Event>)
    requires b.maxToolOutput == 0
    ensures
      var fitted := Applied(b, size, events).events;
      Applied(b, size, fitted) == Budgeted(fitted, [])
  {
    SecondPassRemovesNothingIff(b, size, events);
  }
}
