/** What a context budget guarantees: exactly which events survive it and when
    none does, that the replay it returns fits, and how its knobs compare. */
module BudgetProofs {
  import opened Text
  import opened Ir
  import opened Sums
  import opened Elision
  import opened Pairing
  import opened Budget

  /** A budget is unlimited exactly when every flag is absent or zero and reasoning
      is not dropped. */
  lemma RequestedIsUnlimitedIff(tokens: Option<nat>, toolOutput: Option<nat>, dropReasoning: bool)
    ensures Requested(tokens, toolOutput, dropReasoning).IsUnlimited() <==>
            tokens in {None, Some(0)} && toolOutput in {None, Some(0)} && !dropReasoning
  {
  }

  // ---------------------------------------------------------------------------
  // Which events survive
  // ---------------------------------------------------------------------------

  /** The earlier half of the pair event `i` belongs to: itself if it is in none. */
  function Earlier(halves: seq<Half>, i: nat): (e: nat)
    requires i < |halves|
    ensures e <= i
  {
    var partner := Partner(halves, i);
    if partner.Some? && partner.value < i then partner.value else i
  }

  /** Everything from the earlier half of the pair to the newest event fits. */
  predicate PairFits(b: ContextBudget, size: Measure, events: seq<Event>, i: nat)
    requires i < |events|
  {
    CostFrom(Costs(size, Staged(b, events)), Live(b, events), Earlier(Halves(events), i)) <= b.maxContextTokens
  }

  /** The newest live event, and in no pair. */
  predicate NewestAlone(b: ContextBudget, events: seq<Event>, i: nat)
    requires i < |events|
  {
    Newest(Live(b, events), i) && Partner(Halves(events), i).None?
  }

  /** Either half of a pair is tool traffic, so reasoning is in none. */
  lemma PairsAreLive(b: ContextBudget, events: seq<Event>, i: nat)
    requires i < |events| && Partner(Halves(events), i).Some?
    ensures
      var p := Partner(Halves(events), i).value;
      && Partner(Halves(events), p) == Some(i) && p != i
      && Live(b, events)[i] && Live(b, events)[p]
      && !Newest(Live(b, events), if p < i then p else i)
  {
    PartnersAreMutual(Halves(events), i);
  }

  /** The budget in closed form, cut and repair together: a live event survives
      exactly when there is no cap, or its whole pair fits with everything after
      it, or it is the newest and stands alone. */
  lemma KeptIff(b: ContextBudget, size: Measure, events: seq<Event>, i: nat)
    requires i < |events|
    ensures Kept(b, size, events)[i] <==>
            && Live(b, events)[i]
            && (b.maxContextTokens == 0 || PairFits(b, size, events, i) || NewestAlone(b, events, i))
  {
    var costs, live := Costs(size, Staged(b, events)), Live(b, events);
    var partner := Partner(Halves(events), i);
    if partner.Some? {
      var p := partner.value;
      PairsAreLive(b, events, i);
      CostShrinks(costs, live, if p < i then p else i, if p < i then i else p);
    }
  }

  /** Does the newest event survive? Not always, although the source says it
      does: exactly when it is unpaired or everything from its partner on fits. */
  lemma NewestSurvivesIff(b: ContextBudget, size: Measure, events: seq<Event>, i: nat)
    requires i < |events| && Live(b, events)[i] && Newest(Live(b, events), i)
    ensures Kept(b, size, events)[i] <==>
            b.maxContextTokens == 0 || Partner(Halves(events), i).None? || PairFits(b, size, events, i)
  {
    KeptIff(b, size, events, i);
  }

  /** An answered call whose answer alone fits the cap. */
  function AnsweredCall(): seq<Event> {
    [Event("", Model, ToolCall("c", "read", None, Freeform("")), []),
     Event("", Model, ToolResult("c", Succeeded, [], None), [])]
  }

  /** Such a replay comes back empty: the cap keeps the result, and repair takes
      it out again because its call was cut. */
  lemma BudgetCanKeepNothing()
    ensures Applied(ContextBudget(30, 0, true), (_: Body) => 100, AnsweredCall()).events == []
  {
    var b, size, events := ContextBudget(30, 0, true), (_: Body) => 100, AnsweredCall();
    var halves, live, costs := Halves(events), Live(b, events), Costs(size, Staged(b, events));
    assert halves[0] == Call("c") && halves[1] == Result("c");
    ZipOfTwo(halves);
    assert costs[0] == 26 && costs[1] == 26;
    assert CostFrom(costs, live, 1) == 26 + CostFrom(costs, live, 2);
    assert CostFrom(costs, live, 0) == 26 + CostFrom(costs, live, 1);
    KeptIff(b, size, events, 0);
    KeptIff(b, size, events, 1);
    var keep := Kept(b, size, events);
    assert Retained(Staged(b, events), keep, 1) == Retained(Staged(b, events), keep, 0);
  }

  /** Exactly when a replay comes back empty: no live event's pair fits with
      everything after it, and the newest is in a pair. */
  lemma KeepsNothingIff(b: ContextBudget, size: Measure, events: seq<Event>)
    ensures Applied(b, size, events).events == [] <==>
            forall i :: 0 <= i < |events| && Live(b, events)[i] ==>
              b.maxContextTokens > 0 && !PairFits(b, size, events, i) && !NewestAlone(b, events, i)
  {
    var keep := Kept(b, size, events);
    forall i | 0 <= i < |events|
      ensures keep[i] <==>
              && Live(b, events)[i]
              && (b.maxContextTokens == 0 || PairFits(b, size, events, i) || NewestAlone(b, events, i))
    {
      KeptIff(b, size, events, i);
    }
    NothingRetainedIff(Staged(b, events), keep, |events|);
  }

  lemma ZipOfTwo(halves: seq<Half>)
    requires |halves| == 2 && halves[0].Call? && halves[1] == Result(halves[0].id)
    ensures Partner(halves, 0) == Some(1) && Partner(halves, 1) == Some(0)
  {
    var call, result := halves[0], halves[1];
    assert Positions(halves, call, 1) == Positions(halves, call, 0) + [0];
    assert Positions(halves, call, 2) == Positions(halves, call, 1);
    assert Positions(halves, result, 1) == Positions(halves, result, 0);
    assert Positions(halves, result, 2) == Positions(halves, result, 1) + [1];
  }

  // ---------------------------------------------------------------------------
  // The cap
  // ---------------------------------------------------------------------------

  /** What a replay costs. */
  function Cost(size: Measure, events: seq<Event>): nat {
    Total(Costs(size, events), |events|)
  }

  lemma {:induction false} DroppingSaves(costs: seq<nat>, live: seq<bool>, keep: seq<bool>, i: nat)
    requires |costs| == |live| == |keep| && i <= |live| && Subset(keep, live)
    ensures CostFrom(costs, keep, i) <= CostFrom(costs, live, i)
    decreases |live| - i
  {
    if i < |live| {
      DroppingSaves(costs, live, keep, i + 1);
    }
  }

  lemma CostStep(size: Measure, events: seq<Event>, e: Event)
    ensures Cost(size, events + [e]) == Cost(size, events) + Tokens(size, e)
  {
    TotalPrefix(Costs(size, events), Costs(size, events + [e]), |events|);
  }

  lemma {:induction false} RetainedCost(size: Measure, events: seq<Event>, keep: seq<bool>, n: nat)
    requires |events| == |keep| && n <= |events|
    ensures Cost(size, Retained(events, keep, n)) + CostFrom(Costs(size, events), keep, n)
            == CostFrom(Costs(size, events), keep, 0)
  {
    if n > 0 {
      RetainedCost(size, events, keep, n - 1);
      if keep[n - 1] {
        CostStep(size, Retained(events, keep, n - 1), events[n - 1]);
      } else {
        assert Retained(events, keep, n) == Retained(events, keep, n - 1);
      }
    }
  }

  /** Nothing kept before position `first`. */
  predicate NoneBefore(keep: seq<bool>, first: nat) {
    forall i :: 0 <= i < first && i < |keep| ==> !keep[i]
  }

  lemma FirstKept(keep: seq<bool>, n: nat) returns (first: nat)
    requires n <= |keep|
    ensures first <= n && NoneBefore(keep, first) && (first < n ==> keep[first])
  {
    first := 0;
    while first < n && !keep[first]
      invariant first <= n && NoneBefore(keep, first)
    {
      first := first + 1;
    }
  }

  /** A choice of affordable live events is within the cap, or it is the newest
      on its own. */
  lemma CutFits(costs: seq<nat>, live: seq<bool>, cap: nat, keep: seq<bool>)
    requires |costs| == |live| == |keep| && Subset(keep, Cut(costs, live, cap))
    ensures CostFrom(costs, keep, 0) <= cap ||
            exists i :: 0 <= i < |keep| && Newest(live, i) && NoneBefore(keep, i) && keep[i]
  {
    var first := FirstKept(keep, |keep|);
    SkipDead(costs, keep, 0, first);
    if first < |keep| {
      assert Cut(costs, live, cap)[first];
      DroppingSaves(costs, live, keep, first);
    }
  }

  lemma {:induction false} NothingRetainedIff(events: seq<Event>, keep: seq<bool>, n: nat)
    requires |events| == |keep| && n <= |events|
    ensures Retained(events, keep, n) == [] <==> NoneBefore(keep, n)
  {
    if n > 0 {
      NothingRetainedIff(events, keep, n - 1);
    }
  }

  lemma {:induction false} OneRetained(events: seq<Event>, keep: seq<bool>, i: nat, n: nat)
    requires |events| == |keep| && i < n <= |events|
    requires NoneBefore(keep, i) && keep[i] && forall j :: i < j < n ==> !keep[j]
    ensures Retained(events, keep, n) == [events[i]]
  {
    if n == i + 1 {
      NothingRetainedIff(events, keep, i);
    } else {
      OneRetained(events, keep, i, n - 1);
    }
  }

  /** The fitted replay costs no more than the cap, or it is one event: the
      newest the cap was applied to. */
  lemma FittedIsWithinCap(b: ContextBudget, size: Measure, events: seq<Event>)
    requires b.maxContextTokens > 0
    ensures
      var fitted := Applied(b, size, events).events;
      Cost(size, fitted) <= b.maxContextTokens ||
      exists i :: 0 <= i < |events| && Newest(Live(b, events), i) && fitted == [Staged(b, events)[i]]
  {
    var staged, live, keep := Staged(b, events), Live(b, events), Kept(b, size, events);
    var costs := Costs(size, staged);
    RetainedCost(size, staged, keep, |staged|);
    CutFits(costs, live, b.maxContextTokens, keep);
    if i :| 0 <= i < |keep| && Newest(live, i) && NoneBefore(keep, i) && keep[i] {
      OneRetained(staged, keep, i, |staged|);
    }
  }

  /** No longer run of newest events would have fitted: the cap, unrepaired,
      leaves every live event from any point on whose cost is within it. */
  lemma CutIsLongest(costs: seq<nat>, live: seq<bool>, cap: nat, from: nat)
    requires |costs| == |live| && from <= |live| && CostFrom(costs, live, from) <= cap
    ensures forall i :: from <= i < |live| && live[i] ==> Cut(costs, live, cap)[i]
  {
    forall i | from <= i < |live|
      ensures CostFrom(costs, live, i) <= cap
    {
      CostShrinks(costs, live, from, i);
    }
  }

  /** And what it leaves is a run of newest events. */
  lemma CutIsSuffix(costs: seq<nat>, live: seq<bool>, cap: nat, i: nat, j: nat)
    requires |costs| == |live| && i <= j < |live| && Cut(costs, live, cap)[i] && live[j]
    ensures Cut(costs, live, cap)[j]
  {
    CostShrinks(costs, live, i, j);
  }

  // ---------------------------------------------------------------------------
  // Turning the knobs
  // ---------------------------------------------------------------------------

  /** A larger cap, or none, keeps everything a smaller one kept. */
  lemma LargerCapKeepsMore(b: ContextBudget, cap: nat, size: Measure, events: seq<Event>)
    requires cap == 0 || 0 < b.maxContextTokens <= cap
    ensures Subset(Kept(b, size, events), Kept(b.(maxContextTokens := cap), size, events))
  {
    var larger := b.(maxContextTokens := cap);
    assert Staged(larger, events) == Staged(b, events) && Live(larger, events) == Live(b, events);
    forall i | 0 <= i < |events| && Kept(b, size, events)[i]
      ensures Kept(larger, size, events)[i]
    {
      KeptIff(b, size, events, i);
      KeptIff(larger, size, events, i);
    }
  }

  /** Dropping reasoning never costs any other event its place. */
  lemma DroppingReasoningHelps(b: ContextBudget, size: Measure, events: seq<Event>, i: nat)
    requires i < |events| && !events[i].body.Reasoning?
    requires Kept(b.(keepReasoning := true), size, events)[i]
    ensures Kept(b.(keepReasoning := false), size, events)[i]
  {
    var with, without := b.(keepReasoning := true), b.(keepReasoning := false);
    assert Staged(with, events) == Staged(without, events);
    KeptIff(with, size, events, i);
    KeptIff(without, size, events, i);
    DroppingSaves(Costs(size, Staged(with, events)), Live(with, events), Live(without, events),
                  Earlier(Halves(events), i));
  }

  /** From the pair of event `i` on, truncation makes the replay no dearer. */
  predicate NoDearer(b: ContextBudget, size: Measure, events: seq<Event>, i: nat)
    requires i < |events|
  {
    var live, from := Live(b, events), Earlier(Halves(events), i);
    CostFrom(Costs(size, Staged(b, events)), live, from) <= CostFrom(Costs(size, events), live, from)
  }

  function Capping(b: ContextBudget, cap: nat): ContextBudget {
    b.(maxContextTokens := cap)
  }

  /** Truncating tool output first loses no event that the cap alone would have
      kept. */
  ghost predicate TruncationIsSafe(b: ContextBudget, cap: nat, size: Measure, events: seq<Event>) {
    Subset(Kept(Capping(b, cap).(maxToolOutput := 0), size, events), Kept(Capping(b, cap), size, events))
  }

  lemma TruncationAt(b: ContextBudget, cap: nat, size: Measure, events: seq<Event>, i: nat)
    requires i < |events| && cap > 0 && Live(b, events)[i] && !NewestAlone(b, events, i)
    ensures
      var live, from := Live(b, events), Earlier(Halves(events), i);
      && (Kept(Capping(b, cap), size, events)[i] <==> CostFrom(Costs(size, Staged(b, events)), live, from) <= cap)
      && (Kept(Capping(b, cap).(maxToolOutput := 0), size, events)[i] <==>
          CostFrom(Costs(size, events), live, from) <= cap)
  {
    var capped := Capping(b, cap);
    var plain := capped.(maxToolOutput := 0);
    assert Live(plain, events) == Live(capped, events) == Live(b, events);
    assert Staged(plain, events) == events && Staged(capped, events) == Staged(b, events);
    KeptIff(capped, size, events, i);
    KeptIff(plain, size, events, i);
  }

  /** Truncation is safe under every cap exactly when it makes the replay no
      dearer from any live event's pair on, an unpaired newest event aside. */
  lemma TruncationIsSafeIff(b: ContextBudget, size: Measure, events: seq<Event>)
    ensures (forall cap: nat :: cap > 0 ==> TruncationIsSafe(b, cap, size, events)) <==>
            forall i :: 0 <= i < |events| && Live(b, events)[i] && !NewestAlone(b, events, i) ==>
              NoDearer(b, size, events, i)
  {
    if forall cap: nat :: cap > 0 ==> TruncationIsSafe(b, cap, size, events) {
      forall i | 0 <= i < |events| && Live(b, events)[i] && !NewestAlone(b, events, i)
        ensures NoDearer(b, size, events, i)
      {
        DearerIsUnsafe(b, size, events, i);
      }
    }
    if forall i :: 0 <= i < |events| && Live(b, events)[i] && !NewestAlone(b, events, i) ==>
         NoDearer(b, size, events, i)
    {
      forall cap: nat | cap > 0
        ensures TruncationIsSafe(b, cap, size, events)
      {
        NoDearerIsSafe(b, cap, size, events);
      }
    }
  }

  /** Under one cap, truncation is safe exactly when every live pair, an unpaired
      newest event aside, that fits the cap untruncated fits it truncated. */
  lemma TruncationIsSafeAtIff(b: ContextBudget, cap: nat, size: Measure, events: seq<Event>)
    requires cap > 0
    ensures TruncationIsSafe(b, cap, size, events) <==>
            forall i :: 0 <= i < |events| && Live(b, events)[i] && !NewestAlone(b, events, i) ==>
              StillFits(b, cap, size, events, i)
  {
    var capped := Capping(b, cap);
    var plain := capped.(maxToolOutput := 0);
    assert Live(plain, events) == Live(capped, events) == Live(b, events);
    forall i | 0 <= i < |events|
      ensures (Kept(plain, size, events)[i] ==> Kept(capped, size, events)[i]) <==>
              (Live(b, events)[i] && !NewestAlone(b, events, i) ==> StillFits(b, cap, size, events, i))
    {
      KeptIff(plain, size, events, i);
      KeptIff(capped, size, events, i);
      if Live(b, events)[i] && !NewestAlone(b, events, i) {
        TruncationAt(b, cap, size, events, i);
      }
    }
  }

  /** If what event `i`'s pair and everything after it cost untruncated is within
      the cap, so is what they cost truncated. */
  predicate StillFits(b: ContextBudget, cap: nat, size: Measure, events: seq<Event>, i: nat)
    requires i < |events|
  {
    var live, from := Live(b, events), Earlier(Halves(events), i);
    CostFrom(Costs(size, events), live, from) <= cap ==> CostFrom(Costs(size, Staged(b, events)), live, from) <= cap
  }

  lemma DearerIsUnsafe(b: ContextBudget, size: Measure, events: seq<Event>, i: nat)
    requires i < |events| && Live(b, events)[i] && !NewestAlone(b, events, i)
    requires forall cap: nat :: cap > 0 ==> TruncationIsSafe(b, cap, size, events)
    ensures NoDearer(b, size, events, i)
  {
    var cap := CostFrom(Costs(size, events), Live(b, events), Earlier(Halves(events), i));
    if cap > 0 {
      assert TruncationIsSafe(b, cap, size, events);
      TruncationAt(b, cap, size, events, i);
    } else {
      assert false;
    }
  }

  lemma NoDearerIsSafe(b: ContextBudget, cap: nat, size: Measure, events: seq<Event>)
    requires cap > 0
    requires forall i :: 0 <= i < |events| && Live(b, events)[i] && !NewestAlone(b, events, i) ==>
               NoDearer(b, size, events, i)
    ensures TruncationIsSafe(b, cap, size, events)
  {
    var capped := Capping(b, cap);
    var plain := capped.(maxToolOutput := 0);
    assert Live(plain, events) == Live(capped, events) == Live(b, events);
    forall i | 0 <= i < |events| && Kept(plain, size, events)[i]
      ensures Kept(capped, size, events)[i]
    {
      KeptIff(plain, size, events, i);
      KeptIff(capped, size, events, i);
      if !NewestAlone(b, events, i) {
        TruncationAt(b, cap, size, events, i);
      }
    }
  }

  lemma {:induction false} CheaperSums(a: seq<nat>, b: seq<nat>, live: seq<bool>, i: nat)
    requires |a| == |b| == |live| && i <= |live| && forall k :: 0 <= k < |a| ==> a[k] <= b[k]
    ensures CostFrom(a, live, i) <= CostFrom(b, live, i)
    decreases |live| - i
  {
    if i < |live| {
      CheaperSums(a, b, live, i + 1);
    }
  }

  /** In particular when no elided event costs more than it did. */
  lemma CheaperElisionIsSafe(b: ContextBudget, cap: nat, size: Measure, events: seq<Event>)
    requires cap > 0
    requires forall i :: 0 <= i < |events| ==> Tokens(size, Staged(b, events)[i]) <= Tokens(size, events[i])
    ensures TruncationIsSafe(b, cap, size, events)
  {
    forall i | 0 <= i < |events|
      ensures NoDearer(b, size, events, i)
    {
      CheaperSums(Costs(size, Staged(b, events)), Costs(size, events), Live(b, events), Earlier(Halves(events), i));
    }
    NoDearerIsSafe(b, cap, size, events);
  }

  /** A short observation just over its limit, and a message before it. */
  function ShortObservation(): seq<Event> {
    [Event("", Model, Message(User, []), []),
     Event("", Model, ToolResult("", Succeeded, [TextBlock(seq(12, _ => 'x'))], None), [])]
  }

  function TextIn(blocks: seq<Block>): nat {
    if blocks == [] then 0
    else TextIn(blocks[..|blocks| - 1]) +
         if blocks[|blocks| - 1].TextBlock? then |blocks[|blocks| - 1].text| else 0
  }

  /** Forty characters for the fields of any body, and the text of its blocks. */
  function TextSize(b: Body): nat {
    40 + match b
         case Message(_, blocks) => TextIn(blocks)
         case ToolResult(_, _, output, _) => TextIn(output)
         case _ => 0
  }

  /** The condition is needed: eliding two characters of twelve adds a marker of
      25, and a cap that held both events now holds one. */
  lemma DearerElisionLosesAnEvent()
    ensures
      var b := ContextBudget(25, 10, true);
      && Kept(b.(maxToolOutput := 0), TextSize, ShortObservation())[0]
      && !Kept(b, TextSize, ShortObservation())[0]
  {
    var b, events := ContextBudget(25, 10, true), ShortObservation();
    var plain := b.(maxToolOutput := 0);
    var text: string := seq(12, _ => 'x');
    ElidedLength(text, 10);
    assert |Decimal(2)| == 1;
    assert events[1].body.output[0] == TextBlock(text);
    assert Oversized(events[1].body, 10);
    assert Staged(b, events)[1].body.output == [TextBlock(Elided(text, 10))];
    assert Halves(events)[0] == Neither;
    TwoCosts(b, TextSize, events);
    TwoCosts(plain, TextSize, events);
    KeptIff(b, TextSize, events, 0);
    KeptIff(plain, TextSize, events, 0);
    assert Live(b, events)[1];
  }

  lemma TwoCosts(b: ContextBudget, size: Measure, events: seq<Event>)
    requires |events| == 2 && b.keepReasoning
    ensures CostFrom(Costs(size, Staged(b, events)), Live(b, events), 0)
            == Tokens(size, Staged(b, events)[0]) + Tokens(size, Staged(b, events)[1])
  {
    var costs, live := Costs(size, Staged(b, events)), Live(b, events);
    assert CostFrom(costs, live, 1) == costs[1] + CostFrom(costs, live, 2);
  }
}
