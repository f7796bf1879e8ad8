/** Fitting a replay into a context budget.

    The first half says which events a budget keeps, event by event: an event
    survives the cap when everything from it to the newest event fits, or when it
    is the newest. The second half is the budget itself, which clears a `keep`
    array in place, walking back from the newest event. */
module Budget {
  import opened Text
  import opened Ir
  import opened Tallies
  import opened Elision
  import opened Pairing

  datatype ContextBudget = ContextBudget(maxContextTokens: nat, maxToolOutput: nat, keepReasoning: bool) {
    predicate IsUnlimited() {
      this == UNLIMITED
    }
  }

  const UNLIMITED := ContextBudget(0, 0, true)

  /** Command-line flags as a budget: an absent cap is 0, which caps nothing. */
  function Requested(tokens: Option<nat>, toolOutput: Option<nat>, dropReasoning: bool): ContextBudget {
    ContextBudget(if tokens.Some? then tokens.value else 0,
                  if toolOutput.Some? then toolOutput.value else 0,
                  !dropReasoning)
  }

  /** The length of a serialised body. */
  type Measure = Body -> nat

  /** What an event is charged: a quarter of its printed body and sealed bytes,
      and one on top so that none is free. */
  function Tokens(size: Measure, e: Event): nat {
    (size(e.body) + SealedBytes(e.capsules)) / 4 + 1
  }

  function Costs(size: Measure, events: seq<Event>): seq<nat> {
    seq(|events|, i requires 0 <= i < |events| => Tokens(size, events[i]))
  }

  // ---------------------------------------------------------------------------
  // Truncation
  // ---------------------------------------------------------------------------

  predicate Oversized(b: Body, max: nat) {
    b.ToolResult? && exists block | block in b.output :: block.TextBlock? && |block.text| > max
  }

  function TruncateBlock(b: Block, max: nat): Block {
    if b.TextBlock? && ElideMiddle(b.text, max).Some? then TextBlock(ElideMiddle(b.text, max).value) else b
  }

  function TruncateBlocks(blocks: seq<Block>, max: nat): seq<Block> {
    seq(|blocks|, i requires 0 <= i < |blocks| => TruncateBlock(blocks[i], max))
  }

  function Truncated(e: Event, max: nat): Event {
    if Oversized(e.body, max) then e.(body := e.body.(output := TruncateBlocks(e.body.output, max))) else e
  }

  /** `a.saturating_sub(b)` */
  function Monus(a: nat, b: nat): nat {
    if a < b then 0 else a - b
  }

  /** Bytes a block loses to elision; one that grew loses none. */
  function LostBytes(b: Block, max: nat): nat {
    if b.TextBlock? && ElideMiddle(b.text, max).Some?
    then Monus(ByteLen(b.text), ByteLen(ElideMiddle(b.text, max).value))
    else 0
  }

  function RemovedBytes(blocks: seq<Block>, max: nat, n: nat): nat
    requires n <= |blocks|
  {
    if n == 0 then 0 else RemovedBytes(blocks, max, n - 1) + LostBytes(blocks[n - 1], max)
  }

  /** The replay after truncation, which is what the cap charges for. */
  function Staged(b: ContextBudget, events: seq<Event>): seq<Event> {
    seq(|events|, i requires 0 <= i < |events| =>
      if b.maxToolOutput > 0 then Truncated(events[i], b.maxToolOutput) else events[i])
  }

  /** What truncating the first `n` events adds to the report. */
  function TruncationTally(b: ContextBudget, events: seq<Event>, n: nat): Tally
    requires n <= |events|
  {
    if n == 0 || b.maxToolOutput == 0 then NOTHING
    else
      var t := TruncationTally(b, events, n - 1);
      var body := events[n - 1].body;
      if Oversized(body, b.maxToolOutput)
      then Tally(t.events + 1, t.capsules, t.bytes + RemovedBytes(body.output, b.maxToolOutput, |body.output|))
      else t
  }

  // ---------------------------------------------------------------------------
  // Which events are kept
  // ---------------------------------------------------------------------------

  /** Live before the cap: everything, or everything but reasoning. */
  function Live(b: ContextBudget, events: seq<Event>): seq<bool> {
    seq(|events|, i requires 0 <= i < |events| => b.keepReasoning || !events[i].body.Reasoning?)
  }

  /** The cost of the live events from position `i` to the newest. */
  function CostFrom(costs: seq<nat>, live: seq<bool>, i: nat): nat
    requires |costs| == |live| && i <= |live|
    decreases |live| - i
  {
    if i == |live| then 0
    else (if live[i] then costs[i] else 0) + CostFrom(costs, live, i + 1)
  }

  /** No live event after position `i`. */
  predicate Newest(live: seq<bool>, i: nat) {
    forall j :: i < j < |live| ==> !live[j]
  }

  /** The cap, event by event. */
  predicate Affordable(costs: seq<nat>, live: seq<bool>, cap: nat, i: nat)
    requires |costs| == |live| && i < |live|
  {
    CostFrom(costs, live, i) <= cap || Newest(live, i)
  }

  function Cut(costs: seq<nat>, live: seq<bool>, cap: nat): seq<bool>
    requires |costs| == |live|
  {
    seq(|live|, i requires 0 <= i < |live| => live[i] && Affordable(costs, live, cap, i))
  }

  /** Live after the cap. */
  function Capped(b: ContextBudget, size: Measure, events: seq<Event>): seq<bool> {
    if b.maxContextTokens > 0
    then Cut(Costs(size, Staged(b, events)), Live(b, events), b.maxContextTokens)
    else Live(b, events)
  }

  /** What the budget keeps in the end. */
  function Kept(b: ContextBudget, size: Measure, events: seq<Event>): seq<bool> {
    Repaired(Halves(events), Capped(b, size, events))
  }

  /** The kept ones among the first `n` events, in order. */
  function Retained(events: seq<Event>, keep: seq<bool>, n: nat): seq<Event>
    requires |events| == |keep| && n <= |events|
  {
    if n == 0 then []
    else Retained(events, keep, n - 1) + if keep[n - 1] then [events[n - 1]] else []
  }

  // ---------------------------------------------------------------------------
  // Accounting
  // ---------------------------------------------------------------------------

  /** The kind of loss the removal of an event is. */
  function DropKind(b: Body): LossKind {
    match b
    case Message(_, _) => ConversationLoss
    case Reasoning(_, _) => ReasoningLoss
    case ToolCall(_, _, _, _) => ToolProtocolLoss
    case ToolResult(_, _, _, _) => ToolProtocolLoss
    case SealedContext(_, _) => SealedContextLoss
    case TurnConfig(_, _, _, _, _, _) => MetadataLoss
    case EnvSnapshot(_) => MetadataLoss
    case Attachment(_, _) => MetadataLoss
    case Compaction(_, _, _, _, _) => MetadataLoss
    case Rollback(_) => MetadataLoss
    case Abort => MetadataLoss
    case Control(_, _) => MetadataLoss
    case Unknown(_, _) => MetadataLoss
  }

  function Plus(t: Tally, e: Event): Tally {
    Tally(t.events + 1, t.capsules + |e.capsules|, t.bytes + SealedBytes(e.capsules))
  }

  /** The dropped ones among the first `n` events, by kind of loss. */
  function DropTally(events: seq<Event>, keep: seq<bool>, kind: LossKind, n: nat): Tally
    requires |events| == |keep| && n <= |events|
  {
    if n == 0 then NOTHING
    else
      var t := DropTally(events, keep, kind, n - 1);
      if !keep[n - 1] && DropKind(events[n - 1].body) == kind then Plus(t, events[n - 1]) else t
  }

  function Line(kind: LossKind, t: Tally, grade: Fidelity): seq<Loss> {
    if t.events > 0 then [Loss(kind, t.events, t.capsules, t.bytes, grade)] else []
  }

  /** The report: five kinds of removal, then truncation. */
  function Losses(sealed: Tally, conversation: Tally, tool: Tally, reasoning: Tally, metadata: Tally,
                  truncated: Tally): seq<Loss>
  {
    Line(SealedContextLoss, sealed, HistoryIncomplete) +
    Line(ConversationLoss, conversation, HistoryIncomplete) +
    Line(ToolProtocolLoss, tool, HistoryIncomplete) +
    Line(ReasoningLoss, reasoning, ContextNoReasoning) +
    Line(MetadataLoss, metadata, HistoryIncomplete) +
    Line(ToolProtocolLoss, truncated, ConversationOnly)
  }

  function DroppedReport(events: seq<Event>, keep: seq<bool>, truncated: Tally): seq<Loss>
    requires |events| == |keep|
  {
    var n := |events|;
    Losses(DropTally(events, keep, SealedContextLoss, n), DropTally(events, keep, ConversationLoss, n),
           DropTally(events, keep, ToolProtocolLoss, n), DropTally(events, keep, ReasoningLoss, n),
           DropTally(events, keep, MetadataLoss, n), truncated)
  }

  /** A fitted replay and what fitting it cost. */
  datatype Budgeted = Budgeted(events: seq<Event>, losses: seq<Loss>)

  /** What applying a budget amounts to. */
  function Applied(b: ContextBudget, size: Measure, events: seq<Event>): Budgeted {
    var keep := Kept(b, size, events);
    Budgeted(Retained(Staged(b, events), keep, |events|),
             DroppedReport(Staged(b, events), keep, TruncationTally(b, events, |events|)))
  }

  // ---------------------------------------------------------------------------
  // The budget itself
  // ---------------------------------------------------------------------------

  /** Five tallies of dropped events and the call ids among them. */
  class Dropped {
    var conversation: Tally
    var reasoning: Tally
    var tool: Tally
    var sealed: Tally
    var metadata: Tally
    var brokenPairs: set<string>

    constructor ()
      ensures forall kind :: Filed(kind) == NOTHING
      ensures brokenPairs == {}
    {
      conversation, reasoning, tool, sealed, metadata := NOTHING, NOTHING, NOTHING, NOTHING, NOTHING;
      brokenPairs := {};
    }

    /** The tally of one kind of loss. */
    function Filed(kind: LossKind): Tally
      reads this
    {
      match kind
      case ConversationLoss => conversation
      case ReasoningLoss => reasoning
      case ToolProtocolLoss => tool
      case SealedContextLoss => sealed
      case MetadataLoss => metadata
      case MediaLoss => NOTHING
    }

    /** Add a dropped event to the tally of its `DropKind` and to no other. */
    method Record(e: Event)
      modifies this
      ensures forall kind ::
        Filed(kind) == if kind == DropKind(e.body) then Plus(old(Filed(kind)), e) else old(Filed(kind))
      ensures brokenPairs ==
              old(brokenPairs) + if DropKind(e.body) == ToolProtocolLoss then {e.body.callId} else {}
    {
      match e.body
      case Message(_, _) => conversation := Plus(conversation, e);
      case Reasoning(_, _) => reasoning := Plus(reasoning, e);
      case ToolCall(id, _, _, _) =>
        brokenPairs := brokenPairs + {id};
        tool := Plus(tool, e);
      case ToolResult(id, _, _, _) =>
        brokenPairs := brokenPairs + {id};
        tool := Plus(tool, e);
      case SealedContext(_, _) => sealed := Plus(sealed, e);
      case _ => metadata := Plus(metadata, e);
    }
  }

  /** Truncation part-way: the first `n` blocks done. */
  function PartlyTruncated(blocks: seq<Block>, max: nat, n: nat): seq<Block> {
    seq(|blocks|, i requires 0 <= i < |blocks| => if i < n then TruncateBlock(blocks[i], max) else blocks[i])
  }

  method ElideBlock(b: Block, max: nat) returns (b': Block, lost: nat)
    ensures b' == TruncateBlock(b, max) && lost == LostBytes(b, max)
  {
    b', lost := b, 0;
    if b.TextBlock? {
      var short := ElideMiddle(b.text, max);
      if short.Some? {
        lost := Monus(ByteLen(b.text), ByteLen(short.value));
        b' := TextBlock(short.value);
      }
    }
  }

  /** Rewrite the blocks in place, adding up what they lose. */
  method ElideBlocks(blocks: seq<Block>, max: nat) returns (output: seq<Block>, removed: nat)
    ensures output == TruncateBlocks(blocks, max)
    ensures removed == RemovedBytes(blocks, max, |blocks|)
  {
    output, removed := blocks, 0;
    assert output == PartlyTruncated(blocks, max, 0);
    for i := 0 to |blocks|
      invariant output == PartlyTruncated(blocks, max, i)
      invariant removed == RemovedBytes(blocks, max, i)
    {
      var block, lost := ElideBlock(output[i], max);
      removed := removed + lost;
      output := output[i := block];
    }
  }

  /** `truncate_tool_output` */
  method TruncateToolOutput(e: Event, max: nat, tally: Tally) returns (e': Event, tally': Tally)
    ensures e' == Truncated(e, max)
    ensures tally' == if Oversized(e.body, max)
                      then Tally(tally.events + 1, tally.capsules,
                                 tally.bytes + RemovedBytes(e.body.output, max, |e.body.output|))
                      else tally
  {
    if !Oversized(e.body, max) {
      return e, tally;
    }
    var output, removed := ElideBlocks(e.body.output, max);
    e' := e.(body := e.body.(output := output));
    tally' := Tally(tally.events + 1, tally.capsules, tally.bytes + removed);
  }

  /** The positions of the live events among the first `n`. */
  function LivePositions(live: seq<bool>, n: nat): (positions: seq<nat>)
    requires n <= |live|
    ensures forall k :: 0 <= k < |positions| ==> positions[k] < n && live[positions[k]]
  {
    if n == 0 then []
    else LivePositions(live, n - 1) + if live[n - 1] then [n - 1] else []
  }

  lemma {:induction false} PositionsIncrease(live: seq<bool>, n: nat)
    requires n <= |live|
    ensures forall j, k :: 0 <= j < k < |LivePositions(live, n)| ==>
              LivePositions(live, n)[j] < LivePositions(live, n)[k]
  {
    if n > 0 {
      PositionsIncrease(live, n - 1);
    }
  }

  lemma {:induction false} PositionOf(live: seq<bool>, n: nat, i: nat) returns (p: nat)
    requires i < n <= |live| && live[i]
    ensures p < |LivePositions(live, n)| && LivePositions(live, n)[p] == i
  {
    if i == n - 1 {
      p := |LivePositions(live, n)| - 1;
    } else {
      p := PositionOf(live, n - 1, i);
    }
  }

  lemma {:induction false} SkipDead(costs: seq<nat>, live: seq<bool>, i: nat, j: nat)
    requires |costs| == |live| && i <= j <= |live|
    requires forall k :: i <= k < j ==> !live[k]
    ensures CostFrom(costs, live, i) == CostFrom(costs, live, j)
    decreases j - i
  {
    if i < j {
      SkipDead(costs, live, i + 1, j);
    }
  }

  lemma {:induction false} CostShrinks(costs: seq<nat>, live: seq<bool>, i: nat, j: nat)
    requires |costs| == |live| && i <= j <= |live|
    ensures CostFrom(costs, live, j) <= CostFrom(costs, live, i)
    decreases j - i
  {
    if i < j {
      CostShrinks(costs, live, i + 1, j);
    }
  }

  /** The cost from live position `p` on, where `p` counts live events only. */
  function CostAt(costs: seq<nat>, live: seq<bool>, p: nat): nat
    requires |costs| == |live| && p <= |LivePositions(live, |live|)|
  {
    var positions := LivePositions(live, |live|);
    if p == |positions| then 0 else CostFrom(costs, live, positions[p])
  }

  lemma NoneBetween(live: seq<bool>, p: nat, k: nat)
    requires p < |LivePositions(live, |live|)|
    requires LivePositions(live, |live|)[p] < k < |live|
    requires p + 1 < |LivePositions(live, |live|)| ==> k < LivePositions(live, |live|)[p + 1]
    ensures !live[k]
  {
    PositionsIncrease(live, |live|);
    if live[k] {
      var q := PositionOf(live, |live|, k);
      assert false;
    }
  }

  lemma CostAtStep(costs: seq<nat>, live: seq<bool>, p: nat)
    requires |costs| == |live| && p < |LivePositions(live, |live|)|
    ensures CostAt(costs, live, p) == costs[LivePositions(live, |live|)[p]] + CostAt(costs, live, p + 1)
  {
    var positions := LivePositions(live, |live|);
    PositionsIncrease(live, |live|);
    var here, next := positions[p], if p + 1 < |positions| then positions[p + 1] else |live|;
    forall k | here + 1 <= k < next
      ensures !live[k]
    {
      NoneBetween(live, p, k);
    }
    SkipDead(costs, live, here + 1, next);
  }

  lemma CostAtAll(costs: seq<nat>, live: seq<bool>)
    requires |costs| == |live|
    ensures CostAt(costs, live, 0) == CostFrom(costs, live, 0)
  {
    var positions := LivePositions(live, |live|);
    var next := if positions == [] then |live| else positions[0];
    PositionsIncrease(live, |live|);
    forall k | 0 <= k < next
      ensures !live[k]
    {
      if live[k] {
        var q := PositionOf(live, |live|, k);
        assert false;
      }
    }
    SkipDead(costs, live, 0, next);
  }

  /** `cut` is the stopping point: live event `cut` and all after it fit, or it is
      the newest; with the one before it they do not fit. */
  ghost predicate Stopped(costs: seq<nat>, live: seq<bool>, cap: nat, cut: nat)
    requires |costs| == |live|
  {
    var n := |LivePositions(live, |live|)|;
    && cut < n
    && (cut == n - 1 || CostAt(costs, live, cut) <= cap)
    && (cut > 0 ==> CostAt(costs, live, cut - 1) > cap)
  }

  lemma LastIsNewest(live: seq<bool>, p: nat)
    requires p < |LivePositions(live, |live|)|
    ensures Newest(live, LivePositions(live, |live|)[p]) <==> p == |LivePositions(live, |live|)| - 1
  {
    var positions := LivePositions(live, |live|);
    PositionsIncrease(live, |live|);
    if p == |positions| - 1 {
      forall k | positions[p] < k < |live|
        ensures !live[k]
      {
        NoneBetween(live, p, k);
      }
    } else {
      assert live[positions[p + 1]];
    }
  }

  lemma LiveEventIsCut(costs: seq<nat>, live: seq<bool>, cap: nat, cut: nat, p: nat)
    requires |costs| == |live| && Stopped(costs, live, cap, cut)
    requires p < |LivePositions(live, |live|)|
    ensures Affordable(costs, live, cap, LivePositions(live, |live|)[p]) <==> p >= cut
  {
    var positions := LivePositions(live, |live|);
    PositionsIncrease(live, |live|);
    LastIsNewest(live, p);
    if p < cut {
      CostShrinks(costs, live, positions[p], positions[cut - 1]);
    } else {
      CostShrinks(costs, live, positions[cut], positions[p]);
    }
  }

  /** Clearing the live events before the stopping point is the cap. */
  lemma StoppedIsCut(costs: seq<nat>, live: seq<bool>, cap: nat, cut: nat, keep: seq<bool>)
    requires |costs| == |live| == |keep| && Stopped(costs, live, cap, cut)
    requires forall i :: 0 <= i < |keep| ==> keep[i] == (live[i] && i !in LivePositions(live, |live|)[..cut])
    ensures keep == Cut(costs, live, cap)
  {
    var positions := LivePositions(live, |live|);
    forall i | 0 <= i < |keep|
      ensures keep[i] == Cut(costs, live, cap)[i]
    {
      if live[i] {
        var p := PositionOf(live, |live|, i);
        LiveEventIsCut(costs, live, cap, cut, p);
        PositionsIncrease(live, |live|);
        assert p < cut ==> positions[..cut][p] == i;
      }
    }
  }

  /** A replay within the cap loses nothing to it. */
  lemma WithinCap(costs: seq<nat>, live: seq<bool>, cap: nat)
    requires |costs| == |live| && CostFrom(costs, live, 0) <= cap
    ensures Cut(costs, live, cap) == live
  {
    forall i | 0 <= i < |live|
      ensures Cut(costs, live, cap)[i] == live[i]
    {
      CostShrinks(costs, live, 0, i);
    }
  }

  /** Add up costs backwards over the live positions and find the stopping point.
      The newest is charged without a check. */
  method WalkBack(costs: seq<nat>, positions: seq<nat>, cap: nat, ghost all: seq<nat>, ghost live: seq<bool>)
    returns (first: nat)
    requires |all| == |live| && positions == LivePositions(live, |live|) && positions != []
    requires |costs| == |positions| && forall p :: 0 <= p < |costs| ==> costs[p] == all[positions[p]]
    ensures Stopped(all, live, cap, first)
  {
    var spent := 0;
    first := |positions| - 1;
    var position: nat := |positions|;
    while position > 0
      invariant position <= |positions|
      invariant spent == CostAt(all, live, position)
      invariant position == |positions| ==> first == |positions| - 1
      invariant position < |positions| ==> first == position
      invariant position < |positions| - 1 ==> spent <= cap
    {
      CostAtStep(all, live, position - 1);
      if spent + costs[position - 1] > cap && position - 1 != |positions| - 1 {
        break;
      }
      position := position - 1;
      spent := spent + costs[position];
      first := position;
    }
  }

  /** Clear `keep` at the first `first` live positions. */
  method ClearFirst(live: seq<nat>, first: nat, keep: array<bool>)
    requires first <= |live| && forall p :: 0 <= p < |live| ==> live[p] < keep.Length
    modifies keep
    ensures forall i :: 0 <= i < keep.Length ==> keep[i] == (old(keep[i]) && i !in live[..first])
  {
    for position := 0 to first
      invariant forall i :: 0 <= i < keep.Length ==> keep[i] == (old(keep[i]) && i !in live[..position])
    {
      assert live[..position + 1] == live[..position] + [live[position]];
      keep[live[position]] := false;
    }
  }

  /** `drop_oldest`: turn a `keep` array into its cut. */
  method DropOldest(cap: nat, size: Measure, events: seq<Event>, keep: array<bool>)
    requires keep.Length == |events|
    modifies keep
    ensures keep[..] == Cut(Costs(size, events), old(keep[..]), cap)
  {
    ghost var before, all := keep[..], Costs(size, events);
    var live := ListLive(keep);
    var costs := seq(|live|, p requires 0 <= p < |live| => Tokens(size, events[live[p]]));
    var total := AddUp(costs, all, before);
    if total <= cap {
      WithinCap(all, before, cap);
      return;
    }
    if live == [] {
      assert CostAt(all, before, 0) == 0;
      CostAtAll(all, before);
      assert false;
    }
    var first := WalkBack(costs, live, cap, all, before);
    ClearFirst(live, first, keep);
    assert |keep[..]| == |before|;
    StoppedIsCut(all, before, cap, first, keep[..]);
  }

  method ListLive(keep: array<bool>) returns (live: seq<nat>)
    ensures live == LivePositions(keep[..], keep.Length)
  {
    live := [];
    for index := 0 to keep.Length
      invariant live == LivePositions(keep[..], index)
    {
      if keep[index] {
        live := live + [index];
      }
    }
  }

  /** `costs.iter().sum()`, which is the cost of everything live. */
  method AddUp(costs: seq<nat>, ghost all: seq<nat>, ghost live: seq<bool>) returns (total: nat)
    requires |all| == |live| && |costs| == |LivePositions(live, |live|)|
    requires forall p :: 0 <= p < |costs| ==> costs[p] == all[LivePositions(live, |live|)[p]]
    ensures total == CostFrom(all, live, 0)
  {
    total := 0;
    for p := 0 to |costs|
      invariant total + CostAt(all, live, p) == CostAt(all, live, 0)
    {
      CostAtStep(all, live, p);
      total := total + costs[p];
    }
    CostAtAll(all, live);
  }

  /** Clear `keep` for reasoning. */
  method DropReasoning(events: seq<Event>, keep: array<bool>)
    requires keep.Length == |events|
    modifies keep
    ensures forall i :: 0 <= i < |events| ==> keep[i] == (old(keep[i]) && !events[i].body.Reasoning?)
  {
    for index := 0 to |events|
      invariant forall i :: 0 <= i < |events| ==>
                  keep[i] == (old(keep[i]) && (i < index ==> !events[i].body.Reasoning?))
    {
      if events[index].body.Reasoning? {
        keep[index] := false;
      }
    }
  }

  /** Truncation part-way: the first `n` events done. */
  function PartlyStaged(max: nat, events: seq<Event>, n: nat): seq<Event> {
    seq(|events|, i requires 0 <= i < |events| => if i < n then Truncated(events[i], max) else events[i])
  }

  /** Truncate the tool observations of live events in place. */
  method TruncateAll(b: ContextBudget, visible: seq<Event>, keep: array<bool>, events: array<Event>)
    returns (tally: Tally)
    requires b.maxToolOutput > 0 && keep.Length == |visible| == events.Length
    requires events[..] == visible && keep[..] == Live(b, visible)
    modifies events
    ensures events[..] == Staged(b, visible)
    ensures tally == TruncationTally(b, visible, |visible|)
  {
    tally := NOTHING;
    assert events[..] == PartlyStaged(b.maxToolOutput, visible, 0);
    for index := 0 to events.Length
      invariant events[..] == PartlyStaged(b.maxToolOutput, visible, index)
      invariant tally == TruncationTally(b, visible, index)
    {
      assert events[..][index] == visible[index];
      assert keep[..][index] == Live(b, visible)[index];
      if keep[index] {
        events[index], tally := TruncateToolOutput(events[index], b.maxToolOutput, tally);
      }
    }
  }

  /** File every event that is not kept. */
  method RecordDropped(events: seq<Event>, keep: seq<bool>) returns (dropped: Dropped)
    requires |events| == |keep|
    ensures fresh(dropped)
    ensures forall kind :: dropped.Filed(kind) == DropTally(events, keep, kind, |events|)
  {
    dropped := new Dropped();
    for index := 0 to |events|
      invariant fresh(dropped)
      invariant forall kind :: dropped.Filed(kind) == DropTally(events, keep, kind, index)
    {
      if !keep[index] {
        dropped.Record(events[index]);
      }
    }
  }

  method Report(events: seq<Event>, keep: seq<bool>, truncated: Tally) returns (losses: seq<Loss>)
    requires |events| == |keep|
    ensures losses == DroppedReport(events, keep, truncated)
  {
    var dropped := RecordDropped(events, keep);
    losses := Losses(dropped.Filed(SealedContextLoss), dropped.Filed(ConversationLoss), dropped.Filed(ToolProtocolLoss),
                     dropped.Filed(ReasoningLoss), dropped.Filed(MetadataLoss), truncated);
  }

  method Retain(events: seq<Event>, keep: seq<bool>) returns (retained: seq<Event>)
    requires |events| == |keep|
    ensures retained == Retained(events, keep, |events|)
  {
    retained := [];
    for index := 0 to |events|
      invariant retained == Retained(events, keep, index)
    {
      if keep[index] {
        retained := retained + [events[index]];
      }
    }
  }

  /** `ContextBudget::apply` */
  method Apply(b: ContextBudget, size: Measure, visible: seq<Event>) returns (fitted: Budgeted)
    ensures fitted == Applied(b, size, visible)
  {
    if b.IsUnlimited() {
      UnlimitedKeepsAll(size, visible);
      return Budgeted(visible, []);
    }
    var n := |visible|;
    var events := new Event[n](i requires 0 <= i < n => visible[i]);
    var keep := new bool[n](_ => true);
    assert events[..] == visible;
    if !b.keepReasoning {
      DropReasoning(visible, keep);
    }
    assert keep[..] == Live(b, visible);
    var truncated := NOTHING;
    if b.maxToolOutput > 0 {
      truncated := TruncateAll(b, visible, keep, events);
    } else {
      assert Staged(b, visible) == visible;
    }
    var staged := events[..];
    if b.maxContextTokens > 0 {
      DropOldest(b.maxContextTokens, size, staged, keep);
    }
    StagingKeepsHalves(b, visible);
    RepairPairing(staged, keep);
    var kept := keep[..];
    var retained := Retain(staged, kept);
    var losses := Report(staged, kept, truncated);
    fitted := Budgeted(retained, losses);
  }

  /** Truncation changes neither which half of which call an event is nor, so,
      any pairing. */
  lemma StagingKeepsHalves(b: ContextBudget, events: seq<Event>)
    ensures Halves(Staged(b, events)) == Halves(events)
  {
  }

  lemma {:induction false} KeepingAll(events: seq<Event>, keep: seq<bool>, n: nat)
    requires |events| == |keep| && n <= |events| && forall i :: 0 <= i < n ==> keep[i]
    ensures Retained(events, keep, n) == events[..n]
    ensures forall kind :: DropTally(events, keep, kind, n) == NOTHING
  {
    if n > 0 {
      KeepingAll(events, keep, n - 1);
      assert events[..n] == events[..n - 1] + [events[n - 1]];
    }
  }

  /** The shortcut for the unlimited budget is what the long way would do. */
  lemma UnlimitedKeepsAll(size: Measure, events: seq<Event>)
    ensures Applied(UNLIMITED, size, events) == Budgeted(events, [])
  {
    var keep := Kept(UNLIMITED, size, events);
    assert Staged(UNLIMITED, events) == events;
    KeepingAll(events, keep, |events|);
    assert events[..|events|] == events;
  }
}
