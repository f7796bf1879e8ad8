/** The comparison of a replay with the replay read back from a written file.

    The first half says what a comparison means: which target event a source
    event is matched to, which ledger each capsule is drawn from and whether the
    ledger still held it, and whether the text of an unmatched event is still
    there. Nothing in it is updated. The second half is the comparator itself:
    three passes over queues, ledgers and lists of tallies, proved to report
    exactly that. */
module Compare {
  import opened Text
  import opened Ir
  import opened Sums
  import opened Ledger
  import opened Matching
  import opened Tallies
  import opened Reduce

  /** One comparison: what was to be written, what was read back, the vendor it
      was written for, and what pass one matched each source event to. */
  datatype Crossing = Crossing(src: seq<Item>, tgt: seq<Item>, vendor: string, matched: seq<Option<nat>>)

  function Shapes(items: seq<Item>): seq<string> {
    seq(|items|, i requires 0 <= i < |items| => items[i].shape)
  }

  /** The comparison of two replays. */
  function CrossingOf(s: Serde, src: seq<Event>, tgt: seq<Event>, vendor: string): Crossing {
    var source, target := ReduceAll(s, src), ReduceAll(s, tgt);
    Crossing(source, target, vendor, Matches(Shapes(source), Shapes(target)))
  }

  datatype Bucket = Predicted | Degraded | Unexplained

  datatype Finding = Finding(bucket: Bucket, kind: LossKind)

  datatype ForeignCarry = ForeignCarry(kind: CapsuleKind, events: nat, capsules: nat, bytes: nat)

  datatype Comparison = Comparison(
    sourceEvents: nat, targetEvents: nat, addedEvents: nat, sourceCapsules: nat, targetCapsules: nat,
    predicted: seq<Loss>, degraded: seq<Loss>, unexplained: seq<Loss>, carriedForeign: seq<ForeignCarry>)
  {
    predicate IsClean() {
      unexplained == [] && carriedForeign == []
    }

    /** The worst grade among the losses. */
    function Fidelity(): Fidelity {
      Worst(Worst(Worst(ContextComplete, predicted), degraded), unexplained)
    }
  }

  function Worst(start: Fidelity, losses: seq<Loss>): Fidelity {
    if losses == [] then start
    else Worst(start, losses[..|losses| - 1]).WorseOf(losses[|losses| - 1].grade)
  }

  /** Loss kinds and capsule kinds in the order their names sort. */
  const KINDS: seq<LossKind> :=
    [ConversationLoss, MediaLoss, MetadataLoss, ReasoningLoss, SealedContextLoss, ToolProtocolLoss]

  const CAPSULE_KINDS: seq<CapsuleKind> :=
    [AnthropicRedactedThinking, AnthropicThinkingSignature, OpenaiCompactedContext,
     OpenaiReasoningEncryptedContent]

  /** The target event source event `i` is matched to. */
  function MatchOf(c: Crossing, i: nat): Option<nat> {
    if i < |c.matched| then c.matched[i] else None
  }

  // ---------------------------------------------------------------------------
  // Readable content
  // ---------------------------------------------------------------------------

  function Contents(items: seq<Item>): seq<seq<string>> {
    seq(|items|, i requires 0 <= i < |items| => items[i].content)
  }

  /** All readable keys of a replay, in order. */
  function TextKeys(items: seq<Item>): seq<string> {
    Concat(Contents(items), |items|)
  }

  function Bags(items: seq<Item>): seq<multiset<string>> {
    seq(|items|, i requires 0 <= i < |items| => multiset(items[i].content))
  }

  function TargetText(c: Crossing): multiset<string> {
    multiset(TextKeys(c.tgt))
  }

  /** What each source event with a counterpart spends. */
  function MatchedParts(c: Crossing): seq<multiset<string>> {
    seq(|c.src|, i requires 0 <= i < |c.src| =>
      if MatchOf(c, i).Some? then multiset(c.src[i].content) else multiset{})
  }

  function MatchedText(c: Crossing): multiset<string> {
    Sum(MatchedParts(c), |c.src|)
  }

  predicate Foreign(c: Crossing, cap: Capsule) {
    !cap.FitsVendor(c.vendor)
  }

  predicate AllForeign(c: Crossing, e: Item) {
    e.capsules != [] && forall k :: 0 <= k < |e.capsules| ==> Foreign(c, e.capsules[k])
  }

  /** All the event holds is sealed for other vendors: its text does not count. */
  predicate Excused(c: Crossing, e: Item) {
    AllForeign(c, e) && (e.content == [] || e.sealedContext)
  }

  /** Unmatched, and neither excused nor empty: its content must be elsewhere. */
  predicate Late(c: Crossing, i: nat)
    requires i < |c.src|
  {
    MatchOf(c, i).None? && !Excused(c, c.src[i]) && (c.src[i].content != [] || c.src[i].capsules != [])
  }

  function LateParts(c: Crossing): seq<multiset<string>> {
    seq(|c.src|, i requires 0 <= i < |c.src| =>
      if Late(c, i) then multiset(c.src[i].content) else multiset{})
  }

  /** Target text left over once the matched events are accounted for. */
  function SpareText(c: Crossing): multiset<string> {
    TargetText(c) - MatchedText(c)
  }

  /** What is left of it when event `i` comes up in pass two. */
  function TextLeft(c: Crossing, i: nat): multiset<string>
    requires i <= |c.src|
  {
    SpareText(c) - Sum(LateParts(c), i)
  }

  predicate Survives(c: Crossing, i: nat)
    requires i < |c.src|
  {
    c.src[i].content != [] && multiset(c.src[i].content) <= TextLeft(c, i)
  }

  /** Target event `m` has content, and all of it is still unclaimed. */
  predicate Adds(c: Crossing, m: nat)
    requires m < |c.tgt|
  {
    c.tgt[m].content != [] && multiset(c.tgt[m].content) <= TextLeft(c, |c.src|) - Sum(Bags(c.tgt), m)
  }

  function AddedParts(c: Crossing): seq<nat> {
    seq(|c.tgt|, m requires 0 <= m < |c.tgt| => if Adds(c, m) then 1 else 0)
  }

  /** How many of the first `n` target events consist of unclaimed text only. */
  function AddedBy(c: Crossing, n: nat): nat
    requires n <= |c.tgt|
  {
    Total(AddedParts(c), n)
  }

  // ---------------------------------------------------------------------------
  // Sealed capsules
  // ---------------------------------------------------------------------------

  function Keys(capsules: seq<Capsule>): seq<string> {
    seq(|capsules|, i requires 0 <= i < |capsules| => capsules[i].sealed)
  }

  function KeysPerEvent(items: seq<Item>): seq<seq<string>> {
    seq(|items|, i requires 0 <= i < |items| => Keys(items[i].capsules))
  }

  function SealedKeys(items: seq<Item>): seq<string> {
    Concat(KeysPerEvent(items), |items|)
  }

  /** The sealed keys of all target events, as one bag. */
  function AllSealed(c: Crossing): multiset<string> {
    multiset(SealedKeys(c.tgt))
  }

  /** The blobs of the target event that event `i` was matched to. */
  function OwnStock(c: Crossing, i: nat): multiset<string> {
    var position := MatchOf(c, i);
    if position.Some? && position.value < |c.tgt| then multiset(Keys(c.tgt[position.value].capsules)) else multiset{}
  }

  /** Whether capsule `j` of event `i` is drawn from the ledger of the event's
      match; otherwise it is drawn from the file's. */
  predicate Local(c: Crossing, i: nat, j: nat)
    requires i < |c.src| && j < |c.src[i].capsules|
  {
    MatchOf(c, i).Some? && !Foreign(c, c.src[i].capsules[j])
  }

  /** What each capsule of event `i` asks of its own target event. */
  function LocalParts(c: Crossing, i: nat): seq<multiset<string>>
    requires i < |c.src|
  {
    seq(|c.src[i].capsules|, j requires 0 <= j < |c.src[i].capsules| =>
      if Local(c, i, j) then multiset{c.src[i].capsules[j].sealed} else multiset{})
  }

  /** What each capsule of event `i` asks of the file as a whole. */
  function GlobalParts(c: Crossing, i: nat): seq<multiset<string>>
    requires i < |c.src|
  {
    seq(|c.src[i].capsules|, j requires 0 <= j < |c.src[i].capsules| =>
      if Local(c, i, j) then multiset{} else multiset{c.src[i].capsules[j].sealed})
  }

  function EventDraws(c: Crossing): seq<multiset<string>> {
    seq(|c.src|, i requires 0 <= i < |c.src| => Sum(GlobalParts(c, i), |c.src[i].capsules|))
  }

  /** What is left on the event's own target event when capsule `j` comes up. */
  function OwnLeft(c: Crossing, i: nat, j: nat): multiset<string>
    requires i < |c.src| && j <= |c.src[i].capsules|
  {
    OwnStock(c, i) - Sum(LocalParts(c, i), j)
  }

  /** What is left in the file when event `i` comes up, and when its capsule `j`
      does. */
  function FileLeft(c: Crossing, i: nat): multiset<string>
    requires i <= |c.src|
  {
    AllSealed(c) - Sum(EventDraws(c), i)
  }

  function FileLeftAt(c: Crossing, i: nat, j: nat): multiset<string>
    requires i < |c.src| && j <= |c.src[i].capsules|
  {
    FileLeft(c, i) - Sum(GlobalParts(c, i), j)
  }

  /** Whether the ledger the capsule is drawn from still holds its bytes. */
  predicate Crossed(c: Crossing, i: nat, j: nat)
    requires i < |c.src| && j < |c.src[i].capsules|
  {
    c.src[i].capsules[j].sealed in (if Local(c, i, j) then OwnLeft(c, i, j) else FileLeftAt(c, i, j))
  }

  datatype Verdict = Conserved | PredictedDrop | UnexplainedDrop | CarriedAcross

  function VerdictOf(c: Crossing, i: nat, j: nat): Verdict
    requires i < |c.src| && j < |c.src[i].capsules|
  {
    if Foreign(c, c.src[i].capsules[j])
    then if Crossed(c, i, j) then CarriedAcross else PredictedDrop
    else if Crossed(c, i, j) then Conserved else UnexplainedDrop
  }

  // ---------------------------------------------------------------------------
  // Findings
  // ---------------------------------------------------------------------------

  /** What the verdict on one capsule files. */
  function CapsuleMark(verdict: Verdict, cap: Capsule): seq<Mark<Finding>> {
    match verdict
    case PredictedDrop => [Sealed(Finding(Predicted, CapsuleLossKind(cap.kind)), ByteLen(cap.sealed))]
    case UnexplainedDrop => [Sealed(Finding(Unexplained, CapsuleLossKind(cap.kind)), ByteLen(cap.sealed))]
    case Conserved => []
    case CarriedAcross => []
  }

  function CarriedMark(verdict: Verdict, cap: Capsule): seq<Mark<CapsuleKind>> {
    if verdict == CarriedAcross then [Mark(cap.kind, 1, ByteLen(cap.sealed))] else []
  }

  function Verdicts(c: Crossing, i: nat): seq<Verdict>
    requires i < |c.src|
  {
    seq(|c.src[i].capsules|, j requires 0 <= j < |c.src[i].capsules| => VerdictOf(c, i, j))
  }

  function CapsuleMarks(verdicts: seq<Verdict>, capsules: seq<Capsule>): seq<seq<Mark<Finding>>>
    requires |verdicts| == |capsules|
  {
    seq(|capsules|, j requires 0 <= j < |capsules| => CapsuleMark(verdicts[j], capsules[j]))
  }

  function CarriedMarks(verdicts: seq<Verdict>, capsules: seq<Capsule>): seq<seq<Mark<CapsuleKind>>>
    requires |verdicts| == |capsules|
  {
    seq(|capsules|, j requires 0 <= j < |capsules| => CarriedMark(verdicts[j], capsules[j]))
  }

  /** The findings about the first `j` capsules of event `i`. */
  function MarksTo(c: Crossing, i: nat, j: nat): seq<Mark<Finding>>
    requires i < |c.src| && j <= |c.src[i].capsules|
  {
    Concat(CapsuleMarks(Verdicts(c, i), c.src[i].capsules), j)
  }

  function CarriesTo(c: Crossing, i: nat, j: nat): seq<Mark<CapsuleKind>>
    requires i < |c.src| && j <= |c.src[i].capsules|
  {
    Concat(CarriedMarks(Verdicts(c, i), c.src[i].capsules), j)
  }

  function TextFinding(e: Item, survived: bool): Finding {
    if survived then Finding(Degraded, e.reshaped) else Finding(Unexplained, e.gone)
  }

  function EventMarks(c: Crossing, i: nat): seq<Mark<Finding>>
    requires i < |c.src|
  {
    if Late(c, i) then [Sealed(TextFinding(c.src[i], Survives(c, i)), 0)] else []
  }

  /** All findings about event `i`, and all it carried across. */
  function MarksOf(c: Crossing, i: nat): seq<Mark<Finding>>
    requires i < |c.src|
  {
    MarksTo(c, i, |c.src[i].capsules|) + EventMarks(c, i)
  }

  function CarriesOf(c: Crossing, i: nat): seq<Mark<CapsuleKind>>
    requires i < |c.src|
  {
    CarriesTo(c, i, |c.src[i].capsules|)
  }

  function Log(c: Crossing, n: nat): seq<seq<Mark<Finding>>>
    requires n <= |c.src|
  {
    seq(n, i requires 0 <= i < n => MarksOf(c, i))
  }

  function CarriedLog(c: Crossing, n: nat): seq<seq<Mark<CapsuleKind>>>
    requires n <= |c.src|
  {
    seq(n, i requires 0 <= i < n => CarriesOf(c, i))
  }

  lemma LogStep(c: Crossing, i: nat)
    requires i < |c.src|
    ensures Log(c, i + 1) == Log(c, i) + [MarksOf(c, i)]
    ensures CarriedLog(c, i + 1) == CarriedLog(c, i) + [CarriesOf(c, i)]
  {
    SameBeginning(Log(c, i), Log(c, i + 1));
    SameBeginning(CarriedLog(c, i), CarriedLog(c, i + 1));
  }

  lemma SameBeginning<T>(short: seq<T>, long: seq<T>)
    requires |long| == |short| + 1 && forall k :: 0 <= k < |short| ==> long[k] == short[k]
    ensures long == short + [long[|short|]]
  {
  }

  /** The report line for one kind of loss, if there is any. */
  function LossLine(log: seq<seq<Mark<Finding>>>, bucket: Bucket, kind: LossKind): seq<Loss> {
    var t := Totals(log, Finding(bucket, kind));
    if t.events > 0
    then [Loss(kind, t.events, t.capsules, t.bytes, GradeOf(kind, bucket == Degraded))]
    else []
  }

  function CarryLine(log: seq<seq<Mark<CapsuleKind>>>, kind: CapsuleKind): seq<ForeignCarry> {
    var t := Totals(log, kind);
    if t.events > 0 then [ForeignCarry(kind, t.events, t.capsules, t.bytes)] else []
  }

  function LossLines(log: seq<seq<Mark<Finding>>>, bucket: Bucket): seq<seq<Loss>> {
    seq(|KINDS|, k requires 0 <= k < |KINDS| => LossLine(log, bucket, KINDS[k]))
  }

  function CarryLines(log: seq<seq<Mark<CapsuleKind>>>): seq<seq<ForeignCarry>> {
    seq(|CAPSULE_KINDS|, k requires 0 <= k < |CAPSULE_KINDS| => CarryLine(log, CAPSULE_KINDS[k]))
  }

  /** One bucket of the report. */
  function LossesIn(log: seq<seq<Mark<Finding>>>, bucket: Bucket): seq<Loss> {
    Concat(LossLines(log, bucket), |KINDS|)
  }

  function CarriesIn(log: seq<seq<Mark<CapsuleKind>>>): seq<ForeignCarry> {
    Concat(CarryLines(log), |CAPSULE_KINDS|)
  }

  /** The report a comparison stands for. */
  function Compared(c: Crossing): Comparison {
    var log, carried := Log(c, |c.src|), CarriedLog(c, |c.src|);
    Comparison(
      |c.src|, |c.tgt|, AddedBy(c, |c.tgt|), |SealedKeys(c.src)|, |SealedKeys(c.tgt)|,
      LossesIn(log, Predicted),
      LossesIn(log, Degraded),
      LossesIn(log, Unexplained),
      CarriesIn(carried))
  }

  // ---------------------------------------------------------------------------
  // The comparator
  // ---------------------------------------------------------------------------

  /** Where pass one stands when `i` source events have been matched. */
  ghost predicate Matched(c: Crossing, i: nat, next: nat, queues: map<string, seq<nat>>,
                           matched: seq<Option<nat>>, left: map<string, nat>)
    requires i <= |c.src| == |c.matched|
  {
    && next == NextAt(Shapes(c.src), Shapes(c.tgt), i)
    && Queues(queues, Shapes(c.tgt), next)
    && matched == c.matched[..i]
    && Holds(left, TargetText(c) - Sum(MatchedParts(c), i))
  }

  method MatchOne(src: seq<Item>, i: nat, next: nat, queues: map<string, seq<nat>>, matched: seq<Option<nat>>,
                  left: map<string, nat>, ghost c: Crossing)
    returns (next': nat, queues': map<string, seq<nat>>, matched': seq<Option<nat>>, left': map<string, nat>)
    requires i < |c.src| && c.src == src && c.matched == Matches(Shapes(c.src), Shapes(c.tgt))
    requires Matched(c, i, next, queues, matched, left)
    ensures Matched(c, i + 1, next', queues', matched', left')
  {
    var position;
    queues', next', position := MatchStep(queues, next, Shapes(c.src), Shapes(c.tgt), src[i].shape, i);
    matched' := matched + [position];
    assert c.matched[..i + 1] == c.matched[..i] + [position];
    left' := SpendMatched(c, i, position, left, src[i].content);
  }

  /** Pass one: match source events to target events in order, and spend the
      text of those that have a counterpart. */
  method MatchEvents(src: seq<Item>, tgt: seq<Item>, vendor: string, texts: map<string, nat>, ghost c: Crossing)
    returns (matched: seq<Option<nat>>, left: map<string, nat>)
    requires c == Crossing(src, tgt, vendor, Matches(Shapes(src), Shapes(tgt)))
    requires Holds(texts, TargetText(c))
    ensures matched == c.matched
    ensures Holds(left, SpareText(c))
  {
    var queues := Queued(Shapes(tgt));
    var next := 0;
    matched, left := [], texts;
    SpendNothing(TargetText(c));
    for index := 0 to |src|
      invariant Matched(c, index, next, queues, matched, left)
    {
      next, queues, matched, left := MatchOne(src, index, next, queues, matched, left, c);
    }
  }

  method SpendMatched(ghost c: Crossing, i: nat, position: Option<nat>, texts: map<string, nat>, content: seq<string>)
    returns (left: map<string, nat>)
    requires i < |c.src| && c.src[i].content == content && position == MatchOf(c, i)
    requires Holds(texts, TargetText(c) - Sum(MatchedParts(c), i))
    ensures Holds(left, TargetText(c) - Sum(MatchedParts(c), i + 1))
  {
    left := texts;
    SpendTwice(TargetText(c), Sum(MatchedParts(c), i), MatchedParts(c)[i]);
    if position.Some? {
      var spent;
      left, spent := TakeAll(left, content, TargetText(c) - Sum(MatchedParts(c), i));
    } else {
      SpendNothing(TargetText(c) - Sum(MatchedParts(c), i));
    }
  }

  /** Draw capsule `j` of event `i` from the ledger it belongs to. */
  method Draw(c: Crossing, i: nat, j: nat, position: Option<nat>, sealed: map<string, nat>, own: map<string, nat>)
    returns (sealed': map<string, nat>, own': map<string, nat>, crossed: bool)
    requires i < |c.src| && j < |c.src[i].capsules|
    requires position == MatchOf(c, i)
    requires Holds(sealed, FileLeftAt(c, i, j))
    requires Holds(own, OwnLeft(c, i, j))
    ensures crossed == Crossed(c, i, j)
    ensures Holds(sealed', FileLeftAt(c, i, j + 1))
    ensures Holds(own', OwnLeft(c, i, j + 1))
  {
    var cap := c.src[i].capsules[j];
    sealed', own' := sealed, own;
    SpendTwice(OwnStock(c, i), Sum(LocalParts(c, i), j), LocalParts(c, i)[j]);
    SpendTwice(FileLeft(c, i), Sum(GlobalParts(c, i), j), GlobalParts(c, i)[j]);
    if !Foreign(c, cap) && position.Some? {
      own', crossed := Take(own, cap.sealed, OwnLeft(c, i, j));
      SpendNothing(FileLeftAt(c, i, j));
    } else {
      sealed', crossed := Take(sealed, cap.sealed, FileLeftAt(c, i, j));
      SpendNothing(OwnLeft(c, i, j));
    }
  }

  /** File what became of one capsule of event `i`. */
  method FileCapsule(cap: Capsule, foreign: bool, crossed: bool, i: nat,
                     tallies: seq<Entry<Finding>>, seen: seq<Finding>, carried: seq<Entry<CapsuleKind>>,
                     ghost log: seq<seq<Mark<Finding>>>, ghost marks: seq<Mark<Finding>>,
                     ghost carriedLog: seq<seq<Mark<CapsuleKind>>>, ghost carriedMarks: seq<Mark<CapsuleKind>>,
                     ghost verdict: Verdict)
    returns (tallies': seq<Entry<Finding>>, seen': seq<Finding>, carried': seq<Entry<CapsuleKind>>)
    requires verdict == if foreign then if crossed then CarriedAcross else PredictedDrop
                        else if crossed then Conserved else UnexplainedDrop
    requires i == |carriedLog|
    requires TalliedWithin(tallies, seen, log, marks)
    requires StampedWithin(carried, carriedLog, carriedMarks)
    ensures TalliedWithin(tallies', seen', log, marks + CapsuleMark(verdict, cap))
    ensures StampedWithin(carried', carriedLog, carriedMarks + CarriedMark(verdict, cap))
  {
    tallies', seen', carried' := tallies, seen, carried;
    assert marks + [] == marks && carriedMarks + [] == carriedMarks;
    var kind, bytes := CapsuleLossKind(cap.kind), ByteLen(cap.sealed);
    if foreign && crossed {
      carried' := Carry(carried, cap.kind, bytes, i, carriedLog, carriedMarks);
    } else if foreign {
      tallies', seen' := Hit(tallies, seen, Finding(Predicted, kind), bytes, log, marks);
    } else if !crossed {
      tallies', seen' := Hit(tallies, seen, Finding(Unexplained, kind), bytes, log, marks);
    }
  }

  /** Where pass two stands when `j` capsules of event `i` have been judged. */
  ghost predicate Judging(c: Crossing, i: nat, j: nat, sealed: map<string, nat>, own: map<string, nat>,
                          tallies: seq<Entry<Finding>>, seen: seq<Finding>, carried: seq<Entry<CapsuleKind>>)
    requires i < |c.src| && j <= |c.src[i].capsules|
  {
    && Holds(sealed, FileLeftAt(c, i, j))
    && Holds(own, OwnLeft(c, i, j))
    && TalliedWithin(tallies, seen, Log(c, i), MarksTo(c, i, j))
    && StampedWithin(carried, CarriedLog(c, i), CarriesTo(c, i, j))
  }

  method JudgeCapsule(c: Crossing, i: nat, j: nat, position: Option<nat>, sealed: map<string, nat>,
                      own: map<string, nat>, tallies: seq<Entry<Finding>>, seen: seq<Finding>,
                      carried: seq<Entry<CapsuleKind>>)
    returns (sealed': map<string, nat>, own': map<string, nat>, tallies': seq<Entry<Finding>>,
             seen': seq<Finding>, carried': seq<Entry<CapsuleKind>>)
    requires i < |c.src| && j < |c.src[i].capsules| && position == MatchOf(c, i)
    requires Judging(c, i, j, sealed, own, tallies, seen, carried)
    ensures Judging(c, i, j + 1, sealed', own', tallies', seen', carried')
  {
    var cap := c.src[i].capsules[j];
    var crossed;
    sealed', own', crossed := Draw(c, i, j, position, sealed, own);
    assert Verdicts(c, i)[j] == VerdictOf(c, i, j);
    tallies', seen', carried' := FileCapsule(cap, Foreign(c, cap), crossed, i, tallies, seen, carried,
      Log(c, i), MarksTo(c, i, j), CarriedLog(c, i), CarriesTo(c, i, j), VerdictOf(c, i, j));
  }

  lemma JudgingStarts(c: Crossing, i: nat, sealed: map<string, nat>, own: map<string, nat>,
                      tallies: seq<Entry<Finding>>, carried: seq<Entry<CapsuleKind>>)
    requires i < |c.src|
    requires Holds(sealed, FileLeft(c, i)) && Holds(own, OwnStock(c, i))
    requires Tallied(tallies, Log(c, i)) && Stamped(carried, CarriedLog(c, i))
    ensures Judging(c, i, 0, sealed, own, tallies, [], carried)
  {
    BeginEvent(tallies, Log(c, i));
    BeginStamping(carried, CarriedLog(c, i));
    SpendNothing(OwnStock(c, i));
    SpendNothing(FileLeft(c, i));
  }

  /** Judge the capsules of event `i`. */
  method JudgeCapsules(c: Crossing, i: nat, position: Option<nat>, sealed: map<string, nat>, own: map<string, nat>,
                       tallies: seq<Entry<Finding>>, carried: seq<Entry<CapsuleKind>>)
    returns (sealed': map<string, nat>, own': map<string, nat>, tallies': seq<Entry<Finding>>,
             seen: seq<Finding>, carried': seq<Entry<CapsuleKind>>)
    requires i < |c.src| && position == MatchOf(c, i)
    requires Judging(c, i, 0, sealed, own, tallies, [], carried)
    ensures Judging(c, i, |c.src[i].capsules|, sealed', own', tallies', seen, carried')
  {
    sealed', own', tallies', seen, carried' := sealed, own, tallies, [], carried;
    for j := 0 to |c.src[i].capsules|
      invariant Judging(c, i, j, sealed', own', tallies', seen, carried')
    {
      sealed', own', tallies', seen, carried' :=
        JudgeCapsule(c, i, j, position, sealed', own', tallies', seen, carried');
    }
  }

  /** Look for the text of an event that has no counterpart. `filter` drives the
      source's draw for every key, so all of them are spent either way. */
  method SpendText(c: Crossing, i: nat, position: Option<nat>, texts: map<string, nat>)
    returns (texts': map<string, nat>, finding: Option<Finding>)
    requires i < |c.src| && position == MatchOf(c, i)
    requires Holds(texts, TextLeft(c, i))
    ensures Holds(texts', TextLeft(c, i + 1))
    ensures finding == if Late(c, i) then Some(TextFinding(c.src[i], Survives(c, i))) else None
  {
    var event := c.src[i];
    SpendTwice(SpareText(c), Sum(LateParts(c), i), LateParts(c)[i]);
    if position.Some? || Excused(c, event) || (event.content == [] && event.capsules == []) {
      SpendNothing(TextLeft(c, i));
      return texts, None;
    }
    var kept;
    texts', kept := TakeAll(texts, event.content, TextLeft(c, i));
    finding := Some(TextFinding(event, event.content != [] && kept == |event.content|));
  }

  /** Judge what became of the text of event `i`. */
  method JudgeText(c: Crossing, i: nat, position: Option<nat>, texts: map<string, nat>,
                   tallies: seq<Entry<Finding>>, seen: seq<Finding>)
    returns (texts': map<string, nat>, tallies': seq<Entry<Finding>>)
    requires i < |c.src| && position == MatchOf(c, i)
    requires Holds(texts, TextLeft(c, i))
    requires TalliedWithin(tallies, seen, Log(c, i), MarksTo(c, i, |c.src[i].capsules|))
    ensures Holds(texts', TextLeft(c, i + 1))
    ensures Tallied(tallies', Log(c, i + 1))
  {
    ghost var marks := MarksTo(c, i, |c.src[i].capsules|);
    var finding;
    texts', finding := SpendText(c, i, position, texts);
    var seen';
    tallies', seen' := tallies, seen;
    if finding.Some? {
      tallies', seen' := Hit(tallies, seen, finding.value, 0, Log(c, i), marks);
    } else {
      assert MarksOf(c, i) == marks;
    }
    EndEvent(tallies', seen', Log(c, i), MarksOf(c, i));
    LogStep(c, i);
  }

  /** Every target event's own capsules, each in a ledger of its own. */
  method CountPerEvent(c: Crossing) returns (perEvent: seq<map<string, nat>>)
    ensures |perEvent| == |c.tgt|
    ensures forall p :: 0 <= p < |c.tgt| ==> Holds(perEvent[p], multiset(Keys(c.tgt[p].capsules)))
  {
    perEvent := [];
    for p := 0 to |c.tgt|
      invariant |perEvent| == p
      invariant forall q :: 0 <= q < p ==> Holds(perEvent[q], multiset(Keys(c.tgt[q].capsules)))
    {
      var ledger := Counted(Keys(c.tgt[p].capsules));
      perEvent := perEvent + [ledger];
    }
  }

  /** Pass two, one event: its capsules, then its text. */
  method JudgeEvent(c: Crossing, i: nat, position: Option<nat>, sealed: map<string, nat>, own: map<string, nat>,
                    texts: map<string, nat>, tallies: seq<Entry<Finding>>, carried: seq<Entry<CapsuleKind>>)
    returns (sealed': map<string, nat>, own': map<string, nat>, texts': map<string, nat>,
             tallies': seq<Entry<Finding>>, carried': seq<Entry<CapsuleKind>>)
    requires i < |c.src| && position == MatchOf(c, i)
    requires Holds(own, OwnStock(c, i))
    requires Judged(c, i, sealed, texts, tallies, carried)
    ensures Judged(c, i + 1, sealed', texts', tallies', carried')
  {
    JudgingStarts(c, i, sealed, own, tallies, carried);
    var seen;
    sealed', own', tallies', seen, carried' := JudgeCapsules(c, i, position, sealed, own, tallies, carried);
    EndStamping(carried', CarriedLog(c, i), CarriesOf(c, i));
    LogStep(c, i);
    texts', tallies' := JudgeText(c, i, position, texts, tallies', seen);
  }

  /** Where pass two stands when `i` events have been judged. */
  ghost predicate Judged(c: Crossing, i: nat, sealed: map<string, nat>, texts: map<string, nat>,
                         tallies: seq<Entry<Finding>>, carried: seq<Entry<CapsuleKind>>)
    requires i <= |c.src|
  {
    && Holds(sealed, FileLeft(c, i))
    && Holds(texts, TextLeft(c, i))
    && Tallied(tallies, Log(c, i))
    && Stamped(carried, CarriedLog(c, i))
  }

  /** Every match is a target event, and no target event is matched twice. */
  ghost predicate OneToOne(c: Crossing) {
    && |c.matched| == |c.src|
    && (forall i :: 0 <= i < |c.matched| && c.matched[i].Some? ==> c.matched[i].value < |c.tgt|)
    && (forall i, j :: 0 <= i < j < |c.matched| && c.matched[i].Some? ==> c.matched[i] != c.matched[j])
  }

  /** The ledgers of target events no earlier source event was matched to are
      still whole. */
  ghost predicate Untouched(c: Crossing, i: nat, perEvent: seq<map<string, nat>>) {
    && |perEvent| == |c.tgt|
    && forall p :: 0 <= p < |c.tgt| && Some(p) !in c.matched[..if i < |c.matched| then i else |c.matched|] ==>
         Holds(perEvent[p], multiset(Keys(c.tgt[p].capsules)))
  }

  /** The ledger of the event's own counterpart, or an empty one. */
  method OwnLedger(c: Crossing, i: nat, position: Option<nat>, perEvent: seq<map<string, nat>>)
    returns (own: map<string, nat>)
    requires OneToOne(c) && i < |c.src| && position == c.matched[i]
    requires Untouched(c, i, perEvent)
    ensures Holds(own, OwnStock(c, i))
  {
    own := if position.Some? then perEvent[position.value] else map[];
  }

  lemma JudgedAtFirst(c: Crossing, sealed: map<string, nat>, texts: map<string, nat>)
    requires Holds(sealed, FileLeft(c, 0)) && Holds(texts, TextLeft(c, 0))
    ensures Judged(c, 0, sealed, texts, [], [])
  {
  }

  /** Put the event's ledger back. */
  method PutBack(c: Crossing, i: nat, position: Option<nat>, own: map<string, nat>, perEvent: seq<map<string, nat>>)
    returns (perEvent': seq<map<string, nat>>)
    requires OneToOne(c) && i < |c.src| && position == c.matched[i]
    requires Untouched(c, i, perEvent)
    ensures Untouched(c, i + 1, perEvent')
  {
    perEvent' := if position.Some? then perEvent[position.value := own] else perEvent;
    assert c.matched[..i + 1] == c.matched[..i] + [position];
  }

  /** Pass two: classify, one source event at a time. */
  method JudgeEvents(c: Crossing, texts: map<string, nat>)
    returns (sealed: map<string, nat>, left: map<string, nat>, tallies: seq<Entry<Finding>>,
             carried: seq<Entry<CapsuleKind>>)
    requires OneToOne(c)
    requires Holds(texts, TextLeft(c, 0))
    ensures Judged(c, |c.src|, sealed, left, tallies, carried)
  {
    sealed := Counted(SealedKeys(c.tgt));
    var perEvent := CountPerEvent(c);
    left, tallies, carried := texts, [], [];
    SpendNothing(AllSealed(c));
    JudgedAtFirst(c, sealed, texts);
    for index := 0 to |c.src|
      invariant Untouched(c, index, perEvent)
      invariant Judged(c, index, sealed, left, tallies, carried)
    {
      var position := c.matched[index];
      var own := OwnLedger(c, index, position, perEvent);
      sealed, own, left, tallies, carried := JudgeEvent(c, index, position, sealed, own, left, tallies, carried);
      perEvent := PutBack(c, index, position, own, perEvent);
    }
  }

  /** Where pass three stands when `n` target events have been looked at. */
  ghost predicate Counting(c: Crossing, n: nat, added: nat, left: map<string, nat>)
    requires n <= |c.tgt|
  {
    added == AddedBy(c, n) && Holds(left, TextLeft(c, |c.src|) - Sum(Bags(c.tgt), n))
  }

  method CountOne(c: Crossing, n: nat, added: nat, left: map<string, nat>)
    returns (added': nat, left': map<string, nat>)
    requires n < |c.tgt| && Counting(c, n, added, left)
    ensures Counting(c, n + 1, added', left')
  {
    added', left' := added, left;
    ghost var stock, claimed := TextLeft(c, |c.src|), Sum(Bags(c.tgt), n);
    var content := c.tgt[n].content;
    SpendTwice(stock, claimed, multiset(content));
    if content != [] {
      var unclaimed;
      left', unclaimed := TakeAll(left, content, stock - claimed);
      if unclaimed == |content| {
        added' := added + 1;
      }
    } else {
      SpendNothing(stock - claimed);
    }
  }

  lemma CountingStarts(c: Crossing, texts: map<string, nat>)
    requires Holds(texts, TextLeft(c, |c.src|))
    ensures Counting(c, 0, 0, texts)
  {
    SpendNothing(TextLeft(c, |c.src|));
  }

  /** Pass three: target events built out of text no source event claimed. */
  method CountAdded(c: Crossing, texts: map<string, nat>) returns (added: nat)
    requires Holds(texts, TextLeft(c, |c.src|))
    ensures added == AddedBy(c, |c.tgt|)
  {
    added := 0;
    var left := texts;
    CountingStarts(c, texts);
    for n := 0 to |c.tgt|
      invariant Counting(c, n, added, left)
    {
      added, left := CountOne(c, n, added, left);
    }
  }

  method ListLosses(tallies: seq<Entry<Finding>>, bucket: Bucket, ghost log: seq<seq<Mark<Finding>>>)
    returns (losses: seq<Loss>)
    requires Tallied(tallies, log)
    ensures losses == LossesIn(log, bucket)
  {
    losses := [];
    for n := 0 to |KINDS|
      invariant losses == Concat(LossLines(log, bucket), n)
    {
      var kind := KINDS[n];
      assert LossLines(log, bucket)[n] == LossLine(log, bucket, kind);
      var t := TallyIn(tallies, Finding(bucket, kind));
      if t.events > 0 {
        losses := losses + [Loss(kind, t.events, t.capsules, t.bytes, GradeOf(kind, bucket == Degraded))];
      }
    }
  }

  method ListCarries(carried: seq<Entry<CapsuleKind>>, ghost log: seq<seq<Mark<CapsuleKind>>>)
    returns (carries: seq<ForeignCarry>)
    requires Tallied(carried, log)
    ensures carries == CarriesIn(log)
  {
    carries := [];
    for n := 0 to |CAPSULE_KINDS|
      invariant carries == Concat(CarryLines(log), n)
    {
      var kind := CAPSULE_KINDS[n];
      assert CarryLines(log)[n] == CarryLine(log, kind);
      var t := TallyIn(carried, kind);
      if t.events > 0 {
        carries := carries + [ForeignCarry(kind, t.events, t.capsules, t.bytes)];
      }
    }
  }

  lemma MatchingIsOneToOne(s: Serde, src: seq<Event>, tgt: seq<Event>, vendor: string)
    ensures OneToOne(CrossingOf(s, src, tgt, vendor))
  {
    var c := CrossingOf(s, src, tgt, vendor);
    forall i, j | 0 <= i < j < |c.matched| && c.matched[i].Some?
      ensures c.matched[i] != c.matched[j]
    {
      if c.matched[j].Some? {
        MatchesIncrease(Shapes(c.src), Shapes(c.tgt), i, j);
      }
    }
  }

  /** `compare_replays` */
  method CompareReplays(s: Serde, src: seq<Event>, tgt: seq<Event>, vendor: string) returns (report: Comparison)
    ensures report == Compared(CrossingOf(s, src, tgt, vendor))
  {
    var source, target := ReduceAll(s, src), ReduceAll(s, tgt);
    var texts := Counted(TextKeys(target));
    var matched;
    ghost var want := CrossingOf(s, src, tgt, vendor);
    matched, texts := MatchEvents(source, target, vendor, texts, want);
    var c := Crossing(source, target, vendor, matched);
    MatchingIsOneToOne(s, src, tgt, vendor);
    SpendNothing(SpareText(c));
    var sealed, tallies, carried;
    sealed, texts, tallies, carried := JudgeEvents(c, texts);
    var added := CountAdded(c, texts);
    var predicted := ListLosses(tallies, Predicted, Log(c, |c.src|));
    var degraded := ListLosses(tallies, Degraded, Log(c, |c.src|));
    var unexplained := ListLosses(tallies, Unexplained, Log(c, |c.src|));
    var carries := ListCarries(carried, CarriedLog(c, |c.src|));
    report := Comparison(|c.src|, |c.tgt|, added, |SealedKeys(c.src)|, |SealedKeys(c.tgt)|,
                         predicted, degraded, unexplained, carries);
  }
}
