/** Reducing an event to what a conversion must preserve: its shape (the whole
    serialised body) and its substance (what the model reads of it).

    `digest` is modelled as the identity, so keys are the strings the source
    would hash: two keys are equal exactly when the hashed strings are. */
module Reduce {
  import opened Text
  import opened Ir

  /** The JSON library: how a body and a value print, and what text parses. */
  datatype Serde = Serde(body: Body -> string, json: Json -> string, parse: string -> Option<Json>)

  /** Every scalar of a JSON value in order, keys excluded. */
  function Leaves(v: Json): seq<string> {
    match v
    case Null => []
    case Bool(flag) => [if flag then "true" else "false"]
    case Number(digits) => [digits]
    case Str(text) => [text]
    case Arr(items) => ItemLeaves(items)
    case Obj(fields) => FieldLeaves(fields)
  }

  function ItemLeaves(items: seq<Json>): seq<string> {
    if items == [] then [] else Leaves(items[0]) + ItemLeaves(items[1..])
  }

  function FieldLeaves(fields: seq<Field>): seq<string> {
    if fields == [] then [] else Leaves(fields[0].value) + FieldLeaves(fields[1..])
  }

  function NonBlank(lines: seq<string>): seq<string> {
    if lines == [] then []
    else if Blank(lines[0]) then NonBlank(lines[1..])
    else [lines[0]] + NonBlank(lines[1..])
  }

  function TextOrJson(s: Serde, text: string): Json {
    var parsed := s.parse(text);
    if parsed.Some? then parsed.value else Str(text)
  }

  /** A call's arguments with the calling convention normalised away. */
  function ToolArguments(s: Serde, input: ToolInput): Json {
    match input
    case Freeform(text) => TextOrJson(s, text)
    case JsonArgs(Null, Some(text)) => TextOrJson(s, text)
    case JsonArgs(value, _) => value
  }

  function BlockPayload(s: Serde, b: Block): string {
    match b
    case TextBlock(text) => text
    case Image(url, _) => url
    case Document(data) => s.json(data)
    case Redacted(_) => ""
    case UnknownBlock(_, raw) => s.json(raw)
  }

  function Payloads(s: Serde, blocks: seq<Block>): seq<string> {
    if blocks == [] then [] else [BlockPayload(s, blocks[0])] + Payloads(s, blocks[1..])
  }

  /** What the model reads of a body, as keys. */
  function Substance(s: Serde, b: Body): seq<string> {
    match b
    case Message(_, blocks) => NonBlank(Payloads(s, blocks))
    case ToolResult(_, _, output, _) => NonBlank(Payloads(s, output))
    case ToolCall(_, name, _, input) => ["call:" + name] + NonBlank(Leaves(ToolArguments(s, input)))
    case Reasoning(text, summary) => NonBlank((if text.Some? then [text.value] else []) + summary)
    case Compaction(_, _, _, _, _) => [s.body(b)]
    case SealedContext(_, _) => [s.body(b)]
    case TurnConfig(_, _, _, _, _, _) => [s.body(b)]
    case EnvSnapshot(_) => [s.body(b)]
    case Attachment(_, _) => [s.body(b)]
    case Rollback(_) => [s.body(b)]
    case Abort => [s.body(b)]
    case Control(_, _) => [s.body(b)]
    case Unknown(_, _) => [s.body(b)]
  }

  /** The report line a body goes under when it is gone, or when it survived in
      another shape. */
  function LossKindOf(b: Body, survived: bool): LossKind {
    match b
    case Reasoning(_, _) => ReasoningLoss
    case SealedContext(_, _) => SealedContextLoss
    case ToolCall(_, _, _, _) => ToolProtocolLoss
    case ToolResult(_, _, _, _) => ToolProtocolLoss
    case Message(_, blocks) =>
      if exists m | m in blocks :: m.Image? || m.Document? then MediaLoss
      else if !survived then ConversationLoss
      else MetadataLoss
    case Compaction(_, _, _, _, _) => MetadataLoss
    case TurnConfig(_, _, _, _, _, _) => MetadataLoss
    case EnvSnapshot(_) => MetadataLoss
    case Attachment(_, _) => MetadataLoss
    case Rollback(_) => MetadataLoss
    case Abort => MetadataLoss
    case Control(_, _) => MetadataLoss
    case Unknown(_, _) => MetadataLoss
  }

  function CapsuleLossKind(kind: CapsuleKind): LossKind {
    if kind.OpenaiCompactedContext? then SealedContextLoss else ReasoningLoss
  }

  /** The fidelity a report line of a kind lowers the report to. */
  function GradeOf(kind: LossKind, survived: bool): Fidelity {
    match kind
    case SealedContextLoss => HistoryIncomplete
    case ConversationLoss => HistoryIncomplete
    case ReasoningLoss => if survived then ConversationOnly else ContextNoReasoning
    case MediaLoss => if survived then ConversationOnly else HistoryIncomplete
    case ToolProtocolLoss => if survived then ConversationOnly else HistoryIncomplete
    case MetadataLoss => if survived then ConversationOnly else HistoryIncomplete
  }

  /** All the comparator reads of an event. */
  datatype Item = Item(
    shape: string,
    content: seq<string>,
    capsules: seq<Capsule>,
    sealedContext: bool,
    gone: LossKind,
    reshaped: LossKind)

  function ReduceEvent(s: Serde, e: Event): Item {
    Item(s.body(e.body), Substance(s, e.body), e.capsules, e.body.SealedContext?,
         LossKindOf(e.body, false), LossKindOf(e.body, true))
  }

  function ReduceAll(s: Serde, events: seq<Event>): seq<Item> {
    seq(|events|, i requires 0 <= i < |events| => ReduceEvent(s, events[i]))
  }

  // ---------------------------------------------------------------------------
  // What the reduction of a tool call is blind to, and what it is not
  // ---------------------------------------------------------------------------

  lemma {:induction false} NonBlankAppend(a: seq<string>, b: seq<string>)
    ensures NonBlank(a + b) == NonBlank(a) + NonBlank(b)
  {
    if a == [] {
      assert a + b == b;
    } else {
      assert (a + b)[1..] == a[1..] + b;
      NonBlankAppend(a[1..], b);
    }
  }

  lemma {:induction false} FieldLeavesAppend(a: seq<Field>, b: seq<Field>)
    ensures FieldLeaves(a + b) == FieldLeaves(a) + FieldLeaves(b)
  {
    if a == [] {
      assert a + b == b;
    } else {
      assert (a + b)[1..] == a[1..] + b;
      FieldLeavesAppend(a[1..], b);
    }
  }

  lemma FieldLeavesBetween(before: seq<Field>, field: Field, after: seq<Field>)
    ensures FieldLeaves(before + after) == FieldLeaves(before) + FieldLeaves(after)
    ensures FieldLeaves(before + ([field] + after)) == FieldLeaves(before) + (Leaves(field.value) + FieldLeaves(after))
  {
    FieldLeavesAppend(before, after);
    FieldLeavesAppend(before, [field] + after);
    assert ([field] + after)[1..] == after;
  }

  lemma Around<T>(items: seq<T>, i: nat)
    requires i < |items|
    ensures items == items[..i] + ([items[i]] + items[i + 1..])
  {
  }

  /** Keeping the readable ones only splits the same way. */
  lemma NonBlankAround(head: seq<string>, one: seq<string>, tail: seq<string>)
    ensures NonBlank(head + tail) == NonBlank(head) + NonBlank(tail)
    ensures NonBlank(head + (one + tail)) == NonBlank(head) + (NonBlank(one) + NonBlank(tail))
  {
    NonBlankAppend(head, tail);
    NonBlankAppend(head, one + tail);
    NonBlankAppend(one, tail);
  }

  /** The readable scalars of an object, split around one of its fields. */
  lemma SplitAtField(fields: seq<Field>, i: nat)
    requires i < |fields|
    ensures
      var head, tail := NonBlank(FieldLeaves(fields[..i])), NonBlank(FieldLeaves(fields[i + 1..]));
      && NonBlank(FieldLeaves(fields[..i] + fields[i + 1..])) == head + tail
      && NonBlank(FieldLeaves(fields)) == head + (NonBlank(Leaves(fields[i].value)) + tail)
  {
    Around(fields, i);
    FieldLeavesBetween(fields[..i], fields[i], fields[i + 1..]);
    NonBlankAround(FieldLeaves(fields[..i]), Leaves(fields[i].value), FieldLeaves(fields[i + 1..]));
  }

  lemma ObjectCall(s: Serde, call: Body, fields: seq<Field>)
    requires call.ToolCall? && call.input.JsonArgs? && call.input.value == Obj(fields)
    ensures Substance(s, call) == ["call:" + call.name] + NonBlank(FieldLeaves(fields))
  {
  }

  /** A call is missed one of its arguments exactly when the argument held anything
      readable, whatever text either side keeps the arguments in. */
  lemma DeletedArgumentIsMissedIff(s: Serde, call: Body, fields: seq<Field>, i: nat, original: Option<string>)
    requires call.ToolCall? && call.input.JsonArgs? && call.input.value == Obj(fields)
    requires i < |fields|
    ensures
      var cut := call.(input := JsonArgs(Obj(fields[..i] + fields[i + 1..]), original));
      multiset(Substance(s, cut)) < multiset(Substance(s, call)) <==> NonBlank(Leaves(fields[i].value)) != []
  {
    var rest := fields[..i] + fields[i + 1..];
    SplitAtField(fields, i);
    ObjectCall(s, call, fields);
    ObjectCall(s, call.(input := JsonArgs(Obj(rest), original)), rest);
    var head, tail := NonBlank(FieldLeaves(fields[..i])), NonBlank(FieldLeaves(fields[i + 1..]));
    MoreKeysIff("call:" + call.name, head, NonBlank(Leaves(fields[i].value)), tail);
  }

  lemma MoreKeysIff(name: string, head: seq<string>, one: seq<string>, tail: seq<string>)
    ensures multiset([name] + (head + tail)) < multiset([name] + (head + (one + tail))) <==> one != []
  {
    assert multiset([name] + (head + (one + tail))) == multiset([name] + (head + tail)) + multiset(one);
    if one != [] {
      assert one[0] in multiset(one);
    }
  }

  lemma {:induction false} PayloadsAppend(s: Serde, a: seq<Block>, b: seq<Block>)
    ensures Payloads(s, a + b) == Payloads(s, a) + Payloads(s, b)
  {
    if a == [] {
      assert a + b == b;
    } else {
      assert (a + b)[1..] == a[1..] + b;
      PayloadsAppend(s, a[1..], b);
    }
  }

  lemma PayloadsBetween(s: Serde, before: seq<Block>, b: Block, after: seq<Block>)
    ensures Payloads(s, before + after) == Payloads(s, before) + Payloads(s, after)
    ensures Payloads(s, before + ([b] + after)) == Payloads(s, before) + ([BlockPayload(s, b)] + Payloads(s, after))
  {
    PayloadsAppend(s, before, after);
    PayloadsAppend(s, before, [b] + after);
    assert ([b] + after)[1..] == after;
  }

  /** The readable payloads of a list of blocks, split around one of them. */
  lemma SplitAtBlock(s: Serde, blocks: seq<Block>, i: nat)
    requires i < |blocks|
    ensures
      var head, tail := NonBlank(Payloads(s, blocks[..i])), NonBlank(Payloads(s, blocks[i + 1..]));
      && NonBlank(Payloads(s, blocks[..i] + blocks[i + 1..])) == head + tail
      && NonBlank(Payloads(s, blocks)) == head + (NonBlank([BlockPayload(s, blocks[i])]) + tail)
  {
    Around(blocks, i);
    PayloadsBetween(s, blocks[..i], blocks[i], blocks[i + 1..]);
    NonBlankAround(Payloads(s, blocks[..i]), [BlockPayload(s, blocks[i])], Payloads(s, blocks[i + 1..]));
  }

  lemma MoreLines(head: seq<string>, one: seq<string>, tail: seq<string>)
    ensures multiset(head + (one + tail)) == multiset(head + tail) + multiset(one)
  {
  }

  /** The blocks of a message or of a tool result. */
  function BlocksOf(b: Body): seq<Block>
    requires b.Message? || b.ToolResult?
  {
    if b.Message? then b.blocks else b.output
  }

  function WithBlocks(b: Body, blocks: seq<Block>): Body
    requires b.Message? || b.ToolResult?
  {
    if b.Message? then b.(blocks := blocks) else b.(output := blocks)
  }

  /** A message or a tool result is missed a block exactly when the block had
      anything to read. */
  lemma DeletedBlockIsMissedIff(s: Serde, b: Body, i: nat)
    requires (b.Message? || b.ToolResult?) && i < |BlocksOf(b)|
    ensures
      var cut := WithBlocks(b, BlocksOf(b)[..i] + BlocksOf(b)[i + 1..]);
      multiset(Substance(s, cut)) < multiset(Substance(s, b)) <==> !Blank(BlockPayload(s, BlocksOf(b)[i]))
  {
    var blocks := BlocksOf(b);
    var one := BlockPayload(s, blocks[i]);
    var head, tail := NonBlank(Payloads(s, blocks[..i])), NonBlank(Payloads(s, blocks[i + 1..]));
    SplitAtBlock(s, blocks, i);
    OneLine(one, one);
    MoreLinesIff(head, NonBlank([one]), tail);
  }

  lemma MoreLinesIff(head: seq<string>, one: seq<string>, tail: seq<string>)
    ensures multiset(head + tail) < multiset(head + (one + tail)) <==> one != []
  {
    MoreLines(head, one, tail);
    if one != [] {
      assert one[0] in multiset(one);
    } else {
      assert multiset(one) == multiset{};
    }
  }

  lemma ReasoningLines(s: Serde, text: Option<string>, summary: seq<string>)
    ensures Substance(s, Reasoning(text, summary)) ==
            (if text.Some? then NonBlank([text.value]) else []) + NonBlank(summary)
  {
    NonBlankAppend(if text.Some? then [text.value] else [], summary);
  }

  lemma NonBlankMiddle(before: seq<string>, line: seq<string>, after: seq<string>)
    ensures NonBlank(before + line + after) == NonBlank(before) + NonBlank(line) + NonBlank(after)
  {
    NonBlankAppend(before + line, after);
    NonBlankAppend(before, line);
  }

  lemma MovedLines(before: seq<string>, line: seq<string>, after: seq<string>)
    ensures multiset([] + (before + line + after)) == multiset(line + (before + after))
  {
  }

  /** Readable reasoning is one pool: text that arrives as a line of the summary
      is not missed. */
  lemma ReasoningIsOnePool(s: Serde, text: string, before: seq<string>, after: seq<string>)
    ensures multiset(Substance(s, Reasoning(None, before + [text] + after))) ==
            multiset(Substance(s, Reasoning(Some(text), before + after)))
  {
    ReasoningLines(s, None, before + [text] + after);
    ReasoningLines(s, Some(text), before + after);
    NonBlankMiddle(before, [text], after);
    NonBlankAppend(before, after);
    MovedLines(NonBlank(before), NonBlank([text]), NonBlank(after));
  }

  /** What the comparator needs of the library: bodies that print alike are read
      alike. */
  ghost predicate PrintsTellContent(s: Serde) {
    forall a, b :: s.body(a) == s.body(b) ==> Substance(s, a) == Substance(s, b)
  }

  function NullAsNone(field: Option<Json>): Option<Json> {
    if field == Some(Null) then None else field
  }

  /** A body with every optional JSON field that holds `null` left out. */
  function NullBlind(b: Body): Body {
    match b
    case ToolResult(_, _, _, structured) => b.(structured := NullAsNone(structured))
    case TurnConfig(_, _, sandbox, approval, personality, _) =>
      b.(sandbox := NullAsNone(sandbox), approval := NullAsNone(approval), personality := NullAsNone(personality))
    case _ => b
  }

  /** Only a field that holds `null` is left out. */
  lemma NullBlindIff(b: Body)
    ensures NullBlind(b) == b <==>
            && (b.ToolResult? ==> b.structured != Some(Null))
            && (b.TurnConfig? ==> b.sandbox != Some(Null) && b.approval != Some(Null) && b.personality != Some(Null))
  {
  }

  /** The library itself: an absent field and a `null` one print alike, and nothing
      else does. */
  ghost predicate PrintsUpToNull(s: Serde) {
    forall a, b :: s.body(a) == s.body(b) <==> NullBlind(a) == NullBlind(b)
  }

  /** Such a library tells bodies apart as far as they are read. */
  lemma UpToNullTellsContent(s: Serde)
    requires PrintsUpToNull(s)
    ensures PrintsTellContent(s)
  {
    forall a, b | s.body(a) == s.body(b)
      ensures Substance(s, a) == Substance(s, b)
    {
      assert NullBlind(a) == NullBlind(b);
    }
  }

  /** It does not tell all bodies apart: a tool result whose structured companion
      is `null` passes for one that has none. */
  lemma NullCompanionIsNotSeen(s: Serde, callId: string, outcome: ToolOutcome, output: seq<Block>)
    requires PrintsUpToNull(s)
    ensures
      var without, with := ToolResult(callId, outcome, output, None), ToolResult(callId, outcome, output, Some(Null));
      s.body(without) == s.body(with) && without != with
  {
    assert NullBlind(ToolResult(callId, outcome, output, Some(Null))) == ToolResult(callId, outcome, output, None);
  }

  /** A loss is named by whether the content survived only for a message without
      media: gone, it is conversation; reshaped, metadata. */
  lemma KindTellsSurvivalIff(b: Body)
    ensures LossKindOf(b, true) != LossKindOf(b, false) <==>
            b.Message? && !exists m | m in b.blocks :: m.Image? || m.Document?
    ensures LossKindOf(b, false) == ConversationLoss <==> LossKindOf(b, true) != LossKindOf(b, false)
  {
  }

  /** Reshaping is graded no worse than losing, but for reasoning: there the loss
      gets the better grade of the two. */
  lemma ReshapingIsNoWorseIff(kind: LossKind)
    ensures GradeOf(kind, true).Rank() <= GradeOf(kind, false).Rank() <==> !kind.ReasoningLoss?
    ensures GradeOf(kind, true) == GradeOf(kind, false) <==> kind.SealedContextLoss? || kind.ConversationLoss?
  {
  }

  /** `ToolInput::from_json_field` on text. */
  function FromJsonText(s: Serde, text: string): ToolInput {
    var parsed := s.parse(text);
    var value := if parsed.Some? then parsed.value else Null;
    JsonArgs(value, if s.json(value) == text then None else Some(text))
  }

  /** Reading arguments from a string loses nothing: the string is the original text
      if one is kept, which it is exactly when the value does not print as it, and
      otherwise what the value prints as. */
  lemma FromJsonTextKeepsText(s: Serde, text: string)
    ensures
      var input := FromJsonText(s, text);
      && (if input.original.Some? then input.original.value else s.json(input.value)) == text
      && (input.original.None? <==> s.json(input.value) == text)
      && (s.parse(text).Some? ==> input.value == s.parse(text).value)
      && (s.parse(text).None? ==> input.value == Null)
  {
  }

  /** Arguments recorded as a JSON string and the same text recorded freeform
      have one substance, parse or no parse. The library must read back its own
      `null`; otherwise unparsable text could pass for an absent original. */
  lemma ConventionIsNormalisedAway(s: Serde, call: Body, text: string)
    requires call.ToolCall?
    requires s.parse(s.json(Null)) == Some(Null)
    ensures Substance(s, call.(input := FromJsonText(s, text))) ==
            Substance(s, call.(input := Freeform(text)))
  {
    if s.parse(text) == None {
      assert s.json(Null) != text;
    }
  }

  /** How the Claude Code writer coerces a freeform text to an object. */
  function CoerceText(s: Serde, text: string): Json {
    var parsed := s.parse(text);
    if parsed.Some? && parsed.value.Obj? then parsed.value else Obj([Field("value", Str(text))])
  }

  /** Whether the readable scalars of what a freeform text parses as are the text
      itself, by kind of value. */
  predicate ReadsAs(value: Json, text: string) {
    match value
    case Null => Blank(text)
    case Bool(flag) => text == if flag then "true" else "false"
    case Number(digits) => text == digits || (Blank(text) && Blank(digits))
    case Str(inner) => text == inner || (Blank(text) && Blank(inner))
    case Arr(items) => NonBlank(ItemLeaves(items)) == if Blank(text) then [] else [text]
    case Obj(_) => true
  }

  lemma OneLine(a: string, b: string)
    ensures NonBlank([a]) == if Blank(a) then [] else [a]
    ensures NonBlank([a]) == NonBlank([b]) <==> a == b || (Blank(a) && Blank(b))
  {
    assert [a][1..] == [] && [b][1..] == [];
    assert [a][0] == a && [b][0] == b;
  }

  lemma ReadsAsIff(value: Json, text: string)
    requires !value.Obj?
    ensures NonBlank(Leaves(value)) == NonBlank([text]) <==> ReadsAs(value, text)
  {
    match value
    case Null => OneLine(text, text);
    case Bool(flag) =>
      var printed := if flag then "true" else "false";
      OneLine(printed, text);
      assert !IsSpace(printed[0]);
    case Number(digits) => OneLine(digits, text);
    case Str(inner) => OneLine(inner, text);
    case Arr(_) => OneLine(text, text);
    case Obj(_) =>
  }

  /** A freeform call written as `{"value": text}`, or as the object the text
      already is, keeps its substance exactly when the text does not parse, parses
      as an object, or parses as a value that reads as the text. */
  lemma CoercionKeepsTheCall(s: Serde, call: Body, text: string)
    requires call.ToolCall?
    ensures
      Substance(s, call.(input := JsonArgs(CoerceText(s, text), None))) ==
      Substance(s, call.(input := Freeform(text)))
      <==>
      s.parse(text).None? || ReadsAs(s.parse(text).value, text)
  {
    var parsed := s.parse(text);
    var coerced := call.(input := JsonArgs(CoerceText(s, text), None));
    var free := call.(input := Freeform(text));
    var name := ["call:" + call.name];
    if parsed.None? || !parsed.value.Obj? {
      var fields := [Field("value", Str(text))];
      assert fields[1..] == [];
      assert FieldLeaves(fields) == Leaves(fields[0].value) + FieldLeaves(fields[1..]) == [text];
      assert Substance(s, coerced) == name + NonBlank([text]);
      var mine := if parsed.None? then [text] else Leaves(parsed.value);
      assert Substance(s, free) == name + NonBlank(mine);
      assert (name + NonBlank([text]))[1..] == NonBlank([text]);
      assert (name + NonBlank(mine))[1..] == NonBlank(mine);
      if parsed.Some? {
        ReadsAsIff(parsed.value, text);
      }
    }
  }

  /** A freeform text that is a JSON array of two numbers does not survive the
      coercion in the comparator's eyes. */
  lemma CoercionMissesAnArray(s: Serde, call: Body)
    requires call.ToolCall?
    requires s.parse("[1,2]") == Some(Arr([Number("1"), Number("2")]))
    ensures Substance(s, call.(input := JsonArgs(CoerceText(s, "[1,2]"), None))) !=
            Substance(s, call.(input := Freeform("[1,2]")))
  {
    var items := [Number("1"), Number("2")];
    assert items[1..] == [Number("2")];
    assert ItemLeaves(items[1..]) == ["2"];
    assert ItemLeaves(items) == ["1"] + ["2"];
    assert !Blank("1") && !Blank("2") by { assert "1"[0] == '1' && "2"[0] == '2'; }
    assert NonBlank(["1", "2"]) == ["1", "2"] by {
      assert ["1", "2"][1..] == ["2"];
      assert ["2"][1..] == [];
    }
    assert Leaves(Arr(items)) == ["1", "2"];
    assert |NonBlank(["[1,2]"])| <= 1 by { assert ["[1,2]"][1..] == []; }
    CoercionKeepsTheCall(s, call, "[1,2]");
  }
}
