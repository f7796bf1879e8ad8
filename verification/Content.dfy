/** What the comparator reads of an event, kind by kind, and what it calls the
    loss of one. */
module Content {
  import opened Text
  import opened TextProofs
  import opened Ir
  import opened Reduce

  // ---------------------------------------------------------------------------
  // Lines that are not blank
  // ---------------------------------------------------------------------------

  ghost predicate Ascends(places: seq<nat>) {
    forall j, k :: 0 <= j < k < |places| ==> places[j] < places[k]
  }

  /** `kept` are the lines that are not blank, in order; `places` is where they
      stand. */
  ghost predicate Picks(lines: seq<string>, kept: seq<string>, places: seq<nat>) {
    && |places| == |kept| && Ascends(places)
    && (forall k :: 0 <= k < |kept| ==> places[k] < |lines| && kept[k] == lines[places[k]] && !Blank(kept[k]))
    && (forall i :: 0 <= i < |lines| && !Blank(lines[i]) ==> i in places)
  }

  function Shifted(places: seq<nat>): seq<nat> {
    seq(|places|, k requires 0 <= k < |places| => places[k] + 1)
  }

  lemma InShifted(places: seq<nat>, i: nat)
    requires i in places
    ensures i + 1 in Shifted(places)
  {
    var k :| 0 <= k < |places| && places[k] == i;
    assert Shifted(places)[k] == i + 1;
  }

  /** What is picked after the first line is picked from all, one place further. */
  lemma PicksLater(lines: seq<string>, kept: seq<string>, places: seq<nat>)
    requires lines != [] && Picks(lines[1..], kept, places) && Blank(lines[0])
    ensures Picks(lines, kept, Shifted(places))
  {
    LaterPlaces(lines, kept, places);
  }

  lemma PicksFirst(lines: seq<string>, kept: seq<string>, places: seq<nat>)
    requires lines != [] && Picks(lines[1..], kept, places) && !Blank(lines[0])
    ensures Picks(lines, [lines[0]] + kept, [0] + Shifted(places))
  {
    LaterPlaces(lines, kept, places);
    var all, keys := [0] + Shifted(places), [lines[0]] + kept;
    forall k | 0 <= k < |keys|
      ensures all[k] < |lines| && keys[k] == lines[all[k]] && !Blank(keys[k])
    {
      assert k > 0 ==> all[k] == places[k - 1] + 1 && keys[k] == kept[k - 1];
    }
    forall i | 0 <= i < |lines| && !Blank(lines[i])
      ensures i in all
    {
      assert i == 0 ==> all[0] == i;
      assert i > 0 ==> i in Shifted(places);
    }
    AscendsFirst(places);
  }

  lemma AscendsFirst(places: seq<nat>)
    requires Ascends(places)
    ensures Ascends([0] + Shifted(places))
  {
  }

  lemma LaterPlaces(lines: seq<string>, kept: seq<string>, places: seq<nat>)
    requires lines != [] && Picks(lines[1..], kept, places)
    ensures forall i :: 0 < i < |lines| && !Blank(lines[i]) ==> i in Shifted(places)
  {
    forall i | 0 < i < |lines| && !Blank(lines[i])
      ensures i in Shifted(places)
    {
      assert lines[1..][i - 1] == lines[i];
      InShifted(places, i - 1);
    }
  }

  lemma {:induction false} NonBlankPicks(lines: seq<string>) returns (places: seq<nat>)
    ensures Picks(lines, NonBlank(lines), places)
  {
    if lines == [] {
      places := [];
    } else {
      var more := NonBlankPicks(lines[1..]);
      if Blank(lines[0]) {
        PicksLater(lines, NonBlank(lines[1..]), more);
        places := Shifted(more);
      } else {
        PicksFirst(lines, NonBlank(lines[1..]), more);
        places := [0] + Shifted(more);
      }
    }
  }

  function Last(places: seq<nat>): nat
    requires places != []
  {
    places[|places| - 1]
  }

  function Init(places: seq<nat>): seq<nat>
    requires places != []
  {
    places[..|places| - 1]
  }

  lemma InAscending(places: seq<nat>, i: nat)
    requires Ascends(places) && places != []
    ensures i in places ==> i <= Last(places)
    ensures i in Init(places) <==> i in places && i != Last(places)
  {
    if i in places {
      var k :| 0 <= k < |places| && places[k] == i;
      assert k < |places| - 1 ==> Init(places)[k] == i;
    }
    if i in Init(places) {
      var k :| 0 <= k < |places| - 1 && Init(places)[k] == i;
      assert places[k] == i;
    }
  }

  ghost predicate Within(a: seq<nat>, b: seq<nat>) {
    forall i :: i in a ==> i in b
  }

  lemma SameLast(a: seq<nat>, b: seq<nat>)
    requires Ascends(a) && Ascends(b) && a != [] && b != [] && Within(a, b) && Within(b, a)
    ensures Last(a) == Last(b) && Within(Init(a), Init(b)) && Within(Init(b), Init(a))
  {
    assert Last(a) in a && Last(b) in b;
    InAscending(a, Last(b));
    InAscending(b, Last(a));
    forall i
      ensures i in Init(a) <==> i in Init(b)
    {
      InAscending(a, i);
      InAscending(b, i);
    }
  }

  /** Two ascending lists of the same places are one. */
  lemma {:induction false} SamePlaces(a: seq<nat>, b: seq<nat>)
    requires Ascends(a) && Ascends(b) && Within(a, b) && Within(b, a)
    ensures a == b
  {
    if a != [] && b != [] {
      SameLast(a, b);
      SamePlaces(Init(a), Init(b));
      assert a == Init(a) + [Last(a)] && b == Init(b) + [Last(b)];
    } else {
      assert forall i :: i !in a && i !in b by {
        if i :| i in a || i in b {
          assert i in a && i in b;
        }
      }
      NoneInIff(a);
      NoneInIff(b);
    }
  }

  lemma NoneInIff(places: seq<nat>)
    ensures places == [] <==> forall i :: i !in places
  {
    if places != [] {
      assert places[0] in places;
    }
  }

  lemma PicksOnce(lines: seq<string>, kept: seq<string>, places: seq<nat>)
    requires Picks(lines, kept, places)
    ensures kept == NonBlank(lines)
  {
    var others := NonBlankPicks(lines);
    SamePlaces(places, others);
  }

  /** What it is to be the readable lines of a list. */
  ghost predicate ReadableLines(lines: seq<string>, kept: seq<string>) {
    exists places :: Picks(lines, kept, places)
  }

  lemma NonBlankIff(lines: seq<string>, kept: seq<string>)
    ensures kept == NonBlank(lines) <==> ReadableLines(lines, kept)
  {
    var places := NonBlankPicks(lines);
    assert ReadableLines(lines, NonBlank(lines));
    if places :| Picks(lines, kept, places) {
      PicksOnce(lines, kept, places);
    }
  }

  // ---------------------------------------------------------------------------
  // Messages, results, reasoning
  // ---------------------------------------------------------------------------

  /** What is read of a block: the text of a text block, the address of an image,
      the printed value of a document or of a block of unknown type. A redaction
      has nothing to read. */
  predicate Shows(s: Serde, b: Block, text: string) {
    || b == TextBlock(text)
    || (b.Image? && b.url == text)
    || (b.Document? && s.json(b.data) == text)
    || (b.UnknownBlock? && s.json(b.raw) == text)
  }

  /** `keys` are what is read of the blocks, in order, what is blank left out. */
  ghost predicate ReadInOrder(s: Serde, blocks: seq<Block>, keys: seq<string>, places: seq<nat>) {
    && |places| == |keys| && Ascends(places)
    && (forall k :: 0 <= k < |keys| ==>
          places[k] < |blocks| && Shows(s, blocks[places[k]], keys[k]) && !Blank(keys[k]))
    && (forall i, text :: 0 <= i < |blocks| && Shows(s, blocks[i], text) && !Blank(text) ==> i in places)
  }

  lemma {:induction false} PayloadAt(s: Serde, blocks: seq<Block>, i: nat)
    requires i < |blocks|
    ensures |Payloads(s, blocks)| == |blocks|
    ensures Payloads(s, blocks)[i] == BlockPayload(s, blocks[i])
  {
    if |blocks| > 1 {
      PayloadAt(s, blocks[1..], if i == 0 then 0 else i - 1);
    }
  }

  lemma PayloadsMatch(s: Serde, blocks: seq<Block>)
    ensures |Payloads(s, blocks)| == |blocks|
    ensures forall i, text :: 0 <= i < |blocks| && !Blank(text) ==>
              (Shows(s, blocks[i], text) <==> Payloads(s, blocks)[i] == text)
  {
    if blocks != [] {
      PayloadAt(s, blocks, 0);
      forall i, text | 0 <= i < |blocks| && !Blank(text)
        ensures Shows(s, blocks[i], text) <==> Payloads(s, blocks)[i] == text
      {
        PayloadAt(s, blocks, i);
      }
    }
  }

  lemma ReadIffPicked(s: Serde, blocks: seq<Block>, keys: seq<string>, places: seq<nat>)
    ensures ReadInOrder(s, blocks, keys, places) <==> Picks(Payloads(s, blocks), keys, places)
  {
    PayloadsMatch(s, blocks);
  }

  /** The keys of a message and of a tool result are exactly what is read of its
      blocks. */
  lemma BlocksAreReadIff(s: Serde, b: Body, keys: seq<string>)
    requires b.Message? || b.ToolResult?
    ensures Substance(s, b) == keys <==> exists places :: ReadInOrder(s, BlocksOf(b), keys, places)
  {
    NonBlankIff(Payloads(s, BlocksOf(b)), keys);
    if places :| ReadInOrder(s, BlocksOf(b), keys, places) {
      ReadIffPicked(s, BlocksOf(b), keys, places);
    }
    if places :| Picks(Payloads(s, BlocksOf(b)), keys, places) {
      ReadIffPicked(s, BlocksOf(b), keys, places);
    }
  }

  /** Those of reasoning are its readable lines: the text if there is one, then the
      summary. */
  lemma ReasoningIsReadIff(s: Serde, b: Body, keys: seq<string>)
    requires b.Reasoning?
    ensures Substance(s, b) == keys <==>
            ReadableLines((if b.text.Some? then [b.text.value] else []) + b.summary, keys)
  {
    NonBlankIff((if b.text.Some? then [b.text.value] else []) + b.summary, keys);
  }

  /** Any other body but a tool call is read whole, as it prints. */
  lemma OthersAreReadWhole(s: Serde, b: Body)
    requires !b.Message? && !b.ToolResult? && !b.Reasoning? && !b.ToolCall?
    ensures Substance(s, b) == [s.body(b)]
  {
  }

  // ---------------------------------------------------------------------------
  // Tool calls
  // ---------------------------------------------------------------------------

  function Weight(v: Json): (n: nat)
    ensures n > 0
  {
    match v
    case Arr(items) => 1 + ItemsWeight(items)
    case Obj(fields) => 1 + ValuesWeight(fields)
    case _ => 1
  }

  function ItemsWeight(items: seq<Json>): nat {
    if items == [] then 0 else Weight(items[0]) + ItemsWeight(items[1..])
  }

  function ValuesWeight(fields: seq<Field>): nat {
    if fields == [] then 0 else Weight(fields[0].value) + ValuesWeight(fields[1..])
  }

  function Values(fields: seq<Field>): seq<Json> {
    seq(|fields|, i requires 0 <= i < |fields| => fields[i].value)
  }

  lemma {:induction false} WeightOfBoth(a: seq<Json>, b: seq<Json>)
    ensures ItemsWeight(a + b) == ItemsWeight(a) + ItemsWeight(b)
  {
    if a == [] {
      assert a + b == b;
    } else {
      assert (a + b)[1..] == a[1..] + b;
      WeightOfBoth(a[1..], b);
    }
  }

  lemma {:induction false} WeightOfValues(fields: seq<Field>)
    ensures ItemsWeight(Values(fields)) == ValuesWeight(fields)
  {
    if fields != [] {
      assert Values(fields)[1..] == Values(fields[1..]);
      WeightOfValues(fields[1..]);
    }
  }

  /** The scalars met on a walk through some values: the first value is taken off
      the list; a scalar is written down, a container is opened in its place. */
  function Walk(todo: seq<Json>): seq<string>
    decreases ItemsWeight(todo)
  {
    if todo == [] then []
    else
      var more := todo[1..];
      match todo[0]
      case Null => Walk(more)
      case Bool(flag) => [if flag then "true" else "false"] + Walk(more)
      case Number(digits) => [digits] + Walk(more)
      case Str(text) => [text] + Walk(more)
      case Arr(items) =>
        WeightOfBoth(items, more);
        assert Weight(todo[0]) == 1 + ItemsWeight(items);
        Walk(items + more)
      case Obj(fields) =>
        WeightOfBoth(Values(fields), more);
        WeightOfValues(fields);
        assert Weight(todo[0]) == 1 + ValuesWeight(fields);
        Walk(Values(fields) + more)
  }

  lemma {:induction false} ItemLeavesAppend(a: seq<Json>, b: seq<Json>)
    ensures ItemLeaves(a + b) == ItemLeaves(a) + ItemLeaves(b)
  {
    if a == [] {
      assert a + b == b;
    } else {
      assert (a + b)[1..] == a[1..] + b;
      ItemLeavesAppend(a[1..], b);
    }
  }

  lemma {:induction false} LeavesOfValues(fields: seq<Field>)
    ensures ItemLeaves(Values(fields)) == FieldLeaves(fields)
  {
    if fields != [] {
      assert Values(fields)[1..] == Values(fields[1..]);
      LeavesOfValues(fields[1..]);
    }
  }

  /** The leaves of a list of values are what a walk through them meets. */
  lemma {:induction false} LeavesAreWalked(todo: seq<Json>)
    ensures ItemLeaves(todo) == Walk(todo)
    decreases ItemsWeight(todo)
  {
    if todo != [] {
      var more := todo[1..];
      match todo[0]
      case Arr(items) =>
        WeightOfBoth(items, more);
        assert Weight(todo[0]) == 1 + ItemsWeight(items);
        ItemLeavesAppend(items, more);
        LeavesAreWalked(items + more);
      case Obj(fields) =>
        WeightOfBoth(Values(fields), more);
        WeightOfValues(fields);
        assert Weight(todo[0]) == 1 + ValuesWeight(fields);
        ItemLeavesAppend(Values(fields), more);
        LeavesOfValues(fields);
        LeavesAreWalked(Values(fields) + more);
      case _ => LeavesAreWalked(more);
    }
  }

  /** The text some arguments stand for, if they stand for text: freeform ones, and
      ones that are `null` with their original text beside them. */
  function TextOf(input: ToolInput): Option<string> {
    match input
    case Freeform(text) => Some(text)
    case JsonArgs(value, original) => if value == Null then original else None
  }

  /** What the arguments of a call are: the value their text parses as, the text
      itself when it does not parse, or the value they are. */
  ghost predicate Argues(s: Serde, input: ToolInput, v: Json) {
    match TextOf(input)
    case Some(text) => s.parse(text) == Some(v) || (s.parse(text) == None && v == Str(text))
    case None => input == JsonArgs(v, if input.JsonArgs? then input.original else None)
  }

  /** The keys of a call: its name, marked as a call, and then the readable scalars
      of its arguments in order. */
  lemma CallIsReadIff(s: Serde, b: Body, keys: seq<string>)
    requires b.ToolCall?
    ensures Substance(s, b) == keys <==>
            keys != [] && keys[0] == "call:" + b.name &&
            exists v :: Argues(s, b.input, v) && ReadableLines(Walk([v]), keys[1..])
  {
    var v := ToolArguments(s, b.input);
    assert Argues(s, b.input, v);
    assert forall w :: Argues(s, b.input, w) ==> w == v;
    LeavesAreWalked([v]);
    assert ItemLeaves([v]) == Leaves(v);
    if keys != [] {
      NonBlankIff(Walk([v]), keys[1..]);
      assert keys == [keys[0]] + keys[1..];
    }
  }

  // ---------------------------------------------------------------------------
  // The whole item
  // ---------------------------------------------------------------------------

  predicate IsMedia(b: Body) {
    b.Message? && exists i :: 0 <= i < |b.blocks| && (b.blocks[i].Image? || b.blocks[i].Document?)
  }

  /** What the loss of an event is called, for each kind of body. */
  predicate GoneAs(b: Body, kind: LossKind) {
    match kind
    case MediaLoss => IsMedia(b)
    case ConversationLoss => b.Message? && !IsMedia(b)
    case ReasoningLoss => b.Reasoning?
    case ToolProtocolLoss => b.ToolCall? || b.ToolResult?
    case SealedContextLoss => b.SealedContext?
    case MetadataLoss =>
      b.Compaction? || b.TurnConfig? || b.EnvSnapshot? || b.Attachment? || b.Rollback? || b.Abort? || b.Control? ||
      b.Unknown?
  }

  lemma GoneIff(s: Serde, e: Event, kind: LossKind)
    ensures ReduceEvent(s, e).gone == kind <==> GoneAs(e.body, kind)
  {
  }

  /** And when its content survived: the same, but that a message without media lost
      its form only. */
  lemma ReshapedIff(s: Serde, e: Event)
    ensures ReduceEvent(s, e).reshaped ==
            if ReduceEvent(s, e).gone == ConversationLoss then MetadataLoss else ReduceEvent(s, e).gone
  {
  }

  lemma ItemIsRead(s: Serde, e: Event)
    ensures
      var item := ReduceEvent(s, e);
      && item.shape == s.body(e.body)
      && item.content == Substance(s, e.body)
      && item.capsules == e.capsules
      && (item.sealedContext <==> e.body.SealedContext?)
  {
  }

  // ---------------------------------------------------------------------------
  // Whom a capsule is for
  // ---------------------------------------------------------------------------

  /** `t` is the word `w`, in capitals or not. */
  predicate Spells(t: string, w: string) {
    |t| == |w| &&
    forall i :: 0 <= i < |w| ==> t[i] == w[i] || (65 <= t[i] as int <= 90 && t[i] as int + 32 == w[i] as int)
  }

  /** The two vendors, and whose format is whose. */
  predicate IssuedBy(kind: CapsuleKind, w: string) {
    || (kind in {AnthropicThinkingSignature, AnthropicRedactedThinking} && w == "anthropic")
    || (kind in {OpenaiReasoningEncryptedContent, OpenaiCompactedContext} && w == "openai")
  }

  lemma LowerIff(t: string, w: string)
    requires forall i :: 0 <= i < |w| ==> 97 <= w[i] as int <= 122
    ensures AsciiLower(t) == w <==> Spells(t, w)
  {
    forall i | 0 <= i < |t| && i < |w|
      ensures AsciiLower(t)[i] == w[i] <==> t[i] == w[i] || (65 <= t[i] as int <= 90 && t[i] as int + 32 == w[i] as int)
    {
      assert AsciiLower(t)[i] == if 'A' <= t[i] <= 'Z' then (t[i] as int + 32) as char else t[i];
    }
  }

  /** `vendor` is the word `w`, white space around it and capitals aside. */
  ghost predicate Means(vendor: string, w: string) {
    exists before, t, behind :: Padded(vendor, before, t, behind) && Spells(t, w)
  }

  lemma MeansIff(vendor: string, w: string)
    requires w == "anthropic" || w == "openai"
    ensures Means(vendor, w) <==> AsciiLower(Trim(vendor)) == w
  {
    LowerIff(Trim(vendor), w);
    if AsciiLower(Trim(vendor)) == w {
      SpelledIsSolid(Trim(vendor), w);
      TrimIff(vendor, Trim(vendor));
      var before, behind :| Padded(vendor, before, Trim(vendor), behind);
    }
    if before, t, behind :| Padded(vendor, before, t, behind) && Spells(t, w) {
      SpelledIsSolid(t, w);
      TrimIff(vendor, t);
    }
  }

  lemma IssuerIff(kind: CapsuleKind, w: string)
    ensures IssuedBy(kind, w) <==> w == kind.Vendor()
    ensures AsciiLower(kind.Vendor()) == kind.Vendor()
  {
    LowerIff(kind.Vendor(), kind.Vendor());
  }

  /** A target speaks a capsule's format exactly when its vendor is the format's
      issuer. */
  lemma FitsVendorIff(cap: Capsule, vendor: string)
    ensures cap.FitsVendor(vendor) <==> exists w :: IssuedBy(cap.kind, w) && Means(vendor, w)
  {
    var w := cap.kind.Vendor();
    IssuerIff(cap.kind, w);
    MeansIff(vendor, w);
    if v :| IssuedBy(cap.kind, v) && Means(vendor, v) {
      IssuerIff(cap.kind, v);
    }
  }

  lemma SpelledIsSolid(t: string, w: string)
    requires Spells(t, w) && (w == "anthropic" || w == "openai")
    ensures Solid(t)
  {
    var n := |w| - 1;
    assert w[0] in {'a', 'o'} && w[n] in {'c', 'i'};
  }
}
