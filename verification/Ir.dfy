/** Session events, as the comparator, the budget and the closure check see them.

    Of an event the model keeps its id and visibility (the replay
    closure), its body and its sealed capsules. */
module Ir {
  import opened Text

  /** `serde_json::Value`. A number is carried as the text it prints as. */
  datatype Json =
    | Null
    | Bool(flag: bool)
    | Number(digits: string)
    | Str(text: string)
    | Arr(items: seq<Json>)
    | Obj(fields: seq<Field>)

  datatype Field = Field(name: string, value: Json)

  datatype Role = User | Assistant | System | Developer | Tool | Other(native: string)

  datatype ToolInput =
    | JsonArgs(value: Json, original: Option<string>)
    | Freeform(text: string)

  datatype ToolOutcome = Succeeded | Failed | Unrecorded

  datatype Block =
    | TextBlock(text: string)
    | Image(url: string, mediaType: Option<string>)
    | Document(data: Json)
    | Redacted(reason: Option<string>)
    | UnknownBlock(nativeType: Option<string>, raw: Json)

  datatype Body =
    | Message(role: Role, blocks: seq<Block>)
    | Reasoning(text: Option<string>, summary: seq<string>)
    | ToolCall(callId: string, name: string, space: Option<string>, input: ToolInput)
    | ToolResult(callId: string, outcome: ToolOutcome, output: seq<Block>, structured: Option<Json>)
    | Compaction(context: seq<string>, supersedes: seq<string>, note: Option<string>,
                 windowFrom: Option<string>, windowTo: Option<string>)
    | SealedContext(nativeId: Option<string>, meta: Json)
    | TurnConfig(model: Option<string>, effort: Option<string>, sandbox: Option<Json>,
                 approval: Option<Json>, personality: Option<Json>, instructions: Option<string>)
    | EnvSnapshot(data: Json)
    | Attachment(attachmentKind: string, data: Json)
    | Rollback(turns: nat)
    | Abort
    | Control(controlKind: string, data: Json)
    | Unknown(nativeType: Option<string>, raw: Json)
  {
    /** A rollback, an abort or a compaction: consumed by the fold, never shown. */
    predicate IsHistoryDirective() {
      Rollback? || Abort? || Compaction?
    }
  }

  datatype Visibility = Model | Ui | Telemetry | Unclassified

  datatype CapsuleKind =
    | AnthropicThinkingSignature
    | AnthropicRedactedThinking
    | OpenaiReasoningEncryptedContent
    | OpenaiCompactedContext
  {
    function Vendor(): string {
      if AnthropicThinkingSignature? || AnthropicRedactedThinking? then "anthropic" else "openai"
    }
  }

  datatype Capsule = Capsule(kind: CapsuleKind, sealed: string) {
    /** Whether a target on `vendor` speaks this capsule's format. */
    predicate FitsVendor(vendor: string) {
      AsciiLower(kind.Vendor()) == AsciiLower(Trim(vendor))
    }
  }

  datatype Event = Event(id: string, visibility: Visibility, body: Body, capsules: seq<Capsule>)

  function SealedBytes(capsules: seq<Capsule>): nat {
    if capsules == [] then 0
    else SealedBytes(capsules[..|capsules| - 1]) + ByteLen(capsules[|capsules| - 1].sealed)
  }

  /** Best first, as the source orders them. */
  datatype Fidelity =
    | ByteIdentical
    | NativeEquivalent
    | ContextComplete
    | ContextNoReasoning
    | ConversationOnly
    | TranscriptOnly
    | HistoryIncomplete
  {
    function Rank(): nat {
      match this
      case ByteIdentical => 0
      case NativeEquivalent => 1
      case ContextComplete => 2
      case ContextNoReasoning => 3
      case ConversationOnly => 4
      case TranscriptOnly => 5
      case HistoryIncomplete => 6
    }

    function WorseOf(other: Fidelity): Fidelity {
      if Rank() <= other.Rank() then other else this
    }
  }

  datatype LossKind =
    | ConversationLoss
    | MediaLoss
    | MetadataLoss
    | ReasoningLoss
    | SealedContextLoss
    | ToolProtocolLoss

  /** A loss report without its prose note. */
  datatype Loss = Loss(kind: LossKind, events: nat, capsules: nat, bytes: nat, grade: Fidelity)
}
