/**
 The Responses events the chat translation reads and the chat chunks it writes, with JSON
 objects as datatypes. Identifier fields hold what stringField returns (already trimmed);
 payload strings are kept verbatim.
 */
module ChatTypes {
  import opened Base

  datatype Part = Text(text: string) | Refusal(text: string) | OtherPart

  datatype Item =
    | Message(parts: seq<Part>)
    | Call(id: string, callId: string, name: string, arguments: string)
    | OtherItem

  datatype Status = Failed | Cancelled | Incomplete | OtherStatus

  datatype Usage = Usage(input: Option<int>, output: Option<int>, cached: Option<int>,
                         cacheWrite: Option<int>, reasoning: Option<int>, total: Option<int>)
  {
    predicate HasAny() {
      input.Some? || output.Some? || cached.Some? || cacheWrite.Some? || reasoning.Some? || total.Some?
    }
  }

  const NO_USAGE := Usage(None, None, None, None, None, None)

  /** `created` is what chatCompletionCreated yields, clock fallback included. */
  datatype Response = Response(id: string, model: string, created: int, status: Status,
                               output: seq<Item>, usage: Usage, tier: string)

  datatype Event =
    | Created(response: Option<Response>)  // response.created and response.in_progress
    | ItemAdded(item: Option<Item>, outputIndex: int)
    | ItemDone(item: Option<Item>, outputIndex: int)
    | TextDelta(outputIndex: int, contentIndex: int, delta: string)
    | RefusalDelta(outputIndex: int, contentIndex: int, delta: string)
    | ArgumentsDelta(itemId: string, outputIndex: int, delta: string)
    | Terminal(response: Option<Response>)  // response.completed, .done and .incomplete
    | ResponseFailed(response: Option<Response>)
    | ErrorEvent(message: string, summary: string)
    | OtherEvent

  /**
   The data of one SSE event, trimmed: nothing, the DONE mark, bad JSON or an event. An event's
   type is `exact` if it has no blanks around it; the translator does not mind those, the
   aggregator does.
   */
  datatype Payload = Blank | DoneMark | Malformed | Parsed(event: Event, size: nat, exact: bool)

  /** How the framer's input ended once no more events come. */
  datatype StreamEnd = EndOfStream | StreamError(message: string)

  predicate IsBlank(s: string) {
    forall i :: 0 <= i < |s| ==> IsSpace(s[i])
  }

  function ValueOr(value: string, fallback: string): string {
    if IsBlank(value) then fallback else value
  }

  function FinishReason(status: Status, hasToolCalls: bool): string {
    if status.Incomplete? then "length" else if hasToolCalls then "tool_calls" else "stop"
  }

  /** chatCompletionID of a nonempty upstream id. */
  function CompletionId(upstream: string): string {
    if "chatcmpl-" <= upstream then upstream
    else if "resp_" <= upstream then "chatcmpl-" + upstream[5..]
    else "chatcmpl-" + upstream
  }

  function Digits(n: nat): string {
    (if n < 10 then "" else Digits(n / 10)) + ["0123456789"[n % 10]]
  }

  function Itoa(n: int): string {
    if n < 0 then "-" + Digits(-n) else Digits(n)
  }

  function ToolKey(itemId: string, outputIndex: int): string {
    if itemId != "" then itemId else "output:" + Itoa(outputIndex)
  }

  datatype Header = Header(id: string, created: int, model: string, tier: string)

  datatype Delta =
    | Role
    | Content(text: string)
    | Refused(text: string)
    | ToolOpen(index: nat, id: string, name: string, arguments: string)
    | ToolMore(index: nat, arguments: string)
    | NoDelta

  datatype Chunk =
    | Choice(header: Header, delta: Delta, finish: Option<string>)
    | UsageOnly(header: Header, usage: Usage)
    | Error(message: string)
    | Done
}
