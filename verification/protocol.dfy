/**
 * The vocabulary of the conversation endpoint: the five agent statuses that
 * `query` consumes, chat messages, and the `PostResponse` payloads streamed to
 * the client together with their JSON form.
 */
module Protocol {
  import Json

  type SessionId = string

  /** One state transition reported by the chat agent. */
  datatype AgentStatus =
    | Pending
    | Started
    | Error(error: string)
    | Success(output: string)
    | Done

  /** The author role of a message. */
  datatype Role = User | Assistant

  /** A chat message as stored in the history log and carried by message responses. */
  datatype Message = Message(id: string, username: string, content: string, role: Role)

  /** The progress markers sent as control responses. */
  datatype Signal = GenerationPending | GenerationStarted | GenerationDone

  /**
   * A streamed payload: `{status:"fail", reason}`, a control response or a
   * message response (both `{status:"success", id, ...}`).
   */
  datatype PostResponse =
    | Fail(reason: string)
    | Control(id: SessionId, signal: Signal)
    | Reply(id: SessionId, message: Message)

  /** The wire name of a control signal. */
  function SignalName(s: Signal): (name: string)
    ensures |name| > 11 && name[..11] == "generation-"
  {
    match s
    case GenerationPending => "generation-pending"
    case GenerationStarted => "generation-started"
    case GenerationDone => "generation-done"
  }

  function RoleName(r: Role): string
  {
    match r
    case User => "user"
    case Assistant => "assistant"
  }

  function MessageJson(m: Message): Json.Json
  {
    Json.JObject([
      Json.Member("id", Json.JString(m.id)),
      Json.Member("username", Json.JString(m.username)),
      Json.Member("content", Json.JString(m.content)),
      Json.Member("author", Json.JObject([Json.Member("role", Json.JString(RoleName(m.role)))]))
    ])
  }

  /**
   * The object `JSON.stringify` serialises, members in the order the source
   * writes them: `status` first, `"fail"` for a failure and `"success"` otherwise.
   */
  function ResponseJson(r: PostResponse): (j: Json.Json)
    ensures j.JObject? && |j.members| >= 2
    ensures j.members[0] == Json.Member("status", Json.JString(if r.Fail? then "fail" else "success"))
  {
    match r
    case Fail(reason) =>
      Json.JObject([Json.Member("status", Json.JString("fail")), Json.Member("reason", Json.JString(reason))])
    case Control(id, signal) =>
      Json.JObject([
        Json.Member("status", Json.JString("success")),
        Json.Member("id", Json.JString(id)),
        Json.Member("type", Json.JString("control")),
        Json.Member("control", Json.JObject([Json.Member("signal", Json.JString(SignalName(signal)))]))
      ])
    case Reply(id, message) =>
      Json.JObject([
        Json.Member("status", Json.JString("success")),
        Json.Member("id", Json.JString(id)),
        Json.Member("type", Json.JString("message")),
        Json.Member("message", MessageJson(message))
      ])
  }

  /** Distinct signals have distinct wire names. */
  lemma SignalNameInjective(a: Signal, b: Signal)
    ensures SignalName(a) == SignalName(b) <==> a == b
  {
    if a != b {
      assert SignalName(a)[11] != SignalName(b)[11];
    }
  }

  /** Distinct roles have distinct wire names. */
  lemma RoleNameInjective(a: Role, b: Role)
    ensures RoleName(a) == RoleName(b) <==> a == b
  {
    if a != b {
      assert RoleName(a)[0] != RoleName(b)[0];
    }
  }

  /** The JSON object of a response determines the response. */
  lemma ResponseJsonInjective(a: PostResponse, b: PostResponse)
    ensures ResponseJson(a) == ResponseJson(b) <==> a == b
  {
    if ResponseJson(a) == ResponseJson(b) {
      if a.Control? && b.Control? {
        SignalNameInjective(a.signal, b.signal);
      } else if a.Reply? && b.Reply? {
        RoleNameInjective(a.message.role, b.message.role);
      }
    }
  }

  /** `JSON.stringify(postResponse)`: one line of text, whatever the strings it carries. */
  function Encode(r: PostResponse): (text: string)
    ensures Json.Printable(text)
    ensures '\n' !in text
  {
    var t := Json.Stringify(ResponseJson(r));
    assert forall k :: 0 <= k < |t| ==> t[k] != '\n';
    t
  }
}
