/**
 * The earlier, list-based conversation server: a global list of session
 * records, a linear search over it, record builders, and the branch of the
 * request handler that resolves which session a request continues.
 */
module LegacySession {
  import opened Base
  import opened Protocol

  const ConflictMessage: string := "Create new session failed: session id confilct."
  const NotFoundMessage: string := "Cannot find the conversation."
  const ErrorBody: string := "ERROR"

  /** A message record `{id, contentType, content, author: {role}}`. */
  datatype LegacyMessage = LegacyMessage(id: string, contentType: string, content: string, role: Role)

  /** A control record `{signal}`. */
  datatype LegacyControl = LegacyControl(signal: string)

  /** The only agent this server attaches: the stub test agent. */
  datatype LegacyAgent = TestAgent

  datatype PayloadType = MessageType | ControlType

  /** A `PostResponseSuccess` record (`status: "success"`), also used as the session itself. */
  datatype SessionRecord = SessionRecord(id: string, payloadType: PayloadType, message: Option<LegacyMessage>,
                                         control: Option<LegacyControl>, chatAgent: Option<LegacyAgent>)

  /** A `PostResponseFail` record (`status: "fail"`). */
  datatype FailRecord = FailRecord(reason: string)

  /** A JavaScript `Error`: only its message matters here. */
  datatype ErrorValue = ErrorValue(message: string)

  /** No two records share an id. */
  predicate IdsDistinct(sessions: seq<SessionRecord>)
  {
    forall i, j :: 0 <= i < j < |sessions| ==> sessions[i].id != sessions[j].id
  }

  /** The index of the first record with this id, or -1. */
  function Find(sessions: seq<SessionRecord>, id: string): (r: int)
    ensures -1 <= r < |sessions|
    ensures r >= 0 ==> sessions[r].id == id && forall j :: 0 <= j < r ==> sessions[j].id != id
    ensures r == -1 <==> forall j :: 0 <= j < |sessions| ==> sessions[j].id != id
    decreases |sessions|
  {
    if sessions == [] then -1
    else if sessions[0].id == id then 0
    else
      var k := Find(sessions[1..], id);
      if k == -1 then -1 else k + 1
  }

  /** `findSession`: the source's forward loop with an early return. */
  method FindSession(sessions: seq<SessionRecord>, id: string) returns (index: int)
    ensures -1 <= index < |sessions|
    ensures index >= 0 ==> sessions[index].id == id && forall j :: 0 <= j < index ==> sessions[j].id != id
    ensures index == -1 ==> forall j :: 0 <= j < |sessions| ==> sessions[j].id != id
    ensures index == Find(sessions, id)
  {
    index := 0;
    while index < |sessions|
      invariant 0 <= index <= |sessions|
      invariant forall j :: 0 <= j < index ==> sessions[j].id != id
    {
      if sessions[index].id == id {
        return;
      }
      index := index + 1;
    }
    return -1;
  }

  /** `getNewSession`: a fresh message-type record for `uuid`, unless `uuid` is taken. */
  function GetNewSession(sessions: seq<SessionRecord>, uuid: string): (r: Result<SessionRecord, ErrorValue>)
    ensures r.Err? <==> exists j :: 0 <= j < |sessions| && sessions[j].id == uuid
    ensures r.Err? ==> r.error == ErrorValue(ConflictMessage)
    ensures r.Ok? ==> r.value.id == uuid && r.value.payloadType == MessageType
    ensures r.Ok? ==> r.value.message.None? && r.value.control.None? && r.value.chatAgent.None?
  {
    if Find(sessions, uuid) != -1 then Err(ErrorValue(ConflictMessage))
    else Ok(SessionRecord(uuid, MessageType, None, None, None))
  }

  /** `getErrorSession`: the failure record carrying the error's message. */
  function GetErrorSession(e: ErrorValue): (r: FailRecord)
    ensures r.reason == e.message
  {
    FailRecord(e.message)
  }

  /** `getNewMessage`: an assistant message holding the agent's response. */
  function GetNewMessage(response: string, uuid: string): (m: LegacyMessage)
    ensures m.role == Assistant && m.contentType == "message"
    ensures m.content == response && m.id == uuid
  {
    LegacyMessage(uuid, "message", response, Assistant)
  }

  /**
   * After the session-resolution branch: the list, the session selected (if
   * any), the failure records written, and the body the response was ended
   * with (`res.end("ERROR")`) when no session could be selected.
   */
  datatype Resolution = Resolution(sessions: seq<SessionRecord>, selected: Option<SessionRecord>,
                                   written: seq<FailRecord>, ended: Option<string>)

  /**
   * The branch of `eventHandlers` that picks the session: a request without
   * `id` gets a new session (pushed onto the list), one with `id` continues
   * the record found under it. `uuid` is the id `uuidv4()` generates.
   */
  function Resolve(sessions: seq<SessionRecord>, queryId: Option<string>, uuid: string): (r: Resolution)
    ensures r.selected.None? <==> r.ended == Some(ErrorBody)
    ensures r.selected.Some? ==> r.ended.None?
    ensures r.selected.None? ==> r.sessions == sessions && |r.written| == 1
    ensures r.selected.Some? ==> r.written == [] && r.selected.value in r.sessions
    ensures queryId.Some? ==> r.sessions == sessions
    ensures queryId.Some? && r.selected.Some? ==> r.selected.value.id == queryId.value
    ensures queryId.Some? && r.selected.Some? ==>
      exists j :: 0 <= j < |sessions| && sessions[j] == r.selected.value
                  && forall k :: 0 <= k < j ==> sessions[k].id != queryId.value
    ensures queryId.Some? && r.selected.None? ==>
      (forall j :: 0 <= j < |sessions| ==> sessions[j].id != queryId.value)
      && r.written == [FailRecord(NotFoundMessage)]
    ensures queryId.None? ==>
      (r.selected.Some? <==> forall j :: 0 <= j < |sessions| ==> sessions[j].id != uuid)
    ensures queryId.None? && r.selected.Some? ==>
      r.selected.value == SessionRecord(uuid, MessageType, None, None, None)
      && r.sessions == sessions + [r.selected.value]
    ensures queryId.None? && r.selected.None? ==> r.written == [FailRecord(ConflictMessage)]
  {
    match queryId
    case None =>
      (match GetNewSession(sessions, uuid)
       case Ok(s) => Resolution(sessions + [s], Some(s), [], None)
       case Err(e) => Resolution(sessions, None, [GetErrorSession(e)], Some(ErrorBody)))
    case Some(id) =>
      var index := Find(sessions, id);
      if index != -1 then Resolution(sessions, Some(sessions[index]), [], None)
      else Resolution(sessions, None, [GetErrorSession(ErrorValue(NotFoundMessage))], Some(ErrorBody))
  }

  /**
   * Resolution keeps the ids in the list pairwise distinct; the list grows by
   * exactly the new session, or not at all.
   */
  lemma ResolvePreservesDistinct(sessions: seq<SessionRecord>, queryId: Option<string>, uuid: string)
    requires IdsDistinct(sessions)
    ensures IdsDistinct(Resolve(sessions, queryId, uuid).sessions)
    ensures var s' := Resolve(sessions, queryId, uuid).sessions;
      s' == sessions || (|s'| == |sessions| + 1 && s'[..|sessions|] == sessions)
  {
    var r := Resolve(sessions, queryId, uuid);
    if queryId.None? && r.selected.Some? {
      var s' := r.sessions;
      assert s'[..|sessions|] == sessions;
      forall i, j | 0 <= i < j < |s'| ensures s'[i].id != s'[j].id {
        if j == |sessions| {
          assert s'[i] == sessions[i];
        } else {
          assert s'[i] == sessions[i] && s'[j] == sessions[j];
        }
      }
    }
  }

  /** One request's resolution inputs: its `id` query parameter and the UUID drawn for it. */
  datatype Arrival = Arrival(queryId: Option<string>, uuid: string)

  /** The list after resolving the requests, first to last. */
  function ServeAll(sessions: seq<SessionRecord>, rs: seq<Arrival>): seq<SessionRecord>
    decreases |rs|
  {
    if rs == [] then sessions
    else ServeAll(Resolve(sessions, rs[0].queryId, rs[0].uuid).sessions, rs[1..])
  }

  /** Any sequence of requests keeps the ids distinct and only ever appends. */
  lemma {:induction false} ServeAllPreservesDistinct(sessions: seq<SessionRecord>, rs: seq<Arrival>)
    requires IdsDistinct(sessions)
    ensures IdsDistinct(ServeAll(sessions, rs))
    ensures |ServeAll(sessions, rs)| >= |sessions| && ServeAll(sessions, rs)[..|sessions|] == sessions
    decreases |rs|
  {
    if rs != [] {
      var s1 := Resolve(sessions, rs[0].queryId, rs[0].uuid).sessions;
      ResolvePreservesDistinct(sessions, rs[0].queryId, rs[0].uuid);
      ServeAllPreservesDistinct(s1, rs[1..]);
      var s2 := ServeAll(s1, rs[1..]);
      assert s2[..|sessions|] == s2[..|s1|][..|sessions|];
    }
  }
}
