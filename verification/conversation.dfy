/**
 * The conversation endpoint with its I/O taken out: `query` maps agent
 * statuses to streamed responses, and `handleConversationPost` performs the
 * read-modify-write of the two history tables around one agent run. The
 * handler is a pure function from the tables read at the start of the request
 * to the ordered effects it performs: frames sent and whole tables written.
 */
module Conversation {
  import opened Base
  import opened Protocol
  import Sse

  const AgentUnavailable: string := "Chat agent is not available"
  const InvalidSessionId: string := "Invalid session ID"
  const NewChatTitle: string := "New Chat"
  const HttpBadRequest: int := 400

  /** V8's message for the TypeError raised by reading `.messages` of `undefined`. */
  const MissingLogMessage: string := "Cannot read properties of undefined (reading 'messages')"

  /** One entry of the session index table `chatHistory/historySessions`. */
  datatype IndexEntry = IndexEntry(id: SessionId, dateTime: string, title: string)

  /** The two history tables: the session index and the message log `chatHistory/historySession`. */
  datatype Tables = Tables(index: map<SessionId, IndexEntry>, log: map<SessionId, seq<Message>>)

  /** A whole-table replacement (`database.set`). */
  datatype DbWrite = SetIndex(index: map<SessionId, IndexEntry>) | SetLog(log: map<SessionId, seq<Message>>)

  /** One observable step of the handler, in the order it happens. */
  datatype Effect = Send(response: PostResponse) | Store(write: DbWrite)

  /** The parsed request body `{message, username, id?}`. */
  datatype Request = Request(message: Message, username: string, id: Option<SessionId>)

  /** What the agent produced: the statuses it yielded and, if it then threw, the error's reason. */
  datatype AgentRun = AgentRun(statuses: seq<AgentStatus>, thrown: Option<string>)

  /** The errors the handler's `try` block can raise. */
  datatype Fault = HttpError(code: int, message: string) | MissingLog | AgentThrew(reason: string)

  /** `parseError(error).reason`: the message the error carries. */
  function Reason(f: Fault): string
  {
    match f
    case HttpError(_, message) => message
    case MissingLog => MissingLogMessage
    case AgentThrew(reason) => reason
  }

  // ---------------------------------------------------------------------
  // query: agent statuses to responses
  // ---------------------------------------------------------------------

  /** The response `query` yields for one agent status; `messageId` is the fresh UUID. */
  function Respond(sid: SessionId, s: AgentStatus, messageId: string): (r: PostResponse)
    ensures r.Fail? <==> s.Error?
    ensures s.Error? ==> r.reason == s.error
    ensures !r.Fail? ==> r.id == sid
    ensures r.Reply? <==> s.Success?
    ensures s.Success? ==> r.message == Message(messageId, "", s.output, Assistant)
    ensures r.Control? <==> (s.Pending? || s.Started? || s.Done?)
    ensures r.Control? ==> (r.signal == GenerationPending <==> s.Pending?)
    ensures r.Control? ==> (r.signal == GenerationStarted <==> s.Started?)
    ensures r.Control? ==> (r.signal == GenerationDone <==> s.Done?)
  {
    match s
    case Pending => Control(sid, GenerationPending)
    case Started => Control(sid, GenerationStarted)
    case Error(e) => Fail(e)
    case Success(output) => Reply(sid, Message(messageId, "", output, Assistant))
    case Done => Control(sid, GenerationDone)
  }

  /** Responses for `ss`, the first of which is the agent's status number `k`. */
  function QueryFrom(sid: SessionId, ss: seq<AgentStatus>, ids: nat -> string, k: nat): (rs: seq<PostResponse>)
    ensures |rs| == |ss|
    ensures forall i :: 0 <= i < |ss| ==> rs[i] == Respond(sid, ss[i], ids(k + i))
    decreases |ss|
  {
    if ss == [] then [] else [Respond(sid, ss[0], ids(k))] + QueryFrom(sid, ss[1..], ids, k + 1)
  }

  /**
   * The generator `query`: a disabled agent yields one failure and nothing
   * else; an enabled one yields one response per status, in order.
   */
  function Query(sid: SessionId, enabled: bool, ss: seq<AgentStatus>, ids: nat -> string): (rs: seq<PostResponse>)
    ensures !enabled ==> rs == [Fail(AgentUnavailable)]
    ensures enabled ==> |rs| == |ss|
    ensures enabled ==> forall i :: 0 <= i < |ss| ==> rs[i] == Respond(sid, ss[i], ids(i))
  {
    if !enabled then [Fail(AgentUnavailable)] else QueryFrom(sid, ss, ids, 0)
  }

  // ---------------------------------------------------------------------
  // Final message selection
  // ---------------------------------------------------------------------

  /** Position `i` holds the last message response of the stream. */
  predicate LastReplyAt(rs: seq<PostResponse>, i: int)
  {
    0 <= i < |rs| && rs[i].Reply? && forall j :: i < j < |rs| ==> !rs[j].Reply?
  }

  /** The `for await` loop's `finalMessage` variable: `acc`, overwritten by each message response. */
  function FinalMessageFrom(rs: seq<PostResponse>, acc: Option<Message>): (r: Option<Message>)
    ensures (forall i :: 0 <= i < |rs| ==> !rs[i].Reply?) ==> r == acc
    ensures (exists i :: 0 <= i < |rs| && rs[i].Reply?) ==>
      exists i :: LastReplyAt(rs, i) && r == Some(rs[i].message)
    decreases |rs|
  {
    if rs == [] then acc
    else
      LastReplyOfTail(rs);
      FinalMessageFrom(rs[1..], if rs[0].Reply? then Some(rs[0].message) else acc)
  }

  /** The last message response of a stream's tail is the last one of the whole stream, one position on. */
  lemma LastReplyOfTail(rs: seq<PostResponse>)
    requires rs != []
    ensures forall i :: LastReplyAt(rs[1..], i) ==> LastReplyAt(rs, i + 1) && rs[i + 1] == rs[1..][i]
  {
    forall i | LastReplyAt(rs[1..], i) ensures LastReplyAt(rs, i + 1) && rs[i + 1] == rs[1..][i] {
      assert forall j :: i + 1 < j < |rs| ==> rs[j] == rs[1..][j - 1];
    }
  }

  /** The message of the last message response in the stream, if there is one. */
  function FinalMessage(rs: seq<PostResponse>): (r: Option<Message>)
    ensures r.None? <==> forall i :: 0 <= i < |rs| ==> !rs[i].Reply?
    ensures r.Some? ==> exists i :: LastReplyAt(rs, i) && rs[i].message == r.value
  {
    FinalMessageFrom(rs, None)
  }

  // ---------------------------------------------------------------------
  // Effects and the history tables
  // ---------------------------------------------------------------------

  /** The frames among the effects, in order. */
  function Sent(x: seq<Effect>): seq<PostResponse>
  {
    if x == [] then []
    else (if x[0].Send? then [x[0].response] else []) + Sent(x[1..])
  }

  /** The table writes among the effects, in order. */
  function Stored(x: seq<Effect>): (ws: seq<DbWrite>)
    ensures |ws| <= |x|
  {
    if x == [] then []
    else (if x[0].Store? then [x[0].write] else []) + Stored(x[1..])
  }

  /** Sending each response in turn. */
  function SendAll(rs: seq<PostResponse>): (x: seq<Effect>)
    ensures |x| == |rs|
    ensures forall i :: 0 <= i < |rs| ==> x[i] == Send(rs[i])
  {
    if rs == [] then [] else [Send(rs[0])] + SendAll(rs[1..])
  }

  /** Writing each table value in turn. */
  function StoreAll(ws: seq<DbWrite>): (x: seq<Effect>)
    ensures |x| == |ws|
    ensures forall i :: 0 <= i < |ws| ==> x[i] == Store(ws[i])
  {
    if ws == [] then [] else [Store(ws[0])] + StoreAll(ws[1..])
  }

  /** The tables after the writes, each replacing one whole table. */
  function Apply(t: Tables, ws: seq<DbWrite>): Tables
    decreases |ws|
  {
    if ws == [] then t
    else
      var t' := match ws[0] case SetIndex(i) => t.(index := i) case SetLog(l) => t.(log := l);
      Apply(t', ws[1..])
  }

  /** `Sent` keeps exactly the frames: every frame's response, and nothing that is not a frame. */
  lemma {:induction false} SentIsFilter(x: seq<Effect>)
    ensures forall i :: 0 <= i < |x| && x[i].Send? ==> x[i].response in Sent(x)
    ensures forall r :: r in Sent(x) ==> Send(r) in x
  {
    if x != [] {
      SentIsFilter(x[1..]);
      assert forall i :: 1 <= i < |x| ==> x[i] == x[1..][i - 1];
    }
  }

  /** `Stored` keeps exactly the writes: every write, and nothing that is not a write. */
  lemma {:induction false} StoredIsFilter(x: seq<Effect>)
    ensures forall i :: 0 <= i < |x| && x[i].Store? ==> x[i].write in Stored(x)
    ensures forall w :: w in Stored(x) ==> Store(w) in x
  {
    if x != [] {
      StoredIsFilter(x[1..]);
      assert forall i :: 1 <= i < |x| ==> x[i] == x[1..][i - 1];
    }
  }

  lemma {:induction false} SentAppend(a: seq<Effect>, b: seq<Effect>)
    ensures Sent(a + b) == Sent(a) + Sent(b)
    decreases |a|
  {
    if a == [] {
      assert a + b == b;
    } else {
      var head := if a[0].Send? then [a[0].response] else [];
      assert (a + b)[0] == a[0];
      assert (a + b)[1..] == a[1..] + b;
      SentAppend(a[1..], b);
      calc {
        Sent(a + b);
        head + Sent(a[1..] + b);
        head + (Sent(a[1..]) + Sent(b));
        (head + Sent(a[1..])) + Sent(b);
      }
    }
  }

  lemma {:induction false} StoredAppend(a: seq<Effect>, b: seq<Effect>)
    ensures Stored(a + b) == Stored(a) + Stored(b)
    decreases |a|
  {
    if a == [] {
      assert a + b == b;
    } else {
      var head := if a[0].Store? then [a[0].write] else [];
      assert (a + b)[0] == a[0];
      assert (a + b)[1..] == a[1..] + b;
      StoredAppend(a[1..], b);
      calc {
        Stored(a + b);
        head + Stored(a[1..] + b);
        head + (Stored(a[1..]) + Stored(b));
        (head + Stored(a[1..])) + Stored(b);
      }
    }
  }

  lemma {:induction false} ApplyAppend(t: Tables, a: seq<DbWrite>, b: seq<DbWrite>)
    ensures Apply(t, a + b) == Apply(Apply(t, a), b)
    decreases |a|
  {
    if a == [] {
      assert a + b == b;
    } else {
      assert (a + b)[1..] == a[1..] + b;
      var t' := match a[0] case SetIndex(i) => t.(index := i) case SetLog(l) => t.(log := l);
      ApplyAppend(t', a[1..], b);
    }
  }

  /** Streaming responses writes no table and sends exactly those responses. */
  lemma {:induction false} SendAllEffects(rs: seq<PostResponse>)
    ensures Sent(SendAll(rs)) == rs
    ensures Stored(SendAll(rs)) == []
  {
    if rs != [] {
      SendAllEffects(rs[1..]);
    }
  }

  /** Writing tables sends nothing and performs exactly those writes. */
  lemma {:induction false} StoreAllEffects(ws: seq<DbWrite>)
    ensures Sent(StoreAll(ws)) == []
    ensures Stored(StoreAll(ws)) == ws
  {
    if ws != [] {
      StoreAllEffects(ws[1..]);
    }
  }

  // ---------------------------------------------------------------------
  // handleConversationPost
  // ---------------------------------------------------------------------

  /** JavaScript truthiness of the optional `id`: present and not the empty string. */
  predicate Supplied(id: Option<SessionId>)
  {
    id.Some? && id.value != ""
  }

  /** The id of the session the session manager resolves: the supplied one, or a new one. */
  function SessionOf(req: Request, newId: SessionId): SessionId
  {
    if Supplied(req.id) then req.id.value else newId
  }

  /** The request names a session the index does not hold. */
  predicate Rejected(t: Tables, req: Request)
  {
    Supplied(req.id) && req.id.value !in t.index
  }

  /** The tables once a new session has its index entry and empty log. */
  function Created(t: Tables, sid: SessionId, now: string): (t': Tables)
    ensures t'.index.Keys == t.index.Keys + {sid} && t'.log.Keys == t.log.Keys + {sid}
    ensures t'.index[sid] == IndexEntry(sid, now, NewChatTitle) && t'.log[sid] == []
    ensures forall o :: o != sid && o in t.index ==> t'.index[o] == t.index[o]
    ensures forall o :: o != sid && o in t.log ==> t'.log[o] == t.log[o]
  {
    Tables(t.index[sid := IndexEntry(sid, now, NewChatTitle)], t.log[sid := []])
  }

  /** The session's log with one more message at its end. */
  function Append(log: map<SessionId, seq<Message>>, sid: SessionId, m: Message): (log': map<SessionId, seq<Message>>)
    requires sid in log
    ensures log'.Keys == log.Keys
    ensures log'[sid] == log[sid] + [m]
    ensures forall o :: o != sid && o in log ==> log'[o] == log[o]
  {
    log[sid := log[sid] + [m]]
  }

  /** The effects after the user message is stored: stream the agent, then store the final message. */
  function Stream(log: map<SessionId, seq<Message>>, sid: SessionId, enabled: bool, run: AgentRun, ids: nat -> string): seq<Effect>
    requires sid in log
  {
    var rs := Query(sid, enabled, run.statuses, ids);
    if enabled && run.thrown.Some? then
      SendAll(rs) + [Send(Fail(Reason(AgentThrew(run.thrown.value))))]
    else
      match FinalMessage(rs)
      case None => SendAll(rs)
      case Some(m) => SendAll(rs) + [Store(SetLog(Append(log, sid, m)))]
  }

  /**
   * `handleConversationPost` after the request body is parsed. `t` holds the
   * tables as read at the start, `newId` is the id the session manager
   * generates when none is supplied, `now` the creation timestamp, `enabled`
   * the agent's `isChatEnabled()`, `run` its output, `ids` the UUIDs drawn
   * for message responses (indexed by status position).
   */
  function HandlePost(t: Tables, req: Request, newId: SessionId, now: string,
                      enabled: bool, run: AgentRun, ids: nat -> string): seq<Effect>
  {
    if Rejected(t, req) then
      [Send(Fail(Reason(HttpError(HttpBadRequest, InvalidSessionId))))]
    else if Supplied(req.id) then
      Continue(t, [], req.id.value, req.message, enabled, run, ids)
    else
      var t1 := Created(t, newId, now);
      Continue(t1, [SetIndex(t1.index), SetLog(t1.log)], newId, req.message, enabled, run, ids)
  }

  /**
   * The handler once the session is resolved: `t` holds the tables in memory,
   * `written` the writes already made for a new session. Appending to a log
   * entry that does not exist throws.
   */
  function Continue(t: Tables, written: seq<DbWrite>, sid: SessionId, message: Message,
                    enabled: bool, run: AgentRun, ids: nat -> string): seq<Effect>
  {
    if sid !in t.log then
      StoreAll(written) + [Send(Fail(Reason(MissingLog)))]
    else
      var log2 := Append(t.log, sid, message);
      StoreAll(written + [SetLog(log2)]) + Stream(log2, sid, enabled, run, ids)
  }

  // ---------------------------------------------------------------------
  // What one request does to the stream and to the tables
  // ---------------------------------------------------------------------

  /** The assistant messages a run adds to the log after the user message: the final message, unless the agent threw. */
  function Kept(sid: SessionId, enabled: bool, run: AgentRun, ids: nat -> string): seq<Message>
  {
    if enabled && run.thrown.Some? then []
    else match FinalMessage(Query(sid, enabled, run.statuses, ids))
      case None => []
      case Some(m) => [m]
  }

  /** The frames a run streams: `query`'s responses, then one failure if the agent threw. */
  function Streamed(sid: SessionId, enabled: bool, run: AgentRun, ids: nat -> string): seq<PostResponse>
  {
    Query(sid, enabled, run.statuses, ids)
      + (if enabled && run.thrown.Some? then [Fail(run.thrown.value)] else [])
  }

  /** Streaming sends `Streamed` and writes the log once, only to add the final message. */
  lemma StreamEffects(i: map<SessionId, IndexEntry>, log: map<SessionId, seq<Message>>, sid: SessionId,
                      enabled: bool, run: AgentRun, ids: nat -> string)
    requires sid in log
    ensures Sent(Stream(log, sid, enabled, run, ids)) == Streamed(sid, enabled, run, ids)
    ensures |Stored(Stream(log, sid, enabled, run, ids))| == |Kept(sid, enabled, run, ids)|
    ensures Apply(Tables(i, log), Stored(Stream(log, sid, enabled, run, ids)))
            == Tables(i, log[sid := log[sid] + Kept(sid, enabled, run, ids)])
  {
    var rs := Query(sid, enabled, run.statuses, ids);
    if enabled && run.thrown.Some? {
      StreamThrown(log, sid, run, ids);
      assert log[sid] + [] == log[sid];
    } else if FinalMessage(rs).None? {
      StreamWithoutFinal(log, sid, enabled, run, ids);
      assert log[sid] + [] == log[sid];
    } else {
      StreamWithFinal(i, log, sid, enabled, run, ids);
    }
  }

  /**
   * The final-message write comes after every frame: once a write occurs in
   * the streaming effects, only writes follow it.
   */
  lemma StreamWritesLast(log: map<SessionId, seq<Message>>, sid: SessionId,
                         enabled: bool, run: AgentRun, ids: nat -> string)
    requires sid in log
    ensures var x := Stream(log, sid, enabled, run, ids);
      forall a, b :: 0 <= a < b < |x| && x[a].Store? ==> x[b].Store?
  {
  }

  /** The agent threw: its responses, one failure, no write. */
  lemma StreamThrown(log: map<SessionId, seq<Message>>, sid: SessionId, run: AgentRun, ids: nat -> string)
    requires sid in log && run.thrown.Some?
    ensures Sent(Stream(log, sid, true, run, ids)) == Streamed(sid, true, run, ids)
    ensures Stored(Stream(log, sid, true, run, ids)) == [] && Kept(sid, true, run, ids) == []
  {
    var rs := Query(sid, true, run.statuses, ids);
    var tail := [Send(Fail(Reason(AgentThrew(run.thrown.value))))];
    SendThenTail(rs, tail);
    assert Sent(tail) == [Fail(run.thrown.value)] && Stored(tail) == [];
  }

  /** No message response and no throw: the responses and no write. */
  lemma StreamWithoutFinal(log: map<SessionId, seq<Message>>, sid: SessionId, enabled: bool, run: AgentRun, ids: nat -> string)
    requires sid in log && !(enabled && run.thrown.Some?)
    requires FinalMessage(Query(sid, enabled, run.statuses, ids)).None?
    ensures Sent(Stream(log, sid, enabled, run, ids)) == Streamed(sid, enabled, run, ids)
    ensures Stored(Stream(log, sid, enabled, run, ids)) == [] && Kept(sid, enabled, run, ids) == []
  {
    var rs := Query(sid, enabled, run.statuses, ids);
    SendThenTail(rs, []);
    assert rs + [] == rs && SendAll(rs) + [] == SendAll(rs);
  }

  /** A final message and no throw: the responses, then one write appending it. */
  lemma StreamWithFinal(i: map<SessionId, IndexEntry>, log: map<SessionId, seq<Message>>, sid: SessionId,
                        enabled: bool, run: AgentRun, ids: nat -> string)
    requires sid in log && !(enabled && run.thrown.Some?)
    requires FinalMessage(Query(sid, enabled, run.statuses, ids)).Some?
    ensures Sent(Stream(log, sid, enabled, run, ids)) == Streamed(sid, enabled, run, ids)
    ensures |Stored(Stream(log, sid, enabled, run, ids))| == 1 == |Kept(sid, enabled, run, ids)|
    ensures Apply(Tables(i, log), Stored(Stream(log, sid, enabled, run, ids)))
            == Tables(i, log[sid := log[sid] + Kept(sid, enabled, run, ids)])
  {
    var rs := Query(sid, enabled, run.statuses, ids);
    var m := FinalMessage(rs).value;
    var tail := [Store(SetLog(Append(log, sid, m)))];
    SendThenTail(rs, tail);
    assert tail[1..] == [];
    assert Stored(tail) == [SetLog(Append(log, sid, m))] && Sent(tail) == [];
    assert rs + [] == rs;
    assert [SetLog(Append(log, sid, m))][1..] == [];
  }

  /** Sending responses and then more effects: the responses come first, and only the rest writes. */
  lemma SendThenTail(rs: seq<PostResponse>, tail: seq<Effect>)
    ensures Sent(SendAll(rs) + tail) == rs + Sent(tail)
    ensures Stored(SendAll(rs) + tail) == Stored(tail)
  {
    SendAllEffects(rs);
    SentAppend(SendAll(rs), tail);
    StoredAppend(SendAll(rs), tail);
  }

  /** An id the index does not hold: one "Invalid session ID" failure and no table written. */
  lemma UnknownIdRejected(t: Tables, req: Request, newId: SessionId, now: string,
                          enabled: bool, run: AgentRun, ids: nat -> string)
    requires Supplied(req.id) && req.id.value !in t.index
    ensures Sent(HandlePost(t, req, newId, now, enabled, run, ids)) == [Fail(InvalidSessionId)]
    ensures Stored(HandlePost(t, req, newId, now, enabled, run, ids)) == []
  {
    var x := HandlePost(t, req, newId, now, enabled, run, ids);
    assert x == [Send(Fail(InvalidSessionId))];
    assert x[1..] == [];
  }

  /** Writing the index and then the log twice leaves the index and the second log. */
  lemma ApplyIndexLogLog(t: Tables, i: map<SessionId, IndexEntry>, l1: map<SessionId, seq<Message>>,
                         l2: map<SessionId, seq<Message>>)
    ensures Apply(t, [SetIndex(i), SetLog(l1), SetLog(l2)]) == Tables(i, l2)
  {
    var ws := [SetIndex(i), SetLog(l1), SetLog(l2)];
    assert ws[1..] == [SetLog(l1), SetLog(l2)];
    assert ws[1..][1..] == [SetLog(l2)];
    assert [SetLog(l2)][1..] == [];
    calc {
      Apply(t, ws);
      Apply(Tables(i, t.log), ws[1..]);
      Apply(Tables(i, l1), ws[1..][1..]);
      Apply(Tables(i, l2), []);
    }
  }

  /** Writes `ws`, then streams: the frames are the stream's, the writes start with `ws`. */
  lemma WritesThenStream(t: Tables, ws: seq<DbWrite>, log: map<SessionId, seq<Message>>, sid: SessionId,
                         enabled: bool, run: AgentRun, ids: nat -> string)
    requires sid in log && Apply(t, ws) == Tables(Apply(t, ws).index, log)
    ensures var x := StoreAll(ws) + Stream(log, sid, enabled, run, ids);
      && Sent(x) == Streamed(sid, enabled, run, ids)
      && |Stored(x)| >= |ws| && Stored(x)[..|ws|] == ws
      && Apply(t, Stored(x)) == Tables(Apply(t, ws).index, log[sid := log[sid] + Kept(sid, enabled, run, ids)])
  {
    var rest := Stream(log, sid, enabled, run, ids);
    StoreAllEffects(ws);
    SentAppend(StoreAll(ws), rest);
    StoredAppend(StoreAll(ws), rest);
    ApplyAppend(t, ws, Stored(rest));
    StreamEffects(Apply(t, ws).index, log, sid, enabled, run, ids);
  }

  /** The effects of a request that resolves to a new session. */
  lemma NewSessionShape(t: Tables, req: Request, newId: SessionId, now: string,
                        enabled: bool, run: AgentRun, ids: nat -> string)
    requires !Supplied(req.id)
    ensures HandlePost(t, req, newId, now, enabled, run, ids)
      == StoreAll([SetIndex(t.index[newId := IndexEntry(newId, now, NewChatTitle)]),
                   SetLog(t.log[newId := []]),
                   SetLog(t.log[newId := [req.message]])])
         + Stream(t.log[newId := [req.message]], newId, enabled, run, ids)
  {
    var t1 := Created(t, newId, now);
    var log2 := Append(t1.log, newId, req.message);
    assert [] + [req.message] == [req.message];
    assert log2 == t.log[newId := [req.message]];
  }

  /** The effects of a request that continues an existing session. */
  lemma ExistingSessionShape(t: Tables, req: Request, newId: SessionId, now: string,
                             enabled: bool, run: AgentRun, ids: nat -> string)
    requires Supplied(req.id) && req.id.value in t.index && req.id.value in t.log
    ensures HandlePost(t, req, newId, now, enabled, run, ids)
      == StoreAll([SetLog(Append(t.log, req.id.value, req.message))])
         + Stream(Append(t.log, req.id.value, req.message), req.id.value, enabled, run, ids)
  {
    assert [] + [SetLog(Append(t.log, req.id.value, req.message))] == [SetLog(Append(t.log, req.id.value, req.message))];
  }

  /**
   * A new session: the index gains `{id, dateTime, "New Chat"}`, the log gains
   * `[]` and then `[user message]` before any frame, and ends as the user
   * message followed by the kept assistant message; every other id is untouched.
   */
  lemma NewSession(t: Tables, req: Request, newId: SessionId, now: string,
                   enabled: bool, run: AgentRun, ids: nat -> string)
    requires !Supplied(req.id)
    ensures var ws := Stored(HandlePost(t, req, newId, now, enabled, run, ids));
      && |ws| >= 3
      && ws[..3] == [SetIndex(t.index[newId := IndexEntry(newId, now, NewChatTitle)]),
                     SetLog(t.log[newId := []]),
                     SetLog(t.log[newId := [req.message]])]
      && Apply(t, ws) == Tables(t.index[newId := IndexEntry(newId, now, NewChatTitle)],
                                t.log[newId := [req.message] + Kept(newId, enabled, run, ids)])
    ensures Sent(HandlePost(t, req, newId, now, enabled, run, ids)) == Streamed(newId, enabled, run, ids)
  {
    var index1 := t.index[newId := IndexEntry(newId, now, NewChatTitle)];
    var log2 := t.log[newId := [req.message]];
    var ws := [SetIndex(index1), SetLog(t.log[newId := []]), SetLog(log2)];
    var h := HandlePost(t, req, newId, now, enabled, run, ids);
    NewSessionShape(t, req, newId, now, enabled, run, ids);
    assert h == StoreAll(ws) + Stream(log2, newId, enabled, run, ids);
    NewSessionEffects(t, index1, log2, ws, newId, req.message, enabled, run, ids);
  }

  /** The shape of a new session's effects, stated without the handler. */
  lemma NewSessionEffects(t: Tables, index1: map<SessionId, IndexEntry>, log2: map<SessionId, seq<Message>>,
                          ws: seq<DbWrite>, sid: SessionId, message: Message,
                          enabled: bool, run: AgentRun, ids: nat -> string)
    requires log2 == t.log[sid := [message]]
    requires ws == [SetIndex(index1), SetLog(t.log[sid := []]), SetLog(log2)]
    ensures var x := StoreAll(ws) + Stream(log2, sid, enabled, run, ids);
      && |Stored(x)| >= 3
      && Stored(x)[..3] == ws
      && Apply(t, Stored(x)) == Tables(index1, t.log[sid := [message] + Kept(sid, enabled, run, ids)])
      && Sent(x) == Streamed(sid, enabled, run, ids)
  {
    ApplyIndexLogLog(t, index1, t.log[sid := []], log2);
    WritesThenStream(t, ws, log2, sid, enabled, run, ids);
    assert log2[sid := log2[sid] + Kept(sid, enabled, run, ids)]
        == t.log[sid := [message] + Kept(sid, enabled, run, ids)];
  }

  /**
   * An existing session: the index is untouched, the log first becomes
   * `old + [user message]` before any frame, and ends as that followed by the
   * kept assistant message; every other id is untouched.
   */
  lemma ExistingSession(t: Tables, req: Request, newId: SessionId, now: string,
                        enabled: bool, run: AgentRun, ids: nat -> string)
    requires Supplied(req.id) && req.id.value in t.index && req.id.value in t.log
    ensures var id := req.id.value;
      var ws := Stored(HandlePost(t, req, newId, now, enabled, run, ids));
      && |ws| >= 1
      && ws[0] == SetLog(t.log[id := t.log[id] + [req.message]])
      && Apply(t, ws) == Tables(t.index, t.log[id := t.log[id] + [req.message] + Kept(id, enabled, run, ids)])
    ensures Sent(HandlePost(t, req, newId, now, enabled, run, ids)) == Streamed(req.id.value, enabled, run, ids)
  {
    var id := req.id.value;
    var log2 := Append(t.log, id, req.message);
    var h := HandlePost(t, req, newId, now, enabled, run, ids);
    ExistingSessionShape(t, req, newId, now, enabled, run, ids);
    assert h == StoreAll([SetLog(log2)]) + Stream(log2, id, enabled, run, ids);
    ExistingSessionEffects(t, log2, id, req.message, enabled, run, ids);
  }

  /** The effects of storing the appended log and then streaming, for an existing session. */
  lemma ExistingSessionEffects(t: Tables, log2: map<SessionId, seq<Message>>, sid: SessionId, message: Message,
                               enabled: bool, run: AgentRun, ids: nat -> string)
    requires sid in t.log && log2 == t.log[sid := t.log[sid] + [message]]
    ensures var x := StoreAll([SetLog(log2)]) + Stream(log2, sid, enabled, run, ids);
      && |Stored(x)| >= 1
      && Stored(x)[0] == SetLog(log2)
      && Apply(t, Stored(x)) == Tables(t.index, t.log[sid := t.log[sid] + [message] + Kept(sid, enabled, run, ids)])
      && Sent(x) == Streamed(sid, enabled, run, ids)
  {
    assert [SetLog(log2)][1..] == [];
    assert Apply(t, [SetLog(log2)]) == Tables(t.index, log2);
    WritesThenStream(t, [SetLog(log2)], log2, sid, enabled, run, ids);
    assert log2[sid := log2[sid] + Kept(sid, enabled, run, ids)]
        == t.log[sid := t.log[sid] + [message] + Kept(sid, enabled, run, ids)];
  }

  /**
   * The index names a session the log lacks (the gap between the two
   * tables): reading its `messages` throws, giving one failure and no write.
   */
  lemma IndexedButNoLog(t: Tables, req: Request, newId: SessionId, now: string,
                        enabled: bool, run: AgentRun, ids: nat -> string)
    requires Supplied(req.id) && req.id.value in t.index && req.id.value !in t.log
    ensures Sent(HandlePost(t, req, newId, now, enabled, run, ids)) == [Fail(MissingLogMessage)]
    ensures Stored(HandlePost(t, req, newId, now, enabled, run, ids)) == []
  {
    var x := HandlePost(t, req, newId, now, enabled, run, ids);
    assert StoreAll([]) == [];
    assert x == StoreAll([]) + [Send(Fail(MissingLogMessage))];
    assert x[1..] == [];
  }

  /** The session's log as it stands before the user message is appended. */
  function Before(t: Tables, req: Request): seq<Message>
    requires Supplied(req.id) ==> req.id.value in t.log
  {
    if Supplied(req.id) then t.log[req.id.value] else []
  }

  /**
   * The user message is persisted before the agent is consulted: the first
   * frame of an accepted request comes after a write of the log whose entry
   * for the session is the old log followed by the user message.
   */
  lemma UserMessageStoredFirst(t: Tables, req: Request, newId: SessionId, now: string,
                               enabled: bool, run: AgentRun, ids: nat -> string)
    requires !Rejected(t, req) && (Supplied(req.id) ==> req.id.value in t.log)
    ensures var x := HandlePost(t, req, newId, now, enabled, run, ids);
      var sid := SessionOf(req, newId);
      exists k :: 0 <= k < |x| && (forall j :: 0 <= j <= k ==> x[j].Store?)
                  && x[k].write.SetLog? && sid in x[k].write.log
                  && x[k].write.log[sid] == Before(t, req) + [req.message]
  {
    var x := HandlePost(t, req, newId, now, enabled, run, ids);
    var sid := SessionOf(req, newId);
    var k: nat, log2;
    if Supplied(req.id) {
      log2 := Append(t.log, sid, req.message);
      ExistingSessionShape(t, req, newId, now, enabled, run, ids);
      k := 0;
    } else {
      log2 := t.log[newId := [req.message]];
      NewSessionShape(t, req, newId, now, enabled, run, ids);
      k := 2;
    }
    assert x[k] == Store(SetLog(log2));
    assert log2[sid] == Before(t, req) + [req.message];
    assert forall j :: 0 <= j <= k ==> x[j].Store?;
  }

  /** A disabled agent: what the stream carries and what the log keeps. */
  lemma DisabledRun(sid: SessionId, run: AgentRun, ids: nat -> string)
    ensures Streamed(sid, false, run, ids) == [Fail(AgentUnavailable)]
    ensures Kept(sid, false, run, ids) == []
  {
    var rs := Query(sid, false, run.statuses, ids);
    assert rs + [] == rs;
    assert !rs[0].Reply?;
  }

  /**
   * A disabled agent: exactly one "Chat agent is not available" frame, and the
   * user message is still persisted, alone after the old log.
   */
  lemma DisabledAgentKeepsUserMessage(t: Tables, req: Request, newId: SessionId, now: string,
                                      run: AgentRun, ids: nat -> string)
    requires !Rejected(t, req) && (Supplied(req.id) ==> req.id.value in t.log)
    ensures Sent(HandlePost(t, req, newId, now, false, run, ids)) == [Fail(AgentUnavailable)]
    ensures var t' := Apply(t, Stored(HandlePost(t, req, newId, now, false, run, ids)));
      SessionOf(req, newId) in t'.log && t'.log[SessionOf(req, newId)] == Before(t, req) + [req.message]
  {
    var sid := SessionOf(req, newId);
    DisabledRun(sid, run, ids);
    if Supplied(req.id) {
      ExistingSession(t, req, newId, now, false, run, ids);
      assert t.log[sid] + [req.message] + [] == Before(t, req) + [req.message];
    } else {
      NewSession(t, req, newId, now, false, run, ids);
      assert [req.message] + [] == Before(t, req) + [req.message];
    }
  }

  /**
   * Any fault (unknown id, an index entry without a log, an agent that throws)
   * ends the stream with exactly one failure frame carrying its reason; the
   * frames before it are `query`'s responses already streamed.
   */
  lemma FaultEndsWithOneFailFrame(t: Tables, req: Request, newId: SessionId, now: string,
                                  enabled: bool, run: AgentRun, ids: nat -> string)
    requires Rejected(t, req)
          || (Supplied(req.id) && req.id.value in t.index && req.id.value !in t.log)
          || (!Rejected(t, req) && (Supplied(req.id) ==> req.id.value in t.log) && enabled && run.thrown.Some?)
    ensures var rs := Sent(HandlePost(t, req, newId, now, enabled, run, ids));
      && |rs| >= 1
      && rs[|rs| - 1].Fail?
      && (Rejected(t, req) ==> rs == [Fail(InvalidSessionId)])
      && (!Rejected(t, req) && Supplied(req.id) && req.id.value !in t.log ==> rs == [Fail(MissingLogMessage)])
      && (!Rejected(t, req) && (Supplied(req.id) ==> req.id.value in t.log) ==>
            rs == Query(SessionOf(req, newId), enabled, run.statuses, ids) + [Fail(run.thrown.value)])
  {
    if Rejected(t, req) {
      UnknownIdRejected(t, req, newId, now, enabled, run, ids);
    } else if Supplied(req.id) && req.id.value !in t.log {
      IndexedButNoLog(t, req, newId, now, enabled, run, ids);
    } else if Supplied(req.id) {
      ExistingSession(t, req, newId, now, enabled, run, ids);
    } else {
      NewSession(t, req, newId, now, enabled, run, ids);
    }
  }

  /** Position `i` holds the agent's last SUCCESS. */
  predicate LastSuccessAt(ss: seq<AgentStatus>, i: int)
  {
    0 <= i < |ss| && ss[i].Success? && forall j :: i < j < |ss| ==> !ss[j].Success?
  }

  /** Position `i` of an enabled agent's responses is a message response exactly when status `i` is a SUCCESS. */
  lemma ReplyAt(sid: SessionId, ss: seq<AgentStatus>, ids: nat -> string, i: nat)
    requires i < |ss|
    ensures i < |Query(sid, true, ss, ids)|
    ensures Query(sid, true, ss, ids)[i].Reply? <==> ss[i].Success?
    ensures ss[i].Success? ==>
      Query(sid, true, ss, ids)[i].message == Message(ids(i), "", ss[i].output, Assistant)
  {
    assert Query(sid, true, ss, ids)[i] == Respond(sid, ss[i], ids(i));
  }

  /** An enabled agent's responses hold a message response exactly when it reported a SUCCESS. */
  lemma FinalOfQueryPresent(sid: SessionId, ss: seq<AgentStatus>, ids: nat -> string)
    ensures FinalMessage(Query(sid, true, ss, ids)).None? <==> forall i :: 0 <= i < |ss| ==> !ss[i].Success?
  {
    var rs := Query(sid, true, ss, ids);
    if FinalMessage(rs).None? {
      forall i | 0 <= i < |ss| ensures !ss[i].Success? {
        ReplyAt(sid, ss, ids, i);
      }
    } else {
      var i :| 0 <= i < |rs| && rs[i].Reply?;
      ReplyAt(sid, ss, ids, i);
    }
  }

  /**
   * When the agent reported a SUCCESS (at `k`, say), the final message of its
   * responses exists and is built from its last SUCCESS.
   */
  lemma FinalOfQueryIsLast(sid: SessionId, ss: seq<AgentStatus>, ids: nat -> string, k: nat)
    requires k < |ss| && ss[k].Success?
    ensures FinalMessage(Query(sid, true, ss, ids)).Some?
    ensures exists i :: LastSuccessAt(ss, i)
                        && FinalMessage(Query(sid, true, ss, ids)).value == Message(ids(i), "", ss[i].output, Assistant)
  {
    FinalOfQueryPresent(sid, ss, ids);
    var rs := Query(sid, true, ss, ids);
    var m := FinalMessage(rs).value;
    var i :| LastReplyAt(rs, i) && rs[i].message == m;
    ReplyAt(sid, ss, ids, i);
    forall j | i < j < |ss| ensures !ss[j].Success? {
      ReplyAt(sid, ss, ids, j);
    }
    assert LastSuccessAt(ss, i);
  }

  /**
   * Only the last SUCCESS of a run that did not throw is persisted, once: the
   * log gains nothing when the agent reported no SUCCESS, and otherwise the
   * assistant message built from the last SUCCESS's output.
   */
  lemma KeptIsLastSuccess(sid: SessionId, run: AgentRun, ids: nat -> string)
    requires run.thrown.None?
    ensures var kept := Kept(sid, true, run, ids);
      && |kept| <= 1
      && (kept == [] <==> forall i :: 0 <= i < |run.statuses| ==> !run.statuses[i].Success?)
      && (kept != [] ==>
            exists i :: LastSuccessAt(run.statuses, i)
                        && kept[0] == Message(ids(i), "", run.statuses[i].output, Assistant))
  {
    var ss := run.statuses;
    var kept := Kept(sid, true, run, ids);
    if k :| 0 <= k < |ss| && ss[k].Success? {
      FinalOfQueryIsLast(sid, ss, ids, k);
      assert kept == [FinalMessage(Query(sid, true, ss, ids)).value];
    } else {
      FinalOfQueryPresent(sid, ss, ids);
      assert kept == [];
    }
  }

  // ---------------------------------------------------------------------
  // Order and multiplicity of streamed responses
  // ---------------------------------------------------------------------

  function CountSuccess(ss: seq<AgentStatus>): nat
  {
    if ss == [] then 0 else (if ss[0].Success? then 1 else 0) + CountSuccess(ss[1..])
  }

  function CountErrors(ss: seq<AgentStatus>): nat
  {
    if ss == [] then 0 else (if ss[0].Error? then 1 else 0) + CountErrors(ss[1..])
  }

  /** The progress signals an agent's statuses announce, in order. */
  function Progress(ss: seq<AgentStatus>): seq<Signal>
  {
    if ss == [] then []
    else
      var head := match ss[0]
        case Pending => [GenerationPending]
        case Started => [GenerationStarted]
        case Done => [GenerationDone]
        case _ => [];
      head + Progress(ss[1..])
  }

  function CountReplies(rs: seq<PostResponse>): nat
  {
    if rs == [] then 0 else (if rs[0].Reply? then 1 else 0) + CountReplies(rs[1..])
  }

  function CountFails(rs: seq<PostResponse>): nat
  {
    if rs == [] then 0 else (if rs[0].Fail? then 1 else 0) + CountFails(rs[1..])
  }

  /** The control signals among the responses, in order. */
  function Signals(rs: seq<PostResponse>): seq<Signal>
  {
    if rs == [] then [] else (if rs[0].Control? then [rs[0].signal] else []) + Signals(rs[1..])
  }

  /**
   * `query` neither drops, adds nor reorders: one message response per
   * SUCCESS, one failure per ERROR, and the control signals in the order the
   * agent announced its progress.
   */
  lemma {:induction false} QueryFromPreserves(sid: SessionId, ss: seq<AgentStatus>, ids: nat -> string, k: nat)
    ensures CountReplies(QueryFrom(sid, ss, ids, k)) == CountSuccess(ss)
    ensures CountFails(QueryFrom(sid, ss, ids, k)) == CountErrors(ss)
    ensures Signals(QueryFrom(sid, ss, ids, k)) == Progress(ss)
    decreases |ss|
  {
    if ss != [] {
      var rs := QueryFrom(sid, ss, ids, k);
      QueryFromPreserves(sid, ss[1..], ids, k + 1);
      assert rs[1..] == QueryFrom(sid, ss[1..], ids, k + 1);
      assert rs[0] == Respond(sid, ss[0], ids(k));
    }
  }

  /** The same, for the whole stream of an enabled agent. */
  lemma QueryPreserves(sid: SessionId, ss: seq<AgentStatus>, ids: nat -> string)
    ensures CountReplies(Query(sid, true, ss, ids)) == CountSuccess(ss)
    ensures CountFails(Query(sid, true, ss, ids)) == CountErrors(ss)
    ensures Signals(Query(sid, true, ss, ids)) == Progress(ss)
  {
    QueryFromPreserves(sid, ss, ids, 0);
  }

  /** The agent's side of the protocol: at most one SUCCESS, at most one ERROR, never both. */
  predicate AgentContract(ss: seq<AgentStatus>)
  {
    CountSuccess(ss) <= 1 && CountErrors(ss) <= 1 && (CountSuccess(ss) == 0 || CountErrors(ss) == 0)
  }

  /**
   * For an agent keeping its contract, the request streams at most one message
   * response; if the agent reports an ERROR, it streams exactly one failure,
   * no message response, and the log keeps only the user message.
   */
  lemma AgentErrorStreamsOneFailure(t: Tables, req: Request, newId: SessionId, now: string,
                                    run: AgentRun, ids: nat -> string)
    requires !Rejected(t, req) && (Supplied(req.id) ==> req.id.value in t.log)
    requires run.thrown.None? && AgentContract(run.statuses)
    ensures var x := HandlePost(t, req, newId, now, true, run, ids);
      && CountReplies(Sent(x)) <= 1
      && (CountErrors(run.statuses) > 0 ==>
            && CountReplies(Sent(x)) == 0
            && CountFails(Sent(x)) == 1
            && SessionOf(req, newId) in Apply(t, Stored(x)).log
            && Apply(t, Stored(x)).log[SessionOf(req, newId)] == Before(t, req) + [req.message])
  {
    var sid := SessionOf(req, newId);
    var rs := Query(sid, true, run.statuses, ids);
    assert Streamed(sid, true, run, ids) == rs;
    if Supplied(req.id) {
      ExistingSession(t, req, newId, now, true, run, ids);
    } else {
      NewSession(t, req, newId, now, true, run, ids);
    }
    QueryPreserves(sid, run.statuses, ids);
    if CountErrors(run.statuses) > 0 {
      KeptIsLastSuccess(sid, run, ids);
      if Kept(sid, true, run, ids) != [] {
        var i :| LastSuccessAt(run.statuses, i);
        SuccessCounted(run.statuses, i);
        assert false;
      }
      assert Before(t, req) + [req.message] + [] == Before(t, req) + [req.message];
    }
  }

  /** A SUCCESS at position `i` is counted. */
  lemma {:induction false} SuccessCounted(ss: seq<AgentStatus>, i: nat)
    requires i < |ss| && ss[i].Success?
    ensures CountSuccess(ss) >= 1
  {
    if i > 0 {
      SuccessCounted(ss[1..], i - 1);
    }
  }

  // ---------------------------------------------------------------------
  // The text on the wire
  // ---------------------------------------------------------------------

  /** The `data:` payloads, `JSON.stringify` of each response. */
  function Payloads(rs: seq<PostResponse>): (ds: seq<string>)
    ensures |ds| == |rs|
    ensures forall k :: 0 <= k < |ds| ==> '\n' !in ds[k]
  {
    seq(|rs|, k requires 0 <= k < |rs| => Encode(rs[k]))
  }

  /** Everything `writeSseMessage` writes for one request. */
  function Transcript(x: seq<Effect>): string
  {
    Sse.Frames(Payloads(Sent(x)))
  }

  /** A client splitting the transcript into frames recovers every payload, in order. */
  lemma TranscriptParses(x: seq<Effect>)
    ensures Sse.Parse(Transcript(x)) == Some(Payloads(Sent(x)))
  {
    Sse.ParseFrames(Payloads(Sent(x)));
  }
}
