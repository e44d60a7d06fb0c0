/**
 * The in-memory session registry `SessionManager`: sessions keyed by id in a
 * `Map`, created from a configuration, looked up and deleted. The agent and
 * response objects a session refers to are opaque type parameters.
 */
module Sessions {
  import opened Base

  type SessionId = string

  /** The configuration `APISession` a session is built from. */
  datatype SessionConfig<A, R> = SessionConfig(id: SessionId, chatAgent: Option<A>, response: Option<R>)

  /** A `Session` object: its id and the agent and response it refers to. */
  datatype Session<A, R> = Session(id: SessionId, chatAgent: Option<A>, response: Option<R>)

  /** The manager's private `sessions` map. */
  datatype Manager<A, R> = Manager(sessions: map<SessionId, Session<A, R>>)

  /** Every session is stored under its own id. */
  ghost predicate Keyed<A, R>(m: Manager<A, R>)
  {
    forall k :: k in m.sessions ==> m.sessions[k].id == k
  }

  /** The manager holding no session. */
  function Empty<A, R>(): (m: Manager<A, R>)
    ensures Keyed(m)
    ensures forall id :: GetSession(m, id).None?
  {
    Manager(map[])
  }

  /** `new Session(sessionConfig)`: the configuration's fields, copied unchanged. */
  function NewSession<A, R>(cfg: SessionConfig<A, R>): (s: Session<A, R>)
    ensures s.id == cfg.id && s.chatAgent == cfg.chatAgent && s.response == cfg.response
  {
    Session(cfg.id, cfg.chatAgent, cfg.response)
  }

  /** `getSession`: the session stored under `id`, or `undefined`. */
  function GetSession<A, R>(m: Manager<A, R>, id: SessionId): (r: Option<Session<A, R>>)
    ensures r.Some? <==> id in m.sessions
    ensures Keyed(m) && r.Some? ==> r.value.id == id
  {
    if id in m.sessions then Some(m.sessions[id]) else None
  }

  /**
   * `getNewSession`: builds the session and stores it under its id, replacing
   * any session already there; returns the manager and the new session.
   */
  function GetNewSession<A, R>(m: Manager<A, R>, cfg: SessionConfig<A, R>): (r: (Manager<A, R>, Session<A, R>))
    ensures r.1 == NewSession(cfg)
    ensures GetSession(r.0, cfg.id) == Some(r.1)
    ensures forall id :: id != cfg.id ==> GetSession(r.0, id) == GetSession(m, id)
    ensures r.0.sessions.Keys == m.sessions.Keys + {cfg.id}
    ensures Keyed(m) ==> Keyed(r.0)
  {
    var s := NewSession(cfg);
    (Manager(m.sessions[s.id := s]), s)
  }

  /** `deleteSession`: forgets `id`; every other lookup is unchanged. */
  function DeleteSession<A, R>(m: Manager<A, R>, id: SessionId): (m': Manager<A, R>)
    ensures GetSession(m', id).None?
    ensures forall o :: o != id ==> GetSession(m', o) == GetSession(m, o)
    ensures m'.sessions.Keys == m.sessions.Keys - {id}
    ensures id !in m.sessions ==> m' == m
    ensures Keyed(m) ==> Keyed(m')
  {
    Manager(map k | k in m.sessions && k != id :: m.sessions[k])
  }

  /** Creating a session whose id is taken replaces it: the number of sessions does not grow. */
  lemma ReplaceOnConflict<A, R>(m: Manager<A, R>, cfg: SessionConfig<A, R>)
    requires cfg.id in m.sessions
    ensures |GetNewSession(m, cfg).0.sessions| == |m.sessions|
    ensures GetSession(GetNewSession(m, cfg).0, cfg.id) == Some(NewSession(cfg))
  {
    assert GetNewSession(m, cfg).0.sessions.Keys == m.sessions.Keys;
  }

  // ---------------------------------------------------------------------
  // Histories of calls
  // ---------------------------------------------------------------------

  /** A mutating call on the manager. */
  datatype Call<A, R> = New(cfg: SessionConfig<A, R>) | Delete(id: SessionId)

  function Step<A, R>(m: Manager<A, R>, c: Call<A, R>): Manager<A, R>
  {
    match c
    case New(cfg) => GetNewSession(m, cfg).0
    case Delete(id) => DeleteSession(m, id)
  }

  /** The manager after the calls, first to last. */
  function Run<A, R>(m: Manager<A, R>, cs: seq<Call<A, R>>): Manager<A, R>
    decreases |cs|
  {
    if cs == [] then m else Run(Step(m, cs[0]), cs[1..])
  }

  /**
   * What a lookup of `id` should give after the calls: decided by the last
   * call that concerns `id`: the session it created, or nothing if it deleted
   * it; with no such call, the lookup before the calls.
   */
  function Expected<A, R>(m: Manager<A, R>, cs: seq<Call<A, R>>, id: SessionId): Option<Session<A, R>>
    decreases |cs|
  {
    if cs == [] then GetSession(m, id)
    else
      match cs[|cs| - 1]
      case New(cfg) => if cfg.id == id then Some(NewSession(cfg)) else Expected(m, cs[..|cs| - 1], id)
      case Delete(d) => if d == id then None else Expected(m, cs[..|cs| - 1], id)
  }

  lemma {:induction false} RunSnoc<A, R>(m: Manager<A, R>, cs: seq<Call<A, R>>, c: Call<A, R>)
    ensures Run(m, cs + [c]) == Step(Run(m, cs), c)
    decreases |cs|
  {
    if cs == [] {
      assert cs + [c] == [c];
    } else {
      assert (cs + [c])[1..] == cs[1..] + [c];
      RunSnoc(Step(m, cs[0]), cs[1..], c);
    }
  }

  /** Every lookup after a history of calls is the one its last relevant call decides. */
  lemma {:induction false} RunMatchesExpected<A, R>(m: Manager<A, R>, cs: seq<Call<A, R>>, id: SessionId)
    ensures GetSession(Run(m, cs), id) == Expected(m, cs, id)
    decreases |cs|
  {
    if cs != [] {
      var init := cs[..|cs| - 1];
      var c := cs[|cs| - 1];
      assert init + [c] == cs;
      RunSnoc(m, init, c);
      RunMatchesExpected(m, init, id);
    }
  }

  /** An id no call created, and absent at the start, is never found. */
  lemma NeverCreated<A, R>(m: Manager<A, R>, cs: seq<Call<A, R>>, id: SessionId)
    requires id !in m.sessions
    requires forall i :: 0 <= i < |cs| && cs[i].New? ==> cs[i].cfg.id != id
    ensures GetSession(Run(m, cs), id).None?
  {
    RunMatchesExpected(m, cs, id);
    ExpectedNone(m, cs, id);
  }

  lemma {:induction false} ExpectedNone<A, R>(m: Manager<A, R>, cs: seq<Call<A, R>>, id: SessionId)
    requires id !in m.sessions
    requires forall i :: 0 <= i < |cs| && cs[i].New? ==> cs[i].cfg.id != id
    ensures Expected(m, cs, id).None?
    decreases |cs|
  {
    if cs != [] {
      ExpectedNone(m, cs[..|cs| - 1], id);
    }
  }

  /** An id deleted by call `i` and not created again afterwards is not found. */
  lemma DeletedSince<A, R>(m: Manager<A, R>, cs: seq<Call<A, R>>, i: nat, id: SessionId)
    requires i < |cs| && cs[i] == Delete(id)
    requires forall j :: i < j < |cs| && cs[j].New? ==> cs[j].cfg.id != id
    ensures GetSession(Run(m, cs), id).None?
  {
    RunMatchesExpected(m, cs, id);
    ExpectedDeleted(m, cs, i, id);
  }

  lemma {:induction false} ExpectedDeleted<A, R>(m: Manager<A, R>, cs: seq<Call<A, R>>, i: nat, id: SessionId)
    requires i < |cs| && cs[i] == Delete(id)
    requires forall j :: i < j < |cs| && cs[j].New? ==> cs[j].cfg.id != id
    ensures Expected(m, cs, id).None?
    decreases |cs|
  {
    if i < |cs| - 1 {
      ExpectedDeleted(m, cs[..|cs| - 1], i, id);
    }
  }
}
