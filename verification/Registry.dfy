/** The server's registry of sessions: one entry per client key, replaced when the client
    authenticates again, removed by a reaper when the session's multiplexer is done. */
module Registry {
  import opened Bytes

  type Key = bytes

  /** `dead`: the multiplexer is done. `closed`: closeSession ran, which ends the multiplexer too.
      `reaped`: the goroutine waiting for the end has run. */
  datatype Session = Session(client: Key, closed: bool, dead: bool, reaped: bool)

  /** Sessions are named by their position in `sessions`, all ever installed, oldest first. */
  datatype State = State(sessions: seq<Session>, active: map<Key, nat>)

  const EMPTY := State([], map[])

  function Closed(s: Session): Session {
    s.(closed := true, dead := true)
  }

  /** The section of the authentication callback under the lock: close the client's previous
      session, if the map has one, and install the new one. */
  function Install(s: State, client: Key): State {
    var earlier := if client in s.active && s.active[client] < |s.sessions|
               then s.sessions[s.active[client] := Closed(s.sessions[s.active[client]])] else s.sessions;
    State(earlier + [Session(client, false, false, false)], s.active[client := |s.sessions|])
  }

  /** A multiplexer ends by itself: the client left, or its transport failed. */
  function Die(s: State, i: nat): State {
    if i < |s.sessions| then s.(sessions := s.sessions[i := s.sessions[i].(dead := true)]) else s
  }

  /** The reaper of session `i` runs, which it can once the session is dead. */
  function Reap(s: State, i: nat): State {
    if i >= |s.sessions| || !s.sessions[i].dead || s.sessions[i].reaped then s
    else
      var client := s.sessions[i].client;
      State(s.sessions[i := s.sessions[i].(reaped := true)],
            if client in s.active && s.active[client] == i
            then map k | k in s.active && k != client :: s.active[k] else s.active)
  }

  // ---------- What every state keeps ----------

  /** The map points at the newest session of each client, not reaped yet. Every other session is
      dead. A closed session is dead, a reaped one is dead. */
  ghost predicate Sound(s: State) {
    && (forall k :: k in s.active ==>
          && s.active[k] < |s.sessions|
          && s.sessions[s.active[k]].client == k
          && !s.sessions[s.active[k]].reaped
          && !s.sessions[s.active[k]].closed
          && Newest(s, s.active[k]))
    && (forall i :: 0 <= i < |s.sessions| ==>
          && (s.sessions[i].closed || s.sessions[i].reaped ==> s.sessions[i].dead)
          && (Mapped(s, i) || s.sessions[i].dead))
  }

  predicate Mapped(s: State, i: nat)
    requires i < |s.sessions|
  {
    s.sessions[i].client in s.active && s.active[s.sessions[i].client] == i
  }

  predicate Newest(s: State, i: nat)
    requires i < |s.sessions|
  {
    forall j :: i < j < |s.sessions| ==> s.sessions[j].client != s.sessions[i].client
  }

  lemma InstallSound(s: State, client: Key)
    requires Sound(s)
    ensures Sound(Install(s, client))
  {
  }

  /** The new session is the client's live and newest one, and its entry names it; the one the entry
      named before is closed, and nothing else has changed. */
  lemma InstallMeans(s: State, client: Key)
    requires Sound(s)
    ensures var s', n := Install(s, client), |s.sessions|;
            && |s'.sessions| == n + 1 && Live(s', n) && s'.sessions[n].client == client
            && Mapped(s', n) && Newest(s', n)
            && (forall k :: k != client ==> (k in s'.active <==> k in s.active))
            && (forall k :: k != client && k in s.active ==> s'.active[k] == s.active[k])
            && (forall i :: 0 <= i < n ==>
                  s'.sessions[i] == if client in s.active && s.active[client] == i then Closed(s.sessions[i])
                                    else s.sessions[i])
            && (client in s.active ==> s'.sessions[s.active[client]].closed && !Live(s', s.active[client]))
  {
  }

  /** Only that session is dead now that was not before, and the map stays. */
  lemma DieSound(s: State, i: nat)
    requires Sound(s)
    ensures Sound(Die(s, i)) && Die(s, i).active == s.active && |Die(s, i).sessions| == |s.sessions|
    ensures i < |s.sessions| ==> !Live(Die(s, i), i)
    ensures forall j :: 0 <= j < |s.sessions| && j != i ==> Die(s, i).sessions[j] == s.sessions[j]
  {
  }

  /** A late reaper never evicts a successor: only the reaper's own session can leave the map; and the
      reaper of a dead session does its work, after which no entry names that session. */
  lemma ReapSound(s: State, i: nat)
    requires Sound(s)
    ensures Sound(Reap(s, i))
    ensures var s' := Reap(s, i);
            && (forall k :: k in s.active && s.active[k] != i ==> k in s'.active && s'.active[k] == s.active[k])
            && (forall k :: k in s'.active ==> k in s.active && s'.active[k] == s.active[k])
            && |s'.sessions| == |s.sessions|
            && (forall j :: 0 <= j < |s.sessions| ==> s'.sessions[j].dead == s.sessions[j].dead)
            && (forall j :: 0 <= j < |s.sessions| && j != i ==> s'.sessions[j] == s.sessions[j])
            && (i < |s.sessions| && s.sessions[i].dead ==> s'.sessions[i].reaped && !Mapped(s', i))
  {
  }

  // ---------- Every run ----------

  datatype Op = Authenticated(client: Key) | MuxDied(session: nat) | Reaped(session: nat)

  function Apply(s: State, op: Op): State {
    match op
    case Authenticated(client) => Install(s, client)
    case MuxDied(i) => Die(s, i)
    case Reaped(i) => Reap(s, i)
  }

  function Run(s: State, ops: seq<Op>): State
    decreases |ops|
  {
    if ops == [] then s else Run(Apply(s, ops[0]), ops[1..])
  }

  lemma {:induction false} RunSound(s: State, ops: seq<Op>)
    requires Sound(s)
    ensures Sound(Run(s, ops))
    decreases |ops|
  {
    if ops != [] {
      match ops[0] {
        case Authenticated(client) => InstallSound(s, client);
        case MuxDied(i) => DieSound(s, i);
        case Reaped(i) => ReapSound(s, i);
      }
      hide Sound, Install, Die, Reap;
      RunSound(Apply(s, ops[0]), ops[1..]);
    }
  }

  predicate Live(s: State, i: int) {
    0 <= i < |s.sessions| && !s.sessions[i].dead
  }

  /** No reaper is waiting for its lock. */
  predicate Drained(s: State) {
    forall i :: 0 <= i < |s.sessions| && s.sessions[i].dead ==> s.sessions[i].reaped
  }

  /** In every reachable state a session that is not dead is the one its client's entry names, so a
      client has at most one, and it is the newest; an entry naming a dead session still has its
      reaper to come, so once the reapers have run the map holds exactly the live sessions. */
  lemma AtMostOneLiveSession(ops: seq<Op>)
    ensures var s := Run(EMPTY, ops);
            && (forall i, j :: Live(s, i) && Live(s, j) && s.sessions[i].client == s.sessions[j].client ==> i == j)
            && (forall i :: Live(s, i) ==> Mapped(s, i) && Newest(s, i))
            && (forall k :: k in s.active ==> s.active[k] < |s.sessions| && !s.sessions[s.active[k]].reaped)
            && (Drained(s) ==>
                  forall i :: 0 <= i < |s.sessions| ==> (Mapped(s, i) <==> Live(s, i)))
  {
    RunSound(EMPTY, ops);
    var s := Run(EMPTY, ops);
    assert forall i :: Live(s, i) ==> Mapped(s, i);
  }

  // ---------- The registry object ----------

  class SessionRegistry {
    const allowedClients: set<Key>
    var sessions: seq<Session>
    var activeSessions: map<Key, nat>

    function View(): State
      reads this
    {
      State(sessions, activeSessions)
    }

    ghost predicate Valid()
      reads this
    {
      Sound(View())
    }

    constructor (allowed: set<Key>)
      ensures Valid() && View() == EMPTY && allowedClients == allowed
    {
      allowedClients := allowed;
      sessions, activeSessions := [], map[];
    }

    /** closeSession: only the first call has an effect. */
    method CloseSession(i: nat)
      requires i < |sessions|
      modifies this`sessions
      ensures sessions == old(sessions)[i := Closed(old(sessions)[i])] || old(sessions)[i].closed
      ensures old(sessions)[i].closed ==> sessions == old(sessions)
    {
      if !sessions[i].closed {
        sessions := sessions[i := sessions[i].(closed := true, dead := true)];
      }
    }

    /** The authentication callback after the handshake message was read. An empty list of allowed
        clients allows everyone. */
    method OnAuth(client: Key) returns (session: Option<nat>)
      requires Valid()
      modifies this
      ensures Valid()
      ensures session.None? <==> allowedClients != {} && client !in allowedClients
      ensures View() == if session.Some? then Install(old(View()), client) else old(View())
      ensures session.Some? ==> session.value == |old(sessions)|
    {
      if allowedClients != {} && client !in allowedClients {
        return None;
      }
      InstallSound(View(), client);
      ghost var before := View();
      if client in activeSessions {
        CloseSession(activeSessions[client]);
      }
      var newSess := |sessions|;
      sessions := sessions + [Session(client, false, false, false)];
      activeSessions := activeSessions[client := newSess];
      assert View() == Install(before, client);
      session := Some(newSess);
    }

    method MuxDone(i: nat)
      requires Valid() && i < |sessions|
      modifies this`sessions
      ensures Valid() && View() == Die(old(View()), i)
    {
      DieSound(View(), i);
      sessions := sessions[i := sessions[i].(dead := true)];
    }

    /** The goroutine that waits for the end of session `i`. */
    method ReapSession(i: nat)
      requires Valid() && i < |sessions| && sessions[i].dead && !sessions[i].reaped
      modifies this
      ensures Valid() && View() == Reap(old(View()), i)
    {
      ReapSound(View(), i);
      var client := sessions[i].client;
      if client in activeSessions && activeSessions[client] == i {
        activeSessions := map k | k in activeSessions && k != client :: activeSessions[k];
      }
      sessions := sessions[i := sessions[i].(reaped := true)];
    }
  }
}
