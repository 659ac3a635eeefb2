/** The agent's side of the controller protocol, on values: the claims it holds on its GPUs, the
    events its sessions push, and the update one tick sends. */
module AgentSpec {
  import opened Words
  import opened GpuSpec
  import opened MemdbSpec
  import opened ControllerInv

  // ---- Claims ----

  /** A session and the GPUs it was given. */
  datatype Claim = Claim(id: SessionId, gpus: seq<SessionGpu>)

  function ClaimsOf(sessions: seq<Session>): (cs: seq<Claim>)
    ensures |cs| == |sessions|
    ensures forall k :: 0 <= k < |cs| ==> cs[k] == Claim(sessions[k].id, sessions[k].gpus)
  {
    seq(|sessions|, k requires 0 <= k < |sessions| => Claim(sessions[k].id, sessions[k].gpus))
  }

  /** VRAM a list of claims charges to GPU `i`. */
  function Held(claims: seq<Claim>, i: nat): nat {
    if claims == [] then 0
    else Held(claims[..|claims| - 1], i) + Charge(claims[|claims| - 1].gpus, i)
  }

  predicate DistinctClaims(claims: seq<Claim>) {
    forall j, k :: 0 <= j < k < |claims| ==> claims[j].id != claims[k].id
  }

  function Without<T>(s: seq<T>, k: nat): seq<T>
    requires k < |s|
  {
    s[..k] + s[k + 1..]
  }

  lemma HeldAppend(claims: seq<Claim>, c: Claim, i: nat)
    ensures Held(claims + [c], i) == Held(claims, i) + Charge(c.gpus, i)
  {
    assert (claims + [c])[..|claims|] == claims;
  }

  lemma {:induction false} HeldConcat(a: seq<Claim>, b: seq<Claim>, i: nat)
    ensures Held(a + b, i) == Held(a, i) + Held(b, i)
  {
    if b == [] {
      assert a + b == a;
    } else {
      HeldConcat(a, b[..|b| - 1], i);
      assert (a + b)[..|a + b| - 1] == a + b[..|b| - 1];
    }
  }

  lemma HeldWithout(claims: seq<Claim>, k: nat, i: nat)
    requires k < |claims|
    ensures Held(claims, i) == Held(Without(claims, k), i) + Charge(claims[k].gpus, i)
  {
    hide Charge;
    assert claims == claims[..k] + [claims[k]] + claims[k + 1..];
    HeldConcat(claims[..k] + [claims[k]], claims[k + 1..], i);
    HeldAppend(claims[..k], claims[k], i);
    HeldConcat(claims[..k], claims[k + 1..], i);
  }

  lemma {:induction false} HeldIsChargeAll(sessions: seq<Session>, i: nat)
    ensures Held(ClaimsOf(sessions), i) == ChargeAll(sessions, i)
  {
    if sessions != [] {
      var init := sessions[..|sessions| - 1];
      HeldIsChargeAll(init, i);
      assert ClaimsOf(sessions)[..|sessions| - 1] == ClaimsOf(init);
    }
  }

  /** Claims drawn without repetition from a list charge no more than the list. */
  lemma {:induction false} HeldSubset(some: seq<Claim>, all: seq<Claim>, i: nat)
    requires DistinctClaims(some) && forall c | c in some :: c in all
    ensures Held(some, i) <= Held(all, i)
    decreases |some|
  {
    hide Charge;
    if some != [] {
      var init, last := some[..|some| - 1], some[|some| - 1];
      assert last in some;
      var k :| 0 <= k < |all| && all[k] == last;
      forall c | c in init ensures c in Without(all, k) {
        assert c in some;
        var j :| 0 <= j < |all| && all[j] == c;
        if j < k {
          assert Without(all, k)[j] == c;
        } else {
          assert Without(all, k)[j - 1] == c;
        }
      }
      HeldSubset(init, Without(all, k), i);
      HeldWithout(all, k, i);
      assert some == init + [last];
      HeldAppend(init, last, i);
    }
  }

  // ---- The update merged in one tick ----

  datatype SessionEvent = SessionEvent(id: SessionId, state: SessionState)

  datatype Connection = Connection(pid: string, processName: string, exitCode: int)

  datatype ConnectionEvent = ConnectionEvent(sessionId: SessionId, id: string, connection: Connection)

  datatype SessionUpdate = SessionUpdate(state: SessionState, connections: map<string, Connection>)

  /** The last state pushed for a session, Unset when there is none. */
  function LastState(events: seq<SessionEvent>, id: SessionId): SessionState {
    if events == [] then Unset
    else if events[|events| - 1].id == id then events[|events| - 1].state
    else LastState(events[..|events| - 1], id)
  }

  /** The last record pushed for each connection of a session. */
  function LastConnections(events: seq<ConnectionEvent>, id: SessionId): map<string, Connection> {
    if events == [] then map[]
    else
      var last := events[|events| - 1];
      var before := LastConnections(events[..|events| - 1], id);
      if last.sessionId == id then before[last.id := last.connection] else before
  }

  function EventIds(events: seq<SessionEvent>): set<SessionId> {
    set e | e in events :: e.id
  }

  function ConnectionIds(events: seq<ConnectionEvent>): set<SessionId> {
    set e | e in events :: e.sessionId
  }

  /** One entry for each session with news on either channel. */
  function Merged(ss: seq<SessionEvent>, cs: seq<ConnectionEvent>): map<SessionId, SessionUpdate> {
    map id | id in EventIds(ss) + ConnectionIds(cs) :: SessionUpdate(LastState(ss, id), LastConnections(cs, id))
  }

  /** What the controller's storage reads of an update. */
  function States(m: map<SessionId, SessionUpdate>): Update {
    map id | id in m :: m[id].state
  }

  function Entry(m: map<SessionId, SessionUpdate>, id: SessionId): SessionUpdate {
    if id in m then m[id] else SessionUpdate(Unset, map[])
  }

  lemma {:induction false} NoEvents(ss: seq<SessionEvent>, id: SessionId)
    requires id !in EventIds(ss)
    ensures LastState(ss, id) == Unset
  {
    if ss != [] {
      assert ss[|ss| - 1] in ss;
      NoEvents(ss[..|ss| - 1], id);
    }
  }

  lemma {:induction false} NoConnections(cs: seq<ConnectionEvent>, id: SessionId)
    requires id !in ConnectionIds(cs)
    ensures LastConnections(cs, id) == map[]
  {
    if cs != [] {
      assert cs[|cs| - 1] in cs;
      NoConnections(cs[..|cs| - 1], id);
    }
  }

  /** Receiving one session event updates exactly its entry. */
  lemma MergeSessionEvent(ss: seq<SessionEvent>, cs: seq<ConnectionEvent>, e: SessionEvent)
    ensures Merged(ss + [e], cs) == Merged(ss, cs)[e.id := Entry(Merged(ss, cs), e.id).(state := e.state)]
  {
    assert (ss + [e])[..|ss|] == ss;
    assert EventIds(ss + [e]) == EventIds(ss) + {e.id};
    if e.id !in Merged(ss, cs) {
      NoConnections(cs, e.id);
    }
  }

  /** Receiving one connection event updates exactly its entry. */
  lemma MergeConnectionEvent(ss: seq<SessionEvent>, cs: seq<ConnectionEvent>, e: ConnectionEvent)
    ensures var entry := Entry(Merged(ss, cs), e.sessionId);
            Merged(ss, cs + [e])
            == Merged(ss, cs)[e.sessionId := entry.(connections := entry.connections[e.id := e.connection])]
  {
    assert (cs + [e])[..|cs|] == cs;
    assert ConnectionIds(cs + [e]) == ConnectionIds(cs) + {e.sessionId};
    if e.sessionId !in Merged(ss, cs) {
      NoEvents(ss, e.sessionId);
      NoConnections(cs, e.sessionId);
    }
  }
}
