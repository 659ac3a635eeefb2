/** One agent process as the protocol sees it, and what holds between it and the controller's record
    of it in every reachable state. */
module Nodes {
  import opened Words
  import opened GpuSpec
  import opened MemdbSpec
  import opened ControllerInv
  import opened AgentSpec

  /** Where the agent is in its once-a-second controller update. */
  datatype Phase =
    | Idle
    | Registering(todo: seq<Claim>)   // assigned sessions read from the controller, not registered yet
    | Announcing(id: SessionId, todo: seq<Claim>) // one is registered, and not reported active yet
    | Sending(upd: Update)            // the merged update, not delivered yet
    | Stopped                         // the update task has ended

  /** `held` are the selections not released yet, `closing` the sessions that released theirs but have
      not pushed their closed event, `registered` every session id ever registered, in order. */
  datatype Node = Node(info: AgentInfo, avail: seq<Word64>, held: seq<Claim>, registered: seq<SessionId>,
                       closing: set<SessionId>, events: seq<SessionEvent>, phase: Phase)

  function Capacities(gpus: seq<GpuInfo>): (s: seq<Word64>)
    ensures |s| == |gpus| && forall i :: 0 <= i < |s| ==> s[i] == gpus[i].vram
  {
    seq(|gpus|, i requires 0 <= i < |gpus| => gpus[i].vram)
  }

  function NewNode(info: AgentInfo): Node {
    Node(info, Capacities(info.gpus), [], [], {}, [], Idle)
  }

  // ---- Steps of one agent ----

  /** The sessions the controller shows as assigned. */
  function AssignedClaims(sessions: seq<Session>): seq<Claim> {
    if sessions == [] then []
    else
      var last := sessions[|sessions| - 1];
      AssignedClaims(sessions[..|sessions| - 1]) + (if last.state == Assigned then [Claim(last.id, last.gpus)] else [])
  }

  function Poll(n: Node, row: AgentRow): Node {
    n.(phase := Registering(AssignedClaims(row.sessions)))
  }

  /** registerSession up to the start of the session's task: Select charges the GPUs with wrapping subtraction. */
  function Register(n: Node): Node
    requires n.phase.Registering? && n.phase.todo != []
  {
    var c := n.phase.todo[0];
    n.(avail := Debited(n.avail, c.gpus), held := n.held + [c], registered := n.registered + [c.id],
       phase := Announcing(c.id, n.phase.todo[1..]))
  }

  /** SessionActive, while the session's task is already at work. */
  function Announce(n: Node): Node
    requires n.phase.Announcing?
  {
    n.(events := n.events + [SessionEvent(n.phase.id, Active)], phase := Registering(n.phase.todo))
  }

  /** A session whose tasks have ended gives its VRAM back. */
  function Release(n: Node, k: nat): Node
    requires k < |n.held|
  {
    n.(avail := Credited(n.avail, n.held[k].gpus), held := Without(n.held, k), closing := n.closing + {n.held[k].id})
  }

  function PushClosed(n: Node, id: SessionId): Node {
    n.(events := n.events + [SessionEvent(id, Closed)], closing := n.closing - {id})
  }

  /** Drain the channels into one update; sessions with connection news only get the empty state. */
  function Drain(n: Node, connectionNews: set<SessionId>): Node {
    n.(events := [],
       phase := Sending(map id | id in EventIds(n.events) + connectionNews :: LastState(n.events, id)))
  }

  // ---- The invariant between an agent and its record ----

  /** News about `id` is on its way to the controller, or will never be sent. */
  predicate Pending(n: Node, id: SessionId) {
    match n.phase
    case Idle => false
    case Registering(_) => id in EventIds(n.events)
    case Announcing(a, _) => id == a || id in EventIds(n.events)
    case Sending(upd) => id in upd
    case Stopped => true
  }

  predicate HeldId(n: Node, id: SessionId) {
    exists c :: c in n.held && c.id == id
  }

  /** A session may be reported closed only once it has released its VRAM for good. */
  predicate MayReportClosed(n: Node, id: SessionId) {
    id in n.registered && !HeldId(n, id) && id !in n.closing
  }

  /** Every GPU shows its capacity less what the held claims charge, with nothing wrapped. */
  predicate Exact(n: Node) {
    && |n.avail| == |n.info.gpus|
    && forall i | 0 <= i < |n.avail| :: n.avail[i] == n.info.gpus[i].vram - Held(n.held, i)
  }

  /** No event is pushed twice between two drains. */
  predicate EventsOnce(events: seq<SessionEvent>, phase: Phase) {
    && (forall j, k :: 0 <= j < k < |events| ==> events[j] != events[k])
    && (phase.Announcing? ==> SessionEvent(phase.id, Active) !in events)
  }

  predicate NodeLocal(n: Node) {
    && Exact(n)
    && DistinctClaims(n.held)
    && (forall c | c in n.held :: c.id in n.registered)
    && (forall j, k :: 0 <= j < k < |n.registered| ==> n.registered[j] != n.registered[k])
    && (forall id | id in n.closing :: id in n.registered && !HeldId(n, id))
    && (forall e | e in n.events :: e.id in n.registered && (e.state == Active || e.state == Closed))
    && (forall e | e in n.events && e.state == Closed :: MayReportClosed(n, e.id))
    && EventsOnce(n.events, n.phase)
  }

  predicate TodoOk(claims: seq<Claim>, n: Node, todo: seq<Claim>) {
    DistinctClaims(todo) && forall c | c in todo :: c in claims && c.id !in n.registered
  }

  predicate PhaseOk(claims: seq<Claim>, n: Node) {
    match n.phase
    case Registering(todo) => TodoOk(claims, n, todo)
    case Announcing(id, todo) => TodoOk(claims, n, todo) && id in n.registered
    case Sending(upd) =>
      forall id | id in upd ::
        && (upd[id] == Active || upd[id] == Closed || upd[id] == Unset)
        && (upd[id] == Closed ==> MayReportClosed(n, id))
    case _ => true
  }

  /** Every claim the agent holds is one the controller records for it. */
  predicate HeldRecorded(claims: seq<Claim>, n: Node) {
    forall c | c in n.held :: c in claims
  }

  /** A session the controller still shows as assigned is not registered, unless news of it is pending. */
  predicate Fresh(sessions: seq<Session>, n: Node) {
    forall s | s in sessions && s.state == Assigned && s.id in n.registered :: Pending(n, s.id)
  }

  predicate RegisteredHere(table: Table, used: set<SessionId>, aid: AgentId, n: Node) {
    forall id | id in n.registered :: id in used && (id in table ==> table[id].agentId == Some(aid))
  }

  /** `row` is the controller's record of the agent, or the last one it had; `live` says it still has it. */
  predicate NodeOk(table: Table, used: set<SessionId>, live: bool, aid: AgentId, row: AgentRow, n: Node) {
    && row.info == n.info
    && NodeLocal(n)
    && HeldRecorded(ClaimsOf(row.sessions), n)
    && PhaseOk(ClaimsOf(row.sessions), n)
    && (live ==> Fresh(row.sessions, n))
    && RegisteredHere(table, used, aid, n)
  }

  lemma SameClaims(n: Node, n': Node)
    requires n'.info == n.info && n'.avail == n.avail && n'.held == n.held
    ensures Exact(n') == Exact(n)
    ensures forall id :: HeldId(n', id) == HeldId(n, id)
  {
  }

  // ---- The controller moves, the agent does not ----

  /** The record's claims may only grow and its assigned sessions may only shrink among those registered. */
  lemma RecordMoves(table: Table, table': Table, used: set<SessionId>, used': set<SessionId>, live: bool, live': bool,
                    aid: AgentId, row: AgentRow, row': AgentRow, n: Node)
    requires NodeOk(table, used, live, aid, row, n)
    requires row'.info == row.info && used <= used'
    requires forall c | c in ClaimsOf(row.sessions) :: c in ClaimsOf(row'.sessions)
    requires live' ==>
      live && forall s | s in row'.sessions && s.state == Assigned && s.id in n.registered :: s in row.sessions
    requires forall id | id in n.registered && id in table' :: table'[id].agentId == Some(aid)
    ensures NodeOk(table', used', live', aid, row', n)
  {
    hide NodeLocal, ClaimsOf, Pending;
  }

  // ---- The agent moves ----

  lemma NewNodeOk(table: Table, used: set<SessionId>, live: bool, aid: AgentId, row: AgentRow)
    requires row.sessions == []
    ensures NodeOk(table, used, live, aid, row, NewNode(row.info))
  {
  }

  lemma {:induction false} AssignedClaimsAre(sessions: seq<Session>)
    requires DistinctIds(sessions)
    ensures DistinctClaims(AssignedClaims(sessions))
    ensures forall c | c in AssignedClaims(sessions) ::
              exists s :: s in sessions && s.state == Assigned && c == Claim(s.id, s.gpus)
  {
    if sessions != [] {
      var init, last := sessions[..|sessions| - 1], sessions[|sessions| - 1];
      AssignedClaimsAre(init);
      assert sessions == init + [last];
      var before := AssignedClaims(init);
      forall j | 0 <= j < |before| ensures before[j].id != last.id {
        assert before[j] in before;
        var s :| s in init && before[j] == Claim(s.id, s.gpus);
      }
      forall c | c in AssignedClaims(sessions)
        ensures exists s :: s in sessions && s.state == Assigned && c == Claim(s.id, s.gpus)
      {
        if c in before {
          var s :| s in init && s.state == Assigned && c == Claim(s.id, s.gpus);
          assert s in sessions;
        } else {
          assert last in sessions;
        }
      }
    }
  }

  /** No session shown as assigned is missed. */
  lemma {:induction false} AssignedClaimsHas(sessions: seq<Session>, s: Session)
    requires s in sessions && s.state == Assigned
    ensures Claim(s.id, s.gpus) in AssignedClaims(sessions)
  {
    var init, last := sessions[..|sessions| - 1], sessions[|sessions| - 1];
    assert sessions == init + [last];
    if s in init {
      AssignedClaimsHas(init, s);
    }
  }

  /** A poll sets up exactly the sessions shown as assigned, with the GPUs they were given, and nothing else. */
  lemma PollTakes(n: Node, row: AgentRow, c: Claim)
    requires n.phase.Idle? && DistinctIds(row.sessions)
    ensures var n' := Poll(n, row);
            && n' == n.(phase := n'.phase) && n'.phase.Registering?
            && (c in n'.phase.todo <==>
                  exists s :: s in row.sessions && s.state == Assigned && c == Claim(s.id, s.gpus))
  {
    hide AssignedClaims;
    AssignedClaimsAre(row.sessions);
    if s :| s in row.sessions && s.state == Assigned && c == Claim(s.id, s.gpus) {
      AssignedClaimsHas(row.sessions, s);
    }
  }

  lemma PollOk(table: Table, used: set<SessionId>, aid: AgentId, row: AgentRow, n: Node)
    requires NodeOk(table, used, true, aid, row, n) && n.phase.Idle? && DistinctIds(row.sessions)
    ensures NodeOk(table, used, true, aid, row, Poll(n, row))
  {
    hide Exact, AssignedClaims;
    AssignedClaimsAre(row.sessions);
    SameClaims(n, Poll(n, row));
    forall c | c in AssignedClaims(row.sessions) ensures c in ClaimsOf(row.sessions) && c.id !in n.registered {
      var s :| s in row.sessions && s.state == Assigned && c == Claim(s.id, s.gpus);
      var k :| 0 <= k < |row.sessions| && row.sessions[k] == s;
      assert ClaimsOf(row.sessions)[k] == c;
    }
  }

  /** Claims drawn from a record within capacity fit each GPU. */
  lemma HeldFits(row: AgentRow, held: seq<Claim>, i: nat)
    requires Fits(row.info.gpus, row.sessions) && i < |row.info.gpus|
    requires DistinctClaims(held) && forall c | c in held :: c in ClaimsOf(row.sessions)
    ensures Held(held, i) <= row.info.gpus[i].vram
  {
    HeldSubset(held, ClaimsOf(row.sessions), i);
    HeldIsChargeAll(row.sessions, i);
  }

  /** The unguarded subtraction of Select never underflows when a session is registered. */
  lemma RegisterWithinFree(table: Table, used: set<SessionId>, live: bool, aid: AgentId, row: AgentRow, n: Node, i: nat)
    requires NodeOk(table, used, live, aid, row, n) && Fits(row.info.gpus, row.sessions)
    requires n.phase.Registering? && n.phase.todo != [] && i < |n.avail|
    ensures Charge(n.phase.todo[0].gpus, i) <= n.avail[i]
    ensures Register(n).avail[i] == n.info.gpus[i].vram - Held(Register(n).held, i)
  {
    hide Charge, ClaimsOf, Fresh;
    var c := n.phase.todo[0];
    assert c in n.phase.todo;
    HeldAppend(n.held, c, i);
    RegisterDistinct(n);
    HeldFits(row, n.held + [c], i);
  }

  lemma RegisterDistinct(n: Node)
    requires NodeLocal(n) && n.phase.Registering? && n.phase.todo != [] && n.phase.todo[0].id !in n.registered
    ensures DistinctClaims(n.held + [n.phase.todo[0]])
  {
    forall j | 0 <= j < |n.held| ensures n.held[j].id != n.phase.todo[0].id {
      assert n.held[j] in n.held;
    }
  }

  lemma RegisterOk(table: Table, used: set<SessionId>, live: bool, aid: AgentId, row: AgentRow, n: Node)
    requires NodeOk(table, used, live, aid, row, n) && Fits(row.info.gpus, row.sessions)
    requires n.phase.Registering? && n.phase.todo != []
    requires n.phase.todo[0].id in used
    requires n.phase.todo[0].id in table ==> table[n.phase.todo[0].id].agentId == Some(aid)
    ensures NodeOk(table, used, live, aid, row, Register(n))
  {
    hide Charge, ClaimsOf, Held, Fits;
    var n' := Register(n);
    assert n.phase.todo[0] in n.phase.todo;
    forall i | 0 <= i < |n.avail| ensures n'.avail[i] == n.info.gpus[i].vram - Held(n'.held, i) {
      RegisterWithinFree(table, used, live, aid, row, n, i);
    }
    RegisterDistinct(n);
    RegisterLocal(n);
    RegisterFresh(row.sessions, n);
  }

  lemma RegisterLocal(n: Node)
    requires NodeLocal(n) && n.phase.Registering? && n.phase.todo != [] && n.phase.todo[0].id !in n.registered
    requires Exact(Register(n)) && DistinctClaims(Register(n).held)
    ensures NodeLocal(Register(n))
  {
    hide Exact, DistinctClaims;
    var n' := Register(n);
    forall id | id in n.registered && !HeldId(n, id) ensures !HeldId(n', id) {
    }
  }

  lemma RegisterFresh(sessions: seq<Session>, n: Node)
    requires n.phase.Registering? && n.phase.todo != []
    ensures Fresh(sessions, n) ==> Fresh(sessions, Register(n))
  {
  }

  lemma AnnounceOk(table: Table, used: set<SessionId>, live: bool, aid: AgentId, row: AgentRow, n: Node)
    requires NodeOk(table, used, live, aid, row, n) && n.phase.Announcing?
    ensures NodeOk(table, used, live, aid, row, Announce(n))
  {
    hide Exact, ClaimsOf;
    var n', e := Announce(n), SessionEvent(n.phase.id, Active);
    SameClaims(n, n');
    assert forall x | x in n'.events :: x in n.events || x == e;
    assert e in n'.events;
    forall id | id in EventIds(n.events) || id == n.phase.id ensures id in EventIds(n'.events) {
      if id in EventIds(n.events) {
        var x :| x in n.events && x.id == id;
        assert x in n'.events;
      }
    }
  }

  lemma WithoutMembers<T>(s: seq<T>, k: nat)
    requires k < |s|
    ensures forall x | x in Without(s, k) :: x in s
    ensures forall x | x in s && x != s[k] :: x in Without(s, k)
  {
    forall x | x in s && x != s[k] ensures x in Without(s, k) {
      var j :| 0 <= j < |s| && s[j] == x;
      if j < k {
        assert Without(s, k)[j] == x;
      } else {
        assert Without(s, k)[j - 1] == x;
      }
    }
  }

  lemma ReleaseExact(n: Node, k: nat)
    requires Exact(n) && k < |n.held|
    ensures Exact(Release(n, k))
  {
    hide Charge, Held;
    forall i | 0 <= i < |n.avail| ensures Release(n, k).avail[i] == n.info.gpus[i].vram - Held(Release(n, k).held, i) {
      HeldWithout(n.held, k, i);
    }
  }

  lemma ReleaseOk(table: Table, used: set<SessionId>, live: bool, aid: AgentId, row: AgentRow, n: Node, k: nat)
    requires NodeOk(table, used, live, aid, row, n) && k < |n.held|
    ensures NodeOk(table, used, live, aid, row, Release(n, k))
  {
    hide Exact, ClaimsOf, Without, Debited, Credited;
    var n' := Release(n, k);
    ReleaseExact(n, k);
    WithoutMembers(n.held, k);
    ReleaseDistinct(n.held, k);
    forall id | id in n.registered && !HeldId(n, id) ensures !HeldId(n', id) && id != n.held[k].id {
      assert n.held[k] in n.held;
    }
    assert !HeldId(n', n.held[k].id);
    assert n.held[k] in n.held;
  }

  lemma ReleaseDistinct(held: seq<Claim>, k: nat)
    requires DistinctClaims(held) && k < |held|
    ensures DistinctClaims(Without(held, k))
    ensures forall c | c in Without(held, k) :: c.id != held[k].id
  {
    forall c | c in Without(held, k) ensures c.id != held[k].id {
      var j :| 0 <= j < |Without(held, k)| && Without(held, k)[j] == c;
      if j < k {
        assert held[j] == c;
      } else {
        assert held[j + 1] == c;
      }
    }
  }

  lemma PushClosedOk(table: Table, used: set<SessionId>, live: bool, aid: AgentId, row: AgentRow, n: Node,
                     id: SessionId)
    requires NodeOk(table, used, live, aid, row, n) && id in n.closing
    ensures NodeOk(table, used, live, aid, row, PushClosed(n, id))
  {
    hide Exact, ClaimsOf;
    var n' := PushClosed(n, id);
    SameClaims(n, n');
    forall e | e in n.events ensures e in n'.events {
    }
    assert EventIds(n.events) <= EventIds(n'.events);
  }

  lemma {:induction false} LastStateIn(events: seq<SessionEvent>, id: SessionId)
    requires id in EventIds(events)
    ensures SessionEvent(id, LastState(events, id)) in events
  {
    var last := events[|events| - 1];
    if last.id != id {
      var e :| e in events && e.id == id;
      assert e in events[..|events| - 1];
      LastStateIn(events[..|events| - 1], id);
    }
  }

  lemma DrainOk(table: Table, used: set<SessionId>, live: bool, aid: AgentId, row: AgentRow, n: Node,
                news: set<SessionId>)
    requires NodeOk(table, used, live, aid, row, n) && n.phase.Registering?
    ensures NodeOk(table, used, live, aid, row, Drain(n, news))
  {
    hide Exact, ClaimsOf;
    var n' := Drain(n, news);
    SameClaims(n, n');
    forall id | id in n'.phase.upd
      ensures n'.phase.upd[id] == Active || n'.phase.upd[id] == Closed || n'.phase.upd[id] == Unset
      ensures n'.phase.upd[id] == Closed ==> MayReportClosed(n', id)
    {
      if id in EventIds(n.events) {
        LastStateIn(n.events, id);
      } else {
        NoEvents(n.events, id);
      }
    }
  }

  lemma StopOk(table: Table, used: set<SessionId>, live: bool, aid: AgentId, row: AgentRow, n: Node)
    requires NodeOk(table, used, live, aid, row, n)
    ensures NodeOk(table, used, live, aid, row, n.(phase := Stopped))
  {
    hide Exact, ClaimsOf;
    var n' := n.(phase := Stopped);
    SameClaims(n, n');
  }

  /** A delivered update: the record loses only sessions the agent has finished with, and what it
      still shows as assigned is not registered. */
  lemma SendOk(table: Table, used: set<SessionId>, aid: AgentId, row: AgentRow, n: Node, done: Phase)
    requires NodeOk(table, used, true, aid, row, n) && n.phase.Sending? && (done.Idle? || done.Stopped?)
    requires Mirror(table, aid, row)
    ensures Listed(table, row.sessions)
    ensures NodeOk(Applied(table, SessionIdSet(row.sessions), n.phase.upd), used, true, aid,
                   UpdatedAgent(row, n.phase.upd, table), n.(phase := done))
  {
    hide Exact, Survivors, Credit, IdsOf;
    MirrorCopies(table, aid, row);
    var upd := n.phase.upd;
    var kept := Survivors(row.sessions, upd);
    var n' := n.(phase := done);
    SurvivorsAre(row.sessions, upd);
    SendHeld(row.sessions, n);
    SameClaims(n, n');
    forall t | t in kept ensures !(t.state == Assigned && t.id in n.registered) {
      var s :| s in row.sessions && !Closes(upd, s.id) && t == Carry(s, upd);
    }
  }

  lemma SendHeld(sessions: seq<Session>, n: Node)
    requires n.phase.Sending? && HeldRecorded(ClaimsOf(sessions), n) && PhaseOk(ClaimsOf(sessions), n)
    ensures HeldRecorded(ClaimsOf(Survivors(sessions, n.phase.upd)), n)
  {
    hide Survivors;
    var upd := n.phase.upd;
    var kept := Survivors(sessions, upd);
    SurvivorsAre(sessions, upd);
    forall c | c in n.held ensures c in ClaimsOf(kept) {
      var k :| 0 <= k < |sessions| && ClaimsOf(sessions)[k] == c;
      assert sessions[k] in sessions && HeldId(n, c.id);
      assert Carry(sessions[k], upd) in kept;
      var m :| 0 <= m < |kept| && kept[m] == Carry(sessions[k], upd);
      assert ClaimsOf(kept)[m] == c;
    }
  }

  // ---- A session that ends before it is announced ----

  lemma {:induction false} LastIsLatest(events: seq<SessionEvent>, j: nat)
    requires j < |events| && forall k | j < k < |events| :: events[k].id != events[j].id
    ensures LastState(events, events[j].id) == events[j].state
  {
    if j < |events| - 1 {
      LastIsLatest(events[..|events| - 1], j);
    }
  }

  /** A drained update reports exactly the sessions with news: each with the state pushed last for it, and without one
      as unset. */
  lemma DrainReports(n: Node, news: set<SessionId>, id: SessionId)
    requires n.phase.Registering?
    ensures var n' := Drain(n, news);
            && n' == n.(events := [], phase := n'.phase) && n'.phase.Sending?
            && (id in n'.phase.upd <==> id in news || exists j :: 0 <= j < |n.events| && n.events[j].id == id)
            && (id in n'.phase.upd ==>
                if exists j :: 0 <= j < |n.events| && n.events[j].id == id then
                  exists j :: 0 <= j < |n.events| && n.events[j] == SessionEvent(id, n'.phase.upd[id])
                              && forall k :: j < k < |n.events| ==> n.events[k].id != id
                else n'.phase.upd[id] == Unset)
  {
    hide LastState;
    if id in EventIds(n.events) {
      var j := LatestOf(n.events, id);
      LastIsLatest(n.events, j);
    } else {
      NoEvents(n.events, id);
    }
  }

  lemma {:induction false} LatestOf(events: seq<SessionEvent>, id: SessionId) returns (j: nat)
    requires id in EventIds(events)
    ensures j < |events| && events[j].id == id && forall k :: j < k < |events| ==> events[k].id != id
  {
    j := |events| - 1;
    if events[j].id != id {
      var e :| e in events && e.id == id;
      assert e in events[..j];
      j := LatestOf(events[..j], id);
    }
  }

  predicate ClosedBeforeActive(events: seq<SessionEvent>, id: SessionId) {
    exists i, j ::
      0 <= i < j < |events| && events[i] == SessionEvent(id, Closed) && events[j] == SessionEvent(id, Active)
  }

  /** The agent is done with the session, and has not said and will not say that it is closed. */
  predicate Silent(n: Node, id: SessionId) {
    && id in n.registered && !HeldId(n, id) && id !in n.closing
    && id !in EventIds(n.events)
    && (n.phase.Announcing? ==> n.phase.id != id)
    && (n.phase.Sending? ==> !Closes(n.phase.upd, id))
  }

  /** A finished session is reported active exactly when its end was pushed before its start; the agent will then
      never report it closed. */
  lemma DrainLosesIff(n: Node, id: SessionId, news: set<SessionId>)
    requires NodeLocal(n) && n.phase.Registering? && SessionEvent(id, Closed) in n.events
    ensures var n' := Drain(n, news);
            && id in n'.phase.upd
            && (n'.phase.upd[id] == Active <==> ClosedBeforeActive(n.events, id))
            && (n'.phase.upd[id] == Closed <==> !ClosedBeforeActive(n.events, id))
            && (Silent(n', id) <==> ClosedBeforeActive(n.events, id))
  {
    hide Exact, DistinctClaims, LastState;
    LastOfTwo(n.events, id);
    assert MayReportClosed(n, id);
    SameClaims(n, Drain(n, news));
  }

  lemma LastOfTwo(events: seq<SessionEvent>, id: SessionId)
    requires forall j, k :: 0 <= j < k < |events| ==> events[j] != events[k]
    requires forall e | e in events :: e.state == Active || e.state == Closed
    requires SessionEvent(id, Closed) in events
    ensures LastState(events, id) == if ClosedBeforeActive(events, id) then Active else Closed
  {
    var i :| 0 <= i < |events| && events[i] == SessionEvent(id, Closed);
    if ClosedBeforeActive(events, id) {
      var i', j :| 0 <= i' < j < |events|
        && events[i'] == SessionEvent(id, Closed) && events[j] == SessionEvent(id, Active);
      forall k | j < k < |events| ensures events[k].id != id {
        assert events[k] in events && events[k] != events[j] && events[k] != events[i'];
      }
      LastIsLatest(events, j);
    } else {
      forall k | i < k < |events| ensures events[k].id != id {
        assert events[k] in events && events[k] != events[i];
      }
      LastIsLatest(events, i);
    }
  }

  /** It can happen to every session about to be registered: its task may run to its end before it is announced. */
  lemma EndsUnannounced(n: Node)
    requires n.phase.Registering? && n.phase.todo != []
    ensures var id := n.phase.todo[0].id;
            ClosedBeforeActive(Announce(PushClosed(Release(Register(n), |n.held|), id)).events, id)
  {
    hide Charge, Without, Debited, Credited;
    var k, id := |n.events|, n.phase.todo[0].id;
    var events := Announce(PushClosed(Release(Register(n), |n.held|), id)).events;
    assert events == n.events + [SessionEvent(id, Closed)] + [SessionEvent(id, Active)];
    assert events[k] == SessionEvent(id, Closed) && events[k + 1] == SessionEvent(id, Active);
  }
}
