/** The invariant of the whole system and its preservation, action by action. */
module ProtocolInv {
  import opened Words
  import opened GpuSpec
  import opened MemdbSpec
  import opened ControllerInv
  import opened Memdb
  import opened Backend
  import opened AgentSpec
  import opened Nodes
  import opened Protocol

  /** A record's sessions belong to its agent and fit its GPUs. */
  predicate RecordOk(table: Table, used: set<SessionId>, aid: AgentId, row: AgentRow) {
    && Fits(row.info.gpus, row.sessions)
    && DistinctIds(row.sessions)
    && forall s | s in row.sessions :: s.id in used && (s.id in table ==> table[s.id].agentId == Some(aid))
  }

  predicate Known(w: World) {
    && (forall aid | aid in w.nodes :: aid in w.db.agents || aid in w.gone)
    && (forall aid | aid in w.db.agents :: aid in w.nodes && aid !in w.gone)
    && (forall sid | sid in w.db.sessions :: sid in w.used)
  }

  predicate NodesOk(w: World)
    requires Known(w)
  {
    forall aid | aid in w.nodes ::
      NodeOk(w.db.sessions, w.used, aid in w.db.agents, aid, Record(w, aid), w.nodes[aid])
  }

  predicate GoneOk(w: World) {
    forall aid | aid in w.gone :: RecordOk(w.db.sessions, w.used, aid, w.gone[aid])
  }

  /** `now` is the agent whose record was read as `then'`: it has gained no session and lost no VRAM since. */
  predicate StillFits(now: AgentRow, then': AgentRow, vram: Word64) {
    && now.info == then'.info
    && vram <= now.vramAvailable
    && forall c | c in ClaimsOf(now.sessions) :: c in ClaimsOf(then'.sessions)
  }

  predicate QueueOk(table: Table, queue: seq<Entry>) {
    && (forall j, k :: 0 <= j < k < |queue| ==> queue[j].id != queue[k].id)
    && (forall e | e in queue :: QueuedUnassigned(table, e.id) && table[e.id].requirements == e.row)
  }

  predicate SchedulerOk(w: World) {
    match w.scheduler
    case Resting => true
    case Offering(queue) => QueueOk(w.db.sessions, queue)
    case Choosing(entry, candidates, queue) =>
      && QueueOk(w.db.sessions, [entry] + queue)
      && entry.id in w.db.sessions
      && ValidRequest(entry.row)
      && (forall aid | aid in candidates ::
           && aid in w.nodes
           && Fits(candidates[aid].info.gpus, candidates[aid].sessions)
           && (aid in w.db.agents ==>
                 StillFits(w.db.agents[aid], candidates[aid], w.db.sessions[entry.id].vramRequired)))
    case Crashed => true
  }

  /** A credited session is recorded by no agent and can never be assigned again. */
  ghost predicate CreditsOk(w: World) {
    forall sid | Credits(w, sid) > 0 ::
      && Credits(w, sid) == 1
      && sid in w.used
      && (sid in w.db.sessions ==> w.db.sessions[sid].agentId.Some?)
      && forall aid | aid in w.db.agents :: sid !in SessionIdSet(w.db.agents[aid].sessions)
  }

  ghost predicate Inv(w: World) {
    && DbInv(w.db)
    && Known(w)
    && NodesOk(w)
    && GoneOk(w)
    && SchedulerOk(w)
    && CreditsOk(w)
  }

  // ---- Consequences of the storage invariant ----

  lemma LiveRecord(w: World, aid: AgentId)
    requires DbInv(w.db) && Known(w) && aid in w.db.agents
    ensures RecordOk(w.db.sessions, w.used, aid, w.db.agents[aid])
    ensures Mirror(w.db.sessions, aid, w.db.agents[aid])
  {
    hide Accounted, Fits, Placed;
    var row := w.db.agents[aid];
    assert AgentOk(w.db.sessions, aid, row);
    forall s | s in row.sessions ensures s.id in w.used && w.db.sessions[s.id].agentId == Some(aid) {
      assert Recorded(w.db.sessions, aid, s);
    }
  }

  lemma RecordHolds(w: World, aid: AgentId)
    requires DbInv(w.db) && Known(w) && GoneOk(w) && aid in w.nodes
    ensures RecordOk(w.db.sessions, w.used, aid, Record(w, aid))
  {
    hide DbInv, RecordOk;
    if aid in w.db.agents {
      LiveRecord(w, aid);
    }
  }

  // ---- Quiet changes of the database ----

  /** Session ids already issued keep their agent. */
  predicate TableStays(table: Table, table': Table, used: set<SessionId>) {
    forall sid | sid in table' && sid in used :: sid in table && table'[sid].agentId == table[sid].agentId
  }

  /** Same claims; no session becomes assigned. */
  predicate QuietRow(row: AgentRow, row': AgentRow) {
    && row'.info == row.info
    && ClaimsOf(row'.sessions) == ClaimsOf(row.sessions)
    && forall s | s in row'.sessions && s.state == Assigned :: s in row.sessions
  }

  lemma QuietNode(w: World, w': World, aid: AgentId)
    requires Known(w) && Known(w') && NodesOk(w) && aid in w.nodes && aid in w'.nodes && w'.nodes[aid] == w.nodes[aid]
    requires TableStays(w.db.sessions, w'.db.sessions, w.used) && w.used <= w'.used
    requires aid in w'.db.agents ==> aid in w.db.agents
    requires QuietRow(Record(w, aid), Record(w', aid))
    ensures NodeOk(w'.db.sessions, w'.used, aid in w'.db.agents, aid, Record(w', aid), w'.nodes[aid])
  {
    hide NodeLocal, HeldRecorded, PhaseOk, Fresh, ClaimsOf;
    var n := w.nodes[aid];
    assert NodeOk(w.db.sessions, w.used, aid in w.db.agents, aid, Record(w, aid), n);
    RecordMoves(w.db.sessions, w'.db.sessions, w.used, w'.used, aid in w.db.agents, aid in w'.db.agents, aid,
                Record(w, aid), Record(w', aid), n);
  }

  /** A record that is gone, or goes now, stays in order. */
  lemma QuietGone(w: World, w': World, aid: AgentId)
    requires DbInv(w.db) && Known(w) && GoneOk(w) && aid in w'.gone
    requires aid in w.gone || aid in w.db.agents
    requires w'.gone[aid] == Record(w, aid) && (aid in w.gone ==> aid !in w.db.agents)
    requires TableStays(w.db.sessions, w'.db.sessions, w.used) && w.used <= w'.used
    ensures RecordOk(w'.db.sessions, w'.used, aid, w'.gone[aid])
  {
    hide DbInv, Fits, DistinctIds;
    if aid in w.db.agents {
      LiveRecord(w, aid);
    }
  }

  lemma QuietQueue(table: Table, table': Table, queue: seq<Entry>)
    requires QueueOk(table, queue) && QueueStays(table, table')
    ensures QueueOk(table', queue)
  {
  }

  /** The scheduler is undisturbed when unassigned sessions stay and candidates keep fitting. */
  lemma QuietScheduler(w: World, w': World)
    requires SchedulerOk(w) && w'.scheduler == w.scheduler && w.nodes.Keys <= w'.nodes.Keys
    requires QueueStays(w.db.sessions, w'.db.sessions)
    requires forall aid | aid in w'.db.agents && aid in w.nodes ::
               aid in w.db.agents && Narrowed(w.db.agents[aid], w'.db.agents[aid])
    ensures SchedulerOk(w')
  {
    hide Fits, ClaimsOf;
    match w.scheduler
    case Resting =>
    case Offering(queue) => QuietQueue(w.db.sessions, w'.db.sessions, queue);
    case Choosing(entry, candidates, queue) =>
      assert ([entry] + queue)[0] == entry && entry in [entry] + queue;
      assert QueuedUnassigned(w.db.sessions, entry.id);
      QuietQueue(w.db.sessions, w'.db.sessions, [entry] + queue);
    case Crashed =>
  }

  predicate Narrowed(row: AgentRow, row': AgentRow) {
    && row'.info == row.info
    && row.vramAvailable <= row'.vramAvailable
    && forall c | c in ClaimsOf(row'.sessions) :: c in ClaimsOf(row.sessions)
  }

  lemma QuietCredits(w: World, w': World)
    requires CreditsOk(w) && w'.credited == w.credited && w.used <= w'.used
    requires TableStays(w.db.sessions, w'.db.sessions, w.used)
    requires forall aid | aid in w'.db.agents ::
               SessionIdSet(w'.db.agents[aid].sessions) <=
               if aid in w.db.agents then SessionIdSet(w.db.agents[aid].sessions) else {}
    ensures CreditsOk(w')
  {
    hide SessionIdSet;
    forall sid | Credits(w', sid) > 0
      ensures Credits(w', sid) == 1 && sid in w'.used
      ensures sid in w'.db.sessions ==> w'.db.sessions[sid].agentId.Some?
      ensures forall aid | aid in w'.db.agents :: sid !in SessionIdSet(w'.db.agents[aid].sessions)
    {
      assert Credits(w, sid) == Credits(w', sid);
    }
  }

  lemma QuietIds(row: AgentRow, row': AgentRow)
    requires ClaimsOf(row'.sessions) == ClaimsOf(row.sessions)
    ensures SessionIdSet(row'.sessions) == SessionIdSet(row.sessions)
  {
    forall k | 0 <= k < |row.sessions| ensures row'.sessions[k].id == row.sessions[k].id {
      assert ClaimsOf(row'.sessions)[k] == ClaimsOf(row.sessions)[k];
    }
    forall id ensures id in SessionIdSet(row'.sessions) <==> id in SessionIdSet(row.sessions) {
      if id in SessionIdSet(row'.sessions) {
        var s :| s in row'.sessions && s.id == id;
        var k :| 0 <= k < |row'.sessions| && row'.sessions[k] == s;
        assert row.sessions[k] in row.sessions;
      }
      if id in SessionIdSet(row.sessions) {
        var s :| s in row.sessions && s.id == id;
        var k :| 0 <= k < |row.sessions| && row.sessions[k] == s;
        assert row'.sessions[k] in row'.sessions;
      }
    }
  }

  /** The sessions that wait to be assigned are still there as they were. */
  ghost predicate QueueStays(table: Table, table': Table) {
    forall sid | QueuedUnassigned(table, sid) ::
      && QueuedUnassigned(table', sid)
      && table'[sid].requirements == table[sid].requirements
      && table'[sid].vramRequired == table[sid].vramRequired
  }

  /** A database step that leaves every record's claims alone keeps the invariant for all agents that
      were there before. */
  ghost predicate Calm(w: World, w': World) {
    && w'.credited == w.credited && w.used <= w'.used
    && TableStays(w.db.sessions, w'.db.sessions, w.used)
    && (forall aid | aid in w'.db.agents && aid in w.db.agents ::
          QuietRow(w.db.agents[aid], w'.db.agents[aid])
          && w.db.agents[aid].vramAvailable == w'.db.agents[aid].vramAvailable)
    && w.nodes.Keys <= w'.nodes.Keys
    && (forall aid | aid in w'.db.agents && aid !in w.db.agents :: aid !in w.nodes && w'.db.agents[aid].sessions == [])
    && (forall aid | aid in w'.gone :: aid in w.gone || aid in w.db.agents)
    && (forall aid | aid in w'.gone :: w'.gone[aid] == Record(w, aid))
  }

  /** One that the scheduler does not notice either. */
  ghost predicate Quiet(w: World, w': World) {
    Calm(w, w') && w'.scheduler == w.scheduler && QueueStays(w.db.sessions, w'.db.sessions)
  }

  lemma QuietKeeps(w: World, w': World)
    requires Inv(w) && Quiet(w, w') && DbInv(w'.db) && Known(w')
    ensures GoneOk(w') && SchedulerOk(w') && CreditsOk(w')
  {
    hide DbInv, NodesOk, GoneOk, CreditsOk, SchedulerOk, Narrowed, TableStays;
    CalmKeeps(w, w');
    forall aid | aid in w'.db.agents && aid in w.db.agents ensures Narrowed(w.db.agents[aid], w'.db.agents[aid]) {
      CalmAgent(w, w', aid);
    }
    QuietScheduler(w, w');
  }

  lemma CalmKeeps(w: World, w': World)
    requires Inv(w) && Calm(w, w') && DbInv(w'.db) && Known(w')
    ensures GoneOk(w') && CreditsOk(w')
  {
    hide DbInv, NodesOk, QuietRow, SchedulerOk, CreditsOk, RecordOk, SessionIdSet, TableStays;
    forall aid | aid in w'.gone ensures RecordOk(w'.db.sessions, w'.used, aid, w'.gone[aid]) {
      QuietGone(w, w', aid);
    }
    forall aid | aid in w'.db.agents
      ensures SessionIdSet(w'.db.agents[aid].sessions)
           <= if aid in w.db.agents then SessionIdSet(w.db.agents[aid].sessions) else {}
    {
      CalmAgent(w, w', aid);
    }
    QuietCredits(w, w');
  }

  lemma CalmAgent(w: World, w': World, aid: AgentId)
    requires Calm(w, w') && aid in w'.db.agents
    ensures SessionIdSet(w'.db.agents[aid].sessions)
         <= if aid in w.db.agents then SessionIdSet(w.db.agents[aid].sessions) else {}
    ensures aid in w.db.agents ==> Narrowed(w.db.agents[aid], w'.db.agents[aid])
  {
    hide TableStays, ClaimsOf;
    if aid in w.db.agents {
      assert QuietRow(w.db.agents[aid], w'.db.agents[aid]);
      QuietIds(w.db.agents[aid], w'.db.agents[aid]);
    }
  }

  // ---- Actions of the scheduler alone ----

  predicate SchedulerAction(a: Action) {
    a.CancelA? || a.ReadQueueA? || a.SkipA? || a.OfferA? || a.GiveUpA? || a.RestA?
  }

  lemma QueueTail(table: Table, queue: seq<Entry>)
    requires QueueOk(table, queue) && queue != []
    ensures QueueOk(table, queue[1..]) && queue == [queue[0]] + queue[1..]
  {
  }

  lemma OfferOk(w: World)
    requires DbInv(w.db) && Known(w) && SchedulerOk(w) && Enabled(w, OfferA)
    ensures SchedulerOk(Apply(w, OfferA))
  {
    hide AgentOk, Fits, ClaimsOf, TotalVramRequired;
    QueueTail(w.db.sessions, w.scheduler.queue);
    forall aid | aid in w.db.agents ensures Fits(w.db.agents[aid].info.gpus, w.db.agents[aid].sessions) {
      AgentFits(w.db, aid);
    }
  }

  lemma SetScheduler(w: World, s: Scheduler)
    requires Inv(w) && SchedulerOk(w.(scheduler := s))
    ensures Inv(w.(scheduler := s))
  {
    hide DbInv, NodeOk, RecordOk, SchedulerOk;
    var w' := w.(scheduler := s);
    assert forall aid | aid in w.nodes :: Record(w', aid) == Record(w, aid);
    assert forall sid :: Credits(w', sid) == Credits(w, sid);
  }

  lemma SchedulerKeeps(w: World, a: Action)
    requires Inv(w) && Enabled(w, a) && SchedulerAction(a)
    ensures Inv(Apply(w, a))
  {
    hide AgentOk, NodesOk, GoneOk, CreditsOk, TotalVramRequired;
    match a
    case CancelA(_) =>
    case OfferA =>
      OfferOk(w);
      SetScheduler(w, Apply(w, a).scheduler);
    case SkipA =>
      QueueTail(w.db.sessions, w.scheduler.queue);
      SetScheduler(w, Apply(w, a).scheduler);
    case GiveUpA =>
      QueueTail(w.db.sessions, [w.scheduler.entry] + w.scheduler.queue);
      assert ([w.scheduler.entry] + w.scheduler.queue)[1..] == w.scheduler.queue;
      SetScheduler(w, Apply(w, a).scheduler);
    case ReadQueueA(queue) => SetScheduler(w, Offering(queue));
    case RestA => SetScheduler(w, Resting);
  }

  // ---- Actions of one agent alone ----

  predicate NodeAction(a: Action) {
    a.PollA? || a.RegisterA? || a.AnnounceA? || a.ReleaseA? || a.PushClosedA? || a.DrainA? || a.StopA?
  }

  /** The agent after its step. */
  ghost function NodeAfter(w: World, a: Action): Node
    requires NodeAction(a) && Enabled(w, a)
  {
    var n := w.nodes[a.aid];
    match a
    case PollA(aid) => Poll(n, w.db.agents[aid])
    case RegisterA(_) => Register(n)
    case AnnounceA(_) => Announce(n)
    case ReleaseA(_, k) => Release(n, k)
    case PushClosedA(_, sid) => PushClosed(n, sid)
    case DrainA(_, news) => Drain(n, news)
    case StopA(_) => n.(phase := Stopped)
  }

  /** One local step of a node that is as it should be. */
  lemma NodeStepOk(w: World, a: Action, row: AgentRow, n: Node)
    requires NodeAction(a) && Enabled(w, a) && n == w.nodes[a.aid]
    requires a.aid in w.db.agents ==> row == w.db.agents[a.aid] && Mirror(w.db.sessions, a.aid, row)
    requires RecordOk(w.db.sessions, w.used, a.aid, row)
    requires NodeOk(w.db.sessions, w.used, a.aid in w.db.agents, a.aid, row, n)
    ensures NodeOk(w.db.sessions, w.used, a.aid in w.db.agents, a.aid, row, NodeAfter(w, a))
  {
    hide Fits, DistinctIds, NodeLocal, ClaimsOf, Fresh, Mirror, Poll, Register, Announce, Release, Debited, Drain,
      PushClosed, HeldRecorded, RegisteredHere;
    var aid, table, used, live := a.aid, w.db.sessions, w.used, a.aid in w.db.agents;
    match a
    case PollA(_) => PollOk(table, used, aid, row, n);
    case RegisterA(_) =>
      TodoRecorded(row, n);
      RegisterOk(table, used, live, aid, row, n);
    case AnnounceA(_) => AnnounceOk(table, used, live, aid, row, n);
    case ReleaseA(_, k) => ReleaseOk(table, used, live, aid, row, n, k);
    case PushClosedA(_, sid) => PushClosedOk(table, used, live, aid, row, n, sid);
    case DrainA(_, news) => DrainOk(table, used, live, aid, row, n, news);
    case StopA(_) => StopOk(table, used, live, aid, row, n);
  }

  lemma NodeOfInv(w: World, aid: AgentId)
    requires Inv(w) && aid in w.nodes
    ensures Known(w) && DbInv(w.db) && RecordOk(w.db.sessions, w.used, aid, Record(w, aid))
    ensures NodeOk(w.db.sessions, w.used, aid in w.db.agents, aid, Record(w, aid), w.nodes[aid])
  {
    hide DbInv, SchedulerOk, CreditsOk, GoneOk, NodeOk, RecordOk;
    RecordHolds(w, aid);
  }

  lemma TodoRecorded(row: AgentRow, n: Node)
    requires PhaseOk(ClaimsOf(row.sessions), n) && n.phase.Registering? && n.phase.todo != []
    ensures exists s :: s in row.sessions && s.id == n.phase.todo[0].id
  {
    assert n.phase.todo[0] in ClaimsOf(row.sessions);
    var k :| 0 <= k < |row.sessions| && ClaimsOf(row.sessions)[k] == n.phase.todo[0];
    assert row.sessions[k] in row.sessions;
  }

  lemma NodeKeeps(w: World, a: Action)
    requires Inv(w) && Enabled(w, a) && NodeAction(a)
    ensures Inv(Apply(w, a))
  {
    assert a.aid in w.nodes;
    NodeOfInv(w, a.aid);
    NodeOnly(w, a);
    hide Inv, DbInv, NodeOk, RecordOk, Apply, Enabled, NodeAfter, Mirror;
    if a.aid in w.db.agents {
      LiveRecord(w, a.aid);
    }
    NodeStepOk(w, a, Record(w, a.aid), w.nodes[a.aid]);
    SetNodeKeeps(w, a.aid, NodeAfter(w, a));
  }

  lemma NodeOnly(w: World, a: Action)
    requires Enabled(w, a) && NodeAction(a)
    ensures a.aid in w.nodes && Apply(w, a) == SetNode(w, a.aid, NodeAfter(w, a))
  {
    hide Poll, Register, Announce, Release, Drain, PushClosed;
  }

  lemma SetNodeKeeps(w: World, aid: AgentId, n: Node)
    requires Inv(w) && aid in w.nodes
    requires NodeOk(w.db.sessions, w.used, aid in w.db.agents, aid, Record(w, aid), n)
    ensures Inv(SetNode(w, aid, n))
  {
    hide DbInv, NodeOk, GoneOk, SchedulerOk;
    var w' := SetNode(w, aid, n);
    assert forall sid :: Credits(w', sid) == Credits(w, sid);
    assert SchedulerOk(w') by { SetNodeScheduler(w, aid, n); }
    assert GoneOk(w') by { SetNodeGone(w, aid, n); }
  }

  lemma SetNodeScheduler(w: World, aid: AgentId, n: Node)
    requires aid in w.nodes
    ensures SchedulerOk(w) <==> SchedulerOk(SetNode(w, aid, n))
  {
  }

  lemma SetNodeGone(w: World, aid: AgentId, n: Node)
    requires GoneOk(w)
    ensures GoneOk(SetNode(w, aid, n))
  {
  }

  // ---- Quiet database actions ----

  /** The agents that were there before are in order after a quiet step that does not move them. */
  lemma CalmNodes(w: World, w': World)
    requires Inv(w) && Calm(w, w') && Known(w')
    requires forall aid | aid in w'.nodes :: (aid in w.nodes && w'.nodes[aid] == w.nodes[aid]) || Newborn(w', aid)
    requires forall aid | aid in w'.nodes && aid in w.nodes :: aid in w'.db.agents ==> aid in w.db.agents
    ensures NodesOk(w')
  {
    hide DbInv, GoneOk, SchedulerOk, CreditsOk, NodeOk, ClaimsOf, TableStays;
    forall aid | aid in w'.nodes
      ensures NodeOk(w'.db.sessions, w'.used, aid in w'.db.agents, aid, Record(w', aid), w'.nodes[aid])
    {
      if aid in w.nodes && w'.nodes[aid] == w.nodes[aid] {
        CalmRecord(w, w', aid);
        QuietNode(w, w', aid);
      } else {
        NewNodeOk(w'.db.sessions, w'.used, true, aid, w'.db.agents[aid]);
      }
    }
  }

  predicate Newborn(w: World, aid: AgentId) {
    && aid in w.nodes && aid in w.db.agents
    && w.db.agents[aid].sessions == [] && w.nodes[aid] == NewNode(w.db.agents[aid].info)
  }

  lemma CalmRecord(w: World, w': World, aid: AgentId)
    requires Known(w) && NodesOk(w) && Calm(w, w') && Known(w') && aid in w.nodes && aid in w'.nodes
    requires aid in w'.db.agents ==> aid in w.db.agents
    ensures QuietRow(Record(w, aid), Record(w', aid))
  {
    hide NodeLocal, HeldRecorded, PhaseOk, Fresh, TableStays;
    if aid in w'.db.agents {
      assert QuietRow(w.db.agents[aid], w'.db.agents[aid]);
    }
  }

  lemma RequestQuiet(w: World, sid: SessionId, req: Requirements)
    requires Known(w) && Enabled(w, RequestA(sid, req))
    ensures Quiet(w, w.(db := RequestSession(w.db, sid, req), used := w.used + {sid}))
  {
    hide DbInv, NodesOk, GoneOk, SchedulerOk, CreditsOk;
  }

  lemma RequestInv(w: World, sid: SessionId, req: Requirements)
    requires Inv(w) && Enabled(w, RequestA(sid, req))
    ensures Inv(Apply(w, RequestA(sid, req)))
  {
    hide DbInv, NodesOk, GoneOk, SchedulerOk, CreditsOk, Quiet, Calm, RequestSession;
    var w' := Apply(w, RequestA(sid, req));
    RequestQuiet(w, sid, req);
    RequestKeeps(w.db, sid, req);
    assert w'.db.agents == w.db.agents && w'.db.sessions.Keys == w.db.sessions.Keys + {sid} by {
      RequestShape(w.db, sid, req);
    }
    QuietIsCalm(w, w');
    QuietKeeps(w, w');
    CalmNodes(w, w');
  }

  lemma RequestShape(db: Db, sid: SessionId, req: Requirements)
    ensures RequestSession(db, sid, req).agents == db.agents
    ensures RequestSession(db, sid, req).sessions.Keys == db.sessions.Keys + {sid}
  {
  }

  lemma SameSessionsQuiet(row: AgentRow, row': AgentRow)
    requires row'.info == row.info && row'.sessions == row.sessions
    ensures QuietRow(row, row')
  {
  }

  lemma RegisterAgentKnown(w: World, aid: AgentId, info: AgentInfo)
    requires Known(w) && Enabled(w, RegisterAgentA(aid, info))
    ensures var w' := w.(db := RegisterAgent(w.db, aid, info, AgentActive), nodes := w.nodes[aid := NewNode(info)]);
      Known(w') && Newborn(w', aid)
  {
    hide NewNode, TotalVram;
  }

  lemma RegisterAgentQuiet(w: World, aid: AgentId, info: AgentInfo)
    requires Known(w) && Enabled(w, RegisterAgentA(aid, info))
    ensures Quiet(w, w.(db := RegisterAgent(w.db, aid, info, AgentActive), nodes := w.nodes[aid := NewNode(info)]))
  {
    hide NewNode, TotalVram, QuietRow, QueueStays;
    NoChange(w.db.sessions);
    forall other | other in w.db.agents ensures QuietRow(w.db.agents[other], w.db.agents[other]) {
      SameSessionsQuiet(w.db.agents[other], w.db.agents[other]);
    }
  }

  lemma RegisterAgentInv(w: World, aid: AgentId, info: AgentInfo)
    requires Inv(w) && Enabled(w, RegisterAgentA(aid, info))
    ensures Inv(Apply(w, RegisterAgentA(aid, info)))
  {
    hide DbInv, NodesOk, GoneOk, SchedulerOk, CreditsOk, NewNode, Quiet, Calm, Newborn, TotalVram;
    var w' := Apply(w, RegisterAgentA(aid, info));
    RegisterKeeps(w.db, aid, info, AgentActive);
    RegisterAgentKnown(w, aid, info);
    RegisterAgentQuiet(w, aid, info);
    QuietIsCalm(w, w');
    CalmNodes(w, w');
    QuietKeeps(w, w');
  }

  lemma SetMissingQuiet(w: World, silent: set<AgentId>)
    requires Inv(w)
    ensures Quiet(w, w.(db := SetMissing(w.db, silent))) && Known(w.(db := SetMissing(w.db, silent)))
  {
    hide DbInv, NodesOk, GoneOk, SchedulerOk, CreditsOk, QuietRow, Quiet;
    var db := SetMissing(w.db, silent);
    forall aid | aid in w.db.agents ensures QuietRow(w.db.agents[aid], db.agents[aid]) {
      SameSessionsQuiet(w.db.agents[aid], db.agents[aid]);
    }
    QuietDb(w, db);
  }

  /** Agents leave the database, and nothing else happens to the other agents and the waiting sessions. */
  lemma LeaveQuiet(w: World, db: Db)
    requires Known(w) && db.agents.Keys <= w.db.agents.Keys && db.sessions.Keys <= w.db.sessions.Keys
    requires forall aid | aid in db.agents :: db.agents[aid] == w.db.agents[aid]
    requires forall sid | sid in db.sessions :: db.sessions[sid] == w.db.sessions[sid]
    ensures Calm(w, RemoveAgents(w, db)) && Known(RemoveAgents(w, db))
    ensures QueueStays(w.db.sessions, db.sessions) ==> Quiet(w, RemoveAgents(w, db))
  {
    hide QuietRow, QueueStays;
    forall aid | aid in db.agents ensures QuietRow(w.db.agents[aid], db.agents[aid]) {
      SameSessionsQuiet(w.db.agents[aid], db.agents[aid]);
    }
  }

  lemma LeaveKeeps(w: World, db: Db)
    requires Inv(w) && DbInv(db) && db.agents.Keys <= w.db.agents.Keys && db.sessions.Keys <= w.db.sessions.Keys
    requires forall aid | aid in db.agents :: db.agents[aid] == w.db.agents[aid]
    requires forall sid | sid in db.sessions :: db.sessions[sid] == w.db.sessions[sid]
    requires QueueStays(w.db.sessions, db.sessions) || Unconcerned(w.scheduler)
    ensures Inv(RemoveAgents(w, db))
  {
    hide DbInv, NodesOk, GoneOk, CreditsOk, Quiet, Calm, QueueStays;
    var w' := RemoveAgents(w, db);
    LeaveQuiet(w, db);
    CalmNodes(w, w');
    CalmKeeps(w, w');
    if QueueStays(w.db.sessions, db.sessions) {
      hide SchedulerOk;
      QuietKeeps(w, w');
    }
  }

  lemma RemoveMissingIs(db: Db, silent: set<AgentId>)
    ensures var after := Committed(db, RemoveMissing(db, silent));
      && after.agents.Keys <= db.agents.Keys && after.sessions == db.sessions
      && forall aid | aid in after.agents :: after.agents[aid] == db.agents[aid]
  {
  }

  lemma SweepInv(w: World, a: Action)
    requires Inv(w) && Enabled(w, a) && (a.SetMissingA? || a.RemoveMissingA?)
    ensures Inv(Apply(w, a))
  {
    hide DbInv, NodesOk, GoneOk, SchedulerOk, CreditsOk, Quiet, Calm, Known, SetMissing, RemoveMissing;
    SweepsKeep(w.db, a.silent);
    if a.SetMissingA? {
      var w' := Apply(w, a);
      SetMissingQuiet(w, a.silent);
      SweepKeys(w.db, a.silent);
      QuietIsCalm(w, w');
      CalmNodes(w, w');
      QuietKeeps(w, w');
    } else {
      RemoveMissingIs(w.db, a.silent);
      LeaveKeeps(w, Committed(w.db, RemoveMissing(w.db, a.silent)));
    }
  }

  lemma QuietIsCalm(w: World, w': World)
    requires Quiet(w, w')
    ensures Calm(w, w')
  {
  }

  lemma SweepKeys(db: Db, silent: set<AgentId>)
    ensures SetMissing(db, silent).agents.Keys == db.agents.Keys
  {
  }

  lemma CancelQuietRow(db: Db, sid: SessionId, aid: AgentId)
    requires aid in db.agents
    ensures aid in IntendedCancel(db, sid).agents
    ensures QuietRow(db.agents[aid], IntendedCancel(db, sid).agents[aid])
    ensures IntendedCancel(db, sid).agents[aid].vramAvailable == db.agents[aid].vramAvailable
  {
    var row, row' := db.agents[aid], IntendedCancel(db, sid).agents[aid];
    assert |row'.sessions| == |row.sessions|;
    assert ClaimsOf(row'.sessions) == ClaimsOf(row.sessions);
    forall s | s in row'.sessions && s.state == Assigned ensures s in row.sessions {
      var k :| 0 <= k < |row'.sessions| && row'.sessions[k] == s;
      assert row.sessions[k] in row.sessions;
    }
  }

  lemma CancelTable(db: Db, sid: SessionId)
    ensures var db' := IntendedCancel(db, sid);
      && db'.agents.Keys == db.agents.Keys && db'.sessions.Keys == db.sessions.Keys
      && forall id | id in db.sessions ::
           && db'.sessions[id].agentId == db.sessions[id].agentId
           && db'.sessions[id].requirements == db.sessions[id].requirements
           && db'.sessions[id].vramRequired == db.sessions[id].vramRequired
  {
    hide MarkCanceling;
  }

  /** A change of the database alone that keeps its keys and what the agents are claimed for is quiet. */
  lemma QuietDb(w: World, db: Db)
    requires Known(w) && db.agents.Keys == w.db.agents.Keys && db.sessions.Keys == w.db.sessions.Keys
    requires forall id | id in db.sessions ::
               && db.sessions[id].agentId == w.db.sessions[id].agentId
               && db.sessions[id].requirements == w.db.sessions[id].requirements
               && db.sessions[id].vramRequired == w.db.sessions[id].vramRequired
    requires forall aid | aid in db.agents ::
               && QuietRow(w.db.agents[aid], db.agents[aid])
               && db.agents[aid].vramAvailable == w.db.agents[aid].vramAvailable
    requires forall aid | aid in w.gone :: w.gone[aid] == Record(w, aid)
    ensures Quiet(w, w.(db := db)) && Known(w.(db := db))
  {
    hide QuietRow;
  }

  lemma IntendedCancelQuiet(w: World, sid: SessionId)
    requires Inv(w)
    ensures Quiet(w, w.(db := IntendedCancel(w.db, sid))) && Known(w.(db := IntendedCancel(w.db, sid)))
  {
    hide DbInv, NodesOk, GoneOk, SchedulerOk, CreditsOk, QuietRow, Quiet, IntendedCancel;
    CancelTable(w.db, sid);
    forall aid | aid in w.db.agents
      ensures aid in IntendedCancel(w.db, sid).agents
      ensures QuietRow(w.db.agents[aid], IntendedCancel(w.db, sid).agents[aid])
      ensures IntendedCancel(w.db, sid).agents[aid].vramAvailable == w.db.agents[aid].vramAvailable
    {
      CancelQuietRow(w.db, sid, aid);
    }
    QuietDb(w, IntendedCancel(w.db, sid));
  }

  lemma IntendedCancelInv(w: World, sid: SessionId)
    requires Inv(w) && Enabled(w, IntendedCancelA(sid))
    ensures Inv(Apply(w, IntendedCancelA(sid)))
  {
    hide DbInv, NodesOk, GoneOk, SchedulerOk, CreditsOk, Quiet, Calm, IntendedCancel;
    var w' := Apply(w, IntendedCancelA(sid));
    CancelKeeps(w.db, sid);
    IntendedCancelQuiet(w, sid);
    QuietIsCalm(w, w');
    CancelTable(w.db, sid);
    CalmNodes(w, w');
    QuietKeeps(w, w');
  }

  // ---- Shutdown of an agent ----

  /** What the last update of an agent leaves of the database: everything with two sessions or more, all but the
      agent and its session with one, the other agents alone with none. */
  lemma CloseShape(db: Db, aid: AgentId)
    requires DbInv(db) && aid in db.agents
    ensures |db.agents[aid].sessionIds| == |db.agents[aid].sessions|
    ensures var after, n := Committed(db, UpdateAgent(db, aid, Some(AgentClosed), map[])), |db.agents[aid].sessions|;
      && (n >= 2 ==> after == db)
      && (n == 1 ==> after.agents == db.agents - {aid} && QueueStays(db.sessions, after.sessions))
      && (n == 0 ==> after == Db(db.agents - {aid}, map[]))
      && after.agents.Keys <= db.agents.Keys && after.sessions.Keys <= db.sessions.Keys
      && (forall other | other in after.agents :: after.agents[other] == db.agents[other])
      && (forall sid | sid in after.sessions :: after.sessions[sid] == db.sessions[sid])
  {
    hide Accounted, Fits, Placed;
    var row := db.agents[aid];
    assert AgentOk(db.sessions, aid, row);
    OnlySession(db.sessions, aid, row);
  }

  /** An agent's last update keeps the system in order exactly when it has a session of its own, or there is no
      session that the deletion of the whole table takes from another agent or from the scheduler. */
  lemma CloseInvIff(w: World, aid: AgentId)
    requires Inv(w) && Enabled(w, CloseA(aid))
    ensures Inv(Apply(w, CloseA(aid))) <==> Guarded(w, CloseA(aid))
  {
    hide DbInv, NodesOk, GoneOk, CreditsOk, SchedulerOk, UpdateAgent, QueueStays;
    CloseKeepsIff(w.db, aid, map[]);
    CloseShape(w.db, aid);
    var db := Committed(w.db, UpdateAgent(w.db, aid, Some(AgentClosed), map[]));
    var w1 := RemoveAgents(w, db);
    assert aid in w1.nodes && Apply(w, CloseA(aid)) == SetNode(w1, aid, w1.nodes[aid].(phase := Stopped));
    if Guarded(w, CloseA(aid)) {
      if |w.db.agents[aid].sessions| != 1 {
        assert QueueStays(w.db.sessions, db.sessions) || Unconcerned(w.scheduler) by { NoChange(w.db.sessions); }
      }
      LeaveKeeps(w, db);
      StopOne(w1, aid);
    } else if Alone(w.db, aid) {
      ConcernedBreaks(w1);
      SetNodeScheduler(w1, aid, w1.nodes[aid].(phase := Stopped));
    }
  }

  lemma NoChange(table: Table)
    ensures QueueStays(table, table)
  {
  }

  /** A scheduler that refers to a session needs the session table. */
  lemma ConcernedBreaks(w: World)
    requires !Unconcerned(w.scheduler) && w.db.sessions == map[]
    ensures !SchedulerOk(w)
  {
    if w.scheduler.Offering? {
      assert w.scheduler.queue[0] in w.scheduler.queue;
      assert QueuedUnassigned(w.db.sessions, w.scheduler.queue[0].id) || !SchedulerOk(w);
    }
  }

  lemma StopOne(w: World, aid: AgentId)
    requires Inv(w) && aid in w.nodes
    ensures Inv(SetNode(w, aid, w.nodes[aid].(phase := Stopped)))
  {
    hide DbInv, NodeOk, GoneOk, SchedulerOk, CreditsOk;
    StopOk(w.db.sessions, w.used, aid in w.db.agents, aid, Record(w, aid), w.nodes[aid]);
    SetNodeKeeps(w, aid, w.nodes[aid].(phase := Stopped));
  }

  // ---- Assignment ----

  /** A match made against a snapshot still fits the agent as it is now. */
  lemma SnapshotFits(now: AgentRow, then': AgentRow, vram: Word64, req: Requirements, gpus: seq<SessionGpu>)
    requires StillFits(now, then', vram) && Fits(then'.info.gpus, then'.sessions) && DistinctIds(now.sessions)
    requires ValidRequest(req) && MayMatch(then', req, gpus)
    ensures gpus != [] && InRange(gpus, |now.info.gpus|)
    ensures forall i: nat | i < |now.info.gpus| :: ChargeAll(now.sessions, i) + Charge(gpus, i) <= now.info.gpus[i].vram
  {
    hide ChargeAll, Charge, MayMatch, Fits, Held;
    MatchFits(then', req, gpus);
    forall i: nat | i < |now.info.gpus| ensures ChargeAll(now.sessions, i) <= ChargeAll(then'.sessions, i) {
      HeldIsChargeAll(now.sessions, i);
      HeldIsChargeAll(then'.sessions, i);
      HeldSubset(ClaimsOf(now.sessions), ClaimsOf(then'.sessions), i);
    }
  }

  lemma AssignInOrder(w: World, aid: AgentId, gpus: seq<SessionGpu>)
    requires DbInv(w.db) && Known(w) && SchedulerOk(w) && aid in w.db.agents
    requires w.scheduler.Choosing? && aid in w.scheduler.candidates
    requires MayMatch(w.scheduler.candidates[aid], w.scheduler.entry.row, gpus)
    ensures Assignable(w.db, w.scheduler.entry.id, aid, gpus)
  {
    hide AgentOk, SchedulerOk, MayMatch, ChargeAll, Charge, Eligible, IsFindResult, TotalVramRequired,
      Fits, FreeVram;
    var entry, cand := w.scheduler.entry, w.scheduler.candidates[aid];
    LiveRecord(w, aid);
    ChoosingSession(w);
    CandidateOk(w, aid);
    hide DbInv, Known;
    assert Eligible(cand.info, entry.row) by { MatchEligible(cand, entry.row, gpus); }
    SnapshotFits(w.db.agents[aid], cand, w.db.sessions[entry.id].vramRequired, entry.row, gpus);
  }

  lemma MatchEligible(cand: AgentRow, req: Requirements, gpus: seq<SessionGpu>)
    requires MayMatch(cand, req, gpus)
    ensures Eligible(cand.info, req)
  {
  }

  lemma CandidateOk(w: World, aid: AgentId)
    requires SchedulerOk(w) && w.scheduler.Choosing? && aid in w.scheduler.candidates && aid in w.db.agents
    ensures var entry, cand := w.scheduler.entry, w.scheduler.candidates[aid];
      && entry.id in w.db.sessions && ValidRequest(entry.row) && Fits(cand.info.gpus, cand.sessions)
      && StillFits(w.db.agents[aid], cand, w.db.sessions[entry.id].vramRequired)
  {
    hide Fits, StillFits, QueueOk;
  }

  lemma AssignShape(db: Db, sid: SessionId, aid: AgentId, gpus: seq<SessionGpu>)
    requires aid in db.agents && sid in db.sessions && db.sessions[sid].session.id == sid
    ensures AssignSession(db, sid, aid, gpus).Some?
    ensures var after, row := AssignSession(db, sid, aid, gpus).value, db.agents[aid];
            && after.agents.Keys == db.agents.Keys && after.sessions.Keys == db.sessions.Keys
            && (forall other | other in db.agents && other != aid :: after.agents[other] == db.agents[other])
            && (forall other | other in db.sessions && other != sid :: after.sessions[other] == db.sessions[other])
            && after.sessions[sid].agentId == Some(aid)
            && after.agents[aid] == WithSession(row, after.sessions[sid].session, db.sessions[sid].vramRequired)
            && after.sessions[sid].session.id == sid
  {
  }

  /** No agent has registered a session that is still unassigned. */
  lemma UnassignedUnregistered(w: World, sid: SessionId, aid: AgentId)
    requires Known(w) && NodesOk(w) && aid in w.nodes && QueuedUnassigned(w.db.sessions, sid)
    ensures sid !in w.nodes[aid].registered
  {
    hide NodeLocal, HeldRecorded, PhaseOk, Fresh;
    assert NodeOk(w.db.sessions, w.used, aid in w.db.agents, aid, Record(w, aid), w.nodes[aid]);
  }

  /** Assigning `sid` leaves every agent in order: the record of `aid` grows by one claim, and the
      session is one that no agent has registered. */
  lemma AssignNode(w: World, w': World, sid: SessionId, aid: AgentId, other: AgentId)
    requires Known(w) && NodesOk(w) && Known(w') && other in w.nodes && aid in w.db.agents
    requires QueuedUnassigned(w.db.sessions, sid) && w'.nodes == w.nodes && w'.used == w.used && w'.gone == w.gone
    requires w'.db.sessions.Keys == w.db.sessions.Keys && w'.db.agents.Keys == w.db.agents.Keys
    requires forall id | id in w.db.sessions && id != sid :: w'.db.sessions[id] == w.db.sessions[id]
    requires forall on | on in w.db.agents && on != aid :: w'.db.agents[on] == w.db.agents[on]
    requires w'.db.sessions[sid].session.id == sid
    requires w'.db.agents[aid] ==
             WithSession(w.db.agents[aid], w'.db.sessions[sid].session, w.db.sessions[sid].vramRequired)
    ensures NodeOk(w'.db.sessions, w'.used, other in w'.db.agents, other, Record(w', other), w'.nodes[other])
  {
    hide NodeLocal, HeldRecorded, PhaseOk, Fresh, ClaimsOf;
    var n, row, row' := w.nodes[other], Record(w, other), Record(w', other);
    assert NodeOk(w.db.sessions, w.used, other in w.db.agents, other, row, n);
    UnassignedUnregistered(w, sid, other);
    WithSessionClaims(w.db.agents[aid], w'.db.sessions[sid].session, w.db.sessions[sid].vramRequired);
    RecordMoves(w.db.sessions, w'.db.sessions, w.used, w'.used, other in w.db.agents, other in w'.db.agents, other,
                row, row', n);
  }

  lemma WithSessionClaims(row: AgentRow, s: Session, vram: Word64)
    ensures forall c | c in ClaimsOf(row.sessions) :: c in ClaimsOf(WithSession(row, s, vram).sessions)
    ensures forall t | t in WithSession(row, s, vram).sessions :: t in row.sessions || t == s
    ensures SessionIdSet(WithSession(row, s, vram).sessions) == SessionIdSet(row.sessions) + {s.id}
  {
    assert ClaimsOf(row.sessions + [s]) == ClaimsOf(row.sessions) + [Claim(s.id, s.gpus)];
    SessionIdSetAppend(row.sessions, s);
  }

  lemma ChoosingSession(w: World)
    requires DbInv(w.db) && SchedulerOk(w) && w.scheduler.Choosing?
    ensures var entry := w.scheduler.entry;
      && QueuedUnassigned(w.db.sessions, entry.id) && w.db.sessions[entry.id].session.id == entry.id
      && w.db.sessions[entry.id].requirements == entry.row
  {
    hide AgentOk;
    assert ([w.scheduler.entry] + w.scheduler.queue)[0] == w.scheduler.entry;
  }

  lemma AssignGone(w: World, w': World, sid: SessionId)
    requires GoneOk(w) && w'.gone == w.gone && w'.used == w.used && QueuedUnassigned(w.db.sessions, sid)
    requires w'.db.sessions.Keys == w.db.sessions.Keys
    requires forall id | id in w.db.sessions && id != sid :: w'.db.sessions[id] == w.db.sessions[id]
    ensures GoneOk(w')
  {
    hide Fits, DistinctIds;
    forall aid | aid in w'.gone ensures RecordOk(w'.db.sessions, w'.used, aid, w'.gone[aid]) {
      assert RecordOk(w.db.sessions, w.used, aid, w.gone[aid]);
    }
  }

  lemma AssignCredits(w: World, w': World, sid: SessionId, aid: AgentId)
    requires CreditsOk(w) && w'.credited == w.credited && w'.used == w.used && QueuedUnassigned(w.db.sessions, sid)
    requires w'.db.sessions.Keys == w.db.sessions.Keys && w'.db.agents.Keys == w.db.agents.Keys && aid in w.db.agents
    requires forall id | id in w.db.sessions && id != sid :: w'.db.sessions[id] == w.db.sessions[id]
    requires forall on | on in w.db.agents && on != aid :: w'.db.agents[on] == w.db.agents[on]
    requires SessionIdSet(w'.db.agents[aid].sessions) == SessionIdSet(w.db.agents[aid].sessions) + {sid}
    ensures CreditsOk(w')
  {
    hide SessionIdSet;
    forall id | Credits(w', id) > 0
      ensures Credits(w', id) == 1 && id in w'.used
      ensures id in w'.db.sessions ==> w'.db.sessions[id].agentId.Some?
      ensures forall on | on in w'.db.agents :: id !in SessionIdSet(w'.db.agents[on].sessions)
    {
      assert Credits(w, id) == Credits(w', id) && id != sid;
    }
  }

  lemma QueueAfter(table: Table, table': Table, entry: Entry, queue: seq<Entry>)
    requires QueueOk(table, [entry] + queue) && table'.Keys == table.Keys
    requires forall other | other in table && other != entry.id :: table'[other] == table[other]
    ensures QueueOk(table', queue)
  {
    forall j | 0 <= j < |queue|
      ensures queue[j].id != entry.id && QueuedUnassigned(table, queue[j].id)
      ensures table[queue[j].id].requirements == queue[j].row
    {
      assert ([entry] + queue)[j + 1] == queue[j] && ([entry] + queue)[0] == entry;
    }
    forall j, k | 0 <= j < k < |queue| ensures queue[j].id != queue[k].id {
      assert ([entry] + queue)[j + 1] == queue[j] && ([entry] + queue)[k + 1] == queue[k];
    }
  }

  /** An assignment to an agent that is gone crashes the controller, any other is in order. */
  lemma AssignInv(w: World, aid: AgentId, gpus: seq<SessionGpu>)
    requires Inv(w) && Enabled(w, AssignA(aid, gpus))
    ensures Inv(Apply(w, AssignA(aid, gpus)))
  {
    if aid in w.db.agents {
      AssignPlaced(w, aid, gpus);
    } else {
      hide DbInv, NodesOk, GoneOk, CreditsOk, MayMatch;
      SetScheduler(w, Crashed);
    }
  }

  lemma AssignPlaced(w: World, aid: AgentId, gpus: seq<SessionGpu>)
    requires Inv(w) && Enabled(w, AssignA(aid, gpus)) && aid in w.db.agents
    ensures Inv(Apply(w, AssignA(aid, gpus)))
  {
    hide DbInv, NodeOk, NodesOk, GoneOk, CreditsOk, MayMatch, Assignable, AssignSession, StillFits;
    var sid := w.scheduler.entry.id;
    AssignInOrder(w, aid, gpus);
    AssignKeeps(w.db, sid, aid, gpus);
    var w' := Apply(w, AssignA(aid, gpus));
    ChoosingSession(w);
    AssignShape(w.db, sid, aid, gpus);
    WithSessionClaims(w.db.agents[aid], w'.db.sessions[sid].session, w.db.sessions[sid].vramRequired);
    AssignGone(w, w', sid);
    AssignCredits(w, w', sid, aid);
    QueueAfter(w.db.sessions, w'.db.sessions, w.scheduler.entry, w.scheduler.queue);
    AssignNodes(w, w', sid, aid);
  }

  lemma AssignNodes(w: World, w': World, sid: SessionId, aid: AgentId)
    requires Known(w) && NodesOk(w) && Known(w') && aid in w.db.agents
    requires QueuedUnassigned(w.db.sessions, sid) && w'.nodes == w.nodes && w'.used == w.used && w'.gone == w.gone
    requires w'.db.sessions.Keys == w.db.sessions.Keys && w'.db.agents.Keys == w.db.agents.Keys
    requires forall id | id in w.db.sessions && id != sid :: w'.db.sessions[id] == w.db.sessions[id]
    requires forall on | on in w.db.agents && on != aid :: w'.db.agents[on] == w.db.agents[on]
    requires w'.db.sessions[sid].session.id == sid
    requires w'.db.agents[aid] ==
             WithSession(w.db.agents[aid], w'.db.sessions[sid].session, w.db.sessions[sid].vramRequired)
    ensures NodesOk(w')
  {
    hide NodeOk, WithSession;
    forall other | other in w'.nodes
      ensures NodeOk(w'.db.sessions, w'.used, other in w'.db.agents, other, Record(w', other), w'.nodes[other])
    {
      AssignNode(w, w', sid, aid, other);
    }
  }

  // ---- Delivery of an update ----

  lemma UpdReports(w: World, aid: AgentId)
    requires Inv(w) && aid in w.nodes && w.nodes[aid].phase.Sending?
    ensures ReportsNoQueued(w.nodes[aid].phase.upd)
  {
    hide DbInv, GoneOk, SchedulerOk, CreditsOk, NodeLocal, HeldRecorded, Fresh, RegisteredHere;
    assert NodeOk(w.db.sessions, w.used, aid in w.db.agents, aid, Record(w, aid), w.nodes[aid]);
  }

  /** What a delivered update does to the database. */
  lemma SendShape(w: World, aid: AgentId, upd: Update)
    requires DbInv(w.db) && Known(w) && aid in w.db.agents
    ensures |w.db.agents[aid].sessionIds| == |w.db.agents[aid].sessions|
    ensures Listed(w.db.sessions, w.db.agents[aid].sessions)
    ensures var row := w.db.agents[aid].(status := AgentActive);
            UpdateAgent(w.db, aid, Some(AgentActive), upd)
            == Some(Db(w.db.agents[aid := UpdatedAgent(row, upd, w.db.sessions)],
                       Applied(w.db.sessions, SessionIdSet(row.sessions), upd)))
    ensures Narrowed(w.db.agents[aid], UpdatedAgent(w.db.agents[aid].(status := AgentActive), upd, w.db.sessions))
    ensures forall id | id in SessionIdSet(w.db.agents[aid].sessions) ::
              id in w.db.sessions && w.db.sessions[id].agentId == Some(aid)
  {
    hide Fits, Placed, Required, UpdateAgent, Survivors, Credit;
    UpdateIs(w.db, aid, Some(AgentActive), upd);
    LiveRecord(w, aid);
    var row := w.db.agents[aid].(status := AgentActive);
    assert AgentOk(w.db.sessions, aid, w.db.agents[aid]);
    UpdateAccount(w.db.sessions, aid, row, upd);
    SurvivorClaims(row.sessions, upd);
    forall id | id in SessionIdSet(row.sessions) ensures id in w.db.sessions && w.db.sessions[id].agentId == Some(aid) {
      var s :| s in row.sessions && s.id == id;
      assert Recorded(w.db.sessions, aid, s);
    }
  }

  lemma SurvivorClaims(sessions: seq<Session>, upd: Update)
    ensures forall c | c in ClaimsOf(Survivors(sessions, upd)) :: c in ClaimsOf(sessions)
    ensures forall id | id in SessionIdSet(Survivors(sessions, upd)) :: id in SessionIdSet(sessions)
  {
    hide Survivors;
    SurvivorsAre(sessions, upd);
    var kept := Survivors(sessions, upd);
    forall c | c in ClaimsOf(kept) ensures c in ClaimsOf(sessions) {
      var k :| 0 <= k < |kept| && ClaimsOf(kept)[k] == c;
      var t := kept[k];
      assert t in kept;
      var s :| s in sessions && t == Carry(s, upd);
      assert Carry(s, upd).id == s.id && Carry(s, upd).gpus == s.gpus;
      var m :| 0 <= m < |sessions| && sessions[m] == s;
      assert ClaimsOf(sessions)[m] == c;
    }
    forall id | id in SessionIdSet(kept) ensures id in SessionIdSet(sessions) {
      var t :| t in kept && t.id == id;
      var s :| s in sessions && t == Carry(s, upd);
    }
  }

  lemma SurvivorsNotClosed(sessions: seq<Session>, upd: Update, id: SessionId)
    requires Closes(upd, id)
    ensures id !in SessionIdSet(Survivors(sessions, upd))
  {
    hide Survivors;
    SurvivorsAre(sessions, upd);
    forall t | t in Survivors(sessions, upd) ensures t.id != id {
      var s :| s in sessions && !Closes(upd, s.id) && t == Carry(s, upd);
    }
  }

  lemma SendOwn(table: Table, used: set<SessionId>, aid: AgentId, row: AgentRow, n: Node, done: Phase)
    requires NodeOk(table, used, true, aid, row, n) && Mirror(table, aid, row)
    requires n.phase.Sending? && (done.Idle? || done.Stopped?)
    ensures Listed(table, row.sessions)
    ensures NodeOk(Applied(table, SessionIdSet(row.sessions), n.phase.upd), used, true, aid,
                   UpdatedAgent(row.(status := AgentActive), n.phase.upd, table), n.(phase := done))
  {
    hide NodeLocal, HeldRecorded, PhaseOk, Fresh, UpdatedAgent, Applied, RegisteredHere;
    var active := row.(status := AgentActive);
    assert NodeOk(table, used, true, aid, active, n);
    StatusDoesNotMatter(table, aid, row, active);
    SendOk(table, used, aid, active, n, done);
  }

  lemma StatusDoesNotMatter(table: Table, aid: AgentId, row: AgentRow, row': AgentRow)
    requires Mirror(table, aid, row) && row'.sessions == row.sessions && row'.sessionIds == row.sessionIds
    ensures Mirror(table, aid, row')
  {
  }

  /** The state after a delivery, with the database written out. */
  ghost predicate Sent(w: World, w': World, aid: AgentId, upd: Update, done: Phase) {
    && aid in w.db.agents && aid in w.nodes && Listed(w.db.sessions, w.db.agents[aid].sessions)
    && w'.nodes == w.nodes[aid := w.nodes[aid].(phase := done)]
    && w'.gone == w.gone && w'.used == w.used && w'.scheduler == w.scheduler
    && w'.db.agents == w.db.agents[aid := UpdatedAgent(w.db.agents[aid].(status := AgentActive), upd, w.db.sessions)]
    && w'.db.sessions == Applied(w.db.sessions, SessionIdSet(w.db.agents[aid].sessions), upd)
    && w'.credited == AddCredits(w, w.db.agents[aid], upd)
  }

  lemma SendSent(w: World, w': World, aid: AgentId, upd: Update, done: Phase)
    requires DbInv(w.db) && Known(w) && Enabled(w, SendA(aid, done)) && w' == Apply(w, SendA(aid, done))
    requires w.nodes[aid].phase == Sending(upd)
    ensures Sent(w, w', aid, upd, done)
  {
    hide DbInv, UpdateAgent, UpdatedAgent, AddCredits, Applied, SessionIdSet;
    SendShape(w, aid, upd);
  }

  lemma SendRest(w: World, w': World, aid: AgentId, upd: Update, done: Phase)
    requires DbInv(w.db) && Known(w) && GoneOk(w) && SchedulerOk(w) && Sent(w, w', aid, upd, done)
    ensures GoneOk(w') && SchedulerOk(w') && Known(w')
  {
    hide DbInv, SchedulerOk, UpdatedAgent, AddCredits, SessionIdSet, QueueStays, Narrowed, RecordOk;
    SendShape(w, aid, upd);
    SendTable(w, w', aid, upd, done);
    SendGone(w, w', aid, upd, done);
    forall on | on in w'.db.agents ensures Narrowed(w.db.agents[on], w'.db.agents[on]) {
      if on != aid {
        NarrowedSame(w.db.agents[on]);
      }
    }
    QuietScheduler(w, w');
  }

  lemma NarrowedSame(row: AgentRow)
    ensures Narrowed(row, row)
  {
  }

  lemma SendTable(w: World, w': World, aid: AgentId, upd: Update, done: Phase)
    requires Sent(w, w', aid, upd, done)
    ensures QueueStays(w.db.sessions, w'.db.sessions) && TableStays(w.db.sessions, w'.db.sessions, w.used)
  {
    hide UpdatedAgent, AddCredits, SessionIdSet;
  }

  lemma SendGone(w: World, w': World, aid: AgentId, upd: Update, done: Phase)
    requires GoneOk(w) && Sent(w, w', aid, upd, done)
    ensures GoneOk(w')
  {
    hide UpdatedAgent, AddCredits, SessionIdSet, Fits, DistinctIds;
    forall on | on in w'.gone ensures RecordOk(w'.db.sessions, w'.used, on, w'.gone[on]) {
      assert RecordOk(w.db.sessions, w.used, on, w.gone[on]);
    }
  }

  lemma SendCredits(w: World, w': World, aid: AgentId, upd: Update, done: Phase)
    requires DbInv(w.db) && Known(w) && CreditsOk(w) && Sent(w, w', aid, upd, done)
    ensures CreditsOk(w')
  {
    hide DbInv, SessionIdSet, CreditsOk, UpdatedAgent, Applied, CreditOk;
    forall sid | Credits(w', sid) > 0 ensures CreditOk(w', sid) {
      SendCredit(w, w', aid, upd, done, sid);
    }
    EachCreditOk(w');
  }

  /** What CreditsOk says of one session. */
  ghost predicate CreditOk(w: World, sid: SessionId) {
    && Credits(w, sid) == 1
    && sid in w.used
    && (sid in w.db.sessions ==> w.db.sessions[sid].agentId.Some?)
    && forall aid | aid in w.db.agents :: sid !in SessionIdSet(w.db.agents[aid].sessions)
  }

  lemma EachCreditOk(w: World)
    requires forall sid | Credits(w, sid) > 0 :: CreditOk(w, sid)
    ensures CreditsOk(w)
  {
    hide SessionIdSet, Credits;
  }

  lemma SendCredit(w: World, w': World, aid: AgentId, upd: Update, done: Phase, sid: SessionId)
    requires DbInv(w.db) && Known(w) && CreditsOk(w) && Sent(w, w', aid, upd, done) && Credits(w', sid) > 0
    ensures CreditOk(w', sid)
  {
    hide DbInv, SessionIdSet, Survivors, Credit;
    var row := w.db.agents[aid];
    SendShape(w, aid, upd);
    SurvivorClaims(row.sessions, upd);
    if sid in SessionIdSet(row.sessions) && Closes(upd, sid) {
      SurvivorsNotClosed(row.sessions, upd, sid);
      forall on | on in w.db.agents && on != aid ensures sid !in SessionIdSet(w.db.agents[on].sessions) {
        OneAgent(w, aid, on, sid);
      }
    }
  }

  /** No session is recorded by two agents. */
  lemma OneAgent(w: World, aid: AgentId, other: AgentId, sid: SessionId)
    requires DbInv(w.db) && aid in w.db.agents && other in w.db.agents && aid != other
    requires sid in SessionIdSet(w.db.agents[aid].sessions)
    ensures sid !in SessionIdSet(w.db.agents[other].sessions)
  {
    hide Accounted, Fits, Placed;
    assert AgentOk(w.db.sessions, aid, w.db.agents[aid]) && AgentOk(w.db.sessions, other, w.db.agents[other]);
    var s :| s in w.db.agents[aid].sessions && s.id == sid;
    assert Recorded(w.db.sessions, aid, s);
    forall t | t in w.db.agents[other].sessions ensures t.id != sid {
      assert Recorded(w.db.sessions, other, t);
    }
  }

  lemma SendNodes(w: World, w': World, aid: AgentId, done: Phase)
    requires DbInv(w.db) && Known(w) && NodesOk(w) && Known(w') && aid in w.nodes && w.nodes[aid].phase.Sending?
    requires (done.Idle? || done.Stopped?) && Sent(w, w', aid, w.nodes[aid].phase.upd, done)
    ensures NodesOk(w')
  {
    hide DbInv, NodeOk, UpdatedAgent, AddCredits, SessionIdSet, Applied, TableStays, QuietRow;
    var n := w.nodes[aid];
    LiveRecord(w, aid);
    SendTable(w, w', aid, n.phase.upd, done);
    forall other | other in w'.nodes
      ensures NodeOk(w'.db.sessions, w'.used, other in w'.db.agents, other, Record(w', other), w'.nodes[other])
    {
      if other == aid {
        SendOwn(w.db.sessions, w.used, aid, w.db.agents[aid], n, done);
      } else {
        SameSessionsQuiet(Record(w, other), Record(w', other));
        QuietNode(w, w', other);
      }
    }
  }

  lemma SendInv(w: World, aid: AgentId, done: Phase)
    requires Inv(w) && Enabled(w, SendA(aid, done))
    ensures Inv(Apply(w, SendA(aid, done)))
  {
    hide DbInv, NodesOk, GoneOk, SchedulerOk, CreditsOk, UpdateAgent, AddCredits, UpdatedAgent, Applied, Sent;
    var w', upd := Apply(w, SendA(aid, done)), w.nodes[aid].phase.upd;
    UpdReports(w, aid);
    UpdateKeeps(w.db, aid, Some(AgentActive), upd);
    SendSent(w, w', aid, upd, done);
    SendRest(w, w', aid, upd, done);
    SendCredits(w, w', aid, upd, done);
    SendNodes(w, w', aid, done);
  }
}
