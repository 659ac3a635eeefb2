/** Runs in which sessions may be lost. A shutdown can empty the session table under everybody's feet; what is left
    behaves as a system in order whose table still has every row. */
module Shadows {
  import opened Words
  import opened GpuSpec
  import opened MemdbSpec
  import opened ControllerInv
  import opened Memdb
  import opened Backend
  import opened AgentSpec
  import opened Nodes
  import opened Protocol
  import opened ProtocolInv

  /** Every row of `part` is one of `whole`. */
  predicate Within(part: Table, whole: Table) {
    forall sid | sid in part :: sid in whole && whole[sid] == part[sid]
  }

  /** Every session ever issued has its row, and is assigned to an agent there has been, if to any. */
  predicate Complete(w: World) {
    && w.db.sessions.Keys == w.used
    && forall sid | sid in w.db.sessions && w.db.sessions[sid].agentId.Some? ::
         w.db.sessions[sid].agentId.value in w.nodes
  }

  /** `v` is `w` with every session in its table. */
  ghost predicate Shadow(v: World, w: World) {
    v == w.(db := w.db.(sessions := v.db.sessions)) && Within(w.db.sessions, v.db.sessions) && Complete(v)
  }

  /** The state of a system in order, but for sessions lost from the table. */
  ghost predicate Ok(w: World) {
    exists v :: Inv(v) && Shadow(v, w)
  }

  lemma InitOk()
    ensures Ok(Init())
  {
    assert Inv(Init()) && Shadow(Init(), Init());
  }

  // ----- each step, beside the same step with the whole table -----

  /** Whether an action of the agents is enabled does not depend on the table, nor what it makes of the agent. */
  lemma NodeShadow(v: World, w: World, a: Action)
    requires Inv(v) && Shadow(v, w) && Enabled(w, a) && NodeAction(a)
    ensures Ok(Apply(w, a))
  {
    hide Inv, Shadow;
    NodeEnabled(v, w, a);
    NodeKeeps(v, a);
    NodeOnlyPart(v, w, a);
  }

  lemma NodeEnabled(v: World, w: World, a: Action)
    requires Shadow(v, w) && Enabled(w, a) && NodeAction(a)
    ensures Enabled(v, a)
  {
    hide Within, Complete;
  }

  lemma NodeOnlyPart(v: World, w: World, a: Action)
    requires Shadow(v, w) && Enabled(w, a) && Enabled(v, a) && NodeAction(a)
    ensures Shadow(Apply(v, a), Apply(w, a))
  {
    hide Within, Poll, Register, Announce, Release, Drain, PushClosed;
  }

  /** The scheduler of `w` moves to `s`, and that of its shadow with it. */
  lemma MoveShadow(v: World, w: World, s: Scheduler)
    requires Inv(v) && Shadow(v, w) && SchedulerOk(v.(scheduler := s))
    ensures Ok(w.(scheduler := s))
  {
    SetScheduler(v, s);
    hide Inv, Within, SchedulerOk;
    assert Shadow(v.(scheduler := s), w.(scheduler := s));
  }

  lemma ReadShadow(v: World, w: World, queue: seq<Entry>)
    requires Inv(v) && Shadow(v, w) && Enabled(w, ReadQueueA(queue))
    ensures Ok(Apply(w, ReadQueueA(queue)))
  {
    hide Ok;
    assert QueueOk(v.db.sessions, queue) by {
      TableOf(v);
      hide Inv, DbInv;
    }
    hide Inv, Shadow, QueueOk, IsQueue;
    MoveShadow(v, w, Offering(queue));
  }

  lemma TableOf(v: World)
    requires Inv(v)
    ensures TableOk(v.db.sessions)
  {
  }

  lemma SkipShadow(v: World, w: World)
    requires Inv(v) && Shadow(v, w) && Enabled(w, SkipA)
    ensures Ok(Apply(w, SkipA))
  {
    hide Ok, Shadow, DbInv, NodesOk, GoneOk, CreditsOk;
    assert v.scheduler == w.scheduler by { SameBeside(v, w); }
    var s := Apply(w, SkipA).scheduler;
    if s.Offering? {
      QueueTail(v.db.sessions, v.scheduler.queue);
    }
    MoveShadow(v, w, s);
  }

  lemma SameBeside(v: World, w: World)
    requires Shadow(v, w)
    ensures v.db.agents == w.db.agents && v.gone == w.gone && v.nodes == w.nodes && v.scheduler == w.scheduler
    ensures v.used == w.used && v.credited == w.credited
    ensures Within(w.db.sessions, v.db.sessions) && Complete(v)
  {
    hide Within, Complete;
  }

  /** The other steps of the scheduler do not look at the session table. */
  lemma SchedulerShadow(v: World, w: World, a: Action)
    requires Inv(v) && Shadow(v, w) && Enabled(w, a) && SchedulerAction(a) && !a.ReadQueueA? && !a.SkipA?
    ensures Ok(Apply(w, a))
  {
    hide Inv, Shadow, Ok, Within, Complete, Candidates, TotalVramRequired;
    SameBeside(v, w);
    SchedulerKeeps(v, a);
    var s := Apply(v, a).scheduler;
    assert SchedulerOk(v.(scheduler := s)) by { InvParts(Apply(v, a)); }
    MoveShadow(v, w, s);
    forall vram ensures Candidates(v.db, vram) == Candidates(w.db, vram) {
      SameCandidates(v.db, w.db, vram);
    }
  }

  lemma SameCandidates(db: Db, db': Db, vram: Word64)
    requires db.agents == db'.agents
    ensures Candidates(db, vram) == Candidates(db', vram)
  {
  }

  lemma InvParts(w: World)
    requires Inv(w)
    ensures DbInv(w.db) && Known(w) && SchedulerOk(w)
  {
    hide DbInv, NodesOk, GoneOk, SchedulerOk, CreditsOk;
  }

  lemma RegisterAgentShadow(v: World, w: World, aid: AgentId, info: AgentInfo)
    requires Inv(v) && Shadow(v, w) && Enabled(w, RegisterAgentA(aid, info))
    ensures Ok(Apply(w, RegisterAgentA(aid, info)))
  {
    hide Inv, NewNode, TotalVram;
    RegisterAgentInv(v, aid, info);
    assert Shadow(Apply(v, RegisterAgentA(aid, info)), Apply(w, RegisterAgentA(aid, info)));
  }

  lemma RequestShadow(v: World, w: World, sid: SessionId, req: Requirements)
    requires Inv(v) && Shadow(v, w) && Enabled(w, RequestA(sid, req))
    ensures Ok(Apply(w, RequestA(sid, req)))
  {
    hide Inv, TotalVramRequired;
    RequestInv(v, sid, req);
    assert Shadow(Apply(v, RequestA(sid, req)), Apply(w, RequestA(sid, req)));
  }

  lemma CancelShadow(v: World, w: World, sid: SessionId)
    requires Inv(v) && Shadow(v, w) && Enabled(w, IntendedCancelA(sid))
    ensures Ok(Apply(w, IntendedCancelA(sid)))
  {
    hide Inv, IntendedCancel, Within, Complete;
    if sid in w.db.sessions {
      IntendedCancelInv(v, sid);
      CancelWithin(w.db, v.db, sid);
      CancelComplete(v, sid, v.(db := IntendedCancel(v.db, sid)));
      assert Shadow(v.(db := IntendedCancel(v.db, sid)), w.(db := IntendedCancel(w.db, sid)));
    } else {
      assert IntendedCancel(w.db, sid) == w.db by { CancelNothing(w.db, sid); }
    }
  }

  lemma CancelNothing(db: Db, sid: SessionId)
    requires sid !in db.sessions
    ensures IntendedCancel(db, sid) == db
  {
  }

  lemma CancelWithin(part: Db, whole: Db, sid: SessionId)
    requires part.agents == whole.agents && Within(part.sessions, whole.sessions) && sid in part.sessions
    ensures IntendedCancel(part, sid).agents == IntendedCancel(whole, sid).agents
    ensures Within(IntendedCancel(part, sid).sessions, IntendedCancel(whole, sid).sessions)
  {
    hide MarkCanceling;
  }

  lemma CancelComplete(v: World, sid: SessionId, v': World)
    requires Complete(v) && v'.used == v.used && v'.nodes == v.nodes && v'.db == IntendedCancel(v.db, sid)
    ensures Complete(v')
  {
    hide IntendedCancel;
    CancelTable(v.db, sid);
  }

  lemma SweepShadow(v: World, w: World, a: Action)
    requires Inv(v) && Shadow(v, w) && Enabled(w, a) && (a.SetMissingA? || a.RemoveMissingA?)
    ensures Ok(Apply(w, a))
  {
    hide Inv, Within;
    SweepInv(v, a);
    assert Shadow(Apply(v, a), Apply(w, a));
  }

  lemma AssignShadow(v: World, w: World, aid: AgentId, gpus: seq<SessionGpu>)
    requires Inv(v) && Shadow(v, w) && Enabled(w, AssignA(aid, gpus))
    ensures Ok(Apply(w, AssignA(aid, gpus)))
  {
    hide Inv, Shadow, Ok, MayMatch, AssignSession, Within, Complete;
    SameBeside(v, w);
    var sid := w.scheduler.entry.id;
    if aid in w.db.agents && sid in w.db.sessions {
      assert Enabled(v, AssignA(aid, gpus));
      AssignInv(v, aid, gpus);
      AssignWithin(w.db, v.db, sid, aid, gpus);
      AssignBoth(v, w, aid, gpus, AssignSession(v.db, sid, aid, gpus).value, AssignSession(w.db, sid, aid, gpus).value);
    } else {
      assert SchedulerOk(v.(scheduler := Crashed));
      MoveShadow(v, w, Crashed);
      AssignFails(w.db, sid, aid, gpus);
    }
  }

  lemma AssignFails(db: Db, sid: SessionId, aid: AgentId, gpus: seq<SessionGpu>)
    ensures AssignSession(db, sid, aid, gpus).None? <==> aid !in db.agents || sid !in db.sessions
  {
  }

  lemma AssignBoth(v: World, w: World, aid: AgentId, gpus: seq<SessionGpu>, whole: Db, part: Db)
    requires Inv(v) && Shadow(v, w) && w.scheduler.Choosing? && aid in v.db.agents
    requires AssignSession(v.db, w.scheduler.entry.id, aid, gpus) == Some(whole)
    requires part.agents == whole.agents && Within(part.sessions, whole.sessions)
    requires Inv(v.(db := whole, scheduler := Offering(w.scheduler.queue)))
    ensures Ok(w.(db := part, scheduler := Offering(w.scheduler.queue)))
  {
    hide Inv, AssignSession, Within, Complete;
    var v' := v.(db := whole, scheduler := Offering(w.scheduler.queue));
    KnownAgents(v);
    AssignKnown(v, w.scheduler.entry.id, aid, gpus, v');
    assert Shadow(v', w.(db := part, scheduler := Offering(w.scheduler.queue)));
  }

  lemma AssignWithin(part: Db, whole: Db, sid: SessionId, aid: AgentId, gpus: seq<SessionGpu>)
    requires part.agents == whole.agents && Within(part.sessions, whole.sessions)
    requires aid in part.agents && sid in part.sessions
    ensures AssignSession(part, sid, aid, gpus).Some? && AssignSession(whole, sid, aid, gpus).Some?
    ensures var s, t := AssignSession(part, sid, aid, gpus).value, AssignSession(whole, sid, aid, gpus).value;
            s.agents == t.agents && Within(s.sessions, t.sessions)
  {
  }

  lemma AssignKnown(v: World, sid: SessionId, aid: AgentId, gpus: seq<SessionGpu>, v': World)
    requires Complete(v) && aid in v.nodes && v'.nodes == v.nodes && v'.used == v.used
    requires AssignSession(v.db, sid, aid, gpus) == Some(v'.db)
    ensures Complete(v')
  {
  }

  lemma KnownAgents(v: World)
    requires Inv(v)
    ensures forall aid | aid in v.db.agents :: aid in v.nodes
  {
  }

  // ----- updates -----

  /** A scan that finds its rows in part of a table does the same over the whole. */
  lemma {:induction false} ScanShadow(agent: AgentRow, upd: Update, part: Table, whole: Table, k: nat)
    requires k <= |agent.sessionIds| <= |agent.sessions| && Within(part, whole)
    requires ScanSessions(agent, upd, part, k).Some?
    ensures ScanSessions(agent, upd, whole, k).Some?
    ensures ScansAlike(ScanSessions(agent, upd, part, k).value, ScanSessions(agent, upd, whole, k).value)
  {
    hide Within, ScanOne;
    if k > 0 {
      ScanShadow(agent, upd, part, whole, k - 1);
      ScanOneShadow(ScanSessions(agent, upd, part, k - 1).value, ScanSessions(agent, upd, whole, k - 1).value,
                    agent.sessionIds[k - 1], agent.sessions[k - 1], upd);
    }
  }

  predicate ScansAlike(s: Scan, t: Scan) {
    s == t.(table := s.table) && Within(s.table, t.table)
  }

  lemma ScanOneShadow(s: Scan, t: Scan, id: SessionId, copy: Session, upd: Update)
    requires ScansAlike(s, t) && ScanOne(s, id, copy, upd).Some?
    ensures ScanOne(t, id, copy, upd).Some?
    ensures ScansAlike(ScanOne(s, id, copy, upd).value, ScanOne(t, id, copy, upd).value)
  {
  }

  lemma UpdateShadow(part: Db, whole: Db, aid: AgentId, upd: Update)
    requires part.agents == whole.agents && Within(part.sessions, whole.sessions)
    requires UpdateAgent(part, aid, Some(AgentActive), upd).Some?
    ensures UpdateAgent(whole, aid, Some(AgentActive), upd).Some?
    ensures var s, t := UpdateAgent(part, aid, Some(AgentActive), upd).value,
                        UpdateAgent(whole, aid, Some(AgentActive), upd).value;
      s.agents == t.agents && Within(s.sessions, t.sessions)
  {
    var agent := part.agents[aid].(status := AgentActive);
    ScanShadow(agent, upd, part.sessions, whole.sessions, |agent.sessionIds|);
    hide ScanSessions, Within;
  }

  lemma SendShadow(v: World, w: World, aid: AgentId, done: Phase)
    requires Inv(v) && Shadow(v, w) && Enabled(w, SendA(aid, done))
    ensures Ok(Apply(w, SendA(aid, done)))
  {
    hide Inv, Shadow, Ok, UpdateAgent, AddCredits, Within, Complete;
    SameBeside(v, w);
    if UpdateAgent(w.db, aid, Some(AgentActive), w.nodes[aid].phase.upd).Some? {
      SendInv(v, aid, done);
      SendKnown(v, aid, done);
      SendBoth(v, w, aid, done);
    } else {
      StopShadow(v, w, aid);
    }
  }

  lemma SendBoth(v: World, w: World, aid: AgentId, done: Phase)
    requires Shadow(v, w) && Enabled(w, SendA(aid, done)) && Enabled(v, SendA(aid, done))
    requires UpdateAgent(w.db, aid, Some(AgentActive), w.nodes[aid].phase.upd).Some?
    requires Inv(Apply(v, SendA(aid, done))) && Complete(Apply(v, SendA(aid, done)))
    ensures Ok(Apply(w, SendA(aid, done)))
  {
    hide Inv, UpdateAgent, AddCredits, Within, Complete;
    var upd := w.nodes[aid].phase.upd;
    UpdateShadow(w.db, v.db, aid, upd);
    SameCredits(v, w, w.db.agents[aid], upd);
    assert Shadow(Apply(v, SendA(aid, done)), Apply(w, SendA(aid, done)));
  }

  lemma SameCredits(v: World, w: World, row: AgentRow, upd: Update)
    requires v.credited == w.credited
    ensures AddCredits(v, row, upd) == AddCredits(w, row, upd)
  {
    hide SessionIdSet;
  }

  /** An agent stops. */
  lemma StopShadow(v: World, w: World, aid: AgentId)
    requires Inv(v) && Shadow(v, w) && aid in w.nodes
    ensures Ok(SetNode(w, aid, w.nodes[aid].(phase := Stopped)))
  {
    hide Inv, Within, Complete;
    StopOne(v, aid);
    var v' := SetNode(v, aid, v.nodes[aid].(phase := Stopped));
    assert Complete(v') by { StopKnown(v, aid); }
    assert Shadow(v', SetNode(w, aid, w.nodes[aid].(phase := Stopped)));
  }

  lemma StopKnown(v: World, aid: AgentId)
    requires Complete(v) && aid in v.nodes
    ensures Complete(SetNode(v, aid, v.nodes[aid].(phase := Stopped)))
  {
  }

  lemma SendKnown(v: World, aid: AgentId, done: Phase)
    requires Inv(v) && Complete(v) && Enabled(v, SendA(aid, done))
    ensures Complete(Apply(v, SendA(aid, done)))
  {
    hide NodesOk, GoneOk, SchedulerOk, CreditsOk, DbInv, UpdateAgent, UpdatedAgent, AddCredits;
    SendShape(v, aid, v.nodes[aid].phase.upd);
  }

  /** A shutdown that succeeds takes the agent out of the database, and keeps or loses sessions. */
  lemma CloseLeaves(db: Db, aid: AgentId)
    requires aid in db.agents
    ensures var after := UpdateAgent(db, aid, Some(AgentClosed), map[]);
      after.Some? ==> after.value.agents == db.agents - {aid} && Within(after.value.sessions, db.sessions)
  {
  }

  lemma LeaveDb(db: Db, aid: AgentId)
    requires DbInv(db)
    ensures DbInv(Db(db.agents - {aid}, db.sessions))
  {
    hide AgentOk, TableOk;
  }

  /** The shadow keeps its whole table when an agent shuts down. */
  lemma CloseShadow(v: World, w: World, aid: AgentId)
    requires Inv(v) && Shadow(v, w) && Enabled(w, CloseA(aid))
    ensures Ok(Apply(w, CloseA(aid)))
  {
    hide Inv, UpdateAgent, Within, Complete, Ok, Shadow, RemoveAgents;
    SameBeside(v, w);
    var after := UpdateAgent(w.db, aid, Some(AgentClosed), map[]);
    CloseLeaves(w.db, aid);
    if after.Some? {
      LeaveShadow(v, w, aid, after.value);
      assert RemoveAgents(w, after.value).nodes == w.nodes by { RemovesOnly(w, after.value); }
      StopShadow(RemoveAgents(v, Db(v.db.agents - {aid}, v.db.sessions)), RemoveAgents(w, after.value), aid);
    } else {
      RemoveNone(v, w);
      StopShadow(v, w, aid);
    }
  }

  lemma LeaveShadow(v: World, w: World, aid: AgentId, after: Db)
    requires Inv(v) && Shadow(v, w) && aid in w.db.agents
    requires after.agents == w.db.agents - {aid} && Within(after.sessions, w.db.sessions)
    ensures var v1, w1 := RemoveAgents(v, Db(v.db.agents - {aid}, v.db.sessions)), RemoveAgents(w, after);
            Inv(v1) && Shadow(v1, w1)
  {
    hide NodesOk, GoneOk, SchedulerOk, CreditsOk, AgentOk, DbInv;
    var db := Db(v.db.agents - {aid}, v.db.sessions);
    LeaveDb(v.db, aid);
    NoChange(v.db.sessions);
    LeaveKeeps(v, db);
    hide Inv;
  }

  lemma RemovesOnly(w: World, db: Db)
    ensures RemoveAgents(w, db).nodes == w.nodes
  {
  }

  lemma RemoveNone(v: World, w: World)
    requires Inv(v) && Shadow(v, w)
    ensures RemoveAgents(w, w.db) == w
  {
    hide DbInv, NodesOk, GoneOk, SchedulerOk, CreditsOk, Within, Complete;
  }

  /** Every step keeps a system in order but for lost sessions. */
  lemma OkKeeps(w: World, a: Action)
    requires Ok(w) && Enabled(w, a)
    ensures Ok(Apply(w, a))
  {
    hide Inv, Shadow, Enabled, Apply;
    var v :| Inv(v) && Shadow(v, w);
    match a
    case RegisterAgentA(aid, info) => RegisterAgentShadow(v, w, aid, info);
    case RequestA(sid, req) => RequestShadow(v, w, sid, req);
    case IntendedCancelA(sid) => CancelShadow(v, w, sid);
    case SetMissingA(_) => SweepShadow(v, w, a);
    case RemoveMissingA(_) => SweepShadow(v, w, a);
    case AssignA(aid, gpus) => AssignShadow(v, w, aid, gpus);
    case SendA(aid, done) => SendShadow(v, w, aid, done);
    case CloseA(aid) => CloseShadow(v, w, aid);
    case CancelA(_) => SchedulerShadow(v, w, a);
    case ReadQueueA(queue) => ReadShadow(v, w, queue);
    case SkipA => SkipShadow(v, w);
    case OfferA => SchedulerShadow(v, w, a);
    case GiveUpA => SchedulerShadow(v, w, a);
    case RestA => SchedulerShadow(v, w, a);
    case _ => NodeShadow(v, w, a);
  }
}
