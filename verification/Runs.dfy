/** Whole runs: every state reachable from the empty system, in any interleaving, and what holds there. */
module Runs {
  import opened Words
  import opened GpuSpec
  import opened MemdbSpec
  import opened ControllerInv
  import opened Memdb
  import opened Backend
  import opened AgentSpec
  import opened Nodes
  import opened Protocol
  import opened ProtocolInv
  import opened Shadows

  /** One step of anyone. */
  ghost predicate Step(w: World, w': World) {
    exists a :: Enabled(w, a) && w' == Apply(w, a)
  }

  /** A finite run from the empty system. */
  ghost predicate Run(run: seq<World>) {
    run != [] && run[0] == Init() && forall k | 0 <= k < |run| - 1 :: Step(run[k], run[k + 1])
  }

  /** One step of anyone, but no shutdown whose deletion takes sessions of others. */
  ghost predicate GuardedStep(w: World, w': World) {
    exists a :: Enabled(w, a) && Guarded(w, a) && w' == Apply(w, a)
  }

  /** A run in which no session is ever lost. */
  ghost predicate GuardedRun(run: seq<World>) {
    run != [] && run[0] == Init() && forall k | 0 <= k < |run| - 1 :: GuardedStep(run[k], run[k + 1])
  }

  lemma InitInv()
    ensures Inv(Init())
  {
  }

  /** Every step anyone may take keeps the invariant, except exactly a shutdown whose deletion takes sessions of
      others. */
  lemma ActionKeepsIff(w: World, a: Action)
    requires Inv(w) && Enabled(w, a)
    ensures Inv(Apply(w, a)) <==> Guarded(w, a)
  {
    hide Inv, Enabled, Apply;
    match a
    case RegisterAgentA(aid, info) => RegisterAgentInv(w, aid, info);
    case RequestA(sid, req) => RequestInv(w, sid, req);
    case IntendedCancelA(sid) => IntendedCancelInv(w, sid);
    case SetMissingA(_) => SweepInv(w, a);
    case RemoveMissingA(_) => SweepInv(w, a);
    case AssignA(aid, gpus) => AssignInv(w, aid, gpus);
    case SendA(aid, done) => SendInv(w, aid, done);
    case CloseA(aid) => CloseInvIff(w, aid);
    case CancelA(_) => SchedulerKeeps(w, a);
    case ReadQueueA(_) => SchedulerKeeps(w, a);
    case SkipA => SchedulerKeeps(w, a);
    case OfferA => SchedulerKeeps(w, a);
    case GiveUpA => SchedulerKeeps(w, a);
    case RestA => SchedulerKeeps(w, a);
    case _ => NodeKeeps(w, a);
  }

  /** The invariant holds in every state of every run without such a shutdown. */
  lemma {:induction false} GuardedReachable(run: seq<World>, k: nat)
    requires GuardedRun(run) && k < |run|
    ensures Inv(run[k])
  {
    hide Inv, Enabled, Apply, Guarded;
    if k == 0 {
      InitInv();
    } else {
      GuardedReachable(run, k - 1);
      assert GuardedStep(run[k - 1], run[k]);
      var a :| Enabled(run[k - 1], a) && Guarded(run[k - 1], a) && run[k] == Apply(run[k - 1], a);
      ActionKeepsIff(run[k - 1], a);
    }
  }

  /** In every state of every run, the system is in order but for sessions lost from the table. */
  lemma {:induction false} Reachable(run: seq<World>, k: nat)
    requires Run(run) && k < |run|
    ensures Ok(run[k])
  {
    hide Ok, Enabled, Apply;
    if k == 0 {
      InitOk();
    } else {
      Reachable(run, k - 1);
      assert Step(run[k - 1], run[k]);
      var a :| Enabled(run[k - 1], a) && run[k] == Apply(run[k - 1], a);
      OkKeeps(run[k - 1], a);
    }
  }

  lemma GuardedIsRun(run: seq<World>)
    requires GuardedRun(run)
    ensures Run(run)
  {
    hide Enabled, Apply, Guarded;
    forall k | 0 <= k < |run| - 1 ensures Step(run[k], run[k + 1]) {
      assert GuardedStep(run[k], run[k + 1]);
    }
  }

  // ---- What every reachable state guarantees ----

  /** On the agent: each GPU shows exactly its capacity less what unreleased sessions hold, so the
      unguarded uint64 subtraction has never wrapped; no session was registered twice; and while the
      controller keeps the agent, every unreleased session is one it records with the same GPUs. */
  lemma AgentSafety(run: seq<World>, k: nat, aid: AgentId)
    requires Run(run) && k < |run| && aid in run[k].nodes
    ensures var n := run[k].nodes[aid];
            && (|n.avail| == |n.info.gpus|
                && forall i | 0 <= i < |n.avail| :: n.avail[i] == n.info.gpus[i].vram - Held(n.held, i))
            && (forall i, j :: 0 <= i < j < |n.registered| ==> n.registered[i] != n.registered[j])
            && (aid in run[k].db.agents ==> forall c | c in n.held :: c in ClaimsOf(run[k].db.agents[aid].sessions))
  {
    hide Inv, Shadow;
    Reachable(run, k);
    var v :| Inv(v) && Shadow(v, run[k]);
    SameBeside(v, run[k]);
    NodeOfInv(v, aid);
    hide PhaseOk, Fresh, RegisteredHere, Held, RecordOk, Within, Complete, EventsOnce, DbInv;
  }

  /** No session is ever registered by two different agents. */
  lemma RegisteredByOne(run: seq<World>, k: nat, aid: AgentId, other: AgentId, sid: SessionId)
    requires Run(run) && k < |run| && aid in run[k].nodes && other in run[k].nodes && aid != other
    requires sid in run[k].nodes[aid].registered
    ensures sid !in run[k].nodes[other].registered
  {
    hide Inv, Shadow;
    Reachable(run, k);
    var v :| Inv(v) && Shadow(v, run[k]);
    SameBeside(v, run[k]);
    NodeOfInv(v, aid);
    NodeOfInv(v, other);
    hide NodeLocal, HeldRecorded, PhaseOk, Fresh, RecordOk, Within, DbInv;
    assert sid in v.used && sid in v.db.sessions;
  }

  /** Registering a session never takes a GPU below zero, even if the controller has forgotten the agent. */
  lemma RegisterNeverUnderflows(run: seq<World>, k: nat, aid: AgentId, i: nat)
    requires Run(run) && k < |run| && Enabled(run[k], RegisterA(aid)) && i < |run[k].nodes[aid].avail|
    ensures Charge(run[k].nodes[aid].phase.todo[0].gpus, i) <= run[k].nodes[aid].avail[i]
  {
    hide Inv, Shadow, Charge, Fits, NodeOk, Within, Complete, DbInv;
    Reachable(run, k);
    var v :| Inv(v) && Shadow(v, run[k]);
    SameBeside(v, run[k]);
    NodeOfInv(v, aid);
    RegisterWithinFree(v.db.sessions, v.used, aid in v.db.agents, aid, Record(v, aid), v.nodes[aid], i);
  }

  /** At the controller: no GPU is promised more than its VRAM, and an agent's ids and copies run parallel, each
      once. They are those the relational query selects, as far as their rows are still in the table, and sit on an
      agent that meets their requirements. The running total is total VRAM less what the recorded sessions require,
      in a table that has at most lost rows since. */
  lemma ControllerSafety(run: seq<World>, k: nat, aid: AgentId)
    requires Run(run) && k < |run| && aid in run[k].db.agents
    ensures var table, agent := run[k].db.sessions, run[k].db.agents[aid];
            && (forall i: nat | i < |agent.info.gpus| :: ChargeAll(agent.sessions, i) <= agent.info.gpus[i].vram)
            && agent.sessionIds == IdsOf(agent.sessions) && DistinctIds(agent.sessions)
            && (forall sid | sid in table ::
                  sid in agent.sessionIds <==>
                  table[sid].agentId == Some(aid) && table[sid].session.state != Closed)
            && (forall s | s in agent.sessions && s.id in table ::
                  table[s.id].session == s && Eligible(agent.info, table[s.id].requirements))
            && (exists whole: Table ::
                  && Within(table, whole) && Listed(whole, agent.sessions)
                  && agent.vramAvailable == TotalVram(agent.info.gpus) - Required(whole, agent.sessions))
            && (Listed(table, agent.sessions) ==>
                  agent.vramAvailable == TotalVram(agent.info.gpus) - Required(table, agent.sessions))
  {
    hide Inv, Shadow, Within;
    Reachable(run, k);
    var v :| Inv(v) && Shadow(v, run[k]);
    SameBeside(v, run[k]);
    AgentOfInv(v, aid);
    RowsWithin(run[k].db.sessions, v.db.sessions, aid, v.db.agents[aid]);
    hide Mirror, ChargeAll, Required, Placed, DbInv, Complete;
  }

  /** What a record in order over the whole table says over part of it. */
  lemma RowsWithin(part: Table, whole: Table, aid: AgentId, agent: AgentRow)
    requires AgentOk(whole, aid, agent) && Within(part, whole)
    ensures agent.sessionIds == IdsOf(agent.sessions) && DistinctIds(agent.sessions)
    ensures forall sid | sid in part ::
              sid in agent.sessionIds <==> part[sid].agentId == Some(aid) && part[sid].session.state != Closed
    ensures forall s | s in agent.sessions && s.id in part ::
              part[s.id].session == s && Eligible(agent.info, part[s.id].requirements)
    ensures Listed(part, agent.sessions) ==> Required(part, agent.sessions) == Required(whole, agent.sessions)
  {
    hide Accounted, Fits, Eligible;
    forall sid | sid in part && sid in agent.sessionIds
      ensures part[sid].agentId == Some(aid) && part[sid].session.state != Closed
    {
      var j :| 0 <= j < |agent.sessionIds| && agent.sessionIds[j] == sid;
      assert Recorded(whole, aid, agent.sessions[j]);
    }
    forall s | s in agent.sessions && s.id in part ensures part[s.id].session == s {
      assert Recorded(whole, aid, s);
    }
    if Listed(part, agent.sessions) {
      RequiredFrame(whole, part, agent.sessions);
    }
  }

  /** Every recorded session whose row is there sits where its requirements allow: in the pool it asks for, with the
      labels it asks for and no taint that it does not tolerate, and shows its agent's address. */
  lemma SessionsSitRight(run: seq<World>, k: nat, aid: AgentId, s: Session)
    requires Run(run) && k < |run| && aid in run[k].db.agents
    requires s in run[k].db.agents[aid].sessions && s.id in run[k].db.sessions
    ensures var info, req := run[k].db.agents[aid].info, run[k].db.sessions[s.id].requirements;
            && (req.poolId == "" || info.poolId == req.poolId)
            && (forall key | key in req.matchLabels :: key in info.labels && info.labels[key] == req.matchLabels[key])
            && (forall key | key in info.taints :: key in req.tolerates && req.tolerates[key] == info.taints[key])
            && s.address == info.address
  {
    hide Inv, Shadow, Within, Eligible;
    Reachable(run, k);
    var v :| Inv(v) && Shadow(v, run[k]);
    SameBeside(v, run[k]);
    AgentOfInv(v, aid);
    RowsWithin(run[k].db.sessions, v.db.sessions, aid, v.db.agents[aid]);
    EligibleOffers(run[k].db.agents[aid].info, run[k].db.sessions[s.id].requirements);
    hide Mirror, Accounted, Fits, DbInv, Complete;
  }

  lemma AgentOfInv(v: World, aid: AgentId)
    requires Inv(v) && aid in v.db.agents
    ensures AgentOk(v.db.sessions, aid, v.db.agents[aid])
  {
    hide NodesOk, GoneOk, SchedulerOk, CreditsOk, AgentOk;
  }

  /** However often a session is reported closed, its VRAM is credited back at most once, and a credited
      session is recorded by no agent. */
  lemma CreditedAtMostOnce(run: seq<World>, k: nat, sid: SessionId)
    requires Run(run) && k < |run|
    ensures Credits(run[k], sid) <= 1
    ensures Credits(run[k], sid) == 1 ==>
              forall aid | aid in run[k].db.agents :: sid !in SessionIdSet(run[k].db.agents[aid].sessions)
  {
    hide DbInv, NodesOk, GoneOk, SchedulerOk, SessionIdSet, Shadow;
    Reachable(run, k);
    var v :| Inv(v) && Shadow(v, run[k]);
    SameBeside(v, run[k]);
    hide Within, Complete;
    assert Credits(v, sid) == Credits(run[k], sid);
  }

  /** Both panic guards stay quiet in the scheduler: whatever agent it is looking at, replaying the
      snapshot meets the preconditions of Select, and Find is given at least one requirement. */
  lemma SchedulerNeverPanics(run: seq<World>, k: nat, aid: AgentId)
    requires Run(run) && k < |run| && run[k].scheduler.Choosing? && aid in run[k].scheduler.candidates
    ensures run[k].scheduler.entry.row.gpus != []
    ensures var seen := run[k].scheduler.candidates[aid];
            forall s | s in seen.sessions :: s.gpus != [] && InRange(s.gpus, |seen.info.gpus|)
  {
    hide Inv, Shadow;
    Reachable(run, k);
    var v :| Inv(v) && Shadow(v, run[k]);
    SameBeside(v, run[k]);
    InvParts(v);
    hide DbInv, QueueOk, StillFits, Within, Complete;
  }

  /** An assignment against a stale snapshot, where it finds its agent and its session, still never makes the running
      total underflow or promises a GPU twice. */
  lemma AssignNeverUnderflows(run: seq<World>, k: nat, aid: AgentId, gpus: seq<SessionGpu>)
    requires Run(run) && k < |run| && Enabled(run[k], AssignA(aid, gpus))
    requires aid in run[k].db.agents && run[k].scheduler.entry.id in run[k].db.sessions
    ensures run[k].db.sessions[run[k].scheduler.entry.id].vramRequired <= run[k].db.agents[aid].vramAvailable
    ensures forall i: nat | i < |run[k].db.agents[aid].info.gpus| ::
              ChargeAll(run[k].db.agents[aid].sessions, i) + Charge(gpus, i) <= run[k].db.agents[aid].info.gpus[i].vram
  {
    hide Inv, Shadow, DbInv, SchedulerOk, MayMatch, Eligible, Charge, ChargeAll, Complete;
    Reachable(run, k);
    var v :| Inv(v) && Shadow(v, run[k]);
    SameBeside(v, run[k]);
    InvParts(v);
    AssignInOrder(v, aid, gpus);
  }

  // ---- A finished session that stays ----

  /** The agent will never report the session closed, and the controller keeps it in the agent's record, charged. */
  predicate Left(w: World, aid: AgentId, sid: SessionId) {
    && aid in w.nodes && Silent(w.nodes[aid], sid)
    && (aid in w.db.agents ==> sid in SessionIdSet(w.db.agents[aid].sessions))
  }

  lemma SilentNode(w: World, a: Action, sid: SessionId)
    requires NodeAction(a) && Enabled(w, a)
    requires Silent(w.nodes[a.aid], sid) && (a.RegisterA? ==> w.nodes[a.aid].phase.todo[0].id != sid)
    ensures Silent(NodeAfter(w, a), sid)
  {
    hide AssignedClaims, Debited, Credited;
    if a.ReleaseA? {
      WithoutMembers(w.nodes[a.aid].held, a.k);
    } else if a.DrainA? {
      NoEvents(w.nodes[a.aid].events, sid);
    }
  }

  lemma NodeLeft(v: World, w: World, a: Action, aid: AgentId, sid: SessionId)
    requires Inv(v) && Shadow(v, w) && Enabled(w, a) && NodeAction(a) && Left(w, aid, sid)
    ensures Left(Apply(w, a), aid, sid)
  {
    hide Inv, Shadow, Within, Complete, NodeAfter, Silent, SessionIdSet, NodeLocal, HeldRecorded, PhaseOk, Fresh,
      RegisteredHere, DbInv, RecordOk, Apply;
    SameBeside(v, w);
    NodeOnly(w, a);
    if a.aid == aid {
      NodeOfInv(v, aid);
      if a.RegisterA? {
        TodoNew(Record(v, aid), w.nodes[aid], sid);
      }
      SilentNode(w, a, sid);
    }
  }

  lemma TodoNew(row: AgentRow, n: Node, sid: SessionId)
    requires PhaseOk(ClaimsOf(row.sessions), n) && n.phase.Registering? && n.phase.todo != [] && Silent(n, sid)
    ensures n.phase.todo[0].id != sid
  {
    hide ClaimsOf;
    assert n.phase.todo[0] in n.phase.todo;
  }

  /** An agent between two ticks, or stopped. */
  lemma QuietLeft(n: Node, phase: Phase, sid: SessionId)
    requires Silent(n, sid) && (phase.Idle? || phase.Stopped?)
    ensures Silent(n.(phase := phase), sid)
  {
    SameClaims(n, n.(phase := phase));
  }

  lemma SendLeft(v: World, w: World, a: Action, aid: AgentId, sid: SessionId)
    requires Inv(v) && Shadow(v, w) && Enabled(w, a) && a.SendA? && Left(w, aid, sid)
    ensures Left(Apply(w, a), aid, sid)
  {
    hide Inv, Shadow, UpdateAgent, AddCredits, SessionIdSet;
    var n := w.nodes[aid];
    QuietLeft(n, Stopped, sid);
    QuietLeft(n, a.done, sid);
    var after := UpdateAgent(w.db, a.aid, Some(AgentActive), w.nodes[a.aid].phase.upd);
    if after.Some? {
      SendRecord(v, w, a.aid, w.nodes[a.aid].phase.upd, after.value, aid, sid);
    }
    hide Silent;
  }

  lemma SendRecord(v: World, w: World, on: AgentId, upd: Update, after: Db, aid: AgentId, sid: SessionId)
    requires Inv(v) && Shadow(v, w) && UpdateAgent(w.db, on, Some(AgentActive), upd) == Some(after)
    requires aid in w.db.agents ==> sid in SessionIdSet(w.db.agents[aid].sessions) && (on == aid ==> !Closes(upd, sid))
    ensures aid in after.agents ==> aid in w.db.agents && sid in SessionIdSet(after.agents[aid].sessions)
  {
    hide Inv, DbInv, SchedulerOk, Shadow, Within, Complete, UpdateAgent, UpdatedAgent, SessionIdSet, ScanSessions;
    SameBeside(v, w);
    InvParts(v);
    assert on in w.db.agents by { UpdateFinds(w.db, on, upd); }
    UpdateShadow(w.db, v.db, on, upd);
    SendShape(v, on, upd);
    if on == aid {
      SurvivorStays(w.db.agents[aid].(status := AgentActive), upd, v.db.sessions, sid);
    }
  }

  lemma UpdateFinds(db: Db, aid: AgentId, upd: Update)
    requires UpdateAgent(db, aid, Some(AgentActive), upd).Some?
    ensures aid in db.agents
  {
  }

  lemma SurvivorStays(row: AgentRow, upd: Update, table: Table, sid: SessionId)
    requires Listed(table, row.sessions) && sid in SessionIdSet(row.sessions) && !Closes(upd, sid)
    ensures sid in SessionIdSet(UpdatedAgent(row, upd, table).sessions)
  {
    hide Survivors, Credit, IdsOf;
    SurvivorsAre(row.sessions, upd);
    var s :| s in row.sessions && s.id == sid;
    assert Carry(s, upd) in Survivors(row.sessions, upd);
  }

  lemma AssignLeft(w: World, a: Action, aid: AgentId, sid: SessionId)
    requires Enabled(w, a) && a.AssignA? && Left(w, aid, sid)
    ensures Left(Apply(w, a), aid, sid)
  {
    hide Silent, MayMatch;
    if a.aid == aid && aid in w.db.agents && w.scheduler.entry.id in w.db.sessions {
      var sessions := w.db.agents[aid].sessions;
      forall s ensures sid in SessionIdSet(sessions + [s]) {
        SessionIdSetAppend(sessions, s);
      }
    }
  }

  lemma RestLeft(w: World, a: Action, aid: AgentId, sid: SessionId)
    requires Enabled(w, a) && !NodeAction(a) && !a.SendA? && !a.AssignA? && Left(w, aid, sid)
    ensures Left(Apply(w, a), aid, sid)
  {
    hide TotalVram, TotalVramRequired, HeldId, EventIds, Candidates, RemoveMissing, UpdateAgent;
    match a
    case IntendedCancelA(id) =>
      if aid in w.db.agents {
        hide SessionIdSet, Silent;
        MarkedIds(w.db.agents[aid].sessions, id);
      }
    case RemoveMissingA(silent) =>
      RemoveMissingIs(w.db, silent);
    case CloseA(on) =>
      CloseLeaves(w.db, on);
      QuietLeft(w.nodes[aid], Stopped, sid);
    case _ =>
  }

  lemma MarkedIds(sessions: seq<Session>, id: SessionId)
    ensures SessionIdSet(MarkCanceling(sessions, id)) == SessionIdSet(sessions)
  {
    var marked := MarkCanceling(sessions, id);
    forall x ensures x in SessionIdSet(marked) <==> x in SessionIdSet(sessions) {
      if x in SessionIdSet(marked) {
        var k :| 0 <= k < |marked| && marked[k].id == x;
        assert sessions[k].id == x;
      }
      if x in SessionIdSet(sessions) {
        var k :| 0 <= k < |sessions| && sessions[k].id == x;
        assert marked[k].id == x;
      }
    }
  }

  /** So it is for the rest of the run. */
  lemma {:induction false} LeftForGood(run: seq<World>, k: nat, m: nat, aid: AgentId, sid: SessionId)
    requires Run(run) && k <= m < |run| && Left(run[k], aid, sid)
    ensures Left(run[m], aid, sid)
    decreases m
  {
    hide Inv, Shadow, Enabled, Apply, Left;
    if k < m {
      LeftForGood(run, k, m - 1, aid, sid);
      Reachable(run, m - 1);
      var v :| Inv(v) && Shadow(v, run[m - 1]);
      assert Step(run[m - 1], run[m]);
      var a :| Enabled(run[m - 1], a) && run[m] == Apply(run[m - 1], a);
      if NodeAction(a) {
        NodeLeft(v, run[m - 1], a, aid, sid);
      } else if a.SendA? {
        SendLeft(v, run[m - 1], a, aid, sid);
      } else if a.AssignA? {
        AssignLeft(run[m - 1], a, aid, sid);
      } else {
        RestLeft(run[m - 1], a, aid, sid);
      }
    }
  }

  // ---- When the controller crashes ----

  /** A step ends the controller exactly when the scheduler assigns to an agent that is no longer there, or assigns or
      cancels a session that is no longer there. */
  lemma CrashesIff(run: seq<World>, k: nat, a: Action)
    requires Run(run) && k < |run| && Enabled(run[k], a)
    ensures Apply(run[k], a).scheduler.Crashed? <==>
              || (a.AssignA? && (a.aid in run[k].gone || run[k].scheduler.entry.id !in run[k].db.sessions))
              || (a.SkipA? && run[k].scheduler.queue[0].id !in run[k].db.sessions)
  {
    hide Inv, Shadow;
    Reachable(run, k);
    var v :| Inv(v) && Shadow(v, run[k]);
    SameBeside(v, run[k]);
    InvParts(v);
    hide DbInv, QueueOk, StillFits, Within, Complete;
    if a.AssignA? {
      assert a.aid in run[k].nodes;
    }
    hide SchedulerOk, Known;
    CrashIs(run[k], a);
  }

  lemma CrashIs(w: World, a: Action)
    requires Enabled(w, a)
    ensures Apply(w, a).scheduler.Crashed? <==>
              || (a.AssignA? && (a.aid !in w.db.agents || w.scheduler.entry.id !in w.db.sessions))
              || (a.SkipA? && w.scheduler.queue[0].id !in w.db.sessions)
  {
    hide MayMatch, RegisterAgent, RequestSession, IntendedCancel, SetMissing, RemoveMissing, Poll, Register, Announce,
      Release, PushClosed, Drain, UpdateAgent, AddCredits, AssignSession, Candidates;
    if a.AssignA? {
      AssignFails(w.db, w.scheduler.entry.id, a.aid, a.gpus);
    }
  }

  /** In a run in which no session is lost, exactly when it assigns to an agent that has gone since it was read. */
  lemma GuardedCrashesIff(run: seq<World>, k: nat, a: Action)
    requires GuardedRun(run) && k < |run| && Enabled(run[k], a)
    ensures Apply(run[k], a).scheduler.Crashed? <==> a.AssignA? && a.aid in run[k].gone
  {
    hide Inv, Run;
    GuardedReachable(run, k);
    InvParts(run[k]);
    GuardedIsRun(run);
    CrashesIff(run, k, a);
    hide StillFits, Fits, MayMatch, Apply;
  }

  /** A session is lost from the table exactly by the shutdown of an agent that has none, or no other. */
  lemma LostIff(w: World, a: Action, sid: SessionId)
    requires Enabled(w, a) && sid in w.db.sessions
    ensures sid !in Apply(w, a).db.sessions <==>
              a.CloseA? && (w.db.agents[a.aid].sessionIds == [] || w.db.agents[a.aid].sessionIds == [sid])
  {
    hide MayMatch, TotalVram, TotalVramRequired, Poll, Register, Announce, Release, PushClosed, Drain, AddCredits,
      Candidates, ScanSessions, MarkCanceling;
    if a.SendA? && UpdateAgent(w.db, a.aid, Some(AgentActive), w.nodes[a.aid].phase.upd).Some? {
      var row := w.db.agents[a.aid].(status := AgentActive);
      ScanKeys(row, w.nodes[a.aid].phase.upd, w.db.sessions, |row.sessionIds|);
    }
  }

  lemma {:induction false} ScanKeys(agent: AgentRow, upd: Update, table: Table, k: nat)
    requires k <= |agent.sessionIds| <= |agent.sessions| && ScanSessions(agent, upd, table, k).Some?
    ensures ScanSessions(agent, upd, table, k).value.table.Keys == table.Keys
  {
    if k > 0 {
      ScanKeys(agent, upd, table, k - 1);
    }
  }

  // ---- Two runs that end in a crash ----

  /** The record of an agent without sessions. */
  function Blank(info: AgentInfo): AgentRow {
    AgentRow(info, AgentActive, [], [], TotalVram(info.gpus))
  }

  /** Two agents alike, and a pass that has read both for the only session. */
  function UnderWay(info: AgentInfo, req: Requirements): World {
    var both := map[0 := Blank(info), 1 := Blank(info)];
    var row := SessionRow(Session(0, req.version, Queued, "", []), None, req, TotalVramRequired(req.gpus));
    World(Db(both, map[0 := row]), map[], map[0 := NewNode(info), 1 := NewNode(info)],
          Choosing(Keyed(0, req), both, []), {0}, map[])
  }

  lemma Extends(run: seq<World>, a: Action, w: World) returns (longer: seq<World>)
    requires GuardedRun(run) && Enabled(run[|run| - 1], a) && Guarded(run[|run| - 1], a)
    requires w == Apply(run[|run| - 1], a)
    ensures longer == run + [w] && GuardedRun(longer) && longer[|longer| - 1] == w
  {
    hide Enabled, Guarded, Apply;
    longer := run + [w];
    forall k | 0 <= k < |longer| - 1 ensures GuardedStep(longer[k], longer[k + 1]) {
      if k < |run| - 1 {
        assert GuardedStep(run[k], run[k + 1]);
      }
    }
  }

  /** The pass has read the queue, and no agent yet. */
  function Started(info: AgentInfo, req: Requirements): World {
    UnderWay(info, req).(scheduler := Offering([Keyed(0, req)]))
  }

  lemma ReachesStarted(info: AgentInfo, req: Requirements) returns (run: seq<World>)
    ensures GuardedRun(run) && run[|run| - 1] == Started(info, req)
  {
    hide GuardedRun, TotalVram, TotalVramRequired, NewNode;
    var w0 := Init();
    run := [w0];
    assert GuardedRun(run) by { StartRun(); }
    var w1 := Apply(w0, RegisterAgentA(0, info));
    run := Extends(run, RegisterAgentA(0, info), w1);
    var w2 := Apply(w1, RegisterAgentA(1, info));
    run := Extends(run, RegisterAgentA(1, info), w2);
    var w3 := Apply(w2, RequestA(0, req));
    run := Extends(run, RequestA(0, req), w3);
    run := Extends(run, ReadQueueA([Keyed(0, req)]), Started(info, req));
  }

  lemma ReachesUnderWay(info: AgentInfo, req: Requirements) returns (run: seq<World>)
    requires ValidRequest(req) && TotalVramRequired(req.gpus) <= TotalVram(info.gpus)
    ensures GuardedRun(run) && run[|run| - 1] == UnderWay(info, req)
  {
    hide GuardedRun, TotalVram, TotalVramRequired, NewNode;
    run := ReachesStarted(info, req);
    var w := Started(info, req);
    assert Candidates(w.db, TotalVramRequired(req.gpus)) == w.db.agents && w.scheduler.queue[1..] == [];
    run := Extends(run, OfferA, UnderWay(info, req));
  }

  lemma StartRun()
    ensures GuardedRun([Init()])
  {
  }

  /** Whatever selection a pass makes for an agent it has read, it crashes the controller when the agent was removed
      as missing in between. */
  lemma RemovedMidPass(info: AgentInfo, req: Requirements, gpus: seq<SessionGpu>) returns (run: seq<World>)
    requires ValidRequest(req) && TotalVramRequired(req.gpus) <= TotalVram(info.gpus)
    requires MayMatch(Blank(info), req, gpus)
    ensures GuardedRun(run) && run[|run| - 1].scheduler.Crashed?
  {
    hide GuardedRun, TotalVram, TotalVramRequired, NewNode, MayMatch;
    run := ReachesUnderWay(info, req);
    var w := UnderWay(info, req);
    var w1 := Apply(w, SetMissingA({0}));
    run := Extends(run, SetMissingA({0}), w1);
    assert Lapsed(w1.db, {0}) == {0};
    var w2 := Apply(w1, RemoveMissingA({0}));
    run := Extends(run, RemoveMissingA({0}), w2);
    run := Extends(run, AssignA(0, gpus), w2.(scheduler := Crashed));
  }

  /** It crashes it too when another agent, which has no session, shut down in between: the session is gone. */
  lemma ClosedMidPass(info: AgentInfo, req: Requirements, gpus: seq<SessionGpu>) returns (run: seq<World>)
    requires ValidRequest(req) && TotalVramRequired(req.gpus) <= TotalVram(info.gpus)
    requires MayMatch(Blank(info), req, gpus)
    ensures Run(run) && run[|run| - 1].scheduler.Crashed? && 0 in run[|run| - 1].db.agents
  {
    hide Run, GuardedRun, TotalVram, TotalVramRequired, NewNode, MayMatch;
    run := ReachesUnderWay(info, req);
    GuardedIsRun(run);
    var w := UnderWay(info, req);
    assert NewNode(info).phase.Idle? by { NewIsIdle(info); }
    var w1 := Apply(w, CloseA(1));
    run := RunExtends(run, CloseA(1), w1);
    run := RunExtends(run, AssignA(0, gpus), w1.(scheduler := Crashed));
  }

  lemma NewIsIdle(info: AgentInfo)
    ensures NewNode(info).phase.Idle?
  {
  }

  lemma RunExtends(run: seq<World>, a: Action, w: World) returns (longer: seq<World>)
    requires Run(run) && Enabled(run[|run| - 1], a) && w == Apply(run[|run| - 1], a)
    ensures longer == run + [w] && Run(longer) && longer[|longer| - 1] == w
  {
    hide Enabled, Apply;
    longer := run + [w];
    forall k | 0 <= k < |longer| - 1 ensures Step(longer[k], longer[k + 1]) {
      if k < |run| - 1 {
        assert Step(run[k], run[k + 1]);
      }
    }
  }

  /** Such a selection: the GPU of 4 of an agent that has no other, for a request of 4. */
  lemma SmallMatch()
    ensures var info := AgentInfo("", "", [GpuInfo(4, PciAddress(0, 0, 0, 0))], map[], map[]);
            var req := Requirements("", "", [GpuRequirement(4, None)], map[], map[]);
            && ValidRequest(req) && TotalVramRequired(req.gpus) <= TotalVram(info.gpus)
            && MayMatch(Blank(info), req, [SessionGpu(0, 4)])
  {
    var info := AgentInfo("", "", [GpuInfo(4, PciAddress(0, 0, 0, 0))], map[], map[]);
    var reqs, sel := [GpuRequirement(4, None)], [SessionGpu(0, 4)];
    FreeVramExact(Blank(info), 0);
    assert FreeVram(Blank(info)) == [4] && FirstMatch(info.gpus[0], 4, reqs) == 0;
    hide FreeVram, FirstMatch, Accepts;
    assert sel[0].index == 0;
  }
}
