/** What becomes of a session's row in the course of a run: what it was asked for never changes, nor where it was put
    once it is assigned, and closed it stays, but for one race of the intended cancel with the scheduler. */
module RowHistory {
  import opened Words
  import opened GpuSpec
  import opened MemdbSpec
  import opened ControllerInv
  import opened Memdb
  import opened Backend
  import opened AgentSpec
  import opened Nodes
  import opened Protocol
  import opened ProtocolInv
  import opened Shadows
  import opened Runs

  /** A later state of the same row. */
  predicate Later(row: SessionRow, row': SessionRow) {
    && row'.session.id == row.session.id && row'.session.version == row.session.version
    && row'.requirements == row.requirements && row'.vramRequired == row.vramRequired
    && (row.agentId.Some? ==> row'.agentId == row.agentId)
    && (row'.agentId == row.agentId ==>
          row'.session.address == row.session.address && row'.session.gpus == row.session.gpus)
  }

  /** The row of a session is queued at first, of the version asked for, and on no agent and no GPU. */
  predicate AsRequested(sid: SessionId, req: Requirements, row: SessionRow) {
    && row.requirements == req && row.vramRequired == Wrap64(RequiredSum(req.gpus))
    && row.session.id == sid && row.session.version == req.version && row.session.state == Queued
    && row.agentId == None && row.session.address == "" && row.session.gpus == []
  }

  /** The pass under way assigns this session, and the agent it chose is still there. */
  predicate Assigns(w: World, a: Action, sid: SessionId) {
    a.AssignA? && w.scheduler.Choosing? && w.scheduler.entry.id == sid && a.aid in w.db.agents
  }

  /** Everything one step of anyone can make of one row. */
  predicate RowStep(w: World, a: Action, sid: SessionId, row: SessionRow, row': SessionRow) {
    && Later(row, row')
    && (row'.agentId != row.agentId ==> Assigns(w, a, sid) && row'.agentId == Some(a.aid))
    && (row.session.state == Closed ==> (row'.session.state != Closed <==> Assigns(w, a, sid)))
  }

  lemma {:induction false} ScanTouches(agent: AgentRow, upd: Update, table: Table, k: nat)
    requires k <= |agent.sessionIds| <= |agent.sessions| && ScanSessions(agent, upd, table, k).Some?
    ensures var table' := ScanSessions(agent, upd, table, k).value.table;
            && table'.Keys == table.Keys
            && forall sid | sid in table :: table'[sid] == table[sid] ||
                 (sid in agent.sessionIds[..k] && sid in upd && table'[sid] == SetState(table[sid], upd[sid]))
  {
    if k > 0 {
      ScanTouches(agent, upd, table, k - 1);
      assert agent.sessionIds[..k] == agent.sessionIds[..k - 1] + [agent.sessionIds[k - 1]];
    }
  }

  /** The sessions an agent is recorded with are its own and not closed. */
  lemma RecordedOpen(w: World, aid: AgentId, sid: SessionId)
    requires Ok(w) && aid in w.db.agents && sid in w.db.agents[aid].sessionIds && sid in w.db.sessions
    ensures w.db.sessions[sid].session.state != Closed && w.db.sessions[sid].agentId == Some(aid)
  {
    hide Inv, Shadow;
    var v :| Inv(v) && Shadow(v, w);
    SameBeside(v, w);
    AgentOfInv(v, aid);
    hide Accounted, Fits, Placed, Complete;
    var row := v.db.agents[aid];
    var k :| 0 <= k < |row.sessionIds| && row.sessionIds[k] == sid;
    assert Recorded(v.db.sessions, aid, row.sessions[k]);
  }

  lemma SendRows(w: World, a: Action, sid: SessionId)
    requires Ok(w) && Enabled(w, a) && a.SendA? && sid in w.db.sessions
    ensures sid in Apply(w, a).db.sessions && RowStep(w, a, sid, w.db.sessions[sid], Apply(w, a).db.sessions[sid])
    ensures Apply(w, a).db.sessions.Keys == w.db.sessions.Keys
  {
    hide Ok, AddCredits, ScanSessions;
    var upd := w.nodes[a.aid].phase.upd;
    if UpdateAgent(w.db, a.aid, Some(AgentActive), upd).Some? {
      var row := w.db.agents[a.aid].(status := AgentActive);
      ScanTouches(row, upd, w.db.sessions, |row.sessionIds|);
      if sid in row.sessionIds {
        RecordedOpen(w, a.aid, sid);
      }
    }
  }

  /** The session a pass is placing is unassigned. */
  lemma EntryUnassigned(w: World)
    requires Ok(w) && w.scheduler.Choosing? && w.scheduler.entry.id in w.db.sessions
    ensures w.db.sessions[w.scheduler.entry.id].agentId == None
  {
    hide Inv, Shadow;
    var v :| Inv(v) && Shadow(v, w);
    SameBeside(v, w);
    InvParts(v);
    hide Complete, Known, DbInv;
    assert w.scheduler.entry in [w.scheduler.entry] + w.scheduler.queue;
  }

  lemma AssignRows(w: World, a: Action, sid: SessionId)
    requires Ok(w) && Enabled(w, a) && a.AssignA? && sid in w.db.sessions
    ensures sid in Apply(w, a).db.sessions && RowStep(w, a, sid, w.db.sessions[sid], Apply(w, a).db.sessions[sid])
    ensures Apply(w, a).db.sessions.Keys == w.db.sessions.Keys
  {
    hide Ok, MayMatch;
    if w.scheduler.entry.id in w.db.sessions {
      EntryUnassigned(w);
    }
  }

  lemma AssignedRow(w: World, a: Action, sid: SessionId)
    requires Enabled(w, a) && Assigns(w, a, sid) && sid in w.db.sessions && sid in Apply(w, a).db.sessions
    ensures var after := Apply(w, a).db.sessions[sid];
            && after.agentId == Some(a.aid) && after.session.state == Assigned
            && after.session.address == w.db.agents[a.aid].info.address && after.session.gpus == a.gpus
  {
    hide MayMatch;
  }

  lemma RemovalRows(w: World, a: Action, sid: SessionId)
    requires Enabled(w, a) && (a.CloseA? || a.RemoveMissingA?)
    requires sid in w.db.sessions && sid in Apply(w, a).db.sessions
    ensures RowStep(w, a, sid, w.db.sessions[sid], Apply(w, a).db.sessions[sid])
  {
    hide ScanSessions, Lapsed;
  }

  lemma CancelRows(w: World, a: Action, sid: SessionId)
    requires Enabled(w, a) && a.IntendedCancelA?
    requires sid in w.db.sessions && sid in Apply(w, a).db.sessions
    ensures RowStep(w, a, sid, w.db.sessions[sid], Apply(w, a).db.sessions[sid])
  {
    hide MarkCanceling;
  }

  lemma RestRows(w: World, a: Action, sid: SessionId)
    requires Ok(w) && Enabled(w, a) && !a.SendA? && !a.AssignA? && !a.IntendedCancelA?
    requires !a.CloseA? && !a.RemoveMissingA?
    requires sid in w.db.sessions && sid in Apply(w, a).db.sessions
    ensures RowStep(w, a, sid, w.db.sessions[sid], Apply(w, a).db.sessions[sid])
  {
    hide MayMatch, TotalVram, TotalVramRequired, Poll, Register, Announce, Release, PushClosed, Drain, AddCredits,
      Candidates, ScanSessions, IntendedCancel, AssignSession, IsQueue,
      UpdateAgent, RemoveMissing, RemoveAgents;
    hide Ok;
    assert a.RequestA? ==> a.sid != sid by { UsedRows(w, sid); }
  }

  /** A session that has a row was issued. */
  lemma UsedRows(w: World, sid: SessionId)
    requires Ok(w) && sid in w.db.sessions
    ensures sid in w.used
  {
    hide Inv, Shadow;
    var v :| Inv(v) && Shadow(v, w);
    SameBeside(v, w);
  }

  lemma NewRows(w: World, a: Action, sid: SessionId)
    requires Enabled(w, a) && sid !in w.db.sessions && sid in Apply(w, a).db.sessions
    ensures a.RequestA? && a.sid == sid && sid !in w.used && AsRequested(sid, a.req, Apply(w, a).db.sessions[sid])
  {
    hide MayMatch, TotalVram, Poll, Register, Announce, Release, PushClosed, Drain, AddCredits,
      Candidates, MarkCanceling, IsQueue, ScanSessions;
    if a.SendA? && UpdateAgent(w.db, a.aid, Some(AgentActive), w.nodes[a.aid].phase.upd).Some? {
      var row := w.db.agents[a.aid].(status := AgentActive);
      ScanTouches(row, w.nodes[a.aid].phase.upd, w.db.sessions, |row.sessionIds|);
    }
  }

  lemma UsedGrows(w: World, a: Action)
    requires Enabled(w, a)
    ensures w.used <= Apply(w, a).used
  {
  }

  lemma Steps(w: World, a: Action, sid: SessionId)
    requires Ok(w) && Enabled(w, a) && sid in w.db.sessions && sid in Apply(w, a).db.sessions
    ensures RowStep(w, a, sid, w.db.sessions[sid], Apply(w, a).db.sessions[sid])
  {
    hide *;
    if a.SendA? {
      SendRows(w, a, sid);
    } else if a.AssignA? {
      AssignRows(w, a, sid);
    } else if a.IntendedCancelA? {
      CancelRows(w, a, sid);
    } else if a.CloseA? || a.RemoveMissingA? {
      RemovalRows(w, a, sid);
    } else {
      RestRows(w, a, sid);
    }
  }

  // ---- Every run ----

  lemma LastStep(run: seq<World>, k: nat) returns (a: Action)
    requires Run(run) && 0 < k < |run|
    ensures Ok(run[k - 1]) && Enabled(run[k - 1], a) && run[k] == Apply(run[k - 1], a)
  {
    hide Enabled, Apply, Ok;
    Reachable(run, k - 1);
    assert Step(run[k - 1], run[k]);
    a :| Enabled(run[k - 1], a) && run[k] == Apply(run[k - 1], a);
  }

  lemma StartsEmpty(run: seq<World>)
    requires Run(run)
    ensures run[0].db.sessions == map[]
  {
  }

  /** In every run, a row shows the version and the VRAM its requirements ask for, and until its session is assigned
      no address and no GPU. */
  lemma {:induction false} RowsAsRequested(run: seq<World>, k: nat, sid: SessionId)
    requires Run(run) && k < |run| && sid in run[k].db.sessions
    ensures var row := run[k].db.sessions[sid];
            && row.session.id == sid && row.session.version == row.requirements.version
            && row.vramRequired == Wrap64(RequiredSum(row.requirements.gpus))
            && (row.agentId == None ==> row.session.address == "" && row.session.gpus == [])
  {
    hide Enabled, Apply, Ok, Run;
    StartsEmpty(run);
    if k > 0 {
      var a := LastStep(run, k);
      if sid in run[k - 1].db.sessions {
        RowsAsRequested(run, k - 1, sid);
        Steps(run[k - 1], a, sid);
      } else {
        NewRows(run[k - 1], a, sid);
      }
    }
  }

  /** A session whose row is lost never comes back. */
  lemma {:induction false} StaysUsed(run: seq<World>, j: nat, k: nat, sid: SessionId)
    requires Run(run) && j <= k < |run| && sid in run[j].used
    ensures sid in run[k].used
  {
    hide Enabled, Apply, Ok, Run;
    if j < k {
      StaysUsed(run, j, k - 1, sid);
      var a := LastStep(run, k);
      UsedGrows(run[k - 1], a);
    }
  }

  /** In every run, what a session was asked for never changes, nor its agent, its address and its GPUs once it has
      them. */
  lemma {:induction false} AssignmentIsFinal(run: seq<World>, j: nat, k: nat, sid: SessionId)
    requires Run(run) && j <= k < |run| && sid in run[j].db.sessions && sid in run[k].db.sessions
    ensures var before, after := run[j].db.sessions[sid], run[k].db.sessions[sid];
            && after.requirements == before.requirements && after.session.version == before.session.version
            && (before.agentId != None ==> after.agentId == before.agentId)
            && (before.agentId != None ==> after.session.address == before.session.address)
            && (before.agentId != None ==> after.session.gpus == before.session.gpus)
  {
    hide Enabled, Apply, Ok, Run;
    if j < k {
      var a := LastStep(run, k);
      if sid !in run[k - 1].db.sessions {
        RunOk(run, j);
        UsedRows(run[j], sid);
        StaysUsed(run, j, k - 1, sid);
        NewRows(run[k - 1], a, sid);
      } else {
        AssignmentIsFinal(run, j, k - 1, sid);
        Steps(run[k - 1], a, sid);
      }
    }
  }

  lemma RunOk(run: seq<World>, k: nat)
    requires Run(run) && k < |run|
    ensures Ok(run[k])
  {
    hide *;
    Reachable(run, k);
  }

  /** A session is placed by the scheduler's assignment only, and then shows its agent's address and the GPUs chosen. */
  lemma PlacedIff(run: seq<World>, k: nat, a: Action, sid: SessionId)
    requires Run(run) && k < |run| && Enabled(run[k], a)
    requires sid in run[k].db.sessions && sid in Apply(run[k], a).db.sessions
    ensures var w, after := run[k], Apply(run[k], a).db.sessions[sid];
            && (after.agentId != w.db.sessions[sid].agentId <==> Assigns(w, a, sid))
            && (Assigns(w, a, sid) ==> after.agentId == Some(a.aid) && after.session.state == Assigned)
            && (Assigns(w, a, sid) ==> after.session.address == w.db.agents[a.aid].info.address)
            && (Assigns(w, a, sid) ==> after.session.gpus == a.gpus)
  {
    RunOk(run, k);
    Steps(run[k], a, sid);
    hide Run, Ok, Enabled, Apply;
    if Assigns(run[k], a, sid) {
      EntryUnassigned(run[k]);
      AssignedRow(run[k], a, sid);
    }
  }

  /** A closed session stays closed in every run, unless a pass that read it before assigns it. */
  lemma ReopensIff(run: seq<World>, k: nat, a: Action, sid: SessionId)
    requires Run(run) && k < |run| && Enabled(run[k], a)
    requires sid in run[k].db.sessions && sid in Apply(run[k], a).db.sessions
    requires run[k].db.sessions[sid].session.state == Closed
    ensures Apply(run[k], a).db.sessions[sid].session.state != Closed <==> Assigns(run[k], a, sid)
    ensures run[k].db.sessions[sid].agentId != None ==> Apply(run[k], a).db.sessions[sid].session.state == Closed
  {
    RunOk(run, k);
    Steps(run[k], a, sid);
    hide Run, Ok, Apply, Enabled;
    if Assigns(run[k], a, sid) {
      EntryUnassigned(run[k]);
    }
  }

  /** With the intended cancel that happens: it closes a session a pass has read, and the pass assigns it. */
  lemma CancelledMidPass(info: AgentInfo, req: Requirements, gpus: seq<SessionGpu>) returns (run: seq<World>)
    requires ValidRequest(req) && TotalVramRequired(req.gpus) <= TotalVram(info.gpus)
    requires MayMatch(Blank(info), req, gpus)
    ensures GuardedRun(run) && |run| > 1 && 0 in run[|run| - 2].db.sessions && 0 in run[|run| - 1].db.sessions
    ensures run[|run| - 2].db.sessions[0].session.state == Closed
    ensures run[|run| - 1].db.sessions[0].session.state == Assigned
  {
    hide GuardedRun, TotalVram, TotalVramRequired, NewNode, MayMatch;
    var before := ReachesUnderWay(info, req);
    var w := UnderWay(info, req);
    var w1 := Apply(w, IntendedCancelA(0));
    var closed := Extends(before, IntendedCancelA(0), w1);
    var w2 := Apply(w1, AssignA(0, gpus));
    run := Extends(closed, AssignA(0, gpus), w2);
  }

  /** The intended cancel closes an unassigned session, has an assigned one cancelled by its agent, and leaves every
      other session as it was. */
  lemma CancelIs(w: World, sid: SessionId, other: SessionId)
    requires Enabled(w, IntendedCancelA(sid)) && sid in w.db.sessions && other in w.db.sessions
    ensures var before, after := w.db.sessions, Apply(w, IntendedCancelA(sid)).db.sessions;
            && after.Keys == before.Keys && (other != sid ==> after[other] == before[other])
            && after[sid].session.state ==
               if before[sid].session.state == Closed || before[sid].agentId == None then Closed else Canceling
  {
    hide MarkCanceling;
  }

  // ---- The agents' rows ----

  /** The agent reports, and its update is applied. */
  predicate Reports(w: World, a: Action, aid: AgentId)
    requires a.SendA? ==> a.aid in w.nodes && w.nodes[a.aid].phase.Sending?
  {
    a.SendA? && a.aid == aid && UpdateAgent(w.db, aid, Some(AgentActive), w.nodes[aid].phase.upd).Some?
  }

  lemma RecordSteps(w: World, a: Action, aid: AgentId)
    requires Enabled(w, a) && (a.SendA? || a.CloseA? || a.RemoveMissingA?)
    requires aid in w.db.agents && aid in Apply(w, a).db.agents
    ensures var row, row' := w.db.agents[aid], Apply(w, a).db.agents[aid];
            && row'.info == row.info
            && row'.status == if Reports(w, a, aid) then AgentActive
                              else if a.SetMissingA? && aid in a.silent && row.status == AgentActive then AgentMissing
                              else row.status
  {
    hide AddCredits, ScanSessions, Lapsed;
  }

  /** What an agent said of itself never changes. It becomes missing only by a sweep that finds it active and silent,
      and active only by its own report. */
  lemma AgentSteps(w: World, a: Action, aid: AgentId)
    requires Enabled(w, a) && aid in w.db.agents && aid in Apply(w, a).db.agents
    ensures var row, row' := w.db.agents[aid], Apply(w, a).db.agents[aid];
            && row'.info == row.info
            && row'.status == if Reports(w, a, aid) then AgentActive
                              else if a.SetMissingA? && aid in a.silent && row.status == AgentActive then AgentMissing
                              else row.status
  {
    hide TotalVram, Poll, Register, Announce, Release, PushClosed, Drain, UpdateAgent, RemoveMissing, RemoveAgents,
      Candidates, MarkCanceling, IsQueue, NewNode, TotalVramRequired, MayMatch;
    if a.SendA? || a.CloseA? || a.RemoveMissingA? {
      RecordSteps(w, a, aid);
    }
  }

  /** An agent leaves the table exactly by a sweep that finds it silent and missing and no other so, or by its own
      shutdown while it has at most one session. */
  lemma AgentLeavesIff(w: World, a: Action, aid: AgentId)
    requires Enabled(w, a) && aid in w.db.agents
    ensures aid !in Apply(w, a).db.agents <==>
              || (a.CloseA? && a.aid == aid && |w.db.agents[aid].sessionIds| <= 1)
              || (a.RemoveMissingA? && forall other | other in w.db.agents ::
                    (other in a.silent && w.db.agents[other].status == AgentMissing <==> other == aid))
  {
    hide MayMatch, TotalVram, TotalVramRequired, Poll, Register, Announce, Release, PushClosed, Drain, AddCredits,
      Candidates, ScanSessions, MarkCanceling, IsQueue;
    if a.RemoveMissingA? {
      OneLapsed(w.db, a.silent, aid);
    }
  }

  lemma OneLapsed(db: Db, silent: set<AgentId>, aid: AgentId)
    requires aid in db.agents
    ensures aid in Lapsed(db, silent) && |Lapsed(db, silent)| <= 1 <==>
              forall other | other in db.agents ::
                (other in silent && db.agents[other].status == AgentMissing <==> other == aid)
  {
    var lapsed := Lapsed(db, silent);
    assert forall other | other in db.agents ::
        other in silent && db.agents[other].status == AgentMissing <==> other in lapsed;
    if aid in lapsed {
      assert |lapsed| == |lapsed - {aid}| + 1;
      if other :| other in lapsed - {aid} {
        assert other in db.agents && other != aid;
      } else {
        assert lapsed == {aid};
      }
    }
  }

  /** An agent enters the table by registering, active, without sessions and with all its VRAM free. */
  lemma AgentEnters(w: World, a: Action, aid: AgentId)
    requires Enabled(w, a) && aid !in w.db.agents && aid in Apply(w, a).db.agents
    ensures a.RegisterAgentA? && a.aid == aid
    ensures var row := Apply(w, a).db.agents[aid];
            && row.info == a.info && row.status == AgentActive && row.sessionIds == [] && row.sessions == []
            && row.vramAvailable == Wrap64(VramSum(a.info.gpus))
  {
    hide MayMatch, TotalVramRequired, Poll, Register, Announce, Release, PushClosed, Drain, AddCredits,
      Candidates, ScanSessions, MarkCanceling, IsQueue, Lapsed;
  }

  /** A session counts as credited once more exactly when its agent's update is applied, records it and closes it. */
  lemma CreditCounts(w: World, a: Action, sid: SessionId)
    requires Enabled(w, a)
    ensures Credits(Apply(w, a), sid) == Credits(w, sid) +
      if a.SendA? && Reports(w, a, a.aid) && Closing(w.db.agents[a.aid].sessions, w.nodes[a.aid].phase.upd, sid)
      then 1 else 0
  {
    hide MayMatch, TotalVram, TotalVramRequired, Poll, Register, Announce, Release, PushClosed, Drain,
      Candidates, ScanSessions, MarkCanceling, IsQueue, Lapsed, UpdateAgent, IntendedCancel, RequestSession;
  }

  /** The session is among these, and the update says that it is closed. */
  ghost predicate Closing(sessions: seq<Session>, upd: Update, sid: SessionId) {
    (exists s :: s in sessions && s.id == sid) && sid in upd && upd[sid] == Closed
  }
}
