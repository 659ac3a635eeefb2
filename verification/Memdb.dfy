/** The in-memory storage driver: transactions that replace rows of two tables. Every method is one
    atomic transaction, specified by the function of the same name in MemdbSpec. */
module Memdb {
  import opened Words
  import opened GpuSpec
  import opened MemdbSpec
  import opened Storage

  /** A row read by an iterator, with its key. */
  datatype Keyed<T> = Keyed(id: nat, row: T)

  class StorageDriver {
    var agents: map<AgentId, AgentRow>
    var sessions: map<SessionId, SessionRow>

    ghost function View(): Db
      reads this
    {
      Db(agents, sessions)
    }

    /** An agent's ids and embedded copies are parallel lists. */
    ghost predicate Valid()
      reads this
    {
      forall aid | aid in agents :: |agents[aid].sessionIds| == |agents[aid].sessions|
    }

    constructor ()
      ensures Valid() && View() == Db(map[], map[])
    {
      agents, sessions := map[], map[];
    }

    method RegisterAgent(id: AgentId, info: AgentInfo, status: AgentStatus)
      requires Valid() && id !in agents
      modifies this
      ensures Valid() && View() == MemdbSpec.RegisterAgent(old(View()), id, info, status)
    {
      var vram := SumVram(info.gpus);
      agents := agents[id := AgentRow(info, status, [], [], vram)];
    }

    method RequestSession(id: SessionId, req: Requirements)
      requires Valid() && id !in sessions
      modifies this
      ensures Valid() && View() == MemdbSpec.RequestSession(old(View()), id, req)
    {
      var vram := SumVramRequired(req.gpus);
      sessions := sessions[id := SessionRow(Session(id, req.version, Queued, "", []), None, req, vram)];
    }

    /** False when a required row is missing: the source panics and nothing is committed. */
    method AssignSession(sid: SessionId, aid: AgentId, gpus: seq<SessionGpu>) returns (ok: bool)
      requires Valid()
      modifies this
      ensures Valid()
      ensures ok <==> MemdbSpec.AssignSession(old(View()), sid, aid, gpus).Some?
      ensures View() == if ok then MemdbSpec.AssignSession(old(View()), sid, aid, gpus).value else old(View())
    {
      if aid !in agents || sid !in sessions {
        return false;
      }
      var agent := agents[aid];
      var row := sessions[sid];
      var session := row.session.(state := Assigned, address := agent.info.address, gpus := gpus);
      sessions := sessions[sid := row.(session := session, agentId := Some(aid))];
      agent := agent.(sessions := agent.sessions + [session], sessionIds := agent.sessionIds + [sid]);
      agent := agent.(vramAvailable := Wrap64(agent.vramAvailable - row.vramRequired));
      agents := agents[aid := agent];
      ok := true;
    }

    /** False when a required row is missing or the closing deletion fails; nothing is committed then. */
    method UpdateAgent(aid: AgentId, status: Option<AgentStatus>, upd: Update) returns (ok: bool)
      requires Valid()
      modifies this
      ensures Valid()
      ensures ok <==> MemdbSpec.UpdateAgent(old(View()), aid, status, upd).Some?
      ensures View() == if ok then MemdbSpec.UpdateAgent(old(View()), aid, status, upd).value else old(View())
    {
      if aid !in agents {
        return false;
      }
      var agent := agents[aid];
      if status.Some? {
        agent := agent.(status := status.value);
      }
      if agent.status != AgentClosed {
        var scan: Scan;
        ok, scan := RebuildSessions(agent, upd);
        if ok {
          agent := agent.(sessionIds := scan.ids, sessions := scan.sessions, vramAvailable := scan.vramAvailable);
          sessions := scan.table;
          agents := agents[aid := agent];
        }
      } else {
        var deleted := DeleteAll(sessions, agent.sessionIds);
        if deleted == None {
          return false;
        }
        sessions := deleted.value;
        agents := agents - {aid};
        ok := true;
      }
    }

    /** The loop of UpdateAgent over the agent's session ids. */
    method RebuildSessions(agent: AgentRow, upd: Update) returns (ok: bool, scan: Scan)
      requires |agent.sessionIds| == |agent.sessions|
      ensures ok <==> ScanSessions(agent, upd, sessions, |agent.sessionIds|).Some?
      ensures ok ==>
        scan == ScanSessions(agent, upd, sessions, |agent.sessionIds|).value && |scan.ids| == |scan.sessions|
    {
      ghost var n := |agent.sessionIds|;
      var ids, copies, table := [], [], sessions;
      var vram: Word64 := agent.vramAvailable;
      for k := 0 to |agent.sessionIds|
        invariant |ids| == |copies|
        invariant ScanSessions(agent, upd, sessions, k) == Some(Scan(ids, copies, vram, table))
      {
        var id := agent.sessionIds[k];
        if id in upd {
          if id !in table {
            FailureStays(agent, upd, sessions, k + 1, n);
            return false, Scan(ids, copies, vram, table);
          }
          var row := SetState(table[id], upd[id]);
          if row.session.state == Closed {
            vram := Wrap64(vram + row.vramRequired);
          } else {
            ids := ids + [id];
            copies := copies + [row.session];
          }
          table := table[id := row];
        } else {
          ids := ids + [id];
          copies := copies + [agent.sessions[k]];
        }
      }
      return true, Scan(ids, copies, vram, table);
    }

    /** CancelSession as written: the row is read and a local copy changed, but never inserted. */
    method CancelSession(sid: SessionId) returns (ok: bool)
      ensures ok <==> sid in sessions
    {
      if sid !in sessions {
        return false;
      }
      var session := sessions[sid].session;
      if sessions[sid].agentId.None? {
        session := session.(state := Closed);
      } else {
        session := session.(state := Canceling);
      }
      ok := true;
    }

    /** The sweep that marks silent active agents missing. */
    method SetAgentsMissing(silent: set<AgentId>)
      requires Valid()
      modifies this
      ensures Valid() && View() == SetMissing(old(View()), silent)
    {
      ghost var before := agents;
      var todo := agents.Keys;
      while todo != {}
        invariant todo <= before.Keys == agents.Keys && sessions == old(sessions)
        invariant forall aid | aid in before ::
                    agents[aid] == if aid !in todo && aid in silent && before[aid].status == AgentActive
                                   then before[aid].(status := AgentMissing) else before[aid]
        decreases todo
      {
        var aid :| aid in todo;
        todo := todo - {aid};
        if aid in silent && agents[aid].status == AgentActive {
          agents := agents[aid := agents[aid].(status := AgentMissing)];
        }
      }
      assert agents == SetMissing(old(View()), silent).agents;
    }

    /** The ids of the silent missing agents, each once, in any order. */
    method LapsedIds(silent: set<AgentId>) returns (ids: seq<AgentId>)
      ensures Collected(ids, Lapsed(View(), silent))
    {
      ids := [];
      var todo := agents.Keys;
      ghost var all := Lapsed(View(), silent);
      while todo != {}
        invariant todo <= agents.Keys && Collected(ids, all - todo)
        decreases todo
      {
        var aid :| aid in todo;
        var lapsed := aid in silent && agents[aid].status == AgentMissing;
        assert lapsed <==> aid in all;
        OneMore(all, todo, aid, ids);
        todo := todo - {aid};
        if lapsed {
          ids := ids + [aid];
        }
      }
      assert all - {} == all;
    }

    /** The sweep that removes silent missing agents. False when the deletion fails. */
    method RemoveMissingAgents(silent: set<AgentId>) returns (ok: bool)
      requires Valid()
      modifies this
      ensures Valid()
      ensures ok <==> MemdbSpec.RemoveMissing(old(View()), silent).Some?
      ensures View() == if ok then MemdbSpec.RemoveMissing(old(View()), silent).value else old(View())
    {
      var ids := LapsedIds(silent);
      CollectedFew(ids, Lapsed(View(), silent));
      hide Lapsed, Collected;
      if |ids| > 0 {
        var deleted := DeleteAll(agents, ids);
        if deleted == None {
          return false;
        }
        agents := deleted.value;
      } else {
        assert agents - {} == agents;
      }
      ok := true;
    }

    /** A snapshot of the active agents that show enough VRAM, each once, in whatever order the index yields. */
    method GetAvailableAgentsMatching(atLeast: Word64) returns (found: seq<Keyed<AgentRow>>)
      ensures forall c | c in found :: c.id in agents && agents[c.id] == c.row
                                       && c.row.status == AgentActive && atLeast <= c.row.vramAvailable
      ensures forall aid | aid in agents && agents[aid].status == AgentActive && atLeast <= agents[aid].vramAvailable ::
                Keyed(aid, agents[aid]) in found
      ensures forall j, k :: 0 <= j < k < |found| ==> found[j].id != found[k].id
    {
      found := [];
      var todo := agents.Keys;
      while todo != {}
        invariant todo <= agents.Keys
        invariant forall j, k :: 0 <= j < k < |found| ==> found[j].id != found[k].id
        invariant forall c | c in found :: c.id in agents && c.id !in todo && agents[c.id] == c.row
                                           && c.row.status == AgentActive && atLeast <= c.row.vramAvailable
        invariant forall aid | aid in agents && aid !in todo && agents[aid].status == AgentActive
                                 && atLeast <= agents[aid].vramAvailable :: Keyed(aid, agents[aid]) in found
        decreases todo
      {
        var aid :| aid in todo;
        todo := todo - {aid};
        if agents[aid].status == AgentActive && atLeast <= agents[aid].vramAvailable {
          found := found + [Keyed(aid, agents[aid])];
        }
      }
    }

    /** A snapshot of the queued sessions, each once. */
    method GetQueuedSessions() returns (found: seq<Keyed<Requirements>>)
      ensures forall c | c in found :: c.id in sessions && sessions[c.id].session.state == Queued
                                       && sessions[c.id].requirements == c.row
      ensures forall sid | sid in sessions && sessions[sid].session.state == Queued ::
                Keyed(sid, sessions[sid].requirements) in found
      ensures forall j, k :: 0 <= j < k < |found| ==> found[j].id != found[k].id
    {
      found := [];
      var todo := sessions.Keys;
      while todo != {}
        invariant todo <= sessions.Keys
        invariant forall c | c in found :: c.id in sessions && c.id !in todo && sessions[c.id].session.state == Queued
                                           && sessions[c.id].requirements == c.row
        invariant forall sid | sid in sessions && sid !in todo && sessions[sid].session.state == Queued ::
                    Keyed(sid, sessions[sid].requirements) in found
        invariant forall j, k :: 0 <= j < k < |found| ==> found[j].id != found[k].id
        decreases todo
      {
        var sid :| sid in todo;
        todo := todo - {sid};
        if sessions[sid].session.state == Queued {
          found := found + [Keyed(sid, sessions[sid].requirements)];
        }
      }
    }
  }

  /** The elements of a set, each once. */
  ghost predicate Collected(ids: seq<AgentId>, all: set<AgentId>) {
    |ids| == |all| && forall id :: id in ids <==> id in all
  }

  lemma OneMore(all: set<AgentId>, todo: set<AgentId>, aid: AgentId, ids: seq<AgentId>)
    requires aid in todo && Collected(ids, all - todo)
    ensures Collected(if aid in all then ids + [aid] else ids, all - (todo - {aid}))
  {
    if aid in all {
      assert all - (todo - {aid}) == (all - todo) + {aid};
    } else {
      assert all - (todo - {aid}) == all - todo;
    }
  }

  lemma CollectedFew(ids: seq<AgentId>, all: set<AgentId>)
    requires Collected(ids, all)
    ensures |ids| == |all|
    ensures ids == [] ==> all == {}
    ensures |ids| == 1 ==> all == {ids[0]}
  {
    if |ids| == 1 {
      assert ids[0] in ids;
      forall id | id in all ensures id == ids[0] {
        assert id in ids;
      }
    }
  }

  lemma {:induction false} FailureStays(agent: AgentRow, upd: Update, table: Table, k: nat, n: nat)
    requires |agent.sessionIds| == |agent.sessions| && k <= n <= |agent.sessionIds|
    requires ScanSessions(agent, upd, table, k).None?
    ensures ScanSessions(agent, upd, table, n).None?
  {
    if k < n {
      FailureStays(agent, upd, table, k, n - 1);
    }
  }
}
