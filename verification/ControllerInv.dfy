/** What every transaction keeps: each agent's embedded session copies mirror the session table, its
    VRAM account balances, no GPU is promised more than it has, and every session sits on an agent
    that meets its requirements. */
module ControllerInv {
  import opened Words
  import opened GpuSpec
  import opened MemdbSpec

  // ---- Matching (backend.go) ----

  predicate SubsetOf(superset: map<string, string>, subset: map<string, string>) {
    forall key | key in subset :: key in superset && superset[key] == subset[key]
  }

  predicate MatchesPool(poolId: string, reqPoolId: string) {
    reqPoolId == "" || poolId == reqPoolId
  }

  /** Labels must be present, taints tolerated, and the pool right. */
  predicate Eligible(info: AgentInfo, req: Requirements) {
    && MatchesPool(info.poolId, req.poolId)
    && SubsetOf(info.labels, req.matchLabels) && SubsetOf(req.tolerates, info.taints)
  }

  /** What an agent must offer, by the fields: the pool when one is asked for, every label asked for, and no taint but
      those tolerated. */
  lemma EligibleOffers(info: AgentInfo, req: Requirements)
    ensures Eligible(info, req) <==>
              && (req.poolId == "" || info.poolId == req.poolId)
              && (forall key | key in req.matchLabels :: key in info.labels && info.labels[key] == req.matchLabels[key])
              && (forall key | key in info.taints :: key in req.tolerates && req.tolerates[key] == info.taints[key])
  {
  }

  // ---- The invariant ----

  /** The embedded copy `s` is the table's own row for a live session of this agent. */
  predicate Recorded(table: Table, aid: AgentId, s: Session) {
    && s.id in table && table[s.id].session == s && table[s.id].agentId == Some(aid)
    && s.state != Closed && s.state != Queued
  }

  /** The copies are exactly what the relational query selects: every table session with this agent
      id whose state is not closed, each once. */
  predicate Mirror(table: Table, aid: AgentId, agent: AgentRow) {
    && agent.sessionIds == IdsOf(agent.sessions)
    && DistinctIds(agent.sessions)
    && (forall s | s in agent.sessions :: Recorded(table, aid, s))
    && (forall sid | sid in table && table[sid].agentId == Some(aid) && table[sid].session.state != Closed ::
          sid in agent.sessionIds)
  }

  predicate Listed(table: Table, sessions: seq<Session>) {
    forall s | s in sessions :: s.id in table
  }

  function Required(table: Table, sessions: seq<Session>): nat
    requires Listed(table, sessions)
  {
    if sessions == [] then 0
    else Required(table, sessions[..|sessions| - 1]) + table[sessions[|sessions| - 1].id].vramRequired
  }

  function ChargeAll(sessions: seq<Session>, i: nat): nat {
    if sessions == [] then 0
    else ChargeAll(sessions[..|sessions| - 1], i) + Charge(sessions[|sessions| - 1].gpus, i)
  }

  predicate Accounted(table: Table, agent: AgentRow)
    requires Listed(table, agent.sessions)
  {
    agent.vramAvailable + Required(table, agent.sessions) == TotalVram(agent.info.gpus)
  }

  /** Every session names at least one of the agent's GPUs, and no GPU is promised more than its VRAM. */
  predicate Fits(gpus: seq<GpuInfo>, sessions: seq<Session>) {
    && (forall s | s in sessions :: s.gpus != [] && InRange(s.gpus, |gpus|))
    && (forall i: nat | i < |gpus| :: ChargeAll(sessions, i) <= gpus[i].vram)
  }

  predicate Placed(table: Table, agent: AgentRow)
    requires Listed(table, agent.sessions)
  {
    forall s | s in agent.sessions :: Eligible(agent.info, table[s.id].requirements) && s.address == agent.info.address
  }

  predicate AgentOk(table: Table, aid: AgentId, agent: AgentRow) {
    && Mirror(table, aid, agent)
    && Accounted(table, agent)
    && Fits(agent.info.gpus, agent.sessions)
    && Placed(table, agent)
  }

  predicate TableOk(table: Table) {
    forall sid | sid in table ::
      && table[sid].session.id == sid
      && table[sid].vramRequired == TotalVramRequired(table[sid].requirements.gpus)
      && (table[sid].session.state == Queued ==> table[sid].agentId.None?)
  }

  predicate DbInv(db: Db) {
    TableOk(db.sessions) && forall aid | aid in db.agents :: AgentOk(db.sessions, aid, db.agents[aid])
  }

  // ---- Sums ----

  lemma RequiredAppend(table: Table, sessions: seq<Session>, s: Session)
    requires Listed(table, sessions) && s.id in table
    ensures Listed(table, sessions + [s])
    ensures Required(table, sessions + [s]) == Required(table, sessions) + table[s.id].vramRequired
  {
    assert (sessions + [s])[..|sessions|] == sessions;
  }

  lemma {:induction false} RequiredFrame(table: Table, table': Table, sessions: seq<Session>)
    requires Listed(table, sessions) && Listed(table', sessions)
    requires forall s | s in sessions :: table'[s.id].vramRequired == table[s.id].vramRequired
    ensures Required(table', sessions) == Required(table, sessions)
  {
    if sessions != [] {
      var last := sessions[|sessions| - 1];
      assert last in sessions;
      RequiredFrame(table, table', sessions[..|sessions| - 1]);
    }
  }

  lemma ChargeAllAppend(sessions: seq<Session>, s: Session, i: nat)
    ensures ChargeAll(sessions + [s], i) == ChargeAll(sessions, i) + Charge(s.gpus, i)
  {
    assert (sessions + [s])[..|sessions|] == sessions;
  }

  // ---- Frame: a transaction that touches no session of this agent ----

  predicate SameFor(table: Table, table': Table, aid: AgentId) {
    && (forall sid | sid in table && table[sid].agentId == Some(aid) :: sid in table' && table'[sid] == table[sid])
    && (forall sid | sid in table' && table'[sid].agentId == Some(aid) ::
          sid in table && table[sid].agentId == Some(aid))
  }

  lemma AgentFrame(table: Table, table': Table, aid: AgentId, agent: AgentRow)
    requires AgentOk(table, aid, agent) && SameFor(table, table', aid)
    ensures AgentOk(table', aid, agent)
  {
    hide Required, ChargeAll, Eligible;
    forall s | s in agent.sessions ensures Recorded(table', aid, s) && table'[s.id] == table[s.id] {
      assert Recorded(table, aid, s);
    }
    RequiredFrame(table, table', agent.sessions);
  }

  // ---- Transactions keep the invariant ----

  lemma InitKeeps()
    ensures DbInv(Db(map[], map[]))
  {
  }

  lemma RegisterKeeps(db: Db, aid: AgentId, info: AgentInfo, status: AgentStatus)
    requires DbInv(db) && aid !in db.agents
    requires forall sid | sid in db.sessions :: db.sessions[sid].agentId != Some(aid)
    ensures DbInv(RegisterAgent(db, aid, info, status))
  {
    hide Eligible;
    var agent := RegisterAgent(db, aid, info, status).agents[aid];
    assert AgentOk(db.sessions, aid, agent);
  }

  lemma RequestKeeps(db: Db, sid: SessionId, req: Requirements)
    requires DbInv(db) && sid !in db.sessions
    ensures DbInv(RequestSession(db, sid, req))
  {
    hide AgentOk;
    var after := RequestSession(db, sid, req);
    forall aid | aid in after.agents ensures AgentOk(after.sessions, aid, after.agents[aid]) {
      AgentFrame(db.sessions, after.sessions, aid, db.agents[aid]);
    }
  }

  /** When an assignment is in order: the session is unassigned and what it is given fits. */
  predicate Assignable(db: Db, sid: SessionId, aid: AgentId, gpus: seq<SessionGpu>) {
    && aid in db.agents && sid in db.sessions
    && db.sessions[sid].agentId.None?
    && db.sessions[sid].vramRequired <= db.agents[aid].vramAvailable
    && Eligible(db.agents[aid].info, db.sessions[sid].requirements)
    && gpus != [] && InRange(gpus, |db.agents[aid].info.gpus|)
    && forall i: nat | i < |db.agents[aid].info.gpus| ::
         ChargeAll(db.agents[aid].sessions, i) + Charge(gpus, i) <= db.agents[aid].info.gpus[i].vram
  }

  /** The agent row with one more session. */
  function WithSession(agent: AgentRow, s: Session, vram: Word64): AgentRow {
    agent.(sessions := agent.sessions + [s], sessionIds := agent.sessionIds + [s.id],
           vramAvailable := Wrap64(agent.vramAvailable - vram))
  }

  lemma AssignMirror(table: Table, aid: AgentId, agent: AgentRow, row: SessionRow)
    requires Mirror(table, aid, agent) && row.agentId == Some(aid)
    requires row.session.id in table ==> table[row.session.id].agentId.None?
    requires row.session.state != Closed && row.session.state != Queued
    ensures Mirror(table[row.session.id := row], aid, WithSession(agent, row.session, row.vramRequired))
  {
    hide IdsOf;
    var table', agent' := table[row.session.id := row], WithSession(agent, row.session, row.vramRequired);
    assert agent'.sessionIds == IdsOf(agent'.sessions);
    forall s | s in agent.sessions ensures s.id != row.session.id && Recorded(table', aid, s) {
      assert Recorded(table, aid, s);
    }
    forall id | id in table' && table'[id].agentId == Some(aid) && table'[id].session.state != Closed
      ensures id in agent'.sessionIds
    {
      if id == row.session.id {
        assert agent'.sessionIds[|agent.sessionIds|] == id;
      } else {
        assert id in agent.sessionIds;
      }
    }
  }

  lemma AssignAccount(table: Table, aid: AgentId, agent: AgentRow, row: SessionRow)
    requires Mirror(table, aid, agent) && Accounted(table, agent)
    requires row.session.id in table ==> table[row.session.id].agentId.None?
    requires row.vramRequired <= agent.vramAvailable
    ensures var agent' := WithSession(agent, row.session, row.vramRequired);
            && Listed(table[row.session.id := row], agent'.sessions)
            && Accounted(table[row.session.id := row], agent')
            && agent'.vramAvailable == agent.vramAvailable - row.vramRequired
  {
    hide Required;
    var table' := table[row.session.id := row];
    forall s | s in agent.sessions ensures s.id in table' && table'[s.id] == table[s.id] {
      assert Recorded(table, aid, s);
    }
    RequiredFrame(table, table', agent.sessions);
    RequiredAppend(table', agent.sessions, row.session);
  }

  lemma AssignFits(gpus: seq<GpuInfo>, sessions: seq<Session>, s: Session)
    requires Fits(gpus, sessions) && s.gpus != [] && InRange(s.gpus, |gpus|)
    requires forall i: nat | i < |gpus| :: ChargeAll(sessions, i) + Charge(s.gpus, i) <= gpus[i].vram
    ensures Fits(gpus, sessions + [s])
  {
    hide ChargeAll, Charge;
    forall i: nat | i < |gpus| ensures ChargeAll(sessions + [s], i) <= gpus[i].vram {
      ChargeAllAppend(sessions, s, i);
    }
  }

  lemma AssignPlaced(table: Table, aid: AgentId, agent: AgentRow, row: SessionRow)
    requires Mirror(table, aid, agent) && Placed(table, agent)
    requires row.session.id in table ==> table[row.session.id].agentId.None?
    requires Eligible(agent.info, row.requirements) && row.session.address == agent.info.address
    ensures var agent' := WithSession(agent, row.session, row.vramRequired);
            && Listed(table[row.session.id := row], agent'.sessions)
            && Placed(table[row.session.id := row], agent')
  {
    hide Eligible;
    var table' := table[row.session.id := row];
    forall s | s in agent.sessions + [row.session]
      ensures s.id in table' && Eligible(agent.info, table'[s.id].requirements) && s.address == agent.info.address
    {
      if s in agent.sessions {
        assert Recorded(table, aid, s);
      }
    }
  }

  lemma AssignKeeps(db: Db, sid: SessionId, aid: AgentId, gpus: seq<SessionGpu>)
    requires DbInv(db) && Assignable(db, sid, aid, gpus)
    ensures AssignSession(db, sid, aid, gpus).Some? && DbInv(AssignSession(db, sid, aid, gpus).value)
  {
    hide Mirror, Accounted, Fits, Placed, Eligible, ChargeAll, Charge, Required, TotalVramRequired;
    var after := AssignSession(db, sid, aid, gpus).value;
    var agent, row := db.agents[aid], after.sessions[sid];
    assert AgentOk(db.sessions, aid, agent);
    assert after.sessions == db.sessions[sid := row];
    assert after.agents[aid] == WithSession(agent, row.session, row.vramRequired);
    AssignMirror(db.sessions, aid, agent, row);
    AssignAccount(db.sessions, aid, agent, row);
    AssignFits(agent.info.gpus, agent.sessions, row.session);
    AssignPlaced(db.sessions, aid, agent, row);
    forall other | other in after.agents && other != aid ensures AgentOk(after.sessions, other, after.agents[other]) {
      AgentFrame(db.sessions, after.sessions, other, db.agents[other]);
    }
  }

  // ---- Updates from an agent ----

  predicate Closes(upd: Update, id: SessionId) {
    id in upd && upd[id] == Closed
  }

  /** A recorded session with the state an update reports for it. */
  function Carry(s: Session, upd: Update): Session {
    if s.id in upd then s.(state := upd[s.id]) else s
  }

  /** The survivors are exactly the sessions the update does not close, carrying their reported state. */
  lemma {:induction false} SurvivorsAre(sessions: seq<Session>, upd: Update)
    ensures forall s | s in sessions && !Closes(upd, s.id) :: Carry(s, upd) in Survivors(sessions, upd)
    ensures forall t | t in Survivors(sessions, upd) ::
              exists s :: s in sessions && !Closes(upd, s.id) && t == Carry(s, upd)
    ensures |Survivors(sessions, upd)| <= |sessions|
  {
    if sessions != [] {
      var init, last := sessions[..|sessions| - 1], sessions[|sessions| - 1];
      SurvivorsAre(init, upd);
      SurvivorsAppend(init, last, upd);
      assert sessions == init + [last];
      forall t | t in Survivors(sessions, upd)
        ensures exists s :: s in sessions && !Closes(upd, s.id) && t == Carry(s, upd)
      {
        if t !in Survivors(init, upd) {
          assert last in sessions && t == Carry(last, upd);
        }
      }
    }
  }

  lemma {:induction false} SurvivorsDistinct(sessions: seq<Session>, upd: Update)
    requires DistinctIds(sessions)
    ensures DistinctIds(Survivors(sessions, upd))
  {
    if sessions != [] {
      var init, last := sessions[..|sessions| - 1], sessions[|sessions| - 1];
      SurvivorsDistinct(init, upd);
      SurvivorsAppend(init, last, upd);
      assert sessions == init + [last];
      SurvivorsAre(init, upd);
      forall k | 0 <= k < |Survivors(init, upd)| ensures Survivors(init, upd)[k].id != last.id {
        var t := Survivors(init, upd)[k];
        assert t in Survivors(init, upd);
        var s :| s in init && t == Carry(s, upd);
      }
    }
  }

  lemma {:induction false} SurvivorsCharge(sessions: seq<Session>, upd: Update, i: nat)
    ensures ChargeAll(Survivors(sessions, upd), i) <= ChargeAll(sessions, i)
  {
    if sessions != [] {
      var init, last := sessions[..|sessions| - 1], sessions[|sessions| - 1];
      SurvivorsCharge(init, upd, i);
      SurvivorsAppend(init, last, upd);
      assert sessions == init + [last];
      ChargeAllAppend(init, last, i);
      ChargeAllAppend(Survivors(init, upd), Carry(last, upd), i);
    }
  }

  /** What an update credits plus what the survivors require is what the sessions required before. */
  lemma {:induction false} CreditBalances(table: Table, table': Table, sessions: seq<Session>, upd: Update)
    requires Listed(table, sessions) && table'.Keys == table.Keys
    requires forall sid | sid in table :: table'[sid].vramRequired == table[sid].vramRequired
    ensures Listed(table', Survivors(sessions, upd))
    ensures Required(table', Survivors(sessions, upd)) + Credit(sessions, upd, table) == Required(table, sessions)
  {
    hide Survivors;
    if sessions == [] {
      assert Survivors(sessions, upd) == [] by { SurvivorsAre(sessions, upd); }
    } else {
      var init, last := sessions[..|sessions| - 1], sessions[|sessions| - 1];
      assert sessions == init + [last] && last in sessions;
      CreditBalances(table, table', init, upd);
      SurvivorsAppend(init, last, upd);
      RequiredAppend(table', Survivors(init, upd), Carry(last, upd));
    }
  }

  predicate ReportsNoQueued(upd: Update) {
    forall id | id in upd :: upd[id] != Queued
  }

  /** The row and table an update of a live agent leaves. */
  function UpdatedAgent(agent: AgentRow, upd: Update, table: Table): AgentRow
    requires Listed(table, agent.sessions)
  {
    var kept := Survivors(agent.sessions, upd);
    agent.(sessionIds := IdsOf(kept), sessions := kept,
           vramAvailable := Wrap64(agent.vramAvailable + Credit(agent.sessions, upd, table)))
  }

  lemma UpdateMirror(table: Table, aid: AgentId, agent: AgentRow, upd: Update)
    requires Mirror(table, aid, agent) && ReportsNoQueued(upd)
    ensures Mirror(Applied(table, SessionIdSet(agent.sessions), upd), aid, UpdatedAgent(agent, upd, table))
  {
    hide Survivors, Credit;
    var table' := Applied(table, SessionIdSet(agent.sessions), upd);
    var kept := Survivors(agent.sessions, upd);
    SurvivorsDistinct(agent.sessions, upd);
    SurvivorsAre(agent.sessions, upd);
    forall t | t in kept ensures Recorded(table', aid, t) {
      var s :| s in agent.sessions && !Closes(upd, s.id) && t == Carry(s, upd);
      assert Recorded(table, aid, s);
    }
    forall sid | sid in table' && table'[sid].agentId == Some(aid) && table'[sid].session.state != Closed
      ensures sid in IdsOf(kept)
    {
      assert sid in agent.sessionIds;
      var k :| 0 <= k < |agent.sessionIds| && agent.sessionIds[k] == sid;
      var s := agent.sessions[k];
      assert Recorded(table, aid, s);
      assert Carry(s, upd) in kept;
      var m :| 0 <= m < |kept| && kept[m] == Carry(s, upd);
      assert IdsOf(kept)[m] == sid;
    }
  }

  lemma MirrorListed(table: Table, aid: AgentId, agent: AgentRow)
    requires Mirror(table, aid, agent)
    ensures Listed(table, agent.sessions)
  {
    forall s | s in agent.sessions ensures s.id in table {
      assert Recorded(table, aid, s);
    }
  }

  lemma CreditFits(total: Word64, avail: Word64, before: nat, after: nat, credit: nat)
    requires avail + before == total && after + credit == before
    ensures Wrap64(avail + credit) == avail + credit && Wrap64(avail + credit) + after == total
  {
  }

  lemma UpdateAccount(table: Table, aid: AgentId, agent: AgentRow, upd: Update)
    requires Listed(table, agent.sessions) && Accounted(table, agent)
    ensures var agent' := UpdatedAgent(agent, upd, table);
            var table' := Applied(table, SessionIdSet(agent.sessions), upd);
            && Listed(table', agent'.sessions) && Accounted(table', agent')
            && agent'.vramAvailable == agent.vramAvailable + Credit(agent.sessions, upd, table)
  {
    hide Survivors, Credit, Required, TotalVram, IdsOf, Wrap64;
    var table', kept := Applied(table, SessionIdSet(agent.sessions), upd), Survivors(agent.sessions, upd);
    CreditBalances(table, table', agent.sessions, upd);
    CreditFits(TotalVram(agent.info.gpus), agent.vramAvailable, Required(table, agent.sessions), Required(table', kept),
               Credit(agent.sessions, upd, table));
  }

  lemma UpdateFits(gpus: seq<GpuInfo>, sessions: seq<Session>, upd: Update)
    requires Fits(gpus, sessions)
    ensures Fits(gpus, Survivors(sessions, upd))
  {
    hide Survivors, ChargeAll;
    SurvivorsAre(sessions, upd);
    forall i: nat | i < |gpus| ensures ChargeAll(Survivors(sessions, upd), i) <= gpus[i].vram {
      SurvivorsCharge(sessions, upd, i);
    }
  }

  lemma UpdatePlaced(table: Table, aid: AgentId, agent: AgentRow, upd: Update)
    requires Mirror(table, aid, agent) && Placed(table, agent)
    ensures var agent' := UpdatedAgent(agent, upd, table);
            var table' := Applied(table, SessionIdSet(agent.sessions), upd);
            Listed(table', agent'.sessions) && Placed(table', agent')
  {
    hide Survivors, Eligible, Credit;
    SurvivorsAre(agent.sessions, upd);
    var table' := Applied(table, SessionIdSet(agent.sessions), upd);
    forall t | t in Survivors(agent.sessions, upd)
      ensures t.id in table' && Eligible(agent.info, table'[t.id].requirements) && t.address == agent.info.address
    {
      var s :| s in agent.sessions && t == Carry(s, upd);
      assert Recorded(table, aid, s);
    }
  }

  lemma MirrorCopies(table: Table, aid: AgentId, agent: AgentRow)
    requires Mirror(table, aid, agent)
    ensures Copies(table, agent.sessions) && Listed(table, agent.sessions)
  {
    forall s | s in agent.sessions ensures s.id in table && table[s.id].session == s {
      assert Recorded(table, aid, s);
    }
  }

  /** An update of a registered agent that does not end it never fails, and its loop leaves the
      survivors, the reported states and the credited VRAM. */
  lemma UpdateIs(db: Db, aid: AgentId, status: Option<AgentStatus>, upd: Update)
    requires DbInv(db) && aid in db.agents
    requires (if status.Some? then status.value else db.agents[aid].status) != AgentClosed
    ensures Listed(db.sessions, db.agents[aid].sessions)
    ensures var agent := db.agents[aid].(status := if status.Some? then status.value else db.agents[aid].status);
            UpdateAgent(db, aid, status, upd)
            == Some(Db(db.agents[aid := UpdatedAgent(agent, upd, db.sessions)],
                       Applied(db.sessions, SessionIdSet(agent.sessions), upd)))
  {
    hide Survivors, Credit, Accounted, Fits, Placed, ScanSessions;
    var agent := db.agents[aid].(status := if status.Some? then status.value else db.agents[aid].status);
    assert AgentOk(db.sessions, aid, db.agents[aid]);
    MirrorCopies(db.sessions, aid, db.agents[aid]);
    ScanIsDeclarative(agent, upd, db.sessions, |agent.sessions|);
    assert agent.sessions[..|agent.sessions|] == agent.sessions;
  }

  lemma UpdateKeeps(db: Db, aid: AgentId, status: Option<AgentStatus>, upd: Update)
    requires DbInv(db) && aid in db.agents && ReportsNoQueued(upd)
    requires (if status.Some? then status.value else db.agents[aid].status) != AgentClosed
    ensures |db.agents[aid].sessionIds| == |db.agents[aid].sessions|
    ensures UpdateAgent(db, aid, status, upd).Some? && DbInv(UpdateAgent(db, aid, status, upd).value)
  {
    hide Survivors, Credit, Required, Fits, Eligible, UpdateAgent, ChargeAll, TotalVramRequired;
    UpdateIs(db, aid, status, upd);
    var agent := db.agents[aid].(status := if status.Some? then status.value else db.agents[aid].status);
    assert AgentOk(db.sessions, aid, db.agents[aid]);
    UpdateOwn(db.sessions, aid, agent, upd);
    var table' := Applied(db.sessions, SessionIdSet(agent.sessions), upd);
    UpdateTable(db.sessions, aid, agent, upd);
    forall other | other in db.agents && other != aid ensures AgentOk(table', other, db.agents[other]) {
      AgentFrame(db.sessions, table', other, db.agents[other]);
    }
  }

  lemma UpdateOwn(table: Table, aid: AgentId, agent: AgentRow, upd: Update)
    requires Mirror(table, aid, agent) && ReportsNoQueued(upd)
    requires Accounted(table, agent) && Fits(agent.info.gpus, agent.sessions) && Placed(table, agent)
    ensures AgentOk(Applied(table, SessionIdSet(agent.sessions), upd), aid, UpdatedAgent(agent, upd, table))
  {
    hide Mirror, Survivors, Credit, Accounted, Fits, Placed;
    UpdateMirror(table, aid, agent, upd);
    MirrorListed(table, aid, agent);
    UpdateAccount(table, aid, agent, upd);
    UpdateFits(agent.info.gpus, agent.sessions, upd);
    UpdatePlaced(table, aid, agent, upd);
  }

  lemma UpdateTable(table: Table, aid: AgentId, agent: AgentRow, upd: Update)
    requires Mirror(table, aid, agent) && TableOk(table) && ReportsNoQueued(upd)
    ensures TableOk(Applied(table, SessionIdSet(agent.sessions), upd))
    ensures forall other | other != aid :: SameFor(table, Applied(table, SessionIdSet(agent.sessions), upd), other)
  {
    hide TotalVramRequired;
    forall id | id in SessionIdSet(agent.sessions) ensures id in table && table[id].agentId == Some(aid) {
      var s :| s in agent.sessions && s.id == id;
      assert Recorded(table, aid, s);
    }
  }

  /** No other agent records a session. */
  predicate Alone(db: Db, aid: AgentId) {
    forall other | other in db.agents && other != aid :: db.agents[other].sessions == []
  }

  lemma OnlySession(table: Table, aid: AgentId, agent: AgentRow)
    requires Mirror(table, aid, agent)
    ensures |agent.sessionIds| == |agent.sessions|
    ensures |agent.sessions| == 1 ==>
      var id := agent.sessionIds[0];
      id in table && table[id].agentId == Some(aid) && SessionIdSet(agent.sessions) == {id}
  {
    if |agent.sessions| == 1 {
      assert Recorded(table, aid, agent.sessions[0]);
      assert agent.sessions == [agent.sessions[0]];
    }
  }

  /** The update that ends an agent is meant to remove its row and its live sessions, and nothing else. It does
      exactly for an agent with one session, or with none while the session table is empty: with two or more the
      deletion fails, and with none it takes the whole table. */
  lemma CloseMeetsIntentIff(db: Db, aid: AgentId, upd: Update)
    requires DbInv(db) && aid in db.agents
    ensures |db.agents[aid].sessionIds| == |db.agents[aid].sessions|
    ensures var sessions := db.agents[aid].sessions;
      UpdateAgent(db, aid, Some(AgentClosed), upd) == Some(Db(db.agents - {aid}, db.sessions - SessionIdSet(sessions)))
      <==> |sessions| == 1 || (sessions == [] && db.sessions == map[])
  {
    hide Accounted, Fits, Placed, TotalVramRequired;
    var agent := db.agents[aid];
    assert AgentOk(db.sessions, aid, agent);
    OnlySession(db.sessions, aid, agent);
    if agent.sessions == [] {
      assert SessionIdSet(agent.sessions) == {};
      assert db.sessions - {} == db.sessions;
      assert UpdateAgent(db, aid, Some(AgentClosed), upd) == Some(Db(db.agents - {aid}, map[]));
    }
  }

  /** Closing an agent fails exactly with two or more sessions. Otherwise it keeps the invariant exactly when the
      agent has a session, or no other agent has one. */
  lemma CloseKeepsIff(db: Db, aid: AgentId, upd: Update)
    requires DbInv(db) && aid in db.agents
    ensures |db.agents[aid].sessionIds| == |db.agents[aid].sessions|
    ensures var after := UpdateAgent(db, aid, Some(AgentClosed), upd);
      && (after == None <==> |db.agents[aid].sessions| >= 2)
      && (after.Some? ==> (DbInv(after.value) <==> db.agents[aid].sessions != [] || Alone(db, aid)))
  {
    hide Accounted, Fits, Placed, TableOk;
    var agent := db.agents[aid];
    assert AgentOk(db.sessions, aid, agent);
    OnlySession(db.sessions, aid, agent);
    hide SessionIdSet;
    if |agent.sessions| == 1 {
      CloseOneKeeps(db, aid, upd);
    } else if agent.sessions == [] {
      CloseNoneKeepsIff(db, aid, upd);
    }
  }

  lemma CloseOneKeeps(db: Db, aid: AgentId, upd: Update)
    requires DbInv(db) && aid in db.agents && |db.agents[aid].sessionIds| == |db.agents[aid].sessions| == 1
    ensures UpdateAgent(db, aid, Some(AgentClosed), upd).Some?
    ensures DbInv(UpdateAgent(db, aid, Some(AgentClosed), upd).value)
  {
    hide Accounted, Fits, Placed, TotalVramRequired;
    assert AgentOk(db.sessions, aid, db.agents[aid]);
    OnlySession(db.sessions, aid, db.agents[aid]);
    hide SessionIdSet;
    var after := UpdateAgent(db, aid, Some(AgentClosed), upd).value;
    forall other | other in after.agents ensures AgentOk(after.sessions, other, after.agents[other]) {
      AgentFrame(db.sessions, after.sessions, other, db.agents[other]);
    }
  }

  lemma CloseNoneKeepsIff(db: Db, aid: AgentId, upd: Update)
    requires DbInv(db) && aid in db.agents && db.agents[aid].sessionIds == [] && db.agents[aid].sessions == []
    ensures UpdateAgent(db, aid, Some(AgentClosed), upd).Some?
    ensures DbInv(UpdateAgent(db, aid, Some(AgentClosed), upd).value) <==> Alone(db, aid)
  {
    var after := UpdateAgent(db, aid, Some(AgentClosed), upd).value;
    assert after == Db(db.agents - {aid}, map[]);
    hide AgentOk, TableOk, UpdateAgent;
    assert TableOk(map[]) by { EmptyTableOk(); }
    forall other | other in after.agents
      ensures AgentOk(map[], other, after.agents[other]) <==> after.agents[other].sessions == []
    {
      assert AgentOk(db.sessions, other, db.agents[other]);
      WipedAgent(db.sessions, other, db.agents[other]);
    }
    assert forall other | other in db.agents && other != aid ::
      other in after.agents && after.agents[other] == db.agents[other];
    assert DbInv(after) <==> forall other | other in after.agents :: AgentOk(map[], other, after.agents[other]);
  }

  lemma EmptyTableOk()
    ensures TableOk(map[])
  {
  }

  /** An agent's row without the session table is in order exactly when it records no session. */
  lemma WipedAgent(table: Table, aid: AgentId, agent: AgentRow)
    requires AgentOk(table, aid, agent)
    ensures AgentOk(map[], aid, agent) <==> agent.sessions == []
  {
    hide Fits, TotalVram;
    if agent.sessions != [] {
      assert !Recorded(map[], aid, agent.sessions[0]);
    }
  }

  function SmallInfo(): AgentInfo {
    AgentInfo("", "", [GpuInfo(4, PciAddress(0, 0, 0, 0))], map[], map[])
  }

  function SmallRequest(): Requirements {
    Requirements("", "", [GpuRequirement(4, None)], map[], map[])
  }

  const SMALL_SESSION := Session(0, "", Assigned, "", [SessionGpu(0, 4)])

  function SmallTable(): Table {
    map[0 := SessionRow(SMALL_SESSION, Some(1), SmallRequest(), 4)]
  }

  /** Two agents of one GPU each. Agent 1 runs session 0, agent 0 runs none. */
  function OneBusyAgent(): Db {
    Db(map[0 := AgentRow(SmallInfo(), AgentActive, [], [], 4),
           1 := AgentRow(SmallInfo(), AgentActive, [0], [SMALL_SESSION], 0)], SmallTable())
  }

  lemma IdleAgentOk()
    ensures AgentOk(SmallTable(), 0, AgentRow(SmallInfo(), AgentActive, [], [], 4))
  {
    assert TotalVram(SmallInfo().gpus) == 4;
  }

  lemma SmallSums()
    ensures TotalVram(SmallInfo().gpus) == 4 && TotalVramRequired(SmallRequest().gpus) == 4
    ensures Required(SmallTable(), [SMALL_SESSION]) == 4
    ensures InRange(SMALL_SESSION.gpus, 1) && ChargeAll([SMALL_SESSION], 0) == 4
  {
    assert Charge(SMALL_SESSION.gpus, 0) == 4;
    ChargeAllAppend([], SMALL_SESSION, 0);
    assert [] + [SMALL_SESSION] == [SMALL_SESSION];
  }

  lemma BusyAgentOk()
    ensures AgentOk(SmallTable(), 1, AgentRow(SmallInfo(), AgentActive, [0], [SMALL_SESSION], 0))
  {
    var table, agent := SmallTable(), AgentRow(SmallInfo(), AgentActive, [0], [SMALL_SESSION], 0);
    SmallSums();
    hide Required, TotalVram, TotalVramRequired, Charge, ChargeAll, InRange;
    assert Fits(agent.info.gpus, agent.sessions) && Accounted(table, agent);
    hide Fits;
    assert agent.sessionIds == IdsOf(agent.sessions);
    assert Mirror(table, 1, agent);
  }

  lemma OneBusyAgentOk()
    ensures DbInv(OneBusyAgent())
  {
    SmallSums();
    hide AgentOk, TotalVramRequired;
    IdleAgentOk();
    BusyAgentOk();
  }

  /** When agent 0 shuts down, the session of agent 1 disappears from the table and stays in agent 1's row. */
  lemma CloseTakesOthersSession(upd: Update)
    ensures var db := OneBusyAgent();
      && DbInv(db) && |db.agents[0].sessionIds| == |db.agents[0].sessions|
      && UpdateAgent(db, 0, Some(AgentClosed), upd) == Some(Db(db.agents - {0}, map[]))
      && !DbInv(Db(db.agents - {0}, map[]))
  {
    OneBusyAgentOk();
    hide DbInv;
    assert OneBusyAgent().agents[1].sessions != [];
    CloseKeepsIff(OneBusyAgent(), 0, upd);
  }

  // ---- Sweeps and cancellation ----

  lemma SweepsKeep(db: Db, silent: set<AgentId>)
    requires DbInv(db)
    ensures DbInv(SetMissing(db, silent))
    ensures RemoveMissing(db, silent).Some? ==> DbInv(RemoveMissing(db, silent).value)
  {
    hide Listed, IdsOf, DistinctIds, Required, ChargeAll, Charge, Eligible, TotalVram, TotalVramRequired;
    forall aid | aid in db.agents
      ensures AgentOk(db.sessions, aid, SetMissing(db, silent).agents[aid])
    {
      assert AgentOk(db.sessions, aid, db.agents[aid]);
    }
  }

  lemma {:induction false} MarkingKeepsCharges(sessions: seq<Session>, sid: SessionId, i: nat)
    ensures ChargeAll(MarkCanceling(sessions, sid), i) == ChargeAll(sessions, i)
  {
    if sessions != [] {
      var init := sessions[..|sessions| - 1];
      MarkingKeepsCharges(init, sid, i);
      assert MarkCanceling(sessions, sid)[..|sessions| - 1] == MarkCanceling(init, sid);
    }
  }

  lemma {:induction false} MarkingKeepsRequired(table: Table, table': Table, sessions: seq<Session>, sid: SessionId)
    requires Listed(table, sessions) && Listed(table', MarkCanceling(sessions, sid))
    requires forall s | s in sessions :: s.id in table' && table'[s.id].vramRequired == table[s.id].vramRequired
    ensures Required(table', MarkCanceling(sessions, sid)) == Required(table, sessions)
  {
    if sessions != [] {
      var init, last := sessions[..|sessions| - 1], sessions[|sessions| - 1];
      assert last in sessions;
      assert MarkCanceling(sessions, sid)[..|sessions| - 1] == MarkCanceling(init, sid);
      MarkingKeepsRequired(table, table', init, sid);
    }
  }

  lemma CancelMirror(table: Table, aid: AgentId, agent: AgentRow, sid: SessionId)
    requires Mirror(table, aid, agent) && sid in table && table[sid].agentId == Some(aid)
    requires table[sid].session.id == sid && table[sid].session.state != Closed
    ensures Mirror(table[sid := SetState(table[sid], Canceling)], aid,
                   agent.(sessions := MarkCanceling(agent.sessions, sid)))
  {
    var table' := table[sid := SetState(table[sid], Canceling)];
    var marked := MarkCanceling(agent.sessions, sid);
    forall k | 0 <= k < |marked| ensures Recorded(table', aid, marked[k]) && marked[k].id == agent.sessions[k].id {
      assert Recorded(table, aid, agent.sessions[k]);
    }
    assert agent.sessionIds == IdsOf(marked);
  }

  lemma CancelOwn(table: Table, aid: AgentId, agent: AgentRow, sid: SessionId)
    requires AgentOk(table, aid, agent) && sid in table && table[sid].agentId == Some(aid)
    requires table[sid].session.id == sid && table[sid].session.state != Closed
    ensures AgentOk(table[sid := SetState(table[sid], Canceling)], aid,
                   agent.(sessions := MarkCanceling(agent.sessions, sid)))
  {
    hide Required, ChargeAll, Eligible, Charge;
    var table' := table[sid := SetState(table[sid], Canceling)];
    var marked := MarkCanceling(agent.sessions, sid);
    CancelMirror(table, aid, agent, sid);
    MirrorCopies(table, aid, agent);
    MarkingKeepsRequired(table, table', agent.sessions, sid);
    forall i: nat | i < |agent.info.gpus| ensures ChargeAll(marked, i) <= agent.info.gpus[i].vram {
      MarkingKeepsCharges(agent.sessions, sid, i);
    }
    forall s | s in marked
      ensures s.gpus != [] && InRange(s.gpus, |agent.info.gpus|)
      ensures Eligible(agent.info, table'[s.id].requirements) && s.address == agent.info.address
    {
      var k :| 0 <= k < |marked| && marked[k] == s;
      assert agent.sessions[k] in agent.sessions && agent.sessions[k].id == s.id;
    }
  }

  /** The intended cancellation, had it been inserted, keeps the invariant. */
  lemma CancelKeeps(db: Db, sid: SessionId)
    requires DbInv(db)
    ensures DbInv(IntendedCancel(db, sid))
  {
    hide AgentOk, TotalVramRequired;
    var after := IntendedCancel(db, sid);
    forall aid | aid in after.agents ensures AgentOk(after.sessions, aid, after.agents[aid]) {
      CancelAgent(db, sid, aid);
    }
  }

  lemma CancelFrame(db: Db, sid: SessionId, aid: AgentId)
    requires sid in db.sessions && db.sessions[sid].agentId != Some(aid)
    ensures SameFor(db.sessions, IntendedCancel(db, sid).sessions, aid)
  {
  }

  lemma CancelAgent(db: Db, sid: SessionId, aid: AgentId)
    requires DbInv(db) && aid in db.agents
    ensures var after := IntendedCancel(db, sid);
            aid in after.agents && AgentOk(after.sessions, aid, after.agents[aid])
  {
    hide Accounted, Fits, Placed, TotalVramRequired;
    var after := IntendedCancel(db, sid);
    if sid in db.sessions && db.sessions[sid].session.state != Closed {
      assert AgentOk(db.sessions, aid, db.agents[aid]);
      if db.sessions[sid].agentId == Some(aid) {
        CancelOwn(db.sessions, aid, db.agents[aid], sid);
      } else {
        forall s | s in db.agents[aid].sessions ensures s.id != sid {
          assert Recorded(db.sessions, aid, s);
        }
        assert MarkCanceling(db.agents[aid].sessions, sid) == db.agents[aid].sessions;
        CancelFrame(db, sid, aid);
        hide SameFor, AgentOk;
        AgentFrame(db.sessions, after.sessions, aid, db.agents[aid]);
      }
    }
  }
}
