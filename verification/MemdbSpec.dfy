/** The in-memory controller storage, on values: the two tables and what each transaction makes of
    them. A transaction that panics (a missing row is required) or fails commits nothing and is None. */
module MemdbSpec {
  import opened Words
  import opened GpuSpec

  // Identifiers are uuids; only equality and freshness matter.
  type AgentId = nat
  type SessionId = nat

  /** Unset is the empty string, which a connection-only update writes. */
  datatype SessionState = Unset | Queued | Assigned | Active | Canceling | Closed

  datatype AgentStatus = AgentActive | AgentDisabled | AgentMissing | AgentClosed

  datatype Session = Session(id: SessionId, version: string, state: SessionState, address: string,
                             gpus: seq<SessionGpu>)

  datatype Requirements = Requirements(version: string, poolId: string, gpus: seq<GpuRequirement>,
                                       matchLabels: map<string, string>, tolerates: map<string, string>)

  datatype SessionRow = SessionRow(session: Session, agentId: Option<AgentId>, requirements: Requirements,
                                   vramRequired: Word64)

  /** What an agent says about itself when it registers. */
  datatype AgentInfo = AgentInfo(address: string, poolId: string, gpus: seq<GpuInfo>,
                                 labels: map<string, string>, taints: map<string, string>)

  datatype AgentRow = AgentRow(info: AgentInfo, status: AgentStatus, sessionIds: seq<SessionId>,
                               sessions: seq<Session>, vramAvailable: Word64)

  datatype Db = Db(agents: map<AgentId, AgentRow>, sessions: map<SessionId, SessionRow>)

  type Table = map<SessionId, SessionRow>
  type Update = map<SessionId, SessionState>

  function VramSum(gpus: seq<GpuInfo>): nat {
    if gpus == [] then 0 else VramSum(gpus[..|gpus| - 1]) + gpus[|gpus| - 1].vram
  }

  function RequiredSum(gpus: seq<GpuRequirement>): nat {
    if gpus == [] then 0 else RequiredSum(gpus[..|gpus| - 1]) + gpus[|gpus| - 1].vramRequired
  }

  /** The VRAM of two lists of GPUs together, and of one GPU. */
  lemma {:induction false} VramAdds(gpus: seq<GpuInfo>, more: seq<GpuInfo>)
    ensures VramSum(gpus + more) == VramSum(gpus) + VramSum(more)
    ensures |gpus| == 1 ==> VramSum(gpus) == gpus[0].vram
  {
    if more == [] {
      assert gpus + more == gpus;
    } else {
      VramAdds(gpus, more[..|more| - 1]);
      assert (gpus + more)[..|gpus + more| - 1] == gpus + more[..|more| - 1];
    }
  }

  lemma {:induction false} RequiredAdds(gpus: seq<GpuRequirement>, more: seq<GpuRequirement>)
    ensures RequiredSum(gpus + more) == RequiredSum(gpus) + RequiredSum(more)
    ensures |gpus| == 1 ==> RequiredSum(gpus) == gpus[0].vramRequired
  {
    if more == [] {
      assert gpus + more == gpus;
    } else {
      RequiredAdds(gpus, more[..|more| - 1]);
      assert (gpus + more)[..|gpus + more| - 1] == gpus + more[..|more| - 1];
    }
  }

  /** The sum in 64 bits. */
  function TotalVram(gpus: seq<GpuInfo>): Word64 {
    Wrap64(VramSum(gpus))
  }

  function TotalVramRequired(gpus: seq<GpuRequirement>): Word64 {
    Wrap64(RequiredSum(gpus))
  }

  function SetState(row: SessionRow, state: SessionState): SessionRow {
    row.(session := row.session.(state := state))
  }

  // ---- Transactions ----

  function RegisterAgent(db: Db, id: AgentId, info: AgentInfo, status: AgentStatus): Db {
    db.(agents := db.agents[id := AgentRow(info, status, [], [], TotalVram(info.gpus))])
  }

  function RequestSession(db: Db, id: SessionId, req: Requirements): Db {
    db.(sessions := db.sessions[id := SessionRow(Session(id, req.version, Queued, "", []), None, req,
                                                 TotalVramRequired(req.gpus))])
  }

  function AssignSession(db: Db, sid: SessionId, aid: AgentId, gpus: seq<SessionGpu>): Option<Db> {
    if aid !in db.agents || sid !in db.sessions then None
    else
      var agent, row := db.agents[aid], db.sessions[sid];
      var session := row.session.(state := Assigned, address := agent.info.address, gpus := gpus);
      Some(Db(db.agents[aid := agent.(sessions := agent.sessions + [session], sessionIds := agent.sessionIds + [sid],
                                      vramAvailable := Wrap64(agent.vramAvailable - row.vramRequired))],
              db.sessions[sid := row.(session := session, agentId := Some(aid))]))
  }

  /** What the loop of UpdateAgent has built after the first `k` session ids. */
  datatype Scan = Scan(ids: seq<SessionId>, sessions: seq<Session>, vramAvailable: Word64, table: Table)

  function ScanSessions(agent: AgentRow, upd: Update, table: Table, k: nat): Option<Scan>
    requires k <= |agent.sessionIds| <= |agent.sessions|
  {
    if k == 0 then Some(Scan([], [], agent.vramAvailable, table))
    else
      var before := ScanSessions(agent, upd, table, k - 1);
      if before.None? then None else ScanOne(before.value, agent.sessionIds[k - 1], agent.sessions[k - 1], upd)
  }

  function ScanOne(s: Scan, id: SessionId, copy: Session, upd: Update): Option<Scan> {
    if id !in upd then Some(s.(ids := s.ids + [id], sessions := s.sessions + [copy]))
    else if id !in s.table then None
    else
      var row := SetState(s.table[id], upd[id]);
      var table := s.table[id := row];
      if upd[id] == Closed then
        Some(s.(vramAvailable := Wrap64(s.vramAvailable + row.vramRequired), table := table))
      else
        Some(s.(ids := s.ids + [id], sessions := s.sessions + [row.session], table := table))
  }

  /** DeleteAll over the id index of a table. The index is of one uuid: without an argument it ranges over the whole
      table, and more than one is an error. */
  function DeleteAll<T>(table: map<nat, T>, ids: seq<nat>): Option<map<nat, T>> {
    if ids == [] then Some(map[])
    else if |ids| == 1 then Some(table - {ids[0]})
    else None
  }

  function UpdateAgent(db: Db, aid: AgentId, status: Option<AgentStatus>, upd: Update): Option<Db>
  {
    if aid !in db.agents then None
    else
      var agent := db.agents[aid].(status := if status.Some? then status.value else db.agents[aid].status);
      if agent.status == AgentClosed then
        match DeleteAll(db.sessions, agent.sessionIds)
        case None => None
        case Some(sessions) => Some(Db(db.agents - {aid}, sessions))
      else if |agent.sessionIds| > |agent.sessions| then None  // the copy of some id would be out of range
      else
        var scan := ScanSessions(agent, upd, db.sessions, |agent.sessionIds|);
        if scan.None? then None
        else
          Some(Db(db.agents[aid := agent.(sessionIds := scan.value.ids, sessions := scan.value.sessions,
                                          vramAvailable := scan.value.vramAvailable)],
                  scan.value.table))
  }

  /** Agents that were not heard of for long enough become missing. */
  function SetMissing(db: Db, silent: set<AgentId>): Db {
    db.(agents := map aid | aid in db.agents ::
          if aid in silent && db.agents[aid].status == AgentActive then db.agents[aid].(status := AgentMissing)
          else db.agents[aid])
  }

  /** The missing agents that stayed silent. */
  function Lapsed(db: Db, silent: set<AgentId>): set<AgentId> {
    set aid | aid in db.agents && aid in silent && db.agents[aid].status == AgentMissing
  }

  /** One lapsed agent is removed, and its sessions stay in the session table. More are one deletion with as many
      arguments, which fails. */
  function RemoveMissing(db: Db, silent: set<AgentId>): Option<Db> {
    if |Lapsed(db, silent)| <= 1 then Some(db.(agents := db.agents - Lapsed(db, silent))) else None
  }

  /** The cancellation that the code computes but never inserts: an unassigned session closes, an
      assigned one is marked in the table and in its agent's copy. A closed session stays closed. */
  function IntendedCancel(db: Db, sid: SessionId): Db {
    if sid !in db.sessions || db.sessions[sid].session.state == Closed then db
    else
      var row := db.sessions[sid];
      if row.agentId.None? then db.(sessions := db.sessions[sid := SetState(row, Closed)])
      else
        Db(map aid | aid in db.agents ::
             db.agents[aid].(sessions := MarkCanceling(db.agents[aid].sessions, sid)),
           db.sessions[sid := SetState(row, Canceling)])
  }

  function MarkCanceling(sessions: seq<Session>, sid: SessionId): (r: seq<Session>)
    ensures |r| == |sessions|
  {
    seq(|sessions|, k requires 0 <= k < |sessions| =>
      if sessions[k].id == sid then sessions[k].(state := Canceling) else sessions[k])
  }

  // ---- The same update said without a loop ----

  /** The recorded sessions an update leaves, each with the state it reports. */
  function Survivors(sessions: seq<Session>, upd: Update): seq<Session> {
    if sessions == [] then []
    else
      var last := sessions[|sessions| - 1];
      Survivors(sessions[..|sessions| - 1], upd)
      + (if last.id !in upd then [last] else if upd[last.id] == Closed then [] else [last.(state := upd[last.id])])
  }

  function IdsOf(sessions: seq<Session>): (ids: seq<SessionId>)
    ensures |ids| == |sessions|
    ensures forall k :: 0 <= k < |ids| ==> ids[k] == sessions[k].id
  {
    seq(|sessions|, k requires 0 <= k < |sessions| => sessions[k].id)
  }

  /** The session table after an update that may touch only the sessions in `ids`. */
  function Applied(table: Table, ids: set<SessionId>, upd: Update): (t: Table)
    ensures t.Keys == table.Keys
    ensures forall sid | sid in table ::
              t[sid] == if sid in ids && sid in upd then SetState(table[sid], upd[sid]) else table[sid]
  {
    map sid | sid in table :: if sid in ids && sid in upd then SetState(table[sid], upd[sid]) else table[sid]
  }

  /** VRAM an update credits back: that of every recorded session it closes. */
  function Credit(sessions: seq<Session>, upd: Update, table: Table): nat
    requires forall s | s in sessions :: s.id in table
  {
    if sessions == [] then 0
    else
      var last := sessions[|sessions| - 1];
      Credit(sessions[..|sessions| - 1], upd, table)
      + (if last.id in upd && upd[last.id] == Closed then table[last.id].vramRequired else 0)
  }

  predicate DistinctIds(sessions: seq<Session>) {
    forall j, k :: 0 <= j < k < |sessions| ==> sessions[j].id != sessions[k].id
  }

  /** The copies of `sessions` agree with the table. */
  predicate Copies(table: Table, sessions: seq<Session>) {
    forall s | s in sessions :: s.id in table && table[s.id].session == s
  }

  function SessionIdSet(sessions: seq<Session>): set<SessionId> {
    set s | s in sessions :: s.id
  }

  /** The loop's state after the sessions in `part`, said without a loop. */
  function Declared(agent: AgentRow, upd: Update, table: Table, part: seq<Session>): Scan
    requires Copies(table, part)
  {
    Scan(IdsOf(Survivors(part, upd)), Survivors(part, upd), Wrap64(agent.vramAvailable + Credit(part, upd, table)),
         Applied(table, SessionIdSet(part), upd))
  }

  /** The loop computes exactly the declarative update: the survivors in order, the reported states in
      the table, and the closed sessions' VRAM credited. */
  lemma {:induction false} ScanIsDeclarative(agent: AgentRow, upd: Update, table: Table, k: nat)
    requires k <= |agent.sessions| && agent.sessionIds == IdsOf(agent.sessions)
    requires DistinctIds(agent.sessions) && Copies(table, agent.sessions)
    ensures ScanSessions(agent, upd, table, k) == Some(Declared(agent, upd, table, agent.sessions[..k]))
  {
    var part := agent.sessions[..k];
    if k == 0 {
      assert Applied(table, SessionIdSet(part), upd) == table;
    } else {
      var prev, last := agent.sessions[..k - 1], agent.sessions[k - 1];
      ScanIsDeclarative(agent, upd, table, k - 1);
      PrefixSplit(table, agent.sessions, k);
      ScanStep(agent, upd, table, prev, last);
      assert part == prev + [last];
    }
  }

  lemma PrefixSplit(table: Table, sessions: seq<Session>, k: nat)
    requires 0 < k <= |sessions| && DistinctIds(sessions) && Copies(table, sessions)
    ensures sessions[..k] == sessions[..k - 1] + [sessions[k - 1]]
    ensures sessions[k - 1].id !in SessionIdSet(sessions[..k - 1])
    ensures Copies(table, sessions[..k - 1]) && Copies(table, sessions[..k])
    ensures sessions[k - 1].id in table && table[sessions[k - 1].id].session == sessions[k - 1]
  {
    assert sessions[k - 1] in sessions;
  }

  lemma ScanStep(agent: AgentRow, upd: Update, table: Table, prev: seq<Session>, last: Session)
    requires last.id !in SessionIdSet(prev) && Copies(table, prev + [last]) && Copies(table, prev)
    requires last.id in table && table[last.id].session == last
    ensures ScanOne(Declared(agent, upd, table, prev), last.id, last, upd)
         == Some(Declared(agent, upd, table, prev + [last]))
  {
    hide Survivors, Credit, IdsOf, SessionIdSet, Applied;
    AppliedOneMore(table, SessionIdSet(prev), last.id, upd);
    SessionIdSetAppend(prev, last);
    SurvivorsAppend(prev, last, upd);
    CreditAppend(prev, last, upd, table, agent.vramAvailable);
    ScanOneIs(Declared(agent, upd, table, prev), Declared(agent, upd, table, prev + [last]), table[last.id], upd);
  }

  lemma SessionIdSetAppend(prev: seq<Session>, last: Session)
    ensures SessionIdSet(prev + [last]) == SessionIdSet(prev) + {last.id}
  {
  }

  lemma ScanOneIs(s0: Scan, s1: Scan, row: SessionRow, upd: Update)
    requires var id := row.session.id;
             && id in s0.table && s0.table[id] == row
             && s1.table == (if id in upd then s0.table[id := SetState(row, upd[id])] else s0.table)
             && (if id in upd && upd[id] == Closed
                 then s1.ids == s0.ids && s1.sessions == s0.sessions
                      && s1.vramAvailable == Wrap64(s0.vramAvailable + row.vramRequired)
                 else s1.ids == s0.ids + [id] && s1.vramAvailable == s0.vramAvailable
                      && s1.sessions ==
                         s0.sessions + [if id in upd then SetState(row, upd[id]).session else row.session])
    ensures ScanOne(s0, row.session.id, row.session, upd) == Some(s1)
  {
  }

  lemma CreditAppend(prev: seq<Session>, last: Session, upd: Update, table: Table, vram: Word64)
    requires Copies(table, prev) && Copies(table, prev + [last]) && last.id in table
    ensures Wrap64(vram + Credit(prev + [last], upd, table))
         == if last.id in upd && upd[last.id] == Closed
            then Wrap64(Wrap64(vram + Credit(prev, upd, table)) + table[last.id].vramRequired)
            else Wrap64(vram + Credit(prev, upd, table))
  {
    assert (prev + [last])[..|prev|] == prev;
    WrapTwice(vram + Credit(prev, upd, table), table[last.id].vramRequired);
  }

  lemma SurvivorsAppend(prev: seq<Session>, last: Session, upd: Update)
    ensures last.id !in upd ==>
              && Survivors(prev + [last], upd) == Survivors(prev, upd) + [last]
              && IdsOf(Survivors(prev + [last], upd)) == IdsOf(Survivors(prev, upd)) + [last.id]
    ensures last.id in upd && upd[last.id] == Closed ==> Survivors(prev + [last], upd) == Survivors(prev, upd)
    ensures last.id in upd && upd[last.id] != Closed ==>
              && Survivors(prev + [last], upd) == Survivors(prev, upd) + [last.(state := upd[last.id])]
              && IdsOf(Survivors(prev + [last], upd)) == IdsOf(Survivors(prev, upd)) + [last.id]
  {
    assert (prev + [last])[..|prev|] == prev;
  }

  lemma AppliedOneMore(table: Table, ids: set<SessionId>, id: SessionId, upd: Update)
    requires id in table && id !in ids
    ensures Applied(table, ids, upd)[id] == table[id]
    ensures Applied(table, ids + {id}, upd)
         == if id in upd then Applied(table, ids, upd)[id := SetState(table[id], upd[id])] else Applied(table, ids, upd)
  {
  }
}
