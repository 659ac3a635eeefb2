/** The scheduler: replaying an agent's sessions into a fresh GpuSet, and one scheduling pass. */
module Backend {
  import opened Words
  import opened GpuSpec
  import opened GpuSets
  import opened MemdbSpec
  import opened ControllerInv
  import opened Storage
  import opened Memdb

  // ---- Specification ----

  /** One outstanding selection for each recorded session. */
  function Replay(sessions: seq<Session>): (ts: seq<Ticket>)
    ensures |ts| == |sessions|
    ensures forall k :: 0 <= k < |ts| ==> ts[k] == Ticket(sessions[k].gpus, false)
  {
    seq(|sessions|, k requires 0 <= k < |sessions| => Ticket(sessions[k].gpus, false))
  }

  lemma {:induction false} ReplayCharges(sessions: seq<Session>, i: nat)
    ensures Outstanding(Replay(sessions), i) == ChargeAll(sessions, i)
  {
    if sessions != [] {
      var init := sessions[..|sessions| - 1];
      ReplayCharges(init, i);
      assert Replay(sessions)[..|sessions| - 1] == Replay(init);
    }
  }

  /** What the replay leaves free on each of an agent's GPUs. */
  function FreeVram(agent: AgentRow): (f: seq<Word64>)
    ensures |f| == |agent.info.gpus|
  {
    Free(agent.info.gpus, Replay(agent.sessions))
  }

  /** On an agent within capacity the replay never wraps. */
  lemma FreeVramExact(agent: AgentRow, i: nat)
    requires Fits(agent.info.gpus, agent.sessions) && i < |agent.info.gpus|
    ensures FreeVram(agent)[i] == agent.info.gpus[i].vram - ChargeAll(agent.sessions, i)
  {
    ReplayCharges(agent.sessions, i);
  }

  predicate HasRoom(agent: AgentRow, req: Requirements) {
    Eligible(agent.info, req) && |Takers(agent.info.gpus, FreeVram(agent), req.gpus)| >= |req.gpus|
  }

  /** `sel` is a selection the scheduler may make for `req` on this agent. */
  ghost predicate MayMatch(agent: AgentRow, req: Requirements, sel: seq<SessionGpu>) {
    && Eligible(agent.info, req)
    && |req.gpus| <= |sel|
    && IsFindResult(agent.info.gpus, FreeVram(agent), req.gpus, sel)
  }

  /** A match never takes a GPU past its capacity and is never empty. */
  lemma MatchFits(agent: AgentRow, req: Requirements, sel: seq<SessionGpu>)
    requires Fits(agent.info.gpus, agent.sessions) && req.gpus != [] && MayMatch(agent, req, sel)
    ensures sel != [] && InRange(sel, |agent.info.gpus|)
    ensures forall i: nat | i < |agent.info.gpus| ::
        ChargeAll(agent.sessions, i) + Charge(sel, i) <= agent.info.gpus[i].vram
  {
    hide ChargeAll, Charge, Eligible, FreeVram;
    forall i: nat | i < |agent.info.gpus|
      ensures ChargeAll(agent.sessions, i) + Charge(sel, i) <= agent.info.gpus[i].vram
    {
      FreeVramExact(agent, i);
      FindChargesWithinFree(agent.info.gpus, FreeVram(agent), req.gpus, sel, i);
    }
  }

  /** An agent the scheduler asks: it is active and shows enough VRAM in all. */
  predicate Candidate(db: Db, sid: SessionId, on: AgentId)
    requires sid in db.sessions && on in db.agents
  {
    db.agents[on].status == AgentActive && db.sessions[sid].vramRequired <= db.agents[on].vramAvailable
  }

  /** A session that could be placed on an agent right now. */
  predicate Placeable(db: Db, sid: SessionId, aid: AgentId)
    requires sid in db.sessions && aid in db.agents
  {
    Candidate(db, sid, aid) && HasRoom(db.agents[aid], db.sessions[sid].requirements)
  }

  // ---- Less free VRAM never makes room ----

  lemma {:induction false} FirstMatchMonotone(info: GpuInfo, less: Word64, more: Word64, reqs: seq<GpuRequirement>)
    requires less <= more
    ensures FirstMatch(info, more, reqs) <= FirstMatch(info, less, reqs)
  {
    if reqs != [] {
      FirstMatchMonotone(info, less, more, reqs[1..]);
    }
  }

  lemma TakersMonotone(infos: seq<GpuInfo>, less: seq<Word64>, more: seq<Word64>, reqs: seq<GpuRequirement>)
    requires |infos| == |less| == |more| && forall i :: 0 <= i < |infos| ==> less[i] <= more[i]
    ensures |Takers(infos, less, reqs)| <= |Takers(infos, more, reqs)|
  {
    forall g | g in Takers(infos, less, reqs) ensures g in Takers(infos, more, reqs) {
      FirstMatchMonotone(infos[g], less[g], more[g], reqs);
    }
    SubsetSize(Takers(infos, less, reqs), Takers(infos, more, reqs));
  }

  /** An agent that gains a session has no more room than before. */
  lemma RoomShrinks(agent: AgentRow, s: Session, vram: Word64, req: Requirements)
    requires Fits(agent.info.gpus, agent.sessions) && Fits(agent.info.gpus, agent.sessions + [s])
    ensures HasRoom(WithSession(agent, s, vram), req) ==> HasRoom(agent, req)
  {
    hide ChargeAll, Charge, Eligible, FreeVram;
    var after := WithSession(agent, s, vram);
    forall i | 0 <= i < |agent.info.gpus| ensures FreeVram(after)[i] <= FreeVram(agent)[i] {
      FreeVramExact(agent, i);
      FreeVramExact(after, i);
      ChargeAllAppend(agent.sessions, s, i);
    }
    TakersMonotone(agent.info.gpus, FreeVram(after), FreeVram(agent), req.gpus);
  }

  /** Assigning one session never makes another placeable. */
  lemma AssignShrinks(db: Db, sid: SessionId, aid: AgentId, gpus: seq<SessionGpu>, other: SessionId, on: AgentId)
    requires DbInv(db) && Assignable(db, sid, aid, gpus)
    requires other in db.sessions && other != sid && on in db.agents
    ensures AssignSession(db, sid, aid, gpus).Some?
    ensures Placeable(AssignSession(db, sid, aid, gpus).value, other, on) ==> Placeable(db, other, on)
  {
    hide HasRoom, Mirror, Placed, Eligible, ChargeAll, Charge, Required, TotalVramRequired;
    var after := AssignSession(db, sid, aid, gpus).value;
    if on == aid {
      var agent, row := db.agents[aid], after.sessions[sid];
      assert AgentOk(db.sessions, aid, agent);
      AssignFits(agent.info.gpus, agent.sessions, row.session);
      assert after.agents[aid] == WithSession(agent, row.session, row.vramRequired);
      RoomShrinks(agent, row.session, row.vramRequired, db.sessions[other].requirements);
    }
  }

  // ---- Code ----

  method IsSubset(superset: map<string, string>, subset: map<string, string>) returns (b: bool)
    ensures b <==> SubsetOf(superset, subset)
  {
    var todo := subset.Keys;
    while todo != {}
      invariant todo <= subset.Keys
      invariant forall key | key in subset && key !in todo :: key in superset && superset[key] == subset[key]
      decreases todo
    {
      var key :| key in todo;
      todo := todo - {key};
      if key !in superset || superset[key] != subset[key] {
        return false;
      }
    }
    b := true;
  }

  /** Nothing when the agent is unsuitable or full, and an error only when it is full; otherwise the GPUs chosen.
      Neither Select nor Find can panic here: the preconditions are theirs. */
  method AgentMatches(agent: AgentRow, req: Requirements) returns (r: Option<seq<SessionGpu>>, failed: bool)
    requires Fits(agent.info.gpus, agent.sessions) && req.gpus != []
    ensures r.Some? <==> HasRoom(agent, req)
    ensures failed <==> Eligible(agent.info, req) && !HasRoom(agent, req)
    ensures r.Some? ==> MayMatch(agent, req, r.value)
    ensures r.Some? ==>
              && (req.poolId == "" || agent.info.poolId == req.poolId)
              && (forall key | key in req.matchLabels ::
                    key in agent.info.labels && agent.info.labels[key] == req.matchLabels[key])
              && (forall key | key in agent.info.taints ::
                    key in req.tolerates && req.tolerates[key] == agent.info.taints[key])
    ensures r.None? ==>
              || (req.poolId != "" && agent.info.poolId != req.poolId)
              || (exists key | key in req.matchLabels ::
                    key !in agent.info.labels || agent.info.labels[key] != req.matchLabels[key])
              || (exists key | key in agent.info.taints ::
                    key !in req.tolerates || req.tolerates[key] != agent.info.taints[key])
              || |Takers(agent.info.gpus, FreeVram(agent), req.gpus)| < |req.gpus|
  {
    hide Charge, ChargeAll, Takers, IsFindResult;
    EligibleOffers(agent.info, req);
    var labels := IsSubset(agent.info.labels, req.matchLabels);
    var tolerated := IsSubset(req.tolerates, agent.info.taints);
    if !MatchesPool(agent.info.poolId, req.poolId) || !labels || !tolerated {
      return None, false;
    }
    var gpuSet := ReplaySessions(agent);
    assert gpuSet.Avail() == FreeVram(agent);
    var selected := gpuSet.Find(req.gpus);
    if selected.Some? {
      r := Some(selected.value.GetGpus());
      FindSizeIsTakers(agent.info.gpus, FreeVram(agent), req.gpus, r.value);
    } else {
      r := None;
    }
    failed := r == None;
  }

  /** A fresh GpuSet with every recorded session selected into it. */
  method ReplaySessions(agent: AgentRow) returns (gpuSet: GpuSet)
    requires Fits(agent.info.gpus, agent.sessions)
    ensures fresh(gpuSet) && fresh(gpuSet.gpus) && gpuSet.Valid()
    ensures gpuSet.Infos() == agent.info.gpus && gpuSet.Tickets() == Replay(agent.sessions)
  {
    hide Charge, ChargeAll, Free, Outstanding;
    gpuSet := GpuSet.New(agent.info.gpus);
    for k := 0 to |agent.sessions|
      invariant fresh(gpuSet) && fresh(gpuSet.gpus) && gpuSet.Valid()
      invariant gpuSet.Infos() == agent.info.gpus && gpuSet.Tickets() == Replay(agent.sessions[..k])
    {
      assert agent.sessions[k] in agent.sessions;
      var _ := gpuSet.Select(agent.sessions[k].gpus);
      assert Replay(agent.sessions[..k + 1]) == Replay(agent.sessions[..k]) + [Ticket(agent.sessions[k].gpus, false)];
    }
    assert agent.sessions[..|agent.sessions|] == agent.sessions;
  }

  predicate ValidRequest(req: Requirements) {
    req.gpus != []
  }

  /** `sid` fits on no agent of this database. */
  ghost predicate Stuck(db: Db, sid: SessionId)
    requires sid in db.sessions
  {
    forall aid | aid in db.agents :: !Placeable(db, sid, aid)
  }

  /** There is no agent to ask. */
  ghost predicate Unasked(db: Db, sid: SessionId)
    requires sid in db.sessions
  {
    forall on | on in db.agents :: !Candidate(db, sid, on)
  }

  /** An agent that is asked and meets the requirements, but whose GPUs do not suffice. */
  predicate Full(db: Db, sid: SessionId, on: AgentId)
    requires sid in db.sessions && on in db.agents
  {
    && Candidate(db, sid, on)
    && Eligible(db.agents[on].info, db.sessions[sid].requirements)
    && !HasRoom(db.agents[on], db.sessions[sid].requirements)
  }

  /** Offer one queued session to every active agent with enough VRAM until one takes it. There is an error exactly
      when none takes it and the last one asked was full, or none was asked and there was an error before. */
  method Schedule(storage: StorageDriver, sid: SessionId, req: Requirements, before: bool)
    returns (placed: bool, failed: bool, ghost gpus: seq<SessionGpu>, ghost last: Option<AgentId>)
    requires storage.Valid() && DbInv(storage.View())
    requires sid in storage.sessions && storage.sessions[sid].session.state == Queued
    requires storage.sessions[sid].requirements == req && ValidRequest(req)
    modifies storage
    ensures storage.Valid() && DbInv(storage.View())
    ensures placed ==>
              && last.Some? && Assignable(old(storage.View()), sid, last.value, gpus)
              && MayMatch(old(storage.agents)[last.value], req, gpus)
              && AssignSession(old(storage.View()), sid, last.value, gpus) == Some(storage.View())
    ensures !placed ==> storage.View() == old(storage.View()) && Stuck(storage.View(), sid)
    ensures last == None <==> Unasked(old(storage.View()), sid)
    ensures last.Some? ==> last.value in old(storage.agents) && Candidate(old(storage.View()), sid, last.value)
    ensures failed <==> !placed && if last == None then before else Full(old(storage.View()), sid, last.value)
  {
    hide AgentOk, HasRoom, MayMatch, Eligible, Charge, ChargeAll, TotalVramRequired;
    placed, failed, gpus, last := false, before, [], None;
    var atLeast := SumVramRequired(req.gpus);
    var candidates := storage.GetAvailableAgentsMatching(atLeast);
    for k := 0 to |candidates|
      invariant !placed && storage.View() == old(storage.View())
      invariant forall j | 0 <= j < k :: !HasRoom(candidates[j].row, req)
      invariant last == if k == 0 then None else Some(candidates[k - 1].id)
      invariant failed <==>
        if k == 0 then before else candidates[k - 1] in candidates && Full(storage.View(), sid, candidates[k - 1].id)
    {
      var agent := candidates[k];
      assert agent in candidates;
      AgentFits(storage.View(), agent.id);
      var selected;
      selected, failed := AgentMatches(agent.row, req);
      last := Some(agent.id);
      if selected.Some? {
        gpus := selected.value;
        MatchAssignable(storage.View(), sid, agent.id, gpus);
        AssignKeeps(storage.View(), sid, agent.id, gpus);
        var ok := storage.AssignSession(sid, agent.id, selected.value);
        placed := true;
        assert !failed;
        return;
      }
    }
    assert candidates != [] ==> candidates[|candidates| - 1] in candidates;
    forall on | on in storage.agents ensures Candidate(storage.View(), sid, on) ==>
      Keyed(on, storage.agents[on]) in candidates && !HasRoom(storage.agents[on], req)
    {
      assert storage.agents[on].status == AgentActive && atLeast <= storage.agents[on].vramAvailable ==>
               Keyed(on, storage.agents[on]) in candidates;
    }
  }

  lemma AgentFits(db: Db, aid: AgentId)
    requires DbInv(db) && aid in db.agents
    ensures Fits(db.agents[aid].info.gpus, db.agents[aid].sessions)
  {
    hide Mirror, Accounted, Fits, Placed;
    assert AgentOk(db.sessions, aid, db.agents[aid]);
  }

  lemma MatchAssignable(db: Db, sid: SessionId, aid: AgentId, gpus: seq<SessionGpu>)
    requires DbInv(db) && aid in db.agents && sid in db.sessions && db.sessions[sid].session.state == Queued
    requires db.sessions[sid].vramRequired <= db.agents[aid].vramAvailable
    requires ValidRequest(db.sessions[sid].requirements)
    requires MayMatch(db.agents[aid], db.sessions[sid].requirements, gpus)
    ensures Assignable(db, sid, aid, gpus)
  {
    hide AgentOk, Fits, IsFindResult, Eligible, Charge, ChargeAll, TotalVramRequired;
    AgentFits(db, aid);
    MatchFits(db.agents[aid], db.sessions[sid].requirements, gpus);
  }

  /** A session the pass leaves alone, or places. */
  predicate Kept(before: SessionRow, after: SessionRow) {
    after == before
    || (before.session.state == Queued && after.session.state == Assigned && after.agentId.Some?
        && after.requirements == before.requirements && after.vramRequired == before.vramRequired)
  }

  /** How far a pass over the queue snapshot has come: sessions before `k` are settled, the rest are
      as they were read, and every queued session is in the snapshot. */
  ghost predicate PassInv(before: Table, db: Db, queued: seq<Keyed<Requirements>>, k: nat) {
    && DbInv(db)
    && db.sessions.Keys == before.Keys
    && (forall sid | sid in db.sessions :: Kept(before[sid], db.sessions[sid]))
    && (forall sid | sid in db.sessions && db.sessions[sid].session.state == Queued ::
          Keyed(sid, db.sessions[sid].requirements) in queued)
    && (forall i, j :: 0 <= i < j < |queued| ==> queued[i].id != queued[j].id)
    && (forall j | k <= j < |queued| :: Waiting(db, queued[j]))
    && (forall j | 0 <= j < k && j < |queued| :: Settled(db, queued[j].id))
  }

  predicate Waiting(db: Db, entry: Keyed<Requirements>) {
    && entry.id in db.sessions && db.sessions[entry.id].session.state == Queued
    && db.sessions[entry.id].requirements == entry.row
  }

  lemma PassPlaced(before: Table, db: Db, queued: seq<Keyed<Requirements>>, k: nat, aid: AgentId, gpus: seq<SessionGpu>)
    requires k < |queued| && PassInv(before, db, queued, k) && Assignable(db, queued[k].id, aid, gpus)
    ensures AssignSession(db, queued[k].id, aid, gpus).Some?
    ensures PassInv(before, AssignSession(db, queued[k].id, aid, gpus).value, queued, k + 1)
  {
    hide DbInv, Assignable, Settled;
    var sid := queued[k].id;
    assert Waiting(db, queued[k]);
    AssignKeeps(db, sid, aid, gpus);
    var after := AssignSession(db, sid, aid, gpus).value;
    forall j | 0 <= j <= k ensures Settled(after, queued[j].id) {
      AssignSettles(db, sid, aid, gpus, queued[j].id);
    }
    forall j | k < j < |queued| ensures Waiting(after, queued[j]) {
      assert Waiting(db, queued[j]);
    }
  }

  /** A session of the snapshot before `k` that is still queued. */
  ghost predicate LeftBehind(db: Db, queued: seq<Keyed<Requirements>>, k: nat) {
    exists j :: 0 <= j < k && j < |queued|
      && queued[j].id in db.sessions && db.sessions[queued[j].id].session.state == Queued
  }

  /** What the error of a pass comes from: nothing, a session that asked for no GPU, or the last agent that was asked to
      take a session. */
  datatype Decider = Nothing | NoGpu(k: nat) | Asked(k: nat, last: AgentId)

  /** The sessions from `i` up to `k` ask for GPUs, and there is nobody to ask. */
  ghost predicate AllUnasked(db: Db, queued: seq<Keyed<Requirements>>, i: nat, k: nat)
    requires k <= |queued|
  {
    forall j | i <= j < k ::
      ValidRequest(queued[j].row) && queued[j].id in db.sessions && Unasked(db, queued[j].id)
  }

  /** The outcome of the first `k` sessions, read off the database they leave. The last of them that asks for no GPU or
      has an agent to ask decides: it is an error when it asks for no GPU, or still waits and the last agent it asked
      was full. */
  ghost predicate DecidedBy(db: Db, queued: seq<Keyed<Requirements>>, k: nat, cause: Decider, failed: bool)
    requires k <= |queued|
  {
    match cause
    case Nothing => !failed && AllUnasked(db, queued, 0, k)
    case NoGpu(j) => failed && j < k && !ValidRequest(queued[j].row) && AllUnasked(db, queued, j + 1, k)
    case Asked(j, on) =>
      && j < k && ValidRequest(queued[j].row) && AllUnasked(db, queued, j + 1, k)
      && (Waiting(db, queued[j]) ==> on in db.agents && Candidate(db, queued[j].id, on))
      && (failed <==> Waiting(db, queued[j]) && on in db.agents && Full(db, queued[j].id, on))
  }

  lemma DecidedNext(db: Db, queued: seq<Keyed<Requirements>>, k: nat, cause: Decider, failed: bool,
                    last: Option<AgentId>, failed': bool) returns (cause': Decider)
    requires k < |queued| && DecidedBy(db, queued, k, cause, failed) && Waiting(db, queued[k])
    requires !ValidRequest(queued[k].row) ==> failed'
    requires ValidRequest(queued[k].row) && last == None ==> Unasked(db, queued[k].id) && failed' == failed
    requires ValidRequest(queued[k].row) && last.Some? ==>
               && last.value in db.agents && Candidate(db, queued[k].id, last.value)
               && (failed' <==> Full(db, queued[k].id, last.value))
    ensures DecidedBy(db, queued, k + 1, cause', failed')
  {
    hide Candidate, Full;
    cause' := if !ValidRequest(queued[k].row) then NoGpu(k) else if last == None then cause else Asked(k, last.value);
  }

  lemma PlacedDecides(db: Db, queued: seq<Keyed<Requirements>>, k: nat, aid: AgentId, gpus: seq<SessionGpu>)
    requires k < |queued| && ValidRequest(queued[k].row) && AssignSession(db, queued[k].id, aid, gpus).Some?
    ensures DecidedBy(AssignSession(db, queued[k].id, aid, gpus).value, queued, k + 1, Asked(k, aid), false)
  {
    hide Candidate, Full;
  }

  /** Settle the sessions of a snapshot in turn. The context may have ended before any of them, and then the rest
      stay as they are. An error is exactly what the last session that asks for no GPU, or has an agent to ask,
      leaves. */
  method Pass(storage: StorageDriver, queued: seq<Keyed<Requirements>>, ended: nat -> bool)
    returns (finished: bool, failed: bool, ghost cause: Decider)
    requires storage.Valid() && PassInv(storage.sessions, storage.View(), queued, 0)
    modifies storage
    ensures storage.Valid()
    ensures finished ==> PassInv(old(storage.sessions), storage.View(), queued, |queued|)
    ensures !finished ==>
      exists k: nat :: k < |queued| && ended(k) && PassInv(old(storage.sessions), storage.View(), queued, k)
    ensures finished ==> DecidedBy(storage.View(), queued, |queued|, cause, failed)
    ensures failed ==> finished && LeftBehind(storage.View(), queued, |queued|)
    ensures finished && queued != [] && !ValidRequest(queued[|queued| - 1].row) ==> failed
  {
    hide AgentOk, Stuck, TableOk, PassInv, Settled, LeftBehind, DecidedBy, Candidate, Full, Unasked;
    failed, cause := false, Nothing;
    assert DecidedBy(storage.View(), queued, 0, cause, failed) by { NothingDecided(storage.View(), queued); }
    for k := 0 to |queued|
      invariant storage.Valid() && PassInv(old(storage.sessions), storage.View(), queued, k)
      invariant failed ==> LeftBehind(storage.View(), queued, k)
      invariant DecidedBy(storage.View(), queued, k, cause, failed)
    {
      if ended(k) {
        return false, false, cause;
      }
      var entry := queued[k];
      PassHead(old(storage.sessions), storage.View(), queued, k);
      if entry.row.gpus == [] {
        var _ := storage.CancelSession(entry.id);
        PassSkipped(old(storage.sessions), storage.View(), queued, k);
        cause := DecidedNext(storage.View(), queued, k, cause, failed, None, true);
        failed := true;
      } else {
        ghost var db, before := storage.View(), failed;
        var placed;
        ghost var gpus, last;
        placed, failed, gpus, last := Schedule(storage, entry.id, entry.row, failed);
        if placed {
          PassPlaced(old(storage.sessions), db, queued, k, last.value, gpus);
          PlacedDecides(db, queued, k, last.value, gpus);
          cause := Asked(k, last.value);
        } else {
          PassSkipped(old(storage.sessions), storage.View(), queued, k);
          cause := DecidedNext(storage.View(), queued, k, cause, before, last, failed);
        }
      }
    }
    finished := true;
    LastDecides(storage.View(), queued, cause, failed);
  }

  lemma LastDecides(db: Db, queued: seq<Keyed<Requirements>>, cause: Decider, failed: bool)
    requires DecidedBy(db, queued, |queued|, cause, failed)
    ensures queued != [] && !ValidRequest(queued[|queued| - 1].row) ==> failed
  {
    hide Full, Candidate, Unasked;
  }

  lemma NothingDecided(db: Db, queued: seq<Keyed<Requirements>>)
    ensures DecidedBy(db, queued, 0, Nothing, false)
  {
  }

  lemma PassHead(before: Table, db: Db, queued: seq<Keyed<Requirements>>, k: nat)
    requires PassInv(before, db, queued, k) && k < |queued|
    ensures DbInv(db) && Waiting(db, queued[k])
  {
  }

  lemma PassSkipped(before: Table, db: Db, queued: seq<Keyed<Requirements>>, k: nat)
    requires PassInv(before, db, queued, k) && k < |queued|
    requires ValidRequest(queued[k].row) ==> queued[k].id in db.sessions && Stuck(db, queued[k].id)
    ensures PassInv(before, db, queued, k + 1) && LeftBehind(db, queued, k + 1)
  {
    hide DbInv, Stuck;
    assert Waiting(db, queued[k]);
  }

  /** One scheduling pass with nobody else at work. It keeps the storage invariant and only ever places queued
      sessions. Unless removing agents fails or the context ends, it leaves no valid session queued that any agent
      could still take, and the error it returns is what the last session of its queue that asks for no GPU, or has an
      agent to ask, leaves. */
  method Update(storage: StorageDriver, silent: set<AgentId>, gone: set<AgentId>, ended: nat -> bool)
    returns (finished: bool, failed: bool, ghost queue: seq<Keyed<Requirements>>, ghost cause: Decider)
    requires storage.Valid() && DbInv(storage.View())
    modifies storage
    ensures storage.Valid() && DbInv(storage.View())
    ensures storage.sessions.Keys == old(storage.sessions.Keys)
    ensures forall sid | sid in storage.sessions :: Kept(old(storage.sessions)[sid], storage.sessions[sid])
    ensures var marked := SetMissing(old(storage.View()), silent);
      && (RemoveMissing(marked, gone) == None ==> failed && !finished && storage.View() == marked)
      && (RemoveMissing(marked, gone).Some? && !finished ==> !failed && exists k: nat :: ended(k))
      && (RemoveMissing(marked, gone).Some? && failed ==> AnyQueued(storage.sessions))
    ensures finished ==>
      && IsQueue(old(storage.sessions), queue)
      && DecidedBy(storage.View(), queue, |queue|, cause, failed)
    ensures finished ==> forall sid | sid in storage.sessions && storage.sessions[sid].session.state == Queued
      && ValidRequest(storage.sessions[sid].requirements) :: Stuck(storage.View(), sid)
  {
    hide AgentOk, Stuck, TableOk, DbInv, SetMissing, RemoveMissing, DecidedBy;
    queue, cause := [], Nothing;
    SweepsKeep(storage.View(), silent);
    SweepSessions(storage.View(), silent);
    storage.SetAgentsMissing(silent);
    SweepsKeep(storage.View(), gone);
    SweepSessions(storage.View(), gone);
    var ok := storage.RemoveMissingAgents(gone);
    if !ok {
      return false, true, queue, cause;
    }
    var queued := storage.GetQueuedSessions();
    queue := queued;
    finished, failed, cause := Pass(storage, queued, ended);
    if !finished {
      return;
    }
    forall sid | sid in storage.sessions && storage.sessions[sid].session.state == Queued
                   && ValidRequest(storage.sessions[sid].requirements) ensures Stuck(storage.View(), sid)
    {
      var j :| 0 <= j < |queued| && queued[j] == Keyed(sid, storage.sessions[sid].requirements);
      assert Settled(storage.View(), queued[j].id);
    }
  }

  /** The queued sessions, each once. */
  ghost predicate IsQueue(table: Table, queue: seq<Keyed<Requirements>>) {
    && (forall i, j :: 0 <= i < j < |queue| ==> queue[i].id != queue[j].id)
    && (forall e | e in queue ::
          e.id in table && table[e.id].session.state == Queued && table[e.id].requirements == e.row)
    && (forall sid | sid in table && table[sid].session.state == Queued :: Keyed(sid, table[sid].requirements) in queue)
  }

  ghost predicate AnyQueued(table: Table) {
    exists sid :: sid in table && table[sid].session.state == Queued
  }

  lemma SweepSessions(db: Db, silent: set<AgentId>)
    ensures SetMissing(db, silent).sessions == db.sessions
    ensures RemoveMissing(db, silent).Some? ==> RemoveMissing(db, silent).value.sessions == db.sessions
  {
  }

  /** No longer queued, invalid, or impossible to place. */
  ghost predicate Settled(db: Db, sid: SessionId) {
    sid in db.sessions && db.sessions[sid].session.state == Queued && ValidRequest(db.sessions[sid].requirements) ==>
      Stuck(db, sid)
  }

  lemma AssignSettles(db: Db, sid: SessionId, aid: AgentId, gpus: seq<SessionGpu>, other: SessionId)
    requires DbInv(db) && Assignable(db, sid, aid, gpus)
    requires other == sid || Settled(db, other)
    ensures AssignSession(db, sid, aid, gpus).Some?
    ensures Settled(AssignSession(db, sid, aid, gpus).value, other)
  {
    hide DbInv, Assignable, Placeable;
    AssignKeeps(db, sid, aid, gpus);
    var after := AssignSession(db, sid, aid, gpus).value;
    if other in after.sessions && other != sid && Settled(db, other) {
      forall on | on in after.agents && Placeable(after, other, on) ensures Placeable(db, other, on) {
        assert on in db.agents by { AssignAgents(db, sid, aid, gpus); }
        AssignShrinks(db, sid, aid, gpus, other, on);
      }
    }
  }

  lemma AssignAgents(db: Db, sid: SessionId, aid: AgentId, gpus: seq<SessionGpu>)
    requires AssignSession(db, sid, aid, gpus).Some?
    ensures AssignSession(db, sid, aid, gpus).value.agents.Keys == db.agents.Keys
  {
  }

  // ---- Two databases on which a pass over their one session fails ----

  /** One agent with two GPUs of 4, and one queued session. */
  function OneQueued(req: Requirements): Db {
    var gpu := GpuInfo(4, PciAddress(0, 0, 0, 0));
    RequestSession(RegisterAgent(Db(map[], map[]), 0, AgentInfo("", "", [gpu, gpu], map[], map[]), AgentActive), 0, req)
  }

  /** A request for one GPU of 8. */
  function BigRequest(): Requirements {
    Requirements("", "", [GpuRequirement(8, None)], map[], map[])
  }

  /** A request for no GPU. */
  function NoGpuRequest(): Requirements {
    Requirements("", "", [], map[], map[])
  }

  lemma OneQueuedOk(req: Requirements)
    ensures DbInv(OneQueued(req)) && IsQueue(OneQueued(req).sessions, [Keyed(0, req)])
  {
    hide DbInv;
    var gpu := GpuInfo(4, PciAddress(0, 0, 0, 0));
    var info := AgentInfo("", "", [gpu, gpu], map[], map[]);
    InitKeeps();
    RegisterKeeps(Db(map[], map[]), 0, info, AgentActive);
    RequestKeeps(RegisterAgent(Db(map[], map[]), 0, info, AgentActive), 0, req);
  }

  /** A valid request that no agent's GPUs can meet, on an agent that shows enough VRAM in all: the pass fails. */
  lemma FullAgentFails(cause: Decider, failed: bool)
    requires DecidedBy(OneQueued(BigRequest()), [Keyed(0, BigRequest())], 1, cause, failed)
    ensures ValidRequest(BigRequest()) && cause == Asked(0, 0) && failed
  {
    var db := OneQueued(BigRequest());
    BigRequestFull();
    hide HasRoom, Eligible, TotalVramRequired, TotalVram;
    var queue := [Keyed(0, BigRequest())];
    assert db.agents.Keys == {0} && Waiting(db, queue[0]);
    assert Candidate(db, queue[0].id, 0);
  }

  lemma BigRequestFull()
    ensures Full(OneQueued(BigRequest()), 0, 0)
  {
    var db := OneQueued(BigRequest());
    var agent, gpus := db.agents[0], db.agents[0].info.gpus;
    assert gpus[..1] == [gpus[0]] && gpus[..1][..0] == [] && VramSum(gpus) == 8;
    assert RequiredSum(BigRequest().gpus) == 8;
    hide VramSum, RequiredSum;
    assert FreeVram(agent) == [4, 4] by {
      FreeVramExact(agent, 0);
      FreeVramExact(agent, 1);
    }
    hide FreeVram;
    assert Takers(gpus, [4, 4], BigRequest().gpus) == {};
  }

  /** A request for no GPU: the pass fails. */
  lemma NoGpuFails(cause: Decider, failed: bool)
    requires DecidedBy(OneQueued(NoGpuRequest()), [Keyed(0, NoGpuRequest())], 1, cause, failed)
    ensures cause == NoGpu(0) && failed
  {
    hide Full, Candidate;
    assert !ValidRequest([Keyed(0, NoGpuRequest())][0].row);
  }
}
