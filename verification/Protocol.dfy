/** Controller storage, scheduler and agents together: every atomic step any of them may take, in any
    order, and the invariant all reachable states share. */
module Protocol {
  import opened Words
  import opened GpuSpec
  import opened MemdbSpec
  import opened ControllerInv
  import opened Memdb
  import opened Backend
  import opened AgentSpec
  import opened Nodes

  /** A queued session as a pass read it, with its requirements. */
  type Entry = Keyed<Requirements>

  /** Where the single scheduler is: between passes, with queued sessions still to offer, or holding a
      snapshot of candidate agents for one of them. Crashed: it ran into a panic, which ends the controller. */
  datatype Scheduler =
    | Resting
    | Offering(queue: seq<Entry>)
    | Choosing(entry: Entry, candidates: map<AgentId, AgentRow>, queue: seq<Entry>)
    | Crashed

  /** `gone` keeps the last record of each agent the controller no longer has; `used` every session id
      ever issued; `credited` how often each session's VRAM was credited back to an agent. */
  datatype World = World(db: Db, gone: map<AgentId, AgentRow>, nodes: map<AgentId, Node>, scheduler: Scheduler,
                         used: set<SessionId>, credited: map<SessionId, nat>)

  datatype Action =
    | RegisterAgentA(aid: AgentId, info: AgentInfo)
    | RequestA(sid: SessionId, req: Requirements)
    | CancelA(sid: SessionId)           // CancelSession as written
    | IntendedCancelA(sid: SessionId)   // CancelSession had it inserted what it computes
    | SetMissingA(silent: set<AgentId>)
    | RemoveMissingA(silent: set<AgentId>)
    | ReadQueueA(queue: seq<Entry>)
    | SkipA                             // an invalid session: cancelled, which changes nothing
    | OfferA                            // read the candidate agents for the next session
    | AssignA(aid: AgentId, gpus: seq<SessionGpu>)
    | GiveUpA
    | RestA
    | PollA(aid: AgentId)
    | RegisterA(aid: AgentId)
    | AnnounceA(aid: AgentId)
    | ReleaseA(aid: AgentId, k: nat)
    | PushClosedA(aid: AgentId, sid: SessionId)
    | DrainA(aid: AgentId, news: set<SessionId>)
    | SendA(aid: AgentId, done: Phase)  // the agent goes on, or stops because this or a step before failed
    | StopA(aid: AgentId)               // a poll or an update failed
    | CloseA(aid: AgentId)              // shutdown: the agent's last update

  function Init(): World {
    World(Db(map[], map[]), map[], map[], Resting, {}, map[])
  }

  /** The controller's record of an agent, or the last one it had. */
  function Record(w: World, aid: AgentId): AgentRow
    requires aid in w.db.agents || aid in w.gone
  {
    if aid in w.db.agents then w.db.agents[aid] else w.gone[aid]
  }

  predicate QueuedUnassigned(table: Table, sid: SessionId) {
    sid in table && table[sid].agentId.None?
  }

  /** The candidates a pass reads: active agents that show enough VRAM. */
  function Candidates(db: Db, vram: Word64): map<AgentId, AgentRow> {
    map aid | aid in db.agents && db.agents[aid].status == AgentActive && vram <= db.agents[aid].vramAvailable ::
      db.agents[aid]
  }

  ghost predicate Enabled(w: World, a: Action) {
    !w.scheduler.Crashed? &&
    match a
    case RegisterAgentA(aid, info) =>
      aid !in w.nodes && aid !in w.db.agents && aid !in w.gone
      && forall sid | sid in w.db.sessions :: w.db.sessions[sid].agentId != Some(aid)
    case RequestA(sid, req) => sid !in w.used
    case CancelA(sid) => true
    case IntendedCancelA(sid) => true
    case SetMissingA(silent) => true
    case RemoveMissingA(silent) => true
    case ReadQueueA(queue) =>
      && w.scheduler.Resting?
      && IsQueue(w.db.sessions, queue)
    case SkipA => w.scheduler.Offering? && w.scheduler.queue != [] && !ValidRequest(w.scheduler.queue[0].row)
    case OfferA => w.scheduler.Offering? && w.scheduler.queue != [] && ValidRequest(w.scheduler.queue[0].row)
    case AssignA(aid, gpus) =>
      && w.scheduler.Choosing? && aid in w.scheduler.candidates
      && MayMatch(w.scheduler.candidates[aid], w.scheduler.entry.row, gpus)
    case GiveUpA => w.scheduler.Choosing?
    case RestA => w.scheduler == Offering([])
    case PollA(aid) => aid in w.nodes && aid in w.db.agents && w.nodes[aid].phase.Idle?
    case RegisterA(aid) => aid in w.nodes && w.nodes[aid].phase.Registering? && w.nodes[aid].phase.todo != []
    case AnnounceA(aid) => aid in w.nodes && w.nodes[aid].phase.Announcing?
    case ReleaseA(aid, k) => aid in w.nodes && k < |w.nodes[aid].held|
    case PushClosedA(aid, sid) => aid in w.nodes && sid in w.nodes[aid].closing
    case DrainA(aid, news) => aid in w.nodes && w.nodes[aid].phase == Registering([])
    case SendA(aid, done) =>
      && aid in w.nodes && aid in w.db.agents && w.nodes[aid].phase.Sending?
      && (done.Idle? || done.Stopped?)
    case StopA(aid) => aid in w.nodes
    case CloseA(aid) => aid in w.nodes && aid in w.db.agents && w.nodes[aid].phase.Idle?
  }

  function SetNode(w: World, aid: AgentId, n: Node): World {
    w.(nodes := w.nodes[aid := n])
  }

  function Credits(w: World, sid: SessionId): nat {
    if sid in w.credited then w.credited[sid] else 0
  }

  /** Count the sessions of `row` that an update closes. */
  function AddCredits(w: World, row: AgentRow, upd: Update): map<SessionId, nat> {
    map sid | sid in w.credited.Keys + SessionIdSet(row.sessions) ::
      Credits(w, sid) + (if sid in SessionIdSet(row.sessions) && Closes(upd, sid) then 1 else 0)
  }

  function Apply(w: World, a: Action): World
    requires Enabled(w, a)
  {
    match a
    case RegisterAgentA(aid, info) =>
      w.(db := RegisterAgent(w.db, aid, info, AgentActive), nodes := w.nodes[aid := NewNode(info)])
    case RequestA(sid, req) => w.(db := RequestSession(w.db, sid, req), used := w.used + {sid})
    case CancelA(sid) => w
    case IntendedCancelA(sid) => w.(db := IntendedCancel(w.db, sid))
    case SetMissingA(silent) => w.(db := SetMissing(w.db, silent))
    case RemoveMissingA(silent) => RemoveAgents(w, Committed(w.db, RemoveMissing(w.db, silent)))
    case ReadQueueA(queue) => w.(scheduler := Offering(queue))
    case SkipA =>
      if w.scheduler.queue[0].id in w.db.sessions then w.(scheduler := Offering(w.scheduler.queue[1..]))
      else w.(scheduler := Crashed)
    case OfferA =>
      var entry := w.scheduler.queue[0];
      var candidates := Candidates(w.db, TotalVramRequired(entry.row.gpus));
      w.(scheduler := Choosing(entry, candidates, w.scheduler.queue[1..]))
    case AssignA(aid, gpus) =>
      (match AssignSession(w.db, w.scheduler.entry.id, aid, gpus)
       case None => w.(scheduler := Crashed)
       case Some(db) => w.(db := db, scheduler := Offering(w.scheduler.queue)))
    case GiveUpA => w.(scheduler := Offering(w.scheduler.queue))
    case RestA => w.(scheduler := Resting)
    case PollA(aid) => SetNode(w, aid, Poll(w.nodes[aid], w.db.agents[aid]))
    case RegisterA(aid) => SetNode(w, aid, Register(w.nodes[aid]))
    case AnnounceA(aid) => SetNode(w, aid, Announce(w.nodes[aid]))
    case ReleaseA(aid, k) => SetNode(w, aid, Release(w.nodes[aid], k))
    case PushClosedA(aid, sid) => SetNode(w, aid, PushClosed(w.nodes[aid], sid))
    case DrainA(aid, news) => SetNode(w, aid, Drain(w.nodes[aid], news))
    case SendA(aid, done) =>
      var upd := w.nodes[aid].phase.upd;
      (match UpdateAgent(w.db, aid, Some(AgentActive), upd)
       case None => SetNode(w, aid, w.nodes[aid].(phase := Stopped))
       case Some(db) =>
         SetNode(w, aid, w.nodes[aid].(phase := done)).(db := db, credited := AddCredits(w, w.db.agents[aid], upd)))
    case StopA(aid) => SetNode(w, aid, w.nodes[aid].(phase := Stopped))
    case CloseA(aid) =>
      SetNode(RemoveAgents(w, Committed(w.db, UpdateAgent(w.db, aid, Some(AgentClosed), map[]))), aid,
              w.nodes[aid].(phase := Stopped))
  }

  /** What a transaction leaves: its own database, or the one before when it fails. */
  function Committed(db: Db, after: Option<Db>): Db {
    if after.Some? then after.value else db
  }

  /** The scheduler refers to no session. */
  predicate Unconcerned(s: Scheduler) {
    s.Resting? || s.Crashed? || s == Offering([])
  }

  /** What a shutting agent needs for its last update to leave the system in order: a session of its own, or no
      session anywhere that the deletion of the whole table would take from someone. */
  ghost predicate Guarded(w: World, a: Action)
    requires Enabled(w, a)
  {
    a.CloseA? ==> w.db.agents[a.aid].sessions != [] || (Alone(w.db, a.aid) && Unconcerned(w.scheduler))
  }

  /** Move the records the new database no longer has to `gone`. */
  function RemoveAgents(w: World, db: Db): World {
    w.(db := db, gone := map aid | aid in w.db.agents.Keys + w.gone.Keys && aid !in db.agents ::
                           if aid in w.db.agents then w.db.agents[aid] else w.gone[aid])
  }
}
