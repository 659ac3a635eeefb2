/** The agent: sessions started on selected GPUs, two event channels, and the once-a-second tick that
    polls the controller, registers what it was assigned, and reports what has happened since. */
module AgentProcess {
  import opened Words
  import opened GpuSpec
  import opened GpuSets
  import opened MemdbSpec
  import opened ControllerInv
  import opened AgentSpec
  import opened Memdb

  class Agent {
    const id: AgentId
    const gpus: GpuSet
    /** The running sessions and the GPUs each was given. */
    var sessions: map<SessionId, SelectedGpuSet>
    var sessionUpdates: seq<SessionEvent>
    var connectionUpdates: seq<ConnectionEvent>
    /** Sessions whose task manager has been told to stop. */
    var canceled: set<SessionId>

    ghost predicate Valid()
      reads this, gpus, gpus.gpus, gpus.issued
    {
      gpus.Valid()
    }

    constructor (id: AgentId, gpus: GpuSet)
      requires gpus.Valid()
      ensures Valid() && this.gpus == gpus && this.id == id
      ensures sessions == map[] && sessionUpdates == [] && connectionUpdates == [] && canceled == {}
    {
      this.id, this.gpus := id, gpus;
      sessions, sessionUpdates, connectionUpdates, canceled := map[], [], [], {};
    }

    method SessionActive(sid: SessionId)
      modifies this`sessionUpdates
      ensures sessionUpdates == old(sessionUpdates) + [SessionEvent(sid, Active)]
    {
      sessionUpdates := sessionUpdates + [SessionEvent(sid, Active)];
    }

    method SessionClosed(sid: SessionId)
      modifies this`sessions, this`sessionUpdates
      ensures sessions == old(sessions) - {sid}
      ensures sessionUpdates == old(sessionUpdates) + [SessionEvent(sid, Closed)]
    {
      sessions := sessions - {sid};
      sessionUpdates := sessionUpdates + [SessionEvent(sid, Closed)];
    }

    /** Start an assigned session on the GPUs the controller chose for it. */
    method RegisterSession(session: Session)
      requires Valid() && session.gpus != [] && InRange(session.gpus, |gpus.gpus|)
      modifies this`sessions, this`sessionUpdates, gpus, gpus.gpus
      ensures Valid()
      ensures gpus.Tickets() == old(gpus.Tickets()) + [Ticket(session.gpus, false)]
      ensures gpus.Avail() == Debited(old(gpus.Avail()), session.gpus)
      ensures sessions.Keys == old(sessions.Keys) + {session.id} && sessions[session.id].GetGpus() == session.gpus
      ensures forall sid | sid in old(sessions) && sid != session.id :: sessions[sid] == old(sessions)[sid]
      ensures sessionUpdates == old(sessionUpdates) + [SessionEvent(session.id, Active)]
    {
      ghost var before := gpus.Tickets();
      var selected := gpus.Select(session.gpus);
      FreeAfterIssue(gpus.Infos(), before, session.gpus);
      assert gpus.Tickets()[|before|] == Ticket(session.gpus, false);
      assert selected.GetGpus() == session.gpus by { assert gpus.issued[|before|] == selected; }
      sessions := sessions[session.id := selected];
      SessionActive(session.id);
    }

    method CancelSession(sid: SessionId) returns (ok: bool)
      modifies this`canceled
      ensures ok <==> sid in sessions
      ensures canceled == if ok then old(canceled) + {sid} else old(canceled)
    {
      if sid !in sessions {
        return false;
      }
      canceled := canceled + {sid};
      ok := true;
    }

    /** The end of a session's close task: release its GPUs, then report it closed. */
    method FinishSession(sid: SessionId, ghost k: nat)
      requires Valid() && sid in sessions && !sessions[sid].released
      requires k < |gpus.issued| && gpus.issued[k] == sessions[sid]
      modifies this`sessions, this`sessionUpdates, sessions[sid], gpus.gpus
      ensures Valid() && sessions == old(sessions) - {sid}
      ensures gpus.Avail() == Credited(old(gpus.Avail()), old(sessions[sid]).GetGpus())
      ensures sessionUpdates == old(sessionUpdates) + [SessionEvent(sid, Closed)]
    {
      ghost var before := gpus.Tickets();
      FreeAfterRelease(gpus.Infos(), before, k);
      sessions[sid].Release(gpus, k);
      SessionClosed(sid);
    }

    /** The select loop that empties both channels. Whichever channel each round reads from, the result
        is the same: for each session its last state and the last record of each connection. */
    method DrainUpdates() returns (updates: map<SessionId, SessionUpdate>)
      modifies this`sessionUpdates, this`connectionUpdates
      ensures updates == Merged(old(sessionUpdates), old(connectionUpdates))
      ensures sessionUpdates == [] && connectionUpdates == []
    {
      updates := map[];
      ghost var ss, cs: seq<ConnectionEvent> := [], [];
      NothingMerged();
      hide Merged;
      while sessionUpdates != [] || connectionUpdates != []
        invariant ss + sessionUpdates == old(sessionUpdates)
        invariant cs + connectionUpdates == old(connectionUpdates)
        invariant updates == Merged(ss, cs)
        decreases |sessionUpdates| + |connectionUpdates|
      {
        if
        case sessionUpdates != [] =>
          var update := sessionUpdates[0];
          HeadMoves(ss, sessionUpdates);
          sessionUpdates := sessionUpdates[1..];
          MergeSessionEvent(ss, cs, update);
          ss := ss + [update];
          var session := if update.id in updates then updates[update.id] else SessionUpdate(Unset, map[]);
          updates := updates[update.id := session.(state := update.state)];
        case connectionUpdates != [] =>
          var update := connectionUpdates[0];
          HeadMoves(cs, connectionUpdates);
          connectionUpdates := connectionUpdates[1..];
          MergeConnectionEvent(ss, cs, update);
          cs := cs + [update];
          var session := if update.sessionId in updates then updates[update.sessionId] else SessionUpdate(Unset, map[]);
          var connections := session.connections[update.id := update.connection];
          updates := updates[update.sessionId := session.(connections := connections)];
      }
      assert ss == old(sessionUpdates) && cs == old(connectionUpdates);
    }

    /** Register every assigned session the controller shows and cancel every canceling one. False when
        a session to cancel is not known here; the tick still reports, then ends the update task. */
    method Follow(shown: seq<Session>) returns (ok: bool)
      requires Valid()
      requires forall s | s in shown && s.state == Assigned :: s.gpus != [] && InRange(s.gpus, |gpus.gpus|)
      modifies this`sessions, this`sessionUpdates, this`canceled, gpus, gpus.gpus
      ensures Valid()
      ensures Followed(shown, old(sessionUpdates), old(sessions.Keys), old(canceled), sessionUpdates, sessions.Keys,
          canceled, ok)
      ensures gpus.Tickets() == old(gpus.Tickets()) + TicketsFor(shown)
    {
      ok := true;
      NothingFollowed(sessionUpdates, sessions.Keys, canceled);
      NoTickets(gpus.Tickets());
      assert shown[..0] == [] && shown[..|shown|] == shown;
      hide Followed, FollowedOne, TicketsFor, TicketFor, GpuSet.Valid;
      for k := 0 to |shown|
        invariant Valid()
        invariant Followed(shown[..k], old(sessionUpdates), old(sessions.Keys), old(canceled),
                           sessionUpdates, sessions.Keys, canceled, ok)
        invariant gpus.Tickets() == old(gpus.Tickets()) + TicketsFor(shown[..k])
      {
        assert shown[k] in shown;
        TicketsStep(old(gpus.Tickets()), shown, k);
        ghost var events, ids, ended := sessionUpdates, sessions.Keys, canceled;
        var fine := FollowOne(shown[k]);
        FollowStep(shown, k, old(sessionUpdates), old(sessions.Keys), old(canceled), events, ids, ended, ok,
                   sessionUpdates, sessions.Keys, canceled, fine);
        ok := ok && fine;
      }
    }

    /** What one session shown by the controller asks of the agent. */
    method FollowOne(session: Session) returns (ok: bool)
      requires Valid()
      requires session.state == Assigned ==> session.gpus != [] && InRange(session.gpus, |gpus.gpus|)
      modifies this`sessions, this`sessionUpdates, this`canceled, gpus, gpus.gpus
      ensures Valid()
      ensures FollowedOne(session, old(sessionUpdates), old(sessions.Keys), old(canceled),
                          sessionUpdates, sessions.Keys, canceled, ok)
      ensures gpus.Tickets() == old(gpus.Tickets()) + TicketFor(session)
    {
      ok := true;
      match session.state
      case Assigned => RegisterSession(session);
      case Canceling => ok := CancelSession(session.id);
      case _ =>
    }

    /** One undisturbed tick: afterwards the controller shows no session of this agent as assigned, so
        the next tick registers nothing twice. */
    method Tick(storage: StorageDriver) returns (ok: bool)
      requires Valid() && storage.Valid() && DbInv(storage.View()) && id in storage.agents
      requires storage.agents[id].info.gpus == gpus.Infos()
      requires forall e | e in sessionUpdates :: e.state == Active || e.state == Closed
      modifies this, gpus, gpus.gpus, storage
      ensures Valid() && storage.Valid() && DbInv(storage.View()) && id in storage.agents
      ensures sessionUpdates == [] && connectionUpdates == []
      ensures forall s | s in storage.agents[id].sessions :: s.state != Assigned
      ensures var shown := old(storage.agents[id].sessions);
              && ok == (IdsIn(shown, Canceling) <= old(sessions.Keys))
              && sessions.Keys == old(sessions.Keys) + IdsIn(shown, Assigned)
              && canceled == old(canceled) + IdsIn(shown, Canceling) * old(sessions.Keys)
              && gpus.Tickets() == old(gpus.Tickets()) + TicketsFor(shown)
              && Some(storage.View()) == Reported(old(storage.View()), id,
                                                  old(sessionUpdates) + ActiveEvents(shown), old(connectionUpdates))
    {
      hide AgentOk, TableOk, Merged, DbInv, States, MemdbSpec.UpdateAgent, IdsIn, EventIds, Held, ActiveEvents;
      hide KnowsAll, CanceledIn;
      ghost var db := storage.View();
      var shown := storage.agents[id].sessions;
      RecordFits(db, id);
      KnownFromStart(shown, sessions.Keys);
      ok := Follow(shown);
      ActiveEventsAre(old(sessionUpdates), shown);
      assert sessionUpdates == old(sessionUpdates) + ActiveEvents(shown);
      assert storage.View() == db;
      Report(storage);
    }

    /** Drain both channels and send the merged update, once every assigned session was registered. */
    method Report(storage: StorageDriver)
      requires storage.Valid() && DbInv(storage.View()) && id in storage.agents
      requires forall e | e in sessionUpdates :: e.state == Active || e.state == Closed
      requires forall s | s in storage.agents[id].sessions && s.state == Assigned :: s.id in EventIds(sessionUpdates)
      modifies this`sessionUpdates, this`connectionUpdates, storage
      ensures storage.Valid() && DbInv(storage.View()) && id in storage.agents
      ensures sessionUpdates == [] && connectionUpdates == []
      ensures forall s | s in storage.agents[id].sessions :: s.state != Assigned
      ensures Some(storage.View()) == Reported(old(storage.View()), id, old(sessionUpdates), old(connectionUpdates))
    {
      hide AgentOk, TableOk, Merged, DbInv, States, MemdbSpec.UpdateAgent, EventIds;
      ghost var db, events, news := storage.View(), sessionUpdates, connectionUpdates;
      var updates := DrainUpdates();
      var states := States(updates);
      MergedStates(events, news);
      UpdateKeeps(db, id, Some(AgentActive), states);
      AssignedGone(db, id, states);
      var sent := storage.UpdateAgent(id, Some(AgentActive), states);
    }
  }

  /** The database after an agent's report of what its channels held. */
  function Reported(db: Db, aid: AgentId, ss: seq<SessionEvent>, cs: seq<ConnectionEvent>): Option<Db> {
    UpdateAgent(db, aid, Some(AgentActive), States(Merged(ss, cs)))
  }

  lemma NothingMerged()
    ensures Merged([], []) == map[]
  {
  }

  /** A queue's head moved over to what was taken from it. */
  lemma HeadMoves<X>(done: seq<X>, queue: seq<X>)
    requires queue != []
    ensures done + [queue[0]] + queue[1..] == done + queue
  {
  }

  /** What one shown session makes of the events pushed, the ids registered and the sessions cancelled: an assigned
      one is registered and reported active, a canceling one cancelled, with an error exactly when it is unknown. */
  ghost predicate FollowedOne(s: Session, events: seq<SessionEvent>, ids: set<SessionId>, ended: set<SessionId>,
                              events': seq<SessionEvent>, ids': set<SessionId>, ended': set<SessionId>, ok: bool) {
    && events' == events + ActiveEvent(s) && ids' == ids + IdIf(s, Assigned)
    && (ok <==> s.state != Canceling || s.id in ids)
    && ended' == if ok then ended + IdIf(s, Canceling) else ended
  }

  /** A canceling session is known when its turn comes: from the start, or registered since. */
  predicate Knows(before: seq<Session>, ids: set<SessionId>, s: Session) {
    s.id in ids + IdsIn(before, Assigned)
  }

  predicate KnowsAll(shown: seq<Session>, ids: set<SessionId>) {
    shown == [] ||
    var init, last := shown[..|shown| - 1], shown[|shown| - 1];
    KnowsAll(init, ids) && (last.state == Canceling ==> Knows(init, ids, last))
  }

  /** The canceling sessions of a list that are known when their turn comes. */
  function CanceledIn(shown: seq<Session>, ids: set<SessionId>): set<SessionId> {
    if shown == [] then {}
    else
      var init, last := shown[..|shown| - 1], shown[|shown| - 1];
      CanceledIn(init, ids) + (if Knows(init, ids, last) then IdIf(last, Canceling) else {})
  }

  /** Where no id comes twice, the canceling sessions known are those known from the start. */
  lemma {:induction false} KnownFromStart(shown: seq<Session>, ids: set<SessionId>)
    requires DistinctIds(shown)
    ensures KnowsAll(shown, ids) <==> IdsIn(shown, Canceling) <= ids
    ensures CanceledIn(shown, ids) == IdsIn(shown, Canceling) * ids
  {
    if shown != [] {
      var k := |shown| - 1;
      KnownFromStart(shown[..k], ids);
      IdsInStep(shown, k, Canceling);
      assert shown[..k + 1] == shown;
      forall s | s in shown[..k] ensures s.id != shown[k].id {
      }
    }
  }

  /** What a list of them makes: exactly the assigned ones are registered and reported, in order; exactly the canceling
      ones that are known are cancelled, with an error exactly when one is not. */
  ghost predicate Followed(shown: seq<Session>, events: seq<SessionEvent>, ids: set<SessionId>, ended: set<SessionId>,
                           events': seq<SessionEvent>, ids': set<SessionId>, ended': set<SessionId>, ok: bool) {
    && events' == events + ActiveEvents(shown) && ids' == ids + IdsIn(shown, Assigned)
    && ended' == ended + CanceledIn(shown, ids)
    && (ok <==> KnowsAll(shown, ids))
  }

  lemma NothingFollowed(events: seq<SessionEvent>, ids: set<SessionId>, ended: set<SessionId>)
    ensures Followed([], events, ids, ended, events, ids, ended, true)
  {
    assert events + [] == events;
  }

  lemma FollowStep(shown: seq<Session>, k: nat, events: seq<SessionEvent>, ids: set<SessionId>, ended: set<SessionId>,
                   events': seq<SessionEvent>, ids': set<SessionId>, ended': set<SessionId>, ok: bool,
                   events'': seq<SessionEvent>, ids'': set<SessionId>, ended'': set<SessionId>, fine: bool)
    requires k < |shown| && Followed(shown[..k], events, ids, ended, events', ids', ended', ok)
    requires FollowedOne(shown[k], events', ids', ended', events'', ids'', ended'', fine)
    ensures Followed(shown[..k + 1], events, ids, ended, events'', ids'', ended'', ok && fine)
  {
    IdsInStep(shown, k, Assigned);
    ActiveEventsStep(events, shown, k);
    assert shown[..k + 1][..k] == shown[..k];
    hide IdsIn, ActiveEvents, ActiveEvent;
  }

  /** The ids of the sessions in a state. */
  function IdsIn(sessions: seq<Session>, state: SessionState): set<SessionId> {
    set s | s in sessions && s.state == state :: s.id
  }

  function IdIf(s: Session, state: SessionState): set<SessionId> {
    if s.state == state then {s.id} else {}
  }

  lemma IdsInStep(sessions: seq<Session>, k: nat, state: SessionState)
    requires k < |sessions|
    ensures IdsIn(sessions[..k + 1], state) ==
            IdsIn(sessions[..k], state) + IdIf(sessions[k], state)
  {
    assert sessions[..k + 1] == sessions[..k] + [sessions[k]];
  }

  /** The events that registering the assigned sessions of a list pushes. */
  function ActiveEvents(shown: seq<Session>): seq<SessionEvent> {
    if shown == [] then [] else
    ActiveEvents(shown[..|shown| - 1]) + ActiveEvent(shown[|shown| - 1])
  }

  function ActiveEvent(s: Session): seq<SessionEvent> {
    if s.state == Assigned then [SessionEvent(s.id, Active)] else []
  }

  /** The GPUs that registering them takes. */
  function TicketsFor(shown: seq<Session>): seq<Ticket> {
    if shown == [] then [] else TicketsFor(shown[..|shown| - 1]) + TicketFor(shown[|shown| - 1])
  }

  function TicketFor(s: Session): seq<Ticket> {
    if s.state == Assigned then [Ticket(s.gpus, false)] else []
  }

  lemma NoTickets(before: seq<Ticket>)
    ensures before + TicketsFor([]) == before
  {
  }

  lemma TicketsStep(before: seq<Ticket>, shown: seq<Session>, k: nat)
    requires k < |shown|
    ensures before + TicketsFor(shown[..k + 1]) == before + TicketsFor(shown[..k]) + TicketFor(shown[k])
  {
    assert shown[..k + 1][..k] == shown[..k];
  }

  lemma ActiveEventsStep(before: seq<SessionEvent>, shown: seq<Session>, k: nat)
    requires k < |shown|
    ensures before + ActiveEvents(shown[..k + 1]) == before + ActiveEvents(shown[..k]) + ActiveEvent(shown[k])
  {
    assert shown[..k + 1][..k] == shown[..k];
  }

  lemma {:induction false} ActiveEventsAre(before: seq<SessionEvent>, shown: seq<Session>)
    ensures forall e | e in before + ActiveEvents(shown) :: e in before || e.state == Active
    ensures forall s | s in shown && s.state == Assigned :: s.id in EventIds(before + ActiveEvents(shown))
  {
    if shown != [] {
      var init, last := shown[..|shown| - 1], shown[|shown| - 1];
      ActiveEventsAre(before, init);
      assert shown == init + [last];
      assert forall e :: e in before + ActiveEvents(init) ==> e in before + ActiveEvents(shown);
      assert last.state == Assigned ==> SessionEvent(last.id, Active) in before + ActiveEvents(shown);
    }
  }

  lemma RecordFits(db: Db, aid: AgentId)
    requires DbInv(db) && aid in db.agents
    ensures Fits(db.agents[aid].info.gpus, db.agents[aid].sessions) && DistinctIds(db.agents[aid].sessions)
  {
    hide Accounted, Fits, Placed, DistinctIds;
    assert AgentOk(db.sessions, aid, db.agents[aid]);
  }

  /** A merged update reports the last state of each session, and only states that were pushed. */
  lemma MergedStates(ss: seq<SessionEvent>, cs: seq<ConnectionEvent>)
    requires forall e | e in ss :: e.state == Active || e.state == Closed
    ensures forall id | id in EventIds(ss) :: id in States(Merged(ss, cs))
    ensures forall id | id in States(Merged(ss, cs)) ::
              States(Merged(ss, cs))[id] != Queued && States(Merged(ss, cs))[id] != Assigned
  {
    forall id | id in States(Merged(ss, cs))
      ensures States(Merged(ss, cs))[id] != Queued && States(Merged(ss, cs))[id] != Assigned
    {
      LastStatePushed(ss, id);
    }
  }

  lemma {:induction false} LastStatePushed(ss: seq<SessionEvent>, id: SessionId)
    requires forall e | e in ss :: e.state == Active || e.state == Closed
    ensures LastState(ss, id) == Active || LastState(ss, id) == Closed || LastState(ss, id) == Unset
  {
    if ss != [] {
      assert ss[|ss| - 1] in ss;
      LastStatePushed(ss[..|ss| - 1], id);
    }
  }

  /** An update with news of every assigned session leaves none assigned. */
  lemma AssignedGone(db: Db, aid: AgentId, upd: Update)
    requires DbInv(db) && aid in db.agents
    requires forall id | id in upd :: upd[id] != Assigned
    requires forall s | s in db.agents[aid].sessions && s.state == Assigned :: s.id in upd
    ensures |db.agents[aid].sessionIds| == |db.agents[aid].sessions|
    ensures UpdateAgent(db, aid, Some(AgentActive), upd).Some?
    ensures aid in UpdateAgent(db, aid, Some(AgentActive), upd).value.agents
    ensures forall s | s in UpdateAgent(db, aid, Some(AgentActive), upd).value.agents[aid].sessions ::
        s.state != Assigned
  {
    hide Accounted, Fits, Placed, Survivors, Credit, UpdateAgent;
    assert AgentOk(db.sessions, aid, db.agents[aid]);
    UpdateIs(db, aid, Some(AgentActive), upd);
    SurvivorsAre(db.agents[aid].sessions, upd);
    forall t | t in Survivors(db.agents[aid].sessions, upd) ensures t.state != Assigned {
      var s :| s in db.agents[aid].sessions && t == Carry(s, upd);
    }
  }
}
