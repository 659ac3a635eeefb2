/** The whole life of a session: a run in which it is requested, placed, registered, active, finished and closed, and
    everything it took is given back. */
module SessionRun {
  import opened Words
  import opened GpuSpec
  import opened MemdbSpec
  import opened ControllerInv
  import opened Memdb
  import opened Backend
  import opened AgentSpec
  import opened Nodes
  import opened Protocol
  import opened ProtocolInv
  import opened Shadows
  import opened Runs

  /** The session as it was placed. */
  function PlacedAs(info: AgentInfo, req: Requirements, gpus: seq<SessionGpu>, state: SessionState): Session {
    Session(0, req.version, state, info.address, gpus)
  }

  /** One agent, with or without the session in its record, and the session's row; `node` is where the agent is, but for
      its free VRAM, and the scheduler rests. */
  ghost predicate Shows(w: World, info: AgentInfo, req: Requirements, s: Session, kept: bool, node: Node) {
    && w.db.agents.Keys == {0} && w.nodes.Keys == {0} && w.scheduler == Resting
    && w.db.agents[0].info == info && w.db.agents[0].status == AgentActive
    && w.db.agents[0].sessions == (if kept then [s] else [])
    && w.db.agents[0].sessionIds == (if kept then [0] else [])
    && w.db.sessions == map[0 := SessionRow(s, Some(0), req, TotalVramRequired(req.gpus))]
    && w.nodes[0].(avail := []) == node
  }

  /** A pass has read the only agent for the only session. */
  function Offered(info: AgentInfo, req: Requirements): World {
    var row := SessionRow(Session(0, req.version, Queued, "", []), None, req, TotalVramRequired(req.gpus));
    World(Db(map[0 := Runs.Blank(info)], map[0 := row]), map[], map[0 := NewNode(info)],
          Choosing(Keyed(0, req), map[0 := Runs.Blank(info)], []), {0}, map[])
  }

  lemma ReachesRequested(info: AgentInfo, req: Requirements) returns (run: seq<World>)
    ensures run != [] && GuardedRun(run) && run[|run| - 1] == Offered(info, req).(scheduler := Resting)
  {
    hide GuardedRun, TotalVram, TotalVramRequired, NewNode;
    var w0 := Init();
    run := [w0];
    assert GuardedRun(run) by { StartRun(); }
    var w1 := Apply(w0, RegisterAgentA(0, info));
    run := Extends(run, RegisterAgentA(0, info), w1);
    run := Extends(run, RequestA(0, req), Offered(info, req).(scheduler := Resting));
  }

  lemma ReachesOffered(info: AgentInfo, req: Requirements) returns (run: seq<World>)
    requires ValidRequest(req) && TotalVramRequired(req.gpus) <= TotalVram(info.gpus)
    ensures run != [] && GuardedRun(run) && run[|run| - 1] == Offered(info, req)
  {
    hide GuardedRun, TotalVram, TotalVramRequired, NewNode;
    run := ReachesRequested(info, req);
    var w := Offered(info, req).(scheduler := Offering([Keyed(0, req)]));
    run := Extends(run, ReadQueueA([Keyed(0, req)]), w);
    assert Candidates(w.db, TotalVramRequired(req.gpus)) == w.db.agents && w.scheduler.queue[1..] == [];
    run := Extends(run, OfferA, Offered(info, req));
  }

  lemma Placed(info: AgentInfo, req: Requirements, gpus: seq<SessionGpu>) returns (run: seq<World>)
    requires ValidRequest(req) && TotalVramRequired(req.gpus) <= TotalVram(info.gpus)
    requires MayMatch(Runs.Blank(info), req, gpus)
    ensures run != [] && GuardedRun(run)
    ensures Shows(run[|run| - 1], info, req, PlacedAs(info, req, gpus, Assigned), true,
                  Node(info, [], [], [], {}, [], Idle))
  {
    hide GuardedRun, TotalVram, TotalVramRequired, MayMatch, NewNode;
    run := ReachesOffered(info, req);
    var w := Apply(Offered(info, req), AssignA(0, gpus));
    run := Extends(run, AssignA(0, gpus), w);
    run := Extends(run, RestA, w.(scheduler := Resting));
    NewNodeIs(info);
  }

  lemma NewNodeIs(info: AgentInfo)
    ensures NewNode(info).(avail := []) == Node(info, [], [], [], {}, [], Idle)
  {
  }

  /** One more step of a run that shows `node` to one that shows `node'`. */
  lemma Moves(run: seq<World>, a: Action, info: AgentInfo, req: Requirements, s: Session, kept: bool, node: Node,
              s': Session, kept': bool, node': Node) returns (longer: seq<World>)
    requires run != [] && GuardedRun(run) && Shows(run[|run| - 1], info, req, s, kept, node)
    requires Enabled(run[|run| - 1], a) && !a.CloseA?
    requires Shows(Apply(run[|run| - 1], a), info, req, s', kept', node')
    ensures longer != [] && GuardedRun(longer) && Shows(longer[|longer| - 1], info, req, s', kept', node')
  {
    hide Enabled, Apply, Shows;
    longer := Extends(run, a, Apply(run[|run| - 1], a));
  }

  lemma NodeMoves(w: World, a: Action, info: AgentInfo, req: Requirements, s: Session, kept: bool, node: Node)
    requires Shows(w, info, req, s, kept, node) && Enabled(w, a) && NodeAction(a)
    ensures a.aid == 0 && Shows(Apply(w, a), info, req, s, kept, NodeAfter(w, a).(avail := []))
  {
    hide NodeAfter, TotalVramRequired;
    NodeOnly(w, a);
  }

  /** The agent reads its record, registers the session, reports it active, and the controller shows it so. */
  lemma Activated(info: AgentInfo, req: Requirements, gpus: seq<SessionGpu>) returns (run: seq<World>)
    requires ValidRequest(req) && TotalVramRequired(req.gpus) <= TotalVram(info.gpus)
    requires MayMatch(Runs.Blank(info), req, gpus)
    ensures run != [] && GuardedRun(run)
    ensures Shows(run[|run| - 1], info, req, PlacedAs(info, req, gpus, Active), true,
                  Node(info, [], [Claim(0, gpus)], [0], {}, [], Idle))
  {
    hide GuardedRun, TotalVram, TotalVramRequired, MayMatch, NewNode, Debited;
    run := Placed(info, req, gpus);
    run := Registered(run, info, req, gpus);
    var s := PlacedAs(info, req, gpus, Assigned);
    var n := Node(info, [], [Claim(0, gpus)], [0], {}, [SessionEvent(0, Active)], Registering([]));
    run := Reported(run, info, req, s, n, Active);
  }

  /** One step of the agent alone. */
  lemma AgentMoves(before: seq<World>, a: Action, info: AgentInfo, req: Requirements, s: Session, kept: bool,
                   n: Node, n': Node) returns (run: seq<World>)
    requires before != [] && GuardedRun(before) && Shows(before[|before| - 1], info, req, s, kept, n)
    requires Enabled(before[|before| - 1], a) && NodeAction(a)
    requires NodeAfter(before[|before| - 1], a).(avail := []) == n'
    ensures run != [] && GuardedRun(run) && Shows(run[|run| - 1], info, req, s, kept, n')
  {
    hide GuardedRun, Enabled, Apply, Shows, NodeAfter;
    NodeMoves(before[|before| - 1], a, info, req, s, kept, n);
    run := Moves(before, a, info, req, s, kept, n, s, kept, n');
  }

  lemma Polls(before: seq<World>, info: AgentInfo, req: Requirements, s: Session, kept: bool, n: Node)
    returns (run: seq<World>)
    requires before != [] && GuardedRun(before) && Shows(before[|before| - 1], info, req, s, kept, n) && n.phase.Idle?
    ensures run != [] && GuardedRun(run)
    ensures Shows(run[|run| - 1], info, req, s, kept,
                  n.(phase := Registering(if kept && s.state == Assigned then [Claim(s.id, s.gpus)] else [])))
  {
    hide GuardedRun, TotalVramRequired, AssignedClaims;
    OneAssigned(s);
    run := AgentMoves(before, PollA(0), info, req, s, kept, n,
                      n.(phase := Registering(if kept && s.state == Assigned then [Claim(s.id, s.gpus)] else [])));
  }

  lemma OneAssigned(s: Session)
    ensures AssignedClaims([s]) == if s.state == Assigned then [Claim(s.id, s.gpus)] else []
    ensures AssignedClaims([]) == []
  {
    assert [s][..0] == [];
  }

  lemma Registers(before: seq<World>, info: AgentInfo, req: Requirements, s: Session, c: Claim, n: Node)
    returns (run: seq<World>)
    requires before != [] && GuardedRun(before) && Shows(before[|before| - 1], info, req, s, true, n)
    requires n.phase == Registering([c])
    ensures run != [] && GuardedRun(run)
    ensures Shows(run[|run| - 1], info, req, s, true,
                  n.(held := n.held + [c], registered := n.registered + [c.id], phase := Announcing(c.id, [])))
  {
    hide GuardedRun, TotalVramRequired, Debited;
    assert [c][1..] == [];
    run := AgentMoves(before, RegisterA(0), info, req, s, true, n,
                      n.(held := n.held + [c], registered := n.registered + [c.id], phase := Announcing(c.id, [])));
  }

  lemma Announces(before: seq<World>, info: AgentInfo, req: Requirements, s: Session, id: SessionId, n: Node)
    returns (run: seq<World>)
    requires before != [] && GuardedRun(before) && Shows(before[|before| - 1], info, req, s, true, n)
    requires n.phase == Announcing(id, [])
    ensures run != [] && GuardedRun(run)
    ensures Shows(run[|run| - 1], info, req, s, true,
                  n.(events := n.events + [SessionEvent(id, Active)], phase := Registering([])))
  {
    hide GuardedRun, TotalVramRequired;
    run := AgentMoves(before, AnnounceA(0), info, req, s, true, n,
                      n.(events := n.events + [SessionEvent(id, Active)], phase := Registering([])));
  }

  lemma Registered(before: seq<World>, info: AgentInfo, req: Requirements, gpus: seq<SessionGpu>)
    returns (run: seq<World>)
    requires before != [] && GuardedRun(before)
    requires Shows(before[|before| - 1], info, req, PlacedAs(info, req, gpus, Assigned), true,
                   Node(info, [], [], [], {}, [], Idle))
    ensures run != [] && GuardedRun(run)
    ensures Shows(run[|run| - 1], info, req, PlacedAs(info, req, gpus, Assigned), true,
                  Node(info, [], [Claim(0, gpus)], [0], {}, [SessionEvent(0, Active)], Registering([])))
  {
    hide GuardedRun, Shows;
    var s, c := PlacedAs(info, req, gpus, Assigned), Claim(0, gpus);
    assert [] + [c] == [c] && [] + [0] == [0] && [] + [SessionEvent(0, Active)] == [SessionEvent(0, Active)];
    run := Polls(before, info, req, s, true, Node(info, [], [], [], {}, [], Idle));
    run := Registers(run, info, req, s, c, Node(info, [], [], [], {}, [], Registering([c])));
    run := Announces(run, info, req, s, 0, Node(info, [], [c], [0], {}, [], Announcing(0, [])));
  }

  /** The one event of the agent is drained and sent, and shows in the record and in the row. */
  lemma Reported(before: seq<World>, info: AgentInfo, req: Requirements, s: Session, n: Node, state: SessionState)
    returns (run: seq<World>)
    requires s.id == 0 && n.phase == Registering([]) && n.events == [SessionEvent(0, state)] && state != Queued
    requires before != [] && GuardedRun(before) && Shows(before[|before| - 1], info, req, s, true, n)
    ensures run != [] && GuardedRun(run)
    ensures Shows(run[|run| - 1], info, req, s.(state := state), state != Closed, n.(events := [], phase := Idle))
  {
    hide GuardedRun, Shows, Enabled, Apply;
    run := Drains(before, info, req, s, n, state);
    var n1 := n.(events := [], phase := Sending(map[0 := state]));
    SendMoves(run[|run| - 1], info, req, s, n1, state);
    run := Moves(run, SendA(0, Idle), info, req, s, true, n1, s.(state := state), state != Closed, n1.(phase := Idle));
  }

  lemma Drains(before: seq<World>, info: AgentInfo, req: Requirements, s: Session, n: Node, state: SessionState)
    returns (run: seq<World>)
    requires n.phase == Registering([]) && n.events == [SessionEvent(0, state)]
    requires before != [] && GuardedRun(before) && Shows(before[|before| - 1], info, req, s, true, n)
    ensures run != [] && GuardedRun(run)
    ensures Shows(run[|run| - 1], info, req, s, true, n.(events := [], phase := Sending(map[0 := state])))
  {
    hide GuardedRun, TotalVramRequired;
    assert EventIds(n.events) == {0} by { assert n.events[0] in n.events; }
    assert (map id | id in EventIds(n.events) + {} :: LastState(n.events, id)) == map[0 := state];
    var sent := n.(events := [], phase := Sending(map[0 := state]));
    run := AgentMoves(before, DrainA(0, {}), info, req, s, true, n, sent);
  }

  lemma SendMoves(w: World, info: AgentInfo, req: Requirements, s: Session, n: Node, state: SessionState)
    requires s.id == 0 && n.phase == Sending(map[0 := state]) && Shows(w, info, req, s, true, n)
    ensures Enabled(w, SendA(0, Idle))
    ensures Shows(Apply(w, SendA(0, Idle)), info, req, s.(state := state), state != Closed, n.(phase := Idle))
  {
    hide TotalVramRequired, AddCredits, TotalVram;
    var agent, upd := w.db.agents[0].(status := AgentActive), map[0 := state];
    assert ScanSessions(agent, upd, w.db.sessions, 0) == Some(Scan([], [], agent.vramAvailable, w.db.sessions));
    assert ScanSessions(agent, upd, w.db.sessions, 1) ==
           ScanOne(Scan([], [], agent.vramAvailable, w.db.sessions), 0, s, upd);
  }

  lemma Finishes(before: seq<World>, info: AgentInfo, req: Requirements, s: Session, c: Claim, n: Node)
    returns (run: seq<World>)
    requires before != [] && GuardedRun(before) && Shows(before[|before| - 1], info, req, s, true, n)
    requires n.held == [c] && n.closing == {} && n.events == []
    ensures run != [] && GuardedRun(run)
    ensures Shows(run[|run| - 1], info, req, s, true, n.(held := [], events := [SessionEvent(c.id, Closed)]))
  {
    hide GuardedRun, TotalVramRequired, Credited;
    assert Without([c], 0) == [] && {} + {c.id} == {c.id} && {c.id} - {c.id} == {};
    run := AgentMoves(before, ReleaseA(0, 0), info, req, s, true, n, n.(held := [], closing := {c.id}));
    run := AgentMoves(run, PushClosedA(0, c.id), info, req, s, true, n.(held := [], closing := {c.id}),
                      n.(held := [], events := [SessionEvent(c.id, Closed)]));
  }

  /** For every agent and every request that it can take: a run in which the session lives and ends. At its end the
      agent has all its GPUs free again, the controller shows it as when it registered, and the session is closed. */
  lemma LifeOfASession(info: AgentInfo, req: Requirements, gpus: seq<SessionGpu>)
    returns (active: seq<World>, ended: seq<World>)
    requires ValidRequest(req) && TotalVramRequired(req.gpus) <= TotalVram(info.gpus)
    requires MayMatch(Runs.Blank(info), req, gpus)
    ensures active != [] && GuardedRun(active) && ended != [] && GuardedRun(ended)
    ensures var w := active[|active| - 1];
            && 0 in w.db.sessions && w.db.sessions[0].session.state == Active
            && 0 in w.nodes && w.nodes[0].held == [Claim(0, gpus)]
    ensures var w := ended[|ended| - 1];
            && w.db.agents == map[0 := Runs.Blank(info)]
            && 0 in w.db.sessions && w.db.sessions[0].session.state == Closed
            && 0 in w.nodes && w.nodes[0].held == [] && w.nodes[0].avail == Capacities(info.gpus)
  {
    hide GuardedRun, TotalVram, TotalVramRequired, MayMatch, Capacities;
    active := Activated(info, req, gpus);
    var s, c := PlacedAs(info, req, gpus, Active), Claim(0, gpus);
    var n := Node(info, [], [c], [0], {}, [], Idle);
    ended := Finishes(active, info, req, s, c, n);
    ended := Polls(ended, info, req, s, true, n.(held := [], events := [SessionEvent(0, Closed)]));
    var polled := n.(held := [], events := [SessionEvent(0, Closed)], phase := Registering([]));
    ended := Reported(ended, info, req, s, polled, Closed);
    EndsAsItBegan(ended, info, req, s.(state := Closed));
  }

  lemma EndsAsItBegan(run: seq<World>, info: AgentInfo, req: Requirements, s: Session)
    requires run != [] && GuardedRun(run)
    requires Shows(run[|run| - 1], info, req, s, false, Node(info, [], [], [0], {}, [], Idle))
    ensures var w := run[|run| - 1];
            && w.db.agents == map[0 := Runs.Blank(info)]
            && 0 in w.nodes && w.nodes[0].held == [] && w.nodes[0].avail == Capacities(info.gpus)
  {
    hide GuardedRun, Run, TotalVram, TotalVramRequired;
    var k := |run| - 1;
    GuardedIsRun(run);
    AgentSafety(run, k, 0);
    ControllerSafety(run, k, 0);
  }
}
