/** Nobody gets stuck: the scheduler's passes and the agents' ticks go on until they end, and take a bounded number of
    their own steps whatever the others do meanwhile. */
module Progress {
  import opened Words
  import opened GpuSpec
  import opened MemdbSpec
  import opened ControllerInv
  import opened Memdb
  import opened Backend
  import opened AgentSpec
  import opened Nodes
  import opened Protocol
  import opened ProtocolInv
  import opened Runs

  /** How many steps of its own a pass may still take. */
  function PassLeft(s: Scheduler): nat {
    match s
    case Resting => 0
    case Offering(queue) => 2 * |queue| + 1
    case Choosing(_, _, queue) => 2 * |queue| + 2
    case Crashed => 0
  }

  /** How many steps of its own the agent's tick may still take. */
  function TickLeft(p: Phase): nat {
    match p
    case Idle => 0
    case Registering(todo) => 2 * |todo| + 2
    case Announcing(_, todo) => 2 * |todo| + 3
    case Sending(_) => 1
    case Stopped => 0
  }

  predicate PassStep(a: Action) {
    a.SkipA? || a.OfferA? || a.AssignA? || a.GiveUpA? || a.RestA?
  }

  predicate TickStep(a: Action, aid: AgentId) {
    (a.RegisterA? || a.AnnounceA? || a.DrainA? || a.SendA? || a.StopA? || a.CloseA?) && a.aid == aid
  }

  /** Every step of a pass brings its end nearer, and no step of anyone else changes where it is. */
  lemma PassShrinks(w: World, a: Action)
    requires Enabled(w, a) && !w.scheduler.Resting?
    ensures PassStep(a) ==> PassLeft(Apply(w, a).scheduler) < PassLeft(w.scheduler)
    ensures !PassStep(a) ==> Apply(w, a).scheduler == w.scheduler
  {
    hide MayMatch, TotalVram, TotalVramRequired, Poll, Register, Announce, Release, PushClosed, Drain, AddCredits,
      Candidates, MarkCanceling, IsQueue, UpdateAgent, AssignSession, IntendedCancel, Lapsed;
  }

  /** Until it has ended it can take one. */
  lemma PassGoesOn(w: World) returns (a: Action)
    requires !w.scheduler.Resting? && !w.scheduler.Crashed?
    ensures PassStep(a) && Enabled(w, a)
  {
    a := match w.scheduler
      case Choosing(_, _, _) => GiveUpA
      case Offering(queue) =>
        if queue == [] then RestA else if ValidRequest(queue[0].row) then OfferA else SkipA
      case _ => RestA;
  }

  /** And then the next one can begin. */
  lemma PassStarts(w: World) returns (queue: seq<Entry>)
    requires w.scheduler.Resting?
    ensures Enabled(w, ReadQueueA(queue))
  {
    var table := w.db.sessions;
    queue := QueueFrom(table, set sid | sid in table && table[sid].session.state == Queued);
  }

  lemma QueueFrom(table: Table, todo: set<SessionId>) returns (queue: seq<Entry>)
    requires todo <= table.Keys
    ensures forall i, j :: 0 <= i < j < |queue| ==> queue[i].id != queue[j].id
    ensures forall e :: e in queue <==> e.id in todo && table[e.id].requirements == e.row
    decreases |todo|
  {
    if todo == {} {
      queue := [];
    } else {
      var sid :| sid in todo;
      var rest := QueueFrom(table, todo - {sid});
      queue := [Keyed(sid, table[sid].requirements)] + rest;
      forall j | 0 <= j < |rest| ensures rest[j].id != sid {
        assert rest[j] in rest;
      }
    }
  }

  lemma OwnTick(w: World, a: Action, aid: AgentId)
    requires Enabled(w, a) && aid in w.nodes && TickStep(a, aid)
    ensures aid in Apply(w, a).nodes
    ensures !w.nodes[aid].phase.Idle? && !w.nodes[aid].phase.Stopped? ==>
              TickLeft(Apply(w, a).nodes[aid].phase) < TickLeft(w.nodes[aid].phase)
    ensures w.nodes[aid].phase.Stopped? ==> Apply(w, a).nodes[aid].phase.Stopped?
  {
    hide AddCredits, UpdateAgent, Debited, Credited, EventIds, LastState, RemoveAgents;
  }

  lemma OthersTick(w: World, a: Action, aid: AgentId)
    requires Enabled(w, a) && aid in w.nodes && !TickStep(a, aid) && !w.nodes[aid].phase.Idle?
    ensures aid in Apply(w, a).nodes && Apply(w, a).nodes[aid].phase == w.nodes[aid].phase
  {
    hide MayMatch, TotalVram, TotalVramRequired, AddCredits, Candidates, MarkCanceling, IsQueue, UpdateAgent,
      AssignSession, IntendedCancel, Lapsed, Debited, Credited, EventIds, LastState, Register, Announce, Drain,
      RequestSession, SetMissing, RemoveMissing, NewNode;
  }

  /** Every step of a tick brings its end nearer, and no step of anyone else changes where it is. */
  lemma TickShrinks(w: World, a: Action, aid: AgentId)
    requires Enabled(w, a) && aid in w.nodes && !w.nodes[aid].phase.Idle?
    ensures aid in Apply(w, a).nodes
    ensures TickStep(a, aid) && !w.nodes[aid].phase.Stopped? ==>
              TickLeft(Apply(w, a).nodes[aid].phase) < TickLeft(w.nodes[aid].phase)
    ensures !TickStep(a, aid) ==> Apply(w, a).nodes[aid].phase == w.nodes[aid].phase
    ensures w.nodes[aid].phase.Stopped? ==> Apply(w, a).nodes[aid].phase.Stopped?
  {
    hide Enabled, Apply;
    if TickStep(a, aid) {
      OwnTick(w, a, aid);
    } else {
      OthersTick(w, a, aid);
    }
  }

  /** Until it has ended, and while the controller knows the agent, it can take one. */
  lemma TickGoesOn(w: World, aid: AgentId) returns (a: Action)
    requires aid in w.nodes && aid in w.db.agents && !w.scheduler.Crashed?
    requires !w.nodes[aid].phase.Idle? && !w.nodes[aid].phase.Stopped?
    ensures TickStep(a, aid) && !a.StopA? && !a.CloseA? && Enabled(w, a)
    ensures Apply(w, a).db.agents.Keys == w.db.agents.Keys && Apply(w, a).scheduler == w.scheduler
  {
    hide Debited, EventIds, LastState, AddCredits, ScanSessions;
    a := match w.nodes[aid].phase
      case Registering(todo) => if todo == [] then DrainA(aid, {}) else RegisterA(aid)
      case Announcing(_, _) => AnnounceA(aid)
      case _ => SendA(aid, Idle);
  }

  /** An agent at rest can begin the next tick, or shut down, and stop at any time. */
  lemma AgentMay(w: World, aid: AgentId)
    requires aid in w.nodes && !w.scheduler.Crashed?
    ensures aid in w.db.agents && w.nodes[aid].phase.Idle? ==> Enabled(w, PollA(aid)) && Enabled(w, CloseA(aid))
    ensures Enabled(w, StopA(aid)) && Apply(w, StopA(aid)).nodes[aid].phase.Stopped?
  {
  }

  /** A session that an agent holds can end at any time. */
  lemma SessionMayEnd(w: World, aid: AgentId, k: nat)
    requires aid in w.nodes && !w.scheduler.Crashed? && k < |w.nodes[aid].held|
    ensures Enabled(w, ReleaseA(aid, k))
    ensures w.nodes[aid].held[k].id in Apply(w, ReleaseA(aid, k)).nodes[aid].closing
  {
    hide Credited, Without;
  }

  /** And one that has ended can be reported closed. */
  lemma EndMayBeReported(w: World, aid: AgentId, sid: SessionId)
    requires aid in w.nodes && !w.scheduler.Crashed? && sid in w.nodes[aid].closing
    ensures Enabled(w, PushClosedA(aid, sid))
    ensures Apply(w, PushClosedA(aid, sid)).nodes[aid].events == w.nodes[aid].events + [SessionEvent(sid, Closed)]
  {
  }

  // ---- Every run can go on so ----

  /** From every state of every run, the pass under way can be brought to its end by its own steps alone, at most
      PassLeft of them; it may crash on the way. */
  lemma {:induction false} PassEnds(run: seq<World>) returns (longer: seq<World>)
    requires Run(run)
    ensures run <= longer && Run(longer) && |longer| <= |run| + PassLeft(run[|run| - 1].scheduler)
    ensures longer[|longer| - 1].scheduler.Resting? || longer[|longer| - 1].scheduler.Crashed?
    decreases PassLeft(run[|run| - 1].scheduler)
  {
    var w := run[|run| - 1];
    hide Run, Enabled, Apply;
    longer := run;
    if !w.scheduler.Resting? && !w.scheduler.Crashed? {
      var a := PassGoesOn(w);
      PassShrinks(w, a);
      var next := RunExtends(run, a, Apply(w, a));
      longer := PassEnds(next);
    }
  }

  /** And so can the tick of an agent that the controller knows; it may stop on the way. */
  lemma {:induction false} TickEnds(run: seq<World>, aid: AgentId) returns (longer: seq<World>)
    requires Run(run) && aid in run[|run| - 1].nodes && aid in run[|run| - 1].db.agents
    requires !run[|run| - 1].scheduler.Crashed?
    ensures run <= longer && Run(longer) && |longer| <= |run| + TickLeft(run[|run| - 1].nodes[aid].phase)
    ensures aid in longer[|longer| - 1].nodes
    ensures var phase := longer[|longer| - 1].nodes[aid].phase; phase.Idle? || phase.Stopped?
    decreases TickLeft(run[|run| - 1].nodes[aid].phase)
  {
    var w := run[|run| - 1];
    hide Run, Enabled, Apply;
    longer := run;
    if !w.nodes[aid].phase.Idle? && !w.nodes[aid].phase.Stopped? {
      var a := TickGoesOn(w, aid);
      TickShrinks(w, a, aid);
      var next := RunExtends(run, a, Apply(w, a));
      longer := TickEnds(next, aid);
    }
  }
}
