/** The rendezvous between render agents and clients: pairing from one ready queue, and the relay of batches and
    replies, as a state machine over the awaits of its coroutines. */
module Rendezvous {
  import opened Words

  type Batch = seq<int>
  type Reply = seq<int>

  datatype ToAgent = Work(batch: Batch) | Bye

  /** What an agent has been sent and not read, what it has sent that was not received, whether its connection is
      up, and every batch it answered with its answer. */
  datatype Agent = Agent(inbox: seq<ToAgent>, outbox: seq<Reply>, up: bool, answered: seq<(Batch, Reply)>)

  /** Where a client's handler stands. */
  datatype Phase =
    | Opening
    | Refused
    | Starting(agent: nat)
    | Idle(agent: nat)
    | Waiting(agent: nat)
    | Holding(agent: nat, reply: Reply)
    | Finished(agent: nat)

  datatype Client = Client(phase: Phase, batches: seq<Batch>, replies: seq<Reply>)

  /** `owner` records which client took an agent from the queue. */
  datatype State = State(agents: seq<Agent>, clients: seq<Client>, ready: seq<nat>, owner: map<nat, nat>)

  const START: State := State([], [], [], map[])

  datatype Action =
    | Register
    | Open
    | Timeout(c: nat)
    | Pair(c: nat)
    | Start(c: nat)
    | StartLost(c: nat)
    | Relay(c: nat, batch: Batch)
    | Receive(c: nat)
    | Deliver(c: nat)
    | Finish(c: nat)
    | Answer(a: nat, answer: Reply)
    | Leave(a: nat)

  predicate AgentOf(p: Phase, a: nat) {
    !p.Opening? && !p.Refused? && p.agent == a
  }

  predicate Enabled(s: State, x: Action) {
    match x
    case Register => true
    case Open => true
    case Timeout(c) => c < |s.clients| && s.clients[c].phase.Opening?
    case Pair(c) => c < |s.clients| && s.clients[c].phase.Opening? && s.ready != []
    case Start(c) => c < |s.clients| && s.clients[c].phase.Starting?
    case StartLost(c) => c < |s.clients| && s.clients[c].phase.Starting?
    case Relay(c, _) =>
      && c < |s.clients| && s.clients[c].phase.Idle?
      && s.clients[c].phase.agent < |s.agents| && s.agents[s.clients[c].phase.agent].up
    case Receive(c) =>
      && c < |s.clients| && s.clients[c].phase.Waiting?
      && s.clients[c].phase.agent < |s.agents| && s.agents[s.clients[c].phase.agent].outbox != []
    case Deliver(c) => c < |s.clients| && s.clients[c].phase.Holding?
    case Finish(c) =>
      && c < |s.clients| && (s.clients[c].phase.Idle? || s.clients[c].phase.Waiting? || s.clients[c].phase.Holding?)
      && s.clients[c].phase.agent < |s.agents|
    case Answer(a, _) => a < |s.agents| && s.agents[a].up && s.agents[a].inbox != [] && s.agents[a].inbox[0].Work?
    case Leave(a) => a < |s.agents|
  }

  function SetPhase(s: State, c: nat, p: Phase): State
    requires c < |s.clients|
  {
    s.(clients := s.clients[c := s.clients[c].(phase := p)])
  }

  function SetAgent(s: State, a: nat, g: Agent): State
    requires a < |s.agents|
  {
    s.(agents := s.agents[a := g])
  }

  function Apply(s: State, x: Action): State
    requires Enabled(s, x)
  {
    match x
    // handle_agent: the agent is put behind the others that are ready
    case Register => s.(agents := s.agents + [Agent([], [], true, [])], ready := s.ready + [|s.agents|])
    // handle_client, one case for each await
    case Open => s.(clients := s.clients + [Client(Opening, [], [])])
    case Timeout(c) => SetPhase(s, c, Refused)
    case Pair(c) =>
      var a := s.ready[0];
      SetPhase(s.(ready := s.ready[1..], owner := s.owner[a := c]), c, Starting(a))
    case Start(c) => SetPhase(s, c, Idle(s.clients[c].phase.agent))
    case StartLost(c) => SetPhase(s, c, Finished(s.clients[c].phase.agent))
    case Relay(c, b) =>
      var a := s.clients[c].phase.agent;
      var t := SetAgent(s, a, s.agents[a].(inbox := s.agents[a].inbox + [Work(b)]));
      t.(clients := t.clients[c := t.clients[c].(phase := Waiting(a), batches := t.clients[c].batches + [b])])
    case Receive(c) =>
      var a := s.clients[c].phase.agent;
      var r := s.agents[a].outbox[0];
      SetPhase(SetAgent(s, a, s.agents[a].(outbox := s.agents[a].outbox[1..])), c, Holding(a, r))
    case Deliver(c) =>
      var p := s.clients[c].phase;
      s.(clients := s.clients[c := s.clients[c].(phase := Idle(p.agent), replies := s.clients[c].replies + [p.reply])])
    // the finally branch, whatever ended the session: the farewell is lost on an agent that is gone
    case Finish(c) =>
      var a := s.clients[c].phase.agent;
      var g := s.agents[a];
      SetPhase(SetAgent(s, a, if g.up then g.(inbox := g.inbox + [Bye]) else g), c, Finished(a))
    // the agent's own loop, and its connection's end
    case Answer(a, r) =>
      var g := s.agents[a];
      SetAgent(s, a,
          g.(inbox := g.inbox[1..], outbox := g.outbox + [r], answered := g.answered + [(g.inbox[0].batch, r)]))
    case Leave(a) => SetAgent(s, a, s.agents[a].(up := false))
  }

  // ----- what holds throughout -----

  /** The batches on their way: sent and unread, answered and not received, received and not delivered. */
  function InFlight(g: Agent, p: Phase): nat {
    Works(g.inbox) + |g.outbox| + if p.Holding? then 1 else 0
  }

  function Works(inbox: seq<ToAgent>): nat {
    if inbox == [] then 0 else Works(inbox[1..]) + if inbox[0].Work? then 1 else 0
  }

  /** The answers are to the client's batches in order, and its replies are those answers in order; neither runs
      more than one behind. */
  predicate InStep(c: Client, g: Agent) {
    && |c.replies| <= |g.answered| <= |c.batches| <= |c.replies| + 1
    && (forall k :: 0 <= k < |g.answered| ==> g.answered[k].0 == c.batches[k])
    && (forall k :: 0 <= k < |c.replies| ==> c.replies[k] == g.answered[k].1)
  }

  predicate Unused(g: Agent) {
    g.inbox == [] && g.outbox == [] && g.answered == []
  }

  predicate Settled(c: Client, g: Agent) {
    g.inbox == [] && g.outbox == [] && |g.answered| == |c.batches| == |c.replies|
  }

  predicate Sent(c: Client, g: Agent) {
    && |g.answered| == |c.replies| == |c.batches| - 1
    && g.inbox == [Work(c.batches[|c.batches| - 1])] && g.outbox == []
  }

  predicate Answered(c: Client, g: Agent) {
    && |g.answered| == |c.batches| == |c.replies| + 1
    && g.inbox == [] && g.outbox == [g.answered[|g.answered| - 1].1]
  }

  /** A pair of a client and its agent, phase by phase. After the end the agent may still read and answer what it
      was sent, but no one receives it. */
  predicate PairOk(c: Client, g: Agent) {
    && InStep(c, g)
    && match c.phase
       case Starting(_) => Unused(g) && c.batches == []
       case Idle(_) => Settled(c, g)
       case Waiting(_) => Sent(c, g) || Answered(c, g)
       case Holding(_, r) =>
         && |g.answered| == |c.batches| == |c.replies| + 1
         && g.inbox == [] && g.outbox == [] && r == g.answered[|g.answered| - 1].1
       case Finished(_) =>
         || ((g.inbox == [] || g.inbox == [Bye]) && |g.outbox| <= 1)
         || (|g.answered| < |c.batches| && (g.inbox == [Work(c.batches[|c.batches| - 1])]
             || g.inbox == [Work(c.batches[|c.batches| - 1]), Bye]) && g.outbox == [])
       case _ => false
  }

  predicate Inv(s: State) {
    && (forall i :: 0 <= i < |s.ready| ==> s.ready[i] < |s.agents| && s.ready[i] !in s.owner)
    && (forall i, j :: 0 <= i < j < |s.ready| ==> s.ready[i] != s.ready[j])
    && (forall a :: a in s.owner ==>
        && a < |s.agents| && s.owner[a] < |s.clients|
        && AgentOf(s.clients[s.owner[a]].phase, a) && PairOk(s.clients[s.owner[a]], s.agents[a]))
    && (forall c {:trigger s.clients[c]} :: 0 <= c < |s.clients| ==> ClientOk(s.clients[c], c, s.owner))
    && (forall a :: 0 <= a < |s.agents| && a !in s.owner ==> Unused(s.agents[a]))
  }

  predicate ClientOk(k: Client, c: nat, owner: map<nat, nat>) {
    if k.phase.Opening? || k.phase.Refused? then k.batches == [] && k.replies == []
    else k.phase.agent in owner && owner[k.phase.agent] == c
  }

  lemma RegisterKeeps(s: State)
    requires Inv(s)
    ensures Inv(Apply(s, Register))
  {
    hide PairOk;
  }

  lemma OpenKeeps(s: State)
    requires Inv(s)
    ensures Inv(Apply(s, Open))
  {
    hide PairOk;
  }

  lemma PairKeeps(s: State, x: Action)
    requires Inv(s) && Enabled(s, x) && (x.Pair? || x.Timeout?)
    ensures Inv(Apply(s, x))
  {
    hide PairOk;
    if x.Pair? {
      var a, c := s.ready[0], x.c;
      assert a !in s.owner;
      NewPair(a, s.clients[c], s.agents[a]);
    }
  }

  lemma NewPair(a: nat, c: Client, g: Agent)
    requires Unused(g) && c.batches == [] && c.replies == []
    ensures PairOk(c.(phase := Starting(a)), g)
  {
  }

  /** A step of one client and its agent, which leaves every other pair as it was. */
  lemma PairStepKeeps(s: State, t: State, a: nat, c: Client, g: Agent)
    requires Inv(s) && a in s.owner
    requires t == State(s.agents[a := g], s.clients[s.owner[a] := c], s.ready, s.owner)
    requires AgentOf(c.phase, a) && PairOk(c, g)
    ensures Inv(t)
  {
    hide PairOk;
    forall b | b in t.owner
      ensures AgentOf(t.clients[t.owner[b]].phase, b) && PairOk(t.clients[t.owner[b]], t.agents[b])
    {
      if b != a {
        assert s.owner[b] != s.owner[a];
      }
    }
  }

  lemma SessionKeeps(s: State, x: Action)
    requires Inv(s) && Enabled(s, x)
    requires x.Start? || x.StartLost? || x.Relay? || x.Receive? || x.Deliver? || x.Finish?
    ensures Inv(Apply(s, x))
  {
    assert ClientOk(s.clients[x.c], x.c, s.owner);
    var a := s.clients[x.c].phase.agent;
    var t := Apply(s, x);
    var c, g := t.clients[x.c], t.agents[a];
    assert PairOk(s.clients[x.c], s.agents[a]);
    SessionPair(s, x, a);
    assert t == State(s.agents[a := g], s.clients[x.c := c], s.ready, s.owner);
    PairStepKeeps(s, t, a, c, g);
  }

  lemma SessionPair(s: State, x: Action, a: nat)
    requires Enabled(s, x) && (x.Start? || x.StartLost? || x.Relay? || x.Receive? || x.Deliver? || x.Finish?)
    requires AgentOf(s.clients[x.c].phase, a) && a < |s.agents| && PairOk(s.clients[x.c], s.agents[a])
    ensures var t := Apply(s, x);
      AgentOf(t.clients[x.c].phase, a) && PairOk(t.clients[x.c], t.agents[a])
  {
  }

  lemma AgentKeeps(s: State, x: Action)
    requires Inv(s) && Enabled(s, x) && (x.Answer? || x.Leave?)
    ensures Inv(Apply(s, x))
  {
    var a, t := x.a, Apply(s, x);
    if a in s.owner {
      var c := s.clients[s.owner[a]];
      AgentPair(s, x, c);
      assert t == State(s.agents[a := t.agents[a]], s.clients[s.owner[a] := c], s.ready, s.owner);
      PairStepKeeps(s, t, a, c, t.agents[a]);
    } else {
      hide PairOk;
      assert Unused(s.agents[a]);
    }
  }

  lemma AgentPair(s: State, x: Action, c: Client)
    requires Enabled(s, x) && (x.Answer? || x.Leave?) && PairOk(c, s.agents[x.a])
    ensures PairOk(c, Apply(s, x).agents[x.a])
  {
  }

  lemma Keeps(s: State, x: Action)
    requires Inv(s) && Enabled(s, x)
    ensures Inv(Apply(s, x))
  {
    hide Inv;
    match x
    case Register => RegisterKeeps(s);
    case Open => OpenKeeps(s);
    case Timeout(_) => PairKeeps(s, x);
    case Pair(_) => PairKeeps(s, x);
    case Answer(_, _) => AgentKeeps(s, x);
    case Leave(_) => AgentKeeps(s, x);
    case _ => SessionKeeps(s, x);
  }

  // ----- runs -----

  /** The state after a run, or None when some step of it was not enabled. */
  function Run(xs: seq<Action>): Option<State> {
    if xs == [] then Some(START) else
    match Run(xs[..|xs| - 1])
    case None => None
    case Some(s) => if Enabled(s, xs[|xs| - 1]) then Some(Apply(s, xs[|xs| - 1])) else None
  }

  lemma {:induction false} RunKeeps(xs: seq<Action>)
    requires Run(xs).Some?
    ensures Inv(Run(xs).value)
  {
    if xs != [] {
      RunKeeps(xs[..|xs| - 1]);
      Keeps(Run(xs[..|xs| - 1]).value, xs[|xs| - 1]);
    }
  }

  /** One step never gives a paired agent another client. */
  lemma OwnerStays(s: State, x: Action, a: nat)
    requires Inv(s) && Enabled(s, x) && a in s.owner
    ensures a in Apply(s, x).owner && Apply(s, x).owner[a] == s.owner[a]
  {
    hide PairOk, ClientOk;
  }

  /** An agent once paired keeps its client for the rest of the run: one client in its lifetime. */
  lemma {:induction false} PairedOnce(xs: seq<Action>, n: nat, a: nat)
    requires Run(xs).Some? && n <= |xs|
    ensures Run(xs[..n]).Some?
    ensures var s, t := Run(xs[..n]).value, Run(xs).value;
      a in s.owner ==> a in t.owner && t.owner[a] == s.owner[a]
  {
    if n == |xs| {
      assert xs[..n] == xs;
    } else {
      var before := xs[..|xs| - 1];
      PairedOnce(before, n, a);
      assert before[..n] == xs[..n];
      RunKeeps(before);
      hide Inv, Apply, Enabled;
      if a in Run(before).value.owner {
        OwnerStays(Run(before).value, xs[|xs| - 1], a);
      }
    }
  }

  /** No client ever has two agents. */
  lemma OneAgentEach(xs: seq<Action>, a: nat, b: nat)
    requires Run(xs).Some? && a in Run(xs).value.owner && b in Run(xs).value.owner
    requires Run(xs).value.owner[a] == Run(xs).value.owner[b]
    ensures a == b
  {
    RunKeeps(xs);
  }

  /** In every run: a paired agent has at most one batch in flight, and the k-th reply its client got is that
      agent's answer to the client's k-th batch. */
  lemma RepliesMatchBatches(xs: seq<Action>, c: nat, a: nat)
    requires Run(xs).Some? && c < |Run(xs).value.clients| && AgentOf(Run(xs).value.clients[c].phase, a)
    ensures a < |Run(xs).value.agents|
    ensures var client, g := Run(xs).value.clients[c], Run(xs).value.agents[a];
      && a in Run(xs).value.owner && Run(xs).value.owner[a] == c
      && InFlight(g, client.phase) <= 1
      && |client.replies| <= |g.answered| <= |client.batches| <= |client.replies| + 1
      && (client.phase.Idle? ==> |client.replies| == |client.batches|)
      && forall k :: 0 <= k < |client.replies| ==> g.answered[k] == (client.batches[k], client.replies[k])
  {
    RunKeeps(xs);
    var s := Run(xs).value;
    assert ClientOk(s.clients[c], c, s.owner);
    assert PairOk(s.clients[c], s.agents[a]);
    WorksIs(s.agents[a].inbox);
  }

  lemma WorksIs(inbox: seq<ToAgent>)
    ensures Works([]) == 0 && Works([Bye]) == 0
    ensures |inbox| == 1 && inbox[0].Work? ==> Works(inbox) == 1
    ensures |inbox| == 2 && inbox[0].Work? && inbox[1] == Bye ==> Works(inbox) == 1
  {
    assert [Bye][1..] == [];
    if |inbox| == 2 {
      assert inbox[1..] == [inbox[1]] && inbox[1..][1..] == [];
    }
  }

  /** An agent waiting in the queue has been sent nothing and serves no one. */
  lemma ReadyIsUnused(xs: seq<Action>, i: nat)
    requires Run(xs).Some? && i < |Run(xs).value.ready|
    ensures var s := Run(xs).value;
      s.ready[i] < |s.agents| && s.ready[i] !in s.owner && Unused(s.agents[s.ready[i]])
      && forall c :: 0 <= c < |s.clients| ==> !AgentOf(s.clients[c].phase, s.ready[i])
  {
    RunKeeps(xs);
    var s := Run(xs).value;
    forall c | 0 <= c < |s.clients| ensures !AgentOf(s.clients[c].phase, s.ready[i]) {
      assert ClientOk(s.clients[c], c, s.owner);
    }
  }

  /** The step tells agent `a` that its client is gone: the end of the client's session does, while the agent's
      connection is up. */
  predicate Tells(s: State, x: Action, a: nat) {
    x.Finish? && Enabled(s, x) && s.clients[x.c].phase.agent == a && s.agents[a].up
  }

  lemma ToldStep(s: State, x: Action, a: nat)
    requires Enabled(s, x) && a < |Apply(s, x).agents|
    ensures Bye in Apply(s, x).agents[a].inbox <==>
            (a < |s.agents| && Bye in s.agents[a].inbox) || Tells(s, x, a)
  {
    if x.Answer? && x.a == a {
      var inbox := s.agents[a].inbox;
      assert inbox == [inbox[0]] + inbox[1..];
    }
  }

  /** Step number `m` of a run tells agent `a`. */
  predicate ToldAt(xs: seq<Action>, m: nat, a: nat)
    requires m < |xs|
  {
    Run(xs[..m]).Some? && Tells(Run(xs[..m]).value, xs[m], a)
  }

  /** An agent has been told exactly when one of the steps told it: a client that ends tells its agent, if that is
      still there, and nothing else does. */
  lemma {:induction false} ToldIff(xs: seq<Action>, a: nat)
    requires Run(xs).Some? && a < |Run(xs).value.agents|
    ensures Bye in Run(xs).value.agents[a].inbox <==> exists m | 0 <= m < |xs| :: ToldAt(xs, m, a)
  {
    hide Apply, Enabled, Tells;
    if xs != [] {
      var n := |xs| - 1;
      var s := Run(xs[..n]).value;
      ToldStep(s, xs[n], a);
      SameSteps(xs, a);
      assert ToldAt(xs, n, a) <==> Tells(s, xs[n], a);
      hide ToldAt;
      if a < |s.agents| {
        ToldIff(xs[..n], a);
        if m :| 0 <= m < n && ToldAt(xs[..n], m, a) {
          assert ToldAt(xs, m, a);
        }
        if m :| 0 <= m < |xs| && ToldAt(xs, m, a) {
          assert m < n ==> ToldAt(xs[..n], m, a);
        }
      } else {
        NoneTold(xs[..n], a);
      }
    }
  }

  lemma SameSteps(xs: seq<Action>, a: nat)
    requires xs != []
    ensures forall m | 0 <= m < |xs| - 1 :: ToldAt(xs, m, a) <==> ToldAt(xs[..|xs| - 1], m, a)
  {
    hide Run, Tells;
    var n := |xs| - 1;
    forall m | 0 <= m < n ensures ToldAt(xs, m, a) <==> ToldAt(xs[..n], m, a) {
      assert xs[..n][..m] == xs[..m];
    }
  }

  lemma AgentsGrow(s: State, x: Action)
    requires Enabled(s, x)
    ensures |s.agents| <= |Apply(s, x).agents|
  {
  }

  lemma TellsThere(s: State, x: Action, a: nat)
    ensures Tells(s, x, a) ==> a < |s.agents|
  {
  }

  /** No step tells an agent that is not there yet. */
  lemma {:induction false} NoneTold(xs: seq<Action>, a: nat)
    requires Run(xs).Some? && a >= |Run(xs).value.agents|
    ensures forall m | 0 <= m < |xs| :: !ToldAt(xs, m, a)
  {
    hide Apply, Enabled, Tells;
    if xs != [] {
      var n := |xs| - 1;
      AgentsGrow(Run(xs[..n]).value, xs[n]);
      TellsThere(Run(xs[..n]).value, xs[n], a);
      assert !ToldAt(xs, n, a);
      SameSteps(xs, a);
      hide ToldAt;
      NoneTold(xs[..n], a);
    }
  }

  /** It is told once, and last. */
  lemma ToldOnce(xs: seq<Action>, a: nat)
    requires Run(xs).Some? && a < |Run(xs).value.agents|
    ensures var inbox := Run(xs).value.agents[a].inbox;
      forall i :: 0 <= i < |inbox| && inbox[i] == Bye ==> i == |inbox| - 1
  {
    RunKeeps(xs);
    var s := Run(xs).value;
    if a in s.owner {
      assert PairOk(s.clients[s.owner[a]], s.agents[a]);
    }
  }

  // ----- first come, first served -----

  /** Agents wait in the order of their registration, and those taken came before all that wait. */
  predicate InOrder(s: State) {
    && (forall i :: 0 <= i < |s.ready| ==> s.ready[i] < |s.agents|)
    && (forall i, j :: 0 <= i < j < |s.ready| ==> s.ready[i] < s.ready[j])
    && (forall a, i :: a in s.owner && 0 <= i < |s.ready| ==> a < s.ready[i])
    && (forall a :: a in s.owner ==> a < |s.agents|)
  }

  lemma OrderStays(s: State, x: Action)
    requires InOrder(s) && Enabled(s, x)
    ensures InOrder(Apply(s, x))
  {
    if x.Register? || x.Pair? {
    } else {
      var t := Apply(s, x);
      assert t.ready == s.ready && t.owner == s.owner && |t.agents| >= |s.agents|;
      hide Apply, Enabled;
    }
  }

  /** So a client gets the agent that has waited longest, and every agent that registered waits or was taken. */
  lemma {:induction false} FirstComeFirst(xs: seq<Action>)
    requires Run(xs).Some?
    ensures InOrder(Run(xs).value)
    ensures forall a :: 0 <= a < |Run(xs).value.agents| ==> a in Run(xs).value.ready || a in Run(xs).value.owner
  {
    if xs != [] {
      var s, x := Run(xs[..|xs| - 1]).value, xs[|xs| - 1];
      FirstComeFirst(xs[..|xs| - 1]);
      OrderStays(s, x);
      AllWaitOrTaken(s, x);
      hide Apply, Enabled, InOrder;
    }
  }

  lemma AllWaitOrTaken(s: State, x: Action)
    requires Enabled(s, x) && forall a :: 0 <= a < |s.agents| ==> a in s.ready || a in s.owner
    ensures var t := Apply(s, x); forall a :: 0 <= a < |t.agents| ==> a in t.ready || a in t.owner
  {
    var t := Apply(s, x);
    forall a | 0 <= a < |t.agents| ensures a in t.ready || a in t.owner {
      if x.Register? {
        assert t.ready[|s.ready|] == |s.agents|;
        if a < |s.agents| && a in s.ready {
          var i :| 0 <= i < |s.ready| && s.ready[i] == a;
          assert t.ready[i] == a;
        }
      } else if x.Pair? && a in s.ready {
        var i :| 0 <= i < |s.ready| && s.ready[i] == a;
        assert i > 0 ==> t.ready[i - 1] == a;
      }
    }
  }

  // ----- three sessions -----

  lemma Goes(xs: seq<Action>, s: State, x: Action) returns (longer: seq<Action>, t: State)
    requires Run(xs) == Some(s) && Enabled(s, x)
    ensures longer == xs + [x] && t == Apply(s, x) && Run(longer) == Some(t)
  {
    hide Enabled, Apply;
    longer, t := xs + [x], Apply(s, x);
    assert longer[..|xs|] == xs;
  }

  /** One agent and one client that owns it, if it was paired. */
  function Two(g: Agent, c: Client): State {
    State([g], [c], [], map[0 := 0])
  }

  lemma ReachesPaired() returns (xs: seq<Action>)
    ensures Run(xs) == Some(Two(Agent([], [], true, []), Client(Starting(0), [], [])))
  {
    hide Run;
    RunNothing();
    var s;
    xs, s := Goes([], START, Register);
    xs, s := Goes(xs, s, Open);
    assert s.ready == [0] && s.agents == [Agent([], [], true, [])] && s.clients == [Client(Opening, [], [])];
    xs, s := Goes(xs, s, Pair(0));
    assert s.ready == [] && s.clients == [Client(Starting(0), [], [])];
  }

  lemma RunNothing()
    ensures Run([]) == Some(START)
  {
  }

  /** One step of two. */
  lemma TwoGo(xs: seq<Action>, g: Agent, c: Client, x: Action, g': Agent, c': Client) returns (longer: seq<Action>)
    requires Run(xs) == Some(Two(g, c)) && Enabled(Two(g, c), x)
    requires Apply(Two(g, c), x).agents == [g'] && Apply(Two(g, c), x).clients == [c']
    requires !x.Register? && !x.Open? && !x.Pair?
    ensures Run(longer) == Some(Two(g', c'))
  {
    hide Run, Enabled;
    var t;
    longer, t := Goes(xs, Two(g, c), x);
  }

  lemma Relayed(b: Batch, r: Reply) returns (xs: seq<Action>)
    ensures Run(xs) == Some(Two(Agent([], [r], true, [(b, r)]), Client(Waiting(0), [b], [])))
  {
    hide Run;
    xs := ReachesPaired();
    var g, c := Agent([], [], true, []), Client(Idle(0), [], []);
    xs := TwoGo(xs, g, c.(phase := Starting(0)), Start(0), g, c);
    var sent, waiting := Agent([Work(b)], [], true, []), Client(Waiting(0), [b], []);
    assert g.inbox + [Work(b)] == [Work(b)] && c.batches + [b] == [b];
    xs := TwoGo(xs, g, c, Relay(0, b), sent, waiting);
    assert sent.inbox[1..] == [] && [] + [r] == [r] && sent.answered + [(b, r)] == [(b, r)];
    xs := TwoGo(xs, sent, waiting, Answer(0, r), Agent([], [r], true, [(b, r)]), waiting);
  }

  /** A batch is relayed and its reply delivered, and the agent is told of the end. */
  lemma OneBatch(b: Batch, r: Reply) returns (xs: seq<Action>)
    ensures Run(xs) == Some(Two(Agent([Bye], [], true, [(b, r)]), Client(Finished(0), [b], [r])))
  {
    hide Run;
    xs := Relayed(b, r);
    var g, c := Agent([], [r], true, [(b, r)]), Client(Waiting(0), [b], []);
    assert g.outbox[1..] == [] && c.replies + [r] == [r];
    xs := TwoGo(xs, g, c, Receive(0), g.(outbox := []), c.(phase := Holding(0, r)));
    var idle := Client(Idle(0), [b], [r]);
    xs := TwoGo(xs, g.(outbox := []), c.(phase := Holding(0, r)), Deliver(0), g.(outbox := []), idle);
    assert g.inbox + [Bye] == [Bye];
    xs := TwoGo(xs, g.(outbox := []), idle, Finish(0), g.(outbox := [], inbox := [Bye]), idle.(phase := Finished(0)));
  }

  /** The agent is gone when its client's session starts or ends: it is told nothing. */
  lemma LostAgents() returns (atStart: seq<Action>, atEnd: seq<Action>)
    ensures Run(atStart) == Some(Two(Agent([], [], false, []), Client(Finished(0), [], [])))
    ensures Run(atEnd) == Run(atStart)
  {
    hide Run;
    var xs := ReachesPaired();
    var g, c := Agent([], [], true, []), Client(Starting(0), [], []);
    atStart := TwoGo(xs, g, c, Leave(0), g.(up := false), c);
    atStart := TwoGo(atStart, g.(up := false), c, StartLost(0), g.(up := false), c.(phase := Finished(0)));
    atEnd := TwoGo(xs, g, c, Start(0), g, c.(phase := Idle(0)));
    atEnd := TwoGo(atEnd, g, c.(phase := Idle(0)), Leave(0), g.(up := false), c.(phase := Idle(0)));
    atEnd := TwoGo(atEnd, g.(up := false), c.(phase := Idle(0)), Finish(0), g.(up := false), c.(phase := Finished(0)));
  }

  /** A client that no agent comes for is refused. */
  lemma NoAgent() returns (xs: seq<Action>)
    ensures Run(xs) == Some(State([], [Client(Refused, [], [])], [], map[]))
  {
    hide Run;
    RunNothing();
    var s;
    xs, s := Goes([], START, Open);
    xs, s := Goes(xs, s, Timeout(0));
    assert s.clients == [Client(Refused, [], [])];
  }
}
