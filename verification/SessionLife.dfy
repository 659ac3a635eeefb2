/** The life of one agent session: its lock, its connections' tasks, the wait group and error channel of its task
    manager, and its closing goroutine, as a state machine over their atomic steps. */
module SessionLife {
  import opened Words

  /** Where a call of Connect stands. From Held to Forwarding it has the session's lock. */
  datatype ConnectPc =
    | Want
    | Held
    | Starting
    | Spawned(k: nat)
    | Watched(k: nat)
    | Stored(k: nat)
    | Forwarding
    | Returned

  datatype Connector = Connector(id: string, pc: ConnectPc)

  /** Waits for the process and hands its exit code over. */
  datatype ProcessPc = Running | Handing | PReporting | PReported | PGone

  /** Receives the exit code and reports the connection closed. */
  datatype WatchPc = Unborn | Receiving | Deleting | Emitting | WReporting | WReported | WGone

  /** `created` once ConnectionCreated was reported for it. */
  datatype Connection = Connection(id: string, process: ProcessPc, watch: WatchPc, created: bool)

  /** Where the closing task stands: the select, the cancel it makes when its group ends, setting the closed flag,
      then Wait (its context, its wait group, closing the error channel), the release and the report. */
  datatype CloserPc = Select | Cancelling | Setting | CtxWait | GroupWait | Closing | Releasing | Reporting | Done

  datatype Event = Created(k: nat) | ConnectionClosed(k: nat) | SessionClosed

  datatype State = State(
    closed: bool, cancelled: bool, groupDone: bool, lock: Option<nat>,
    connectors: seq<Connector>, connections: seq<Connection>, table: map<string, nat>,
    waitGroup: nat, closer: CloserPc, errorsClosed: bool, released: nat, events: seq<Event>, panicked: bool)

  const START: State :=
    State(false, false, false, None, [], [], map[], 0, Select, false, 0, [], false)

  /** The steps of a call of Connect once made. */
  datatype CallStep =
    | Acquire | Check | StartFails | StartSucceeds | SpawnWatch | Store | ReportCreated | Return

  /** The steps of a connection's two tasks: the process ends, its exit code is handed over, the watch deletes the
      map entry and reports, and each task sends its result and is done. */
  datatype TaskStep = Exit | Handoff | Delete | EmitClosed | SendP | DoneP | SendW | DoneW

  datatype Action =
    | Call(id: string)
    | OnCall(i: nat, call: CallStep)
    | OnTask(k: nat, task: TaskStep)
    | CancelCall
    | GroupEnds
    | Close(own: bool)

  predicate CallEnabled(s: State, pc: ConnectPc, x: CallStep) {
    match x
    case Acquire => pc.Want? && s.lock == None
    case Check => pc.Held?
    case StartFails => pc.Starting?
    case StartSucceeds => pc.Starting?
    case SpawnWatch => pc.Spawned? && pc.k < |s.connections|
    case Store => pc.Watched?
    case ReportCreated => pc.Stored? && pc.k < |s.connections|
    case Return => pc.Forwarding?
  }

  /** A send needs the collector, which runs from the start of Wait until the channel is closed; on the closed
      channel it panics. */
  predicate TaskEnabled(s: State, c: Connection, x: TaskStep) {
    match x
    case Exit => c.process.Running?
    case Handoff => c.process.Handing? && c.watch.Receiving?
    case Delete => c.watch.Deleting?
    case EmitClosed => c.watch.Emitting?
    case SendP => c.process.PReporting? && (Collecting(s) || s.errorsClosed)
    case DoneP => c.process.PReported?
    case SendW => c.watch.WReporting? && (Collecting(s) || s.errorsClosed)
    case DoneW => c.watch.WReported?
  }

  predicate Collecting(s: State) {
    (s.closer.CtxWait? || s.closer.GroupWait? || s.closer.Closing?) && !s.errorsClosed
  }

  /** The select may take its own context's branch or the group's when both are done. */
  predicate CloserEnabled(s: State, own: bool) {
    match s.closer
    case Select => if own then s.cancelled else s.groupDone
    case Cancelling => s.lock == None
    case Setting => s.lock == None
    case CtxWait => s.cancelled
    case GroupWait => s.waitGroup == 0
    case Closing => true
    case Releasing => true
    case Reporting => true
    case Done => false
  }

  predicate Enabled(s: State, x: Action) {
    match x
    case Call(_) => true
    case OnCall(i, call) => i < |s.connectors| && CallEnabled(s, s.connectors[i].pc, call)
    case OnTask(k, task) => k < |s.connections| && TaskEnabled(s, s.connections[k], task)
    case CancelCall => s.lock == None
    case GroupEnds => true
    case Close(own) => CloserEnabled(s, own)
  }

  /** Wait has begun once the closed flag is set and the closer has gone on. */
  predicate WaitBegun(s: State) {
    !s.closer.Select? && !s.closer.Cancelling? && !s.closer.Setting?
  }

  /** Where a call goes. */
  function NextPc(s: State, c: Connector, x: CallStep): ConnectPc
    requires CallEnabled(s, c.pc, x)
  {
    match x
    case Acquire => Held
    case Check => if s.closed then Returned else if c.id in s.table then Forwarding else Starting
    case StartFails => Returned
    case StartSucceeds => Spawned(|s.connections|)
    case SpawnWatch => Watched(c.pc.k)
    case Store => Stored(c.pc.k)
    case ReportCreated => Forwarding
    case Return => Returned
  }

  /** What a call does to the connections. */
  function Connected(s: State, c: Connector, x: CallStep): seq<Connection>
    requires CallEnabled(s, c.pc, x)
  {
    match x
    case StartSucceeds => s.connections + [Connection(c.id, Running, Unborn, false)]
    case SpawnWatch => s.connections[c.pc.k := s.connections[c.pc.k].(watch := Receiving)]
    case ReportCreated => s.connections[c.pc.k := s.connections[c.pc.k].(created := true)]
    case _ => s.connections
  }

  /** A step of a call. A task joins the manager when one starts; after Wait has begun that is a misuse. */
  function OnCallApply(s: State, i: nat, x: CallStep): State
    requires i < |s.connectors| && CallEnabled(s, s.connectors[i].pc, x)
  {
    var c := s.connectors[i];
    var pc := NextPc(s, c, x);
    var joins := x.StartSucceeds? || x.SpawnWatch?;
    s.(connectors := s.connectors[i := c.(pc := pc)],
       lock := if pc.Returned? then None else if x.Acquire? then Some(i) else s.lock,
       connections := Connected(s, c, x),
       table := if x.Store? then s.table[c.id := c.pc.k] else s.table,
       waitGroup := if joins then s.waitGroup + 1 else s.waitGroup,
       events := if x.ReportCreated? then s.events + [Created(c.pc.k)] else s.events,
       panicked := s.panicked || (joins && WaitBegun(s)))
  }

  function Tasked(c: Connection, x: TaskStep): Connection {
    match x
    case Exit => c.(process := Handing)
    case Handoff => c.(process := PReporting, watch := Deleting)
    case Delete => c.(watch := Emitting)
    case EmitClosed => c.(watch := WReporting)
    case SendP => c.(process := PReported)
    case DoneP => c.(process := PGone)
    case SendW => c.(watch := WReported)
    case DoneW => c.(watch := WGone)
  }

  function OnTaskApply(s: State, k: nat, x: TaskStep): State
    requires k < |s.connections|
  {
    var leaves := x.DoneP? || x.DoneW?;
    s.(connections := s.connections[k := Tasked(s.connections[k], x)],
       table := if x.Delete? then s.table - {s.connections[k].id} else s.table,
       waitGroup := if leaves && s.waitGroup > 0 then s.waitGroup - 1 else s.waitGroup,
       events := if x.EmitClosed? then s.events + [ConnectionClosed(k)] else s.events,
       panicked := s.panicked || (leaves && s.waitGroup == 0) || ((x.SendP? || x.SendW?) && s.errorsClosed))
  }

  function NextCloser(pc: CloserPc, own: bool): CloserPc {
    match pc
    case Select => if own then Setting else Cancelling
    case Cancelling => Setting
    case Setting => CtxWait
    case CtxWait => GroupWait
    case GroupWait => Closing
    case Closing => Releasing
    case Releasing => Reporting
    case Reporting => Done
    case Done => Done
  }

  function CloserApply(s: State, own: bool): State {
    s.(closer := NextCloser(s.closer, own),
       closed := s.closed || s.closer.Setting?,
       cancelled := s.cancelled || (s.closer.Cancelling? && !s.closed),
       errorsClosed := s.errorsClosed || s.closer.Closing?,
       released := s.released + if s.closer.Releasing? then 1 else 0,
       events := if s.closer.Reporting? then s.events + [SessionClosed] else s.events)
  }

  /** Cancelling takes and gives back the lock in one step; the group's end ends the session's context with it. */
  function Apply(s: State, x: Action): State
    requires Enabled(s, x)
  {
    match x
    case Call(id) => s.(connectors := s.connectors + [Connector(id, Want)])
    case OnCall(i, call) => OnCallApply(s, i, call)
    case OnTask(k, task) => OnTaskApply(s, k, task)
    case CancelCall => s.(cancelled := s.cancelled || !s.closed)
    case GroupEnds => s.(groupDone := true, cancelled := true)
    case Close(own) => CloserApply(s, own)
  }

  // ----- what holds throughout -----

  function TasksOf(c: Connection): nat {
    (if c.process.PGone? then 0 else 1) + (if c.watch.Unborn? || c.watch.WGone? then 0 else 1)
  }

  function Tasks(cs: seq<Connection>): nat {
    if cs == [] then 0 else Tasks(cs[..|cs| - 1]) + TasksOf(cs[|cs| - 1])
  }

  lemma {:induction false} TasksUpdate(cs: seq<Connection>, k: nat, c: Connection)
    requires k < |cs|
    ensures Tasks(cs[k := c]) == Tasks(cs) - TasksOf(cs[k]) + TasksOf(c)
  {
    var n := |cs| - 1;
    if k == n {
      assert cs[k := c][..n] == cs[..n];
    } else {
      assert cs[k := c][..n] == cs[..n][k := c];
      TasksUpdate(cs[..n], k, c);
    }
  }

  lemma TasksAppend(cs: seq<Connection>, c: Connection)
    ensures Tasks(cs + [c]) == Tasks(cs) + TasksOf(c)
  {
    assert (cs + [c])[..|cs|] == cs;
  }

  lemma {:induction false} NoTasks(cs: seq<Connection>, k: nat)
    requires Tasks(cs) == 0 && k < |cs|
    ensures TasksOf(cs[k]) == 0
  {
    if k < |cs| - 1 {
      NoTasks(cs[..|cs| - 1], k);
    }
  }

  function Occurs(events: seq<Event>, e: Event): nat {
    if events == [] then 0 else Occurs(events[..|events| - 1], e) + if events[|events| - 1] == e then 1 else 0
  }

  lemma OccursAppend(events: seq<Event>, x: Event, e: Event)
    ensures Occurs(events + [x], e) == Occurs(events, e) + if x == e then 1 else 0
  {
    assert (events + [x])[..|events|] == events;
  }

  /** The connection whose report ConnectionCreated is still to come, by the pc of the call that makes it. */
  predicate Making(pc: ConnectPc, k: nat) {
    (pc.Spawned? || pc.Watched? || pc.Stored?) && pc.k == k
  }

  predicate Inside(pc: ConnectPc) {
    !pc.Want? && !pc.Returned?
  }

  /** Past the test of the closed flag, with the lock still held. */
  predicate Admitted(pc: ConnectPc) {
    pc.Starting? || pc.Spawned? || pc.Watched? || pc.Stored?
  }

  /** A connection's tasks go together: the exit code is handed over at once, and the watch is born before. */
  predicate InPhase(c: Connection) {
    && (c.process.Running? || c.process.Handing? <==> c.watch.Unborn? || c.watch.Receiving?)
  }

  predicate Emitted(c: Connection) {
    c.watch.WReporting? || c.watch.WReported? || c.watch.WGone?
  }

  /** The lock is held by the one call that is inside. */
  predicate LockOk(s: State) {
    && (forall i :: 0 <= i < |s.connectors| && Inside(s.connectors[i].pc) ==> s.lock == Some(i))
    && (s.lock.Some? ==> s.lock.value < |s.connectors| && Inside(s.connectors[s.lock.value].pc))
    && (s.closed ==> s.lock.Some? ==> !Admitted(s.connectors[s.lock.value].pc))
  }

  /** What is being made is made by the call that holds the lock; its connection has no watch until then, and a
      connection lacks its watch or its report only while being made. */
  predicate MakingOk(s: State) {
    && (s.lock.Some? && s.lock.value < |s.connectors| ==>
        var pc := s.connectors[s.lock.value].pc;
        && (pc.Spawned? ==> pc.k < |s.connections| && s.connections[pc.k].watch.Unborn?)
        && (pc.Watched? || pc.Stored? ==> pc.k < |s.connections|)
        && (pc.Spawned? || pc.Watched? || pc.Stored? ==> !s.connections[pc.k].created))
    && forall k :: 0 <= k < |s.connections| ==>
      && InPhase(s.connections[k])
      && (!s.connections[k].created ==> BeingMade(s, k))
      && (s.connections[k].watch.Unborn? ==> BeingMade(s, k) && s.connectors[s.lock.value].pc.Spawned?)
  }

  predicate BeingMade(s: State, k: nat) {
    s.lock.Some? && s.lock.value < |s.connectors| && Making(s.connectors[s.lock.value].pc, k)
  }

  predicate CloserOk(s: State) {
    && s.waitGroup == Tasks(s.connections)
    && (s.closed <==> WaitBegun(s))
    && (s.closer.GroupWait? || s.closer.Closing? || s.closer.Releasing? || s.closer.Reporting? || s.closer.Done? ==>
          s.cancelled)
    && (s.closer.Closing? || s.closer.Releasing? || s.closer.Reporting? || s.closer.Done? ==> s.waitGroup == 0)
    && (s.errorsClosed <==> s.closer.Releasing? || s.closer.Reporting? || s.closer.Done?)
    && s.released == (if s.closer.Reporting? || s.closer.Done? then 1 else 0)
    && !s.panicked
  }

  ghost predicate EventsOk(s: State) {
    && (forall k :: 0 <= k < |s.connections| ==>
        && Occurs(s.events, Created(k)) == (if s.connections[k].created then 1 else 0)
        && Occurs(s.events, ConnectionClosed(k)) == (if Emitted(s.connections[k]) then 1 else 0))
    && (forall k :: k >= |s.connections| ==> Occurs(s.events, Created(k)) == Occurs(s.events, ConnectionClosed(k)) == 0)
    && Occurs(s.events, SessionClosed) == (if s.closer.Done? then 1 else 0)
    && (s.closer.Done? ==> s.events != [] && s.events[|s.events| - 1] == SessionClosed)
  }

  ghost predicate Inv(s: State) {
    LockOk(s) && MakingOk(s) && CloserOk(s) && EventsOk(s)
  }

  // ----- calls -----

  lemma CallKeepsLock(s: State, i: nat, x: CallStep)
    requires LockOk(s) && i < |s.connectors| && CallEnabled(s, s.connectors[i].pc, x)
    ensures LockOk(OnCallApply(s, i, x))
  {
    hide Connected;
  }

  lemma CallKeepsMaking(s: State, i: nat, x: CallStep)
    requires LockOk(s) && MakingOk(s) && i < |s.connectors| && CallEnabled(s, s.connectors[i].pc, x)
    ensures MakingOk(OnCallApply(s, i, x))
  {
  }

  lemma CallTasks(s: State, c: Connector, x: CallStep)
    requires CallEnabled(s, c.pc, x) && (x.SpawnWatch? ==> s.connections[c.pc.k].watch.Unborn?)
    ensures Tasks(Connected(s, c, x)) == Tasks(s.connections) + if x.StartSucceeds? || x.SpawnWatch? then 1 else 0
  {
    if x.StartSucceeds? {
      TasksAppend(s.connections, Connection(c.id, Running, Unborn, false));
    } else if x.SpawnWatch? || x.ReportCreated? {
      TasksUpdate(s.connections, c.pc.k, Connected(s, c, x)[c.pc.k]);
    }
  }

  lemma CallKeepsCloser(s: State, i: nat, x: CallStep)
    requires LockOk(s) && MakingOk(s) && CloserOk(s) && i < |s.connectors| && CallEnabled(s, s.connectors[i].pc, x)
    ensures CloserOk(OnCallApply(s, i, x))
  {
    var pc := s.connectors[i].pc;
    assert Inside(pc) ==> s.lock == Some(i);
    CallTasks(s, s.connectors[i], x);
    hide Tasks, Connected, MakingOk, NextPc;
  }

  lemma CallKeepsEvents(s: State, i: nat, x: CallStep)
    requires LockOk(s) && MakingOk(s) && CloserOk(s) && EventsOk(s)
    requires i < |s.connectors| && CallEnabled(s, s.connectors[i].pc, x)
    ensures EventsOk(OnCallApply(s, i, x))
  {
    assert Inside(s.connectors[i].pc) ==> s.lock == Some(i);
    if x.ReportCreated? {
      ReportedCreated(s, i);
    } else {
      hide Occurs, NextPc, MakingOk, CloserOk, LockOk;
    }
  }

  lemma ReportedCreated(s: State, i: nat)
    requires LockOk(s) && MakingOk(s) && CloserOk(s) && EventsOk(s)
    requires i < |s.connectors| && CallEnabled(s, s.connectors[i].pc, ReportCreated)
    ensures EventsOk(OnCallApply(s, i, ReportCreated))
  {
    var k := s.connectors[i].pc.k;
    assert s.lock == Some(i) && !s.closed && !s.connections[k].created;
    forall e ensures Occurs(s.events + [Created(k)], e) == Occurs(s.events, e) + if e == Created(k) then 1 else 0 {
      OccursAppend(s.events, Created(k), e);
    }
    hide Occurs, MakingOk, LockOk;
  }

  // ----- tasks -----

  lemma TaskedIs(c: Connection, x: TaskStep, s: State)
    requires InPhase(c) && TaskEnabled(s, c, x)
    ensures var d := Tasked(c, x);
      && InPhase(d) && d.created == c.created && (d.watch.Unborn? <==> c.watch.Unborn?)
      && TasksOf(c) == TasksOf(d) + (if x.DoneP? || x.DoneW? then 1 else 0)
      && (x.SendP? || x.SendW? || x.EmitClosed? ==> TasksOf(c) > 0)
      && (if x.EmitClosed? then Emitted(d) && !Emitted(c) else Emitted(d) == Emitted(c))
  {
  }

  lemma TaskKeepsLock(s: State, k: nat, x: TaskStep)
    requires LockOk(s) && k < |s.connections|
    ensures LockOk(OnTaskApply(s, k, x))
  {
    hide Tasked;
  }

  lemma TaskKeepsMaking(s: State, k: nat, x: TaskStep)
    requires MakingOk(s) && k < |s.connections| && TaskEnabled(s, s.connections[k], x)
    ensures MakingOk(OnTaskApply(s, k, x))
  {
    TaskedIs(s.connections[k], x, s);
    hide TaskEnabled, Tasked, InPhase, TasksOf, Emitted;
  }

  lemma TaskKeepsCloser(s: State, k: nat, x: TaskStep)
    requires MakingOk(s) && CloserOk(s) && k < |s.connections| && TaskEnabled(s, s.connections[k], x)
    ensures CloserOk(OnTaskApply(s, k, x))
  {
    TaskedIs(s.connections[k], x, s);
    TasksUpdate(s.connections, k, Tasked(s.connections[k], x));
    if s.waitGroup == 0 {
      NoTasks(s.connections, k);
    }
    hide Tasks, TasksOf, TaskEnabled, Tasked, MakingOk, InPhase, Emitted;
  }

  lemma ReportedClosed(s: State, k: nat)
    requires MakingOk(s) && CloserOk(s) && EventsOk(s)
    requires k < |s.connections| && TaskEnabled(s, s.connections[k], EmitClosed)
    ensures EventsOk(OnTaskApply(s, k, EmitClosed))
  {
    TaskedIs(s.connections[k], EmitClosed, s);
    if s.closer.Done? {
      NoTasks(s.connections, k);
    }
    forall e
      ensures Occurs(s.events + [ConnectionClosed(k)], e) ==
              Occurs(s.events, e) + if e == ConnectionClosed(k) then 1 else 0
    {
      OccursAppend(s.events, ConnectionClosed(k), e);
    }
    hide Occurs, Tasks, TasksOf, TaskEnabled, Tasked, MakingOk, InPhase, Emitted;
  }

  lemma TaskKeepsEvents(s: State, k: nat, x: TaskStep)
    requires MakingOk(s) && CloserOk(s) && EventsOk(s) && k < |s.connections| && TaskEnabled(s, s.connections[k], x)
    ensures EventsOk(OnTaskApply(s, k, x))
  {
    if x.EmitClosed? {
      ReportedClosed(s, k);
    } else {
      TaskedIs(s.connections[k], x, s);
      hide Occurs, CloserOk, TasksOf, TaskEnabled, Tasked, MakingOk, InPhase, Emitted;
    }
  }

  // ----- the closer and the rest -----

  predicate Other(x: Action) {
    !x.OnCall? && !x.OnTask?
  }

  lemma CallMadeKeeps(s: State, id: string)
    requires LockOk(s) && MakingOk(s)
    ensures LockOk(Apply(s, Call(id))) && MakingOk(Apply(s, Call(id)))
  {
    hide InPhase;
  }

  /** The rest leave the calls and the connections alone, and the closed flag is set only with the lock free. */
  lemma OtherFrame(s: State, x: Action)
    requires Enabled(s, x) && Other(x) && !x.Call?
    ensures var t := Apply(s, x);
      && t.connectors == s.connectors && t.lock == s.lock && t.connections == s.connections
      && (t.closed == s.closed || t.lock == None)
      && (if x.Close? && s.closer.Reporting? then t.events == s.events + [SessionClosed] && t.closer == Done
          else t.events == s.events && t.closer.Done? == s.closer.Done?)
  {
  }

  lemma OtherKeepsLock(s: State, x: Action)
    requires LockOk(s) && MakingOk(s) && Enabled(s, x) && Other(x)
    ensures LockOk(Apply(s, x)) && MakingOk(Apply(s, x))
  {
    if x.Call? {
      CallMadeKeeps(s, x.id);
    } else {
      OtherFrame(s, x);
      hide Apply, Enabled, InPhase, Inside, Making, Admitted;
    }
  }

  lemma OtherKeepsCloser(s: State, x: Action)
    requires CloserOk(s) && Enabled(s, x) && Other(x)
    ensures CloserOk(Apply(s, x))
  {
    hide Tasks;
  }

  lemma OtherKeepsEvents(s: State, x: Action)
    requires EventsOk(s) && CloserOk(s) && Enabled(s, x) && Other(x)
    ensures EventsOk(Apply(s, x))
  {
    if !x.Call? {
      OtherFrame(s, x);
      assert x.Close? ==> !s.closer.Done?;
      hide Apply, Enabled;
      forall e
        ensures Occurs(s.events + [SessionClosed], e) == Occurs(s.events, e) + if e == SessionClosed then 1 else 0
      {
        OccursAppend(s.events, SessionClosed, e);
      }
    }
    hide Occurs, CloserOk, Emitted;
  }

  lemma Keeps(s: State, x: Action)
    requires Inv(s) && Enabled(s, x)
    ensures Inv(Apply(s, x))
  {
    hide OnCallApply, OnTaskApply, CloserApply, LockOk, MakingOk, CloserOk, EventsOk, CallEnabled, TaskEnabled,
      CloserEnabled;
    match x
    case OnCall(i, call) =>
      CallKeepsLock(s, i, call);
      CallKeepsMaking(s, i, call);
      CallKeepsCloser(s, i, call);
      CallKeepsEvents(s, i, call);
    case OnTask(k, task) =>
      TaskKeepsLock(s, k, task);
      TaskKeepsMaking(s, k, task);
      TaskKeepsCloser(s, k, task);
      TaskKeepsEvents(s, k, task);
    case _ =>
      OtherKeepsLock(s, x);
      OtherKeepsCloser(s, x);
      OtherKeepsEvents(s, x);
  }

  // ----- runs -----

  /** The state after a run, or None when some step of it was not enabled. */
  function Run(xs: seq<Action>): Option<State> {
    if xs == [] then Some(START) else
    match Run(xs[..|xs| - 1])
    case None => None
    case Some(s) => if Enabled(s, xs[|xs| - 1]) then Some(Apply(s, xs[|xs| - 1])) else None
  }

  lemma {:induction false} RunKeeps(xs: seq<Action>)
    requires Run(xs).Some?
    ensures Inv(Run(xs).value)
  {
    if xs != [] {
      RunKeeps(xs[..|xs| - 1]);
      Keeps(Run(xs[..|xs| - 1]).value, xs[|xs| - 1]);
    } else {
      assert Occurs([], SessionClosed) == 0;
    }
  }

  /** In no interleaving does a task join the manager after its Wait has begun, is the counter taken below zero, or
      does a task send on the closed error channel. */
  lemma NeverPanics(xs: seq<Action>)
    requires Run(xs).Some?
    ensures !Run(xs).value.panicked
  {
    RunKeeps(xs);
  }

  /** The same of the steps that may come next: none that adds a task is possible once Wait has begun, none that leaves
      the wait group while it is empty, and a result is sent only to a collector that is there. */
  lemma NoPanicNext(xs: seq<Action>, x: Action)
    requires Run(xs).Some? && Enabled(Run(xs).value, x)
    ensures var s := Run(xs).value;
      && (x.OnCall? && (x.call.StartSucceeds? || x.call.SpawnWatch?) ==> !s.closed)
      && (x.OnCall? && (x.call.StartSucceeds? || x.call.SpawnWatch?) ==> s.closer in {Select, Cancelling, Setting})
      && (x.OnTask? && (x.task.DoneP? || x.task.DoneW?) ==> s.waitGroup > 0)
      && (x.OnTask? && (x.task.SendP? || x.task.SendW?) ==>
          !s.errorsClosed && s.closer in {CtxWait, GroupWait, Closing})
  {
    RunKeeps(xs);
    var s := Run(xs).value;
    if x.OnTask? && s.waitGroup == 0 {
      NoTasks(s.connections, x.k);
    }
    hide Tasks, MakingOk, EventsOk;
  }

  /** While a call has the lock, nobody sets the closed flag, and nothing but the end of the group ends the context. */
  lemma LockProtects(xs: seq<Action>, x: Action)
    requires Run(xs).Some? && Enabled(Run(xs).value, x) && Run(xs).value.lock.Some?
    ensures var s, t := Run(xs).value, Apply(Run(xs).value, x);
      && t.closed == s.closed && (t.cancelled != s.cancelled ==> x.GroupEnds?)
      && (t.lock != s.lock ==> x.OnCall? && s.lock == Some(x.i) && t.lock == None && t.connectors[x.i].pc.Returned?)
  {
    RunKeeps(xs);
    hide MakingOk, CloserOk, EventsOk, Connected, Tasked;
  }

  /** What the closing task knows of the contexts. */
  predicate ClosesWhenEnded(s: State) {
    && (s.groupDone ==> s.cancelled)
    && (!s.closer.Select? ==> s.cancelled)
    && (s.closer.Cancelling? ==> s.groupDone)
  }

  /** The close begins only when the context has ended, and cancels it only when the group has. */
  lemma {:induction false} ClosesOnlyWhenEnded(xs: seq<Action>)
    requires Run(xs).Some?
    ensures ClosesWhenEnded(Run(xs).value)
  {
    if xs != [] {
      ClosesOnlyWhenEnded(xs[..|xs| - 1]);
      EndedStays(Run(xs[..|xs| - 1]).value, xs[|xs| - 1]);
      hide Apply, Enabled;
    }
  }

  lemma EndedStays(s: State, x: Action)
    requires ClosesWhenEnded(s) && Enabled(s, x)
    ensures ClosesWhenEnded(Apply(s, x))
  {
    hide CallEnabled, TaskEnabled, Connected, Tasked, NextPc;
  }

  lemma AllEnded(s: State, k: nat)
    requires Inv(s) && s.closed && s.waitGroup == 0 && k < |s.connections|
    ensures var c := s.connections[k]; c.process.PGone? && c.watch.WGone? && c.created && Emitted(c)
  {
    NoTasks(s.connections, k);
    assert InPhase(s.connections[k]);
  }

  /** The GPUs are released at most once, and when they are every connection's tasks have ended and its closing
      was reported. */
  lemma ReleasedOnceAfterAll(xs: seq<Action>, k: nat)
    requires Run(xs).Some?
    ensures var s := Run(xs).value;
      && s.released <= 1
      && (s.released == 1 && k < |s.connections| ==>
          var c := s.connections[k];
          c.process.PGone? && c.watch.WGone? && c.created && Emitted(c))
  {
    RunKeeps(xs);
    var s := Run(xs).value;
    if s.released == 1 && k < |s.connections| {
      AllEnded(s, k);
    }
  }

  /** ConnectionCreated and ConnectionClosed are each reported at most once per connection, and SessionClosed at most
      once; when it was, it is the last event and every connection was reported both created and closed. */
  lemma SessionClosedLast(xs: seq<Action>, k: nat)
    requires Run(xs).Some?
    ensures var s := Run(xs).value;
      && Occurs(s.events, SessionClosed) <= 1 && Occurs(s.events, Created(k)) <= 1
      && Occurs(s.events, ConnectionClosed(k)) <= 1
      && (s.closer.Done? <==> Occurs(s.events, SessionClosed) == 1)
      && (s.closer.Done? ==>
          && s.events[|s.events| - 1] == SessionClosed && s.released == 1
          && Occurs(s.events, Created(k)) == Occurs(s.events, ConnectionClosed(k)) ==
             if k < |s.connections| then 1 else 0)
  {
    RunKeeps(xs);
    var s := Run(xs).value;
    if s.closer.Done? && k < |s.connections| {
      AllEnded(s, k);
    }
  }

  /** The step ends the session's context: the end of its group does, and a cancel while the session is open, be it by
      a caller or by the closing task. */
  predicate Ends(s: State, x: Action) {
    x.GroupEnds? || (!s.closed && (x.CancelCall? || (x.Close? && s.closer.Cancelling?)))
  }

  lemma EndsContext(s: State, x: Action)
    requires Enabled(s, x)
    ensures Apply(s, x).cancelled <==> s.cancelled || Ends(s, x)
  {
    hide CallEnabled, TaskEnabled, Connected, Tasked, NextPc;
  }

  predicate EndedAt(xs: seq<Action>, m: nat)
    requires m < |xs|
  {
    Run(xs[..m]).Some? && Ends(Run(xs[..m]).value, xs[m])
  }

  /** The context has ended exactly when one of the steps ended it, and then for good. A cancel of a session that is
      open is such a step. */
  lemma {:induction false} CancelledIff(xs: seq<Action>)
    requires Run(xs).Some?
    ensures Run(xs).value.cancelled <==> exists m | 0 <= m < |xs| :: EndedAt(xs, m)
  {
    hide Apply, Enabled, Ends;
    if xs != [] {
      var n := |xs| - 1;
      EndsContext(Run(xs[..n]).value, xs[n]);
      assert EndedAt(xs, n) <==> Ends(Run(xs[..n]).value, xs[n]);
      CancelledIff(xs[..n]);
      forall m | 0 <= m < n ensures EndedAt(xs, m) <==> EndedAt(xs[..n], m) {
        assert xs[..n][..m] == xs[..m];
      }
      hide EndedAt;
    }
  }

  // ----- no deadlock -----

  /** The steps that bring the close on: the closer's own, those of a call inside the lock, and those of tasks. */
  predicate Advances(s: State, x: Action) {
    x.Close? || x.OnTask? || (x.OnCall? && !x.call.Acquire?)
  }

  lemma {:induction false} SomeTask(cs: seq<Connection>) returns (k: nat)
    requires Tasks(cs) > 0
    ensures k < |cs| && TasksOf(cs[k]) > 0
  {
    var n := |cs| - 1;
    if TasksOf(cs[n]) > 0 {
      k := n;
    } else {
      k := SomeTask(cs[..n]);
    }
  }

  lemma HolderMoves(s: State) returns (x: Action)
    requires LockOk(s) && MakingOk(s) && s.lock.Some?
    ensures Enabled(s, x) && Advances(s, x)
  {
    var i := s.lock.value;
    x := OnCall(i, match s.connectors[i].pc
                   case Held => Check
                   case Starting => StartSucceeds
                   case Spawned(_) => SpawnWatch
                   case Watched(_) => Store
                   case Stored(_) => ReportCreated
                   case _ => Return);
  }

  lemma TaskMoves(s: State, k: nat) returns (x: Action)
    requires LockOk(s) && MakingOk(s) && s.closed && Collecting(s)
    requires k < |s.connections| && TasksOf(s.connections[k]) > 0
    ensures Enabled(s, x) && Advances(s, x)
  {
    var c := s.connections[k];
    assert !c.watch.Unborn? && InPhase(c);
    x := OnTask(k, match c.process
                   case Running => Exit
                   case Handing => Handoff
                   case PReporting => SendP
                   case PReported => DoneP
                   case PGone =>
                     match c.watch
                     case Deleting => Delete
                     case Emitting => EmitClosed
                     case WReporting => SendW
                     case _ => DoneW);
  }

  /** Once the session's context has ended, its close cannot deadlock: until SessionClosed is reported, a step that
      brings it on is enabled, though it may be one that waits for a process to exit. */
  lemma NeverStuck(xs: seq<Action>) returns (x: Action)
    requires Run(xs).Some? && Run(xs).value.cancelled && !Run(xs).value.closer.Done?
    ensures Enabled(Run(xs).value, x) && Advances(Run(xs).value, x)
  {
    RunKeeps(xs);
    var s := Run(xs).value;
    if s.lock.Some? {
      x := HolderMoves(s);
    } else if s.closer.GroupWait? && s.waitGroup > 0 {
      var k := SomeTask(s.connections);
      x := TaskMoves(s, k);
    } else {
      x := Close(true);
    }
  }
}
