/** What the order of a connection's making and ending does. Its watch is started before the connection is stored and
    reported, so it may delete and report it closed first. */
module SessionOrder {
  import opened Words
  import opened SessionLife

  /** The watch has taken the connection out of the table. */
  predicate Deleted(c: Connection) {
    c.watch.Emitting? || Emitted(c)
  }

  /** The table leads to a connection whose process has ended. */
  predicate Stale(s: State, k: nat) {
    k < |s.connections| && Deleted(s.connections[k]) && s.connections[k].id in s.table
    && s.table[s.connections[k].id] == k
  }

  /** All other connections with the id of connection `k` are deleted. */
  predicate Alone(s: State, k: nat)
    requires k < |s.connections|
  {
    forall j | 0 <= j < |s.connections| && j != k && s.connections[j].id == s.connections[k].id ::
      Deleted(s.connections[j])
  }

  /** The table names a connection by its own id, and no other that still lives has that id. */
  predicate EntriesOk(s: State) {
    forall id | id in s.table ::
      && s.table[id] < |s.connections| && s.connections[s.table[id]].id == id
      && Alone(s, s.table[id])
  }

  /** A call that found nothing in the table: its id is not in it until it is stored there. */
  predicate MakerOk(s: State) {
    s.lock.Some? && s.lock.value < |s.connectors| ==>
      var c := s.connectors[s.lock.value];
      && (c.pc.Starting? || c.pc.Spawned? || c.pc.Watched? ==> c.id !in s.table)
      && (c.pc.Starting? ==> forall j | 0 <= j < |s.connections| && s.connections[j].id == c.id ::
            Deleted(s.connections[j]))
      && (c.pc.Spawned? || c.pc.Watched? ==>
            c.pc.k < |s.connections| && s.connections[c.pc.k].id == c.id && Alone(s, c.pc.k))
  }

  /** A connection that still lives is in the table, or about to be. */
  predicate LivingOk(s: State) {
    forall k | 0 <= k < |s.connections| && !Deleted(s.connections[k]) :: Found(s, k)
  }

  predicate Found(s: State, k: nat)
    requires k < |s.connections|
  {
    || (s.connections[k].id in s.table && s.table[s.connections[k].id] == k)
    || (s.lock.Some? && s.lock.value < |s.connectors|
        && (s.connectors[s.lock.value].pc == Spawned(k) || s.connectors[s.lock.value].pc == Watched(k)))
  }

  predicate TableOk(s: State) {
    EntriesOk(s) && MakerOk(s) && LivingOk(s)
  }

  lemma CallKeepsEntries(s: State, i: nat, x: CallStep)
    requires LockOk(s) && MakingOk(s) && TableOk(s)
    requires i < |s.connectors| && CallEnabled(s, s.connectors[i].pc, x)
    ensures EntriesOk(OnCallApply(s, i, x))
  {
    hide LivingOk;
    assert Inside(s.connectors[i].pc) ==> s.lock == Some(i);
    hide LockOk, InPhase;
  }

  lemma CallKeepsMaker(s: State, i: nat, x: CallStep)
    requires LockOk(s) && MakingOk(s) && TableOk(s)
    requires i < |s.connectors| && CallEnabled(s, s.connectors[i].pc, x)
    ensures MakerOk(OnCallApply(s, i, x))
  {
    hide EntriesOk;
    assert Inside(s.connectors[i].pc) ==> s.lock == Some(i);
    hide LockOk, InPhase;
  }

  lemma CallKeepsLiving(s: State, i: nat, x: CallStep)
    requires LockOk(s) && MakingOk(s) && TableOk(s)
    requires i < |s.connectors| && CallEnabled(s, s.connectors[i].pc, x)
    ensures LivingOk(OnCallApply(s, i, x))
  {
    hide EntriesOk, OnCallApply, CallEnabled, Deleted, Found;
    forall k | 0 <= k < |OnCallApply(s, i, x).connections| && !Deleted(OnCallApply(s, i, x).connections[k])
      ensures Found(OnCallApply(s, i, x), k)
    {
      CallKeepsFound(s, i, x, k);
    }
  }

  lemma CallKeepsFound(s: State, i: nat, x: CallStep, k: nat)
    requires LockOk(s) && MakingOk(s) && MakerOk(s)
    requires i < |s.connectors| && CallEnabled(s, s.connectors[i].pc, x)
    requires k < |s.connections| && !Deleted(s.connections[k]) ==> Found(s, k)
    requires k < |OnCallApply(s, i, x).connections| && !Deleted(OnCallApply(s, i, x).connections[k])
    ensures Found(OnCallApply(s, i, x), k)
  {
    assert Inside(s.connectors[i].pc) ==> s.lock == Some(i);
    hide LockOk, InPhase, Alone;
  }

  lemma TaskedDeletes(s: State, c: Connection, x: TaskStep)
    requires TaskEnabled(s, c, x)
    ensures Tasked(c, x).id == c.id && (Deleted(Tasked(c, x)) <==> Deleted(c) || x.Delete?)
    ensures x.Delete? ==> !Deleted(c)
  {
  }

  lemma TaskKeepsTable(s: State, k: nat, x: TaskStep)
    requires TableOk(s) && k < |s.connections| && TaskEnabled(s, s.connections[k], x)
    ensures TableOk(OnTaskApply(s, k, x))
  {
    TaskedDeletes(s, s.connections[k], x);
    hide Tasked, Deleted, TaskEnabled;
  }

  lemma OtherKeepsTable(s: State, x: Action)
    requires LockOk(s) && TableOk(s) && Enabled(s, x) && Other(x)
    ensures TableOk(Apply(s, x))
  {
    hide Deleted, CloserEnabled, NextCloser, Admitted;
  }

  lemma {:induction false} RunKeepsTable(xs: seq<Action>)
    requires Run(xs).Some?
    ensures TableOk(Run(xs).value)
  {
    hide TableOk, Apply, Enabled;
    if xs != [] {
      var s, x := Run(xs[..|xs| - 1]).value, xs[|xs| - 1];
      RunKeepsTable(xs[..|xs| - 1]);
      RunKeeps(xs[..|xs| - 1]);
      StepKeepsTable(s, x);
    } else {
      StartTable();
    }
  }

  lemma StartTable()
    ensures TableOk(START)
  {
  }

  lemma StepKeepsTable(s: State, x: Action)
    requires Inv(s) && TableOk(s) && Enabled(s, x)
    ensures TableOk(Apply(s, x))
  {
    match x
    case OnCall(i, call) =>
      hide EntriesOk, MakerOk, LivingOk, LockOk, MakingOk, OnCallApply, CallEnabled;
      CallKeepsEntries(s, i, call);
      CallKeepsMaker(s, i, call);
      CallKeepsLiving(s, i, call);
    case OnTask(k, task) =>
      hide TableOk, Inv, OnTaskApply, TaskEnabled;
      TaskKeepsTable(s, k, task);
    case _ =>
      hide TableOk;
      OtherKeepsTable(s, x);
  }

  // ----- the table -----

  /** The step stores connection `k` in the table. */
  predicate Stores(s: State, x: Action, k: nat) {
    x.OnCall? && x.call.Store? && Enabled(s, x) && s.connectors[x.i].pc == Watched(k)
  }

  lemma CallStale(s: State, i: nat, x: CallStep, k: nat)
    requires LockOk(s) && MakingOk(s) && TableOk(s)
    requires i < |s.connectors| && CallEnabled(s, s.connectors[i].pc, x)
    ensures Stale(OnCallApply(s, i, x), k) <==>
            Stale(s, k) || (x.Store? && s.connectors[i].pc.k == k && Deleted(s.connections[k]))
  {
    assert Inside(s.connectors[i].pc) ==> s.lock == Some(i);
    hide LockOk, LivingOk, InPhase, Alone, NextPc;
  }

  lemma TaskStale(s: State, j: nat, x: TaskStep, k: nat)
    requires EntriesOk(s) && j < |s.connections| && TaskEnabled(s, s.connections[j], x)
    ensures Stale(OnTaskApply(s, j, x), k) <==> Stale(s, k)
  {
    TaskedDeletes(s, s.connections[j], x);
    hide Tasked, Deleted, TaskEnabled;
  }

  lemma StaleStep(s: State, x: Action, k: nat)
    requires Inv(s) && TableOk(s) && Enabled(s, x)
    ensures Stale(Apply(s, x), k) <==> Stale(s, k) || (Stores(s, x, k) && Deleted(s.connections[k]))
  {
    hide TaskEnabled, CloserEnabled, OnCallApply, OnTaskApply, LockOk, MakingOk, CloserOk, EventsOk,
      EntriesOk, MakerOk, LivingOk;
    match x
    case OnCall(i, call) => CallStale(s, i, call, k);
    case OnTask(j, task) => TaskStale(s, j, task, k);
    case _ => hide Deleted;
  }

  /** One of the steps of a run stores connection `k` when its watch has already taken it out. */
  ghost predicate StoredDead(xs: seq<Action>, m: nat, k: nat)
    requires m < |xs|
  {
    && Run(xs[..m]).Some? && Stores(Run(xs[..m]).value, xs[m], k)
    && k < |Run(xs[..m]).value.connections| && Deleted(Run(xs[..m]).value.connections[k])
  }

  /** The table leads to a dead connection exactly when it was stored after its watch had taken it out, and then for
      the rest of the session. */
  lemma {:induction false} StaleIff(xs: seq<Action>, k: nat)
    requires Run(xs).Some?
    ensures Stale(Run(xs).value, k) <==> exists m | 0 <= m < |xs| :: StoredDead(xs, m, k)
  {
    hide Stale, Stores, Deleted, Enabled, Apply, Inv, TableOk;
    if xs == [] {
      assert !Stale(START, k) by { NoneStale(k); }
    } else {
      var n := |xs| - 1;
      StaleIff(xs[..n], k);
      RunKeeps(xs[..n]);
      RunKeepsTable(xs[..n]);
      StoredInRange(xs[..n], xs[n], k);
      StaleStep(Run(xs[..n]).value, xs[n], k);
      forall m | 0 <= m < n ensures StoredDead(xs, m, k) <==> StoredDead(xs[..n], m, k) {
        assert xs[..n][..m] == xs[..m];
      }
      if StoredDead(xs, n, k) {
      }
    }
  }

  lemma NoneStale(k: nat)
    ensures !Stale(START, k)
  {
  }

  lemma StoredInRange(xs: seq<Action>, x: Action, k: nat)
    requires Run(xs).Some? && Inv(Run(xs).value)
    ensures Stores(Run(xs).value, x, k) ==> k < |Run(xs).value.connections|
  {
  }

  /** Whoever connects by that id from then on is sent to the dead connection. */
  lemma StaleServed(xs: seq<Action>, k: nat, i: nat)
    requires Run(xs).Some? && Stale(Run(xs).value, k) && !Run(xs).value.closed
    requires i < |Run(xs).value.connectors| && Run(xs).value.connectors[i].pc.Held?
    requires Run(xs).value.connectors[i].id == Run(xs).value.connections[k].id
    ensures var s := Run(xs).value;
      && !s.connections[k].process.Running?
      && OnCallApply(s, i, Check).connectors[i].pc == Forwarding
      && OnCallApply(s, i, Check).connections == s.connections
  {
    RunKeeps(xs);
    assert InPhase(Run(xs).value.connections[k]);
  }

  // ----- the events -----

  /** The connection is reported closed before it is reported created. */
  predicate ClosedFirst(events: seq<Event>, k: nat) {
    exists i, j :: 0 <= i < j < |events| && events[i] == ConnectionClosed(k) && events[j] == Created(k)
  }

  lemma {:induction false} OccursIn(events: seq<Event>, e: Event)
    ensures Occurs(events, e) > 0 <==> e in events
  {
    if events != [] {
      OccursIn(events[..|events| - 1], e);
    }
  }

  lemma ClosedFirstAppend(events: seq<Event>, e: Event, k: nat)
    ensures ClosedFirst(events + [e], k) <==>
            ClosedFirst(events, k) || (e == Created(k) && ConnectionClosed(k) in events)
  {
    var longer := events + [e];
    if e == Created(k) && ConnectionClosed(k) in events {
      var i :| 0 <= i < |events| && events[i] == ConnectionClosed(k);
      assert longer[i] == ConnectionClosed(k) && longer[|events|] == Created(k);
    }
    if i, j :| 0 <= i < j < |events| && events[i] == ConnectionClosed(k) && events[j] == Created(k) {
      assert longer[i] == ConnectionClosed(k) && longer[j] == Created(k);
    }
  }

  /** The step reports connection `k` created. */
  predicate Reports(s: State, x: Action, k: nat) {
    x.OnCall? && x.call.ReportCreated? && Enabled(s, x) && s.connectors[x.i].pc == Stored(k)
  }

  /** The only event a step may push. */
  lemma EventPushed(s: State, x: Action, k: nat)
    requires Enabled(s, x)
    ensures Apply(s, x).events == s.events ||
            exists e :: Apply(s, x).events == s.events + [e] && (e == Created(k) <==> Reports(s, x, k))
    ensures Reports(s, x, k) ==> Apply(s, x).events == s.events + [Created(k)]
  {
    hide Connected, Tasked, NextPc, TaskEnabled;
  }

  lemma ClosedFirstStep(s: State, x: Action, k: nat)
    requires Inv(s) && Enabled(s, x)
    ensures ClosedFirst(Apply(s, x).events, k) <==>
            ClosedFirst(s.events, k) || (Reports(s, x, k) && k < |s.connections| && Emitted(s.connections[k]))
  {
    EventPushed(s, x, k);
    OccursIn(s.events, ConnectionClosed(k));
    hide Apply, Enabled, Reports, ClosedFirst, Emitted, LockOk, MakingOk, CloserOk, Occurs;
    if Apply(s, x).events != s.events {
      var e :| Apply(s, x).events == s.events + [e] && (e == Created(k) <==> Reports(s, x, k));
      ClosedFirstAppend(s.events, e, k);
    }
  }

  /** One of the steps of a run reports connection `k` created when its watch has already reported it closed. */
  ghost predicate ReportedLate(xs: seq<Action>, m: nat, k: nat)
    requires m < |xs|
  {
    && Run(xs[..m]).Some? && Reports(Run(xs[..m]).value, xs[m], k)
    && k < |Run(xs[..m]).value.connections| && Emitted(Run(xs[..m]).value.connections[k])
  }

  /** A connection's end is reported before its beginning exactly when the call that makes it comes to its report after
      its watch did. */
  lemma {:induction false} ClosedFirstIff(xs: seq<Action>, k: nat)
    requires Run(xs).Some?
    ensures ClosedFirst(Run(xs).value.events, k) <==> exists m | 0 <= m < |xs| :: ReportedLate(xs, m, k)
  {
    hide Reports, Emitted, Enabled, Apply, Inv;
    if xs != [] {
      hide ClosedFirst;
      var n := |xs| - 1;
      ClosedFirstIff(xs[..n], k);
      RunKeeps(xs[..n]);
      ClosedFirstStep(Run(xs[..n]).value, xs[n], k);
      forall m | 0 <= m < n ensures ReportedLate(xs, m, k) <==> ReportedLate(xs[..n], m, k) {
        assert xs[..n][..m] == xs[..m];
      }
      if ReportedLate(xs, n, k) {
      }
    }
  }

  // ----- a run with both -----

  lemma Goes(xs: seq<Action>, s: State, x: Action) returns (longer: seq<Action>, t: State)
    requires Run(xs) == Some(s) && Enabled(s, x)
    ensures longer == xs + [x] && t == Apply(s, x) && Run(longer) == Some(t)
  {
    hide Enabled, Apply;
    longer, t := xs + [x], Apply(s, x);
    assert longer[..|xs|] == xs;
  }

  /** A call has started the first connection and its watch, and is about to store it. */
  function Midway(id: string, process: ProcessPc, watch: WatchPc, events: seq<Event>): State {
    START.(lock := Some(0), connectors := [Connector(id, Watched(0))],
           connections := [SessionLife.Connection(id, process, watch, false)], waitGroup := 2, events := events)
  }

  lemma ReachesStarting(id: string) returns (xs: seq<Action>)
    ensures Run(xs) == Some(START.(lock := Some(0), connectors := [Connector(id, Starting)]))
  {
    hide Run;
    var s := START;
    xs := [];
    assert Run(xs) == Some(s) by { RunNothing(); }
    xs, s := Goes(xs, s, Call(id));
    xs, s := Goes(xs, s, OnCall(0, Acquire));
    xs, s := Goes(xs, s, OnCall(0, Check));
    assert s.connectors == [Connector(id, Starting)];
  }

  lemma ReachesMidway(id: string) returns (xs: seq<Action>)
    ensures Run(xs) == Some(Midway(id, Running, Receiving, []))
  {
    hide Run;
    xs := ReachesStarting(id);
    var s := START.(lock := Some(0), connectors := [Connector(id, Starting)]);
    xs, s := Goes(xs, s, OnCall(0, StartSucceeds));
    xs, s := Goes(xs, s, OnCall(0, SpawnWatch));
    assert s.connectors == [Connector(id, Watched(0))];
    assert s.connections == [SessionLife.Connection(id, Running, Receiving, false)];
  }

  lemma EndsMeanwhile(id: string) returns (xs: seq<Action>)
    ensures Run(xs) == Some(Midway(id, PReporting, WReporting, [ConnectionClosed(0)]))
  {
    hide Run;
    xs := ReachesMidway(id);
    var s := Midway(id, Running, Receiving, []);
    xs, s := Goes(xs, s, OnTask(0, Exit));
    xs, s := Goes(xs, s, OnTask(0, Handoff));
    xs, s := Goes(xs, s, OnTask(0, Delete));
    xs, s := Goes(xs, s, OnTask(0, EmitClosed));
    assert s.table == map[] && s.events == [ConnectionClosed(0)];
    assert s.connections == [SessionLife.Connection(id, PReporting, WReporting, false)];
  }

  /** The process exits at once, and its watch deletes and reports before the call stores and reports. */
  lemma QuickExit(id: string) returns (xs: seq<Action>)
    ensures Run(xs).Some? && Stale(Run(xs).value, 0) && ClosedFirst(Run(xs).value.events, 0)
  {
    hide Run, ClosedFirst;
    xs := EndsMeanwhile(id);
    var s := Midway(id, PReporting, WReporting, [ConnectionClosed(0)]);
    xs, s := Goes(xs, s, OnCall(0, Store));
    xs, s := Goes(xs, s, OnCall(0, ReportCreated));
    EndsThenBegins(s.events);
  }

  lemma RunNothing()
    ensures Run([]) == Some(START)
  {
  }

  lemma EndsThenBegins(events: seq<Event>)
    requires events == [ConnectionClosed(0), Created(0)]
    ensures ClosedFirst(events, 0)
  {
    assert events[0] == ConnectionClosed(0) && events[1] == Created(0);
  }

  // ----- a whole life -----

  /** A call has made the first connection and has been served. */
  function Served(id: string, process: ProcessPc, watch: WatchPc): State {
    START.(connectors := [Connector(id, Returned)], connections := [SessionLife.Connection(id, process, watch, true)],
           table := map[id := 0], waitGroup := 2, events := [Created(0)])
  }

  lemma ReachesServed(id: string) returns (xs: seq<Action>)
    ensures Run(xs) == Some(Served(id, Running, Receiving))
  {
    hide Run;
    xs := ReachesMidway(id);
    var s := Midway(id, Running, Receiving, []);
    xs, s := Goes(xs, s, OnCall(0, Store));
    xs, s := Goes(xs, s, OnCall(0, ReportCreated));
    xs, s := Goes(xs, s, OnCall(0, Return));
    assert s.connectors == [Connector(id, Returned)] && s.events == [Created(0)];
    assert s.connections == [SessionLife.Connection(id, Running, Receiving, true)];
  }

  /** The session is cancelled, and the closing task waits for the tasks. */
  lemma ReachesWaiting(id: string) returns (xs: seq<Action>)
    ensures Run(xs) == Some(Served(id, Running, Receiving).(closed := true, cancelled := true, closer := GroupWait))
  {
    hide Run, CallEnabled, TaskEnabled, OnCallApply, OnTaskApply;
    xs := ReachesServed(id);
    var s := Served(id, Running, Receiving);
    xs, s := Goes(xs, s, CancelCall);
    xs, s := Goes(xs, s, Close(true));
    xs, s := Goes(xs, s, Close(true));
    xs, s := Goes(xs, s, Close(true));
  }

  function Draining(id: string, process: ProcessPc, watch: WatchPc): State {
    Served(id, process, watch).(closed := true, cancelled := true, closer := GroupWait, table := map[],
                                events := [Created(0), ConnectionClosed(0)])
  }

  lemma ReachesDraining(id: string) returns (xs: seq<Action>)
    ensures Run(xs) == Some(Draining(id, PReporting, WReporting))
  {
    hide Run, CallEnabled, CloserEnabled, OnCallApply, CloserApply;
    xs := ReachesWaiting(id);
    var s := Served(id, Running, Receiving).(closed := true, cancelled := true, closer := GroupWait);
    xs, s := Goes(xs, s, OnTask(0, Exit));
    xs, s := Goes(xs, s, OnTask(0, Handoff));
    xs, s := Goes(xs, s, OnTask(0, Delete));
    xs, s := Goes(xs, s, OnTask(0, EmitClosed));
    assert s.table == map[] && s.events == [Created(0), ConnectionClosed(0)];
    assert s.connections == [SessionLife.Connection(id, PReporting, WReporting, true)];
  }

  lemma ReachesEmpty(id: string) returns (xs: seq<Action>)
    ensures Run(xs) == Some(Draining(id, PGone, WGone).(waitGroup := 0))
  {
    hide Run, CallEnabled, CloserEnabled, OnCallApply, CloserApply;
    xs := ReachesDraining(id);
    var s := Draining(id, PReporting, WReporting);
    xs, s := Goes(xs, s, OnTask(0, SendP));
    xs, s := Goes(xs, s, OnTask(0, DoneP));
    xs, s := Goes(xs, s, OnTask(0, SendW));
    xs, s := Goes(xs, s, OnTask(0, DoneW));
    assert s.connections == [SessionLife.Connection(id, PGone, WGone, true)];
  }

  /** The end of the group is one way to the close, by a cancel. */
  lemma GroupCloses() returns (xs: seq<Action>)
    ensures Run(xs) == Some(START.(groupDone := true, cancelled := true, closer := Cancelling))
  {
    hide Run;
    assert Run([]) == Some(START) by { RunNothing(); }
    var s;
    xs, s := Goes([], START, GroupEnds);
    xs, s := Goes(xs, s, Close(false));
  }

  /** A run in which a connection is made and served, the session is cancelled and everything ends: each is reported
      once in its order, and the GPUs are released. */
  lemma WholeLife(id: string) returns (xs: seq<Action>)
    ensures Run(xs).Some?
    ensures var s := Run(xs).value;
      && s.events == [Created(0), ConnectionClosed(0), SessionClosed] && s.released == 1 && s.closer.Done?
      && s.lock == None && s.waitGroup == 0 && s.table == map[] && s.connectors == [Connector(id, Returned)]
  {
    hide Run, CallEnabled, TaskEnabled, OnCallApply, OnTaskApply;
    xs := ReachesEmpty(id);
    var s := Draining(id, PGone, WGone).(waitGroup := 0);
    xs, s := Goes(xs, s, Close(true));
    xs, s := Goes(xs, s, Close(true));
    xs, s := Goes(xs, s, Close(true));
    xs, s := Goes(xs, s, Close(true));
  }
}
