/** The agent's own task manager at shutdown. Its Wait runs in the agent's task; the once-a-second tick, in a task of
    the group that started the agent, adds a task for every session it registers. The manager's context is a child of
    the group's: it ends with it, and by itself when one of the manager's tasks fails. A state machine over the atomic
    steps of both. */
module AgentTasks {
  import opened Words

  /** Where Wait stands: at its context, at its wait group, before the closing of its error channel, at the result. */
  datatype WaiterPc = CtxWait | GroupWait | Closing | Done

  /** The tick rests, or has read the controller and has sessions left to register, or has ended. */
  datatype TickPc = Idle | Polled(todo: nat) | Ended

  /** A session's task runs, has its result to send, has sent it, has left the wait group, or has sent on the closed
      channel. */
  datatype TaskPc = Running | Reporting | Reported | Gone | Crashed

  /** `joined` is where Wait stood when the task was added. */
  datatype Task = Task(pc: TaskPc, joined: WaiterPc)

  datatype State = State(groupDone: bool, managerDone: bool, tick: TickPc, waiter: WaiterPc, waitGroup: nat,
                         errorsClosed: bool, tasks: seq<Task>, panicked: bool)

  const START: State := State(false, false, Idle, CtxWait, 0, false, [], false)

  datatype Action =
    | GroupEnds
    | Poll(n: nat)       // the request to the controller carries the group's context
    | Register           // taskManager.Go for a session
    | Spawn(i: nat)      // the session's task adds its closing task
    | TickDone
    | TickEnds           // on the end of the group's context, or because a request failed
    | WaitGoesOn
    | Finish(i: nat, failed: bool)
    | Send(i: nat)
    | Leave(i: nat)

  /** Added before Wait went past its wait group. */
  predicate OnTime(t: Task) {
    t.joined.CtxWait? || t.joined.GroupWait?
  }

  predicate Enabled(s: State, a: Action) {
    && !s.panicked
    && match a
       case GroupEnds => true
       case Poll(_) => s.tick.Idle? && !s.groupDone
       case Register => s.tick.Polled? && s.tick.todo > 0
       case Spawn(i) => i < |s.tasks| && s.tasks[i].pc.Running?
       case TickDone => s.tick == Polled(0)
       case TickEnds => !s.tick.Ended? && (s.tick.Polled? ==> s.tick.todo == 0)
       case WaitGoesOn =>
         (match s.waiter
          case CtxWait => s.managerDone
          case GroupWait => s.waitGroup == 0
          case Closing => true
          case Done => false)
       case Finish(i, _) => i < |s.tasks| && s.tasks[i].pc.Running?
       case Send(i) => i < |s.tasks| && s.tasks[i].pc.Reporting?
       case Leave(i) => i < |s.tasks| && s.tasks[i].pc.Reported?
  }

  function SetPc(s: State, i: nat, pc: TaskPc): State
    requires i < |s.tasks|
  {
    s.(tasks := s.tasks[i := s.tasks[i].(pc := pc)])
  }

  function Joined(s: State): State {
    s.(waitGroup := s.waitGroup + 1, tasks := s.tasks + [Task(Running, s.waiter)])
  }

  /** A task that fails cancels its manager's context, and the tick's end its group's. A send finds the collector until
      the channel is closed, and then panics. */
  function Apply(s: State, a: Action): State
    requires Enabled(s, a)
  {
    match a
    case GroupEnds => s.(groupDone := true, managerDone := true)
    case Poll(n) => s.(tick := Polled(n))
    case Register => Joined(s).(tick := Polled(s.tick.todo - 1))
    case Spawn(_) => Joined(s)
    case TickDone => s.(tick := Idle)
    case TickEnds => s.(tick := Ended, groupDone := true, managerDone := true)
    case WaitGoesOn =>
      (match s.waiter
       case CtxWait => s.(waiter := GroupWait)
       case GroupWait => s.(waiter := Closing)
       case Closing => s.(waiter := Done, errorsClosed := true)
       case Done => s)
    case Finish(i, failed) => SetPc(s, i, Reporting).(managerDone := s.managerDone || failed)
    case Send(i) =>
      if s.errorsClosed then SetPc(s, i, Crashed).(panicked := true) else SetPc(s, i, Reported)
    case Leave(i) => SetPc(s, i, Gone).(waitGroup := if s.waitGroup > 0 then s.waitGroup - 1 else 0)
  }

  function Present(tasks: seq<Task>): nat {
    if tasks == [] then 0
    else Present(tasks[..|tasks| - 1]) + if tasks[|tasks| - 1].pc.Gone? then 0 else 1
  }

  lemma {:induction false} PresentSet(tasks: seq<Task>, i: nat, t: Task)
    requires i < |tasks|
    ensures Present(tasks[i := t]) ==
            Present(tasks) - (if tasks[i].pc.Gone? then 0 else 1) + (if t.pc.Gone? then 0 else 1)
  {
    var last := |tasks| - 1;
    if i == last {
      assert tasks[i := t][..last] == tasks[..last];
    } else {
      PresentSet(tasks[..last], i, t);
      assert tasks[i := t][..last] == tasks[..last][i := t];
    }
  }

  lemma {:induction false} PresentNone(tasks: seq<Task>, i: nat)
    requires Present(tasks) == 0 && i < |tasks|
    ensures tasks[i].pc.Gone?
  {
    if i < |tasks| - 1 {
      PresentNone(tasks[..|tasks| - 1], i);
    }
  }

  predicate PastGroup(s: State) {
    s.waiter.Closing? || s.waiter.Done?
  }

  /** Wait has come as far as `pc`. */
  predicate Passed(s: State, pc: WaiterPc) {
    match pc
    case CtxWait => true
    case GroupWait => !s.waiter.CtxWait?
    case Closing => PastGroup(s)
    case Done => s.waiter.Done?
  }

  /** The wait group counts the tasks that have not left; once Wait is past it, all that were added in time have. */
  predicate Inv(s: State) {
    && (s.groupDone ==> s.managerDone)
    && (!s.waiter.CtxWait? ==> s.managerDone)
    && (forall i | 0 <= i < |s.tasks| :: Passed(s, s.tasks[i].joined))
    && s.waitGroup == Present(s.tasks)
    && (s.errorsClosed <==> s.waiter.Done?)
    && (PastGroup(s) ==> forall i | 0 <= i < |s.tasks| && OnTime(s.tasks[i]) :: s.tasks[i].pc.Gone?)
    && (s.panicked <==> exists i :: 0 <= i < |s.tasks| && s.tasks[i].pc.Crashed?)
    && (forall i | 0 <= i < |s.tasks| && s.tasks[i].pc.Crashed? :: !OnTime(s.tasks[i]))
  }

  lemma JoinKeeps(s: State)
    requires Inv(s)
    ensures Inv(Joined(s))
  {
    assert Joined(s).tasks[..|s.tasks|] == s.tasks;
    hide Present;
  }

  lemma Keeps(s: State, a: Action)
    requires Inv(s) && Enabled(s, a)
    ensures Inv(Apply(s, a))
  {
    match a
    case Register => JoinKeeps(s);
    case Spawn(_) => JoinKeeps(s);
    case WaitGoesOn =>
      if s.waiter.GroupWait? {
        forall i | 0 <= i < |s.tasks| ensures s.tasks[i].pc.Gone? {
          PresentNone(s.tasks, i);
        }
      }
      hide Present;
    case Finish(i, _) => PcKeeps(s, a, i, Reporting);
    case Send(i) => PcKeeps(s, a, i, if s.errorsClosed then Crashed else Reported);
    case Leave(i) => PcKeeps(s, a, i, Gone);
    case _ => hide Present;
  }

  lemma PcKeeps(s: State, a: Action, i: nat, pc: TaskPc)
    requires Inv(s) && Enabled(s, a) && i < |s.tasks|
    requires a.Finish? || a.Send? || a.Leave?
    requires a.i == i && Apply(s, a).tasks == SetPc(s, i, pc).tasks
    requires pc.Crashed? ==> a.Send? && s.errorsClosed
    requires pc.Gone? <==> a.Leave?
    requires a.Send? && s.errorsClosed ==> pc.Crashed?
    ensures Inv(Apply(s, a))
  {
    PresentSet(s.tasks, i, s.tasks[i].(pc := pc));
    var after := Apply(s, a);
    assert after.tasks[i].pc == pc && !s.tasks[i].pc.Crashed? && !s.tasks[i].pc.Gone?;
    assert forall j | 0 <= j < |s.tasks| && j != i :: after.tasks[j] == s.tasks[j];
    hide Present;
  }

  ghost predicate Step(s: State, t: State) {
    exists a :: Enabled(s, a) && t == Apply(s, a)
  }

  ghost predicate Run(run: seq<State>) {
    run != [] && run[0] == START && forall k | 0 <= k < |run| - 1 :: Step(run[k], run[k + 1])
  }

  lemma {:induction false} Reachable(run: seq<State>, k: nat)
    requires Run(run) && k < |run|
    ensures Inv(run[k])
  {
    if k > 0 {
      Reachable(run, k - 1);
      assert Step(run[k - 1], run[k]);
      var a :| Enabled(run[k - 1], a) && run[k] == Apply(run[k - 1], a);
      hide Inv;
      Keeps(run[k - 1], a);
    }
  }

  /** In every run: what becomes of a task's result is settled by where Wait stood when the task was added. Before it
      went past its wait group, the channel is still open; after it closed the channel, the send panics; in between, it
      panics if Wait has gone on by then. */
  lemma SendPanicsIff(run: seq<State>, k: nat, i: nat)
    requires Run(run) && k < |run| && i < |run[k].tasks| && Enabled(run[k], Send(i))
    ensures Apply(run[k], Send(i)).panicked <==>
              run[k].tasks[i].joined.Done? || (run[k].tasks[i].joined.Closing? && run[k].waiter.Done?)
    ensures OnTime(run[k].tasks[i]) ==> !PastGroup(run[k])
  {
    Reachable(run, k);
    hide Present;
  }

  /** The tick's context never ends before that of the task manager, and Wait begins to wait for the tasks only after
      that. */
  lemma ContextsNest(run: seq<State>, k: nat)
    requires Run(run) && k < |run|
    ensures run[k].groupDone || !run[k].waiter.CtxWait? ==> run[k].managerDone
  {
    Reachable(run, k);
    hide Present;
  }

  /** A task added by a task that was itself added in time is in time too. */
  lemma SpawnedOnTime(run: seq<State>, k: nat, i: nat)
    requires Run(run) && k < |run| && Enabled(run[k], Spawn(i)) && OnTime(run[k].tasks[i])
    ensures OnTime(Apply(run[k], Spawn(i)).tasks[|run[k].tasks|])
  {
    Reachable(run, k);
    hide Present;
  }

  /** A run has panicked exactly when a task sent on the closed channel, and that task was added too late. */
  lemma PanicsOnlyLate(run: seq<State>, k: nat)
    requires Run(run) && k < |run|
    ensures run[k].panicked <==> exists i :: 0 <= i < |run[k].tasks| && run[k].tasks[i].pc.Crashed?
    ensures forall i | 0 <= i < |run[k].tasks| && run[k].tasks[i].pc.Crashed? :: !OnTime(run[k].tasks[i])
  {
    Reachable(run, k);
    hide Present;
  }

  /** A tick that has sessions left registers them all before it does anything else. */
  lemma TickGoesOn(run: seq<State>, k: nat)
    requires Run(run) && k + 1 < |run| && run[k].tick.Polled? && run[k].tick.todo > 0
    ensures run[k + 1].tick == run[k].tick || run[k + 1].tick == Polled(run[k].tick.todo - 1)
  {
    assert Step(run[k], run[k + 1]);
  }

  /** Once the group's context has ended and the tick has nothing left to register, it reads no more from the
      controller. */
  lemma {:induction false} NoPollAfterEnd(run: seq<State>, j: nat, k: nat)
    requires Run(run) && j <= k < |run| && run[j].groupDone
    requires !run[j].tick.Polled? || run[j].tick.todo == 0
    ensures run[k].groupDone && (!run[k].tick.Polled? || run[k].tick.todo == 0)
    decreases k
  {
    if j < k {
      NoPollAfterEnd(run, j, k - 1);
      assert Step(run[k - 1], run[k]);
    }
  }

  /** A tick that has ended stays so, and with it the group has. */
  lemma {:induction false} EndedForGood(run: seq<State>, j: nat, k: nat)
    requires Run(run) && j <= k < |run| && run[j].tick.Ended?
    ensures run[k].tick.Ended? && run[k].groupDone
    decreases k
  {
    if j < k {
      EndedForGood(run, j, k - 1);
      assert Step(run[k - 1], run[k]);
    } else if j > 0 {
      assert Step(run[j - 1], run[j]);
      if run[j - 1].tick.Ended? {
        EndedForGood(run, j - 1, j - 1);
      }
    }
  }

  lemma RunExtends(run: seq<State>, a: Action) returns (longer: seq<State>)
    requires Run(run) && Enabled(run[|run| - 1], a)
    ensures longer == run + [Apply(run[|run| - 1], a)] && Run(longer)
  {
    hide Enabled, Apply;
    longer := run + [Apply(run[|run| - 1], a)];
    assert Step(run[|run| - 1], longer[|run|]);
    hide Step;
    forall k | 0 <= k < |longer| - 1 ensures Step(longer[k], longer[k + 1]) {
      if k < |run| - 1 {
        assert Step(run[k], run[k + 1]);
      }
    }
  }

  /** Wait has found nothing to wait for and closed the channel, while a tick still has one session to register. */
  lemma ClosedOnTick() returns (run: seq<State>)
    ensures Run(run) && |run| == 6 && run[5] == START.(groupDone := true, managerDone := true, tick := Polled(1),
                                                       waiter := Done, errorsClosed := true)
  {
    hide Run, Present;
    assert Run([START]) by { StartRuns(); }
    run := RunExtends([START], Poll(1));
    run := RunExtends(run, GroupEnds);
    run := RunExtends(run, WaitGoesOn);
    run := RunExtends(run, WaitGoesOn);
    run := RunExtends(run, WaitGoesOn);
  }

  /** A tick has read one assigned session when the context ends. Wait finds its wait group empty and closes the
      channel, the tick adds the session's task, and its result panics. */
  lemma LateTickPanics() returns (run: seq<State>)
    ensures Run(run) && |run| == 9 && run[|run| - 1].panicked
    ensures |run[|run| - 1].tasks| == 1 && run[|run| - 1].tasks[0] == Task(Crashed, Done)
  {
    hide Run, Present;
    run := ClosedOnTick();
    run := RunExtends(run, Register);
    run := RunExtends(run, Finish(0, false));
    run := RunExtends(run, Send(0));
  }

  lemma OneRuns() returns (run: seq<State>)
    ensures Run(run) && run[|run| - 1] == START.(waitGroup := 1, tasks := [Task(Running, CtxWait)])
  {
    hide Run, Present;
    assert Run([START]) by { StartRuns(); }
    run := RunExtends([START], Poll(1));
    run := RunExtends(run, Register);
    run := RunExtends(run, TickDone);
    assert run[|run| - 1].tasks == [Task(Running, CtxWait)];
  }

  /** A session fails, and its task leaves the manager. */
  lemma SessionFails() returns (run: seq<State>)
    ensures Run(run) && run[|run| - 1] == START.(managerDone := true, tasks := [Task(Gone, CtxWait)])
  {
    hide Run, Present;
    run := OneRuns();
    run := RunExtends(run, Finish(0, true));
    run := RunExtends(run, Send(0));
    run := RunExtends(run, Leave(0));
    assert run[|run| - 1].tasks == [Task(Gone, CtxWait)];
  }

  lemma WaitEndsAlone() returns (run: seq<State>)
    ensures Run(run)
    ensures run[|run| - 1] == START.(managerDone := true, tick := Polled(1), waiter := Done, errorsClosed := true,
                                     tasks := [Task(Gone, CtxWait)])
  {
    hide Run, Present;
    run := SessionFails();
    run := RunExtends(run, WaitGoesOn);
    run := RunExtends(run, WaitGoesOn);
    run := RunExtends(run, WaitGoesOn);
    run := RunExtends(run, Poll(1));
  }

  /** The same without a shutdown: one session fails, Wait ends on the manager's context, and the tick, whose own
      context goes on, adds another. */
  lemma FailedSessionPanics() returns (run: seq<State>)
    ensures Run(run) && run[|run| - 1].panicked && !run[|run| - 1].groupDone
    ensures |run[|run| - 1].tasks| == 2 && run[|run| - 1].tasks[0] == Task(Gone, CtxWait)
  {
    hide Run, Present;
    run := WaitEndsAlone();
    run := RunExtends(run, Register);
    run := RunExtends(run, Finish(1, false));
    run := RunExtends(run, Send(1));
  }

  /** A request to the controller fails: the tick ends, and the whole agent with it. */
  lemma FailedRequestEnds() returns (run: seq<State>)
    ensures Run(run) && run[|run| - 1] == START.(groupDone := true, managerDone := true, tick := Ended)
  {
    hide Run;
    assert Run([START]) by { StartRuns(); }
    run := RunExtends([START], TickEnds);
  }

  /** A task added between Wait's wait group and its closing of the channel may get its result through or panic. */
  lemma ClosingGoesEitherWay() returns (sent: seq<State>, late: seq<State>)
    ensures Run(sent) && Run(late) && sent[|sent| - 1].tasks == [Task(Reported, Closing)]
    ensures late[|late| - 1].tasks == [Task(Crashed, Closing)] && late[|late| - 1].panicked
  {
    hide Run, Present;
    var run := AddedBetween();
    sent := RunExtends(run, Send(0));
    late := RunExtends(run, WaitGoesOn);
    late := RunExtends(late, Send(0));
  }

  lemma AddedBetween() returns (run: seq<State>)
    ensures Run(run)
    ensures run[|run| - 1] == START.(groupDone := true, managerDone := true, tick := Polled(0), waiter := Closing,
                                     waitGroup := 1, tasks := [Task(Reporting, Closing)])
  {
    hide Run, Present;
    assert Run([START]) by { StartRuns(); }
    run := RunExtends([START], Poll(1));
    run := RunExtends(run, GroupEnds);
    run := RunExtends(run, WaitGoesOn);
    run := RunExtends(run, WaitGoesOn);
    run := RunExtends(run, Register);
    run := RunExtends(run, Finish(0, false));
    assert run[|run| - 1].tasks == [Task(Reporting, Closing)];
  }

  lemma StartRuns()
    ensures Run([START])
  {
  }
}
