/** A quiet period: nobody joins or leaves, no send fails, nothing is cancelled. However its
    broadcasts overlap, every subscriber receives every event recorded in it, once each. */
module EventLoopQuiet {
  import opened AuditLog
  import opened EventLoop
  import opened EventLoopDelivery
  import opened EventLoopInvariant
  import opened EventLoopSends
  import opened EventLoopTheorems
  import opened Tally

  predicate Quiet(a: Action) {
    !a.Accept? && !a.Close? && !a.SendFail? && !a.Abort?
  }

  ghost predicate AllQuiet(run: seq<Action>) {
    forall k :: 0 <= k < |run| ==> Quiet(run[k])
  }

  ghost predicate Rested(s: State) {
    forall t :: t in s.tasks ==> AtRest(t)
  }

  /** What a task's broadcast has delivered to one connection. */
  function DeliveredTo(c: nat): Task -> multiset<AuditEvent> {
    (t: Task) => multiset{}[t.event := t.cast.delivered[c]]
  }

  /** A task of the quiet period, whose members and epoch these are. */
  predicate QuietTask(t: Task, members: set<nat>, epoch: nat) {
    match t.pc
    case Ready => true
    case Counted => true
    case Inserted => true
    case Casting => t.cast.epoch == epoch && t.cast.failed == {}
    case Aborted => false
    case _ => t.cast.delivered == multiset(members)
  }

  /** Since s0, membership is unchanged, the old tasks are as they were, the new ones are quiet. */
  ghost predicate QuietSince(s0: State, s: State) {
    && s.connections == s0.connections && s.epoch == s0.epoch
    && s0.tasks <= s.tasks
    && forall i :: |s0.tasks| <= i < |s.tasks| ==> QuietTask(s.tasks[i], s.connections, s.epoch)
  }

  /** A quiet step leaves membership alone and moves at most one task, which was not at rest. */
  lemma QuietStage(s: State, a: Action)
    requires CastsInv(s) && Enabled(s, a) && Quiet(a)
    requires a.Finish? ==> Undisturbed(s, a.task) && s.tasks[a.task].cast.failed == {}
    ensures Step(s, a).connections == s.connections && Step(s, a).epoch == s.epoch
  {
  }

  lemma OnlyMoversMove(s: State, a: Action, i: nat)
    requires Enabled(s, a) && i < |s.tasks|
    ensures |s.tasks| <= |Step(s, a).tasks|
    ensures AtRest(s.tasks[i]) ==> Step(s, a).tasks[i] == s.tasks[i]
  {
  }

  lemma FinishStaysQuiet(s: State, i: nat)
    requires CastsInv(s) && Enabled(s, Finish(i)) && QuietTask(s.tasks[i], s.connections, s.epoch)
    ensures QuietTask(Step(s, Finish(i)).tasks[i], s.connections, s.epoch)
  {
    assert CastInv(s, s.tasks[i]);
    FinishDelivers(s, i);
  }

  lemma BeginStaysQuiet(s: State, i: nat)
    requires Enabled(s, Begin(i)) && QuietTask(s.tasks[i], s.connections, s.epoch)
    ensures QuietTask(Step(s, Begin(i)).tasks[i], s.connections, s.epoch)
  {
  }

  lemma MoveStaysQuiet(s: State, a: Action, i: nat)
    requires Enabled(s, a) && i < |s.tasks| && QuietTask(s.tasks[i], s.connections, s.epoch)
    requires a == Audit(i) || a == CountFlow(i) || a == Insert(i) || a == SendOk(i) || (a.Pick? && a.task == i)
    ensures QuietTask(Step(s, a).tasks[i], s.connections, s.epoch)
  {
  }

  lemma TaskStaysQuiet(s: State, a: Action, i: nat)
    requires CastsInv(s) && Enabled(s, a) && Quiet(a) && i < |s.tasks|
    requires QuietTask(s.tasks[i], s.connections, s.epoch)
    ensures i < |Step(s, a).tasks| && QuietTask(Step(s, a).tasks[i], s.connections, s.epoch)
  {
    if s.tasks[i] != Step(s, a).tasks[i] {
      OwnerMoves(s, a, i);
      if a.Finish? {
        FinishStaysQuiet(s, i);
      } else if a.Begin? {
        BeginStaysQuiet(s, i);
      } else {
        MoveStaysQuiet(s, a, i);
      }
    }
  }

  lemma QuietStep(s0: State, s: State, a: Action)
    requires Rested(s0) && QuietSince(s0, s) && CastsInv(s) && Enabled(s, a) && Quiet(a)
    ensures QuietSince(s0, Step(s, a))
  {
    var s' := Step(s, a);
    if a.Finish? {
      FinisherIsNew(s0, s, a.task);
    }
    QuietStage(s, a);
    forall i | 0 <= i < |s.tasks|
      ensures i < |s'.tasks|
      ensures i < |s0.tasks| ==> s'.tasks[i] == s0.tasks[i]
      ensures |s0.tasks| <= i ==> QuietTask(s'.tasks[i], s.connections, s.epoch)
    {
      OnlyMoversMove(s, a, i);
      if i < |s0.tasks| {
        OldTaskRests(s0, s, i);
      } else {
        TaskStaysQuiet(s, a, i);
      }
    }
  }

  lemma OldTaskRests(s0: State, s: State, i: nat)
    requires Rested(s0) && QuietSince(s0, s) && i < |s0.tasks|
    ensures s.tasks[i] == s0.tasks[i] && AtRest(s.tasks[i])
  {
    assert s0.tasks[i] in s0.tasks;
  }

  lemma FinisherIsNew(s0: State, s: State, i: nat)
    requires Rested(s0) && QuietSince(s0, s) && Enabled(s, Finish(i))
    ensures Undisturbed(s, i) && s.tasks[i].cast.failed == {}
  {
    if i < |s0.tasks| {
      OldTaskRests(s0, s, i);
    }
    assert QuietTask(s.tasks[i], s.connections, s.epoch);
  }

  lemma {:induction false} QuietRun(s0: State, s: State, run: seq<Action>)
    requires Rested(s0) && QuietSince(s0, s) && Inv(s) && Runs(s, run) && AllQuiet(run)
    ensures QuietSince(s0, After(s, run))
    decreases |run|
  {
    if run != [] {
      QuietStep(s0, s, run[0]);
      StepKeepsInv(s, run[0]);
      QuietRun(s0, Step(s, run[0]), run[1..]);
    }
  }

  lemma {:induction false} HistoryGrows(s: State, run: seq<Action>)
    requires Runs(s, run)
    ensures s.history <= After(s, run).history
    decreases |run|
  {
    if run != [] {
      HistoryGrows(Step(s, run[0]), run[1..]);
      HistoryStep(s, run[0]);
    }
  }

  lemma HistoryStep(s: State, a: Action)
    requires Enabled(s, a)
    ensures s.history <= Step(s, a).history
  {
  }

  /** Two sums over tasks that agree on the new ones, one of them the history: the other grows by
      the new part of the history. */
  lemma GrownSum(before: seq<Task>, since: seq<Task>, history: seq<AuditEvent>, more: seq<AuditEvent>,
                 f: Task -> multiset<AuditEvent>, g: Task -> multiset<AuditEvent>)
    requires Gather(since, f) == Gather(since, g)
    requires multiset(history) == Gather(before, g) && multiset(history + more) == Gather(before + since, g)
    ensures Gather(before + since, f) == Gather(before, f) + multiset(more)
  {
    GatherAppend(before, since, f);
    GatherAppend(before, since, g);
    Cancel(multiset(history), Gather(since, g), multiset(more));
  }

  lemma Cancel<X>(a: multiset<X>, b: multiset<X>, d: multiset<X>)
    requires a + b == a + d
    ensures b == d
  {
    assert b == (a + b) - a && d == (a + d) - a;
  }

  lemma NewTasksDeliver(s0: State, s1: State, c: nat)
    requires QuietSince(s0, s1) && Rested(s1) && c in s0.connections
    ensures var since := s1.tasks[|s0.tasks|..];
            Gather(since, DeliveredTo(c)) == Gather(since, InsertedEvent)
  {
    var since := s1.tasks[|s0.tasks|..];
    forall t | t in since
      ensures DeliveredTo(c)(t) == InsertedEvent(t)
    {
      var i :| 0 <= i < |since| && since[i] == t;
      assert t == s1.tasks[|s0.tasks| + i] && t in s1.tasks;
      assert t.cast.delivered[c] == 1;
      assert multiset{}[t.event := 1] == multiset{t.event};
    }
    GatherEqual(since, DeliveredTo(c), InsertedEvent);
  }

  lemma Resplit<T>(xs: seq<T>, ys: seq<T>)
    requires xs <= ys
    ensures ys == xs + ys[|xs|..]
  {
  }

  lemma QuietSum(s0: State, s1: State, c: nat)
    requires QuietSince(s0, s1) && Rested(s1) && c in s0.connections && s0.history <= s1.history
    requires InsertTally(s0.tasks, s0.history) && InsertTally(s1.tasks, s1.history)
    ensures Gather(s1.tasks, DeliveredTo(c))
         == Gather(s0.tasks, DeliveredTo(c)) + multiset(s1.history[|s0.history|..])
  {
    var since, more := s1.tasks[|s0.tasks|..], s1.history[|s0.history|..];
    NewTasksDeliver(s0, s1, c);
    Resplit(s0.tasks, s1.tasks);
    Resplit(s0.history, s1.history);
    GrownSum(s0.tasks, since, s0.history, more, DeliveredTo(c), InsertedEvent);
  }

  lemma QuietThroughout(s0: State, run: seq<Action>, s1: State)
    requires Inv(s0) && Rested(s0) && Runs(s0, run) && AllQuiet(run) && s1 == After(s0, run)
    ensures QuietSince(s0, s1) && Inv(s1) && s0.history <= s1.history
  {
    QuietRun(s0, s0, run);
    RunKeepsInv(s0, run);
    HistoryGrows(s0, run);
  }

  /** The sends of the period, read off the run: every broadcast in it delivers to every subscriber,
      once, and fails nowhere. */
  lemma QuietSendsDeliver(s0: State, run: seq<Action>, s1: State, i: nat)
    requires Reachable(s0) && Rested(s0) && Runs(s0, run) && AllQuiet(run) && s1 == After(s0, run) && Rested(s1)
    requires |s0.tasks| <= i < |s1.tasks|
    ensures DeliveredBy(run, i) == multiset(s0.connections)
  {
    ReachableInv(s0);
    QuietThroughout(s0, run, s1);
    CastIsTheRuns(s0, run, i);
    assert s1.tasks[i] in s1.tasks;
    assert QuietTask(s1.tasks[i], s1.connections, s1.epoch);
  }

  /** From a state where every task has ended, through a quiet run, to another such state: every
      subscriber has received exactly the events recorded in between, each as often as recorded. */
  lemma QuietPeriodDelivers(s0: State, run: seq<Action>, s1: State, c: nat)
    requires Reachable(s0) && Rested(s0) && Runs(s0, run) && AllQuiet(run) && s1 == After(s0, run) && Rested(s1)
    requires c in s0.connections
    ensures s1.connections == s0.connections && s0.history <= s1.history
    ensures Gather(s1.tasks, DeliveredTo(c))
         == Gather(s0.tasks, DeliveredTo(c)) + multiset(s1.history[|s0.history|..])
  {
    ReachableInv(s0);
    QuietThroughout(s0, run, s1);
    QuietSum(s0, s1, c);
  }
}
