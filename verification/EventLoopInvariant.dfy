/** The invariant of `EventLoop` holds at the start and is kept by every action. */
module EventLoopInvariant {
  import opened AuditLog
  import opened EventLoop
  import opened Metrics
  import opened Tally

  // ---- Sums over the tasks ---------------------------------------------------------------

  lemma InsertTallySame(tasks: seq<Task>, i: nat, u: Task, history: seq<AuditEvent>)
    requires InsertTally(tasks, history) && i < |tasks|
    requires HasInserted(tasks[i]) == HasInserted(u) && tasks[i].event == u.event
    ensures InsertTally(tasks[i := u], history)
  {
    GatherSame(tasks, i, u, InsertedEvent);
    GatherSame(tasks, i, u, InsertedLabel);
  }

  lemma InsertTallyMore(tasks: seq<Task>, i: nat, u: Task, history: seq<AuditEvent>)
    requires InsertTally(tasks, history) && i < |tasks|
    requires !HasInserted(tasks[i]) && HasInserted(u) && tasks[i].event == u.event
    ensures InsertTally(tasks[i := u], history + [u.event])
  {
    GatherMore(tasks, i, u, InsertedEvent, multiset{u.event});
    GatherMore(tasks, i, u, InsertedLabel, multiset{LabelOf(u.event)});
    GatherSnoc(history, u.event, EventLabel);
  }

  lemma InsertTallySpawn(tasks: seq<Task>, t: Task, history: seq<AuditEvent>)
    requires InsertTally(tasks, history) && t.pc == Ready
    ensures InsertTally(tasks + [t], history)
  {
    GatherSnoc(tasks, t, InsertedEvent);
    GatherSnoc(tasks, t, InsertedLabel);
  }

  lemma AuditTallySame(tasks: seq<Task>, i: nat, u: Task, audit: multiset<AuditLabel>)
    requires AuditTally(tasks, audit) && i < |tasks|
    requires HasAudited(tasks[i]) == HasAudited(u) && tasks[i].event == u.event
    ensures AuditTally(tasks[i := u], audit)
  {
    GatherSame(tasks, i, u, AuditedLabel);
  }

  lemma AuditTallyMore(tasks: seq<Task>, i: nat, u: Task, audit: multiset<AuditLabel>)
    requires AuditTally(tasks, audit) && i < |tasks|
    requires !HasAudited(tasks[i]) && HasAudited(u) && tasks[i].event == u.event
    ensures AuditTally(tasks[i := u], audit + multiset{LabelOf(u.event)})
  {
    GatherMore(tasks, i, u, AuditedLabel, multiset{LabelOf(u.event)});
  }

  lemma FlowTallySame(tasks: seq<Task>, i: nat, u: Task, m: Counters, trustDomain: string,
                      allowed: multiset<DecisionLabel>, denied: multiset<DecisionLabel>)
    requires FlowTally(tasks, m, trustDomain, allowed, denied) && i < |tasks|
    requires HasCounted(tasks[i]) == HasCounted(u) && tasks[i].job == u.job
    ensures FlowTally(tasks[i := u], m, trustDomain, allowed, denied)
  {
    GatherSame(tasks, i, u, FlowHandshake(trustDomain));
    GatherSame(tasks, i, u, FlowLatency(trustDomain));
    GatherSame(tasks, i, u, FlowDenied(trustDomain));
    GatherSame(tasks, i, u, FlowAllowed(trustDomain));
  }

  lemma FlowTallyMore(tasks: seq<Task>, i: nat, u: Task, m: Counters, trustDomain: string,
                      allowed: multiset<DecisionLabel>, denied: multiset<DecisionLabel>)
    requires FlowTally(tasks, m, trustDomain, allowed, denied) && i < |tasks|
    requires !HasCounted(tasks[i]) && HasCounted(u) && tasks[i].job == u.job
    ensures FlowTally(tasks[i := u], CountTheFlow(m, u.job, trustDomain), trustDomain, allowed, denied)
  {
    HandshakesMore(tasks, i, u, trustDomain);
    DecisionsMore(tasks, i, u, trustDomain);
    AddLast(denied, Gather(tasks, FlowDenied(trustDomain)), FlowDenied(trustDomain)(u));
    AddLast(allowed, Gather(tasks, FlowAllowed(trustDomain)), FlowAllowed(trustDomain)(u));
  }

  lemma AddLast<X>(a: multiset<X>, b: multiset<X>, c: multiset<X>)
    ensures a + (b + c) == (a + b) + c
  {
  }

  lemma HandshakesMore(tasks: seq<Task>, i: nat, u: Task, trustDomain: string)
    requires i < |tasks| && !HasCounted(tasks[i])
    ensures Gather(tasks[i := u], FlowHandshake(trustDomain))
         == Gather(tasks, FlowHandshake(trustDomain)) + FlowHandshake(trustDomain)(u)
    ensures Gather(tasks[i := u], FlowLatency(trustDomain))
         == Gather(tasks, FlowLatency(trustDomain)) + FlowLatency(trustDomain)(u)
  {
    GatherMore(tasks, i, u, FlowHandshake(trustDomain), FlowHandshake(trustDomain)(u));
    GatherMore(tasks, i, u, FlowLatency(trustDomain), FlowLatency(trustDomain)(u));
  }

  lemma DecisionsMore(tasks: seq<Task>, i: nat, u: Task, trustDomain: string)
    requires i < |tasks| && !HasCounted(tasks[i])
    ensures Gather(tasks[i := u], FlowDenied(trustDomain))
         == Gather(tasks, FlowDenied(trustDomain)) + FlowDenied(trustDomain)(u)
    ensures Gather(tasks[i := u], FlowAllowed(trustDomain))
         == Gather(tasks, FlowAllowed(trustDomain)) + FlowAllowed(trustDomain)(u)
  {
    GatherMore(tasks, i, u, FlowDenied(trustDomain), FlowDenied(trustDomain)(u));
    GatherMore(tasks, i, u, FlowAllowed(trustDomain), FlowAllowed(trustDomain)(u));
  }

  lemma FlowTallySpawn(tasks: seq<Task>, t: Task, m: Counters, trustDomain: string,
                       allowed: multiset<DecisionLabel>, denied: multiset<DecisionLabel>)
    requires FlowTally(tasks, m, trustDomain, allowed, denied) && t.pc == Ready
    ensures FlowTally(tasks + [t], m, trustDomain, allowed, denied)
  {
    GatherSnoc(tasks, t, FlowHandshake(trustDomain));
    GatherSnoc(tasks, t, FlowLatency(trustDomain));
    GatherSnoc(tasks, t, FlowDenied(trustDomain));
    GatherSnoc(tasks, t, FlowAllowed(trustDomain));
  }

  // ---- The sums after each kind of step --------------------------------------------------

  /** Everything but the tasks, the log, the members and the sessions is the same. */
  ghost predicate SameBooks(s: State, s': State) {
    && s'.trustDomain == s.trustDomain && s'.evaluatedAllowed == s.evaluatedAllowed
    && s'.evaluatedDenied == s.evaluatedDenied
  }

  predicate SameTask(t: Task, u: Task) {
    t.event == u.event && t.job == u.job
  }

  predicate SameStage(t: Task, u: Task) {
    HasInserted(t) == HasInserted(u) && HasAudited(t) == HasAudited(u) && HasCounted(t) == HasCounted(u)
  }

  predicate Inserts(t: Task, u: Task) {
    !HasInserted(t) && HasInserted(u) && HasAudited(t) == HasAudited(u) && HasCounted(t) == HasCounted(u)
  }

  predicate Audits(t: Task, u: Task) {
    HasInserted(t) == HasInserted(u) && !HasAudited(t) && HasAudited(u) && HasCounted(t) == HasCounted(u)
  }

  predicate Counts(t: Task, u: Task) {
    HasInserted(t) == HasInserted(u) && HasAudited(t) == HasAudited(u) && !HasCounted(t) && HasCounted(u)
  }

  /** A task that moves on without touching the log or a counter leaves every sum alone. */
  lemma TallyMove(s: State, s': State, i: nat, u: Task)
    requires TallyInv(s) && i < |s.tasks| && SameTask(s.tasks[i], u) && SameStage(s.tasks[i], u)
    requires s'.tasks == s.tasks[i := u] && SameBooks(s, s') && s'.history == s.history && s'.counters == s.counters
    ensures TallyInv(s')
  {
    InsertTallySame(s.tasks, i, u, s.history);
    AuditTallySame(s.tasks, i, u, s.counters.audit);
    FlowTallySame(s.tasks, i, u, s.counters, s.trustDomain, s.evaluatedAllowed, s.evaluatedDenied);
  }

  lemma TallyInsert(s: State, s': State, i: nat, u: Task)
    requires TallyInv(s) && i < |s.tasks| && SameTask(s.tasks[i], u) && Inserts(s.tasks[i], u)
    requires s'.tasks == s.tasks[i := u] && SameBooks(s, s') && s'.counters == s.counters
    requires s'.history == s.history + [u.event]
    ensures TallyInv(s')
  {
    InsertTallyMore(s.tasks, i, u, s.history);
    AuditTallySame(s.tasks, i, u, s.counters.audit);
    FlowTallySame(s.tasks, i, u, s.counters, s.trustDomain, s.evaluatedAllowed, s.evaluatedDenied);
  }

  lemma TallyAudit(s: State, s': State, i: nat, u: Task)
    requires TallyInv(s) && i < |s.tasks| && SameTask(s.tasks[i], u) && Audits(s.tasks[i], u)
    requires s'.tasks == s.tasks[i := u] && SameBooks(s, s') && s'.history == s.history
    requires s'.counters == CountAudit(s.counters, LabelOf(u.event))
    ensures TallyInv(s')
  {
    InsertTallySame(s.tasks, i, u, s.history);
    AuditTallyMore(s.tasks, i, u, s.counters.audit);
    FlowTallySame(s.tasks, i, u, s.counters, s.trustDomain, s.evaluatedAllowed, s.evaluatedDenied);
    FlowTallyIgnoresAudit(s'.tasks, s.counters, LabelOf(u.event), s.trustDomain, s.evaluatedAllowed, s.evaluatedDenied);
  }

  lemma FlowTallyIgnoresAudit(tasks: seq<Task>, m: Counters, kind: AuditLabel, trustDomain: string,
                              allowed: multiset<DecisionLabel>, denied: multiset<DecisionLabel>)
    requires FlowTally(tasks, m, trustDomain, allowed, denied)
    ensures FlowTally(tasks, CountAudit(m, kind), trustDomain, allowed, denied)
  {
  }

  lemma TallyCount(s: State, s': State, i: nat, u: Task)
    requires TallyInv(s) && i < |s.tasks| && SameTask(s.tasks[i], u) && Counts(s.tasks[i], u)
    requires s'.tasks == s.tasks[i := u] && SameBooks(s, s') && s'.history == s.history
    requires s'.counters == CountTheFlow(s.counters, u.job, s.trustDomain)
    ensures TallyInv(s')
  {
    InsertTallySame(s.tasks, i, u, s.history);
    AuditTallySame(s.tasks, i, u, s.counters.audit);
    FlowTallyMore(s.tasks, i, u, s.counters, s.trustDomain, s.evaluatedAllowed, s.evaluatedDenied);
  }

  lemma TallySpawn(s: State, s': State, t: Task)
    requires TallyInv(s) && t.pc == Ready
    requires s'.tasks == s.tasks + [t] && SameBooks(s, s') && s'.history == s.history && s'.counters == s.counters
    ensures TallyInv(s')
  {
    InsertTallySpawn(s.tasks, t, s.history);
    GatherSnoc(s.tasks, t, AuditedLabel);
    FlowTallySpawn(s.tasks, t, s.counters, s.trustDomain, s.evaluatedAllowed, s.evaluatedDenied);
  }

  lemma FlowTallyAllows(tasks: seq<Task>, m: Counters, trustDomain: string,
                        allowed: multiset<DecisionLabel>, denied: multiset<DecisionLabel>, d: multiset<DecisionLabel>)
    requires FlowTally(tasks, m, trustDomain, allowed, denied)
    ensures FlowTally(tasks, m.(allowed := m.allowed + d), trustDomain, allowed + d, denied)
  {
    Shuffle(allowed, Gather(tasks, FlowAllowed(trustDomain)), d);
  }

  lemma FlowTallyDenies(tasks: seq<Task>, m: Counters, trustDomain: string,
                        allowed: multiset<DecisionLabel>, denied: multiset<DecisionLabel>, d: multiset<DecisionLabel>)
    requires FlowTally(tasks, m, trustDomain, allowed, denied)
    ensures FlowTally(tasks, m.(denied := m.denied + d), trustDomain, allowed, denied + d)
  {
    Shuffle(denied, Gather(tasks, FlowDenied(trustDomain)), d);
  }

  lemma Shuffle<X>(a: multiset<X>, b: multiset<X>, d: multiset<X>)
    ensures (a + b) + d == (a + d) + b
  {
  }

  lemma EvaluateStage(s: State, client: string, required: string)
    ensures var s', d := Step(s, Evaluate(client, required)), multiset{DecisionLabel(client, required)};
            && s'.tasks == s.tasks && s'.history == s.history && s'.trustDomain == s.trustDomain
            && (if Allows(client, required) then
                  && s'.counters == s.counters.(allowed := s.counters.allowed + d)
                  && s'.evaluatedAllowed == s.evaluatedAllowed + d && s'.evaluatedDenied == s.evaluatedDenied
                else
                  && s'.counters == s.counters.(denied := s.counters.denied + d)
                  && s'.evaluatedAllowed == s.evaluatedAllowed && s'.evaluatedDenied == s.evaluatedDenied + d)
  {
  }

  lemma TallyEvaluate(s: State, s': State, d: multiset<DecisionLabel>)
    requires TallyInv(s) && s'.tasks == s.tasks && s'.history == s.history && s'.trustDomain == s.trustDomain
    requires || (&& s'.counters == s.counters.(allowed := s.counters.allowed + d)
                 && s'.evaluatedAllowed == s.evaluatedAllowed + d && s'.evaluatedDenied == s.evaluatedDenied)
             || (&& s'.counters == s.counters.(denied := s.counters.denied + d)
                 && s'.evaluatedAllowed == s.evaluatedAllowed && s'.evaluatedDenied == s.evaluatedDenied + d)
    ensures TallyInv(s')
  {
    FlowTallyAllows(s.tasks, s.counters, s.trustDomain, s.evaluatedAllowed, s.evaluatedDenied, d);
    FlowTallyDenies(s.tasks, s.counters, s.trustDomain, s.evaluatedAllowed, s.evaluatedDenied, d);
  }

  lemma TallyUntouched(s: State, s': State)
    requires TallyInv(s) && SameBooks(s, s')
    requires s'.tasks == s.tasks && s'.history == s.history && s'.counters == s.counters
    ensures TallyInv(s')
  {
  }

  /** The steps of a broadcast: nothing is inserted and nothing counted. */
  predicate Broadcasts(a: Action) {
    a.Begin? || a.Pick? || a.SendOk? || a.SendFail? || a.Finish? || a.Abort?
  }

  predicate Sessions(a: Action) {
    a.Open? || a.Accept? || a.Refuse? || a.Close? || a.Kill?
  }

  /** What a task's step changes. */
  lemma TaskStage(s: State, a: Action)
    requires Broadcasts(a) || a.Insert? || a.Audit? || a.CountFlow?
    requires Enabled(s, a)
    ensures var s' := Step(s, a);
            && SameBooks(s, s') && |s'.tasks| == |s.tasks| && s'.tasks == s.tasks[a.task := s'.tasks[a.task]]
            && SameTask(s.tasks[a.task], s'.tasks[a.task])
  {
  }

  lemma BroadcastStage(s: State, a: Action)
    requires Broadcasts(a) && Enabled(s, a)
    ensures var s' := Step(s, a);
            s'.history == s.history && s'.counters == s.counters && SameStage(s.tasks[a.task], s'.tasks[a.task])
  {
  }

  lemma CountedStage(s: State, a: Action)
    requires (a.Insert? || a.Audit? || a.CountFlow?) && Enabled(s, a)
    ensures var t, s' := s.tasks[a.task], Step(s, a);
            match a
            case Insert(i) => Inserts(t, s'.tasks[i]) && s'.counters == s.counters && s'.history == s.history + [t.event]
            case Audit(i) =>
              Audits(t, s'.tasks[i]) && s'.history == s.history && s'.counters == CountAudit(s.counters, LabelOf(t.event))
            case CountFlow(i) =>
              && Counts(t, s'.tasks[i]) && s'.history == s.history
              && s'.counters == CountTheFlow(s.counters, t.job, s.trustDomain)
            case _ => true
  {
  }

  lemma SessionStage(s: State, a: Action)
    requires Sessions(a) && Enabled(s, a)
    ensures var s' := Step(s, a);
            SameBooks(s, s') && s'.history == s.history && s'.counters == s.counters && s'.tasks == s.tasks
  {
  }

  lemma TallyKeptByTask(s: State, a: Action)
    requires TallyInv(s) && Enabled(s, a)
    requires Broadcasts(a) || a.Insert? || a.Audit? || a.CountFlow?
    ensures TallyInv(Step(s, a))
  {
    var s' := Step(s, a);
    TaskStage(s, a);
    if Broadcasts(a) {
      BroadcastStage(s, a);
      TallyMove(s, s', a.task, s'.tasks[a.task]);
    } else {
      CountedStage(s, a);
      match a
      case Insert(i) => TallyInsert(s, s', i, s'.tasks[i]);
      case Audit(i) => TallyAudit(s, s', i, s'.tasks[i]);
      case CountFlow(i) => TallyCount(s, s', i, s'.tasks[i]);
    }
  }

  lemma TallyKept(s: State, a: Action)
    requires TallyInv(s) && Enabled(s, a)
    ensures TallyInv(Step(s, a))
  {
    if Sessions(a) {
      SessionStage(s, a);
      TallyUntouched(s, Step(s, a));
    } else if a.Evaluate? {
      EvaluateStage(s, a.client, a.required);
      TallyEvaluate(s, Step(s, a), multiset{DecisionLabel(a.client, a.required)});
    } else if a.Spawn? {
      TallySpawn(s, Step(s, a), Task(a.job, a.event, Ready, NO_CAST));
    } else {
      TallyKeptByTask(s, a);
    }
  }

  // ---- The log, the jobs, the members, the broadcasts ------------------------------------

  lemma LogKept(s: State, a: Action)
    requires LogInv(s) && Enabled(s, a)
    ensures LogInv(Step(s, a))
  {
    if a.Insert? {
      PushKeepsWindow(s.history, s.seeds, s.tasks[a.task].event, s.maxLogs);
    }
  }

  lemma JobsKept(s: State, a: Action)
    requires JobInv(s) && Enabled(s, a)
    ensures JobInv(Step(s, a))
  {
    var s' := Step(s, a);
    forall i | 0 <= i < |s'.tasks|
      ensures JobOk(s'.tasks[i])
    {
      if i < |s.tasks| {
        assert JobOk(s.tasks[i]);
      }
    }
  }

  lemma MembersKept(s: State, a: Action)
    requires MemberInv(s) && Enabled(s, a)
    ensures MemberInv(Step(s, a))
  {
  }

  /** A task's own broadcast invariant survives other tasks' steps: they can only raise the epoch. */
  lemma CastKeptByOthers(s: State, s': State, t: Task)
    requires CastInv(s, t)
    requires s.epoch <= s'.epoch && (s'.epoch == s.epoch ==> s'.connections == s.connections)
    ensures CastInv(s', t)
  {
  }

  lemma CastKeptByPick(s: State, i: nat, c: nat)
    requires CastsInv(s) && Enabled(s, Pick(i, c))
    ensures CastInv(s, Step(s, Pick(i, c)).tasks[i])
  {
  }

  lemma CastKeptBySend(s: State, i: nat)
    requires CastsInv(s) && Enabled(s, SendOk(i))
    ensures CastInv(s, Step(s, SendOk(i)).tasks[i])
    ensures CastInv(s, Step(s, SendFail(i)).tasks[i])
  {
    var c := s.tasks[i].cast;
    if c.epoch == s.epoch {
      assert c.failed !! c.sending by {
        forall x | x in c.failed
          ensures x !in c.sending
        {
          assert c.attempted[x] <= multiset(c.start)[x] <= 1;
        }
      }
      assert multiset(c.failed + c.sending) == multiset(c.failed) + multiset(c.sending);
    }
  }

  lemma CastSettles(s: State, i: nat)
    requires CastsInv(s) && Enabled(s, Finish(i))
    ensures CastInv(Step(s, Finish(i)), Step(s, Finish(i)).tasks[i])
  {
    var c := s.tasks[i].cast;
    if c.epoch == s.epoch {
      forall x
        ensures c.attempted[x] == multiset(c.start)[x]
        ensures c.delivered[x] == multiset(c.start - c.failed)[x]
        ensures x in c.failed ==> x in c.start
      {
        assert c.attempted[x] <= multiset(c.start)[x];
        assert c.attempted[x] == c.delivered[x] + multiset(c.failed)[x];
      }
      assert c.attempted == multiset(c.start);
    }
  }

  lemma CastKeptByMove(s: State, a: Action, i: nat)
    requires CastsInv(s) && Enabled(s, a) && i < |s.tasks|
    requires a == Begin(i) || a == Abort(i) || a == Audit(i) || a == CountFlow(i) || a == Insert(i)
    ensures CastInv(Step(s, a), Step(s, a).tasks[i])
  {
    assert CastInv(s, s.tasks[i]);
  }

  lemma OwnerMoves(s: State, a: Action, i: nat)
    requires Enabled(s, a) && i < |s.tasks| && s.tasks[i] != Step(s, a).tasks[i]
    ensures || a == Begin(i) || a == Abort(i) || a == Audit(i) || a == CountFlow(i) || a == Insert(i)
            || a == SendOk(i) || a == SendFail(i) || a == Finish(i) || (a.Pick? && a.task == i)
  {
  }

  lemma CastKeptByOwner(s: State, a: Action, i: nat)
    requires CastsInv(s) && Enabled(s, a) && i < |s.tasks|
    requires s.tasks[i] != Step(s, a).tasks[i]
    ensures CastInv(Step(s, a), Step(s, a).tasks[i])
  {
    OwnerMoves(s, a, i);
    if a.Pick? {
      CastKeptByPick(s, i, a.connection);
    } else if a.SendOk? || a.SendFail? {
      CastKeptBySend(s, i);
    } else if a.Finish? {
      CastSettles(s, i);
    } else {
      CastKeptByMove(s, a, i);
    }
  }

  lemma CastsKept(s: State, a: Action)
    requires CastsInv(s) && Enabled(s, a)
    ensures CastsInv(Step(s, a))
  {
    var s' := Step(s, a);
    forall i | 0 <= i < |s'.tasks|
      ensures CastInv(s', s'.tasks[i])
    {
      if i < |s.tasks| {
        if s.tasks[i] == s'.tasks[i] {
          CastKeptByOthers(s, s', s.tasks[i]);
        } else {
          CastKeptByOwner(s, a, i);
        }
      }
    }
  }

  // ---- All runs --------------------------------------------------------------------------

  lemma InitHolds(maxLogs: int, seeds: seq<AuditEvent>, trustDomain: string)
    requires |seeds| == SEED_COUNT
    ensures Inv(Init(maxLogs, seeds, trustDomain))
  {
    assert Everything<AuditEvent>([], seeds) == seeds;
  }

  /** Every action keeps the invariant. */
  lemma StepKeepsInv(s: State, a: Action)
    requires Inv(s) && Enabled(s, a)
    ensures Inv(Step(s, a))
  {
    LogKept(s, a);
    TallyKept(s, a);
    JobsKept(s, a);
    MembersKept(s, a);
    CastsKept(s, a);
  }

  lemma {:induction false} RunKeepsInv(s: State, run: seq<Action>)
    requires Inv(s) && Runs(s, run)
    ensures Inv(After(s, run))
    decreases |run|
  {
    if run != [] {
      StepKeepsInv(s, run[0]);
      RunKeepsInv(Step(s, run[0]), run[1..]);
    }
  }

  /** The invariant holds at every scheduling point of every run. */
  lemma InvAlways(maxLogs: int, seeds: seq<AuditEvent>, trustDomain: string, run: seq<Action>)
    requires |seeds| == SEED_COUNT && Runs(Init(maxLogs, seeds, trustDomain), run)
    ensures Inv(After(Init(maxLogs, seeds, trustDomain), run))
  {
    InitHolds(maxLogs, seeds, trustDomain);
    RunKeepsInv(Init(maxLogs, seeds, trustDomain), run);
  }
}
