/** The control plane as tasks that interleave on one event loop: `record_event` calls with their
    broadcasts, the test flows around them, policy evaluations and WebSocket sessions.

    Every action below is a stretch of code with no await inside. Tasks may be switched between any
    two actions, which is at least as often as asyncio switches them, so every run of the event
    loop is a run of this model. */
module EventLoop {
  import opened AuditLog
  import opened Metrics
  import opened Tally

  // ---- State -----------------------------------------------------------------------------

  /** Who called `record_event`: a denied flow, a successful flow, or anything else. */
  datatype Job = DeniedFlow | SuccessFlow | Plain

  /** How far a task has got. Only successful flows pass `Counted`, only denied ones `Audited`. */
  datatype Pc = Ready | Counted | Inserted | Casting | Casted | Audited | Done | Aborted

  /** One broadcast: the members and the membership epoch it started with, the connections it has
      tried, those that took the message, those whose send raised, the one it is waiting for, and
      whether membership was still that of the start when it finished. */
  datatype Cast = Cast(
    start: set<nat>, epoch: nat, attempted: multiset<nat>, delivered: multiset<nat>, failed: set<nat>,
    sending: set<nat>, settled: bool)

  const NO_CAST := Cast({}, 0, multiset{}, multiset{}, {}, {}, false)

  datatype Task = Task(job: Job, event: AuditEvent, pc: Pc, cast: Cast)

  /** A WebSocket session; its connection has the session's number. `Returned`: the handler caught
      an exception and disconnected. `Killed`: ended by one it does not catch. */
  datatype Session = Accepting | Refused | Streaming | Returned | Killed

  datatype State = State(
    maxLogs: int, seeds: seq<AuditEvent>, trustDomain: string,
    log: seq<AuditEvent>,
    history: seq<AuditEvent>,          // every insert since the start, oldest first
    connections: set<nat>,
    epoch: nat,                        // how often membership has changed
    dropped: set<nat>,                 // connections a broadcast has discarded
    sessions: seq<Session>,
    tasks: seq<Task>,
    counters: Counters,
    evaluatedAllowed: multiset<DecisionLabel>, evaluatedDenied: multiset<DecisionLabel>)

  predicate JobRecords(job: Job, event: AuditEvent) {
    match job
    case DeniedFlow => LabelOf(event) == DENIED_LABEL
    case SuccessFlow => LabelOf(event) == SUCCESS_LABEL
    case Plain => !event.eventType.MtlsPolicyDenied? && !event.eventType.MtlsAuthSuccess?
  }

  const DENIED_LABEL := AuditLabel(MtlsPolicyDenied, Denied)
  const SUCCESS_LABEL := AuditLabel(MtlsAuthSuccess, Success)

  function Init(maxLogs: int, seeds: seq<AuditEvent>, trustDomain: string): State {
    State(maxLogs, seeds, trustDomain, seeds, [], {}, 0, {}, [], [], NO_COUNTERS, multiset{}, multiset{})
  }

  // ---- Actions ---------------------------------------------------------------------------

  datatype Action =
    | Spawn(job: Job, event: AuditEvent)   // a request starts
    | CountFlow(task: nat)                 // a flow's increment group
    | Insert(task: nat)                    // the locked section
    | Begin(task: nat)                     // broadcast takes its iterator, or finds nobody
    | Pick(task: nat, connection: nat)     // the iterator yields a connection; its send starts
    | SendOk(task: nat)
    | SendFail(task: nat)
    | Finish(task: nat)                    // the iterator ends; dead connections are discarded
    | Abort(task: nat)                     // the iterator raises, or the task is cancelled in a send
    | Audit(task: nat)                     // the audit counter
    | Evaluate(client: string, required: string)
    | Open                                 // a client connects
    | Accept(session: nat)                 // accepted and added
    | Refuse(session: nat)                 // accept raised
    | Close(session: nat)                  // the handler catches and disconnects
    | Kill(session: nat)                   // the handler is cancelled

  predicate At(s: State, i: nat, pc: Pc) {
    i < |s.tasks| && s.tasks[i].pc == pc
  }

  predicate InSession(s: State, j: nat, at: Session) {
    j < |s.sessions| && s.sessions[j] == at
  }

  /** Between two sends. */
  predicate Iterating(s: State, i: nat) {
    At(s, i, Casting) && s.tasks[i].cast.sending == {}
  }

  /** Python's set iterator raises if the set's size is not the one it started with. */
  predicate SizeUnchanged(s: State, i: nat)
    requires i < |s.tasks|
  {
    |s.connections| == |s.tasks[i].cast.start|
  }

  predicate Undisturbed(s: State, i: nat)
    requires i < |s.tasks|
  {
    s.tasks[i].cast.epoch == s.epoch
  }

  /** While membership is unchanged the iterator yields every member once; once it has changed,
      but not in size, nothing is assumed about what the iterator yields or when it ends. */
  predicate Enabled(s: State, a: Action) {
    match a
    case Spawn(job, event) => JobRecords(job, event)
    case CountFlow(i) =>
      && i < |s.tasks|
      && ((s.tasks[i].job.SuccessFlow? && At(s, i, Ready)) || (s.tasks[i].job.DeniedFlow? && At(s, i, Audited)))
    case Insert(i) => i < |s.tasks| && At(s, i, if s.tasks[i].job.SuccessFlow? then Counted else Ready)
    case Begin(i) => At(s, i, Inserted)
    case Pick(i, c) =>
      Iterating(s, i) && SizeUnchanged(s, i) && c in s.connections
      && (Undisturbed(s, i) ==> c !in s.tasks[i].cast.attempted)
    case SendOk(i) => At(s, i, Casting) && s.tasks[i].cast.sending != {}
    case SendFail(i) => At(s, i, Casting) && s.tasks[i].cast.sending != {}
    case Finish(i) =>
      Iterating(s, i) && SizeUnchanged(s, i)
      && (Undisturbed(s, i) ==> forall c :: c in s.connections ==> c in s.tasks[i].cast.attempted)
    case Abort(i) => At(s, i, Casting) && (s.tasks[i].cast.sending == {} ==> !SizeUnchanged(s, i))
    case Audit(i) => At(s, i, Casted)
    case Evaluate(_, _) => true
    case Open => true
    case Accept(j) => InSession(s, j, Accepting)
    case Refuse(j) => InSession(s, j, Accepting)
    case Close(j) => InSession(s, j, Streaming)
    case Kill(j) => InSession(s, j, Streaming)
  }

  function Go(s: State, i: nat, pc: Pc): State
    requires i < |s.tasks|
  {
    s.(tasks := s.tasks[i := s.tasks[i].(pc := pc)])
  }

  function SetCast(s: State, i: nat, cast: Cast): State
    requires i < |s.tasks|
  {
    s.(tasks := s.tasks[i := s.tasks[i].(cast := cast)])
  }

  function SetMembers(s: State, connections: set<nat>): State {
    s.(connections := connections, epoch := if connections == s.connections then s.epoch else s.epoch + 1)
  }

  function CountTheFlow(m: Counters, job: Job, trustDomain: string): Counters {
    match job
    case DeniedFlow => CountDeniedFlow(m, trustDomain)
    case SuccessFlow => CountSuccessFlow(m, trustDomain)
    case Plain => m
  }

  function FinishCast(s: State, i: nat): State
    requires i < |s.tasks|
  {
    var t := s.tasks[i];
    var t' := t.(pc := Casted, cast := t.cast.(settled := t.cast.epoch == s.epoch));
    SetMembers(s, s.connections - t.cast.failed)
    .(tasks := s.tasks[i := t'], dropped := s.dropped + t.cast.failed * s.connections)
  }

  function Step(s: State, a: Action): State
    requires Enabled(s, a)
  {
    match a
    case Spawn(job, event) => s.(tasks := s.tasks + [Task(job, event, Ready, NO_CAST)])
    case CountFlow(i) =>
      Go(s, i, if s.tasks[i].job.SuccessFlow? then Counted else Done)
      .(counters := CountTheFlow(s.counters, s.tasks[i].job, s.trustDomain))
    case Insert(i) =>
      Go(s, i, Inserted).(log := Push(s.log, s.tasks[i].event, s.maxLogs), history := s.history + [s.tasks[i].event])
    case Begin(i) =>
      var cast := NO_CAST.(start := s.connections, epoch := s.epoch, settled := s.connections == {});
      Go(SetCast(s, i, cast), i, if s.connections == {} then Casted else Casting)
    case Pick(i, c) =>
      var cast := s.tasks[i].cast;
      SetCast(s, i, cast.(attempted := cast.attempted + multiset{c}, sending := {c}))
    case SendOk(i) =>
      var cast := s.tasks[i].cast;
      SetCast(s, i, cast.(delivered := cast.delivered + multiset(cast.sending), sending := {}))
    case SendFail(i) =>
      var cast := s.tasks[i].cast;
      SetCast(s, i, cast.(failed := cast.failed + cast.sending, sending := {}))
    case Finish(i) => FinishCast(s, i)
    case Abort(i) => Go(s, i, Aborted)
    case Audit(i) =>
      Go(s, i, if s.tasks[i].job.DeniedFlow? then Audited else Done)
      .(counters := CountAudit(s.counters, LabelOf(s.tasks[i].event)))
    case Evaluate(client, required) =>
      var s' := s.(counters := CountDecision(s.counters, client, required));
      var d := multiset{DecisionLabel(client, required)};
      if Allows(client, required) then s'.(evaluatedAllowed := s.evaluatedAllowed + d)
      else s'.(evaluatedDenied := s.evaluatedDenied + d)
    case Open => s.(sessions := s.sessions + [Accepting])
    case Accept(j) => SetMembers(s, s.connections + {j}).(sessions := s.sessions[j := Streaming])
    case Refuse(j) => s.(sessions := s.sessions[j := Refused])
    case Close(j) => SetMembers(s, s.connections - {j}).(sessions := s.sessions[j := Returned])
    case Kill(j) => s.(sessions := s.sessions[j := Killed])
  }

  // ---- Runs ------------------------------------------------------------------------------

  ghost predicate Runs(s: State, run: seq<Action>)
    decreases |run|
  {
    run == [] || (Enabled(s, run[0]) && Runs(Step(s, run[0]), run[1..]))
  }

  function After(s: State, run: seq<Action>): State
    requires Runs(s, run)
    decreases |run|
  {
    if run == [] then s else After(Step(s, run[0]), run[1..])
  }

  // ---- What each task has contributed ----------------------------------------------------

  predicate HasInserted(t: Task) {
    !t.pc.Ready? && !t.pc.Counted?
  }

  predicate HasAudited(t: Task) {
    t.pc.Audited? || t.pc.Done?
  }

  predicate HasCounted(t: Task) {
    if t.job.SuccessFlow? then !t.pc.Ready? else t.job.DeniedFlow? && t.pc.Done?
  }

  /** Inserted, and neither audited nor aborted: in or before its broadcast, or about to count. */
  predicate InFlight(t: Task) {
    t.pc.Inserted? || t.pc.Casting? || t.pc.Casted?
  }

  function When<X>(b: bool, x: X): multiset<X> {
    if b then multiset{x} else multiset{}
  }

  function InsertedEvent(t: Task): multiset<AuditEvent> { When(HasInserted(t), t.event) }
  function InsertedLabel(t: Task): multiset<AuditLabel> { When(HasInserted(t), LabelOf(t.event)) }
  function AuditedLabel(t: Task): multiset<AuditLabel> { When(HasAudited(t), LabelOf(t.event)) }
  function InFlightLabel(t: Task): multiset<AuditLabel> { When(InFlight(t), LabelOf(t.event)) }
  function AbortedLabel(t: Task): multiset<AuditLabel> { When(t.pc.Aborted?, LabelOf(t.event)) }
  function EventLabel(e: AuditEvent): multiset<AuditLabel> { multiset{AuditLabel(e.eventType, e.status)} }

  function FlowHandshake(trustDomain: string): Task -> multiset<HandshakeLabel> {
    (t: Task) =>
      When(HasCounted(t), if t.job.DeniedFlow? then DeniedHandshake(trustDomain) else SuccessHandshake(trustDomain))
  }

  function FlowLatency(trustDomain: string): Task -> multiset<LatencyLabel> {
    (t: Task) =>
      When(HasCounted(t), LatencyLabel(if t.job.DeniedFlow? then UnauthorizedId(trustDomain) else ClientId(trustDomain),
                                       ServerId(trustDomain)))
  }

  function FlowDenied(trustDomain: string): Task -> multiset<DecisionLabel> {
    (t: Task) =>
      When(HasCounted(t) && t.job.DeniedFlow?, DecisionLabel(UnauthorizedId(trustDomain), ClientId(trustDomain)))
  }

  function FlowAllowed(trustDomain: string): Task -> multiset<DecisionLabel> {
    (t: Task) =>
      When(HasCounted(t) && t.job.SuccessFlow?, DecisionLabel(ClientId(trustDomain), ClientId(trustDomain)))
  }

  // ---- The invariant ---------------------------------------------------------------------

  ghost predicate LogInv(s: State) {
    |s.seeds| == SEED_COUNT && s.log == Window(s.history, s.seeds, s.maxLogs)
  }

  /** The history is what the tasks have inserted. */
  ghost predicate InsertTally(tasks: seq<Task>, history: seq<AuditEvent>) {
    && multiset(history) == Gather(tasks, InsertedEvent)
    && Gather(history, EventLabel) == Gather(tasks, InsertedLabel)
  }

  ghost predicate AuditTally(tasks: seq<Task>, audit: multiset<AuditLabel>) {
    audit == Gather(tasks, AuditedLabel)
  }

  /** The flow counters are what the flows have counted, and the policy evaluations on top. */
  ghost predicate FlowTally(tasks: seq<Task>, m: Counters, trustDomain: string,
                            allowed: multiset<DecisionLabel>, denied: multiset<DecisionLabel>) {
    && m.handshakes == Gather(tasks, FlowHandshake(trustDomain))
    && m.latency == Gather(tasks, FlowLatency(trustDomain))
    && m.denied == denied + Gather(tasks, FlowDenied(trustDomain))
    && m.allowed == allowed + Gather(tasks, FlowAllowed(trustDomain))
  }

  /** The history and every counter are sums of what the tasks have done so far. */
  ghost predicate TallyInv(s: State) {
    && InsertTally(s.tasks, s.history)
    && AuditTally(s.tasks, s.counters.audit)
    && FlowTally(s.tasks, s.counters, s.trustDomain, s.evaluatedAllowed, s.evaluatedDenied)
  }

  /** A task records what its job records, and only flows pass the stages of their kind. */
  predicate JobOk(t: Task) {
    && JobRecords(t.job, t.event)
    && (t.pc.Counted? ==> t.job.SuccessFlow?)
    && (t.pc.Audited? ==> t.job.DeniedFlow?)
  }

  ghost predicate JobInv(s: State) {
    forall i :: 0 <= i < |s.tasks| ==> JobOk(s.tasks[i])
  }

  /** The active set holds exactly the sessions that joined and have not disconnected, less those a
      broadcast has discarded. */
  ghost predicate MemberInv(s: State) {
    && (forall j: nat :: j in s.connections <==>
          j < |s.sessions| && (s.sessions[j].Streaming? || s.sessions[j].Killed?) && j !in s.dropped)
    && (forall j: nat :: j in s.dropped ==> j < |s.sessions| && !s.sessions[j].Accepting? && !s.sessions[j].Refused?)
  }

  /** An undisturbed broadcast has tried distinct members of its start, each delivered, failed or
      still under way; a settled one has tried every member once. */
  ghost predicate CastInv(s: State, t: Task) {
    var c := t.cast;
    && c.epoch <= s.epoch
    && (t.pc.Casting? && c.epoch == s.epoch ==>
          && s.connections == c.start && c.attempted <= multiset(c.start)
          && c.attempted == c.delivered + multiset(c.failed) + multiset(c.sending))
    && (c.settled ==>
          && c.attempted == multiset(c.start) && c.failed <= c.start
          && c.delivered == multiset(c.start - c.failed))
    && (t.pc.Casting? ==> !c.settled)
    && (t.pc.Ready? || t.pc.Counted? || t.pc.Inserted? ==> c == NO_CAST)
  }

  ghost predicate CastsInv(s: State) {
    forall i :: 0 <= i < |s.tasks| ==> CastInv(s, s.tasks[i])
  }

  ghost predicate Inv(s: State) {
    LogInv(s) && TallyInv(s) && JobInv(s) && MemberInv(s) && CastsInv(s)
  }
}
