/** What holds at every scheduling point of every run of the event loop, and over whole runs. */
module EventLoopTheorems {
  import opened AuditLog
  import opened Commands
  import opened EventLoop
  import opened EventLoopInvariant
  import opened Metrics
  import opened Tally
  import opened Text
  import FlowService
  import SpireService

  ghost predicate Reachable(s: State) {
    exists maxLogs: int, seeds: seq<AuditEvent>, trustDomain: string, run: seq<Action> ::
      && |seeds| == SEED_COUNT && Runs(Init(maxLogs, seeds, trustDomain), run)
      && s == After(Init(maxLogs, seeds, trustDomain), run)
  }

  lemma ReachableInv(s: State)
    requires Reachable(s)
    ensures Inv(s)
  {
    var maxLogs: int, seeds: seq<AuditEvent>, trustDomain: string, run: seq<Action> :|
      && |seeds| == SEED_COUNT && Runs(Init(maxLogs, seeds, trustDomain), run)
      && s == After(Init(maxLogs, seeds, trustDomain), run);
    InvAlways(maxLogs, seeds, trustDomain, run);
  }

  lemma ReachableLog(s: State)
    requires Reachable(s)
    ensures LogInv(s)
  {
    ReachableInv(s);
  }

  // ---- The log ---------------------------------------------------------------------------

  /** Whatever tasks interleave and whichever broadcasts abort, `get_logs(limit)` answers the newest
      inserts and then the seeds, item by item, as many as the limit asks for and the log holds. */
  lemma LogHoldsNewest(s: State, limit: int)
    requires Reachable(s)
    ensures var logs := Prefix(s.log, limit);
            var kept := Min(|s.history| + 4, Max(4, s.maxLogs));
            && |logs| == (if limit >= 0 then Min(limit, kept) else Max(0, kept + limit))
            && |s.seeds| == 4
            && forall k :: 0 <= k < |logs| ==>
                 logs[k] == if k < |s.history| then s.history[|s.history| - 1 - k] else s.seeds[k - |s.history|]
  {
    ReachableLog(s);
    SliceItems(s.history, s.seeds, s.maxLogs, limit);
  }

  /** Whatever tasks interleave and whichever broadcasts abort, the log has its exact length, and
      `get_logs(limit)` answers like an unbounded log exactly for limits up to the capacity, while
      nothing has been dropped, or when both answers are empty. */
  lemma LogReadsLikeUnbounded(s: State, limit: int)
    requires Reachable(s)
    ensures |s.log| == Min(SEED_COUNT + |s.history|, Capacity(s.maxLogs))
    ensures multiset(s.history) == Gather(s.tasks, InsertedEvent)
    ensures Prefix(s.log, limit) == Prefix(Everything(s.history, s.seeds), limit)
        <==> || 0 <= limit <= Capacity(s.maxLogs)
             || SEED_COUNT + |s.history| <= Capacity(s.maxLogs)
             || -limit >= SEED_COUNT + |s.history|
  {
    ReachableInv(s);
    WindowLength(s.history, s.seeds, s.maxLogs);
    WindowReads(s.history, s.seeds, s.maxLogs, limit);
  }

  // ---- The audit counter -----------------------------------------------------------------

  predicate Untallied(t: Task) {
    InFlight(t) || t.pc.Aborted?
  }

  function UntalliedLabel(t: Task): multiset<AuditLabel> { When(Untallied(t), LabelOf(t.event)) }

  /** Conservation, label by label: every insert has been audited, is in flight, or was aborted. */
  lemma AuditConserved(s: State)
    requires Reachable(s)
    ensures Gather(s.history, EventLabel)
         == s.counters.audit + (Gather(s.tasks, InFlightLabel) + Gather(s.tasks, AbortedLabel))
  {
    ReachableInv(s);
    AuditGap(s);
    GatherSplit(s.tasks, UntalliedLabel, InFlightLabel, AbortedLabel);
  }

  lemma AuditGap(s: State)
    requires TallyInv(s)
    ensures Gather(s.history, EventLabel) == s.counters.audit + Gather(s.tasks, UntalliedLabel)
  {
    GatherSplit(s.tasks, InsertedLabel, AuditedLabel, UntalliedLabel);
  }

  /** The audit counter equals the inserts exactly when nothing is in flight and nothing aborted. */
  lemma AuditComplete(s: State)
    requires Reachable(s)
    ensures s.counters.audit == Gather(s.history, EventLabel) <==> forall t :: t in s.tasks ==> !Untallied(t)
  {
    ReachableInv(s);
    AuditGap(s);
    var audit, gap := s.counters.audit, Gather(s.tasks, UntalliedLabel);
    GatherEmpty(s.tasks, UntalliedLabel, Untallied);
    assert |audit + gap| == |audit| + |gap|;
  }

  lemma {:induction false} GatherEmpty<T, X>(xs: seq<T>, f: T -> multiset<X>, p: T -> bool)
    requires forall x :: x in xs ==> (f(x) == multiset{} <==> !p(x))
    ensures Gather(xs, f) == multiset{} <==> forall x :: x in xs ==> !p(x)
  {
    if xs != [] {
      var n := |xs| - 1;
      assert xs[n] in xs && xs == xs[..n] + [xs[n]];
      GatherEmpty(xs[..n], f, p);
      assert |Gather(xs, f)| == |Gather(xs[..n], f)| + |f(xs[n])|;
    }
  }

  // ---- The flow counters -----------------------------------------------------------------

  predicate CountedDenied(t: Task) { HasCounted(t) && t.job.DeniedFlow? }
  predicate CountedSuccess(t: Task) { HasCounted(t) && t.job.SuccessFlow? }

  /** How often each flow counter has moved, in flows that have counted. */
  lemma FlowSizes(s: State)
    requires TallyInv(s)
    ensures |s.counters.handshakes| == Count(s.tasks, HasCounted) == |s.counters.latency|
    ensures |s.counters.denied| == |s.evaluatedDenied| + Count(s.tasks, CountedDenied)
    ensures |s.counters.allowed| == |s.evaluatedAllowed| + Count(s.tasks, CountedSuccess)
    ensures Count(s.tasks, HasCounted) == Count(s.tasks, CountedDenied) + Count(s.tasks, CountedSuccess)
  {
    GatherSizes(s.tasks, FlowHandshake(s.trustDomain), HasCounted);
    GatherSizes(s.tasks, FlowLatency(s.trustDomain), HasCounted);
    GatherSizes(s.tasks, FlowDenied(s.trustDomain), CountedDenied);
    GatherSizes(s.tasks, FlowAllowed(s.trustDomain), CountedSuccess);
    CountSplit(s.tasks, HasCounted, CountedDenied, CountedSuccess);
  }

  lemma HandshakeCounts(s: State)
    requires TallyInv(s)
    ensures s.counters.handshakes[DeniedHandshake(s.trustDomain)] == Count(s.tasks, CountedDenied)
    ensures s.counters.handshakes[SuccessHandshake(s.trustDomain)] == Count(s.tasks, CountedSuccess)
  {
    assert DeniedHandshake(s.trustDomain).status != SuccessHandshake(s.trustDomain).status;
    GatherCounts(s.tasks, FlowHandshake(s.trustDomain), DeniedHandshake(s.trustDomain), CountedDenied);
    GatherCounts(s.tasks, FlowHandshake(s.trustDomain), SuccessHandshake(s.trustDomain), CountedSuccess);
  }

  /** At every scheduling point: one latency observation per handshake request; one decision per
      handshake request and policy evaluation; the denials are the denied handshakes and the denied
      evaluations, the approvals likewise. */
  lemma FlowsBalance(s: State)
    requires Reachable(s)
    ensures var m := s.counters;
            && |m.latency| == |m.handshakes|
            && |m.allowed| + |m.denied| == |m.handshakes| + |s.evaluatedAllowed| + |s.evaluatedDenied|
            && |m.denied| == m.handshakes[DeniedHandshake(s.trustDomain)] + |s.evaluatedDenied|
            && |m.allowed| == m.handshakes[SuccessHandshake(s.trustDomain)] + |s.evaluatedAllowed|
  {
    ReachableInv(s);
    FlowSizes(s);
    HandshakeCounts(s);
  }

  function AllowedBy(a: Action): multiset<DecisionLabel> {
    if a.Evaluate? && Strip(a.client) == Strip(a.required) then multiset{DecisionLabel(a.client, a.required)}
    else multiset{}
  }

  function DeniedBy(a: Action): multiset<DecisionLabel> {
    if a.Evaluate? && Strip(a.client) != Strip(a.required) then multiset{DecisionLabel(a.client, a.required)}
    else multiset{}
  }

  /** The evaluations in those sums are the `Evaluate` steps of the run. */
  lemma {:induction false} EvaluationsAreTheRuns(s: State, run: seq<Action>)
    requires Runs(s, run)
    ensures After(s, run).evaluatedAllowed == s.evaluatedAllowed + Gather(run, AllowedBy)
    ensures After(s, run).evaluatedDenied == s.evaluatedDenied + Gather(run, DeniedBy)
    decreases |run|
  {
    if run != [] {
      EvaluationsAreTheRuns(Step(s, run[0]), run[1..]);
      EvaluationStep(s, run[0]);
      GatherFirst(run, AllowedBy);
      GatherFirst(run, DeniedBy);
    }
  }

  lemma EvaluationStep(s: State, a: Action)
    requires Enabled(s, a)
    ensures Step(s, a).evaluatedAllowed == s.evaluatedAllowed + AllowedBy(a)
    ensures Step(s, a).evaluatedDenied == s.evaluatedDenied + DeniedBy(a)
  {
  }

  lemma GatherFirst<T, X>(xs: seq<T>, f: T -> multiset<X>)
    requires xs != []
    ensures Gather(xs, f) == f(xs[0]) + Gather(xs[1..], f)
  {
    assert xs == [xs[0]] + xs[1..];
    GatherAppend([xs[0]], xs[1..], f);
    GatherSnoc([], xs[0], f);
    assert [] + [xs[0]] == [xs[0]];
  }

  // ---- Audit before count, count before audit --------------------------------------------

  predicate InsertedDenied(t: Task) { HasInserted(t) && t.job.DeniedFlow? }
  predicate InsertedSuccess(t: Task) { HasInserted(t) && t.job.SuccessFlow? }
  predicate UncountedDenied(t: Task) { InsertedDenied(t) && !HasCounted(t) }
  predicate AbortedDenied(t: Task) { t.pc.Aborted? && t.job.DeniedFlow? }
  predicate PendingDenied(t: Task) { UncountedDenied(t) && !t.pc.Aborted? }
  predicate UninsertedSuccess(t: Task) { t.pc.Counted? && t.job.SuccessFlow? }

  lemma EventCounts(s: State)
    requires TallyInv(s) && JobInv(s)
    ensures Gather(s.history, EventLabel)[DENIED_LABEL] == Count(s.tasks, InsertedDenied)
    ensures Gather(s.history, EventLabel)[SUCCESS_LABEL] == Count(s.tasks, InsertedSuccess)
  {
    GatherCounts(s.tasks, InsertedLabel, DENIED_LABEL, InsertedDenied);
    GatherCounts(s.tasks, InsertedLabel, SUCCESS_LABEL, InsertedSuccess);
  }

  lemma ReachableCounts(s: State)
    requires Reachable(s)
    ensures Gather(s.history, EventLabel)[DENIED_LABEL] == Count(s.tasks, InsertedDenied)
    ensures Gather(s.history, EventLabel)[SUCCESS_LABEL] == Count(s.tasks, InsertedSuccess)
    ensures s.counters.handshakes[DeniedHandshake(s.trustDomain)] == Count(s.tasks, CountedDenied)
    ensures s.counters.handshakes[SuccessHandshake(s.trustDomain)] == Count(s.tasks, CountedSuccess)
    ensures JobInv(s)
  {
    ReachableInv(s);
    EventCounts(s);
    HandshakeCounts(s);
  }

  /** The events the flows and `create_entry` record are those of their jobs, in every state. */
  lemma ServicesSpawnTheirJobs(s: State, trustDomain: string, id: string, now: string, latency: string,
                               req: CreateRequest, code: int, details: string)
    ensures Enabled(s, Spawn(DeniedFlow, FlowService.DeniedEvent(trustDomain, id, now)))
    ensures Enabled(s, Spawn(SuccessFlow, FlowService.SuccessEvent(trustDomain, id, now, latency)))
    ensures Enabled(s, Spawn(Plain, SpireService.CreateEvent(req, code, id, now, details)))
  {
  }

  /** A denied flow audits before it counts: the recorded denials exceed the denied handshakes by
      the denied flows between the two, plus those aborted in their broadcast. */
  lemma DenialsAuditFirst(s: State)
    requires Reachable(s)
    ensures Gather(s.history, EventLabel)[AuditLabel(MtlsPolicyDenied, Denied)]
         == s.counters.handshakes[DeniedHandshake(s.trustDomain)]
          + Count(s.tasks, PendingDenied) + Count(s.tasks, AbortedDenied)
  {
    ReachableCounts(s);
    CountSplit(s.tasks, InsertedDenied, CountedDenied, UncountedDenied);
    CountSplit(s.tasks, UncountedDenied, PendingDenied, AbortedDenied);
  }

  /** A successful flow counts before it audits: the successful handshakes exceed the recorded
      successes by the flows between the two. Aborted flows have done both. */
  lemma SuccessesCountFirst(s: State)
    requires Reachable(s)
    ensures s.counters.handshakes[SuccessHandshake(s.trustDomain)]
         == Gather(s.history, EventLabel)[AuditLabel(MtlsAuthSuccess, Success)] + Count(s.tasks, UninsertedSuccess)
  {
    ReachableCounts(s);
    CountSplit(s.tasks, CountedSuccess, InsertedSuccess, UninsertedSuccess);
  }
}
