/** Who is subscribed, and what a broadcast reaches. */
module EventLoopDelivery {
  import opened AuditLog
  import opened EventLoop
  import opened EventLoopInvariant
  import opened EventLoopSends
  import opened EventLoopTheorems
  import opened Tally

  // ---- The subscriber set ----------------------------------------------------------------

  /** The connection of session j can never again be in the active set. */
  predicate Gone(s: State, j: nat) {
    j < |s.sessions| && (s.sessions[j].Returned? || s.sessions[j].Refused? || j in s.dropped)
  }

  /** The active set is exactly the sessions that joined and have not disconnected, less those a
      broadcast has discarded. If every session ended by an exception the handler catches, that is
      the sessions still streaming. */
  lemma SubscribersAreLive(s: State, j: nat)
    requires Reachable(s)
    ensures j in s.connections <==>
              j < |s.sessions| && (s.sessions[j].Streaming? || s.sessions[j].Killed?) && j !in s.dropped
    ensures Gone(s, j) ==> j !in s.connections
    ensures (forall k :: 0 <= k < |s.sessions| ==> !s.sessions[k].Killed?) ==>
              (j in s.connections <==> InSession(s, j, Streaming) && j !in s.dropped)
  {
    ReachableInv(s);
  }

  lemma StaysGone(s: State, a: Action, j: nat)
    requires MemberInv(s) && Enabled(s, a) && Gone(s, j)
    ensures Gone(Step(s, a), j)
  {
  }

  /** Once a session has returned, or a broadcast has discarded its connection, no later step puts
      the connection back: not another broadcast, nor the session's own disconnect. */
  lemma {:induction false} GoneForGood(s: State, run: seq<Action>, j: nat)
    requires Inv(s) && Runs(s, run) && Gone(s, j)
    ensures Gone(After(s, run), j) && j !in After(s, run).connections
    decreases |run|
  {
    if run != [] {
      StaysGone(s, run[0], j);
      StepKeepsInv(s, run[0]);
      GoneForGood(Step(s, run[0]), run[1..], j);
    }
  }

  // ---- One broadcast ---------------------------------------------------------------------

  lemma StartStep(s: State, a: Action, i: nat)
    requires Enabled(s, a) && i < |s.tasks| && HasBegun(s.tasks[i])
    ensures i < |Step(s, a).tasks| && HasBegun(Step(s, a).tasks[i])
    ensures Step(s, a).tasks[i].cast.start == s.tasks[i].cast.start
    ensures Step(s, a).tasks[i].cast.epoch == s.tasks[i].cast.epoch
  {
    if s.tasks[i] != Step(s, a).tasks[i] {
      OwnerMoves(s, a, i);
    }
  }

  lemma {:induction false} StartFixed(s: State, run: seq<Action>, i: nat)
    requires Runs(s, run) && i < |s.tasks| && HasBegun(s.tasks[i])
    ensures i < |After(s, run).tasks| && HasBegun(After(s, run).tasks[i])
    ensures After(s, run).tasks[i].cast.start == s.tasks[i].cast.start
    ensures After(s, run).tasks[i].cast.epoch == s.tasks[i].cast.epoch
    decreases |run|
  {
    if run != [] {
      StartStep(s, run[0], i);
      StartFixed(Step(s, run[0]), run[1..], i);
    }
  }

  /** What a broadcast that began with these members has done by the time it ends. */
  ghost predicate ReachedAll(start: set<nat>, end: State, i: nat) {
    && i < |end.tasks|
    && var cast := end.tasks[i].cast;
       && cast.attempted == multiset(start)
       && cast.failed <= start
       && end.connections == start - cast.failed
       && cast.delivered == multiset(end.connections)
  }

  /** Throughout the run, these are the members. */
  ghost predicate Steady(s: State, run: seq<Action>, members: set<nat>)
    requires Runs(s, run)
    decreases |run|
  {
    s.connections == members && (run == [] || Steady(Step(s, run[0]), run[1..], members))
  }

  lemma EpochStep(s: State, a: Action)
    requires Enabled(s, a) && Step(s, a).connections == s.connections
    ensures Step(s, a).epoch == s.epoch
  {
  }

  lemma {:induction false} SteadyEpoch(s: State, run: seq<Action>, members: set<nat>)
    requires Runs(s, run) && Steady(s, run, members)
    ensures After(s, run).epoch == s.epoch && After(s, run).connections == members
    decreases |run|
  {
    if run != [] {
      SteadyEpoch(Step(s, run[0]), run[1..], members);
      EpochStep(s, run[0]);
    }
  }

  lemma BegunWith(s: State, run: seq<Action>, i: nat)
    requires Inv(s) && Runs(s, run) && run != [] && run[0] == Begin(i) && Enabled(s, Begin(i))
    ensures var end := After(s, run);
            && i < |end.tasks| && HasBegun(end.tasks[i]) && Inv(end)
            && end.tasks[i].cast.start == s.connections && end.tasks[i].cast.epoch == s.epoch
  {
    BeginStarts(s, i);
    StartFixed(Step(s, run[0]), run[1..], i);
    RunKeepsInv(s, run);
  }

  /** A broadcast during which membership does not change, whatever other tasks do: it tries every
      member exactly once, delivers to all whose send does not fail, and leaves the starting set
      less exactly those whose send failed. What was sent and how it ended is read off the run. */
  lemma BroadcastDelivers(s: State, i: nat, run: seq<Action>, end: State)
    requires Reachable(s) && Runs(s, run) && end == After(s, run)
    requires run != [] && run[0] == Begin(i) && Steady(s, run, s.connections) && Enabled(end, Finish(i))
    ensures var failed := FailedBy(run, i);
            && PickedBy(run, i) == multiset(s.connections)
            && failed <= s.connections
            && DeliveredBy(run, i) == multiset(s.connections - failed)
            && Step(end, Finish(i)).connections == s.connections - failed
  {
    ReachableInv(s);
    SteadyEpoch(s, run, s.connections);
    BegunWith(s, run, i);
    CastIsTheRuns(s, run, i);
    FinishDelivers(end, i);
    FinishKeepsAccount(end, i);
  }

  lemma FinishKeepsAccount(s: State, i: nat)
    requires Enabled(s, Finish(i))
    ensures var c, c' := s.tasks[i].cast, Step(s, Finish(i)).tasks[i].cast;
            c'.attempted == c.attempted && c'.delivered == c.delivered && c'.failed == c.failed
    ensures Step(s, Finish(i)).connections == s.connections - s.tasks[i].cast.failed
  {
  }

  lemma AbortKeepsMembers(s: State, i: nat)
    requires Enabled(s, Abort(i))
    ensures Step(s, Abort(i)).connections == s.connections
  {
  }

  lemma ReachableCasts(s: State)
    requires Reachable(s)
    ensures CastsInv(s) && MemberInv(s)
  {
    ReachableInv(s);
  }

  /** Whatever happened to membership meanwhile, a broadcast that ends discards exactly the members
      to which its sends failed, and one that aborts discards nobody. */
  lemma FailuresAreDiscarded(s: State, i: nat, run: seq<Action>, end: State)
    requires Reachable(s) && Runs(s, run) && end == After(s, run)
    requires i < |s.tasks| ==> !HasBegun(s.tasks[i])
    ensures Enabled(end, Finish(i)) ==> Step(end, Finish(i)).connections == end.connections - FailedBy(run, i)
    ensures Enabled(end, Abort(i)) ==> Step(end, Abort(i)).connections == end.connections
  {
    ReachableCasts(s);
    CastIsTheRuns(s, run, i);
    if Enabled(end, Finish(i)) {
      FinishKeepsAccount(end, i);
    }
    if Enabled(end, Abort(i)) {
      AbortKeepsMembers(end, i);
    }
  }

  lemma Joins(s: State, j: nat)
    requires InSession(s, j, Accepting)
    ensures && Enabled(s, Accept(j)) && Enabled(s, Refuse(j)) && Step(s, Refuse(j)).connections == s.connections
            && Step(s, Accept(j)).connections == s.connections + {j} && InSession(Step(s, Accept(j)), j, Streaming)
  {
  }

  lemma Leaves(s: State, j: nat)
    requires InSession(s, j, Streaming)
    ensures && Enabled(s, Close(j)) && Enabled(s, Kill(j)) && Step(s, Kill(j)).connections == s.connections
            && Step(s, Close(j)).connections == s.connections - {j} && InSession(Step(s, Close(j)), j, Returned)
  {
  }

  /** A client is added if it is accepted and not if it is refused; a handler that catches an
      exception takes its own client out, one that is cancelled leaves it; all are always possible. */
  lemma SessionsJoinAndLeave(s: State, j: nat)
    requires Reachable(s)
    ensures InSession(s, j, Accepting) ==>
              && Enabled(s, Accept(j)) && j !in s.connections
              && Enabled(s, Refuse(j)) && Step(s, Refuse(j)).connections == s.connections
              && Step(s, Accept(j)).connections == s.connections + {j} && InSession(Step(s, Accept(j)), j, Streaming)
    ensures InSession(s, j, Streaming) ==>
              && Enabled(s, Close(j))
              && Step(s, Close(j)).connections == s.connections - {j} && InSession(Step(s, Close(j)), j, Returned)
              && Enabled(s, Kill(j)) && Step(s, Kill(j)).connections == s.connections
  {
    ReachableCasts(s);
    if InSession(s, j, Accepting) {
      Joins(s, j);
    } else if InSession(s, j, Streaming) {
      Leaves(s, j);
    }
  }

  lemma BeginStarts(s: State, i: nat)
    requires Enabled(s, Begin(i))
    ensures var t := Step(s, Begin(i)).tasks[i];
            HasBegun(t) && t.cast.start == s.connections && t.cast.epoch == s.epoch
  {
  }

  lemma FinishDelivers(s: State, i: nat)
    requires CastsInv(s) && Enabled(s, Finish(i)) && Undisturbed(s, i)
    ensures ReachedAll(s.tasks[i].cast.start, Step(s, Finish(i)), i)
  {
    assert CastInv(s, s.tasks[i]);
    CastSettles(s, i);
  }

  /** The set iterator raises only if membership has changed since the broadcast began. */
  lemma OnlyChangesRaise(s: State, i: nat)
    requires Reachable(s) && Enabled(s, Abort(i)) && s.tasks[i].cast.sending == {}
    ensures !Undisturbed(s, i)
  {
    ReachableInv(s);
    assert CastInv(s, s.tasks[i]);
  }

  /** Python's iterator between two sends: it raises exactly if the set has another size than at the
      start. While membership is unchanged it yields the members not yet tried, and ends exactly
      when there are none. */
  lemma IteratorIsPythons(s: State, i: nat, c: nat)
    requires Reachable(s) && At(s, i, Casting) && s.tasks[i].cast.sending == {}
    ensures Enabled(s, Abort(i)) <==> |s.connections| != |s.tasks[i].cast.start|
    ensures Enabled(s, Abort(i)) ==> !Enabled(s, Finish(i)) && !Enabled(s, Pick(i, c))
    ensures Undisturbed(s, i) ==>
              && s.connections == s.tasks[i].cast.start
              && (Enabled(s, Pick(i, c)) <==> c in s.connections && c !in s.tasks[i].cast.attempted)
              && (Enabled(s, Finish(i)) <==> s.tasks[i].cast.attempted == multiset(s.connections))
  {
    ReachableCasts(s);
    assert CastInv(s, s.tasks[i]);
    if Undisturbed(s, i) {
      AllTried(s.tasks[i].cast.attempted, s.connections);
    }
  }

  lemma AllTried(attempted: multiset<nat>, members: set<nat>)
    requires attempted <= multiset(members)
    ensures attempted == multiset(members) <==> forall c :: c in members ==> c in attempted
  {
    if forall c :: c in members ==> c in attempted {
      forall c
        ensures attempted[c] == multiset(members)[c]
      {
        assert attempted[c] <= multiset(members)[c];
      }
    }
  }

  /** A send under way may end in success, in failure or in cancellation. */
  lemma SendsEndEitherWay(s: State, i: nat)
    requires At(s, i, Casting) && s.tasks[i].cast.sending != {}
    ensures Enabled(s, SendOk(i)) && Enabled(s, SendFail(i)) && Enabled(s, Abort(i))
    ensures Step(s, SendFail(i)).tasks[i].cast.failed == s.tasks[i].cast.failed + s.tasks[i].cast.sending
    ensures Step(s, Abort(i)).tasks[i].pc == Aborted
  {
  }

  predicate AtRest(t: Task) {
    t.pc.Done? || t.pc.Aborted?
  }

  ghost predicate Moves(s: State, i: nat, a: Action) {
    Enabled(s, a) && i < |s.tasks| && i < |Step(s, a).tasks| && Step(s, a).tasks[i] != s.tasks[i]
  }

  lemma CastingNeverSticks(s: State, i: nat)
    requires At(s, i, Casting)
    ensures exists a :: Moves(s, i, a)
  {
    var t := s.tasks[i];
    if t.cast.sending != {} {
      assert Moves(s, i, SendOk(i));
    } else if !SizeUnchanged(s, i) {
      assert Moves(s, i, Abort(i));
    } else if c: nat :| c in s.connections && c !in t.cast.attempted {
      assert Step(s, Pick(i, c)).tasks[i].cast.sending == {c};
      assert Moves(s, i, Pick(i, c));
    } else {
      assert Moves(s, i, Finish(i));
    }
  }

  lemma OthersNeverStick(s: State, i: nat)
    requires i < |s.tasks| && !AtRest(s.tasks[i]) && !s.tasks[i].pc.Casting? && JobOk(s.tasks[i])
    ensures exists a :: Moves(s, i, a)
  {
    var t := s.tasks[i];
    if t.pc.Inserted? {
      assert Step(s, Begin(i)).tasks[i].pc != Inserted;
      assert Moves(s, i, Begin(i));
    } else if t.pc.Casted? {
      assert Moves(s, i, Audit(i));
    } else if t.pc.Audited? || (t.pc.Ready? && t.job.SuccessFlow?) {
      assert Moves(s, i, CountFlow(i));
    } else {
      assert Moves(s, i, Insert(i));
    }
  }

  /** No task waits for another: one that has not ended always has a step of its own. */
  lemma TasksNeverStick(s: State, i: nat)
    requires Reachable(s) && i < |s.tasks| && !AtRest(s.tasks[i])
    ensures exists a :: Moves(s, i, a)
  {
    ReachableInv(s);
    assert JobOk(s.tasks[i]);
    if s.tasks[i].pc.Casting? {
      CastingNeverSticks(s, i);
    } else {
      OthersNeverStick(s, i);
    }
  }
}
