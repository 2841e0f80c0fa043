/** What a task's broadcast has done, told from the actions of the run alone: which connections it
    has picked, and how each send ended. The `Cast` of every task is exactly that. */
module EventLoopSends {
  import opened AuditLog
  import opened EventLoop
  import opened EventLoopInvariant
  import opened EventLoopTheorems

  // ---- Sends of a run --------------------------------------------------------------------

  /** An action in the send loop of task `i`. */
  predicate Sends(a: Action, i: nat) {
    (a.Pick? || a.SendOk? || a.SendFail?) && a.task == i
  }

  /** The connection that task `i` picked last, if its send has not ended. */
  function Unanswered(run: seq<Action>, i: nat): set<nat> {
    if run == [] then {} else
      var n := |run| - 1;
      if !Sends(run[n], i) then Unanswered(run[..n], i)
      else if run[n].Pick? then {run[n].connection} else {}
  }

  function PickedBy(run: seq<Action>, i: nat): multiset<nat> {
    if run == [] then multiset{} else
      var n := |run| - 1;
      PickedBy(run[..n], i) + if run[n].Pick? && run[n].task == i then multiset{run[n].connection} else multiset{}
  }

  /** The connections to which a send of task `i` ended in success, as often as it did. */
  function DeliveredBy(run: seq<Action>, i: nat): multiset<nat> {
    if run == [] then multiset{} else
      var n := |run| - 1;
      DeliveredBy(run[..n], i) + if run[n] == SendOk(i) then multiset(Unanswered(run[..n], i)) else multiset{}
  }

  /** The connections to which a send of task `i` failed. */
  function FailedBy(run: seq<Action>, i: nat): set<nat> {
    if run == [] then {} else
      var n := |run| - 1;
      FailedBy(run[..n], i) + if run[n] == SendFail(i) then Unanswered(run[..n], i) else {}
  }

  /** No action of task `i`'s send loop from `k` on. */
  ghost predicate SilentFrom(run: seq<Action>, i: nat, k: nat) {
    forall j :: k <= j < |run| ==> !Sends(run[j], i)
  }

  ghost predicate PickedAt(run: seq<Action>, i: nat, c: nat, k: nat) {
    k < |run| && run[k] == Pick(i, c) && SilentFrom(run, i, k + 1)
  }

  lemma {:induction false} UnansweredMeans(run: seq<Action>, i: nat, c: nat)
    ensures c in Unanswered(run, i) <==> exists k: nat :: PickedAt(run, i, c, k)
  {
    if run != [] {
      var n := |run| - 1;
      var before := run[..n];
      UnansweredMeans(before, i, c);
      if Sends(run[n], i) {
        assert PickedAt(run, i, c, n) <==> run[n] == Pick(i, c);
      } else {
        forall k: nat
          ensures PickedAt(run, i, c, k) <==> PickedAt(before, i, c, k)
        {
          assert forall j :: 0 <= j < n ==> run[j] == before[j];
        }
      }
    }
  }

  /** A send of task `i` to `c` ends at `m` in this way: `c` was picked before, and nothing in the
      task's send loop happened in between. */
  ghost predicate EndsAt(run: seq<Action>, i: nat, c: nat, end: Action, m: nat) {
    m < |run| && run[m] == end && exists k: nat :: PickedAt(run[..m], i, c, k)
  }

  lemma EndsLater(run: seq<Action>, i: nat, c: nat, end: Action)
    requires run != []
    ensures var n := |run| - 1;
            (exists m: nat :: EndsAt(run, i, c, end, m))
            <==> (exists m: nat :: EndsAt(run[..n], i, c, end, m)) || (run[n] == end && c in Unanswered(run[..n], i))
  {
    var n := |run| - 1;
    var before := run[..n];
    UnansweredMeans(before, i, c);
    assert EndsAt(run, i, c, end, n) <==> run[n] == end && c in Unanswered(before, i);
    forall m: nat | m < n
      ensures EndsAt(run, i, c, end, m) <==> EndsAt(before, i, c, end, m)
    {
      assert run[..m] == before[..m];
    }
  }

  /** The failed connections are those picked whose next send action is a failure, the ones
      delivered to those whose next send action is a success. */
  lemma {:induction false} SendsMean(run: seq<Action>, i: nat, c: nat)
    ensures c in FailedBy(run, i) <==> exists m: nat :: EndsAt(run, i, c, SendFail(i), m)
    ensures c in DeliveredBy(run, i) <==> exists m: nat :: EndsAt(run, i, c, SendOk(i), m)
  {
    if run != [] {
      SendsMean(run[..|run| - 1], i, c);
      EndsLater(run, i, c, SendFail(i));
      EndsLater(run, i, c, SendOk(i));
    }
  }

  // ---- The state agrees with the run -----------------------------------------------------

  lemma {:induction false} RunSnoc(s: State, run: seq<Action>)
    requires Runs(s, run) && run != []
    ensures var n := |run| - 1;
            Runs(s, run[..n]) && Enabled(After(s, run[..n]), run[n]) && After(s, run) == Step(After(s, run[..n]), run[n])
    decreases |run|
  {
    var n := |run| - 1;
    if n > 0 {
      RunSnoc(Step(s, run[0]), run[1..]);
      assert run[..n][1..] == run[1..][..n - 1];
    }
  }

  predicate HasBegun(t: Task) {
    !t.pc.Ready? && !t.pc.Counted? && !t.pc.Inserted?
  }

  /** How one action changes the account of task `i`'s broadcast. */
  predicate Books(c: Cast, c': Cast, a: Action, i: nat) {
    match a
    case Pick(j, x) =>
      if j != i then SameBooking(c, c') else
        && c'.sending == {x} && c'.attempted == c.attempted + multiset{x}
        && c'.delivered == c.delivered && c'.failed == c.failed
    case SendOk(j) =>
      if j != i then SameBooking(c, c') else
        && c'.sending == {} && c'.attempted == c.attempted
        && c'.delivered == c.delivered + multiset(c.sending) && c'.failed == c.failed
    case SendFail(j) =>
      if j != i then SameBooking(c, c') else
        && c'.sending == {} && c'.attempted == c.attempted
        && c'.delivered == c.delivered && c'.failed == c.failed + c.sending
    case _ => SameBooking(c, c')
  }

  predicate SameBooking(c: Cast, c': Cast) {
    c'.sending == c.sending && c'.attempted == c.attempted && c'.delivered == c.delivered && c'.failed == c.failed
  }

  lemma StepBooks(s: State, a: Action, i: nat)
    requires Enabled(s, a) && i < |s.tasks| && (HasBegun(s.tasks[i]) || s.tasks[i].cast == NO_CAST)
    ensures i < |Step(s, a).tasks| && Books(s.tasks[i].cast, Step(s, a).tasks[i].cast, a, i)
  {
  }

  lemma SpawnsAreFresh(s: State, a: Action, i: nat)
    requires Enabled(s, a) && |s.tasks| <= i
    ensures !Sends(a, i)
    ensures i < |Step(s, a).tasks| ==> Step(s, a).tasks[i].cast == NO_CAST
  {
  }

  /** What the run says of task `i`'s broadcast. */
  ghost predicate ToldBy(c: Cast, run: seq<Action>, i: nat) {
    && c.sending == Unanswered(run, i) && c.attempted == PickedBy(run, i)
    && c.delivered == DeliveredBy(run, i) && c.failed == FailedBy(run, i)
  }

  lemma PicksSnoc(before: seq<Action>, a: Action, i: nat)
    ensures Unanswered(before + [a], i)
         == if !Sends(a, i) then Unanswered(before, i) else if a.Pick? then {a.connection} else {}
    ensures PickedBy(before + [a], i)
         == PickedBy(before, i) + if a.Pick? && a.task == i then multiset{a.connection} else multiset{}
  {
    assert (before + [a])[..|before|] == before;
  }

  lemma EndsSnoc(before: seq<Action>, a: Action, i: nat)
    ensures DeliveredBy(before + [a], i)
         == DeliveredBy(before, i) + if a == SendOk(i) then multiset(Unanswered(before, i)) else multiset{}
    ensures FailedBy(before + [a], i) == FailedBy(before, i) + if a == SendFail(i) then Unanswered(before, i) else {}
  {
    assert (before + [a])[..|before|] == before;
  }

  lemma ToldNext(c: Cast, c': Cast, before: seq<Action>, a: Action, i: nat)
    requires ToldBy(c, before, i) && Books(c, c', a, i)
    ensures ToldBy(c', before + [a], i)
  {
    PicksSnoc(before, a, i);
    EndsSnoc(before, a, i);
  }

  /** A task that does not exist yet has sent nothing. */
  function CastOf(s: State, i: nat): Cast {
    if i < |s.tasks| then s.tasks[i].cast else NO_CAST
  }

  lemma ToldStep(s: State, before: seq<Action>, a: Action, i: nat)
    requires CastsInv(s) && Enabled(s, a) && ToldBy(CastOf(s, i), before, i)
    ensures ToldBy(CastOf(Step(s, a), i), before + [a], i)
  {
    if i < |s.tasks| {
      assert CastInv(s, s.tasks[i]);
      StepBooks(s, a, i);
    } else {
      SpawnsAreFresh(s, a, i);
    }
    ToldNext(CastOf(s, i), CastOf(Step(s, a), i), before, a, i);
  }

  lemma NothingTold(s: State, i: nat)
    requires CastsInv(s) && (i < |s.tasks| ==> !HasBegun(s.tasks[i]))
    ensures ToldBy(CastOf(s, i), [], i)
  {
    assert i < |s.tasks| ==> CastInv(s, s.tasks[i]);
  }

  lemma {:induction false} CastsAlways(s: State, run: seq<Action>)
    requires CastsInv(s) && Runs(s, run)
    ensures CastsInv(After(s, run))
    decreases |run|
  {
    if run != [] {
      CastsKept(s, run[0]);
      CastsAlways(Step(s, run[0]), run[1..]);
    }
  }

  /** The account kept of a task's broadcast is what the run says, for every task that had not begun
      to broadcast, or did not exist, when the run started. */
  lemma {:induction false} CastIsTheRuns(s: State, run: seq<Action>, i: nat)
    requires CastsInv(s) && Runs(s, run) && (i < |s.tasks| ==> !HasBegun(s.tasks[i]))
    ensures ToldBy(CastOf(After(s, run), i), run, i)
    decreases |run|
  {
    if run == [] {
      NothingTold(s, i);
    } else {
      var before, a := run[..|run| - 1], run[|run| - 1];
      RunSnoc(s, run);
      CastIsTheRuns(s, before, i);
      CastsAlways(s, before);
      ToldStep(After(s, before), before, a, i);
      assert run == before + [a];
    }
  }
}
