/** The telemetry poll loop: a countdown per workload that starts again at 3600 seconds, and the
    gauges that show it. */
module Telemetry {
  import opened Wrappers

  const FULL_TTL := 3600
  const POLL_SECONDS := 10
  const ROTATE_BELOW := 60

  /** One poll of one countdown. */
  function NextTtl(ttl: int): int {
    var remaining := if ttl - POLL_SECONDS > 0 then ttl - POLL_SECONDS else 0;
    if remaining < ROTATE_BELOW then FULL_TTL else remaining
  }

  /** Whether the next poll starts the countdown again. */
  predicate Rotates(ttl: int) {
    ttl - POLL_SECONDS < ROTATE_BELOW
  }

  function TtlAfter(ttl: int, polls: nat): int {
    if polls == 0 then ttl else NextTtl(TtlAfter(ttl, polls - 1))
  }

  function Rotations(ttl: int, polls: nat): nat {
    if polls == 0 then 0 else
      Rotations(ttl, polls - 1) + if Rotates(TtlAfter(ttl, polls - 1)) then 1 else 0
  }

  // ---- Closed forms ----------------------------------------------------------------------

  /** The poll, counted from one, that rotates first. */
  function FirstRotation(ttl: int): nat {
    if ttl < 70 then 1 else (ttl - 60) / 10 + 1
  }

  /** From any integer at all, the countdown runs straight down to its first rotation and is
      periodic from there on. */
  lemma {:induction false} TtlClosedForm(ttl: int, polls: nat)
    ensures TtlAfter(ttl, polls)
         == (var first := FirstRotation(ttl);
             if polls < first then ttl - 10 * polls else 3600 - 10 * ((polls - first) % 355))
  {
    if polls > 0 {
      TtlClosedForm(ttl, polls - 1);
    }
  }

  lemma {:induction false} RotationsClosedForm(ttl: int, polls: nat)
    ensures Rotations(ttl, polls)
         == (var first := FirstRotation(ttl);
             if polls < first then 0 else 1 + (polls - first) / 355)
  {
    if polls > 0 {
      TtlClosedForm(ttl, polls - 1);
      RotationsClosedForm(ttl, polls - 1);
    }
  }

  lemma PeriodShift(polls: nat)
    ensures polls >= 355 ==> (polls - 355) % 355 == polls % 355 && (polls - 355) / 355 + 1 == polls / 355
    ensures polls < 355 ==> polls % 355 == polls && polls / 355 == 0
  {
  }

  lemma TenTimes(n: int)
    ensures (3600 - 10 * n) % 10 == 0
  {
    assert 3600 - 10 * n == 10 * (360 - n);
  }

  /** A countdown that starts full, after any number of polls. */
  lemma {:induction false} FullCountdown(polls: nat)
    ensures TtlAfter(3600, polls) == 3600 - 10 * (polls % 355)
  {
    assert FirstRotation(3600) == 355;
    TtlClosedForm(3600, polls);
    PeriodShift(polls);
  }

  lemma FullRotations(polls: nat)
    ensures Rotations(3600, polls) == polls / 355
  {
    assert FirstRotation(3600) == 355;
    RotationsClosedForm(3600, polls);
    PeriodShift(polls);
  }

  /** A countdown that starts full shows multiples of ten in range, never less than a minute. */
  lemma {:induction false} FullRange(polls: nat)
    ensures 60 <= TtlAfter(3600, polls) <= 3600 && TtlAfter(3600, polls) % 10 == 0
  {
    FullCountdown(polls);
    TenTimes(polls % 355);
  }

  predicate Settled(ttl: int) {
    60 <= ttl <= 3600
  }

  /** Polls until a countdown is in range for the first time. */
  function SettlingTime(ttl: int): nat {
    if ttl < 60 then 1 else if ttl <= 3600 then 0 else (ttl - 3600 + 9) / 10
  }

  /** From any integer, the countdown is in range exactly from its settling time on. */
  lemma SettlesAndStays(ttl: int, polls: nat)
    ensures Settled(TtlAfter(ttl, polls)) <==> polls >= SettlingTime(ttl)
  {
    TtlClosedForm(ttl, polls);
  }

  // ---- The loop --------------------------------------------------------------------------

  /** What a poll read from SPIRE: how many entries and how many agents. */
  datatype Counts = Counts(entries: nat, agents: nat)

  /** The polls that got past the two listing calls. */
  function Completed(outcomes: seq<Option<Counts>>): nat {
    if outcomes == [] then 0 else
      var n := |outcomes| - 1;
      Completed(outcomes[..n]) + if outcomes[n].Some? then 1 else 0
  }

  class Poller {
    var ttls: map<string, int>
    var ttlGauge: map<string, int>
    var registeredWorkloads: int
    var activeSvids: int
    var attestedAgents: int
    /** Complete polls so far. */
    ghost var polls: nat

    /** Every tracked countdown is where that many polls from full lead, and is shown as it is. */
    ghost predicate Valid()
      reads this
    {
      && (forall w :: w in ttls ==> ttls[w] == TtlAfter(FULL_TTL, polls))
      && (polls > 0 ==> ttls.Keys <= ttlGauge.Keys && activeSvids == registeredWorkloads + 1)
      && (polls > 0 ==> forall w :: w in ttls ==> ttlGauge[w] == ttls[w])
    }

    constructor ()
      ensures Valid() && polls == 0 && ttlGauge == map[]
      ensures ttls == map["backend-api" := FULL_TTL, "client-worker" := FULL_TTL]
    {
      ttls := map["backend-api" := FULL_TTL, "client-worker" := FULL_TTL];
      ttlGauge := map[];
      registeredWorkloads, activeSvids, attestedAgents := 0, 0, 0;
      polls := 0;
    }

    /** The countdown loop over all workloads. */
    method CountDown()
      modifies this`ttls, this`ttlGauge
      ensures ttls.Keys == old(ttls.Keys) <= ttlGauge.Keys
      ensures forall w :: w in ttls ==> ttls[w] == ttlGauge[w] == NextTtl(old(ttls)[w])
      ensures forall w :: w !in ttls ==>
                (w in ttlGauge <==> w in old(ttlGauge)) && (w in ttlGauge ==> ttlGauge[w] == old(ttlGauge)[w])
    {
      var items := ttls;
      var todo := items.Keys;
      while todo != {}
        invariant todo <= items.Keys == ttls.Keys
        invariant items.Keys - todo <= ttlGauge.Keys
        invariant forall w :: w in items ==> ttls[w] == if w in todo then items[w] else NextTtl(items[w])
        invariant forall w :: w in items && w !in todo ==> ttlGauge[w] == NextTtl(items[w])
        invariant forall w :: w !in items ==>
                    (w in ttlGauge <==> w in old(ttlGauge)) && (w in ttlGauge ==> ttlGauge[w] == old(ttlGauge)[w])
        decreases |todo|
      {
        var workload :| workload in todo;
        var remaining := if items[workload] - POLL_SECONDS > 0 then items[workload] - POLL_SECONDS else 0;
        if remaining < ROTATE_BELOW {
          remaining := FULL_TTL;
        }
        assert remaining == NextTtl(items[workload]);
        ttls := ttls[workload := remaining];
        ttlGauge := ttlGauge[workload := remaining];
        todo := todo - {workload};
      }
    }

    /** One poll; `None` is a poll whose listing calls raised, which leaves everything as it was. */
    method Poll(outcome: Option<Counts>)
      requires Valid()
      modifies this
      ensures Valid() && ttls.Keys == old(ttls.Keys)
      ensures polls == old(polls) + if outcome.Some? then 1 else 0
      ensures outcome.None? ==> unchanged(`ttls, `ttlGauge, `registeredWorkloads, `activeSvids, `attestedAgents)
      ensures outcome.Some? ==>
                && registeredWorkloads == outcome.value.entries && activeSvids == outcome.value.entries + 1
                && attestedAgents == outcome.value.agents
    {
      match outcome {
        case None =>
        case Some(counts) =>
          registeredWorkloads := counts.entries;
          activeSvids := counts.entries + 1;
          attestedAgents := counts.agents;
          CountDown();
          polls := polls + 1;
      }
    }

    /** Any number of rounds of the loop, whichever of them fail: afterwards every countdown is the
        closed form of the number of complete polls, and its gauge shows it. */
    method Run(outcomes: seq<Option<Counts>>)
      requires Valid()
      modifies this
      ensures Valid() && polls == old(polls) + Completed(outcomes) && ttls.Keys == old(ttls.Keys)
      ensures forall w :: w in ttls ==> ttls[w] == 3600 - 10 * (polls % 355)
      ensures polls > 0 ==> forall w :: w in ttls ==> w in ttlGauge && ttlGauge[w] == ttls[w]
    {
      for i := 0 to |outcomes|
        invariant Valid() && polls == old(polls) + Completed(outcomes[..i]) && ttls.Keys == old(ttls.Keys)
      {
        assert outcomes[..i + 1][..i] == outcomes[..i];
        Poll(outcomes[i]);
      }
      assert outcomes[..|outcomes|] == outcomes;
      FullCountdown(polls);
    }
  }
}
