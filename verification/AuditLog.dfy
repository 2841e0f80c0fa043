/** The in-memory audit log as a value: newest first, seeded with four events, bounded. */
module AuditLog {

  /** The event types and statuses recorded anywhere in the control plane. */
  datatype EventType =
    | SystemBoot | NodeAttestation | SvidMint
    | EntryCreate | EntryDelete | JoinTokenMint
    | MtlsPolicyDenied | MtlsAuthSuccess

  datatype Status = Success | Failed | Attempted | Denied

  datatype AuditEvent = AuditEvent(
    id: string, timestamp: string, eventType: EventType, actor: string, target: string, status: Status, details: string)

  /** The labels of the audit counter. */
  datatype AuditLabel = AuditLabel(eventType: EventType, status: Status)

  function LabelOf(e: AuditEvent): AuditLabel {
    AuditLabel(e.eventType, e.status)
  }

  const SEED_COUNT := 4

  const BOOT_DETAILS := "SPIRE Server initialized Root Certificate Authority and SQLite datastore"
  const NODE_DETAILS := "Node attested via join_token plugin and Docker socket inspection"
  const BACKEND_DETAILS := "Issued X.509 SVID (TTL: 3600s, Selector: docker:label:workload:backend-api)"
  const CLIENT_DETAILS := "Issued X.509 SVID (TTL: 3600s, Selector: docker:label:workload:client-worker)"

  function SeedEvents(ids: seq<string>, now: string): (seeds: seq<AuditEvent>)
    requires |ids| == SEED_COUNT
    ensures |seeds| == SEED_COUNT
    ensures forall i :: 0 <= i < SEED_COUNT ==>
              seeds[i].id == ids[i] && seeds[i].timestamp == now && seeds[i].status == Success
    ensures seeds[0].eventType == SystemBoot && seeds[1].eventType == NodeAttestation
    ensures seeds[2].eventType == seeds[3].eventType == SvidMint
  {
    [AuditEvent(ids[0], now, SystemBoot, "spire-server", "demo.local", Success, BOOT_DETAILS),
     AuditEvent(ids[1], now, NodeAttestation, "spire-agent", "spiffe://demo.local/node/agent", Success, NODE_DETAILS),
     AuditEvent(ids[2], now, SvidMint, "spire-server", "spiffe://demo.local/backend-api", Success, BACKEND_DETAILS),
     AuditEvent(ids[3], now, SvidMint, "spire-server", "spiffe://demo.local/client-worker", Success, CLIENT_DETAILS)]
  }

  /** `insert(0, e)`, then `pop()` if the log is longer than `maxLogs`. */
  function Push<T>(log: seq<T>, e: T, maxLogs: int): seq<T> {
    var longer := [e] + log;
    if |longer| > maxLogs then longer[..|longer| - 1] else longer
  }

  /** `s[:limit]` */
  function Prefix<T>(s: seq<T>, limit: int): seq<T> {
    if limit >= |s| then s
    else if limit >= 0 then s[..limit]
    else if |s| + limit >= 0 then s[..|s| + limit]
    else []
  }

  // ---- The unbounded log -----------------------------------------------------------------

  /** Everything ever recorded, newest first, with the seeds at the end. */
  function Everything<T>(history: seq<T>, seeds: seq<T>): (all: seq<T>)
    ensures |all| == |history| + |seeds|
  {
    if history == [] then seeds else
      var n := |history| - 1;
      [history[n]] + Everything(history[..n], seeds)
  }

  /** The seeds stay even if `maxLogs` is below their number. */
  function Capacity(maxLogs: int): nat {
    if maxLogs > SEED_COUNT then maxLogs else SEED_COUNT
  }

  function Min(a: int, b: int): int {
    if a < b then a else b
  }

  function Max(a: int, b: int): int {
    if a < b then b else a
  }

  function Window<T>(history: seq<T>, seeds: seq<T>, maxLogs: int): seq<T> {
    Prefix(Everything(history, seeds), Capacity(maxLogs))
  }

  /** The k-th newest event is the k-th from the end of the history. */
  lemma {:induction false} EverythingAt<T>(history: seq<T>, seeds: seq<T>, k: nat)
    requires k < |history| + |seeds|
    ensures Everything(history, seeds)[k]
         == if k < |history| then history[|history| - 1 - k] else seeds[k - |history|]
  {
    if history != [] && k > 0 {
      EverythingAt(history[..|history| - 1], seeds, k - 1);
    }
  }

  /** Pushing onto the window of a history gives the window of the longer history, for every
      `maxLogs`, zero and negative ones included. */
  lemma PushKeepsWindow<T>(history: seq<T>, seeds: seq<T>, e: T, maxLogs: int)
    requires |seeds| == SEED_COUNT
    ensures Push(Window(history, seeds, maxLogs), e, maxLogs) == Window(history + [e], seeds, maxLogs)
  {
    var all := Everything(history, seeds);
    var cap := Capacity(maxLogs);
    assert (history + [e])[..|history|] == history;
    assert Everything(history + [e], seeds) == [e] + all;
    if |all| >= cap {
      assert ([e] + all[..cap])[..cap] == ([e] + all)[..cap];
    }
  }

  lemma WindowLength<T>(history: seq<T>, seeds: seq<T>, maxLogs: int)
    requires |seeds| == SEED_COUNT
    ensures |Window(history, seeds, maxLogs)| == Min(SEED_COUNT + |history|, Capacity(maxLogs))
  {
  }

  /** The k-th newest event of all: the k-th from the end of the history, then the seeds. */
  function NthNewest<T>(history: seq<T>, seeds: seq<T>, k: nat): T
    requires k < |history| + |seeds|
  {
    if k < |history| then history[|history| - 1 - k] else seeds[k - |history|]
  }

  /** What a slice of the bounded log holds, item by item, for every limit: a limit from zero up
      gives that many of the newest, as far as there are any; a negative one leaves that many out. */
  lemma SliceItems<T>(history: seq<T>, seeds: seq<T>, maxLogs: int, limit: int)
    requires |seeds| == SEED_COUNT
    ensures var slice := Prefix(Window(history, seeds, maxLogs), limit);
            var kept := Min(|history| + 4, Max(4, maxLogs));
            && |slice| == (if limit >= 0 then Min(limit, kept) else Max(0, kept + limit))
            && forall k :: 0 <= k < |slice| ==> slice[k] == NthNewest(history, seeds, k)
  {
    var slice := Prefix(Window(history, seeds, maxLogs), limit);
    forall k | 0 <= k < |slice|
      ensures slice[k] == NthNewest(history, seeds, k)
    {
      EverythingAt(history, seeds, k);
      assert slice[k] == Everything(history, seeds)[k];
    }
  }

  /** Reading the bounded log and reading the unbounded one give the same answer exactly for limits
      up to the capacity, while nothing has been dropped, or when both answers are empty. */
  lemma WindowReads<T>(history: seq<T>, seeds: seq<T>, maxLogs: int, limit: int)
    requires |seeds| == SEED_COUNT
    ensures Prefix(Window(history, seeds, maxLogs), limit) == Prefix(Everything(history, seeds), limit)
        <==> || 0 <= limit <= Capacity(maxLogs)
             || SEED_COUNT + |history| <= Capacity(maxLogs)
             || -limit >= SEED_COUNT + |history|
  {
    var all := Everything(history, seeds);
    var cap := Capacity(maxLogs);
    if |all| > cap {
      assert 0 <= limit <= cap ==> all[..cap][..limit] == all[..limit];
    }
  }
}
