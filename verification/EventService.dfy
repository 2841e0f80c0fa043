/** `EventService` as it behaves while nothing else runs. What other tasks can do at its await
    points is the subject of `EventLoop`, which uses the same `Push`, `Prefix` and counters. */
module EventService {
  import opened AuditLog
  import opened Metrics

  /** The shared Prometheus registry. */
  class Registry {
    var m: Counters

    constructor ()
      ensures m == NO_COUNTERS
    {
      m := NO_COUNTERS;
    }
  }

  class EventService {
    const maxLogs: int
    const registry: Registry
    /** Connections are named by numbers. */
    var activeConnections: set<nat>
    var auditLogs: seq<AuditEvent>
    /** The seeds, and every event recorded since, oldest first. */
    ghost var seeds: seq<AuditEvent>
    ghost var history: seq<AuditEvent>

    /** The log is the capacity-long front of everything ever recorded. */
    ghost predicate Valid()
      reads this
    {
      |seeds| == SEED_COUNT && auditLogs == Window(history, seeds, maxLogs)
    }

    constructor (maxLogs: int, ids: seq<string>, now: string, registry: Registry)
      requires |ids| == SEED_COUNT
      ensures Valid() && history == [] && auditLogs == SeedEvents(ids, now) && activeConnections == {}
      ensures this.maxLogs == maxLogs && this.registry == registry
    {
      this.maxLogs, this.registry := maxLogs, registry;
      activeConnections := {};
      auditLogs := SeedEvents(ids, now);
      seeds, history := SeedEvents(ids, now), [];
    }

    /** `connect`, once the socket has accepted. */
    method Connect(connection: nat)
      modifies this`activeConnections
      ensures activeConnections == old(activeConnections) + {connection}
    {
      activeConnections := activeConnections + {connection};
    }

    method Disconnect(connection: nat)
      modifies this`activeConnections
      ensures activeConnections == old(activeConnections) - {connection}
    {
      activeConnections := activeConnections - {connection};
    }

    /** `broadcast` with no change of membership meanwhile; sends to `broken` connections raise.
        Every connection is tried exactly once and exactly the broken ones are dropped. */
    method Broadcast(broken: set<nat>) returns (attempts: seq<nat>)
      modifies this`activeConnections
      ensures multiset(attempts) == multiset(old(activeConnections))
      ensures activeConnections == old(activeConnections) - broken
    {
      attempts := [];
      if activeConnections == {} {
        return;
      }
      var dead: set<nat> := {};
      var rest := activeConnections;
      while rest != {}
        invariant rest <= activeConnections == old(activeConnections)
        invariant multiset(attempts) == multiset(activeConnections - rest)
        invariant dead == (activeConnections - rest) * broken
        decreases |rest|
      {
        var connection :| connection in rest;
        attempts := attempts + [connection];
        if connection in broken {
          dead := dead + {connection};
        }
        assert activeConnections - (rest - {connection}) == (activeConnections - rest) + {connection};
        rest := rest - {connection};
      }
      activeConnections := activeConnections - dead;
    }

    /** The locked section of `record_event`. */
    method Insert(event: AuditEvent)
      requires Valid()
      modifies this`auditLogs, this`history
      ensures Valid() && history == old(history) + [event]
    {
      PushKeepsWindow(history, seeds, event, maxLogs);
      auditLogs := [event] + auditLogs;
      if |auditLogs| > maxLogs {
        auditLogs := auditLogs[..|auditLogs| - 1];
      }
      history := history + [event];
    }

    method RecordEvent(event: AuditEvent, broken: set<nat>) returns (recorded: AuditEvent)
      requires Valid()
      modifies this`auditLogs, this`history, this`activeConnections, registry
      ensures Valid() && recorded == event && history == old(history) + [event]
      ensures activeConnections == old(activeConnections) - broken
      ensures registry.m == CountAudit(old(registry.m), LabelOf(event))
      ensures registry.m.audit == old(registry.m.audit) + multiset{AuditLabel(event.eventType, event.status)}
    {
      Insert(event);
      var attempts := Broadcast(broken);
      registry.m := CountAudit(registry.m, LabelOf(event));
      recorded := event;
    }

    /** The newest events, item by item. That is what an unbounded log answers for every limit the
        API admits, and exactly in the cases stated. */
    method GetLogs(limit: int) returns (logs: seq<AuditEvent>)
      requires Valid()
      ensures var kept := Min(|history| + 4, Max(4, maxLogs));
              |logs| == if limit >= 0 then Min(limit, kept) else Max(0, kept + limit)
      ensures forall k :: 0 <= k < |logs| ==>
                logs[k] == if k < |history| then history[|history| - 1 - k] else seeds[k - |history|]
      ensures logs == Prefix(Everything(history, seeds), limit)
          <==> || 0 <= limit <= Capacity(maxLogs)
               || SEED_COUNT + |history| <= Capacity(maxLogs)
               || -limit >= SEED_COUNT + |history|
    {
      logs := Prefix(auditLogs, limit);
      SliceItems(history, seeds, maxLogs, limit);
      WindowReads(history, seeds, maxLogs, limit);
    }
  }
}
