/** `FlowService` as it behaves while nothing else runs: which event a flow records, and which
    counters it moves by how much. */
module FlowService {
  import opened AuditLog
  import opened EventService
  import opened Metrics
  import opened Text

  datatype FlowResponse = FlowResponse(status: string, clientId: string, serverId: string, statusCode: int)

  function DeniedEvent(trustDomain: string, id: string, now: string): AuditEvent {
    AuditEvent(id, now, MtlsPolicyDenied, UnauthorizedId(trustDomain), ServerId(trustDomain), AuditLog.Denied,
               "Rejected request: Client SPIFFE ID not in authorization allowlist")
  }

  function SuccessEvent(trustDomain: string, id: string, now: string, latency: string): AuditEvent {
    AuditEvent(id, now, MtlsAuthSuccess, ClientId(trustDomain), ServerId(trustDomain), AuditLog.Success,
               "Keyless mTLS handshake completed in " + latency + "ms (Status: 200 OK)")
  }

  /** The books balance: one latency observation and one decision per handshake request, and one
      decision per policy evaluation on top. */
  ghost predicate Balanced(m: Counters, evaluations: nat) {
    |m.latency| == |m.handshakes| && |m.allowed| + |m.denied| == |m.handshakes| + evaluations
  }

  /** The increments behind a response: its handshake and latency, its decision on one side only,
      and one audit event. */
  ghost predicate Moved(before: Counters, after: Counters, response: FlowResponse, trustDomain: string) {
    var denied := response.statusCode == 403;
    var decision := DecisionLabel(response.clientId, "spiffe://" + trustDomain + "/client-worker");
    var audit := if denied then AuditLabel(MtlsPolicyDenied, AuditLog.Denied)
                 else AuditLabel(MtlsAuthSuccess, AuditLog.Success);
    var handshake := HandshakeLabel(response.clientId, response.serverId, response.status,
                                    if denied then "403" else "200");
    && after.handshakes == before.handshakes + multiset{handshake}
    && after.latency == before.latency + multiset{LatencyLabel(response.clientId, response.serverId)}
    && after.audit == before.audit + multiset{audit}
    && after.allowed == (if denied then before.allowed else before.allowed + multiset{decision})
    && after.denied == (if denied then before.denied + multiset{decision} else before.denied)
  }

  class FlowService {
    const trustDomain: string
    const events: EventService

    constructor (trustDomain: string, events: EventService)
      ensures this.trustDomain == trustDomain && this.events == events
    {
      this.trustDomain, this.events := trustDomain, events;
    }

    /** `execute_test_flow`; the id, time and latency are the event's, `broken` the connections
        whose sends raise. A denied flow audits before it counts, a successful one after. */
    method ExecuteTestFlow(simulateUnauthorized: bool, id: string, now: string, latency: string, broken: set<nat>,
                           ghost evaluations: nat)
      returns (response: FlowResponse)
      requires events.Valid()
      modifies events, events.registry
      ensures events.Valid()
      ensures var event := if simulateUnauthorized then DeniedEvent(trustDomain, id, now)
                           else SuccessEvent(trustDomain, id, now, latency);
              var counted := CountAudit(old(events.registry.m), LabelOf(event));
              && events.history == old(events.history) + [event]
              && events.registry.m == if simulateUnauthorized then CountDeniedFlow(counted, trustDomain)
                                      else CountSuccessFlow(counted, trustDomain)
      ensures Balanced(old(events.registry.m), evaluations) ==> Balanced(events.registry.m, evaluations)
      ensures var root := "spiffe://" + trustDomain;
              response == if simulateUnauthorized
                          then FlowResponse("denied", root + "/unauthorized-worker", root + "/backend-api", 403)
                          else FlowResponse("success", root + "/client-worker", root + "/backend-api", 200)
      ensures Moved(old(events.registry.m), events.registry.m, response, trustDomain)
      ensures var event := events.history[|old(events.history)|];
              && event.actor == response.clientId && event.target == response.serverId && event.id == id
              && event.eventType == (if simulateUnauthorized then MtlsPolicyDenied else MtlsAuthSuccess)
              && event.status == (if simulateUnauthorized then AuditLog.Denied else AuditLog.Success)
    {
      if simulateUnauthorized {
        var recorded := events.RecordEvent(DeniedEvent(trustDomain, id, now), broken);
        events.registry.m := CountDeniedFlow(events.registry.m, trustDomain);
        return FlowResponse("denied", UnauthorizedId(trustDomain), ServerId(trustDomain), 403);
      }
      events.registry.m := CountSuccessFlow(events.registry.m, trustDomain);
      var recorded := events.RecordEvent(SuccessEvent(trustDomain, id, now, latency), broken);
      return FlowResponse("success", ClientId(trustDomain), ServerId(trustDomain), 200);
    }

    method EvaluatePolicy(client: string, required: string, ghost evaluations: nat) returns (allowed: bool)
      modifies events.registry
      ensures allowed <==> Strip(client) == Strip(required)
      ensures var before, after := old(events.registry.m), events.registry.m;
              var decision := multiset{DecisionLabel(client, required)};
              && after.audit == before.audit && after.handshakes == before.handshakes && after.latency == before.latency
              && after.allowed == (if allowed then before.allowed + decision else before.allowed)
              && after.denied == (if allowed then before.denied else before.denied + decision)
      ensures Balanced(old(events.registry.m), evaluations) ==> Balanced(events.registry.m, evaluations + 1)
    {
      allowed := Strip(client) == Strip(required);
      events.registry.m := CountDecision(events.registry.m, client, required);
    }
  }
}
