/** The Prometheus counters of the control plane. A counter is the multiset of the labels it was
    incremented with: a label's multiplicity is its value, the size of the multiset the total. */
module Metrics {
  import opened AuditLog
  import opened Text

  datatype HandshakeLabel = HandshakeLabel(client: string, server: string, status: string, statusCode: string)
  datatype LatencyLabel = LatencyLabel(client: string, server: string)
  datatype DecisionLabel = DecisionLabel(client: string, required: string)

  datatype Counters = Counters(
    audit: multiset<AuditLabel>,
    handshakes: multiset<HandshakeLabel>,
    latency: multiset<LatencyLabel>,
    allowed: multiset<DecisionLabel>,
    denied: multiset<DecisionLabel>)

  const NO_COUNTERS := Counters(multiset{}, multiset{}, multiset{}, multiset{}, multiset{})

  function ClientId(trustDomain: string): string { "spiffe://" + trustDomain + "/client-worker" }
  function ServerId(trustDomain: string): string { "spiffe://" + trustDomain + "/backend-api" }
  function UnauthorizedId(trustDomain: string): string { "spiffe://" + trustDomain + "/unauthorized-worker" }

  function DeniedHandshake(trustDomain: string): HandshakeLabel {
    HandshakeLabel(UnauthorizedId(trustDomain), ServerId(trustDomain), "denied", "403")
  }

  function SuccessHandshake(trustDomain: string): HandshakeLabel {
    HandshakeLabel(ClientId(trustDomain), ServerId(trustDomain), "success", "200")
  }

  function CountAudit(m: Counters, kind: AuditLabel): Counters {
    m.(audit := m.audit + multiset{kind})
  }

  /** The increment group of a denied flow. */
  function CountDeniedFlow(m: Counters, trustDomain: string): Counters {
    m.(handshakes := m.handshakes + multiset{DeniedHandshake(trustDomain)},
       latency := m.latency + multiset{LatencyLabel(UnauthorizedId(trustDomain), ServerId(trustDomain))},
       denied := m.denied + multiset{DecisionLabel(UnauthorizedId(trustDomain), ClientId(trustDomain))})
  }

  /** The increment group of a successful flow. */
  function CountSuccessFlow(m: Counters, trustDomain: string): Counters {
    m.(handshakes := m.handshakes + multiset{SuccessHandshake(trustDomain)},
       latency := m.latency + multiset{LatencyLabel(ClientId(trustDomain), ServerId(trustDomain))},
       allowed := m.allowed + multiset{DecisionLabel(ClientId(trustDomain), ClientId(trustDomain))})
  }

  /** `evaluate_policy` compares stripped ids and counts the ids as they were given. */
  predicate Allows(client: string, required: string) {
    Strip(client) == Strip(required)
  }

  function CountDecision(m: Counters, client: string, required: string): Counters {
    if Allows(client, required) then m.(allowed := m.allowed + multiset{DecisionLabel(client, required)})
    else m.(denied := m.denied + multiset{DecisionLabel(client, required)})
  }
}
