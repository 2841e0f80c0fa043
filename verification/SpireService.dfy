/** `SpireService`: the loops of `list_entries`, `list_agents` and `create_entry`, proved against
    the functions of `Entries`, `Agents` and `Commands`. */
module SpireService {
  import opened Agents
  import opened AuditLog
  import opened Commands
  import opened Entries
  import opened EntryIds
  import opened EventService
  import opened Listing
  import opened Metrics
  import opened Numerals
  import opened Records
  import opened Text
  import opened Wrappers

  /** The dictionary `list_entries` fills line by line; `None` for a key that is absent. */
  datatype EntryDict = EntryDict(
    id: Option<string>, spiffeId: Option<string>, parentId: Option<string>,
    ttl: Option<int>, admin: Option<bool>, selectors: seq<string>, dnsNames: seq<string>)

  /** The dictionary `list_agents` fills line by line. */
  datatype AgentDict = AgentDict(
    spiffeId: Option<string>, serialNumber: Option<string>, expiresAt: Option<string>, selectors: seq<string>)

  /** The values given for each attribute. */
  type Given = Attribute -> seq<string>

  function ValuesIn(fs: seq<Field>): Given {
    a => Values(fs, a)
  }

  ghost predicate EntryDictOf(d: EntryDict, given: Given) {
    && d.id == LastOption(given(EntryId))
    && d.spiffeId == LastOption(given(SpiffeId))
    && d.parentId == LastOption(given(ParentId))
    && d.ttl == (if given(Ttl) == [] then None else
                   match ParseInt(given(Ttl)[|given(Ttl)| - 1])
                   case None => Some(3600)
                   case Some(n) => Some(n))
    && d.admin == (if given(Admin) == [] then None else Some(Lower(LastOr(given(Admin), "")) == "true"))
    && d.selectors == given(Selector)
    && d.dnsNames == given(DnsName)
  }

  ghost predicate AgentDictOf(d: AgentDict, given: Given) {
    && d.spiffeId == LastOption(given(SpiffeId))
    && d.serialNumber == LastOption(given(SerialNumber))
    && d.expiresAt == LastOption(given(ExpirationTime))
    && d.selectors == TypeSelectors(given(AttestationType))
  }

  /** `after` gives the values of `before` and then those of `f`. */
  ghost predicate Extends(after: Given, before: Given, f: Field) {
    forall a :: after(a) == if f.attr == a then before(a) + [f.value] else before(a)
  }

  /** Reading one more line. */
  lemma NextLine(lines: seq<string>, i: nat)
    requires i < |lines|
    ensures match SplitField(lines[i])
            case None => Fields(lines[..i + 1]) == Fields(lines[..i])
            case Some(kv) =>
              Extends(ValuesIn(Fields(lines[..i + 1])), ValuesIn(Fields(lines[..i])), Field(Classify(kv.key), kv.value))
  {
    var fs := Fields(lines[..i]);
    assert lines[..i + 1] == lines[..i] + [lines[i]];
    FieldsSnoc(lines[..i], lines[i]);
    assert fs + [] == fs;
    if SplitField(lines[i]).Some? {
      var kv := SplitField(lines[i]).value;
      var f := Field(Classify(kv.key), kv.value);
      forall a
        ensures Values(fs + [f], a) == if f.attr == a then Values(fs, a) + [f.value] else Values(fs, a)
      {
        ValuesSnoc(fs, f, a);
      }
    }
  }

  lemma {:induction false} TypeSelectorsSnoc(types: seq<string>, t: string)
    ensures TypeSelectors(types + [t]) == TypeSelectors(types) + ["type:" + t]
  {
    if types == [] {
      assert types + [t] == [t] && [t][1..] == [];
    } else {
      assert (types + [t])[1..] == types[1..] + [t];
      TypeSelectorsSnoc(types[1..], t);
    }
  }

  /** One pass of the entry loop's if/elif chain. */
  method PutEntryField(d: EntryDict, f: Field, ghost before: Given, ghost after: Given) returns (r: EntryDict)
    requires EntryDictOf(d, before) && Extends(after, before, f)
    ensures EntryDictOf(r, after)
  {
    r := d;
    var value := f.value;
    match f.attr {
      case EntryId => r := r.(id := Some(value));
      case SpiffeId => r := r.(spiffeId := Some(value));
      case ParentId => r := r.(parentId := Some(value));
      case Ttl =>
        match ParseInt(value) {
          case None => r := r.(ttl := Some(DEFAULT_TTL));
          case Some(n) => r := r.(ttl := Some(n));
        }
      case Selector => r := r.(selectors := r.selectors + [value]);
      case DnsName => r := r.(dnsNames := r.dnsNames + [value]);
      case Admin => r := r.(admin := Some(Lower(value) == "true"));
      case _ =>
    }
  }

  /** One pass of the agent loop's if/elif chain. */
  method PutAgentField(d: AgentDict, f: Field, ghost before: Given, ghost after: Given) returns (r: AgentDict)
    requires AgentDictOf(d, before) && Extends(after, before, f)
    ensures AgentDictOf(r, after)
  {
    r := d;
    var value := f.value;
    TypeSelectorsSnoc(before(AttestationType), value);
    match f.attr {
      case SpiffeId => r := r.(spiffeId := Some(value));
      case SerialNumber => r := r.(serialNumber := Some(value));
      case ExpirationTime => r := r.(expiresAt := Some(value));
      case AttestationType => r := r.(selectors := r.selectors + ["type:" + value]);
      case _ =>
    }
  }

  /** The line loop over one chunk of `list_entries`. */
  method ReadEntryLines(lines: seq<string>) returns (d: EntryDict)
    ensures EntryDictOf(d, ValuesIn(Fields(lines)))
  {
    d := EntryDict(None, None, None, None, None, [], []);
    for i := 0 to |lines|
      invariant EntryDictOf(d, ValuesIn(Fields(lines[..i])))
    {
      NextLine(lines, i);
      match SplitField(lines[i]) {
        case None =>
        case Some(kv) =>
          d := PutEntryField(d, Field(Classify(kv.key), kv.value),
                             ValuesIn(Fields(lines[..i])), ValuesIn(Fields(lines[..i + 1])));
      }
    }
    assert lines[..|lines|] == lines;
  }

  /** The line loop over one chunk of `list_agents`. */
  method ReadAgentLines(lines: seq<string>) returns (d: AgentDict)
    ensures AgentDictOf(d, ValuesIn(Fields(lines)))
  {
    d := AgentDict(None, None, None, []);
    for i := 0 to |lines|
      invariant AgentDictOf(d, ValuesIn(Fields(lines[..i])))
    {
      NextLine(lines, i);
      match SplitField(lines[i]) {
        case None =>
        case Some(kv) =>
          d := PutAgentField(d, Field(Classify(kv.key), kv.value),
                             ValuesIn(Fields(lines[..i])), ValuesIn(Fields(lines[..i + 1])));
      }
    }
    assert lines[..|lines|] == lines;
  }

  /** The items of the first `i` chunks. */
  function ItemsUpTo<T>(chunks: seq<string>, i: nat, header: string, read: Reader<T>): seq<T>
    requires i <= |chunks|
  {
    Collect(ChunkFields(header, chunks[..i]), read)
  }

  lemma ItemsNext<T>(chunks: seq<string>, i: nat, header: string, read: Reader<T>)
    requires i < |chunks|
    ensures ItemsUpTo(chunks, i + 1, header, read)
         == ItemsUpTo(chunks, i, header, read)
          + match read(TextFields(header + chunks[i])) case None => [] case Some(x) => [x]
  {
    assert chunks[..i + 1] == chunks[..i] + [chunks[i]];
    ChunkFieldsAppend(header, chunks[..i], [chunks[i]]);
    ChunkFieldsOne(header, chunks[i]);
    CollectAppend(ChunkFields(header, chunks[..i]), [TextFields(header + chunks[i])], read);
    CollectOne(TextFields(header + chunks[i]), read);
  }

  lemma ItemsOfAll<T>(text: string, header: string, read: Reader<T>)
    requires header != ""
    ensures ItemsUpTo(Split(text, header), |Split(text, header)|, header, read) == Parse(text, header, read)
  {
    var chunks := Split(text, header);
    assert chunks[..|chunks|] == chunks;
  }

  datatype CreateResponse = CreateResponse(status: string, entryId: string, spiffeId: string, message: string)

  function CreateEvent(req: CreateRequest, code: int, id: string, now: string, details: string): AuditEvent {
    AuditEvent(id, now, EntryCreate, "dashboard-admin", req.spiffeId, if code == 0 then Success else Failed, details)
  }

  class SpireService {
    const trustDomain: string
    const container: string
    const events: EventService
    // The gauges the listing methods set, for this trust domain.
    var registeredWorkloads: int
    var activeSvids: int
    var attestedAgents: int

    constructor (trustDomain: string, container: string, events: EventService)
      ensures this.trustDomain == trustDomain && this.container == container && this.events == events
      ensures registeredWorkloads == 0 && activeSvids == 0 && attestedAgents == 0
    {
      this.trustDomain, this.container, this.events := trustDomain, container, events;
      registeredWorkloads, activeSvids, attestedAgents := 0, 0, 0;
    }

    /** The entries shown when the command fails or prints nothing. */
    function DemoEntries(): (es: seq<WorkloadEntry>)
      ensures |es| == 2
    {
      var spiffe := "spiffe://" + trustDomain;
      [WorkloadEntry("entry-backend-001", spiffe + "/backend-api", DefaultParent(trustDomain),
                     ["docker:label:workload:backend-api"], DEFAULT_TTL, false, ["backend-api"]),
       WorkloadEntry("entry-client-002", spiffe + "/client-worker", DefaultParent(trustDomain),
                     ["docker:label:workload:client-worker"], DEFAULT_TTL, false, ["client-worker"])]
    }

    /** One chunk of `list_entries`: skipped if blank, otherwise read line by line. */
    method ReadEntryChunk(raw: string) returns (entry: Option<WorkloadEntry>)
      ensures var fs := TextFields("Entry ID" + raw);
              && entry == EntryOf(fs, trustDomain)
              && (entry.Some? <==> !Lacks(fs, EntryId) && !Lacks(fs, SpiffeId))
              && (entry.Some? ==> Entries.Reports(entry.value, fs, trustDomain))
    {
      EntryReportsRecord(TextFields(ENTRY_HEADER + raw), trustDomain);
      HeadersAreHeaders();
      TrueIsTrue();
      if Strip(raw) == "" {
        BlankChunk(raw, ENTRY_HEADER);
        return None;
      }
      var d := ReadEntryLines(SplitLines(ENTRY_HEADER + raw));
      if d.id.None? || d.spiffeId.None? {
        return None;
      }
      entry := Some(WorkloadEntry(
                      d.id.value, d.spiffeId.value,
                      if d.parentId.Some? then d.parentId.value else DefaultParent(trustDomain),
                      d.selectors,
                      if d.ttl.Some? then d.ttl.value else DEFAULT_TTL,
                      if d.admin.Some? then d.admin.value else false,
                      d.dnsNames));
    }

    /** `list_entries`, given what the command returned. */
    method ListEntries(code: int, stdout: string) returns (entries: seq<WorkloadEntry>)
      modifies this`registeredWorkloads, this`activeSvids
      ensures code != 0 || stdout == "" ==>
                && entries == DemoEntries()
                && registeredWorkloads == old(registeredWorkloads) && activeSvids == old(activeSvids)
      ensures code == 0 && stdout != "" ==>
                && entries == ParseEntries(stdout, trustDomain)
                && registeredWorkloads == |entries| && activeSvids == registeredWorkloads + 1
    {
      if code != 0 || stdout == "" {
        return DemoEntries();
      }
      entries := [];
      var rawEntries := Split(stdout, ENTRY_HEADER);
      for i := 0 to |rawEntries|
        invariant entries == ItemsUpTo(rawEntries, i, ENTRY_HEADER, EntryReader(trustDomain))
      {
        ItemsNext(rawEntries, i, ENTRY_HEADER, EntryReader(trustDomain));
        var entry := ReadEntryChunk(rawEntries[i]);
        if entry.Some? {
          entries := entries + [entry.value];
        }
      }
      ItemsOfAll(stdout, ENTRY_HEADER, EntryReader(trustDomain));
      registeredWorkloads := |entries|;
      activeSvids := |entries| + 1;
    }

    /** One chunk of `list_agents`: skipped if blank, otherwise read line by line. */
    method ReadAgentChunk(raw: string) returns (agent: Option<NodeAgent>)
      ensures var fs := TextFields("SPIFFE ID" + raw);
              && agent == AgentOf(fs)
              && (agent.Some? <==> !Lacks(fs, SpiffeId))
              && (agent.Some? ==> Agents.Reports(agent.value, fs))
    {
      AgentReportsRecord(TextFields(AGENT_HEADER + raw));
      HeadersAreHeaders();
      if Strip(raw) == "" {
        BlankChunk(raw, AGENT_HEADER);
        return None;
      }
      var d := ReadAgentLines(SplitLines(AGENT_HEADER + raw));
      if d.spiffeId.None? {
        return None;
      }
      agent := Some(NodeAgent(
                      d.spiffeId.value, d.expiresAt,
                      if d.serialNumber.Some? then d.serialNumber.value else NO_SERIAL,
                      ATTESTED, d.selectors));
    }

    /** `list_agents`, given what the command returned; the demo agent carries the current time. */
    method ListAgents(code: int, stdout: string, demo: NodeAgent) returns (agents: seq<NodeAgent>)
      modifies this`attestedAgents
      ensures code != 0 || stdout == "" ==> agents == [demo] && attestedAgents == old(attestedAgents)
      ensures code == 0 && stdout != "" ==> agents == ParseAgents(stdout) && attestedAgents == |agents|
    {
      if code != 0 || stdout == "" {
        return [demo];
      }
      agents := [];
      var rawAgents := Split(stdout, AGENT_HEADER);
      for i := 0 to |rawAgents|
        invariant agents == ItemsUpTo(rawAgents, i, AGENT_HEADER, AgentReader)
      {
        ItemsNext(rawAgents, i, AGENT_HEADER, AgentReader);
        var agent := ReadAgentChunk(rawAgents[i]);
        if agent.Some? {
          agents := agents + [agent.value];
        }
      }
      ItemsOfAll(stdout, AGENT_HEADER, AgentReader);
      attestedAgents := |agents|;
    }

    /** `create_entry`, given what its command returned: the vector it runs decodes to the request;
        the answer names the id found in the output; one event is recorded, failed or not. */
    method CreateEntry(req: CreateRequest, code: int, stdout: string,
                       eventId: string, now: string, details: string, broken: set<nat>)
      returns (argv: seq<string>, response: CreateResponse)
      requires events.Valid() && Printable(req.ttl)
      modifies events, events.registry
      ensures Decode(argv) == Some(Command(container, req, "/run/spire/server-sockets/api.sock"))
      ensures |argv| >= 4 && argv[..4] == ["docker", "exec", container, "/opt/spire/bin/spire-server"]
      ensures match SearchId(stdout)
              case Some(id) => response.entryId == id
              case None => && |response.entryId| >= 10 && response.entryId[..10] == "generated-"
                           && IsLastSegment(response.entryId[10..], req.spiffeId)
      ensures response.status == (if code == 0 then "success" else "simulated") && response.spiffeId == req.spiffeId
      ensures response.message
           == if AllSpace(stdout) then "Entry " + req.spiffeId + " registered successfully" else Strip(stdout)
      ensures var status := if code == 0 then Success else Failed;
              && events.history == old(events.history)
                 + [AuditEvent(eventId, now, EntryCreate, "dashboard-admin", req.spiffeId, status, details)]
              && events.registry.m == CountAudit(old(events.registry.m), AuditLabel(EntryCreate, status))
      ensures events.Valid() && events.activeConnections == old(events.activeConnections) - broken
    {
      var cmdArgs := BuildCreateArgs(req);
      argv := ServerCommand(container, cmdArgs);
      DecodeEncoded(req, container);
      var entryId := ReportedId(stdout, req.spiffeId);
      ReportedSegment(stdout, req.spiffeId);
      var recorded := events.RecordEvent(CreateEvent(req, code, eventId, now, details), broken);
      StripEmpty(stdout);
      var message := Strip(stdout);
      if message == "" {
        message := "Entry " + req.spiffeId + " registered successfully";
      }
      response := CreateResponse(if code == 0 then "success" else "simulated", entryId, req.spiffeId, message);
    }
  }
}
