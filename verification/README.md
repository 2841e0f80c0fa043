# The ZeroKey control plane, modelled and proved in Dafny

The FastAPI control plane (`dashboard/backend/app`) turns the text output of `spire-server` into
records, keeps a bounded audit log that it streams to WebSocket subscribers, counts what it does in
Prometheus metrics, and counts down simulated certificate lifetimes. This project models those
parts and proves what they promise. `dafny verify dfyconfig.toml` checks everything.

**The listing parsers** (`Text`, `Numerals`, `Records`, `Printing`, `Listing`, `Entries`, `Agents`,
`EntryIds`). `list_entries` and `list_agents` cut the output at a header, glue the header back onto
every piece, cut the pieces into lines, and fold each line's "key : value" into a dictionary. The
model has the Python string operations as functions, a declarative reading of a record (each scalar
is the last value given for its key, each list is all of them in order), and a printer for the
format with any column layout. The main results: for a header that cannot overlap itself, splitting
is the *only* way to cut a text into header-free pieces; parsing distributes over concatenation for
arbitrary text; parsing undoes printing exactly for the records that are trimmed, single-line and
header-free, and what is parsed is of that kind, so printing is a normal form; blocks of
lines that agree key by key can be exchanged anywhere in any output; a preamble is harmless exactly
if it does not itself look like a record.

**The command encoder** (`Commands`): the argument vector of `create_entry` decodes from left to
right to exactly the request it was built from, whatever its values look like.

**The methods** (`SpireService`, `EventService`, `FlowService`, `WebSocketSession`, `Telemetry`):
the loops and state updates of the source as classes and methods, proved against the functions
above. They describe each service while nothing else runs.

**The event loop** (`EventLoop`, `EventLoopInvariant`, `EventLoopTheorems`, `EventLoopSends`,
`EventLoopDelivery`, `EventLoopQuiet`): everything at once. Tasks (`record_event` calls, the flows around them) and
WebSocket sessions interleave between any two stretches of code that contain no await. `broadcast`
iterates over the live set and awaits each send, so membership may change under it; a change of
size makes the set iterator raise outside the per-send `try`, which is the `Abort` action, as is
cancellation in a send. Once membership has changed without changing size, the model assumes nothing
about what the iterator yields. The theorems hold in every reachable state (`Reachable`: after any
run from start, of any length, for any `max_logs`), or over arbitrary further runs. What a broadcast
has sent and how each send ended is defined on the actions of the run alone (`EventLoopSends`), and
the account in the state is proved to agree with it. Counters are
multisets of labels, so that a label's multiplicity is the value of its time series.

Where code and documentation differ, the model follows the code. The log is called a ring buffer
(`event_service.py:16`), but its four seeds are added unconditionally and each insert pops at most
one item, so it never gets shorter than four whatever `max_logs` is (`AuditLog.WindowLength`). The
glossary says lifetimes are renewed at about five minutes and shown down to 0 (`GLOSSARY.md:115-122`);
the code renews before the value shown falls below 60 seconds (`Telemetry.FullRange`). A text without
any header can still yield a record, because the header is glued onto the first piece
(`Entries.EntryWithoutHeader`, a whole family of examples; `Entries.PreambleIsIgnored` says exactly
when).

## Model

| member | source | states |
|---|---|---|
| Text.StripPadded | dashboard/backend/app/services/spire_service.py:105-106 | `strip` recovers a trimmed text from any whitespace put around it |
| Text.StripSlices | dashboard/backend/app/services/spire_service.py:105-106 | `strip` removes a run of whitespace at either end and nothing else; the result is trimmed |
| Text.LowerTable | dashboard/backend/app/services/spire_service.py:105 | `lower` replaces each capital letter by its small one and keeps everything else |
| Text.SplitLinesAppend | dashboard/backend/app/services/spire_service.py:100 | `splitlines` of text ending in a newline does not depend on what follows it |
| Text.SplitLinesGlue | dashboard/backend/app/services/spire_service.py:100 | the glued header becomes part of the first line only |
| Text.SplitLinesAt | dashboard/backend/app/services/spire_service.py:100 | a line and a boundary in front of any text are its first line; "\r\n" is one boundary |
| Text.SplitLinesOne | dashboard/backend/app/services/spire_service.py:100 | text without a boundary is one line, or none if empty |
| Text.Find | dashboard/backend/app/services/spire_service.py:95 | leftmost occurrence of a separator: it occurs there and nowhere earlier |
| Text.FindAtJoin | dashboard/backend/app/services/spire_service.py:95 | no occurrence of a borderless separator straddles a join with it |
| Text.SplitIsUnique | dashboard/backend/app/services/spire_service.py:95 | for a borderless separator, `split` returns a list if and only if the list is separator-free and joins back to the text |
| Text.SplitAtSeparator | dashboard/backend/app/services/spire_service.py:95 | `split` distributes over a separator, whatever stands on either side |
| Numerals.ParsePrinted | dashboard/backend/app/services/spire_service.py:115-118 | `int(str(n))` is n, exactly for integers within CPython's digit limit |
| Numerals.ParsedIsPrintable | dashboard/backend/app/services/spire_service.py:115-118 | whatever `int` accepts, signs and underscores included, can be printed and read again |
| Numerals.NumeralsAreRead | dashboard/backend/app/services/spire_service.py:115-116 | `int` reads digits with leading zeros, a sign in front, and single underscores between digits |
| Numerals.OthersAreRefused | dashboard/backend/app/services/spire_service.py:117-118 | `int` refuses any text with a character that is neither digit nor underscore nor a sign in front |
| Records.HeadersAreHeaders | dashboard/backend/app/services/spire_service.py:95 | "Entry ID" and "SPIFFE ID" have no border, no colon and no line break |
| Records.BlankChunk | dashboard/backend/app/services/spire_service.py:97-98 | a whitespace-only piece gives no field, so skipping it changes no result |
| Records.ValuesOfGroup | dashboard/backend/app/services/spire_service.py:108-124 | the values of one key are found in order, whatever other keys are written around them |
| Records.LastGiven | dashboard/backend/app/services/spire_service.py:108-124 | the value kept for a scalar is the one at its last place in the record |
| Records.ReadAroundBlock | dashboard/backend/app/services/spire_service.py:95-106 | whole header-free lines put into any text add their fields to one record and leave all others alone |
| Records.GluedKey | dashboard/backend/app/services/spire_service.py:100-105 | the header glued onto a first line is read as the header key if that line's key was blank, and hides any other key |
| Records.ReadAreClean | dashboard/backend/app/services/spire_service.py:95-106 | every value read from any text is trimmed, single-line and header-free |
| Printing.PrintedFieldsAreRead | dashboard/backend/app/services/spire_service.py:101-106 | printed "Key : value" lines are read back field by field, colons in values included |
| Listing.ParseAtHeader | dashboard/backend/app/services/spire_service.py:95-137 | cutting any text at a header cuts its list of items there |
| Listing.ExchangeBlock | dashboard/backend/app/services/spire_service.py:101-124 | blocks of lines the record fold cannot tell apart may be exchanged after any line break of any text |
| Listing.ParsePrinted | dashboard/backend/app/services/spire_service.py:95-137 | printing any list of records and parsing the text returns them all in order |
| Entries.EntriesConcat | dashboard/backend/app/services/spire_service.py:95-137 | parse(a + b) = parse(a) + parse(b) for any a and any b that opens with "Entry ID" |
| Entries.FirstHeaderIsOptional | dashboard/backend/app/services/spire_service.py:95-100 | the first header of any output may be left out |
| Entries.EntryReportsRecord | dashboard/backend/app/services/spire_service.py:108-137 | a record yields an entry exactly if it has an id and a SPIFFE ID; each scalar is the value at its last place or its literal default, a TTL that `int` refuses is 3600, `admin` is "true" in any case |
| Entries.PrintedRecordIsReported | dashboard/backend/app/services/spire_service.py:94-137 | any printed record, keys repeated, missing or unknown, parses to one entry that says so of it |
| Entries.TtlDefaults | dashboard/backend/app/services/spire_service.py:114-118 | a printed record whose TTL is missing, or whose last TTL text `int` refuses, parses to an entry with TTL 3600 |
| Entries.TtlSpellings | dashboard/backend/app/services/spire_service.py:114 | a "ttl" line and an "x509-svid ttl" line with the same value may stand for each other at any place of any output |
| Entries.BlocksAreExchangeable | dashboard/backend/app/services/spire_service.py:99-124 | only the in-order values per key matter: any reordering or filling of lines that keeps them keeps the entries |
| Entries.LinesCommute | dashboard/backend/app/services/spire_service.py:101-124 | two lines with different keys may change places |
| Entries.UnreadLineIsIgnored | dashboard/backend/app/services/spire_service.py:101-124 | a line without a colon, or whose key is none of the eight compared with, may be put in or left out |
| Entries.EntriesRoundTrip | dashboard/backend/app/services/spire_service.py:94-137 | parsing the printed form of any clean entries returns exactly those entries in order |
| Entries.ParsedAreClean | dashboard/backend/app/services/spire_service.py:94-137 | every entry parsed from any output is clean, except that a default parent id may be unclean where the trust domain name is |
| Entries.RoundTripIffClean | dashboard/backend/app/services/spire_service.py:94-137 | a list of entries survives printing and parsing if and only if every one of them is clean |
| Entries.PrintingIsNormalForm | dashboard/backend/app/services/spire_service.py:94-137 | for any output, parsing, printing and parsing again changes nothing if and only if no entry took an unclean default parent id |
| Entries.DefaultParentIsClean | dashboard/backend/app/services/spire_service.py:131 | the default parent id is clean for every SPIFFE trust domain name |
| Entries.PreambleIsIgnored | dashboard/backend/app/services/spire_service.py:95-109 | a preamble without "Entry ID" adds nothing to the printed entries if and only if it does not look like an entry itself |
| Entries.EntryWithoutHeader | dashboard/backend/app/services/spire_service.py:100-126 | text without "Entry ID" that yields an entry: any printed entry with the header cut off |
| Agents.AgentsConcat | dashboard/backend/app/services/spire_service.py:219-250 | parse(a + b) = parse(a) + parse(b) for any a and any b that opens with "SPIFFE ID" |
| Agents.AgentReportsRecord | dashboard/backend/app/services/spire_service.py:232-250 | a record yields an agent exactly if it has a SPIFFE ID; scalars are the values at their last place or their literal defaults |
| Agents.BlocksAreExchangeable | dashboard/backend/app/services/spire_service.py:224-239 | only the in-order values per key matter for agents |
| Agents.UnreadLineIsIgnored | dashboard/backend/app/services/spire_service.py:225-239 | a line without a colon, or whose key is none of the four compared with, may be put in or left out |
| Agents.AgentsRoundTrip | dashboard/backend/app/services/spire_service.py:218-250 | parsing printed agents returns them in order, missing serials as "unknown", attestation types as "type:" selectors |
| Agents.RoundTripIffClean | dashboard/backend/app/services/spire_service.py:218-250 | a list of agents survives if and only if every one of them is clean |
| Agents.PreambleIsIgnored | dashboard/backend/app/services/spire_service.py:219-241 | a preamble without "SPIFFE ID" adds no agent if and only if it has no blank first key and no such key below |
| Agents.BannerIsIgnored | dashboard/backend/app/services/spire_service.py:219-241 | a banner such as "Found 2 attested agents:" never becomes an agent |
| EntryIds.SearchFindsFirst | dashboard/backend/app/services/spire_service.py:169-172 | behind any header-free preamble, the search finds the first printed entry's id if and only if it is a run of letters, digits and hyphens |
| EntryIds.ReadersAgree | dashboard/backend/app/services/spire_service.py:169-172 | the search and the listing parser give the same id for the same output, exactly for such ids |
| EntryIds.MatchMeans | dashboard/backend/app/services/spire_service.py:170 | the pattern matches at the front of a text exactly if the text is header, whitespace, colon, whitespace, id and then the end or another character |
| EntryIds.UuidsAreTokens | dashboard/backend/app/services/spire_service.py:170 | every id of hexadecimal digits and hyphens is one the pattern captures whole |
| EntryIds.SearchIsLeftmost | dashboard/backend/app/services/spire_service.py:170 | the search takes the match at the leftmost place that has one, and finds nothing only if no place has |
| EntryIds.NothingFound | dashboard/backend/app/services/spire_service.py:170 | output that never names the header has no match |
| EntryIds.FoundIdIsReported | dashboard/backend/app/services/spire_service.py:169-172 | behind a header-free preamble, the id of the first printed entry is the id reported, if it is a token |
| EntryIds.GeneratedIdIsReported | dashboard/backend/app/services/spire_service.py:169 | without a match the id reported is "generated-" and what follows the last slash of the SPIFFE ID, or all of it |
| Commands.BuildCreateArgs | dashboard/backend/app/services/spire_service.py:150-165 | the loops that extend the argument list build all flags in order |
| Commands.DecodeEncoded | dashboard/backend/app/services/spire_service.py:35-40 | the vector with its docker prefix and socket suffix decodes, left to right, to the container and the exact request |
| Commands.EncodingIsInjective | dashboard/backend/app/services/spire_service.py:150-165 | different requests or containers never give the same vector |
| SpireService.ReadEntryLines | dashboard/backend/app/services/spire_service.py:99-124 | the if/elif fold leaves the last value per scalar key and all values per list key; the TTL is what `int` reads, or 3600 |
| SpireService.ReadAgentLines | dashboard/backend/app/services/spire_service.py:223-239 | the same for agents |
| SpireService.SpireService.ReadEntryChunk | dashboard/backend/app/services/spire_service.py:96-137 | one piece gives an entry exactly if it has an id and a SPIFFE ID, and the entry reports the piece's fields; skipping blanks is part of it |
| SpireService.SpireService.ListEntries | dashboard/backend/app/services/spire_service.py:68-146 | the loops compute the parse proved above and set the gauge pair; demo data on failure or no output |
| SpireService.SpireService.ListAgents | dashboard/backend/app/services/spire_service.py:203-258 | likewise for agents |
| SpireService.SpireService.CreateEntry | dashboard/backend/app/services/spire_service.py:148-187 | the command run decodes to the request; the answer names the id found, or one made from the last segment of the SPIFFE ID; exactly one event, written out, is recorded and counted |
| AuditLog.PushKeepsWindow | dashboard/backend/app/services/event_service.py:113-116 | insert-and-pop on the window of a history is the window of the longer history, for every `max_logs` |
| AuditLog.EverythingAt | dashboard/backend/app/services/event_service.py:113-116 | the unbounded log is newest first with the seeds last |
| AuditLog.SliceItems | dashboard/backend/app/services/event_service.py:132-133 | item by item and with its length, what `get_logs` answers for every limit: that many of the newest events and then the seeds, or all but that many for a negative limit |
| AuditLog.WindowReads | dashboard/backend/app/services/event_service.py:132-133 | when, and only when, a slice of the bounded log equals the slice of the unbounded one, for every limit, negative ones included |
| EventService.EventService.constructor | dashboard/backend/app/services/event_service.py:18-67 | the log starts as the four seeds, with nobody subscribed |
| EventService.EventService.Broadcast | dashboard/backend/app/services/event_service.py:78-92 | every subscriber is tried exactly once and exactly the broken ones are dropped |
| EventService.EventService.Insert | dashboard/backend/app/services/event_service.py:113-116 | the log stays the bounded window of everything ever recorded |
| EventService.EventService.RecordEvent | dashboard/backend/app/services/event_service.py:94-130 | one event into the history, one increment, broken subscribers gone |
| EventService.EventService.GetLogs | dashboard/backend/app/services/event_service.py:132-133 | the newest events and then the seeds, item by item, as many as the limit asks for and the log holds; equal to the answer of an unbounded log exactly in the stated cases |
| FlowService.FlowService.ExecuteTestFlow | dashboard/backend/app/services/flow_service.py:29-250 | the response, the event and every increment of a denied and of a successful flow, with their labels; the decision, handshake and latency books stay balanced |
| FlowService.FlowService.EvaluatePolicy | dashboard/backend/app/services/flow_service.py:252-284 | allowed exactly if the stripped ids are equal; the counter of that answer, and no other, gains the ids as given |
| WebSocketSession.Handled | dashboard/backend/app/api/ws.py:19-28 | the messages handled are those before the first that is no text or a ping whose reply fails |
| WebSocketSession.Serve | dashboard/backend/app/api/ws.py:10-28 | a session that returns has left the set, one that streams is in it, a refused one never was; one pong per ping handled |
| Telemetry.TtlClosedForm | dashboard/backend/app/main.py:57-61 | the countdown from any starting integer in closed form: straight down to its first renewal, then periodic |
| Telemetry.RotationsClosedForm | dashboard/backend/app/main.py:57-61 | the number of renewals after any number of polls from any starting integer |
| Telemetry.FullCountdown | dashboard/backend/app/main.py:35-61 | after n polls from full, 3600 - 10 * (n mod 355) |
| Telemetry.FullRotations | dashboard/backend/app/main.py:57-61 | n div 355 renewals in n polls from full |
| Telemetry.FullRange | dashboard/backend/app/main.py:57-65 | the value shown is a multiple of ten between 60 and 3600 |
| Telemetry.SettlesAndStays | dashboard/backend/app/main.py:57-61 | from any integer, the value is in range exactly from its settling time on, for ever |
| Telemetry.Poller.CountDown | dashboard/backend/app/main.py:57-65 | every workload advances once and its gauge shows the stored value; other gauges are left alone |
| Telemetry.Poller.Run | dashboard/backend/app/main.py:41-68 | after any rounds, failing ones included, every countdown is the closed form of the number of complete polls |
| EventLoopInvariant.RunKeepsInv | dashboard/backend/app/services/event_service.py:69-130 | from any state with the invariant on log, history, counters, members and broadcasts, every run of actions of any tasks and sessions keeps it |
| EventLoopInvariant.InvAlways | dashboard/backend/app/services/event_service.py:69-130 | the invariant holds at every scheduling point of every run |
| EventLoopInvariant.CastSettles | dashboard/backend/app/services/event_service.py:83-92 | when an undisturbed broadcast ends, its account balances: every member tried once, each of them failed or delivered to; that the account is what the run did is `EventLoopSends.CastIsTheRuns` |
| EventLoopTheorems.LogHoldsNewest | dashboard/backend/app/services/event_service.py:113-133 | in every interleaving, for every limit: `get_logs` answers the newest inserts and then the seeds, item by item and with the exact length |
| EventLoopTheorems.LogReadsLikeUnbounded | dashboard/backend/app/services/event_service.py:113-116 | in every interleaving: the history is what the tasks inserted, the log has its exact length, and `get_logs` reads like an unbounded log exactly in the stated cases |
| EventLoopTheorems.AuditConserved | dashboard/backend/app/services/event_service.py:94-130 | label by label: inserts = audited + in flight + aborted, at every scheduling point |
| EventLoopTheorems.AuditComplete | dashboard/backend/app/services/event_service.py:94-130 | the audit counter equals the inserts if and only if nothing is in flight and nothing was aborted |
| EventLoopTheorems.FlowsBalance | dashboard/backend/app/services/flow_service.py:85-105 | decisions = handshakes + evaluations, denials = denied handshakes + denied evaluations, approvals likewise, latencies = handshakes, at every scheduling point |
| EventLoopTheorems.EvaluationsAreTheRuns | dashboard/backend/app/services/flow_service.py:252-264 | the evaluations in those sums are the evaluation steps of the run, label by label, on the side their stripped ids decide |
| EventLoopTheorems.DenialsAuditFirst | dashboard/backend/app/services/flow_service.py:75-105 | denials recorded = denied handshakes + denied flows in between + denied flows aborted |
| EventLoopTheorems.SuccessesCountFirst | dashboard/backend/app/services/flow_service.py:208-238 | successful handshakes = successes recorded + flows in between; aborts leave no gap here |
| EventLoopTheorems.ServicesSpawnTheirJobs | dashboard/backend/app/services/flow_service.py:75-81 | the events that the flows and `create_entry` record are the events of their tasks |
| EventLoopSends.SendsMean | dashboard/backend/app/services/event_service.py:84-89 | read off a run alone: the connections failed are those a task picked whose next send action is a failure, those delivered to the ones whose next is a success |
| EventLoopSends.CastIsTheRuns | dashboard/backend/app/services/event_service.py:83-89 | the account of every broadcast (tried, delivered, failed, under way) is what the actions of the run say |
| EventLoopDelivery.SubscribersAreLive | dashboard/backend/app/api/ws.py:10-28 | the active set is exactly the accepted sessions that have not disconnected, less those a broadcast discarded |
| EventLoopDelivery.SessionsJoinAndLeave | dashboard/backend/app/api/ws.py:12-28 | a session is added if accepted and not if refused, taken out if its handler catches an exception and left in if cancelled; all are always possible |
| EventLoopDelivery.GoneForGood | dashboard/backend/app/services/event_service.py:69-92 | the connection of a returned session, or one a broadcast discarded, is in the set at no later point of any run |
| EventLoopDelivery.BroadcastDelivers | dashboard/backend/app/services/event_service.py:78-92 | while membership does not change, whatever else runs: the run's sends try every member once, deliver to all but the failed, and the set left is the start less exactly the members whose send failed |
| EventLoopDelivery.FailuresAreDiscarded | dashboard/backend/app/services/event_service.py:87-92 | even when membership has changed, a broadcast that ends discards exactly the members its sends failed to, one that aborts nobody |
| EventLoopDelivery.OnlyChangesRaise | dashboard/backend/app/services/event_service.py:84-86 | the set iterator raises only if membership has changed since the broadcast began |
| EventLoopDelivery.IteratorIsPythons | dashboard/backend/app/services/event_service.py:83-86 | between sends the iterator raises exactly if the set has another size than at the start; while membership is unchanged it yields exactly the members not yet tried, and ends exactly when every member was tried once |
| EventLoopDelivery.SendsEndEitherWay | dashboard/backend/app/services/event_service.py:85-89 | a send under way may succeed, fail or be cancelled |
| EventLoopDelivery.TasksNeverStick | dashboard/backend/app/services/event_service.py:94-130 | a task that has not ended always has a step of its own, so no interleaving blocks another task |
| EventLoopQuiet.QuietPeriodDelivers | dashboard/backend/app/services/event_service.py:78-92 | with no joins, leaves, failures or cancellations, however broadcasts overlap, every subscriber receives exactly the multiset of events recorded |
| EventLoopQuiet.QuietSendsDeliver | dashboard/backend/app/services/event_service.py:84-89 | read off the run, every broadcast of a quiet period delivers to every subscriber exactly once |

## Left out

- Processes, `docker exec`, timeouts and decoding of output: exit code and output are arbitrary inputs.
- Unicode beyond the whitespace and line-boundary sets: lower-casing is ASCII (no key compared here is the lower case of another character sequence, except through the Kelvin sign and dotted capital I, neither of which occurs in a key), and `int` reads ASCII digits only.
- Ids, timestamps, latencies and event detail texts: parameters. Freshness of ids and the order of timestamps are not claimed.
- Prometheus internals: increments and gauge updates do not raise. Every writer of the gauge pair for workloads and SVIDs sets both in one stretch without an await, so the pair is stated per method, not under interleaving; the service and the poller each hold their own copy of it.
- `asyncio.Lock`: the section it guards has no await, so it is never contended; the model inserts in one step.
- Cancellation of a task before its broadcast: such a task simply takes no further step in the model. Fairness and progress over infinite runs are not stated.
- The text of handshake steps and payloads in `execute_test_flow`, its docker call and JSON extraction: they touch no log or counter.
- `delete_entry`, `generate_join_token`: one `record_event` call each, covered by the `Plain` tasks of `EventLoop`.
- `get_bundle`, health checks, OIDC documents, routers and settings: constant data and single branches.
- The Go workloads, the Next.js frontend, Grafana and observability configuration, scripts and the Makefile: not control-plane logic.
