/** `SpireService.list_agents` as a function of the command's output, for output that is not empty
    and an exit code of zero. */
module Agents {
  import opened Listing
  import opened Printing
  import opened Records
  import opened Text
  import opened Wrappers

  datatype NodeAgent = NodeAgent(
    spiffeId: string, expiresAt: Option<string>, serialNumber: string, status: string, selectors: seq<string>)

  const NO_SERIAL := "unknown"
  const ATTESTED := "attested"

  function TypeSelectors(types: seq<string>): (r: seq<string>)
    ensures |r| == |types|
    ensures forall i :: 0 <= i < |types| ==> r[i] == "type:" + types[i]
  {
    if types == [] then [] else ["type:" + types[0]] + TypeSelectors(types[1..])
  }

  /** A record is an agent if it gives a SPIFFE ID. */
  function AgentOf(fs: seq<Field>): Option<NodeAgent> {
    var spiffeIds := Values(fs, SpiffeId);
    if spiffeIds == [] then None else
      Some(NodeAgent(
             LastOr(spiffeIds, ""),
             LastOption(Values(fs, ExpirationTime)),
             LastOr(Values(fs, SerialNumber), NO_SERIAL),
             ATTESTED,
             TypeSelectors(Values(fs, AttestationType))))
  }

  /** What an agent says about the record it was read from. */
  ghost predicate Reports(a: NodeAgent, fs: seq<Field>) {
    var types := Values(fs, AttestationType);
    && IsLast(fs, SpiffeId, a.spiffeId)
    && (if Lacks(fs, SerialNumber) then a.serialNumber == "unknown" else IsLast(fs, SerialNumber, a.serialNumber))
    && (if Lacks(fs, ExpirationTime) then a.expiresAt == None
        else a.expiresAt.Some? && IsLast(fs, ExpirationTime, a.expiresAt.value))
    && a.status == "attested"
    && |a.selectors| == |types| && forall i :: 0 <= i < |types| ==> a.selectors[i] == "type:" + types[i]
  }

  /** A record yields an agent exactly if it gives a SPIFFE ID, and the agent reports it. */
  lemma AgentReportsRecord(fs: seq<Field>)
    ensures AgentOf(fs).Some? <==> !Lacks(fs, SpiffeId)
    ensures AgentOf(fs).Some? ==> Reports(AgentOf(fs).value, fs)
  {
    Given(fs, SpiffeId);
    Given(fs, SerialNumber);
    Given(fs, ExpirationTime);
  }

  const AgentReader: Reader<NodeAgent> := fs => AgentOf(fs)

  function ParseAgents(stdout: string): seq<NodeAgent> {
    Parse(stdout, AGENT_HEADER, AgentReader)
  }

  /** Parsing distributes over concatenation with any text that opens with a header. */
  lemma {:induction false} AgentsConcat(a: string, b: string)
    requires AGENT_HEADER <= b
    ensures ParseAgents(a + b) == ParseAgents(a) + ParseAgents(b)
  {
    HeadersAreHeaders();
    ParseConcat(a, b, AGENT_HEADER, AgentReader);
  }

  // ---- Lines that may be exchanged -------------------------------------------------------

  predicate ReadForAgents(a: Attribute) {
    a.SpiffeId? || a.SerialNumber? || a.ExpirationTime? || a.AttestationType?
  }

  /** The same values in the same order for every attribute an agent is made of. */
  ghost predicate SameForAgents(fs: seq<Field>, gs: seq<Field>) {
    forall a :: ReadForAgents(a) ==> Values(fs, a) == Values(gs, a)
  }

  lemma SameAgent(front: seq<Field>, fs: seq<Field>, gs: seq<Field>, back: seq<Field>)
    requires SameForAgents(fs, gs)
    ensures AgentOf(front + fs + back) == AgentOf(front + gs + back)
  {
    forall a | ReadForAgents(a)
      ensures Values(front + fs + back, a) == Values(front + gs + back, a)
    {
      ValuesAppend(front + fs, back, a);
      ValuesAppend(front, fs, a);
      ValuesAppend(front + gs, back, a);
      ValuesAppend(front, gs, a);
    }
    assert ReadForAgents(SpiffeId) && ReadForAgents(SerialNumber);
    assert ReadForAgents(ExpirationTime) && ReadForAgents(AttestationType);
  }

  /** In any output, after any line break, one block of whole header-free lines may stand for
      another that gives the same values, in the same order, for every key that is read. */
  lemma {:induction false} BlocksAreExchangeable(a: string, w: string, w': string, b: string)
    requires a != "" && WholeLines(a) && WholeLines(w) && WholeLines(w')
    requires Free(w, AGENT_HEADER) && Free(w', AGENT_HEADER)
    requires SameForAgents(TextFields(w), TextFields(w'))
    ensures ParseAgents(a + w + b) == ParseAgents(a + w' + b)
  {
    HeadersAreHeaders();
    forall front, back
      ensures AgentOf(front + TextFields(w) + back) == AgentOf(front + TextFields(w') + back)
    {
      SameAgent(front, TextFields(w), TextFields(w'), back);
    }
    ExchangeBlock(a, w, w', b, AGENT_HEADER, AgentReader);
  }

  /** A line with no colon, or with a key that is not read, may be put in or left out. */
  lemma UnreadLineIsIgnored(a: string, l: string, b: string)
    requires a != "" && WholeLines(a) && SingleLine(l) && Free(l, AGENT_HEADER)
    requires SplitField(l).Some? ==>
               SplitField(l).value.key !in {"spiffe id", "serial number", "expiration time", "attestation type"}
    ensures ParseAgents(a + (l + "\n") + b) == ParseAgents(a + b)
  {
    TextFieldsCons(l, "");
    assert l + "\n" + "" == l + "\n" && FieldsOfLine(l) + [] == FieldsOfLine(l);
    assert Free("", AGENT_HEADER);
    FreeAcross(l, '\n', "", AGENT_HEADER);
    UnreadFields(l);
    BlocksAreExchangeable(a, l + "\n", "", b);
    assert a + "" == a;
  }

  lemma UnreadFields(l: string)
    requires SplitField(l).Some? ==>
               SplitField(l).value.key !in {"spiffe id", "serial number", "expiration time", "attestation type"}
    ensures SameForAgents(FieldsOfLine(l), [])
  {
    assert forall f :: f in FieldsOfLine(l) ==> !ReadForAgents(f.attr);
    assert FieldsOfLine(l) != [] ==> FieldsOfLine(l)[0] in FieldsOfLine(l) && FieldsOfLine(l)[1..] == [];
  }

  // ---- Round trip ------------------------------------------------------------------------

  /** An agent as the command lists it. */
  datatype Attested = Attested(
    spiffeId: string, serial: Option<string>, expires: Option<string>, types: seq<string>)

  /** The item the API shows for a listed agent. */
  function Show(a: Attested): NodeAgent {
    NodeAgent(
      a.spiffeId, a.expires, if a.serial.Some? then a.serial.value else "unknown",
      "attested", TypeSelectors(a.types))
  }

  function ShowAll(xs: seq<Attested>): (r: seq<NodeAgent>)
    ensures |r| == |xs| && forall i :: 0 <= i < |xs| ==> r[i] == Show(xs[i])
  {
    if xs == [] then [] else [Show(xs[0])] + ShowAll(xs[1..])
  }

  function Listed(o: Option<string>): seq<string> {
    if o.Some? then [o.value] else []
  }

  function Body(a: Attested): (gs: seq<Group>)
    ensures |gs| == 3
  {
    [Group(AttestationType, a.types), Group(ExpirationTime, Listed(a.expires)), Group(SerialNumber, Listed(a.serial))]
  }

  function Describe(a: Attested): seq<Field> {
    [Field(SpiffeId, a.spiffeId)] + GiveAll(Body(a))
  }

  function DescribeAll(xs: seq<Attested>): (rs: seq<seq<Field>>)
    ensures |rs| == |xs| && forall i :: 0 <= i < |xs| ==> rs[i] == Describe(xs[i])
  {
    if xs == [] then [] else [Describe(xs[0])] + DescribeAll(xs[1..])
  }

  function PrintAgents(xs: seq<Attested>, lay: Layout): string {
    PrintAll(DescribeAll(xs), lay)
  }

  predicate CleanAgent(a: Attested) {
    && Clean(a.spiffeId, AGENT_HEADER) && CleanValues(a.types, AGENT_HEADER)
    && (a.serial.Some? ==> Clean(a.serial.value, AGENT_HEADER))
    && (a.expires.Some? ==> Clean(a.expires.value, AGENT_HEADER))
  }

  predicate CleanAgents(xs: seq<Attested>) {
    forall a :: a in xs ==> CleanAgent(a)
  }

  lemma ValuesOfDescribe(x: Attested)
    ensures var fs := Describe(x);
            && Values(fs, SpiffeId) == [x.spiffeId] && Values(fs, AttestationType) == x.types
            && Values(fs, ExpirationTime) == Listed(x.expires) && Values(fs, SerialNumber) == Listed(x.serial)
  {
    var gs := Body(x);
    ValuesOfGroup(gs, 0);
    ValuesOfGroup(gs, 1);
    ValuesOfGroup(gs, 2);
    ValuesOfOthers(gs, SpiffeId);
    assert Describe(x)[1..] == GiveAll(gs);
  }

  lemma DescribedIsAgent(x: Attested)
    ensures AgentOf(Describe(x)) == Some(Show(x))
  {
    ValuesOfDescribe(x);
  }

  lemma DescribeIsRecord(x: Attested)
    requires CleanAgent(x)
    ensures IsRecord(Describe(x), AGENT_HEADER)
  {
    assert CleanGroups(Body(x), AGENT_HEADER);
    GroupsMakeRecord(x.spiffeId, Body(x), AGENT_HEADER);
  }

  lemma DescriptionsAreRead(xs: seq<Attested>)
    requires CleanAgents(xs)
    ensures forall i :: 0 <= i < |xs| ==>
              IsRecord(DescribeAll(xs)[i], AGENT_HEADER) && AgentReader(DescribeAll(xs)[i]) == Some(ShowAll(xs)[i])
  {
    forall i | 0 <= i < |xs|
      ensures IsRecord(DescribeAll(xs)[i], AGENT_HEADER) && AgentReader(DescribeAll(xs)[i]) == Some(ShowAll(xs)[i])
    {
      assert xs[i] in xs;
      DescribeIsRecord(xs[i]);
      DescribedIsAgent(xs[i]);
    }
  }

  /** Printing clean agents in any column layout and parsing the text shows each of them, in order:
      a missing serial as "unknown", every attestation type as a selector. */
  lemma {:induction false} AgentsRoundTrip(xs: seq<Attested>, lay: Layout)
    requires CleanAgents(xs)
    ensures ParseAgents(PrintAgents(xs, lay)) == ShowAll(xs)
  {
    DescriptionsAreRead(xs);
    ParsePrinted(DescribeAll(xs), ShowAll(xs), AGENT_HEADER, AgentReader, lay);
  }

  // ---- Which agents survive the trip -----------------------------------------------------

  lemma NoSerialIsClean()
    ensures Clean(NO_SERIAL, AGENT_HEADER)
  {
    FreeWithout(NO_SERIAL, AGENT_HEADER, 0);
  }

  /** An agent shown like one read from clean fields is itself clean. */
  lemma ShownFromClean(x: Attested, fs: seq<Field>)
    requires CleanFields(fs, AGENT_HEADER) && AgentOf(fs) == Some(Show(x))
    ensures CleanAgent(x)
  {
    NoSerialIsClean();
    ValuesAreClean(fs, SpiffeId, AGENT_HEADER);
    ValuesAreClean(fs, SerialNumber, AGENT_HEADER);
    ValuesAreClean(fs, ExpirationTime, AGENT_HEADER);
    ValuesAreClean(fs, AttestationType, AGENT_HEADER);
    var types := Values(fs, AttestationType);
    assert |types| == |x.types| by {
      assert |TypeSelectors(types)| == |TypeSelectors(x.types)|;
    }
    forall i | 0 <= i < |types|
      ensures types[i] == x.types[i]
    {
      assert ("type:" + types[i])[5..] == types[i];
      assert ("type:" + x.types[i])[5..] == x.types[i];
      assert TypeSelectors(types)[i] == TypeSelectors(x.types)[i];
    }
  }

  /** Exactly the clean agents survive printing and parsing. */
  lemma {:induction false} RoundTripIffClean(xs: seq<Attested>, lay: Layout)
    ensures ParseAgents(PrintAgents(xs, lay)) == ShowAll(xs) <==> CleanAgents(xs)
  {
    if CleanAgents(xs) {
      AgentsRoundTrip(xs, lay);
    } else if ParseAgents(PrintAgents(xs, lay)) == ShowAll(xs) {
      AllShownFromClean(xs, PrintAgents(xs, lay));
    }
  }

  lemma AllShownFromClean(xs: seq<Attested>, stdout: string)
    requires ParseAgents(stdout) == ShowAll(xs)
    ensures CleanAgents(xs)
  {
    HeadersAreHeaders();
    forall x | x in xs
      ensures CleanAgent(x)
    {
      var i :| 0 <= i < |xs| && xs[i] == x;
      assert ShowAll(xs)[i] == Show(x);
      var fs := ItemSource(stdout, AGENT_HEADER, AgentReader, Show(x));
      ShownFromClean(x, fs);
    }
  }

  // ---- Output in front of the first header -----------------------------------------------

  /** Header-free output that yields an agent all the same: a SPIFFE ID key in another spelling
      below its first line, or a blank key that the glued header turns into one. */
  predicate LooksLikeAgent(pre: string) {
    var lines := SplitLines(pre);
    lines != [] && (BlankKey(lines[0]) || Values(Fields(lines[1..]), SpiffeId) != [])
  }

  lemma PreambleAgents(pre: string)
    requires Free(pre, AGENT_HEADER)
    ensures ParseAgents(pre) == [] <==> !LooksLikeAgent(pre)
  {
    HeadersAreHeaders();
    ParseFree(pre, AGENT_HEADER, AgentReader);
    if pre == "" {
      NoColonNoFields(AGENT_HEADER + "");
    } else {
      GluedValues(pre, AGENT_HEADER, SpiffeId);
    }
  }

  /** A preamble leaves the printed agents as they are exactly if it does not look like one. */
  lemma PreambleIsIgnored(pre: string, xs: seq<Attested>, lay: Layout)
    requires Free(pre, AGENT_HEADER) && CleanAgents(xs)
    ensures ParseAgents(pre + PrintAgents(xs, lay)) == ShowAll(xs) <==> !LooksLikeAgent(pre)
  {
    PreambleAgents(pre);
    PrintedAfter(pre, DescribeAll(xs), AGENT_HEADER, AgentReader, lay);
    AgentsRoundTrip(xs, lay);
    var extra, shown := ParseAgents(pre), ShowAll(xs);
    assert |extra + shown| == |extra| + |shown|;
    assert [] + shown == shown;
  }

  /** A banner line such as "Found 2 attested agents:" never becomes an agent, colon or not, as long
      as something stands before the colon. */
  lemma BannerIsIgnored(banner: string, xs: seq<Attested>, lay: Layout)
    requires SingleLine(banner) && Free(banner, AGENT_HEADER) && !BlankKey(banner) && CleanAgents(xs)
    ensures ParseAgents(banner + "\n\n" + PrintAgents(xs, lay)) == ShowAll(xs)
  {
    var pre := banner + "\n" + "\n";
    assert banner + "\n\n" == pre;
    assert Free("", AGENT_HEADER);
    FreeAcross(banner, '\n', "", AGENT_HEADER);
    assert banner + "\n" + "" == banner + "\n";
    FreeAcross(banner + "\n", '\n', "", AGENT_HEADER);
    assert banner + "\n" + "\n" + "" == pre;
    SplitLinesCons(banner, "\n");
    SplitLinesCons("", "");
    assert "" + "\n" + "" == "\n";
    assert ([banner] + [""])[1..] == [""];
    assert FieldsOfLine("") == [] && Fields([""]) == [];
    PreambleIsIgnored(pre, xs, lay);
  }
}
