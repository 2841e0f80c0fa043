/** `SpireService.list_entries` as a function of the command's output, for output that is not
    empty and an exit code of zero. */
module Entries {
  import opened Listing
  import opened Numerals
  import opened Printing
  import opened Records
  import opened Text
  import opened Wrappers

  datatype WorkloadEntry = WorkloadEntry(
    id: string, spiffeId: string, parentId: string,
    selectors: seq<string>, ttl: int, admin: bool, dnsNames: seq<string>)

  const DEFAULT_TTL := 3600

  function DefaultParent(trustDomain: string): string {
    "spiffe://" + trustDomain + "/node/agent"
  }

  function TtlOf(vs: seq<string>): int {
    if vs == [] then DEFAULT_TTL else
      match ParseInt(vs[|vs| - 1])
      case None => DEFAULT_TTL
      case Some(n) => n
  }

  /** A record is an entry if it gives an id and a SPIFFE ID. Scalars are the last value given
      for their key, lists are all values given for theirs, in order. */
  function EntryOf(fs: seq<Field>, trustDomain: string): Option<WorkloadEntry> {
    var ids, spiffeIds := Values(fs, EntryId), Values(fs, SpiffeId);
    if ids == [] || spiffeIds == [] then None else
      Some(WorkloadEntry(
             LastOr(ids, ""), LastOr(spiffeIds, ""),
             LastOr(Values(fs, ParentId), DefaultParent(trustDomain)),
             Values(fs, Selector),
             TtlOf(Values(fs, Ttl)),
             Lower(LastOr(Values(fs, Admin), "false")) == "true",
             Values(fs, DnsName)))
  }

  /** What an entry says about the record it was read from: scalars are the last value given, or
      their default; a TTL that `int` refuses counts as 3600; lists are all values given. */
  ghost predicate Reports(e: WorkloadEntry, fs: seq<Field>, trustDomain: string) {
    && IsLast(fs, EntryId, e.id)
    && IsLast(fs, SpiffeId, e.spiffeId)
    && (if Lacks(fs, ParentId) then e.parentId == "spiffe://" + trustDomain + "/node/agent"
        else IsLast(fs, ParentId, e.parentId))
    && (if Lacks(fs, Ttl) then e.ttl == 3600 else
          exists v :: IsLast(fs, Ttl, v) && e.ttl == match ParseInt(v) case None => 3600 case Some(n) => n)
    && (e.admin <==> exists v :: IsLast(fs, Admin, v) && Lower(v) == "true")
    && e.selectors == Values(fs, Selector) && e.dnsNames == Values(fs, DnsName)
  }

  /** A record yields an entry exactly if it gives an id and a SPIFFE ID, and the entry reports it. */
  lemma EntryReportsRecord(fs: seq<Field>, trustDomain: string)
    ensures EntryOf(fs, trustDomain).Some? <==> !Lacks(fs, EntryId) && !Lacks(fs, SpiffeId)
    ensures EntryOf(fs, trustDomain).Some? ==> Reports(EntryOf(fs, trustDomain).value, fs, trustDomain)
  {
    Given(fs, EntryId);
    Given(fs, SpiffeId);
    Given(fs, ParentId);
    Given(fs, Ttl);
    Given(fs, Admin);
    TrueIsTrue();
  }

  /** Any printed record with a SPIFFE ID is parsed to one entry, which reports it: keys may be
      repeated, missing or unknown, and the TTL may be any clean text. */
  lemma PrintedRecordIsReported(fs: seq<Field>, lay: Layout, trustDomain: string)
    requires IsRecord(fs, ENTRY_HEADER) && !Lacks(fs, SpiffeId)
    ensures var es := ParseEntries(PrintFields(fs, lay), trustDomain);
            |es| == 1 && Reports(es[0], fs, trustDomain)
  {
    assert fs[0] in fs;
    EntryReportsRecord(fs, trustDomain);
    EntryReportsRecord([], trustDomain);
    ParseRecord(fs, ENTRY_HEADER, EntryReader(trustDomain), lay);
  }

  /** A TTL that is missing, or whose last text `int` refuses, is 3600. */
  lemma TtlDefaults(fs: seq<Field>, v: string, lay: Layout, trustDomain: string)
    requires IsRecord(fs, ENTRY_HEADER) && !Lacks(fs, SpiffeId)
    requires Lacks(fs, Ttl) || (IsLast(fs, Ttl, v) && ParseInt(v) == None)
    ensures var es := ParseEntries(PrintFields(fs, lay), trustDomain);
            |es| == 1 && es[0].ttl == 3600
  {
    PrintedRecordIsReported(fs, lay, trustDomain);
    Given(fs, Ttl);
  }

  lemma TrueIsTrue()
    ensures Lower("true") == "true" && Lower("false") == "false" != "true"
  {
  }

  function EntryReader(trustDomain: string): Reader<WorkloadEntry> {
    fs => EntryOf(fs, trustDomain)
  }

  function ParseEntries(stdout: string, trustDomain: string): seq<WorkloadEntry> {
    Parse(stdout, ENTRY_HEADER, EntryReader(trustDomain))
  }

  /** Parsing distributes over concatenation with any text that opens with a header. */
  lemma {:induction false} EntriesConcat(a: string, b: string, trustDomain: string)
    requires ENTRY_HEADER <= b
    ensures ParseEntries(a + b, trustDomain) == ParseEntries(a, trustDomain) + ParseEntries(b, trustDomain)
  {
    HeadersAreHeaders();
    ParseConcat(a, b, ENTRY_HEADER, EntryReader(trustDomain));
  }

  /** The first header of any output may be left out. */
  lemma {:induction false} FirstHeaderIsOptional(stdout: string, trustDomain: string)
    ensures ParseEntries(ENTRY_HEADER + stdout, trustDomain) == ParseEntries(stdout, trustDomain)
  {
    HeadersAreHeaders();
    HeaderIsOptional(stdout, ENTRY_HEADER, EntryReader(trustDomain));
  }

  // ---- Lines that may be exchanged -------------------------------------------------------

  predicate ReadForEntries(a: Attribute) {
    a.EntryId? || a.SpiffeId? || a.ParentId? || a.Ttl? || a.Selector? || a.DnsName? || a.Admin?
  }

  /** The same values in the same order for every attribute an entry is made of. */
  ghost predicate SameForEntries(fs: seq<Field>, gs: seq<Field>) {
    forall a :: ReadForEntries(a) ==> Values(fs, a) == Values(gs, a)
  }

  lemma SameEntry(fs: seq<Field>, gs: seq<Field>, trustDomain: string)
    requires SameForEntries(fs, gs)
    ensures EntryOf(fs, trustDomain) == EntryOf(gs, trustDomain)
  {
    assert ReadForEntries(EntryId) && ReadForEntries(SpiffeId) && ReadForEntries(ParentId);
    assert ReadForEntries(Ttl) && ReadForEntries(Selector) && ReadForEntries(DnsName) && ReadForEntries(Admin);
  }

  lemma SameAround(front: seq<Field>, fs: seq<Field>, gs: seq<Field>, back: seq<Field>)
    requires SameForEntries(fs, gs)
    ensures SameForEntries(front + fs + back, front + gs + back)
  {
    forall a | ReadForEntries(a)
      ensures Values(front + fs + back, a) == Values(front + gs + back, a)
    {
      ValuesAppend(front + fs, back, a);
      ValuesAppend(front, fs, a);
      ValuesAppend(front + gs, back, a);
      ValuesAppend(front, gs, a);
    }
  }

  /** In any output, after any line break, one block of whole header-free lines may stand for
      another that gives the same values, in the same order, for every key that is read. */
  lemma {:induction false} BlocksAreExchangeable(a: string, w: string, w': string, b: string, trustDomain: string)
    requires a != "" && WholeLines(a) && WholeLines(w) && WholeLines(w')
    requires Free(w, ENTRY_HEADER) && Free(w', ENTRY_HEADER)
    requires SameForEntries(TextFields(w), TextFields(w'))
    ensures ParseEntries(a + w + b, trustDomain) == ParseEntries(a + w' + b, trustDomain)
  {
    HeadersAreHeaders();
    forall front, back
      ensures EntryOf(front + TextFields(w) + back, trustDomain) == EntryOf(front + TextFields(w') + back, trustDomain)
    {
      SameAround(front, TextFields(w), TextFields(w'), back);
      SameEntry(front + TextFields(w) + back, front + TextFields(w') + back, trustDomain);
    }
    ExchangeBlock(a, w, w', b, ENTRY_HEADER, EntryReader(trustDomain));
  }

  lemma OneLineBlock(l: string)
    requires SingleLine(l) && Free(l, ENTRY_HEADER)
    ensures TextFields(l + "\n") == FieldsOfLine(l)
    ensures WholeLines(l + "\n") && Free(l + "\n", ENTRY_HEADER)
  {
    TextFieldsCons(l, "");
    assert l + "\n" + "" == l + "\n";
    assert Free("", ENTRY_HEADER);
    FreeAcross(l, '\n', "", ENTRY_HEADER);
  }

  lemma UnreadFields(fs: seq<Field>)
    requires |fs| <= 1 && forall f :: f in fs ==> !ReadForEntries(f.attr)
    ensures SameForEntries(fs, [])
  {
    if fs != [] {
      assert fs[0] in fs && fs[1..] == [];
    }
  }

  /** The keys `list_entries` reads, as they are compared. */
  predicate IsEntryKey(key: string) {
    key in {"entry id", "spiffe id", "parent id", "x509-svid ttl", "ttl", "selector", "dns name", "admin"}
  }

  lemma UnknownKeys(l: string)
    requires SplitField(l).Some? ==> !IsEntryKey(SplitField(l).value.key)
    ensures forall f :: f in FieldsOfLine(l) ==> !ReadForEntries(f.attr)
  {
  }

  /** A TTL may be given under either spelling of its key, at any place of any output. */
  lemma TtlSpellings(a: string, k: string, k': string, v: string, b: string, trustDomain: string)
    requires a != "" && WholeLines(a)
    requires ':' !in k && Lower(Strip(k)) == "ttl" && ':' !in k' && Lower(Strip(k')) == "x509-svid ttl"
    requires SingleLine(k + ":" + v) && Free(k + ":" + v, ENTRY_HEADER)
    requires SingleLine(k' + ":" + v) && Free(k' + ":" + v, ENTRY_HEADER)
    ensures ParseEntries(a + (k + ":" + v + "\n") + b, trustDomain)
         == ParseEntries(a + (k' + ":" + v + "\n") + b, trustDomain)
  {
    OneLineBlock(k + ":" + v);
    OneLineBlock(k' + ":" + v);
    SplitFieldAt(k, v);
    SplitFieldAt(k', v);
    BlocksAreExchangeable(a, k + ":" + v + "\n", k' + ":" + v + "\n", b, trustDomain);
  }

  /** A line with no colon, or with a key that is not read, may be put in or left out. */
  lemma {:induction false} UnreadLineIsIgnored(a: string, l: string, b: string, trustDomain: string)
    requires a != "" && WholeLines(a) && SingleLine(l) && Free(l, ENTRY_HEADER)
    requires SplitField(l).Some? ==> !IsEntryKey(SplitField(l).value.key)
    ensures ParseEntries(a + (l + "\n") + b, trustDomain) == ParseEntries(a + b, trustDomain)
  {
    OneLineBlock(l);
    UnknownKeys(l);
    UnreadFields(FieldsOfLine(l));
    BlocksAreExchangeable(a, l + "\n", "", b, trustDomain);
    assert a + "" == a;
  }

  /** Two lines with different keys may change places. */
  lemma {:induction false} LinesCommute(a: string, l: string, m: string, b: string, trustDomain: string)
    requires a != "" && WholeLines(a)
    requires SingleLine(l) && Free(l, ENTRY_HEADER) && SingleLine(m) && Free(m, ENTRY_HEADER)
    requires forall f, g :: f in FieldsOfLine(l) && g in FieldsOfLine(m) ==> f.attr != g.attr
    ensures ParseEntries(a + (l + "\n" + (m + "\n")) + b, trustDomain)
         == ParseEntries(a + (m + "\n" + (l + "\n")) + b, trustDomain)
  {
    OneLineBlock(l);
    OneLineBlock(m);
    TextFieldsAppend(l + "\n", m + "\n");
    TextFieldsAppend(m + "\n", l + "\n");
    FreeAcross(l, '\n', m + "\n", ENTRY_HEADER);
    FreeAcross(m, '\n', l + "\n", ENTRY_HEADER);
    FieldsCommute(FieldsOfLine(l), FieldsOfLine(m));
    BlocksAreExchangeable(a, l + "\n" + (m + "\n"), m + "\n" + (l + "\n"), b, trustDomain);
  }

  lemma FieldsCommute(fs: seq<Field>, gs: seq<Field>)
    requires |fs| <= 1 && |gs| <= 1
    requires forall f, g :: f in fs && g in gs ==> f.attr != g.attr
    ensures SameForEntries(fs + gs, gs + fs)
  {
    forall a | ReadForEntries(a)
      ensures Values(fs + gs, a) == Values(gs + fs, a)
    {
      ValuesAppend(fs, gs, a);
      ValuesAppend(gs, fs, a);
      assert fs != [] ==> fs[0] in fs && fs[1..] == [];
      assert gs != [] ==> gs[0] in gs && gs[1..] == [];
    }
  }

  // ---- Round trip ------------------------------------------------------------------------

  /** What an entry is printed as below its id; the administrator flag only when it is set. */
  function Body(e: WorkloadEntry): (gs: seq<Group>)
    ensures |gs| == 6
  {
    [Group(SpiffeId, [e.spiffeId]), Group(ParentId, [e.parentId]), Group(Ttl, [PrintInt(e.ttl)]),
     Group(Selector, e.selectors), Group(DnsName, e.dnsNames),
     Group(Admin, if e.admin then ["true"] else [])]
  }

  function Describe(e: WorkloadEntry): seq<Field> {
    [Field(EntryId, e.id)] + GiveAll(Body(e))
  }

  function DescribeAll(es: seq<WorkloadEntry>): (rs: seq<seq<Field>>)
    ensures |rs| == |es| && forall i :: 0 <= i < |es| ==> rs[i] == Describe(es[i])
  {
    if es == [] then [] else [Describe(es[0])] + DescribeAll(es[1..])
  }

  function PrintEntries(es: seq<WorkloadEntry>, lay: Layout): string {
    PrintAll(DescribeAll(es), lay)
  }

  predicate CleanBesidesParent(e: WorkloadEntry) {
    && Clean(e.id, ENTRY_HEADER) && Clean(e.spiffeId, ENTRY_HEADER)
    && CleanValues(e.selectors, ENTRY_HEADER) && CleanValues(e.dnsNames, ENTRY_HEADER)
    && Printable(e.ttl)
  }

  /** What the printed format can carry: clean texts, and a TTL that `int` reads back. */
  predicate CleanEntry(e: WorkloadEntry) {
    CleanBesidesParent(e) && Clean(e.parentId, ENTRY_HEADER)
  }

  predicate CleanEntries(es: seq<WorkloadEntry>) {
    forall e :: e in es ==> CleanEntry(e)
  }

  lemma ValuesOfBody(e: WorkloadEntry)
    ensures var fs := GiveAll(Body(e));
            && Values(fs, SpiffeId) == [e.spiffeId] && Values(fs, ParentId) == [e.parentId]
            && Values(fs, Ttl) == [PrintInt(e.ttl)] && Values(fs, Selector) == e.selectors
            && Values(fs, DnsName) == e.dnsNames && Values(fs, Admin) == if e.admin then ["true"] else []
    ensures Values(GiveAll(Body(e)), EntryId) == []
  {
    var gs := Body(e);
    ValuesOfGroup(gs, 0);
    ValuesOfGroup(gs, 1);
    ValuesOfGroup(gs, 2);
    ValuesOfGroup(gs, 3);
    ValuesOfGroup(gs, 4);
    ValuesOfGroup(gs, 5);
    ValuesOfOthers(gs, EntryId);
  }

  lemma ValuesBelow(e: WorkloadEntry, a: Attribute)
    ensures Values(Describe(e), a)
         == (if a == EntryId then [e.id] else []) + Values(GiveAll(Body(e)), a)
  {
    assert Describe(e)[1..] == GiveAll(Body(e));
  }

  lemma ValuesOfDescribe(e: WorkloadEntry)
    ensures var fs := Describe(e);
            && Values(fs, EntryId) == [e.id] && Values(fs, SpiffeId) == [e.spiffeId]
            && Values(fs, ParentId) == [e.parentId] && Values(fs, Ttl) == [PrintInt(e.ttl)]
            && Values(fs, Selector) == e.selectors && Values(fs, DnsName) == e.dnsNames
            && Values(fs, Admin) == if e.admin then ["true"] else []
  {
    ValuesOfBody(e);
    ValuesBelow(e, EntryId);
    ValuesBelow(e, SpiffeId);
    ValuesBelow(e, ParentId);
    ValuesBelow(e, Ttl);
    ValuesBelow(e, Selector);
    ValuesBelow(e, DnsName);
    ValuesBelow(e, Admin);
  }

  lemma DescribedIsEntry(e: WorkloadEntry, trustDomain: string)
    requires Printable(e.ttl)
    ensures EntryOf(Describe(e), trustDomain) == Some(e)
  {
    ValuesOfDescribe(e);
    Numerals.ParsePrinted(e.ttl);
    TrueIsTrue();
  }

  lemma PrintedIntIsClean(n: int)
    ensures Clean(PrintInt(n), ENTRY_HEADER)
  {
    PrintedShape(n);
    var s := PrintInt(n);
    assert s[0] in s && s[|s| - 1] in s;
    FreeWithout(s, ENTRY_HEADER, 0);
  }

  lemma DescribeIsRecord(e: WorkloadEntry)
    requires CleanEntry(e)
    ensures IsRecord(Describe(e), ENTRY_HEADER)
  {
    var gs := Body(e);
    PrintedIntIsClean(e.ttl);
    FreeWithout("true", ENTRY_HEADER, 0);
    assert CleanGroups(gs, ENTRY_HEADER);
    GroupsMakeRecord(e.id, gs, ENTRY_HEADER);
  }

  lemma DescriptionsAreRead(es: seq<WorkloadEntry>, trustDomain: string)
    requires CleanEntries(es)
    ensures forall i :: 0 <= i < |es| ==>
              IsRecord(DescribeAll(es)[i], ENTRY_HEADER) && EntryReader(trustDomain)(DescribeAll(es)[i]) == Some(es[i])
  {
    forall i | 0 <= i < |es|
      ensures IsRecord(DescribeAll(es)[i], ENTRY_HEADER) && EntryReader(trustDomain)(DescribeAll(es)[i]) == Some(es[i])
    {
      assert es[i] in es;
      DescribeIsRecord(es[i]);
      DescribedIsEntry(es[i], trustDomain);
    }
  }

  /** Printing clean entries in any column layout and parsing the text gives them back in order. */
  lemma EntriesRoundTrip(es: seq<WorkloadEntry>, lay: Layout, trustDomain: string)
    requires CleanEntries(es)
    ensures ParseEntries(PrintEntries(es, lay), trustDomain) == es
  {
    DescriptionsAreRead(es, trustDomain);
    Listing.ParsePrinted(DescribeAll(es), es, ENTRY_HEADER, EntryReader(trustDomain), lay);
  }

  // ---- Which entries survive the trip ----------------------------------------------------

  lemma TtlIsPrintable(vs: seq<string>)
    ensures Printable(TtlOf(vs))
  {
    assert |PrintNat(DEFAULT_TTL)| <= 4 by {
      assert |PrintNat(36)| == 2 && |PrintNat(360)| == 3;
    }
    if vs != [] {
      ParsedIsPrintable(vs[|vs| - 1]);
    }
  }

  /** An entry read from clean fields is clean, unless its parent was not given. */
  lemma EntryIsClean(fs: seq<Field>, trustDomain: string)
    requires CleanFields(fs, ENTRY_HEADER) && EntryOf(fs, trustDomain).Some?
    ensures var e := EntryOf(fs, trustDomain).value;
            && CleanBesidesParent(e)
            && if Values(fs, ParentId) == [] then e.parentId == DefaultParent(trustDomain) else CleanEntry(e)
  {
    ValuesAreClean(fs, EntryId, ENTRY_HEADER);
    ValuesAreClean(fs, SpiffeId, ENTRY_HEADER);
    ValuesAreClean(fs, ParentId, ENTRY_HEADER);
    ValuesAreClean(fs, Selector, ENTRY_HEADER);
    ValuesAreClean(fs, DnsName, ENTRY_HEADER);
    TtlIsPrintable(Values(fs, Ttl));
  }

  /** A trust domain name as SPIFFE allows it. */
  predicate IsTrustDomain(s: string) {
    forall c :: c in s ==> 'a' <= c <= 'z' || '0' <= c <= '9' || c == '.' || c == '-' || c == '_'
  }

  /** The default parent of every trust domain is clean. */
  lemma DefaultParentIsClean(trustDomain: string)
    requires IsTrustDomain(trustDomain)
    ensures Clean(DefaultParent(trustDomain), ENTRY_HEADER)
  {
    var s := DefaultParent(trustDomain);
    forall i | 0 <= i < |s|
      ensures !IsBreak(s[i]) && s[i] != 'E'
    {
      assert s[i] in "spiffe://" || s[i] in trustDomain || s[i] in "/node/agent";
    }
    assert s[0] == 's' && s[|s| - 1] == 't';
    FreeWithout(s, ENTRY_HEADER, 0);
  }

  /** Every entry parsed from any output whatever is clean, save for a default parent that is not. */
  lemma ParsedAreClean(stdout: string, trustDomain: string)
    ensures forall e :: e in ParseEntries(stdout, trustDomain) ==>
              CleanBesidesParent(e) && (Clean(e.parentId, ENTRY_HEADER) || e.parentId == DefaultParent(trustDomain))
  {
    HeadersAreHeaders();
    forall e | e in ParseEntries(stdout, trustDomain)
      ensures CleanBesidesParent(e) && (Clean(e.parentId, ENTRY_HEADER) || e.parentId == DefaultParent(trustDomain))
    {
      var fs := ItemSource(stdout, ENTRY_HEADER, EntryReader(trustDomain), e);
      EntryIsClean(fs, trustDomain);
    }
  }

  lemma DescribedUpToParent(e: WorkloadEntry, lay: Layout)
    ensures PrintFields(Describe(e), lay)
         == (ENTRY_HEADER + Unheaded(Ids(e), lay))
          + (PrintKey(ParentId, lay) + ":" + PrintValue(e.parentId, lay) + "\n" + PrintFields(GiveAll(Body(e)[2..]), lay))
  {
    var parent, more := Field(ParentId, e.parentId), GiveAll(Body(e)[2..]);
    DescribeStarts(e);
    PrintFieldsAppend(Ids(e), [parent] + more, lay);
    assert ([parent] + more)[1..] == more;
    RecordStartsWithHeader(Ids(e), ENTRY_HEADER, lay);
  }

  /** The text of entries up to the first parent's colon. */
  lemma PrintedUpToParent(e: WorkloadEntry, es: seq<WorkloadEntry>, lay: Layout) returns (z: string)
    ensures PrintEntries([e] + es, lay)
         == ENTRY_HEADER + (Unheaded(Ids(e), lay) + PrintKey(ParentId, lay) + ":" + z)
  {
    var v, m, o := PrintValue(e.parentId, lay), PrintFields(GiveAll(Body(e)[2..]), lay), PrintAll(DescribeAll(es), lay);
    z := v + ("\n" + m) + o;
    PrintFirst(e, es, lay);
    DescribedUpToParent(e, lay);
    Regroup(ENTRY_HEADER, Unheaded(Ids(e), lay), PrintKey(ParentId, lay) + ":", v, m, o);
    Assoc(Unheaded(Ids(e), lay), PrintKey(ParentId, lay), ":");
  }

  lemma PrintFirst(e: WorkloadEntry, es: seq<WorkloadEntry>, lay: Layout)
    ensures PrintEntries([e] + es, lay) == PrintFields(Describe(e), lay) + PrintAll(DescribeAll(es), lay)
  {
    var all := [e] + es;
    assert all[1..] == es && DescribeAll(all) == [Describe(e)] + DescribeAll(es);
    assert DescribeAll(all)[1..] == DescribeAll(es);
  }

  lemma Regroup(h: string, p: string, k: string, v: string, m: string, o: string)
    ensures (h + p) + (k + v + "\n" + m) + o == h + (p + k + (v + ("\n" + m) + o))
  {
  }

  function Ids(e: WorkloadEntry): seq<Field> {
    [Field(EntryId, e.id), Field(SpiffeId, e.spiffeId)]
  }

  lemma DescribeStarts(e: WorkloadEntry)
    ensures Describe(e) == Ids(e) + ([Field(ParentId, e.parentId)] + GiveAll(Body(e)[2..]))
  {
    var gs := Body(e);
    assert [e.spiffeId][1..] == [] && [e.parentId][1..] == [];
    assert Give(SpiffeId, [e.spiffeId]) == [Field(SpiffeId, e.spiffeId)];
    assert Give(ParentId, [e.parentId]) == [Field(ParentId, e.parentId)];
    assert gs[1..][1..] == gs[2..];
    assert GiveAll(gs[1..]) == [Field(ParentId, e.parentId)] + GiveAll(gs[2..]);
  }

  lemma IdsAreRecord(e: WorkloadEntry)
    requires CleanBesidesParent(e)
    ensures IsRecord(Ids(e), ENTRY_HEADER)
  {
    assert Ids(e)[1..] == [Field(SpiffeId, e.spiffeId)];
  }

  /** The first record read back from printed entries gives the first entry's ids and a parent. */
  lemma FirstRecordHasParent(e: WorkloadEntry, es: seq<WorkloadEntry>, lay: Layout, trustDomain: string)
    returns (r: seq<Field>)
    requires CleanBesidesParent(e)
    ensures CleanFields(r, ENTRY_HEADER) && EntryOf(r, trustDomain).Some? && Values(r, ParentId) != []
    ensures var out := ParseEntries(PrintEntries([e] + es, lay), trustDomain);
            out != [] && out[0] == EntryOf(r, trustDomain).value
  {
    HeadersAreHeaders();
    var z := PrintedUpToParent(e, es, lay);
    var p := Unheaded(Ids(e), lay);
    var text := p + PrintKey(ParentId, lay) + ":" + z;
    IdsAreRecord(e);
    UnheadedIsFree(Ids(e), ENTRY_HEADER, lay);
    UnheadedIsWhole(e, lay);
    var fs := FirstRecordHasKey(p, ParentId, z, ENTRY_HEADER, lay);
    RecordStartsWithHeader(Ids(e), ENTRY_HEADER, lay);
    PrintedFieldsAreRead(Ids(e), lay);
    r := Ids(e) + fs;
    ReadAreClean(text, ENTRY_HEADER);
    IdsAreGiven(e, fs);
    FirstCollected(ReadRecords(text, ENTRY_HEADER), EntryReader(trustDomain));
    HeaderIsOptional(text, ENTRY_HEADER, EntryReader(trustDomain));
  }

  lemma IdsAreGiven(e: WorkloadEntry, fs: seq<Field>)
    ensures Values(Ids(e) + fs, EntryId) != [] && Values(Ids(e) + fs, SpiffeId) != []
    ensures Values(fs, ParentId) != [] ==> Values(Ids(e) + fs, ParentId) != []
  {
    ValuesAppend(Ids(e), fs, EntryId);
    ValuesAppend(Ids(e), fs, SpiffeId);
    ValuesAppend(Ids(e), fs, ParentId);
    assert Ids(e)[1..] == [Field(SpiffeId, e.spiffeId)];
  }

  lemma UnheadedIsWhole(e: WorkloadEntry, lay: Layout)
    ensures Unheaded(Ids(e), lay) != "" && WholeLines(Unheaded(Ids(e), lay))
  {
    assert Ids(e)[1..] == [Field(SpiffeId, e.spiffeId)];
    assert Ids(e)[1..][1..] == [];
    assert PrintFields(Ids(e)[1..], lay) == PrintLine(Ids(e)[1], lay) + "\n" + "";
  }

  lemma FirstCollected<T>(rs: seq<seq<Field>>, read: Reader<T>)
    requires rs != [] && read(rs[0]).Some?
    ensures Collect(rs, read) != [] && Collect(rs, read)[0] == read(rs[0]).value
  {
  }

  /** Entries that come back are clean, whatever the trust domain is called. */
  lemma {:induction false} SurvivorsAreClean(es: seq<WorkloadEntry>, lay: Layout, trustDomain: string)
    requires ParseEntries(PrintEntries(es, lay), trustDomain) == es
    ensures CleanEntries(es)
  {
    if es != [] {
      var e, rest := es[0], es[1..];
      assert es == [e] + rest;
      ParsedAreClean(PrintEntries(es, lay), trustDomain);
      var r := FirstRecordHasParent(e, rest, lay, trustDomain);
      EntryIsClean(r, trustDomain);
      PrintedCons(e, rest, lay, trustDomain);
      SurvivorsAreClean(rest, lay, trustDomain);
    }
  }

  lemma PrintedCons(e: WorkloadEntry, es: seq<WorkloadEntry>, lay: Layout, trustDomain: string)
    requires CleanEntry(e)
    ensures ParseEntries(PrintEntries([e] + es, lay), trustDomain)
         == [e] + ParseEntries(PrintEntries(es, lay), trustDomain)
  {
    PrintFirst(e, es, lay);
    DescribeIsRecord(e);
    DescribedIsEntry(e, trustDomain);
    ParseRecord(Describe(e), ENTRY_HEADER, EntryReader(trustDomain), lay);
    PrintedAfter(PrintFields(Describe(e), lay), DescribeAll(es), ENTRY_HEADER, EntryReader(trustDomain), lay);
  }

  /** Exactly the clean entries survive printing and parsing. */
  lemma {:induction false} RoundTripIffClean(es: seq<WorkloadEntry>, lay: Layout, trustDomain: string)
    ensures ParseEntries(PrintEntries(es, lay), trustDomain) == es <==> CleanEntries(es)
  {
    if CleanEntries(es) {
      EntriesRoundTrip(es, lay, trustDomain);
    } else if ParseEntries(PrintEntries(es, lay), trustDomain) == es {
      SurvivorsAreClean(es, lay, trustDomain);
    }
  }

  /** Printing what was parsed is a normal form, which parsing again does not change, exactly if no
      entry has taken a default parent that is not clean. */
  lemma {:induction false} PrintingIsNormalForm(stdout: string, lay: Layout, trustDomain: string)
    ensures var es := ParseEntries(stdout, trustDomain);
            ParseEntries(PrintEntries(es, lay), trustDomain) == es
            <==> || Clean(DefaultParent(trustDomain), ENTRY_HEADER)
                 || forall e :: e in es ==> e.parentId != DefaultParent(trustDomain)
  {
    var es := ParseEntries(stdout, trustDomain);
    ParsedAreClean(stdout, trustDomain);
    RoundTripIffClean(es, lay, trustDomain);
  }

  // ---- Output in front of the first header -----------------------------------------------

  /** Header-free output that yields an entry all the same: a SPIFFE ID below its first line, and an
      id from a later line or from the header glued onto a blank key. */
  predicate LooksLikeEntry(pre: string) {
    var lines := SplitLines(pre);
    && lines != []
    && Values(Fields(lines[1..]), SpiffeId) != []
    && (BlankKey(lines[0]) || Values(Fields(lines[1..]), EntryId) != [])
  }

  /** Text without a header yields an entry exactly if it looks like one. */
  lemma PreambleEntries(pre: string, trustDomain: string)
    requires Free(pre, ENTRY_HEADER)
    ensures ParseEntries(pre, trustDomain) == [] <==> !LooksLikeEntry(pre)
  {
    HeadersAreHeaders();
    ParseFree(pre, ENTRY_HEADER, EntryReader(trustDomain));
    if pre == "" {
      NoColonNoFields(ENTRY_HEADER + "");
    } else {
      GluedValues(pre, ENTRY_HEADER, EntryId);
      GluedValues(pre, ENTRY_HEADER, SpiffeId);
    }
  }

  /** A preamble leaves the printed entries as they are exactly if it does not look like one. */
  lemma {:induction false} PreambleIsIgnored(pre: string, es: seq<WorkloadEntry>, lay: Layout, trustDomain: string)
    requires Free(pre, ENTRY_HEADER) && CleanEntries(es)
    ensures ParseEntries(pre + PrintEntries(es, lay), trustDomain) == es <==> !LooksLikeEntry(pre)
  {
    PreambleEntries(pre, trustDomain);
    PrintedAfter(pre, DescribeAll(es), ENTRY_HEADER, EntryReader(trustDomain), lay);
    EntriesRoundTrip(es, lay, trustDomain);
    var extra := ParseEntries(pre, trustDomain);
    assert |extra + es| == |extra| + |es|;
    assert [] + es == es;
  }

  /** Output that never names the header can yield an entry: a printed entry with it cut off. */
  lemma EntryWithoutHeader(e: WorkloadEntry, lay: Layout, trustDomain: string)
    requires CleanEntry(e)
    ensures var text := Unheaded(Describe(e), lay);
            Free(text, ENTRY_HEADER) && LooksLikeEntry(text) && ParseEntries(text, trustDomain) == [e]
  {
    var fs := Describe(e);
    DescribeIsRecord(e);
    DescribedIsEntry(e, trustDomain);
    UnheadedIsFree(fs, ENTRY_HEADER, lay);
    ParseRecord(fs, ENTRY_HEADER, EntryReader(trustDomain), lay);
    PreambleEntries(Unheaded(fs, lay), trustDomain);
  }
}
