/** A reference printer for the "Key : value" format that the listing parsers read, and the fact
    that reading a printed record gives its fields back. */
module Printing {
  import opened Records
  import opened Text
  import opened Wrappers

  /** How many blanks stand before and after the colon. */
  datatype Layout = Layout(pad: nat, gap: nat)

  function Blanks(n: nat): (s: string)
    ensures |s| == n && forall c :: c in s ==> c == ' '
  {
    seq(n, _ => ' ')
  }

  /** The key of an attribute as the CLI writes it; `Unknown` stands for a key nobody reads. */
  function Name(a: Attribute): string {
    match a
    case EntryId => "Entry ID"
    case SpiffeId => "SPIFFE ID"
    case ParentId => "Parent ID"
    case Ttl => "X509-SVID TTL"
    case Selector => "Selector"
    case DnsName => "DNS name"
    case Admin => "Admin"
    case SerialNumber => "Serial number"
    case ExpirationTime => "Expiration time"
    case AttestationType => "Attestation type"
    case Unknown => "Revision"
  }

  function PrintKey(a: Attribute, lay: Layout): string {
    Name(a) + Blanks(lay.pad)
  }

  function PrintValue(v: string, lay: Layout): string {
    Blanks(lay.gap) + v
  }

  function PrintLine(f: Field, lay: Layout): string {
    PrintKey(f.attr, lay) + ":" + PrintValue(f.value, lay)
  }

  function PrintFields(fs: seq<Field>, lay: Layout): string {
    if fs == [] then "" else PrintLine(fs[0], lay) + "\n" + PrintFields(fs[1..], lay)
  }

  // ---- Reading one printed line ----------------------------------------------------------

  /** What the parser makes of a name: stripped and lower-cased. */
  function Key(a: Attribute): string {
    match a
    case EntryId => "entry id"
    case SpiffeId => "spiffe id"
    case ParentId => "parent id"
    case Ttl => "x509-svid ttl"
    case Selector => "selector"
    case DnsName => "dns name"
    case Admin => "admin"
    case SerialNumber => "serial number"
    case ExpirationTime => "expiration time"
    case AttestationType => "attestation type"
    case Unknown => "revision"
  }

  /** Names consist of letters, digits, hyphens and inner spaces. */
  predicate NameChar(c: char) {
    'a' <= c <= 'z' || 'A' <= c <= 'Z' || '0' <= c <= '9' || c == ' ' || c == '-'
  }

  lemma NameChars(a: Attribute)
    ensures forall c :: c in Name(a) ==> NameChar(c)
  {
  }

  lemma NameShape(a: Attribute)
    ensures Name(a) != "" && Trimmed(Name(a)) && ':' !in Name(a) && SingleLine(Name(a))
  {
    NameChars(a);
    forall i | 0 <= i < |Name(a)|
      ensures !IsBreak(Name(a)[i])
    {
      assert NameChar(Name(a)[i]);
    }
  }

  lemma LowerIdName(a: Attribute)
    requires a.EntryId? || a.SpiffeId? || a.ParentId? || a.Ttl?
    ensures Lower(Name(a)) == Key(a)
  {
  }

  lemma LowerShortName(a: Attribute)
    requires a.Selector? || a.DnsName? || a.Admin? || a.Unknown?
    ensures Lower(Name(a)) == Key(a)
  {
  }

  lemma LowerAgentName(a: Attribute)
    requires a.SerialNumber? || a.ExpirationTime? || a.AttestationType?
    ensures Lower(Name(a)) == Key(a)
  {
  }

  lemma LowerName(a: Attribute)
    ensures Lower(Name(a)) == Key(a)
  {
    if a.SerialNumber? || a.ExpirationTime? || a.AttestationType? {
      LowerAgentName(a);
    } else if a.Selector? || a.DnsName? || a.Admin? || a.Unknown? {
      LowerShortName(a);
    } else {
      LowerIdName(a);
    }
  }

  lemma KeyIsClassified(a: Attribute)
    ensures Classify(Key(a)) == a
  {
  }

  lemma NameIsClassified(a: Attribute)
    ensures Classify(Lower(Name(a))) == a
  {
    LowerName(a);
    KeyIsClassified(a);
  }

  lemma BlanksAreSpace(n: nat)
    ensures AllSpace(Blanks(n)) && SingleLine(Blanks(n))
  {
    forall i | 0 <= i < n
      ensures IsSpace(Blanks(n)[i]) && !IsBreak(Blanks(n)[i])
    {
      assert Blanks(n)[i] in Blanks(n);
    }
  }

  lemma PrintedLineIsRead(f: Field, lay: Layout)
    requires Trimmed(f.value)
    ensures FieldsOfLine(PrintLine(f, lay)) == [f]
  {
    var key, value := PrintKey(f.attr, lay), PrintValue(f.value, lay);
    NameShape(f.attr);
    BlanksAreSpace(lay.pad);
    BlanksAreSpace(lay.gap);
    SplitFieldAt(key, value);
    StripPadded("", Name(f.attr), Blanks(lay.pad));
    StripPadded(Blanks(lay.gap), f.value, "");
    assert "" + Name(f.attr) == Name(f.attr);
    assert PrintValue(f.value, lay) + "" == value;
    NameIsClassified(f.attr);
  }

  lemma SingleLineConcat(a: string, b: string)
    requires SingleLine(a) && SingleLine(b)
    ensures SingleLine(a + b)
  {
  }

  lemma PrintedLineIsSingle(f: Field, lay: Layout)
    requires SingleLine(f.value)
    ensures SingleLine(PrintLine(f, lay))
  {
    NameShape(f.attr);
    BlanksAreSpace(lay.pad);
    BlanksAreSpace(lay.gap);
    SingleLineConcat(Name(f.attr), Blanks(lay.pad));
    SingleLineConcat(PrintKey(f.attr, lay), ":");
    SingleLineConcat(Blanks(lay.gap), f.value);
    SingleLineConcat(PrintKey(f.attr, lay) + ":", PrintValue(f.value, lay));
  }

  // ---- Reading a printed record ----------------------------------------------------------

  predicate Readable(f: Field) {
    Trimmed(f.value) && SingleLine(f.value)
  }

  /** The fields of printed fields are those fields. */
  lemma {:induction false} PrintedFieldsAreRead(fs: seq<Field>, lay: Layout)
    requires forall f :: f in fs ==> Readable(f)
    ensures TextFields(PrintFields(fs, lay)) == fs
  {
    if fs != [] {
      assert fs[0] in fs;
      PrintedLineIsSingle(fs[0], lay);
      PrintedLineIsRead(fs[0], lay);
      TextFieldsCons(PrintLine(fs[0], lay), PrintFields(fs[1..], lay));
      PrintedFieldsAreRead(fs[1..], lay);
    }
  }

  // ---- Header occurrences in printed text ------------------------------------------------

  /** The attributes printed below a header; their names share no occurrence with it. */
  predicate Below(a: Attribute, header: string) {
    if header == ENTRY_HEADER then
      a.SpiffeId? || a.ParentId? || a.Ttl? || a.Selector? || a.DnsName? || a.Admin? || a.Unknown?
    else
      header == AGENT_HEADER && (a.SerialNumber? || a.ExpirationTime? || a.AttestationType? || a.Unknown?)
  }

  predicate AllBelow(fs: seq<Field>, header: string) {
    forall f :: f in fs ==> Below(f.attr, header)
  }

  lemma BelowLacks(a: Attribute, header: string)
    requires Below(a, header)
    ensures IsHeader(header)
    ensures if header == ENTRY_HEADER then header[4] !in Name(a) else header[1] !in Name(a)
  {
  }

  lemma {:induction false} FreeAfterBlanks(n: nat, s: string, sep: string)
    requires sep != "" && sep[0] != ' ' && Free(s, sep)
    ensures Free(Blanks(n) + s, sep)
  {
    var t := Blanks(n) + s;
    assert s == t[n..|t|];
    forall k: nat | k + |sep| <= |t|
      ensures !OccursAt(t, sep, k)
    {
      if k < n {
        assert t[k] in Blanks(n) && t[k..k + |sep|][0] == t[k];
      } else {
        OccursInSlice(t, sep, n, |t|, k - n);
      }
    }
  }

  lemma KeyIsFree(a: Attribute, header: string, lay: Layout)
    requires Below(a, header)
    ensures Free(PrintKey(a, lay), header)
  {
    BelowLacks(a, header);
    FreeWithout(PrintKey(a, lay), header, if header == ENTRY_HEADER then 4 else 1);
  }

  lemma BlanksAreFree(n: nat, header: string)
    requires IsHeader(header)
    ensures Free(Blanks(n), header)
  {
    FreeWithout(Blanks(n), header, 0);
  }

  /** Whatever stands before the colon, the rest of the line and the next lines stay header-free. */
  lemma FreeLine(key: string, v: string, rest: string, header: string, lay: Layout)
    requires IsHeader(header) && Free(key, header) && Free(v, header) && Free(rest, header)
    ensures Free(key + ":" + PrintValue(v, lay) + "\n" + rest, header)
  {
    HeadersAreHeaders();
    FreeAfterBlanks(lay.gap, v, header);
    FreeAcross(PrintValue(v, lay), '\n', rest, header);
    FreeAcross(key, ':', PrintValue(v, lay) + "\n" + rest, header);
    Assoc(key + ":", PrintValue(v, lay) + "\n", rest);
    Assoc(key + ":", PrintValue(v, lay), "\n");
  }

  lemma {:induction false} BodyIsFree(fs: seq<Field>, header: string, lay: Layout)
    requires IsHeader(header)
    requires AllBelow(fs, header) && CleanFields(fs, header)
    ensures Free(PrintFields(fs, lay), header)
  {
    if fs == [] {
      HeadersAreHeaders();
    } else {
      assert fs[0] in fs;
      BodyIsFree(fs[1..], header, lay);
      KeyIsFree(fs[0].attr, header, lay);
      FreeLine(PrintKey(fs[0].attr, lay), fs[0].value, PrintFields(fs[1..], lay), header, lay);
    }
  }

  // ---- One printed record ----------------------------------------------------------------

  /** A header field followed by fields below it, all values clean. */
  predicate IsRecord(fs: seq<Field>, header: string) {
    && IsHeader(header)
    && fs != [] && fs[0].attr == HeaderAttribute(header)
    && AllBelow(fs[1..], header)
    && CleanFields(fs, header)
  }

  /** A printed record without the header that opens it. */
  function Unheaded(fs: seq<Field>, lay: Layout): string
    requires fs != []
  {
    Blanks(lay.pad) + ":" + PrintValue(fs[0].value, lay) + "\n" + PrintFields(fs[1..], lay)
  }

  lemma RecordStartsWithHeader(fs: seq<Field>, header: string, lay: Layout)
    requires IsHeader(header) && fs != [] && fs[0].attr == HeaderAttribute(header)
    ensures PrintFields(fs, lay) == header + Unheaded(fs, lay)
  {
    var v, rest := PrintValue(fs[0].value, lay), PrintFields(fs[1..], lay);
    assert Name(fs[0].attr) == header;
    Assoc(header, Blanks(lay.pad) + ":" + v + "\n", rest);
    Assoc(header, Blanks(lay.pad) + ":" + v, "\n");
    Assoc(header, Blanks(lay.pad) + ":", v);
    Assoc(header, Blanks(lay.pad), ":");
  }

  lemma UnheadedIsFree(fs: seq<Field>, header: string, lay: Layout)
    requires IsRecord(fs, header)
    ensures Free(Unheaded(fs, lay), header)
  {
    assert forall f :: f in fs[1..] ==> f in fs;
    BodyIsFree(fs[1..], header, lay);
    BlanksAreFree(lay.pad, header);
    FreeLine(Blanks(lay.pad), fs[0].value, PrintFields(fs[1..], lay), header, lay);
  }

  /** The chunk of a printed record gives exactly its fields. */
  lemma RecordIsRead(fs: seq<Field>, header: string, lay: Layout)
    requires IsRecord(fs, header)
    ensures ReadRecords(Unheaded(fs, lay), header) == [fs]
  {
    UnheadedIsFree(fs, header, lay);
    FindMisses(Unheaded(fs, lay), header);
    ChunkFieldsOne(header, Unheaded(fs, lay));
    RecordStartsWithHeader(fs, header, lay);
    PrintedFieldsAreRead(fs, lay);
  }

  // ---- A printed key in front of any text ------------------------------------------------

  lemma {:induction false} PrintFieldsAppend(fs: seq<Field>, gs: seq<Field>, lay: Layout)
    ensures PrintFields(fs + gs, lay) == PrintFields(fs, lay) + PrintFields(gs, lay)
  {
    if fs == [] {
      assert fs + gs == gs;
    } else {
      assert (fs + gs)[1..] == fs[1..] + gs;
      PrintFieldsAppend(fs[1..], gs, lay);
      Assoc(PrintLine(fs[0], lay) + "\n", PrintFields(fs[1..], lay), PrintFields(gs, lay));
    }
  }

  /** A text opening with a printed key gives that key a value, whatever follows the colon. */
  lemma KeyIsRead(a: Attribute, z: string, lay: Layout)
    ensures Values(TextFields(PrintKey(a, lay) + (":" + z)), a) != []
  {
    var key, tail := PrintKey(a, lay), ":" + z;
    NameShape(a);
    BlanksAreSpace(lay.pad);
    SingleLineConcat(Name(a), Blanks(lay.pad));
    SplitLinesGlue(key, tail);
    var n := FirstLineIsPrefix(tail);
    assert n >= 1 by {
      assert SplitLines(tail)[0] != "";
    }
    var value := tail[..n][1..];
    assert SplitLines(tail)[0] == ":" + value;
    Assoc(key, ":", value);
    SplitFieldAt(key, value);
    StripPadded("", Name(a), Blanks(lay.pad));
    assert "" + Name(a) == Name(a);
    NameIsClassified(a);
  }

  /** Text up to a colon has no occurrence of the header that reaches past the colon. */
  lemma FindAfterColon(x: string, z: string, header: string)
    requires Header(header) && Free(x, header)
    ensures Find(x + ":" + z, header) > |x|
  {
    var t := x + ":" + z;
    assert x == t[..|x|];
    forall k: nat | k <= |x| && k + |header| <= |t|
      ensures !OccursAt(t, header, k)
    {
      if k + |header| <= |x| {
        OccursInSlice(t, header, 0, |x|, k);
      } else {
        assert t[k..k + |header|][|x| - k] == ':';
      }
    }
  }

  lemma LineFree(p: string, a: Attribute, header: string, lay: Layout)
    requires Below(a, header) && p != "" && WholeLines(p) && Free(p, header)
    ensures Header(header) && Free(p + PrintKey(a, lay), header)
  {
    HeadersAreHeaders();
    var p' := p[..|p| - 1];
    FreeSlice(p, header, 0, |p'|);
    KeyIsFree(a, header, lay);
    FreeAcross(p', '\n', PrintKey(a, lay), header);
    assert p + PrintKey(a, lay) == p' + ['\n'] + PrintKey(a, lay);
  }

  /** The first chunk of such a text ends somewhere behind the colon. */
  lemma FirstChunk(x: string, z: string, header: string) returns (n: nat)
    requires Header(header) && Free(x, header)
    ensures n <= |z| && Split(x + ":" + z, header) != [] && Split(x + ":" + z, header)[0] == x + (":" + z[..n])
  {
    var t := x + ":" + z;
    FindAfterColon(x, z, header);
    n := Find(t, header) - |x| - 1;
    assert t[..Find(t, header)] == x + (":" + z[..n]);
    assert Find(t, header) == |t| ==> t[..|t|] == t;
  }

  lemma FirstRecord(text: string, header: string)
    requires header != "" && Split(text, header) != []
    ensures ReadRecords(text, header) != [] && ReadRecords(text, header)[0] == TextFields(header + Split(text, header)[0])
  {
  }

  /** Behind whole header-free lines, a printed key gives the first record a value, whatever
      follows its colon. */
  lemma FirstRecordHasKey(p: string, a: Attribute, z: string, header: string, lay: Layout) returns (fs: seq<Field>)
    requires Below(a, header) && p != "" && WholeLines(p) && Free(p, header)
    ensures Values(fs, a) != []
    ensures var rs := ReadRecords(p + PrintKey(a, lay) + ":" + z, header);
            rs != [] && rs[0] == TextFields(header + p) + fs
  {
    var key := PrintKey(a, lay);
    LineFree(p, a, header, lay);
    var n := FirstChunk(p + key, z, header);
    FirstRecord(p + key + ":" + z, header);
    Assoc(p, key, ":" + z[..n]);
    Assoc(header, p, key + (":" + z[..n]));
    TextFieldsAppend(header + p, key + (":" + z[..n]));
    KeyIsRead(a, z[..n], lay);
    fs := TextFields(key + (":" + z[..n]));
  }

  // ---- Records made of groups ------------------------------------------------------------

  predicate CleanValues(vs: seq<string>, header: string) {
    forall v :: v in vs ==> Clean(v, header)
  }

  predicate CleanGroups(gs: seq<Group>, header: string) {
    forall i :: 0 <= i < |gs| ==> CleanValues(gs[i].values, header)
  }

  lemma {:induction false} GivenAreClean(a: Attribute, vs: seq<string>, header: string)
    requires CleanValues(vs, header)
    ensures CleanFields(Give(a, vs), header)
  {
    if vs != [] {
      assert vs[0] in vs;
      GivenAreClean(a, vs[1..], header);
    }
  }

  lemma {:induction false} GroupsAreClean(gs: seq<Group>, header: string)
    requires CleanGroups(gs, header)
    ensures CleanFields(GiveAll(gs), header)
  {
    if gs != [] {
      GivenAreClean(gs[0].attr, gs[0].values, header);
      GroupsAreClean(gs[1..], header);
    }
  }

  predicate GroupsBelow(gs: seq<Group>, header: string) {
    forall i :: 0 <= i < |gs| ==> Below(gs[i].attr, header)
  }

  lemma {:induction false} GivenAreBelow(a: Attribute, vs: seq<string>, header: string)
    requires Below(a, header)
    ensures AllBelow(Give(a, vs), header)
  {
    if vs != [] {
      GivenAreBelow(a, vs[1..], header);
    }
  }

  lemma {:induction false} GroupsAreBelow(gs: seq<Group>, header: string)
    requires GroupsBelow(gs, header)
    ensures AllBelow(GiveAll(gs), header)
  {
    if gs != [] {
      GivenAreBelow(gs[0].attr, gs[0].values, header);
      GroupsAreBelow(gs[1..], header);
    }
  }

  /** One clean header value, and clean groups below the header, make a record. */
  lemma GroupsMakeRecord(v: string, gs: seq<Group>, header: string)
    requires IsHeader(header) && Clean(v, header)
    requires GroupsBelow(gs, header) && CleanGroups(gs, header)
    ensures IsRecord([Field(HeaderAttribute(header), v)] + GiveAll(gs), header)
  {
    GroupsAreClean(gs, header);
    GroupsAreBelow(gs, header);
    assert ([Field(HeaderAttribute(header), v)] + GiveAll(gs))[1..] == GiveAll(gs);
  }

  lemma {:induction false} ValuesAreClean(fs: seq<Field>, a: Attribute, header: string)
    requires CleanFields(fs, header)
    ensures CleanValues(Values(fs, a), header)
  {
    if fs != [] {
      assert fs[0] in fs;
      ValuesAreClean(fs[1..], a, header);
    }
  }
}
