/** What the two `spire-server` listing parsers share: cut the output at a header, put the header
    back in front of every chunk, and read each chunk's lines as "key : value" fields. */
module Records {
  import opened Text
  import opened Wrappers

  /** The attributes the parsers look for, and `Unknown` for every other key. */
  datatype Attribute =
    | EntryId | SpiffeId | ParentId | Ttl | Selector | DnsName | Admin
    | SerialNumber | ExpirationTime | AttestationType
    | Unknown

  const ENTRY_HEADER := "Entry ID"
  const AGENT_HEADER := "SPIFFE ID"

  /** The attribute of a stripped, lower-cased key. */
  function Classify(key: string): Attribute {
    if key == "entry id" then EntryId
    else if key == "spiffe id" then SpiffeId
    else if key == "parent id" then ParentId
    else if key == "x509-svid ttl" || key == "ttl" then Ttl
    else if key == "selector" then Selector
    else if key == "dns name" then DnsName
    else if key == "admin" then Admin
    else if key == "serial number" then SerialNumber
    else if key == "expiration time" then ExpirationTime
    else if key == "attestation type" then AttestationType
    else Unknown
  }

  datatype Field = Field(attr: Attribute, value: string)

  datatype KeyValue = KeyValue(key: string, value: string)

  /** A line at its first colon: the key stripped and lower-cased, the value stripped. */
  function SplitField(line: string): Option<KeyValue> {
    var i := IndexOf(line, ':');
    if i == |line| then None else Some(KeyValue(Lower(Strip(line[..i])), Strip(line[i + 1..])))
  }

  /** The field of a line; a line without a colon has none. */
  function FieldsOfLine(line: string): seq<Field> {
    match SplitField(line)
    case None => []
    case Some(kv) => [Field(Classify(kv.key), kv.value)]
  }

  function Fields(lines: seq<string>): seq<Field> {
    if lines == [] then [] else FieldsOfLine(lines[0]) + Fields(lines[1..])
  }

  function TextFields(text: string): seq<Field> {
    Fields(SplitLines(text))
  }

  /** The fields of every chunk, each read with the header back in front of it. */
  function ChunkFields(header: string, chunks: seq<string>): (rs: seq<seq<Field>>)
    ensures |rs| == |chunks|
  {
    if chunks == [] then [] else [TextFields(header + chunks[0])] + ChunkFields(header, chunks[1..])
  }

  function ReadRecords(text: string, header: string): (rs: seq<seq<Field>>)
    requires header != ""
  {
    ChunkFields(header, Split(text, header))
  }

  /** The values given for one attribute, in order. */
  function Values(fs: seq<Field>, a: Attribute): seq<string> {
    if fs == [] then []
    else (if fs[0].attr == a then [fs[0].value] else []) + Values(fs[1..], a)
  }

  /** The value given last, or a default when none was given. */
  function LastOr(vs: seq<string>, default: string): string {
    if vs == [] then default else vs[|vs| - 1]
  }

  function LastOption(vs: seq<string>): Option<string> {
    if vs == [] then None else Some(vs[|vs| - 1])
  }

  /** All values of one attribute. */
  datatype Group = Group(attr: Attribute, values: seq<string>)

  function Give(a: Attribute, vs: seq<string>): seq<Field> {
    if vs == [] then [] else [Field(a, vs[0])] + Give(a, vs[1..])
  }

  function GiveAll(gs: seq<Group>): seq<Field> {
    if gs == [] then [] else Give(gs[0].attr, gs[0].values) + GiveAll(gs[1..])
  }

  // ---- What a record gives ----------------------------------------------------------------

  predicate Lacks(fs: seq<Field>, a: Attribute) {
    forall f :: f in fs ==> f.attr != a
  }

  /** `v` stands at some place for `a`, and nothing behind it does. */
  ghost predicate IsLast(fs: seq<Field>, a: Attribute, v: string) {
    exists k :: 0 <= k < |fs| && fs[k] == Field(a, v) && Lacks(fs[k + 1..], a)
  }

  // ---- Headers ---------------------------------------------------------------------------

  predicate IsHeader(h: string) {
    h == ENTRY_HEADER || h == AGENT_HEADER
  }

  function HeaderAttribute(h: string): Attribute
    requires IsHeader(h)
  {
    if h == ENTRY_HEADER then EntryId else SpiffeId
  }

  /** What the record laws need of a header: occurrences neither overlap nor cross a line or colon. */
  predicate Header(h: string) {
    Borderless(h) && SingleLine(h) && Trimmed(h) && ':' !in h && '\n' !in h
  }

  lemma HeadersAreHeaders()
    ensures Header(ENTRY_HEADER) && Header(AGENT_HEADER)
  {
    UniqueHeadIsBorderless(ENTRY_HEADER);
    UniqueHeadIsBorderless(AGENT_HEADER);
  }

  lemma LowerHeader(h: string)
    requires IsHeader(h)
    ensures Lower(h) == if h == ENTRY_HEADER then "entry id" else "spiffe id"
  {
  }

  // ---- Fields and concatenation ----------------------------------------------------------

  lemma {:induction false} FieldsAppend(xs: seq<string>, ys: seq<string>)
    ensures Fields(xs + ys) == Fields(xs) + Fields(ys)
  {
    if xs == [] {
      assert xs + ys == ys;
    } else {
      assert (xs + ys)[1..] == xs[1..] + ys;
      FieldsAppend(xs[1..], ys);
    }
  }

  lemma {:induction false} ValuesAppend(fs: seq<Field>, gs: seq<Field>, a: Attribute)
    ensures Values(fs + gs, a) == Values(fs, a) + Values(gs, a)
  {
    if fs == [] {
      assert fs + gs == gs;
    } else {
      assert (fs + gs)[1..] == fs[1..] + gs;
      ValuesAppend(fs[1..], gs, a);
    }
  }

  lemma ValuesSnoc(fs: seq<Field>, f: Field, a: Attribute)
    ensures Values(fs + [f], a) == if f.attr == a then Values(fs, a) + [f.value] else Values(fs, a)
  {
    ValuesAppend(fs, [f], a);
    assert [f][1..] == [];
    assert Values(fs, a) + [] == Values(fs, a);
  }

  lemma FieldsSnoc(lines: seq<string>, l: string)
    ensures Fields(lines + [l]) == Fields(lines) + FieldsOfLine(l)
  {
    FieldsAppend(lines, [l]);
    assert [l][1..] == [];
  }

  lemma {:induction false} NoneGiven(fs: seq<Field>, a: Attribute)
    ensures Values(fs, a) == [] <==> Lacks(fs, a)
  {
    if fs != [] {
      NoneGiven(fs[1..], a);
      assert forall f :: f in fs <==> f == fs[0] || f in fs[1..];
    }
  }

  lemma LastAt(fs: seq<Field>, a: Attribute, k: nat)
    requires k < |fs| && fs[k].attr == a && Lacks(fs[k + 1..], a)
    ensures Values(fs, a) == Values(fs[..k], a) + [fs[k].value]
  {
    assert fs == fs[..k] + [fs[k]] + fs[k + 1..];
    ValuesAppend(fs[..k] + [fs[k]], fs[k + 1..], a);
    ValuesSnoc(fs[..k], fs[k], a);
    NoneGiven(fs[k + 1..], a);
  }

  lemma {:induction false} LastPlace(fs: seq<Field>, a: Attribute) returns (k: nat)
    requires Values(fs, a) != []
    ensures k < |fs| && fs[k].attr == a && Lacks(fs[k + 1..], a)
  {
    var rest := fs[1..];
    NoneGiven(rest, a);
    if Values(rest, a) == [] {
      k := 0;
    } else {
      k := LastPlace(rest, a);
      assert fs[k + 2..] == rest[k + 1..];
      k := k + 1;
    }
  }

  /** The values of an attribute end in the one given last. */
  lemma LastGiven(fs: seq<Field>, a: Attribute, v: string)
    ensures IsLast(fs, a, v) <==> Values(fs, a) != [] && Values(fs, a)[|Values(fs, a)| - 1] == v
  {
    if IsLast(fs, a, v) {
      var k :| 0 <= k < |fs| && fs[k] == Field(a, v) && Lacks(fs[k + 1..], a);
      LastAt(fs, a, k);
    }
    if Values(fs, a) != [] {
      var k := LastPlace(fs, a);
      LastAt(fs, a, k);
      assert fs[k] == Field(a, fs[k].value);
    }
  }

  lemma Given(fs: seq<Field>, a: Attribute)
    ensures Lacks(fs, a) <==> Values(fs, a) == []
    ensures forall v :: IsLast(fs, a, v) <==> Values(fs, a) != [] && Values(fs, a)[|Values(fs, a)| - 1] == v
  {
    NoneGiven(fs, a);
    forall v
      ensures IsLast(fs, a, v) <==> Values(fs, a) != [] && Values(fs, a)[|Values(fs, a)| - 1] == v
    {
      LastGiven(fs, a, v);
    }
  }

  lemma {:induction false} ValuesOfGive(a: Attribute, vs: seq<string>, b: Attribute)
    ensures Values(Give(a, vs), b) == if a == b then vs else []
  {
    if vs != [] {
      ValuesOfGive(a, vs[1..], b);
    }
  }

  lemma {:induction false} ValuesOfOthers(gs: seq<Group>, a: Attribute)
    requires forall g :: g in gs ==> g.attr != a
    ensures Values(GiveAll(gs), a) == []
  {
    if gs != [] {
      assert gs[0] in gs;
      ValuesOfGive(gs[0].attr, gs[0].values, a);
      ValuesAppend(Give(gs[0].attr, gs[0].values), GiveAll(gs[1..]), a);
      ValuesOfOthers(gs[1..], a);
    }
  }

  predicate Distinct(gs: seq<Group>) {
    forall i, j :: 0 <= i < j < |gs| ==> gs[i].attr != gs[j].attr
  }

  /** Groups of distinct attributes are found again, whatever is written between them. */
  lemma {:induction false} ValuesOfGroup(gs: seq<Group>, i: nat)
    requires Distinct(gs) && i < |gs|
    ensures Values(GiveAll(gs), gs[i].attr) == gs[i].values
  {
    ValuesOfGive(gs[0].attr, gs[0].values, gs[i].attr);
    ValuesAppend(Give(gs[0].attr, gs[0].values), GiveAll(gs[1..]), gs[i].attr);
    if i == 0 {
      ValuesOfOthers(gs[1..], gs[0].attr);
    } else {
      ValuesOfGroup(gs[1..], i - 1);
    }
  }

  lemma {:induction false} ChunkFieldsAppend(header: string, xs: seq<string>, ys: seq<string>)
    ensures ChunkFields(header, xs + ys) == ChunkFields(header, xs) + ChunkFields(header, ys)
  {
    if xs == [] {
      assert xs + ys == ys;
    } else {
      assert (xs + ys)[1..] == xs[1..] + ys;
      ChunkFieldsAppend(header, xs[1..], ys);
    }
  }

  lemma SplitFieldAt(key: string, value: string)
    requires ':' !in key
    ensures SplitField(key + ":" + value) == Some(KeyValue(Lower(Strip(key)), Strip(value)))
  {
    var line, tail := key + ":" + value, ":" + value;
    assert line == key + tail;
    IndexOfAfter(key, tail, ':');
    assert line[..|key|] == key && line[|key| + 1..] == value;
  }

  lemma TextFieldsAppend(a: string, b: string)
    requires a == "" || a[|a| - 1] == '\n'
    ensures TextFields(a + b) == TextFields(a) + TextFields(b)
  {
    SplitLinesAppend(a, b);
    FieldsAppend(SplitLines(a), SplitLines(b));
  }

  lemma TextFieldsCons(l: string, rest: string)
    requires SingleLine(l)
    ensures TextFields(l + "\n" + rest) == FieldsOfLine(l) + TextFields(rest)
  {
    SplitLinesCons(l, rest);
    assert ([l] + SplitLines(rest))[1..] == SplitLines(rest);
  }

  /** Records distribute over a header, whatever text stands on either side of it. */
  lemma ReadAtHeader(a: string, b: string, header: string)
    requires Header(header)
    ensures ReadRecords(a + header + b, header) == ReadRecords(a, header) + ReadRecords(b, header)
  {
    SplitAtSeparator(a, b, header);
    ChunkFieldsAppend(header, Split(a, header), Split(b, header));
  }

  // ---- A block of lines inside one chunk -------------------------------------------------

  lemma ChunkFieldsAround(header: string, xs: seq<string>, chunk: string, ys: seq<string>)
    ensures ChunkFields(header, xs + [chunk] + ys)
         == ChunkFields(header, xs) + [TextFields(header + chunk)] + ChunkFields(header, ys)
  {
    ChunkFieldsOne(header, chunk);
    ChunkFieldsAppend(header, xs, [chunk]);
    ChunkFieldsAppend(header, xs + [chunk], ys);
  }

  lemma ChunkFieldsOne(header: string, chunk: string)
    ensures ChunkFields(header, [chunk]) == [TextFields(header + chunk)]
  {
    var fs := TextFields(header + chunk);
    assert ChunkFields(header, [chunk]) == [fs] + ChunkFields(header, []);
  }

  lemma BlockFields(p: string, w: string, q: string)
    requires p != "" && WholeLines(p) && WholeLines(w)
    ensures TextFields(p + w + q) == TextFields(p) + TextFields(w) + TextFields(q)
  {
    TextFieldsAppend(p, w);
    TextFieldsAppend(p + w, q);
  }

  lemma ReadBlock(text: string, xs: seq<string>, p: string, w: string, q: string, ys: seq<string>, header: string)
    requires header != "" && Split(text, header) == xs + [p + w + q] + ys
    requires p != "" && WholeLines(p) && WholeLines(w)
    ensures ReadRecords(text, header)
         == ChunkFields(header, xs) + [TextFields(header + p) + TextFields(w) + TextFields(q)]
          + ChunkFields(header, ys)
  {
    ChunkFieldsAround(header, xs, p + w + q, ys);
    BlockFields(header + p, w, q);
    Assoc(header, p + w, q);
    Assoc(header, p, w);
  }

  /** Whole header-free lines put in after a line break only add their fields to one record: the
      records around it, and that record's other fields, are the same for every such block. */
  lemma {:induction false} ReadAroundBlock(a: string, w: string, b: string, header: string,
                                          xs: seq<string>, p: string, q: string, ys: seq<string>)
    requires Header(header) && WholeLines(w) && Free(w, header)
    requires Split(a, header) == xs + [p] && Split(b, header) == [q] + ys
    requires p != "" && WholeLines(p)
    ensures ReadRecords(a + w + b, header)
         == ChunkFields(header, xs) + [TextFields(header + p) + TextFields(w) + TextFields(q)]
          + ChunkFields(header, ys)
  {
    SplitJoins(a, header);
    SplitJoins(b, header);
    SplitAroundBlock(xs, p, w, q, ys, header);
    ReadBlock(a + w + b, xs, p, w, q, ys, header);
  }

  /** Whole lines end inside their last chunk. */
  lemma LastChunkIsOpen(a: string, header: string)
    requires header != "" && '\n' !in header && a != "" && WholeLines(a)
    ensures var cs := Split(a, header); cs != [] && cs[|cs| - 1] != "" && WholeLines(cs[|cs| - 1])
  {
    SplitJoins(a, header);
    LastChunkEnds(Split(a, header), header, '\n');
  }

  // ---- What a record's values can be -----------------------------------------------------

  /** Text that survives being printed as a value: one trimmed line without the header. */
  predicate Clean(v: string, header: string) {
    Trimmed(v) && SingleLine(v) && Free(v, header)
  }

  predicate CleanFields(fs: seq<Field>, header: string) {
    forall f :: f in fs ==> Clean(f.value, header)
  }

  lemma CleanSlice(s: string, i: nat, header: string)
    requires i <= |s| && SingleLine(s) && Free(s, header)
    ensures Clean(Strip(s[i..]), header)
  {
    assert s[i..] == s[i..|s|];
    FreeSlice(s, header, i, |s|);
    SingleLineSlice(s, i, |s|);
    var x, y := StripSlices(s[i..]);
    FreeSlice(s[i..], header, x, y);
    SingleLineSlice(s[i..], x, y);
  }

  /** Lines of header-free text are header-free. */
  lemma {:induction false} LinesAreFree(s: string, header: string)
    requires Header(header) && Free(s, header)
    ensures forall l :: l in SplitLines(s) ==> Free(l, header)
  {
    forall l | l in SplitLines(s)
      ensures Free(l, header)
    {
      var i, j := LineIsSlice(s, l);
      FreeSlice(s, header, i, j);
    }
  }

  lemma {:induction false} CleanLines(lines: seq<string>, header: string)
    requires forall l :: l in lines ==> SingleLine(l) && Free(l, header)
    ensures CleanFields(Fields(lines), header)
  {
    if lines != [] {
      var l := lines[0];
      var i := IndexOf(l, ':');
      if i < |l| {
        CleanSlice(l, i + 1, header);
      }
      CleanLines(lines[1..], header);
    }
  }

  /** The header glued onto a line becomes part of its key and leaves its value alone. */
  lemma GluedLine(l: string, header: string)
    requires Header(header)
    ensures var i := IndexOf(l, ':');
            SplitField(header + l)
            == if i == |l| then None else Some(KeyValue(Lower(Strip(header + l[..i])), Strip(l[i + 1..])))
  {
    var i := IndexOf(l, ':');
    if i == |l| {
      IndexOfAfter(header, l, ':');
    } else {
      SplitFieldAt(header + l[..i], l[i + 1..]);
      CutAt(l, i);
      Assoc(header, l[..i] + ":", l[i + 1..]);
      Assoc(header, l[..i], ":");
    }
  }

  /** A glued key is the header itself if it was blank, and no known key otherwise. */
  lemma GluedKey(k: string, header: string)
    requires IsHeader(header)
    ensures Classify(Lower(Strip(header + k))) == if AllSpace(k) then HeaderAttribute(header) else Unknown
  {
    HeadersAreHeaders();
    LowerHeader(header);
    StripGlued(header, k);
    if !AllSpace(k) {
      LongerKey(Strip(header + k), header);
    }
  }

  lemma LongerKey(key: string, header: string)
    requires IsHeader(header) && header < key
    ensures Classify(Lower(key)) == Unknown
  {
    LowerHeader(header);
    assert Lower(key)[0] == Lower(header)[0] && Lower(key)[1] == Lower(header)[1];
  }

  /** Every value read from a chunk is clean. */
  lemma ChunkValuesAreClean(raw: string, header: string)
    requires Header(header) && Free(raw, header)
    ensures CleanFields(TextFields(header + raw), header)
  {
    if raw == "" {
      NoColonNoFields(header + raw);
    } else {
      var lines := SplitLines(raw);
      SplitLinesGlue(header, raw);
      LinesAreSingle(raw);
      LinesAreFree(raw, header);
      CleanLines(lines[1..], header);
      var l := lines[0];
      GluedLine(l, header);
      CleanSlice(l, if IndexOf(l, ':') < |l| then IndexOf(l, ':') + 1 else 0, header);
    }
  }

  lemma {:induction false} ChunksAreClean(chunks: seq<string>, header: string)
    requires Header(header) && AllFree(chunks, header)
    ensures forall r :: r in ChunkFields(header, chunks) ==> CleanFields(r, header)
  {
    if chunks != [] {
      ChunkValuesAreClean(chunks[0], header);
      ChunksAreClean(chunks[1..], header);
    }
  }

  /** Every value of every record of any text is clean. */
  lemma ReadAreClean(text: string, header: string)
    requires Header(header)
    ensures forall r :: r in ReadRecords(text, header) ==> CleanFields(r, header)
  {
    SplitJoins(text, header);
    ChunksAreClean(Split(text, header), header);
  }

  /** A chunk of whitespace has no field, so skipping it loses nothing. */
  lemma BlankChunk(raw: string, header: string)
    requires Header(header) && Strip(raw) == ""
    ensures TextFields(header + raw) == []
  {
    StripEmpty(raw);
    NoColonNoFields(header + raw);
  }

  lemma {:induction false} NoColonNoFields(s: string)
    requires ':' !in s
    ensures TextFields(s) == []
  {
    var lines := SplitLines(s);
    forall l | l in lines
      ensures ':' !in l
    {
      var i, j := LineIsSlice(s, l);
    }
    NoColonLines(lines);
  }

  lemma {:induction false} NoColonLines(lines: seq<string>)
    requires forall l :: l in lines ==> ':' !in l
    ensures Fields(lines) == []
  {
    if lines != [] {
      assert ':' !in lines[0];
      NoColonLines(lines[1..]);
    }
  }
}
