/** The laws both listing parsers obey, for any way of turning a record's fields into an item. */
module Listing {
  import opened Printing
  import opened Records
  import opened Text
  import opened Wrappers

  type Reader<T> = seq<Field> -> Option<T>

  function Collect<T>(rs: seq<seq<Field>>, read: Reader<T>): seq<T> {
    if rs == [] then [] else
      match read(rs[0])
      case None => Collect(rs[1..], read)
      case Some(x) => [x] + Collect(rs[1..], read)
  }

  function Parse<T>(text: string, header: string, read: Reader<T>): seq<T>
    requires header != ""
  {
    Collect(ReadRecords(text, header), read)
  }

  // ---- Concatenation ---------------------------------------------------------------------

  lemma {:induction false} CollectAppend<T>(xs: seq<seq<Field>>, ys: seq<seq<Field>>, read: Reader<T>)
    ensures Collect(xs + ys, read) == Collect(xs, read) + Collect(ys, read)
  {
    if xs == [] {
      assert xs + ys == ys;
    } else {
      assert (xs + ys)[1..] == xs[1..] + ys;
      CollectAppend(xs[1..], ys, read);
    }
  }

  lemma CollectOne<T>(fs: seq<Field>, read: Reader<T>)
    ensures Collect([fs], read) == match read(fs) case None => [] case Some(x) => [x]
  {
    assert [fs][1..] == [];
  }

  /** Cutting any text at a header cuts its items. */
  lemma {:induction false} ParseAtHeader<T>(a: string, b: string, header: string, read: Reader<T>)
    requires Header(header)
    ensures Parse(a + header + b, header, read) == Parse(a, header, read) + Parse(b, header, read)
  {
    ReadAtHeader(a, b, header);
    CollectAppend(ReadRecords(a, header), ReadRecords(b, header), read);
  }

  lemma ParseFree<T>(text: string, header: string, read: Reader<T>)
    requires Header(header) && Free(text, header)
    ensures Parse(text, header, read)
         == match read(TextFields(header + text)) case None => [] case Some(x) => [x]
  {
    FindMisses(text, header);
    ChunkFieldsOne(header, text);
    CollectOne(TextFields(header + text), read);
  }

  lemma ParseNothing<T>(header: string, read: Reader<T>)
    requires Header(header) && read([]) == None
    ensures Parse("", header, read) == []
  {
    assert Free("", header);
    ParseFree("", header, read);
    NoColonNoFields(header + "");
  }

  /** The header in front of a text makes no difference: the first chunk has it glued on anyway. */
  lemma HeaderIsOptional<T>(text: string, header: string, read: Reader<T>)
    requires Header(header) && read([]) == None
    ensures Parse(header + text, header, read) == Parse(text, header, read)
  {
    ParseAtHeader("", text, header, read);
    ParseNothing(header, read);
    assert "" + header + text == header + text;
  }

  /** Parsing distributes over concatenation with any text that opens with the header. */
  lemma ParseConcat<T>(a: string, b: string, header: string, read: Reader<T>)
    requires Header(header) && read([]) == None && header <= b
    ensures Parse(a + b, header, read) == Parse(a, header, read) + Parse(b, header, read)
  {
    var rest := b[|header|..];
    assert b == header + rest;
    Assoc(a, header, rest);
    ParseAtHeader(a, rest, header, read);
    HeaderIsOptional(rest, header, read);
  }

  // ---- Exchanging a block of lines -------------------------------------------------------

  lemma CollectAround<T>(xs: seq<seq<Field>>, fs: seq<Field>, gs: seq<Field>, ys: seq<seq<Field>>, read: Reader<T>)
    requires read(fs) == read(gs)
    ensures Collect(xs + [fs] + ys, read) == Collect(xs + [gs] + ys, read)
  {
    CollectAppend(xs + [fs], ys, read);
    CollectAppend(xs + [gs], ys, read);
    CollectAppend(xs, [fs], read);
    CollectAppend(xs, [gs], read);
  }

  /** The reader cannot tell the two blocks apart, wherever they stand in a record. */
  ghost predicate Indistinguishable<T>(fs: seq<Field>, gs: seq<Field>, read: Reader<T>) {
    forall front, back :: read(front + fs + back) == read(front + gs + back)
  }

  lemma ExchangeInChunk<T>(a: string, w: string, w': string, b: string, header: string, read: Reader<T>,
                           xs: seq<string>, p: string, q: string, ys: seq<string>)
    requires Header(header)
    requires WholeLines(w) && Free(w, header) && WholeLines(w') && Free(w', header)
    requires Indistinguishable(TextFields(w), TextFields(w'), read)
    requires Split(a, header) == xs + [p] && Split(b, header) == [q] + ys
    requires p != "" && WholeLines(p)
    ensures Parse(a + w + b, header, read) == Parse(a + w' + b, header, read)
  {
    ReadAroundBlock(a, w, b, header, xs, p, q, ys);
    ReadAroundBlock(a, w', b, header, xs, p, q, ys);
    var front, back := TextFields(header + p), TextFields(q);
    CollectAround(ChunkFields(header, xs), front + TextFields(w) + back, front + TextFields(w') + back,
                  ChunkFields(header, ys), read);
  }

  /** In any text, after any line break, a block of whole header-free lines may be exchanged for
      any other that the reader cannot tell from it. */
  lemma {:induction false} ExchangeBlock<T>(a: string, w: string, w': string, b: string, header: string, read: Reader<T>)
    requires Header(header) && a != "" && WholeLines(a)
    requires WholeLines(w) && Free(w, header) && WholeLines(w') && Free(w', header)
    requires Indistinguishable(TextFields(w), TextFields(w'), read)
    ensures Parse(a + w + b, header, read) == Parse(a + w' + b, header, read)
  {
    LastChunkIsOpen(a, header);
    SplitJoins(b, header);
    var cs, ds := Split(a, header), Split(b, header);
    var n := |cs| - 1;
    assert cs == cs[..n] + [cs[n]] && ds == [ds[0]] + ds[1..];
    ExchangeInChunk(a, w, w', b, header, read, cs[..n], cs[n], ds[0], ds[1..]);
  }

  // ---- Printed records -------------------------------------------------------------------

  function PrintAll(rs: seq<seq<Field>>, lay: Layout): string {
    if rs == [] then "" else PrintFields(rs[0], lay) + PrintAll(rs[1..], lay)
  }

  /** A printed record is read back, with or without the header it opens with. */
  lemma ParseRecord<T>(fs: seq<Field>, header: string, read: Reader<T>, lay: Layout)
    requires IsRecord(fs, header) && read([]) == None && read(fs).Some?
    ensures Parse(PrintFields(fs, lay), header, read) == [read(fs).value]
    ensures Parse(Unheaded(fs, lay), header, read) == [read(fs).value]
  {
    HeadersAreHeaders();
    RecordIsRead(fs, header, lay);
    CollectOne(fs, read);
    RecordStartsWithHeader(fs, header, lay);
    HeaderIsOptional(Unheaded(fs, lay), header, read);
  }

  lemma PrintStartsWithHeader(rs: seq<seq<Field>>, header: string, lay: Layout)
    requires IsHeader(header) && rs != [] && rs[0] != [] && rs[0][0].attr == HeaderAttribute(header)
    ensures header <= PrintAll(rs, lay)
  {
    RecordStartsWithHeader(rs[0], header, lay);
    Assoc(header, Unheaded(rs[0], lay), PrintAll(rs[1..], lay));
  }

  /** Printed records after any text add exactly what they add on their own. */
  lemma PrintedAfter<T>(text: string, rs: seq<seq<Field>>, header: string, read: Reader<T>, lay: Layout)
    requires IsHeader(header) && read([]) == None
    requires rs != [] ==> rs[0] != [] && rs[0][0].attr == HeaderAttribute(header)
    ensures Parse(text + PrintAll(rs, lay), header, read)
         == Parse(text, header, read) + Parse(PrintAll(rs, lay), header, read)
  {
    HeadersAreHeaders();
    if rs == [] {
      ParseNothing(header, read);
      assert text + "" == text;
    } else {
      PrintStartsWithHeader(rs, header, lay);
      ParseConcat(text, PrintAll(rs, lay), header, read);
    }
  }

  lemma ParsePrintedCons<T>(rs: seq<seq<Field>>, header: string, read: Reader<T>, lay: Layout)
    requires IsHeader(header) && read([]) == None
    requires rs != [] && IsRecord(rs[0], header) && read(rs[0]).Some?
    requires |rs| > 1 ==> IsRecord(rs[1], header)
    ensures Parse(PrintAll(rs, lay), header, read) == [read(rs[0]).value] + Parse(PrintAll(rs[1..], lay), header, read)
  {
    ParseRecord(rs[0], header, read, lay);
    PrintedAfter(PrintFields(rs[0], lay), rs[1..], header, read, lay);
  }

  /** Printing records in any column layout and parsing the text reads them all, in order. */
  lemma {:induction false} ParsePrinted<T>(rs: seq<seq<Field>>, xs: seq<T>, header: string, read: Reader<T>, lay: Layout)
    requires IsHeader(header) && read([]) == None && |rs| == |xs|
    requires forall i :: 0 <= i < |rs| ==> IsRecord(rs[i], header) && read(rs[i]) == Some(xs[i])
    ensures Parse(PrintAll(rs, lay), header, read) == xs
  {
    if rs == [] {
      HeadersAreHeaders();
      ParseNothing(header, read);
    } else {
      ParsePrintedCons(rs, header, read, lay);
      ParsePrinted(rs[1..], xs[1..], header, read, lay);
    }
  }

  // ---- Every item comes from clean fields ------------------------------------------------

  lemma {:induction false} ItemsAreRead<T>(rs: seq<seq<Field>>, read: Reader<T>, x: T)
    returns (fs: seq<Field>)
    requires x in Collect(rs, read)
    ensures fs in rs && read(fs) == Some(x)
  {
    if read(rs[0]) == Some(x) {
      fs := rs[0];
    } else {
      fs := ItemsAreRead(rs[1..], read, x);
    }
  }

  lemma ItemSource<T>(text: string, header: string, read: Reader<T>, x: T) returns (fs: seq<Field>)
    requires Header(header) && x in Parse(text, header, read)
    ensures CleanFields(fs, header) && read(fs) == Some(x)
  {
    fs := ItemsAreRead(ReadRecords(text, header), read, x);
    ReadAreClean(text, header);
  }

  // ---- Text in front of the first header -------------------------------------------------

  /** A colon with nothing but whitespace before it. */
  predicate BlankKey(line: string) {
    var i := IndexOf(line, ':');
    i < |line| && AllSpace(line[..i])
  }

  /** Gluing the header onto a text adds one header value if its first line has a blank key, hides
      any other key of that line, and leaves the values of all other lines. */
  lemma GluedValues(pre: string, header: string, a: Attribute)
    requires IsHeader(header) && pre != "" && a != Unknown
    ensures var lines := SplitLines(pre);
            |Values(TextFields(header + pre), a)|
            == (if a == HeaderAttribute(header) && BlankKey(lines[0]) then 1 else 0)
             + |Values(Fields(lines[1..]), a)|
  {
    HeadersAreHeaders();
    var lines := SplitLines(pre);
    var l := lines[0];
    SplitLinesGlue(header, pre);
    GluedLine(l, header);
    if IndexOf(l, ':') < |l| {
      GluedKey(l[..IndexOf(l, ':')], header);
    }
    ValuesAppend(FieldsOfLine(header + l), Fields(lines[1..]), a);
    assert ([header + l] + lines[1..])[1..] == lines[1..];
  }
}
