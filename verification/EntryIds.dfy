/** The id that `SpireService.create_entry` finds in the command's output with the pattern
    "Entry ID", whitespace, colon, whitespace, then a run of letters, digits and hyphens. The
    three character classes are disjoint, so the greedy match needs no backtracking. */
module EntryIds {
  import opened Entries
  import opened Listing
  import opened Printing
  import opened Records
  import opened Text
  import opened Wrappers

  predicate IdChar(c: char) {
    'a' <= c <= 'z' || 'A' <= c <= 'Z' || '0' <= c <= '9' || c == '-'
  }

  /** A text the pattern's group can capture whole. */
  predicate IsToken(id: string) {
    id != "" && forall i :: 0 <= i < |id| ==> IdChar(id[i])
  }

  /** An id of hexadecimal digits and hyphens, as SPIRE makes them, is such a text. */
  lemma UuidsAreTokens(id: string)
    requires id != "" && forall i :: 0 <= i < |id| ==> id[i] in "0123456789abcdefABCDEF-"
    ensures IsToken(id)
  {
    forall i | 0 <= i < |id|
      ensures IdChar(id[i])
    {
      var c := id[i];
      assert c in "0123456789abcdefABCDEF-";
    }
  }

  function IdRun(s: string): (run: string)
    ensures run <= s && (run != "" ==> IsToken(run))
  {
    if s != "" && IdChar(s[0]) then [s[0]] + IdRun(s[1..]) else ""
  }

  /** A match at the front of `s`. */
  function MatchId(s: string): Option<string> {
    if !(ENTRY_HEADER <= s) then None else
      var t := StripLeft(s[|ENTRY_HEADER|..]);
      if t == "" || t[0] != ':' then None else
        var id := IdRun(StripLeft(t[1..]));
        if id == "" then None else Some(id)
  }

  /** `re.search`: the leftmost match. */
  function SearchId(s: string): Option<string> {
    if s == "" || MatchId(s).Some? then MatchId(s) else SearchId(s[1..])
  }

  /** The id `create_entry` reports: found in the output, or made from the SPIFFE ID's last segment. */
  function ReportedId(stdout: string, spiffeId: string): string {
    match SearchId(stdout)
    case Some(id) => id
    case None =>
      var segments := Split(spiffeId, "/");
      SplitJoins(spiffeId, "/");
      "generated-" + segments[|segments| - 1]
  }

  // ---- What the search finds -------------------------------------------------------------

  /** The text opens with a match of the pattern, ended by the end of the text or another character. */
  ghost predicate OpensWithId(s: string, id: string, a: string, b: string, rest: string) {
    && AllSpace(a) && AllSpace(b) && IsToken(id) && (rest == "" || !IdChar(rest[0]))
    && s == "Entry ID" + (a + (":" + (b + (id + rest))))
  }

  lemma MatchOfOpening(s: string, id: string, a: string, b: string, rest: string)
    requires OpensWithId(s, id, a, b, rest)
    ensures MatchId(s) == Some(id)
  {
    var value := id + rest;
    var t := ":" + (b + value);
    StripLeftSkips(a, t);
    assert IdChar(value[0]);
    StripLeftSkips(b, value);
    IdRunOf(id, rest);
    assert t[1..] == b + value;
    assert s[|ENTRY_HEADER|..] == a + t;
  }

  lemma {:induction false} IdRunEnds(s: string)
    ensures var rest := s[|IdRun(s)|..]; s == IdRun(s) + rest && (rest == "" || !IdChar(rest[0]))
  {
    if s != "" && IdChar(s[0]) {
      IdRunEnds(s[1..]);
      assert s == [s[0]] + s[1..];
    }
  }

  lemma CutSpace(s: string) returns (space: string)
    ensures AllSpace(space) && s == space + StripLeft(s)
  {
    var i := StripLeftCuts(s);
    space := s[..i];
  }

  lemma OpeningOfMatch(s: string) returns (a: string, b: string, rest: string)
    requires MatchId(s).Some?
    ensures OpensWithId(s, MatchId(s).value, a, b, rest)
  {
    var u := s[|ENTRY_HEADER|..];
    var t := StripLeft(u);
    var v := StripLeft(t[1..]);
    a := CutSpace(u);
    b := CutSpace(t[1..]);
    IdRunEnds(v);
    rest := v[|IdRun(v)|..];
    assert s == ENTRY_HEADER + u && t == ":" + t[1..];
  }

  /** A text is matched exactly if it opens like that, and the match is then the whole id. */
  lemma MatchMeans(s: string, id: string)
    ensures MatchId(s) == Some(id) <==> exists a, b, rest :: OpensWithId(s, id, a, b, rest)
  {
    if MatchId(s) == Some(id) {
      var a, b, rest := OpeningOfMatch(s);
    }
    forall a, b, rest | OpensWithId(s, id, a, b, rest)
      ensures MatchId(s) == Some(id)
    {
      MatchOfOpening(s, id, a, b, rest);
    }
  }

  ghost predicate NoMatchBefore(s: string, n: nat)
    requires n <= |s| + 1
  {
    forall k: nat :: k < n ==> MatchId(s[k..]) == None
  }

  lemma Shifted(s: string, n: nat)
    requires s != "" && MatchId(s) == None && n <= |s| && NoMatchBefore(s[1..], n)
    ensures NoMatchBefore(s, n + 1)
  {
    forall k: nat | k < n + 1
      ensures MatchId(s[k..]) == None
    {
      if k == 0 {
        assert s[0..] == s;
      } else {
        assert s[k..] == s[1..][k - 1..];
      }
    }
  }

  lemma {:induction false} SearchPlace(s: string) returns (i: nat)
    ensures i <= |s| && MatchId(s[i..]) == SearchId(s) && NoMatchBefore(s, i)
    ensures SearchId(s) == None ==> i == |s|
  {
    if s == "" || MatchId(s).Some? {
      i := 0;
      assert s[0..] == s;
    } else {
      var j := SearchPlace(s[1..]);
      Shifted(s, j);
      i := j + 1;
      assert s[i..] == s[1..][j..];
    }
  }

  /** The search finds the match at the leftmost place that has one, and nothing if none has. */
  lemma SearchIsLeftmost(s: string)
    ensures match SearchId(s)
            case Some(id) => exists i: nat :: i <= |s| && MatchId(s[i..]) == Some(id) && NoMatchBefore(s, i)
            case None => NoMatchBefore(s, |s| + 1)
  {
    var i := SearchPlace(s);
  }

  lemma {:induction false} FoundIsToken(s: string)
    ensures SearchId(s).Some? ==> IsToken(SearchId(s).value)
  {
    if s != "" && MatchId(s).None? {
      FoundIsToken(s[1..]);
    }
  }

  /** The search starts at the first header. */
  lemma {:induction false} SearchSkips(s: string, i: nat)
    requires i <= |s| && forall k: nat :: k < i ==> !OccursAt(s, ENTRY_HEADER, k)
    ensures SearchId(s) == SearchId(s[i..])
  {
    if i == 0 {
      assert s[0..] == s;
    } else {
      assert !OccursAt(s, ENTRY_HEADER, 0);
      assert s[1..][i - 1..] == s[i..];
      forall k: nat | k < i - 1
        ensures !OccursAt(s[1..], ENTRY_HEADER, k)
      {
        if k + 1 + |ENTRY_HEADER| <= |s| {
          assert s[1..|s|] == s[1..];
          OccursInSlice(s, ENTRY_HEADER, 1, |s|, k);
        }
      }
      SearchSkips(s[1..], i - 1);
    }
  }

  lemma {:induction false} IdRunOf(id: string, rest: string)
    requires (forall i :: 0 <= i < |id| ==> IdChar(id[i])) && (rest == "" || !IdChar(rest[0]))
    ensures IdRun(id + rest) == id
  {
    if id == "" {
      assert id + rest == rest;
    } else {
      assert (id + rest)[1..] == id[1..] + rest;
      IdRunOf(id[1..], rest);
    }
  }

  /** A printed header line is matched at its front, and captures an id that is a token whole. */
  lemma MatchPrinted(id: string, rest: string, lay: Layout)
    requires IsToken(id)
    ensures MatchId(ENTRY_HEADER + (Blanks(lay.pad) + (":" + (Blanks(lay.gap) + (id + ("\n" + rest)))))) == Some(id)
  {
    var s := ENTRY_HEADER + (Blanks(lay.pad) + (":" + (Blanks(lay.gap) + (id + ("\n" + rest)))));
    BlanksAreSpace(lay.pad);
    BlanksAreSpace(lay.gap);
    MatchOfOpening(s, id, Blanks(lay.pad), Blanks(lay.gap), "\n" + rest);
  }

  lemma PrintedShapeOf(e: WorkloadEntry, es: seq<WorkloadEntry>, lay: Layout) returns (rest: string)
    ensures PrintEntries([e] + es, lay)
         == ENTRY_HEADER + (Blanks(lay.pad) + (":" + (Blanks(lay.gap) + (e.id + ("\n" + rest)))))
  {
    var all := [e] + es;
    assert DescribeAll(all) == [Describe(e)] + DescribeAll(all[1..]);
    var below := PrintFields(Describe(e)[1..], lay);
    var others := PrintAll(DescribeAll(all[1..]), lay);
    rest := below + others;
    RecordStartsWithHeader(Describe(e), ENTRY_HEADER, lay);
    var b, g := Blanks(lay.pad), Blanks(lay.gap);
    Assoc(ENTRY_HEADER, Unheaded(Describe(e), lay), others);
    Assoc(b + ":" + (g + e.id) + "\n", below, others);
    Assoc(b + ":" + (g + e.id), "\n", rest);
    Assoc(b + ":", g + e.id, "\n" + rest);
    Assoc(g, e.id, "\n" + rest);
    Assoc(b, ":", g + (e.id + ("\n" + rest)));
  }

  /** In output with a header-free preamble and printed entries, the search finds the first entry's
      id exactly if that id is a token. */
  lemma SearchFindsFirst(pre: string, e: WorkloadEntry, es: seq<WorkloadEntry>, lay: Layout)
    requires Free(pre, ENTRY_HEADER)
    ensures SearchId(pre + PrintEntries([e] + es, lay)) == Some(e.id) <==> IsToken(e.id)
  {
    var text := pre + PrintEntries([e] + es, lay);
    FoundIsToken(text);
    if IsToken(e.id) {
      HeadersAreHeaders();
      var rest := PrintedShapeOf(e, es, lay);
      var tail := Blanks(lay.pad) + (":" + (Blanks(lay.gap) + (e.id + ("\n" + rest))));
      Assoc(pre, ENTRY_HEADER, tail);
      FindAtJoin(pre, ENTRY_HEADER, tail);
      SearchSkips(text, |pre|);
      assert text[|pre|..] == ENTRY_HEADER + tail;
      MatchPrinted(e.id, rest, lay);
    }
  }

  // ---- The reported id -------------------------------------------------------------------

  /** Behind a header-free preamble, the first printed entry's id is reported if it is a token. */
  lemma FoundIdIsReported(pre: string, e: WorkloadEntry, es: seq<WorkloadEntry>, lay: Layout, spiffeId: string)
    requires Free(pre, ENTRY_HEADER) && IsToken(e.id)
    ensures ReportedId(pre + PrintEntries([e] + es, lay), spiffeId) == e.id
  {
    SearchFindsFirst(pre, e, es, lay);
  }

  lemma NothingFound(stdout: string)
    requires Free(stdout, ENTRY_HEADER)
    ensures SearchId(stdout) == None
  {
    SearchSkips(stdout, |stdout|);
    assert stdout[|stdout|..] == "";
  }

  lemma LastSegment(front: string, last: string)
    requires '/' !in last
    ensures Split(last, "/") == [last]
    ensures Split(front + "/" + last, "/") == Split(front, "/") + [last]
  {
    FreeWithout(last, "/", 0);
    FindMisses(last, "/");
    UniqueHeadIsBorderless("/");
    SplitAtSeparator(front, last, "/");
  }

  /** Without a match in the output, the reported id is made from what follows the last slash of the
      SPIFFE ID, or from all of it. Output that never names the header has no match. */
  lemma GeneratedIdIsReported(stdout: string, front: string, last: string)
    requires SearchId(stdout) == None && '/' !in last
    ensures ReportedId(stdout, front + "/" + last) == "generated-" + last
    ensures ReportedId(stdout, last) == "generated-" + last
  {
    LastSegment(front, last);
  }

  /** What follows the last slash of an id, or all of an id without one. */
  predicate IsLastSegment(last: string, id: string) {
    '/' !in last && (last == id || (|last| < |id| && id[|id| - |last| - 1..] == "/" + last))
  }

  lemma LastSlash(id: string) returns (last: string)
    ensures IsLastSegment(last, id)
  {
    last := "";
    while |last| < |id| && id[|id| - |last| - 1] != '/'
      invariant |last| <= |id| && last == id[|id| - |last|..] && '/' !in last
      decreases |id| - |last|
    {
      last := id[|id| - |last| - 1..];
    }
  }

  /** Whatever the SPIFFE ID, a generated id ends in its last segment. */
  lemma ReportedSegment(stdout: string, spiffeId: string)
    ensures match SearchId(stdout)
            case Some(id) => ReportedId(stdout, spiffeId) == id
            case None =>
              var r := ReportedId(stdout, spiffeId);
              |r| >= 10 && r[..10] == "generated-" && IsLastSegment(r[10..], spiffeId)
  {
    var last := LastSlash(spiffeId);
    if SearchId(stdout) == None {
      var r := ReportedId(stdout, spiffeId);
      if last == spiffeId {
        GeneratedIdIsReported(stdout, "", last);
      } else {
        var front := spiffeId[..|spiffeId| - |last| - 1];
        assert spiffeId == front + "/" + last;
        GeneratedIdIsReported(stdout, front, last);
      }
      assert r == "generated-" + last && r[10..] == last;
    }
  }

  /** The two readers of the same output agree: behind a preamble that yields no entry itself, the
      id found by the search is the id of the first parsed entry, exactly if that id is a token. */
  lemma {:induction false} ReadersAgree(pre: string, e: WorkloadEntry, es: seq<WorkloadEntry>, lay: Layout,
                                       trustDomain: string)
    requires Free(pre, ENTRY_HEADER) && !LooksLikeEntry(pre) && CleanEntries([e] + es)
    ensures var stdout := pre + PrintEntries([e] + es, lay);
            && ParseEntries(stdout, trustDomain) != []
            && (SearchId(stdout) == Some(ParseEntries(stdout, trustDomain)[0].id) <==> IsToken(e.id))
  {
    PreambleIsIgnored(pre, [e] + es, lay, trustDomain);
    SearchFindsFirst(pre, e, es, lay);
  }
}
