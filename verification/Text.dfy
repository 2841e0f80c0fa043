/** The Python string operations the parsers are built from: `str.strip`, `str.lower`,
    `str.splitlines`, substring search and `str.split(sep)`.

    Whitespace and line boundaries are the full sets Python uses. Lower-casing is ASCII only. */
module Text {

  // ---- Concatenation ---------------------------------------------------------------------

  lemma Assoc<T>(a: seq<T>, b: seq<T>, c: seq<T>)
    ensures a + (b + c) == (a + b) + c
  {
  }

  lemma CutAt(s: string, i: nat)
    requires i < |s|
    ensures s == s[..i] + [s[i]] + s[i + 1..]
  {
  }

  // ---- Characters ------------------------------------------------------------------------

  /** The boundaries of `str.splitlines`. */
  predicate IsBreak(c: char) {
    var u := c as int;
    10 <= u <= 13 || 28 <= u <= 30 || u == 0x85 || u == 0x2028 || u == 0x2029
  }

  /** `str.isspace` for one character: what `strip` removes and what `\s` matches. */
  predicate IsSpace(c: char) {
    var u := c as int;
    || 9 <= u <= 13 || 28 <= u <= 32 || u == 0x85 || u == 0xA0 || u == 0x1680
    || 0x2000 <= u <= 0x200A || u == 0x2028 || u == 0x2029 || u == 0x202F || u == 0x205F || u == 0x3000
  }

  function LowerChar(c: char): char {
    if 'A' <= c <= 'Z' then c + ' ' else c
  }

  function Lower(s: string): (r: string)
    ensures |r| == |s|
  {
    seq(|s|, i requires 0 <= i < |s| => LowerChar(s[i]))
  }

  const UPPER := "ABCDEFGHIJKLMNOPQRSTUVWXYZ"
  const LOWER := "abcdefghijklmnopqrstuvwxyz"

  /** The letters are lowered each to its own; everything else, lowered letters included, stays. */
  lemma LowerTable(s: string, t: string)
    ensures Lower(t) == s <==> |s| == |t| && forall i :: 0 <= i < |t| ==>
                s[i] == (if t[i] in UPPER then LOWER[t[i] as int - 65] else t[i])
  {
    forall i | 0 <= i < |t|
      ensures LowerChar(t[i]) == if t[i] in UPPER then LOWER[t[i] as int - 65] else t[i]
    {
      LetterTable(t[i]);
    }
  }

  lemma LetterTable(c: char)
    ensures c in UPPER <==> 65 <= c as int < 91
    ensures c in UPPER ==> LowerChar(c) == LOWER[c as int - 65]
    ensures c !in UPPER ==> LowerChar(c) == c
  {
    assert forall i :: 0 <= i < 26 ==> UPPER[i] as int == 65 + i && LOWER[i] as int == 97 + i;
    if 65 <= c as int < 91 {
      assert UPPER[c as int - 65] == c;
    }
  }

  predicate AllSpace(s: string) {
    forall i :: 0 <= i < |s| ==> IsSpace(s[i])
  }

  predicate SingleLine(s: string) {
    forall i :: 0 <= i < |s| ==> !IsBreak(s[i])
  }

  lemma SingleLineSlice(s: string, i: nat, j: nat)
    requires i <= j <= |s| && SingleLine(s)
    ensures SingleLine(s[i..j])
  {
    forall k | 0 <= k < j - i
      ensures !IsBreak(s[i..j][k])
    {
      assert s[i..j][k] == s[i + k];
    }
  }

  // ---- strip -----------------------------------------------------------------------------

  predicate Trimmed(s: string) {
    s == "" || (!IsSpace(s[0]) && !IsSpace(s[|s| - 1]))
  }

  function StripLeft(s: string): string {
    if s != "" && IsSpace(s[0]) then StripLeft(s[1..]) else s
  }

  function StripRight(s: string): string {
    if s != "" && IsSpace(s[|s| - 1]) then StripRight(s[..|s| - 1]) else s
  }

  function Strip(s: string): string {
    StripRight(StripLeft(s))
  }

  lemma {:induction false} StripLeftSkips(left: string, s: string)
    requires AllSpace(left) && (s == "" || !IsSpace(s[0]))
    ensures StripLeft(left + s) == s
  {
    if left == "" {
      assert left + s == s;
    } else {
      assert (left + s)[1..] == left[1..] + s;
      StripLeftSkips(left[1..], s);
    }
  }

  lemma {:induction false} StripRightSkips(s: string, right: string)
    requires AllSpace(right) && (s == "" || !IsSpace(s[|s| - 1]))
    ensures StripRight(s + right) == s
  {
    if right == "" {
      assert s + right == s;
    } else {
      var n := |right| - 1;
      assert (s + right)[..|s| + n] == s + right[..n];
      StripRightSkips(s, right[..n]);
    }
  }

  /** A trimmed text is what remains when whitespace is added on both sides and stripped again. */
  lemma StripPadded(left: string, s: string, right: string)
    requires AllSpace(left) && AllSpace(right) && Trimmed(s)
    ensures Strip(left + s + right) == s
  {
    if s == "" {
      StripLeftSkips(left + right, "");
      assert left + s + right == left + right + "";
    } else {
      assert left + s + right == left + (s + right);
      StripLeftSkips(left, s + right);
      StripRightSkips(s, right);
    }
  }

  lemma {:induction false} StripLeftCuts(s: string) returns (i: nat)
    ensures i <= |s| && StripLeft(s) == s[i..] && AllSpace(s[..i])
    ensures i < |s| ==> !IsSpace(s[i])
  {
    i := 0;
    if s != "" && IsSpace(s[0]) {
      var j := StripLeftCuts(s[1..]);
      i := j + 1;
      assert s[i..] == s[1..][j..];
      assert s[..i] == [s[0]] + s[1..][..j];
    }
  }

  lemma {:induction false} StripRightCuts(s: string) returns (j: nat)
    ensures j <= |s| && StripRight(s) == s[..j] && AllSpace(s[j..])
    ensures j > 0 ==> !IsSpace(s[j - 1])
  {
    j := |s|;
    if s != "" && IsSpace(s[|s| - 1]) {
      var n := |s| - 1;
      j := StripRightCuts(s[..n]);
      assert s[..j] == s[..n][..j];
      assert s[j..] == s[..n][j..] + [s[n]];
    }
  }

  /** `strip` keeps exactly the slice between two runs of whitespace, and the slice is trimmed. */
  lemma StripSlices(s: string) returns (i: nat, j: nat)
    ensures i <= j <= |s| && Strip(s) == s[i..j]
    ensures AllSpace(s[..i]) && AllSpace(s[j..]) && Trimmed(Strip(s))
  {
    i := StripLeftCuts(s);
    var n := StripRightCuts(s[i..]);
    j := i + n;
    assert s[i..j] == s[i..][..n];
    assert s[j..] == s[i..][n..];
  }

  /** Stripping text behind a trimmed prefix keeps the prefix, and keeps more of the text exactly
      when there is something other than whitespace in it. */
  lemma StripGlued(p: string, k: string)
    requires p != "" && Trimmed(p)
    ensures p <= Strip(p + k)
    ensures Strip(p + k) == p <==> AllSpace(k)
  {
    var j := StripRightCuts(k);
    var x := p + k[..j];
    assert j == 0 ==> k[j..] == k;
    StripPadded("", x, k[j..]);
    assert "" + x + k[j..] == p + k;
  }

  /** `strip` leaves nothing exactly when the text is all whitespace. */
  lemma StripEmpty(s: string)
    ensures Strip(s) == "" <==> AllSpace(s)
  {
    if AllSpace(s) {
      assert s == s + "";
      StripLeftSkips(s, "");
    } else {
      var i, j := StripSlices(s);
      assert s == s[..i] + Strip(s) + s[j..];
    }
  }

  // ---- First position with a property ----------------------------------------------------

  /** The index of the first `c`, or `|s|`. */
  function IndexOf(s: string, c: char): (i: nat)
    ensures i <= |s|
    ensures i < |s| ==> s[i] == c
    ensures forall k :: 0 <= k < i ==> s[k] != c
  {
    if s == "" || s[0] == c then 0 else
      var j := IndexOf(s[1..], c);
      assert s == [s[0]] + s[1..];
      j + 1
  }

  lemma {:induction false} IndexOfAfter(p: string, s: string, c: char)
    requires c !in p
    ensures IndexOf(p + s, c) == |p| + IndexOf(s, c)
  {
    if p == "" {
      assert p + s == s;
    } else {
      assert (p + s)[1..] == p[1..] + s;
      IndexOfAfter(p[1..], s, c);
    }
  }

  // ---- splitlines ------------------------------------------------------------------------

  /** The length of the line boundary at the front: "\r\n" is one boundary. */
  function BreakLength(s: string): (n: nat)
    requires s != ""
    ensures 1 <= n <= |s|
  {
    if |s| > 1 && s[0] == '\r' && s[1] == '\n' then 2 else 1
  }

  /** `s.splitlines()`: a boundary at the very end opens no further line. */
  function SplitLines(s: string): (lines: seq<string>)
    ensures s != "" ==> lines != []
    decreases |s|
  {
    if s == "" then []
    else if IsBreak(s[0]) then [""] + SplitLines(s[BreakLength(s)..])
    else
      var lines := SplitLines(s[1..]);
      if lines == [] then [[s[0]]] else [[s[0]] + lines[0]] + lines[1..]
  }

  lemma {:induction false} LinesAreSingle(s: string)
    ensures forall l :: l in SplitLines(s) ==> SingleLine(l)
    decreases |s|
  {
    if s != "" {
      if IsBreak(s[0]) {
        LinesAreSingle(s[BreakLength(s)..]);
      } else {
        var lines := SplitLines(s[1..]);
        LinesAreSingle(s[1..]);
        assert lines != [] ==> SingleLine(lines[0]) && forall l :: l in lines[1..] ==> l in lines;
      }
    }
  }

  lemma SplitLinesChar(c: char, t: string)
    requires !IsBreak(c) && t != ""
    ensures SplitLines([c] + t) == [[c] + SplitLines(t)[0]] + SplitLines(t)[1..]
  {
    assert ([c] + t)[1..] == t;
  }

  /** The first line is a prefix of the text. */
  lemma {:induction false} FirstLineIsPrefix(s: string) returns (n: nat)
    requires s != ""
    ensures n <= |s| && SplitLines(s)[0] == s[..n]
  {
    if IsBreak(s[0]) {
      n := 0;
    } else if |s| == 1 {
      n := 1;
    } else {
      var t := s[1..];
      var m := FirstLineIsPrefix(t);
      assert s == [s[0]] + t;
      SplitLinesChar(s[0], t);
      n := m + 1;
    }
  }

  lemma SliceOfRest(s: string, n: nat, i: nat, j: nat)
    requires n <= |s| && i <= j <= |s| - n
    ensures s[n..][i..j] == s[n + i..n + j]
  {
  }

  /** Every line is a slice of the text. */
  lemma {:induction false} LineIsSlice(s: string, l: string) returns (i: nat, j: nat)
    requires l in SplitLines(s)
    ensures i <= j <= |s| && l == s[i..j]
    decreases |s|
  {
    if l == "" {
      i, j := 0, 0;
    } else if l == SplitLines(s)[0] {
      j := FirstLineIsPrefix(s);
      i := 0;
    } else {
      var n := if IsBreak(s[0]) then BreakLength(s) else 1;
      i, j := LineIsSlice(s[n..], l);
      SliceOfRest(s, n, i, j);
      i, j := n + i, n + j;
    }
  }

  lemma SplitLinesBreak(a: string, b: string)
    requires a != "" && IsBreak(a[0]) && a[|a| - 1] == '\n'
    ensures SplitLines(a + b) == [""] + SplitLines(a[BreakLength(a)..] + b)
  {
    var n := BreakLength(a);
    assert BreakLength(a + b) == n;
    assert (a + b)[n..] == a[n..] + b;
  }

  /** Text that ends in "\n" splits independently of what follows it. */
  lemma {:induction false} SplitLinesAppend(a: string, b: string)
    requires a == "" || a[|a| - 1] == '\n'
    ensures SplitLines(a + b) == SplitLines(a) + SplitLines(b)
    decreases |a|
  {
    if a == "" {
      assert a + b == b;
    } else if IsBreak(a[0]) {
      var rest := a[BreakLength(a)..];
      SplitLinesAppend(rest, b);
      SplitLinesBreak(a, b);
      Assoc([""], SplitLines(rest), SplitLines(b));
    } else {
      var t := a[1..];
      SplitLinesAppend(t, b);
      assert a == [a[0]] + t && a + b == [a[0]] + (t + b);
      SplitLinesChar(a[0], t);
      SplitLinesChar(a[0], t + b);
    }
  }

  /** A line prefix is glued onto the first line and changes no other. */
  lemma {:induction false} SplitLinesGlue(p: string, s: string)
    requires SingleLine(p) && s != ""
    ensures SplitLines(p + s) == [p + SplitLines(s)[0]] + SplitLines(s)[1..]
  {
    var first, others := SplitLines(s)[0], SplitLines(s)[1..];
    if p == "" {
      assert p + s == s && p + first == first;
      assert SplitLines(s) == [first] + others;
    } else {
      var t := p[1..];
      SplitLinesGlue(t, s);
      SplitLinesChar(p[0], t + s);
      assert p == [p[0]] + t;
      Assoc([p[0]], t, s);
      Assoc([p[0]], t, first);
    }
  }

  /** A whole line boundary: any boundary character, or "\r\n", which counts as one. */
  predicate Boundary(brk: string, b: string) {
    || brk == "\r\n"
    || (|brk| == 1 && IsBreak(brk[0]) && !(brk[0] == '\r' && b != "" && b[0] == '\n'))
  }

  /** One line and a boundary in front of any text are the first line of the result. */
  lemma SplitLinesAt(l: string, brk: string, b: string)
    requires SingleLine(l) && Boundary(brk, b)
    ensures SplitLines(l + (brk + b)) == [l] + SplitLines(b)
  {
    var tail := brk + b;
    assert BreakLength(tail) == |brk|;
    assert tail[|brk|..] == b && IsBreak(tail[0]);
    assert SplitLines(tail) == [""] + SplitLines(b);
    assert l + "" == l;
    SplitLinesGlue(l, tail);
  }

  /** A text without a boundary is one line, unless it is empty. */
  lemma {:induction false} SplitLinesOne(l: string)
    requires SingleLine(l)
    ensures SplitLines(l) == if l == "" then [] else [l]
  {
    if l != "" {
      var rest := l[1..];
      assert !IsBreak(l[0]) && rest == l[1..|l|] && l == [l[0]] + rest;
      SingleLineSlice(l, 1, |l|);
      SplitLinesOne(rest);
      if rest != "" {
        SplitLinesChar(l[0], rest);
        assert SplitLines(l) == [l] + [];
      } else {
        assert l == [l[0]];
      }
    }
  }

  lemma SplitLinesCons(l: string, b: string)
    requires SingleLine(l)
    ensures SplitLines(l + "\n" + b) == [l] + SplitLines(b)
  {
    SplitLinesAt(l, "\n", b);
    Assoc(l, "\n", b);
  }

  // ---- Substring search ------------------------------------------------------------------

  predicate OccursAt(s: string, sep: string, i: nat) {
    i + |sep| <= |s| && s[i..i + |sep|] == sep
  }

  /** No occurrence of `sep` anywhere in `s`. */
  predicate Free(s: string, sep: string) {
    forall i: nat :: i <= |s| ==> !OccursAt(s, sep, i)
  }

  /** No proper prefix of `sep` is also a suffix, so two occurrences never overlap. */
  predicate Borderless(sep: string) {
    sep != "" && forall p :: 0 < p < |sep| ==> sep[p..] != sep[..|sep| - p]
  }

  /** An occurrence inside a slice is an occurrence in the whole. */
  lemma OccursInSlice(s: string, sep: string, i: nat, j: nat, k: nat)
    requires i + k + |sep| <= j <= |s|
    ensures OccursAt(s[i..j], sep, k) == OccursAt(s, sep, i + k)
  {
    var t := s[i..j];
    var n := k + |sep|;
    assert forall x :: k <= x < n ==> t[k..n][x - k] == t[x] == s[i + x];
    assert t[k..n] == s[i + k..i + n];
  }

  /** The leftmost occurrence of `sep`, or `|s|`. */
  function Find(s: string, sep: string): (i: nat)
    requires sep != ""
    ensures i <= |s|
    ensures i < |s| ==> OccursAt(s, sep, i)
    ensures forall k: nat :: k < i ==> !OccursAt(s, sep, k)
  {
    if s == "" || OccursAt(s, sep, 0) then 0 else
      assert forall k: nat :: 0 < k && k + |sep| <= |s| ==> OccursAt(s, sep, k) == OccursAt(s[1..], sep, k - 1) by {
        forall k: nat | 0 < k && k + |sep| <= |s|
          ensures OccursAt(s, sep, k) == OccursAt(s[1..], sep, k - 1)
        {
          assert s[1..|s|] == s[1..];
          OccursInSlice(s, sep, 1, |s|, k - 1);
        }
      }
      1 + Find(s[1..], sep)
  }

  lemma FindMisses(s: string, sep: string)
    requires sep != ""
    ensures Find(s, sep) == |s| <==> Free(s, sep)
  {
    if Find(s, sep) < |s| {
      assert OccursAt(s, sep, Find(s, sep));
    }
  }

  lemma FreeSlice(s: string, sep: string, i: nat, j: nat)
    requires i <= j <= |s| && Free(s, sep)
    ensures Free(s[i..j], sep)
  {
    forall k: nat | k + |sep| <= j - i
      ensures !OccursAt(s[i..j], sep, k)
    {
      OccursInSlice(s, sep, i, j, k);
    }
  }

  /** A character that `sep` does not contain keeps occurrences on one side of it. */
  lemma FreeAcross(a: string, c: char, b: string, sep: string)
    requires Free(a, sep) && Free(b, sep) && c !in sep
    ensures Free(a + [c] + b, sep)
  {
    var t := a + [c] + b;
    assert a == t[..|a|] && b == t[|a| + 1..|t|];
    assert !OccursAt(a, sep, 0) && sep != "" by {
      assert a[0..0] == "";
    }
    forall k: nat | k + |sep| <= |t|
      ensures !OccursAt(t, sep, k)
    {
      if k + |sep| <= |a| {
        OccursInSlice(t, sep, 0, |a|, k);
      } else if k > |a| {
        OccursInSlice(t, sep, |a| + 1, |t|, k - |a| - 1);
      } else {
        assert t[k..k + |sep|][|a| - k] == c;
      }
    }
  }

  /** Text without one of `sep`'s characters has no occurrence of `sep`. */
  lemma FreeWithout(s: string, sep: string, i: nat)
    requires i < |sep| && sep[i] !in s
    ensures Free(s, sep)
  {
    forall k: nat | k + |sep| <= |s|
      ensures !OccursAt(s, sep, k)
    {
      assert s[k..k + |sep|][i] == s[k + i];
    }
  }

  /** In front of `sep` there is no earlier occurrence: none can straddle the join. */
  lemma FindAtJoin(a: string, sep: string, b: string)
    requires Borderless(sep) && Free(a, sep)
    ensures Find(a + sep + b, sep) == |a|
  {
    var t := a + sep + b;
    assert t[|a|..|a| + |sep|] == sep;
    assert OccursAt(t, sep, |a|);
    assert a == t[..|a|];
    forall k: nat | k < |a|
      ensures !OccursAt(t, sep, k)
    {
      if k + |sep| <= |a| {
        OccursInSlice(t, sep, 0, |a|, k);
      } else {
        var p := |a| - k;
        assert t[k..k + |sep|][p..] == sep[..|sep| - p];
        assert sep[p..] != sep[..|sep| - p];
      }
    }
  }

  /** A separator whose first character does not recur is borderless. */
  lemma UniqueHeadIsBorderless(sep: string)
    requires sep != "" && sep[0] !in sep[1..]
    ensures Borderless(sep)
  {
    forall p | 0 < p < |sep|
      ensures sep[p..] != sep[..|sep| - p]
    {
      assert sep[p..][0] == sep[1..][p - 1];
      assert sep[..|sep| - p][0] == sep[0];
    }
  }

  // ---- split -----------------------------------------------------------------------------

  /** `s.split(sep)`: cut at the leftmost occurrence, then again in the rest. */
  function Split(s: string, sep: string): seq<string>
    requires sep != ""
    decreases |s|
  {
    var i := Find(s, sep);
    if i == |s| then [s] else [s[..i]] + Split(s[i + |sep|..], sep)
  }

  function Join(chunks: seq<string>, sep: string): string
    requires chunks != []
  {
    if |chunks| == 1 then chunks[0] else chunks[0] + sep + Join(chunks[1..], sep)
  }

  predicate AllFree(chunks: seq<string>, sep: string) {
    forall c :: c in chunks ==> Free(c, sep)
  }

  lemma {:induction false} SplitJoins(s: string, sep: string)
    requires sep != ""
    ensures Split(s, sep) != [] && Join(Split(s, sep), sep) == s && AllFree(Split(s, sep), sep)
    decreases |s|
  {
    var i := Find(s, sep);
    if i < |s| {
      var rest := s[i + |sep|..];
      SplitJoins(rest, sep);
      assert Split(s, sep)[1..] == Split(rest, sep);
      assert s == s[..i] + sep + rest;
      forall k: nat | k + |sep| <= i
        ensures !OccursAt(s[..i], sep, k)
      {
        OccursInSlice(s, sep, 0, i, k);
      }
    } else {
      FindMisses(s, sep);
    }
  }

  lemma {:induction false} SplitOfJoin(chunks: seq<string>, sep: string)
    requires chunks != [] && Borderless(sep) && AllFree(chunks, sep)
    ensures Split(Join(chunks, sep), sep) == chunks
    decreases |chunks|
  {
    if |chunks| > 1 {
      var rest := Join(chunks[1..], sep);
      var s := chunks[0] + sep + rest;
      FindAtJoin(chunks[0], sep, rest);
      assert s[..|chunks[0]|] == chunks[0];
      assert s[|chunks[0]| + |sep|..] == rest;
      SplitOfJoin(chunks[1..], sep);
    } else {
      FindMisses(chunks[0], sep);
    }
  }

  /** For a borderless separator, `split` is the only way to cut a text into separator-free
      pieces that the separator joins back together. */
  lemma SplitIsUnique(s: string, sep: string, chunks: seq<string>)
    requires Borderless(sep)
    ensures Split(s, sep) == chunks <==> chunks != [] && Join(chunks, sep) == s && AllFree(chunks, sep)
  {
    SplitJoins(s, sep);
    if chunks != [] && Join(chunks, sep) == s && AllFree(chunks, sep) {
      SplitOfJoin(chunks, sep);
    }
  }

  lemma {:induction false} JoinAppend(xs: seq<string>, ys: seq<string>, sep: string)
    requires xs != [] && ys != []
    ensures Join(xs + ys, sep) == Join(xs, sep) + sep + Join(ys, sep)
  {
    if |xs| == 1 {
      assert (xs + ys)[1..] == ys;
    } else {
      assert (xs + ys)[1..] == xs[1..] + ys;
      JoinAppend(xs[1..], ys, sep);
    }
  }

  /** Splitting distributes over a separator, whatever stands on either side. */
  lemma SplitAtSeparator(a: string, b: string, sep: string)
    requires Borderless(sep)
    ensures Split(a + sep + b, sep) == Split(a, sep) + Split(b, sep)
  {
    SplitJoins(a, sep);
    SplitJoins(b, sep);
    JoinAppend(Split(a, sep), Split(b, sep), sep);
    SplitIsUnique(a + sep + b, sep, Split(a, sep) + Split(b, sep));
  }

  // ---- A block of lines inside one chunk -------------------------------------------------

  predicate WholeLines(w: string) {
    w == "" || w[|w| - 1] == '\n'
  }

  lemma {:induction false} JoinAround(xs: seq<string>, p: string, w: string, q: string, ys: seq<string>, sep: string)
    ensures Join(xs + [p + w + q] + ys, sep) == Join(xs + [p], sep) + w + Join([q] + ys, sep)
  {
    if xs == [] {
      assert xs + [p + w + q] + ys == [p + w + q] + ys && xs + [p] == [p];
      assert ([p + w + q] + ys)[1..] == ([q] + ys)[1..] == ys;
      if ys == [] {
        assert [q] + ys == [q] && [p + w + q] + ys == [p + w + q];
      } else {
        assert p + w + q + sep + Join(ys, sep) == p + w + (q + sep + Join(ys, sep));
      }
    } else {
      JoinAround(xs[1..], p, w, q, ys, sep);
      assert (xs + [p + w + q] + ys)[1..] == xs[1..] + [p + w + q] + ys;
      assert (xs + [p])[1..] == xs[1..] + [p];
      var j, k := Join(xs[1..] + [p], sep), Join([q] + ys, sep);
      assert xs[0] + sep + (j + w + k) == (xs[0] + sep + j) + w + k;
    }
  }

  lemma LastChunkEnds(chunks: seq<string>, sep: string, c: char)
    requires chunks != [] && sep != "" && c !in sep
    requires var s := Join(chunks, sep); s != "" && s[|s| - 1] == c
    ensures var last := chunks[|chunks| - 1]; last != "" && last[|last| - 1] == c
  {
    var n := |chunks| - 1;
    if n > 0 {
      assert chunks == chunks[..n] + [chunks[n]];
      JoinAppend(chunks[..n], [chunks[n]], sep);
      var front := Join(chunks[..n], sep) + sep;
      assert Join(chunks, sep) == front + chunks[n];
      assert front[|front| - 1] == sep[|sep| - 1] && sep[|sep| - 1] in sep;
    }
  }

  lemma FreeBlock(p: string, w: string, q: string, sep: string)
    requires p != "" && WholeLines(p) && WholeLines(w) && '\n' !in sep
    requires Free(p, sep) && Free(w, sep) && Free(q, sep)
    ensures Free(p + w + q, sep)
  {
    var p' := p[..|p| - 1];
    FreeSlice(p, sep, 0, |p'|);
    if w == "" {
      FreeAcross(p', '\n', q, sep);
      assert p + w + q == p' + ['\n'] + q;
    } else {
      var w' := w[..|w| - 1];
      FreeSlice(w, sep, 0, |w'|);
      FreeAcross(w', '\n', q, sep);
      FreeAcross(p', '\n', w' + ['\n'] + q, sep);
      assert p + w + q == p' + ['\n'] + (w' + ['\n'] + q);
    }
  }

  /** Separator-free lines put in after a line break stay inside the chunk they are put in. */
  lemma SplitAroundBlock(xs: seq<string>, p: string, w: string, q: string, ys: seq<string>, sep: string)
    requires Borderless(sep) && '\n' !in sep
    requires p != "" && WholeLines(p) && WholeLines(w) && Free(w, sep)
    requires AllFree(xs + [p], sep) && AllFree([q] + ys, sep)
    ensures Split(Join(xs + [p], sep) + w + Join([q] + ys, sep), sep) == xs + [p + w + q] + ys
  {
    JoinAround(xs, p, w, q, ys, sep);
    assert p in xs + [p] && q in [q] + ys;
    FreeBlock(p, w, q, sep);
    var chunks := xs + [p + w + q] + ys;
    forall c | c in chunks
      ensures Free(c, sep)
    {
      assert c in xs + [p] || c == p + w + q || c in [q] + ys;
    }
    SplitOfJoin(chunks, sep);
  }
}
