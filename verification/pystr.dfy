/** Python `str` operations the pipeline relies on, with Python's own semantics:
    `strip()`, `splitlines()`, `split(sep)`, `sep.join(parts)`, `in` on strings,
    `lower()` on the ASCII range and `str(int)`. */
module PyStr {
  import opened Wrappers

  /** The characters for which Python's `str.isspace()` holds; `str.strip()` with no
      argument removes exactly these from both ends. */
  predicate IsSpace(c: char) {
    || ('\t' <= c <= '\r')
    || ('\U{1C}' <= c <= ' ')
    || c == '\U{85}' || c == '\U{A0}' || c == '\U{1680}'
    || ('\U{2000}' <= c <= '\U{200A}')
    || c == '\U{2028}' || c == '\U{2029}' || c == '\U{202F}' || c == '\U{205F}' || c == '\U{3000}'
  }

  /** The line boundaries of Python's `str.splitlines()` (a "\r\n" pair counts as one). */
  predicate IsLineBreak(c: char) {
    || c == '\n' || c == '\r' || c == '\U{0B}' || c == '\U{0C}'
    || c == '\U{1C}' || c == '\U{1D}' || c == '\U{1E}' || c == '\U{85}'
    || c == '\U{2028}' || c == '\U{2029}'
  }

  lemma LineBreakIsSpace(c: char)
    ensures IsLineBreak(c) ==> IsSpace(c)
  {
  }

  predicate NoLineBreak(s: string) {
    forall k :: 0 <= k < |s| ==> !IsLineBreak(s[k])
  }

  predicate AllSpace(s: string) {
    forall k :: 0 <= k < |s| ==> IsSpace(s[k])
  }

  /** A string with no whitespace at either end: what `strip()` leaves. */
  predicate IsStripped(s: string) {
    s == [] || (!IsSpace(s[0]) && !IsSpace(s[|s| - 1]))
  }

  // ---------------------------------------------------------------------------
  // The visible text of a string: its non-whitespace characters, in order.
  // Whitespace normalisation must keep this unchanged.
  // ---------------------------------------------------------------------------

  function NonSpace(s: string): string {
    if s == [] then []
    else (if IsSpace(s[0]) then [] else [s[0]]) + NonSpace(s[1..])
  }

  lemma {:induction false} NonSpaceAppend(a: string, b: string)
    ensures NonSpace(a + b) == NonSpace(a) + NonSpace(b)
    decreases |a|
  {
    if a == [] {
      assert a + b == b;
    } else {
      assert (a + b)[1..] == a[1..] + b;
      NonSpaceAppend(a[1..], b);
    }
  }

  lemma {:induction false} NonSpaceOfAllSpace(s: string)
    requires AllSpace(s)
    ensures NonSpace(s) == []
    decreases |s|
  {
    if s != [] {
      NonSpaceOfAllSpace(s[1..]);
    }
  }

  // ---------------------------------------------------------------------------
  // str.strip()
  // ---------------------------------------------------------------------------

  /** `s.lstrip()`. */
  function StripLeft(s: string): (r: string)
    ensures |r| <= |s|
    decreases |s|
  {
    if |s| > 0 && IsSpace(s[0]) then StripLeft(s[1..]) else s
  }

  /** `s.rstrip()`. */
  function StripRight(s: string): (r: string)
    ensures |r| <= |s|
    decreases |s|
  {
    if |s| > 0 && IsSpace(s[|s| - 1]) then StripRight(s[..|s| - 1]) else s
  }

  /** `lstrip` keeps a suffix of its argument ... */
  lemma {:induction false} StripLeftIsSuffix(s: string)
    ensures StripLeft(s) == s[|s| - |StripLeft(s)|..]
    decreases |s|
  {
    if |s| > 0 && IsSpace(s[0]) {
      StripLeftIsSuffix(s[1..]);
      assert s[1..][|s| - 1 - |StripLeft(s[1..])|..] == s[|s| - |StripLeft(s[1..])|..];
    }
  }

  /** ... drops only whitespace ... */
  lemma {:induction false} StripLeftDropsSpace(s: string)
    ensures forall k :: 0 <= k < |s| - |StripLeft(s)| ==> IsSpace(s[k])
    decreases |s|
  {
    if |s| > 0 && IsSpace(s[0]) {
      StripLeftDropsSpace(s[1..]);
      forall k | 0 < k < |s| - |StripLeft(s)| ensures IsSpace(s[k]) {
        assert s[k] == s[1..][k - 1];
      }
    }
  }

  /** ... leaves no leading whitespace, and keeps the visible text. */
  lemma {:induction false} StripLeftEnds(s: string)
    ensures StripLeft(s) == [] || !IsSpace(StripLeft(s)[0])
    ensures NonSpace(StripLeft(s)) == NonSpace(s)
    decreases |s|
  {
    if |s| > 0 && IsSpace(s[0]) {
      StripLeftEnds(s[1..]);
    }
  }

  /** `rstrip` keeps a prefix of its argument ... */
  lemma {:induction false} StripRightIsPrefix(s: string)
    ensures StripRight(s) == s[..|StripRight(s)|]
    decreases |s|
  {
    if |s| > 0 && IsSpace(s[|s| - 1]) {
      var init := s[..|s| - 1];
      StripRightIsPrefix(init);
      assert init[..|StripRight(init)|] == s[..|StripRight(init)|];
    }
  }

  /** ... drops only whitespace ... */
  lemma {:induction false} StripRightDropsSpace(s: string)
    ensures forall k :: |StripRight(s)| <= k < |s| ==> IsSpace(s[k])
    decreases |s|
  {
    if |s| > 0 && IsSpace(s[|s| - 1]) {
      var init := s[..|s| - 1];
      StripRightDropsSpace(init);
      forall k | |StripRight(s)| <= k < |s| - 1 ensures IsSpace(s[k]) {
        assert s[k] == init[k];
      }
    }
  }

  /** ... leaves no trailing whitespace, and keeps the visible text. */
  lemma {:induction false} StripRightEnds(s: string)
    ensures StripRight(s) == [] || !IsSpace(StripRight(s)[|StripRight(s)| - 1])
    ensures NonSpace(StripRight(s)) == NonSpace(s)
    decreases |s|
  {
    if |s| > 0 && IsSpace(s[|s| - 1]) {
      var init := s[..|s| - 1];
      StripRightEnds(init);
      assert s == init + [s[|s| - 1]];
      NonSpaceAppend(init, [s[|s| - 1]]);
    }
  }

  /** The whitespace before `i` and from `j` on, as two slices. */
  lemma SpaceAround(s: string, i: int, j: int)
    requires 0 <= i <= j <= |s|
    requires forall k :: 0 <= k < i ==> IsSpace(s[k])
    requires forall k :: j <= k < |s| ==> IsSpace(s[k])
    ensures AllSpace(s[..i]) && AllSpace(s[j..])
  {
    assert forall k :: 0 <= k < i ==> s[..i][k] == s[k];
    assert forall k :: 0 <= k < |s| - j ==> s[j..][k] == s[j + k];
  }

  /** Where the stripped text sits in its input. */
  lemma StripBothBounds(s: string)
    ensures var l := StripLeft(s);
            var i := |s| - |l|;
            && i + |StripRight(l)| <= |s|
            && StripRight(l) == s[i..i + |StripRight(l)|]
            && (forall k :: 0 <= k < i ==> IsSpace(s[k]))
            && (forall k :: i + |StripRight(l)| <= k < |s| ==> IsSpace(s[k]))
  {
    var l := StripLeft(s);
    var r := StripRight(l);
    StripLeftIsSuffix(s);
    StripLeftDropsSpace(s);
    StripRightIsPrefix(l);
    StripRightDropsSpace(l);
    var i := |s| - |l|;
    forall k | i + |r| <= k < |s| ensures IsSpace(s[k]) {
      assert s[k] == l[k - i];
    }
    assert r == s[i..i + |r|] by {
      forall k | 0 <= k < |r| ensures r[k] == s[i + k] {
        assert r[k] == l[k];
      }
    }
  }

  /** Stripping both ends keeps a slice of the input with only whitespace around it. */
  lemma StripBothIsSlice(s: string)
    ensures exists i, j :: 0 <= i <= j <= |s| && StripRight(StripLeft(s)) == s[i..j] && AllSpace(s[..i]) && AllSpace(s[j..])
  {
    StripBothBounds(s);
    var i := |s| - |StripLeft(s)|;
    var j := i + |StripRight(StripLeft(s))|;
    SpaceAround(s, i, j);
  }

  /** `s.strip()`. */
  function Strip(s: string): (r: string)
    ensures IsStripped(r)
    ensures NonSpace(r) == NonSpace(s)
    ensures IsStripped(s) ==> r == s
    ensures r == [] <==> AllSpace(s)
    ensures exists i, j :: 0 <= i <= j <= |s| && r == s[i..j] && AllSpace(s[..i]) && AllSpace(s[j..])
  {
    StripLeftIsSuffix(s);
    StripLeftDropsSpace(s);
    StripLeftEnds(s);
    StripRightIsPrefix(StripLeft(s));
    StripRightEnds(StripLeft(s));
    var l := StripLeft(s);
    var r := StripRight(l);
    StripBothIsSlice(s);
    assert r == [] ==> AllSpace(s) by {
      if r == [] {
        assert l == [];
        assert forall k :: 0 <= k < |s| ==> IsSpace(s[k]);
      }
    }
    r
  }

  lemma StripIdempotent(s: string)
    ensures Strip(Strip(s)) == Strip(s)
  {
  }

  // ---------------------------------------------------------------------------
  // Concatenation and sep.join(parts)
  // ---------------------------------------------------------------------------

  /** Python truthiness of an optional string: present and non-empty. */
  predicate Truthy(o: Option<string>) {
    o.Some? && o.value != []
  }

  /** `"".join(parts)`. */
  function Concat(parts: seq<string>): string {
    if parts == [] then [] else parts[0] + Concat(parts[1..])
  }

  lemma {:induction false} ConcatAppend(a: seq<string>, b: seq<string>)
    ensures Concat(a + b) == Concat(a) + Concat(b)
    decreases |a|
  {
    if a == [] {
      assert a + b == b;
    } else {
      assert (a + b)[1..] == a[1..] + b;
      ConcatAppend(a[1..], b);
    }
  }

  /** `sep.join(parts)`: the parts in order with `sep` between neighbours;
      the empty list gives the empty string. */
  function Join(parts: seq<string>, sep: string): string {
    if |parts| == 0 then []
    else if |parts| == 1 then parts[0]
    else parts[0] + sep + Join(parts[1..], sep)
  }

  /** Joining with a separator that is all whitespace changes only whitespace. */
  lemma {:induction false} JoinKeepsText(parts: seq<string>, sep: string)
    requires AllSpace(sep)
    ensures NonSpace(Join(parts, sep)) == NonSpace(Concat(parts))
    decreases |parts|
  {
    if |parts| == 1 {
      assert Concat(parts) == parts[0] + Concat(parts[1..]);
      assert Concat(parts[1..]) == [];
      assert Concat(parts) == parts[0];
    } else if |parts| > 1 {
      JoinKeepsText(parts[1..], sep);
      NonSpaceOfAllSpace(sep);
      NonSpaceAppend(parts[0] + sep, Join(parts[1..], sep));
      NonSpaceAppend(parts[0], sep);
      NonSpaceAppend(parts[0], Concat(parts[1..]));
    }
  }

  // ---------------------------------------------------------------------------
  // Substring search and str.split(sep)
  // ---------------------------------------------------------------------------

  /** `sub` occurs in `s` starting at index `k`. */
  predicate IsAt(s: string, sub: string, k: int) {
    0 <= k && k + |sub| <= |s| && s[k..k + |sub|] == sub
  }

  /** Python's `sub in s`. */
  predicate Contains(s: string, sub: string) {
    exists k :: 0 <= k <= |s| && IsAt(s, sub, k)
  }

  /** A string contains every piece it is assembled from. */
  lemma ContainsMiddle(a: string, b: string, c: string)
    ensures Contains(a + b + c, b)
  {
    assert (a + b + c)[|a|..|a| + |b|] == b;
    assert IsAt(a + b + c, b, |a|);
  }

  /** An occurrence survives adding text on either side. */
  lemma ContainsWithin(a: string, b: string, c: string, sub: string)
    requires Contains(b, sub)
    ensures Contains(a + b + c, sub)
  {
    var k :| 0 <= k <= |b| && IsAt(b, sub, k);
    assert (a + b + c)[|a| + k..|a| + k + |sub|] == b[k..k + |sub|];
    assert IsAt(a + b + c, sub, |a| + k);
  }

  /** The middle of `s` once `pre` and `post` are cut off, if `s` has that frame. */
  function Unframe(s: string, pre: string, post: string): (r: Option<string>)
    ensures r.Some? ==> pre + r.value + post == s
  {
    if |s| >= |pre| + |post| && s[..|pre|] == pre && s[|s| - |post|..] == post then
      var mid := s[|pre|..|s| - |post|];
      assert s == s[..|pre|] + mid + s[|s| - |post|..];
      Some(mid)
    else None
  }

  lemma UnframeFrame(pre: string, mid: string, post: string)
    ensures Unframe(pre + mid + post, pre, post) == Some(mid)
  {
    var s := pre + mid + post;
    assert s[..|pre|] == pre;
    assert s[|s| - |post|..] == post;
    assert s[|pre|..|s| - |post|] == mid;
  }

  /** `s.find(sub, k)`, with `None` for -1. */
  function FindFrom(s: string, sub: string, k: nat): (r: Option<nat>)
    requires |sub| > 0
    ensures r.Some? ==> k <= r.value && IsAt(s, sub, r.value)
    ensures r.Some? ==> forall j :: k <= j < r.value ==> !IsAt(s, sub, j)
    ensures r.None? ==> forall j :: k <= j ==> !IsAt(s, sub, j)
    decreases |s| - k
  {
    if k + |sub| > |s| then None
    else if s[k..k + |sub|] == sub then Some(k)
    else FindFrom(s, sub, k + 1)
  }

  function Find(s: string, sub: string): (r: Option<nat>)
    requires |sub| > 0
    ensures r.None? <==> !Contains(s, sub)
    ensures r.Some? ==> IsAt(s, sub, r.value)
    ensures r.Some? ==> forall j :: 0 <= j < r.value ==> !IsAt(s, sub, j)
  {
    FindFrom(s, sub, 0)
  }

  /** `s.split(sep)` for a non-empty `sep`: the pieces between the leftmost
      non-overlapping occurrences of `sep`; `"".split(sep)` is `[""]`. */
  function Split(s: string, sep: string): (parts: seq<string>)
    requires |sep| > 0
    ensures |parts| >= 1
    decreases |s|
  {
    match Find(s, sep)
    case None => [s]
    case Some(i) => [s[..i]] + Split(s[i + |sep|..], sep)
  }

  /** Joining the pieces of a split with the same separator gives back the string. */
  lemma {:induction false} JoinSplit(s: string, sep: string)
    requires |sep| > 0
    ensures Join(Split(s, sep), sep) == s
    decreases |s|
  {
    match Find(s, sep)
    case None =>
    case Some(i) =>
      var rest := Split(s[i + |sep|..], sep);
      assert Split(s, sep) == [s[..i]] + rest;
      JoinSplit(s[i + |sep|..], sep);
      assert (([s[..i]] + rest)[1..]) == rest;
      assert s[i..i + |sep|] == sep;
      assert s == s[..i] + sep + s[i + |sep|..];
  }

  /** No piece of a split contains the separator. */
  lemma {:induction false} SplitPiecesAreSeparatorFree(s: string, sep: string)
    requires |sep| > 0
    ensures forall k :: 0 <= k < |Split(s, sep)| ==> !Contains(Split(s, sep)[k], sep)
    decreases |s|
  {
    match Find(s, sep)
    case None =>
    case Some(i) =>
      var parts := Split(s, sep);
      var rest := Split(s[i + |sep|..], sep);
      assert parts == [s[..i]] + rest;
      SplitPiecesAreSeparatorFree(s[i + |sep|..], sep);
      forall j | IsAt(s[..i], sep, j) ensures false {
        assert s[..i][j..j + |sep|] == s[j..j + |sep|];
        assert IsAt(s, sep, j);
      }
      forall k | 0 <= k < |parts| ensures !Contains(parts[k], sep) {
        if k > 0 {
          assert parts[k] == rest[k - 1];
        }
      }
  }

  /** A string without the separator splits into itself alone. */
  lemma SplitWithoutSeparator(s: string, sep: string)
    requires |sep| > 0 && !Contains(s, sep)
    ensures Split(s, sep) == [s]
  {
  }

  /** Splitting one string on a single character and joining with it again: for parts
      that do not contain the character, the split recovers the parts. */
  /** In `p + c + rest` with no `c` inside `p`, the first `c` is the one after `p`. */
  lemma FindAfterPrefix(p: string, c: char, rest: string)
    requires !Contains(p, [c])
    ensures Find(p + [c] + rest, [c]) == Some(|p|)
  {
    var s := p + [c] + rest;
    assert s[|p|..|p| + 1] == [c];
    assert IsAt(s, [c], |p|);
    forall j | 0 <= j < |p| ensures !IsAt(s, [c], j) {
      assert s[j..j + 1] == p[j..j + 1];
      assert !IsAt(p, [c], j);
    }
  }

  /** Splitting on a single character the join of parts that do not contain it
      recovers the parts. */
  lemma {:induction false} SplitJoinChar(parts: seq<string>, c: char)
    requires |parts| >= 1
    requires forall k :: 0 <= k < |parts| ==> !Contains(parts[k], [c])
    ensures Split(Join(parts, [c]), [c]) == parts
    decreases |parts|
  {
    if |parts| == 1 {
      SplitWithoutSeparator(parts[0], [c]);
    } else {
      var p := parts[0];
      var rest := Join(parts[1..], [c]);
      var s := p + [c] + rest;
      assert Join(parts, [c]) == s;
      FindAfterPrefix(p, c, rest);
      assert s[..|p|] == p;
      assert s[|p| + 1..] == rest;
      SplitJoinChar(parts[1..], c);
      assert Split(s, [c]) == [p] + parts[1..];
    }
  }

  // ---------------------------------------------------------------------------
  // str.splitlines()
  // ---------------------------------------------------------------------------

  /** The index of the first line boundary in `s`, or `|s|` when there is none. */
  function FirstBreak(s: string): (i: nat)
    ensures i <= |s|
  {
    if s == [] then 0
    else if IsLineBreak(s[0]) then 0
    else 1 + FirstBreak(s[1..])
  }

  lemma {:induction false} FirstBreakIsFirst(s: string)
    ensures forall k :: 0 <= k < FirstBreak(s) ==> !IsLineBreak(s[k])
    decreases |s|
  {
    if s != [] && !IsLineBreak(s[0]) {
      FirstBreakIsFirst(s[1..]);
    }
  }

  lemma {:induction false} FirstBreakIsBreak(s: string)
    ensures FirstBreak(s) < |s| ==> IsLineBreak(s[FirstBreak(s)])
    decreases |s|
  {
    if s != [] && !IsLineBreak(s[0]) {
      FirstBreakIsBreak(s[1..]);
    }
  }

  /** The length of the boundary at `i`: two for a "\r\n" pair, one otherwise. */
  function BreakWidth(s: string, i: nat): nat
    requires i < |s|
  {
    if s[i] == '\r' && i + 1 < |s| && s[i + 1] == '\n' then 2 else 1
  }

  /** `s.splitlines()`: the lines of `s` without their boundaries; a final boundary
      does not open an empty last line, and the empty string has no lines. */
  function SplitLines(s: string): seq<string>
    decreases |s|
  {
    if s == [] then []
    else
      var i := FirstBreak(s);
      if i == |s| then [s]
      else [s[..i]] + SplitLines(s[i + BreakWidth(s, i)..])
  }

  /** No line holds a line boundary. */
  lemma {:induction false} SplitLinesHaveNoBreaks(s: string)
    ensures forall k :: 0 <= k < |SplitLines(s)| ==> NoLineBreak(SplitLines(s)[k])
    decreases |s|
  {
    if s != [] {
      var i := FirstBreak(s);
      FirstBreakIsFirst(s);
      if i < |s| {
        var rest := s[i + BreakWidth(s, i)..];
        SplitLinesHaveNoBreaks(rest);
        assert SplitLines(s) == [s[..i]] + SplitLines(rest);
      }
    }
  }

  /** Whitespace between two strings does not show in their visible text. */
  lemma NonSpaceAcrossSpace(a: string, b: string, c: string)
    requires AllSpace(b)
    ensures NonSpace(a + b + c) == NonSpace(a) + NonSpace(c)
  {
    NonSpaceOfAllSpace(b);
    NonSpaceAppend(a + b, c);
    NonSpaceAppend(a, b);
  }

  lemma ConcatCons(x: string, xs: seq<string>)
    ensures Concat([x] + xs) == x + Concat(xs)
  {
    assert ([x] + xs)[1..] == xs;
  }

  /** A line boundary is whitespace. */
  lemma BoundaryIsSpace(s: string, i: nat)
    requires i < |s| && IsLineBreak(s[i])
    ensures AllSpace(s[i..i + BreakWidth(s, i)])
  {
    var boundary := s[i..i + BreakWidth(s, i)];
    forall k | 0 <= k < |boundary| ensures IsSpace(boundary[k]) {
      LineBreakIsSpace(s[i + k]);
    }
  }

  lemma SplitLinesStep(s: string)
    requires FirstBreak(s) < |s|
    ensures SplitLines(s) == [s[..FirstBreak(s)]] + SplitLines(s[FirstBreak(s) + BreakWidth(s, FirstBreak(s))..])
  {
  }

  /** The visible text of a string around a whitespace boundary is that of the two sides. */
  lemma TextAroundBoundary(s: string, i: nat, j: nat)
    requires i <= j <= |s| && AllSpace(s[i..j])
    ensures NonSpace(s) == NonSpace(s[..i]) + NonSpace(s[j..])
  {
    assert s == s[..i] + s[i..j] + s[j..];
    NonSpaceAcrossSpace(s[..i], s[i..j], s[j..]);
  }

  /** Splitting into lines only drops line boundaries, which are whitespace. */
  lemma {:induction false} SplitLinesKeepsText(s: string)
    ensures NonSpace(Concat(SplitLines(s))) == NonSpace(s)
    decreases |s|
  {
    if s != [] {
      var i := FirstBreak(s);
      if i == |s| {
        assert SplitLines(s) == [s];
        ConcatCons(s, []);
        assert s + [] == s;
      } else {
        var j := i + BreakWidth(s, i);
        var lines := SplitLines(s[j..]);
        SplitLinesStep(s);
        SplitLinesKeepsText(s[j..]);
        ConcatCons(s[..i], lines);
        NonSpaceAppend(s[..i], Concat(lines));
        FirstBreakIsBreak(s);
        BoundaryIsSpace(s, i);
        TextAroundBoundary(s, i, j);
      }
    }
  }

  /** A single line boundary: one line-break character, or the pair "\r\n". */
  predicate IsBoundary(b: string) {
    || (|b| == 1 && IsLineBreak(b[0]))
    || (|b| == 2 && b[0] == '\r' && b[1] == '\n')
  }

  /** The boundary that ended each line of `SplitLines(s)`; the last line has the
      empty one when `s` does not end in a boundary. */
  function LineEnds(s: string): seq<string>
    decreases |s|
  {
    if s == [] then []
    else
      var i := FirstBreak(s);
      if i == |s| then [[]]
      else [s[i..i + BreakWidth(s, i)]] + LineEnds(s[i + BreakWidth(s, i)..])
  }

  /** Each line followed by its boundary, all concatenated. */
  function Rejoin(lines: seq<string>, ends: seq<string>): string
    decreases |lines|
  {
    if lines == [] || ends == [] then [] else lines[0] + ends[0] + Rejoin(lines[1..], ends[1..])
  }

  lemma RejoinCons(line: string, end: string, lines: seq<string>, ends: seq<string>)
    ensures Rejoin([line] + lines, [end] + ends) == line + end + Rejoin(lines, ends)
  {
    assert ([line] + lines)[1..] == lines;
    assert ([end] + ends)[1..] == ends;
  }

  /** A line-break character starts a boundary. */
  lemma BreakIsBoundary(s: string, i: nat)
    requires i < |s| && IsLineBreak(s[i])
    ensures IsBoundary(s[i..i + BreakWidth(s, i)])
  {
    var b := s[i..i + BreakWidth(s, i)];
    assert b[0] == s[i];
    if BreakWidth(s, i) == 2 {
      assert b[1] == s[i + 1];
    }
  }

  /** The first boundary of a string that has one, and what follows it. */
  lemma LineEndsStep(s: string)
    requires FirstBreak(s) < |s|
    ensures var i := FirstBreak(s);
            var j := i + BreakWidth(s, i);
            && LineEnds(s) == [s[i..j]] + LineEnds(s[j..])
            && IsBoundary(s[i..j])
            && s == s[..i] + s[i..j] + s[j..]
  {
    var i := FirstBreak(s);
    FirstBreakIsBreak(s);
    BreakIsBoundary(s, i);
    ThreeParts(s, i, i + BreakWidth(s, i));
  }

  lemma ThreeParts(s: string, i: nat, j: nat)
    requires i <= j <= |s|
    ensures s == s[..i] + s[i..j] + s[j..]
  {
  }

  /** A non-empty string without a boundary is one line that ends at the input's end. */
  lemma LineEndsLast(s: string)
    requires s != [] && FirstBreak(s) == |s|
    ensures SplitLines(s) == [s] && LineEnds(s) == [[]]
  {
  }

  /** `splitlines` removes exactly the line boundaries: putting each line's boundary
      back after it rebuilds the input. */
  lemma {:induction false} SplitLinesRejoin(s: string)
    ensures |LineEnds(s)| == |SplitLines(s)|
    ensures Rejoin(SplitLines(s), LineEnds(s)) == s
    decreases |s|
  {
    if s != [] {
      var i := FirstBreak(s);
      if i == |s| {
        LineEndsLast(s);
        RejoinCons(s, [], [], []);
      } else {
        var j := i + BreakWidth(s, i);
        var rest := s[j..];
        SplitLinesStep(s);
        LineEndsStep(s);
        SplitLinesRejoin(rest);
        RejoinCons(s[..i], s[i..j], SplitLines(rest), LineEnds(rest));
      }
    }
  }

  lemma BoundariesCons(b: string, ends: seq<string>)
    requires IsBoundary(b)
    requires forall k :: 0 <= k < |ends| - 1 ==> IsBoundary(ends[k])
    requires ends != [] ==> IsBoundary(ends[|ends| - 1]) || ends[|ends| - 1] == []
    ensures forall k :: 0 <= k < |[b] + ends| - 1 ==> IsBoundary(([b] + ends)[k])
    ensures IsBoundary(([b] + ends)[|[b] + ends| - 1]) || ([b] + ends)[|[b] + ends| - 1] == []
  {
    forall k | 0 < k < |[b] + ends| ensures ([b] + ends)[k] == ends[k - 1] {
    }
  }

  /** Every line but the last ended in a boundary; the last ended in a boundary or at
      the end of the input. */
  lemma {:induction false} LineEndsAreBoundaries(s: string)
    ensures forall k :: 0 <= k < |LineEnds(s)| - 1 ==> IsBoundary(LineEnds(s)[k])
    ensures LineEnds(s) != [] ==> IsBoundary(LineEnds(s)[|LineEnds(s)| - 1]) || LineEnds(s)[|LineEnds(s)| - 1] == []
    decreases |s|
  {
    if s != [] {
      var i := FirstBreak(s);
      if i == |s| {
        LineEndsLast(s);
      } else {
        var j := i + BreakWidth(s, i);
        var rest := s[j..];
        LineEndsStep(s);
        LineEndsAreBoundaries(rest);
        BoundariesCons(s[i..j], LineEnds(rest));
      }
    }
  }

  /** Lines joined with "\n" split back into the same lines, as long as none of
      them is empty or holds a line boundary. */
  lemma {:induction false} SplitLinesJoin(lines: seq<string>)
    requires forall k :: 0 <= k < |lines| ==> lines[k] != [] && NoLineBreak(lines[k])
    ensures SplitLines(Join(lines, "\n")) == lines
    decreases |lines|
  {
    if |lines| == 1 {
      var s := lines[0];
      FirstBreakIsBreak(s);
      assert FirstBreak(s) == |s|;
    } else if |lines| > 1 {
      var p := lines[0];
      var s := Join(lines, "\n");
      assert s == p + "\n" + Join(lines[1..], "\n");
      assert s[|p|] == '\n';
      var i := FirstBreak(s);
      FirstBreakIsFirst(s);
      FirstBreakIsBreak(s);
      assert i == |p|;
      assert BreakWidth(s, i) == 1;
      assert s[..i] == p;
      assert s[i + 1..] == Join(lines[1..], "\n");
      SplitLinesJoin(lines[1..]);
    }
  }

  // ---------------------------------------------------------------------------
  // lower() and str(int)
  // ---------------------------------------------------------------------------

  /** `c.lower()` on the ASCII range; other characters are kept. */
  function LowerChar(c: char): (d: char)
    ensures ('A' <= c <= 'Z') ==> ('a' <= d <= 'z')
    ensures !('A' <= c <= 'Z') ==> d == c
  {
    if 'A' <= c <= 'Z' then (c as int + 32) as char else c
  }

  function Lower(s: string): (r: string)
    ensures |r| == |s|
    ensures forall k :: 0 <= k < |s| ==> r[k] == LowerChar(s[k])
  {
    seq(|s|, k requires 0 <= k < |s| => LowerChar(s[k]))
  }

  function DigitChar(d: nat): char
    requires d < 10
  {
    ('0' as int + d) as char
  }

  /** `str(n)` for a natural number. */
  function NatToString(n: nat): (r: string)
    ensures |r| >= 1
    ensures forall k :: 0 <= k < |r| ==> '0' <= r[k] <= '9'
  {
    if n < 10 then [DigitChar(n)] else NatToString(n / 10) + [DigitChar(n % 10)]
  }

  /** The number a string of decimal digits denotes, `int(s)` on digit strings. */
  function DigitsValue(s: string): int
    requires forall k :: 0 <= k < |s| ==> '0' <= s[k] <= '9'
  {
    if s == [] then 0 else 10 * DigitsValue(s[..|s| - 1]) + (s[|s| - 1] as int - '0' as int)
  }

  /** `int(str(n)) == n`: the decimal rendering can be read back. */
  lemma {:induction false} NatToStringRoundTrip(n: nat)
    ensures DigitsValue(NatToString(n)) == n
    decreases n
  {
    var r := NatToString(n);
    if n >= 10 {
      NatToStringRoundTrip(n / 10);
      assert r[..|r| - 1] == NatToString(n / 10);
    }
  }

  /** `str(i)` for an integer: a minus sign before the digits of a negative number. */
  function IntToString(i: int): string {
    if i < 0 then "-" + NatToString(-i) else NatToString(i)
  }
}
