/** The step segmenter run when the model's answer has finished streaming
    (`onFinish` in src/app/page.jsx): split the whole answer on the delimiter
    `/Step \d+:/`, drop the empty pieces, and clean each remaining piece of
    LaTeX-like artifacts and blank lines. */
module Segmenter {
  import opened Text

  // ---------------------------------------------------------------------------
  // The delimiter

  predicate IsDigit(c: char) {
    '0' <= c <= '9'
  }

  const StepWord: string := "Step "

  /** The shape of a whole delimiter: the word "Step", exactly one space, one
      or more ASCII digits, and a colon. */
  predicate IsMarker(m: string) {
    |m| >= 7 && m[..5] == StepWord && m[|m| - 1] == ':'
    && forall k :: 5 <= k < |m| - 1 ==> IsDigit(m[k])
  }

  /** No block of `t` has the shape of a delimiter. */
  ghost predicate NoMarkerIn(t: string) {
    forall i, j :: 0 <= i <= j <= |t| ==> !IsMarker(t[i..j])
  }

  /** The number of consecutive ASCII digits in `s` from position `i` on. */
  function DigitRun(s: string, i: nat): (n: nat)
    requires i <= |s|
    ensures i + n <= |s|
    ensures forall k :: i <= k < i + n ==> IsDigit(s[k])
    ensures i + n == |s| || !IsDigit(s[i + n])
    decreases |s| - i
  {
    if i < |s| && IsDigit(s[i]) then 1 + DigitRun(s, i + 1) else 0
  }

  /** The length of the match of `/Step \d+:/` that starts at position `i` of
      `s`, or 0 when none starts there. `\d+` is greedy and backtracks, but a
      shorter run of digits is followed by a digit, never by the colon, so a
      match exists exactly when the longest run is non-empty and followed by
      a colon. */
  function MarkerAt(s: string, i: nat): (n: nat)
    requires i <= |s|
    ensures i + n <= |s|
  {
    if i + 5 <= |s| && s[i..i + 5] == StepWord then
      var d := DigitRun(s, i + 5);
      if d > 0 && i + 5 + d < |s| && s[i + 5 + d] == ':' then 6 + d else 0
    else 0
  }

  /** What MarkerAt finds has the delimiter's shape ... */
  lemma MarkerAtSound(s: string, i: nat)
    requires i <= |s| && MarkerAt(s, i) > 0
    ensures IsMarker(s[i..i + MarkerAt(s, i)])
  {
    var m := s[i..i + MarkerAt(s, i)];
    assert m[..5] == s[i..i + 5];
    forall k | 5 <= k < |m| - 1 ensures IsDigit(m[k]) {
      assert m[k] == s[i + k];
    }
  }

  lemma {:induction false} DigitRunExact(s: string, a: nat, b: nat)
    requires a <= b < |s|
    requires forall k :: a <= k < b ==> IsDigit(s[k])
    requires !IsDigit(s[b])
    ensures DigitRun(s, a) == b - a
    decreases b - a
  {
    if a < b {
      DigitRunExact(s, a + 1, b);
    }
  }

  /** ... and every block of that shape is found by MarkerAt, whole. */
  lemma MarkerAtComplete(s: string, i: nat, j: nat)
    requires i <= j <= |s| && IsMarker(s[i..j])
    ensures MarkerAt(s, i) == j - i
  {
    var m := s[i..j];
    assert s[i..i + 5] == m[..5];
    forall k | i + 5 <= k < j - 1 ensures IsDigit(s[k]) {
      assert s[k] == m[k - i];
    }
    assert s[j - 1] == m[|m| - 1];
    DigitRunExact(s, i + 5, j - 1);
  }

  // ---------------------------------------------------------------------------
  // split(/Step \d+:/)

  /** The pieces between delimiters, and the delimiters themselves. */
  datatype Split = Split(pieces: seq<string>, markers: seq<string>)

  /** `String.prototype.split` with the delimiter regular expression, while
      scanning `s` from `q`: no delimiter starts before `q` in `s`, and the
      current piece started at position 0. The scan looks for the leftmost
      match; after a match the next piece starts where the match ends. */
  function SplitFrom(s: string, q: nat): (r: Split)
    requires q <= |s|
    ensures |r.pieces| == |r.markers| + 1
    decreases |s| - q
  {
    if q == |s| then Split([s], [])
    else
      var n := MarkerAt(s, q);
      if n > 0 then
        var rest := SplitFrom(s[q + n..], 0);
        Split([s[..q]] + rest.pieces, [s[q..q + n]] + rest.markers)
      else SplitFrom(s, q + 1)
  }

  function SplitOnMarkers(s: string): (r: Split)
    ensures |r.pieces| == |r.markers| + 1
  {
    SplitFrom(s, 0)
  }

  /** The pieces with the delimiters put back between them. */
  function Interleave(ps: seq<string>, ms: seq<string>): string
    requires |ps| == |ms| + 1
  {
    if ms == [] then ps[0] else ps[0] + ms[0] + Interleave(ps[1..], ms[1..])
  }

  /** Putting back a first piece and a first delimiter. */
  lemma InterleaveCons(p: string, ps: seq<string>, m: string, ms: seq<string>)
    requires |ps| == |ms| + 1
    ensures Interleave([p] + ps, [m] + ms) == p + m + Interleave(ps, ms)
  {
    assert ([p] + ps)[1..] == ps && ([m] + ms)[1..] == ms;
  }

  /** `ps` and `ms` cut `s` into pieces that hold no delimiter, separated by
      delimiters. */
  ghost predicate Decomposes(s: string, ps: seq<string>, ms: seq<string>) {
    |ps| == |ms| + 1
    && Interleave(ps, ms) == s
    && (forall k :: 0 <= k < |ms| ==> IsMarker(ms[k]))
    && (forall k :: 0 <= k < |ps| ==> NoMarkerIn(ps[k]))
  }

  /** A prefix of `s` before which no match starts holds no delimiter. */
  lemma PrefixHasNoMarker(s: string, q: nat)
    requires q <= |s|
    requires forall k :: 0 <= k < q ==> MarkerAt(s, k) == 0
    ensures NoMarkerIn(s[..q])
  {
    var t := s[..q];
    forall i, j | 0 <= i <= j <= |t| ensures !IsMarker(t[i..j]) {
      if IsMarker(t[i..j]) {
        assert t[i..j] == s[i..j];
        MarkerAtComplete(s, i, j);
        assert false;
      }
    }
  }

  /** A piece and a delimiter put back before the interleaving of the rest of
      the string give the whole string. */
  lemma InterleaveAfterMatch(s: string, q: nat, n: nat, rest: Split)
    requires q + n <= |s| && |rest.pieces| == |rest.markers| + 1
    requires Interleave(rest.pieces, rest.markers) == s[q + n..]
    ensures Interleave([s[..q]] + rest.pieces, [s[q..q + n]] + rest.markers) == s
  {
    InterleaveCons(s[..q], rest.pieces, s[q..q + n], rest.markers);
    assert s == s[..q] + s[q..q + n] + s[q + n..];
  }

  lemma {:induction false} SplitFromInterleaves(s: string, q: nat)
    requires q <= |s|
    ensures Interleave(SplitFrom(s, q).pieces, SplitFrom(s, q).markers) == s
    decreases |s| - q
  {
    var r := SplitFrom(s, q);
    if q == |s| {
      assert r == Split([s], []);
    } else {
      var n := MarkerAt(s, q);
      if n > 0 {
        var rest := SplitFrom(s[q + n..], 0);
        assert r == Split([s[..q]] + rest.pieces, [s[q..q + n]] + rest.markers);
        SplitFromInterleaves(s[q + n..], 0);
        InterleaveAfterMatch(s, q, n, rest);
      } else {
        assert r == SplitFrom(s, q + 1);
        SplitFromInterleaves(s, q + 1);
      }
    }
  }

  lemma {:induction false} SplitFromMarkers(s: string, q: nat)
    requires q <= |s|
    ensures forall k :: 0 <= k < |SplitFrom(s, q).markers| ==> IsMarker(SplitFrom(s, q).markers[k])
    decreases |s| - q
  {
    if q < |s| {
      var n := MarkerAt(s, q);
      if n > 0 {
        SplitFromMarkers(s[q + n..], 0);
        MarkerAtSound(s, q);
      } else {
        SplitFromMarkers(s, q + 1);
      }
    }
  }

  lemma {:induction false} SplitFromPieces(s: string, q: nat)
    requires q <= |s|
    requires forall k :: 0 <= k < q ==> MarkerAt(s, k) == 0
    ensures forall k :: 0 <= k < |SplitFrom(s, q).pieces| ==> NoMarkerIn(SplitFrom(s, q).pieces[k])
    decreases |s| - q
  {
    if q == |s| {
      PrefixHasNoMarker(s, q);
      assert s[..q] == s;
    } else {
      var n := MarkerAt(s, q);
      if n > 0 {
        SplitFromPieces(s[q + n..], 0);
        PrefixHasNoMarker(s, q);
      } else {
        SplitFromPieces(s, q + 1);
      }
    }
  }

  /** The split cuts the answer into delimiter-free pieces and delimiters, in
      source order, and putting them back together gives the answer. */
  lemma SplitDecomposes(s: string)
    ensures Decomposes(s, SplitOnMarkers(s).pieces, SplitOnMarkers(s).markers)
  {
    SplitFromInterleaves(s, 0);
    SplitFromMarkers(s, 0);
    SplitFromPieces(s, 0);
  }

  lemma {:induction false} SplitFromSkip(s: string, q: nat, j: nat)
    requires q <= j <= |s|
    requires forall k :: q <= k < j ==> MarkerAt(s, k) == 0
    ensures SplitFrom(s, q) == SplitFrom(s, j)
    decreases j - q
  {
    if q < j {
      assert MarkerAt(s, q) == 0;
      assert SplitFrom(s, q) == SplitFrom(s, q + 1);
      SplitFromSkip(s, q + 1, j);
    }
  }

  /** A block with an 'S' after its first character is not a delimiter. */
  lemma NotMarkerWithInnerS(w: string, k: nat)
    requires 1 <= k < |w| && w[k] == 'S'
    ensures !IsMarker(w)
  {
    if |w| >= 7 && k < 5 {
      assert w[..5][k] == 'S' != StepWord[k];
    }
  }

  /** No match starts at `k` when no block starting there is a delimiter. */
  lemma NoMatchAt(s: string, k: nat)
    requires k <= |s|
    requires forall j :: k <= j <= |s| ==> !IsMarker(s[k..j])
    ensures MarkerAt(s, k) == 0
  {
    if MarkerAt(s, k) > 0 {
      MarkerAtSound(s, k);
    }
  }

  /** A match cannot start inside a delimiter-free block that is followed by a
      delimiter: it would lie inside the block, or reach the delimiter's 'S'. */
  lemma NoMatchBefore(pre: string, m: string, rest: string, k: nat)
    requires NoMarkerIn(pre) && IsMarker(m) && k < |pre|
    ensures MarkerAt(pre + m + rest, k) == 0
  {
    var s := pre + m + rest;
    forall j | k <= j <= |s| ensures !IsMarker(s[k..j]) {
      if j <= |pre| {
        assert s[k..j] == pre[k..j];
      } else {
        assert s[k..j][|pre| - k] == m[0];
        NotMarkerWithInnerS(s[k..j], |pre| - k);
      }
    }
    NoMatchAt(s, k);
  }

  /** Splitting a delimiter-free block, a delimiter and the rest gives the block,
      then the delimiter, then the split of the rest. */
  lemma SplitFirst(pre: string, m: string, rest: string)
    requires NoMarkerIn(pre) && IsMarker(m)
    ensures SplitOnMarkers(pre + m + rest)
            == Split([pre] + SplitOnMarkers(rest).pieces, [m] + SplitOnMarkers(rest).markers)
  {
    var s := pre + m + rest;
    forall k | 0 <= k < |pre| ensures MarkerAt(s, k) == 0 {
      NoMatchBefore(pre, m, rest, k);
    }
    SplitFromSkip(s, 0, |pre|);
    assert s[|pre|..|pre| + |m|] == m;
    MarkerAtComplete(s, |pre|, |pre| + |m|);
    assert s[..|pre|] == pre;
    assert s[|pre| + |m|..] == rest;
  }

  /** A delimiter-free answer is one piece. */
  lemma SplitNone(s: string)
    requires NoMarkerIn(s)
    ensures SplitOnMarkers(s) == Split([s], [])
  {
    forall k | 0 <= k < |s| ensures MarkerAt(s, k) == 0 {
      if MarkerAt(s, k) > 0 {
        MarkerAtSound(s, k);
        assert false;
      }
    }
    SplitFromSkip(s, 0, |s|);
  }

  /** There is only one way to cut an answer into delimiter-free pieces and
      delimiters, and the split finds it. */
  lemma {:induction false} SplitUnique(s: string, ps: seq<string>, ms: seq<string>)
    requires Decomposes(s, ps, ms)
    ensures SplitOnMarkers(s) == Split(ps, ms)
    decreases |ms|
  {
    if ms == [] {
      SplitNone(s);
    } else {
      var rest := Interleave(ps[1..], ms[1..]);
      assert Decomposes(rest, ps[1..], ms[1..]);
      SplitUnique(rest, ps[1..], ms[1..]);
      SplitFirst(ps[0], ms[0], rest);
      assert [ps[0]] + ps[1..] == ps && [ms[0]] + ms[1..] == ms;
    }
  }

  // ---------------------------------------------------------------------------
  // Cleaning one piece

  const Brackets: seq<string> := ["\\[", "\\]"]
  const TextCommand: seq<string> := ["\\text{"]

  /** Stage 2: one pass deleting each `\[` and each `\]`. */
  function RemoveBrackets(s: string): (r: string)
    ensures forall c :: c in r ==> c in s
  {
    StripChars(s, Brackets);
    Strip(s, Brackets)
  }

  /** Stage 3: one pass deleting each `\text{`. */
  function RemoveTextCommands(s: string): (r: string)
    ensures forall c :: c in r ==> c in s
  {
    StripChars(s, TextCommand);
    Strip(s, TextCommand)
  }

  /** Stages 4 and 5: every occurrence of one character (`}`, then `$`) is
      deleted. */
  function RemoveChar(s: string, c: char): (r: string)
    ensures forall x :: x in r <==> x in s && x != c
  {
    StripChar(s, c);
    Strip(s, [[c]])
  }

  // The removal stages, pinned down: text without a backslash passes through
  // stages 2 and 3 unchanged, each matched pattern is deleted, and a backslash
  // that starts no pattern is kept. Stages 4 and 5 act character by character.

  lemma RemoveBracketsPlain(a: string, b: string)
    requires '\\' !in a
    ensures RemoveBrackets(a + b) == a + RemoveBrackets(b)
  {
    StripPlainPrefix(a, b, Brackets);
  }

  lemma RemoveBracketsDeletes(b: string)
    ensures RemoveBrackets("\\[" + b) == RemoveBrackets(b)
    ensures RemoveBrackets("\\]" + b) == RemoveBrackets(b)
  {
    assert Brackets[0] <= "\\[" + b;
    StripMatch("\\[", b, Brackets);
    assert !(Brackets[0] <= "\\]" + b) by { assert ("\\]" + b)[1] == ']'; }
    assert Brackets[1] <= "\\]" + b;
    StripMatch("\\]", b, Brackets);
  }

  lemma RemoveBracketsKeeps(b: string)
    requires b == [] || (b[0] != '[' && b[0] != ']')
    ensures RemoveBrackets("\\" + b) == "\\" + RemoveBrackets(b)
  {
    var s := "\\" + b;
    assert !(Brackets[0] <= s) && !(Brackets[1] <= s) by {
      if |s| >= 2 { assert s[1] == b[0]; }
    }
    assert PrefixMatch(s, Brackets) == 0;
    StripKeep('\\', b, Brackets);
  }

  lemma RemoveTextCommandsPlain(a: string, b: string)
    requires '\\' !in a
    ensures RemoveTextCommands(a + b) == a + RemoveTextCommands(b)
  {
    StripPlainPrefix(a, b, TextCommand);
  }

  lemma RemoveTextCommandsDeletes(b: string)
    ensures RemoveTextCommands("\\text{" + b) == RemoveTextCommands(b)
  {
    assert TextCommand[0] <= "\\text{" + b;
    StripMatch("\\text{", b, TextCommand);
  }

  lemma RemoveTextCommandsKeeps(b: string)
    requires !("text{" <= b)
    ensures RemoveTextCommands("\\" + b) == "\\" + RemoveTextCommands(b)
  {
    var s := "\\" + b;
    assert !(TextCommand[0] <= s) by {
      if |s| >= 6 {
        assert s[1..6] == b[..5] != "text{";
        assert s[..6][1..] == s[1..6];
        assert TextCommand[0][1..] == "text{";
      }
    }
    StripKeep('\\', b, TextCommand);
  }

  /** With RemoveCharSingle, this determines stages 4 and 5 completely: the
      kept characters stay in order, each once. */
  lemma {:induction false} RemoveCharAppend(a: string, b: string, c: char)
    ensures RemoveChar(a + b, c) == RemoveChar(a, c) + RemoveChar(b, c)
    decreases |a|
  {
    if a == [] {
      assert a + b == b;
    } else {
      var rest := a[1..] + b;
      assert a + b == [a[0]] + rest;
      assert a == [a[0]] + a[1..];
      RemoveCharAppend(a[1..], b, c);
      if a[0] == c {
        assert [c] <= a + b && [c] <= a;
        StripMatch([c], rest, [[c]]);
        StripMatch([c], a[1..], [[c]]);
      } else {
        assert !([c] <= a + b) && !([c] <= a);
        StripKeep(a[0], rest, [[c]]);
        StripKeep(a[0], a[1..], [[c]]);
      }
    }
  }

  lemma RemoveCharSingle(x: char, c: char)
    ensures RemoveChar([x], c) == if x == c then [] else [x]
  {
    assert [x] == [x] + [];
    if x == c {
      assert [c] <= [x];
      StripMatch([x], [], [[c]]);
    } else {
      assert [x][0] != [c][0];
      StripKeep(x, [], [[c]]);
    }
  }

  lemma {:induction false} RemoveCharAbsent(s: string, c: char)
    requires c !in s
    ensures RemoveChar(s, c) == s
  {
    if s != [] {
      assert s == [s[0]] + s[1..];
      RemoveCharAppend([s[0]], s[1..], c);
      RemoveCharSingle(s[0], c);
      RemoveCharAbsent(s[1..], c);
    }
  }

  /** Stages 1 to 5: trim, then one pass each removing `\[` and `\]`,
      `\text{`, every `}` and every `$`. */
  function StripArtifacts(piece: string): string {
    RemoveChar(RemoveChar(RemoveTextCommands(RemoveBrackets(Trim(piece))), '}'), '$')
  }

  /** Stage 6: split into lines, trim each, drop the empty ones, re-join. */
  function TidyLines(t: string): string {
    JoinLines(DropEmpty(MapStrings(Trim, SplitLines(t))))
  }

  function Clean(piece: string): string {
    TidyLines(StripArtifacts(piece))
  }

  /** The segmenter: the cleaned form of every non-empty piece, in order. */
  function Segment(message: string): seq<string> {
    MapStrings(Clean, DropEmpty(SplitOnMarkers(message).pieces))
  }

  // ---------------------------------------------------------------------------
  // What the cleaner guarantees

  /** Every whitespace character of `t` is strictly inside it, and every line
      feed sits between two non-space characters: no step starts or ends with
      whitespace, no line is empty, and no line starts or ends with whitespace. */
  ghost predicate WellShaped(t: string) {
    (forall i :: 0 <= i < |t| && IsSpace(t[i]) ==> 0 < i < |t| - 1)
    && (forall i :: 0 < i < |t| - 1 && t[i] == '\n' ==> !IsSpace(t[i - 1]) && !IsSpace(t[i + 1]))
  }

  predicate IsTidyLine(l: string) {
    l != [] && !IsSpace(l[0]) && !IsSpace(l[|l| - 1]) && '\n' !in l
  }

  lemma {:induction false} JoinTidyLines(ls: seq<string>)
    requires forall k :: 0 <= k < |ls| ==> IsTidyLine(ls[k])
    ensures WellShaped(JoinLines(ls))
    ensures ls != [] ==> var x := JoinLines(ls); x != [] && !IsSpace(x[0]) && !IsSpace(x[|x| - 1])
  {
    if |ls| == 1 {
      var l := ls[0];
      forall i | 0 <= i < |l| ensures l[i] != '\n' {
        assert l[i] in l;
      }
    } else if |ls| > 1 {
      var l := ls[0];
      JoinTidyLines(ls[1..]);
      var j := JoinLines(ls[1..]);
      var x := l + "\n" + j;
      assert x == JoinLines(ls);
      forall i | 0 <= i < |x| && IsSpace(x[i]) ensures 0 < i < |x| - 1 {
        if i > |l| {
          assert x[i] == j[i - |l| - 1];
        }
      }
      forall i | 0 < i < |x| - 1 && x[i] == '\n' ensures !IsSpace(x[i - 1]) && !IsSpace(x[i + 1]) {
        if i > |l| {
          assert x[i] == j[i - |l| - 1];
          assert x[i - 1] == j[i - |l| - 2];
          assert x[i + 1] == j[i - |l|];
        }
      }
    }
  }

  /** Each line that stage 6 keeps is the trim of a line of `t`. */
  lemma KeptLineOrigin(t: string, k: nat)
    requires k < |DropEmpty(MapStrings(Trim, SplitLines(t)))|
    ensures exists j :: 0 <= j < |SplitLines(t)|
                        && DropEmpty(MapStrings(Trim, SplitLines(t)))[k] == Trim(SplitLines(t)[j]) != []
  {
    var trimmed := MapStrings(Trim, SplitLines(t));
    DropEmptyElems(trimmed);
    var j :| 0 <= j < |trimmed| && trimmed[j] == DropEmpty(trimmed)[k];
    MapStringsAt(Trim, SplitLines(t), j);
  }

  /** The lines that stage 6 keeps are non-empty, trimmed and free of line
      feeds. */
  lemma KeptLinesTidy(t: string)
    ensures forall k :: 0 <= k < |DropEmpty(MapStrings(Trim, SplitLines(t)))| ==> IsTidyLine(DropEmpty(MapStrings(Trim, SplitLines(t)))[k])
  {
    var lines := SplitLines(t);
    var kept := DropEmpty(MapStrings(Trim, lines));
    SplitLinesChars(t);
    forall k | 0 <= k < |kept| ensures IsTidyLine(kept[k]) {
      KeptLineOrigin(t, k);
      var j :| 0 <= j < |lines| && kept[k] == Trim(lines[j]) != [];
      TrimChars(lines[j]);
    }
  }

  /** Stage 6 adds no character but the line feed. */
  lemma TidyLinesChars(t: string)
    ensures forall c :: c in TidyLines(t) ==> c == '\n' || c in t
  {
    var lines := SplitLines(t);
    var kept := DropEmpty(MapStrings(Trim, lines));
    JoinLinesChars(kept);
    SplitLinesChars(t);
    forall c | c in TidyLines(t) && c != '\n' ensures c in t {
      var k :| 0 <= k < |kept| && c in kept[k];
      KeptLineOrigin(t, k);
      var j :| 0 <= j < |lines| && kept[k] == Trim(lines[j]) != [];
      TrimChars(lines[j]);
    }
  }

  /** Stage 6 always produces a well-shaped text. */
  lemma TidyLinesWellShaped(t: string)
    ensures WellShaped(TidyLines(t))
  {
    KeptLinesTidy(t);
    JoinTidyLines(DropEmpty(MapStrings(Trim, SplitLines(t))));
  }

  /** No cleaned piece holds a `$` or a `}`: stage 6 adds only line feeds.
      Every cleaned piece is well shaped. */
  lemma CleanSpec(piece: string)
    ensures '$' !in Clean(piece) && '}' !in Clean(piece)
    ensures WellShaped(Clean(piece))
  {
    var t := StripArtifacts(piece);
    assert Clean(piece) == TidyLines(t);
    assert '$' !in t && '}' !in t;
    TidyLinesChars(t);
    TidyLinesWellShaped(t);
  }

  /** A cleaned, non-empty piece is its lines joined by line feeds, and each of
      those lines is non-empty and its own trim. */
  lemma CleanLines(piece: string)
    requires Clean(piece) != []
    ensures JoinLines(SplitLines(Clean(piece))) == Clean(piece)
    ensures forall k :: 0 <= k < |SplitLines(Clean(piece))| ==>
              var l := SplitLines(Clean(piece))[k]; l != [] && Trim(l) == l
  {
    var t := StripArtifacts(piece);
    var kept := DropEmpty(MapStrings(Trim, SplitLines(t)));
    KeptLinesTidy(t);
    SplitJoinLines(kept);
    JoinSplitLines(Clean(piece));
    forall k | 0 <= k < |kept| ensures Trim(kept[k]) == kept[k] {
      TrimFixed(kept[k]);
    }
  }

  /** Stage 6 on text without line feeds: its trim, "" for a blank line. */
  lemma TidyOneLine(t: string)
    requires '\n' !in t
    ensures TidyLines(t) == Trim(t)
  {
    SplitLinesNoBreak(t);
    assert MapStrings(Trim, [t]) == [Trim(t)] by {
      assert [t][1..] == [];
    }
    DropEmptySingle(Trim(t));
  }

  /** A piece that is all whitespace cleans to the empty string: it stays in
      the list as an empty step. */
  lemma BlankPieceCleansToEmpty(piece: string)
    requires forall k :: 0 <= k < |piece| ==> IsSpace(piece[k])
    ensures Clean(piece) == ""
  {
    TrimEmptyIff(piece);
  }

  // ---------------------------------------------------------------------------
  // What the segmenter guarantees

  /** One step per non-empty piece, in order, each the cleaned piece; no more
      steps than delimiters plus one. */
  lemma SegmentCount(message: string)
    ensures |Segment(message)| == |DropEmpty(SplitOnMarkers(message).pieces)|
                              <= |SplitOnMarkers(message).markers| + 1
    ensures forall k :: 0 <= k < |Segment(message)| ==>
              Segment(message)[k] == Clean(DropEmpty(SplitOnMarkers(message).pieces)[k])
  {
    var kept := DropEmpty(SplitOnMarkers(message).pieces);
    forall k | 0 <= k < |kept| ensures MapStrings(Clean, kept)[k] == Clean(kept[k]) {
      MapStringsAt(Clean, kept, k);
    }
  }

  /** Any cut of the answer into delimiter-free pieces and delimiters
      determines its steps: the cleaned non-empty pieces, in order. */
  lemma SegmentOfDecomposition(message: string, ps: seq<string>, ms: seq<string>)
    requires Decomposes(message, ps, ms)
    ensures Segment(message) == MapStrings(Clean, DropEmpty(ps))
  {
    SplitUnique(message, ps, ms);
  }

  /** An empty answer has no steps. */
  lemma SegmentEmpty()
    ensures Segment("") == []
  {
    SplitNone("");
  }

  /** A non-empty answer without a delimiter is one step: its cleaned self. */
  lemma SegmentNoMarker(message: string)
    requires message != [] && NoMarkerIn(message)
    ensures Segment(message) == [Clean(message)]
  {
    SplitNone(message);
  }

  /** The text before the first delimiter is a step of its own when it is not
      empty, and the steps after it are those of the rest of the answer. With
      SegmentEmpty and SegmentNoMarker this determines Segment completely. */
  lemma SegmentFirst(pre: string, m: string, rest: string)
    requires NoMarkerIn(pre) && IsMarker(m)
    ensures Segment(pre + m + rest) == (if pre == [] then [] else [Clean(pre)]) + Segment(rest)
  {
    SplitFirst(pre, m, rest);
    DropEmptyAppend([pre], SplitOnMarkers(rest).pieces);
  }

  /** No step holds a `$` or a `}`, and every step is well shaped. */
  lemma SegmentSteps(message: string)
    ensures forall k :: 0 <= k < |Segment(message)| ==>
              '$' !in Segment(message)[k] && '}' !in Segment(message)[k] && WellShaped(Segment(message)[k])
  {
    var kept := DropEmpty(SplitOnMarkers(message).pieces);
    forall k | 0 <= k < |kept|
      ensures '$' !in MapStrings(Clean, kept)[k] && '}' !in MapStrings(Clean, kept)[k] && WellShaped(MapStrings(Clean, kept)[k])
    {
      MapStringsAt(Clean, kept, k);
      CleanSpec(kept[k]);
    }
  }
}
