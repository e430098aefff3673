/** String primitives used by the step cleaner: JavaScript's `trim`, a single
    global `replace` of fixed patterns by the empty string, and `split("\n")`
    / `join("\n")`. Strings are sequences of characters. */
module Text {

  /** The whitespace that `trim` removes in this model: space, tab, line feed,
      carriage return, form feed and vertical tab. */
  predicate IsSpace(c: char) {
    c == ' ' || c == '\t' || c == '\n' || c == '\r' || c == '\U{0C}' || c == '\U{0B}'
  }

  /** `t` occurs in `s` as a contiguous block. */
  ghost predicate Contains(s: string, t: string) {
    exists i :: 0 <= i <= |s| && t <= s[i..]
  }

  // ---------------------------------------------------------------------------
  // trim

  /** Drops the leading whitespace: the result is the suffix of `s` that starts
      at its first non-space character. */
  function TrimStart(s: string): (r: string)
    ensures |r| <= |s| && r == s[|s| - |r|..]
    ensures r == [] || !IsSpace(r[0])
    ensures forall k :: 0 <= k < |s| - |r| ==> IsSpace(s[k])
  {
    if s != [] && IsSpace(s[0]) then TrimStart(s[1..]) else s
  }

  /** Drops the trailing whitespace: the result is the prefix of `s` that ends
      at its last non-space character. */
  function TrimEnd(s: string): (r: string)
    ensures |r| <= |s| && r == s[..|r|]
    ensures r == [] || !IsSpace(r[|r| - 1])
    ensures forall k :: |r| <= k < |s| ==> IsSpace(s[k])
  {
    if s != [] && IsSpace(s[|s| - 1]) then TrimEnd(s[..|s| - 1]) else s
  }

  /** `String.prototype.trim`: the block of `s` between its leading and its
      trailing whitespace. */
  function Trim(s: string): (r: string)
    ensures r == [] || (!IsSpace(r[0]) && !IsSpace(r[|r| - 1]))
  {
    TrimEnd(TrimStart(s))
  }

  /** `Trim(s)` is a block of `s`, and what lies around it is whitespace. */
  lemma TrimInfix(s: string)
    ensures var r := Trim(s);
            exists i :: 0 <= i <= |s| - |r| && r <= s[i..]
                        && (forall k :: 0 <= k < i ==> IsSpace(s[k]))
                        && (forall k :: i + |r| <= k < |s| ==> IsSpace(s[k]))
  {
    var t := TrimStart(s);
    var r := TrimEnd(t);
    var i := |s| - |t|;
    assert r <= s[i..];
  }

  /** Every character of `Trim(s)` is a character of `s`. */
  lemma TrimChars(s: string)
    ensures forall c :: c in Trim(s) ==> c in s
  {
    var t := TrimStart(s);
    var r := TrimEnd(t);
    forall c | c in r ensures c in s {
      var k :| 0 <= k < |r| && r[k] == c;
      assert r[k] == t[k];
      assert t[k] == s[|s| - |t| + k];
    }
  }

  /** A string trims to the empty string exactly when it is all whitespace. */
  lemma TrimEmptyIff(s: string)
    ensures Trim(s) == [] <==> forall k :: 0 <= k < |s| ==> IsSpace(s[k])
  {
    var t := TrimStart(s);
    assert t != [] ==> t[0] == s[|s| - |t|];
    if !forall k :: 0 <= k < |s| ==> IsSpace(s[k]) {
      var k :| 0 <= k < |s| && !IsSpace(s[k]);
      assert k >= |s| - |t|;
      assert t[k - (|s| - |t|)] == s[k];
      assert !IsSpace(t[k - (|s| - |t|)]);
    }
  }

  /** A string without surrounding whitespace is its own trim; in particular
      trimming twice is trimming once. */
  lemma TrimFixed(s: string)
    requires s == [] || (!IsSpace(s[0]) && !IsSpace(s[|s| - 1]))
    ensures Trim(s) == s
  {
  }

  lemma TrimIdempotent(s: string)
    ensures Trim(Trim(s)) == Trim(s)
  {
    TrimFixed(Trim(s));
  }

  /** Leading whitespace is dropped, up to the first non-space character. */
  lemma {:induction false} TrimStartSpaces(pad: string, a: string)
    requires forall k :: 0 <= k < |pad| ==> IsSpace(pad[k])
    requires a == [] || !IsSpace(a[0])
    ensures TrimStart(pad + a) == a
    decreases |pad|
  {
    if pad == [] {
      assert pad + a == a;
    } else {
      assert (pad + a)[1..] == pad[1..] + a;
      TrimStartSpaces(pad[1..], a);
    }
  }

  /** Trailing whitespace is dropped, back to the last non-space character. */
  lemma {:induction false} TrimEndSpaces(a: string, pad: string)
    requires a == [] || !IsSpace(a[|a| - 1])
    requires forall k :: 0 <= k < |pad| ==> IsSpace(pad[k])
    ensures TrimEnd(a + pad) == a
    decreases |pad|
  {
    if pad == [] {
      assert a + pad == a;
    } else {
      var s := a + pad;
      assert s[..|s| - 1] == a + pad[..|pad| - 1];
      TrimEndSpaces(a, pad[..|pad| - 1]);
    }
  }

  /** A block that starts and ends with non-spaces, padded with whitespace on
      both sides, trims to itself. */
  lemma TrimPadding(pre: string, a: string, post: string)
    requires forall k :: 0 <= k < |pre| ==> IsSpace(pre[k])
    requires forall k :: 0 <= k < |post| ==> IsSpace(post[k])
    requires a != [] && !IsSpace(a[0]) && !IsSpace(a[|a| - 1])
    ensures Trim(pre + a + post) == a
  {
    assert pre + a + post == pre + (a + post);
    TrimStartSpaces(pre, a + post);
    TrimEndSpaces(a, post);
  }

  // ---------------------------------------------------------------------------
  // replace(/p1|p2|.../g, "")

  /** The length of the first pattern of `pats` that is a prefix of `s`, or 0
      when none is. */
  function PrefixMatch(s: string, pats: seq<string>): (n: nat)
    requires forall k :: 0 <= k < |pats| ==> pats[k] != []
    ensures n <= |s|
    ensures n > 0 ==> exists k :: 0 <= k < |pats| && pats[k] == s[..n]
                                  && forall j :: 0 <= j < k ==> !(pats[j] <= s)
    ensures n == 0 <==> forall k :: 0 <= k < |pats| ==> !(pats[k] <= s)
  {
    if pats == [] then 0
    else if pats[0] <= s then |pats[0]|
    else PrefixMatch(s, pats[1..])
  }

  /** A global regular-expression replacement by "" of the alternation `pats`:
      one left-to-right pass that deletes non-overlapping occurrences, where at
      each position the first alternative that matches wins; text that a
      deletion brings together is not scanned again. */
  function Strip(s: string, pats: seq<string>): (r: string)
    requires forall k :: 0 <= k < |pats| ==> pats[k] != []
    ensures |r| <= |s|
    decreases |s|
  {
    if s == [] then []
    else
      var n := PrefixMatch(s, pats);
      if n > 0 then Strip(s[n..], pats) else [s[0]] + Strip(s[1..], pats)
  }

  /** The pass only deletes: every character it keeps comes from `s`. */
  lemma {:induction false} StripChars(s: string, pats: seq<string>)
    requires forall k :: 0 <= k < |pats| ==> pats[k] != []
    ensures forall c :: c in Strip(s, pats) ==> c in s
    decreases |s|
  {
    if s != [] {
      var n := PrefixMatch(s, pats);
      if n > 0 {
        StripChars(s[n..], pats);
        forall c | c in s[n..] ensures c in s {
          var k :| 0 <= k < |s[n..]| && s[n..][k] == c;
          assert s[n + k] == c;
        }
      } else {
        StripChars(s[1..], pats);
        assert s == [s[0]] + s[1..];
      }
    }
  }

  /** Removing a single character keeps exactly the other characters. */
  lemma {:induction false} StripChar(s: string, c: char)
    ensures forall x :: x in Strip(s, [[c]]) <==> x in s && x != c
  {
    if s != [] {
      StripChar(s[1..], c);
      assert s == [s[0]] + s[1..];
      if s[0] == c {
        assert [c] <= s;
      } else {
        assert !([c] <= s);
      }
    }
  }

  /** Where no alternative occurs anywhere, the pass changes nothing. */
  lemma {:induction false} StripNothing(s: string, pats: seq<string>)
    requires forall k :: 0 <= k < |pats| ==> pats[k] != []
    requires forall i, k :: 0 <= i < |s| && 0 <= k < |pats| ==> !(pats[k] <= s[i..])
    ensures Strip(s, pats) == s
  {
    if s != [] {
      assert s[0..] == s;
      forall i, k | 0 <= i < |s[1..]| && 0 <= k < |pats| ensures !(pats[k] <= s[1..][i..]) {
        assert s[1..][i..] == s[i + 1..];
      }
      StripNothing(s[1..], pats);
    }
  }

  /** A block holding no first character of any alternative is kept as it is,
      and the pass goes on after it. */
  lemma {:induction false} StripPlainPrefix(a: string, b: string, pats: seq<string>)
    requires forall k :: 0 <= k < |pats| ==> pats[k] != []
    requires forall i, k :: 0 <= i < |a| && 0 <= k < |pats| ==> pats[k][0] != a[i]
    ensures Strip(a + b, pats) == a + Strip(b, pats)
    decreases |a|
  {
    if a == [] {
      assert a + b == b;
    } else {
      var x, a', rest := a[0], a[1..], a[1..] + b;
      assert a + b == [x] + rest;
      forall k | 0 <= k < |pats| ensures !(pats[k] <= [x] + rest) {
        assert ([x] + rest)[0] == x;
      }
      StripKeep(x, rest, pats);
      StripPlainPrefix(a', b, pats);
      assert a == [x] + a';
    }
  }

  /** An alternative matched at the start is deleted, and the pass goes on
      right after it. */
  lemma StripMatch(p: string, b: string, pats: seq<string>)
    requires forall k :: 0 <= k < |pats| ==> pats[k] != []
    requires PrefixMatch(p + b, pats) == |p| > 0
    ensures Strip(p + b, pats) == Strip(b, pats)
  {
    assert (p + b)[|p|..] == b;
  }

  /** A character at which no alternative matches is kept. */
  lemma StripKeep(x: char, b: string, pats: seq<string>)
    requires forall k :: 0 <= k < |pats| ==> pats[k] != []
    requires PrefixMatch([x] + b, pats) == 0
    ensures Strip([x] + b, pats) == [x] + Strip(b, pats)
  {
    assert ([x] + b)[1..] == b;
  }

  // ---------------------------------------------------------------------------
  // split("\n") and join("\n")

  /** `split("\n")`: the blocks between line feeds, always at least one. */
  function SplitLines(s: string): (r: seq<string>)
    ensures |r| >= 1
  {
    if s == [] then [""]
    else
      var rest := SplitLines(s[1..]);
      if s[0] == '\n' then [""] + rest
      else [[s[0]] + rest[0]] + rest[1..]
  }

  /** `join("\n")`: the lines with a line feed between each two. */
  function JoinLines(ls: seq<string>): string {
    if ls == [] then ""
    else if |ls| == 1 then ls[0]
    else ls[0] + "\n" + JoinLines(ls[1..])
  }

  /** No line holds a line feed, and every character of a line comes from
      the string split. */
  lemma {:induction false} SplitLinesChars(s: string)
    ensures forall k :: 0 <= k < |SplitLines(s)| ==> '\n' !in SplitLines(s)[k]
    ensures forall k :: 0 <= k < |SplitLines(s)| ==> forall c :: c in SplitLines(s)[k] ==> c in s
  {
    if s != [] {
      SplitLinesChars(s[1..]);
      var rest := SplitLines(s[1..]);
      var r := SplitLines(s);
      assert s == [s[0]] + s[1..];
      if s[0] == '\n' {
        assert forall k :: 1 <= k < |r| ==> r[k] == rest[k - 1];
      } else {
        assert r[0] == [s[0]] + rest[0];
        assert forall k :: 1 <= k < |r| ==> r[k] == rest[k];
      }
    }
  }

  /** Joining adds no character but the line feed. */
  lemma {:induction false} JoinLinesChars(ls: seq<string>)
    ensures forall c :: c in JoinLines(ls) ==> c == '\n' || exists k :: 0 <= k < |ls| && c in ls[k]
  {
    if |ls| > 1 {
      JoinLinesChars(ls[1..]);
      forall c | c in JoinLines(ls) && c != '\n' ensures exists k :: 0 <= k < |ls| && c in ls[k] {
        if c !in ls[0] {
          assert c in JoinLines(ls[1..]);
          var k :| 0 <= k < |ls[1..]| && c in ls[1..][k];
          assert ls[k + 1] == ls[1..][k];
        }
      }
    }
  }

  /** Splitting and re-joining gives the string back. */
  lemma {:induction false} JoinSplitLines(s: string)
    ensures JoinLines(SplitLines(s)) == s
  {
    if s != [] {
      JoinSplitLines(s[1..]);
      var rest := SplitLines(s[1..]);
      if s[0] == '\n' {
        assert JoinLines([""] + rest) == "" + "\n" + JoinLines(rest);
      } else {
        var r := [[s[0]] + rest[0]] + rest[1..];
        if |rest| == 1 {
          assert JoinLines(r) == [s[0]] + rest[0];
        } else {
          assert r[1..] == rest[1..];
          assert JoinLines(rest) == rest[0] + "\n" + JoinLines(rest[1..]);
        }
      }
    }
  }

  lemma {:induction false} SplitLinesNoBreak(a: string)
    requires '\n' !in a
    ensures SplitLines(a) == [a]
  {
    if a != [] {
      SplitLinesNoBreak(a[1..]);
      assert [a[0]] + a[1..] == a;
    }
  }

  lemma {:induction false} SplitLinesBreak(a: string, b: string)
    requires '\n' !in a
    ensures SplitLines(a + "\n" + b) == [a] + SplitLines(b)
  {
    if a == [] {
      assert a + "\n" + b == "\n" + b;
      assert ("\n" + b)[1..] == b;
    } else {
      assert (a + "\n" + b)[1..] == a[1..] + "\n" + b;
      SplitLinesBreak(a[1..], b);
      assert [a[0]] + a[1..] == a;
    }
  }

  /** Joining lines free of line feeds and splitting again gives the lines back. */
  lemma {:induction false} SplitJoinLines(ls: seq<string>)
    requires ls != []
    requires forall k :: 0 <= k < |ls| ==> '\n' !in ls[k]
    ensures SplitLines(JoinLines(ls)) == ls
  {
    if |ls| == 1 {
      SplitLinesNoBreak(ls[0]);
    } else {
      SplitJoinLines(ls[1..]);
      SplitLinesBreak(ls[0], JoinLines(ls[1..]));
    }
  }

  /** `Array.prototype.map` over strings. */
  function MapStrings(f: string -> string, xs: seq<string>): (r: seq<string>)
    ensures |r| == |xs|
  {
    if xs == [] then [] else [f(xs[0])] + MapStrings(f, xs[1..])
  }

  lemma {:induction false} MapStringsAt(f: string -> string, xs: seq<string>, k: nat)
    requires k < |xs|
    ensures MapStrings(f, xs)[k] == f(xs[k])
  {
    if k > 0 {
      MapStringsAt(f, xs[1..], k - 1);
    }
  }

  /** `.filter(Boolean)` on strings: keeps the non-empty ones, in order. */
  function DropEmpty(ss: seq<string>): (r: seq<string>)
    ensures |r| <= |ss|
  {
    if ss == [] then []
    else if ss[0] == [] then DropEmpty(ss[1..])
    else [ss[0]] + DropEmpty(ss[1..])
  }

  /** What DropEmpty keeps is non-empty and was in its input. */
  lemma {:induction false} DropEmptyElems(ss: seq<string>)
    ensures forall k :: 0 <= k < |DropEmpty(ss)| ==> DropEmpty(ss)[k] != [] && DropEmpty(ss)[k] in ss
  {
    if ss != [] {
      DropEmptyElems(ss[1..]);
      assert forall x :: x in ss[1..] ==> x in ss;
    }
  }

  /** DropEmpty distributes over concatenation; with the singleton cases below
      this determines it completely. */
  lemma {:induction false} DropEmptyAppend(a: seq<string>, b: seq<string>)
    ensures DropEmpty(a + b) == DropEmpty(a) + DropEmpty(b)
  {
    if a != [] {
      assert (a + b)[0] == a[0];
      assert (a + b)[1..] == a[1..] + b;
      DropEmptyAppend(a[1..], b);
      if a[0] != [] {
        assert [a[0]] + (DropEmpty(a[1..]) + DropEmpty(b)) == ([a[0]] + DropEmpty(a[1..])) + DropEmpty(b);
      }
    } else {
      assert a + b == b;
    }
  }

  lemma DropEmptySingle(x: string)
    ensures DropEmpty([x]) == if x == [] then [] else [x]
  {
  }

  /** Nothing is dropped from a sequence of non-empty strings. */
  lemma {:induction false} DropEmptyKeepsAll(ss: seq<string>)
    requires forall k :: 0 <= k < |ss| ==> ss[k] != []
    ensures DropEmpty(ss) == ss
  {
    if ss != [] {
      DropEmptyKeepsAll(ss[1..]);
    }
  }
}
