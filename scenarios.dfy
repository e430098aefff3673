/** Worked inputs for the segmenter and the prompt, and small facts used by
    them. */
module Scenarios {
  import opened Text
  import opened Segmenter
  import Prompt

  /** The bracket pass is a single pass: deleting `\[` from `\\[[` joins a
      backslash and a bracket into a new `\[`, which stays. */
  lemma BracketPassIsSinglePass()
    ensures RemoveBrackets("\\\\[[") == "\\["
  {
    var s := "\\\\[[";
    assert !("\\[" <= s) by { assert s[1] != '['; }
    assert !("\\]" <= s) by { assert s[1] != ']'; }
    assert PrefixMatch(s, Brackets) == 0;
    assert s[1..] == "\\[[";
    assert "\\[" <= s[1..];
    assert PrefixMatch(s[1..], Brackets) == 2;
    assert s[1..][2..] == "[";
    assert PrefixMatch("[", Brackets) == 0;
    assert Strip("[", Brackets) == "[" + Strip([], Brackets);
  }

  /** A string shorter than `Step 1:` holds no delimiter. */
  lemma ShortNoMarker(t: string)
    requires |t| < 7
    ensures NoMarkerIn(t)
  {
  }

  /** When the first character of every alternative is absent from `s`, the
      pass leaves `s` as it is. */
  lemma StripAbsent(s: string, pats: seq<string>)
    requires forall k :: 0 <= k < |pats| ==> pats[k] != [] && pats[k][0] !in s
    ensures Strip(s, pats) == s
  {
    forall i, k | 0 <= i < |s| && 0 <= k < |pats| ensures !(pats[k] <= s[i..]) {
      assert s[i..][0] == s[i];
    }
    StripNothing(s, pats);
  }

  /** A piece whose trimmed text is one line without backslashes, braces or
      dollars cleans to that trimmed text. */
  lemma CleanPlain(p: string)
    requires Trim(p) != []
    requires '\\' !in Trim(p) && '}' !in Trim(p) && '$' !in Trim(p) && '\n' !in Trim(p)
    ensures Clean(p) == Trim(p)
  {
    var t := Trim(p);
    assert RemoveBrackets(t) == t by { StripAbsent(t, Brackets); }
    assert RemoveTextCommands(t) == t by { StripAbsent(t, TextCommand); }
    assert RemoveChar(t, '}') == t by { RemoveCharAbsent(t, '}'); }
    assert RemoveChar(t, '$') == t by { RemoveCharAbsent(t, '$'); }
    assert TidyLines(t) == t by {
      TrimIdempotent(p);
      TidyOneLine(t);
    }
    CleanStages(p, t, t, t, t, t);
  }

  /** A visible character other than a backslash, a brace or a dollar: one
      the cleaner keeps. */
  predicate Plain(c: char) {
    !IsSpace(c) && c != '\\' && c != '}' && c != '$'
  }

  lemma TrimPadded(c: char, pad: string)
    requires Plain(c) && forall k :: 0 <= k < |pad| ==> IsSpace(pad[k])
    ensures Trim(" " + [c] + pad) == [c]
  {
    TrimPadding(" ", [c], pad);
  }

  lemma TwoStepsCut(x: char, y: char)
    ensures Decomposes("Step 1: " + [x] + "\nStep 2: " + [y],
                       ["", " " + [x] + "\n", " " + [y]], ["Step 1:", "Step 2:"])
  {
    var p1, p2 := " " + [x] + "\n", " " + [y];
    var ps, ms := ["", p1, p2], ["Step 1:", "Step 2:"];
    assert Interleave(ps[2..], ms[2..]) == p2;
    assert Interleave(ps[1..], ms[1..]) == p1 + ms[1] + p2;
    assert IsMarker(ms[0]) && IsMarker(ms[1]);
    ShortNoMarker(ps[0]);
    ShortNoMarker(ps[1]);
    ShortNoMarker(ps[2]);
  }

  lemma CleanPadded(c: char, pad: string)
    requires Plain(c) && (pad == "" || pad == "\n")
    ensures Clean(" " + [c] + pad) == [c]
  {
    TrimPadded(c, pad);
    CleanPlain(" " + [c] + pad);
  }

  lemma TwoStepsPieces(x: char, y: char)
    ensures Segment("Step 1: " + [x] + "\nStep 2: " + [y])
            == MapStrings(Clean, DropEmpty(["", " " + [x] + "\n", " " + [y]]))
  {
    TwoStepsCut(x, y);
    SegmentOfDecomposition("Step 1: " + [x] + "\nStep 2: " + [y],
                           ["", " " + [x] + "\n", " " + [y]], ["Step 1:", "Step 2:"]);
  }

  lemma DropLeadingEmpty(a: string, b: string)
    requires a != [] && b != []
    ensures DropEmpty(["", a, b]) == [a, b]
  {
    assert ["", a, b][1..] == [a, b];
    DropEmptyKeepsAll([a, b]);
  }

  lemma MapPair(f: string -> string, a: string, b: string)
    ensures MapStrings(f, [a, b]) == [f(a), f(b)]
  {
    assert [a, b][1..] == [b];
  }

  /** Two numbered steps of one character each, one per line, give the two
      characters as the steps; the empty text before the first delimiter
      gives no step. */
  lemma TwoSteps(x: char, y: char)
    requires Plain(x) && Plain(y)
    ensures Segment("Step 1: " + [x] + "\nStep 2: " + [y]) == [[x], [y]]
  {
    var p1, p2 := " " + [x] + "\n", " " + [y];
    TwoStepsPieces(x, y);
    DropLeadingEmpty(p1, p2);
    MapPair(Clean, p1, p2);
    CleanPadded(x, "\n");
    CleanPadded(y, "");
    assert p2 == " " + [y] + "";
  }

  /** Each header the prompt asks for begins with a delimiter the segmenter
      splits on, followed by the step's title. */
  lemma HeadersAreDelimiters()
    ensures IsMarker(Prompt.StepHeader1[..7]) && IsMarker(Prompt.StepHeader2[..7])
            && IsMarker(Prompt.StepHeader3[..7]) && IsMarker(Prompt.StepHeader4[..7])
            && IsMarker(Prompt.StepHeader5[..7])
  {
    assert Prompt.StepHeader1[..7] == "Step 1:";
    assert Prompt.StepHeader2[..7] == "Step 2:";
    assert Prompt.StepHeader3[..7] == "Step 3:";
    assert Prompt.StepHeader4[..7] == "Step 4:";
    assert Prompt.StepHeader5[..7] == "Step 5:";
  }

  // ---------------------------------------------------------------------------
  // A display-math step: `\[ \text{Force} = 10N \]` cleans to `Force = 10N`,
  // here for any two texts in place of "Force" and "= 10N" that are free of
  // backslashes, braces, dollars and line feeds, the first starting and the
  // second ending with a non-space.

  /** What the two texts must be like: free of backslashes, braces, dollars and
      line feeds, the first starting and the second ending with a non-space. */
  ghost predicate DisplayParts(w: string, v: string) {
    w != [] && v != [] && !IsSpace(w[0]) && !IsSpace(v[|v| - 1])
    && '\\' !in w && '\\' !in v && '}' !in w && '}' !in v
    && '$' !in w && '$' !in v && '\n' !in w && '\n' !in v
  }

  /** The regroupings of the display line that the stage lemmas below need. */
  lemma DisplayRegroup(w: string, v: string)
    ensures "\\[ \\text{" + w + "} " + v + " \\]"
            == "\\[" + (" " + ("\\" + (("text{" + w + "} " + v + " ") + "\\]")))
    ensures " " + ("\\" + ("text{" + w + "} " + v + " ")) == " \\text{" + w + "} " + v + " "
    ensures " \\text{" + w + "} " + v + " " == " " + ("\\text{" + (w + "} " + v + " "))
    ensures " " + (w + "} " + v + " ") == " " + w + "} " + v + " "
    ensures " " + w + "} " + v + " " == (" " + w) + ("}" + (" " + v + " "))
    ensures (" " + w) + (" " + v + " ") == " " + w + " " + v + " "
    ensures " " + w + " " + v + " " == " " + (w + " " + v) + " "
  {
  }

  lemma DisplayBrackets(w: string, v: string)
    requires DisplayParts(w, v)
    ensures RemoveBrackets("\\[ \\text{" + w + "} " + v + " \\]") == " \\text{" + w + "} " + v + " "
  {
    var tail := "text{" + w + "} " + v + " ";
    assert '\\' !in tail;
    var x3 := tail + "\\]";
    var x2 := "\\" + x3;
    var x1 := " " + x2;
    assert "\\[ \\text{" + w + "} " + v + " \\]" == "\\[" + x1 by {
      DisplayRegroup(w, v);
    }
    assert RemoveBrackets(x3) == tail by {
      RemoveBracketsPlain(tail, "\\]");
      assert "\\]" == "\\]" + "";
      RemoveBracketsDeletes("");
      assert tail + "" == tail;
    }
    assert RemoveBrackets(x2) == "\\" + tail by {
      assert x3[0] == 't';
      RemoveBracketsKeeps(x3);
    }
    assert RemoveBrackets(x1) == " " + ("\\" + tail) by {
      RemoveBracketsPlain(" ", x2);
    }
    RemoveBracketsDeletes(x1);
    assert " " + ("\\" + tail) == " \\text{" + w + "} " + v + " " by {
      DisplayRegroup(w, v);
    }
  }

  lemma DisplayTextCommand(w: string, v: string)
    requires DisplayParts(w, v)
    ensures RemoveTextCommands(" \\text{" + w + "} " + v + " ") == " " + w + "} " + v + " "
  {
    var u := w + "} " + v + " ";
    assert '\\' !in u;
    assert " \\text{" + w + "} " + v + " " == " " + ("\\text{" + u) by {
      DisplayRegroup(w, v);
    }
    assert RemoveTextCommands("\\text{" + u) == u by {
      RemoveTextCommandsDeletes(u);
      assert u == u + "";
      RemoveTextCommandsPlain(u, "");
    }
    RemoveTextCommandsPlain(" ", "\\text{" + u);
    assert " " + u == " " + w + "} " + v + " " by {
      DisplayRegroup(w, v);
    }
  }

  lemma DisplayBraces(w: string, v: string)
    requires DisplayParts(w, v)
    ensures RemoveChar(" " + w + "} " + v + " ", '}') == " " + w + " " + v + " "
  {
    var a, b := " " + w, " " + v + " ";
    assert " " + w + "} " + v + " " == a + ("}" + b) by {
      DisplayRegroup(w, v);
    }
    assert RemoveChar("}" + b, '}') == b by {
      RemoveCharAppend("}", b, '}');
      RemoveCharSingle('}', '}');
      RemoveCharAbsent(b, '}');
    }
    RemoveCharAppend(a, "}" + b, '}');
    RemoveCharAbsent(a, '}');
    assert a + b == " " + w + " " + v + " " by {
      DisplayRegroup(w, v);
    }
  }

  lemma DisplayTidy(w: string, v: string)
    requires DisplayParts(w, v)
    ensures TidyLines(" " + w + " " + v + " ") == w + " " + v
  {
    var u := w + " " + v;
    assert " " + w + " " + v + " " == " " + u + " " by {
      DisplayRegroup(w, v);
    }
    assert '\n' !in " " + u + " ";
    assert Trim(" " + u + " ") == u by {
      TrimPadding(" ", u, " ");
    }
    TidyOneLine(" " + u + " ");
  }

  lemma DisplayTrim(w: string, v: string)
    ensures Trim("\\[ \\text{" + w + "} " + v + " \\]") == "\\[ \\text{" + w + "} " + v + " \\]"
  {
    var piece := "\\[ \\text{" + w + "} " + v + " \\]";
    assert piece[0] == '\\' && piece[|piece| - 1] == ']';
    TrimFixed(piece);
  }

  /** Clean, stage by stage: the results of the six stages in turn. */
  lemma CleanStages(piece: string, t: string, a: string, b: string, c: string, d: string)
    requires Trim(piece) == t && RemoveBrackets(t) == a && RemoveTextCommands(a) == b
    requires RemoveChar(b, '}') == c && RemoveChar(c, '$') == c && TidyLines(c) == d
    ensures Clean(piece) == d
  {
  }

  /** A display-math line with a `\text{...}` command loses the brackets, the
      command and its closing brace, and the surrounding blanks. */
  lemma CleanDisplayMath(w: string, v: string)
    requires DisplayParts(w, v)
    ensures Clean("\\[ \\text{" + w + "} " + v + " \\]") == w + " " + v
  {
    var piece := "\\[ \\text{" + w + "} " + v + " \\]";
    var a, b, c := " \\text{" + w + "} " + v + " ", " " + w + "} " + v + " ", " " + w + " " + v + " ";
    DisplayTrim(w, v);
    DisplayBrackets(w, v);
    DisplayTextCommand(w, v);
    DisplayBraces(w, v);
    RemoveCharAbsent(c, '$');
    DisplayTidy(w, v);
    CleanStages(piece, piece, a, b, c, w + " " + v);
  }
}
