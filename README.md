# BeamCee beam calculator: a Dafny model

BeamCee is a single-page React app. The user describes a beam: its type, support,
dimensions, Young's modulus, and point, moment and distributed loads. The app
sends a prompt built from those values to a chat model and streams the answer
back. When the answer is complete, it cuts the answer into numbered steps and
cleans each step for display.

The logic lives in `src/app/page.jsx`, and this project models three parts of it:

- **The step segmenter** (`onFinish`). It splits the answer on the delimiter
  `/Step \d+:/` and drops the empty pieces. Each remaining piece is then
  trimmed. A single left-to-right pass removes `\[` and `\]`, another removes
  `\text{`, and every `}` and `$` is deleted. Finally the piece is split into
  lines, the lines are trimmed, the empty ones are dropped, and the rest are
  rejoined. This part is pure, so it is modelled with functions and lemmas over
  `seq<char>` (`text.dfy`, `segmenter.dfy`).
- **The prompt template** of `calculateResults` (`prompt.dfy`). The prompt
  is built from the form's raw text. It always ends with fixed instructions
  that name five analysis steps.
- **The component state**: the `useState` variables and the handlers that
  set them (`calculator.dfy`). A `BeamCalculator` class holds one field per
  state variable. Each handler is a method that states its whole new state:
  `resetCalculator`, `addLoad`, the start of `calculateResults`, the
  completion in `onFinish`, and the small inline handlers of the page.

`scenarios.dfy` works out concrete inputs against the model:

- a two-step answer;
- a display-math step such as `\[ \text{Force} = 10N \]`, which cleans to
  `Force = 10N` (for any two texts in place of `Force` and `= 10N` that are
  free of backslashes, braces, dollars and line feeds, the first starting and
  the second ending with a non-space);
- the single-pass removal of brackets;
- the fact that every prompt header starts with a delimiter.

Points of the code's behaviour worth knowing:

- The delimiter has exactly one space between `Step` and the digits.
- Text before the first delimiter is kept as a step.
- A non-empty answer without a delimiter gives one step, not zero.
- A whitespace-only piece passes the empty-piece filter and becomes an empty
  step.
- The "Home" button only switches the page and does not reset the form.

## Model

| member | source | states |
|---|---|---|
| Text.TrimStart | src/app/page.jsx:37 | the result is the suffix of the input starting at its first non-whitespace character; everything dropped is whitespace |
| Text.TrimEnd | src/app/page.jsx:37 | the result is the prefix ending at the last non-whitespace character; everything dropped is whitespace |
| Text.Trim | src/app/page.jsx:37 | the trimmed string is empty or starts and ends with a non-whitespace character |
| Text.TrimInfix | src/app/page.jsx:37 | `trim` returns a contiguous block of its input with only whitespace before and after it |
| Text.TrimChars | src/app/page.jsx:37 | trimming introduces no character |
| Text.TrimEmptyIff | src/app/page.jsx:37 | a string trims to "" if and only if it is all whitespace |
| Text.TrimFixed | src/app/page.jsx:43 | a string without surrounding whitespace is its own trim |
| Text.TrimIdempotent | src/app/page.jsx:43 | trimming twice equals trimming once |
| Text.TrimStartSpaces | src/app/page.jsx:37 | leading whitespace before a non-space is dropped, exactly |
| Text.TrimEndSpaces | src/app/page.jsx:37 | trailing whitespace after a non-space is dropped, exactly |
| Text.TrimPadding | src/app/page.jsx:37 | a block with non-space ends, padded with whitespace on both sides, trims to the block |
| Text.PrefixMatch | src/app/page.jsx:38 | the length of the first alternative, in list order, that is a prefix; 0 exactly when no alternative is a prefix |
| Text.Strip | src/app/page.jsx:38-41 | a global `replace` with "" never lengthens the string; what it deletes and keeps is stated by `StripPlainPrefix`, `StripMatch` and `StripKeep` |
| Text.StripPlainPrefix | src/app/page.jsx:38-41 | text holding no first character of any alternative is copied through unchanged, and the pass continues after it |
| Text.StripMatch | src/app/page.jsx:38-41 | a matched alternative at the front is deleted and the pass continues right after it |
| Text.StripKeep | src/app/page.jsx:38-41 | a character at which no alternative matches is kept and the pass continues at the next character |
| Text.StripChars | src/app/page.jsx:38-39 | a global removal pass keeps only characters of its input |
| Text.StripChar | src/app/page.jsx:40-41 | removing one character keeps exactly the other characters, in both directions |
| Text.StripNothing | src/app/page.jsx:38-41 | where no alternative occurs, the pass changes nothing |
| Text.SplitLines | src/app/page.jsx:42 | `split("\n")` always yields at least one line |
| Text.SplitLinesChars | src/app/page.jsx:42 | no line holds a line feed, and lines contain only characters of the input |
| Text.JoinLines | src/app/page.jsx:45 | `join("\n")`; `JoinSplitLines` and `SplitJoinLines` show it is the inverse of `split("\n")` and `JoinLinesChars` that it adds only line feeds |
| Text.JoinLinesChars | src/app/page.jsx:45 | `join("\n")` adds no character except the line feed |
| Text.JoinSplitLines | src/app/page.jsx:42-45 | joining the split lines gives the string back |
| Text.SplitLinesNoBreak | src/app/page.jsx:42 | a string without line feeds is a single line |
| Text.SplitLinesBreak | src/app/page.jsx:42 | splitting `a + "\n" + b` gives `a` followed by the lines of `b` |
| Text.SplitJoinLines | src/app/page.jsx:42-45 | splitting the join of a non-empty list of lines without line feeds gives the list back |
| Text.MapStrings | src/app/page.jsx:35 | `map` keeps the length |
| Text.MapStringsAt | src/app/page.jsx:43 | the k-th mapped element is `f` applied to the k-th element |
| Text.DropEmpty | src/app/page.jsx:34 | `filter(Boolean)` never lengthens the list |
| Text.DropEmptyElems | src/app/page.jsx:44 | every kept string is non-empty and comes from the input |
| Text.DropEmptyAppend | src/app/page.jsx:34 | the filter distributes over concatenation |
| Text.DropEmptySingle | src/app/page.jsx:34 | a one-element list keeps its element exactly when the element is non-empty |
| Text.DropEmptyKeepsAll | src/app/page.jsx:34 | a list of non-empty strings is kept whole |
| Segmenter.IsMarker | src/app/page.jsx:33 | the delimiter's shape: `Step`, one space, one or more ASCII digits, a colon; `MarkerAtSound` and `MarkerAtComplete` show the matcher finds exactly the blocks of this shape |
| Segmenter.DigitRun | src/app/page.jsx:33 | the length of the maximal run of ASCII digits at a position |
| Segmenter.MarkerAt | src/app/page.jsx:33 | a match found at a position stays inside the string |
| Segmenter.MarkerAtSound | src/app/page.jsx:33 | what the matcher finds is `Step`, one space, one or more digits, and a colon |
| Segmenter.DigitRunExact | src/app/page.jsx:33 | a run of digits ending at a non-digit is the run the matcher measures |
| Segmenter.MarkerAtComplete | src/app/page.jsx:33 | every block with the delimiter's shape is found, whole, at its start |
| Segmenter.SplitFrom | src/app/page.jsx:33 | the scan gives one more piece than delimiters |
| Segmenter.SplitOnMarkers | src/app/page.jsx:33 | the split gives one more piece than delimiters |
| Segmenter.InterleaveCons | src/app/page.jsx:33 | putting back a first piece and delimiter before the rest |
| Segmenter.InterleaveAfterMatch | src/app/page.jsx:33 | a piece and a delimiter put back before the interleaved rest give the whole string |
| Segmenter.PrefixHasNoMarker | src/app/page.jsx:33 | text scanned without a match holds no delimiter |
| Segmenter.SplitFromInterleaves | src/app/page.jsx:33 | the pieces and delimiters put back together give the scanned string |
| Segmenter.SplitFromMarkers | src/app/page.jsx:33 | every delimiter found has the delimiter's shape |
| Segmenter.SplitFromPieces | src/app/page.jsx:33 | no piece contains a delimiter |
| Segmenter.SplitDecomposes | src/app/page.jsx:33 | the split cuts the answer, in source order, into delimiter-free pieces separated by delimiters |
| Segmenter.SplitFromSkip | src/app/page.jsx:33 | positions where no match starts do not change the split |
| Segmenter.NotMarkerWithInnerS | src/app/page.jsx:33 | a delimiter holds no `S` after its first character |
| Segmenter.NoMatchAt | src/app/page.jsx:33 | no match starts where no delimiter-shaped block starts |
| Segmenter.NoMatchBefore | src/app/page.jsx:33 | no match starts inside a delimiter-free block that a delimiter follows |
| Segmenter.SplitFirst | src/app/page.jsx:33 | splitting block + delimiter + rest gives the block, the delimiter, then the split of the rest |
| Segmenter.SplitNone | src/app/page.jsx:33 | a delimiter-free answer is one piece |
| Segmenter.SplitUnique | src/app/page.jsx:33 | any cut into delimiter-free pieces and delimiters is the split's own: the split is unique |
| Segmenter.RemoveBrackets | src/app/page.jsx:38 | removing `\[` and `\]` introduces no character; what is deleted is stated by the three lemmas below |
| Segmenter.RemoveBracketsPlain | src/app/page.jsx:38 | text without a backslash passes through the bracket pass unchanged |
| Segmenter.RemoveBracketsDeletes | src/app/page.jsx:38 | a leading `\[` or `\]` is deleted and the pass goes on after it |
| Segmenter.RemoveBracketsKeeps | src/app/page.jsx:38 | a backslash followed by neither `[` nor `]` is kept |
| Segmenter.RemoveTextCommands | src/app/page.jsx:39 | removing `\text{` introduces no character; what is deleted is stated by the three lemmas below |
| Segmenter.RemoveTextCommandsPlain | src/app/page.jsx:39 | text without a backslash passes through the `\text{` pass unchanged |
| Segmenter.RemoveTextCommandsDeletes | src/app/page.jsx:39 | a leading `\text{` is deleted and the pass goes on after it |
| Segmenter.RemoveTextCommandsKeeps | src/app/page.jsx:39 | a backslash not followed by `text{` is kept |
| Segmenter.RemoveChar | src/app/page.jsx:40-41 | deleting every `}` (or every `$`): a character survives exactly when it was present and is not the deleted one |
| Segmenter.RemoveCharAppend | src/app/page.jsx:40-41 | the deletion acts on each part of a concatenation separately |
| Segmenter.RemoveCharSingle | src/app/page.jsx:40-41 | a single character is deleted when it is the deleted one and kept otherwise |
| Segmenter.RemoveCharAbsent | src/app/page.jsx:40-41 | text without the character is unchanged |
| Segmenter.StripArtifacts | src/app/page.jsx:37-41 | trim, then the four removal passes in source order; specified stage by stage by the lemmas above, and as a whole by `CleanSpec` |
| Segmenter.TidyLines | src/app/page.jsx:42-45 | the line pass; specified by `TidyLinesWellShaped`, `TidyLinesChars`, `KeptLinesTidy`, `KeptLineOrigin` and `TidyOneLine` |
| Segmenter.Clean | src/app/page.jsx:36-45 | the cleaning of one piece; specified by `CleanSpec`, `CleanLines`, `BlankPieceCleansToEmpty`, and the worked `CleanPlain` and `CleanDisplayMath` |
| Segmenter.Segment | src/app/page.jsx:32-46 | the segmenter; specified by `SegmentCount`, `SegmentOfDecomposition`, `SegmentSteps`, `SegmentEmpty`, `SegmentNoMarker` and `SegmentFirst` |
| Segmenter.JoinTidyLines | src/app/page.jsx:45 | joining non-empty trimmed lines gives a well-shaped text that starts and ends with a non-space |
| Segmenter.KeptLineOrigin | src/app/page.jsx:42-44 | each kept line is the non-empty trim of a line of the piece |
| Segmenter.KeptLinesTidy | src/app/page.jsx:42-44 | the kept lines are non-empty, trimmed and free of line feeds |
| Segmenter.TidyLinesChars | src/app/page.jsx:42-45 | the line pass adds no character except the line feed |
| Segmenter.TidyLinesWellShaped | src/app/page.jsx:42-45 | the line pass yields no leading or trailing whitespace, no empty line, and no line with whitespace at its ends |
| Segmenter.CleanSpec | src/app/page.jsx:36-45 | a cleaned piece holds no `$` and no `}`, and is well shaped |
| Segmenter.CleanLines | src/app/page.jsx:42-45 | each line of a non-empty cleaned piece is non-empty and equal to its own trim, and the lines rejoin to the piece |
| Segmenter.TidyOneLine | src/app/page.jsx:42-45 | text without a line feed comes out of the line pass as its trim (a blank line as "") |
| Segmenter.BlankPieceCleansToEmpty | src/app/page.jsx:36-45 | a whitespace-only piece cleans to "", an empty step rather than a dropped one |
| Segmenter.SegmentCount | src/app/page.jsx:32-46 | one step per non-empty piece, at most delimiters + 1 steps, the k-th step being the cleaned k-th non-empty piece |
| Segmenter.SegmentOfDecomposition | src/app/page.jsx:32-46 | any cut of the answer into pieces and delimiters determines the steps |
| Segmenter.SegmentEmpty | src/app/page.jsx:33-34 | an empty answer has no steps |
| Segmenter.SegmentNoMarker | src/app/page.jsx:33-35 | a non-empty answer without a delimiter is exactly one step, its cleaned self |
| Segmenter.SegmentFirst | src/app/page.jsx:32-35 | the text before the first delimiter is a step when non-empty, followed by the steps of the rest |
| Segmenter.SegmentSteps | src/app/page.jsx:36-46 | no step holds `$` or `}`, and every step is well shaped |
| Prompt.DescriptionParts | src/app/page.jsx:93-102 | the description lines, each a label, the field's raw text and its unit; `PromptHasPart` and `PromptEmbedsFields` show each is in the prompt |
| Prompt.Description | src/app/page.jsx:93-102 | the description lines written one after another |
| Prompt.BuildPrompt | src/app/page.jsx:93-131 | the description followed by the fixed instructions; `PromptHasStepHeaders`, `PromptHasPart` and `PromptEmbedsFields` state what every prompt contains |
| Prompt.InstructionsHaveHeaders | src/app/page.jsx:105-126 | the fixed instructions contain the five step headers |
| Prompt.ConcatHasPart | src/app/page.jsx:93-131 | the concatenated template contains each of its parts |
| Prompt.PromptHasStepHeaders | src/app/page.jsx:103-131 | for any field values the prompt ends with the fixed instructions and contains "Step 1: Initial Setup" through "Step 5: Deflection Analysis" |
| Prompt.PromptHasPart | src/app/page.jsx:93-102 | the prompt contains each description line |
| Prompt.PromptEmbedsFields | src/app/page.jsx:93-102 | every field's raw text appears at the start of a line, after its label and before its unit |
| Calculator.BeamCalculator.Valid | src/app/page.jsx:47-48 | while a calculation runs there are no steps; `calculateResults` clears them when it sets the busy flag (lines 89-90), and every method keeps this |
| Calculator.BeamCalculator.constructor | src/app/page.jsx:7-28 | the initial values of all twelve state variables |
| Calculator.BeamCalculator.ResetCalculator | src/app/page.jsx:51-68 | resets the types, the five material fields, the three load lists, the steps and the streamed text; leaves the page, the busy flag and the dialog state unchanged |
| Calculator.BeamCalculator.AddLoad | src/app/page.jsx:69-87 | appends the value to the end of the matching list, leaving the other two unchanged; an unknown type changes no list; the dialog always closes; nothing else changes |
| Calculator.BeamCalculator.OpenLoadDialog | src/app/page.jsx:302-323 | remembers the load type and opens the dialog; nothing else changes |
| Calculator.BeamCalculator.ConfirmLoad | src/app/page.jsx:446-451 | adds the typed magnitude and position under the remembered type, as `AddLoad` does |
| Calculator.BeamCalculator.CancelLoadDialog | src/app/page.jsx:457 | closes the dialog and changes nothing else |
| Calculator.BeamCalculator.SetLoadMagnitude | src/app/page.jsx:431 | sets the typed magnitude only |
| Calculator.BeamCalculator.SetLoadPosition | src/app/page.jsx:440 | sets the typed position only |
| Calculator.BeamCalculator.SetBeamType | src/app/page.jsx:214 | sets the beam type only |
| Calculator.BeamCalculator.SetSupportType | src/app/page.jsx:227 | sets the support type only |
| Calculator.BeamCalculator.SetMaterialProp | src/app/page.jsx:243-291 | changes the edited material field and keeps the others |
| Calculator.BeamCalculator.Navigate | src/app/page.jsx:160-194 | switches the page and nothing else |
| Calculator.BeamCalculator.CalculateResults | src/app/page.jsx:88-131 | sets the busy flag, clears the steps and the streamed text, and returns the template filled from the current form; the result names all five step headers; the form is unchanged |
| Calculator.BeamCalculator.FinishCalculation | src/app/page.jsx:47-48 | stores the segmented answer as the steps and clears the busy flag; no stored step holds `$` or `}` |
| Calculator.BeamCalculator.RunCalculation | src/app/page.jsx:88-142 | `calculateResults` through to `onFinish`: the steps become the segmented answer, the busy flag ends cleared, and the form, loads and dialog are unchanged |
| Calculator.AddPointLoadThroughDialog | src/app/page.jsx:302-452 | opening the point dialog, typing "10" and "2" and pressing Add leaves exactly that load in the point list and closes the dialog |
| Calculator.CalculateThenReset | src/app/page.jsx:51-131 | with any beam type, support type, length and moment load filled in, a calculation followed by "New Calculation" leaves the page unchanged, the busy flag clear, and the types, material fields, loads, steps and streamed text empty |
| Scenarios.BracketPassIsSinglePass | src/app/page.jsx:38 | removing `\[` from `\\[[` leaves `\[`: text joined by a deletion is not scanned again |
| Scenarios.ShortNoMarker | src/app/page.jsx:33 | a string shorter than seven characters holds no delimiter |
| Scenarios.StripAbsent | src/app/page.jsx:38-41 | a pass whose alternatives' first characters are absent changes nothing |
| Scenarios.CleanPlain | src/app/page.jsx:36-45 | a piece that trims to one plain line cleans to that line |
| Scenarios.TrimPadded | src/app/page.jsx:37 | a plain character with a leading space and trailing whitespace trims to itself |
| Scenarios.TwoStepsCut | src/app/page.jsx:33 | "Step 1: x\nStep 2: y" cuts into "", " x\n", " y" around the two delimiters |
| Scenarios.CleanPadded | src/app/page.jsx:36-45 | " x" and " x\n" clean to "x" |
| Scenarios.TwoStepsPieces | src/app/page.jsx:32-35 | the steps of the two-step answer are the cleaned non-empty pieces |
| Scenarios.DropLeadingEmpty | src/app/page.jsx:34 | the empty piece before the first delimiter is dropped |
| Scenarios.MapPair | src/app/page.jsx:35 | `map` over two elements |
| Scenarios.TwoSteps | src/app/page.jsx:32-46 | "Step 1: x\nStep 2: y" gives exactly the steps "x" and "y", for any plain characters x and y |
| Scenarios.DisplayTrim | src/app/page.jsx:37 | a display-math line has nothing to trim |
| Scenarios.DisplayBrackets | src/app/page.jsx:38 | the bracket pass deletes the opening `\[` and closing `\]` of a display-math line and keeps the `\text{` |
| Scenarios.DisplayTextCommand | src/app/page.jsx:39 | the `\text{` pass then deletes the command |
| Scenarios.DisplayBraces | src/app/page.jsx:40 | the brace pass deletes its closing brace |
| Scenarios.DisplayTidy | src/app/page.jsx:42-45 | the line pass trims off the remaining blanks |
| Scenarios.CleanDisplayMath | src/app/page.jsx:36-45 | `\[ \text{w} v \]` cleans to `w v` for any texts w and v free of backslashes, braces, dollars and line feeds, w starting and v ending with a non-space |
| Scenarios.HeadersAreDelimiters | src/app/page.jsx:106-126 | each step header in the prompt starts with a delimiter the segmenter splits on |

## Left out

- The HTTP request to the chat endpoint (src/app/page.jsx:133-142) is network I/O. `CalculateResults` returns the prompt it would post.
- The streaming helper `useHandleStreamResponse` and `onChunk` (src/app/page.jsx:4, 29-30) belong to a helper that is not part of this model. `FinishCalculation` takes the finished answer as an arbitrary string, and the live `streamingMessage` updates are not modelled.
- Calculator.BeamCalculator.RunCalculation: does not state what `streamingMessage` holds once the stream ends, because `onChunk` is called by the streaming helper, which is not part of this model.
- `JSON.stringify` of the load lists (src/app/page.jsx:100-102) is a foreign call. It is a function parameter `stringify`, and only the fixed parts of the prompt are reasoned about.
- Text.Trim: JavaScript's `trim` removes ECMAScript's WhiteSpace and LineTerminator characters, which include no-break space, the Unicode space separators and the line and paragraph separators. The model removes only space, tab, line feed, carriage return, form feed and vertical tab.
- All JSX rendering, CSS, images and markup (src/app/page.jsx:145-467) are UI. That includes the `index + 1` step labels, the spinner, and the capitalised dialog title.
- The handlers call React setters that commit together on the next render. The model applies them as immediate assignments in source order, which gives the same final state. Re-render timing is not modelled.
- The calculation has no error or cancellation handling. A failed request would leave `isCalculating` set, and the model has no such path.
- The "Calculate" and "New Calculation" buttons are disabled while a calculation runs (src/app/page.jsx:366, 373). This is a UI guard, so the methods do not require `!isCalculating`.
- `momentOfInertia` is part of the material record but no input edits it (`MaterialField` has no case for it). It is reset by "New Calculation" and is not sent in the prompt.
