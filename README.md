# Markdown line transducers, in Dafny

This project models the two Markdown converters of the repository. Each one reads a
Markdown file line by line and writes another format. Both use a fixed pipeline of
line-rewrite rules and a few module-level variables that carry state from one line to
the next.

- `main.js` converts Markdown to HTML. Its state is three variables:
  - whether a code block is open;
  - the language of the last tagged fence, or `block`;
  - whether a `<ul>` list is open.

  The output is a fixed preamble, one fragment per written line, and the closing
  `</body>`, a newline and `</html>` once the input is read (main.js:179).
- `markdowntotext/main.js` converts Markdown to plain text. Its state is five
  variables:
  - the numbered-list counter and the bullet counter, both -1 at the start. A line
    that ends a run resets a counter to -1 only when it is positive
    (markdowntotext/main.js:170, 203), so a numbered run that starts at 0 leaves the
    numbered counter at 0;
  - a pending blank line;
  - the indentation depth used inside code blocks;
  - whether a code block is open.

  The output is one fragment per written line and a final newline once the input is
  read.

Layout:

- `JsString.dfy` holds the JavaScript string primitives the converters call: `trim`,
  `substring`, `charAt`, `indexOf`, `includes`, string `replace`, global-regex counts
  and deletions, `split`, `repeat`, `parseInt`, and number-to-string. Each is specialised
  to the way the converters use it.
- `Markdown.dfy` holds the line tests both converters share: the fence test, the
  horizontal-rule test and the bullet marker.
- `Html.dfy` and `Text.dfy` each model one converter in two layers:
  - The rules are pure functions over a state datatype (`ParserState`, `TextState`). A
    whole input is a fold over the lines (`Transduce`), and `Document` is the output
    file.
  - A class (`HtmlConverter`, `TextConverter`) holds the same state in fields, as the
    module variables do. Its methods mirror the JavaScript functions one by one, and
    each is proved to agree with its rule function. The loop in `Run` is proved against
    `Transduce`.
  - The lemmas state what the converters do to documents: fence parity, list grouping,
    header rendering, numbering of runs, indentation, and where the text converter
    throws.

The text converter reads `parts[1]` of a line split on `.`. On a line made only of
digits, outside a code block (markdowntotext/main.js:181-186), that part does not exist, so the call throws a `TypeError` and ends the
process. The model makes this an explicit outcome: `Outcome.TypeError` for one rule,
`StepOutcome.Crashed` for one line and `RunOutcome.Aborted` for a run. Whatever was
written before the crash is kept.

Some behaviours of the code are easy to misread, and the model states them as the code
has them:

- The text horizontal rule is a bar of 90 underscores (markdowntotext/main.js:149-155).
- The HTML list is closed only by an empty line (main.js:149-157). A list still open at
  the end of input is never closed: the `pause` handler writes only the closing
  `</body>` and `</html>` (main.js:179).
- `# Title` becomes `<h1>Title</h1>`: the header text starts after the hashes and the
  one space that follows them (main.js:58).
- The HTML header level is the last position among 1 to 6 that holds a `#`. It is not
  the length of the leading run of `#` (main.js:43-52).
- The text converter counts every `#` in the line, not only the leading ones
  (markdowntotext/main.js:29-32, 138).
- Inside a code block at indentation depth 0 or below, the text converter still turns
  a line that is exactly `---`, `___` or `***` into the bar
  (markdowntotext/main.js:149-155, 212-219). At a positive depth the line is first
  prefixed with tabs (markdowntotext/main.js:102-105), so it is no longer a rule and
  is written as, say, a tab and `---`.

## Model

| member | source | states |
|---|---|---|
| JsString.Trim | markdowntotext/main.js:36 | the result starts and ends with a non-blank character and holds only characters of the input |
| JsString.TrimStartSlice | main.js:45 | trimming the front drops exactly a leading run of ECMAScript white space |
| JsString.TrimIdempotent | markdowntotext/main.js:138-140 | trimming an already trimmed line changes nothing |
| JsString.IndexOfFrom | main.js:72-73 | the result is the first position at or after `from` where the pattern occurs, or none when it never occurs there |
| JsString.ReplaceFirstAt | main.js:72-73 | string `replace` splices the replacement in at the first occurrence and keeps everything else |
| JsString.ReplaceFirstAbsent | markdowntotext/main.js:90-92 | `replace` of a pattern that does not occur leaves the line unchanged |
| JsString.CountChar | markdowntotext/main.js:29-32 | the `#` count is at most the length and is zero exactly when there is no `#` |
| JsString.CountCharConcat | markdowntotext/main.js:29-32 | the counts of two concatenated pieces add up |
| JsString.RepeatCount | markdowntotext/main.js:103 | `repeat(n)` of one character, as in `"\t".repeat(shouldTab)`, holds that character exactly `n` times, at every position |
| JsString.RemoveAll | markdowntotext/main.js:128 | the global backtick deletion leaves no backtick, adds no character and shortens the line by the number of backticks |
| JsString.RemoveAllConcat | markdowntotext/main.js:128 | deleting backticks from a concatenation deletes them from each piece, so the order and the other characters are kept |
| JsString.RemoveAllOne | markdowntotext/main.js:128 | one character is deleted exactly when it is a backtick and kept otherwise |
| JsString.ReplaceFirst | main.js:72-73 | a pattern that does not occur leaves the line unchanged; otherwise the length changes by the replacement's length minus the pattern's (where the splice happens is stated by `ReplaceFirstAt`) |
| JsString.CountOccurrences | main.js:80-83 | the global match count is zero exactly when the pattern does not occur, and is at most the length of the line |
| JsString.RunMatchesFrom | main.js:80-83 | in a run of `k` equal characters the global match of three of them finds `(k - from) / 3` matches, each resuming after the last |
| JsString.DigitsValue | markdowntotext/main.js:193 | `parseInt` of `k` digits is below `10^k` |
| JsString.RemoveAllAbsent | markdowntotext/main.js:128 | deleting a character that does not occur changes nothing |
| JsString.NatToStringRoundTrip | markdowntotext/main.js:193-199 | `parseInt` reads back the number the converter wrote into an item |
| JsString.DigitChar | main.js:59 | each digit value has a digit character that encodes it |
| JsString.NatToString | main.js:59 | the decimal text of a number is all digits, is `0` for zero and has no leading zero otherwise |
| JsString.Split | markdowntotext/main.js:186 | `split(".")` yields at least one piece and no piece contains the separator |
| JsString.SplitJoin | markdowntotext/main.js:186 | joining the pieces with the separator gives back the line |
| JsString.JoinSplit | markdowntotext/main.js:186 | splitting the join of separator-free pieces gives back the pieces |
| JsString.SplitHasSecond | markdowntotext/main.js:189 | `parts[1]` exists exactly when the line contains a `.` |
| JsString.SplitWithoutSep | markdowntotext/main.js:186 | a line without `.` splits into itself alone |
| JsString.SplitFirstIsPrefix | markdowntotext/main.js:188 | the first piece is the text before the first `.` |
| JsString.TrimFirstChar | markdowntotext/main.js:35-38 | the trimmed line starts with the first non-blank character |
| JsString.TrimIsPrefix | markdowntotext/main.js:36 | a line with no leading blank only loses a tail when trimmed |
| JsString.TrimOfTrimmed | markdowntotext/main.js:138 | a line that starts and ends with non-blank characters is its own trim |
| JsString.CountOfAbsent | main.js:80-83 | a line without backticks holds no three-backtick match |
| Markdown.IsLimitCodeBlock | main.js:80-83 | a fence line contains three backticks |
| Markdown.FenceRun | main.js:80-83 | a run of `k` backticks is a fence exactly when `k` is 3, 4 or 5: six backticks give two matches |
| Markdown.IsHorizontalRule | main.js:120-125 | true exactly on a three-character line of one of `-`, `_`, `*` |
| Markdown.StartsWithBulletMarker | main.js:131 | true exactly when the line has at least two characters, the first is `*`, `-` or `+` and the second a space |
| Markdown.ParityStep | main.js:115 | one more flip adds one to the count whose parity decides the flag |
| Markdown.NoBacktickNoFence | main.js:80-83 | a line without backticks is never a fence |
| Markdown.FenceWithTag | markdowntotext/main.js:56-59 | three backticks followed by a backtick-free tag is a fence |
| Html.LastHashUpTo | main.js:46-50 | the loop's result is the last position up to the bound that holds a `#`, and no later position does |
| Html.HeaderLevel | main.js:43-52 | the level is at most 6, its position holds `#` in the trimmed line, and no later position up to 6 does |
| Html.GetHeaderType | main.js:43-52 | the `for` loop over positions 1 to 6 computes the header level |
| Html.LastHashIs | main.js:46-50 | the last `#` up to the bound determines the loop's result |
| Html.HeaderLevelCountsPositions | main.js:43-52 | `a#` has level 2: the level is positional, not a count of leading hashes |
| Html.HeaderLevelCountsLaterHash | main.js:43-52 | `# a#` has level 4: a later `#` within six characters raises the level |
| Html.HeaderLevelCapped | main.js:46 | eight hashes give level 6 |
| Html.HeaderLevelWithoutHash | main.js:43-52 | a line without `#` has level 0 |
| Html.HeaderRule | main.js:55-62 | outside a code block a line of level `n > 0` loses its first `n + 1` characters and is wrapped in `<hn>` and `</hn>`; any other line passes |
| Html.HeaderRendering | main.js:55-62 | outside a code block, `n` hashes (1 to 6), a space and a hash-free text become `<hn>text</hn>` |
| Html.HeaderLineWritten | main.js:55-62 | such a header line outside blocks and lists is written as a `<div>` around the header, and the state is unchanged |
| Html.LeadingTicks | main.js:68 | the backtick run at the front is maximal |
| Html.TickRuns | main.js:68 | the global match of backtick runs finds non-empty runs, and none at all exactly when the line has no backtick |
| Html.TickRunsOf | main.js:68 | the runs are maximal: a run of exactly `k` backticks after backtick-free text is matched as one run of `k` |
| Html.TickRunsCount | main.js:68 | the run lengths add up to the number of backticks in the line |
| Html.LeadingTicksCount | main.js:68 | the backticks of a line are those of its leading run and those after it |
| Html.LeadingTicksOfRun | main.js:68 | a run of `k` backticks not followed by another is a leading run of length `k` |
| Html.DistinctDescending | main.js:69-70 | sorting by length and removing duplicates gives the distinct run lengths in strictly decreasing order, and no others |
| Html.DescendingFrom | main.js:69-70 | the lengths up to a bound, distinct and in strictly decreasing order |
| Html.MaxOf | main.js:69 | the maximum bounds every run length |
| Html.Highlighted | main.js:66-77 | fence lines and lines without backticks pass unchanged |
| Html.CodeHighlightToHtml | main.js:66-77 | the `forEach` loop over the distinct runs computes the highlighted line |
| Html.TickRunsSkipsPlain | main.js:68 | backtick-free text before a run does not change the runs found |
| Html.SingleTickRun | main.js:68 | a lone backtick is a run of length 1 |
| Html.DistinctOfOnes | main.js:70 | two runs of length 1 reduce to one entry |
| Html.SpanIsNotFence | main.js:67 | a line with one inline span is not a fence |
| Html.SpanRuns | main.js:68 | a line with one inline span has exactly two runs of length 1 |
| Html.SpanMarked | main.js:72-73 | the two replacements turn the first backtick into `<code>` and the next into `</code>` |
| Html.InlineCodeSpan | main.js:66-77 | `` a`b`c `` becomes `a<code>b</code>c` |
| Html.UnpairedTick | main.js:66-77 | an unpaired backtick opens a span that nothing closes: `` a`b `` becomes `a<code>b` |
| Html.OneOnly | main.js:69-70 | a single run of length 1 stays one entry |
| Html.ReplaceFirstChar | main.js:72-73 | replacing a single character splices at its first occurrence |
| Html.BlockType | main.js:106-117 | the block type is the text after the first three characters when there is any, and otherwise `end` in an open block and `none` outside one |
| Html.FenceRule | main.js:86-103 | the block flips exactly on a fence, the list flag is kept, and a non-fence line and the state pass unchanged |
| Html.BareFenceCloses | main.js:93-95 | a bare fence in an open block writes the closing tags and resets the language to `block` |
| Html.BareFenceOpens | main.js:96-100 | a bare fence outside a block opens one in the remembered language, or as a plain `<pre>` after a reset |
| Html.TaggedFenceOpens | main.js:89-100 | a tagged fence always writes an opening tag in its language and records it, even when it closes the block |
| Html.ReplaceWholeFence | main.js:94 | replacing the fence in a bare fence line gives the replacement |
| Html.HorizontalRuleToHtml | main.js:120-125 | exactly `---`, `___` and `***` become `<hr>`, and every other line passes |
| Html.ListRule | main.js:128-143 | a bullet line loses its marker and becomes `<li>…</li>`, after `<ul>` when no list is open, and the list is then open; other lines and the state pass |
| Html.PipelineRule | main.js:146 | the block flips exactly on a line that is a fence after highlighting, and an open list stays open |
| Html.NoBacktickPipeline | main.js:146 | without backticks the pipeline is headers, rule, then list |
| Html.ParseRule | main.js:149-157 | an empty line becomes `</ul>` and closes the list when one is open, and is left alone otherwise; a non-empty line never closes a list |
| Html.WriteRule | main.js:160-168 | an empty line writes nothing; any other line is written in a `<div>` outside blocks and lists and after a space inside them |
| Html.Transition | main.js:171-176 | one line flips the block exactly when it is a non-empty fence after highlighting, and writes at most one fragment |
| Html.Transduce | main.js:174-176 | a run writes at most one fragment per line |
| Html.Document | main.js:14-20 | the output starts with the preamble and ends with the epilogue |
| Html.TransduceCons | main.js:174-176 | a run is the first line followed by the run of the rest |
| Html.TransduceStep | main.js:174-176 | one step of the run keeps the final state and the total output |
| Html.FenceParity | main.js:115 | after any input, the block is open exactly when it started open xor the number of fence lines is odd |
| Html.ListClosedOnlyByEmptyLine | main.js:149-157 | an open list stays open on every non-empty line; an empty line closes it and writes `</ul>` (in a `<div>` outside a block) |
| Html.EmptyLineWithoutList | main.js:150-156 | an empty line with no list open writes nothing and changes nothing |
| Html.PlainBulletStep | main.js:128-143 | a plain bullet line opens or continues the list and writes one item fragment |
| Html.ListFragmentsCons | main.js:133-137 | a first item followed by continuation items is a list run |
| Html.BulletRun | main.js:128-143 | a run of bullet lines writes one fragment per line, and only the first opens `<ul>`, when no list was open; afterwards the list is open |
| Html.TaggedLineWritten | main.js:160-163 | a rendered tag line outside blocks and lists is written inside a `<div>` |
| Html.HeaderLineTicks | main.js:67 | a header line built from a backtick-free text has no backtick |
| Html.HeaderLineShape | main.js:58 | the header text starts right after the hashes and the space |
| Html.TrimKeeps | main.js:45 | trimming a line that starts with a non-blank character keeps its front |
| Html.HashesAreHashes | main.js:47 | every position of `n` hashes holds `#` |
| Html.HtmlConverter.constructor | main.js:28-34 | start-up state: no block, type `block`, no list, and only the preamble written |
| Html.HtmlConverter.CodeBlockType | main.js:106-117 | returns the block type and flips the open-block flag |
| Html.HtmlConverter.LimitCodeBlockToHtml | main.js:86-103 | updates the state and returns the line as the fence rule says |
| Html.HtmlConverter.HToHtml | main.js:55-62 | returns the header rendering of the line |
| Html.HtmlConverter.UnorderedListToHtml | main.js:128-143 | the loop over the three markers, which stops at the first that matches, updates the list flag and returns the line as the list rule says |
| Html.HtmlConverter.ParserPipeline | main.js:146 | the five stages in order agree with the pipeline rule |
| Html.HtmlConverter.ParseLine | main.js:149-157 | agrees with the parse rule |
| Html.HtmlConverter.WriteLine | main.js:160-168 | appends exactly the written fragments to the output |
| Html.HtmlConverter.Step | main.js:171-176 | one input line moves the state and appends the output as the transition says |
| Html.HtmlConverter.Run | main.js:174-179 | the line loop and the epilogue leave the state and output that the fold over the lines gives |
| Html.Convert | main.js:1-179 | the whole program writes the document of its input lines |
| Text.StartsWithDigit | markdowntotext/main.js:35-41 | true exactly when the trimmed line's first character is an ASCII digit |
| Text.StartsWithBullet | markdowntotext/main.js:44-53 | true exactly when the trimmed line starts with `*`, `-` or `+` and a space |
| Text.HasBlockStarter | markdowntotext/main.js:62-71 | a starter line has at least two characters once trimmed |
| Text.HasBlockEnder | markdowntotext/main.js:74-83 | an ender line has at least three characters once trimmed |
| Text.StarterPositions | markdowntotext/main.js:62-71 | a keyword counts only inside the first five characters: `def`/`for` at 0 to 2, `if` at 0 to 3, `class` only at 0 |
| Text.EnderPositions | markdowntotext/main.js:74-83 | `end` counts only when it starts at one of the positions 0 to 3 of the trimmed line |
| Text.ContainsInPrefix | markdowntotext/main.js:66 | `includes` on `substring(0, n)` finds exactly the occurrences that end within `n` |
| Text.DigitLineHasNonTerminator | markdowntotext/main.js:183 | the `/./g` test never decides anything on a line that starts with a digit |
| Text.CodeHighlightToText | markdowntotext/main.js:125-132 | fence lines pass; other lines are trimmed and lose every backtick and nothing else, keeping the order of the rest, so they can no longer be fences |
| Text.TextBlockType | markdowntotext/main.js:115-122 | the type is the text after the first three characters when there is any, and `none` for a bare fence, whether it opens or closes |
| Text.Indented | markdowntotext/main.js:96-108 | an `end` line lowers the depth before it is written; the line gets the tabs of that depth; a keyword line raises the depth after |
| Text.CodeLineRule | markdowntotext/main.js:86-112 | the block flips exactly on a fence; only the depth and the block flag change; outside a block a non-fence line passes |
| Text.HeadersRule | markdowntotext/main.js:135-146 | inside a block the line passes; outside, a line without `#` is only trimmed |
| Text.HorizontalRuleToText | markdowntotext/main.js:149-155 | exactly `---`, `___` and `***` become a 90-underscore bar, and every other line passes |
| Text.UnorderedRule | markdowntotext/main.js:158-176 | outside a block a bullet line becomes tab, `•`, space and the text from index 2, after a blank line when it starts a run, and the counter counts it; any other line passes and ends a run under way with a pending blank line |
| Text.OrderedItem | markdowntotext/main.js:191-197 | a run is numbered from the first item's own number, then one more each time |
| Text.OrderedRule | markdowntotext/main.js:179-209 | when it does not throw, only the numbering counter and the pending blank line change |
| Text.ParseRule | markdowntotext/main.js:222-227 | an empty line changes nothing and stays empty; parsing flips the block exactly on a non-empty fence and keeps a pending blank line |
| Text.WriteRule | markdowntotext/main.js:230-238 | an empty line writes nothing; any other line is written with a newline, after an extra newline when one is pending, which is then cleared |
| Text.Document | markdowntotext/main.js:244-249 | the input completes exactly when no line throws, and then the output ends with the final newline |
| Text.PipelineRule | markdowntotext/main.js:212-219 | when it does not throw, the pipeline flips the block exactly on a fence and never withdraws a pending blank line |
| Text.ListRulesKeep | markdowntotext/main.js:158-209 | the list rules keep the block and the depth and only ever set the pending blank line |
| Text.TransitionFacts | markdowntotext/main.js:241-246 | one line flips the block exactly on a non-empty fence; a line that writes nothing keeps a pending blank line; a line that writes something writes one fragment and clears it |
| Text.WriteKeeps | markdowntotext/main.js:230-238 | writing keeps the block flag, and either writes one fragment and clears the pending blank line or writes nothing |
| Text.Transition | markdowntotext/main.js:241-246 | an empty input line writes nothing and changes nothing; a line that does not throw writes at most one fragment |
| Text.Transduce | markdowntotext/main.js:244-246 | a run writes at most one fragment per line |
| Text.TransduceCons | markdowntotext/main.js:244-246 | a run is the first line followed by the run of the rest |
| Text.FenceParity | markdowntotext/main.js:120 | after an input read to the end, the block is open exactly when it started open xor the number of fence lines is odd |
| Text.ListRulesValid | markdowntotext/main.js:158-209 | the list rules keep the bullet counter at -1 or positive and the numbering counter at -1 or more |
| Text.OrderedValid | markdowntotext/main.js:179-209 | the numbering rule keeps the counters in range |
| Text.ValidStatePreserved | markdowntotext/main.js:241-246 | every line that does not throw keeps the counters in range |
| Text.OrderedThrowsExactly | markdowntotext/main.js:181-190 | the numbering rule throws exactly on an all-digit line outside a block |
| Text.DigitLineKeepsRun | markdowntotext/main.js:181-201 | a digit line that is not an item passes and neither renders nor ends the run |
| Text.ZeroRunNotEnded | markdowntotext/main.js:203-206 | a run numbered from 0 is not ended by a plain line |
| Text.PlainLineEndsRun | markdowntotext/main.js:202-206 | a plain line ends a run with a positive counter and sets the pending blank line |
| Text.PlainPipeline | markdowntotext/main.js:212-219 | a trimmed line without backticks, `#` or a rule reaches the list rules unchanged outside a block |
| Text.DigitsOnlyLineCrashes | markdowntotext/main.js:186-189 | a line of digits only, outside a block, throws |
| Text.DigitsOnlyShape | markdowntotext/main.js:125-155 | a digit line has no backtick, no `#`, no blank at either end and is not a rule |
| Text.DigitsTrimmed | markdowntotext/main.js:127 | a digit line is its own trim |
| Text.DigitsThrow | markdowntotext/main.js:186-189 | after the bullet rule, a digit line throws in the numbering rule |
| Text.TagAfterFence | markdowntotext/main.js:90 | the first occurrence of a backtick-free tag in a fence line is right after the backticks |
| Text.FenceStripped | markdowntotext/main.js:87-92 | a fence with a tag other than `none`, or with no tag, flips the block and leaves an empty line |
| Text.EmptyThroughListRules | markdowntotext/main.js:135-209 | an empty intermediate line stays empty through the remaining rules |
| Text.FenceLineVanishes | markdowntotext/main.js:86-92 | such a fence line writes nothing and flips the block |
| Text.NoneTagWritten | markdowntotext/main.js:88-92 | a fence tagged `none` keeps its tag and is written as `none`, because `none` is also the bare-fence type |
| Text.NoneParsed | markdowntotext/main.js:88-92 | parsing a fence tagged `none` yields the line `none` and flips the block |
| Text.NoneStripped | markdowntotext/main.js:88-92 | the code-line rule strips only the backticks from a fence tagged `none` |
| Text.NoneThroughRest | markdowntotext/main.js:135-209 | `none` passes the header, rule and list rules unchanged outside a run |
| Text.HeaderToText | markdowntotext/main.js:135-146 | outside a block, `n` hashes, a space and a clean hash-free title become the title and a newline: the level is dropped |
| Text.HashesCutFront | markdowntotext/main.js:135-146 | outside a block, a line with some `#` loses one leading character of its trimmed text for every `#` anywhere in the line; the rest is trimmed and gets a newline |
| Text.OneHashAnywhere | markdowntotext/main.js:138-143 | a trimmed line with a single `#`, at any position, loses only its first character |
| Text.CountTrimmed | markdowntotext/main.js:138-139 | trimming keeps the count of every character that is not white space, so counting before or after the trim agrees |
| Text.HeaderTextShape | markdowntotext/main.js:138-140 | cutting `n` characters from `n` hashes, a space and a title and trimming leaves the title |
| Text.HeaderCount | markdowntotext/main.js:29-32 | a header line built from `n` hashes and a hash-free title has exactly `n` hashes |
| Text.HeaderCountsEveryHash | markdowntotext/main.js:135-146 | `a#b` becomes `#b` and a newline: every `#` counts, wherever it is |
| Text.CountCharAbsent | markdowntotext/main.js:30 | a character that does not occur is counted zero times |
| Text.Tabs | markdowntotext/main.js:102-105 | the prefix is made of tabs only, as many as the depth when that is positive, and none otherwise |
| Text.DefLine | markdowntotext/main.js:62-83 | `def f():` is a block starter and not an ender |
| Text.EndLine | markdowntotext/main.js:62-83 | `end` is an ender and not a starter |
| Text.ReturnLine | markdowntotext/main.js:62-83 | `return x` is neither |
| Text.DashesLine | markdowntotext/main.js:62-83 | `---` is neither |
| Text.DefDeepens | markdowntotext/main.js:96-108 | inside a block, `def` is written at the current depth and deepens the lines after it |
| Text.EndDedents | markdowntotext/main.js:96-108 | `end` is written one level up and stays there, and the depth may go below zero |
| Text.PlainKeepsDepth | markdowntotext/main.js:96-108 | any other line is written at the current depth and keeps it |
| Text.InBlockLine | markdowntotext/main.js:93-109 | inside a block a non-fence line is trimmed, loses its backticks and is re-indented; the headers and list rules leave it alone, but the rule test still applies |
| Text.RuleInsideBlock | markdowntotext/main.js:149-155 | `---` inside a block at depth zero or below still becomes the bar |
| Text.RuleIndentedInBlock | markdowntotext/main.js:102-105 | `---` inside a block at a positive depth is written with its tabs and does not become the bar |
| Text.IndentedNotRule | markdowntotext/main.js:149-155 | a tab-indented `---` is not a rule and is not the bar |
| Text.NoEnderIn | markdowntotext/main.js:74-83 | neither `def f():` nor `return x` is an ender |
| Text.BulletNotDigit | markdowntotext/main.js:181-182 | a rendered bullet does not start with a digit, so the numbering rule does not re-read it |
| Text.PlainBulletStep | markdowntotext/main.js:158-168 | a plain bullet line outside a block writes one bullet fragment and counts it |
| Text.BulletFragmentsCons | markdowntotext/main.js:160-167 | a first bullet followed by continuation bullets is a bullet run |
| Text.BulletRun | markdowntotext/main.js:158-176 | outside a block, a run of bullets is written as one tab-indented `•` line each, with one blank line before it when no run was under way, and the counter counts every bullet |
| Text.ItemLineOrdered | markdowntotext/main.js:179-200 | any item line outside a block is written as its run number, `. ` and the trimmed part between the first and the second `.`; later parts are dropped |
| Text.LaterPartsDropped | markdowntotext/main.js:186-198 | `1. a. b` starts a run at 1 and is written as a tab and `1. a` |
| Text.NumberedShape | markdowntotext/main.js:181-185 | a numbered item line passes the earlier rules unchanged and starts with a digit |
| Text.NumberedSplit | markdowntotext/main.js:186 | an item line splits into its digits and the text after the `.` |
| Text.NumberedOrdered | markdowntotext/main.js:186-200 | an item is written as a tab, its run number, `. ` and its text, after a blank line when it starts a run |
| Text.NumberedParsed | markdowntotext/main.js:179-200 | outside a block, an item line is parsed into its numbered rendering and moves the counter to its number |
| Text.NumberedStep | markdowntotext/main.js:179-200 | one item line outside a block writes one numbered fragment and moves the counter to its number |
| Text.NumberFragments | markdowntotext/main.js:199 | a run of `k` items yields `k` fragments |
| Text.NumberFragmentAt | markdowntotext/main.js:191-199 | item `i` of a run carries number `base + i`, and only the first may follow a blank line |
| Text.NumberedRun | markdowntotext/main.js:179-209 | a run of numbered items is renumbered one by one from the first item's own number (or on from the number before), whatever numbers the later items carry, and the counter ends at the last number |
| Text.RunCons | markdowntotext/main.js:244-246 | a finishing run is the first line's output followed by the rest's |
| Text.Prepend | markdowntotext/main.js:236 | output written earlier does not change whether the run finishes |
| Text.RunStep | markdowntotext/main.js:244-246 | one more line of a run, seen from the output written so far |
| Text.TextConverter.constructor | markdowntotext/main.js:12-20 | start-up state: both counters -1, no pending blank line, depth 0, no block, nothing written |
| Text.TextConverter.CodeBlockType | markdowntotext/main.js:115-122 | returns the block type and flips the block flag |
| Text.TextConverter.CodeLineToText | markdowntotext/main.js:86-112 | updates the block flag and the depth and returns the line as the code-line rule says |
| Text.TextConverter.IndentBlockLine | markdowntotext/main.js:96-108 | moves the depth and adds the tab prefix as the indentation rule says |
| Text.TextConverter.HeadersToText | markdowntotext/main.js:135-146 | returns the header rendering of the line |
| Text.TextConverter.UnorderedListToText | markdowntotext/main.js:158-176 | agrees with the bullet rule |
| Text.TextConverter.OrderedListToText | markdowntotext/main.js:179-209 | agrees with the numbering rule, and reports the `TypeError` with the state untouched |
| Text.TextConverter.ParserPipeline | markdowntotext/main.js:212-219 | the six stages in order agree with the pipeline, and a throw is reported |
| Text.TextConverter.ParseLine | markdowntotext/main.js:222-227 | agrees with the parse rule |
| Text.TextConverter.WriteLine | markdowntotext/main.js:230-238 | clears the pending blank line and appends exactly the written fragments |
| Text.TextConverter.Step | markdowntotext/main.js:241-246 | one input line moves the state and appends the output as the transition says; a throwing line writes nothing |
| Text.TextConverter.Run | markdowntotext/main.js:244-249 | the line loop leaves the state and output that the fold gives, plus the final newline; on a throw it stops with what the earlier lines wrote |
| Text.Convert | markdowntotext/main.js:1-249 | the whole program writes the document of its input lines and reports whether it finished |

## Left out

- File I/O is not modelled: reading `input.MD`/`input.md`, removing and creating the
  output file, and the write streams. The input is a sequence of lines without their
  terminators, and the output is the sequence of strings passed to `write`.
- The `readline` event loop is a plain loop over the lines. The `pause` event is
  taken to fire once, after the last line.
- `compose` and `pipe` are inlined as function composition. The stage order is kept.
- `$` patterns in `String.prototype.replace` replacement strings are not modelled.
  Only a fence language tag can reach a replacement string, and it is inserted
  literally here.
- `parseInt` is exact on all-digit strings. Losing precision on numbers beyond 2^53 is
  not modelled, and neither is exponent formatting of huge numbers when written back.
- `parts` in `orderedListToText` is an implicit global. The model treats it as local,
  since nothing else reads it.
- What Node prints and flushes when the uncaught `TypeError` ends the process is not
  modelled. The model keeps the output written before the throwing line.
- Text.TextConverter.ParserPipeline: the state left behind when `orderedListToText`
  throws is not stated. The earlier stages have already run, and the run stops there.
- Text.TextConverter.ParseLine: the state after a throw is not stated, for the same
  reason.
- Text.TextConverter.Step: the state after a throw is not stated. Only that nothing is
  written is stated.
- Text.TextConverter.Run: the state after a throw is not stated. Only the output is
  stated.
- Text.OrderedRule: its own contract only bounds which fields change. The item
  rendering, the throw and the run reset are stated by `NumberedOrdered`,
  `OrderedThrowsExactly`, `DigitLineKeepsRun` and `PlainLineEndsRun`.
- Strings are sequences of Unicode scalar values (a Dafny `char`), while JavaScript
  strings are sequences of UTF-16 code units. The two agree on text inside the Basic
  Multilingual Plane. A character outside it, such as an emoji, is two code units in
  JavaScript and one `char` here, so every position after it is shifted by one. On such
  lines the model can differ from the code:
  - `getHeaderType` on `😀#` gives level 3 in JavaScript and 2 here;
  - `substring(n + 1)` in `hToHtml`, `substring(0, 5)` and `substring(0, 6)` in the
    keyword tests, and `substring(2)` in the bullet rule cut at a different place.
  The `•` in the bullet is U+2022, one unit in both. Output encoding is not modelled.
- Html.TickRuns: its own contract does not state that the runs are maximal. That is
  stated by `TickRunsOf` and `TickRunsCount`.
