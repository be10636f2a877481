/** The Markdown-to-text converter (markdowntotext/main.js): a line-at-a-time transducer
    that strips inline-code backticks, drops fences and indents code inside blocks by a
    keyword heuristic, reduces headers to their text, turns horizontal rules into a bar
    of underscores and renders bullet and numbered items as tab-indented lines. Its
    state is the two list counters (-1 outside a run), a pending blank line, the
    indentation depth and the open code block.

    The rules are stated as functions over `TextState`; the class `TextConverter` holds
    the same state in fields, as the module variables of the source do, and each of its
    methods is proved to agree with its function. Reading a second `.`-separated part
    that does not exist throws a `TypeError` in the source; here that is the explicit
    outcome `TypeError`, and a run stops at it. */
module Text {
  import opened JsString
  import opened Markdown

  datatype TextState = TextState(
    currentOrderedValue: int,
    currentUnorderedValue: int,
    shouldLineBreak: bool,
    shouldTab: int,
    openCodeBlock: bool)

  const Initial: TextState := TextState(-1, -1, false, 0, false)

  /** What a rule that may throw produces. */
  datatype Outcome = Produced(state: TextState, line: string) | TypeError

  /** The counters the rules keep: the bullet counter is -1 or a positive count, the
      numbering counter is -1 or the last number written. */
  predicate ValidState(st: TextState) {
    (st.currentUnorderedValue == -1 || st.currentUnorderedValue >= 1)
    && st.currentOrderedValue >= -1
  }

  // ----- Line predicates -----

  /** `startsWithDigit`: the trimmed line's first character is an ASCII digit. */
  predicate StartsWithDigit(line: string)
    ensures StartsWithDigit(line) <==> Trim(line) != [] && IsDigit(Trim(line)[0])
  {
    AllDigits(Prefix(Trim(line), 1))
  }

  /** `startsWithBullet`: the trimmed line starts with `*`, `-` or `+` and a space. */
  predicate StartsWithBullet(line: string)
    ensures StartsWithBullet(line) <==>
      |Trim(line)| >= 2 && Trim(line)[0] in "*-+" && Trim(line)[1] == ' '
  {
    StartsWithBulletMarker(Trim(line))
  }

  /** `hasBlockStarter`: one of the keywords occurs inside the first five characters of
      the trimmed line. */
  predicate HasBlockStarter(line: string): (b: bool)
    ensures b ==> |Trim(line)| >= 2
  {
    var head := Prefix(Trim(line), 5);
    Contains(head, "def") || Contains(head, "class") || Contains(head, "if") || Contains(head, "for")
  }

  /** `hasBlockEnder`: `end` occurs inside the first six characters of the trimmed line. */
  predicate HasBlockEnder(line: string): (b: bool)
    ensures b ==> |Trim(line)| >= 3
  {
    Contains(Prefix(Trim(line), 6), "end")
  }

  /** `(line.match(/./g) || []).length > 0`: some character is not a line terminator. */
  predicate HasNonTerminator(line: string) {
    exists i :: 0 <= i < |line| && !IsLineTerminator(line[i])
  }

  /** A keyword counts only where it fits inside the first five characters: `def` and
      `for` at positions 0 to 2, `if` at 0 to 3, `class` only at the very start. */
  lemma StarterPositions(line: string)
    ensures HasBlockStarter(line) <==>
      (exists i :: 0 <= i <= 2 && OccursAt(Trim(line), "def", i))
      || OccursAt(Trim(line), "class", 0)
      || (exists i :: 0 <= i <= 3 && OccursAt(Trim(line), "if", i))
      || (exists i :: 0 <= i <= 2 && OccursAt(Trim(line), "for", i))
  {
    var t := Trim(line);
    ContainsInPrefix(t, 5, "def");
    ContainsInPrefix(t, 5, "class");
    ContainsInPrefix(t, 5, "if");
    ContainsInPrefix(t, 5, "for");
  }

  /** `end` counts where it starts at one of the positions 0 to 3 of the trimmed line. */
  lemma EnderPositions(line: string)
    ensures HasBlockEnder(line) <==> exists i :: 0 <= i <= 3 && OccursAt(Trim(line), "end", i)
  {
    ContainsInPrefix(Trim(line), 6, "end");
  }

  /** `Contains` on a prefix: an occurrence that ends inside the prefix. */
  lemma ContainsInPrefix(t: string, n: nat, pat: string)
    ensures Contains(Prefix(t, n), pat) <==> exists i :: 0 <= i && i + |pat| <= n && OccursAt(t, pat, i)
  {
    var h := Prefix(t, n);
    if Contains(h, pat) {
      var i := IndexOf(h, pat).value;
      assert h[i..i + |pat|] == t[i..i + |pat|];
      assert i + |pat| <= n && OccursAt(t, pat, i);
    }
    if exists i :: 0 <= i && i + |pat| <= n && OccursAt(t, pat, i) {
      var i :| 0 <= i && i + |pat| <= n && OccursAt(t, pat, i);
      assert h[i..i + |pat|] == t[i..i + |pat|];
      assert OccursAt(h, pat, i);
    }
  }

  /** A line that starts with a digit has a character the regular expression `.`
      matches, so that test of `orderedListToText` never decides anything. */
  lemma DigitLineHasNonTerminator(line: string)
    requires StartsWithDigit(line)
    ensures HasNonTerminator(line)
  {
    var t := Trim(line);
    assert t[0] in t;
    var i :| 0 <= i < |line| && line[i] == t[0];
  }

  // ----- Rules -----

  /** `codeHighlightToText`: fence lines pass; every other line is trimmed and loses
      all its backticks, so it can no longer be a fence. */
  function CodeHighlightToText(line: string): (r: string)
    ensures IsLimitCodeBlock(line) ==> r == line
    ensures !IsLimitCodeBlock(line) ==> '`' !in r && !IsLimitCodeBlock(r)
    ensures !IsLimitCodeBlock(line) ==> r == RemoveAll(Trim(line), '`')
    ensures forall c :: c in r ==> c in line
  {
    if IsLimitCodeBlock(line) then line
    else
      var r := RemoveAll(Trim(line), '`');
      NoBacktickNoFence(r);
      r
  }

  /** `codeBlockType`, as a value: the text after the first three characters, or `none`
      for a bare fence whether it opens or closes a block. */
  function TextBlockType(line: string): (ty: string)
    ensures ty != ""
    ensures |line| > 3 ==> ty == line[3..]
    ensures |line| <= 3 ==> ty == "none"
  {
    var rest := SubstringFrom(line, 3);
    if rest == "" then "none" else rest
  }

  /** The tab prefix and the depth change of one code line inside an open block. */
  function Indented(tab: int, t: string): (r: (int, string))
    ensures r.0 == tab - (if HasBlockEnder(t) then 1 else 0) + (if HasBlockStarter(t) then 1 else 0)
    ensures r.1 == Tabs(tab - (if HasBlockEnder(t) then 1 else 0)) + t
  {
    var before := if HasBlockEnder(t) then tab - 1 else tab;
    var prefix := if before > 0 then Repeat("\t", before) else "";
    (if HasBlockStarter(t) then before + 1 else before, prefix + t)
  }

  /** `codeLineToText` together with the `codeBlockType` it calls: a fence flips the
      block and loses its tag (unless the tag is `none`) and its backticks; inside a
      block a line is trimmed and indented; other lines pass. */
  function CodeLineRule(st: TextState, line: string): (r: (TextState, string))
    ensures r.0.openCodeBlock == (st.openCodeBlock != IsLimitCodeBlock(line))
    ensures r.0.(openCodeBlock := st.openCodeBlock, shouldTab := st.shouldTab)
         == st
    ensures !IsLimitCodeBlock(line) && !st.openCodeBlock ==> r == (st, line)
  {
    if IsLimitCodeBlock(line) then
      var ty := TextBlockType(line);
      var untagged := if ty != "none" then ReplaceFirst(line, ty, "") else line;
      (st.(openCodeBlock := !st.openCodeBlock), ReplaceFirst(untagged, Fence, ""))
    else if st.openCodeBlock then
      var ind := Indented(st.shouldTab, Trim(line));
      (st.(shouldTab := ind.0), ind.1)
    else
      (st, line)
  }

  /** `headersToText`: outside a block the trimmed line loses as many leading
      characters as it has `#` anywhere, is trimmed again and, when it had a `#`, ends
      with a newline. */
  function HeadersRule(st: TextState, line: string): (r: string)
    ensures st.openCodeBlock ==> r == line
    ensures !st.openCodeBlock && '#' !in line ==> r == Trim(line)
  {
    if st.openCodeBlock then line
    else
      var t := Trim(line);
      var count := CountChar(t, '#');
      var text := Trim(SubstringFrom(t, count));
      if count > 0 then text + "\n" else text
  }

  /** The bar a horizontal rule becomes: ninety underscores. */
  const Bar: string := Repeat("_", 90)

  /** `horizontalRuleToText`: exactly `---`, `___` and `***` become the bar. */
  function HorizontalRuleToText(line: string): (r: string)
    ensures IsHorizontalRule(line) ==> r == Bar && |r| == 90
    ensures !IsHorizontalRule(line) ==> r == line
  {
    if IsHorizontalRule(line) then Bar else line
  }

  /** `unorderedListToText`: outside a block a bullet line becomes a tab, `•`, a space
      and the line from index 2, after a blank line when it starts a run; any other
      line ends a run that is under way and asks for a blank line before the next
      output. */
  function UnorderedRule(st: TextState, line: string): (r: (TextState, string))
    ensures StartsWithBullet(line) && !st.openCodeBlock ==>
      r.0 == st.(currentUnorderedValue :=
                   if st.currentUnorderedValue == -1 then 1 else st.currentUnorderedValue + 1)
      && r.1 == (if st.currentUnorderedValue == -1 then "\n" else "") + "\t\U{2022} "
                + SubstringFrom(line, 2)
    ensures !(StartsWithBullet(line) && !st.openCodeBlock) ==>
      r.1 == line
      && r.0 == (if st.currentUnorderedValue > 0
                 then st.(shouldLineBreak := true, currentUnorderedValue := -1) else st)
  {
    if StartsWithBullet(line) && !st.openCodeBlock then
      var first := st.currentUnorderedValue == -1;
      var value := if first then 1 else st.currentUnorderedValue + 1;
      var start := if first then "\n" else "";
      (st.(currentUnorderedValue := value), start + "\t" + "\U{2022} " + SubstringFrom(line, 2))
    else if st.currentUnorderedValue > 0 then
      (st.(shouldLineBreak := true, currentUnorderedValue := -1), line)
    else
      (st, line)
  }

  /** The rendering of a numbered item whose parts before and after the first `.` are
      `head` and `second`. */
  function OrderedItem(st: TextState, head: string, second: string): (r: (TextState, string))
    requires AllDigits(head)
    ensures r.0 == st.(currentOrderedValue :=
      if st.currentOrderedValue == -1 then DigitsValue(head) else st.currentOrderedValue + 1)
  {
    var first := st.currentOrderedValue == -1;
    var value := if first then DigitsValue(head) else st.currentOrderedValue + 1;
    var start := if first then "\n" else "";
    (st.(currentOrderedValue := value), start + "\t" + IntToString(value) + ". " + Trim(second))
  }

  /** `orderedListToText`: outside a block, a line that starts with a digit and whose
      text before the first `.` is all digits and whose text after it starts with a
      space becomes a numbered item; a run is numbered from the first item's own number
      and then by one each; the item text is the trimmed part between the first and the
      second `.`. A digit line without that shape passes and leaves the run alone; a
      line whose text before the first `.` is all digits but that has no `.` reads the
      missing second part and throws; every other line ends a run whose counter is
      positive and asks for a blank line. */
  function OrderedRule(st: TextState, line: string): (r: Outcome)
    ensures r.Produced? ==>
      r.state.(currentOrderedValue := st.currentOrderedValue, shouldLineBreak := st.shouldLineBreak)
      == st
  {
    if StartsWithDigit(line) && HasNonTerminator(line) && !st.openCodeBlock then
      var parts := Split(line, '.');
      if !AllDigits(parts[0]) then Produced(st, line)
      else if |parts| < 2 then TypeError
      else if CharAt(parts[1], 0) == " " then
        var item := OrderedItem(st, parts[0], parts[1]);
        Produced(item.0, item.1)
      else Produced(st, line)
    else if st.currentOrderedValue > 0 then
      Produced(st.(shouldLineBreak := true, currentOrderedValue := -1), line)
    else
      Produced(st, line)
  }

  /** A numbered item: the first `.` is preceded by digits only and followed by a space. */
  predicate IsOrderedItem(line: string) {
    var parts := Split(line, '.');
    AllDigits(parts[0]) && |parts| >= 2 && CharAt(parts[1], 0) == " "
  }

  // ----- Pipeline, parse, write -----

  /** `parserPipeline`: backticks, fence and code line, headers, horizontal rule,
      bullet items, numbered items. */
  function PipelineRule(st: TextState, line: string): (r: Outcome)
    ensures r.Produced? ==> r.state.openCodeBlock == (st.openCodeBlock != IsLimitCodeBlock(line))
    ensures r.Produced? && st.shouldLineBreak ==> r.state.shouldLineBreak
  {
    var code := CodeLineRule(st, CodeHighlightToText(line));
    var text := HorizontalRuleToText(HeadersRule(code.0, code.1));
    ListRulesKeep(code.0, text);
    var list := UnorderedRule(code.0, text);
    OrderedRule(list.0, list.1)
  }

  /** `parseLine`: the pipeline for a non-empty line; an empty line changes nothing. */
  function ParseRule(st: TextState, line: string): (r: Outcome)
    ensures line == "" ==> r == Produced(st, "")
    ensures r.Produced? ==> r.state.openCodeBlock == (st.openCodeBlock != IsFenceLine(line))
    ensures r.Produced? && st.shouldLineBreak ==> r.state.shouldLineBreak
  {
    if line != "" then PipelineRule(st, line) else Produced(st, line)
  }

  /** `writeLine`, as the fragments it writes: none for an empty line; otherwise the
      line and a newline, after one more newline when a blank line is pending, which
      is then no longer pending. */
  function WriteRule(st: TextState, line: string): (r: (TextState, seq<string>))
    ensures line == "" ==> r == (st, [])
    ensures line != "" ==>
      r.0 == st.(shouldLineBreak := false)
      && r.1 == [(if st.shouldLineBreak then "\n" else "") + line + "\n"]
  {
    if line == "" then (st, [])
    else
      var pending := if st.shouldLineBreak then "\n" else "";
      (st.(shouldLineBreak := false), [pending + line + "\n"])
  }

  datatype StepOutcome = Next(state: TextState, written: seq<string>) | Crashed

  /** One input line: parse it, then write what parsing produced, unless parsing threw. */
  function Transition(st: TextState, line: string): (r: StepOutcome)
    ensures line == "" ==> r == Next(st, [])
    ensures r.Next? ==> |r.written| <= 1
  {
    match ParseRule(st, line)
    case TypeError => Crashed
    case Produced(s, l) => var w := WriteRule(s, l); Next(w.0, w.1)
  }

  datatype RunOutcome = Finished(state: TextState, written: seq<string>) | Aborted(written: seq<string>)

  /** A whole input: the lines in order, stopping at the first line that throws. */
  function Transduce(st: TextState, lines: seq<string>): (r: RunOutcome)
    ensures |r.written| <= |lines|
    decreases lines
  {
    if lines == [] then Finished(st, [])
    else
      match Transition(st, lines[0])
      case Crashed => Aborted([])
      case Next(s, w) =>
        match Transduce(s, lines[1..])
        case Finished(f, rest) => Finished(f, w + rest)
        case Aborted(rest) => Aborted(w + rest)
  }

  /** The output file for an input file: what the lines wrote and, when the input was
      read to the end, one final newline. */
  function Document(lines: seq<string>): (r: (seq<string>, bool))
    ensures r.1 <==> Transduce(Initial, lines).Finished?
    ensures r.1 ==> |r.0| >= 1 && r.0[|r.0| - 1] == "\n"
  {
    match Transduce(Initial, lines)
    case Finished(_, w) => (w + ["\n"], true)
    case Aborted(w) => (w, false)
  }

  // ----- Properties of lines and whole documents -----

  /** The lines that flip the code block: non-empty fence lines. */
  predicate IsFenceLine(line: string) {
    line != "" && IsLimitCodeBlock(line)
  }

  function FenceLines(lines: seq<string>): nat {
    if lines == [] then 0 else (if IsFenceLine(lines[0]) then 1 else 0) + FenceLines(lines[1..])
  }

  /** The two list rules leave the block and the indentation alone and only ever set
      the pending blank line. */
  lemma ListRulesKeep(st: TextState, line: string)
    ensures var list := UnorderedRule(st, line);
            var r := OrderedRule(list.0, list.1);
            r.Produced? ==>
              r.state.openCodeBlock == st.openCodeBlock && r.state.shouldTab == st.shouldTab
              && (st.shouldLineBreak ==> r.state.shouldLineBreak)
  {
  }

  /** One line: the block flips exactly on a fence line; a line that writes nothing
      keeps a pending blank line, and a line that writes something writes one fragment
      and clears it. */
  lemma TransitionFacts(st: TextState, line: string)
    ensures Transition(st, line).Next? ==>
      Transition(st, line).state.openCodeBlock == (st.openCodeBlock != IsFenceLine(line))
    ensures Transition(st, line).Next? && Transition(st, line).written == [] ==>
      (st.shouldLineBreak ==> Transition(st, line).state.shouldLineBreak)
    ensures Transition(st, line).Next? && Transition(st, line).written != [] ==>
      |Transition(st, line).written| == 1 && !Transition(st, line).state.shouldLineBreak
  {
    var p := ParseRule(st, line);
    if p.Produced? {
      WriteKeeps(st, p.state, p.line, Transition(st, line));
    }
  }

  lemma WriteKeeps(st: TextState, s: TextState, l: string, t: StepOutcome)
    requires t == Next(WriteRule(s, l).0, WriteRule(s, l).1)
    requires st.shouldLineBreak ==> s.shouldLineBreak
    ensures t.state.openCodeBlock == s.openCodeBlock
    ensures t.written == [] ==> (st.shouldLineBreak ==> t.state.shouldLineBreak)
    ensures t.written != [] ==> |t.written| == 1 && !t.state.shouldLineBreak
  {
  }

  /** `Transduce` on a non-empty input whose first line does not throw. */
  lemma TransduceCons(st: TextState, lines: seq<string>)
    requires lines != [] && Transition(st, lines[0]).Next?
    ensures Transduce(st, lines).Finished? == Transduce(Transition(st, lines[0]).state, lines[1..]).Finished?
    ensures Transduce(st, lines).Finished? ==>
      Transduce(st, lines).state == Transduce(Transition(st, lines[0]).state, lines[1..]).state
    ensures Transduce(st, lines).written
         == Transition(st, lines[0]).written + Transduce(Transition(st, lines[0]).state, lines[1..]).written
  {
  }

  /** After an input read to the end, the block is open exactly when it started open
      xor the number of fence lines is odd. */
  lemma {:induction false} FenceParity(st: TextState, lines: seq<string>)
    requires Transduce(st, lines).Finished?
    ensures Transduce(st, lines).state.openCodeBlock == (st.openCodeBlock != (FenceLines(lines) % 2 == 1))
    decreases lines
  {
    if lines != [] {
      var t := Transition(st, lines[0]);
      assert t.Next?;
      TransitionFacts(st, lines[0]);
      TransduceCons(st, lines);
      FenceParity(t.state, lines[1..]);
      ParityStep(st.openCodeBlock, IsFenceLine(lines[0]), t.state.openCodeBlock,
                 FenceLines(lines[1..]), Transduce(st, lines).state.openCodeBlock, FenceLines(lines));
    }
  }

  /** The list rules keep the counters in range. */
  lemma ListRulesValid(st: TextState, line: string)
    requires ValidState(st)
    ensures var list := UnorderedRule(st, line);
            var r := OrderedRule(list.0, list.1);
            r.Produced? ==> ValidState(r.state)
  {
    var list := UnorderedRule(st, line);
    assert ValidState(list.0);
    OrderedValid(list.0, list.1);
  }

  lemma OrderedValid(st: TextState, line: string)
    requires ValidState(st)
    ensures OrderedRule(st, line).Produced? ==> ValidState(OrderedRule(st, line).state)
  {
  }

  /** Every line that does not throw keeps the counters in range: the bullet counter is
      -1 or positive and the numbering counter is at least -1. */
  lemma ValidStatePreserved(st: TextState, line: string)
    requires ValidState(st)
    ensures Transition(st, line).Next? ==> ValidState(Transition(st, line).state)
  {
    if line != "" {
      var code := CodeLineRule(st, CodeHighlightToText(line));
      ListRulesValid(code.0, HorizontalRuleToText(HeadersRule(code.0, code.1)));
    }
  }

  /** The numbering rule throws exactly on an all-digit line outside a block: its text
      before the first `.` is the whole line, and there is no second part to read. */
  lemma OrderedThrowsExactly(st: TextState, line: string)
    ensures OrderedRule(st, line).TypeError? <==>
      StartsWithDigit(line) && !st.openCodeBlock && AllDigits(line)
  {
    var parts := Split(line, '.');
    SplitHasSecond(line, '.');
    if StartsWithDigit(line) {
      DigitLineHasNonTerminator(line);
    }
    if AllDigits(line) {
      assert forall i :: 0 <= i < |line| ==> line[i] != '.';
      SplitWithoutSep(line, '.');
    }
    if |parts| < 2 {
      SplitJoin(line, '.');
      assert parts == [parts[0]];
    }
  }

  /** A digit line that is not an item neither renders nor ends the run: the reset is
      only reached by lines that do not start with a digit. */
  lemma DigitLineKeepsRun(st: TextState, line: string)
    requires StartsWithDigit(line) && !st.openCodeBlock
    requires !IsOrderedItem(line) && !AllDigits(line)
    ensures OrderedRule(st, line) == Produced(st, line)
  {
    OrderedThrowsExactly(st, line);
    DigitLineHasNonTerminator(line);
  }

  /** A run numbered from 0 is not ended by a plain line: the reset needs a positive
      counter. */
  lemma ZeroRunNotEnded(st: TextState, line: string)
    requires st.currentOrderedValue == 0 && !StartsWithDigit(line)
    ensures OrderedRule(st, line) == Produced(st, line)
  {
  }

  /** A plain line ends a run with a positive counter and asks for a blank line. */
  lemma PlainLineEndsRun(st: TextState, line: string)
    requires st.currentOrderedValue > 0 && !StartsWithDigit(line)
    ensures OrderedRule(st, line)
         == Produced(st.(shouldLineBreak := true, currentOrderedValue := -1), line)
  {
  }

  /** A trimmed line without backticks, `#` or a horizontal rule reaches the list rules
      unchanged outside a block. */
  lemma PlainPipeline(st: TextState, line: string)
    requires '`' !in line && '#' !in line && Trim(line) == line && line != ""
    requires !IsHorizontalRule(line) && !st.openCodeBlock
    ensures ParseRule(st, line) == OrderedRule(UnorderedRule(st, line).0, UnorderedRule(st, line).1)
  {
    NoBacktickNoFence(line);
    RemoveAllAbsent(line, '`');
    assert CodeHighlightToText(line) == line;
    assert CodeLineRule(st, line) == (st, line);
    assert HeadersRule(st, line) == line;
  }

  /** A line of digits only, outside a block, throws and stops the run. */
  lemma DigitsOnlyLineCrashes(st: TextState, line: string)
    requires AllDigits(line) && !st.openCodeBlock
    ensures Transition(st, line) == Crashed
  {
    DigitsOnlyShape(line);
    PlainPipeline(st, line);
    DigitsThrow(st, line, UnorderedRule(st, line));
  }

  lemma DigitsOnlyShape(line: string)
    requires AllDigits(line)
    ensures '`' !in line && '#' !in line && Trim(line) == line && !IsHorizontalRule(line)
  {
    DigitsTrimmed(line);
  }

  lemma DigitsTrimmed(line: string)
    requires AllDigits(line)
    ensures Trim(line) == line
  {
    assert !IsWhiteSpace(line[0]) && !IsWhiteSpace(line[|line| - 1]);
    TrimOfTrimmed(line);
  }

  lemma DigitsThrow(st: TextState, line: string, list: (TextState, string))
    requires AllDigits(line) && Trim(line) == line && !st.openCodeBlock
    requires list == UnorderedRule(st, line)
    ensures OrderedRule(list.0, list.1).TypeError?
  {
    assert list.1 == line && !list.0.openCodeBlock;
    OrderedThrowsExactly(list.0, line);
  }

  /** The first occurrence of a backtick-free tag in a fence line is right after the
      backticks. */
  lemma TagAfterFence(tag: string)
    requires tag != "" && '`' !in tag
    ensures ReplaceFirst(Fence + tag, tag, "") == Fence
  {
    var line := Fence + tag;
    assert OccursAt(line, tag, 3);
    forall j | 0 <= j < 3
      ensures !OccursAt(line, tag, j)
    {
      if j + |tag| <= |line| {
        assert line[j..j + |tag|][0] == '`';
        assert tag[0] in tag;
      }
    }
    ReplaceFirstAt(line, tag, "", 3);
    assert line[..3] + "" + line[3 + |tag|..] == Fence;
  }

  /** A fence line with a backtick-free tag other than `none`, or with none, flips the
      block and leaves nothing of itself. */
  lemma FenceStripped(st: TextState, tag: string)
    requires '`' !in tag && tag != "none"
    ensures CodeHighlightToText(Fence + tag) == Fence + tag
    ensures CodeLineRule(st, Fence + tag) == (st.(openCodeBlock := !st.openCodeBlock), "")
  {
    var line := Fence + tag;
    FenceWithTag(tag);
    ReplaceFirstAt(Fence, Fence, "", 0);
    if tag == "" {
      assert line == Fence;
      assert SubstringFrom(line, 3) == "";
    } else {
      assert SubstringFrom(line, 3) == tag;
      TagAfterFence(tag);
    }
  }

  /** An empty intermediate line stays empty through the remaining rules. */
  lemma EmptyThroughListRules(st: TextState)
    ensures HorizontalRuleToText(HeadersRule(st, "")) == ""
    ensures OrderedRule(UnorderedRule(st, "").0, "").Produced?
    ensures OrderedRule(UnorderedRule(st, "").0, "").line == ""
  {
    TrimOfTrimmed("");
  }

  /** A fence line (bare, or tagged with anything but `none`) writes nothing: the
      stripped line is empty. The block flips, and a list run under way still ends. */
  lemma FenceLineVanishes(st: TextState, tag: string)
    requires '`' !in tag && tag != "none"
    ensures Transition(st, Fence + tag).Next?
    ensures Transition(st, Fence + tag).written == []
    ensures Transition(st, Fence + tag).state.openCodeBlock == !st.openCodeBlock
  {
    FenceStripped(st, tag);
    var s2 := st.(openCodeBlock := !st.openCodeBlock);
    EmptyThroughListRules(s2);
    FenceWithTag(tag);
  }

  /** A fence tagged `none` keeps its tag: `none` is what `codeBlockType` returns for a
      bare fence, so the tag is not removed and the line is written as `none`. */
  lemma NoneTagWritten(st: TextState, line: string)
    requires line == Fence + "none"
    requires st.currentUnorderedValue <= 0 && st.currentOrderedValue <= 0 && !st.shouldLineBreak
    ensures Transition(st, line) == Next(st.(openCodeBlock := !st.openCodeBlock), ["none\n"])
  {
    var s2 := st.(openCodeBlock := !st.openCodeBlock);
    NoneParsed(st, line);
    NoneWrite(s2);
    TransitionOfParse(st, line, Produced(s2, "none"));
  }

  lemma NoneWrite(s: TextState)
    requires !s.shouldLineBreak
    ensures WriteRule(s, "none") == (s, ["none\n"])
  {
    assert "" + "none" + "\n" == "none\n";
  }

  lemma NoneParsed(st: TextState, line: string)
    requires line == Fence + "none"
    requires st.currentUnorderedValue <= 0 && st.currentOrderedValue <= 0
    ensures ParseRule(st, line) == Produced(st.(openCodeBlock := !st.openCodeBlock), "none")
  {
    var s2 := st.(openCodeBlock := !st.openCodeBlock);
    FenceWithTag("none");
    assert CodeHighlightToText(line) == line;
    NoneStripped(st);
    NoneThroughRest(s2);
    PipelineStages(st, line, (s2, "none"), "none", (s2, "none"));
  }

  /** The pipeline once the result of each stage is known. */
  lemma PipelineStages(st: TextState, line: string, code: (TextState, string), text: string,
                       list: (TextState, string))
    requires line != ""
    requires code == CodeLineRule(st, CodeHighlightToText(line))
    requires text == HorizontalRuleToText(HeadersRule(code.0, code.1))
    requires list == UnorderedRule(code.0, text)
    ensures ParseRule(st, line) == OrderedRule(list.0, list.1)
  {
  }

  /** `Transition` once the parse of the line is known. */
  lemma TransitionOfParse(st: TextState, line: string, p: Outcome)
    requires p == ParseRule(st, line) && p.Produced?
    ensures Transition(st, line) == Next(WriteRule(p.state, p.line).0, WriteRule(p.state, p.line).1)
  {
  }

  lemma NoneStripped(st: TextState)
    ensures CodeLineRule(st, Fence + "none") == (st.(openCodeBlock := !st.openCodeBlock), "none")
  {
    var line := Fence + "none";
    FenceWithTag("none");
    assert SubstringFrom(line, 3) == "none";
    assert OccursAt(line, Fence, 0);
    ReplaceFirstAt(line, Fence, "", 0);
    assert line[..0] + "" + line[3..] == "none";
  }

  lemma NoneThroughRest(st: TextState)
    requires st.currentUnorderedValue <= 0 && st.currentOrderedValue <= 0
    ensures HorizontalRuleToText(HeadersRule(st, "none")) == "none"
    ensures UnorderedRule(st, "none") == (st, "none")
    ensures OrderedRule(st, "none") == Produced(st, "none")
  {
    TrimOfTrimmed("none");
    assert CountChar("none", '#') == 0;
    assert Prefix(Trim("none"), 1) == "n";
  }

  /** A character that does not occur is counted zero times. */
  lemma CountCharAbsent(s: string, c: char)
    requires c !in s
    ensures CountChar(s, c) == 0
  {
    RemoveAllAbsent(s, c);
  }

  /** Outside a block, `n` hashes, a space and a clean, hash-free title become the title
      and a newline: the level is dropped. */
  lemma HeaderToText(st: TextState, n: nat, title: string)
    requires !st.openCodeBlock && n >= 1
    requires title != [] && '#' !in title
    requires !IsWhiteSpace(title[0]) && !IsWhiteSpace(title[|title| - 1])
    ensures HeadersRule(st, Repeat("#", n) + " " + title) == title + "\n"
  {
    var hashes := Repeat("#", n);
    var line := hashes + " " + title;
    HeaderTextShape(hashes, n, title);
    HeaderCount(hashes, n, title);
    assert line[0] == '#';
    HashesCutFront(st, line);
  }

  /** `headersToText` outside a block, on a line with some `#`: the trimmed line loses
      one leading character for every `#` of the line, wherever it stands, and the rest
      is trimmed and ends with a newline. */
  lemma HashesCutFront(st: TextState, line: string)
    requires !st.openCodeBlock && '#' in line
    ensures CountChar(line, '#') <= |Trim(line)|
    ensures HeadersRule(st, line) == Trim(Trim(line)[CountChar(line, '#')..]) + "\n"
  {
    CountTrimmed(line, '#');
  }

  /** A line with a single `#`, at any position, loses only its first character. */
  lemma OneHashAnywhere(st: TextState, line: string)
    requires !st.openCodeBlock && Trim(line) == line && CountChar(line, '#') == 1
    ensures HeadersRule(st, line) == Trim(line[1..]) + "\n"
  {
    HashesCutFront(st, line);
  }

  /** Trimming removes only white space, so it keeps every other character's count. */
  lemma CountTrimmed(s: string, c: char)
    requires !IsWhiteSpace(c)
    ensures CountChar(Trim(s), c) == CountChar(s, c)
  {
    TrimStartSlice(s);
    var front := TrimStart(s);
    var d := |s| - |front|;
    var t := Trim(s);
    assert s == s[..d] + front;
    assert c !in s[..d] by {
      forall i | 0 <= i < d ensures s[..d][i] != c {
        assert IsWhiteSpace(s[i]);
      }
    }
    assert front == t + front[|t|..];
    assert c !in front[|t|..] by {
      forall i | 0 <= i < |front| - |t| ensures front[|t|..][i] != c {
        assert IsWhiteSpace(front[|t| + i]);
      }
    }
    CountCharConcat(s[..d], front, c);
    CountCharConcat(t, front[|t|..], c);
  }

  lemma HeaderTextShape(hashes: string, n: nat, title: string)
    requires n >= 1 && hashes == Repeat("#", n)
    requires title != [] && !IsWhiteSpace(title[0]) && !IsWhiteSpace(title[|title| - 1])
    ensures Trim(hashes + " " + title) == hashes + " " + title
    ensures Trim(SubstringFrom(hashes + " " + title, n)) == title
  {
    var line := hashes + " " + title;
    RepeatCount('#', n);
    assert line[0] == hashes[0] == '#';
    assert line[|line| - 1] == title[|title| - 1];
    TrimOfTrimmed(line);
    assert line[n..] == " " + title;
    assert TrimStart(" " + title) == TrimStart(title);
    TrimOfTrimmed(title);
  }

  lemma HeaderCount(hashes: string, n: nat, title: string)
    requires hashes == Repeat("#", n) && '#' !in title
    ensures CountChar(hashes + " " + title, '#') == n
  {
    RepeatCount('#', n);
    assert hashes + " " + title == hashes + (" " + title);
    CountCharConcat(hashes, " " + title, '#');
    CountCharConcat(" ", title, '#');
    CountCharAbsent(title, '#');
  }

  /** The level is the number of `#` anywhere in the line, not only in front: a hash
      inside the text cuts that many characters from the start. */
  lemma HeaderCountsEveryHash(st: TextState, line: string)
    requires line == "a#b" && !st.openCodeBlock
    ensures HeadersRule(st, line) == "#b\n"
  {
    TrimOfTrimmed(line);
    assert CountChar(line, '#') == 1;
    assert SubstringFrom(line, 1) == "#b";
    TrimOfTrimmed("#b");
  }

  /** The tab prefix written before a code line at a given depth. */
  function Tabs(depth: int): (r: string)
    ensures |r| == (if depth > 0 then depth else 0)
    ensures forall i :: 0 <= i < |r| ==> r[i] == '\t'
  {
    if depth > 0 then RepeatCount('\t', depth); Repeat("\t", depth) else ""
  }

  /** A pattern cannot occur where the text differs from it in one character. */
  lemma Mismatch(t: string, pat: string, i: nat, k: nat)
    requires k < |pat| && (i + k >= |t| || t[i + k] != pat[k])
    ensures !OccursAt(t, pat, i)
  {
  }

  lemma DefLine(t: string)
    requires t == "def f():"
    ensures HasBlockStarter(t) && !HasBlockEnder(t)
  {
    TrimOfTrimmed(t);
    DefStarts(t);
    NoEnderIn(t);
  }

  lemma DefStarts(t: string)
    requires t == "def f():" && Trim(t) == t
    ensures HasBlockStarter(t)
  {
    ContainsInPrefix(t, 5, "def");
    assert OccursAt(t, "def", 0);
  }

  /** Neither `def f():` nor `return x` holds `end` where the ender test looks. */
  lemma NoEnderIn(t: string)
    requires (t == "def f():" || t == "return x") && Trim(t) == t
    ensures !HasBlockEnder(t)
  {
    EnderPositions(t);
    Mismatch(t, "end", 0, 0);
    Mismatch(t, "end", 1, 1);
    Mismatch(t, "end", 2, 0);
    Mismatch(t, "end", 3, 0);
  }

  lemma EndLine(t: string)
    requires t == "end"
    ensures !HasBlockStarter(t) && HasBlockEnder(t)
  {
    TrimOfTrimmed(t);
    EndEnds(t);
    EndNoStarter(t);
  }

  lemma EndEnds(t: string)
    requires t == "end" && Trim(t) == t
    ensures HasBlockEnder(t)
  {
    ContainsInPrefix(t, 6, "end");
    assert OccursAt(t, "end", 0);
  }

  lemma EndNoStarter(t: string)
    requires t == "end" && Trim(t) == t
    ensures !HasBlockStarter(t)
  {
    var head := Prefix(t, 5);
    assert head == t;
    AbsentFirstChar(head, "class");
    AbsentFirstChar(head, "if");
    AbsentFirstChar(head, "for");
    ContainsInPrefix(t, 5, "def");
    Mismatch(t, "def", 0, 0);
  }

  lemma ReturnLine(t: string)
    requires t == "return x"
    ensures !HasBlockStarter(t) && !HasBlockEnder(t)
  {
    TrimOfTrimmed(t);
    NoEnderIn(t);
    ReturnNoStarter(t);
  }

  lemma ReturnNoStarter(t: string)
    requires t == "return x" && Trim(t) == t
    ensures !HasBlockStarter(t)
  {
    var head := Prefix(t, 5);
    assert head == "retur";
    AbsentFirstChar(head, "def");
    AbsentFirstChar(head, "class");
    AbsentFirstChar(head, "if");
    AbsentFirstChar(head, "for");
  }

  /** A pattern whose first character does not occur does not occur either. */
  lemma AbsentFirstChar(s: string, pat: string)
    requires pat != [] && pat[0] !in s
    ensures !Contains(s, pat)
  {
  }

  /** Inside a block a line opening with `def` is written at the current depth and
      deepens the lines after it. */
  lemma DefDeepens(tab: int, t: string)
    requires t == "def f():"
    ensures Indented(tab, t) == (tab + 1, Tabs(tab) + t)
  {
    DefLine(t);
  }

  /** A line opening with `end` is written one level up and stays there; nothing stops
      the depth from going below zero. */
  lemma EndDedents(tab: int, t: string)
    requires t == "end"
    ensures Indented(tab, t) == (tab - 1, Tabs(tab - 1) + t)
  {
    EndLine(t);
  }

  /** Any other line is written at the current depth and leaves it. */
  lemma PlainKeepsDepth(tab: int, t: string)
    requires t == "return x"
    ensures Indented(tab, t) == (tab, Tabs(tab) + t)
  {
    ReturnLine(t);
  }

  /** Inside a block every line that is not a fence is trimmed, loses its backticks and
      is re-indented by the keyword heuristic; the headers and list rules leave it
      alone, but a line that is then exactly `---`, `___` or `***` still becomes the
      bar. */
  lemma InBlockLine(st: TextState, line: string)
    requires st.openCodeBlock && line != "" && !IsLimitCodeBlock(line)
    requires st.currentUnorderedValue <= 0 && st.currentOrderedValue <= 0
    ensures var ind := Indented(st.shouldTab, Trim(CodeHighlightToText(line)));
            ParseRule(st, line) == Produced(st.(shouldTab := ind.0), HorizontalRuleToText(ind.1))
  {
    var ind := Indented(st.shouldTab, Trim(CodeHighlightToText(line)));
    var s2 := st.(shouldTab := ind.0);
    var text := HorizontalRuleToText(ind.1);
    assert CodeLineRule(st, CodeHighlightToText(line)) == (s2, ind.1);
    assert UnorderedRule(s2, text) == (s2, text);
    PipelineStages(st, line, (s2, ind.1), text, (s2, text));
  }

  /** A horizontal rule inside a block at depth zero is still turned into the bar. */
  lemma RuleInsideBlock(st: TextState, line: string)
    requires line == "---" && st.openCodeBlock && st.shouldTab <= 0
    requires st.currentUnorderedValue <= 0 && st.currentOrderedValue <= 0
    ensures ParseRule(st, line).Produced? && ParseRule(st, line).line == Bar
  {
    assert !IsLimitCodeBlock(line);
    RemoveAllAbsent(line, '`');
    TrimOfTrimmed(line);
    assert CodeHighlightToText(line) == line;
    DashesLine(line);
    InBlockLine(st, line);
  }

  /** At a positive depth the same line is first indented, so it is no longer a rule and
      is written with its tabs. */
  lemma RuleIndentedInBlock(st: TextState, line: string)
    requires line == "---" && st.openCodeBlock && st.shouldTab > 0
    requires st.currentUnorderedValue <= 0 && st.currentOrderedValue <= 0
    ensures ParseRule(st, line) == Produced(st, Tabs(st.shouldTab) + line)
    ensures ParseRule(st, line).line != Bar
  {
    assert !IsLimitCodeBlock(line);
    RemoveAllAbsent(line, '`');
    TrimOfTrimmed(line);
    assert CodeHighlightToText(line) == line;
    assert Trim(CodeHighlightToText(line)) == line;
    DashesLine(line);
    var indented := Tabs(st.shouldTab) + line;
    assert Indented(st.shouldTab, line) == (st.shouldTab, indented);
    InBlockLine(st, line);
    IndentedNotRule(st.shouldTab, line);
  }

  lemma IndentedNotRule(depth: int, line: string)
    requires depth > 0 && line == "---"
    ensures HorizontalRuleToText(Tabs(depth) + line) == Tabs(depth) + line
    ensures Tabs(depth) + line != Bar
  {
    var indented := Tabs(depth) + line;
    assert indented[0] == '\t';
    RepeatCount('_', 90);
    assert Bar[0] == '_';
  }

  lemma DashesLine(t: string)
    requires t == "---"
    ensures !HasBlockStarter(t) && !HasBlockEnder(t)
  {
    TrimOfTrimmed(t);
    AbsentFirstChar(Prefix(t, 5), "def");
    AbsentFirstChar(Prefix(t, 5), "class");
    AbsentFirstChar(Prefix(t, 5), "if");
    AbsentFirstChar(Prefix(t, 5), "for");
    AbsentFirstChar(Prefix(t, 6), "end");
  }

  /** A bullet line with no backtick, no `#` and no surrounding blanks. */
  predicate PlainBullet(line: string) {
    StartsWithBulletMarker(line) && '`' !in line && '#' !in line && Trim(line) == line
  }

  /** How one bullet of a run is written; the first one after a blank line. */
  function BulletFragment(line: string, first: bool): string {
    "" + ((if first then "\n" else "") + "\t" + "\U{2022} " + SubstringFrom(line, 2)) + "\n"
  }

  /** A rendered bullet does not start with a digit: its first non-blank character is
      the bullet sign. */
  lemma BulletNotDigit(start: string, rest: string)
    requires start == "\n" || start == ""
    ensures !StartsWithDigit(start + "\t" + "\U{2022} " + rest)
  {
    var x := start + "\t" + "\U{2022} " + rest;
    TrimFirstChar(x, |start| + 1);
  }

  lemma PlainBulletStep(st: TextState, line: string)
    requires PlainBullet(line) && !st.openCodeBlock && !st.shouldLineBreak
    requires st.currentOrderedValue <= 0
    ensures Transition(st, line)
         == Next(st.(currentUnorderedValue :=
                       if st.currentUnorderedValue == -1 then 1 else st.currentUnorderedValue + 1),
                 [BulletFragment(line, st.currentUnorderedValue == -1)])
  {
    assert line[1] == ' ';
    PlainPipeline(st, line);
    var first := st.currentUnorderedValue == -1;
    var s1 := st.(currentUnorderedValue := if first then 1 else st.currentUnorderedValue + 1);
    var item := (if first then "\n" else "") + "\t" + "\U{2022} " + SubstringFrom(line, 2);
    assert UnorderedRule(st, line) == (s1, item);
    BulletNotDigit(if first then "\n" else "", SubstringFrom(line, 2));
    assert OrderedRule(s1, item) == Produced(s1, item);
    TransitionOfParse(st, line, Produced(s1, item));
  }

  /** The fragments a run of bullets is written as, one per line. */
  predicate BulletFragments(lines: seq<string>, w: seq<string>, first: bool) {
    |w| == |lines|
    && forall i :: 0 <= i < |lines| ==> w[i] == BulletFragment(lines[i], i == 0 && first)
  }

  lemma BulletFragmentsCons(lines: seq<string>, first: bool, tail: seq<string>)
    requires lines != [] && BulletFragments(lines[1..], tail, false)
    ensures BulletFragments(lines, [BulletFragment(lines[0], first)] + tail, first)
  {
    var w := [BulletFragment(lines[0], first)] + tail;
    forall i | 1 <= i < |lines|
      ensures w[i] == BulletFragment(lines[i], false)
    {
      assert w[i] == tail[i - 1];
      assert lines[1..][i - 1] == lines[i];
    }
  }

  lemma BulletTail(lines: seq<string>)
    requires lines != [] && forall i :: 0 <= i < |lines| ==> PlainBullet(lines[i])
    ensures forall i :: 0 <= i < |lines| - 1 ==> PlainBullet(lines[1..][i])
  {
    forall i | 0 <= i < |lines| - 1
      ensures PlainBullet(lines[1..][i])
    {
      assert PlainBullet(lines[i + 1]);
    }
  }

  /** Bullet runs: outside a block, a run of bullet lines is written one tab-indented
      `•` line each, after one blank line when no run was under way, and the counter
      ends up having counted every bullet of the run. */
  lemma {:induction false} BulletRun(st: TextState, lines: seq<string>)
    requires forall i :: 0 <= i < |lines| ==> PlainBullet(lines[i])
    requires !st.openCodeBlock && !st.shouldLineBreak && st.currentOrderedValue <= 0
    requires st.currentUnorderedValue == -1 || st.currentUnorderedValue >= 1
    ensures Transduce(st, lines).Finished?
    ensures Transduce(st, lines).state
         == (if lines == [] then st
             else st.(currentUnorderedValue :=
                        if st.currentUnorderedValue == -1 then |lines|
                        else st.currentUnorderedValue + |lines|))
    ensures BulletFragments(lines, Transduce(st, lines).written, st.currentUnorderedValue == -1)
    decreases lines
  {
    if lines != [] {
      PlainBulletStep(st, lines[0]);
      var s1 := st.(currentUnorderedValue :=
                      if st.currentUnorderedValue == -1 then 1 else st.currentUnorderedValue + 1);
      var first := st.currentUnorderedValue == -1;
      BulletTail(lines);
      BulletRun(s1, lines[1..]);
      var rest := Transduce(s1, lines[1..]);
      RunCons(st, lines, Next(s1, [BulletFragment(lines[0], first)]), rest);
      BulletFragmentsCons(lines, first, rest.written);
    }
  }

  /** A numbered item line: digits, a `.`, a space and a clean text without `.`,
      backticks or `#`. */
  predicate NumberedLine(line: string, head: string, text: string) {
    line == head + ". " + text && AllDigits(head)
    && text != [] && !IsWhiteSpace(text[0]) && !IsWhiteSpace(text[|text| - 1])
    && '.' !in text && '`' !in text && '#' !in text
  }

  /** How one numbered item of a run is written; the first one after a blank line. */
  function NumberFragment(value: int, text: string, first: bool): string {
    "" + ((if first then "\n" else "") + "\t" + IntToString(value) + ". " + text) + "\n"
  }

  /** The number a run gives its next item. */
  function NextNumber(st: TextState, head: string): int
    requires AllDigits(head)
  {
    if st.currentOrderedValue == -1 then DigitsValue(head) else st.currentOrderedValue + 1
  }

  lemma NumberedShape(line: string, head: string, text: string)
    requires NumberedLine(line, head, text)
    ensures '`' !in line && '#' !in line && Trim(line) == line && line != ""
    ensures !IsHorizontalRule(line) && !StartsWithBullet(line) && StartsWithDigit(line)
  {
    assert line[0] == head[0] && IsDigit(line[0]);
    assert line[|line| - 1] == text[|text| - 1];
    TrimOfTrimmed(line);
    assert '`' !in head && '#' !in head by {
      forall k | 0 <= k < |head| ensures head[k] != '`' && head[k] != '#' {
        assert IsDigit(head[k]);
      }
    }
  }

  lemma NumberedSplit(line: string, head: string, text: string)
    requires NumberedLine(line, head, text)
    ensures Split(line, '.') == [head, " " + text]
  {
    assert '.' !in head by {
      forall k | 0 <= k < |head| ensures head[k] != '.' {
        assert IsDigit(head[k]);
      }
    }
    var parts := [head, " " + text];
    assert Join(parts, '.') == head + ['.'] + Join(parts[1..], '.');
    assert Join(parts[1..], '.') == " " + text;
    assert Join(parts, '.') == line;
    JoinSplit(parts, '.');
  }

  lemma NumberedOrdered(st: TextState, line: string, head: string, text: string)
    requires NumberedLine(line, head, text) && !st.openCodeBlock
    ensures OrderedRule(st, line)
         == Produced(st.(currentOrderedValue := NextNumber(st, head)),
                     (if st.currentOrderedValue == -1 then "\n" else "") + "\t"
                     + IntToString(NextNumber(st, head)) + ". " + text)
  {
    NumberedShape(line, head, text);
    NumberedSplit(line, head, text);
    DigitLineHasNonTerminator(line);
    assert CharAt(" " + text, 0) == " ";
    assert TrimStart(" " + text) == TrimStart(text);
    TrimOfTrimmed(text);
  }

  /** Any numbered item, whatever follows its text: the item shows the number and the
      trimmed part between the first and the second `.`; later parts are dropped. */
  lemma ItemLineOrdered(st: TextState, line: string)
    requires !st.openCodeBlock && StartsWithDigit(line) && IsOrderedItem(line)
    ensures var parts := Split(line, '.');
            OrderedRule(st, line)
            == Produced(st.(currentOrderedValue := NextNumber(st, parts[0])),
                        (if st.currentOrderedValue == -1 then "\n" else "") + "\t"
                        + IntToString(NextNumber(st, parts[0])) + ". " + Trim(parts[1]))
  {
    DigitLineHasNonTerminator(line);
  }

  /** `1. a. b` starts a run at 1 and shows only `a`. */
  lemma LaterPartsDropped(line: string)
    requires line == "1. a. b"
    ensures OrderedRule(Initial, line) == Produced(Initial.(currentOrderedValue := 1), "\n\t1. a")
  {
    ExampleParts(line);
    TrimOfTrimmed(line);
    assert Prefix(line, 1) == "1";
    assert StartsWithDigit(line);
    assert CharAt(" a", 0) == " ";
    ItemLineOrdered(Initial, line);
    assert TrimStart(" a") == TrimStart("a");
    TrimOfTrimmed("a");
    assert DigitsValue("1") == 1;
  }

  lemma ExampleParts(line: string)
    requires line == "1. a. b"
    ensures Split(line, '.') == ["1", " a", " b"]
  {
    var parts := ["1", " a", " b"];
    assert Join(parts[2..], '.') == " b";
    assert Join(parts[1..], '.') == " a" + ['.'] + " b";
    assert Join(parts, '.') == line;
    JoinSplit(parts, '.');
  }

  lemma NumberedStep(st: TextState, line: string, head: string, text: string)
    requires NumberedLine(line, head, text)
    requires !st.openCodeBlock && !st.shouldLineBreak && st.currentUnorderedValue <= 0
    ensures Transition(st, line)
         == Next(st.(currentOrderedValue := NextNumber(st, head)),
                 [NumberFragment(NextNumber(st, head), text, st.currentOrderedValue == -1)])
  {
    var s1 := st.(currentOrderedValue := NextNumber(st, head));
    var item := (if st.currentOrderedValue == -1 then "\n" else "") + "\t"
                + IntToString(NextNumber(st, head)) + ". " + text;
    NumberedParsed(st, line, head, text);
    NumberWrite(s1, NextNumber(st, head), text, st.currentOrderedValue == -1);
    TransitionOfParse(st, line, Produced(s1, item));
  }

  lemma NumberedParsed(st: TextState, line: string, head: string, text: string)
    requires NumberedLine(line, head, text)
    requires !st.openCodeBlock && st.currentUnorderedValue <= 0
    ensures ParseRule(st, line)
         == Produced(st.(currentOrderedValue := NextNumber(st, head)),
                     (if st.currentOrderedValue == -1 then "\n" else "") + "\t"
                     + IntToString(NextNumber(st, head)) + ". " + text)
  {
    NumberedShape(line, head, text);
    PlainPipeline(st, line);
    assert UnorderedRule(st, line) == (st, line);
    NumberedOrdered(st, line, head, text);
  }

  lemma NumberWrite(s: TextState, value: int, text: string, first: bool)
    requires !s.shouldLineBreak
    ensures WriteRule(s, (if first then "\n" else "") + "\t" + IntToString(value) + ". " + text)
         == (s, [NumberFragment(value, text, first)])
  {
  }

  /** The fragments a run of numbered items is written as, numbered on from `base`. */
  function NumberFragments(texts: seq<string>, first: bool, base: int): (w: seq<string>)
    ensures |w| == |texts|
    decreases texts
  {
    if texts == [] then []
    else [NumberFragment(base, texts[0], first)] + NumberFragments(texts[1..], false, base + 1)
  }

  /** Item `i` of a run carries number `base + i`, and only the first may follow a
      blank line. */
  lemma {:induction false} NumberFragmentAt(texts: seq<string>, first: bool, base: int, i: nat)
    requires i < |texts|
    ensures NumberFragments(texts, first, base)[i] == NumberFragment(base + i, texts[i], i == 0 && first)
    decreases i
  {
    if i > 0 {
      NumberFragmentAt(texts[1..], false, base + 1, i - 1);
      assert texts[1..][i - 1] == texts[i];
      assert base + 1 + (i - 1) == base + i;
    }
  }

  /** Numbered runs: outside a block, a run of numbered items is renumbered from the
      first item's own number (or on from the number before) one by one, whatever
      numbers the later items carry, and is written one tab-indented line each, after
      one blank line when no run was under way. */
  lemma {:induction false} NumberedRun(st: TextState, lines: seq<string>, heads: seq<string>,
                                       texts: seq<string>)
    requires |heads| == |lines| && |texts| == |lines|
    requires forall i :: 0 <= i < |lines| ==> NumberedLine(lines[i], heads[i], texts[i])
    requires forall i :: 0 <= i < |heads| ==> AllDigits(heads[i])
    requires !st.openCodeBlock && !st.shouldLineBreak && st.currentUnorderedValue <= 0
    requires st.currentOrderedValue >= -1
    ensures Transduce(st, lines).Finished?
    ensures lines == [] ==> Transduce(st, lines) == Finished(st, [])
    ensures lines != [] ==>
      Transduce(st, lines).state
        == st.(currentOrderedValue := NextNumber(st, heads[0]) + |lines| - 1)
      && Transduce(st, lines).written
         == NumberFragments(texts, st.currentOrderedValue == -1, NextNumber(st, heads[0]))
    decreases lines
  {
    if lines != [] {
      var base := NextNumber(st, heads[0]);
      var first := st.currentOrderedValue == -1;
      NumberedStep(st, lines[0], heads[0], texts[0]);
      var s1 := st.(currentOrderedValue := base);
      NumberedTail(lines, heads, texts);
      NumberedRun(s1, lines[1..], heads[1..], texts[1..]);
      var rest := Transduce(s1, lines[1..]);
      RunCons(st, lines, Next(s1, [NumberFragment(base, texts[0], first)]), rest);
      if |lines| > 1 {
        assert NextNumber(s1, heads[1..][0]) == base + 1;
      }
      assert NumberFragments(texts, first, base)
          == [NumberFragment(base, texts[0], first)] + NumberFragments(texts[1..], false, base + 1);
    }
  }

  lemma NumberedTail(lines: seq<string>, heads: seq<string>, texts: seq<string>)
    requires lines != [] && |heads| == |lines| && |texts| == |lines|
    requires forall i :: 0 <= i < |lines| ==> NumberedLine(lines[i], heads[i], texts[i])
    ensures forall i :: 0 <= i < |lines| - 1 ==>
      NumberedLine(lines[1..][i], heads[1..][i], texts[1..][i]) && AllDigits(heads[1..][i])
  {
    forall i | 0 <= i < |lines| - 1
      ensures NumberedLine(lines[1..][i], heads[1..][i], texts[1..][i]) && AllDigits(heads[1..][i])
    {
      assert NumberedLine(lines[i + 1], heads[i + 1], texts[i + 1]);
    }
  }

  /** `Transduce` over a first line that writes `next` and a rest that finishes. */
  lemma RunCons(st: TextState, lines: seq<string>, next: StepOutcome, rest: RunOutcome)
    requires lines != [] && next == Transition(st, lines[0]) && next.Next?
    requires rest == Transduce(next.state, lines[1..]) && rest.Finished?
    ensures Transduce(st, lines) == Finished(rest.state, next.written + rest.written)
  {
  }

  // ----- The converter -----

  /** A run outcome with `w` written in front of what it wrote. */
  function Prepend(w: seq<string>, r: RunOutcome): (p: RunOutcome)
    ensures p.Finished? == r.Finished?
  {
    match r
    case Finished(s, x) => Finished(s, w + x)
    case Aborted(x) => Aborted(w + x)
  }

  /** One more line of a run, seen from the output written so far. */
  lemma RunStep(st: TextState, rest: seq<string>, written: seq<string>, t: StepOutcome,
                 tail: RunOutcome)
    requires rest != [] && t == Transition(st, rest[0]) && t.Next?
    requires tail == Transduce(t.state, rest[1..])
    ensures Prepend(written, Transduce(st, rest)) == Prepend(written + t.written, tail)
  {
    assert written + (t.written + tail.written) == (written + t.written) + tail.written;
  }

  /** `Indented` once the two keyword tests are known. */
  lemma IndentedBy(tab: int, t: string, starter: bool, ender: bool)
    requires starter == HasBlockStarter(t) && ender == HasBlockEnder(t)
    ensures var before := if ender then tab - 1 else tab;
            Indented(tab, t)
            == (if starter then before + 1 else before, (if before > 0 then Repeat("\t", before) else "") + t)
  {
  }

  /** The module state of the converter and the output written so far. */
  class TextConverter {
    var currentOrderedValue: int
    var currentUnorderedValue: int
    var shouldLineBreak: bool
    var shouldTab: int
    var openCodeBlock: bool
    var output: seq<string>

    function Snapshot(): TextState
      reads this
    {
      TextState(currentOrderedValue, currentUnorderedValue, shouldLineBreak, shouldTab, openCodeBlock)
    }

    /** Start-up: no run under way, no pending blank line, depth zero, no block. */
    constructor ()
      ensures Snapshot() == Initial && output == []
    {
      currentOrderedValue := -1;
      currentUnorderedValue := -1;
      shouldLineBreak := false;
      shouldTab := 0;
      openCodeBlock := false;
      output := [];
    }

    method CodeBlockType(line: string) returns (ty: string)
      modifies this`openCodeBlock
      ensures ty == TextBlockType(line)
      ensures openCodeBlock == !old(openCodeBlock)
    {
      ty := SubstringFrom(line, 3);
      if ty == "" {
        ty := "none";
      }
      openCodeBlock := !openCodeBlock;
    }

    method CodeLineToText(line: string) returns (r: string)
      modifies this`openCodeBlock, this`shouldTab
      ensures (Snapshot(), r) == CodeLineRule(old(Snapshot()), line)
    {
      r := line;
      if IsLimitCodeBlock(line) {
        var ty := CodeBlockType(line);
        if ty != "none" {
          r := ReplaceFirst(r, ty, "");
        }
        r := ReplaceFirst(r, Fence, "");
      } else if openCodeBlock {
        r := IndentBlockLine(Trim(r));
      }
    }

    /** The indentation part of `codeLineToText` for a trimmed line inside a block. */
    method IndentBlockLine(t: string) returns (r: string)
      modifies this`shouldTab
      ensures (shouldTab, r) == Indented(old(shouldTab), t)
    {
      ghost var tab := shouldTab;
      var nextTab := HasBlockStarter(t);
      var nextBack := HasBlockEnder(t);
      if nextBack {
        shouldTab := shouldTab - 1;
      }
      r := t;
      if shouldTab > 0 {
        r := Repeat("\t", shouldTab) + r;
      } else {
        assert "" + t == t;
      }
      if nextTab {
        shouldTab := shouldTab + 1;
      }
      IndentedBy(tab, t, nextTab, nextBack);
    }

    method HeadersToText(line: string) returns (r: string)
      ensures r == HeadersRule(Snapshot(), line)
    {
      r := line;
      if !openCodeBlock {
        var t := Trim(line);
        var count := CountChar(t, '#');
        r := Trim(SubstringFrom(t, count));
        if count > 0 {
          r := r + "\n";
        }
      }
    }

    method UnorderedListToText(line: string) returns (r: string)
      modifies this`currentUnorderedValue, this`shouldLineBreak
      ensures (Snapshot(), r) == UnorderedRule(old(Snapshot()), line)
    {
      r := line;
      if StartsWithBullet(line) && !openCodeBlock {
        var start := "";
        if currentUnorderedValue == -1 {
          currentUnorderedValue := 1;
          start := "\n";
        } else {
          currentUnorderedValue := currentUnorderedValue + 1;
        }
        r := start + "\t" + "\U{2022} " + SubstringFrom(line, 2);
      } else if currentUnorderedValue > 0 {
        shouldLineBreak := true;
        currentUnorderedValue := -1;
      }
    }

    /** `ok` is false where the source reads the missing second part and throws. */
    method OrderedListToText(line: string) returns (r: string, ok: bool)
      modifies this`currentOrderedValue, this`shouldLineBreak
      ensures ok == OrderedRule(old(Snapshot()), line).Produced?
      ensures ok ==> Snapshot() == OrderedRule(old(Snapshot()), line).state
                     && r == OrderedRule(old(Snapshot()), line).line
      ensures !ok ==> Snapshot() == old(Snapshot())
    {
      r, ok := line, true;
      if StartsWithDigit(line) && HasNonTerminator(line) && !openCodeBlock {
        var parts := Split(line, '.');
        if AllDigits(parts[0]) {
          if |parts| < 2 {
            ok := false;
            return;
          }
          if CharAt(parts[1], 0) == " " {
            var start := "";
            if currentOrderedValue == -1 {
              currentOrderedValue := DigitsValue(parts[0]);
              start := "\n";
            } else {
              currentOrderedValue := currentOrderedValue + 1;
            }
            r := Trim(parts[1]);
            r := start + "\t" + IntToString(currentOrderedValue) + ". " + r;
          }
        }
      } else if currentOrderedValue > 0 {
        shouldLineBreak := true;
        currentOrderedValue := -1;
      }
    }

    method ParserPipeline(line: string) returns (r: string, ok: bool)
      modifies this`currentOrderedValue, this`currentUnorderedValue, this`shouldLineBreak,
               this`shouldTab, this`openCodeBlock
      ensures ok == PipelineRule(old(Snapshot()), line).Produced?
      ensures ok ==> Snapshot() == PipelineRule(old(Snapshot()), line).state
                     && r == PipelineRule(old(Snapshot()), line).line
    {
      r := CodeHighlightToText(line);
      r := CodeLineToText(r);
      r := HeadersToText(r);
      r := HorizontalRuleToText(r);
      r := UnorderedListToText(r);
      r, ok := OrderedListToText(r);
    }

    method ParseLine(line: string) returns (r: string, ok: bool)
      modifies this`currentOrderedValue, this`currentUnorderedValue, this`shouldLineBreak,
               this`shouldTab, this`openCodeBlock
      ensures ok == ParseRule(old(Snapshot()), line).Produced?
      ensures ok ==> Snapshot() == ParseRule(old(Snapshot()), line).state
                     && r == ParseRule(old(Snapshot()), line).line
    {
      r, ok := line, true;
      if line != "" {
        r, ok := ParserPipeline(line);
      }
    }

    method WriteLine(line: string)
      modifies this`shouldLineBreak, this`output
      ensures Snapshot() == WriteRule(old(Snapshot()), line).0
      ensures output == old(output) + WriteRule(old(Snapshot()), line).1
    {
      if line != "" {
        var l := line;
        if shouldLineBreak {
          l := "\n" + l;
          shouldLineBreak := false;
        } else {
          assert "" + line == line;
        }
        output := output + [l + "\n"];
      }
    }

    /** The `line` handler: `writeLine(parseLine(line))`; `ok` is false when parsing
        throws, and then nothing is written. */
    method Step(line: string) returns (ok: bool)
      modifies this
      ensures ok == Transition(old(Snapshot()), line).Next?
      ensures ok ==> Snapshot() == Transition(old(Snapshot()), line).state
                     && output == old(output) + Transition(old(Snapshot()), line).written
      ensures !ok ==> output == old(output)
    {
      var r;
      r, ok := ParseLine(line);
      if ok {
        WriteLine(r);
      }
    }

    /** Every line in order until one throws; a run read to the end is closed by the
        final newline of the `pause` handler. */
    method Run(lines: seq<string>) returns (ok: bool)
      modifies this
      ensures ok == Transduce(old(Snapshot()), lines).Finished?
      ensures ok ==> Snapshot() == Transduce(old(Snapshot()), lines).state
                     && output == old(output) + Transduce(old(Snapshot()), lines).written + ["\n"]
      ensures !ok ==> output == old(output) + Transduce(old(Snapshot()), lines).written
    {
      ghost var st0 := Snapshot();
      ghost var out0 := output;
      ok := true;
      var i := 0;
      while i < |lines| && ok
        invariant 0 <= i <= |lines|
        invariant ok ==> Prepend(output, Transduce(Snapshot(), lines[i..])) == Prepend(out0, Transduce(st0, lines))
        invariant !ok ==> Prepend(out0, Transduce(st0, lines)) == Aborted(output)
        decreases |lines| - i
      {
        ghost var pre := Snapshot();
        ghost var before := output;
        assert lines[i..][0] == lines[i] && lines[i..][1..] == lines[i + 1..];
        ok := Step(lines[i]);
        if ok {
          RunStep(pre, lines[i..], before, Transition(pre, lines[i]), Transduce(Snapshot(), lines[i + 1..]));
        } else {
          assert Transduce(pre, lines[i..]) == Aborted([]);
          assert before + [] == before;
        }
        i := i + 1;
      }
      if ok {
        assert lines[i..] == [];
        assert output == out0 + Transduce(st0, lines).written;
        output := output + ["\n"];
      } else {
        assert output == out0 + Transduce(st0, lines).written;
      }
    }
  }

  /** A whole conversion with a fresh converter: what is written, and whether the input
      was read to the end. */
  method Convert(lines: seq<string>) returns (out: seq<string>, ok: bool)
    ensures (out, ok) == Document(lines)
  {
    var converter := new TextConverter();
    ok := converter.Run(lines);
    out := converter.output;
    assert [] + Transduce(Initial, lines).written == Transduce(Initial, lines).written;
  }
}
