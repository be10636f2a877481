/** The Markdown-to-HTML converter (main.js): a line-at-a-time transducer whose parse
    state is the open code block, the language of the last tagged fence and the open
    unordered list. Every non-empty line runs through five rules in a fixed order
    (inline code, fence, header, horizontal rule, unordered list); an empty line closes
    an open list; the writer wraps the result in `<div>` or prefixes a space.

    The rules are first stated as functions over `ParserState`; the class
    `HtmlConverter` holds the same state in fields, as the module variables of the
    source do, and each of its methods is proved to agree with its function. */
module Html {
  import opened JsString
  import opened Markdown

  /** Written once before the first line. */
  const Preamble: string :=
    "<!DOCTYPE html>\n<html>\n<head>\n<title>Markdown to HTML</title>\n"
    + "<script src=\"https://cdn.jsdelivr.net/gh/google/code-prettify@master/loader/run_prettify.js\"></script>\n"
    + "</head>\n<body></body>\n"

  /** Written once when the input ends. */
  const Epilogue: string := "</body>\n</html>"

  const PreOpen: string := "<pre class=\"prettyprint\"><code>"
  const PreClose: string := "</br></code></pre>"

  function PreOpenLanguage(tag: string): string {
    "<pre class=\"prettyprint\"><code class=\"language-" + tag + "\">"
  }

  datatype ParserState = ParserState(
    openCodeBlock: bool,
    openedCodeBlockType: string,
    openUnorderedList: bool)

  const Initial: ParserState := ParserState(false, "block", false)

  // ----- Headers -----

  /** The largest `i <= k` whose character `i - 1` of `t` is `#`, or 0 when there is none. */
  function LastHashUpTo(t: string, k: nat): (n: nat)
    ensures n <= k
    ensures n > 0 ==> n <= |t| && t[n - 1] == '#'
    ensures forall j :: n <= j < k && j < |t| ==> t[j] != '#'
  {
    if k == 0 then 0
    else if k <= |t| && t[k - 1] == '#' then k
    else LastHashUpTo(t, k - 1)
  }

  /** The header level of a line: the largest `i` in 1..6 whose character `i - 1` of
      the trimmed line is `#`, or 0. Only positions count, not a leading run: `a#` has
      level 2 and `########` level 6. */
  function HeaderLevel(line: string): (n: nat)
    ensures n <= 6
    ensures n > 0 ==> n <= |Trim(line)| && Trim(line)[n - 1] == '#'
    ensures forall j :: n <= j < 6 && j < |Trim(line)| ==> Trim(line)[j] != '#'
  {
    LastHashUpTo(Trim(line), 6)
  }

  /** `getHeaderType`: the loop over positions 1..6, remembering the last `#`. */
  method GetHeaderType(line: string) returns (n: nat)
    ensures n == HeaderLevel(line)
  {
    n := 0;
    var t := Trim(line);
    for i := 1 to 7
      invariant n == LastHashUpTo(t, i - 1)
    {
      if CharAt(t, i - 1) == "#" {
        n := i;
      }
    }
  }

  /** `hToHtml`: with a level `n > 0` and no code block open, the untrimmed line loses
      its first `n + 1` characters and is wrapped in `<hN>`; otherwise it is unchanged. */
  function HeaderRule(st: ParserState, line: string): (r: string)
    ensures st.openCodeBlock || HeaderLevel(line) == 0 ==> r == line
    ensures !st.openCodeBlock && HeaderLevel(line) > 0 ==>
      var tag := [('0' as int + HeaderLevel(line)) as char];
      r == "<h" + tag + ">" + SubstringFrom(line, HeaderLevel(line) + 1) + "</h" + tag + ">"
  {
    var n := HeaderLevel(line);
    if n > 0 && !st.openCodeBlock then
      "<h" + NatToString(n) + ">" + SubstringFrom(line, n + 1) + "</h" + NatToString(n) + ">"
    else
      line
  }

  /** Levels count positions, not a leading run of `#`: `a#` is level 2. */
  lemma HeaderLevelCountsPositions()
    ensures HeaderLevel("a#") == 2
  {
    var s := "a#";
    TrimOfTrimmed(s);
    assert LastHashUpTo(s, 2) == 2;
    assert LastHashUpTo(s, 6) == 2;
  }

  /** A `#` inside the text raises the level: `# a#` is level 4. */
  lemma HeaderLevelCountsLaterHash()
    ensures HeaderLevel("# a#") == 4
  {
    var u := "# a#";
    TrimOfTrimmed(u);
    assert LastHashUpTo(u, 4) == 4;
    assert LastHashUpTo(u, 6) == 4;
  }

  /** A run longer than six `#` is still level 6. */
  lemma HeaderLevelCapped()
    ensures HeaderLevel("########") == 6
  {
    var s := "########";
    TrimOfTrimmed(s);
    assert s[5] == '#';
    assert LastHashUpTo(s, 6) == 6;
  }

  /** The level is `n` when character `n - 1` is the last `#` among the first `k`. */
  lemma {:induction false} LastHashIs(t: string, k: nat, n: nat)
    requires 1 <= n <= k && n <= |t| && t[n - 1] == '#'
    requires forall j :: n <= j < k && j < |t| ==> t[j] != '#'
    ensures LastHashUpTo(t, k) == n
  {
    if k > n {
      LastHashIs(t, k - 1, n);
    }
  }

  lemma {:induction false} HashesAreHashes(n: nat)
    ensures forall i :: 0 <= i < n ==> Repeat("#", n)[i] == '#'
  {
    if n > 0 {
      HashesAreHashes(n - 1);
      assert Repeat("#", n) == "#" + Repeat("#", n - 1);
    }
  }

  /** The characters of `n` hashes, a space and a text. */
  lemma HeaderLineShape(n: nat, text: string)
    ensures |Repeat("#", n) + " " + text| == n + 1 + |text|
    ensures forall i :: 0 <= i < n ==> (Repeat("#", n) + " " + text)[i] == '#'
    ensures (Repeat("#", n) + " " + text)[n] == ' '
    ensures (Repeat("#", n) + " " + text)[n + 1..] == text
  {
    HashesAreHashes(n);
  }

  /** A character that is not white space survives the trim of a string that does not
      start with white space. */
  lemma TrimKeeps(s: string, i: nat)
    requires i < |s| && !IsWhiteSpace(s[0]) && !IsWhiteSpace(s[i])
    ensures i < |Trim(s)| && Trim(s) == s[..|Trim(s)|]
  {
    TrimStartOfClean(s);
  }

  /** `n` hashes, a space and a text without `#` render as a level-`n` header of that
      text while no code block is open. */
  lemma HeaderRendering(st: ParserState, n: nat, text: string)
    requires 1 <= n <= 6 && '#' !in text && !st.openCodeBlock
    ensures HeaderLevel(Repeat("#", n) + " " + text) == n
    ensures HeaderRule(st, Repeat("#", n) + " " + text)
         == "<h" + NatToString(n) + ">" + text + "</h" + NatToString(n) + ">"
  {
    var line := Repeat("#", n) + " " + text;
    HeaderLineShape(n, text);
    TrimKeeps(line, n - 1);
    var t := Trim(line);
    forall j | n <= j < 6 && j < |t|
      ensures t[j] != '#'
    {
      assert t[j] == line[j];
      if j > n {
        assert line[j] == line[n + 1..][j - n - 1];
        assert line[j] in text;
      }
    }
    LastHashIs(t, 6, n);
  }

  // ----- Inline code -----

  /** The length of the backtick run that starts `s`. */
  function LeadingTicks(s: string): (k: nat)
    ensures k <= |s|
    ensures forall i :: 0 <= i < k ==> s[i] == '`'
    ensures k < |s| ==> s[k] != '`'
  {
    if s != [] && s[0] == '`' then 1 + LeadingTicks(s[1..]) else 0
  }

  /** `line.match(/`+/g)`: the lengths of the maximal backtick runs, left to right. */
  function TickRuns(s: string): (runs: seq<nat>)
    ensures forall k :: k in runs ==> 0 < k <= |s|
    ensures runs == [] <==> '`' !in s
    decreases |s|
  {
    if s == [] then []
    else if s[0] != '`' then
      assert s == [s[0]] + s[1..];
      TickRuns(s[1..])
    else
      var k := LeadingTicks(s);
      assert k >= 1 by {
        assert s[0] == '`';
      }
      var rest := TickRuns(s[k..]);
      assert forall x :: x in rest ==> x <= |s[k..]|;
      [k] + rest
  }

  function Sum(runs: seq<nat>): nat {
    if runs == [] then 0 else runs[0] + Sum(runs[1..])
  }

  /** The backticks of `s` are those of its leading run and those after it. */
  lemma {:induction false} LeadingTicksCount(s: string)
    ensures CountChar(s, '`') == LeadingTicks(s) + CountChar(s[LeadingTicks(s)..], '`')
    decreases |s|
  {
    if s != [] && s[0] == '`' {
      LeadingTicksCount(s[1..]);
      assert s[1..][LeadingTicks(s[1..])..] == s[LeadingTicks(s)..];
    }
  }

  /** The runs account for every backtick of the line. */
  lemma {:induction false} TickRunsCount(s: string)
    ensures Sum(TickRuns(s)) == CountChar(s, '`')
    decreases |s|
  {
    if s != [] {
      if s[0] != '`' {
        TickRunsCount(s[1..]);
      } else {
        var k := LeadingTicks(s);
        TickRunsCount(s[k..]);
        LeadingTicksCount(s);
        assert ([k] + TickRuns(s[k..]))[1..] == TickRuns(s[k..]);
      }
    }
  }

  /** A run of `k` backticks followed by a non-backtick. */
  lemma {:induction false} LeadingTicksOfRun(k: nat, rest: string)
    requires rest == [] || rest[0] != '`'
    ensures LeadingTicks(Repeat("`", k) + rest) == k
    ensures (Repeat("`", k) + rest)[k..] == rest
    decreases k
  {
    if k > 0 {
      var s := Repeat("`", k) + rest;
      assert s[0] == '`' && s[1..] == Repeat("`", k - 1) + rest;
      LeadingTicksOfRun(k - 1, rest);
    } else {
      assert Repeat("`", 0) + rest == rest;
    }
  }

  /** The runs are maximal: `a`, a run of exactly `k` backticks and a rest that does not
      continue the run, give `k` followed by the runs of the rest. */
  lemma TickRunsOf(a: string, k: nat, rest: string)
    requires '`' !in a && k > 0
    requires rest == [] || rest[0] != '`'
    ensures TickRuns(a + Repeat("`", k) + rest) == [k] + TickRuns(rest)
  {
    assert a + Repeat("`", k) + rest == a + (Repeat("`", k) + rest);
    TickRunsSkipsPlain(a, Repeat("`", k) + rest);
    LeadingTicksOfRun(k, rest);
    var s := Repeat("`", k) + rest;
    assert s[0] == '`';
  }

  function MaxOf(runs: seq<nat>): (m: nat)
    ensures forall k :: k in runs ==> k <= m
  {
    if runs == [] then 0
    else
      var m := MaxOf(runs[1..]);
      assert forall k :: k in runs ==> k == runs[0] || k in runs[1..];
      if runs[0] > m then runs[0] else m
  }

  function DescendingFrom(m: nat, runs: seq<nat>): (r: seq<nat>)
    ensures forall i, j :: 0 <= i < j < |r| ==> r[i] > r[j]
    ensures forall k :: k in r <==> k in runs && 0 < k <= m
  {
    if m == 0 then []
    else
      var rest := DescendingFrom(m - 1, runs);
      if m in runs then
        assert forall k :: k in rest ==> k < m;
        assert forall j :: 0 <= j < |rest| ==> rest[j] in rest;
        [m] + rest
      else rest
  }

  /** The run list after `sort` by decreasing length and `new Set`: every run length
      once, longest first. Runs of one length are equal strings, so the stability of
      the sort does not matter. */
  function DistinctDescending(runs: seq<nat>): (r: seq<nat>)
    ensures forall i, j :: 0 <= i < j < |r| ==> r[i] > r[j]
    ensures forall k :: k in r <==> k in runs && k > 0
  {
    DescendingFrom(MaxOf(runs), runs)
  }

  /** One pass of the `forEach`: the first occurrence of the run opens a code span and
      the next occurrence closes it. */
  function MarkSpan(line: string, k: nat): string {
    var ticks := Repeat("`", k);
    ReplaceFirst(ReplaceFirst(line, ticks, "<code>"), ticks, "</code>")
  }

  function MarkSpans(line: string, runs: seq<nat>): string
    decreases runs
  {
    if runs == [] then line else MarkSpans(MarkSpan(line, runs[0]), runs[1..])
  }

  /** `codeHighlightToHtml`, as a value. */
  function Highlighted(line: string): (r: string)
    ensures IsLimitCodeBlock(line) ==> r == line
    ensures '`' !in line ==> r == line
  {
    if IsLimitCodeBlock(line) then line
    else MarkSpans(line, DistinctDescending(TickRuns(line)))
  }

  /** `codeHighlightToHtml`: fence lines pass; on other lines each distinct backtick run,
      longest first, has its first occurrence replaced by `<code>` and its next one by
      `</code>`. */
  method CodeHighlightToHtml(line: string) returns (r: string)
    ensures r == Highlighted(line)
  {
    r := line;
    if !IsLimitCodeBlock(line) {
      var list := DistinctDescending(TickRuns(line));
      for i := 0 to |list|
        invariant MarkSpans(r, list[i..]) == MarkSpans(line, list)
      {
        var ticks := Repeat("`", list[i]);
        r := ReplaceFirst(r, ticks, "<code>");
        r := ReplaceFirst(r, ticks, "</code>");
        assert list[i..][1..] == list[i + 1..];
      }
    }
  }

  lemma ReplaceFirstChar(x: string, c: char, y: string, rep: string)
    requires c !in x
    ensures ReplaceFirst(x + [c] + y, [c], rep) == x + rep + y
  {
    var s := x + [c] + y;
    assert OccursAt(s, [c], |x|);
    forall j | 0 <= j < |x|
      ensures !OccursAt(s, [c], j)
    {
      assert s[j..j + 1] == [x[j]];
    }
    ReplaceFirstAt(s, [c], rep, |x|);
    assert s[|x| + 1..] == y;
  }

  lemma {:induction false} TickRunsSkipsPlain(a: string, rest: string)
    requires '`' !in a
    ensures TickRuns(a + rest) == TickRuns(rest)
  {
    if a != [] {
      assert (a + rest)[0] == a[0] && a[0] in a;
      assert (a + rest)[1..] == a[1..] + rest;
      TickRunsSkipsPlain(a[1..], rest);
    } else {
      assert a + rest == rest;
    }
  }

  /** The tick run of length one at the start of "`" + rest, rest not starting with a tick. */
  lemma SingleTickRun(rest: string)
    requires rest == [] || rest[0] != '`'
    ensures TickRuns("`" + rest) == [1] + TickRuns(rest)
  {
    var s := "`" + rest;
    assert LeadingTicks(s) == 1 by {
      assert s[1..] == rest;
    }
    assert s[1..] == rest;
  }

  lemma DistinctOfOnes()
    ensures DistinctDescending([1, 1]) == [1]
  {
    var r := DistinctDescending([1, 1]);
    assert 1 in r;
    assert forall k :: k in r ==> k == 1;
    assert forall i :: 0 <= i < |r| ==> r[i] in r;
    assert |r| == 1;
  }

  /** In `` a`b`c `` with backtick-free parts, the only backticks are the two delimiters. */
  lemma SpanTicks(a: string, b: string, c: string)
    requires '`' !in a && '`' !in b && '`' !in c
    ensures forall i :: 0 <= i < |a + "`" + b + "`" + c| && i != |a| && i != |a| + 1 + |b| ==>
      (a + "`" + b + "`" + c)[i] != '`'
  {
    var s := a + "`" + b + "`" + c;
    forall i | 0 <= i < |s| && i != |a| && i != |a| + 1 + |b|
      ensures s[i] != '`'
    {
      if i < |a| {
        assert s[i] == a[i] && a[i] in a;
      } else if i < |a| + 1 + |b| {
        assert s[i] == b[i - |a| - 1] && b[i - |a| - 1] in b;
      } else {
        assert s[i] == c[i - |a| - 2 - |b|] && c[i - |a| - 2 - |b|] in c;
      }
    }
  }

  /** Two single backticks around a non-empty text never make three in a row. */
  lemma SpanIsNotFence(a: string, b: string, c: string)
    requires '`' !in a && '`' !in b && '`' !in c && b != []
    ensures !IsLimitCodeBlock(a + "`" + b + "`" + c)
  {
    var s := a + "`" + b + "`" + c;
    SpanTicks(a, b, c);
    forall j | 0 <= j
      ensures !OccursAt(s, Fence, j)
    {
      if j + 3 <= |s| {
        if j != |a| && j != |a| + 1 + |b| {
          assert s[j..j + 3][0] == s[j];
        } else {
          assert s[j..j + 3][1] == s[j + 1];
        }
      }
    }
    ReplaceFirstAbsent(s, Fence, Fence);
    assert CountFrom(s, Fence, 0) == 0;
  }

  /** The backtick runs of `` a`b`c `` are two runs of one. */
  lemma SpanRuns(a: string, b: string, c: string)
    requires '`' !in a && '`' !in b && '`' !in c && b != []
    ensures TickRuns(a + "`" + b + "`" + c) == [1, 1]
  {
    assert a + "`" + b + "`" + c == a + ("`" + (b + ("`" + c)));
    TickRunsSkipsPlain(a, "`" + (b + ("`" + c)));
    SingleTickRun(b + ("`" + c));
    TickRunsSkipsPlain(b, "`" + c);
    SingleTickRun(c);
  }

  /** Replacing the first backtick by `<code>` and the next by `</code>`. */
  lemma SpanMarked(a: string, b: string, c: string)
    requires '`' !in a && '`' !in b && '`' !in c
    ensures MarkSpan(a + "`" + b + "`" + c, 1) == a + "<code>" + b + "</code>" + c
  {
    assert Repeat("`", 1) == "`";
    assert a + "`" + b + "`" + c == a + ['`'] + (b + "`" + c);
    ReplaceFirstChar(a, '`', b + "`" + c, "<code>");
    assert a + "<code>" + (b + "`" + c) == (a + "<code>" + b) + ['`'] + c;
    assert '`' !in a + "<code>" + b;
    ReplaceFirstChar(a + "<code>" + b, '`', c, "</code>");
  }

  /** A single span: `` a`b`c `` with backtick-free `a`, `c` and a non-empty
      backtick-free `b` becomes `a<code>b</code>c`. */
  lemma InlineCodeSpan(a: string, b: string, c: string)
    requires '`' !in a && '`' !in b && '`' !in c && b != []
    ensures Highlighted(a + "`" + b + "`" + c) == a + "<code>" + b + "</code>" + c
  {
    var s := a + "`" + b + "`" + c;
    SpanIsNotFence(a, b, c);
    SpanRuns(a, b, c);
    DistinctOfOnes();
    SpanMarked(a, b, c);
    assert MarkSpans(s, [1]) == MarkSpans(MarkSpan(s, 1), []);
  }

  /** An unpaired backtick opens a code span that nothing closes: `` a`b `` with
      backtick-free `a` and `b` becomes `a<code>b`. */
  lemma UnpairedTick(a: string, b: string)
    requires '`' !in a && '`' !in b
    ensures Highlighted(a + "`" + b) == a + "<code>" + b
  {
    var s := a + "`" + b;
    assert s == a + ['`'] + b;
    forall j | 0 <= j
      ensures !OccursAt(s, Fence, j)
    {
      if j + 3 <= |s| {
        if j < |a| {
          assert s[j..j + 3][0] == s[j] == a[j] && a[j] in a;
        } else if j > |a| {
          assert s[j..j + 3][0] == s[j] == b[j - |a| - 1] && b[j - |a| - 1] in b;
        } else {
          assert s[j..j + 3][1] == s[j + 1] == b[0] && b[0] in b;
        }
      }
    }
    ReplaceFirstAbsent(s, Fence, Fence);
    assert !IsLimitCodeBlock(s);
    assert s == a + ("`" + b);
    TickRunsSkipsPlain(a, "`" + b);
    SingleTickRun(b);
    assert TickRuns(b) == [];
    OneOnly();
    assert Repeat("`", 1) == "`";
    ReplaceFirstChar(a, '`', b, "<code>");
    assert '`' !in a + "<code>" + b;
    NoOccurrenceWithoutFirstChar(a + "<code>" + b, "`");
    ReplaceFirstAbsent(a + "<code>" + b, "`", "</code>");
    assert MarkSpans(s, [1]) == MarkSpans(MarkSpan(s, 1), []);
  }

  lemma OneOnly()
    ensures DistinctDescending([1]) == [1]
  {
    var r := DistinctDescending([1]);
    assert 1 in r;
    assert forall k :: k in r ==> k == 1;
    assert forall i :: 0 <= i < |r| ==> r[i] in r;
    assert |r| == 1;
  }

  // ----- Fences -----

  /** `codeBlockType`, as a value: the text after the first three characters, or, for
      a bare fence, `end` when a block is open and `none` when none is. */
  function BlockType(open: bool, line: string): (ty: string)
    ensures ty != ""
    ensures |line| > 3 ==> ty == line[3..]
    ensures |line| <= 3 ==> ty == (if open then "end" else "none")
  {
    var rest := SubstringFrom(line, 3);
    if rest == "" then (if open then "end" else "none") else rest
  }

  /** `limitCodeBlockToHtml` together with the `codeBlockType` it calls. */
  function FenceRule(st: ParserState, line: string): (r: (ParserState, string))
    ensures r.0.openCodeBlock == (st.openCodeBlock != IsLimitCodeBlock(line))
    ensures r.0.openUnorderedList == st.openUnorderedList
    ensures !IsLimitCodeBlock(line) ==> r == (st, line)
  {
    if !IsLimitCodeBlock(line) then (st, line)
    else
      var ty := BlockType(st.openCodeBlock, line);
      var tagged := ty != "end" && ty != "none";
      var stripped := if tagged then ReplaceFirst(line, ty, "") else line;
      var kind := if ty == "end" then "block" else if tagged then ty else st.openedCodeBlockType;
      var rendered :=
        if ty == "end" then ReplaceFirst(stripped, Fence, PreClose)
        else if kind == "block" then ReplaceFirst(stripped, Fence, PreOpen)
        else ReplaceFirst(stripped, Fence, PreOpenLanguage(kind));
      (ParserState(!st.openCodeBlock, kind, st.openUnorderedList), rendered)
  }

  lemma ReplaceWholeFence(rep: string)
    ensures ReplaceFirst(Fence, Fence, rep) == rep
  {
    ReplaceFirstAt(Fence, Fence, rep, 0);
  }

  /** A bare fence while a block is open closes it and forgets the language. */
  lemma BareFenceCloses(st: ParserState)
    requires st.openCodeBlock
    ensures FenceRule(st, Fence)
         == (ParserState(false, "block", st.openUnorderedList), PreClose)
  {
    FenceWithTag("");
    assert Fence + "" == Fence;
    ReplaceWholeFence(PreClose);
  }

  /** A bare fence while no block is open opens one, in the language of the last tagged
      fence unless a bare closing fence has reset it since. */
  lemma BareFenceOpens(st: ParserState)
    requires !st.openCodeBlock
    ensures FenceRule(st, Fence)
         == (st.(openCodeBlock := true),
             if st.openedCodeBlockType == "block" then PreOpen
             else PreOpenLanguage(st.openedCodeBlockType))
  {
    FenceWithTag("");
    assert Fence + "" == Fence;
    ReplaceWholeFence(PreOpen);
    ReplaceWholeFence(PreOpenLanguage(st.openedCodeBlockType));
  }

  /** A tagged fence always renders as an opening tag in its language, and records it,
      even when the fence is the one that closes the block. */
  lemma {:induction false} TaggedFenceOpens(st: ParserState, tag: string)
    requires tag != "" && '`' !in tag && tag != "end" && tag != "none"
    ensures FenceRule(st, Fence + tag)
         == (ParserState(!st.openCodeBlock, tag, st.openUnorderedList),
             if tag == "block" then PreOpen else PreOpenLanguage(tag))
  {
    var line := Fence + tag;
    FenceWithTag(tag);
    assert SubstringFrom(line, 3) == tag;
    // The tag first occurs right after the backticks.
    assert OccursAt(line, tag, 3);
    forall j | 0 <= j < 3
      ensures !OccursAt(line, tag, j)
    {
      if j + |tag| <= |line| {
        assert line[j..j + |tag|][0] == '`';
      }
    }
    ReplaceFirstAt(line, tag, "", 3);
    assert line[..3] + "" + line[3 + |tag|..] == Fence;
    ReplaceWholeFence(PreOpen);
    ReplaceWholeFence(PreOpenLanguage(tag));
  }

  // ----- Horizontal rule -----

  /** `horizontalRuleToHtml`: exactly `---`, `___` and `***` become `<hr>`; every other
      line is returned unchanged. */
  function HorizontalRuleToHtml(line: string): (r: string)
    ensures IsHorizontalRule(line) ==> r == "<hr>"
    ensures !IsHorizontalRule(line) ==> r == line
  {
    if IsHorizontalRule(line) then "<hr>" else line
  }

  // ----- Unordered list -----

  /** `unorderedlistToHtml`: an item line loses its marker and becomes `<li>…</li>`,
      preceded by `<ul>` and a newline when no list is open; the list is then open. */
  function ListRule(st: ParserState, line: string): (r: (ParserState, string))
    ensures r.0 == st.(openUnorderedList := st.openUnorderedList || StartsWithBulletMarker(line))
    ensures StartsWithBulletMarker(line) ==>
      r.1 == (if st.openUnorderedList then "<li>" else "<ul>\n<li>") + line[1..] + "</li>"
    ensures !StartsWithBulletMarker(line) ==> r.1 == line
  {
    if StartsWithBulletMarker(line) then
      var item := SubstringFrom(line, 1);
      (st.(openUnorderedList := true),
       (if st.openUnorderedList then "<li>" else "<ul>\n<li>") + item + "</li>")
    else
      (st, line)
  }

  // ----- Pipeline, parse, write -----

  /** `parserPipeline`: inline code, fence, header, horizontal rule, unordered list. */
  function PipelineRule(st: ParserState, line: string): (r: (ParserState, string))
    ensures r.0.openCodeBlock == (st.openCodeBlock != IsLimitCodeBlock(Highlighted(line)))
    ensures st.openUnorderedList ==> r.0.openUnorderedList
  {
    var l1 := Highlighted(line);
    var (s2, l2) := FenceRule(st, l1);
    var l3 := HeaderRule(s2, l2);
    var l4 := HorizontalRuleToHtml(l3);
    ListRule(s2, l4)
  }

  /** `parseLine`: a non-empty line runs the pipeline; an empty line becomes `</ul>` and
      closes the list when one is open, and is left alone otherwise. */
  function ParseRule(st: ParserState, line: string): (r: (ParserState, string))
    ensures line == "" ==>
      r == (st.(openUnorderedList := false), if st.openUnorderedList then "</ul>" else "")
    ensures line != "" && st.openUnorderedList ==> r.0.openUnorderedList
  {
    if line != "" then PipelineRule(st, line)
    else if st.openUnorderedList then (st.(openUnorderedList := false), "</ul>")
    else (st, line)
  }

  /** `writeLine`, as the fragments it writes: none for an empty line, a `<div>` when
      neither a code block nor a list is open, a leading space otherwise. */
  function WriteRule(st: ParserState, line: string): (w: seq<string>)
    ensures line == "" <==> w == []
    ensures line != "" && !st.openCodeBlock && !st.openUnorderedList ==> w == ["<div>" + line + "</div>\n"]
    ensures line != "" && (st.openCodeBlock || st.openUnorderedList) ==>
      w == [" " + line + "\n"]
  {
    if line == "" then []
    else if !st.openCodeBlock && !st.openUnorderedList then ["<div>" + line + "</div>\n"]
    else [" " + line + "\n"]
  }

  /** One input line: parse it, then write it in the state parsing left behind. */
  function Transition(st: ParserState, line: string): (r: (ParserState, seq<string>))
    ensures r.0.openCodeBlock == (st.openCodeBlock != (line != "" && IsLimitCodeBlock(Highlighted(line))))
    ensures |r.1| <= 1
  {
    var (s, r) := ParseRule(st, line);
    (s, WriteRule(s, r))
  }

  /** A whole input: the state after the last line and everything written for the lines. */
  function Transduce(st: ParserState, lines: seq<string>): (r: (ParserState, seq<string>))
    ensures |r.1| <= |lines|
    decreases lines
  {
    if lines == [] then (st, [])
    else
      var first := Transition(st, lines[0]);
      var rest := Transduce(first.0, lines[1..]);
      (rest.0, first.1 + rest.1)
  }

  /** The output file for an input file. */
  function Document(lines: seq<string>): (out: seq<string>)
    ensures |out| >= 2 && out[0] == Preamble && out[|out| - 1] == Epilogue
  {
    [Preamble] + Transduce(Initial, lines).1 + [Epilogue]
  }

  // ----- Properties of whole documents -----

  /** The lines that are fences when they reach the fence rule. */
  predicate IsFenceLine(line: string) {
    line != "" && IsLimitCodeBlock(Highlighted(line))
  }

  function FenceLines(lines: seq<string>): nat {
    if lines == [] then 0 else (if IsFenceLine(lines[0]) then 1 else 0) + FenceLines(lines[1..])
  }

  /** `Transduce` on a non-empty input: the first line's transition, then the rest. */
  lemma TransduceCons(st: ParserState, lines: seq<string>)
    requires lines != []
    ensures Transduce(st, lines).0 == Transduce(Transition(st, lines[0]).0, lines[1..]).0
    ensures Transduce(st, lines).1
         == Transition(st, lines[0]).1 + Transduce(Transition(st, lines[0]).0, lines[1..]).1
  {
  }

  /** What the rest of the input will still produce after one more line. */
  lemma TransduceStep(st: ParserState, rest: seq<string>, written: seq<string>,
                      final: ParserState, all: seq<string>)
    requires rest != []
    requires Transduce(st, rest).0 == final && written + Transduce(st, rest).1 == all
    ensures Transduce(Transition(st, rest[0]).0, rest[1..]).0 == final
    ensures (written + Transition(st, rest[0]).1) + Transduce(Transition(st, rest[0]).0, rest[1..]).1
         == all
  {
    TransduceCons(st, rest);
  }

  /** After a whole input the block is open exactly when it started open xor the
      number of fence lines is odd. */
  lemma {:induction false} FenceParity(st: ParserState, lines: seq<string>)
    ensures Transduce(st, lines).0.openCodeBlock == (st.openCodeBlock != (FenceLines(lines) % 2 == 1))
    decreases lines
  {
    if lines != [] {
      var s1 := Transition(st, lines[0]).0;
      FenceParity(s1, lines[1..]);
      TransduceCons(st, lines);
      ParityStep(st.openCodeBlock, IsFenceLine(lines[0]), s1.openCodeBlock,
                 FenceLines(lines[1..]), Transduce(st, lines).0.openCodeBlock, FenceLines(lines));
    }
  }

  /** An open list survives every non-empty line and is closed by an empty one, which is
      written as `</ul>` (inside a `<div>` unless a code block is open). */
  lemma ListClosedOnlyByEmptyLine(st: ParserState, line: string)
    requires st.openUnorderedList
    ensures Transition(st, line).0.openUnorderedList <==> line != ""
    ensures line == "" ==>
      Transition(st, line) == (st.(openUnorderedList := false),
                               [if st.openCodeBlock then " </ul>\n" else "<div></ul></div>\n"])
  {
    var p := ParseRule(st, line);
    assert Transition(st, line) == (p.0, WriteRule(p.0, p.1));
    if line == "" {
      assert p == (st.(openUnorderedList := false), "</ul>");
      assert "<div>" + "</ul>" + "</div>\n" == "<div></ul></div>\n";
      assert " " + "</ul>" + "\n" == " </ul>\n";
    } else {
      assert p.0.openUnorderedList;
    }
  }

  /** An empty line with no list open writes nothing and changes nothing. */
  lemma EmptyLineWithoutList(st: ParserState)
    requires !st.openUnorderedList
    ensures Transition(st, "") == (st, [])
  {
  }

  /** A bullet item without backticks or `#`: no other rule touches it. */
  predicate PlainBullet(line: string) {
    StartsWithBulletMarker(line) && '`' !in line && '#' !in line
  }

  function ItemFragment(line: string, first: bool): string {
    " " + ((if first then "<ul>\n<li>" else "<li>") + SubstringFrom(line, 1) + "</li>") + "\n"
  }

  /** Without backticks the inline-code and fence rules leave the line and the state
      alone. */
  lemma NoBacktickPipeline(st: ParserState, line: string)
    requires '`' !in line
    ensures PipelineRule(st, line) == ListRule(st, HorizontalRuleToHtml(HeaderRule(st, line)))
  {
    NoBacktickNoFence(line);
    assert FenceRule(st, line) == (st, line);
  }

  /** A line without `#` has header level 0. */
  lemma HeaderLevelWithoutHash(line: string)
    requires '#' !in line
    ensures HeaderLevel(line) == 0
  {
    var t := Trim(line);
    forall i | 0 <= i < |t|
      ensures t[i] != '#'
    {
      assert t[i] in t;
    }
  }

  lemma PlainBulletStep(st: ParserState, line: string)
    requires PlainBullet(line)
    ensures Transition(st, line)
         == (st.(openUnorderedList := true), [ItemFragment(line, !st.openUnorderedList)])
  {
    NoBacktickPipeline(st, line);
    HeaderLevelWithoutHash(line);
    assert HeaderRule(st, line) == line;
    assert line[1] == ' ';
    assert HorizontalRuleToHtml(line) == line;
    var item := (if st.openUnorderedList then "<li>" else "<ul>\n<li>") + SubstringFrom(line, 1) + "</li>";
    assert ListRule(st, line) == (st.(openUnorderedList := true), item);
    assert ParseRule(st, line) == (st.(openUnorderedList := true), item);
    assert " " + item + "\n" == ItemFragment(line, !st.openUnorderedList);
  }

  /** The fragments a run of bullet lines is written as: one per line, the first one
      opening the container when `first` holds. */
  predicate ListFragments(lines: seq<string>, w: seq<string>, first: bool) {
    |w| == |lines|
    && forall i :: 0 <= i < |lines| ==> w[i] == ItemFragment(lines[i], i == 0 && first)
  }

  lemma ListFragmentsCons(lines: seq<string>, first: bool, tail: seq<string>)
    requires lines != [] && ListFragments(lines[1..], tail, false)
    ensures ListFragments(lines, [ItemFragment(lines[0], first)] + tail, first)
  {
    var w := [ItemFragment(lines[0], first)] + tail;
    forall i | 1 <= i < |lines|
      ensures w[i] == ItemFragment(lines[i], false)
    {
      assert w[i] == tail[i - 1];
      assert lines[1..][i - 1] == lines[i];
    }
  }

  /** List grouping: a run of plain bullet lines writes one fragment per line, and only
      the first opens the `<ul>` container (when no list was open before the run). */
  lemma {:induction false} BulletRun(st: ParserState, lines: seq<string>)
    requires forall i :: 0 <= i < |lines| ==> PlainBullet(lines[i])
    ensures Transduce(st, lines).0
         == (if lines == [] then st else st.(openUnorderedList := true))
    ensures ListFragments(lines, Transduce(st, lines).1, !st.openUnorderedList)
    decreases lines
  {
    if lines != [] {
      PlainBulletStep(st, lines[0]);
      var s1 := st.(openUnorderedList := true);
      BulletRun(s1, lines[1..]);
      TransduceCons(st, lines);
      ListFragmentsCons(lines, !st.openUnorderedList, Transduce(s1, lines[1..]).1);
    }
  }

  /** A header line outside code blocks and lists is written as a `<div>`-wrapped header. */
  lemma HeaderLineWritten(st: ParserState, n: nat, text: string)
    requires 1 <= n <= 6 && '#' !in text && '`' !in text
    requires !st.openCodeBlock && !st.openUnorderedList
    ensures Transition(st, Repeat("#", n) + " " + text)
         == (st, ["<div>" + ("<h" + NatToString(n) + ">" + text + "</h" + NatToString(n) + ">")
                  + "</div>\n"])
  {
    var line := Repeat("#", n) + " " + text;
    HeaderLineTicks(n, text);
    HeaderRendering(st, n, text);
    var h := "<h" + NatToString(n) + ">" + text + "</h" + NatToString(n) + ">";
    assert h[0] == '<';
    TaggedLineWritten(st, line, h);
  }

  /** A backtick-free line that the header rule turns into markup starting with `<`
      passes the other rules unchanged and is written inside a `<div>`. */
  lemma TaggedLineWritten(st: ParserState, line: string, h: string)
    requires '`' !in line && line != "" && HeaderRule(st, line) == h && h != [] && h[0] == '<'
    requires !st.openCodeBlock && !st.openUnorderedList
    ensures Transition(st, line) == (st, ["<div>" + h + "</div>\n"])
  {
    NoBacktickPipeline(st, line);
    assert HorizontalRuleToHtml(h) == h;
    assert ListRule(st, h) == (st, h);
    assert ParseRule(st, line) == (st, h);
  }

  /** The ticks of a header line are those of its text. */
  lemma HeaderLineTicks(n: nat, text: string)
    requires '`' !in text
    ensures '`' !in Repeat("#", n) + " " + text
  {
    var line := Repeat("#", n) + " " + text;
    HeaderLineShape(n, text);
    forall i | 0 <= i < |line|
      ensures line[i] != '`'
    {
      if i > n {
        assert line[i] == line[n + 1..][i - n - 1];
        assert line[i] in text;
      }
    }
  }

  // ----- The converter object -----

  /** The module state of main.js and the stream it writes to. */
  class HtmlConverter {
    var openCodeBlock: bool
    var openedCodeBlockType: string
    var openUnorderedList: bool
    var output: seq<string>

    function Snapshot(): ParserState
      reads this
    {
      ParserState(openCodeBlock, openedCodeBlockType, openUnorderedList)
    }

    /** Start-up: the initial state, and the preamble already written. */
    constructor ()
      ensures Snapshot() == Initial && output == [Preamble]
    {
      openCodeBlock := false;
      openedCodeBlockType := "block";
      openUnorderedList := false;
      output := [Preamble];
    }

    method CodeBlockType(line: string) returns (ty: string)
      modifies this`openCodeBlock
      ensures ty == BlockType(old(openCodeBlock), line)
      ensures openCodeBlock == !old(openCodeBlock)
    {
      ty := SubstringFrom(line, 3);
      if ty == "" {
        if openCodeBlock {
          ty := "end";
        } else {
          ty := "none";
        }
      }
      openCodeBlock := !openCodeBlock;
    }

    method LimitCodeBlockToHtml(line: string) returns (r: string)
      modifies this`openCodeBlock, this`openedCodeBlockType
      ensures (Snapshot(), r) == FenceRule(old(Snapshot()), line)
    {
      r := line;
      if IsLimitCodeBlock(line) {
        var ty := CodeBlockType(line);
        if ty != "end" && ty != "none" {
          r := ReplaceFirst(r, ty, "");
          openedCodeBlockType := ty;
        }
        if ty == "end" {
          r := ReplaceFirst(r, Fence, PreClose);
          openedCodeBlockType := "block";
        } else if openedCodeBlockType == "block" {
          r := ReplaceFirst(r, Fence, PreOpen);
        } else {
          r := ReplaceFirst(r, Fence, PreOpenLanguage(openedCodeBlockType));
        }
      }
    }

    method HToHtml(line: string) returns (r: string)
      ensures r == HeaderRule(Snapshot(), line)
    {
      r := line;
      var n := GetHeaderType(line);
      if n > 0 && !openCodeBlock {
        r := SubstringFrom(r, n + 1);
        r := "<h" + NatToString(n) + ">" + r + "</h" + NatToString(n) + ">";
      }
    }

    method UnorderedListToHtml(line: string) returns (r: string)
      modifies this`openUnorderedList
      ensures (Snapshot(), r) == ListRule(old(Snapshot()), line)
    {
      r := line;
      var markers := ["*", "-", "+"];
      for c := 0 to |markers|
        invariant r == line && openUnorderedList == old(openUnorderedList)
        invariant forall j :: 0 <= j < c ==> !(CharAt(line, 0) == markers[j] && CharAt(line, 1) == " ")
      {
        if CharAt(line, 0) == markers[c] && CharAt(line, 1) == " " {
          r := SubstringFrom(r, 1);
          if !openUnorderedList {
            r := "<ul>\n<li>" + r + "</li>";
          } else {
            r := "<li>" + r + "</li>";
          }
          openUnorderedList := true;
          return;
        }
      }
      assert markers[0] == "*" && markers[1] == "-" && markers[2] == "+";
      assert !StartsWithBulletMarker(line);
    }

    method ParserPipeline(line: string) returns (r: string)
      modifies this`openCodeBlock, this`openedCodeBlockType, this`openUnorderedList
      ensures (Snapshot(), r) == PipelineRule(old(Snapshot()), line)
    {
      r := CodeHighlightToHtml(line);
      r := LimitCodeBlockToHtml(r);
      r := HToHtml(r);
      r := HorizontalRuleToHtml(r);
      r := UnorderedListToHtml(r);
    }

    method ParseLine(line: string) returns (r: string)
      modifies this`openCodeBlock, this`openedCodeBlockType, this`openUnorderedList
      ensures (Snapshot(), r) == ParseRule(old(Snapshot()), line)
    {
      r := line;
      if line != "" {
        r := ParserPipeline(line);
      } else if openUnorderedList {
        r := "</ul>";
        openUnorderedList := false;
      }
    }

    method WriteLine(line: string)
      modifies this`output
      ensures output == old(output) + WriteRule(Snapshot(), line)
    {
      if line != "" {
        if !openCodeBlock && !openUnorderedList {
          output := output + ["<div>" + line + "</div>\n"];
        } else {
          output := output + [" " + line + "\n"];
        }
      }
    }

    /** The `line` handler: `writeLine(parseLine(line))`. */
    method Step(line: string)
      modifies this
      ensures Snapshot() == Transition(old(Snapshot()), line).0
      ensures output == old(output) + Transition(old(Snapshot()), line).1
    {
      var r := ParseLine(line);
      WriteLine(r);
    }

    /** Every line in order, then the end-of-input write. */
    method Run(lines: seq<string>)
      modifies this
      ensures Snapshot() == Transduce(old(Snapshot()), lines).0
      ensures output == old(output) + Transduce(old(Snapshot()), lines).1 + [Epilogue]
    {
      ghost var st0 := Snapshot();
      ghost var out0 := output;
      for i := 0 to |lines|
        invariant Transduce(Snapshot(), lines[i..]).0 == Transduce(st0, lines).0
        invariant output + Transduce(Snapshot(), lines[i..]).1 == out0 + Transduce(st0, lines).1
      {
        TransduceStep(Snapshot(), lines[i..], output, Transduce(st0, lines).0, out0 + Transduce(st0, lines).1);
        assert lines[i..][0] == lines[i] && lines[i..][1..] == lines[i + 1..];
        Step(lines[i]);
      }
      assert lines[|lines|..] == [];
      output := output + [Epilogue];
    }
  }

  /** A whole conversion with a fresh converter. */
  method Convert(lines: seq<string>) returns (out: seq<string>)
    ensures out == Document(lines)
  {
    var converter := new HtmlConverter();
    converter.Run(lines);
    out := converter.output;
  }
}
