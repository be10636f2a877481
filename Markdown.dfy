/** Line predicates both converters share: the fence test, the horizontal-rule test
    and the bullet marker. */
module Markdown {
  import opened JsString

  const Fence: string := "```"

  /** `isLimitCodeBlock`: the line holds exactly one non-overlapping occurrence of
      three backticks. A run of four or five backticks counts once, a run of six twice. */
  predicate IsLimitCodeBlock(line: string): (b: bool)
    ensures b ==> Contains(line, Fence)
  {
    CountOccurrences(line, Fence) == 1
  }

  /** The exact strings the horizontal-rule rules recognise: three copies of one of
      `-`, `_`, `*` and nothing else. */
  predicate IsHorizontalRule(line: string): (b: bool)
    ensures b <==> |line| == 3 && line[0] in "-_*" && line[1] == line[0] && line[2] == line[0]
  {
    line == "---" || line == "___" || line == "***"
  }

  /** Character 0 is `*`, `-` or `+` and character 1 is a space; `charAt` past the end
      gives the empty string, so a line shorter than two characters never qualifies. */
  predicate StartsWithBulletMarker(s: string): (b: bool)
    ensures b <==> |s| >= 2 && s[0] in "*-+" && s[1] == ' '
  {
    CharAt(s, 0) in {"*", "-", "+"} && CharAt(s, 1) == " "
  }

  /** A line without backticks is never a fence. */
  lemma NoBacktickNoFence(line: string)
    requires '`' !in line
    ensures !IsLimitCodeBlock(line)
  {
    CountOfAbsent(line, Fence);
  }

  /** Three backticks followed by a backtick-free tag (possibly empty) is a fence. */
  lemma {:induction false} FenceWithTag(tag: string)
    requires '`' !in tag
    ensures IsLimitCodeBlock(Fence + tag)
  {
    var s := Fence + tag;
    assert OccursAt(s, Fence, 0);
    assert IndexOfFrom(s, Fence, 0) == Some(0);
    forall j | 3 <= j
      ensures !OccursAt(s, Fence, j)
    {
      if j + 3 <= |s| {
        assert s[j..j + 3][0] == s[j] == tag[j - 3];
      }
    }
    assert IndexOfFrom(s, Fence, 3) == None;
    assert CountFrom(s, Fence, 3) == 0;
    assert CountFrom(s, Fence, 0) == 1 + CountFrom(s, Fence, 3);
  }

  /** A line made of one run of backticks is a fence exactly when the run is three, four
      or five long: the global match takes three at a time, so six give two matches. */
  lemma FenceRun(k: nat)
    ensures IsLimitCodeBlock(Repeat("`", k)) <==> 3 <= k <= 5
  {
    RunMatchesFrom('`', k, 0);
  }

  /** Flipping once more adds one to the count whose parity decides the flag. */
  lemma ParityStep(open: bool, flip: bool, next: bool, k: nat, after: bool, n: nat)
    requires next == (open != flip) && after == (next != (k % 2 == 1))
    requires n == (if flip then 1 else 0) + k
    ensures after == (open != (n % 2 == 1))
  {
  }
}
