/** The JavaScript string primitives the two converters use, each specialised to the
    way the converters call it: `trim`, `substring`, `charAt`, `indexOf`/`includes`,
    `replace` with a string pattern (first occurrence only), a global regular
    expression match of a fixed string (non-overlapping, left to right), and the
    decimal conversions behind `parseInt` and number-to-string concatenation. */
module JsString {

  datatype Option<T> = None | Some(value: T)

  /** The code points `String.prototype.trim` removes: ECMAScript WhiteSpace and
      LineTerminator. */
  predicate IsWhiteSpace(c: char) {
    c == '\t' || c == '\n' || c == '\U{B}' || c == '\U{C}' || c == '\r' || c == ' '
    || c == '\U{A0}' || c == '\U{1680}' || ('\U{2000}' <= c <= '\U{200A}')
    || c == '\U{2028}' || c == '\U{2029}' || c == '\U{202F}' || c == '\U{205F}'
    || c == '\U{3000}' || c == '\U{FEFF}'
  }

  /** The code points the regular-expression `.` does not match. */
  predicate IsLineTerminator(c: char) {
    c == '\n' || c == '\r' || c == '\U{2028}' || c == '\U{2029}'
  }

  function TrimStart(s: string): (r: string)
    ensures |r| <= |s|
    ensures r == [] || !IsWhiteSpace(r[0])
  {
    if s != [] && IsWhiteSpace(s[0]) then TrimStart(s[1..]) else s
  }

  /** `TrimStart` drops a run of white space from the front. (Kept out of the function's
      contract: as a standing fact it sends the solver round the same indices forever.) */
  lemma {:induction false} TrimStartSlice(s: string)
    ensures TrimStart(s) == s[|s| - |TrimStart(s)|..]
    ensures forall i :: 0 <= i < |s| - |TrimStart(s)| ==> IsWhiteSpace(s[i])
  {
    if s != [] && IsWhiteSpace(s[0]) {
      TrimStartSlice(s[1..]);
    }
  }

  function TrimEnd(s: string): (r: string)
    ensures |r| <= |s| && r == s[..|r|]
    ensures r == [] || !IsWhiteSpace(r[|r| - 1])
    ensures forall i :: |r| <= i < |s| ==> IsWhiteSpace(s[i])
  {
    if s != [] && IsWhiteSpace(s[|s| - 1]) then TrimEnd(s[..|s| - 1]) else s
  }

  /** `s.trim()`: the longest slice of `s` that neither starts nor ends with white space. */
  function Trim(s: string): (r: string)
    ensures r == [] || (!IsWhiteSpace(r[0]) && !IsWhiteSpace(r[|r| - 1]))
    ensures forall c :: c in r ==> c in s
  {
    TrimStartSlice(s);
    TrimEnd(TrimStart(s))
  }

  /** The trimmed string starts with the first character that is not white space. */
  lemma TrimFirstChar(s: string, k: nat)
    requires k < |s| && !IsWhiteSpace(s[k])
    requires forall i :: 0 <= i < k ==> IsWhiteSpace(s[i])
    ensures Trim(s) != [] && Trim(s)[0] == s[k]
  {
    TrimStartSlice(s);
    var t := TrimStart(s);
    var d := |s| - |t|;
    assert t != [] && t[0] == s[d];
    assert d == k;
  }

  lemma TrimStartOfClean(s: string)
    requires s == [] || !IsWhiteSpace(s[0])
    ensures TrimStart(s) == s
  {
  }

  lemma TrimEndOfClean(s: string)
    requires s == [] || !IsWhiteSpace(s[|s| - 1])
    ensures TrimEnd(s) == s
  {
  }

  /** A string that starts and ends with a non-blank character is its own trim;
      in particular trimming twice is trimming once. */
  lemma TrimOfTrimmed(s: string)
    requires s == [] || (!IsWhiteSpace(s[0]) && !IsWhiteSpace(s[|s| - 1]))
    ensures Trim(s) == s
  {
    TrimStartOfClean(s);
    TrimEndOfClean(s);
  }

  lemma TrimIdempotent(s: string)
    ensures Trim(Trim(s)) == Trim(s)
  {
    TrimOfTrimmed(Trim(s));
  }

  /** When `s` does not start with white space, trimming only cuts its tail. */
  lemma TrimIsPrefix(s: string)
    requires s != [] && !IsWhiteSpace(s[0])
    ensures |Trim(s)| <= |s| && Trim(s) == s[..|Trim(s)|]
    ensures Trim(s) != []
  {
    TrimStartOfClean(s);
  }

  /** `s.substring(from)` for a non-negative `from`: clamped to the length. */
  function SubstringFrom(s: string, from: nat): string {
    if from <= |s| then s[from..] else ""
  }

  /** `s.substring(0, n)` for a non-negative `n`: clamped to the length. */
  function Prefix(s: string, n: nat): string {
    if n <= |s| then s[..n] else s
  }

  /** `s.charAt(i)`: the one-character string at `i`, or `""` out of range. */
  function CharAt(s: string, i: nat): string {
    if i < |s| then [s[i]] else ""
  }

  predicate OccursAt(s: string, pat: string, i: nat) {
    i + |pat| <= |s| && s[i..i + |pat|] == pat
  }

  /** `s.indexOf(pat, from)`: the first position at or after `from` where `pat` occurs. */
  function IndexOfFrom(s: string, pat: string, from: nat): (r: Option<nat>)
    decreases |s| - from
    ensures r.Some? ==> from <= r.value && OccursAt(s, pat, r.value)
    ensures r.Some? ==> forall j :: from <= j < r.value ==> !OccursAt(s, pat, j)
    ensures r.None? ==> forall j :: from <= j ==> !OccursAt(s, pat, j)
  {
    if from + |pat| > |s| then None
    else if OccursAt(s, pat, from) then Some(from)
    else IndexOfFrom(s, pat, from + 1)
  }

  function IndexOf(s: string, pat: string): Option<nat> {
    IndexOfFrom(s, pat, 0)
  }

  /** `s.includes(pat)`. */
  predicate Contains(s: string, pat: string) {
    IndexOf(s, pat).Some?
  }

  /** `s.replace(pat, rep)` with a string pattern: only the first occurrence is replaced. */
  function ReplaceFirst(s: string, pat: string, rep: string): (r: string)
    ensures !Contains(s, pat) ==> r == s
    ensures Contains(s, pat) ==> |r| == |s| - |pat| + |rep|
  {
    match IndexOf(s, pat)
    case None => s
    case Some(i) => s[..i] + rep + s[i + |pat|..]
  }

  /** The first occurrence of `pat` being at `i`, `ReplaceFirst` splices `rep` in there. */
  lemma ReplaceFirstAt(s: string, pat: string, rep: string, i: nat)
    requires OccursAt(s, pat, i)
    requires forall j :: 0 <= j < i ==> !OccursAt(s, pat, j)
    ensures IndexOf(s, pat) == Some(i)
    ensures ReplaceFirst(s, pat, rep) == s[..i] + rep + s[i + |pat|..]
  {
  }

  /** A pattern that does not occur leaves `ReplaceFirst` with nothing to do. */
  lemma ReplaceFirstAbsent(s: string, pat: string, rep: string)
    requires forall j :: 0 <= j ==> !OccursAt(s, pat, j)
    ensures IndexOf(s, pat) == None
    ensures ReplaceFirst(s, pat, rep) == s
  {
  }

  /** The number of matches of the global regular expression that is the literal `pat`:
      occurrences found left to right, each search resuming after the previous match. */
  function CountFrom(s: string, pat: string, from: nat): (n: nat)
    requires |pat| > 0
    ensures n == 0 <==> IndexOfFrom(s, pat, from).None?
    ensures from <= |s| ==> n <= |s| - from
    decreases |s| - from
  {
    match IndexOfFrom(s, pat, from)
    case None => 0
    case Some(i) => 1 + CountFrom(s, pat, i + |pat|)
  }

  function CountOccurrences(s: string, pat: string): (n: nat)
    requires |pat| > 0
    ensures n == 0 <==> !Contains(s, pat)
    ensures n <= |s|
  {
    CountFrom(s, pat, 0)
  }

  /** `s.match(/c/g).length` for a single character `c`. */
  function CountChar(s: string, c: char): (n: nat)
    ensures n <= |s|
    ensures n == 0 <==> c !in s
  {
    if s == [] then 0 else (if s[0] == c then 1 else 0) + CountChar(s[1..], c)
  }

  /** `s.replace(/c/g, "")`: every occurrence of `c` deleted. */
  function RemoveAll(s: string, c: char): (r: string)
    ensures c !in r
    ensures forall d :: d in r ==> d in s
    ensures |r| == |s| - CountChar(s, c)
  {
    if s == [] then "" else (if s[0] == c then "" else [s[0]]) + RemoveAll(s[1..], c)
  }

  /** Deleting from a concatenation deletes from each piece. */
  lemma {:induction false} RemoveAllConcat(a: string, b: string, c: char)
    ensures RemoveAll(a + b, c) == RemoveAll(a, c) + RemoveAll(b, c)
    decreases |a|
  {
    if a != [] {
      var ab := a + b;
      assert ab[0] == a[0] && ab[1..] == a[1..] + b;
      RemoveAllConcat(a[1..], b, c);
      var h := if a[0] == c then "" else [a[0]];
      var x, y := RemoveAll(a[1..], c), RemoveAll(b, c);
      assert RemoveAll(ab, c) == h + (x + y);
      assert RemoveAll(a, c) == h + x;
      assert h + (x + y) == (h + x) + y;
    } else {
      assert a + b == b;
    }
  }

  /** A single character is deleted when it is `c` and kept otherwise. */
  lemma RemoveAllOne(d: char, c: char)
    ensures RemoveAll([d], c) == (if d == c then [] else [d])
  {
    assert [d][1..] == [];
  }

  /** `str.repeat(n)`. */
  function Repeat(str: string, n: nat): (r: string)
    ensures |r| == n * |str|
  {
    if n == 0 then "" else str + Repeat(str, n - 1)
  }

  /** The digits `\d` of JavaScript regular expressions: ASCII only. */
  predicate IsDigit(c: char) {
    '0' <= c <= '9'
  }

  /** `/^\d+$/.test(s)`: non-empty and made of digits only. */
  predicate AllDigits(s: string) {
    |s| > 0 && forall i :: 0 <= i < |s| ==> IsDigit(s[i])
  }

  /** `parseInt(s)` of an all-digit string: its decimal value (leading zeros allowed). */
  function DigitsValue(s: string): (v: nat)
    requires AllDigits(s)
    ensures v < Pow10(|s|)
  {
    if |s| == 1 then s[0] as int - '0' as int
    else DigitsValue(s[..|s| - 1]) * 10 + (s[|s| - 1] as int - '0' as int)
  }

  function Pow10(k: nat): (p: nat)
    ensures p >= 1
  {
    if k == 0 then 1 else 10 * Pow10(k - 1)
  }

  function DigitChar(d: nat): (c: char)
    requires d < 10
    ensures IsDigit(c) && c as int - '0' as int == d
  {
    ('0' as int + d) as char
  }

  /** The decimal text JavaScript gives a non-negative integer when it is concatenated
      to a string (`"<h" + n`, `"\t" + value`). */
  function NatToString(n: nat): (r: string)
    ensures AllDigits(r)
    ensures n == 0 ==> r == "0"
    ensures n > 0 ==> r[0] != '0'
  {
    if n < 10 then [DigitChar(n)]
    else
      var high := NatToString(n / 10);
      assert (high + [DigitChar(n % 10)])[0] == high[0];
      high + [DigitChar(n % 10)]
  }

  /** Number-to-string for any integer: a minus sign before the digits of the magnitude. */
  function IntToString(n: int): string {
    if n < 0 then "-" + NatToString(-n) else NatToString(n)
  }

  /** `parseInt` reads back what number formatting wrote. */
  lemma {:induction false} NatToStringRoundTrip(n: nat)
    ensures DigitsValue(NatToString(n)) == n
  {
    if n >= 10 {
      NatToStringRoundTrip(n / 10);
      var s := NatToString(n);
      assert s[..|s| - 1] == NatToString(n / 10);
    }
  }

  /** A string without backticks has no occurrence of a backtick sequence. */
  lemma NoOccurrenceWithoutFirstChar(s: string, pat: string)
    requires |pat| > 0 && pat[0] !in s
    ensures forall j :: 0 <= j ==> !OccursAt(s, pat, j)
  {
    forall j | 0 <= j
      ensures !OccursAt(s, pat, j)
    {
      if j + |pat| <= |s| {
        assert s[j..j + |pat|][0] == s[j];
      }
    }
  }

  lemma CountOfAbsent(s: string, pat: string)
    requires |pat| > 0 && pat[0] !in s
    ensures CountOccurrences(s, pat) == 0
  {
    NoOccurrenceWithoutFirstChar(s, pat);
    ReplaceFirstAbsent(s, pat, pat);
  }

  /** `s.split(sep)` for a one-character separator: the pieces between separators, in
      order; there is always at least one piece and no piece holds the separator. */
  function Split(s: string, sep: char): (parts: seq<string>)
    ensures |parts| >= 1
    ensures forall i :: 0 <= i < |parts| ==> sep !in parts[i]
    decreases |s|
  {
    if s == [] then [""]
    else
      var tail := Split(s[1..], sep);
      if s[0] == sep then [""] + tail
      else [[s[0]] + tail[0]] + tail[1..]
  }

  /** `parts.join(sep)`. */
  function Join(parts: seq<string>, sep: char): string
    requires |parts| >= 1
  {
    if |parts| == 1 then parts[0] else parts[0] + [sep] + Join(parts[1..], sep)
  }

  /** Joining the pieces gives back the string. */
  lemma {:induction false} SplitJoin(s: string, sep: char)
    ensures Join(Split(s, sep), sep) == s
    decreases |s|
  {
    if s != [] {
      var tail := Split(s[1..], sep);
      SplitJoin(s[1..], sep);
      if s[0] == sep {
        assert s == [sep] + s[1..];
      } else if |tail| == 1 {
        assert s == [s[0]] + s[1..];
      } else {
        assert Join(tail, sep) == tail[0] + [sep] + Join(tail[1..], sep);
        var t := [[s[0]] + tail[0]] + tail[1..];
        assert t[1..] == tail[1..];
        assert s == [s[0]] + s[1..];
      }
    }
  }

  /** Splitting the join of separator-free pieces gives back the pieces. */
  lemma {:induction false} JoinSplit(parts: seq<string>, sep: char)
    requires |parts| >= 1 && forall i :: 0 <= i < |parts| ==> sep !in parts[i]
    ensures Split(Join(parts, sep), sep) == parts
    decreases |Join(parts, sep)|
  {
    if parts[0] != [] {
      var p0 := parts[0];
      var rest := [p0[1..]] + parts[1..];
      assert sep !in p0[1..] by { assert forall c :: c in p0[1..] ==> c in p0; }
      assert forall i :: 0 <= i < |rest| ==> sep !in rest[i] by {
        forall i | 0 <= i < |rest| ensures sep !in rest[i] {
          if i > 0 { assert rest[i] == parts[i]; }
        }
      }
      JoinCons(parts, sep);
      JoinCons(rest, sep);
      assert Join(rest, sep) == Join(parts, sep)[1..];
      JoinSplit(rest, sep);
      assert p0[0] in p0;
      assert [p0[0]] + p0[1..] == p0;
      assert [[p0[0]] + rest[0]] + rest[1..] == parts;
    } else if |parts| > 1 {
      JoinSplit(parts[1..], sep);
      var j := Join(parts, sep);
      assert j == [sep] + Join(parts[1..], sep);
      assert j[1..] == Join(parts[1..], sep);
      assert [""] + parts[1..] == parts;
    }
  }

  /** The join of pieces is the first piece, then the separator and the rest if any. */
  lemma JoinCons(parts: seq<string>, sep: char)
    requires |parts| >= 1
    ensures |parts| == 1 ==> Join(parts, sep) == parts[0]
    ensures |parts| > 1 ==> Join(parts, sep) == parts[0] + [sep] + Join(parts[1..], sep)
  {
  }

  /** There is a second piece exactly when the separator occurs. */
  lemma {:induction false} SplitHasSecond(s: string, sep: char)
    ensures |Split(s, sep)| >= 2 <==> sep in s
    decreases |s|
  {
    if s != [] {
      SplitHasSecond(s[1..], sep);
      assert s == [s[0]] + s[1..];
    }
  }

  /** Without the separator there is one piece: the string itself. */
  lemma SplitWithoutSep(s: string, sep: char)
    requires sep !in s
    ensures Split(s, sep) == [s]
  {
    SplitHasSecond(s, sep);
    SplitJoin(s, sep);
  }

  /** The first piece is the text before the first separator: a prefix of the string,
      followed by the separator when there is a second piece. */
  lemma SplitFirstIsPrefix(s: string, sep: char)
    ensures |Split(s, sep)[0]| <= |s| && s[..|Split(s, sep)[0]|] == Split(s, sep)[0]
    ensures |Split(s, sep)| >= 2 ==>
      |Split(s, sep)[0]| < |s| && s[|Split(s, sep)[0]|] == sep
      && s[|Split(s, sep)[0]| + 1..] == Join(Split(s, sep)[1..], sep)
  {
    var parts := Split(s, sep);
    SplitJoin(s, sep);
    JoinCons(parts, sep);
    if |parts| >= 2 {
      assert s == parts[0] + [sep] + Join(parts[1..], sep);
      assert s[|parts[0]|] == sep;
      assert s[|parts[0]| + 1..] == Join(parts[1..], sep);
    }
  }

  /** Deleting a character that does not occur changes nothing. */
  lemma {:induction false} RemoveAllAbsent(s: string, c: char)
    requires c !in s
    ensures RemoveAll(s, c) == s
  {
    if s != [] {
      assert s[0] in s;
      assert forall d :: d in s[1..] ==> d in s;
      RemoveAllAbsent(s[1..], c);
      assert s == [s[0]] + s[1..];
    }
  }

  /** Character counts add up over a concatenation. */
  lemma {:induction false} CountCharConcat(a: string, b: string, c: char)
    ensures CountChar(a + b, c) == CountChar(a, c) + CountChar(b, c)
  {
    if a != [] {
      CountCharConcat(a[1..], b, c);
      assert (a + b)[1..] == a[1..] + b;
    } else {
      assert a + b == b;
    }
  }

  /** `n` copies of a one-character string hold that character `n` times. */
  lemma {:induction false} RepeatCount(c: char, n: nat)
    ensures CountChar(Repeat([c], n), c) == n
    ensures forall i :: 0 <= i < n ==> Repeat([c], n)[i] == c
  {
    if n > 0 {
      RepeatCount(c, n - 1);
      assert Repeat([c], n) == [c] + Repeat([c], n - 1);
      CountCharConcat([c], Repeat([c], n - 1), c);
    }
  }

  /** In a run of `k` copies of one character, the global match of three copies finds
      `(k - from) / 3` matches from `from` on: each match resumes right after the last. */
  lemma {:induction false} RunMatchesFrom(c: char, k: nat, from: nat)
    requires from <= k
    ensures CountFrom(Repeat([c], k), [c, c, c], from) == (k - from) / 3
    decreases k - from
  {
    var s := Repeat([c], k);
    var pat := [c, c, c];
    RepeatCount(c, k);
    if from + 3 <= k {
      assert s[from..from + 3] == pat;
      assert OccursAt(s, pat, from);
      assert IndexOfFrom(s, pat, from) == Some(from);
      RunMatchesFrom(c, k, from + 3);
    } else {
      assert IndexOfFrom(s, pat, from) == None;
    }
  }
}
