/**
 * The handful of Python `str` operations the modelled code relies on, over
 * `string` (a sequence of Unicode characters).
 */
module Text {

  /** The characters for which Python's `str.isspace()` holds; `\s` in a `str`
      regular expression and the argument-less `strip`/`lstrip` use the same set. */
  predicate IsSpace(c: char)
  {
    || c == ' '
    || ('\t' <= c <= '\r')
    || ('\U{1c}' <= c <= '\U{1f}')
    || c == '\U{85}' || c == '\U{a0}' || c == '\U{1680}'
    || ('\U{2000}' <= c <= '\U{200a}')
    || c == '\U{2028}' || c == '\U{2029}' || c == '\U{202f}' || c == '\U{205f}' || c == '\U{3000}'
  }

  predicate StartsWith(s: string, prefix: string)
  {
    prefix <= s
  }

  /** Python's `s.lstrip()`: drops the leading whitespace. */
  function LStrip(s: string): (r: string)
    ensures |r| <= |s|
    decreases |s|
  {
    if s != [] && IsSpace(s[0]) then LStrip(s[1..]) else s
  }

  /** What `LStrip` drops is whitespace, and what it keeps is the rest of `s`,
      starting with a character that is not. */
  lemma {:induction false} LStripShape(s: string)
    ensures LStrip(s) == s[|s| - |LStrip(s)|..]
    ensures LStrip(s) == [] || !IsSpace(LStrip(s)[0])
    ensures forall k :: 0 <= k < |s| - |LStrip(s)| ==> IsSpace(s[k])
    decreases |s|
  {
    if s != [] && IsSpace(s[0]) {
      LStripShape(s[1..]);
      var r := LStrip(s);
      forall k | 1 <= k < |s| - |r| ensures IsSpace(s[k]) {
        assert s[k] == s[1..][k - 1];
      }
    }
  }

  /** Python's `s.rstrip()`: drops the trailing whitespace. */
  function RStrip(s: string): (r: string)
    ensures |r| <= |s|
    decreases |s|
  {
    if s != [] && IsSpace(s[|s| - 1]) then RStrip(s[..|s| - 1]) else s
  }

  lemma {:induction false} RStripShape(s: string)
    ensures RStrip(s) == s[..|RStrip(s)|]
    ensures RStrip(s) == [] || !IsSpace(RStrip(s)[|RStrip(s)| - 1])
    ensures forall k :: |RStrip(s)| <= k < |s| ==> IsSpace(s[k])
    decreases |s|
  {
    if s != [] && IsSpace(s[|s| - 1]) {
      RStripShape(s[..|s| - 1]);
      var r := RStrip(s);
      assert s[..|s| - 1][..|r|] == s[..|r|];
      forall k | |r| <= k < |s| - 1 ensures IsSpace(s[k]) {
        assert s[k] == s[..|s| - 1][k];
      }
    }
  }

  /** Python's `s.strip()`. */
  function Strip(s: string): (r: string)
    ensures |r| <= |s|
  {
    RStrip(LStrip(s))
  }

  /** The result of `strip()` is empty exactly when `s` is all whitespace,
      and otherwise neither starts nor ends with whitespace. */
  lemma StripShape(s: string)
    ensures Strip(s) == [] || (!IsSpace(Strip(s)[0]) && !IsSpace(Strip(s)[|Strip(s)| - 1]))
    ensures Strip(s) == [] <==> forall k :: 0 <= k < |s| ==> IsSpace(s[k])
  {
    var t := LStrip(s);
    LStripShape(s);
    RStripShape(t);
    var r := RStrip(t);
    if r != [] {
      assert r[0] == t[0];
      assert !IsSpace(s[|s| - |t|]);
    }
  }

  /** Python's `s.strip(c)` for a single character `c`: drops every leading
      and trailing `c`. */
  function StripChar(s: string, c: char): (r: string)
    ensures |r| <= |s|
    decreases |s|
  {
    if s != [] && s[0] == c then StripChar(s[1..], c)
    else if s != [] && s[|s| - 1] == c then StripChar(s[..|s| - 1], c)
    else s
  }

  /** `r` is `s` with `i` characters dropped in front and the rest of the
      dropped characters at the back, every dropped character being `c`. */
  predicate StrippedAt(s: string, r: string, c: char, i: nat)
  {
    i + |r| <= |s| && r == s[i..i + |r|]
    && (forall k :: 0 <= k < i ==> s[k] == c)
    && (forall k :: i + |r| <= k < |s| ==> s[k] == c)
  }

  /** `strip(c)` keeps a middle piece of `s`, drops only `c`s around it, and
      leaves no `c` at either end. */
  lemma {:induction false} StripCharShape(s: string, c: char)
    ensures exists i: nat :: StrippedAt(s, StripChar(s, c), c, i)
    ensures StripChar(s, c) == [] || (StripChar(s, c)[0] != c && StripChar(s, c)[|StripChar(s, c)| - 1] != c)
    decreases |s|
  {
    var r := StripChar(s, c);
    if s != [] && s[0] == c {
      StripCharShape(s[1..], c);
      var i: nat :| StrippedAt(s[1..], r, c, i);
      assert r == s[i + 1..i + 1 + |r|];
      forall k | 0 <= k < i + 1 ensures s[k] == c {
        if k > 0 { assert s[k] == s[1..][k - 1]; }
      }
      forall k | i + 1 + |r| <= k < |s| ensures s[k] == c {
        assert s[k] == s[1..][k - 1];
      }
      assert StrippedAt(s, r, c, i + 1);
    } else if s != [] && s[|s| - 1] == c {
      var t := s[..|s| - 1];
      StripCharShape(t, c);
      var i: nat :| StrippedAt(t, r, c, i);
      assert i == 0;
      assert r == s[..|r|];
      forall k | |r| <= k < |s| ensures s[k] == c {
        if k < |s| - 1 { assert s[k] == t[k]; }
      }
      assert StrippedAt(s, r, c, 0);
    } else {
      assert StrippedAt(s, r, c, 0);
    }
  }

  /** `strip(c)` leaves nothing exactly when the text is made of `c` only. */
  lemma StripCharEmpty(s: string, c: char)
    ensures StripChar(s, c) == [] <==> forall k :: 0 <= k < |s| ==> s[k] == c
  {
    StripCharShape(s, c);
    var r := StripChar(s, c);
    var i: nat :| StrippedAt(s, r, c, i);
    if r != [] {
      assert s[i] == r[0];
    }
  }

  predicate IsAsciiLetter(c: char) { 'a' <= c <= 'z' || 'A' <= c <= 'Z' }

  /** Length of the run of ASCII letters that starts `u` (what `[a-zA-Z]*`
      matches greedily). */
  function LetterRun(u: string): (n: nat)
    ensures n <= |u|
    ensures forall k :: 0 <= k < n ==> IsAsciiLetter(u[k])
    ensures n == |u| || !IsAsciiLetter(u[n])
  {
    if u != [] && IsAsciiLetter(u[0]) then 1 + LetterRun(u[1..]) else 0
  }

  function LowerChar(c: char): char
  {
    if 'A' <= c <= 'Z' then (c as int + 32) as char else c
  }

  function UpperChar(c: char): char
  {
    if 'a' <= c <= 'z' then (c as int - 32) as char else c
  }

  predicate IsLowerWord(t: string)
  {
    forall j :: 0 <= j < |t| ==> 'a' <= t[j] <= 'z'
  }

  /** `t` (a lower-case word) occurs in `s` at offset `k` in any letter case:
      each character there is the letter of `t` or its upper-case form. */
  predicate OccursAnyCaseAt(s: string, t: string, k: nat)
  {
    k + |t| <= |s| && forall j :: 0 <= j < |t| ==> s[k + j] == t[j] || s[k + j] == UpperChar(t[j])
  }

  lemma OccursLowerAt(s: string, t: string, k: nat)
    requires IsLowerWord(t)
    ensures OccursAt(Lower(s), t, k) <==> OccursAnyCaseAt(s, t, k)
  {
    if k + |t| <= |s| {
      var m := Lower(s)[k..k + |t|];
      forall j | 0 <= j < |t| ensures m[j] == LowerChar(s[k + j]) { }
      forall j | 0 <= j < |t| ensures LowerChar(s[k + j]) == t[j] <==> (s[k + j] == t[j] || s[k + j] == UpperChar(t[j])) { }
      if OccursAnyCaseAt(s, t, k) {
        assert m == t;
      }
    }
  }

  /** Looking for a lower-case word in `s.lower()` finds it in any letter
      case, and only there. */
  lemma LowerContains(s: string, t: string)
    requires IsLowerWord(t)
    ensures Contains(Lower(s), t) <==> exists k: nat :: OccursAnyCaseAt(s, t, k)
  {
    if Contains(Lower(s), t) {
      ContainsOffset(Lower(s), t);
      var k: nat :| OccursAt(Lower(s), t, k);
      OccursLowerAt(s, t, k);
    }
    if exists k: nat :: OccursAnyCaseAt(s, t, k) {
      var k: nat :| OccursAnyCaseAt(s, t, k);
      OccursLowerAt(s, t, k);
      ContainsAt(Lower(s), t, k);
    }
  }

  /** Python's `s.lower()` restricted to the ASCII letters. */
  function Lower(s: string): (r: string)
    ensures |r| == |s|
    ensures forall k :: 0 <= k < |s| ==> r[k] == LowerChar(s[k])
  {
    seq(|s|, k requires 0 <= k < |s| => LowerChar(s[k]))
  }

  /** Python's `t in s`: `t` occurs in `s` as a contiguous substring. */
  predicate Contains(s: string, t: string)
    decreases |s|
  {
    StartsWith(s, t) || (s != [] && Contains(s[1..], t))
  }

  /** Any occurrence of `t + u` is an occurrence of `t`. */
  lemma {:induction false} ContainsPrefixOf(s: string, t: string, u: string)
    requires Contains(s, t + u)
    ensures Contains(s, t)
    decreases |s|
  {
    if StartsWith(s, t + u) {
      assert s[..|t|] == (t + u)[..|t|] == t;
    } else {
      ContainsPrefixOf(s[1..], t, u);
    }
  }

  /** `t` occurs in `s` at offset `k`. */
  predicate OccursAt(s: string, t: string, k: nat)
  {
    k + |t| <= |s| && s[k..k + |t|] == t
  }

  /** `t` occurs in `s` iff it occurs at some offset: this lemma and
      `ContainsOffset` are the two directions. */
  lemma {:induction false} ContainsAt(s: string, t: string, k: nat)
    requires OccursAt(s, t, k)
    ensures Contains(s, t)
    decreases k
  {
    if k > 0 {
      assert s[1..][k - 1..k - 1 + |t|] == s[k..k + |t|];
      ContainsAt(s[1..], t, k - 1);
    }
  }

  lemma {:induction false} ContainsOffset(s: string, t: string)
    requires Contains(s, t)
    ensures exists k: nat :: OccursAt(s, t, k)
    decreases |s|
  {
    if StartsWith(s, t) {
      assert OccursAt(s, t, 0);
    } else {
      ContainsOffset(s[1..], t);
      var k: nat :| OccursAt(s[1..], t, k);
      assert s[k + 1..k + 1 + |t|] == s[1..][k..k + |t|];
      assert OccursAt(s, t, k + 1);
    }
  }

  /** Python's `s.count(c)` for a single character `c`. */
  function Count(s: string, c: char): (n: nat)
    ensures n <= |s|
    ensures n == 0 <==> c !in s
  {
    if s == [] then 0 else (if s[0] == c then 1 else 0) + Count(s[1..], c)
  }

  /** Extending a slice by one element. */
  lemma SliceSnoc<T>(s: seq<T>, a: nat, b: nat)
    requires a <= b < |s|
    ensures s[a..b + 1] == s[a..b] + [s[b]]
  {
  }

  lemma AppendAssoc<T>(a: seq<T>, b: seq<T>, c: seq<T>)
    ensures (a + b) + c == a + (b + c)
  {
  }

  /** Python's `''.join(parts)`. */
  function Concat(parts: seq<string>): (r: string)
  {
    if parts == [] then [] else Concat(parts[..|parts| - 1]) + parts[|parts| - 1]
  }

  lemma {:induction false} ConcatAppend(a: seq<string>, b: seq<string>)
    ensures Concat(a + b) == Concat(a) + Concat(b)
    decreases |b|
  {
    if b == [] {
      assert a + b == a;
    } else {
      var b' := b[..|b| - 1];
      calc {
        Concat(a + b);
        { assert (a + b)[..|a + b| - 1] == a + b' && (a + b)[|a + b| - 1] == b[|b| - 1]; }
        Concat(a + b') + b[|b| - 1];
        { ConcatAppend(a, b'); }
        Concat(a) + Concat(b') + b[|b| - 1];
        { AppendAssoc(Concat(a), Concat(b'), b[|b| - 1]); }
        Concat(a) + Concat(b);
      }
    }
  }

  /** Python's `sep.join(parts)`. */
  function JoinWith(parts: seq<string>, sep: string): string
  {
    if parts == [] then []
    else if |parts| == 1 then parts[0]
    else parts[0] + sep + JoinWith(parts[1..], sep)
  }

  /** Python's `s.split(c)` for a single-character separator: the pieces
      between consecutive occurrences of `c`, and one more than there are
      occurrences. */
  function Split(s: string, c: char): (r: seq<string>)
    ensures |r| == Count(s, c) + 1
    ensures forall k :: 0 <= k < |r| ==> c !in r[k]
    decreases |s|
  {
    if s == [] then [[]]
    else
      var rest := Split(s[1..], c);
      if s[0] == c then [[]] + rest
      else [[s[0]] + rest[0]] + rest[1..]
  }

  /** Joining the pieces of a split with the separator gives back the string. */
  lemma {:induction false} SplitJoin(s: string, c: char)
    ensures JoinWith(Split(s, c), [c]) == s
    decreases |s|
  {
    if s != [] {
      SplitJoin(s[1..], c);
      if s[0] == c {
        JoinCons([], Split(s[1..], c), [c]);
        assert s == [c] + s[1..];
      } else {
        SplitJoinLetter(s, c);
      }
    }
  }

  /** The step of `SplitJoin` for a first character other than `c`. */
  lemma SplitJoinLetter(s: string, c: char)
    requires s != [] && s[0] != c
    requires JoinWith(Split(s[1..], c), [c]) == s[1..]
    ensures JoinWith(Split(s, c), [c]) == s
  {
    var rest := Split(s[1..], c);
    var x := [s[0]] + rest[0];
    assert Split(s, c) == [x] + rest[1..];
    if |rest| == 1 {
      calc {
        JoinWith([x] + rest[1..], [c]);
        { assert [x] + rest[1..] == [x]; }
        x;
        { assert JoinWith(rest, [c]) == rest[0]; }
        [s[0]] + s[1..];
      }
    } else {
      calc {
        JoinWith([x] + rest[1..], [c]);
        { JoinCons(x, rest[1..], [c]); }
        x + ([c] + JoinWith(rest[1..], [c]));
        { AppendAssoc([s[0]], rest[0], [c] + JoinWith(rest[1..], [c])); }
        [s[0]] + (rest[0] + ([c] + JoinWith(rest[1..], [c])));
        { JoinCons(rest[0], rest[1..], [c]); assert [rest[0]] + rest[1..] == rest; }
        [s[0]] + JoinWith(rest, [c]);
      }
    }
    assert s == [s[0]] + s[1..];
  }

  /** `sep.join` of a list with a first element and a non-empty tail. */
  lemma JoinCons(x: string, parts: seq<string>, sep: string)
    requires parts != []
    ensures JoinWith([x] + parts, sep) == x + (sep + JoinWith(parts, sep))
  {
    assert ([x] + parts)[1..] == parts;
  }

  /** A string without the separator splits into itself. */
  lemma {:induction false} SplitNone(a: string, c: char)
    requires c !in a
    ensures Split(a, c) == [a]
    decreases |a|
  {
    if a != [] {
      assert c !in a[1..];
      SplitNone(a[1..], c);
      assert [a[0]] + a[1..] == a;
    }
  }

  /** Splitting at the first separator. */
  lemma {:induction false} SplitAt(a: string, b: string, c: char)
    requires c !in a
    ensures Split(a + [c] + b, c) == [a] + Split(b, c)
    decreases |a|
  {
    var s := a + [c] + b;
    if a == [] {
      assert s[0] == c && s[1..] == b;
    } else {
      assert s[0] == a[0] && s[1..] == a[1..] + [c] + b;
      assert c !in a[1..];
      SplitAt(a[1..], b, c);
      assert [a[0]] + a[1..] == a;
    }
  }

  /** Python's `s.replace(pat, rep)`: left-to-right, non-overlapping; an empty
      `pat` inserts `rep` before every character and at the end. */
  function Replace(s: string, pat: string, rep: string): string
    decreases |s|
  {
    if pat == [] then
      (if s == [] then rep else rep + [s[0]] + Replace(s[1..], pat, rep))
    else if StartsWith(s, pat) then rep + Replace(s[|pat|..], pat, rep)
    else if s == [] then []
    else [s[0]] + Replace(s[1..], pat, rep)
  }

  /** Replacing a non-empty string that does not occur changes nothing. */
  lemma {:induction false} ReplaceAbsent(s: string, pat: string, rep: string)
    requires pat != [] && !Contains(s, pat)
    ensures Replace(s, pat, rep) == s
    decreases |s|
  {
    if s != [] {
      ReplaceAbsent(s[1..], pat, rep);
    }
  }

  /** A line break for `str.splitlines`. */
  predicate IsLineBreak(c: char)
  {
    || ('\n' <= c <= '\r')
    || ('\U{1c}' <= c <= '\U{1e}')
    || c == '\U{85}' || c == '\U{2028}' || c == '\U{2029}'
  }

  /** A line as `splitlines(keepends=True)` yields it: non-empty, with no
      line break before its last character except the `\r` of a closing
      `\r\n`. */
  predicate OneLine(l: string)
  {
    l != [] && forall k :: 0 <= k < |l| - 1 ==> !IsLineBreak(l[k]) || (k == |l| - 2 && l[k] == '\r' && l[k + 1] == '\n')
  }

  /** Length of the first line of `s`, its line break (`\r\n` counting as
      one) included: the line stops right after the first line break, or at
      the end of the text, and a `\r` followed by `\n` is never cut from it. */
  function FirstLineLength(s: string): (n: nat)
    requires s != []
    ensures 0 < n <= |s|
    ensures forall k :: 0 <= k < n - 1 ==> !IsLineBreak(s[k]) || (k == n - 2 && s[k] == '\r' && s[k + 1] == '\n')
    ensures n == |s| || IsLineBreak(s[n - 1])
    ensures s[n - 1] == '\r' && n < |s| ==> s[n] != '\n'
    decreases |s|
  {
    if IsLineBreak(s[0]) then
      (if s[0] == '\r' && |s| > 1 && s[1] == '\n' then 2 else 1)
    else if |s| == 1 then 1
    else
      var m := FirstLineLength(s[1..]);
      forall k | 1 <= k < m
        ensures !IsLineBreak(s[k]) || (k == m - 1 && s[k] == '\r' && s[k + 1] == '\n')
      {
        assert s[k] == s[1..][k - 1] && s[k + 1] == s[1..][k];
      }
      1 + m
  }

  /** The first line of a text is one line; it ends in a line break unless
      it is the whole text, and it keeps a `\r\n` together. */
  lemma FirstLineOne(s: string)
    requires s != []
    ensures OneLine(s[..FirstLineLength(s)])
    ensures FirstLineLength(s) < |s| ==> IsLineBreak(s[..FirstLineLength(s)][FirstLineLength(s) - 1])
    ensures FirstLineLength(s) < |s| && s[..FirstLineLength(s)][FirstLineLength(s) - 1] == '\r' ==>
      s[FirstLineLength(s)..][0] != '\n'
  {
    var n := FirstLineLength(s);
    forall k | 0 <= k < n - 1
      ensures !IsLineBreak(s[..n][k]) || (k == n - 2 && s[..n][k] == '\r' && s[..n][k + 1] == '\n')
    {
      assert s[..n][k] == s[k] && s[..n][k + 1] == s[k + 1];
    }
  }

  /** Python's `s.splitlines(keepends=True)`: the parts concatenate back to
      the text; `SplitLinesShape` shows each part is one line. */
  function SplitLines(s: string): (r: seq<string>)
    ensures forall k :: 0 <= k < |r| ==> r[k] != []
    ensures Concat(r) == s
    decreases |s|
  {
    if s == [] then []
    else
      var n := FirstLineLength(s);
      var r := [s[..n]] + SplitLines(s[n..]);
      assert Concat(r) == s by {
        ConcatAppend([s[..n]], SplitLines(s[n..]));
        assert Concat([s[..n]]) == s[..n] by { assert [s[..n]][..0] == []; }
      }
      r
  }

  /** The first line of a non-empty text starts it. */
  lemma SplitLinesFirst(s: string)
    requires s != []
    ensures SplitLines(s) != [] && SplitLines(s)[0][0] == s[0]
  {
    assert SplitLines(s)[0] == s[..FirstLineLength(s)];
  }

  /** The lines of a non-empty text are its first line followed by the
      lines of the rest. */
  lemma SplitLinesCons(s: string)
    requires s != []
    ensures SplitLines(s) == [s[..FirstLineLength(s)]] + SplitLines(s[FirstLineLength(s)..])
  {
  }

  /** Line `k` of `splitlines` is one line. */
  lemma {:induction false} SplitLinesOne(s: string, k: nat)
    requires k < |SplitLines(s)|
    ensures OneLine(SplitLines(s)[k])
    decreases |s|
  {
    SplitLinesCons(s);
    if k == 0 {
      FirstLineOne(s);
    } else {
      SplitLinesOne(s[FirstLineLength(s)..], k - 1);
    }
  }

  /** Every line of `splitlines` but the last ends in a line break. */
  lemma {:induction false} SplitLinesBreak(s: string, k: nat)
    requires k + 1 < |SplitLines(s)|
    ensures IsLineBreak(SplitLines(s)[k][|SplitLines(s)[k]| - 1])
    decreases |s|
  {
    SplitLinesCons(s);
    if k == 0 {
      FirstLineOne(s);
    } else {
      SplitLinesBreak(s[FirstLineLength(s)..], k - 1);
    }
  }

  /** A line of `splitlines` ending in `\r` is not followed by a line
      starting with `\n`: a `\r\n` stays in one line. */
  lemma {:induction false} SplitLinesCrLf(s: string, k: nat)
    requires k + 1 < |SplitLines(s)|
    ensures SplitLines(s)[k][|SplitLines(s)[k]| - 1] == '\r' ==> SplitLines(s)[k + 1][0] != '\n'
    decreases |s|
  {
    SplitLinesCons(s);
    if k == 0 {
      FirstLineOne(s);
      SplitLinesFirst(s[FirstLineLength(s)..]);
    } else {
      SplitLinesCrLf(s[FirstLineLength(s)..], k - 1);
    }
  }

  /** `splitlines` cuts the text at its line breaks: each part is one line,
      every part but the last ends in a line break, no `\r\n` is split
      between two parts, and the first part starts the text. */
  lemma {:induction false} SplitLinesShape(s: string)
    ensures forall k :: 0 <= k < |SplitLines(s)| ==> OneLine(SplitLines(s)[k])
    ensures forall k :: 0 <= k < |SplitLines(s)| - 1 ==> IsLineBreak(SplitLines(s)[k][|SplitLines(s)[k]| - 1])
    ensures forall k :: 0 <= k < |SplitLines(s)| - 1 && SplitLines(s)[k][|SplitLines(s)[k]| - 1] == '\r' ==>
      SplitLines(s)[k + 1][0] != '\n'
    ensures s != [] ==> SplitLines(s) != [] && SplitLines(s)[0][0] == s[0]
  {
    var r := SplitLines(s);
    forall k | 0 <= k < |r|
      ensures OneLine(r[k])
    {
      SplitLinesOne(s, k);
    }
    forall k | 0 <= k < |r| - 1
      ensures IsLineBreak(r[k][|r[k]| - 1])
    {
      SplitLinesBreak(s, k);
    }
    forall k | 0 <= k < |r| - 1 && r[k][|r[k]| - 1] == '\r'
      ensures r[k + 1][0] != '\n'
    {
      SplitLinesCrLf(s, k);
    }
    if s != [] {
      SplitLinesFirst(s);
    }
  }
}
