/**
 * The handler-block extractor: a line scanner that keeps only route-handler
 * blocks (Flask, Spring and Express styles) of a backend source file and drops
 * every block mentioning "health".
 *
 * Each operation is a method written as the scanner is (a cursor advanced by
 * `while` loops, a block accumulated line by line), proved against the spec
 * functions below: `NextPublic`, `NextDef`, `BodyEnd` and `BraceEnd` characterise where each capture
 * rule stops, `Spans` is the sequence of captured line runs, and `Extracted`
 * the blocks that come out.
 */
module Parsers {
  import opened Wrappers
  import opened Text

  datatype Language = Python | Java | JavaScript

  /** The route-declaration patterns, in the order the scanner tries them. */
  const Patterns: seq<Language> := [Python, Java, JavaScript]

  // Each pattern is `^\s*` followed by a literal that does not start with
  // whitespace, so "matches" is "the line without its leading whitespace
  // starts with the literal".

  /** `^\s*@app\.route` */
  predicate PythonRoute(line: string)
  {
    StartsWith(LStrip(line), "@app.route")
  }

  /** `^\s*@(?:Get|Post|Put|Delete|Request)Mapping` */
  predicate JavaRoute(line: string)
  {
    var t := LStrip(line);
    || StartsWith(t, "@GetMapping") || StartsWith(t, "@PostMapping") || StartsWith(t, "@PutMapping")
    || StartsWith(t, "@DeleteMapping") || StartsWith(t, "@RequestMapping")
  }

  /** Route verbs accepted after `app.`. */
  predicate IsRouteVerb(w: string) { w == "get" || w == "post" || w == "put" || w == "delete" }

  /** `^\s*app\.(get|post|put|delete)\s*\(.*`: after `app.` comes a verb,
      then optional whitespace, then `(`. As every verb is made of letters and
      must be followed by whitespace or `(`, the verb is the whole run of
      letters after `app.`. */
  predicate JsRoute(line: string)
  {
    var t := LStrip(line);
    StartsWith(t, "app.") &&
    var u := t[4..];
    var n := LetterRun(u);
    IsRouteVerb(u[..n]) && StartsWith(LStrip(u[n..]), "(")
  }

  predicate Matches(lang: Language, line: string)
  {
    match lang
    case Python => PythonRoute(line)
    case Java => JavaRoute(line)
    case JavaScript => JsRoute(line)
  }

  /** The language of the first pattern in `Patterns` that matches `line`. */
  function Classify(line: string): Option<Language>
  {
    if PythonRoute(line) then Some(Python)
    else if JavaRoute(line) then Some(Java)
    else if JsRoute(line) then Some(JavaScript)
    else None
  }

  /** The three patterns never match the same line. */
  lemma PatternsExclusive(line: string)
    ensures !(PythonRoute(line) && JavaRoute(line))
    ensures !(PythonRoute(line) && JsRoute(line))
    ensures !(JavaRoute(line) && JsRoute(line))
  {
    var t := LStrip(line);
    assert PythonRoute(line) ==> t[0] == '@' && t[1] == 'a';
    assert JavaRoute(line) ==> t[0] == '@' && t[1] != 'a';
    assert JsRoute(line) ==> t[0] == 'a';
  }

  /** So the order in which the patterns are tried does not matter: a line is
      classified under a language exactly when that language's pattern
      matches it. */
  lemma ClassifyMatches(line: string, lang: Language)
    ensures Classify(line) == Some(lang) <==> Matches(lang, line)
  {
    PatternsExclusive(line);
  }

  /** `Classify` tries the patterns in the order of `Patterns`. */
  lemma ClassifyFirst(line: string, j: nat)
    requires j < |Patterns| && Matches(Patterns[j], line)
    requires forall k :: 0 <= k < j ==> !Matches(Patterns[k], line)
    ensures Classify(line) == Some(Patterns[j])
  {
    if j > 0 {
      assert !Matches(Patterns[0], line);
    }
    if j > 1 {
      assert !Matches(Patterns[1], line);
    }
  }

  lemma ClassifyNone(line: string)
    requires forall k :: 0 <= k < |Patterns| ==> !Matches(Patterns[k], line)
    ensures Classify(line) == None
  {
    assert !Matches(Patterns[0], line) && !Matches(Patterns[1], line) && !Matches(Patterns[2], line);
  }

  /** `detect_language`: the first language in `patterns` whose pattern
      matches `line`, or None. */
  method DetectLanguage(line: string, patterns: seq<Language>) returns (r: Option<Language>)
    ensures r.None? <==> forall k :: 0 <= k < |patterns| ==> !Matches(patterns[k], line)
    ensures r.Some? ==> exists j :: 0 <= j < |patterns| && patterns[j] == r.value && Matches(r.value, line)
                                      && forall k :: 0 <= k < j ==> !Matches(patterns[k], line)
    ensures patterns == Patterns ==> r == Classify(line)
  {
    var j := 0;
    while j < |patterns|
      invariant j <= |patterns|
      invariant forall k :: 0 <= k < j ==> !Matches(patterns[k], line)
    {
      if Matches(patterns[j], line) {
        if patterns == Patterns {
          ClassifyFirst(line, j);
        }
        return Some(patterns[j]);
      }
      j := j + 1;
    }
    if patterns == Patterns {
      ClassifyNone(line);
    }
    return None;
  }

  /** `contain_exclude`: the block is a health-check handler. The test for
      "healthcheck" is subsumed by the test for "health". */
  function ContainExclude(block: seq<string>): (r: bool)
    ensures r == Contains(Lower(Concat(block)), "health")
  {
    var content := Lower(Concat(block));
    if Contains(content, "healthcheck") then
      assert "healthcheck" == "health" + "check";
      ContainsPrefixOf(content, "health", "check");
      true
    else Contains(content, "health")
  }

  /** What a captured block contributes to the result: its text, unless it is
      a health-check handler. */
  function Keep(block: seq<string>): (r: seq<string>)
    ensures |r| <= 1
    ensures forall b :: b in r ==> !Contains(Lower(b), "health")
  {
    if ContainExclude(block) then [] else [Concat(block)]
  }

  predicate IsAnnotation(line: string) { StartsWith(Strip(line), "@") }
  predicate IsPublic(line: string) { StartsWith(Strip(line), "public") }
  predicate IsDef(line: string) { StartsWith(Strip(line), "def ") }
  predicate IsBlank(line: string) { Strip(line) == [] }

  lemma AnnotationNotPublic(line: string)
    requires IsAnnotation(line)
    ensures !IsPublic(line)
  {
    assert Strip(line)[0] == '@';
  }

  /** Width of the leading whitespace of `line`. */
  function Indent(line: string): nat { |line| - |LStrip(line)| }

  /** A line that ends an indented body whose header has indentation `w`. */
  predicate Dedented(w: nat, line: string) { !IsBlank(line) && Indent(line) <= w }

  /** Net braces opened by one line. */
  function Delta(line: string): int { Count(line, '{') - Count(line, '}') }

  /** The running brace count over lines `s` up to, not including, `e`. */
  function Balance(lines: seq<string>, s: nat, e: nat): int
    requires s <= e <= |lines|
    decreases e - s
  {
    if e == s then 0 else Balance(lines, s, e - 1) + Delta(lines[e - 1])
  }

  // Each capture rule stops at the first line of some kind; the three
  // functions below name that line (`|lines|` when there is none).

  /** The first signature line at or after `k`. */
  function NextPublic(lines: seq<string>, k: nat): (r: nat)
    requires k <= |lines|
    ensures k <= r <= |lines|
    ensures r < |lines| ==> IsPublic(lines[r])
    ensures forall m :: k <= m < r ==> !IsPublic(lines[m])
    decreases |lines| - k
  {
    if k == |lines| || IsPublic(lines[k]) then k else NextPublic(lines, k + 1)
  }

  /** The first `def ` line at or after `k`. */
  function NextDef(lines: seq<string>, k: nat): (r: nat)
    requires k <= |lines|
    ensures k <= r <= |lines|
    ensures r < |lines| ==> IsDef(lines[r])
    ensures forall m :: k <= m < r ==> !IsDef(lines[m])
    decreases |lines| - k
  {
    if k == |lines| || IsDef(lines[k]) then k else NextDef(lines, k + 1)
  }

  /** The first line at or after `k` that ends a body indented deeper than
      `w`: the first line that is neither blank nor indented more than `w`. */
  function BodyEnd(lines: seq<string>, k: nat, w: nat): (r: nat)
    requires k <= |lines|
    ensures k <= r <= |lines|
    ensures r < |lines| ==> Dedented(w, lines[r])
    ensures forall m :: k <= m < r ==> !Dedented(w, lines[m])
    decreases |lines| - k
  {
    if k == |lines| || Dedented(w, lines[k]) then k else BodyEnd(lines, k + 1, w)
  }

  function BraceEndFrom(lines: seq<string>, s: nat, k: nat): (r: nat)
    requires s < k <= |lines|
    requires forall m :: s < m < k ==> Balance(lines, s, m) > 0
    ensures k <= r <= |lines|
    ensures forall m :: s < m < r ==> Balance(lines, s, m) > 0
    ensures r < |lines| ==> Balance(lines, s, r) <= 0
    decreases |lines| - k
  {
    if k == |lines| || Balance(lines, s, k) <= 0 then k else BraceEndFrom(lines, s, k + 1)
  }

  /** Where brace balancing that starts at line `s` stops: the first cursor
      after `s` at which the running count of `{` minus `}` is no longer
      positive, or the end of input. A first line that opens no brace
      captures no further line. */
  function BraceEnd(lines: seq<string>, s: nat): (r: nat)
    requires s < |lines|
    ensures s < r <= |lines|
    ensures forall m :: s < m < r ==> Balance(lines, s, m) > 0
    ensures r < |lines| ==> Balance(lines, s, r) <= 0
    ensures Delta(lines[s]) <= 0 ==> r == s + 1
  {
    assert Balance(lines, s, s + 1) == Delta(lines[s]);
    BraceEndFrom(lines, s, s + 1)
  }

  /** End of a Java capture starting at `i`: at the end of input when no
      signature line follows, otherwise where the signature's braces balance. */
  function JavaEnd(lines: seq<string>, i: nat): (r: nat)
    requires i <= |lines|
    ensures i <= r <= |lines|
    ensures NextPublic(lines, i) < |lines| ==> NextPublic(lines, i) < r
  {
    var p := NextPublic(lines, i);
    if p == |lines| then |lines| else BraceEnd(lines, p)
  }

  /** End of a Python capture starting at `i`: just past the indented body of
      the first `def ` line, or the end of input when there is none. */
  function PythonEnd(lines: seq<string>, i: nat): (r: nat)
    requires i <= |lines|
    ensures i <= r <= |lines|
    ensures NextDef(lines, i) < |lines| ==> NextDef(lines, i) < r
  {
    var d := NextDef(lines, i);
    if d == |lines| then |lines|
    else
      var w := Indent(lines[d]);
      BodyEnd(lines, d + 1, w)
  }

  /** After the `def ` line, a line belongs to the body exactly when it is
      blank or indented deeper than the `def` line; the first line that is
      neither ends the body and is not consumed. */
  lemma PythonBody(lines: seq<string>, i: nat)
    requires i <= |lines|
    ensures var d := NextDef(lines, i);
      var e := PythonEnd(lines, i);
      d < |lines| ==>
        && d < e
        && (forall m :: d < m < e ==> IsBlank(lines[m]) || Indent(lines[m]) > Indent(lines[d]))
        && (e < |lines| ==> !IsBlank(lines[e]) && Indent(lines[e]) <= Indent(lines[d]))
  {
  }

  /** Where the capture rule of `lang` started at line `i` stops. Every rule
      consumes at least the line it starts at. */
  function CaptureEnd(lang: Language, lines: seq<string>, i: nat): (r: nat)
    requires i < |lines|
    ensures i < r <= |lines|
  {
    match lang
    case Java => JavaEnd(lines, i)
    case Python => PythonEnd(lines, i)
    case JavaScript => BraceEnd(lines, i)
  }

  /** What the capture started at `i` appends to the result. A Java capture
      without a signature line appends nothing. */
  function Emitted(lang: Language, lines: seq<string>, i: nat): (r: seq<string>)
    requires i < |lines|
    ensures |r| <= 1
    ensures forall b :: b in r ==> !Contains(Lower(b), "health")
  {
    if lang == Java && NextPublic(lines, i) == |lines| then []
    else Keep(lines[i..CaptureEnd(lang, lines, i)])
  }

  /** A captured run of lines: the rule applied, the matched line, and the
      cursor the rule returns. */
  datatype Span = Span(lang: Language, start: nat, end: nat)

  /** A scan table for `n` lines: `ks[m]` is the classification of line `m`
      and `ends[m]` the cursor the scan moves to from line `m`. */
  predicate IsTable(n: nat, ks: seq<Option<Language>>, ends: seq<nat>)
  {
    |ks| == n && |ends| == n && forall m :: 0 <= m < n ==> m < ends[m] <= n
  }

  /** The classification of every line. */
  function Kinds(lines: seq<string>): (ks: seq<Option<Language>>)
    ensures |ks| == |lines|
  {
    seq(|lines|, m requires 0 <= m < |lines| => Classify(lines[m]))
  }

  /** Where the scan moves from each line: the end of its capture when the
      line is classified, the next line otherwise. */
  function Ends(lines: seq<string>, ks: seq<Option<Language>>): (ends: seq<nat>)
    requires |ks| == |lines|
    ensures IsTable(|lines|, ks, ends)
  {
    seq(|lines|, m requires 0 <= m < |lines| =>
      match ks[m]
      case None => m + 1
      case Some(lang) => CaptureEnd(lang, lines, m))
  }

  /** The runs the scanner captures from cursor `i` on. */
  function Spans(ks: seq<Option<Language>>, ends: seq<nat>, i: nat): (sp: seq<Span>)
    requires IsTable(|ks|, ks, ends) && i <= |ks|
    ensures forall k :: 0 <= k < |sp| ==> i <= sp[k].start < sp[k].end <= |ks|
    decreases |ks| - i
  {
    if i == |ks| then []
    else match ks[i]
      case None => Spans(ks, ends, i + 1)
      case Some(lang) => [Span(lang, i, ends[i])] + Spans(ks, ends, ends[i])
  }

  function Emit(lines: seq<string>, sp: seq<Span>): seq<string>
    requires forall k :: 0 <= k < |sp| ==> sp[k].start < |lines|
  {
    if sp == [] then [] else Emitted(sp[0].lang, lines, sp[0].start) + Emit(lines, sp[1..])
  }

  /** The runs `parse_code` captures from `lines`. */
  function Scan(lines: seq<string>): (sp: seq<Span>)
    ensures forall k :: 0 <= k < |sp| ==> sp[k].start < sp[k].end <= |lines|
  {
    var ks := Kinds(lines);
    Spans(ks, Ends(lines, ks), 0)
  }

  /** The result of `parse_code` on `lines`. */
  function Extracted(lines: seq<string>): seq<string>
  {
    Emit(lines, Scan(lines))
  }

  /** One step of the scan: a matched line contributes its capture and the
      scan resumes where the capture stopped; any other line is skipped. */
  lemma EmitSpansStep(lines: seq<string>, ks: seq<Option<Language>>, ends: seq<nat>, i: nat)
    requires IsTable(|lines|, ks, ends) && i < |lines|
    ensures ks[i].None? ==> Emit(lines, Spans(ks, ends, i)) == Emit(lines, Spans(ks, ends, i + 1))
    ensures ks[i].Some? ==>
      Emit(lines, Spans(ks, ends, i)) == Emitted(ks[i].value, lines, i) + Emit(lines, Spans(ks, ends, ends[i]))
  {
    if ks[i].Some? {
      var sp := Spans(ks, ends, i);
      assert sp[1..] == Spans(ks, ends, ends[i]);
    }
  }

  /** The scan invariant survives one capture. */
  lemma ScanStep(lines: seq<string>, ks: seq<Option<Language>>, ends: seq<nat>, i: nat, lang: Language,
                 result0: seq<string>, result: seq<string>, total: seq<string>)
    requires IsTable(|lines|, ks, ends) && i < |lines| && ks[i] == Some(lang)
    requires result == result0 + Emitted(lang, lines, i)
    requires result0 + Emit(lines, Spans(ks, ends, i)) == total
    ensures result + Emit(lines, Spans(ks, ends, ends[i])) == total
  {
    EmitSpansStep(lines, ks, ends, i);
    AppendAssoc(result0, Emitted(lang, lines, i), Emit(lines, Spans(ks, ends, ends[i])));
  }

  predicate Covered(sp: seq<Span>, m: nat)
  {
    exists k :: 0 <= k < |sp| && sp[k].start <= m < sp[k].end
  }

  /** Runs in source order without overlap. */
  predicate Ordered(sp: seq<Span>)
  {
    forall k :: 0 <= k < |sp| - 1 ==> sp[k].end <= sp[k + 1].start
  }

  /** Every run starts at a classified line and ends where the scan moves
      from that line. */
  predicate Anchored(ks: seq<Option<Language>>, ends: seq<nat>, sp: seq<Span>)
  {
    forall k :: 0 <= k < |sp| ==>
      sp[k].start < |ks| && sp[k].start < |ends| && ks[sp[k].start] == Some(sp[k].lang) && sp[k].end == ends[sp[k].start]
  }

  /** Each captured run starts at a classified line and ends where the scan
      moves from that line. */
  lemma {:induction false} SpansAnchored(ks: seq<Option<Language>>, ends: seq<nat>, i: nat)
    requires IsTable(|ks|, ks, ends) && i <= |ks|
    ensures Anchored(ks, ends, Spans(ks, ends, i))
    decreases |ks| - i
  {
    if i < |ks| {
      var sp := Spans(ks, ends, i);
      match ks[i]
      case None =>
        SpansAnchored(ks, ends, i + 1);
        assert sp == Spans(ks, ends, i + 1);
      case Some(lang) =>
        SpansAnchored(ks, ends, ends[i]);
        var rest := Spans(ks, ends, ends[i]);
        assert sp == [Span(lang, i, ends[i])] + rest;
        forall k | 0 <= k < |sp|
          ensures sp[k].start < |ks| && ks[sp[k].start] == Some(sp[k].lang) && sp[k].end == ends[sp[k].start]
        {
          if k == 0 {
            assert sp[0] == Span(lang, i, ends[i]);
          } else {
            assert sp[k] == rest[k - 1];
          }
        }
    }
  }

  /** The captured runs lie in source order without overlap. */
  lemma {:induction false} SpansOrdered(ks: seq<Option<Language>>, ends: seq<nat>, i: nat)
    requires IsTable(|ks|, ks, ends) && i <= |ks|
    ensures Ordered(Spans(ks, ends, i))
    decreases |ks| - i
  {
    if i < |ks| {
      var sp := Spans(ks, ends, i);
      match ks[i]
      case None =>
        SpansOrdered(ks, ends, i + 1);
        assert sp == Spans(ks, ends, i + 1);
      case Some(lang) =>
        SpansOrdered(ks, ends, ends[i]);
        var rest := Spans(ks, ends, ends[i]);
        assert sp == [Span(lang, i, ends[i])] + rest;
        forall k | 0 <= k < |sp| - 1
          ensures sp[k].end <= sp[k + 1].start
        {
          assert sp[k + 1] == rest[k];
          if k == 0 {
            assert sp[0] == Span(lang, i, ends[i]);
          } else {
            assert sp[k] == rest[k - 1];
          }
        }
    }
  }

  /** Every line outside all runs is unclassified: it was skipped on its own. */
  lemma {:induction false} SpansSkipped(ks: seq<Option<Language>>, ends: seq<nat>, i: nat)
    requires IsTable(|ks|, ks, ends) && i <= |ks|
    ensures forall m :: i <= m < |ks| && !Covered(Spans(ks, ends, i), m) ==> ks[m].None?
    decreases |ks| - i
  {
    if i < |ks| {
      var sp := Spans(ks, ends, i);
      match ks[i]
      case None =>
        SpansSkipped(ks, ends, i + 1);
        assert sp == Spans(ks, ends, i + 1);
      case Some(lang) =>
        SpansSkipped(ks, ends, ends[i]);
        var rest := Spans(ks, ends, ends[i]);
        assert sp == [Span(lang, i, ends[i])] + rest;
        forall m | i <= m < |ks| && (m < ends[i] || Covered(rest, m))
          ensures Covered(sp, m)
        {
          if m < ends[i] {
            assert sp[0] == Span(lang, i, ends[i]);
          } else {
            var k :| 0 <= k < |rest| && rest[k].start <= m < rest[k].end;
            assert sp[k + 1] == rest[k];
          }
        }
    }
  }

  /** Every run starts at a line classified under its language and ends
      where that language's rule stops. */
  predicate RunsMatch(lines: seq<string>, sp: seq<Span>)
  {
    forall k :: 0 <= k < |sp| ==>
      sp[k].start < |lines| && Classify(lines[sp[k].start]) == Some(sp[k].lang)
      && sp[k].end == CaptureEnd(sp[k].lang, lines, sp[k].start)
  }

  /** Every line outside all runs is unclassified. */
  predicate GapsUnclassified(lines: seq<string>, sp: seq<Span>)
  {
    forall m :: 0 <= m < |lines| && !Covered(sp, m) ==> Classify(lines[m]).None?
  }

  /** The runs `parse_code` captures lie in source order without overlap;
      each starts at a line classified under its language (by
      `ClassifyMatches`, a line that language's pattern matches) and ends
      where that language's rule stops; every line outside all runs is
      unclassified, so it matches no pattern. */
  lemma ScanShape(lines: seq<string>)
    ensures Ordered(Scan(lines))
    ensures RunsMatch(lines, Scan(lines))
    ensures GapsUnclassified(lines, Scan(lines))
  {
    var ks := Kinds(lines);
    var ends := Ends(lines, ks);
    var sp := Spans(ks, ends, 0);
    SpansAnchored(ks, ends, 0);
    SpansOrdered(ks, ends, 0);
    SpansSkipped(ks, ends, 0);
    forall k | 0 <= k < |sp|
      ensures Classify(lines[sp[k].start]) == Some(sp[k].lang)
      ensures sp[k].end == CaptureEnd(sp[k].lang, lines, sp[k].start)
    {
      var st := sp[k].start;
      assert ks[st] == Classify(lines[st]);
      assert ends[st] == CaptureEnd(sp[k].lang, lines, st);
    }
    forall m | 0 <= m < |lines| && !Covered(sp, m)
      ensures Classify(lines[m]).None?
    {
      assert ks[m] == Classify(lines[m]);
    }
  }

  lemma {:induction false} EmitHealthFree(lines: seq<string>, sp: seq<Span>)
    requires forall k :: 0 <= k < |sp| ==> sp[k].start < |lines|
    ensures forall b :: b in Emit(lines, sp) ==> !Contains(Lower(b), "health")
  {
    if sp != [] {
      EmitHealthFree(lines, sp[1..]);
    }
  }

  /** No block in the result mentions "health" in any letter case. */
  lemma ExtractedHealthFree(lines: seq<string>)
    ensures forall b :: b in Extracted(lines) ==> !Contains(Lower(b), "health")
  {
    EmitHealthFree(lines, Scan(lines));
  }

  /** The first two loops of `parse_java`: annotation lines, then every line
      up to the `public` signature. Together they stop at the first signature
      line, as an annotation line is never one. */
  method SkipToSignature(i0: nat, lines: seq<string>) returns (actualBlock: seq<string>, i: nat)
    requires i0 <= |lines|
    ensures i == NextPublic(lines, i0)
    ensures actualBlock == lines[i0..i]
  {
    actualBlock := [];
    i := i0;
    while i < |lines| && IsAnnotation(lines[i])
      invariant i0 <= i <= |lines|
      invariant actualBlock == lines[i0..i]
      invariant NextPublic(lines, i) == NextPublic(lines, i0)
    {
      AnnotationNotPublic(lines[i]);
      SliceSnoc(lines, i0, i);
      actualBlock := actualBlock + [lines[i]];
      i := i + 1;
    }

    while i < |lines| && !IsPublic(lines[i])
      invariant i0 <= i <= |lines|
      invariant actualBlock == lines[i0..i]
      invariant NextPublic(lines, i) == NextPublic(lines, i0)
    {
      SliceSnoc(lines, i0, i);
      actualBlock := actualBlock + [lines[i]];
      i := i + 1;
    }
  }

  /** `parse_java`: annotation lines, then lines up to the `public` signature,
      then the signature's brace-balanced body. Without a signature line the
      cursor ends at the end of input and nothing is appended. */
  method ParseJava(i0: nat, lines: seq<string>, result0: seq<string>) returns (result: seq<string>, i: nat)
    requires i0 < |lines|
    ensures i0 < i <= |lines|
    ensures i == JavaEnd(lines, i0)
    ensures result == result0 + Emitted(Java, lines, i0)
    ensures NextPublic(lines, i0) == |lines| ==> i == |lines| && result == result0
  {
    var actualBlock;
    actualBlock, i := SkipToSignature(i0, lines);

    result := result0;
    if i < |lines| && IsPublic(lines[i]) {
      var p := i;
      actualBlock, i := CaptureBraces(lines, p, actualBlock);
      assert actualBlock == lines[i0..i] by {
        assert lines[i0..p] + lines[p..i] == lines[i0..i];
      }

      if !ContainExclude(actualBlock) {
        result := result + [Concat(actualBlock)];
      }
    }
  }

  /** The first loop of `parse_python`: collect lines up to and including the
      first `def ` line, and take that line's indentation. */
  method SkipToDef(i0: nat, lines: seq<string>) returns (actualBlock: seq<string>, i: nat, indentLevel: Option<nat>)
    requires i0 <= |lines|
    ensures i0 <= i <= |lines| && actualBlock == lines[i0..i]
    ensures indentLevel.None? <==> NextDef(lines, i0) == |lines|
    ensures indentLevel.None? ==> i == |lines|
    ensures indentLevel.Some? ==>
      i == NextDef(lines, i0) + 1 && indentLevel.value == Indent(lines[NextDef(lines, i0)])
  {
    actualBlock := [];
    indentLevel := None;
    i := i0;
    while i < |lines|
      invariant i0 <= i <= |lines|
      invariant actualBlock == lines[i0..i]
      invariant NextDef(lines, i) == NextDef(lines, i0)
    {
      SliceSnoc(lines, i0, i);
      actualBlock := actualBlock + [lines[i]];
      if IsDef(lines[i]) {
        indentLevel := Some(Indent(lines[i]));
        i := i + 1;
        return;
      }
      i := i + 1;
    }
  }

  /** `parse_python`: lines up to and including the first `def ` line, then
      every following line that is blank or indented deeper than it. */
  method ParsePython(i0: nat, lines: seq<string>, result0: seq<string>) returns (result: seq<string>, i: nat)
    requires i0 < |lines|
    ensures i0 < i <= |lines|
    ensures i == PythonEnd(lines, i0)
    ensures result == result0 + Emitted(Python, lines, i0)
  {
    var actualBlock, indentLevel;
    actualBlock, i, indentLevel := SkipToDef(i0, lines);
    ghost var d := NextDef(lines, i0);

    while i < |lines|
      invariant i0 <= i <= |lines|
      invariant actualBlock == lines[i0..i]
      invariant indentLevel.None? ==> i == |lines|
      invariant indentLevel.Some? ==> d < i && BodyEnd(lines, i, Indent(lines[d])) == PythonEnd(lines, i0)
    {
      var lineIndent := Indent(lines[i]);
      if lineIndent > indentLevel.value || IsBlank(lines[i]) {
        SliceSnoc(lines, i0, i);
        actualBlock := actualBlock + [lines[i]];
        i := i + 1;
      } else {
        break;
      }
    }

    result := result0;
    if !ContainExclude(actualBlock) {
      result := result + [Concat(actualBlock)];
    }
  }

  /** The brace-balancing loop of `parse_java` and `parse_javascript`: line
      `s` and then each following line while the running count of `{` minus
      `}` is positive. */
  method CaptureBraces(lines: seq<string>, s: nat, block0: seq<string>) returns (actualBlock: seq<string>, i: nat)
    requires s < |lines|
    ensures i == BraceEnd(lines, s)
    ensures actualBlock == block0 + lines[s..i]
  {
    actualBlock := block0 + [lines[s]];
    var braceCount := Delta(lines[s]);
    i := s + 1;

    while i < |lines| && braceCount > 0
      invariant s < i <= |lines|
      invariant actualBlock == block0 + lines[s..i]
      invariant braceCount == Balance(lines, s, i)
      invariant forall m :: s < m < i ==> Balance(lines, s, m) > 0
    {
      SliceSnoc(lines, s, i);
      actualBlock := actualBlock + [lines[i]];
      braceCount := braceCount + Delta(lines[i]);
      i := i + 1;
    }
  }

  /** `parse_javascript`: the matched line and the brace-balanced run after it. */
  method ParseJavaScript(i0: nat, lines: seq<string>, result0: seq<string>) returns (result: seq<string>, i: nat)
    requires i0 < |lines|
    ensures i0 < i <= |lines|
    ensures i == BraceEnd(lines, i0)
    ensures result == result0 + Emitted(JavaScript, lines, i0)
  {
    var actualBlock;
    actualBlock, i := CaptureBraces(lines, i0, []);
    assert actualBlock == lines[i0..i];

    result := result0;
    if !ContainExclude(actualBlock) {
      result := result + [Concat(actualBlock)];
    }
  }

  /** `parse_code`: split the source into lines (line ends kept) and scan them
      with a cursor, dispatching each matched line to its capture rule and
      skipping every other line. */
  method ParseCode(sourceCode: string) returns (result: seq<string>)
    ensures result == Extracted(SplitLines(sourceCode))
    ensures forall b :: b in result ==> !Contains(Lower(b), "health")
  {
    var lines := SplitLines(sourceCode);
    result := [];
    var i := 0;
    ghost var ks := Kinds(lines);
    ghost var ends := Ends(lines, ks);

    while i < |lines|
      invariant i <= |lines|
      invariant result + Emit(lines, Spans(ks, ends, i)) == Extracted(lines)
    {
      var line := lines[i];
      var language := DetectLanguage(line, Patterns);
      assert language == ks[i];
      ghost var i1, result1 := i, result;

      if language == Some(Java) {
        result, i := ParseJava(i, lines, result);
        ScanStep(lines, ks, ends, i1, Java, result1, result, Extracted(lines));
        continue;
      } else if language == Some(Python) {
        result, i := ParsePython(i, lines, result);
        ScanStep(lines, ks, ends, i1, Python, result1, result, Extracted(lines));
        continue;
      } else if language == Some(JavaScript) {
        result, i := ParseJavaScript(i, lines, result);
        ScanStep(lines, ks, ends, i1, JavaScript, result1, result, Extracted(lines));
        continue;
      } else {
        EmitSpansStep(lines, ks, ends, i);
        i := i + 1;
      }
    }
    ExtractedHealthFree(lines);
  }
}
