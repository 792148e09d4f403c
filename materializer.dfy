/**
 * The reply materializer: splits a generated reply into (path, content)
 * sections with the section regular expression, rejects absolute paths and
 * paths that leave the base directory once normalised, and writes each
 * section's stripped content plus one newline to its target.
 *
 * The file system is a map from normalised absolute paths (sequences of
 * segments) to file contents; `resolve()` is lexical `.`/`..` normalisation.
 * `ParserAi` is the write loop, proved against the spec function
 * `Materialize`.
 */
module Materializer {
  import opened Wrappers
  import opened Text

  // ---------------------------------------------------------------------
  // Section extraction: re.findall(r"([\w\-/\.]+)\n```[a-zA-Z]*\n([\s\S]*?)```", text)
  // ---------------------------------------------------------------------

  /** `[\w\-/\.]`, with `\w` taken over ASCII. */
  predicate IsPathChar(c: char)
  {
    IsAsciiLetter(c) || ('0' <= c <= '9') || c == '_' || c == '-' || c == '/' || c == '.'
  }

  /** Length of the run of path characters that starts `t`. As a newline is
      not a path character, `[...]+\n` can only match this whole run. */
  function PathRun(t: string): (n: nat)
    ensures n <= |t|
    ensures forall k :: 0 <= k < n ==> IsPathChar(t[k])
    ensures n == |t| || !IsPathChar(t[n])
  {
    if t != [] && IsPathChar(t[0]) then 1 + PathRun(t[1..]) else 0
  }

  const Fence: string := "```"

  /** A triple backtick starts at offset `m` of `v`. */
  predicate FenceAt(v: string, m: nat)
  {
    m + 3 <= |v| && v[m] == '`' && v[m + 1] == '`' && v[m + 2] == '`'
  }

  /** The first triple backtick at or after offset `k`: where the lazy
      `[\s\S]*?` followed by three backticks stops. */
  function FenceFrom(v: string, k: nat): (r: Option<nat>)
    ensures r.Some? ==> k <= r.value && FenceAt(v, r.value) && forall m :: k <= m < r.value ==> !FenceAt(v, m)
    ensures r.None? ==> forall m :: k <= m ==> !FenceAt(v, m)
    decreases |v| - k
  {
    if k + 3 > |v| then None
    else if FenceAt(v, k) then Some(k)
    else FenceFrom(v, k + 1)
  }

  /** A section of a reply: the path token and the text between the opening
      line and the closing fence. */
  datatype Section = Section(path: string, content: string)

  /** A match of the section pattern at the start of a text, and the number
      of characters it consumes. */
  datatype Match = Match(section: Section, len: nat)

  predicate ValidPath(p: string)
  {
    p != [] && forall k :: 0 <= k < |p| ==> IsPathChar(p[k])
  }

  predicate FenceFree(c: string)
  {
    forall m :: 0 <= m < |c| ==> !FenceAt(c, m)
  }

  /** The section pattern anchored at the start of `t`: a path token, a
      newline and a fence, then the rest of the opening line and the
      content (`MatchTag`). */
  function MatchAt(t: string): (r: Option<Match>)
    ensures r.Some? ==> 0 < r.value.len <= |t|
    ensures r.Some? ==> ValidPath(r.value.section.path) && FenceFree(r.value.section.content)
  {
    var n := PathRun(t);
    if n == 0 || !StartsWith(t[n..], "\n```") then None
    else MatchTag(t[..n], t[n + 4..], n + 4)
  }

  /** After the opening fence: an optional letters-only tag, a newline, then
      the content (`MatchContent`). `used` counts what was consumed so far. */
  function MatchTag(path: string, u: string, used: nat): (r: Option<Match>)
    ensures r.Some? ==> r.value.section.path == path && used < r.value.len <= used + |u|
    ensures r.Some? ==> FenceFree(r.value.section.content)
  {
    var l := LetterRun(u);
    if l == |u| || u[l] != '\n' then None
    else MatchContent(path, u[l + 1..], used + l + 1)
  }

  /** The shortest text up to the next fence, and the fence. */
  function MatchContent(path: string, v: string, used: nat): (r: Option<Match>)
    ensures r.Some? ==> r.value.section.path == path && used < r.value.len <= used + |v|
    ensures r.Some? ==> FenceFree(r.value.section.content)
  {
    match FenceFrom(v, 0)
    case None => None
    case Some(k) =>
      assert forall m :: 0 <= m < k && FenceAt(v[..k], m) ==> FenceAt(v, m);
      Some(Match(Section(path, v[..k]), used + k + 3))
  }

  /** `re.findall`: scan left to right; after a match resume where it ended,
      otherwise move on by one character. */
  function FindAll(t: string): (r: seq<Section>)
    ensures forall k :: 0 <= k < |r| ==> ValidPath(r[k].path) && FenceFree(r[k].content)
    decreases |t|
  {
    if t == [] then []
    else match MatchAt(t)
      case None => FindAll(t[1..])
      case Some(m) => [m.section] + FindAll(t[m.len..])
  }

  /** A fence-free text contains no triple backtick. */
  lemma {:induction false} FenceFreeNoFence(c: string)
    requires FenceFree(c)
    ensures !Contains(c, Fence)
    decreases |c|
  {
    if c != [] {
      assert !StartsWith(c, Fence) by {
        assert !FenceAt(c, 0);
      }
      assert FenceFree(c[1..]) by {
        forall m | 0 <= m < |c| - 1 ensures !FenceAt(c[1..], m) {
          assert !FenceAt(c, m + 1);
        }
      }
      FenceFreeNoFence(c[1..]);
    }
  }

  /** Every extracted section has a path made of path characters only and a
      content without a triple backtick. */
  lemma SectionsShape(t: string)
    ensures forall k :: 0 <= k < |FindAll(t)| ==>
      ValidPath(FindAll(t)[k].path) && !Contains(FindAll(t)[k].content, Fence)
  {
    var r := FindAll(t);
    forall k | 0 <= k < |r|
      ensures !Contains(r[k].content, Fence)
    {
      FenceFreeNoFence(r[k].content);
    }
  }

  // ---------------------------------------------------------------------
  // Rendering sections, and the round trip through FindAll
  // ---------------------------------------------------------------------

  /** One section as a reply writes it, with an empty fence tag. */
  function Unit(s: Section): string
  {
    s.path + "\n```\n" + s.content + "```\n"
  }

  function Render(secs: seq<Section>): string
  {
    if secs == [] then [] else Unit(secs[0]) + Render(secs[1..])
  }

  /** A section that reads back as itself: its content, even followed by two
      more backticks, holds no fence. */
  predicate Renderable(s: Section)
  {
    ValidPath(s.path) && FenceFree(s.content + "``")
  }

  lemma {:induction false} PathRunPrefix(p: string, rest: string)
    requires forall k :: 0 <= k < |p| ==> IsPathChar(p[k])
    requires rest == [] || !IsPathChar(rest[0])
    ensures PathRun(p + rest) == |p|
    decreases |p|
  {
    if p != [] {
      assert (p + rest)[1..] == p[1..] + rest;
      PathRunPrefix(p[1..], rest);
    } else {
      assert p + rest == rest;
    }
  }

  lemma {:induction false} FenceFromFirst(v: string, k: nat, j: nat)
    requires k <= j && FenceAt(v, j)
    requires forall m :: k <= m < j ==> !FenceAt(v, m)
    ensures FenceFrom(v, k) == Some(j)
    decreases j - k
  {
    if k < j {
      FenceFromFirst(v, k + 1, j);
    }
  }

  /** The closing fence of a rendered section is the first one after its
      opening line. */
  lemma FenceAfterContent(c: string, rest: string)
    requires FenceFree(c + "``")
    ensures FenceFrom(c + "```" + rest, 0) == Some(|c|)
  {
    var v := c + "```" + rest;
    var c2 := c + "``";
    forall m | 0 <= m < |c|
      ensures !FenceAt(v, m)
    {
      assert !FenceAt(c2, m);
      assert c2[m] == v[m] && c2[m + 1] == v[m + 1];
      if m + 2 < |c2| {
        assert c2[m + 2] == v[m + 2];
      }
    }
    assert FenceAt(v, |c|);
    FenceFromFirst(v, 0, |c|);
  }

  /** A path followed by a newline and a fence gets past the opening fence. */
  lemma MatchAtPath(p: string, tail: string)
    requires ValidPath(p) && StartsWith(tail, "\n```")
    ensures MatchAt(p + tail) == MatchTag(p, tail[4..], |p| + 4)
  {
    var t := p + tail;
    PathRunPrefix(p, tail);
    assert t[..|p|] == p && t[|p|..] == tail && t[|p| + 4..] == tail[4..];
  }

  /** The pattern matches a rendered section exactly, up to its last newline. */
  lemma MatchUnit(s: Section, rest: string)
    requires Renderable(s)
    ensures MatchAt(Unit(s) + rest) == Some(Match(s, |Unit(s)| - 1))
  {
    var p, c := s.path, s.content;
    var u := "\n" + (c + "```" + ("\n" + rest));
    var tail := "\n```" + u;
    assert Unit(s) + rest == p + tail;
    assert tail[4..] == u;
    MatchAtPath(p, tail);
    MatchBody(s, rest);
  }

  /** What follows the opening fence of a rendered section: an empty tag,
      a newline, the content and the closing fence. */
  lemma MatchBody(s: Section, rest: string)
    requires Renderable(s)
    ensures MatchTag(s.path, "\n" + (s.content + "```" + ("\n" + rest)), |s.path| + 4)
      == Some(Match(s, |Unit(s)| - 1))
  {
    var p, c := s.path, s.content;
    var v := c + "```" + ("\n" + rest);
    var u := "\n" + v;
    FenceAfterContent(c, "\n" + rest);
    assert v[..|c|] == c;
    assert MatchContent(p, v, |p| + 5) == Some(Match(s, |Unit(s)| - 1));
    assert LetterRun(u) == 0 && u[0] == '\n' && u[1..] == v;
  }

  /** Where the pattern matches, `findall` records the match and resumes
      after it. */
  lemma FindAllMatch(t: string, m: Match)
    requires MatchAt(t) == Some(m)
    ensures FindAll(t) == [m.section] + FindAll(t[m.len..])
  {
  }

  /** A skipped leading newline does not change what is found. */
  lemma SkipNewline(rest: string)
    ensures FindAll("\n" + rest) == FindAll(rest)
  {
    assert ("\n" + rest)[1..] == rest;
  }

  /** Rendering a list of sections and extracting them again gives the same
      list. */
  lemma {:induction false} FindAllRender(secs: seq<Section>)
    requires forall k :: 0 <= k < |secs| ==> Renderable(secs[k])
    ensures FindAll(Render(secs)) == secs
    decreases |secs|
  {
    if secs != [] {
      var s := secs[0];
      var rest := Render(secs[1..]);
      var t := Render(secs);
      var len := |Unit(s)| - 1;
      calc {
        FindAll(t);
        { assert t == Unit(s) + rest; MatchUnit(s, rest); FindAllMatch(t, Match(s, len)); }
        [s] + FindAll(t[len..]);
        { assert t[len..] == "\n" + rest; SkipNewline(rest); }
        [s] + FindAll(rest);
        { FindAllRender(secs[1..]); }
        [s] + secs[1..];
      }
    }
  }

  // ---------------------------------------------------------------------
  // Paths
  // ---------------------------------------------------------------------

  /** An absolute path, as a sequence of segments. */
  type Path = seq<string>

  /** `Path(p).is_absolute()` on POSIX: the path has a root. */
  predicate IsAbsolute(p: string)
  {
    p != [] && p[0] == '/'
  }

  /** The parts `pathlib` keeps from the pieces of a path: every piece but
      the empty ones and `.`. */
  function DropTrivial(pieces: seq<string>): (r: seq<string>)
    ensures forall k :: 0 <= k < |r| ==> r[k] != "" && r[k] != "." && r[k] in pieces
  {
    if pieces == [] then []
    else if pieces[0] == "" || pieces[0] == "." then DropTrivial(pieces[1..])
    else [pieces[0]] + DropTrivial(pieces[1..])
  }

  /** The segments of a path string. */
  function Segments(p: string): (r: seq<string>)
    ensures forall k :: 0 <= k < |r| ==> r[k] != "" && r[k] != "." && '/' !in r[k]
  {
    DropTrivial(Split(p, '/'))
  }

  /** A normalised path: no empty, `.` or `..` segment, and no separator
      inside a segment. */
  predicate Normalised(p: Path)
  {
    forall k :: 0 <= k < |p| ==> p[k] != "" && p[k] != "." && p[k] != ".." && '/' !in p[k]
  }

  /** Lexical normalisation of `segs` appended to `acc`: `..` removes the
      last segment (and stays at the root), any other segment is appended.
      The result never grows by more than the segments, and normalising the
      segments of a path onto a normalised path gives a normalised path. */
  function Resolve(acc: Path, segs: seq<string>): (r: Path)
    ensures |r| <= |acc| + |segs|
    ensures Normalised(acc) && (forall k :: 0 <= k < |segs| ==> segs[k] != "" && segs[k] != "." && '/' !in segs[k])
      ==> Normalised(r)
    decreases |segs|
  {
    if segs == [] then acc
    else if segs[0] == ".." then Resolve(if acc == [] then [] else acc[..|acc| - 1], segs[1..])
    else Resolve(acc + [segs[0]], segs[1..])
  }

  /** Without `..`, normalisation only appends. */
  lemma {:induction false} ResolveNoParent(acc: Path, segs: seq<string>)
    requires ".." !in segs
    ensures Resolve(acc, segs) == acc + segs
    decreases |segs|
  {
    if segs != [] {
      assert segs[1..] == segs[1..] && ".." !in segs[1..];
      ResolveNoParent(acc + [segs[0]], segs[1..]);
      assert acc + [segs[0]] + segs[1..] == acc + segs;
    }
  }

  /** `directory.resolve()`: a relative directory is taken from `cwd`. */
  function BaseDir(cwd: Path, directory: string): (r: Path)
    ensures Normalised(cwd) ==> Normalised(r)
  {
    Resolve(if IsAbsolute(directory) then [] else cwd, Segments(directory))
  }

  /** `(base_dir / Path(path)).resolve()` for a relative `path`. */
  function Target(base: Path, path: string): (r: Path)
    ensures Normalised(base) ==> Normalised(r)
  {
    Resolve(base, Segments(path))
  }

  // ---------------------------------------------------------------------
  // Writing
  // ---------------------------------------------------------------------

  datatype Error = NoSections | AbsolutePath(path: string) | Traversal(path: string)

  /** The message of the `ValueError` raised. */
  function Message(e: Error): string
  {
    match e
    case NoSections => "No valid file sections found in the provided text."
    case AbsolutePath(p) => "Absolute paths are not allowed: " + p
    case Traversal(p) => "Path traversal attempt detected: " + p
  }

  /** Why a section is refused, if it is: an absolute path, or a target that
      is not inside the base directory. */
  function Rejection(base: Path, s: Section): (r: Option<Error>)
    ensures r.None? <==> !IsAbsolute(s.path) && base <= Target(base, s.path)
    ensures r.Some? ==> !r.value.NoSections? && r.value.path == s.path
  {
    if IsAbsolute(s.path) then Some(AbsolutePath(s.path))
    else if !(base <= Target(base, s.path)) then Some(Traversal(s.path))
    else None
  }

  /** What is written for a section: its content stripped, then a newline. */
  function Written(content: string): (r: string)
    ensures |r| >= 1 && r[|r| - 1] == '\n'
  {
    Strip(content) + "\n"
  }

  type FileSystem = map<Path, string>

  /** One file write: the target path and the text written to it. */
  datatype Write = Write(key: Path, value: string)

  /** The write a section asks for. */
  function WriteOf(base: Path, s: Section): Write
  {
    Write(Target(base, s.path), Written(s.content))
  }

  /** The writes the sections ask for, in order. */
  function Writes(base: Path, secs: seq<Section>): (ws: seq<Write>)
    ensures |ws| == |secs|
  {
    seq(|secs|, k requires 0 <= k < |secs| => WriteOf(base, secs[k]))
  }

  /** The file system after performing `ws` in order, each in mode `"w"`
      (replacing whatever the path held). */
  function Store(files: FileSystem, ws: seq<Write>): (r: FileSystem)
    ensures files.Keys <= r.Keys
    ensures forall k :: 0 <= k < |ws| ==> ws[k].key in r
    decreases |ws|
  {
    if ws == [] then files
    else Store(files, ws[..|ws| - 1])[ws[|ws| - 1].key := ws[|ws| - 1].value]
  }

  /** The first refused section at or after `k`, or `|secs|`. */
  function FirstRejected(base: Path, secs: seq<Section>, k: nat): (r: nat)
    requires k <= |secs|
    ensures k <= r <= |secs|
    ensures r < |secs| ==> Rejection(base, secs[r]).Some?
    ensures forall m :: k <= m < r ==> Rejection(base, secs[m]).None?
    decreases |secs| - k
  {
    if k == |secs| || Rejection(base, secs[k]).Some? then k else FirstRejected(base, secs, k + 1)
  }

  datatype Outcome = Outcome(files: FileSystem, error: Option<Error>)

  /** The effect of `parser_ai` with base directory `base`: without a section
      it raises and writes nothing; otherwise it performs the writes of the
      sections before the first refused one, and raises for that one if
      there is one. */
  function Materialize(files: FileSystem, allText: string, base: Path): (r: Outcome)
    ensures r.error == Some(NoSections) <==> FindAll(allText) == []
    ensures r.error == Some(NoSections) ==> r.files == files
    ensures files.Keys <= r.files.Keys
  {
    var secs := FindAll(allText);
    if secs == [] then Outcome(files, Some(NoSections))
    else
      var k := FirstRejected(base, secs, 0);
      Outcome(Store(files, Writes(base, secs)[..k]), if k < |secs| then Rejection(base, secs[k]) else None)
  }

  lemma StoreSnoc(files: FileSystem, ws: seq<Write>, i: nat)
    requires i < |ws|
    ensures Store(files, ws[..i + 1]) == Store(files, ws[..i])[ws[i].key := ws[i].value]
  {
    assert ws[..i + 1][..i] == ws[..i];
  }

  /** The loop has stopped at `i`, because section `i` is refused or all are
      done, with every earlier section accepted and written. */
  lemma MaterializeAt(files0: FileSystem, allText: string, base: Path, i: nat)
    requires FindAll(allText) != [] && i <= |FindAll(allText)|
    requires FirstRejected(base, FindAll(allText), i) == FirstRejected(base, FindAll(allText), 0)
    requires i < |FindAll(allText)| ==> Rejection(base, FindAll(allText)[i]).Some?
    ensures Materialize(files0, allText, base)
      == Outcome(Store(files0, Writes(base, FindAll(allText))[..i]),
                 if i < |FindAll(allText)| then Rejection(base, FindAll(allText)[i]) else None)
  {
  }

  /** `parser_ai`: extract the sections, then check and write them one by
      one, stopping at the first refused one. `err` is the `ValueError` it
      raises, if any; `files` what is on disk afterwards either way. */
  method ParserAi(files0: FileSystem, allText: string, directory: string, cwd: Path)
    returns (files: FileSystem, err: Option<Error>)
    ensures Outcome(files, err) == Materialize(files0, allText, BaseDir(cwd, directory))
    ensures FindAll(allText) == [] ==> files == files0 && err == Some(NoSections)
  {
    var matches := FindAll(allText);
    if matches == [] {
      return files0, Some(NoSections);
    }

    var baseDir := BaseDir(cwd, directory);
    ghost var ws := Writes(baseDir, matches);
    files := files0;
    var i := 0;
    while i < |matches|
      invariant i <= |matches|
      invariant FirstRejected(baseDir, matches, i) == FirstRejected(baseDir, matches, 0)
      invariant files == Store(files0, ws[..i])
    {
      var filepath := matches[i].path;
      if IsAbsolute(filepath) {
        MaterializeAt(files0, allText, baseDir, i);
        return files, Some(AbsolutePath(filepath));
      }
      var targetPath := Resolve(baseDir, Segments(filepath));
      if !(baseDir <= targetPath) {
        MaterializeAt(files0, allText, baseDir, i);
        return files, Some(Traversal(filepath));
      }
      assert ws[i] == Write(targetPath, Written(matches[i].content));
      StoreSnoc(files0, ws, i);
      files := files[targetPath := Written(matches[i].content)];
      i := i + 1;
    }
    MaterializeAt(files0, allText, baseDir, i);
    err := None;
  }

  // ---------------------------------------------------------------------
  // Properties
  // ---------------------------------------------------------------------

  /** Every written file ends with exactly one newline: the character before
      the final newline, if any, is not whitespace; the newline is all that
      is written exactly when the content is all whitespace. */
  lemma WrittenShape(content: string)
    ensures |Written(content)| >= 1 && Written(content)[|Written(content)| - 1] == '\n'
    ensures |Written(content)| == 1 || !IsSpace(Written(content)[|Written(content)| - 2])
    ensures |Written(content)| == 1 <==> forall k :: 0 <= k < |content| ==> IsSpace(content[k])
  {
    StripShape(content);
  }

  /** Storing writes whose targets all lie under `base` changes only paths
      under `base`, and removes none. */
  lemma {:induction false} StoreSandbox(files: FileSystem, ws: seq<Write>, base: Path)
    requires forall k :: 0 <= k < |ws| ==> base <= ws[k].key
    ensures files.Keys <= Store(files, ws).Keys
    ensures forall key :: key in Store(files, ws) ==>
      (key in files && Store(files, ws)[key] == files[key]) || base <= key
    decreases |ws|
  {
    if ws != [] {
      StoreSandbox(files, ws[..|ws| - 1], base);
    }
  }

  /** Sandbox safety: whatever the reply, every file `parser_ai` creates or
      changes lies under the base directory, and no file disappears. */
  lemma MaterializeSandbox(files: FileSystem, allText: string, base: Path)
    ensures files.Keys <= Materialize(files, allText, base).files.Keys
    ensures forall key :: (key in Materialize(files, allText, base).files
                           && (key !in files || Materialize(files, allText, base).files[key] != files[key]))
                          ==> base <= key
  {
    var secs := FindAll(allText);
    if secs != [] {
      var k := FirstRejected(base, secs, 0);
      var ws := Writes(base, secs);
      forall j | 0 <= j < k
        ensures base <= ws[..k][j].key
      {
        assert ws[..k][j] == WriteOf(base, secs[j]);
        assert Rejection(base, secs[j]).None?;
      }
      StoreSandbox(files, ws[..k], base);
    }
  }

  /** Last write wins: a path holds the value of the last write to it. */
  lemma {:induction false} StoreLast(files: FileSystem, ws: seq<Write>, j: nat)
    requires j < |ws|
    requires forall j' :: j < j' < |ws| ==> ws[j'].key != ws[j].key
    ensures ws[j].key in Store(files, ws) && Store(files, ws)[ws[j].key] == ws[j].value
    decreases |ws|
  {
    if j < |ws| - 1 {
      var init := ws[..|ws| - 1];
      assert init[j] == ws[j];
      StoreLast(files, init, j);
    }
  }

  /** A path no write targets keeps its old state. */
  lemma {:induction false} StoreUntouched(files: FileSystem, ws: seq<Write>, key: Path)
    requires forall j :: 0 <= j < |ws| ==> ws[j].key != key
    ensures key in Store(files, ws) <==> key in files
    ensures key in files ==> Store(files, ws)[key] == files[key]
    decreases |ws|
  {
    if ws != [] {
      StoreUntouched(files, ws[..|ws| - 1], key);
    }
  }

  /** Last write wins in `parser_ai`: of the sections written (those before
      the first refused one), the last one targeting a path decides its
      content. */
  lemma MaterializeLastWins(files: FileSystem, allText: string, base: Path, j: nat)
    requires j < FirstRejected(base, FindAll(allText), 0)
    requires forall j' :: j < j' < FirstRejected(base, FindAll(allText), 0) ==>
      Target(base, FindAll(allText)[j'].path) != Target(base, FindAll(allText)[j].path)
    ensures Target(base, FindAll(allText)[j].path) in Materialize(files, allText, base).files
    ensures Materialize(files, allText, base).files[Target(base, FindAll(allText)[j].path)]
      == Written(FindAll(allText)[j].content)
  {
    var secs := FindAll(allText);
    var k := FirstRejected(base, secs, 0);
    var ws := Writes(base, secs)[..k];
    forall j' | j < j' < k
      ensures ws[j'].key != ws[j].key
    {
      assert ws[j'] == WriteOf(base, secs[j']);
    }
    assert ws[j] == WriteOf(base, secs[j]);
    StoreLast(files, ws, j);
  }

  /** A path that no written section targets keeps its old state in
      `parser_ai`, whatever the sections after the refused one ask for. */
  lemma MaterializeUntouched(files: FileSystem, allText: string, base: Path, key: Path)
    requires FindAll(allText) != []
    requires forall j :: 0 <= j < FirstRejected(base, FindAll(allText), 0) ==>
      Target(base, FindAll(allText)[j].path) != key
    ensures key in Materialize(files, allText, base).files <==> key in files
    ensures key in files ==> Materialize(files, allText, base).files[key] == files[key]
  {
    var secs := FindAll(allText);
    var k := FirstRejected(base, secs, 0);
    var ws := Writes(base, secs)[..k];
    forall j | 0 <= j < k
      ensures ws[j].key != key
    {
      assert ws[j] == WriteOf(base, secs[j]);
    }
    StoreUntouched(files, ws, key);
  }

  /** A refused section ends the loop: the sections before it are written
      (with no rollback), it and every later section are not, and the error
      names it. */
  lemma RejectionStops(files: FileSystem, allText: string, base: Path, k: nat)
    requires k < |FindAll(allText)|
    requires Rejection(base, FindAll(allText)[k]).Some?
    requires forall m :: 0 <= m < k ==> Rejection(base, FindAll(allText)[m]).None?
    ensures Materialize(files, allText, base)
      == Outcome(Store(files, Writes(base, FindAll(allText))[..k]), Rejection(base, FindAll(allText)[k]))
  {
    assert FirstRejected(base, FindAll(allText), 0) == k;
  }

  /** Performing writes on a map is overriding it by the same writes
      performed on an empty map. */
  lemma {:induction false} StoreOverride(files: FileSystem, ws: seq<Write>)
    ensures Store(files, ws) == files + Store(map[], ws)
    decreases |ws|
  {
    if ws != [] {
      StoreOverride(files, ws[..|ws| - 1]);
    }
  }

  /** Applying the same reply twice leaves the same files, and the same
      error, as applying it once. */
  lemma MaterializeIdempotent(files: FileSystem, allText: string, base: Path)
    ensures Materialize(Materialize(files, allText, base).files, allText, base) == Materialize(files, allText, base)
  {
    var secs := FindAll(allText);
    if secs != [] {
      var k := FirstRejected(base, secs, 0);
      var ws := Writes(base, secs)[..k];
      var w := Store(map[], ws);
      StoreOverride(files, ws);
      StoreOverride(files + w, ws);
      assert (files + w) + w == files + w;
    }
  }

  /** A relative path without a `..` segment is always accepted: it resolves
      to the base directory followed by its segments. */
  lemma AcceptedWithoutParent(base: Path, s: Section)
    requires !IsAbsolute(s.path) && ".." !in Segments(s.path)
    ensures Target(base, s.path) == base + Segments(s.path)
    ensures Rejection(base, s) == None
  {
    ResolveNoParent(base, Segments(s.path));
  }

  /** `/etc/passwd` is refused as absolute. */
  lemma AbsoluteRejected(base: Path, content: string)
    ensures Rejection(base, Section("/etc/passwd", content)) == Some(AbsolutePath("/etc/passwd"))
  {
  }

  /** A reply with one section: a refused section writes nothing, an accepted
      one writes its target. */
  lemma MaterializeOne(files: FileSystem, allText: string, base: Path, s: Section)
    requires FindAll(allText) == [s]
    ensures Rejection(base, s).Some? ==> Materialize(files, allText, base) == Outcome(files, Rejection(base, s))
    ensures Rejection(base, s).None? ==>
      Materialize(files, allText, base) == Outcome(files[Target(base, s.path) := Written(s.content)], None)
  {
    var ws := Writes(base, [s]);
    assert ws[..0] == [] && ws[..1] == [WriteOf(base, s)];
    assert Store(files, ws[..1]) == Store(files, [])[ws[0].key := ws[0].value];
  }

  /** A plain file or directory name: path characters only, no `/`, and
      neither `.` nor `..`. */
  predicate PlainName(a: string)
  {
    ValidPath(a) && '/' !in a && a != "." && a != ".."
  }

  /** The pieces of `d/d/a/b` for names `d`, `a`, `b` without a `/`. */
  lemma SplitFour(d: string, a: string, b: string)
    requires '/' !in d && '/' !in a && '/' !in b
    ensures Split(d + ['/'] + (d + ['/'] + (a + ['/'] + b)), '/') == [d, d, a, b]
  {
    SplitAt(d, d + ['/'] + (a + ['/'] + b), '/');
    SplitAt(d, a + ['/'] + b, '/');
    SplitAt(a, b, '/');
    SplitNone(b, '/');
  }

  /** `../../a/b` from a two-level base such as `/srv/site` normalises to
      `/a/b`, which lies outside the base unless it is the base itself; the
      path `../../etc/passwd` from `/srv/site` is an instance. */
  lemma TraversalTarget(base: Path, a: string, b: string)
    requires |base| == 2 && PlainName(a) && PlainName(b)
    ensures Target(base, "../../" + a + "/" + b) == [a, b]
    ensures base != [a, b] ==>
      Rejection(base, Section("../../" + a + "/" + b, [])) == Some(Traversal("../../" + a + "/" + b))
  {
    var p := "../../" + a + "/" + b;
    assert p == ".." + ['/'] + (".." + ['/'] + (a + ['/'] + b));
    SplitFour("..", a, b);
    DropFour("..", a, b);
    ResolveUpTwo(base, a, b);
  }

  /** Keeping the non-trivial pieces of `[d, d, a, b]`. */
  lemma DropFour(d: string, a: string, b: string)
    requires d != "" && d != "." && a != "" && a != "." && b != "" && b != "."
    ensures DropTrivial([d, d, a, b]) == [d, d, a, b]
  {
    var segs := [d, d, a, b];
    assert segs[1..][1..][1..][1..] == [];
    assert DropTrivial(segs[1..][1..][1..]) == [b];
    assert DropTrivial(segs[1..][1..]) == [a, b];
    assert DropTrivial(segs[1..]) == [d, a, b];
  }

  /** Two `..` segments climb out of a two-level base. */
  lemma ResolveUpTwo(base: Path, a: string, b: string)
    requires |base| == 2 && a != ".." && b != ".."
    ensures Resolve(base, ["..", "..", a, b]) == [a, b]
  {
    var segs := ["..", "..", a, b];
    assert Resolve([a], [b]) == Resolve([a, b], []);
    assert [a, b][1..] == [b] && [] + [a] == [a] && [a] + [b] == [a, b];
    assert Resolve([], [a, b]) == Resolve([a], [b]);
    assert Resolve(base[..1], segs[1..]) == Resolve([], segs[1..][1..]);
    assert Resolve(base, segs) == Resolve(base[..1], segs[1..]);
  }

  /** A reply whose only section is `../../a/b` is refused as a traversal
      from a two-level base other than `/a/b`, and writes nothing. */
  lemma TraversalRejected(files: FileSystem, base: Path, a: string, b: string, content: string, allText: string)
    requires |base| == 2 && base != [a, b] && PlainName(a) && PlainName(b)
    requires FenceFree(content + "``")
    requires allText == Render([Section("../../" + a + "/" + b, content)])
    ensures Materialize(files, allText, base) == Outcome(files, Some(Traversal("../../" + a + "/" + b)))
  {
    var p := "../../" + a + "/" + b;
    var s := Section(p, content);
    assert ValidPath(s.path) by {
      forall k | 0 <= k < |p|
        ensures IsPathChar(p[k])
      {
        if k >= 6 + |a| + 1 {
          assert p[k] == b[k - 7 - |a|];
        } else if k >= 6 && k < 6 + |a| {
          assert p[k] == a[k - 6];
        }
      }
    }
    FindAllRender([s]);
    TraversalTarget(base, a, b);
    assert Rejection(base, s) == Rejection(base, Section(p, []));
    MaterializeOne(files, allText, base, s);
  }
}
