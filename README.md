# Challenge generator core in Dafny

This project models the core of a generator for web-security training
challenges. The generator reads the back-end source of a challenge, keeps
only its route-handler blocks, asks a language model for a front end, writes
the files of the model's reply into a sandboxed directory, deploys the result
and checks its health endpoint. While the check fails, it asks the model
again, up to a retry budget.

The model has three parts, each proved correct against specification
functions.

`parsers.dfy` (module `Parsers`) is the handler-block extractor of
`parsers.py`.
- The three route patterns (Flask `@app.route`, Spring
  `@…Mapping`, Express `app.get(`…) classify a line.
- The Java, Python and JavaScript capture rules are the source's `while` loops, as methods.
- `ParseCode` is proved to return exactly `Extracted(SplitLines(source))`:
  the blocks of the line runs `Scan` chooses.
- `Scan`'s runs are proved ordered and anchored at a classified line. Every
  line outside them is proved unclassified.
- No extracted block mentions "health", in any letter case.

`materializer.dfy` (module `Materializer`) is `parser_ai` of `AI.py`.
- `FindAll` models `re.findall` with the section pattern: a greedy path run,
  a newline, a fence with an optional letter tag, a newline, and content up to
  the first following fence.
- The base directory and each target are normalised lexically.
- An absolute path or a target outside the base directory raises.
- Every accepted earlier section is written as `content.strip() + "\n"`.
- `ParserAi` is the write loop, proved equal to `Materialize`.
- The lemmas cover these properties:
  - Rendering a list of well-formed sections and extracting them again gives the list back.
  - Nothing outside the base directory changes.
  - The last write to a path wins, and paths nobody writes are untouched.
  - Processing stops at the first rejected section.
  - Applying the same reply twice gives the same result.
  - Absolute and `../..` paths are rejected.

`checkers.dfy` (module `Checkers`) is `check_deployment_and_health` and
`generate_retry` of `checkers.py`.
- `DeriveHealthUrl` turns the parsed descriptor into the probed URL, or into
  one of the three early `False` exits.
- The class `Host`, with its working directory, files and a log of outward
  effects, runs the check as the try/finally method `CheckDeploymentAndHealth`.
  It is proved equal to `Check`.
- `CheckCleanup` proves that `docker compose down` and the return to the
  parent directory close every run that got past the two early returns.
  `docker compose down` happens exactly once. Both teardown steps are taken
  to succeed (see "Left out").
- `GenerateRetry` is the repair loop, proved equal to `RetryLoop`.
  - The model is asked at most `max_retries - num_retries` times.
  - It is asked once per finished iteration, plus once for an iteration cut
    short by a raised error.
  - It is asked never when the first result is `"OK"` or the budget is spent.
  - Each request carries the original text and the latest result: the
    check's answer after every iteration but the first. Each write targets
    the same version directory `<directory>-<num+1>`.

`text.dfy` (module `Text`) holds the Python `str` operations that the code
uses. `wrappers.dfy` holds `Option`.

The model takes the outside world as parameters:
- The model's replies are a function of the original text, the latest result
  and the attempt number (`Oracle.reply`).
- Each check's environment is a function of the attempt number (`Oracle.env`).
  An environment holds the parsed descriptor or the exception raised while
  loading it, the deploy script's outcome, and one probe result per poll.
- The working directory is a string field of `Host`.
- The file system is a map from normalised absolute paths (sequences of
  segments) to contents.
- `find_resources_folder` is the `resources` field of a `Job`.

## Behaviour worth noting

- A `ValueError` raised by `parser_ai` escapes `generate_retry` and ends the
  loop (`Raised`).
- A missing descriptor makes the check return `False`, and the loop then
  retries while budget is left.
- Written content is `strip()`ped on both sides, then gets one `"\n"`.
- A probe succeeds on `requests`' `ok`: any status outside 400–599.
- The host port is the part before the colon. The code's comment says the
  part after the colon.

## Model

| member | source | states |
|---|---|---|
| Text.IsSpace | parsers.py:22 | defines the whitespace of `strip()`, `lstrip()` and `\s`: space, `\t` to `\r`, `\x1c` to `\x1f`, `\x85`, `\xa0`, the Zs space separators, U+2028 and U+2029 |
| Text.Strip | parsers.py:22 | `strip()` never lengthens the text |
| Text.LStrip | parsers.py:58 | `lstrip()` never lengthens the line |
| Text.StripShape | parsers.py:22 | `strip()` is empty exactly when every character is whitespace; otherwise it starts and ends with a non-whitespace character |
| Text.LStripShape | parsers.py:58 | `lstrip()` is a suffix of the line; everything it dropped is whitespace and what remains starts with non-whitespace |
| Text.RStripShape | parsers.py:22 | the right strip is a prefix; everything it dropped is whitespace and what remains ends with non-whitespace |
| Text.StripChar | checkers.py:54 | stripping a quote character never lengthens the port text |
| Text.StripCharShape | checkers.py:54 | `strip(c)` keeps a contiguous middle piece of the text, every character it drops before or after that piece is `c`, and the result neither starts nor ends with `c` |
| Text.StripCharEmpty | checkers.py:54 | `strip(c)` leaves the empty text exactly when the text consists of `c` only |
| Text.LetterRun | AI.py:12 | `[a-zA-Z]*` matches the longest run of ASCII letters at the start |
| Text.Lower | parsers.py:14 | defines `lower()` on the ASCII letters: the length is kept, `A` to `Z` become `a` to `z`, and every other character is unchanged |
| Text.OccursLowerAt | parsers.py:14-15 | for a lower-case word `t`, `t` occurs in `s.lower()` at offset `k` exactly when each character of `s` there is the letter of `t` or its upper-case form |
| Text.LowerContains | parsers.py:14-15 | `t in s.lower()` for a lower-case word `t` holds exactly when `t` occurs in `s` in some mix of upper and lower case, which is what "in any letter case" means below |
| Text.ContainsPrefixOf | parsers.py:15 | whatever contains `healthcheck` contains `health`, so the test reduces to `'health' in content` |
| Text.ContainsAt | parsers.py:15 | a text occurring at some offset is found by `in` |
| Text.Contains | parsers.py:15 | defines `t in s`: `t` is a prefix of `s` or of a later suffix of it |
| Text.ContainsOffset | parsers.py:15 | whatever `in` finds occurs at some offset; with `ContainsAt`, `t in s` holds exactly when `t` occurs at some offset |
| Text.Count | parsers.py:34 | `count(c)` is at most the length, and zero exactly when `c` does not occur |
| Text.ConcatAppend | parsers.py:14 | `''.join` of two concatenated block lists is the concatenation of their joins |
| Text.Split | checkers.py:48 | `split(":")` yields one more part than there are colons, none containing a colon |
| Text.SplitJoin | checkers.py:48 | joining the parts of `split(":")` with `":"` gives back the mapping |
| Text.SplitNone | checkers.py:48 | a text without the separator splits into itself alone |
| Text.SplitAt | checkers.py:48-53 | splitting `a:b` with no colon in `a` gives `a` followed by the parts of `b` |
| Text.ReplaceAbsent | checkers.py:60 | replacing a non-empty text that does not occur changes nothing |
| Text.Replace | checkers.py:60 | defines `str.replace`: occurrences are replaced left to right without overlap, and an empty pattern puts the replacement before every character and at the end |
| Text.FirstLineLength | parsers.py:98 | the first line of `splitlines(keepends=True)` stops right after the first line break, or at the end of the text, and takes a `\r\n` whole |
| Text.SplitLines | parsers.py:98 | `splitlines(keepends=True)` yields non-empty lines whose concatenation is the source |
| Text.SplitLinesShape | parsers.py:98 | each element of `splitlines(keepends=True)` is one line, with no line break before its last character except the `\r` of a closing `\r\n`; every element but the last ends in a line break, and no `\r\n` is split between two elements |
| Parsers.PythonRoute | parsers.py:105 | defines `^\s*@app\.route`: after leading whitespace the line starts with `@app.route` |
| Parsers.JavaRoute | parsers.py:106 | defines the Spring pattern: after leading whitespace the line starts with `@GetMapping`, `@PostMapping`, `@PutMapping`, `@DeleteMapping` or `@RequestMapping` |
| Parsers.JsRoute | parsers.py:107 | defines the Express pattern: after leading whitespace, `app.`, one of `get`, `post`, `put`, `delete`, optional whitespace and `(` |
| Parsers.Classify | parsers.py:104-108 | defines the language of the first pattern, in table order, that matches the line |
| Parsers.PatternsExclusive | parsers.py:104-108 | no line matches two of the three route patterns |
| Parsers.ClassifyMatches | parsers.py:104-108 | a line is classified as a language exactly when that language's pattern matches it |
| Parsers.ClassifyFirst | parsers.py:5-9 | the first pattern in table order that matches decides the language |
| Parsers.ClassifyNone | parsers.py:5-9 | when no pattern matches, the answer is `None` |
| Parsers.DetectLanguage | parsers.py:5-9 | the loop answers `None` exactly when no pattern matches, otherwise the first matching one; on the source's table it equals `Classify` |
| Parsers.ContainExclude | parsers.py:13-15 | a block is excluded exactly when its lower-cased join contains `health` |
| Parsers.Keep | parsers.py:43-44 | at most the joined block is appended, and only if it does not mention `health` |
| Parsers.AnnotationNotPublic | parsers.py:22-27 | an annotation line never starts with `public`, so the annotation loop and the signature search stop at the same line |
| Parsers.NextPublic | parsers.py:27-29 | the signature search stops at the first `public` line at or after the cursor, or at the end |
| Parsers.NextDef | parsers.py:55-61 | the `def` search stops at the first `def ` line at or after the cursor, or at the end |
| Parsers.BodyEnd | parsers.py:64-70 | the body ends at the first non-blank line indented no deeper than the `def`, or at the end |
| Parsers.BraceEndFrom | parsers.py:38-41 | brace balancing continues while the running count is positive and stops at the first line that closes it, or at the end |
| Parsers.BraceEnd | parsers.py:80-87 | the capture from a line goes past it, keeps the count positive before its end, and stops right after the line when that line opens nothing |
| Parsers.JavaEnd | parsers.py:19-41 | a Java capture stays within the input and, when a `public` line follows, goes past that line |
| Parsers.PythonEnd | parsers.py:54-70 | a Python capture stays within the input and, when a `def ` line follows, goes past that line |
| Parsers.PythonBody | parsers.py:50-70 | after a `def`, the captured lines are blank or deeper-indented, and the first line left out is a non-blank line indented no deeper than the `def` |
| Parsers.CaptureEnd | parsers.py:110-127 | each capture rule moves the cursor strictly forward |
| Parsers.Emitted | parsers.py:43-44 | a capture appends at most one block, and never one that mentions `health` in any letter case |
| Parsers.Kinds | parsers.py:110-112 | one classification per line |
| Parsers.Ends | parsers.py:114-127 | the end table gives, for every classified line, where its capture stops |
| Parsers.Spans | parsers.py:110-130 | every captured run is a non-empty range of lines from the cursor on |
| Parsers.Scan | parsers.py:110-130 | every run the scanner captures is a non-empty range of source lines |
| Parsers.SpansAnchored | parsers.py:110-130 | every captured run starts at a classified line and ends where that language's rule stops |
| Parsers.SpansOrdered | parsers.py:110-130 | captured runs come in order and do not overlap |
| Parsers.SpansSkipped | parsers.py:110-130 | every line outside the captured runs is unclassified |
| Parsers.ScanShape | parsers.py:110-130 | the runs of the scan are ordered, each matches its language's rule, and the gaps between them hold only unclassified lines |
| Parsers.EmitHealthFree | parsers.py:72-73 | no emitted block mentions `health` in any letter case |
| Parsers.Extracted | parsers.py:96-132 | defines the result of `parse_code`: in order, the kept blocks of the runs `Scan` captures |
| Parsers.ExtractedHealthFree | parsers.py:96-132 | no extracted block mentions `health` in any letter case: by `LowerContains`, no offset of a block holds the six letters of `health`, each in either case |
| Parsers.SkipToSignature | parsers.py:19-29 | the two loops stop at the first `public` line, with every line before it in the block |
| Parsers.ParseJava | parsers.py:19-46 | the cursor ends where the Java rule stops and the result gains exactly the emitted block; without a `public` line the cursor reaches the end and nothing is appended |
| Parsers.SkipToDef | parsers.py:54-61 | the `def` search stops right after the first `def ` line with its indentation, or at the end with no indentation |
| Parsers.ParsePython | parsers.py:50-75 | the cursor ends where the Python rule stops and the result gains exactly the emitted block |
| Parsers.CaptureBraces | parsers.py:84-87 | the brace loop captures exactly the lines up to `BraceEnd` |
| Parsers.ParseJavaScript | parsers.py:79-92 | the cursor ends where brace balancing stops and the result gains exactly the emitted block |
| Parsers.ParseCode | parsers.py:96-132 | the result is exactly `Extracted` of the source's lines, and no block in it mentions `health` |
| Materializer.PathRun | AI.py:12 | `[\w\-/\.]+`, with `\w` taken as ASCII letters, digits and `_`, takes the longest run of path characters |
| Materializer.FenceFrom | AI.py:12 | the lazy content group stops at the first fence at or after the cursor, or there is none |
| Materializer.MatchAt | AI.py:12 | a match consumes part of the text and yields a valid path and fence-free content |
| Materializer.MatchTag | AI.py:12 | after the opening fence, the tag, newline and content keep the path and stay fence-free |
| Materializer.MatchContent | AI.py:12 | the content group ends at the first fence and contains none |
| Materializer.FindAll | AI.py:14 | every section found has a valid path and fence-free content |
| Materializer.FenceFreeNoFence | AI.py:12 | fence-free content does not contain a fence |
| Materializer.SectionsShape | AI.py:12-14 | no found section's content contains a fence |
| Materializer.PathRunPrefix | AI.py:12 | the path run of a path followed by a non-path character is the path |
| Materializer.FenceFromFirst | AI.py:12 | the fence search finds the first fence |
| Materializer.FenceAfterContent | AI.py:12 | content that cannot complete a fence is closed by the fence written after it |
| Materializer.MatchAtPath | AI.py:12 | a valid path followed by a newline and a fence is matched as that path |
| Materializer.MatchUnit | AI.py:12 | a rendered section is matched as itself, consuming all of it but its final newline |
| Materializer.MatchBody | AI.py:12 | the part after the opening fence of a rendered section matches its content |
| Materializer.FindAllRender | AI.py:12-14 | rendering well-formed sections and extracting them again gives the same sections |
| Materializer.DropTrivial | AI.py:21 | path normalisation keeps no empty or `.` segments |
| Materializer.Segments | AI.py:21 | the segments of a path are non-empty, not `.`, and contain no separator |
| Materializer.ResolveNoParent | AI.py:28 | without `..`, resolving appends the segments |
| Materializer.Resolve | AI.py:28 | lexical `resolve()` never yields more segments than it was given, and resolving path segments onto a normalised path gives a normalised path |
| Materializer.BaseDir | AI.py:18 | `directory.resolve()` against a normalised working directory is normalised |
| Materializer.Target | AI.py:28 | `(base_dir / rel_path).resolve()` against a normalised base is normalised |
| Materializer.Rejection | AI.py:23-30 | a section is accepted exactly when its path is relative and its target lies under the base; a rejection names the section's own path |
| Materializer.Written | AI.py:34 | every written file ends in a newline |
| Materializer.Store | AI.py:33-34 | writing keeps every existing file and creates every written path |
| Materializer.Writes | AI.py:20-34 | one write per section |
| Materializer.FirstRejected | AI.py:20-30 | the first section that is absolute or leaves the base; every earlier one is accepted |
| Materializer.ParserAi | AI.py:11-34 | the loop's files and error equal `Materialize` on the resolved base; a reply without sections raises and writes nothing |
| Materializer.Materialize | AI.py:14-34 | the reply raises the no-sections error exactly when `findall` finds nothing, and then changes nothing; no file ever disappears |
| Materializer.WrittenShape | AI.py:34 | a written file ends in exactly one newline after non-whitespace, or is a lone newline exactly when the content is all whitespace |
| Materializer.StoreSandbox | AI.py:27-34 | writes under the base change nothing outside it and remove nothing |
| Materializer.MaterializeSandbox | AI.py:27-30 | no file outside the base directory is created or changed, and no file disappears |
| Materializer.StoreLast | AI.py:33-34 | the last write to a key decides its content |
| Materializer.StoreUntouched | AI.py:33-34 | a key no write targets keeps its presence and content |
| Materializer.MaterializeLastWins | AI.py:20-34 | an accepted section not overwritten by a later accepted one leaves its stripped content at its target |
| Materializer.MaterializeUntouched | AI.py:20-34 | a path no accepted section targets is left as it was |
| Materializer.RejectionStops | AI.py:24-30 | the first rejected section raises its error after exactly the earlier writes |
| Materializer.StoreOverride | AI.py:33-34 | the writes override the previous files key by key |
| Materializer.MaterializeIdempotent | AI.py:11-34 | applying the same reply twice gives the same files and error as once |
| Materializer.AcceptedWithoutParent | AI.py:27-30 | a relative path without `..` lands under the base and is accepted |
| Materializer.AbsoluteRejected | AI.py:23-25 | `/etc/passwd` is refused as an absolute path |
| Materializer.MaterializeOne | AI.py:15-34 | a one-section reply either raises that section's error and writes nothing, or writes exactly that file |
| Materializer.ResolveUpTwo | AI.py:28 | two `..` from a two-segment base reach the root |
| Materializer.TraversalTarget | AI.py:28-30 | `../../a/b` from a two-segment base resolves to `/a/b`, which is refused as traversal unless it is the base itself |
| Materializer.TraversalRejected | AI.py:27-30 | a reply whose only section is `../../a/b` raises the traversal error and writes nothing |
| Checkers.NatToString | checkers.py:120 | `str(n)` is a non-empty run of decimal digits |
| Checkers.NatToStringValue | checkers.py:120 | reading `str(n)` back as a decimal gives `n` |
| Checkers.FirstHttp | checkers.py:58-61 | the URL search picks the first test entry starting with `http`, or reports that none does |
| Checkers.DeriveHealthUrl | checkers.py:32-65 | no services, no ports, and a first mapping without exactly one colon each give their own early exit, in that order; otherwise a non-empty URL |
| Checkers.HostPort | checkers.py:54 | stripping never lengthens the host port |
| Checkers.HealthUrl | checkers.py:57-65 | the probed URL is never empty, and without an `http` test entry it is `http://localhost:<host>/health` |
| Checkers.MappingParts | checkers.py:47-54 | a mapping `h:c` yields the health URL built from the stripped `h` and the unstripped `c` |
| Checkers.HostPortNumber | checkers.py:54 | a numeric host port survives the whitespace and quote stripping unchanged |
| Checkers.HostPortQuoted | checkers.py:54 | a numeric host port written in double or in single quotes comes out as the bare number |
| Checkers.DefaultUrlNumbers | checkers.py:63-65 | without a test URL, the mapping `h:c` probes `http://localhost:h/health` |
| Checkers.ReplaceNumber | checkers.py:60 | replacing a number that occurs once, between digit-free text, substitutes exactly that occurrence |
| Checkers.NoNumberIn | checkers.py:60 | digit-free text contains no number |
| Checkers.FirstHttpAfter | checkers.py:58-61 | the first `http` entry after entries without one is found, whatever entries follow it |
| Checkers.TestUrlNumbers | checkers.py:57-65 | a test URL `http://localhost:c/health` for mapping `h:c`, with any entries before it that do not start with `http` and any entries after it, probes `http://localhost:h/health` |
| Checkers.TestUrlReplaced | checkers.py:58-61 | the container port in the first `http` test entry is replaced by the host port, whatever follows that entry |
| Checkers.IsOk | checkers.py:84 | defines `resp.ok`: a response with a status outside 400–599; a request that raised is not ok |
| Checkers.Unexpected | checkers.py:100 | the unexpected-error message is a 36-character prefix plus the exception text, and is never `"OK"` |
| Checkers.DeployFailed | checkers.py:96 | the deployment-failed message is more than 32 characters longer than the error output, and is never `"OK"` |
| Checkers.FirstOk | checkers.py:81-86 | polling succeeds at the first ok probe; every earlier probe failed |
| Checkers.Gets | checkers.py:83 | `n` requests to the health URL, nothing else |
| Checkers.PollFrom | checkers.py:81-93 | polling answers `"OK"` or `"Health check failed"`, sends at most one request per remaining probe, and sends every request to the health URL |
| Checkers.PollFirstOk | checkers.py:81-93 | with an ok probe, polling answers `"OK"` after one request per probe up to it; otherwise it answers `"Health check failed"` after one request per probe |
| Checkers.DeployRun | checkers.py:72-101 | after the deploy step the answer is never `False`, `"OK"` needs a successful deploy, and a failed deploy sends no request |
| Checkers.TryRun | checkers.py:27-101 | defines the try block: a failed load is an unexpected error, a failed descriptor check is `False`, and otherwise the change of directory, the deploy and its outcome |
| Checkers.TryRunFailed | checkers.py:27-101 | the try block answers `False` exactly when the descriptor loaded but one of its checks failed; whatever it does starts by changing into the work directory and running the deploy script |
| Checkers.CheckDir | checkers.py:22 | `Path(directory_arg) / Path(directory)` is `directory` when that is absolute or `directory_arg` is empty |
| Checkers.ComposeKey | checkers.py:22 | the descriptor path names `docker-compose.yml` in the checked directory |
| Checkers.Check | checkers.py:12-106 | defines the check: `False` on an empty working directory or a missing descriptor, otherwise the try block followed by `docker compose down` and the return to the original directory (its properties are `CheckCleanup`, `CheckFailed` and `CheckOk`) |
| Checkers.TryRunNoCleanup | checkers.py:27-101 | the try block only changes into the work directory, runs the deploy script and sends health requests |
| Checkers.CheckCleanup | checkers.py:17-106 | the early returns do nothing; every other run ends with `docker compose down` and then the return to the parent directory, and `down` happens once |
| Checkers.CheckFailed | checkers.py:17-51 | `False` is returned exactly on a missing working directory, a missing descriptor or a descriptor check that fails; then nothing is deployed |
| Checkers.CheckOk | checkers.py:69-86 | `"OK"` means the descriptor loaded, deployment succeeded and a probe was ok, with exactly the chdir, deploy, requests up to the first ok probe, `down` and return |
| Checkers.CheckNoAsk | checkers.py:12-106 | a check neither asks the model nor writes generated files |
| Checkers.AttemptAt | checkers.py:117-125 | defines one iteration's work: `parser_ai` on the model's reply into the version directory and, unless that raised, the check of the version |
| Checkers.RetryLoop | checkers.py:115-126 | defines the loop: it stops on `"OK"` or a spent budget; otherwise it asks, writes, and either stops on a raise or checks and continues with the check's answer and one more retry counted |
| Checkers.StepOfQuiet | checkers.py:115-126 | no check inside the loop asks the model or writes generated files |
| Checkers.RetryExit | checkers.py:115-126 | the loop ends normally only with `"OK"` or a spent budget; the counter never decreases and never passes the budget; a raise happens within the budget; an iteration that ran increases the counter |
| Checkers.RetryNone | checkers.py:115 | with `"OK"` or a spent budget, the loop does nothing |
| Checkers.RetryFirst | checkers.py:115-126 | at any attempt, an iteration first asks the model with the original text and the latest result, then writes into the version directory; when its check does not answer `"OK"` and budget is left, the next request carries the answer of that check |
| Checkers.RetryAsks | checkers.py:115-126 | the model is asked once per finished iteration, plus once for an iteration cut short by a raise |
| Checkers.RetryIterations | checkers.py:115-126 | the model is asked at most `max_retries - num_retries` times, and not at all exactly when the first result is `"OK"` or no retry is left |
| Checkers.RetryPrompts | checkers.py:117-122 | every request carries the original text and every write goes to the same version directory |
| Checkers.Host.CheckDeploymentAndHealth | checkers.py:12-106 | the try/finally method returns `Check`'s verdict, logs exactly its effects, and restores the working directory |
| Checkers.Host.TryBody | checkers.py:27-101 | every exit from the try block gives `TryRun`'s verdict and effects |
| Checkers.Host.Poll | checkers.py:81-93 | the polling loop gives `PollFrom`'s verdict and requests |
| Checkers.Host.GenerateRetry | checkers.py:110-131 | the repair loop's outcome, files and effects are `RetryLoop`'s, and the working directory is unchanged |
| Checkers.Host.RetryFrom | checkers.py:115-126 | the loop follows `RetryLoop` for any attempt function that performs its attempts |
| Checkers.Host.RetryAttempt | checkers.py:116-126 | one iteration asks, writes with `parser_ai`, and unless that raised checks again, as the attempt function says |

## Left out

- `check_ai` and `call_ai` (the language model) are the `Oracle.reply` parameter; prompt building is not part of this model.
- `subprocess`, Docker, `requests`, `time` and `time.sleep` are the `Env` parameter. The 60-second timeout is a finite sequence of probe results (`Env.probes`), one per request.
- `yaml.safe_load` is an input record (`Load`). Only service lists with string ports and a list-form `test` are modelled; other YAML shapes and `TypeError`s from them are not.
- `os.path.exists` is membership of the descriptor path in `Host.files`; directories are not separate entries.
- `Path.resolve()` follows symbolic links; the model resolves lexically and has no symlinks.
- `open()` failures are not modelled: a missing parent directory, or a target that is a directory.
- `lower()` is ASCII only. Deciding whether a block contains "health" depends only on ASCII letters.
- Materializer.PathRun: `\w` is ASCII only, so a path with a non-ASCII character is found only from just after its last non-ASCII character (`a/é.b` is found as `.b`), and the section is missed when that character comes right before the newline.
- `total_lines` is always `len(lines)`, so it is not a parameter.
- `print` output is not modelled, including the "Problems were found" and final report lines of `generate_retry`.
- `find_resources_folder` is a fixed field of `Job` (`resources`): the version directory is the same on every iteration.
- `os.getcwd()` is the `Host.cwd` string. `os.chdir` only sets it and logs the change.
- Checkers.CheckCleanup: `docker compose down` and `os.chdir(parent_directory)` in the `finally` block are taken not to raise. In the source, a `FileNotFoundError` from `subprocess.run` (no `docker` executable) or an `OSError` from `os.chdir` skips the return to the parent directory. The exception then escapes `check_deployment_and_health`, and through it `generate_retry`. The model has no outcome for a failed teardown.
- Checkers.Host.CheckDeploymentAndHealth: the `timeout` argument is not modelled; the probes stand in for it.
- Integers are unbounded: exit codes and retry counters have no width.
