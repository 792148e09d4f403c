/** `checkers.py`: deriving the health URL from a parsed `docker-compose.yml`
    descriptor, the deploy-and-poll check with its `finally` cleanup, and the
    bounded repair loop `generate_retry`. */
module Checkers {
  import opened Wrappers
  import opened Text
  import Materializer

  // ---------------------------------------------------------------------
  // Numbers as text
  // ---------------------------------------------------------------------

  function Digit(d: nat): char
    requires d < 10
  {
    ['0', '1', '2', '3', '4', '5', '6', '7', '8', '9'][d]
  }

  /** Python's `str(n)` for a natural number. */
  function NatToString(n: nat): (s: string)
    ensures s != [] && forall k :: 0 <= k < |s| ==> '0' <= s[k] <= '9'
    decreases n
  {
    if n < 10 then [Digit(n)] else NatToString(n / 10) + [Digit(n % 10)]
  }

  /** Python's `str(i)` for an integer (a process exit code can be negative). */
  function IntToString(i: int): string
  {
    if i < 0 then "-" + NatToString(-i) else NatToString(i)
  }

  /** The value of a string of decimal digits. */
  function DecimalValue(s: string): nat
    requires forall k :: 0 <= k < |s| ==> '0' <= s[k] <= '9'
  {
    if s == [] then 0 else 10 * DecimalValue(s[..|s| - 1]) + (s[|s| - 1] as int - '0' as int)
  }

  /** The digits written for `n` read back as `n`. */
  lemma {:induction false} NatToStringValue(n: nat)
    ensures DecimalValue(NatToString(n)) == n
    decreases n
  {
    var s := NatToString(n);
    if n >= 10 {
      NatToStringValue(n / 10);
      assert s[..|s| - 1] == NatToString(n / 10);
    }
  }

  // ---------------------------------------------------------------------
  // Paths
  // ---------------------------------------------------------------------

  /** `Path(a) / Path(b)` as text: an absolute `b` replaces `a`, an empty
      part is `.` and disappears. */
  function PathJoin(a: string, b: string): string
  {
    if Materializer.IsAbsolute(b) || a == [] then b
    else if b == [] then a
    else a + "/" + b
  }

  // ---------------------------------------------------------------------
  // The health URL
  // ---------------------------------------------------------------------

  /** The parts of the first service that the check reads: its `ports` list
      and its `healthcheck.test` list (empty when absent). */
  datatype Service = Service(ports: seq<string>, test: seq<string>)

  /** Why no URL was derived; each of these makes the check return `False`. */
  datatype UrlResult = Url(url: string) | NoServices | NoPorts | BadMapping(mapping: string)

  /** The host side of `host:container`: stripped of whitespace, then of
      double quotes, then of single quotes. */
  function HostPort(part: string): (r: string)
    ensures |r| <= |part|
  {
    StripChar(StripChar(Strip(part), '"'), '\'')
  }

  /** The first entry of the health check test that starts with `http`. */
  function FirstHttp(test: seq<string>): (r: Option<nat>)
    ensures r.Some? ==> r.value < |test| && StartsWith(test[r.value], "http")
    ensures r.Some? ==> forall k :: 0 <= k < r.value ==> !StartsWith(test[k], "http")
    ensures r.None? ==> forall k :: 0 <= k < |test| ==> !StartsWith(test[k], "http")
  {
    if test == [] then None
    else if StartsWith(test[0], "http") then Some(0)
    else match FirstHttp(test[1..])
      case None => None
      case Some(k) => Some(k + 1)
  }

  function DefaultUrl(host: string): string
  {
    "http://localhost:" + host + "/health"
  }

  /** The URL probed: the first `http` test entry with the container port
      replaced by the host port, or the default URL when there is none or
      the replacement left nothing. */
  function HealthUrl(test: seq<string>, host: string, container: string): (r: string)
    ensures r != []
    ensures FirstHttp(test).None? ==> r == DefaultUrl(host)
  {
    match FirstHttp(test)
    case None => DefaultUrl(host)
    case Some(k) =>
      var u := Replace(test[k], container, host);
      if u == [] then DefaultUrl(host) else u
  }

  /** The descriptor checks of `check_deployment_and_health`, in order: a
      service, a port, and a first port mapping with exactly one colon. */
  function DeriveHealthUrl(services: seq<Service>): (r: UrlResult)
    ensures r == NoServices <==> services == []
    ensures r == NoPorts <==> services != [] && services[0].ports == []
    ensures r.BadMapping? <==> services != [] && services[0].ports != [] && Count(services[0].ports[0], ':') != 1
    ensures r.Url? ==> r.url != []
  {
    if services == [] then NoServices
    else
      var s := services[0];
      if s.ports == [] then NoPorts
      else
        var parts := Split(s.ports[0], ':');
        if |parts| != 2 then BadMapping(s.ports[0])
        else Url(HealthUrl(s.test, HostPort(parts[0]), parts[1]))
  }

  /** A first mapping `h:c` takes its host port from `h` (before the colon)
      and its container port, unstripped, from `c`. */
  lemma MappingParts(h: string, c: string, services: seq<Service>)
    requires ':' !in h && ':' !in c
    requires services != [] && services[0].ports != [] && services[0].ports[0] == h + ":" + c
    ensures DeriveHealthUrl(services) == Url(HealthUrl(services[0].test, HostPort(h), c))
  {
    SplitAt(h, c, ':');
    SplitNone(c, ':');
    assert h + ":" + c == h + [':'] + c;
  }

  predicate IsDigit(c: char) { '0' <= c <= '9' }

  predicate IsNumber(s: string)
  {
    s != [] && forall k :: 0 <= k < |s| ==> IsDigit(s[k])
  }

  /** A port number is left alone by the stripping of whitespace and quotes. */
  lemma HostPortNumber(h: string)
    requires IsNumber(h)
    ensures HostPort(h) == h
  {
    assert !IsSpace(h[0]) && !IsSpace(h[|h| - 1]);
    assert LStrip(h) == h && RStrip(h) == h;
  }

  /** A port number in double or single quotes, as a `ports:` entry may
      write it, comes out as the bare number. */
  lemma HostPortQuoted(h: string)
    requires IsNumber(h)
    ensures HostPort("\"" + h + "\"") == h
    ensures HostPort("'" + h + "'") == h
  {
    assert !IsSpace(h[0]) && !IsSpace(h[|h| - 1]);
    assert StripChar(h, '"') == h && StripChar(h, '\'') == h;
    var d := "\"" + h + "\"";
    assert LStrip(d) == d && RStrip(d) == d;
    assert d[1..] == h + "\"";
    assert (h + "\"")[..|h|] == h;
    assert StripChar(h + "\"", '"') == h;
    var q := "'" + h + "'";
    assert LStrip(q) == q && RStrip(q) == q;
    assert StripChar(q, '"') == q;
    assert q[1..] == h + "'" && (h + "'")[..|h|] == h;
    assert StripChar(h + "'", '\'') == h;
  }

  /** A mapping of two port numbers, such as `12104:8080`, without a test
      entry probes the default URL on the host port,
      `http://localhost:12104/health`. */
  lemma DefaultUrlNumbers(h: string, c: string)
    requires IsNumber(h) && IsNumber(c)
    ensures DeriveHealthUrl([Service([h + ":" + c], [])]) == Url(DefaultUrl(h))
  {
    MappingParts(h, c, [Service([h + ":" + c], [])]);
    HostPortNumber(h);
  }

  /** Replacing a port number that occurs once, between text without digits. */
  lemma {:induction false} ReplaceNumber(a: string, c: string, h: string, b: string)
    requires IsNumber(c)
    requires forall k :: 0 <= k < |a| ==> !IsDigit(a[k])
    requires forall k :: 0 <= k < |b| ==> !IsDigit(b[k])
    ensures Replace(a + c + b, c, h) == a + h + b
    decreases |a|
  {
    var t := a + c + b;
    if a == [] {
      calc {
        Replace(t, c, h);
        { assert t == c + b && StartsWith(t, c) && t[|c|..] == b; }
        h + Replace(b, c, h);
        { NoNumberIn(b, c); ReplaceAbsent(b, c, h); }
        h + b;
      }
    } else {
      calc {
        Replace(t, c, h);
        { assert t[0] == a[0] && t[0] != c[0]; }
        [t[0]] + Replace(t[1..], c, h);
        { assert t[1..] == a[1..] + c + b; ReplaceNumber(a[1..], c, h, b); }
        [a[0]] + (a[1..] + h + b);
        { assert [a[0]] + a[1..] == a; }
        a + h + b;
      }
    }
  }

  /** Text without digits contains no port number. */
  lemma {:induction false} NoNumberIn(b: string, c: string)
    requires IsNumber(c)
    requires forall k :: 0 <= k < |b| ==> !IsDigit(b[k])
    ensures !Contains(b, c)
    decreases |b|
  {
    if b != [] {
      assert b[0] != c[0];
      NoNumberIn(b[1..], c);
    }
  }

  /** The first entry starting with `http` after entries that do not,
      whatever follows it. */
  lemma {:induction false} FirstHttpAfter(pre: seq<string>, u: string, post: seq<string>)
    requires forall k :: 0 <= k < |pre| ==> !StartsWith(pre[k], "http")
    requires StartsWith(u, "http")
    ensures FirstHttp(pre + [u] + post) == Some(|pre|)
    decreases |pre|
  {
    if pre == [] {
      assert (pre + [u] + post)[0] == u;
    } else {
      assert (pre + [u] + post)[1..] == pre[1..] + [u] + post;
      FirstHttpAfter(pre[1..], u, post);
    }
  }

  /** With a test such as `CMD curl -f http://localhost:8080/health` on the
      mapping `12104:8080`, the container port in the test URL is replaced by
      the host port, which gives the same URL as the default. Entries after
      the URL, such as `|| exit 1`, play no part. */
  lemma TestUrlNumbers(h: string, c: string, pre: seq<string>, post: seq<string>)
    requires IsNumber(h) && IsNumber(c)
    requires forall k :: 0 <= k < |pre| ==> !StartsWith(pre[k], "http")
    ensures DeriveHealthUrl([Service([h + ":" + c], pre + ["http://localhost:" + c + "/health"] + post)])
      == Url(DefaultUrl(h))
  {
    var test := pre + ["http://localhost:" + c + "/health"] + post;
    MappingParts(h, c, [Service([h + ":" + c], test)]);
    HostPortNumber(h);
    TestUrlReplaced(h, c, pre, post);
  }

  lemma TestUrlReplaced(h: string, c: string, pre: seq<string>, post: seq<string>)
    requires IsNumber(h) && IsNumber(c)
    requires forall k :: 0 <= k < |pre| ==> !StartsWith(pre[k], "http")
    ensures HealthUrl(pre + ["http://localhost:" + c + "/health"] + post, h, c) == DefaultUrl(h)
  {
    var a, b := "http://localhost:", "/health";
    var u := a + c + b;
    assert StartsWith(u, "http") by {
      assert u[..4] == a[..4];
    }
    FirstHttpAfter(pre, u, post);
    assert (pre + [u] + post)[|pre|] == u;
    ReplaceNumber(a, c, h, b);
  }

  // ---------------------------------------------------------------------
  // The deploy-and-poll check
  // ---------------------------------------------------------------------

  /** What `check_deployment_and_health` returns: `False`, or a string. */
  datatype Verdict = Failed | Reply(text: string)

  const Ok: Verdict := Reply("OK")

  /** The outcome of loading `docker-compose.yml`: the services it defines,
      or the message of the exception raised. */
  datatype Load = Loaded(services: seq<Service>) | LoadError(message: string)

  /** The outcome of `sh deploy-challenge.sh`. */
  datatype Deploy = Deployed | ExitStatus(code: int, stderr: string) | DeployError(message: string)

  /** One request to the health URL. */
  datatype Probe = Response(status: int) | Unreachable

  /** What the outside world answers during one check: the descriptor, the
      deploy script, and the requests that fit in the polling window. */
  datatype Env = Env(load: Load, deploy: Deploy, probes: seq<Probe>)

  /** Observable effects, in order. */
  datatype Event =
    | ChangeDir(path: string)
    | RunDeploy
    | HealthGet(url: string)
    | ComposeDown
    | AskAi(llmText: string, feedback: Verdict)
    | WriteFiles(directory: string)

  /** A result with the effects that produced it. */
  datatype Run = Run(verdict: Verdict, events: seq<Event>)

  /** `requests`' `Response.ok`: no client or server error status. */
  predicate IsOk(p: Probe)
  {
    p.Response? && !(400 <= p.status < 600)
  }

  function Unexpected(message: string): (r: string)
    ensures |r| == 36 + |message| && Reply(r) != Ok
  {
    "Unexpected error during deployment: " + message
  }

  function DeployFailed(code: int, stderr: string): (r: string)
    ensures |r| > 32 + |stderr| && Reply(r) != Ok
  {
    "Deployment failed (exit code " + IntToString(code) + "):\n" + stderr
  }

  const PollFailed: string := "Health check failed"

  /** The first successful probe at or after `k`, or `|probes|`. */
  function FirstOk(probes: seq<Probe>, k: nat): (r: nat)
    requires k <= |probes|
    ensures k <= r <= |probes|
    ensures r < |probes| ==> IsOk(probes[r])
    ensures forall m :: k <= m < r ==> !IsOk(probes[m])
    decreases |probes| - k
  {
    if k == |probes| || IsOk(probes[k]) then k else FirstOk(probes, k + 1)
  }

  /** `n` requests to `url`. */
  function Gets(url: string, n: nat): (r: seq<Event>)
    ensures |r| == n && forall k :: 0 <= k < n ==> r[k] == HealthGet(url)
  {
    if n == 0 then [] else Gets(url, n - 1) + [HealthGet(url)]
  }

  /** Polling from probe `k` on: one request per probe, stopping at the first
      successful one. */
  function PollFrom(url: string, probes: seq<Probe>, k: nat): (r: Run)
    requires k <= |probes|
    ensures r.verdict == Ok || r.verdict == Reply(PollFailed)
    ensures |r.events| <= |probes| - k
    ensures forall n :: 0 <= n < |r.events| ==> r.events[n] == HealthGet(url)
    decreases |probes| - k
  {
    if k == |probes| then Run(Reply(PollFailed), [])
    else if IsOk(probes[k]) then Run(Ok, [HealthGet(url)])
    else
      var r := PollFrom(url, probes, k + 1);
      Run(r.verdict, [HealthGet(url)] + r.events)
  }

  /** Polling answers `"OK"` right after the first successful probe and sends
      no further request; it answers `"Health check failed"` only after every
      probe failed. */
  lemma {:induction false} PollFirstOk(url: string, probes: seq<Probe>, k: nat)
    requires k <= |probes|
    ensures FirstOk(probes, k) < |probes| ==>
      PollFrom(url, probes, k) == Run(Ok, Gets(url, FirstOk(probes, k) - k + 1))
    ensures FirstOk(probes, k) == |probes| ==>
      PollFrom(url, probes, k) == Run(Reply(PollFailed), Gets(url, |probes| - k))
    decreases |probes| - k
  {
    if k < |probes| && !IsOk(probes[k]) {
      PollFirstOk(url, probes, k + 1);
      var n := (if FirstOk(probes, k) < |probes| then FirstOk(probes, k) + 1 else |probes|) - k;
      assert [HealthGet(url)] + Gets(url, n - 1) == Gets(url, n);
    }
  }

  /** The deploy step and, after a successful deploy, the polling. */
  function DeployRun(url: string, env: Env): (r: Run)
    ensures r.verdict != Failed
    ensures r.verdict == Ok ==> env.deploy.Deployed?
    ensures !env.deploy.Deployed? ==> r.events == []
  {
    match env.deploy
    case Deployed => PollFrom(url, env.probes, 0)
    case ExitStatus(code, stderr) => Run(Reply(DeployFailed(code, stderr)), [])
    case DeployError(message) => Run(Reply(Unexpected(message)), [])
  }

  /** The body of the `try` block, run from `workDir` once it changes there. */
  function TryRun(workDir: string, env: Env): Run
  {
    match env.load
    case LoadError(message) => Run(Reply(Unexpected(message)), [])
    case Loaded(services) =>
      match DeriveHealthUrl(services)
      case Url(url) =>
        var d := DeployRun(url, env);
        Run(d.verdict, [ChangeDir(workDir), RunDeploy] + d.events)
      case _ => Run(Failed, [])
  }

  /** The directory checked, relative to the working directory. */
  function CheckDir(directory: string, directoryArg: string): (r: string)
    ensures Materializer.IsAbsolute(directory) || directoryArg == [] ==> r == directory
  {
    PathJoin(directoryArg, directory)
  }

  /** Where the check looks for `docker-compose.yml`. */
  function ComposeKey(cwd: string, directory: string, directoryArg: string): (r: Materializer.Path)
    ensures |r| >= 1 && r[|r| - 1] == ComposeFile
  {
    Materializer.BaseDir(Materializer.Segments(cwd), CheckDir(directory, directoryArg)) + [ComposeFile]
  }

  const ComposeFile: string := "docker-compose.yml"

  /** `check_deployment_and_health`: two early `False` returns, then the
      `try` body followed, on every path, by `docker compose down` and the
      return to the original directory. */
  function Check(cwd: string, files: Materializer.FileSystem, directory: string, directoryArg: string, env: Env): Run
  {
    if cwd == [] || ComposeKey(cwd, directory, directoryArg) !in files then Run(Failed, [])
    else
      var t := TryRun(PathJoin(cwd, CheckDir(directory, directoryArg)), env);
      Run(t.verdict, t.events + [ComposeDown, ChangeDir(cwd)])
  }

  /** The number of times `e` occurs in `events`. */
  function Occurrences(events: seq<Event>, e: Event): nat
  {
    if events == [] then 0
    else Occurrences(events[..|events| - 1], e) + (if events[|events| - 1] == e then 1 else 0)
  }

  lemma {:induction false} OccurrencesNone(events: seq<Event>, e: Event)
    requires e !in events
    ensures Occurrences(events, e) == 0
    decreases |events|
  {
    if events != [] {
      assert e !in events[..|events| - 1];
      OccurrencesNone(events[..|events| - 1], e);
    }
  }

  /** The `try` body neither tears down nor returns to the original
      directory: only the `finally` block does. */
  lemma TryRunNoCleanup(workDir: string, env: Env)
    ensures forall k :: 0 <= k < |TryRun(workDir, env).events| ==>
      TryRun(workDir, env).events[k] == ChangeDir(workDir) || TryRun(workDir, env).events[k] == RunDeploy
        || TryRun(workDir, env).events[k].HealthGet?
  {
    if env.load.Loaded? && DeriveHealthUrl(env.load.services).Url? && env.deploy.Deployed? {
      var u := DeriveHealthUrl(env.load.services).url;
      PollFirstOk(u, env.probes, 0);
    }
  }

  /** The `try` body answers `False` exactly when the descriptor loaded but
      one of its checks failed (a failed load is an unexpected error), and
      whatever it does begins with the change of directory and the deploy. */
  lemma TryRunFailed(workDir: string, env: Env)
    ensures TryRun(workDir, env).verdict == Failed <==>
      env.load.Loaded? && !DeriveHealthUrl(env.load.services).Url?
    ensures TryRun(workDir, env).events != [] ==>
      && |TryRun(workDir, env).events| >= 2
      && TryRun(workDir, env).events[0] == ChangeDir(workDir)
      && TryRun(workDir, env).events[1] == RunDeploy
  {
  }

  /** Once the `try` is entered, every exit path tears down exactly once and
      then returns to the original directory, as its last two effects; the
      two early returns before it have no effect at all and return `False`. */
  lemma CheckCleanup(cwd: string, files: Materializer.FileSystem, directory: string, directoryArg: string, env: Env)
    ensures var r := Check(cwd, files, directory, directoryArg, env);
      (cwd == [] || ComposeKey(cwd, directory, directoryArg) !in files) ==> r == Run(Failed, [])
    ensures var r := Check(cwd, files, directory, directoryArg, env);
      (cwd != [] && ComposeKey(cwd, directory, directoryArg) in files) ==>
        |r.events| >= 2 && r.events[|r.events| - 2] == ComposeDown && r.events[|r.events| - 1] == ChangeDir(cwd)
        && Occurrences(r.events, ComposeDown) == 1
  {
    if cwd != [] && ComposeKey(cwd, directory, directoryArg) in files {
      var w := PathJoin(cwd, CheckDir(directory, directoryArg));
      var t := TryRun(w, env);
      TryRunNoCleanup(w, env);
      OccurrencesNone(t.events, ComposeDown);
      var r := t.events + [ComposeDown, ChangeDir(cwd)];
      assert r[..|r| - 1] == t.events + [ComposeDown];
      assert (t.events + [ComposeDown])[..|t.events|] == t.events;
    }
  }

  /** `False` is returned exactly when the working directory is unknown, the
      descriptor is missing, or the descriptor fails a check; in each of
      these cases nothing is deployed. */
  lemma CheckFailed(cwd: string, files: Materializer.FileSystem, directory: string, directoryArg: string, env: Env)
    ensures Check(cwd, files, directory, directoryArg, env).verdict == Failed <==>
      (cwd == [] || ComposeKey(cwd, directory, directoryArg) !in files
        || (env.load.Loaded? && !DeriveHealthUrl(env.load.services).Url?))
    ensures Check(cwd, files, directory, directoryArg, env).verdict == Failed ==>
      RunDeploy !in Check(cwd, files, directory, directoryArg, env).events
  {
    if env.load.Loaded? && DeriveHealthUrl(env.load.services).Url? && env.deploy.Deployed? {
      PollFirstOk(DeriveHealthUrl(env.load.services).url, env.probes, 0);
    }
  }

  /** `"OK"` means the descriptor passed, the deploy succeeded, and the
      polling stopped at the first successful probe: the whole trace is the
      change of directory, the deploy, one request per probe up to that one,
      and the cleanup. */
  lemma CheckOk(cwd: string, files: Materializer.FileSystem, directory: string, directoryArg: string, env: Env)
    requires Check(cwd, files, directory, directoryArg, env).verdict == Ok
    ensures env.load.Loaded? && DeriveHealthUrl(env.load.services).Url? && env.deploy == Deployed
    ensures FirstOk(env.probes, 0) < |env.probes|
    ensures Check(cwd, files, directory, directoryArg, env).events
      == [ChangeDir(PathJoin(cwd, CheckDir(directory, directoryArg))), RunDeploy]
        + Gets(DeriveHealthUrl(env.load.services).url, FirstOk(env.probes, 0) + 1)
        + [ComposeDown, ChangeDir(cwd)]
  {
    assert env.load.Loaded? && DeriveHealthUrl(env.load.services).Url?;
    PollFirstOk(DeriveHealthUrl(env.load.services).url, env.probes, 0);
  }

  lemma {:induction false} OccurrencesSplit(a: seq<Event>, b: seq<Event>, e: Event)
    ensures Occurrences(a + b, e) == Occurrences(a, e) + Occurrences(b, e)
    decreases |b|
  {
    if b == [] {
      assert a + b == a;
    } else {
      assert (a + b)[..|a + b| - 1] == a + b[..|b| - 1];
      OccurrencesSplit(a, b[..|b| - 1], e);
    }
  }

  /** Nothing in a check asks the model or writes generated files. */
  lemma CheckNoAsk(cwd: string, files: Materializer.FileSystem, directory: string, directoryArg: string, env: Env)
    ensures forall k :: 0 <= k < |Check(cwd, files, directory, directoryArg, env).events| ==>
      !Check(cwd, files, directory, directoryArg, env).events[k].AskAi?
      && !Check(cwd, files, directory, directoryArg, env).events[k].WriteFiles?
  {
    TryRunNoCleanup(PathJoin(cwd, CheckDir(directory, directoryArg)), env);
  }

  // ---------------------------------------------------------------------
  // The repair loop
  // ---------------------------------------------------------------------

  /** The fixed arguments of `generate_retry`; `resources` is what
      `find_resources_folder` answers for the version directory. */
  datatype Job = Job(
    num: nat, llmText: string, directory: string, completePath: string, versionsName: string,
    directoryArgs: string, maxRetries: int, resources: string)

  /** The model's answers, `check_ai(llm_text, ret_str)` on attempt `k`, and
      what the outside world answers to the check after attempt `k`. */
  datatype Oracle = Oracle(reply: (string, Verdict, nat) -> string, env: nat -> Env)

  /** `<directory>-<num + 1>`. */
  function VersionDir(job: Job): string
  {
    job.directory + "-" + NatToString(job.num + 1)
  }

  /** Where the regenerated files are written. */
  function ParseDir(job: Job): string
  {
    PathJoin(PathJoin(job.completePath, VersionDir(job)), job.resources)
  }

  /** What is checked after each regeneration. */
  function CheckTarget(job: Job): string
  {
    PathJoin(job.versionsName, VersionDir(job))
  }

  /** How the loop ends: normally, with the last verdict and the retry
      counter, or by the `ValueError` of `parser_ai`, which is not caught. */
  datatype RetryOutcome = Finished(verdict: Verdict, retries: int) | Raised(error: Materializer.Error, retries: int)

  datatype Retry = Retry(outcome: RetryOutcome, files: Materializer.FileSystem, events: seq<Event>)

  /** One attempt after the model answered: the files after `parser_ai`, its
      error if it raised, and otherwise the check that followed. */
  datatype Attempt = Attempt(files: Materializer.FileSystem, error: Option<Materializer.Error>, check: Run)

  /** An attempt as a function of the files, the latest result and the
      attempt number. */
  type Step = (Materializer.FileSystem, Verdict, nat) -> Attempt

  /** The loop of `generate_retry` from the state `retStr`, `numRetries`, at
      attempt `attempt`, for a given attempt function. */
  function RetryLoop(job: Job, step: Step, files: Materializer.FileSystem,
                     retStr: Verdict, numRetries: int, attempt: nat): Retry
    decreases if numRetries < job.maxRetries then job.maxRetries - numRetries else 0
  {
    if retStr == Ok || numRetries >= job.maxRetries then Retry(Finished(retStr, numRetries), files, [])
    else
      var a := step(files, retStr, attempt);
      var asked := [AskAi(job.llmText, retStr), WriteFiles(ParseDir(job))];
      if a.error.Some? then Retry(Raised(a.error.value, numRetries), a.files, asked)
      else
        var rest := RetryLoop(job, step, a.files, a.check.verdict, numRetries + 1, attempt + 1);
        Retry(rest.outcome, rest.files, asked + a.check.events + rest.events)
  }

  /** The attempt of `generate_retry`: `parser_ai` on the model's answer into
      the version directory, then, unless it raised, the check. */
  function AttemptAt(cwd: string, job: Job, oracle: Oracle, files: Materializer.FileSystem, retStr: Verdict, k: nat): Attempt
  {
    var text := oracle.reply(job.llmText, retStr, k);
    var m := Materializer.Materialize(files, text, Materializer.BaseDir(Materializer.Segments(cwd), ParseDir(job)));
    if m.error.Some? then Attempt(m.files, m.error, Run(Failed, []))
    else Attempt(m.files, None, Check(cwd, m.files, CheckTarget(job), job.directoryArgs, oracle.env(k)))
  }

  lemma AttemptAtParts(cwd: string, job: Job, oracle: Oracle, files: Materializer.FileSystem, retStr: Verdict, k: nat,
                       m: Materializer.Outcome)
    requires m == Materializer.Materialize(files, oracle.reply(job.llmText, retStr, k),
      Materializer.BaseDir(Materializer.Segments(cwd), ParseDir(job)))
    ensures AttemptAt(cwd, job, oracle, files, retStr, k).files == m.files
    ensures AttemptAt(cwd, job, oracle, files, retStr, k).error == m.error
    ensures m.error.None? ==>
      AttemptAt(cwd, job, oracle, files, retStr, k).check == Check(cwd, m.files, CheckTarget(job), job.directoryArgs, oracle.env(k))
  {
  }

  function StepOf(cwd: string, job: Job, oracle: Oracle): Step
  {
    (files: Materializer.FileSystem, retStr: Verdict, k: nat) => AttemptAt(cwd, job, oracle, files, retStr, k)
  }

  /** `step` performs the attempts of `generate_retry` from `cwd`. */
  ghost predicate Realizes(step: Step, cwd: string, job: Job, oracle: Oracle)
  {
    forall files: Materializer.FileSystem, retStr: Verdict, k: nat {:trigger AttemptAt(cwd, job, oracle, files, retStr, k)} ::
      step(files, retStr, k) == AttemptAt(cwd, job, oracle, files, retStr, k)
  }

  lemma StepOfRealizes(cwd: string, job: Job, oracle: Oracle)
    ensures Realizes(StepOf(cwd, job, oracle), cwd, job, oracle)
  {
  }

  /** An attempt function whose checks never ask the model nor write
      generated files, as `StepOf`'s do. */
  ghost predicate Quiet(step: Step)
  {
    forall files, retStr, k, j :: 0 <= j < |step(files, retStr, k).check.events| ==>
      !step(files, retStr, k).check.events[j].AskAi? && !step(files, retStr, k).check.events[j].WriteFiles?
  }

  lemma StepOfQuiet(cwd: string, job: Job, oracle: Oracle)
    ensures Quiet(StepOf(cwd, job, oracle))
  {
    forall files, retStr, k | true
      ensures var c := StepOf(cwd, job, oracle)(files, retStr, k).check;
        forall j :: 0 <= j < |c.events| ==> !c.events[j].AskAi? && !c.events[j].WriteFiles?
    {
      var m := Materializer.Materialize(files, oracle.reply(job.llmText, retStr, k),
        Materializer.BaseDir(Materializer.Segments(cwd), ParseDir(job)));
      CheckNoAsk(cwd, m.files, CheckTarget(job), job.directoryArgs, oracle.env(k));
    }
  }

  /** A normal exit leaves the loop with `"OK"` or with the retry budget
      spent; a raised error happens within the budget. */
  lemma {:induction false} RetryExit(job: Job, step: Step, files: Materializer.FileSystem,
                                     retStr: Verdict, numRetries: int, attempt: nat)
    ensures RetryLoop(job, step, files, retStr, numRetries, attempt).outcome.Finished? ==>
      RetryLoop(job, step, files, retStr, numRetries, attempt).outcome.verdict == Ok
      || RetryLoop(job, step, files, retStr, numRetries, attempt).outcome.retries >= job.maxRetries
    ensures numRetries <= RetryLoop(job, step, files, retStr, numRetries, attempt).outcome.retries
    ensures RetryLoop(job, step, files, retStr, numRetries, attempt).outcome.retries == numRetries
      || RetryLoop(job, step, files, retStr, numRetries, attempt).outcome.retries <= job.maxRetries
    ensures RetryLoop(job, step, files, retStr, numRetries, attempt).outcome.Raised? ==>
      RetryLoop(job, step, files, retStr, numRetries, attempt).outcome.retries < job.maxRetries
    ensures (retStr != Ok && numRetries < job.maxRetries
             && RetryLoop(job, step, files, retStr, numRetries, attempt).outcome.Finished?) ==>
      RetryLoop(job, step, files, retStr, numRetries, attempt).outcome.retries > numRetries
    decreases if numRetries < job.maxRetries then job.maxRetries - numRetries else 0
  {
    if retStr != Ok && numRetries < job.maxRetries {
      var a := step(files, retStr, attempt);
      if a.error.None? {
        RetryExit(job, step, a.files, a.check.verdict, numRetries + 1, attempt + 1);
      }
    }
  }

  /** Nothing happens when the result is already `"OK"` or no retry is left;
      in particular a `max_retries` of 0 never regenerates. */
  lemma RetryNone(job: Job, step: Step, files: Materializer.FileSystem, retStr: Verdict, numRetries: int)
    requires retStr == Ok || job.maxRetries <= numRetries
    ensures RetryLoop(job, step, files, retStr, numRetries, 0) == Retry(Finished(retStr, numRetries), files, [])
  {
  }

  /** Any result other than `"OK"` is retried while the budget lasts, `False`
      included: the first effects ask the model with the original text and
      that result, then write into the version directory. When the attempt's
      check answers something other than `"OK"` and a retry is left, the next
      request, right after that check's effects, carries the check's answer. */
  lemma {:induction false} RetryFirst(job: Job, step: Step, files: Materializer.FileSystem, retStr: Verdict, numRetries: int, attempt: nat)
    requires retStr != Ok && numRetries < job.maxRetries
    ensures |RetryLoop(job, step, files, retStr, numRetries, attempt).events| >= 2
    ensures RetryLoop(job, step, files, retStr, numRetries, attempt).events[0] == AskAi(job.llmText, retStr)
    ensures RetryLoop(job, step, files, retStr, numRetries, attempt).events[1] == WriteFiles(ParseDir(job))
    ensures (step(files, retStr, attempt).error.None? && step(files, retStr, attempt).check.verdict != Ok
             && numRetries + 1 < job.maxRetries) ==>
      |RetryLoop(job, step, files, retStr, numRetries, attempt).events| > 2 + |step(files, retStr, attempt).check.events|
      && RetryLoop(job, step, files, retStr, numRetries, attempt).events[2 + |step(files, retStr, attempt).check.events|]
         == AskAi(job.llmText, step(files, retStr, attempt).check.verdict)
    decreases job.maxRetries - numRetries
  {
    var a := step(files, retStr, attempt);
    if a.error.None? && a.check.verdict != Ok && numRetries + 1 < job.maxRetries {
      RetryFirst(job, step, a.files, a.check.verdict, numRetries + 1, attempt + 1);
    }
  }

  /** The number of requests to the model in `events`. */
  function Asks(events: seq<Event>): nat
  {
    if events == [] then 0 else Asks(events[..|events| - 1]) + (if events[|events| - 1].AskAi? then 1 else 0)
  }

  lemma {:induction false} AsksAppend(a: seq<Event>, b: seq<Event>)
    ensures Asks(a + b) == Asks(a) + Asks(b)
    decreases |b|
  {
    if b == [] {
      assert a + b == a;
    } else {
      assert (a + b)[..|a + b| - 1] == a + b[..|b| - 1];
      AsksAppend(a, b[..|b| - 1]);
    }
  }

  lemma {:induction false} AsksNone(events: seq<Event>)
    requires forall k :: 0 <= k < |events| ==> !events[k].AskAi?
    ensures Asks(events) == 0
    decreases |events|
  {
    if events != [] {
      AsksNone(events[..|events| - 1]);
    }
  }

  /** Every iteration asks the model once: the number of requests is the
      number of completed iterations, plus one for an iteration cut short by
      a raised error. */
  lemma {:induction false} RetryAsks(job: Job, step: Step, files: Materializer.FileSystem,
                                     retStr: Verdict, numRetries: int, attempt: nat)
    requires Quiet(step)
    ensures Asks(RetryLoop(job, step, files, retStr, numRetries, attempt).events)
      == RetryLoop(job, step, files, retStr, numRetries, attempt).outcome.retries - numRetries
        + (if RetryLoop(job, step, files, retStr, numRetries, attempt).outcome.Raised? then 1 else 0)
    decreases if numRetries < job.maxRetries then job.maxRetries - numRetries else 0
  {
    if retStr != Ok && numRetries < job.maxRetries {
      var a := step(files, retStr, attempt);
      var asked := [AskAi(job.llmText, retStr), WriteFiles(ParseDir(job))];
      assert Asks(asked) == 1 by {
        var ask := [AskAi(job.llmText, retStr)];
        assert ask[..0] == [];
        assert Asks(ask) == 1;
        assert asked[..1] == ask;
      }
      if a.error.None? {
        var rest := RetryLoop(job, step, a.files, a.check.verdict, numRetries + 1, attempt + 1);
        RetryAsks(job, step, a.files, a.check.verdict, numRetries + 1, attempt + 1);
        AsksNone(a.check.events);
        AsksAppend(asked, a.check.events);
        AsksAppend(asked + a.check.events, rest.events);
      }
    }
  }

  /** The loop runs at most `max_retries - num_retries` times, and not at all
      exactly when the result is `"OK"` or no retry is left. */
  lemma RetryIterations(job: Job, step: Step, files: Materializer.FileSystem, retStr: Verdict, numRetries: int)
    requires Quiet(step)
    ensures Asks(RetryLoop(job, step, files, retStr, numRetries, 0).events)
      <= if job.maxRetries > numRetries then job.maxRetries - numRetries else 0
    ensures Asks(RetryLoop(job, step, files, retStr, numRetries, 0).events) == 0
      <==> retStr == Ok || numRetries >= job.maxRetries
  {
    RetryAsks(job, step, files, retStr, numRetries, 0);
    RetryExit(job, step, files, retStr, numRetries, 0);
  }

  /** Every request to the model repeats the original `llm_text`, and every
      regeneration writes into the same directory. */
  lemma {:induction false} RetryPrompts(job: Job, step: Step, files: Materializer.FileSystem,
                                        retStr: Verdict, numRetries: int, attempt: nat)
    requires Quiet(step)
    ensures forall k :: 0 <= k < |RetryLoop(job, step, files, retStr, numRetries, attempt).events| ==>
      (RetryLoop(job, step, files, retStr, numRetries, attempt).events[k].AskAi? ==>
        RetryLoop(job, step, files, retStr, numRetries, attempt).events[k].llmText == job.llmText)
      && (RetryLoop(job, step, files, retStr, numRetries, attempt).events[k].WriteFiles? ==>
        RetryLoop(job, step, files, retStr, numRetries, attempt).events[k].directory == ParseDir(job))
    decreases if numRetries < job.maxRetries then job.maxRetries - numRetries else 0
  {
    if retStr != Ok && numRetries < job.maxRetries {
      var a := step(files, retStr, attempt);
      if a.error.None? {
        RetryPrompts(job, step, a.files, a.check.verdict, numRetries + 1, attempt + 1);
      }
    }
  }

  /** The machine the checks run on: its working directory, its files and a
      log of the effects on the outside world. */
  class Host {
    var cwd: string
    var files: Materializer.FileSystem
    var log: seq<Event>

    constructor(cwd: string, files: Materializer.FileSystem)
      ensures this.cwd == cwd && this.files == files && log == []
    {
      this.cwd := cwd;
      this.files := files;
      log := [];
    }

    /** `check_deployment_and_health(directory, directory_arg)`: the
        `finally` block runs after `TryBody` whichever way that exits. */
    method CheckDeploymentAndHealth(directory: string, directoryArg: string, env: Env) returns (v: Verdict)
      modifies this
      ensures cwd == old(cwd) && files == old(files)
      ensures v == Check(old(cwd), old(files), directory, directoryArg, env).verdict
      ensures log == old(log) + Check(old(cwd), old(files), directory, directoryArg, env).events
    {
      var parentDirectory := cwd;
      if parentDirectory == [] {
        return Failed;
      }
      if ComposeKey(cwd, directory, directoryArg) !in files {
        return Failed;
      }
      ghost var log0 := log;
      ghost var t := TryRun(PathJoin(cwd, CheckDir(directory, directoryArg)), env);
      assert Check(cwd, files, directory, directoryArg, env) == Run(t.verdict, t.events + [ComposeDown, ChangeDir(cwd)]);
      v := TryBody(PathJoin(cwd, CheckDir(directory, directoryArg)), env);
      ghost var log1 := log;
      // finally
      log := log + [ComposeDown];
      cwd := parentDirectory;
      log := log + [ChangeDir(cwd)];
      assert log == log1 + [ComposeDown, ChangeDir(parentDirectory)];
      AppendAssoc(log0, t.events, [ComposeDown, ChangeDir(parentDirectory)]);
    }

    /** The `try` block: every exit from it (the `False` returns, the error
        messages, `"OK"` and the polling failure) leaves the labelled block
        `Try` by `break`. */
    method TryBody(workDir: string, env: Env) returns (v: Verdict)
      modifies this
      ensures files == old(files)
      ensures v == TryRun(workDir, env).verdict
      ensures log == old(log) + TryRun(workDir, env).events
    {
      ghost var expected := TryRun(workDir, env);
      label Try: {
        if env.load.LoadError? {
          v := Reply(Unexpected(env.load.message));
          break Try;
        }
        var derived := DeriveHealthUrl(env.load.services);
        if !derived.Url? {
          v := Failed;
          break Try;
        }
        var healthUrl := derived.url;
        cwd := workDir;
        log := log + [ChangeDir(cwd)];
        log := log + [RunDeploy];
        ghost var d := DeployRun(healthUrl, env);
        assert expected == Run(d.verdict, [ChangeDir(workDir), RunDeploy] + d.events);
        if env.deploy.ExitStatus? {
          v := Reply(DeployFailed(env.deploy.code, env.deploy.stderr));
          break Try;
        } else if env.deploy.DeployError? {
          v := Reply(Unexpected(env.deploy.message));
          break Try;
        }
        ghost var log1 := log;
        v := Poll(healthUrl, env.probes);
        assert log == log1 + d.events;
      }
    }

    /** `generate_retry`: while the result is not `"OK"` and retries are
        left, ask the model again with the original text and the latest
        result, write its files, and check again. */
    method GenerateRetry(job: Job, oracle: Oracle, retStr0: Verdict, numRetries0: int) returns (outcome: RetryOutcome)
      modifies this
      ensures cwd == old(cwd)
      ensures outcome == RetryLoop(job, StepOf(old(cwd), job, oracle), old(files), retStr0, numRetries0, 0).outcome
      ensures files == RetryLoop(job, StepOf(old(cwd), job, oracle), old(files), retStr0, numRetries0, 0).files
      ensures log == old(log) + RetryLoop(job, StepOf(old(cwd), job, oracle), old(files), retStr0, numRetries0, 0).events
    {
      StepOfRealizes(cwd, job, oracle);
      outcome := RetryFrom(job, oracle, StepOf(cwd, job, oracle), retStr0, numRetries0);
    }

    /** The loop of `GenerateRetry`, for any `step` that performs its
        attempts. */
    method RetryFrom(job: Job, oracle: Oracle, ghost step: Step, retStr0: Verdict, numRetries0: int)
      returns (outcome: RetryOutcome)
      requires Realizes(step, cwd, job, oracle)
      modifies this
      ensures cwd == old(cwd)
      ensures outcome == RetryLoop(job, step, old(files), retStr0, numRetries0, 0).outcome
      ensures files == RetryLoop(job, step, old(files), retStr0, numRetries0, 0).files
      ensures log == old(log) + RetryLoop(job, step, old(files), retStr0, numRetries0, 0).events
    {
      ghost var total := RetryLoop(job, step, files, retStr0, numRetries0, 0);
      var retStr := retStr0;
      var numRetries := numRetries0;
      var attempt: nat := 0;
      while retStr != Ok && numRetries < job.maxRetries
        invariant cwd == old(cwd)
        invariant total.outcome == RetryLoop(job, step, files, retStr, numRetries, attempt).outcome
        invariant total.files == RetryLoop(job, step, files, retStr, numRetries, attempt).files
        invariant old(log) + total.events == log + RetryLoop(job, step, files, retStr, numRetries, attempt).events
        decreases job.maxRetries - numRetries
      {
        ghost var a := step(files, retStr, attempt);
        ghost var log0 := log;
        ghost var asked := [AskAi(job.llmText, retStr), WriteFiles(ParseDir(job))];
        ghost var rest := RetryLoop(job, step, a.files, a.check.verdict, numRetries + 1, attempt + 1);
        assert a.error.None? ==>
          RetryLoop(job, step, files, retStr, numRetries, attempt).events == asked + a.check.events + rest.events;
        var err, verdict := RetryAttempt(job, oracle, step, retStr, attempt);
        if err.Some? {
          assert log == log0 + asked;
          return Raised(err.value, numRetries);
        }
        assert log == log0 + asked + a.check.events;
        AppendAssoc(log0, asked, a.check.events);
        AppendAssoc(log0, asked + a.check.events, rest.events);
        retStr := verdict;
        numRetries := numRetries + 1;
        attempt := attempt + 1;
      }
      outcome := Finished(retStr, numRetries);
    }

    /** One iteration of `generate_retry`'s loop: ask the model, write its
        files with `parser_ai`, and unless that raised, check again. */
    method RetryAttempt(job: Job, oracle: Oracle, ghost step: Step, retStr: Verdict, attempt: nat)
      returns (err: Option<Materializer.Error>, verdict: Verdict)
      requires Realizes(step, cwd, job, oracle)
      modifies this
      ensures cwd == old(cwd)
      ensures files == step(old(files), retStr, attempt).files
      ensures err == step(old(files), retStr, attempt).error
      ensures err.None? ==> verdict == step(old(files), retStr, attempt).check.verdict
      ensures err.Some? ==> log == old(log) + [AskAi(job.llmText, retStr), WriteFiles(ParseDir(job))]
      ensures err.None? ==>
        log == old(log) + [AskAi(job.llmText, retStr), WriteFiles(ParseDir(job))] + step(old(files), retStr, attempt).check.events
    {
      ghost var m := Materializer.Materialize(files, oracle.reply(job.llmText, retStr, attempt),
        Materializer.BaseDir(Materializer.Segments(cwd), ParseDir(job)));
      AttemptAtParts(cwd, job, oracle, files, retStr, attempt, m);
      ghost var asked := [AskAi(job.llmText, retStr), WriteFiles(ParseDir(job))];
      log := log + [AskAi(job.llmText, retStr)];
      var llmCheckedText := oracle.reply(job.llmText, retStr, attempt);
      log := log + [WriteFiles(ParseDir(job))];
      assert log == old(log) + asked;
      var newFiles;
      newFiles, err := Materializer.ParserAi(files, llmCheckedText, ParseDir(job), Materializer.Segments(cwd));
      assert newFiles == m.files && err == m.error;
      files := newFiles;
      verdict := Failed;
      if err.None? {
        ghost var log1 := log;
        verdict := CheckDeploymentAndHealth(CheckTarget(job), job.directoryArgs, oracle.env(attempt));
        assert log == log1 + Check(old(cwd), m.files, CheckTarget(job), job.directoryArgs, oracle.env(attempt)).events;
      }
    }

    /** The polling loop: one request per probe until one succeeds. */
    method Poll(healthUrl: string, probes: seq<Probe>) returns (v: Verdict)
      modifies this
      ensures cwd == old(cwd) && files == old(files)
      ensures v == PollFrom(healthUrl, probes, 0).verdict
      ensures log == old(log) + PollFrom(healthUrl, probes, 0).events
    {
      PollFirstOk(healthUrl, probes, 0);
      var k := 0;
      while k < |probes|
        invariant 0 <= k <= FirstOk(probes, 0)
        invariant log == old(log) + Gets(healthUrl, k)
        invariant cwd == old(cwd) && files == old(files)
      {
        log := log + [HealthGet(healthUrl)];
        if IsOk(probes[k]) {
          return Ok;
        }
        k := k + 1;
      }
      v := Reply(PollFailed);
    }
  }
}
