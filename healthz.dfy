/** The detailed health probe (`GET`/`HEAD /api/healthz`): per-check pass/warn/fail
    classification, the fold of the checks into an overall status, the HTTP code, and the
    uptime formatter. Process metrics, clock and environment arrive as parameters. */
module Healthz {
  import opened Common
  import opened Text

  datatype CheckStatus = Pass | Warn | Fail
  datatype OverallStatus = Healthy | Degraded | Unhealthy

  /** One entry of `result.checks`: its key and status (time stamps, output and details are not modelled). */
  datatype CheckResult = CheckResult(name: string, status: CheckStatus)

  function Severity(s: CheckStatus): nat {
    match s
    case Pass => 0
    case Warn => 1
    case Fail => 2
  }

  /** The shape shared by both threshold ternaries: fail above one bound, warn above another. */
  function Classify(value: int, warnAbove: int, failAbove: int): CheckStatus {
    if value > failAbove then Fail else if value > warnAbove then Warn else Pass
  }

  /** A larger measurement never gives a milder status. */
  lemma ClassifyMonotone(v: int, w: int, warnAbove: int, failAbove: int)
    requires v <= w
    ensures Severity(Classify(v, warnAbove, failAbove)) <= Severity(Classify(w, warnAbove, failAbove))
  {
  }

  /** Memory check on the rounded heap-usage percentage: 90 exactly still warns, 70 exactly passes. */
  function MemoryStatus(percent: int): (s: CheckStatus)
    ensures s == Fail <==> percent > 90
    ensures s == Warn <==> 71 <= percent <= 90
    ensures s == Pass <==> percent <= 70
  {
    Classify(percent, 70, 90)
  }

  /** Response-time check on the milliseconds spent building the report. */
  function ResponseTimeStatus(ms: int): (s: CheckStatus)
    ensures s == Fail <==> ms > 1000
    ensures s == Warn <==> 501 <= ms <= 1000
    ensures s == Pass <==> ms <= 500
  {
    Classify(ms, 500, 1000)
  }

  /** One step of the aggregation: a failing check makes the report unhealthy, a warning
      degrades a report that is not already unhealthy, a pass changes nothing. */
  function Worsen(o: OverallStatus, s: CheckStatus): OverallStatus {
    match s
    case Fail => Unhealthy
    case Warn => if o == Unhealthy then Unhealthy else Degraded
    case Pass => o
  }

  /** The overall status as a fold over the check statuses, starting from healthy. */
  function Overall(statuses: seq<CheckStatus>): (o: OverallStatus)
    ensures o == Unhealthy <==> Fail in statuses
    ensures o == Degraded <==> Fail !in statuses && Warn in statuses
    ensures o == Healthy <==> Fail !in statuses && Warn !in statuses
  {
    if statuses == [] then Healthy
    else Worsen(Overall(statuses[..|statuses| - 1]), statuses[|statuses| - 1])
  }

  /** The aggregate depends only on which statuses occur, not on the order of the checks. */
  lemma {:induction false} OverallOrderIndependent(a: seq<CheckStatus>, b: seq<CheckStatus>)
    requires multiset(a) == multiset(b)
    ensures Overall(a) == Overall(b)
  {
    assert forall s :: s in a <==> s in multiset(a);
    assert forall s :: s in b <==> s in multiset(b);
  }

  /** Healthy and degraded keep serving traffic (200); only unhealthy answers 503. */
  function HttpStatus(o: OverallStatus): (code: int)
    ensures code == 503 <==> o == Unhealthy
    ensures code == 200 <==> o != Unhealthy
  {
    match o
    case Healthy => 200
    case Degraded => 200
    case Unhealthy => 503
  }

  function Statuses(checks: seq<CheckResult>): (r: seq<CheckStatus>)
    ensures |r| == |checks|
    ensures forall i :: 0 <= i < |checks| ==> r[i] == checks[i].status
  {
    seq(|checks|, i requires 0 <= i < |checks| => checks[i].status)
  }

  function Names(checks: seq<CheckResult>): seq<string> {
    seq(|checks|, i requires 0 <= i < |checks| => checks[i].name)
  }

  /** What a `GET` reads from the process and its environment. */
  datatype Environment = Environment(
    memoryPercent: Attempt<nat>,  // rounded heap-used / heap-total percentage, or the throw
    uptime: Attempt<nat>,         // whole seconds of process uptime, or the throw
    siteName: string,             // WEBSITE_SITE_NAME, "" when unset
    azureCheckFails: bool,        // building the Azure details threw
    responseTimeMs: int)          // Date.now() minus the start time, read after the other checks

  datatype HealthReport = HealthReport(
    status: OverallStatus,
    checks: seq<CheckResult>,     // in insertion order, as Object.values lists them
    formattedUptime: Option<string>)

  /** The memory check's status: from the percentage, or fail when reading it threw. */
  function MemoryCheckStatus(memoryPercent: Attempt<nat>): (s: CheckStatus)
    ensures memoryPercent.Threw? ==> s == Fail
    ensures memoryPercent.Returned? ==> s == MemoryStatus(memoryPercent.value)
  {
    match memoryPercent
    case Returned(percent) => MemoryStatus(percent)
    case Threw(_) => Fail
  }

  /** The uptime check: pass with the formatted uptime, or fail when reading the uptime threw. */
  method UptimeCheck(uptime: Attempt<nat>) returns (check: CheckResult, formatted: Option<string>)
    ensures check.name == "uptime"
    ensures check.status == (if uptime.Threw? then Fail else Pass)
    ensures formatted == (if uptime.Threw? then None else Some(FormatUptimeText(uptime.value)))
  {
    match uptime {
      case Returned(seconds) =>
        var text := FormatUptime(seconds);
        check, formatted := CheckResult("uptime", Pass), Some(text);
      case Threw(_) =>
        check, formatted := CheckResult("uptime", Fail), None;
    }
  }

  /** The azure check runs only when the site name is set, and degrades rather than fails. */
  function AzureChecks(env: Environment): (checks: seq<CheckResult>)
    ensures |checks| == (if env.siteName != "" then 1 else 0)
    ensures checks != [] ==> checks[0] == CheckResult("azure", if env.azureCheckFails then Warn else Pass)
  {
    if env.siteName == "" then []
    else if env.azureCheckFails then [CheckResult("azure", Warn)]
    else [CheckResult("azure", Pass)]
  }

  /** The checks a `GET` records, in insertion order (which `Object.values` preserves): memory,
      uptime, azure only when the site name is set, and the response time. */
  function Checks(env: Environment): (checks: seq<CheckResult>)
    ensures Names(checks) == ["memory", "uptime"] + (if env.siteName != "" then ["azure"] else []) + ["responseTime"]
    ensures checks[0].status == MemoryCheckStatus(env.memoryPercent)
    ensures checks[1].status == (if env.uptime.Threw? then Fail else Pass)
    ensures env.siteName != "" ==> checks[2].status == (if env.azureCheckFails then Warn else Pass)
    ensures checks[|checks| - 1].status == ResponseTimeStatus(env.responseTimeMs)
  {
    var azure := AzureChecks(env);
    var checks := [CheckResult("memory", MemoryCheckStatus(env.memoryPercent)),
                   CheckResult("uptime", if env.uptime.Threw? then Fail else Pass)]
                  + azure + [CheckResult("responseTime", ResponseTimeStatus(env.responseTimeMs))];
    assert Names(checks) == ["memory", "uptime"] + Names(azure) + ["responseTime"];
    checks
  }

  /** `GET /api/healthz`: runs the checks in order, each catching its own failure, then folds them. */
  method Get(env: Environment) returns (report: HealthReport, httpStatus: int)
    ensures report.checks == Checks(env)
    ensures report.status == Overall(Statuses(report.checks))
    ensures httpStatus == HttpStatus(report.status)
    ensures report.formattedUptime == (if env.uptime.Threw? then None else Some(FormatUptimeText(env.uptime.value)))
  {
    var memory := CheckResult("memory", MemoryCheckStatus(env.memoryPercent));
    var checks := [memory];

    var uptime, formatted := UptimeCheck(env.uptime);
    checks := checks + [uptime];

    var azure := AzureChecks(env);
    checks := checks + azure;

    var responseTime := CheckResult("responseTime", ResponseTimeStatus(env.responseTimeMs));
    checks := checks + [responseTime];
    assert checks == [memory, uptime] + azure + [responseTime];

    var status := Healthy;
    var statuses := Statuses(checks);
    if Fail in statuses {
      status := Unhealthy;
    } else if Warn in statuses {
      status := Degraded;
    }
    report := HealthReport(status, checks, formatted);
    httpStatus := HttpStatus(status);
  }

  /** A memory measurement that throws makes the whole report unhealthy, answered with 503. */
  lemma MemoryThrowIsUnhealthy(env: Environment)
    requires env.memoryPercent.Threw?
    ensures Overall(Statuses(Checks(env))) == Unhealthy
    ensures HttpStatus(Overall(Statuses(Checks(env)))) == 503
  {
    assert Statuses(Checks(env))[0] == Fail;
  }

  /** `HEAD /api/healthz`: 503 when the heap is above 95% or cannot be measured, else 200. */
  function Head(memoryPercent: Attempt<nat>): (httpStatus: int)
    ensures httpStatus == 503 <==> memoryPercent.Threw? || memoryPercent.value > 95
    ensures httpStatus == 200 <==> memoryPercent.Returned? && memoryPercent.value <= 95
  {
    match memoryPercent
    case Threw(_) => 503
    case Returned(percent) => if percent > 95 then 503 else 200
  }

  // ---------------------------------------------------------------------------------------------
  // formatUptime

  /** Seconds split into whole days, hours, minutes and seconds. */
  datatype Duration = Duration(days: nat, hours: nat, minutes: nat, secs: nat)

  function Compose(d: Duration): nat {
    d.days * 86400 + d.hours * 3600 + d.minutes * 60 + d.secs
  }

  predicate Normal(d: Duration) {
    d.hours < 24 && d.minutes < 60 && d.secs < 60
  }

  lemma DecomposeArithmetic(seconds: nat)
    ensures seconds == (seconds / 86400) * 86400 + ((seconds % 86400) / 3600) * 3600
                       + ((seconds % 3600) / 60) * 60 + seconds % 60
    ensures (seconds % 86400) / 3600 < 24
  {
    var r := seconds % 86400;
    assert r % 3600 == seconds % 3600 by {
      assert seconds == (seconds / 86400 * 24) * 3600 + r;
    }
    var q := seconds % 3600;
    assert q % 60 == seconds % 60 by {
      assert seconds == (seconds / 3600 * 60) * 60 + q;
    }
  }

  /** The `Math.floor` and `%` steps of `formatUptime`: a decomposition that adds back up to the
      input, with hours, minutes and seconds below their carry limits. */
  function Decompose(seconds: nat): (d: Duration)
    ensures Compose(d) == seconds && Normal(d)
  {
    DecomposeArithmetic(seconds);
    Duration(seconds / 86400, (seconds % 86400) / 3600, (seconds % 3600) / 60, seconds % 60)
  }

  /** Euclidean division by a day, an hour and a minute: the quotient and remainder are unique. */
  lemma DivideByDay(n: int, q: int, r: int)
    requires 0 <= r < 86400 && n == q * 86400 + r
    ensures n / 86400 == q && n % 86400 == r
  {
  }

  lemma DivideByHour(n: int, q: int, r: int)
    requires 0 <= r < 3600 && n == q * 3600 + r
    ensures n / 3600 == q && n % 3600 == r
  {
  }

  lemma DivideByMinute(n: int, q: int, r: int)
    requires 0 <= r < 60 && n == q * 60 + r
    ensures n / 60 == q && n % 60 == r
  {
  }

  /** The decomposition is the only normal one: decomposing a composed normal duration gives it back. */
  lemma DecomposeCompose(d: Duration)
    requires Normal(d)
    ensures Decompose(Compose(d)) == d
  {
    var n := Compose(d);
    var ms := d.minutes * 60 + d.secs;
    var rest := d.hours * 3600 + ms;
    DivideByDay(n, d.days, rest);
    DivideByHour(rest, d.hours, ms);
    DivideByHour(n, d.days * 24 + d.hours, ms);
    DivideByMinute(ms, d.minutes, d.secs);
    DivideByMinute(n, d.days * 1440 + d.hours * 60 + d.minutes, d.secs);
  }

  datatype Unit = Day | Hour | Minute | Second

  function UnitSeconds(u: Unit): nat {
    match u
    case Day => 86400
    case Hour => 3600
    case Minute => 60
    case Second => 1
  }

  function UnitRank(u: Unit): nat {
    match u
    case Day => 0
    case Hour => 1
    case Minute => 2
    case Second => 3
  }

  function Suffix(u: Unit): char {
    match u
    case Day => 'd'
    case Hour => 'h'
    case Minute => 'm'
    case Second => 's'
  }

  function UnitOfSuffix(c: char): Option<Unit> {
    if c == 'd' then Some(Day)
    else if c == 'h' then Some(Hour)
    else if c == 'm' then Some(Minute)
    else if c == 's' then Some(Second)
    else None
  }

  function Component(d: Duration, u: Unit): nat {
    match u
    case Day => d.days
    case Hour => d.hours
    case Minute => d.minutes
    case Second => d.secs
  }

  /** One pushed element of `parts` before it is rendered, such as 3 and Hour for "3h". */
  datatype Part = Part(amount: nat, unit: Unit)

  ghost predicate Shows(parts: seq<Part>, u: Unit) {
    exists i :: 0 <= i < |parts| && parts[i].unit == u
  }

  /** The parts `formatUptime` emits: days, hours and minutes only when positive, seconds when
      positive or when nothing else was emitted, in that order, each with its own amount. */
  function UptimeParts(seconds: nat): (parts: seq<Part>)
    ensures 1 <= |parts| <= 4
    ensures forall i, j :: 0 <= i < j < |parts| ==> UnitRank(parts[i].unit) < UnitRank(parts[j].unit)
    ensures forall i :: 0 <= i < |parts| ==> parts[i].amount == Component(Decompose(seconds), parts[i].unit)
    ensures forall u :: u != Second ==> (Shows(parts, u) <==> Component(Decompose(seconds), u) > 0)
    ensures Shows(parts, Second)
        <==> (Decompose(seconds).secs > 0
              || Decompose(seconds).days + Decompose(seconds).hours + Decompose(seconds).minutes == 0)
  {
    var d := Decompose(seconds);
    ShownPartsInOrder(d);
    ShownPartsShow(d);
    ShownParts(d)
  }

  /** The day, hour and minute parts that are positive, in that order. */
  function NonZeroParts(d: Duration): seq<Part> {
    (if d.days > 0 then [Part(d.days, Day)] else [])
    + (if d.hours > 0 then [Part(d.hours, Hour)] else [])
    + (if d.minutes > 0 then [Part(d.minutes, Minute)] else [])
  }

  function ShownParts(d: Duration): seq<Part> {
    var dhm := NonZeroParts(d);
    dhm + (if d.secs > 0 || dhm == [] then [Part(d.secs, Second)] else [])
  }

  lemma ShownPartsInOrder(d: Duration)
    ensures 1 <= |ShownParts(d)| <= 4
    ensures forall i, j :: 0 <= i < j < |ShownParts(d)| ==>
      UnitRank(ShownParts(d)[i].unit) < UnitRank(ShownParts(d)[j].unit)
    ensures forall i :: 0 <= i < |ShownParts(d)| ==> ShownParts(d)[i].amount == Component(d, ShownParts(d)[i].unit)
  {
  }

  lemma ShowsAppend(a: seq<Part>, b: seq<Part>, u: Unit)
    ensures Shows(a + b, u) <==> Shows(a, u) || Shows(b, u)
  {
    if Shows(a + b, u) {
      var i :| 0 <= i < |a + b| && (a + b)[i].unit == u;
      if i >= |a| {
        assert b[i - |a|].unit == u;
      } else {
        assert a[i].unit == u;
      }
    }
    if Shows(a, u) {
      var i :| 0 <= i < |a| && a[i].unit == u;
      assert (a + b)[i].unit == u;
    }
    if Shows(b, u) {
      var i :| 0 <= i < |b| && b[i].unit == u;
      assert (a + b)[|a| + i].unit == u;
    }
  }

  /** A part that is pushed only when its amount is positive shows exactly then. */
  lemma ShowsOptional(c: bool, p: Part, u: Unit)
    ensures Shows(if c then [p] else [], u) <==> c && p.unit == u
  {
    if c && p.unit == u {
      assert [p][0].unit == u;
    }
  }

  lemma ShownPartsShow(d: Duration)
    ensures forall u :: u != Second ==> (Shows(ShownParts(d), u) <==> Component(d, u) > 0)
    ensures Shows(ShownParts(d), Second) <==> (d.secs > 0 || d.days + d.hours + d.minutes == 0)
  {
    var pd := if d.days > 0 then [Part(d.days, Day)] else [];
    var ph := if d.hours > 0 then [Part(d.hours, Hour)] else [];
    var pm := if d.minutes > 0 then [Part(d.minutes, Minute)] else [];
    var dhm := pd + ph + pm;
    var ps := if d.secs > 0 || dhm == [] then [Part(d.secs, Second)] else [];
    assert NonZeroParts(d) == dhm;
    assert ShownParts(d) == dhm + ps;
    assert dhm == [] <==> d.days + d.hours + d.minutes == 0;
    forall u: Unit
      ensures Shows(ShownParts(d), u) <==> (if u == Second then d.secs > 0 || dhm == [] else Component(d, u) > 0)
    {
      ShowsOptional(d.days > 0, Part(d.days, Day), u);
      ShowsOptional(d.hours > 0, Part(d.hours, Hour), u);
      ShowsOptional(d.minutes > 0, Part(d.minutes, Minute), u);
      ShowsOptional(d.secs > 0 || dhm == [], Part(d.secs, Second), u);
      ShowsAppend(pd, ph, u);
      ShowsAppend(pd + ph, pm, u);
      ShowsAppend(dhm, ps, u);
    }
  }

  /** The number of seconds a list of parts stands for. */
  function Total(parts: seq<Part>): nat {
    if parts == [] then 0 else parts[0].amount * UnitSeconds(parts[0].unit) + Total(parts[1..])
  }

  lemma {:induction false} TotalAppend(a: seq<Part>, b: seq<Part>)
    ensures Total(a + b) == Total(a) + Total(b)
  {
    if a != [] {
      assert (a + b)[1..] == a[1..] + b;
      assert (a + b)[0] == a[0];
      TotalAppend(a[1..], b);
    } else {
      assert a + b == b;
    }
  }

  /** A part that is left out only when it is zero contributes its full amount either way. */
  lemma TotalOfOptional(c: bool, p: Part)
    requires c || p.amount == 0
    ensures Total(if c then [p] else []) == p.amount * UnitSeconds(p.unit)
  {
  }

  /** The day, hour and minute parts add up to those components: the ones left out are zero. */
  lemma NonZeroPartsTotal(d: Duration)
    ensures Total(NonZeroParts(d)) == d.days * 86400 + d.hours * 3600 + d.minutes * 60
  {
    var pd := if d.days > 0 then [Part(d.days, Day)] else [];
    var ph := if d.hours > 0 then [Part(d.hours, Hour)] else [];
    var pm := if d.minutes > 0 then [Part(d.minutes, Minute)] else [];
    TotalOfOptional(d.days > 0, Part(d.days, Day));
    TotalOfOptional(d.hours > 0, Part(d.hours, Hour));
    TotalOfOptional(d.minutes > 0, Part(d.minutes, Minute));
    TotalAppend(pd, ph);
    TotalAppend(pd + ph, pm);
    assert NonZeroParts(d) == pd + ph + pm;
  }

  /** The parts shown for a duration add back up to it: the parts left out are the zero ones. */
  lemma ShownPartsTotal(d: Duration)
    ensures Total(ShownParts(d)) == Compose(d)
  {
    var dhm := NonZeroParts(d);
    var ps := if d.secs > 0 || dhm == [] then [Part(d.secs, Second)] else [];
    NonZeroPartsTotal(d);
    TotalOfOptional(d.secs > 0 || dhm == [], Part(d.secs, Second));
    assert Total(ps) == d.secs;
    TotalAppend(dhm, ps);
    assert ShownParts(d) == dhm + ps;
  }

  /** The emitted parts add back up to the uptime. */
  lemma UptimePartsTotal(seconds: nat)
    ensures Total(UptimeParts(seconds)) == seconds
  {
    ShownPartsTotal(Decompose(seconds));
  }

  /** One element of `parts`, for example `${hours}h`. */
  function RenderPart(p: Part): (s: string)
    ensures ' ' !in s
  {
    Decimal(p.amount) + [Suffix(p.unit)]
  }

  function RenderAll(parts: seq<Part>): (words: seq<string>)
    ensures |words| == |parts|
    ensures forall i :: 0 <= i < |parts| ==> words[i] == RenderPart(parts[i])
  {
    seq(|parts|, i requires 0 <= i < |parts| => RenderPart(parts[i]))
  }

  lemma RenderAllSnoc(parts: seq<Part>, p: Part)
    ensures RenderAll(parts + [p]) == RenderAll(parts) + [RenderPart(p)]
  {
  }

  /** The string `formatUptime` returns, as a function for use in contracts. */
  function FormatUptimeText(seconds: nat): string {
    Join(RenderAll(UptimeParts(seconds)), ' ')
  }

  /** `formatUptime(seconds)`: pushes the parts that apply, then joins them with single spaces. */
  method FormatUptime(seconds: nat) returns (text: string)
    ensures text == FormatUptimeText(seconds)
  {
    var days := seconds / 86400;
    var hours := (seconds % 86400) / 3600;
    var minutes := (seconds % 3600) / 60;
    var secs := seconds % 60;

    ghost var d := Duration(days, hours, minutes, secs);
    assert d == Decompose(seconds);

    var parts: seq<string> := [];
    ghost var pushed: seq<Part> := [];
    if days > 0 {
      RenderAllSnoc(pushed, Part(days, Day));
      parts, pushed := parts + [RenderPart(Part(days, Day))], pushed + [Part(days, Day)];
    }
    assert parts == RenderAll(pushed);
    if hours > 0 {
      RenderAllSnoc(pushed, Part(hours, Hour));
      parts, pushed := parts + [RenderPart(Part(hours, Hour))], pushed + [Part(hours, Hour)];
    }
    assert parts == RenderAll(pushed);
    if minutes > 0 {
      RenderAllSnoc(pushed, Part(minutes, Minute));
      parts, pushed := parts + [RenderPart(Part(minutes, Minute))], pushed + [Part(minutes, Minute)];
    }
    assert pushed == NonZeroParts(d) && parts == RenderAll(pushed);
    if secs > 0 || |parts| == 0 {
      RenderAllSnoc(pushed, Part(secs, Second));
      parts, pushed := parts + [RenderPart(Part(secs, Second))], pushed + [Part(secs, Second)];
    }
    assert pushed == ShownParts(d) && parts == RenderAll(pushed);
    text := Join(parts, ' ');
  }

  /** The formatted uptime is never empty. */
  lemma FormatUptimeNonEmpty(seconds: nat)
    ensures |FormatUptimeText(seconds)| >= 2
  {
    var words := RenderAll(UptimeParts(seconds));
    assert |words[0]| >= 2;
    JoinKeepsFirst(words, ' ');
  }

  lemma {:induction false} JoinKeepsFirst(words: seq<string>, sep: char)
    requires |words| >= 1
    ensures |Join(words, sep)| >= |words[0]|
  {
  }

  /** Under a minute only the seconds part is shown. */
  lemma FormatUnderAMinute(seconds: nat)
    requires seconds < 60
    ensures FormatUptimeText(seconds) == Decimal(seconds) + "s"
  {
    var p := Part(seconds, Second);
    assert Decompose(seconds) == Duration(0, 0, 0, seconds);
    assert ShownParts(Duration(0, 0, 0, seconds)) == [p];
    assert RenderAll([p]) == [Decimal(seconds) + "s"];
  }

  /** No uptime at all still shows the seconds part, as "0s". */
  lemma FormatZero()
    ensures FormatUptimeText(0) == "0s"
  {
    FormatUnderAMinute(0);
    RenderZeroSeconds();
  }

  lemma RenderZeroSeconds()
    ensures RenderPart(Part(0, Second)) == "0s"
  {
  }

  /** Reads one element such as "12m" back: a non-empty run of digits and a unit suffix. */
  function ParsePart(token: string): Option<Part> {
    if |token| >= 2 && (forall i :: 0 <= i < |token| - 1 ==> IsDigit(token[i]))
       && UnitOfSuffix(token[|token| - 1]).Some?
    then Some(Part(DigitsValue(token[..|token| - 1]), UnitOfSuffix(token[|token| - 1]).value))
    else None
  }

  function ParseParts(tokens: seq<string>): Option<seq<Part>> {
    if tokens == [] then Some([])
    else match (ParsePart(tokens[0]), ParseParts(tokens[1..])) {
      case (Some(p), Some(ps)) => Some([p] + ps)
      case _ => None
    }
  }

  /** The inverse reading of a formatted uptime: split on spaces, read each part, add up. */
  function ParseUptime(text: string): Option<nat> {
    match ParseParts(Split(text, ' '))
    case Some(parts) => Some(Total(parts))
    case None => None
  }

  lemma ParseRenderPart(p: Part)
    ensures ParsePart(RenderPart(p)) == Some(p)
  {
    var s := RenderPart(p);
    assert s[..|s| - 1] == Decimal(p.amount);
    DecimalRoundTrip(p.amount);
  }

  lemma {:induction false} ParseRenderAll(parts: seq<Part>)
    ensures ParseParts(RenderAll(parts)) == Some(parts)
  {
    if parts != [] {
      ParseRenderPart(parts[0]);
      ParseRenderAll(parts[1..]);
      assert RenderAll(parts)[1..] == RenderAll(parts[1..]);
      assert [parts[0]] + parts[1..] == parts;
    }
  }

  /** Round trip: reading the formatted uptime back gives the number of seconds formatted. */
  lemma ParseFormatUptime(seconds: nat)
    ensures ParseUptime(FormatUptimeText(seconds)) == Some(seconds)
  {
    var words := RenderAll(UptimeParts(seconds));
    SplitJoin(words, ' ');
    ParseRenderAll(UptimeParts(seconds));
    UptimePartsTotal(seconds);
  }
}
