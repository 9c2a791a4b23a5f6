/** The container healthcheck command: read the URL from the command line,
    request it, and report on the two output streams with an exit code.
    The request itself is not modelled: what it came to (a response or one
    of the three exceptions the command catches) is an input. */
module Healthcheck {
  import opened Results
  import opened Strings
  import opened Decimal

  /** What opening the URL came to. A response carries its `status`
      attribute (absent or `None` is `None`) and what its `getcode()`
      returns; the others are the exceptions the command handles, each with
      the text it prints for them. */
  datatype Probe =
    | Response(status: Option<int>, getcode: Option<int>)
    | HttpError(httpCode: int)
    | UrlError(reason: string)
    | BadUrl(message: string)

  /** The exit code of the process and what it wrote to each stream. */
  datatype Exit = Exit(code: int, stdout: string, stderr: string)

  /** What the command concluded, before it is printed. */
  datatype Verdict = Healthy(statusCode: int) | Unhealthy(statusCode: int) | Failed(reason: string)

  const NoUrlReason: string := "No healthcheck URL provided as argument."
  const HealthyPrefix: string := "Healthy: "
  const UnhealthyPrefix: string := "Unhealthy: "
  const ErrorPrefix: string := "Healthcheck error: "

  /** `argv[1]` exists and is not the empty string. */
  predicate HasUrl(argv: seq<string>) {
    |argv| > 1 && argv[1] != []
  }

  /** `status or getcode()`: Python's `or` keeps the status only when it
      is truthy, that is present and not zero. */
  function EffectiveStatus(status: Option<int>, getcode: Option<int>): Option<int> {
    if status.Some? && status.value != 0 then status else getcode
  }

  /** A response from which a status code can be taken. When there is none
      the comparison with 200 raises a `TypeError` nobody catches, which
      this model does not follow. */
  predicate Answers(p: Probe) {
    p.Response? ==> EffectiveStatus(p.status, p.getcode).Some?
  }

  predicate IsSuccess(code: int) {
    200 <= code < 300
  }

  /** The decision the command takes for its arguments and what the
      request came to. */
  function Classify(argv: seq<string>, probe: Probe): (v: Verdict)
    requires HasUrl(argv) ==> Answers(probe)
    ensures !HasUrl(argv) ==> v == Failed(NoUrlReason)
    ensures v.Healthy? ==> IsSuccess(v.statusCode)
    ensures v.Healthy? <==> HasUrl(argv) && probe.Response? && IsSuccess(EffectiveStatus(probe.status, probe.getcode).value)
    ensures v.Failed? <==> !HasUrl(argv) || probe.UrlError? || probe.BadUrl?
    ensures HasUrl(argv) && probe.Response? && probe.status.Some? && probe.status.value != 0 ==>
      !v.Failed? && v.statusCode == probe.status.value
    ensures HasUrl(argv) && probe.Response? && (probe.status.None? || probe.status.value == 0) ==>
      !v.Failed? && v.statusCode == probe.getcode.value
    ensures HasUrl(argv) && probe.HttpError? ==> v == Unhealthy(probe.httpCode)
    ensures HasUrl(argv) && probe.UrlError? ==> v == Failed(probe.reason)
    ensures HasUrl(argv) && probe.BadUrl? ==> v == Failed(probe.message)
  {
    if !HasUrl(argv) then Failed(NoUrlReason)
    else
      match probe
      case Response(status, getcode) =>
        var code := EffectiveStatus(status, getcode).value;
        if IsSuccess(code) then Healthy(code) else Unhealthy(code)
      case HttpError(code) => Unhealthy(code)
      case UrlError(reason) => Failed(reason)
      case BadUrl(message) => Failed(message)
  }

  /** `print` ends its line. */
  function Line(s: string): string {
    s + "\n"
  }

  /** The exit code and the printed line of a verdict: success goes to
      stdout with 0, everything else to stderr with 1. */
  function Report(v: Verdict): (r: Exit)
    ensures r.code == 0 || r.code == 1
    ensures r.code == 0 <==> v.Healthy?
    ensures r.code == 0 ==> r.stdout != [] && r.stderr == []
    ensures r.code == 1 ==> r.stdout == [] && r.stderr != []
  {
    match v
    case Healthy(code) => Exit(0, Line(HealthyPrefix + IntToString(code)), [])
    case Unhealthy(code) => Exit(1, [], Line(UnhealthyPrefix + IntToString(code)))
    case Failed(reason) => Exit(1, [], Line(ErrorPrefix + reason))
  }

  /** `healthcheck()`: the exit and the two streams for the given
      `sys.argv` and request outcome. */
  function Healthcheck(argv: seq<string>, probe: Probe): (r: Exit)
    requires HasUrl(argv) ==> Answers(probe)
    ensures r.code == 0 || r.code == 1
    ensures r.code == 0 <==> HasUrl(argv) && probe.Response? && IsSuccess(EffectiveStatus(probe.status, probe.getcode).value)
    ensures r.stdout != [] <==> r.code == 0
    ensures r.stderr != [] <==> r.code == 1
    ensures !HasUrl(argv) ==> r == Exit(1, [], Line(ErrorPrefix + NoUrlReason))
    ensures ReadReport(r) == Some(Classify(argv, probe))
  {
    var v := Classify(argv, probe);
    ReadReportOf(v);
    Report(v)
  }

  /** The text of a printed line without its line break. */
  function LineText(s: string): Option<string> {
    if |s| > 0 && s[|s| - 1] == '\n' then Some(s[..|s| - 1]) else None
  }

  /** Recovers the verdict from the exit code and the streams. */
  function ReadReport(e: Exit): Option<Verdict> {
    if e.code == 0 && e.stderr == [] then
      match LineText(e.stdout)
      case None => None
      case Some(t) =>
        match AfterLiteral(t, HealthyPrefix)
        case None => None
        case Some(n) =>
          match ReadInt(n)
          case None => None
          case Some(code) => Some(Healthy(code))
    else if e.code == 1 && e.stdout == [] then
      match LineText(e.stderr)
      case None => None
      case Some(t) =>
        match AfterLiteral(t, UnhealthyPrefix)
        case Some(n) =>
          (match ReadInt(n)
           case None => None
           case Some(code) => Some(Unhealthy(code)))
        case None =>
          match AfterLiteral(t, ErrorPrefix)
          case None => None
          case Some(reason) => Some(Failed(reason))
    else None
  }

  lemma LineTextOf(s: string)
    ensures LineText(Line(s)) == Some(s)
  {
    assert Line(s)[..|s|] == s;
  }

  /** A verdict can be read back from what the command printed and how it
      exited, so no two verdicts are reported alike. */
  lemma ReadReportOf(v: Verdict)
    ensures ReadReport(Report(v)) == Some(v)
  {
    match v
    case Healthy(code) =>
      LineTextOf(HealthyPrefix + IntToString(code));
      AfterLiteralOf(HealthyPrefix, IntToString(code));
      ReadIntOfIntToString(code);
    case Unhealthy(code) =>
      LineTextOf(UnhealthyPrefix + IntToString(code));
      AfterLiteralOf(UnhealthyPrefix, IntToString(code));
      ReadIntOfIntToString(code);
    case Failed(reason) =>
      var t := ErrorPrefix + reason;
      LineTextOf(t);
      assert t[0] == 'H' != UnhealthyPrefix[0];
      AfterLiteralOf(ErrorPrefix, reason);
  }

  /** Different verdicts give different exits. */
  lemma ReportInjective(v: Verdict, w: Verdict)
    requires Report(v) == Report(w)
    ensures v == w
  {
    ReadReportOf(v);
    ReadReportOf(w);
  }

  /** Without a URL argument the command fails whatever the network
      would have answered. */
  lemma NoArgumentExample(argv: seq<string>, probe: Probe)
    requires argv == ["healthcheck"]
    ensures Healthcheck(argv, probe) == Exit(1, "", ErrorPrefix + NoUrlReason + "\n")
  {
  }

  /** A response whose `status` is 200 is healthy. */
  lemma StatusAttributeExample(argv: seq<string>, s: int)
    requires HasUrl(argv) && s == 200
    ensures Healthcheck(argv, Response(Some(s), None)) == Exit(0, HealthyPrefix + "200\n", "")
  {
    ThreeDigits(s, 2, 0, 0);
  }

  /** Without a `status`, `getcode()` gives the code. */
  lemma GetcodeExample(argv: seq<string>, c: int)
    requires HasUrl(argv) && c == 204
    ensures Healthcheck(argv, Response(None, Some(c))) == Exit(0, HealthyPrefix + "204\n", "")
  {
    ThreeDigits(c, 2, 0, 4);
  }

  /** A 503 response is unhealthy. */
  lemma ServerErrorExample(argv: seq<string>, s: int)
    requires HasUrl(argv) && s == 503
    ensures Healthcheck(argv, Response(Some(s), None)) == Exit(1, "", UnhealthyPrefix + "503\n")
  {
    ThreeDigits(s, 5, 0, 3);
  }

  /** An `HTTPError` reports its code as unhealthy. */
  lemma HttpErrorExample(argv: seq<string>, c: int)
    requires HasUrl(argv) && c == 404
    ensures Healthcheck(argv, HttpError(c)) == Exit(1, "", UnhealthyPrefix + "404\n")
  {
    ThreeDigits(c, 4, 0, 4);
  }

  /** A `URLError` and a `ValueError` print their text after the error
      prefix. */
  lemma ErrorTextExample(argv: seq<string>, probe: Probe, text: string)
    requires HasUrl(argv)
    requires (probe == UrlError(text) && text == "Connection refused")
      || (probe == BadUrl(text) && text == "unknown url type: htp")
    ensures Healthcheck(argv, probe) == Exit(1, "", ErrorPrefix + text + "\n")
  {
  }
}
