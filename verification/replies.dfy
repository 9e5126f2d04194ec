/**
 * Reply composition for the three commands that consult the outside world. What the
 * outside world answered (the weather service's JSON, the latency probe and the two HTTP
 * requests, the host metrics) comes in as a value; the network and OS calls themselves
 * are not part of this model.
 */
module Replies {
  import opened Wrappers
  import opened Text

  // ---------------------------------------------------------------- weather (robot.py:55-81)

  /** What the weather lookup of `get_weather` ended with. */
  datatype WeatherOutcome =
      /** A JSON body was read: its `status` field (absent: None) and, from `lives[0]`,
          the `weather` and `temperature` fields. */
    | Answered(status: Option<string>, weather: string, temperature: string)
      /** `aiohttp.ClientError`, including an HTTP error status raised by `raise_for_status`. */
    | NetworkError
      /** Any other exception (a missing `lives` entry, say), with its text `str(e)`. */
    | OtherError(message: string)

  const WeatherSuccessStatus: string := "1"
  const WeatherFailedText: string := "天气信息获取失败，请检查城市名称或API配置。"
  const WeatherNetworkErrorText: string := "获取天气信息时发生网络错误，请稍后再试。"
  const WeatherErrorPrefix: string := "天气信息获取出现错误："
  const TemperatureUnit: string := " °C"

  /** The reply `get_weather(city)` returns for a given outcome of its request. */
  function WeatherReply(city: string, outcome: WeatherOutcome): (r: string)
    ensures outcome.Answered? ==> (EndsWith(r, TemperatureUnit) <==> outcome.status == Some(WeatherSuccessStatus))
    ensures outcome.Answered? && outcome.status == Some(WeatherSuccessStatus) ==>
      StartsWith(r, city + "的天气是：" + outcome.weather + "，温度为 ")
      && EndsWith(r, outcome.temperature + TemperatureUnit)
      && |r| == |city + "的天气是：" + outcome.weather + "，温度为 "| + |outcome.temperature + TemperatureUnit|
    ensures outcome.Answered? && outcome.status != Some(WeatherSuccessStatus) ==> r == WeatherFailedText
    ensures outcome.NetworkError? ==> r == WeatherNetworkErrorText
    ensures outcome.OtherError? ==> r == WeatherErrorPrefix + outcome.message
    ensures r != []
  {
    match outcome
    case Answered(status, weather, temperature) =>
      if status == Some(WeatherSuccessStatus) then
        var head := city + "的天气是：" + weather + "，温度为 ";
        var r := head + temperature + TemperatureUnit;
        assert r[..|head|] == head;
        assert r[|head|..] == temperature + TemperatureUnit;
        r
      else
        assert WeatherFailedText[|WeatherFailedText| - 1] == '。';
        WeatherFailedText
    case NetworkError => WeatherNetworkErrorText
    case OtherError(message) => WeatherErrorPrefix + message
  }

  // ---------------------------------------------------------------- ping (robot.py:83-123)

  /** What the probes of `ping_test` ended with. */
  datatype PingOutcome =
      /** `ping(domain)` returned: the latency in milliseconds as already formatted with two
          decimals (None: no answer), then the status codes of the `http://` and `https://`
          requests (None: that request raised). */
    | Probed(latency: Option<string>, http: Option<int>, https: Option<int>)
      /** The probe itself raised. */
    | ProbeError

  const UnreachableText: string := "无法访问。"
  const PingErrorText: string := "进行 ping 测试时发生错误，请检查域名是否正确。"

  function LatencyLine(ms: string): string {
    "可以访问，响应时间：" + ms + " ms"
  }

  /** The line for the `http://` request: its status code, or the failure notice. */
  function HttpLine(code: Option<int>): string {
    match code
    case Some(c) => "HTTP状态码：" + IntToDecimal(c)
    case None => "HTTP请求失败"
  }

  /** The line for the `https://` request: its status code, or the failure notice. */
  function HttpsLine(code: Option<int>): string {
    match code
    case Some(c) => "HTTPS状态码：" + IntToDecimal(c)
    case None => "HTTPS请求失败"
  }

  /** The three lines of a reachable domain's report, in order. */
  function PingLines(ms: string, http: Option<int>, https: Option<int>): seq<string> {
    [LatencyLine(ms), HttpLine(http), HttpsLine(https)]
  }

  /** The reply `ping_test` gives: an unreachable domain gets a fixed text, a reachable one its three lines. */
  function PingReport(outcome: PingOutcome): (r: string)
    ensures outcome.ProbeError? ==> r == PingErrorText
    ensures outcome.Probed? && outcome.latency.None? ==> r == UnreachableText
    ensures outcome.Probed? && outcome.latency.Some? ==>
      Trimmed(r) && StartsWith(r, LatencyLine(outcome.latency.value) + "\n")
    ensures r != []
  {
    match outcome
    case ProbeError => PingErrorText
    case Probed(None, _, _) => UnreachableText
    case Probed(Some(ms), http, https) =>
      PingReportTrimmed(ms, http, https);
      PingReportOpens(ms, http, https);
      JoinLines(PingLines(ms, http, https))
  }

  /**
   * `ping_test`'s composition of its reply: the report is built by appending one
   * newline-terminated line after another, and the result is stripped.
   */
  method ComposePingReply(outcome: PingOutcome) returns (reply: string)
    ensures reply == PingReport(outcome)
    ensures outcome.Probed? && outcome.latency.None? ==> reply == UnreachableText
    ensures outcome.Probed? && outcome.latency.Some? ==>
      Trimmed(reply) && StartsWith(reply, LatencyLine(outcome.latency.value) + "\n")
  {
    match outcome {
      case ProbeError =>
        reply := PingErrorText;
      case Probed(latency, http, https) =>
        if latency.Some? {
          var statusMessage := LatencyLine(latency.value) + "\n";
          var httpPiece, httpsPiece;
          if http.Some? {
            httpPiece := "HTTP状态码：" + IntToDecimal(http.value) + "\n";
          } else {
            httpPiece := "HTTP请求失败\n";
          }
          assert httpPiece == HttpLine(http) + "\n";
          statusMessage := statusMessage + httpPiece;
          if https.Some? {
            httpsPiece := "HTTPS状态码：" + IntToDecimal(https.value) + "\n";
          } else {
            httpsPiece := "HTTPS请求失败\n";
          }
          assert httpsPiece == HttpsLine(https) + "\n";
          statusMessage := statusMessage + httpsPiece;
          reply := Strip(statusMessage);
          StripPingReport(latency.value, http, https);
        } else {
          reply := UnreachableText;
        }
    }
  }

  /**
   * Stripping the newline-terminated report leaves exactly the joined lines, which
   * neither start nor end with whitespace and open with the latency line.
   */
  lemma StripPingReport(ms: string, http: Option<int>, https: Option<int>)
    ensures Strip((LatencyLine(ms) + "\n") + (HttpLine(http) + "\n") + (HttpsLine(https) + "\n"))
         == JoinLines(PingLines(ms, http, https))
  {
    var lines := PingLines(ms, http, https);
    var text := JoinLines(lines);
    JoinThree(lines);
    PingReportTrimmed(ms, http, https);
    assert (LatencyLine(ms) + "\n") + (HttpLine(http) + "\n") + (HttpsLine(https) + "\n") == text + "\n";
    StripTrailingNewline(text);
  }

  /** The joined report opens with the latency line and its newline. */
  lemma PingReportOpens(ms: string, http: Option<int>, https: Option<int>)
    ensures StartsWith(JoinLines(PingLines(ms, http, https)), LatencyLine(ms) + "\n")
  {
    var lines := PingLines(ms, http, https);
    var text := JoinLines(lines);
    JoinThree(lines);
    assert text[..|LatencyLine(ms) + "\n"|] == LatencyLine(ms) + "\n";
  }

  /** `"\n".join` of three lines puts a newline between each neighbouring pair. */
  lemma JoinThree(lines: seq<string>)
    requires |lines| == 3
    ensures JoinLines(lines) == lines[0] + "\n" + lines[1] + "\n" + lines[2]
  {
    assert JoinLines(lines[1..]) == lines[1] + "\n" + JoinLines(lines[2..]);
  }

  /** The report never starts or ends with whitespace, whatever the latency text holds. */
  lemma PingReportTrimmed(ms: string, http: Option<int>, https: Option<int>)
    ensures Trimmed(JoinLines(PingLines(ms, http, https)))
  {
    var lines := PingLines(ms, http, https);
    JoinThree(lines);
    var first := LatencyLine(ms);
    var last := HttpsLine(https);
    var text := first + "\n" + HttpLine(http) + "\n" + last;
    assert first[0] == '可';
    assert text[0] == first[0];
    HttpsLineEnd(https);
    assert text[|text| - 1] == last[|last| - 1];
  }

  /** The HTTPS line ends with a digit or with `败`, never with whitespace. */
  lemma HttpsLineEnd(https: Option<int>)
    ensures HttpsLine(https) != [] && !IsSpace(HttpsLine(https)[|HttpsLine(https)| - 1])
  {
    var last := HttpsLine(https);
    if https.Some? {
      var digits := IntToDecimal(https.value);
      assert last == "HTTPS状态码：" + digits;
      assert last[|last| - 1] == digits[|digits| - 1];
    } else {
      assert last[|last| - 1] == '败';
    }
  }

  /** None of the three lines holds a newline, when the latency text holds none. */
  lemma PingLinesSingle(ms: string, http: Option<int>, https: Option<int>)
    requires '\n' !in ms
    ensures forall k :: 0 <= k < |PingLines(ms, http, https)| ==> '\n' !in PingLines(ms, http, https)[k]
  {
    assert '\n' !in LatencyLine(ms) by {
      assert '\n' !in "可以访问，响应时间：" && '\n' !in " ms";
    }
    assert '\n' !in HttpLine(http) by {
      assert '\n' !in "HTTP状态码：" && '\n' !in "HTTP请求失败";
    }
    assert '\n' !in HttpsLine(https) by {
      assert '\n' !in "HTTPS状态码：" && '\n' !in "HTTPS请求失败";
    }
  }

  /**
   * A reachable domain's reply splits into the latency line, then the HTTP line, then the
   * HTTPS line; each status line depends on its own request only.
   */
  lemma PingReportLines(ms: string, http: Option<int>, https: Option<int>)
    requires '\n' !in ms
    ensures SplitLines(PingReport(Probed(Some(ms), http, https))) == PingLines(ms, http, https)
  {
    PingLinesSingle(ms, http, https);
    SplitJoin(PingLines(ms, http, https));
  }

  // ---------------------------------------------------------------- status (robot.py:173-186)

  /**
   * A successful metrics snapshot, each figure as the text the reply prints for it:
   * CPU, memory and disk percentages, and the uptime as days, hours, minutes, seconds.
   */
  datatype Metrics = Metrics(cpu: string, memory: string, disk: string,
                             days: string, hours: string, minutes: string, seconds: string)

  const StatusErrorText: string := "获取系统状态时发生错误。"

  const RunStateLine: string := "当前状态：运行中"

  function CpuLine(m: Metrics): string { "CPU占用：" + m.cpu + "%" }
  function MemoryLine(m: Metrics): string { "内存占用：" + m.memory + "%" }
  function DiskLine(m: Metrics): string { "存储占用：" + m.disk + "%" }
  function UptimeLine(m: Metrics): string {
    "总运行时间：" + m.days + "天 " + m.hours + "小时 " + m.minutes + "分钟 " + m.seconds + "秒"
  }

  /** The reply of the status command; a failed snapshot is None. */
  function StatusReport(snapshot: Option<Metrics>): (r: string)
    ensures snapshot.None? ==> r == StatusErrorText
    ensures snapshot.Some? ==>
      StartsWith(r, RunStateLine + "\n" + CpuLine(snapshot.value) + "\n")
      && EndsWith(r, "\n" + UptimeLine(snapshot.value))
    ensures r != []
  {
    match snapshot
    case None => StatusErrorText
    case Some(m) =>
      var head := RunStateLine + "\n" + CpuLine(m) + "\n";
      var r := head + MemoryLine(m) + "\n" + DiskLine(m) + "\n" + UptimeLine(m);
      assert r[..|head|] == head;
      assert r[|r| - |"\n" + UptimeLine(m)|..] == "\n" + UptimeLine(m);
      r
  }

  /** The labelled lines of a status report, in the order the reply lists them. */
  function StatusLines(m: Metrics): seq<string> {
    [RunStateLine, CpuLine(m), MemoryLine(m), DiskLine(m), UptimeLine(m)]
  }

  predicate SingleLine(m: Metrics) {
    '\n' !in m.cpu && '\n' !in m.memory && '\n' !in m.disk && '\n' !in m.days
    && '\n' !in m.hours && '\n' !in m.minutes && '\n' !in m.seconds
  }

  /** A successful snapshot's reply is run state, CPU, memory, disk and uptime, one per line, in that order. */
  lemma StatusReportLines(m: Metrics)
    requires SingleLine(m)
    ensures SplitLines(StatusReport(Some(m))) == StatusLines(m)
  {
    var lines := StatusLines(m);
    JoinFive(lines);
    StatusLinesSingle(m);
    SplitJoin(lines);
  }

  /** `"\n".join` of five lines puts a newline between each neighbouring pair. */
  lemma JoinFive(lines: seq<string>)
    requires |lines| == 5
    ensures JoinLines(lines) == lines[0] + "\n" + lines[1] + "\n" + lines[2] + "\n" + lines[3] + "\n" + lines[4]
  {
    var tail := lines[2..];
    JoinThree(tail);
    assert JoinLines(lines[1..]) == lines[1] + "\n" + JoinLines(tail);
  }

  /** No line of a status report holds a newline, when no figure does. */
  lemma StatusLinesSingle(m: Metrics)
    requires SingleLine(m)
    ensures forall k :: 0 <= k < |StatusLines(m)| ==> '\n' !in StatusLines(m)[k]
  {
    assert '\n' !in RunStateLine;
    assert '\n' !in CpuLine(m) by {
      assert '\n' !in "CPU占用：" && '\n' !in "%";
    }
    assert '\n' !in MemoryLine(m) by {
      assert '\n' !in "内存占用：";
    }
    assert '\n' !in DiskLine(m) by {
      assert '\n' !in "存储占用：";
    }
    assert '\n' !in UptimeLine(m) by {
      assert '\n' !in "总运行时间：" && '\n' !in "天 " && '\n' !in "小时 " && '\n' !in "分钟 " && '\n' !in "秒";
    }
  }
}
