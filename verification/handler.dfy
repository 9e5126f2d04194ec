/**
 * The message handler `_message_handler` (robot.py:156-217): normalise the inbound text,
 * pick the command, compose its reply (consulting at most one outside service), pass the
 * reply through the moderation gate, and address it back to the sender's channel.
 */
module Handler {
  import opened Wrappers
  import opened Text
  import opened Normalization
  import opened Router
  import opened Replies
  import opened Moderation

  /** An inbound event's message, as the messaging SDK delivers it. */
  datatype InboundMessage = InboundMessage(id: string, channelId: string, content: string)

  /** The outbound request: the reply text, addressed to a channel, answering a message id. */
  datatype SendRequest = SendRequest(channelId: string, replyTo: string, content: string)

  /** A call into the outside world that the handler makes while composing a reply. */
  datatype ExternalCall = MetricsProbe | WeatherLookup(city: string) | PingProbe(domain: string)

  /**
   * What the outside world answers during one handling cycle: the metrics snapshot
   * (None when collecting it failed), and what the weather service and the probes of
   * `ping_test` end with for each city or domain.
   */
  datatype World = World(metrics: Option<Metrics>,
                         weather: string -> WeatherOutcome,
                         ping: string -> PingOutcome)

  const WeatherUsageText: string := "格式不正确，请使用：天气 <城市名>"
  const PingUsageText: string := "格式不正确，请使用：ping <域名>"
  const FallbackText: string := "我不太明白你说的是什么..."

  /** The reply each command gets, before moderation. */
  function CommandReply(cmd: Command, world: World): (r: string)
    requires cmd.Canned? ==> cmd.key in AutoResponses
    ensures r != []
  {
    match cmd
    case Canned(key) => AutoResponses[key]
    case Status => StatusReport(world.metrics)
    case Weather(city) => WeatherReply(city, world.weather(city))
    case WeatherUsage => WeatherUsageText
    case Ping(domain) => PingReport(world.ping(domain))
    case PingUsage => PingUsageText
    case Unknown => FallbackText
  }

  /** The outside calls each command makes. */
  function CommandCalls(cmd: Command): seq<ExternalCall> {
    match cmd
    case Status => [MetricsProbe]
    case Weather(city) => [WeatherLookup(city)]
    case Ping(domain) => [PingProbe(domain)]
    case _ => []
  }

  /** The text the handler sends back for a raw message. */
  function Respond(raw: string, world: World): (r: string)
    ensures r != [] && !HasForbiddenUrl(r)
  {
    Moderate(CommandReply(Classify(Normalize(raw)), world))
  }

  /** The outside calls the handler makes for a raw message. */
  function CallsFor(raw: string): seq<ExternalCall> {
    CommandCalls(Classify(Normalize(raw)))
  }

  /** `_message_handler`: normalise, run the cascade, pass the gate, address the reply. */
  method HandleMessage(msg: InboundMessage, world: World) returns (send: SendRequest, calls: seq<ExternalCall>)
    ensures send.channelId == msg.channelId && send.replyTo == msg.id
    ensures send.content == Respond(msg.content, world)
    ensures calls == CallsFor(msg.content)
    ensures !HasForbiddenUrl(send.content)
  {
    var content := Strip(RemoveMentions(msg.content));
    if StartsWith(content, "/") {
      content := Strip(content[1..]);
    }
    var replyContent;
    replyContent, calls := RunCascade(content, world);
    replyContent := ApplyGate(replyContent);
    send := SendRequest(msg.channelId, msg.id, replyContent);
  }

  /** The branch cascade of robot.py:170-205, assigning the reply and making at most one outside call. */
  method RunCascade(content: string, world: World) returns (replyContent: string, calls: seq<ExternalCall>)
    ensures replyContent == CommandReply(Classify(content), world)
    ensures calls == CommandCalls(Classify(content))
  {
    ghost var cmd := Classify(content);
    calls := [];
    if content in AutoResponses {
      replyContent := AutoResponses[content];
    } else if content == StatusKeyword {
      calls := [MetricsProbe];
      replyContent := StatusReport(world.metrics);
    } else if StartsWith(content, WeatherKeyword) {
      var city := Strip(content[|WeatherKeyword|..]);
      PrefixArgument(content);
      if city != [] {
        calls := [WeatherLookup(city)];
        replyContent := WeatherReply(city, world.weather(city));
      } else {
        replyContent := WeatherUsageText;
      }
    } else if StartsWith(content, PingKeyword) {
      var domain := Strip(content[|PingKeyword|..]);
      PrefixArgument(content);
      if domain != [] {
        calls := [PingProbe(domain)];
        replyContent := ComposePingReply(world.ping(domain));
      } else {
        replyContent := PingUsageText;
      }
    } else {
      replyContent := FallbackText;
    }
  }

  /** A message that normalises to a key of the canned table gets exactly the mapped phrase, and no outside call. */
  lemma CannedReplyExact(raw: string, world: World)
    requires Normalize(raw) in AutoResponses
    ensures Respond(raw, world) == AutoResponses[Normalize(raw)]
    ensures CallsFor(raw) == []
  {
    CannedPhrasesAllowed();
  }

  /** None of the canned phrases holds a forbidden URL. */
  lemma CannedPhrasesAllowed()
    ensures forall key :: key in AutoResponses ==> !HasForbiddenUrl(AutoResponses[key])
  {
    forall key | key in AutoResponses
      ensures !HasForbiddenUrl(AutoResponses[key])
    {
      assert 'z' !in AutoResponses[key];
      WithoutZAllowed(AutoResponses[key]);
    }
  }

  /** The reply and the calls for a raw message are those of the command it classifies as. */
  lemma RespondByCommand(raw: string, world: World, cmd: Command)
    requires Classify(Normalize(raw)) == cmd
    ensures Respond(raw, world) == Moderate(CommandReply(cmd, world))
    ensures CallsFor(raw) == CommandCalls(cmd)
  {
  }

  /** The fixed replies (usage texts, fallback, status failure) all pass the moderation gate unchanged. */
  lemma FixedRepliesPass()
    ensures Moderate(WeatherUsageText) == WeatherUsageText
    ensures Moderate(PingUsageText) == PingUsageText
    ensures Moderate(FallbackText) == FallbackText
    ensures Moderate(StatusErrorText) == StatusErrorText
  {
    WithoutZAllowed(StatusErrorText);
    WithoutZAllowed(WeatherUsageText);
    WithoutZAllowed(PingUsageText);
    WithoutZAllowed(FallbackText);
  }

  /** A weather request with no city after the keyword gets the usage text and makes no outside call. */
  lemma EmptyCityUsage(raw: string, world: World)
    requires StartsWith(Normalize(raw), WeatherKeyword) && ArgumentAfter(Normalize(raw), WeatherKeyword) == []
    ensures Respond(raw, world) == WeatherUsageText && CallsFor(raw) == []
  {
    PrefixArgument(Normalize(raw));
    RespondByCommand(raw, world, WeatherUsage);
    FixedRepliesPass();
  }

  /** A ping request with no domain after the keyword gets the usage text and makes no outside call. */
  lemma EmptyDomainUsage(raw: string, world: World)
    requires StartsWith(Normalize(raw), PingKeyword) && ArgumentAfter(Normalize(raw), PingKeyword) == []
    ensures Respond(raw, world) == PingUsageText && CallsFor(raw) == []
  {
    PrefixArgument(Normalize(raw));
    RespondByCommand(raw, world, PingUsage);
    FixedRepliesPass();
  }

  /**
   * The status command with a failed metrics snapshot gets the fixed failure text, after
   * reading the metrics once.
   */
  lemma StatusFailure(raw: string, world: World)
    requires Normalize(raw) == StatusKeyword && world.metrics.None?
    ensures Respond(raw, world) == StatusErrorText
    ensures CallsFor(raw) == [MetricsProbe]
  {
    RespondByCommand(raw, world, Status);
    assert CommandReply(Status, world) == StatusErrorText;
    FixedRepliesPass();
  }

  /** Text that matches no rule gets the fixed fallback. */
  lemma UnmatchedFallback(raw: string, world: World)
    requires var c := Normalize(raw);
      c !in AutoResponses && c != StatusKeyword
      && !StartsWith(c, WeatherKeyword) && !StartsWith(c, PingKeyword)
    ensures Respond(raw, world) == FallbackText
    ensures CallsFor(raw) == []
  {
    RespondByCommand(raw, world, Unknown);
    FixedRepliesPass();
  }

  /** Each command makes at most one outside call, and that call carries the command's own argument. */
  lemma CommandCallsShape(cmd: Command)
    ensures |CommandCalls(cmd)| <= 1
    ensures forall call :: call in CommandCalls(cmd) ==>
      (call.WeatherLookup? ==> cmd == Weather(call.city)) && (call.PingProbe? ==> cmd == Ping(call.domain))
    ensures MetricsProbe in CommandCalls(cmd) <==> cmd == Status
  {
  }

  /**
   * At most one outside call is made; it is the one the command needs, and a city or
   * domain handed to a service is the non-empty, stripped text after its keyword.
   */
  lemma CallsCarryArguments(raw: string)
    ensures |CallsFor(raw)| <= 1
    ensures forall call :: call in CallsFor(raw) && call.WeatherLookup? ==>
      StartsWith(Normalize(raw), WeatherKeyword) && call.city == ArgumentAfter(Normalize(raw), WeatherKeyword)
      && call.city != []
    ensures forall call :: call in CallsFor(raw) && call.PingProbe? ==>
      StartsWith(Normalize(raw), PingKeyword) && call.domain == ArgumentAfter(Normalize(raw), PingKeyword)
      && call.domain != []
    ensures MetricsProbe in CallsFor(raw) <==> Normalize(raw) == StatusKeyword
  {
    var c := Normalize(raw);
    var cmd := Classify(c);
    assert CallsFor(raw) == CommandCalls(cmd);
    CommandCallsShape(cmd);
    PrefixArgument(c);
  }

  /** Two worlds agree on what an outside call returns. */
  predicate Agree(call: ExternalCall, w1: World, w2: World) {
    match call
    case MetricsProbe => w1.metrics == w2.metrics
    case WeatherLookup(city) => w1.weather(city) == w2.weather(city)
    case PingProbe(domain) => w1.ping(domain) == w2.ping(domain)
  }

  /** A command's reply depends only on what the outside world answers to that command's own calls. */
  lemma CommandReplyDependsOnOwnCalls(cmd: Command, w1: World, w2: World)
    requires cmd.Canned? ==> cmd.key in AutoResponses
    requires forall call :: call in CommandCalls(cmd) ==> Agree(call, w1, w2)
    ensures CommandReply(cmd, w1) == CommandReply(cmd, w2)
  {
    match cmd
    case Status => assert Agree(MetricsProbe, w1, w2);
    case Weather(city) => assert Agree(WeatherLookup(city), w1, w2);
    case Ping(domain) => assert Agree(PingProbe(domain), w1, w2);
    case _ =>
  }

  /**
   * The reply depends on the message and on the answers of the calls it makes, and on
   * nothing else of the outside world.
   */
  lemma ReplyDependsOnOwnCalls(raw: string, w1: World, w2: World)
    requires forall call :: call in CallsFor(raw) ==> Agree(call, w1, w2)
    ensures Respond(raw, w1) == Respond(raw, w2)
  {
    var cmd := Classify(Normalize(raw));
    RespondByCommand(raw, w1, cmd);
    RespondByCommand(raw, w2, cmd);
    CommandReplyDependsOnOwnCalls(cmd, w1, w2);
  }
}
