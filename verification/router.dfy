/**
 * The command cascade of the message handler (robot.py:170-205): the canned-phrase
 * table, the exact status keyword, the `天气` and `ping` prefixes, then the fallback.
 * The first rule that matches decides the command.
 */
module Router {
  import opened Text

  /** The canned-phrase table of robot.py:49-53. */
  const AutoResponses: map<string, string> := map[
    "你好" := "您好，有什么可以帮您的？",
    "帮我" := "请问需要什么帮助呢？",
    "再见" := "再见，祝您有美好的一天！"
  ]

  const StatusKeyword: string := "运行状态"
  const WeatherKeyword: string := "天气"
  const PingKeyword: string := "ping"

  /** The command a normalised message stands for. */
  datatype Command =
    | Canned(key: string)        // a key of AutoResponses
    | Status                     // exactly the status keyword
    | Weather(city: string)      // the weather prefix with a non-empty city
    | WeatherUsage               // the weather prefix with nothing after it
    | Ping(domain: string)       // the ping prefix with a non-empty domain
    | PingUsage                  // the ping prefix with nothing after it
    | Unknown                    // anything else

  /** The text after a keyword prefix, stripped: `content[len(keyword):].strip()`. */
  function ArgumentAfter(content: string, keyword: string): (arg: string)
    requires StartsWith(content, keyword)
    ensures Trimmed(arg) && |arg| <= |content| - |keyword|
  {
    Strip(content[|keyword|..])
  }

  /** The cascade of robot.py:170-205, as one total function. */
  function Classify(content: string): (cmd: Command)
    ensures cmd.Canned? <==> content in AutoResponses
    ensures cmd.Canned? ==> cmd.key == content
    ensures cmd.Status? <==> content == StatusKeyword
    ensures (cmd.Weather? || cmd.WeatherUsage?) <==> StartsWith(content, WeatherKeyword)
    ensures (cmd.Ping? || cmd.PingUsage?) <==> StartsWith(content, PingKeyword)
    ensures cmd.Weather? ==> cmd.city != [] && Trimmed(cmd.city)
    ensures cmd.Ping? ==> cmd.domain != [] && Trimmed(cmd.domain)
  {
    KeywordsDisjoint(content);
    if content in AutoResponses then Canned(content)
    else if content == StatusKeyword then Status
    else if StartsWith(content, WeatherKeyword) then
      var city := ArgumentAfter(content, WeatherKeyword);
      if city != [] then Weather(city) else WeatherUsage
    else if StartsWith(content, PingKeyword) then
      var domain := ArgumentAfter(content, PingKeyword);
      if domain != [] then Ping(domain) else PingUsage
    else Unknown
  }

  /**
   * No text satisfies two of the rule conditions at once, so the order of the cascade
   * never has to break a tie between two rules.
   */
  lemma KeywordsDisjoint(content: string)
    ensures content in AutoResponses ==> content != StatusKeyword
    ensures content in AutoResponses ==> !StartsWith(content, WeatherKeyword)
    ensures content in AutoResponses ==> !StartsWith(content, PingKeyword)
    ensures content == StatusKeyword ==> !StartsWith(content, WeatherKeyword)
    ensures content == StatusKeyword ==> !StartsWith(content, PingKeyword)
    ensures StartsWith(content, WeatherKeyword) ==> !StartsWith(content, PingKeyword)
  {
    if StartsWith(content, WeatherKeyword) {
      assert content[0] == '天';
    }
    if StartsWith(content, PingKeyword) {
      assert content[0] == 'p';
    }
  }

  /** The rules of the cascade, in order; the last one matches everything. */
  const RuleCount: nat := 5

  predicate RuleMatches(rule: nat, content: string) {
    match rule
    case 0 => content in AutoResponses
    case 1 => content == StatusKeyword
    case 2 => StartsWith(content, WeatherKeyword)
    case 3 => StartsWith(content, PingKeyword)
    case _ => true
  }

  /** The rule that produced a command. */
  function RuleOf(cmd: Command): (rule: nat)
    ensures rule < RuleCount
  {
    match cmd
    case Canned(_) => 0
    case Status => 1
    case Weather(_) => 2
    case WeatherUsage => 2
    case Ping(_) => 3
    case PingUsage => 3
    case Unknown => 4
  }

  /** The command comes from the first rule whose condition the text meets. */
  lemma ClassifyFirstMatch(content: string)
    ensures RuleMatches(RuleOf(Classify(content)), content)
    ensures forall rule: nat :: rule < RuleOf(Classify(content)) ==> !RuleMatches(rule, content)
  {
    var cmd := Classify(content);
    forall rule: nat | rule < RuleOf(cmd)
      ensures !RuleMatches(rule, content)
    {
    }
  }

  /**
   * A prefixed command's argument is what follows the keyword, stripped; an empty
   * argument gives the usage command.
   */
  lemma PrefixArgument(content: string)
    ensures StartsWith(content, WeatherKeyword) ==>
      Classify(content) == (if ArgumentAfter(content, WeatherKeyword) == [] then WeatherUsage
                            else Weather(ArgumentAfter(content, WeatherKeyword)))
    ensures StartsWith(content, PingKeyword) ==>
      Classify(content) == (if ArgumentAfter(content, PingKeyword) == [] then PingUsage
                            else Ping(ArgumentAfter(content, PingKeyword)))
  {
    KeywordsDisjoint(content);
  }
}
