# robot.py message handling, modelled in Dafny

`robot.py` is a QQ channel bot. For every message that @-mentions it, the handler
`_message_handler` does five things, in order:

1. It normalises the text. Every mention token `<@digits>` or `<@!digits>` is deleted. The
   text is stripped of surrounding whitespace. A single leading `/` is then dropped and the
   rest stripped again.
2. It classifies the text with a fixed cascade:
   - a canned phrase from the `auto_responses` table;
   - exactly `运行状态` (status);
   - a `天气` prefix (weather) followed by a city;
   - a `ping` prefix followed by a domain;
   - anything else (fallback).
3. It composes the reply for that command. The status, weather and ping commands consult the
   host metrics, a weather web service, or a latency probe plus two HTTP requests.
4. It passes the reply through a moderation gate. A reply containing a forbidden URL is
   replaced, as a whole, by a fixed notice.
5. It addresses the reply to the sender's channel, as an answer to the sender's message id.

The model follows that structure, one module per step:

- `Text` holds the parts of Python's `str` the handler calls:
  - `strip()` with Python's full whitespace set;
  - `startswith`;
  - the `in` substring test;
  - `str(int)`.

  It also holds `"\n".join` and `split("\n")`. The handler calls neither; it builds its
  replies with `+=` and f-strings. They are reference definitions, used to state the line
  structure of a reply.
- `Normalization` holds the mention scan and the normalisation. The scan is proved equal to
  a reference cut of the text into kept characters and dropped tokens.
- `Router` holds the canned table, the command datatype and the cascade.
- `Replies` holds the weather, ping and status replies. The ping reply is an imperative
  method that appends lines and strips the result, as the source does.
- `Moderation` holds the forbidden-URL scan (a loop) and the gate.
- `Handler` holds the whole handler and the properties that span the steps above.

Everything the handler learns from outside comes in as a `World` value:
- the metrics snapshot;
- what the weather service answers for each city;
- what the probes answer for each domain.

The handler also returns the list of outside calls it made. This is how the model states
that a call carries the right argument, and that the reply depends only on the answers to
the calls actually made.

Three facts about the code are worth knowing:
- Normalisation is not idempotent. Only one leading `/` is dropped, so `//x` becomes `/x`
  and then `x` (`OneSlashRemoved`). Deleting an inner mention can also join a new one
  together: `<@<@1>2>` becomes `<@2>` and then empty text (`SplicedMention`). Idempotence
  is proved only where it holds (`NormalizeStable`).
- The latency is printed with two decimals (`:.2f`). The model treats the latency as text
  the probe already formatted, so the count of decimals is not part of it.
- The status reply opens with a fixed run-state line (`当前状态：运行中`), before the CPU,
  memory, disk and uptime lines.

## Model

| member | source | states |
|---|---|---|
| Text.Strip | robot.py:160 | `strip()` leaves text with no whitespace at either end, and never longer than its input |
| Text.StripCharacterization | robot.py:160 | `strip()` of whitespace, then text with non-space ends, then whitespace, is exactly that middle text; this pins down what `strip()` returns without reference to how it is computed |
| Text.StripIdempotent | robot.py:165 | stripping text twice gives the same result as stripping once |
| Text.Contains | robot.py:209 | Python's `u in s`: it holds whenever `s` starts with `u` and whenever `u` is empty, and never when `u` is longer than `s` |
| Text.ContainsIff | robot.py:209 | Python's `u in s` holds exactly when `u` occurs at some position of `s` |
| Text.IntToDecimal | robot.py:109 | `str(code)` of a status code is non-empty and single-line, has no surrounding whitespace, and reads back as the code's value, with a minus sign exactly when the code is negative and no leading zero before a digit that follows it |
| Text.DecimalRoundTrip | robot.py:109 | reading back the digits `str(n)` writes gives `n` |
| Normalization.MentionLength | robot.py:160 | a found length is a whole `<@!?\d+>` token at the front of the text; when none is found, no prefix of the text is such a token |
| Normalization.MentionLengthComplete | robot.py:160 | mention tokens are unambiguous: any token at the front of the text is exactly the one found |
| Normalization.RemoveMentions | robot.py:160 | `re.sub(r'<@!?\d+>', '', s)` is never longer than `s` and keeps only characters of `s`; its full meaning is stated by `RemoveMentionsMatchesScan` |
| Normalization.ScanOf | robot.py:160 | every text has a left-to-right scan into kept characters and dropped mention tokens |
| Normalization.RemoveMentionsMatchesScan | robot.py:160 | `re.sub(r'<@!?\d+>', '', s)` keeps exactly the characters that any scan of `s` keeps |
| Normalization.LeadingMentionRemoved | robot.py:160 | a message that opens with a mention token loses exactly that token |
| Normalization.NoAngleBracketUnchanged | robot.py:160 | text without `<` has no mention and passes through the substitution unchanged |
| Normalization.NormalizeMentionOnly | robot.py:160 | a message that is a single mention token normalises to empty text |
| Normalization.Normalize | robot.py:160-165 | the normalised content has no whitespace at either end and is never longer than the raw message |
| Normalization.NormalizeMeaning | robot.py:160-165 | normalisation strips the mention-free text, then drops exactly one leading `/` and strips again |
| Normalization.NormalizeStable | robot.py:160-165 | normalising again changes nothing when the content holds no `<` and does not start with `/` |
| Normalization.OneSlashRemoved | robot.py:164-165 | only one `/` is dropped: `/x` normalises to `x`, while `//x` normalises to `/x` |
| Normalization.SplicedMention | robot.py:160 | the substitution is a single pass: `<@` + mention + digits + `>` normalises to a new mention `<@digits>`, which a second normalisation deletes |
| Router.ArgumentAfter | robot.py:188 | the argument after a keyword has no surrounding whitespace and is no longer than the text after the keyword |
| Router.Classify | robot.py:170-205 | canned exactly for table keys (keyed by the content), status exactly for `运行状态`, weather or its usage exactly for the `天气` prefix, ping or its usage exactly for the `ping` prefix; a city or domain is never empty and has no surrounding whitespace |
| Router.KeywordsDisjoint | robot.py:170-195 | no text meets two rule conditions at once, so the order of the cascade never breaks a tie |
| Router.ClassifyFirstMatch | robot.py:170-205 | the command comes from a rule whose condition the text meets, and no earlier rule's condition holds |
| Router.PrefixArgument | robot.py:187-202 | a prefixed message becomes the usage command when its stripped argument is empty, and carries that argument otherwise |
| Replies.WeatherReply | robot.py:69-81 | a status of `"1"` gives `<city>的天气是：<weather>，温度为 <temperature> °C` (exact prefix, suffix and length), and only then does the reply end with ` °C`; any other status gives the fixed lookup-failed text; a network error gives the fixed network text; any other error gives exactly the error prefix followed by the exception text; the reply is never empty |
| Replies.PingReport | robot.py:86-123 | a probe that raised gives the fixed ping-error text; an unanswered probe gives `无法访问。`; a reachable domain's report has no whitespace at either end and opens with the latency line and a newline |
| Replies.ComposePingReply | robot.py:86-123 | the appended-then-stripped report equals the joined three-line report; an unanswered probe gives `无法访问。`; a reachable domain's reply has no surrounding whitespace and opens with the latency line and a newline |
| Replies.StripPingReport | robot.py:107-118 | stripping the newline-terminated report removes only the final newline, leaving the three lines joined by newlines |
| Replies.PingReportOpens | robot.py:107 | the joined report opens with the latency line followed by a newline |
| Replies.PingReportTrimmed | robot.py:107-118 | the ping report never starts or ends with whitespace, whatever the latency text |
| Replies.PingReportLines | robot.py:107-116 | a reachable domain's reply splits into the latency line, the HTTP line and the HTTPS line, in that order, each one decided by its own request only |
| Replies.StatusReport | robot.py:174-186 | a failed snapshot gives exactly `获取系统状态时发生错误。`; a successful one opens with the run-state and CPU lines and closes with a newline and the uptime line |
| Replies.StatusReportLines | robot.py:177-183 | a successful snapshot's reply splits into the run state, CPU, memory, disk and uptime lines, in that order |
| Moderation.ContainsForbiddenUrl | robot.py:208-209 | the loop over the forbidden list finds a URL exactly when one of them occurs in the reply |
| Moderation.HasForbiddenUrlIff | robot.py:208-209 | a reply is forbidden exactly when `zuotiya.com` occurs at some position of it |
| Moderation.WithoutZAllowed | robot.py:208-209 | a reply without the letter `z` is never blocked |
| Moderation.Moderate | robot.py:208-211 | the gate's output never holds a forbidden URL; a forbidden reply is replaced by the fixed notice, and any other reply passes unchanged |
| Moderation.ApplyGate | robot.py:209-211 | overwriting the reply when the scan finds a URL is the gate |
| Moderation.ModerateIdempotent | robot.py:208-211 | passing the gate twice is the same as passing it once |
| Handler.CommandReply | robot.py:170-205 | every command's reply, before moderation, is non-empty |
| Handler.Respond | robot.py:160-211 | every message gets a non-empty reply that holds no forbidden URL |
| Handler.HandleMessage | robot.py:156-217 | the request goes to the sender's channel and answers the sender's message id; its text is the moderated reply to the normalised, classified message; the outside calls are those of that command; the text sent never holds a forbidden URL |
| Handler.RunCascade | robot.py:170-205 | the if-cascade assigns the reply of the classified command and makes exactly that command's outside calls |
| Handler.CannedReplyExact | robot.py:170-171 | a message that normalises to a table key gets exactly the mapped phrase, and makes no outside call |
| Handler.CannedPhrasesAllowed | robot.py:49-53 | none of the canned phrases is blocked by the gate |
| Handler.FixedRepliesPass | robot.py:186-204 | the two usage texts, the fallback text and the status-failure text pass the gate unchanged |
| Handler.StatusFailure | robot.py:173-186 | `运行状态` with a failed metrics snapshot gets exactly `获取系统状态时发生错误。` and makes only the metrics call |
| Handler.EmptyCityUsage | robot.py:187-194 | `天气` with nothing but whitespace after it gets the weather usage text and makes no outside call |
| Handler.EmptyDomainUsage | robot.py:195-202 | `ping` with nothing but whitespace after it gets the ping usage text and makes no outside call |
| Handler.UnmatchedFallback | robot.py:203-205 | a message that meets no rule gets the fixed fallback and makes no outside call |
| Handler.CommandCallsShape | robot.py:173-199 | each command makes at most one outside call, which carries the command's own argument; only the status command reads the metrics |
| Handler.CallsCarryArguments | robot.py:173-199 | at most one outside call is made; a city or domain handed to a service is the non-empty, stripped text after its keyword; the metrics are read exactly for `运行状态` |
| Handler.CommandReplyDependsOnOwnCalls | robot.py:170-205 | a command's reply is the same in any two worlds that agree on the answers to that command's own calls |
| Handler.ReplyDependsOnOwnCalls | robot.py:156-211 | the reply to a message depends on the message and on the answers to the calls it makes, and on nothing else outside |

## Left out

- Network, OS and clock access are not modelled. This covers the `aiohttp` requests, `ping3.ping`, `psutil`, `time.time()` and the QQ SDK. Their results enter as the `World` value: a metrics snapshot, and per-city and per-domain outcomes.
- Metrics figures: the CPU, memory, disk and uptime figures are kept as the text the reply prints. The float arithmetic of `get_system_status` and the `:.2f` formatting are not modelled.
- Ping latency: the latency is kept as already-formatted text, so `response_time * 1000:.2f` is not modelled. `ping3` reports some failures as `False`. The code's `is not None` test lets that through as a latency of `0.00`. That case is covered only as "some latency text", not told apart.
- Weather answers: the service's JSON is reduced to its `status` text and the `weather` and `temperature` fields of `lives[0]`. A non-text `status` is modelled as a status other than `"1"`. A missing `lives` entry is modelled as the "any other error" outcome, with the exception text as a parameter.
- Each service is a function of its argument, so within one message the same query gets the same answer. The handler makes at most one query per message, so this loses nothing.
- Sending is left out: the fire-and-forget task, `_send_message` and its error logging. The handler returns the request it would send.
- Logging, configuration loading, the token, `run_bot`, the `is_running` flag and the daemon process are left out.
- Strings: Dafny's `char` excludes the surrogate code points U+D800-U+DFFF, which a Python `str` can hold; such text is outside the model.
- Mention digits: `\d` is read as an ASCII digit. Python's `\d` also matches other Unicode decimal digits.

