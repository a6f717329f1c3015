# Beacon topic routing, modelled in Dafny

Beacon is a small Go message router. Handlers are registered against topic
patterns such as `devices/{device_id}/telemetry/*`. A pattern is split on `/`.
A `{name}` level is a named single-level wildcard, and a final `*` is a
multi-level wildcard. The router parses each pattern into a `Topic` and keeps a
registry from topics to handlers. It connects a composite `Broker`, made of an
optional subscriber and an optional publisher, to an MQTT transport. Patterns
are translated to MQTT wildcard syntax (section 4.7.1 of MQTT Version 3.1.1:
`+` for one level, `#` for the rest). Each incoming topic is matched back
against its pattern to recover the parameter values a handler reads with
`GetTopicParam`.

The project models that core:

- `go_strings.dfy` models the two `strings` functions `NewTopic` calls:
  `strings.Split` on `/` (topic.go:22) and `strings.Trim` on spaces
  (topic.go:27, 32). It also defines `Join`, which Go does not call here. `Join`
  is the inverse of `Split`, and the model uses it to state round trips. The
  other library calls of the core are written out where they are used:
  `strings.HasPrefix`/`HasSuffix` (topic.go:85) in `Topics.IsWildcard`,
  `strings.ReplaceAll` (subscribers/mqtt.go:85, 93) in `MqttTopics.ReplaceStars`
  and `Subscribers.Matches`, and `slices.Contains` (topic.go:37) as `in` in
  `Topics.SegmentError`.
- `topic.dfy` models pattern parsing: `NewTopic` as a loop proved against the
  function `ParseError`, the names a pattern declares, and error precedence.
- `mqtt_topics.dfy` holds `toMQTTTopic`. The regular-expression replacement is
  modelled character by character. On well-formed patterns it is proved to
  work level by level.
- `subscribers.dfy` models parameter extraction (`extractParamsFromMQTTTopic`)
  as a loop filling a map, proved against the segment-wise meaning of the
  regular expression.
- `message.dfy` models messages and `GetTopicParam`.
- `broker.dfy` models the composite broker. Subscriber and publisher are
  classes that record every call they receive.
- `router.dfy` models the router: construction with options, `AddSubscription`,
  `Publish`, and the connect-failure path of `Start`.
- `topic_cases.dfy` derives the concrete cases of the repository's tests from
  the general definitions.

The model follows the code on two points where a reader might expect
otherwise:

- **The duplicate-subscription check never fires.** The registry is keyed by
  `*Topic` (router.go:20), and every `NewTopic` call allocates a new topic
  (topic.go:45). So the check at router.go:137-140 cannot trigger. Registering
  the same pattern twice adds two entries. `Topic` is a class here, and the
  branch is proved unreachable.
- **`isRunning` is never assigned.** The add-after-start guard
  (router.go:126-129) therefore cannot trigger. `Router.Valid` includes
  `!isRunning`, and every method keeps it.

The subscriber and publisher packages each have their own identical copy of
`toMQTTTopic` (subscribers/mqtt.go:80-88, publishers/mqtt.go:72-80). It is
defined once here, as `MqttTopics.ToMQTTTopic`.

## Model

| member | source | states |
|---|---|---|
| GoStrings.Split | topic.go:22 | `strings.Split(s, "/")` always yields at least one part, and no part holds a `/` |
| GoStrings.JoinSplit | topic.go:22 | joining the parts of a split with `/` gives back the original string |
| GoStrings.SplitJoin | topic.go:22 | splitting the join of one or more separator-free parts gives back those parts |
| GoStrings.Trim | topic.go:27 | `strings.Trim(s, " ")` is never longer than `s`; it is empty exactly when `s` consists of spaces only, and otherwise neither starts nor ends with a space |
| GoStrings.TrimLeftShape | topic.go:27 | trimming leading spaces drops a prefix made of spaces only, and what is left is empty or starts with a non-space |
| GoStrings.TrimRightShape | topic.go:27 | trimming trailing spaces drops a suffix made of spaces only, and what is left is empty or ends with a non-space |
| GoStrings.TrimmedEmptyIffAllSpaces | topic.go:32-33 | trimming both ends gives the empty string exactly when `s` consists of spaces only, so `{}` and `{   }` both have an empty name |
| Topics.IsWildcard | topic.go:84-86 | a segment that starts with `{` and ends with `}` has length at least 2, so the slice `s[1:len(s)-1]` is in bounds |
| Topics.ParamName | topic.go:32 | the name of a `{…}` segment is its inner text with spaces trimmed: at most two characters shorter than the segment, empty exactly when the inner text is spaces only, and otherwise without a leading or trailing space |
| Topics.MultiLevelIffPaddedStar | topic.go:27 | `IsMultiLevel`, the test `strings.Trim(s, " ") == "*"`, holds exactly when the segment is one `*` with only spaces around it |
| Topics.TrimLeftAt | topic.go:27 | when the first non-space is at position `j`, trimming leading spaces leaves the segment from `j` on |
| Topics.TrimRightAt | topic.go:27 | when the last non-space is at position `m - 1`, trimming trailing spaces leaves the first `m` characters |
| Topics.NamesUpTo | topic.go:31-41 | the names collected from the first `n` segments are at most `n` |
| Topics.NewTopic | topic.go:21-50 | the error returned is exactly `ParseError(raw)`; a topic is returned exactly when there is no error, and it is new, with segments equal to the split of `raw` and params equal to the names of its wildcard segments |
| Topics.ErrorBeforeStable | topic.go:25-43 | once a segment has raised an error, later segments do not change it (the walk returns at the first error) |
| Topics.ErrorIsLeftmost | topic.go:25-43 | the reported error is that of the leftmost offending segment, and there is no error exactly when no segment offends |
| Topics.NamesUpToPrefix | topic.go:41 | the names are collected left to right: the names of a prefix of the segments are a prefix of the names |
| Topics.NameAt | topic.go:31-41 | the name of wildcard segment `i` sits in the params right after the names of the segments before it |
| Topics.NameHasSegment | topic.go:31-41 | every collected name is the trimmed inner text of a wildcard segment, in position order |
| Topics.TopicJoinsBack | topic.go:22-49 | a parsed topic's segments joined with `/` give back its raw pattern |
| Topics.LiteralPatternHasNoNames | topic.go:31 | a pattern without `{…}` segments has no params |
| Topics.AcceptedIff | topic.go:25-43 | a pattern is accepted exactly when `*` (spaces trimmed) appears only as the last segment and the wildcard names are non-empty and pairwise distinct |
| Topics.AcceptedStep | topic.go:27-41 | a segment that raises no error keeps those rules satisfied one segment further |
| Topics.AcceptedPrefix | topic.go:27-41 | when the rules hold over `n` segments, they hold over the first `n - 1`, and segment `n - 1` raises no error |
| Topics.ValidTopicNames | topic.go:32-41 | every topic `NewTopic` returns has non-empty, pairwise distinct params and no `*` before its last segment |
| MqttTopics.ReplaceNamedWildcards | subscribers/mqtt.go:82 | the `{name}` replacement never makes the topic longer, and every character of its result is a `+` or a character of the input |
| MqttTopics.FirstClose | subscribers/mqtt.go:82 | the position of the first `}`, which is where `[^}]+\}` ends its match |
| MqttTopics.ReplaceStars | subscribers/mqtt.go:85 | `strings.ReplaceAll(s, "*", "#")` keeps the length and changes exactly the `*` characters, each to `#` |
| MqttTopics.ToMQTTTopic | subscribers/mqtt.go:80-88 | the translated topic never contains a `*` |
| MqttTopics.ReplaceNamedKeepsPrefix | subscribers/mqtt.go:82 | text without `{` is left unchanged by the `{name}` replacement |
| MqttTopics.ReplaceNamedAtWildcard | subscribers/mqtt.go:82 | a `{name}` occurrence is replaced by `+`, and the rest is then translated on its own |
| MqttTopics.ReplaceStarsAppend | subscribers/mqtt.go:85 | replacing stars distributes over concatenation |
| MqttTopics.ReplaceStarsKeepsStarFree | subscribers/mqtt.go:85 | text without `*` is unchanged by the star replacement |
| MqttTopics.LiteralPatternUnchanged | publishers/mqtt.go:72-80 | a pattern with no `{` and no `*` is translated to itself |
| MqttTopics.MqttLevels | subscribers/mqtt.go:80-88 | the MQTT levels of a pattern: one per segment, `+` for a named wildcard, `#` for the final `*`, the segment itself otherwise |
| MqttTopics.PlusLevels | subscribers/mqtt.go:82 | one level per segment, each named wildcard replaced by `+` |
| MqttTopics.StarLevels | subscribers/mqtt.go:85 | one level per part, each with its stars replaced |
| MqttTopics.WellFormedTail | subscribers/mqtt.go:80-88 | dropping the first level of a well-formed pattern leaves a well-formed pattern |
| MqttTopics.ReplaceNamedFirstLevel | subscribers/mqtt.go:82 | the `{name}` replacement handles a well-formed first level on its own and then continues with the rest |
| MqttTopics.ReplaceNamedSegmentwise | subscribers/mqtt.go:82 | on a well-formed pattern the `{name}` replacement works level by level |
| MqttTopics.ReplaceStarsOverJoin | subscribers/mqtt.go:85 | the star replacement works level by level on any joined topic |
| MqttTopics.ToMQTTTopicSegmentwise | publishers/mqtt.go:72-80 | on a well-formed pattern, the translation is the join of its MQTT levels: `{name}` becomes `+`, the final `*` becomes `#`, literals are kept |
| MqttTopics.ToMQTTTopicKeepsLevels | subscribers/mqtt.go:80-88 | a well-formed pattern and its translation have the same number of levels, and level `i` of the translation is the MQTT level of segment `i` |
| Messages.GetTopicParam | message.go:12-14 | the value captured for a present parameter; the empty string for an absent one |
| Subscribers.FixedLevels | subscribers/mqtt.go:92-95 | all levels are matched one for one, except a final `*`: the count is the number of levels, or one less exactly when the last level is `*` |
| Subscribers.MatchesIsDelivered | subscribers/mqtt.go:92-95 | every topic that `Matches` (the segment-wise meaning of `^…$` built from the pattern) accepts is delivered by the MQTT filter `toMQTTTopic` makes of the same well-formed pattern |
| Subscribers.MatchedLevelsDelivered | subscribers/mqtt.go:92-95 | from any level on, the levels the expression matched are matched by the MQTT filter levels |
| Subscribers.LevelDelivered | subscribers/mqtt.go:92-93 | a level matched one for one stands for `+` or for the concrete level itself in the MQTT filter, never for `#` |
| Subscribers.Captures | subscribers/mqtt.go:97 | at most one submatch per pattern level |
| Subscribers.ExtractParams | subscribers/mqtt.go:90-104 | the loop over the submatches builds exactly the match that `Extracted` specifies |
| Subscribers.WildcardIffNamed | subscribers/mqtt.go:92 | on a well-formed pattern, the segments `NewTopic` treats as wildcards are exactly those the regular expression turns into groups |
| Subscribers.CapturesAlign | subscribers/mqtt.go:97-100 | there are as many submatches as parameter names, so `topic.Params()[i]` is always in range |
| Subscribers.CapturesPrefix | subscribers/mqtt.go:97 | the submatches are produced left to right |
| Subscribers.ParamMap | subscribers/mqtt.go:98-101 | storing each value under its name, a later store winning, gives a map whose keys are exactly the names |
| Subscribers.ParamMapAt | subscribers/mqtt.go:98-101 | with distinct names, each name is bound to the value at its own index |
| Subscribers.ExtractedKeys | subscribers/mqtt.go:98-103 | the match's full name is the concrete topic, and its keys are exactly the pattern's params, so the part a final `*` takes is never a parameter |
| Subscribers.ExtractedAtPositions | subscribers/mqtt.go:91-101 | each `{name}` is bound to the concrete level at the position of its segment |
| Subscribers.CaptureAt | subscribers/mqtt.go:97-100 | the submatch for the wildcard segment at position `i` is concrete level `i`, and it sits at the index of that segment's name in the params |
| Subscribers.LiteralPatternExtractsNothing | subscribers/mqtt.go:98-101 | a pattern without `{…}` levels yields an empty parameter map |
| Subscribers.GetTopicParamOfExtracted | message.go:12-14 | after extraction, `GetTopicParam` of a parameter gives the concrete level at its position, and of any other name gives the empty string |
| Brokers.Broker.constructor | broker.go:15-20 | `NewBroker` keeps the given subscriber and publisher, either of which may be absent |
| Brokers.Broker.Connect | broker.go:22-36 | the subscriber is asked first; if it fails, its error is returned and the publisher is not asked; an absent role is skipped; the result is the first error |
| Brokers.Broker.Disconnect | broker.go:38-52 | the same order and the same stop at the first error as `Connect` |
| Brokers.Broker.Subscribe | broker.go:54-60 | `NoSubscriber` without a subscriber; otherwise the subscriber receives the call and its answer is returned unchanged |
| Brokers.Broker.Publish | broker.go:62-68 | `NoPublisher` without a publisher; otherwise the publisher receives the topic and message and its answer is returned unchanged |
| Brokers.ConnectSucceedsIff | broker.go:22-36 | connecting succeeds exactly when every present role connects |
| Brokers.DisconnectSucceedsIff | broker.go:38-52 | disconnecting succeeds exactly when every present role disconnects |
| Routers.LoggerAfter | router.go:40-53 | applying the options in order leaves the logger of the last `WithLogger`, or the initial one when there are none |
| Routers.Router.constructor | router.go:31-45 | `NewRouter` keeps the broker and starts with an empty registry, not running, with the default logger replaced by each option in turn |
| Routers.Router.Start | router.go:55-61 | the broker is connected, and a connect error is returned at once; the router stays valid and not running |
| Routers.Router.AddSubscription | router.go:125-144 | the result is exactly the parse error; on error the registry is unchanged; on success exactly one new key, a new topic for the pattern, is added with the handler, and every other entry is kept |
| Routers.Router.Publish | router.go:146-153 | an unparsable pattern returns its parse error without reaching the publisher; otherwise the broker's publish answer is returned, and a new topic for the pattern is published with the message |
| Routers.AddSameTopicTwice | router.go:131-143 | adding the same valid pattern twice succeeds both times, and the registry grows by two |
| TopicCases.EmptyWildcardCase | topic_test.go:93-97 | `foo/{}/bar` is refused with the empty-wildcard error |
| TopicCases.SpacedWildcardCase | topic.go:32-34 | `foo/{ }/bar` is refused with the empty-wildcard error, because the name is trimmed |
| TopicCases.DuplicateWildcardCase | topic_test.go:98-102 | `foo/{foo_id}/{foo_id}` is refused with the duplicate-wildcard error |
| TopicCases.MisplacedStarCase | topic_test.go:103-107 | `foo/*/bar` is refused because `*` is not last |
| TopicCases.StarAloneCase | topic_test.go:71-77 | `*` alone is accepted and has no params |
| TopicCases.NamedThenStarCase | topic_test.go:85-92 | `foo/{foo_id}/*` is accepted with the single param `foo_id` |
| TopicCases.NamedThenStarTranslation | subscribers/mqtt_test.go:54-55 | `foo/{foo_id}/*` translates to `foo/+/#` |
| TopicCases.TwoParamsPattern | topic_test.go:63-70 | `foo/{foo_id}/bar/{bar_id}` is accepted with params `foo_id`, `bar_id` in that order |
| TopicCases.TwoParamsExtractCase | subscribers/mqtt_test.go:116-123 | matching that pattern against `foo/12345/bar/abcde` binds `foo_id` to `12345` and `bar_id` to `abcde` |
| TopicCases.ParentLevelDeliveredUnmatched | subscribers/mqtt.go:97-99 | the filter `foo/#` delivers `foo` (section 4.7.1.2 of MQTT 3.1.1), which the expression for `foo/*` does not match, so `groups[1:]` would panic |
| TopicCases.EmptyLevelDeliveredUnmatched | subscribers/mqtt.go:97-99 | the filter `+` delivers an empty level (section 4.7.1.3 of MQTT 3.1.1), which `([^/]+)` does not match |
| TopicCases.StarInsideLevelCase | subscribers/mqtt.go:80-88 | `a*b` is accepted by `NewTopic`, translates to `a#b`, and is not well-formed |

## Left out

- Listener goroutines, `startListening` and `Shutdown` (router.go:65-123) are
  not modelled. Their substance is concurrency: the wait group, the shutdown
  channel, `select` and the context deadline.
- Routers.Router.constructor: the options are limited to the package's own
  `WithLogger`. `OptionFunc` is any `func(*Router)` (router.go:40-42, 47), so a
  caller's option may call exported methods such as `AddSubscription`. Such
  options are not modelled, so the empty registry after construction holds only
  for the options modelled here.
- Routers.Router.Start: only the connect-failure path is specified. On success
  Go goes on to subscribe every registered topic and start listeners. The model
  returns after connecting, so the subscriber's calls after a successful
  connect are not stated.
- Logging is not modelled. `Logger` only records which logger the options
  chose; `Handler` only names a handler, which is stored and never run.
- The MQTT client plumbing (subscribers/mqtt.go:11-78, publishers/mqtt.go:11-70)
  is network I/O over the paho library and is not modelled. Each transport role
  is stood in for by a class whose answers are fixed when it is built and which
  records the calls it receives.
- Go's `Subscriber`/`Publisher` interfaces are modelled as those two concrete
  classes, not as abstract types. So one object cannot play both roles, and
  aliasing between the roles is not captured.
- The regular-expression engine is not modelled. `toMQTTTopic` is modelled
  exactly at the character level. Extraction is modelled by its segment-wise
  meaning (`Matches`, `Captures`), which agrees with the regular expression
  only on `WellFormed` patterns. Five kinds of pattern fall outside it:
  - literal levels holding regex metacharacters, which Go does not escape;
  - literal levels holding `#`, which the MQTT filter reads as a wildcard;
  - a `*` inside a level such as `a*b`, which passes `NewTopic` but becomes
    `#` inside a level (`TopicCases.StarInsideLevelCase`);
  - `{a}{b}` in one level, which yields one param but two groups;
  - `{a/b}`, which spans levels.
- Subscribers.ExtractParams: requires `Extractable`. When the concrete topic
  does not match, Go's `groups[1:]` panics on a nil slice, so that path has no
  result to model. The MQTT filter can deliver such topics:
  `Subscribers.MatchesIsDelivered` proves only that every matched topic is
  delivered, and `TopicCases.ParentLevelDeliveredUnmatched` and
  `TopicCases.EmptyLevelDeliveredUnmatched` show that the converse fails. Topics
  starting with `$`, which MQTT filters treat specially, are not modelled.
- Messages.GetTopicParam: requires the match to be present. A nil
  `*TopicMatch` makes Go panic.
- The accessors `Raw`, `Segments`, `Params`, `FullName` are not separate
  members. They are the fields of `Topics.Topic` and `Topics.TopicMatch` and
  return what is stored.
- brokers/local.go, brokers/mqtt.go and examples/mqtt/mqtt.go are not part of
  this model. They target an older revision of the router API.
- Payload bytes are opaque `seq<bv8>`; nothing depends on their content.
