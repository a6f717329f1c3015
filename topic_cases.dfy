// Concrete cases from topic_test.go and subscribers/mqtt_test.go, derived from the
// general definitions.
module TopicCases {
  import opened Wrappers
  import opened Errors
  import opened GoStrings
  import opened Topics
  import opened MqttTopics
  import opened Subscribers

  lemma TrimKeeps(s: string)
    requires s != [] && s[0] != ' ' && s[|s| - 1] != ' '
    ensures Trim(s) == s
  {
  }

  lemma BracedName(w: string, name: string)
    requires w == ['{'] + name + ['}']
    requires name != [] && name[0] != ' ' && name[|name| - 1] != ' '
    ensures IsWildcard(w) && ParamName(w) == name
  {
    assert w[1..|w| - 1] == name;
  }

  lemma SplitOf(raw: string, parts: seq<string>)
    requires |parts| >= 1 && forall k :: 0 <= k < |parts| ==> Separator !in parts[k]
    requires Join(parts) == raw
    ensures Split(raw) == parts
  {
    SplitJoin(parts);
  }

  // Facts about single segments, each proved on its own.

  lemma LiteralLevel(s: string)
    requires s == "foo" || s == "bar"
    ensures LiteralSegment(s) && !IsWildcard(s) && !IsMultiLevel(s) && !NamedSegment(s)
  {
    TrimKeeps(s);
  }

  lemma FooIdSegment()
    ensures IsWildcard("{foo_id}") && ParamName("{foo_id}") == "foo_id"
    ensures NamedSegment("{foo_id}") && !IsMultiLevel("{foo_id}")
  {
    BracedName("{foo_id}", "foo_id");
    TrimKeeps("{foo_id}");
  }

  lemma BarIdSegment()
    ensures IsWildcard("{bar_id}") && ParamName("{bar_id}") == "bar_id"
    ensures NamedSegment("{bar_id}") && !IsMultiLevel("{bar_id}")
  {
    BracedName("{bar_id}", "bar_id");
    TrimKeeps("{bar_id}");
  }

  lemma EmptyBraces()
    ensures IsWildcard("{}") && ParamName("{}") == "" && !IsMultiLevel("{}")
  {
    TrimKeeps("{}");
    assert "{}"[1..1] == "";
  }

  lemma StarLevel()
    ensures IsMultiLevel("*") && !IsWildcard("*")
  {
    TrimKeeps("*");
  }

  lemma SpacedBraces()
    ensures IsWildcard("{ }") && ParamName("{ }") == "" && !IsMultiLevel("{ }")
  {
    TrimKeeps("{ }");
    assert "{ }"[1..2] == " ";
    assert TrimLeft(" ") == "";
  }

  // Shapes of patterns, over segments described only by the facts above.

  lemma EmptyShape(a: string, w: string, b: string)
    requires !IsWildcard(a) && !IsMultiLevel(a)
    requires IsWildcard(w) && !IsMultiLevel(w) && ParamName(w) == ""
    ensures ErrorBefore([a, w, b], 3) == Some(EmptySingleLevelWildcard)
  {
    var segs := [a, w, b];
    assert SegmentError(segs, 0) == None;
    assert ErrorBefore(segs, 1) == None;
    assert SegmentError(segs, 1) == Some(EmptySingleLevelWildcard);
    assert ErrorBefore(segs, 2) == Some(EmptySingleLevelWildcard);
    ErrorBeforeStable(segs, 2, 3);
  }

  lemma DuplicateShape(a: string, w: string)
    requires !IsWildcard(a) && !IsMultiLevel(a)
    requires IsWildcard(w) && !IsMultiLevel(w) && ParamName(w) != ""
    ensures ErrorBefore([a, w, w], 3) == Some(DuplicatedSingleLevelWildcard)
  {
    var segs := [a, w, w];
    assert NamesUpTo(segs, 1) == [];
    assert NamesUpTo(segs, 2) == [ParamName(w)];
    assert SegmentError(segs, 0) == None;
    assert ErrorBefore(segs, 1) == None;
    assert SegmentError(segs, 1) == None;
    assert ErrorBefore(segs, 2) == None;
    assert SegmentError(segs, 2) == Some(DuplicatedSingleLevelWildcard);
  }

  lemma MisplacedShape(a: string, s: string, b: string)
    requires !IsWildcard(a) && !IsMultiLevel(a) && IsMultiLevel(s)
    ensures ErrorBefore([a, s, b], 3) == Some(InvalidMultiLevelWildcardPosition)
  {
    var segs := [a, s, b];
    assert SegmentError(segs, 0) == None;
    assert ErrorBefore(segs, 1) == None;
    assert SegmentError(segs, 1) == Some(InvalidMultiLevelWildcardPosition);
    assert ErrorBefore(segs, 2) == Some(InvalidMultiLevelWildcardPosition);
    ErrorBeforeStable(segs, 2, 3);
  }

  lemma NamedThenStarShape(a: string, w: string, s: string)
    requires !IsWildcard(a) && !IsMultiLevel(a)
    requires IsWildcard(w) && !IsMultiLevel(w) && ParamName(w) != ""
    requires !IsWildcard(s)
    ensures ErrorBefore([a, w, s], 3) == None
    ensures Names([a, w, s]) == [ParamName(w)]
  {
    var segs := [a, w, s];
    assert NamesUpTo(segs, 1) == [];
    assert NamesUpTo(segs, 2) == [ParamName(w)];
    assert NamesUpTo(segs, 3) == [ParamName(w)];
    assert SegmentError(segs, 0) == None;
    assert ErrorBefore(segs, 1) == None;
    assert SegmentError(segs, 1) == None;
    assert ErrorBefore(segs, 2) == None;
    assert SegmentError(segs, 2) == None;
  }

  lemma TwoNamesShape(a: string, w1: string, b: string, w2: string)
    requires !IsWildcard(a) && !IsMultiLevel(a) && !IsWildcard(b) && !IsMultiLevel(b)
    requires IsWildcard(w1) && !IsMultiLevel(w1) && ParamName(w1) != ""
    requires IsWildcard(w2) && !IsMultiLevel(w2) && ParamName(w2) != ""
    requires ParamName(w1) != ParamName(w2)
    ensures ErrorBefore([a, w1, b, w2], 4) == None
    ensures Names([a, w1, b, w2]) == [ParamName(w1), ParamName(w2)]
  {
    var segs := [a, w1, b, w2];
    assert NamesUpTo(segs, 1) == [];
    assert NamesUpTo(segs, 2) == [ParamName(w1)];
    assert NamesUpTo(segs, 3) == [ParamName(w1)];
    assert NamesUpTo(segs, 4) == [ParamName(w1), ParamName(w2)];
    assert SegmentError(segs, 0) == None;
    assert ErrorBefore(segs, 1) == None;
    assert SegmentError(segs, 1) == None;
    assert ErrorBefore(segs, 2) == None;
    assert SegmentError(segs, 2) == None;
    assert ErrorBefore(segs, 3) == None;
    assert SegmentError(segs, 3) == None;
  }

  lemma TwoNamesMatchShape(a: string, w1: string, b: string, w2: string, x: string, y: string)
    requires LiteralSegment(a) && !NamedSegment(a) && LiteralSegment(b) && !NamedSegment(b)
    requires NamedSegment(w1) && NamedSegment(w2) && x != "" && y != ""
    ensures WellFormed([a, w1, b, w2])
    ensures Matches([a, w1, b, w2], [a, x, b, y])
    ensures Captures([a, w1, b, w2], [a, x, b, y], 4) == [x, y]
  {
    var p, c := [a, w1, b, w2], [a, x, b, y];
    assert Captures(p, c, 1) == [];
    assert Captures(p, c, 2) == [x];
    assert Captures(p, c, 3) == [x];
    assert FixedLevels(p) == 4;
    assert LevelMatches(p[0], c[0]) && LevelMatches(p[1], c[1]);
    assert LevelMatches(p[2], c[2]) && LevelMatches(p[3], c[3]);
  }

  // Splits of the literal topics that are too costly to derive inside the cases.

  lemma DuplicateSplit()
    ensures Split("foo/{foo_id}/{foo_id}") == ["foo", "{foo_id}", "{foo_id}"]
  {
    SplitOf("foo/{foo_id}/{foo_id}", ["foo", "{foo_id}", "{foo_id}"]);
  }

  lemma NamedThenStarSplit()
    ensures Split("foo/{foo_id}/*") == ["foo", "{foo_id}", "*"]
  {
    SplitOf("foo/{foo_id}/*", ["foo", "{foo_id}", "*"]);
  }

  lemma TwoParamsSplit()
    ensures Split("foo/{foo_id}/bar/{bar_id}") == ["foo", "{foo_id}", "bar", "{bar_id}"]
  {
    assert Join(["bar", "{bar_id}"]) == "bar/{bar_id}";
    assert Join(["{foo_id}", "bar", "{bar_id}"]) == "{foo_id}/bar/{bar_id}";
    SplitOf("foo/{foo_id}/bar/{bar_id}", ["foo", "{foo_id}", "bar", "{bar_id}"]);
  }

  lemma ConcreteSplit()
    ensures Split("foo/12345/bar/abcde") == ["foo", "12345", "bar", "abcde"]
  {
    assert Join(["bar", "abcde"]) == "bar/abcde";
    assert Join(["12345", "bar", "abcde"]) == "12345/bar/abcde";
    SplitOf("foo/12345/bar/abcde", ["foo", "12345", "bar", "abcde"]);
  }

  // The cases of topic_test.go and subscribers/mqtt_test.go.

  // "foo/{}/bar" is refused with the empty-wildcard error.
  lemma EmptyWildcardCase()
    ensures ParseError("foo/{}/bar") == Some(EmptySingleLevelWildcard)
  {
    SplitOf("foo/{}/bar", ["foo", "{}", "bar"]);
    LiteralLevel("foo");
    EmptyBraces();
    EmptyShape("foo", "{}", "bar");
  }

  // "foo/{ }/bar" is refused the same way: the name is empty once spaces are trimmed.
  lemma SpacedWildcardCase()
    ensures ParseError("foo/{ }/bar") == Some(EmptySingleLevelWildcard)
  {
    SplitOf("foo/{ }/bar", ["foo", "{ }", "bar"]);
    LiteralLevel("foo");
    SpacedBraces();
    EmptyShape("foo", "{ }", "bar");
  }

  // "*" on its own is accepted and has no parameters.
  lemma StarAloneCase()
    ensures ParseError("*") == None
    ensures Names(Split("*")) == []
  {
    SplitOf("*", ["*"]);
    StarLevel();
    assert SegmentError(["*"], 0) == None;
    assert NamesUpTo(["*"], 1) == [];
  }

  // "foo/{foo_id}/{foo_id}" is refused with the duplicate-wildcard error.
  lemma DuplicateWildcardCase()
    ensures ParseError("foo/{foo_id}/{foo_id}") == Some(DuplicatedSingleLevelWildcard)
  {
    DuplicateSplit();
    LiteralLevel("foo");
    FooIdSegment();
    DuplicateShape("foo", "{foo_id}");
  }

  // "foo/*/bar" is refused: `*` is not the last level.
  lemma MisplacedStarCase()
    ensures ParseError("foo/*/bar") == Some(InvalidMultiLevelWildcardPosition)
  {
    SplitOf("foo/*/bar", ["foo", "*", "bar"]);
    LiteralLevel("foo");
    StarLevel();
    MisplacedShape("foo", "*", "bar");
  }

  // "foo/{foo_id}/*" is accepted with the single parameter "foo_id".
  lemma NamedThenStarCase()
    ensures ParseError("foo/{foo_id}/*") == None
    ensures Names(Split("foo/{foo_id}/*")) == ["foo_id"]
  {
    NamedThenStarSplit();
    LiteralLevel("foo");
    FooIdSegment();
    StarLevel();
    NamedThenStarShape("foo", "{foo_id}", "*");
  }

  lemma JoinLevels()
    ensures Join(["foo", "+", "#"]) == "foo/+/#"
  {
    assert Join(["#"]) == "#";
    assert Join(["+", "#"]) == "+/#";
  }

  // The translation of "foo/{foo_id}/*" is "foo/+/#".
  lemma NamedThenStarTranslation()
    ensures ToMQTTTopic("foo/{foo_id}/*") == "foo/+/#"
  {
    var segs := ["foo", "{foo_id}", "*"];
    assert Join(segs) == "foo/{foo_id}/*";
    LiteralLevel("foo");
    FooIdSegment();
    assert WellFormed(segs);
    ToMQTTTopicSegmentwise(segs);
    assert MqttLevels(segs) == ["foo", "+", "#"];
    JoinLevels();
  }

  lemma TwoParamsPattern()
    ensures ParseError("foo/{foo_id}/bar/{bar_id}") == None
    ensures Names(Split("foo/{foo_id}/bar/{bar_id}")) == ["foo_id", "bar_id"]
  {
    TwoParamsSplit();
    LiteralLevel("foo");
    LiteralLevel("bar");
    FooIdSegment();
    BarIdSegment();
    assert "foo_id" != "bar_id" by { assert "foo_id"[0] != "bar_id"[0]; }
    TwoNamesShape("foo", "{foo_id}", "bar", "{bar_id}");
  }

  lemma TwoParamsMatch()
    ensures WellFormed(["foo", "{foo_id}", "bar", "{bar_id}"])
    ensures Matches(["foo", "{foo_id}", "bar", "{bar_id}"], ["foo", "12345", "bar", "abcde"])
    ensures Captures(["foo", "{foo_id}", "bar", "{bar_id}"], ["foo", "12345", "bar", "abcde"], 4) == ["12345", "abcde"]
  {
    LiteralLevel("foo");
    LiteralLevel("bar");
    FooIdSegment();
    BarIdSegment();
    TwoNamesMatchShape("foo", "{foo_id}", "bar", "{bar_id}", "12345", "abcde");
  }

  lemma TwoParamsTopic(t: Topic)
    requires t.Valid() && t.raw == "foo/{foo_id}/bar/{bar_id}"
    ensures t.segments == ["foo", "{foo_id}", "bar", "{bar_id}"]
    ensures t.params == ["foo_id", "bar_id"]
  {
    TwoParamsSplit();
    TwoParamsPattern();
  }

  lemma TwoParamsMap()
    ensures ParamMap(["foo_id", "bar_id"], ["12345", "abcde"]) == map["foo_id" := "12345", "bar_id" := "abcde"]
  {
    assert ["foo_id", "bar_id"][..1] == ["foo_id"] && ["12345", "abcde"][..1] == ["12345"];
    assert ParamMap(["foo_id"], ["12345"]) == map["foo_id" := "12345"];
  }

  // Matching "foo/{foo_id}/bar/{bar_id}" against "foo/12345/bar/abcde" binds
  // foo_id to "12345" and bar_id to "abcde".
  lemma TwoParamsExtractCase(t: Topic)
    requires t.Valid() && t.raw == "foo/{foo_id}/bar/{bar_id}"
    ensures Extractable(t, "foo/12345/bar/abcde")
    ensures Extracted(t, "foo/12345/bar/abcde") ==
      NewTopicMatch("foo/12345/bar/abcde", map["foo_id" := "12345", "bar_id" := "abcde"])
  {
    TwoParamsTopic(t);
    ConcreteSplit();
    TwoParamsMatch();
    TwoParamsMap();
  }

  // A star inside a literal level passes `NewTopic` but becomes `#` in the MQTT topic,
  // which MQTT 3.1.1 (section 4.7.1.2) allows only as a whole last level; `WellFormed`
  // excludes such patterns.
  lemma StarInsideLevelCase()
    ensures ParseError("a*b") == None
    ensures ToMQTTTopic("a*b") == "a#b"
    ensures !WellFormed(Split("a*b"))
  {
    SplitOf("a*b", ["a*b"]);
    TrimKeeps("a*b");
    assert SegmentError(["a*b"], 0) == None;
    assert '{' !in "a*b";
    ReplaceNamedKeepsPrefix("a*b", "");
    assert "a*b" + "" == "a*b";
    assert !LiteralSegment("a*b") by { assert RegexMeta("a*b"[1]); }
  }

  // The MQTT filter delivers topics that the extraction pattern rejects, and for those
  // `groups` is nil and `groups[1:]` panics (subscribers/mqtt.go:97-99). Section 4.7.1.2
  // of MQTT 3.1.1 lets "foo/#" deliver the parent level "foo" ...
  lemma ParentLevelDeliveredUnmatched()
    ensures FilterMatches(MqttLevels(["foo", "*"]), ["foo"])
    ensures !Matches(["foo", "*"], ["foo"])
  {
    LiteralLevel("foo");
    assert MqttLevels(["foo", "*"]) == ["foo", "#"];
  }

  // ... and section 4.7.1.3 lets "+" deliver an empty level, which `([^/]+)` refuses.
  lemma EmptyLevelDeliveredUnmatched()
    ensures FilterMatches(MqttLevels(["{foo_id}"]), [""])
    ensures !Matches(["{foo_id}"], [""])
  {
    FooIdSegment();
    assert MqttLevels(["{foo_id}"]) == ["+"];
  }
}
