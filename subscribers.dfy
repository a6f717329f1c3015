/**
 * Parameter extraction of the MQTT subscriber (subscribers/mqtt.go,
 * `extractParamsFromMQTTTopic`). Go builds a regular expression from the raw pattern
 * (`{name}` becomes `([^/]+)`, `*` becomes `.*`) and reads its submatches. On a
 * well-formed pattern that expression means what `Matches` and `Captures` say: every
 * fixed level matches one concrete level, a named level captures it, and a final `*`
 * takes the rest.
 */
module Subscribers {
  import opened Wrappers
  import opened GoStrings
  import opened Topics
  import opened Messages
  import opened MqttTopics

  /** How many leading pattern levels are matched one for one: all but a final `*`. */
  function FixedLevels(pattern: seq<string>): (n: nat)
    requires |pattern| >= 1
    ensures n == |pattern| || n == |pattern| - 1
    ensures n == |pattern| - 1 <==> pattern[|pattern| - 1] == "*"
  {
    if pattern[|pattern| - 1] == "*" then |pattern| - 1 else |pattern|
  }

  /** `([^/]+)` matches any non-empty level; a literal matches only itself. */
  predicate LevelMatches(p: string, c: string)
  {
    if NamedSegment(p) then c != "" else c == p
  }

  /**
   * The concrete levels `c` match the regular expression built from the pattern levels
   * `p`. The final `.*` spans any number of levels but, as Go's `.` does, no newline.
   */
  predicate Matches(p: seq<string>, c: seq<string>)
  {
    && |p| >= 1
    && (if p[|p| - 1] == "*" then
          |c| >= |p| && forall k :: |p| - 1 <= k < |c| ==> '\n' !in c[k]
        else |c| == |p|)
    && forall i :: 0 <= i < FixedLevels(p) ==> LevelMatches(p[i], c[i])
  }

  /**
   * On a well-formed pattern, every topic the expression matches is one that the MQTT
   * filter `toMQTTTopic` makes of the pattern would deliver.
   */
  lemma MatchesIsDelivered(p: seq<string>, c: seq<string>)
    requires WellFormed(p) && Matches(p, c)
    ensures FilterMatches(MqttLevels(p), c)
  {
    MatchedLevelsDelivered(p, c, 0);
    assert MqttLevels(p)[0..] == MqttLevels(p) && c[0..] == c;
  }

  /** From level `i` on, the levels the expression matched are matched by the MQTT filter. */
  lemma {:induction false} MatchedLevelsDelivered(p: seq<string>, c: seq<string>, i: nat)
    requires WellFormed(p) && i <= FixedLevels(p) && FixedLevels(p) <= |c|
    requires p[|p| - 1] != "*" ==> |c| == |p|
    requires forall j :: 0 <= j < FixedLevels(p) ==> LevelMatches(p[j], c[j])
    ensures FilterMatches(MqttLevels(p)[i..], c[i..])
    decreases |p| - i
  {
    var f := MqttLevels(p)[i..];
    if i == FixedLevels(p) {
      if p[|p| - 1] == "*" {
        assert f == ["#"];
      } else {
        assert f == [] && c[i..] == [];
      }
    } else {
      MatchedLevelsDelivered(p, c, i + 1);
      LevelDelivered(p, c, i);
      assert f[0] == MqttLevel(p[i]);
      assert f[1..] == MqttLevels(p)[i + 1..] && c[i..][1..] == c[i + 1..];
    }
  }

  /** A fixed level the expression matched is matched by its MQTT level, which is not `#`. */
  lemma LevelDelivered(p: seq<string>, c: seq<string>, i: nat)
    requires WellFormed(p) && i < FixedLevels(p) && i < |c| && LevelMatches(p[i], c[i])
    ensures MqttLevel(p[i]) != "#"
    ensures MqttLevel(p[i]) == "+" || MqttLevel(p[i]) == c[i]
  {
    var s := p[i];
    if !NamedSegment(s) {
      assert LiteralSegment(s);
      assert s != "#" && s != "+" by {
        if |s| == 1 { assert s[0] != '#' && !RegexMeta(s[0]); }
      }
    }
  }

  /** The submatches `groups[1:]`: the concrete levels at the named positions among the first `n`. */
  function Captures(p: seq<string>, c: seq<string>, n: nat): (groups: seq<string>)
    requires n <= |p| && n <= |c|
    ensures |groups| <= n
  {
    if n == 0 then []
    else Captures(p, c, n - 1) + (if NamedSegment(p[n - 1]) then [c[n - 1]] else [])
  }

  /** What `extractParamsFromMQTTTopic` needs to neither panic nor diverge from the segment reading. */
  predicate Extractable(t: Topic, concrete: string)
  {
    t.Valid() && WellFormed(t.segments) && Matches(t.segments, Split(concrete))
  }

  /**
   * The map built by storing `values[j]` under `names[j]` for j = 0, 1, …; a later store
   * wins. Its keys are exactly the names.
   */
  function ParamMap(names: seq<string>, values: seq<string>): (m: map<string, string>)
    requires |names| == |values|
    ensures forall n :: n in m <==> n in names
    decreases |names|
  {
    if names == [] then map[]
    else
      var n := |names| - 1;
      assert names == names[..n] + [names[n]];
      ParamMap(names[..n], values[..n])[names[n] := values[n]]
  }

  /** The match the extraction specifies: the topic itself, and the i-th name bound to the i-th submatch. */
  function Extracted(t: Topic, concrete: string): TopicMatch
    requires Extractable(t, concrete)
  {
    var c := Split(concrete);
    CapturesAlign(t.segments, c, |t.segments|);
    NewTopicMatch(concrete, ParamMap(t.params, Captures(t.segments, c, |t.segments|)))
  }

  /**
   * `extractParamsFromMQTTTopic`: runs the pattern's regular expression on the concrete
   * topic and stores the i-th submatch under the i-th parameter name.
   */
  method ExtractParams(t: Topic, concrete: string) returns (m: TopicMatch)
    requires Extractable(t, concrete)
    ensures m == Extracted(t, concrete)
  {
    var levels := Split(concrete);
    var groups := Captures(t.segments, levels, |t.segments|);
    var names := t.params;
    CapturesAlign(t.segments, levels, |t.segments|);
    var params: map<string, string> := map[];
    for i := 0 to |groups|
      invariant params == ParamMap(names[..i], groups[..i])
    {
      assert names[..i + 1][..i] == names[..i] && groups[..i + 1][..i] == groups[..i];
      params := params[names[i] := groups[i]];
    }
    assert names[..|groups|] == names && groups[..|groups|] == groups;
    m := NewTopicMatch(concrete, params);
  }

  // ---------------------------------------------------------------------------
  // Properties

  /** Under `WellFormed`, `isWildcard` (used by `NewTopic`) and the regular expression agree on which levels are named. */
  lemma WildcardIffNamed(p: seq<string>, i: nat)
    requires WellFormed(p) && i < |p|
    ensures IsWildcard(p[i]) <==> NamedSegment(p[i])
  {
    if !NamedSegment(p[i]) && p[i] != "*" {
      assert LiteralSegment(p[i]);
      if |p[i]| > 0 { assert !RegexMeta(p[i][0]); }
    }
  }

  /** One submatch per named level: as many groups as `NewTopic` collected names. */
  lemma {:induction false} CapturesAlign(p: seq<string>, c: seq<string>, n: nat)
    requires WellFormed(p) && n <= |p| && n <= |c|
    ensures |Captures(p, c, n)| == |NamesUpTo(p, n)|
    decreases n
  {
    if n > 0 {
      CapturesAlign(p, c, n - 1);
      WildcardIffNamed(p, n - 1);
    }
  }

  lemma {:induction false} CapturesPrefix(p: seq<string>, c: seq<string>, n: nat, m: nat)
    requires n <= m <= |p| && m <= |c|
    ensures Captures(p, c, n) <= Captures(p, c, m)
    decreases m
  {
    if m > n {
      CapturesPrefix(p, c, n, m - 1);
    }
  }

  /** With distinct names, each name is bound to the value at its own index. */
  lemma {:induction false} ParamMapAt(names: seq<string>, values: seq<string>, k: nat)
    requires |names| == |values| && Distinct(names) && k < |names|
    ensures names[k] in ParamMap(names, values)
    ensures ParamMap(names, values)[names[k]] == values[k]
    decreases |names|
  {
    var n := |names| - 1;
    var before := ParamMap(names[..n], values[..n]);
    assert ParamMap(names, values) == before[names[n] := values[n]];
    if k < n {
      assert Distinct(names[..n]);
      ParamMapAt(names[..n], values[..n], k);
      assert names[..n][k] == names[k] && values[..n][k] == values[k];
      assert names[k] != names[n];
    }
  }

  /**
   * The meaning of the extraction: the full name is the concrete topic and the keys
   * are exactly the pattern's parameter names, so the part a final `*` takes is never
   * a parameter.
   */
  lemma ExtractedKeys(t: Topic, concrete: string)
    requires Extractable(t, concrete)
    ensures Extracted(t, concrete).fullName == concrete
    ensures forall n :: n in Extracted(t, concrete).params <==> n in t.params
  {
    var p, c := t.segments, Split(concrete);
    CapturesAlign(p, c, |p|);
  }

  /** Each `{name}` is bound to the concrete level at its own position. */
  lemma ExtractedAtPositions(t: Topic, concrete: string)
    requires Extractable(t, concrete)
    ensures forall i :: 0 <= i < |t.segments| && IsWildcard(t.segments[i]) ==>
      ParamName(t.segments[i]) in Extracted(t, concrete).params &&
      Extracted(t, concrete).params[ParamName(t.segments[i])] == Split(concrete)[i]
  {
    var p, c := t.segments, Split(concrete);
    var m := Extracted(t, concrete).params;
    var groups := Captures(p, c, |p|);
    ValidTopicNames(t);
    CapturesAlign(p, c, |p|);
    forall i | 0 <= i < |p| && IsWildcard(p[i])
      ensures ParamName(p[i]) in m && m[ParamName(p[i])] == c[i]
    {
      CaptureAt(t, c, i);
      ParamMapAt(t.params, groups, |NamesUpTo(p, i)|);
    }
  }

  lemma CaptureAt(t: Topic, c: seq<string>, i: nat)
    requires t.Valid() && WellFormed(t.segments) && |t.segments| <= |c|
    requires i < |t.segments| && IsWildcard(t.segments[i])
    ensures |Captures(t.segments, c, |t.segments|)| == |t.params|
    ensures |NamesUpTo(t.segments, i)| < |t.params|
    ensures t.params[|NamesUpTo(t.segments, i)|] == ParamName(t.segments[i])
    ensures Captures(t.segments, c, |t.segments|)[|NamesUpTo(t.segments, i)|] == c[i]
  {
    var p := t.segments;
    WildcardIffNamed(p, i);
    NameAt(p, i);
    CapturesAlign(p, c, i);
    CapturesAlign(p, c, |p|);
    CapturesPrefix(p, c, i + 1, |p|);
  }

  /** A pattern without `{…}` levels yields an empty parameter map. */
  lemma LiteralPatternExtractsNothing(t: Topic, concrete: string)
    requires Extractable(t, concrete)
    requires forall i :: 0 <= i < |t.segments| ==> !IsWildcard(t.segments[i])
    ensures Extracted(t, concrete).params == map[]
  {
    LiteralPatternHasNoNames(t.segments, |t.segments|);
    ExtractedKeys(t, concrete);
  }

  /**
   * End to end: on a message routed with the extracted match, `GetTopicParam` of a
   * pattern's parameter gives the concrete level at that parameter's position, and of
   * any other name gives the empty string.
   */
  lemma GetTopicParamOfExtracted(t: Topic, concrete: string, payload: seq<bv8>, name: string)
    requires Extractable(t, concrete)
    ensures forall i :: 0 <= i < |t.segments| && IsWildcard(t.segments[i]) && ParamName(t.segments[i]) == name ==>
      GetTopicParam(RoutedMessage(Message(payload), Some(Extracted(t, concrete))), name) == Split(concrete)[i]
    ensures name !in t.params ==>
      GetTopicParam(RoutedMessage(Message(payload), Some(Extracted(t, concrete))), name) == ""
  {
    ExtractedKeys(t, concrete);
    ExtractedAtPositions(t, concrete);
  }
}
