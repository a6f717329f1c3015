/**
 * Translation of a topic pattern to the wildcard syntax of MQTT Version 3.1.1
 * (section 4.7.1): a named wildcard `{name}` becomes the single-level wildcard `+`
 * (section 4.7.1.3) and `*` becomes the multi-level wildcard `#` (section 4.7.1.2).
 * subscribers/mqtt.go and publishers/mqtt.go each carry an identical copy of
 * `toMQTTTopic`; it is defined once here.
 */
module MqttTopics {
  import opened GoStrings

  /** Index of the first `}` in `s`, or `|s|` when there is none. */
  function FirstClose(s: string): (k: nat)
    ensures k <= |s|
    ensures k < |s| ==> s[k] == '}'
    ensures forall j :: 0 <= j < k ==> s[j] != '}'
    decreases |s|
  {
    if s == [] || s[0] == '}' then 0 else 1 + FirstClose(s[1..])
  }

  /**
   * `regexp.MustCompile(`\{[^}]+\}`).ReplaceAllString(s, "+")`: scanning left to right,
   * a `{` followed by at least one character and then the first `}` after it is
   * replaced, braces included, by `+`; every other character is kept. The result is
   * never longer, and each of its characters is a `+` or comes from `s`.
   */
  function ReplaceNamedWildcards(s: string): (r: string)
    ensures |r| <= |s|
    ensures forall k :: 0 <= k < |r| ==> r[k] == '+' || r[k] in s
    decreases |s|
  {
    if s == [] then []
    else if s[0] == '{' && 1 <= FirstClose(s[1..]) < |s| - 1 then
      var rest := s[FirstClose(s[1..]) + 2..];
      assert forall c :: c in rest ==> c in s;
      "+" + ReplaceNamedWildcards(rest)
    else
      assert forall c :: c in s[1..] ==> c in s;
      [s[0]] + ReplaceNamedWildcards(s[1..])
  }

  /** `strings.ReplaceAll(s, "*", "#")`. */
  function ReplaceStars(s: string): (r: string)
    ensures |r| == |s|
    ensures forall k :: 0 <= k < |s| ==> r[k] == (if s[k] == '*' then '#' else s[k])
    decreases |s|
  {
    if s == [] then []
    else [if s[0] == '*' then '#' else s[0]] + ReplaceStars(s[1..])
  }

  /** `toMQTTTopic`: named wildcards first, then stars. The result never holds a `*`. */
  function ToMQTTTopic(pattern: string): (mqtt: string)
    ensures '*' !in mqtt
  {
    ReplaceStars(ReplaceNamedWildcards(pattern))
  }

  // ---------------------------------------------------------------------------
  // Well-formed patterns, on which the regular expressions mean what the segment
  // structure says they mean.

  /** Characters that do not stand for themselves in a Go regular expression. */
  predicate RegexMeta(c: char)
  {
    || c == '\\' || c == '.' || c == '+' || c == '*' || c == '?' || c == '(' || c == ')'
    || c == '|' || c == '[' || c == ']' || c == '{' || c == '}' || c == '^' || c == '$'
  }

  /**
   * A literal segment: no separator, brace, star or other regular-expression
   * metacharacter, and no `#`, which the MQTT filter would read as a wildcard.
   */
  predicate LiteralSegment(s: string)
  {
    forall k :: 0 <= k < |s| ==> s[k] != '/' && s[k] != '#' && !RegexMeta(s[k])
  }

  /** `{name}` with a non-empty name free of `/`, `{` and `}`. */
  predicate NamedSegment(s: string)
  {
    && |s| >= 3 && s[0] == '{' && s[|s| - 1] == '}'
    && forall k :: 1 <= k < |s| - 1 ==> s[k] != '/' && s[k] != '{' && s[k] != '}'
  }

  /** Every segment is a literal, a named wildcard, or a `*` that comes last. */
  predicate WellFormed(segments: seq<string>)
  {
    && |segments| >= 1
    && forall i :: 0 <= i < |segments| ==>
         LiteralSegment(segments[i]) || NamedSegment(segments[i]) ||
         (i == |segments| - 1 && segments[i] == "*")
  }

  /** The MQTT 3.1.1 topic level a well-formed pattern segment stands for. */
  function MqttLevel(s: string): string
  {
    if NamedSegment(s) then "+" else if s == "*" then "#" else s
  }

  function MqttLevels(segments: seq<string>): (levels: seq<string>)
    ensures |levels| == |segments|
    ensures forall i :: 0 <= i < |segments| ==> levels[i] == MqttLevel(segments[i])
  {
    if segments == [] then [] else [MqttLevel(segments[0])] + MqttLevels(segments[1..])
  }

  /**
   * MQTT 3.1.1 topic matching (section 4.7): the topic levels `c` match the filter
   * levels `f` when each filter level is `+` (any one level, section 4.7.1.3) or equal
   * to its topic level, and a final `#` matches its parent level and any number of
   * levels below it (section 4.7.1.2).
   */
  predicate FilterMatches(f: seq<string>, c: seq<string>)
    decreases |f|
  {
    if f == [] then c == []
    else if f[0] == "#" then |f| == 1
    else c != [] && (f[0] == "+" || f[0] == c[0]) && FilterMatches(f[1..], c[1..])
  }

  // ---------------------------------------------------------------------------
  // Properties

  lemma {:induction false} ReplaceNamedKeepsPrefix(a: string, b: string)
    requires '{' !in a
    ensures ReplaceNamedWildcards(a + b) == a + ReplaceNamedWildcards(b)
    decreases |a|
  {
    if a == [] {
      assert a + b == b;
    } else {
      assert (a + b)[0] == a[0] && (a + b)[1..] == a[1..] + b;
      ReplaceNamedKeepsPrefix(a[1..], b);
      assert [a[0]] + a[1..] == a;
    }
  }

  lemma ReplaceNamedAtWildcard(w: string, b: string)
    requires NamedSegment(w)
    ensures ReplaceNamedWildcards(w + b) == "+" + ReplaceNamedWildcards(b)
  {
    var s := w + b;
    var k := FirstClose(s[1..]);
    assert s[1..][|w| - 2] == '}';
    assert forall j :: 0 <= j < |w| - 2 ==> s[1..][j] == w[j + 1];
    assert k == |w| - 2;
    assert s[k + 2..] == b;
  }

  lemma ReplaceStarsAppend(a: string, b: string)
    ensures ReplaceStars(a + b) == ReplaceStars(a) + ReplaceStars(b)
  {
  }

  lemma ReplaceStarsKeepsStarFree(a: string)
    requires '*' !in a
    ensures ReplaceStars(a) == a
  {
  }

  /** A pattern with no `{` and no `*` is translated to itself. */
  lemma LiteralPatternUnchanged(pattern: string)
    requires '{' !in pattern && '*' !in pattern
    ensures ToMQTTTopic(pattern) == pattern
  {
    ReplaceNamedKeepsPrefix(pattern, "");
    assert pattern + "" == pattern;
    ReplaceStarsKeepsStarFree(pattern);
  }

  function NamedToPlus(s: string): string
  {
    if NamedSegment(s) then "+" else s
  }

  function PlusLevels(segments: seq<string>): (levels: seq<string>)
    ensures |levels| == |segments|
    ensures forall i :: 0 <= i < |segments| ==> levels[i] == NamedToPlus(segments[i])
  {
    if segments == [] then [] else [NamedToPlus(segments[0])] + PlusLevels(segments[1..])
  }

  function StarLevels(parts: seq<string>): (levels: seq<string>)
    ensures |levels| == |parts|
    ensures forall i :: 0 <= i < |parts| ==> levels[i] == ReplaceStars(parts[i])
  {
    if parts == [] then [] else [ReplaceStars(parts[0])] + StarLevels(parts[1..])
  }

  lemma WellFormedTail(segments: seq<string>)
    requires WellFormed(segments) && |segments| > 1
    ensures WellFormed(segments[1..])
  {
    var rest := segments[1..];
    forall i | 0 <= i < |rest|
      ensures LiteralSegment(rest[i]) || NamedSegment(rest[i]) || (i == |rest| - 1 && rest[i] == "*")
    {
      assert rest[i] == segments[i + 1];
    }
  }

  lemma ReplaceNamedFirstLevel(s: string, tail: string)
    requires LiteralSegment(s) || NamedSegment(s) || s == "*"
    ensures ReplaceNamedWildcards(s + tail) == NamedToPlus(s) + ReplaceNamedWildcards(tail)
  {
    if NamedSegment(s) {
      ReplaceNamedAtWildcard(s, tail);
    } else {
      assert '{' !in s by {
        if LiteralSegment(s) {
          assert forall k :: 0 <= k < |s| ==> s[k] != '{';
        }
      }
      ReplaceNamedKeepsPrefix(s, tail);
    }
  }

  lemma {:induction false} ReplaceNamedSegmentwise(segments: seq<string>)
    requires WellFormed(segments)
    ensures ReplaceNamedWildcards(Join(segments)) == Join(PlusLevels(segments))
    decreases |segments|
  {
    var s := segments[0];
    if |segments| == 1 {
      ReplaceNamedFirstLevel(s, "");
      assert s + "" == s;
    } else {
      var rest := segments[1..];
      assert Join(segments) == s + ([Separator] + Join(rest));
      ReplaceNamedFirstLevel(s, [Separator] + Join(rest));
      WellFormedTail(segments);
      ReplaceNamedSegmentwise(rest);
      ReplaceNamedKeepsPrefix([Separator], Join(rest));
    }
  }

  lemma {:induction false} ReplaceStarsOverJoin(parts: seq<string>)
    ensures ReplaceStars(Join(parts)) == Join(StarLevels(parts))
    decreases |parts|
  {
    if |parts| > 1 {
      ReplaceStarsOverJoin(parts[1..]);
      ReplaceStarsAppend(parts[0], [Separator] + Join(parts[1..]));
      ReplaceStarsAppend([Separator], Join(parts[1..]));
    }
  }

  /**
   * On a well-formed pattern the translation works level by level: each `{name}`
   * becomes `+`, the final `*` becomes `#`, and every literal level is kept.
   */
  lemma ToMQTTTopicSegmentwise(segments: seq<string>)
    requires WellFormed(segments)
    ensures ToMQTTTopic(Join(segments)) == Join(MqttLevels(segments))
  {
    var plus := PlusLevels(segments);
    ReplaceNamedSegmentwise(segments);
    ReplaceStarsOverJoin(plus);
    var starred := StarLevels(plus);
    forall i | 0 <= i < |segments| ensures starred[i] == MqttLevel(segments[i]) {
      var s := segments[i];
      if NamedSegment(s) {
        assert ReplaceStars("+") == "+";
      } else if s == "*" {
        assert ReplaceStars("*") == "#";
      } else {
        assert LiteralSegment(s);
        assert '*' !in s by {
          assert forall k :: 0 <= k < |s| ==> s[k] != '*';
        }
        ReplaceStarsKeepsStarFree(s);
      }
    }
    assert starred == MqttLevels(segments);
  }

  /**
   * For a well-formed pattern, the translation has the same number of `/`-separated
   * levels as the pattern, and level `i` is the translation of segment `i`.
   */
  lemma ToMQTTTopicKeepsLevels(raw: string)
    requires WellFormed(Split(raw))
    ensures Split(ToMQTTTopic(raw)) == MqttLevels(Split(raw))
    ensures |Split(ToMQTTTopic(raw))| == |Split(raw)|
  {
    var segments := Split(raw);
    JoinSplit(raw);
    ToMQTTTopicSegmentwise(segments);
    var levels := MqttLevels(segments);
    forall i | 0 <= i < |levels| ensures Separator !in levels[i] {
      var s := segments[i];
      if !NamedSegment(s) && s != "*" {
        assert LiteralSegment(s);
      }
    }
    SplitJoin(levels);
  }
}
