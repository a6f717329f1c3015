/**
 * Topic patterns (topic.go): a raw pattern is split on `/`; a segment `{name}` is a
 * named single-level wildcard and a segment `*` is the multi-level wildcard, allowed
 * only as the last segment. `NewTopic` validates a pattern and collects the wildcard
 * names; `TopicMatch` is what matching a concrete topic against a pattern produces.
 */
module Topics {
  import opened Wrappers
  import opened Errors
  import opened GoStrings

  /** `isWildcard`: starts with `{` and ends with `}`; such a segment has room for both braces. */
  function IsWildcard(s: string): (w: bool)
    ensures w ==> |s| >= 2
  {
    |s| > 0 && s[0] == '{' && s[|s| - 1] == '}'
  }

  /**
   * The parameter name of a wildcard segment: the text between the braces, spaces
   * trimmed. It is empty exactly when only spaces stand between the braces.
   */
  function ParamName(s: string): (name: string)
    requires IsWildcard(s)
    ensures |name| <= |s| - 2
    ensures name == "" <==> AllSpaces(s[1..|s| - 1])
    ensures name != "" ==> name[0] != ' ' && name[|name| - 1] != ' '
  {
    Trim(s[1..|s| - 1])
  }

  /** A segment that reads `*` once spaces are trimmed. */
  predicate IsMultiLevel(s: string)
  {
    Trim(s) == "*"
  }

  /** The names of the wildcard segments among the first `n` segments, left to right. */
  function NamesUpTo(segments: seq<string>, n: nat): (names: seq<string>)
    requires n <= |segments|
    ensures |names| <= n
  {
    if n == 0 then []
    else
      var last := segments[n - 1];
      NamesUpTo(segments, n - 1) + (if IsWildcard(last) then [ParamName(last)] else [])
  }

  function Names(segments: seq<string>): seq<string>
  {
    NamesUpTo(segments, |segments|)
  }

  ghost predicate Distinct(xs: seq<string>)
  {
    forall i, j :: 0 <= i < j < |xs| ==> xs[i] != xs[j]
  }

  /**
   * The error that segment `i` raises when every segment before it was accepted:
   * a `*` anywhere but last, then an empty name, then a name already collected.
   */
  function SegmentError(segments: seq<string>, i: nat): Option<Error>
    requires i < |segments|
  {
    var s := segments[i];
    if IsMultiLevel(s) && i != |segments| - 1 then Some(InvalidMultiLevelWildcardPosition)
    else if IsWildcard(s) then
      if ParamName(s) == "" then Some(EmptySingleLevelWildcard)
      else if ParamName(s) in NamesUpTo(segments, i) then Some(DuplicatedSingleLevelWildcard)
      else None
    else None
  }

  /** The error of the leftmost offending segment among the first `n`, if any. */
  function ErrorBefore(segments: seq<string>, n: nat): Option<Error>
    requires n <= |segments|
  {
    if n == 0 then None
    else if ErrorBefore(segments, n - 1).Some? then ErrorBefore(segments, n - 1)
    else SegmentError(segments, n - 1)
  }

  /** The error `NewTopic(raw)` reports, or `None` when `raw` is a valid pattern. */
  function ParseError(raw: string): Option<Error>
  {
    var segments := Split(raw);
    ErrorBefore(segments, |segments|)
  }

  /** A parsed pattern. Go hands out a fresh `*Topic` per `NewTopic` call; so does this class. */
  class Topic {
    const raw: string
    const segments: seq<string>
    const params: seq<string>

    /** What `NewTopic` guarantees of every topic it returns. */
    predicate Valid()
    {
      && segments == Split(raw)
      && ErrorBefore(segments, |segments|).None?
      && params == Names(segments)
    }

    constructor (raw: string, segments: seq<string>, params: seq<string>)
      ensures this.raw == raw && this.segments == segments && this.params == params
    {
      this.raw := raw;
      this.segments := segments;
      this.params := params;
    }
  }

  /**
   * `NewTopic`: splits `raw` on `/` and walks the segments left to right, collecting
   * wildcard names and stopping at the first offending segment.
   */
  method NewTopic(raw: string) returns (t: Topic?, err: Option<Error>)
    ensures err == ParseError(raw)
    ensures t == null <==> err.Some?
    ensures t != null ==> fresh(t) && t.Valid() && t.raw == raw
  {
    var segments := Split(raw);
    var params: seq<string> := [];
    for i := 0 to |segments|
      invariant params == NamesUpTo(segments, i)
      invariant ErrorBefore(segments, i).None?
    {
      var s := segments[i];
      if Trim(s) == "*" && i != |segments| - 1 {
        ErrorBeforeStable(segments, i + 1, |segments|);
        return null, Some(InvalidMultiLevelWildcardPosition);
      }
      if IsWildcard(s) {
        var param := Trim(s[1..|s| - 1]);
        if param == "" {
          ErrorBeforeStable(segments, i + 1, |segments|);
          return null, Some(EmptySingleLevelWildcard);
        }
        if param in params {
          ErrorBeforeStable(segments, i + 1, |segments|);
          return null, Some(DuplicatedSingleLevelWildcard);
        }
        params := params + [param];
      }
    }
    t := new Topic(raw, segments, params);
    err := None;
  }

  /**
   * `NewTopicMatch` and the accessors `FullName` / `Params`: a concrete topic and the
   * value captured for each wildcard name.
   */
  datatype TopicMatch = NewTopicMatch(fullName: string, params: map<string, string>)

  // ---------------------------------------------------------------------------
  // Properties of the parse

  /** Once an error is found, looking at more segments does not change it. */
  lemma {:induction false} ErrorBeforeStable(segments: seq<string>, n: nat, m: nat)
    requires n <= m <= |segments|
    requires ErrorBefore(segments, n).Some?
    ensures ErrorBefore(segments, m) == ErrorBefore(segments, n)
    decreases m
  {
    if m > n {
      ErrorBeforeStable(segments, n, m - 1);
    }
  }

  /**
   * Error precedence: the reported error is that of the leftmost offending segment,
   * and there is no error exactly when no segment offends.
   */
  lemma {:induction false} ErrorIsLeftmost(segments: seq<string>, n: nat, e: Error)
    requires n <= |segments|
    ensures ErrorBefore(segments, n).None? <==> forall i :: 0 <= i < n ==> SegmentError(segments, i).None?
    ensures ErrorBefore(segments, n) == Some(e) <==>
      exists i :: 0 <= i < n && SegmentError(segments, i) == Some(e) &&
        forall j :: 0 <= j < i ==> SegmentError(segments, j).None?
    decreases n
  {
    if n > 0 {
      ErrorIsLeftmost(segments, n - 1, e);
      if ErrorBefore(segments, n - 1).None? {
        if SegmentError(segments, n - 1) == Some(e) {
          assert SegmentError(segments, n - 1) == Some(e) &&
            forall j :: 0 <= j < n - 1 ==> SegmentError(segments, j).None?;
        }
      }
    }
  }

  lemma {:induction false} NamesUpToPrefix(segments: seq<string>, n: nat, m: nat)
    requires n <= m <= |segments|
    ensures NamesUpTo(segments, n) <= NamesUpTo(segments, m)
    decreases m
  {
    if m > n {
      NamesUpToPrefix(segments, n, m - 1);
    }
  }

  /** The name of wildcard segment `i` sits in `Names` after the names of the segments before it. */
  lemma NameAt(segments: seq<string>, i: nat)
    requires i < |segments| && IsWildcard(segments[i])
    ensures |NamesUpTo(segments, i)| < |Names(segments)|
    ensures Names(segments)[|NamesUpTo(segments, i)|] == ParamName(segments[i])
  {
    NamesUpToPrefix(segments, i + 1, |segments|);
  }

  /** Every collected name is the name of some wildcard segment, in position order. */
  lemma {:induction false} NameHasSegment(segments: seq<string>, n: nat, k: nat)
    requires n <= |segments| && k < |NamesUpTo(segments, n)|
    ensures exists i :: (0 <= i < n && IsWildcard(segments[i]) && |NamesUpTo(segments, i)| == k &&
                         NamesUpTo(segments, n)[k] == ParamName(segments[i]))
    decreases n
  {
    if k < |NamesUpTo(segments, n - 1)| {
      NameHasSegment(segments, n - 1, k);
      var i :| 0 <= i < n - 1 && IsWildcard(segments[i]) && |NamesUpTo(segments, i)| == k &&
        NamesUpTo(segments, n - 1)[k] == ParamName(segments[i]);
      assert NamesUpTo(segments, n)[k] == NamesUpTo(segments, n - 1)[k];
    } else {
      assert IsWildcard(segments[n - 1]) && |NamesUpTo(segments, n - 1)| == k;
    }
  }

  /** A parsed topic's segments, joined with `/`, give back the raw pattern. */
  lemma TopicJoinsBack(t: Topic)
    requires t.Valid()
    ensures Join(t.segments) == t.raw
  {
    JoinSplit(t.raw);
  }

  /** A pattern with no `{…}` segment collects no names. */
  lemma {:induction false} LiteralPatternHasNoNames(segments: seq<string>, n: nat)
    requires n <= |segments|
    requires forall i :: 0 <= i < n ==> !IsWildcard(segments[i])
    ensures NamesUpTo(segments, n) == []
    decreases n
  {
    if n > 0 {
      LiteralPatternHasNoNames(segments, n - 1);
    }
  }

  ghost predicate NonEmpty(names: seq<string>)
  {
    forall k :: 0 <= k < |names| ==> names[k] != ""
  }

  /** The pattern rules checked over the first `n` segments, stated without reference to the walk. */
  ghost predicate AcceptedUpTo(segments: seq<string>, n: nat)
    requires n <= |segments|
  {
    && (forall i :: 0 <= i < n && i != |segments| - 1 ==> !IsMultiLevel(segments[i]))
    && NonEmpty(NamesUpTo(segments, n))
    && Distinct(NamesUpTo(segments, n))
  }

  /**
   * `NewTopic` accepts a pattern exactly when `*` appears (trimmed) only as the last
   * segment, and the wildcard names are non-empty and pairwise distinct.
   */
  lemma {:induction false} AcceptedIff(segments: seq<string>, n: nat)
    requires n <= |segments|
    ensures ErrorBefore(segments, n).None? <==> AcceptedUpTo(segments, n)
    decreases n
  {
    if n > 0 {
      AcceptedIff(segments, n - 1);
      if ErrorBefore(segments, n).None? {
        AcceptedStep(segments, n);
      }
      if AcceptedUpTo(segments, n) {
        AcceptedPrefix(segments, n);
      }
    }
  }

  /** A segment that raises no error keeps the rules satisfied one segment further. */
  lemma AcceptedStep(segments: seq<string>, n: nat)
    requires 0 < n <= |segments|
    requires AcceptedUpTo(segments, n - 1) && SegmentError(segments, n - 1).None?
    ensures AcceptedUpTo(segments, n)
  {
    var s := segments[n - 1];
    var prev := NamesUpTo(segments, n - 1);
    var names := NamesUpTo(segments, n);
    if IsWildcard(s) {
      assert names == prev + [ParamName(s)];
      forall i, j | 0 <= i < j < |names| ensures names[i] != names[j] {
        if j == |prev| {
          assert names[i] == prev[i];
        } else {
          assert names[i] == prev[i] && names[j] == prev[j];
        }
      }
      forall k | 0 <= k < |names| ensures names[k] != "" {
        if k < |prev| { assert names[k] == prev[k]; }
      }
    }
  }

  /** The rules over `n` segments hold over the first `n - 1`, and segment `n - 1` raises no error. */
  lemma AcceptedPrefix(segments: seq<string>, n: nat)
    requires 0 < n <= |segments|
    requires AcceptedUpTo(segments, n)
    ensures AcceptedUpTo(segments, n - 1) && SegmentError(segments, n - 1).None?
  {
    var s := segments[n - 1];
    var prev := NamesUpTo(segments, n - 1);
    var names := NamesUpTo(segments, n);
    assert prev <= names;
    forall i, j | 0 <= i < j < |prev| ensures prev[i] != prev[j] {
      assert names[i] != names[j];
    }
    forall k | 0 <= k < |prev| ensures prev[k] != "" {
      assert names[k] != "";
    }
    if IsWildcard(s) {
      assert names == prev + [ParamName(s)];
      assert names[|prev|] != "";
      forall i | 0 <= i < |prev| ensures prev[i] != ParamName(s) {
        assert names[i] != names[|prev|];
      }
    }
  }

  /** What `NewTopic` guarantees of the names it collects: none empty, none repeated. */
  lemma ValidTopicNames(t: Topic)
    requires t.Valid()
    ensures NonEmpty(t.params) && Distinct(t.params)
    ensures forall i :: 0 <= i < |t.segments| - 1 ==> !IsMultiLevel(t.segments[i])
  {
    AcceptedIff(t.segments, |t.segments|);
  }

  /** The segment is a single `*` with nothing but spaces around it. */
  ghost predicate PaddedStar(s: string)
  {
    exists i :: 0 <= i < |s| && s[i] == '*' && AllSpaces(s[..i]) && AllSpaces(s[i + 1..])
  }

  /** The `*` check of `NewTopic` accepts exactly a `*` padded with spaces. */
  lemma MultiLevelIffPaddedStar(s: string)
    ensures IsMultiLevel(s) <==> PaddedStar(s)
  {
    var l := TrimLeft(s);
    var i := |s| - |l|;
    TrimLeftShape(s);
    TrimRightShape(l);
    if Trim(s) == "*" {
      assert l[0] == '*' && s[i] == l[0];
      assert s[i + 1..] == l[1..];
      assert 0 <= i < |s| && s[i] == '*' && AllSpaces(s[..i]) && AllSpaces(s[i + 1..]);
    }
    if PaddedStar(s) {
      var j :| 0 <= j < |s| && s[j] == '*' && AllSpaces(s[..j]) && AllSpaces(s[j + 1..]);
      TrimLeftAt(s, j);
      assert s[j..][1..] == s[j + 1..];
      TrimRightAt(s[j..], 1);
    }
  }

  /** Leading spaces up to a non-space at `j` are exactly what `TrimLeft` drops. */
  lemma {:induction false} TrimLeftAt(s: string, j: nat)
    requires j < |s| && s[j] != ' ' && AllSpaces(s[..j])
    ensures TrimLeft(s) == s[j..]
    decreases j
  {
    if j > 0 {
      assert s[0] == s[..j][0];
      assert s[1..][..j - 1] == s[..j][1..];
      TrimLeftAt(s[1..], j - 1);
      assert s[1..][j - 1..] == s[j..];
    }
  }

  /** Trailing spaces after a non-space at `m - 1` are exactly what `TrimRight` drops. */
  lemma {:induction false} TrimRightAt(s: string, m: nat)
    requires 0 < m <= |s| && s[m - 1] != ' ' && AllSpaces(s[m..])
    ensures TrimRight(s) == s[..m]
    decreases |s|
  {
    if m < |s| {
      assert s[|s| - 1] == s[m..][|s| - 1 - m];
      var s' := s[..|s| - 1];
      assert s'[m..] == s[m..][..|s| - 1 - m];
      TrimRightAt(s', m);
      assert s'[..m] == s[..m];
    }
  }
}
