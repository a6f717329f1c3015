/**
 * The parts of Go's `strings` package that the topic code relies on:
 * `strings.Split(s, "/")`, `strings.Join(parts, "/")` and `strings.Trim(s, " ")`.
 */
module GoStrings {

  const Separator: char := '/'

  /** `strings.Split(s, "/")`: never empty, and `Split("") == [""]`. */
  function Split(s: string): (parts: seq<string>)
    ensures |parts| >= 1
    ensures forall k :: 0 <= k < |parts| ==> Separator !in parts[k]
    decreases |s|
  {
    if s == [] then [""]
    else if s[0] == Separator then [""] + Split(s[1..])
    else
      var rest := Split(s[1..]);
      [[s[0]] + rest[0]] + rest[1..]
  }

  /** `strings.Join(parts, "/")`. */
  function Join(parts: seq<string>): string
  {
    if parts == [] then ""
    else if |parts| == 1 then parts[0]
    else parts[0] + [Separator] + Join(parts[1..])
  }

  /** Joining the pieces of a split gives back the original string. */
  lemma {:induction false} JoinSplit(s: string)
    ensures Join(Split(s)) == s
    decreases |s|
  {
    if s != [] {
      var tail := s[1..];
      var rest := Split(tail);
      var parts := Split(s);
      JoinSplit(tail);
      if s[0] == Separator {
        assert parts == [""] + rest;
        assert Join(parts) == "" + [Separator] + Join(rest);
        assert s == [Separator] + tail;
      } else if |rest| == 1 {
        assert parts == [[s[0]] + rest[0]];
        assert s == [s[0]] + tail;
      } else {
        assert parts == [[s[0]] + rest[0]] + rest[1..];
        assert |parts| >= 2 && parts[1..] == rest[1..];
        calc {
          Join(parts);
          ([s[0]] + rest[0]) + [Separator] + Join(rest[1..]);
          [s[0]] + (rest[0] + [Separator] + Join(rest[1..]));
          [s[0]] + Join(rest);
        }
        assert s == [s[0]] + tail;
      }
    }
  }

  /** Splitting a join of separator-free pieces gives back the pieces. */
  lemma {:induction false} SplitJoin(parts: seq<string>)
    requires |parts| >= 1
    requires forall k :: 0 <= k < |parts| ==> Separator !in parts[k]
    ensures Split(Join(parts)) == parts
    decreases |parts|, |parts[0]|
  {
    var p := parts[0];
    if p == [] {
      if |parts| > 1 {
        assert Join(parts) == [Separator] + Join(parts[1..]);
        SplitJoin(parts[1..]);
        assert [""] + parts[1..] == parts;
      }
    } else {
      var parts' := [p[1..]] + parts[1..];
      SplitJoin(parts');
      if |parts| == 1 {
        assert Join(parts) == p;
      } else {
        assert Join(parts') == p[1..] + [Separator] + Join(parts[1..]);
        assert Join(parts) == [p[0]] + Join(parts');
      }
      assert Join(parts)[1..] == Join(parts');
      assert [p[0]] + p[1..] == p;
      assert parts'[1..] == parts[1..];
      assert [p] + parts[1..] == parts;
    }
  }

  function TrimLeft(s: string): string
    decreases |s|
  {
    if s != [] && s[0] == ' ' then TrimLeft(s[1..]) else s
  }

  function TrimRight(s: string): string
    decreases |s|
  {
    if s != [] && s[|s| - 1] == ' ' then TrimRight(s[..|s| - 1]) else s
  }

  /**
   * `strings.Trim(s, " ")`: strips every leading and trailing space. The result is
   * empty exactly when `s` is made of spaces only, and otherwise neither starts nor
   * ends with a space.
   */
  function Trim(s: string): (t: string)
    ensures |t| <= |s|
    ensures t != [] ==> t[0] != ' ' && t[|t| - 1] != ' '
    ensures t == [] <==> AllSpaces(s)
  {
    TrimLeftShape(s);
    TrimRightShape(TrimLeft(s));
    TrimmedEmptyIffAllSpaces(s);
    TrimRight(TrimLeft(s))
  }

  /** `TrimLeft` keeps a suffix that does not start with a space, and drops only spaces. */
  lemma {:induction false} TrimLeftShape(s: string)
    ensures |TrimLeft(s)| <= |s| && TrimLeft(s) == s[|s| - |TrimLeft(s)|..]
    ensures AllSpaces(s[..|s| - |TrimLeft(s)|])
    ensures TrimLeft(s) != [] ==> TrimLeft(s)[0] != ' '
    decreases |s|
  {
    if s != [] && s[0] == ' ' {
      TrimLeftShape(s[1..]);
      var r := TrimLeft(s);
      assert s[..|s| - |r|] == [' '] + s[1..][..|s| - 1 - |r|];
    }
  }

  /** `TrimRight` keeps a prefix that does not end with a space, and drops only spaces. */
  lemma {:induction false} TrimRightShape(s: string)
    ensures |TrimRight(s)| <= |s| && TrimRight(s) == s[..|TrimRight(s)|]
    ensures AllSpaces(s[|TrimRight(s)|..])
    ensures TrimRight(s) != [] ==> TrimRight(s)[|TrimRight(s)| - 1] != ' '
    decreases |s|
  {
    if s != [] && s[|s| - 1] == ' ' {
      TrimRightShape(s[..|s| - 1]);
      var r := TrimRight(s);
      assert s[|r|..] == s[..|s| - 1][|r|..] + [' '];
    }
  }

  lemma TrimmedEmptyIffAllSpaces(s: string)
    ensures TrimRight(TrimLeft(s)) == [] <==> AllSpaces(s)
  {
    TrimLeftShape(s);
    var l := TrimLeft(s);
    TrimRightShape(l);
    if TrimRight(l) == [] {
      assert l[0..] == l;
      assert s[..|s| - |l|] == s;
    }
  }

  ghost predicate AllSpaces(s: string)
  {
    forall k :: 0 <= k < |s| ==> s[k] == ' '
  }
}
