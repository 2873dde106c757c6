/** Route patterns: what a compiled pattern matches, and when two patterns overlap. */
module RoutePatterns {

  /** The pieces a compiled pattern is made of: a quoted character, `[^/]+`, and a final `/?`. */
  datatype Piece = Literal(c: char) | Parameter | OptionalSlash

  /** Does the anchored expression match all of s? */
  predicate Match(re: seq<Piece>, s: string)
    decreases |re|
  {
    if re == [] then s == ""
    else
      match re[0]
      case Literal(c) => s != "" && s[0] == c && Match(re[1..], s[1..])
      case Parameter => exists n :: 1 <= n <= |s| && '/' !in s[..n] && Match(re[1..], s[n..])
      case OptionalSlash => Match(re[1..], s) || (s != "" && s[0] == '/' && Match(re[1..], s[1..]))
  }

  /** strings.Split(s, "/") */
  function Split(s: string): (parts: seq<string>)
    ensures |parts| >= 1
  {
    if s == "" then [""]
    else if s[0] == '/' then [""] + Split(s[1..])
    else
      var rest := Split(s[1..]);
      [[s[0]] + rest[0]] + rest[1..]
  }

  function Join(parts: seq<string>): string
    requires |parts| >= 1
  {
    if |parts| == 1 then parts[0] else parts[0] + "/" + Join(parts[1..])
  }

  /** strings.TrimSuffix(s, "/") */
  function DropSlash(s: string): string {
    if s != "" && s[|s| - 1] == '/' then s[..|s| - 1] else s
  }

  predicate IsParameter(segment: string) {
    segment != "" && segment[0] == ':'
  }

  function Quoted(segment: string): seq<Piece> {
    if segment == "" then [] else [Literal(segment[0])] + Quoted(segment[1..])
  }

  function Compiled(segment: string): seq<Piece> {
    if IsParameter(segment) then [Parameter] else Quoted(segment)
  }

  function Joined(parts: seq<seq<Piece>>): seq<Piece>
    requires |parts| >= 1
  {
    if |parts| == 1 then parts[0] else parts[0] + ([Literal('/')] + Joined(parts[1..]))
  }

  function CompiledAll(segments: seq<string>): (parts: seq<seq<Piece>>)
    ensures |parts| == |segments|
    ensures forall i :: 0 <= i < |segments| ==> parts[i] == Compiled(segments[i])
  {
    if segments == [] then [] else [Compiled(segments[0])] + CompiledAll(segments[1..])
  }

  function Pattern(pattern: string): seq<Piece> {
    Joined(CompiledAll(Split(DropSlash(pattern)))) + [OptionalSlash]
  }

  lemma {:induction false} CompiledSegment(segment: string)
    ensures Compiled(segment) == if IsParameter(segment) then [Parameter] else Quoted(segment)
  {
  }

  method CompileRoutePattern(pattern: string) returns (re: seq<Piece>)
    ensures re == Pattern(pattern)
  {
    hide Split, Quoted, Compiled, Joined;
    var trimmed := DropSlash(pattern);
    var segments := Split(trimmed);
    var parts := new seq<Piece>[|segments|](_ => []);
    for i := 0 to |segments|
      invariant forall k :: 0 <= k < i ==> parts[k] == Compiled(segments[k])
    {
      CompiledSegment(segments[i]);
      parts[i] := if IsParameter(segments[i]) then [Parameter] else Quoted(segments[i]);
    }
    assert parts[..] == CompiledAll(segments);
    re := Joined(parts[..]) + [OptionalSlash];
  }

  // ---------------------------------------------------------------- segments

  /** The length of the part before the first slash. */
  function Head(s: string): (n: nat)
    ensures n <= |s| && '/' !in s[..n]
    ensures n < |s| ==> s[n] == '/'
  {
    if s == "" || s[0] == '/' then 0
    else
      assert s[..1 + Head(s[1..])] == [s[0]] + s[1..][..Head(s[1..])];
      1 + Head(s[1..])
  }

  lemma {:induction false} SplitAtHead(s: string)
    ensures Head(s) == |s| ==> Split(s) == [s]
    ensures Head(s) < |s| ==> Split(s) == [s[..Head(s)]] + Split(s[Head(s) + 1..])
  {
    if s != "" && s[0] != '/' {
      SplitAtHead(s[1..]);
      var n := Head(s[1..]);
      assert s == [s[0]] + s[1..];
      assert s[..n + 1] == [s[0]] + s[1..][..n];
      if n < |s| - 1 {
        assert s[1..][n + 1..] == s[n + 2..];
      }
    }
  }

  /** Splitting a text and joining the parts gives it back, and the parts hold no slash. */
  lemma {:induction false} JoinSplit(s: string)
    ensures Join(Split(s)) == s
    ensures forall i :: 0 <= i < |Split(s)| ==> '/' !in Split(s)[i]
    decreases |s|
  {
    SplitAtHead(s);
    if Head(s) < |s| {
      var rest := s[Head(s) + 1..];
      JoinSplit(rest);
      assert Split(s)[1..] == Split(rest);
      assert s == s[..Head(s)] + "/" + rest;
    }
  }

  lemma {:induction false} HeadOf(s: string, n: nat)
    requires n <= |s| && '/' !in s[..n] && (n < |s| ==> s[n] == '/')
    ensures Head(s) == n
  {
    assert forall k :: 0 <= k < n ==> s[k] in s[..n];
    assert forall k :: 0 <= k < Head(s) ==> s[k] in s[..Head(s)];
  }

  /** Joining slash-free parts and splitting the text gives them back. */
  lemma {:induction false} SplitJoin(parts: seq<string>)
    requires |parts| >= 1
    requires forall i :: 0 <= i < |parts| ==> '/' !in parts[i]
    ensures Split(Join(parts)) == parts
    decreases |parts|
  {
    var s := Join(parts);
    assert s[..|parts[0]|] == parts[0];
    HeadOf(s, |parts[0]|);
    SplitAtHead(s);
    if |parts| > 1 {
      assert s[|parts[0]| + 1..] == Join(parts[1..]);
      SplitJoin(parts[1..]);
    }
  }

  // ---------------------------------------------------------------- matching, segment by segment

  predicate Fits(segment: string, part: string) {
    if IsParameter(segment) then part != "" else part == segment
  }

  predicate AllFit(segments: seq<string>, parts: seq<string>) {
    |segments| == |parts| && forall i :: 0 <= i < |segments| ==> Fits(segments[i], parts[i])
  }

  /** The reading a route pattern is meant to have: equal numbers of segments, each literal
      equal and each parameter nonempty, one trailing slash on either side ignored. */
  predicate FitsPath(pattern: string, path: string) {
    AllFit(Split(DropSlash(pattern)), Split(DropSlash(path)))
  }

  lemma {:induction false} MatchQuoted(segment: string, rest: seq<Piece>, s: string)
    ensures Match(Quoted(segment) + rest, s) <==> segment <= s && Match(rest, s[|segment|..])
    decreases |segment|
  {
    var re := Quoted(segment) + rest;
    if segment == "" {
      assert re == rest;
    } else {
      assert re[1..] == Quoted(segment[1..]) + rest;
      if s != "" && s[0] == segment[0] {
        MatchQuoted(segment[1..], rest, s[1..]);
        assert segment <= s <==> segment[1..] <= s[1..] by {
          assert s == [s[0]] + s[1..] && segment == [segment[0]] + segment[1..];
        }
        if segment <= s {
          assert s[1..][|segment| - 1..] == s[|segment|..];
        }
      }
    }
  }

  /** A segment followed by what only a slash can start: the segment takes the whole head. */
  lemma {:induction false} MatchSegment(segment: string, rest: seq<Piece>, s: string)
    requires '/' !in segment
    requires forall t: string | Match(rest, t) :: t == "" || t[0] == '/'
    ensures Match(Compiled(segment) + rest, s) <==> Fits(segment, s[..Head(s)]) && Match(rest, s[Head(s)..])
  {
    var re := Compiled(segment) + rest;
    if IsParameter(segment) {
      assert re[1..] == rest;
      forall n | 1 <= n <= |s| && '/' !in s[..n] && Match(rest, s[n..]) ensures n == Head(s) {
        assert s[n..] == "" || s[n..][0] == '/';
        HeadOf(s, n);
      }
    } else {
      MatchQuoted(segment, rest, s);
      if segment <= s && Match(rest, s[|segment|..]) {
        assert s[|segment|..] == "" || s[|segment|..][0] == '/';
        assert s[..|segment|] == segment;
        HeadOf(s, |segment|);
      }
      if Fits(segment, s[..Head(s)]) {
        assert segment <= s;
      }
    }
  }

  lemma {:induction false} MatchTail(t: string)
    ensures Match([OptionalSlash], t) <==> t == "" || t == "/"
  {
    assert [OptionalSlash][1..] == [];
    assert t != "" && t[1..] == "" ==> t == [t[0]];
  }

  lemma {:induction false} MatchSlash(rest: seq<Piece>, t: string)
    ensures Match([Literal('/')] + rest, t) <==> t != "" && t[0] == '/' && Match(rest, t[1..])
  {
    assert ([Literal('/')] + rest)[1..] == rest;
  }

  /** A match is a segment-wise fit, with or without one slash more at the end. */
  lemma {:induction false} MatchSegments(segments: seq<string>, s: string)
    requires |segments| >= 1
    requires forall i :: 0 <= i < |segments| ==> '/' !in segments[i]
    ensures Match(Joined(CompiledAll(segments)) + [OptionalSlash], s) <==>
              AllFit(segments, Split(s))
              || (s != "" && s[|s| - 1] == '/' && AllFit(segments, Split(s[..|s| - 1])))
    decreases |segments|
  {
    hide Match, Fits, Compiled, Head, Split;
    if |segments| == 1 {
      LastSegment(segments, s);
    } else {
      FirstSegment(segments, s);
    }
  }

  lemma {:induction false} LastSegment(segments: seq<string>, s: string)
    requires |segments| == 1 && '/' !in segments[0]
    ensures Match(Joined(CompiledAll(segments)) + [OptionalSlash], s) <==>
              AllFit(segments, Split(s))
              || (s != "" && s[|s| - 1] == '/' && AllFit(segments, Split(s[..|s| - 1])))
  {
    hide Match, Fits, Compiled, Head, Split;
    var h := Head(s);
    forall t: string | Match([OptionalSlash], t) ensures t == "" || t[0] == '/' {
      MatchTail(t);
    }
    assert CompiledAll(segments) == [Compiled(segments[0])];
    MatchSegment(segments[0], [OptionalSlash], s);
    MatchTail(s[h..]);
    SplitAtHead(s);
    if h < |s| {
      if |s| == h + 1 {
        assert s[h..] == "/" && s[..|s| - 1] == s[..h];
        HeadOf(s[..h], h);
        SplitAtHead(s[..h]);
      } else {
        var front := s[..|s| - 1];
        assert front[..h] == s[..h];
        HeadOf(front, h);
        SplitAtHead(front);
      }
    } else {
      assert s[..h] == s;
      assert s != "" ==> s[|s| - 1] in s;
    }
  }

  /** What a text without its last slash splits into, behind the first segment. */
  lemma {:induction false} SplitFront(segments: seq<string>, s: string)
    requires |segments| > 1 && Head(s) < |s| && s[|s| - 1] == '/'
    ensures var after := s[Head(s) + 1..];
            AllFit(segments, Split(s[..|s| - 1])) <==>
              && after != "" && after[|after| - 1] == '/'
              && Fits(segments[0], s[..Head(s)]) && AllFit(segments[1..], Split(after[..|after| - 1]))
  {
    hide Fits, Split;
    var h, after, front := Head(s), s[Head(s) + 1..], s[..|s| - 1];
    if after != "" {
      assert front[..h] == s[..h] && front[h + 1..] == after[..|after| - 1];
      HeadOf(front, h);
      SplitAtHead(front);
      AllFitCons(segments, s[..h], Split(after[..|after| - 1]));
    } else {
      assert front == s[..h];
      HeadOf(front, h);
      SplitAtHead(front);
    }
  }

  lemma {:induction false} JoinedFirst(segments: seq<string>)
    requires |segments| > 1
    ensures Joined(CompiledAll(segments)) + [OptionalSlash]
            == Compiled(segments[0]) + ([Literal('/')] + (Joined(CompiledAll(segments[1..])) + [OptionalSlash]))
  {
    hide Compiled;
    assert CompiledAll(segments)[1..] == CompiledAll(segments[1..]);
  }

  /** A match of several segments is a fit of the first, a slash, and a match of the others. */
  lemma {:induction false} MatchFirst(segments: seq<string>, s: string)
    requires |segments| > 1 && '/' !in segments[0]
    ensures Match(Joined(CompiledAll(segments)) + [OptionalSlash], s) <==>
              && Head(s) < |s| && Fits(segments[0], s[..Head(s)])
              && Match(Joined(CompiledAll(segments[1..])) + [OptionalSlash], s[Head(s) + 1..])
  {
    hide Match, Fits, Compiled, CompiledAll, Joined, Head, Split;
    var h := Head(s);
    var tail := Joined(CompiledAll(segments[1..])) + [OptionalSlash];
    var rest := [Literal('/')] + tail;
    forall t: string | Match(rest, t) ensures t == "" || t[0] == '/' {
      MatchSlash(tail, t);
    }
    JoinedFirst(segments);
    MatchSegment(segments[0], rest, s);
    MatchSlash(tail, s[h..]);
    assert h < |s| ==> s[h..][1..] == s[h + 1..];
  }

  lemma {:induction false} FirstSegment(segments: seq<string>, s: string)
    requires |segments| > 1
    requires forall i :: 0 <= i < |segments| ==> '/' !in segments[i]
    ensures Match(Joined(CompiledAll(segments)) + [OptionalSlash], s) <==>
              AllFit(segments, Split(s))
              || (s != "" && s[|s| - 1] == '/' && AllFit(segments, Split(s[..|s| - 1])))
    decreases |segments|, 0
  {
    hide Match, Fits, Compiled, CompiledAll, Joined, Head, Split, AllFit;
    var h := Head(s);
    MatchFirst(segments, s);
    SplitAtHead(s);
    if h < |s| {
      var after := s[h + 1..];
      MatchSegments(segments[1..], after);
      AllFitCons(segments, s[..h], Split(after));
      if s[|s| - 1] == '/' {
        SplitFront(segments, s);
      }
      assert after != "" ==> after[|after| - 1] == s[|s| - 1];
    } else {
      OneSegment(segments, s);
    }
  }

  /** A text without a slash does not fit several segments, whatever its end. */
  lemma {:induction false} OneSegment(segments: seq<string>, s: string)
    requires |segments| > 1 && Head(s) == |s|
    ensures !AllFit(segments, Split(s)) && (s != "" ==> s[|s| - 1] != '/')
  {
    SplitAtHead(s);
    assert s != "" ==> s[|s| - 1] in s[..|s|];
  }

  lemma {:induction false} AllFitCons(segments: seq<string>, part: string, parts: seq<string>)
    requires |segments| >= 1
    ensures AllFit(segments, [part] + parts) <==> Fits(segments[0], part) && AllFit(segments[1..], parts)
  {
    var all := [part] + parts;
    if AllFit(segments, all) {
      assert Fits(segments[0], all[0]);
      forall i | 0 <= i < |parts| ensures Fits(segments[1..][i], parts[i]) {
        assert Fits(segments[i + 1], all[i + 1]);
      }
    }
    if Fits(segments[0], part) && AllFit(segments[1..], parts) {
      forall i | 0 <= i < |segments| ensures Fits(segments[i], all[i]) {
        assert i > 0 ==> Fits(segments[1..][i - 1], parts[i - 1]);
      }
    }
  }

  predicate EndsInTwoSlashes(s: string) {
    |s| >= 2 && s[|s| - 1] == '/' && s[|s| - 2] == '/'
  }

  lemma {:induction false} LastPart(s: string)
    ensures |Split(s)| == 1 ==> '/' !in s
    ensures |Split(s)| > 1 ==> (Split(s)[|Split(s)| - 1] == "" <==> s != "" && s[|s| - 1] == '/')
    ensures |Split(s)| > 1 && s[|s| - 1] == '/' ==> |Split(s[..|s| - 1])| == |Split(s)| - 1
    decreases |s|
  {
    SplitAtHead(s);
    if Head(s) < |s| {
      var rest := s[Head(s) + 1..];
      LastPart(rest);
      var front := s[..|s| - 1];
      if rest == "" {
        HeadOf(front, |front|);
        SplitAtHead(front);
      } else if rest[|rest| - 1] == '/' {
        assert front[..Head(s)] == s[..Head(s)];
        HeadOf(front, Head(s));
        SplitAtHead(front);
        assert front[Head(s) + 1..] == rest[..|rest| - 1];
        assert '/' in rest;
      } else if |Split(rest)| == 1 {
        JoinSplit(rest);
      }
    } else {
      assert s[..Head(s)] == s;
    }
  }

  lemma {:induction false} NothingFitsNothing(segments: seq<string>, parts: seq<string>)
    requires AllFit(segments, parts) && |parts| >= 1 && parts[|parts| - 1] == ""
    ensures segments[|segments| - 1] == ""
  {
    assert Fits(segments[|segments| - 1], parts[|parts| - 1]);
  }

  lemma {:induction false} EmptyLastSegment(pattern: string, path: string)
    requires path != "" && path[|path| - 1] == '/'
    requires AllFit(Split(DropSlash(pattern)), Split(path))
    ensures EndsInTwoSlashes(pattern)
  {
    hide Match, Fits, Head, Split;
    assert path[|path| - 1] in path;
    LastPart(path);
    LastPart(DropSlash(pattern));
    NothingFitsNothing(Split(DropSlash(pattern)), Split(path));
  }

  lemma {:induction false} PatternFitsPath(pattern: string, path: string)
    requires !EndsInTwoSlashes(pattern)
    ensures Match(Pattern(pattern), path) <==> FitsPath(pattern, path)
  {
    hide Match, Fits, Head, Split;
    var segments := Split(DropSlash(pattern));
    JoinSplit(DropSlash(pattern));
    MatchSegments(segments, path);
    if path != "" && path[|path| - 1] == '/' {
      if AllFit(segments, Split(path)) {
        EmptyLastSegment(pattern, path);
        assert false;
      }
    }
  }

  lemma {:induction false} EverySegmentFitsItself(segments: seq<string>)
    ensures AllFit(segments, segments)
  {
  }

  /** A pattern that ends in two slashes is matched by a path it does not fit: itself, less one. */
  lemma {:induction false} TwoSlashesMisfit(pattern: string)
    requires EndsInTwoSlashes(pattern)
    ensures Match(Pattern(pattern), DropSlash(pattern)) && !FitsPath(pattern, DropSlash(pattern))
  {
    hide Match, Fits, Head, Split;
    var trimmed := DropSlash(pattern);
    JoinSplit(trimmed);
    MatchSegments(Split(trimmed), trimmed);
    EverySegmentFitsItself(Split(trimmed));
    LastPart(trimmed);
    assert trimmed[|trimmed| - 1] in trimmed;
  }

  /** The compiled pattern agrees with the segment-wise reading on every path exactly when the
      pattern does not end in two slashes. */
  lemma {:induction false} PatternReadsSegments(pattern: string)
    ensures (forall path :: Match(Pattern(pattern), path) <==> FitsPath(pattern, path)) <==> !EndsInTwoSlashes(pattern)
  {
    hide Match, FitsPath, Pattern, EndsInTwoSlashes;
    if EndsInTwoSlashes(pattern) {
      TwoSlashesMisfit(pattern);
    } else {
      forall path ensures Match(Pattern(pattern), path) <==> FitsPath(pattern, path) {
        PatternFitsPath(pattern, path);
      }
    }
  }

  lemma {:induction false} JoinEndsWithLast(parts: seq<string>)
    requires |parts| >= 1 && parts[|parts| - 1] != ""
    ensures var s, last := Join(parts), parts[|parts| - 1];
            s != "" && s[|s| - 1] == last[|last| - 1]
  {
    if |parts| > 1 {
      JoinEndsWithLast(parts[1..]);
    }
  }

  lemma {:induction false} SlashIsDropped(parts: seq<string>, slash: bool)
    requires |parts| >= 1 && parts[|parts| - 1] != "" && forall i :: 0 <= i < |parts| ==> '/' !in parts[i]
    ensures var s := Join(parts) + if slash then "/" else "";
            DropSlash(s) == Join(parts) && !EndsInTwoSlashes(s) && Split(DropSlash(s)) == parts
  {
    JoinEndsWithLast(parts);
    SplitJoin(parts);
    var last := parts[|parts| - 1];
    assert last[|last| - 1] in last;
    assert Join(parts) + "" == Join(parts);
  }

  /** A pattern matches a path, each written with or without a slash at the end, exactly when they
      have equally many segments, where the pattern has ":..." the path has something, and
      elsewhere they agree. */
  lemma {:induction false} PatternMatchesExactly(
      segments: seq<string>, slash: bool, parts: seq<string>, pathSlash: bool)
    requires |segments| >= 1 && segments[|segments| - 1] != "" && forall i :: 0 <= i < |segments| ==> '/' !in segments[i]
    requires |parts| >= 1 && parts[|parts| - 1] != "" && forall i :: 0 <= i < |parts| ==> '/' !in parts[i]
    ensures Match(Pattern(Join(segments) + if slash then "/" else ""), Join(parts) + if pathSlash then "/" else "") <==>
              && |segments| == |parts|
              && forall i :: 0 <= i < |segments| ==>
                   if segments[i] != "" && segments[i][0] == ':' then parts[i] != "" else parts[i] == segments[i]
  {
    var pattern, path := Join(segments) + if slash then "/" else "", Join(parts) + if pathSlash then "/" else "";
    SlashIsDropped(segments, slash);
    SlashIsDropped(parts, pathSlash);
    FitsInWords(segments, parts);
    assert FitsPath(pattern, path) <==> AllFit(segments, parts);
    hide Match, Pattern, Split, Join, DropSlash, EndsInTwoSlashes, AllFit, FitsPath;
    PatternReadsSegments(pattern);
  }

  lemma {:induction false} FitsInWords(segments: seq<string>, parts: seq<string>)
    ensures AllFit(segments, parts) <==>
              && |segments| == |parts|
              && forall i :: 0 <= i < |segments| ==>
                   if segments[i] != "" && segments[i][0] == ':' then parts[i] != "" else parts[i] == segments[i]
  {
    if |segments| == |parts| {
      forall i | 0 <= i < |segments|
        ensures Fits(segments[i], parts[i]) <==>
                if segments[i] != "" && segments[i][0] == ':' then parts[i] != "" else parts[i] == segments[i]
      {
      }
    }
  }

  // ---------------------------------------------------------------- overlap

  ghost predicate Overlap(one: string, other: string) {
    exists path :: Match(Pattern(one), path) && Match(Pattern(other), path)
  }

  /** Some text fits both segments: they are equal, or one is a parameter and the other not empty. */
  predicate Compatible(a: string, b: string) {
    a == b || (IsParameter(a) && b != "") || (IsParameter(b) && a != "")
  }

  predicate AllCompatible(one: seq<string>, other: seq<string>) {
    |one| == |other| && forall i :: 0 <= i < |one| ==> Compatible(one[i], other[i])
  }

  /** A text for every position of two compatible patterns: the literal where there is one. */
  function Common(one: seq<string>, other: seq<string>): (parts: seq<string>)
    requires |one| == |other|
    ensures |parts| == |one|
    ensures forall i :: 0 <= i < |one| ==> parts[i] == if IsParameter(one[i]) then other[i] else one[i]
  {
    if one == [] then []
    else [if IsParameter(one[0]) then other[0] else one[0]] + Common(one[1..], other[1..])
  }

  lemma {:induction false} CommonFits(one: seq<string>, other: seq<string>)
    requires AllCompatible(one, other)
    ensures AllFit(one, Common(one, other)) && AllFit(other, Common(one, other))
  {
    forall i | 0 <= i < |one| ensures Fits(one[i], Common(one, other)[i]) && Fits(other[i], Common(one, other)[i]) {
      assert Compatible(one[i], other[i]);
    }
  }

  lemma {:induction false} FitsBothIsCompatible(one: seq<string>, other: seq<string>, parts: seq<string>)
    requires AllFit(one, parts) && AllFit(other, parts)
    ensures AllCompatible(one, other)
  {
    forall i | 0 <= i < |one| ensures Compatible(one[i], other[i]) {
      assert Fits(one[i], parts[i]) && Fits(other[i], parts[i]);
    }
  }

  /** Some path fits both lists of segments, slash for slash. */
  ghost predicate Meet(one: seq<string>, other: seq<string>) {
    exists parts :: AllFit(one, parts) && AllFit(other, parts)
  }

  lemma {:induction false} MeetIsCompatibility(one: seq<string>, other: seq<string>)
    ensures Meet(one, other) <==> AllCompatible(one, other)
  {
    hide AllFit;
    if Meet(one, other) {
      var parts :| AllFit(one, parts) && AllFit(other, parts);
      FitsBothIsCompatible(one, other, parts);
    }
    if AllCompatible(one, other) {
      CommonFits(one, other);
    }
  }

  /** Without its last slash a path has one empty segment less. */
  lemma {:induction false} SplitSlash(t: string)
    ensures Split(t + "/") == Split(t) + [""]
    decreases |t|
  {
    if t == "" {
      assert (t + "/")[1..] == "";
      assert Split("/") == [""] + Split("");
    } else {
      SplitSlash(t[1..]);
      assert (t + "/")[1..] == t[1..] + "/";
    }
  }

  lemma {:induction false} FitsOneMore(segments: seq<string>, parts: seq<string>)
    ensures AllFit(segments + [""], parts + [""]) <==> AllFit(segments, parts)
  {
    var more, rest := segments + [""], parts + [""];
    if AllFit(more, rest) {
      forall i | 0 <= i < |segments| ensures Fits(segments[i], parts[i]) {
        assert Fits(more[i], rest[i]);
      }
    }
  }

  /** What a path has to be to match: text that fits the segments, or that and a slash. */
  predicate Reads(segments: seq<string>, path: string) {
    AllFit(segments, Split(path)) || (path != "" && path[|path| - 1] == '/' && AllFit(segments, Split(path[..|path| - 1])))
  }

  lemma {:induction false} PatternReads(pattern: string, path: string)
    ensures Match(Pattern(pattern), path) <==> Reads(Split(DropSlash(pattern)), path)
  {
    hide Match, AllFit, Split;
    JoinSplit(DropSlash(pattern));
    MatchSegments(Split(DropSlash(pattern)), path);
  }

  /** A path of both patterns fits both as it is, or one of them only less its last slash. */
  lemma {:induction false} CommonPathMeets(ones: seq<string>, others: seq<string>, path: string)
    requires Reads(ones, path) && Reads(others, path)
    ensures Meet(ones, others) || Meet(ones, others + [""]) || Meet(ones + [""], others)
  {
    hide AllFit, Split;
    if path != "" && path[|path| - 1] == '/' {
      var t := path[..|path| - 1];
      assert path == t + "/";
      SplitSlash(t);
      FitsOneMore(ones, Split(t));
      FitsOneMore(others, Split(t));
      assert AllFit(ones, Split(path)) || AllFit(ones, Split(t));
      assert AllFit(others, Split(path)) || AllFit(others, Split(t));
    } else {
      assert AllFit(ones, Split(path)) && AllFit(others, Split(path));
    }
  }

  lemma {:induction false} NoSlashInFit(segments: seq<string>, parts: seq<string>)
    requires AllCompatible(segments, parts)
    requires forall i :: 0 <= i < |segments| ==> '/' !in segments[i]
    requires forall i :: 0 <= i < |parts| ==> '/' !in parts[i]
    ensures forall i :: 0 <= i < |segments| ==> '/' !in Common(segments, parts)[i]
  {
  }

  /** Where two slash-free lists meet, the joined common parts are a path of both. */
  lemma {:induction false} MeetingPath(ones: seq<string>, others: seq<string>) returns (path: string)
    requires Meet(ones, others) && |ones| >= 1
    requires forall i :: 0 <= i < |ones| ==> '/' !in ones[i]
    requires forall i :: 0 <= i < |others| ==> '/' !in others[i]
    ensures AllFit(ones, Split(path)) && AllFit(others, Split(path))
  {
    MeetIsCompatibility(ones, others);
    CommonFits(ones, others);
    NoSlashInFit(ones, others);
    SplitJoin(Common(ones, others));
    path := Join(Common(ones, others));
  }

  lemma {:induction false} ReadsOneMore(segments: seq<string>, path: string)
    requires |segments| >= 1 && AllFit(segments + [""], Split(path))
    ensures Reads(segments, path)
  {
    var parts := Split(path);
    JoinSplit(path);
    assert Fits((segments + [""])[|segments|], parts[|parts| - 1]);
    LastPart(path);
    assert path[|path| - 1] == '/';
    var t := path[..|path| - 1];
    assert path == t + "/";
    SplitSlash(t);
    FitsOneMore(segments, Split(t));
  }

  /** Any two patterns overlap if and only if their segments are compatible, position by position,
      where either pattern may have one empty segment more: that is a path with a slash more. */
  lemma {:induction false} AnyOverlap(one: string, other: string)
    ensures var ones, others := Split(DropSlash(one)), Split(DropSlash(other));
            Overlap(one, other) <==>
              AllCompatible(ones, others) || AllCompatible(ones, others + [""]) || AllCompatible(ones + [""], others)
  {
    hide Match, Pattern, Reads, AllFit, Split, AllCompatible, Meet;
    var ones, others := Split(DropSlash(one)), Split(DropSlash(other));
    MeetIsCompatibility(ones, others);
    MeetIsCompatibility(ones, others + [""]);
    MeetIsCompatibility(ones + [""], others);
    if Overlap(one, other) {
      var path :| Match(Pattern(one), path) && Match(Pattern(other), path);
      PatternReads(one, path);
      PatternReads(other, path);
      CommonPathMeets(ones, others, path);
    }
    JoinSplit(DropSlash(one));
    JoinSplit(DropSlash(other));
    if Meet(ones, others) {
      var path := MeetingPath(ones, others);
      ReadsAsItIs(ones, path);
      ReadsAsItIs(others, path);
      BothMatch(one, other, path);
    }
    if Meet(ones, others + [""]) {
      var path := MeetingPath(ones, others + [""]);
      ReadsAsItIs(ones, path);
      ReadsOneMore(others, path);
      BothMatch(one, other, path);
    }
    if Meet(ones + [""], others) {
      var path := MeetingPath(ones + [""], others);
      ReadsOneMore(ones, path);
      ReadsAsItIs(others, path);
      BothMatch(one, other, path);
    }
  }

  lemma {:induction false} ReadsAsItIs(segments: seq<string>, path: string)
    requires AllFit(segments, Split(path))
    ensures Reads(segments, path)
  {
  }

  lemma {:induction false} BothMatch(one: string, other: string, path: string)
    requires Reads(Split(DropSlash(one)), path) && Reads(Split(DropSlash(other)), path)
    ensures Overlap(one, other)
  {
    hide Match, Pattern, Reads, Split;
    PatternReads(one, path);
    PatternReads(other, path);
  }

  /** A pattern that does not end in two slashes has no segment to match an empty one more. */
  lemma {:induction false} NothingMore(one: string, others: seq<string>)
    requires !EndsInTwoSlashes(one) && |others| >= 1
    ensures !AllCompatible(Split(DropSlash(one)), others + [""])
  {
    hide Split, AllCompatible;
    var ones := Split(DropSlash(one));
    LastPart(DropSlash(one));
    if AllCompatible(ones, others + [""]) {
      LastCompatible(ones, others + [""]);
      assert false;
    }
  }

  lemma {:induction false} LastCompatible(one: seq<string>, other: seq<string>)
    requires AllCompatible(one, other) && |one| >= 1
    ensures |one| == |other| && Compatible(one[|one| - 1], other[|one| - 1])
  {
  }

  /** Two patterns that do not end in two slashes overlap if and only if they have equally many
      segments and each position is compatible. */
  lemma {:induction false} OverlapIsCompatibility(one: string, other: string)
    requires !EndsInTwoSlashes(one) && !EndsInTwoSlashes(other)
    ensures Overlap(one, other) <==> AllCompatible(Split(DropSlash(one)), Split(DropSlash(other)))
  {
    hide Overlap, Split, AllCompatible, EndsInTwoSlashes;
    var ones, others := Split(DropSlash(one)), Split(DropSlash(other));
    AnyOverlap(one, other);
    NothingMore(one, others);
    NothingMore(other, ones);
    CompatibleBothWays(ones + [""], others);
    CompatibleBothWays(others, ones + [""]);
  }

  lemma {:induction false} CompatibleBothWays(a: seq<string>, b: seq<string>)
    ensures AllCompatible(a, b) ==> AllCompatible(b, a)
  {
  }

  /** Outside that they need not have: a pattern ending in two slashes and one with a segment less
      share a path. */
  lemma {:induction false} SlashesOverlap()
    ensures Overlap("/a//", "/a") && |Split(DropSlash("/a//"))| == |Split(DropSlash("/a"))| + 1
  {
    SplitSlash("/a");
    assert DropSlash("/a//") == "/a" + "/" && DropSlash("/a") == "/a";
    var ones, others := Split(DropSlash("/a//")), Split(DropSlash("/a"));
    AnyOverlap("/a//", "/a");
    assert AllCompatible(ones, others + [""]);
  }
}
