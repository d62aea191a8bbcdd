/** The segment-by-segment reading of a glob, and when it is the one the compiled pattern has. */
module GlobSegments {
  import opened Text
  import opened GlobRegex

  /** The parts of a path between slashes; always at least one. */
  function Segments(path: string): (segs: seq<string>)
    ensures segs != [] && forall s :: s in segs ==> NoSlash(s)
  {
    if path == "" then [""]
    else
      var rest := Segments(path[1..]);
      assert rest[0] in rest;
      if path[0] == '/' then [""] + rest else [[path[0]] + rest[0]] + rest[1..]
  }

  function JoinSlash(segs: seq<string>): string {
    if segs == [] then ""
    else if |segs| == 1 then segs[0]
    else segs[0] + "/" + JoinSlash(segs[1..])
  }

  lemma {:induction false} JoinSegments(path: string)
    ensures JoinSlash(Segments(path)) == path
  {
    if path != "" {
      JoinSegments(path[1..]);
      var rest := Segments(path[1..]);
      if path[0] == '/' {
        assert Segments(path)[1..] == rest;
        assert path == "" + "/" + path[1..];
      } else {
        assert Segments(path)[1..] == rest[1..];
        if |rest| > 1 {
          Assoc([path[0]], rest[0], "/");
          Assoc([path[0]], rest[0] + "/", JoinSlash(rest[1..]));
        }
        assert path == [path[0]] + path[1..];
      }
    }
  }

  /** A component matches within one segment: * any text, ? any character. */
  ghost predicate WildMatch(comp: string, seg: string)
    decreases |comp|
  {
    if comp == "" then seg == ""
    else if comp[0] == '*' then exists k: nat :: k <= |seg| && WildMatch(comp[1..], seg[k..])
    else seg != "" && (comp[0] == '?' || seg[0] == comp[0]) && WildMatch(comp[1..], seg[1..])
  }

  /** A ** that is not final takes any number of segments, a final one at least one; every other
      component takes exactly one segment. */
  ghost predicate SegMatch(comps: seq<string>, segs: seq<string>)
    decreases |comps|, |segs|
  {
    if comps == [] then segs == []
    else if comps[0] == "**" then
      if |comps| == 1 then segs != []
      else SegMatch(comps[1..], segs) || (segs != [] && SegMatch(comps, segs[1..]))
    else segs != [] && WildMatch(comps[0], segs[0]) && SegMatch(comps[1..], segs[1..])
  }

  ghost predicate NoDoubleStar(s: string) {
    forall i :: 0 <= i < |s| - 1 ==> !(s[i] == '*' && s[i + 1] == '*')
  }

  /** Every ** of the glob is a whole component. */
  ghost predicate WholeDoubleStars(comps: seq<string>) {
    forall c :: c in comps ==> c == "**" || NoDoubleStar(c)
  }

  // ---------------------------------------------------------------- one component

  /** Nothing follows, or a slash does. */
  ghost predicate AtBoundary(tail: string) {
    tail == "" || tail[0] == '/'
  }

  /** The path starts with a segment the component matches, of length k, and the rest matches the tail. */
  ghost predicate HeadSegment(comp: string, tail: string, path: string, k: nat) {
    k <= |path| && NoSlash(path[..k]) && WildMatch(comp, path[..k]) && GlobMatches(tail, path[k..])
  }

  lemma NoSlashParts(a: string, b: string)
    ensures NoSlash(a + b) <==> NoSlash(a) && NoSlash(b)
  {
    forall c | c in a ensures c in a + b {}
    forall c | c in b ensures c in a + b {}
  }

  lemma SlashFree(s: string)
    requires NoSlash(s)
    ensures forall i :: 0 <= i < |s| ==> s[i] != '/'
  {
    forall i | 0 <= i < |s| ensures s[i] in s {}
  }

  /** One glob character that is not a star. */
  lemma PlainUnfold(glob: string, path: string)
    requires glob != "" && glob[0] != '*'
    ensures GlobMatches(glob, path) <==>
            && path != "" && (if glob[0] == '?' then path[0] != '/' else path[0] == glob[0])
            && GlobMatches(glob[1..], path[1..])
  {
    StarsAhead(glob);
  }

  lemma StarUnfold(glob: string, path: string)
    requires glob != "" && glob[0] == '*' && !(|glob| > 1 && glob[1] == '*')
    ensures GlobMatches(glob, path) <==>
            exists k: nat :: k <= |path| && NoSlash(path[..k]) && GlobMatches(glob[1..], path[k..])
  {
    StarsAhead(glob);
  }

  lemma PlainHead(comp: string, tail: string, path: string, k: nat)
    requires comp != "" && comp[0] != '*' && NoSlash(comp)
    ensures HeadSegment(comp, tail, path, k) <==>
            k > 0 && path != "" && (if comp[0] == '?' then path[0] != '/' else path[0] == comp[0])
            && HeadSegment(comp[1..], tail, path[1..], k - 1)
  {
    if 0 < k <= |path| {
      assert path[..k] == [path[0]] + path[1..][..k - 1];
      NoSlashParts([path[0]], path[1..][..k - 1]);
      assert path[..k][1..] == path[1..][..k - 1] && path[1..][k - 1..] == path[k..];
      assert comp[0] in comp;
    }
  }

  lemma StarHead(comp: string, tail: string, path: string, j: nat, k: nat)
    requires comp != "" && comp[0] == '*' && j <= |path|
    requires NoSlash(path[..j]) && HeadSegment(comp[1..], tail, path[j..], k)
    ensures HeadSegment(comp, tail, path, j + k)
  {
    assert path[..j + k] == path[..j] + path[j..][..k];
    NoSlashParts(path[..j], path[j..][..k]);
    assert path[..j + k][j..] == path[j..][..k] && path[j..][k..] == path[j + k..];
  }

  lemma StarHeadBack(comp: string, tail: string, path: string, k: nat) returns (j: nat)
    requires comp != "" && comp[0] == '*' && HeadSegment(comp, tail, path, k)
    ensures j <= k && NoSlash(path[..j]) && HeadSegment(comp[1..], tail, path[j..], k - j)
  {
    j :| j <= k && WildMatch(comp[1..], path[..k][j..]);
    assert path[..k] == path[..j] + path[j..][..k - j];
    NoSlashParts(path[..j], path[j..][..k - j]);
    assert path[..k][j..] == path[j..][..k - j] && path[j..][k - j..] == path[k..];
  }

  /** A component without ** takes its part of the path up to some point before the next slash. */
  lemma {:induction false} ComponentTakesSegment(comp: string, tail: string, path: string)
    requires NoSlash(comp) && NoDoubleStar(comp) && AtBoundary(tail)
    ensures GlobMatches(comp + tail, path) <==> exists k: nat :: HeadSegment(comp, tail, path, k)
    decreases |comp|
  {
    var glob := comp + tail;
    if comp == "" {
      assert glob == tail && path[0..] == path;
      if GlobMatches(tail, path) {
        assert HeadSegment(comp, tail, path, 0);
      }
      if k: nat :| HeadSegment(comp, tail, path, k) {
        assert k == 0;
      }
    } else {
      hide GlobMatches, WildMatch;
      var c := comp[1..];
      assert comp == [comp[0]] + c && glob[1..] == c + tail;
      NoSlashParts([comp[0]], c);
      if comp[0] != '*' {
        PlainUnfold(glob, path);
        if path != "" {
          ComponentTakesSegment(c, tail, path[1..]);
        }
        if GlobMatches(glob, path) {
          var k: nat :| HeadSegment(c, tail, path[1..], k);
          PlainHead(comp, tail, path, k + 1);
        }
        if k: nat :| HeadSegment(comp, tail, path, k) {
          PlainHead(comp, tail, path, k);
        }
      } else {
        assert |glob| > 1 ==> glob[1] == if |comp| > 1 then comp[1] else tail[0];
        StarUnfold(glob, path);
        if GlobMatches(glob, path) {
          var j: nat :| j <= |path| && NoSlash(path[..j]) && GlobMatches(c + tail, path[j..]);
          ComponentTakesSegment(c, tail, path[j..]);
          var k: nat :| HeadSegment(c, tail, path[j..], k);
          StarHead(comp, tail, path, j, k);
        }
        if k: nat :| HeadSegment(comp, tail, path, k) {
          var j := StarHeadBack(comp, tail, path, k);
          ComponentTakesSegment(c, tail, path[j..]);
        }
      }
    }
  }

  // ---------------------------------------------------------------- whole paths

  /** A final component against a path of one or more segments. */
  lemma LastComponent(comp: string, path: string)
    requires NoSlash(comp) && NoDoubleStar(comp)
    ensures GlobMatches(comp, path) <==> NoSlash(path) && WildMatch(comp, path)
  {
    assert comp + "" == comp && path[..|path|] == path && path[|path|..] == "";
    ComponentTakesSegment(comp, "", path);
    if GlobMatches(comp, path) {
      var k: nat :| HeadSegment(comp, "", path, k);
      assert k == |path|;
    }
    if NoSlash(path) && WildMatch(comp, path) {
      assert HeadSegment(comp, "", path, |path|);
    }
  }

  /** A component before others: it matches the first segment, the others the rest of the path. */
  lemma FirstComponent(comp: string, rest: string, seg: string, path: string)
    requires NoSlash(comp) && NoDoubleStar(comp) && NoSlash(seg)
    ensures GlobMatches(comp + "/" + rest, seg + "/" + path) <==> WildMatch(comp, seg) && GlobMatches(rest, path)
    ensures !GlobMatches(comp + "/" + rest, seg)
  {
    var tail, whole := "/" + rest, seg + "/" + path;
    assert comp + "/" + rest == comp + tail && tail[1..] == rest;
    ComponentTakesSegment(comp, tail, whole);
    ComponentTakesSegment(comp, tail, seg);
    SlashFree(seg);
    forall k: nat | k <= |seg| ensures !GlobMatches(tail, seg[k..]) {
      PlainUnfold(tail, seg[k..]);
    }
    forall k: nat | HeadSegment(comp, tail, whole, k)
      ensures k == |seg| && WildMatch(comp, seg) && GlobMatches(rest, path)
    {
      PlainUnfold(tail, whole[k..]);
      SlashPosition(seg, path, k);
    }
    if WildMatch(comp, seg) && GlobMatches(rest, path) {
      PlainUnfold(tail, "/" + path);
      assert ("/" + path)[1..] == path && whole[..|seg|] == seg && whole[|seg|..] == "/" + path;
      assert HeadSegment(comp, tail, whole, |seg|);
    }
  }

  /** The first slash of a path is where its first segment ends. */
  lemma SlashPosition(seg: string, path: string, k: nat)
    requires NoSlash(seg)
    requires var whole := seg + "/" + path; k < |whole| && NoSlash(whole[..k]) && whole[k] == '/'
    ensures var whole := seg + "/" + path; k == |seg| && whole[..k] == seg && whole[k + 1..] == path
  {
    var whole := seg + "/" + path;
    SlashFree(seg);
    SlashFree(whole[..k]);
    assert forall i :: 0 <= i < |seg| ==> whole[i] == seg[i];
    assert forall i :: 0 <= i < k ==> whole[..k][i] == whole[i];
    assert whole[|seg|] == '/';
  }

  /** Before a single segment a directory group can only be empty. */
  lemma DirsBeforeOne(rest: string, seg: string)
    requires NoSlash(seg)
    ensures GlobMatches("**/" + rest, seg) <==> GlobMatches(rest, seg)
  {
    var glob := "**/" + rest;
    assert glob[3..] == rest && glob[..3] == "**/";
    DirsUnfold(glob, seg);
    SlashFree(seg);
  }

  /** A directory group is empty, or takes the first segment and goes on. */
  lemma DirsBeforeMore(rest: string, seg: string, path: string)
    requires NoSlash(seg) && NoNewline(seg) && NoNewline(path)
    ensures GlobMatches("**/" + rest, seg + "/" + path)
            <==> GlobMatches(rest, seg + "/" + path) || GlobMatches("**/" + rest, path)
  {
    var glob, whole, n := "**/" + rest, seg + "/" + path, |seg| + 1;
    assert glob[3..] == rest && glob[..3] == "**/";
    DirsUnfold(glob, whole);
    DirsUnfold(glob, path);
    hide GlobMatches;
    assert whole[n..] == path && NoNewline(whole);
    if k: nat :| DirsEndAt(whole, k) && GlobMatches(rest, whole[k + 1..]) {
      if k >= n {
        assert path[k - n] == whole[k] && path[k - n + 1..] == whole[k + 1..];
        assert DirsEndAt(path, k - n);
      } else {
        SlashFirst(seg, path, k);
        assert GlobMatches(rest, path);
      }
    }
    if GlobMatches(glob, path) {
      if GlobMatches(rest, path) {
        assert DirsEndAt(whole, n - 1) && whole[n - 1 + 1..] == path;
      } else {
        var k: nat :| DirsEndAt(path, k) && GlobMatches(rest, path[k + 1..]);
        assert whole[n + k] == path[k] && whole[n + k + 1..] == path[k + 1..];
        assert DirsEndAt(whole, n + k);
      }
    }
  }

  lemma SlashFirst(seg: string, path: string, k: nat)
    requires NoSlash(seg) && k <= |seg| && (seg + "/" + path)[k] == '/'
    ensures k == |seg| && (seg + "/" + path)[k + 1..] == path
  {
    SlashFree(seg);
  }

  /** A final ** takes everything. */
  lemma FinalDoubleStar(path: string)
    requires NoNewline(path)
    ensures GlobMatches("**", path)
  {
    assert StartsWith("**", "**") && !StartsWith("**", "**/");
    assert path[..|path|] == path && path[|path|..] == "" && "**"[2..] == "";
    assert GlobMatches("", path[|path|..]);
  }

  ghost predicate LineClean(segs: seq<string>) {
    forall s :: s in segs ==> NoSlash(s) && NoNewline(s)
  }

  lemma {:induction false} JoinedClean(segs: seq<string>)
    requires LineClean(segs)
    ensures NoNewline(JoinSlash(segs))
  {
    if |segs| > 1 {
      JoinedClean(segs[1..]);
      assert segs[0] in segs && forall s :: s in segs[1..] ==> s in segs;
    }
  }

  /** The direct reading of a glob is the segment-by-segment one. */
  lemma {:induction false} GlobIsSegmentwise(comps: seq<string>, segs: seq<string>)
    requires comps != [] && segs != []
    requires WholeDoubleStars(comps) && (forall c :: c in comps ==> NoSlash(c)) && LineClean(segs)
    ensures GlobMatches(JoinSlash(comps), JoinSlash(segs)) <==> SegMatch(comps, segs)
    decreases |comps|, |segs|
  {
    var path := JoinSlash(segs);
    hide GlobMatches, WildMatch;
    JoinedClean(segs);
    assert comps[0] in comps && segs[0] in segs;
    if comps[0] == "**" {
      if |comps| == 1 {
        FinalDoubleStar(path);
      } else {
        var rest := JoinSlash(comps[1..]);
        assert JoinSlash(comps) == "**/" + rest;
        GlobIsSegmentwise(comps[1..], segs);
        if |segs| == 1 {
          DirsBeforeOne(rest, segs[0]);
          NothingLeft(comps);
        } else {
          JoinedClean(segs[1..]);
          DirsBeforeMore(rest, segs[0], JoinSlash(segs[1..]));
          GlobIsSegmentwise(comps, segs[1..]);
        }
      }
    } else if |comps| == 1 {
      LastComponent(comps[0], path);
      if |segs| > 1 {
        assert path[|segs[0]|] == '/';
        assert '/' in path;
        assert !SegMatch(comps[1..], segs[1..]);
      }
    } else {
      var rest := JoinSlash(comps[1..]);
      if |segs| == 1 {
        FirstComponent(comps[0], rest, segs[0], "");
        NothingLeft(comps[1..]);
      } else {
        FirstComponent(comps[0], rest, segs[0], JoinSlash(segs[1..]));
        GlobIsSegmentwise(comps[1..], segs[1..]);
      }
    }
  }

  lemma {:induction false} NothingLeft(comps: seq<string>)
    requires comps != []
    ensures !SegMatch(comps, [])
  {
    if comps[0] == "**" && |comps| > 1 {
      NothingLeft(comps[1..]);
    }
  }

  /** The compiled pattern of a glob whose ** are whole components accepts a newline-free path exactly
      when the segment-by-segment matcher does. */
  lemma CompiledIsSegmentwise(glob: string, path: string)
    requires WholeDoubleStars(Segments(glob)) && NoNewline(path)
    ensures MatchTokens(Anchored(glob), path) <==> SegMatch(Segments(glob), Segments(path))
  {
    RegexMeansGlob(glob, path);
    PatternTextReadsBack(Anchored(glob));
    JoinSegments(glob);
    JoinSegments(path);
    SegmentsClean(path);
    GlobIsSegmentwise(Segments(glob), Segments(path));
  }

  lemma {:induction false} SegmentsClean(path: string)
    requires NoNewline(path)
    ensures LineClean(Segments(path))
  {
    if path != "" {
      assert path == [path[0]] + path[1..] && path[0] in path;
      assert forall c :: c in path[1..] ==> c in path;
      SegmentsClean(path[1..]);
      var rest := Segments(path[1..]);
      assert rest[0] in rest;
    }
  }
}
