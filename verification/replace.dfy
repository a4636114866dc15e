/** Literal replace-all, as mux mode applies it to each argument: the
    channel-ID template is a regular expression with no metacharacters in
    effect, so a match is an exact occurrence of the template text, found
    leftmost first and never overlapping the previous one. */
module Replace {

  /** `pat` occurs in `s` starting at index `i`. */
  predicate OccursAt(s: string, pat: string, i: int)
  {
    0 <= i && i + |pat| <= |s| && s[i..i + |pat|] == pat
  }

  predicate Contains(s: string, pat: string)
  {
    exists i | 0 <= i <= |s| :: OccursAt(s, pat, i)
  }

  /** Scan left to right; at an occurrence emit `rep` and resume after it,
      otherwise copy one character. A replacement no longer than the
      pattern never makes the text longer, and one no shorter never makes it
      shorter. */
  function ReplaceAll(s: string, pat: string, rep: string): (r: string)
    requires |pat| > 0
    ensures |rep| <= |pat| ==> |r| <= |s|
    ensures |pat| <= |rep| ==> |s| <= |r|
    decreases |s|
  {
    if |s| == 0 then []
    else if pat <= s then rep + ReplaceAll(s[|pat|..], pat, rep)
    else [s[0]] + ReplaceAll(s[1..], pat, rep)
  }

  /** The pieces of `s` between the occurrences the scan replaces. */
  function Split(s: string, pat: string): (parts: seq<string>)
    requires |pat| > 0
    ensures |parts| > 0
    decreases |s|
  {
    if |s| == 0 then [""]
    else if pat <= s then [""] + Split(s[|pat|..], pat)
    else
      var rest := Split(s[1..], pat);
      [[s[0]] + rest[0]] + rest[1..]
  }

  /** The pieces, with `sep` between neighbours. */
  function Join(parts: seq<string>, sep: string): string
    requires |parts| > 0
    decreases |parts|
  {
    if |parts| == 1 then parts[0] else parts[0] + sep + Join(parts[1..], sep)
  }

  lemma JoinPrepend(x: string, parts: seq<string>, sep: string)
    requires |parts| > 0
    ensures Join([x + parts[0]] + parts[1..], sep) == x + Join(parts, sep)
  {
    var q := [x + parts[0]] + parts[1..];
    if |parts| > 1 {
      assert q[1..] == parts[1..];
    }
  }

  lemma JoinCons(x: string, parts: seq<string>, sep: string)
    requires |parts| > 0
    ensures Join([x] + parts, sep) == x + sep + Join(parts, sep)
  {
    assert ([x] + parts)[1..] == parts;
  }

  /** Putting the pattern back between the pieces gives the input again. */
  lemma {:induction false} JoinSplit(s: string, pat: string)
    requires |pat| > 0
    ensures Join(Split(s, pat), pat) == s
    decreases |s|
  {
    if |s| == 0 {
    } else if pat <= s {
      JoinSplit(s[|pat|..], pat);
      JoinSplitMatch(s, pat);
    } else {
      JoinSplit(s[1..], pat);
      JoinSplitSkip(s, pat);
    }
  }

  lemma JoinSplitMatch(s: string, pat: string)
    requires |pat| > 0 && |s| > 0 && pat <= s
    requires Join(Split(s[|pat|..], pat), pat) == s[|pat|..]
    ensures Join(Split(s, pat), pat) == s
  {
    var rest := s[|pat|..];
    PrefixRest(s, pat);
    assert Split(s, pat) == [""] + Split(rest, pat);
    JoinCons("", Split(rest, pat), pat);
    assert "" + pat == pat;
  }

  lemma PrefixRest(s: string, pat: string)
    requires pat <= s
    ensures s == pat + s[|pat|..]
  {
  }

  lemma JoinSplitSkip(s: string, pat: string)
    requires |pat| > 0 && |s| > 0 && !(pat <= s)
    requires Join(Split(s[1..], pat), pat) == s[1..]
    ensures Join(Split(s, pat), pat) == s
  {
    var rest := Split(s[1..], pat);
    assert Split(s, pat) == [[s[0]] + rest[0]] + rest[1..];
    JoinPrepend([s[0]], rest, pat);
    PrefixRest(s, [s[0]]);
  }

  /** Replacing is joining the same pieces with the replacement. */
  lemma {:induction false} ReplaceIsJoin(s: string, pat: string, rep: string)
    requires |pat| > 0
    ensures ReplaceAll(s, pat, rep) == Join(Split(s, pat), rep)
    decreases |s|
  {
    if |s| == 0 {
    } else if pat <= s {
      ReplaceIsJoin(s[|pat|..], pat, rep);
      assert Split(s, pat)[1..] == Split(s[|pat|..], pat);
    } else {
      ReplaceIsJoin(s[1..], pat, rep);
      JoinPrepend([s[0]], Split(s[1..], pat), rep);
    }
  }

  lemma JoinHead(parts: seq<string>, sep: string)
    requires |parts| > 0
    ensures parts[0] <= Join(parts, sep)
  {
  }

  /** No piece contains the pattern: everything the scan copies is free of it. */
  lemma {:induction false} SplitPatternFree(s: string, pat: string)
    requires |pat| > 0
    ensures forall k :: 0 <= k < |Split(s, pat)| ==> !Contains(Split(s, pat)[k], pat)
    decreases |s|
  {
    var parts := Split(s, pat);
    if |s| == 0 {
      assert !OccursAt("", pat, 0);
    } else if pat <= s {
      SplitPatternFree(s[|pat|..], pat);
      assert parts[1..] == Split(s[|pat|..], pat);
      assert !OccursAt("", pat, 0);
      forall k | 0 < k < |parts|
        ensures !Contains(parts[k], pat)
      {
        assert parts[k] == parts[1..][k - 1];
      }
    } else {
      var rest := Split(s[1..], pat);
      SplitPatternFree(s[1..], pat);
      assert parts[1..] == rest[1..];
      forall k | 0 < k < |parts|
        ensures !Contains(parts[k], pat)
      {
        assert parts[k] == rest[k];
      }
      FirstPieceFree(s, pat, rest[0]);
    }
  }

  /** The first piece when `s` does not start with the pattern. */
  lemma FirstPieceFree(s: string, pat: string, tail: string)
    requires |pat| > 0 && |s| > 0 && !(pat <= s)
    requires tail == Split(s[1..], pat)[0] && !Contains(tail, pat)
    ensures !Contains([s[0]] + tail, pat)
  {
    assert tail <= s[1..] by {
      JoinSplit(s[1..], pat);
      JoinHead(Split(s[1..], pat), pat);
    }
    PrefixFree(s, pat, tail);
  }

  /** A prefix of `s` that does not start with the pattern, made of one
      character and a pattern-free rest, is pattern-free. */
  lemma PrefixFree(s: string, pat: string, tail: string)
    requires |pat| > 0 && |s| > 0 && !(pat <= s)
    requires tail <= s[1..] && !Contains(tail, pat)
    ensures !Contains([s[0]] + tail, pat)
  {
    var p := [s[0]] + tail;
    forall i | 0 <= i <= |p|
      ensures !OccursAt(p, pat, i)
    {
      if i > 0 && OccursAt(p, pat, i) {
        assert p[i..i + |pat|] == tail[i - 1..i - 1 + |pat|];
        assert OccursAt(tail, pat, i - 1);
      }
    }
  }

  /** Joined pieces contain the separator right after the first piece. */
  lemma JoinOccurs(parts: seq<string>, sep: string)
    requires |parts| > 1
    ensures OccursAt(Join(parts, sep), sep, |parts[0]|)
  {
    var j := Join(parts, sep);
    assert j == parts[0] + sep + Join(parts[1..], sep);
    assert j[|parts[0]|..|parts[0]| + |sep|] == sep;
  }

  /** `s` contains the pattern exactly when the scan finds something to
      replace, that is, when there is more than one piece. */
  lemma SplitCount(s: string, pat: string)
    requires |pat| > 0
    ensures Contains(s, pat) <==> |Split(s, pat)| > 1
  {
    var parts := Split(s, pat);
    JoinSplit(s, pat);
    SplitPatternFree(s, pat);
    if |parts| > 1 {
      JoinOccurs(parts, pat);
      assert |parts[0]| <= |s|;
    } else {
      assert s == parts[0];
    }
  }

  /** A string without the pattern passes through unchanged. */
  lemma ReplaceNoMatch(s: string, pat: string, rep: string)
    requires |pat| > 0 && !Contains(s, pat)
    ensures ReplaceAll(s, pat, rep) == s
  {
    SplitCount(s, pat);
    JoinSplit(s, pat);
    ReplaceIsJoin(s, pat, rep);
  }

  /** Replacing the pattern by itself changes nothing. */
  lemma ReplaceSelf(s: string, pat: string)
    requires |pat| > 0
    ensures ReplaceAll(s, pat, pat) == s
  {
    JoinSplit(s, pat);
    ReplaceIsJoin(s, pat, pat);
  }

  lemma {:induction false} JoinLonger(parts: seq<string>, a: string, b: string)
    requires |parts| > 0 && |a| <= |b|
    ensures |Join(parts, a)| <= |Join(parts, b)|
    ensures |parts| > 1 && |a| < |b| ==> |Join(parts, a)| < |Join(parts, b)|
    decreases |parts|
  {
    if |parts| > 1 {
      JoinLonger(parts[1..], a, b);
    }
  }

  /** With at least two pieces, the separator can be read back from the join. */
  lemma JoinInjective(parts: seq<string>, a: string, b: string)
    requires |parts| > 1 && Join(parts, a) == Join(parts, b)
    ensures a == b
  {
    if |a| < |b| {
      JoinLonger(parts, a, b);
    } else if |b| < |a| {
      JoinLonger(parts, b, a);
    } else {
      JoinOccurs(parts, a);
      JoinOccurs(parts, b);
    }
  }

  /** Where the pattern occurs, different replacements give different results. */
  lemma ReplaceInjective(s: string, pat: string, a: string, b: string)
    requires |pat| > 0 && Contains(s, pat)
    requires ReplaceAll(s, pat, a) == ReplaceAll(s, pat, b)
    ensures a == b
  {
    SplitCount(s, pat);
    ReplaceIsJoin(s, pat, a);
    ReplaceIsJoin(s, pat, b);
    JoinInjective(Split(s, pat), a, b);
  }

  /** Replacement leaves `s` as it was exactly when there is nothing to
      replace or the replacement is the pattern itself. */
  lemma ReplaceUnchanged(s: string, pat: string, rep: string)
    requires |pat| > 0
    ensures ReplaceAll(s, pat, rep) == s <==> !Contains(s, pat) || rep == pat
  {
    ReplaceSelf(s, pat);
    if !Contains(s, pat) {
      ReplaceNoMatch(s, pat, rep);
    } else if ReplaceAll(s, pat, rep) == s {
      ReplaceInjective(s, pat, rep, pat);
    }
  }
}
