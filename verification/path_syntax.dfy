/** Translation of the legacy `:name` path-parameter syntax into the
    engine's `{name}` syntax (`Spark.convertSparkPathToJavalinPath`).

    `Translate` follows the source's regular-expression rewrite
    `:([^/]+)` -> `{$1}` as a left-to-right scan with two states: outside
    a parameter, a `:` followed by a character other than `/` opens `{`;
    inside a parameter, characters are copied up to the next `/` or the end
    of the path, where `}` closes the parameter and the scan resumes.
    That is exactly the leftmost, longest match the regular expression
    replaces. `TranslateSegment` is an independent, segment-level
    description of the same rewrite, and the lemmas below show the two
    agree on every path. */
module PathSyntax {
  import opened Text

  /** The scan outside a parameter. */
  function Translate(path: string): string
    decreases |path|, 0
  {
    if |path| == 0 then ""
    else if path[0] == ':' && |path| > 1 && path[1] != '/' then "{" + InParameter(path[1..])
    else [path[0]] + Translate(path[1..])
  }

  /** The scan inside a parameter name: the name runs to the next `/` or to
      the end of the path. */
  function InParameter(rest: string): string
    decreases |rest|, 1
  {
    if |rest| == 0 then "}"
    else if rest[0] == '/' then "}" + Translate(rest)
    else [rest[0]] + InParameter(rest[1..])
  }

  /** The rewrite of one `/`-free segment: the first `:` becomes `{` and `}`
      is appended, provided at least one character follows that `:`. */
  function TranslateSegment(segment: string): string {
    var p := IndexOf(segment, ':');
    if p + 1 < |segment| then segment[..p] + "{" + segment[p + 1..] + "}" else segment
  }

  /** The `/`-separated segments of a path. */
  function Split(path: string): (segments: seq<string>)
    ensures |segments| >= 1
    ensures forall i :: 0 <= i < |segments| ==> '/' !in segments[i]
    decreases |path|
  {
    if |path| == 0 then [""]
    else if path[0] == '/' then [""] + Split(path[1..])
    else
      var tail := Split(path[1..]);
      [[path[0]] + tail[0]] + tail[1..]
  }

  function Join(segments: seq<string>): string
    requires |segments| >= 1
  {
    if |segments| == 1 then segments[0] else segments[0] + "/" + Join(segments[1..])
  }

  function TranslateEach(segments: seq<string>): (r: seq<string>)
    ensures |r| == |segments|
    ensures forall i :: 0 <= i < |r| ==> r[i] == TranslateSegment(segments[i])
  {
    seq(|segments|, i requires 0 <= i < |segments| => TranslateSegment(segments[i]))
  }

  function Count(s: string, c: char): nat {
    if |s| == 0 then 0 else (if s[0] == c then 1 else 0) + Count(s[1..], c)
  }

  // ---------------------------------------------------------------------
  // Splitting and joining are inverse

  /** A path holding a `/` is its first segment, that `/`, and the rest. */
  lemma {:induction false} FirstSlash(path: string) returns (head: string, rest: string)
    requires '/' in path
    ensures path == head + "/" + rest
    ensures '/' !in head
    ensures |rest| < |path|
    decreases |path|
  {
    if path[0] == '/' {
      head, rest := "", path[1..];
      assert path == [path[0]] + path[1..];
    } else {
      assert '/' in path[1..] by {
        var k :| 0 <= k < |path| && path[k] == '/';
        assert path[1..][k - 1] == '/';
      }
      var h, r := FirstSlash(path[1..]);
      head, rest := [path[0]] + h, r;
      assert path == [path[0]] + path[1..];
    }
  }

  /** A `/`-free path is a single segment. */
  lemma {:induction false} SplitWithoutSlash(segment: string)
    requires '/' !in segment
    ensures Split(segment) == [segment]
    decreases |segment|
  {
    if |segment| > 0 {
      SplitWithoutSlash(segment[1..]);
      assert [segment[0]] + segment[1..] == segment;
    }
  }

  /** The first `/` ends the first segment. */
  lemma {:induction false} SplitAtSlash(head: string, rest: string)
    requires '/' !in head
    ensures Split(head + "/" + rest) == [head] + Split(rest)
    decreases |head|
  {
    var path := head + "/" + rest;
    if |head| == 0 {
      assert path == "/" + rest && path[1..] == rest;
    } else {
      SplitAtSlash(head[1..], rest);
      assert path[1..] == head[1..] + "/" + rest;
      assert [head[0]] + head[1..] == head;
    }
  }

  lemma {:induction false} SplitJoin(segments: seq<string>)
    requires |segments| >= 1
    requires forall i :: 0 <= i < |segments| ==> '/' !in segments[i]
    ensures Split(Join(segments)) == segments
  {
    if |segments| == 1 {
      SplitWithoutSlash(segments[0]);
    } else {
      SplitJoin(segments[1..]);
      SplitAtSlash(segments[0], Join(segments[1..]));
      assert [segments[0]] + segments[1..] == segments;
    }
  }

  lemma {:induction false} SplitCountsSlashes(path: string)
    ensures |Split(path)| == Count(path, '/') + 1
    decreases |path|
  {
    if |path| > 0 {
      SplitCountsSlashes(path[1..]);
    }
  }

  /** Joining the segments of a path gives the path back. */
  lemma {:induction false} JoinSplit(path: string)
    ensures Join(Split(path)) == path
    decreases |path|
  {
    if '/' !in path {
      SplitWithoutSlash(path);
    } else {
      var head, rest := FirstSlash(path);
      SplitAtSlash(head, rest);
      JoinSplit(rest);
      JoinCons(head, Split(rest));
    }
  }

  lemma JoinCons(head: string, segments: seq<string>)
    requires |segments| >= 1
    ensures Join([head] + segments) == head + "/" + Join(segments)
  {
    assert ([head] + segments)[1..] == segments;
  }

  // ---------------------------------------------------------------------
  // The rewrite never crosses a `/`

  /** A parameter name without `/` runs to the end and is closed there. */
  lemma {:induction false} ParameterToEnd(name: string)
    requires '/' !in name
    ensures InParameter(name) == name + "}"
    decreases |name|
  {
    if |name| > 0 {
      ParameterToEnd(name[1..]);
      assert [name[0]] + name[1..] == name;
    }
  }

  /** Prepending a character other than `:` commutes with the segment rule. */
  lemma SegmentRuleKeepsLiteral(c: char, tail: string)
    requires c != ':'
    ensures TranslateSegment([c] + tail) == [c] + TranslateSegment(tail)
  {
    var segment := [c] + tail;
    var p := IndexOf(tail, ':');
    IndexOfCons(c, tail, ':');
    if p + 1 < |tail| {
      var before, after := tail[..p], tail[p + 1..];
      ConsSlices(c, tail, p);
      ConsSlices(c, tail, p + 1);
      calc {
        TranslateSegment(segment);
        segment[..p + 1] + "{" + segment[p + 2..] + "}";
        ([c] + before) + "{" + after + "}";
        { ConsAssociates(c, before, "{", after, "}"); }
        [c] + (before + "{" + after + "}");
        [c] + TranslateSegment(tail);
      }
    }
  }

  /** Inside one segment the regex rewrite is the segment rule. */
  lemma {:induction false} TranslateSegmentLocal(segment: string)
    requires '/' !in segment
    ensures Translate(segment) == TranslateSegment(segment)
    decreases |segment|
  {
    if |segment| == 0 {
    } else if segment[0] == ':' && |segment| > 1 {
      LoneParameterSegment(segment);
    } else if segment[0] == ':' {
      assert segment == ":";
    } else {
      TranslateSegmentLocal(segment[1..]);
      SegmentRuleKeepsLiteral(segment[0], segment[1..]);
      assert [segment[0]] + segment[1..] == segment;
    }
  }

  /** A segment `:name` is one whole parameter under both descriptions. */
  lemma LoneParameterSegment(segment: string)
    requires '/' !in segment && |segment| > 1 && segment[0] == ':'
    ensures Translate(segment) == TranslateSegment(segment)
  {
    ParameterToEnd(segment[1..]);
    assert IndexOf(segment, ':') == 0;
    assert segment[..0] == "";
  }

  lemma TranslateLeadingSlash(rest: string)
    ensures Translate("/" + rest) == "/" + Translate(rest)
  {
    assert ("/" + rest)[1..] == rest;
  }

  /** A parameter name stops at the first `/`. */
  lemma {:induction false} ParameterAcrossSlash(name: string, rest: string)
    requires '/' !in name
    ensures InParameter(name + "/" + rest) == InParameter(name) + "/" + Translate(rest)
    decreases |name|
  {
    var path := name + "/" + rest;
    if |name| == 0 {
      assert path == "/" + rest;
      TranslateLeadingSlash(rest);
    } else {
      ParameterAcrossSlash(name[1..], rest);
      assert path[1..] == name[1..] + "/" + rest;
    }
  }

  /** The rewrite of a path is the rewrite of its first segment, the `/`,
      and the rewrite of the rest. */
  lemma {:induction false} TranslateAcrossSlash(head: string, rest: string)
    requires '/' !in head
    ensures Translate(head + "/" + rest) == Translate(head) + "/" + Translate(rest)
    decreases |head|
  {
    var path := head + "/" + rest;
    if |head| == 0 {
      assert path == "/" + rest;
      TranslateLeadingSlash(rest);
    } else if head[0] == ':' && |head| > 1 {
      assert path[1..] == head[1..] + "/" + rest;
      ParameterAcrossSlash(head[1..], rest);
    } else {
      assert path[1..] == head[1..] + "/" + rest;
      TranslateAcrossSlash(head[1..], rest);
    }
  }

  // ---------------------------------------------------------------------
  // Properties of the translation

  /** The translation acts on each `/`-separated segment independently. */
  lemma {:induction false} TranslateIsSegmentwise(path: string)
    ensures Translate(path) == Join(TranslateEach(Split(path)))
    decreases |path|
  {
    if '/' !in path {
      SplitWithoutSlash(path);
      TranslateSegmentLocal(path);
    } else {
      var head, rest := FirstSlash(path);
      SplitAtSlash(head, rest);
      TranslateAcrossSlash(head, rest);
      TranslateSegmentLocal(head);
      TranslateIsSegmentwise(rest);
      var segs := Split(path);
      assert segs[1..] == Split(rest);
      assert TranslateEach(segs)[1..] == TranslateEach(Split(rest));
    }
  }

  lemma TranslateSegmentHasNoSlash(segment: string)
    requires '/' !in segment
    ensures '/' !in TranslateSegment(segment)
  {
    var p := IndexOf(segment, ':');
    if p + 1 < |segment| {
      var r := segment[..p] + "{" + segment[p + 1..] + "}";
      forall k | 0 <= k < |r| ensures r[k] != '/' {
        if k < p {
          assert r[k] == segment[k];
        } else if p < k < |r| - 1 {
          assert r[k] == segment[k];
        }
      }
    }
  }

  /** Translation keeps every `/`: the translated path has the same number
      of segments, in the same order, each the translation of the original. */
  lemma TranslatePreservesSegments(path: string)
    ensures Split(Translate(path)) == TranslateEach(Split(path))
    ensures Count(Translate(path), '/') == Count(path, '/')
  {
    var segs := TranslateEach(Split(path));
    forall i | 0 <= i < |segs| ensures '/' !in segs[i] {
      TranslateSegmentHasNoSlash(Split(path)[i]);
    }
    TranslateIsSegmentwise(path);
    SplitJoin(segs);
    SplitCountsSlashes(path);
    SplitCountsSlashes(Translate(path));
  }

  /** A path with no `:` (a wildcard path, `/hello`) is returned unchanged. */
  lemma {:induction false} TranslateWithoutColon(path: string)
    requires ':' !in path
    ensures Translate(path) == path
    decreases |path|
  {
    if |path| > 0 {
      TranslateWithoutColon(path[1..]);
      assert [path[0]] + path[1..] == path;
    }
  }

  /** After a `:`-free prefix, `:name` with a non-empty, `/`-free `name`
      becomes `{name}`; `name` may itself contain `:`. */
  lemma {:induction false} TranslateParameterSegment(pre: string, name: string)
    requires ':' !in pre && '/' !in name && |name| >= 1
    ensures Translate(pre + ":" + name) == pre + "{" + name + "}"
    decreases |pre|
  {
    var path := pre + ":" + name;
    if |pre| == 0 {
      assert path == ":" + name && path[1..] == name && path[1] == name[0];
      ParameterToEnd(name);
    } else {
      TranslateParameterSegment(pre[1..], name);
      assert path[1..] == pre[1..] + ":" + name;
      assert [pre[0]] + pre[1..] == pre;
    }
  }

  /** A segment whose only `:` is its last character is left as is. */
  lemma {:induction false} TranslateTrailingColon(pre: string)
    requires ':' !in pre
    ensures Translate(pre + ":") == pre + ":"
    decreases |pre|
  {
    var path := pre + ":";
    if |pre| > 0 {
      TranslateTrailingColon(pre[1..]);
      assert path[1..] == pre[1..] + ":";
      assert [pre[0]] + pre[1..] == pre;
    }
  }

  /** A route such as `/hello/:name` becomes `/hello/{name}`. */
  lemma TranslateLiteralThenParameter(literal: string, name: string)
    requires ':' !in literal
    requires |name| >= 1 && '/' !in name
    ensures Translate("/" + literal + "/:" + name) == "/" + literal + "/{" + name + "}"
  {
    var pre := "/" + literal + "/";
    assert ':' !in pre by {
      assert forall k :: 0 <= k < |literal| ==> pre[k + 1] == literal[k];
    }
    TranslateParameterSegment(pre, name);
    assert pre + ":" + name == "/" + literal + "/:" + name;
    assert pre + "{" + name + "}" == "/" + literal + "/{" + name + "}";
  }

  lemma TranslateExampleParameterInSegment()
    ensures Translate("foo:bar") == "foo{bar}"
  {
    assert "foo:bar" == "foo" + ":" + "bar";
    TranslateParameterSegment("foo", "bar");
  }

  lemma TranslateExampleNameWithColon()
    ensures Translate(":a:b") == "{a:b}"
  {
    assert ":a:b" == "" + ":" + "a:b";
    TranslateParameterSegment("", "a:b");
  }

  lemma TranslateExampleTrailingColon()
    ensures Translate("a:") == "a:"
  {
    TranslateTrailingColon("a");
  }
}
