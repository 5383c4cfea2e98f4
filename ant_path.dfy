// Ant-style path patterns, as used by the bypass lists of the security filters and
// by the request matchers of the security configuration. A path is compared
// segment by segment: a literal segment must be equal, a `{name}` segment matches
// any one segment, and `**` matches any number of segments, none included.

module AntPath {
  import opened JavaText

  /** A compiled pattern, one constructor per leading segment. */
  datatype Pat = End | AnySegs(rest: Pat) | Lit(seg: string, rest: Pat) | Var(rest: Pat)

  /** Whether the pattern matches the segments of a path. */
  predicate Match(p: Pat, s: seq<string>)
    decreases p, |s|
  {
    match p
    case End => s == []
    case AnySegs(r) => Match(r, s) || (s != [] && Match(p, s[1..]))
    case Lit(x, r) => s != [] && s[0] == x && Match(r, s[1..])
    case Var(r) => s != [] && Match(r, s[1..])
  }

  /** The segments of a path: the text between separators, empty segments skipped,
      as the path tokenizer does. */
  function Segments(path: string): seq<string>
  {
    SplitFrom(path, [])
  }

  function SplitFrom(s: string, cur: string): seq<string>
    decreases |s|
  {
    if s == [] then (if cur == [] then [] else [cur])
    else if s[0] == '/' then (if cur == [] then [] else [cur]) + SplitFrom(s[1..], [])
    else SplitFrom(s[1..], cur + [s[0]])
  }

  /** A segment is never empty and never holds a separator. */
  predicate IsSegment(x: string)
  {
    x != [] && forall i :: 0 <= i < |x| ==> x[i] != '/'
  }

  /** `pathMatcher.match(pattern, path)` for a pattern written with a leading
      separator. */
  predicate Matches(p: Pat, path: string)
  {
    StartsWith(path, "/") && Match(p, Segments(path))
  }

  /** Every piece the splitter produces is a segment. */
  lemma {:induction false} SplitAreSegments(s: string, cur: string)
    requires forall i :: 0 <= i < |cur| ==> cur[i] != '/'
    ensures forall k :: 0 <= k < |SplitFrom(s, cur)| ==> IsSegment(SplitFrom(s, cur)[k])
    decreases |s|
  {
    if s == [] {
    } else if s[0] == '/' {
      SplitAreSegments(s[1..], []);
      var head: seq<string> := if cur == [] then [] else [cur];
      var rest := SplitFrom(s[1..], []);
      assert SplitFrom(s, cur) == head + rest;
      forall k | 0 <= k < |head + rest|
        ensures IsSegment((head + rest)[k])
      {
        if k >= |head| {
          assert (head + rest)[k] == rest[k - |head|];
        }
      }
    } else {
      var cur' := cur + [s[0]];
      assert forall i :: 0 <= i < |cur'| ==> cur'[i] != '/' by {
        assert forall i :: 0 <= i < |cur| ==> cur'[i] == cur[i];
      }
      SplitAreSegments(s[1..], cur');
    }
  }

  /** The pieces the splitter produces, written one after the other, are the path
      without its separators. */
  lemma {:induction false} SplitFlattens(s: string, cur: string)
    requires forall i :: 0 <= i < |cur| ==> cur[i] != '/'
    ensures Flatten(SplitFrom(s, cur)) == Without(cur + s, '/')
    decreases |s|
  {
    if s == [] {
      WithoutNone(cur);
      assert cur + s == cur;
      if cur != [] { assert [cur][1..] == []; }
    } else if s[0] == '/' {
      SplitFlattens(s[1..], []);
      SplitFlattensAtSeparator(s, cur);
    } else {
      var cur' := cur + [s[0]];
      assert forall i :: 0 <= i < |cur'| ==> cur'[i] != '/' by {
        assert forall i :: 0 <= i < |cur| ==> cur'[i] == cur[i];
      }
      SplitFlattens(s[1..], cur');
      assert cur + s == cur' + s[1..];
    }
  }

  /** The step of `SplitFlattens` at a separator, which closes the current piece. */
  lemma {:induction false} SplitFlattensAtSeparator(s: string, cur: string)
    requires s != [] && s[0] == '/'
    requires forall i :: 0 <= i < |cur| ==> cur[i] != '/'
    requires Flatten(SplitFrom(s[1..], [])) == Without([] + s[1..], '/')
    ensures Flatten(SplitFrom(s, cur)) == Without(cur + s, '/')
  {
    var rest := SplitFrom(s[1..], []);
    var head: seq<string> := if cur == [] then [] else [cur];
    assert Flatten(head) == cur by {
      if cur != [] { assert Flatten([cur]) == cur + Flatten([cur][1..]); }
    }
    assert Without(s, '/') == Without(s[1..], '/');
    calc {
      Flatten(SplitFrom(s, cur));
      { assert SplitFrom(s, cur) == head + rest; }
      Flatten(head + rest);
      { FlattenAppend(head, rest); }
      cur + Flatten(rest);
      { assert [] + s[1..] == s[1..]; }
      cur + Without(s, '/');
      { WithoutNone(cur); }
      Without(cur, '/') + Without(s, '/');
      { WithoutAppend(cur, s); }
      Without(cur + s, '/');
    }
  }

  /** The segments the splitter produces are segments, and together with the
      separators they spell out the path. */
  lemma SplitSegments(s: string, cur: string)
    requires forall i :: 0 <= i < |cur| ==> cur[i] != '/'
    ensures forall k :: 0 <= k < |SplitFrom(s, cur)| ==> IsSegment(SplitFrom(s, cur)[k])
    ensures Flatten(SplitFrom(s, cur)) == Without(cur + s, '/')
  {
    SplitAreSegments(s, cur);
    SplitFlattens(s, cur);
  }

  /** The segments of any path are segments. */
  lemma SegmentsAreSegments(path: string)
    ensures forall k :: 0 <= k < |Segments(path)| ==> IsSegment(Segments(path)[k])
    ensures Flatten(Segments(path)) == Without(path, '/')
  {
    SplitSegments(path, []);
    assert [] + path == path;
  }

  /** The string with every occurrence of a character removed. */
  function Without(s: string, c: char): string
  {
    if s == [] then [] else (if s[0] == c then [] else [s[0]]) + Without(s[1..], c)
  }

  lemma {:induction false} WithoutNone(s: string)
    requires forall i :: 0 <= i < |s| ==> s[i] != '/'
    ensures Without(s, '/') == s
  {
    if s != [] {
      WithoutNone(s[1..]);
    }
  }

  lemma {:induction false} WithoutAppend(a: string, b: string)
    ensures Without(a + b, '/') == Without(a, '/') + Without(b, '/')
  {
    if a == [] {
      assert a + b == b;
    } else {
      assert (a + b)[1..] == a[1..] + b;
      WithoutAppend(a[1..], b);
    }
  }

  /** The segments written one after the other. */
  function Flatten(parts: seq<string>): string
  {
    if parts == [] then [] else parts[0] + Flatten(parts[1..])
  }

  lemma {:induction false} FlattenAppend(a: seq<string>, b: seq<string>)
    ensures Flatten(a + b) == Flatten(a) + Flatten(b)
  {
    if a == [] {
      assert a + b == b;
    } else {
      assert (a + b)[1..] == a[1..] + b;
      FlattenAppend(a[1..], b);
    }
  }

  // ---------------------------------------------------------------------------
  // Facts used to evaluate patterns

  /** `**` at the end matches every remainder. */
  lemma {:induction false} AnyMatchesAll(r: Pat, s: seq<string>)
    requires r == End
    ensures Match(AnySegs(r), s)
    decreases |s|
  {
    if s != [] {
      AnyMatchesAll(r, s[1..]);
    }
  }

  /** A literal segment consumes the head of the path. */
  lemma LitStep(x: string, r: Pat, y: string, s: seq<string>)
    ensures Match(Lit(x, r), [y] + s) <==> x == y && Match(r, s)
  {
    assert ([y] + s)[1..] == s;
  }

  /** A variable segment consumes any head. */
  lemma VarStep(r: Pat, y: string, s: seq<string>)
    ensures Match(Var(r), [y] + s) <==> Match(r, s)
  {
    assert ([y] + s)[1..] == s;
  }
}
