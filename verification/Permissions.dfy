/** Wildcard permission matching over colon-separated segments. */
module Permissions {

  import opened Prelude

  const STAR := "*"

  // ---------------------------------------------------------------- splitting at colons

  function Split(s: string): (segments: seq<string>)
    ensures segments != []
  {
    if s == "" then [""]
    else if s[0] == ':' then [""] + Split(s[1..])
    else var rest := Split(s[1..]); [[s[0]] + rest[0]] + rest[1..]
  }

  function Join(segments: seq<string>): string
    requires segments != []
  {
    if |segments| == 1 then segments[0] else segments[0] + ":" + Join(segments[1..])
  }

  ghost predicate ColonFree(segments: seq<string>) {
    forall i :: 0 <= i < |segments| ==> ':' !in segments[i]
  }

  lemma JoinHead(first: string, rest: seq<string>)
    requires rest != []
    ensures Join([first] + rest) == first + ":" + Join(rest)
  {
    assert ([first] + rest)[1..] == rest;
  }

  /** A character put in front of the first segment comes out in front. */
  lemma JoinPrefixed(c: char, rest: seq<string>)
    requires rest != []
    ensures Join([[c] + rest[0]] + rest[1..]) == [c] + Join(rest)
  {
    if |rest| > 1 {
      JoinHead([c] + rest[0], rest[1..]);
      Associate([c] + rest[0], ":", Join(rest[1..]));
      Associate([c], rest[0], ":" + Join(rest[1..]));
      Associate(rest[0], ":", Join(rest[1..]));
    }
  }

  /** The segments are colon-free and no longer than the whole. */
  ghost predicate SegmentsOf(segments: seq<string>, s: string) {
    ColonFree(segments) && forall i :: 0 <= i < |segments| ==> |segments[i]| <= |s|
  }

  lemma SegmentsGrow(c: char, rest: seq<string>, tail: string)
    requires rest != [] && SegmentsOf(rest, tail)
    ensures SegmentsOf([""] + rest, [c] + tail)
    ensures c != ':' ==> SegmentsOf([[c] + rest[0]] + rest[1..], [c] + tail)
  {
  }

  lemma {:induction false} JoinOfSplit(s: string)
    ensures Join(Split(s)) == s && SegmentsOf(Split(s), s)
  {
    if s != "" {
      var rest := Split(s[1..]);
      JoinOfSplit(s[1..]);
      SegmentsGrow(s[0], rest, s[1..]);
      assert s == [s[0]] + s[1..];
      if s[0] == ':' {
        JoinHead("", rest);
        assert "" + ":" == ":";
      } else {
        JoinPrefixed(s[0], rest);
      }
    }
  }

  lemma {:induction false} SplitOfJoin(segments: seq<string>)
    requires segments != [] && ColonFree(segments)
    ensures Split(Join(segments)) == segments
  {
    var first := segments[0];
    if |segments| == 1 {
      SplitFirst(first, "");
      assert first + "" == first && segments == [first];
    } else {
      SplitOfJoin(segments[1..]);
      var rest := Join(segments[1..]);
      SplitFirst(first, ":" + rest);
      assert Join(segments) == first + (":" + rest);
      assert (":" + rest)[1..] == rest;
      assert Split(":" + rest) == [""] + segments[1..];
      assert first + "" == first && [first] + segments[1..] == segments;
    }
  }

  /** A colon-free text in front goes to the first segment. */
  lemma {:induction false} SplitFirst(first: string, rest: string)
    requires ':' !in first
    ensures Split(first + rest) == [first + Split(rest)[0]] + Split(rest)[1..]
  {
    if first == "" {
      assert first + rest == rest && first + Split(rest)[0] == Split(rest)[0];
    } else {
      var s := first + rest;
      assert s[0] == first[0] && s[1..] == first[1..] + rest;
      SplitFirst(first[1..], rest);
      assert [first[0]] + (first[1..] + Split(rest)[0]) == first + Split(rest)[0];
    }
  }

  // ---------------------------------------------------------------- matching

  /** A segment list grants another when each of its segments is a wildcard or the other's segment at that place. */
  predicate Covers(g: seq<string>, r: seq<string>) {
    |g| <= |r| && forall i :: 0 <= i < |g| ==> g[i] == STAR || g[i] == r[i]
  }

  lemma CoversTransitively(g: seq<string>, h: seq<string>, r: seq<string>)
    requires Covers(g, h) && Covers(h, r)
    ensures Covers(g, r)
  {
  }

  /** Reflexive, transitive and antisymmetric: matching is a partial order on segment lists. */
  lemma CoversIsPartialOrder(g: seq<string>, h: seq<string>, r: seq<string>)
    ensures Covers(g, g)
    ensures Covers(g, h) && Covers(h, r) ==> Covers(g, r)
    ensures Covers(g, h) && Covers(h, g) ==> g == h
  {
    if Covers(g, h) && Covers(h, g) {
      forall i | 0 <= i < |g| ensures g[i] == h[i] {
        assert g[i] == STAR || g[i] == h[i];
        assert h[i] == STAR || h[i] == g[i];
      }
    }
  }

  predicate Grants(granted: string, required: string) {
    Covers(Split(granted), Split(required))
  }

  ghost predicate Concrete(permission: string) {
    STAR !in Split(permission)
  }

  /** Every permission without wildcards that `required` stands for. */
  ghost predicate GrantsEveryInstance(granted: string, required: string) {
    forall p :: Concrete(p) && Grants(required, p) ==> Grants(granted, p)
  }

  /** The segment list with every wildcard replaced. */
  function Instance(r: seq<string>, filler: string): (p: seq<string>)
    ensures |p| == |r| && forall i :: 0 <= i < |r| ==> p[i] == if r[i] == STAR then filler else r[i]
  {
    seq(|r|, i requires 0 <= i < |r| => if r[i] == STAR then filler else r[i])
  }

  /** A grant of an instance filled with a segment that the grant does not mention is a grant of the pattern. */
  lemma FreshFillerDecides(g: seq<string>, r: seq<string>, filler: string)
    requires filler !in g && Covers(g, Instance(r, filler))
    ensures Covers(g, r)
  {
    forall i | 0 <= i < |g| ensures g[i] == STAR || g[i] == r[i] {
      assert g[i] in g;
    }
  }

  /** Matching a pattern means granting every concrete permission the pattern stands for, no more and no less. */
  lemma GrantsMeansEveryInstance(granted: string, required: string)
    ensures Grants(granted, required) <==> GrantsEveryInstance(granted, required)
  {
    var g, r := Split(granted), Split(required);
    if GrantsEveryInstance(granted, required) {
      var filler := Repeat('a', |granted| + 2);
      JoinOfSplit(granted);
      JoinOfSplit(required);
      var segments := Instance(r, filler);
      var p := Join(segments);
      SplitOfJoin(segments);
      assert Concrete(p) && Grants(required, p);
      FreshFillerDecides(g, r, filler);
    }
    if Grants(granted, required) {
      forall p | Concrete(p) && Grants(required, p) ensures Grants(granted, p) {
        CoversTransitively(g, r, Split(p));
      }
    }
  }

  /** The permission string itself is what is compared: two strings that grant each other are the same string. */
  lemma MutualGrantsAreEqual(a: string, b: string)
    requires Grants(a, b) && Grants(b, a)
    ensures a == b
  {
    CoversIsPartialOrder(Split(a), Split(b), Split(a));
    JoinOfSplit(a);
    JoinOfSplit(b);
  }

  // ---------------------------------------------------------------- what a grant matches

  /** Text after a colon makes further segments. */
  lemma {:induction false} SplitAtColon(a: string, s: string)
    ensures Split(a + ":" + s) == Split(a) + Split(s)
  {
    var whole := a + ":" + s;
    if a == "" {
      assert whole[0] == ':' && whole[1..] == s;
    } else {
      SplitAtColon(a[1..], s);
      assert whole[0] == a[0] && whole[1..] == a[1..] + ":" + s;
      SplitStep(a, Split(a[1..]), whole, Split(s));
    }
  }

  lemma SplitStep(a: string, rest: seq<string>, whole: string, more: seq<string>)
    requires a != "" && whole != "" && whole[0] == a[0] && rest != []
    requires rest == Split(a[1..]) && Split(whole[1..]) == rest + more
    ensures Split(whole) == Split(a) + more
  {
    assert (rest + more)[0] == rest[0] && (rest + more)[1..] == rest[1..] + more;
    if a[0] == ':' {
      Associate([""], rest, more);
    } else {
      Associate([[a[0]] + rest[0]], rest[1..], more);
    }
  }

  lemma {:induction false} JoinConcat(p: seq<string>, rest: seq<string>)
    requires p != [] && rest != []
    ensures Join(p + rest) == Join(p) + ":" + Join(rest)
  {
    if |p| == 1 {
      JoinHead(p[0], rest);
      assert p == [p[0]];
    } else {
      JoinConcat(p[1..], rest);
      JoinHead(p[0], p[1..] + rest);
      assert p + rest == [p[0]] + (p[1..] + rest);
      var tail := Join(p[1..]);
      assert p[0] + ":" + (tail + ":" + Join(rest)) == p[0] + ":" + tail + ":" + Join(rest);
    }
  }

  /** A grant's segments with a segment of any text in the place of each wildcard. */
  ghost predicate Fills(p: seq<string>, g: seq<string>) {
    ColonFree(p) && |p| == |g| && forall i :: 0 <= i < |g| ==> g[i] == STAR || p[i] == g[i]
  }

  /** The text itself, or the text and further segments. */
  ghost predicate StartsAt(required: string, text: string) {
    required == text || exists s :: required == text + ":" + s
  }

  /** The requirement begins with these segments, which are those of the grant with its wildcards filled. */
  ghost predicate BeginsWith(required: string, granted: string, p: seq<string>) {
    p != [] && Fills(p, Split(granted)) && StartsAt(required, Join(p))
  }

  lemma FilledPrefix(granted: string, required: string) returns (p: seq<string>)
    requires Grants(granted, required)
    ensures BeginsWith(required, granted, p)
  {
    var g, r := Split(granted), Split(required);
    JoinOfSplit(required);
    p := r[..|g|];
    var rest := r[|g|..];
    assert p + rest == r;
    if rest == [] {
      assert p == r;
    } else {
      JoinConcat(p, rest);
    }
  }

  lemma PrefixIsGranted(granted: string, required: string, p: seq<string>)
    requires BeginsWith(required, granted, p)
    ensures Grants(granted, required)
  {
    SplitOfJoin(p);
    if required != Join(p) {
      var s :| required == Join(p) + ":" + s;
      SplitAtColon(Join(p), s);
    }
  }

  /**
   * A grant matches exactly the permissions that begin with its own segments, with any text for each wildcard: a
   * shorter grant matches whatever segments follow, and a longer one never matches.
   */
  lemma GrantsMatchingPrefixes(granted: string, required: string)
    ensures Grants(granted, required) <==> exists p :: BeginsWith(required, granted, p)
    ensures Grants(granted, required) ==> |Split(granted)| <= |Split(required)|
  {
    if Grants(granted, required) {
      var p := FilledPrefix(granted, required);
    }
    if p :| BeginsWith(required, granted, p) {
      PrefixIsGranted(granted, required, p);
    }
  }

  /** A permission grants itself with further segments, and a grant still matches when the requirement gets longer. */
  lemma TrailingSegmentsMatch(granted: string, required: string, s: string)
    ensures Grants(granted, granted + ":" + s)
    ensures Grants(granted, required) ==> Grants(granted, required + ":" + s)
  {
    SplitAtColon(granted, s);
    SplitAtColon(required, s);
  }

  /** Writing a wildcard for one segment of a grant loses none of its matches. */
  lemma WildcardMatchesMore(granted: seq<string>, i: nat, required: string)
    requires i < |granted| && ColonFree(granted) && Grants(Join(granted), required)
    ensures Grants(Join(granted[i := STAR]), required)
  {
    SplitOfJoin(granted);
    SplitOfJoin(granted[i := STAR]);
  }

  // ---------------------------------------------------------------- the methods

  method MatchesPermission(granted: string, required: string) returns (matches: bool)
    ensures matches <==> Grants(granted, required)
    ensures matches <==> GrantsEveryInstance(granted, required)
  {
    GrantsMeansEveryInstance(granted, required);
    var g, r := Split(granted), Split(required);
    if |g| > |r| {
      return false;
    }
    for i := 0 to |g|
      invariant forall k :: 0 <= k < i ==> g[k] == STAR || g[k] == r[k]
    {
      if g[i] == STAR { continue; }
      if g[i] != r[i] {
        return false;
      }
    }
    matches := true;
  }

  method HasAny(granted: seq<string>, required: string) returns (found: bool)
    ensures found <==> exists i :: 0 <= i < |granted| && Grants(granted[i], required)
  {
    for i := 0 to |granted|
      invariant forall k :: 0 <= k < i ==> !Grants(granted[k], required)
    {
      var matches := MatchesPermission(granted[i], required);
      if matches {
        return true;
      }
    }
    found := false;
  }
}
