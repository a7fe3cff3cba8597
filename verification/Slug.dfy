/** Slugs: folding a display name into the canonical alphabet, and keeping the result valid whatever the name was. */
module Slug {
  import opened Prelude
  import opened Decimal

  const SLUG_MAX_LENGTH: nat := 64

  predicate IsAlnum(c: char) {
    'a' <= c <= 'z' || '0' <= c <= '9'
  }

  predicate InAlphabet(s: string) {
    forall i :: 0 <= i < |s| ==> IsAlnum(s[i]) || s[i] == '-'
  }

  /** The canonical pattern: 2 to 64 characters of the alphabet, without a hyphen at either end. */
  predicate ValidSlug(s: string) {
    2 <= |s| <= SLUG_MAX_LENGTH && InAlphabet(s) && IsAlnum(s[0]) && IsAlnum(Last(s))
  }

  const LETTERS_AND_DIGITS := "abcdefghijklmnopqrstuvwxyz0123456789"

  lemma AlnumIsListed(c: char)
    ensures IsAlnum(c) <==> c in LETTERS_AND_DIGITS
  {
    var k := if c <= '9' then c as int - '0' as int + 26 else c as int - 'a' as int;
    if IsAlnum(c) { assert LETTERS_AND_DIGITS[k] == c; }
  }

  ghost predicate MatchesPattern(s: string, first: char, middle: string, last: char) {
    && s == [first] + middle + [last] && |middle| <= 62
    && IsAlnum(first) && IsAlnum(last)
    && forall i :: 0 <= i < |middle| ==> IsAlnum(middle[i]) || middle[i] == '-'
  }

  lemma PatternIsValid(s: string, first: char, middle: string, last: char)
    requires MatchesPattern(s, first, middle, last)
    ensures ValidSlug(s)
  {
    assert s[0] == first && Last(s) == last && |s| == |middle| + 2;
    forall i | 0 <= i < |s| ensures IsAlnum(s[i]) || s[i] == '-' {
      if 0 < i < |s| - 1 { assert s[i] == middle[i - 1]; }
    }
  }

  lemma ValidMiddle(s: string)
    requires ValidSlug(s)
    ensures MatchesPattern(s, s[0], s[1..|s| - 1], Last(s))
  {
    var middle := s[1..|s| - 1];
    forall i | 0 <= i < |middle| ensures IsAlnum(middle[i]) || middle[i] == '-' {
      assert middle[i] == s[i + 1];
    }
    assert s == [s[0]] + middle + [Last(s)];
  }

  /** The valid slugs are the matches of ^[a-z0-9][a-z0-9-]{0,62}[a-z0-9]$. */
  lemma ValidSlugIsPattern(s: string)
    ensures ValidSlug(s) <==> exists first, middle, last :: MatchesPattern(s, first, middle, last)
  {
    if ValidSlug(s) { ValidMiddle(s); }
    if first, middle, last :| MatchesPattern(s, first, middle, last) { PatternIsValid(s, first, middle, last); }
  }

  // ---------------------------------------------------------------- trimming

  function TrimLeft(s: string): string {
    if s != "" && s[0] == '-' then TrimLeft(s[1..]) else s
  }

  function TrimRight(s: string): string {
    if s != "" && Last(s) == '-' then TrimRight(Front(s)) else s
  }

  function TrimSlug(s: string): string {
    TrimRight(TrimLeft(if |s| <= SLUG_MAX_LENGTH then s else s[..SLUG_MAX_LENGTH]))
  }

  // ---------------------------------------------------------------- folding a name

  /** Every run of other characters becomes one hyphen, and none is written in front. */
  function Fold(name: string): string {
    if name == "" then ""
    else
      var b := Fold(Front(name));
      if IsAlnum(Last(name)) then b + [Last(name)]
      else if b != "" && Last(b) != '-' then b + "-"
      else b
  }

  /**
   * The slug of a name.  `normalise` stands for trimming white space, lower-casing and removing diacritics with the
   * Unicode libraries.
   */
  function Body(name: string, normalise: string -> string): string {
    TrimSlug(Fold(normalise(name)))
  }

  method SlugBody(name: string, normalise: string -> string) returns (slug: string)
    ensures slug == Body(name, normalise)
  {
    var text := normalise(name);
    var b := "";
    var prevHyphen := true;
    for i := 0 to |text|
      invariant b == Fold(text[..i])
      invariant prevHyphen <==> b == "" || Last(b) == '-'
    {
      assert Front(text[..i + 1]) == text[..i];
      if IsAlnum(text[i]) {
        b := b + [text[i]];
        prevHyphen := false;
        continue;
      }
      if !prevHyphen {
        b := b + ['-'];
        prevHyphen := true;
      }
    }
    assert text[..|text|] == text;
    slug := TrimSlug(b);
  }

  // ---------------------------------------------------------------- tidy strings

  /** In the alphabet, not starting with a hyphen, and without two hyphens in a row. */
  ghost predicate Tidy(s: string) {
    && InAlphabet(s)
    && (s != "" ==> IsAlnum(s[0]))
    && forall i :: 0 <= i < |s| - 1 ==> IsAlnum(s[i]) || IsAlnum(s[i + 1])
  }

  /** What Body produces: tidy, within the length limit, and not ending in a hyphen. */
  ghost predicate Canonical(s: string) {
    Tidy(s) && |s| <= SLUG_MAX_LENGTH && (s != "" ==> IsAlnum(Last(s)))
  }

  lemma {:induction false} FoldIsTidy(name: string)
    ensures Tidy(Fold(name))
  {
    if name != "" { FoldIsTidy(Front(name)); }
  }

  lemma {:induction false} FoldKeepsTidy(s: string)
    requires Tidy(s)
    ensures Fold(s) == s
  {
    if s != "" {
      FoldKeepsTidy(Front(s));
      assert s == Front(s) + [Last(s)];
    }
  }

  lemma TidyPrefix(s: string, n: nat)
    requires Tidy(s) && n <= |s|
    ensures Tidy(s[..n])
  {
  }

  lemma TrimTidy(s: string)
    requires Tidy(s)
    ensures TrimLeft(s) == s
    ensures TrimRight(s) == if s != "" && Last(s) == '-' then Front(s) else s
  {
    if |s| > 1 { assert IsAlnum(s[|s| - 2]) || IsAlnum(s[|s| - 1]); }
  }

  /** Cutting and trimming a tidy string loses at most one character more than the cut. */
  lemma TrimSlugOfTidy(s: string)
    requires Tidy(s)
    ensures Canonical(TrimSlug(s)) && TrimSlug(s) <= s
    ensures |s| >= 3 ==> |TrimSlug(s)| >= 2
    ensures Canonical(s) ==> TrimSlug(s) == s
  {
    var cut := if |s| <= SLUG_MAX_LENGTH then s else s[..SLUG_MAX_LENGTH];
    TidyPrefix(s, |cut|);
    TrimTidy(cut);
    if cut != "" { TidyPrefix(cut, |cut| - 1); }
    if |cut| > 1 { assert IsAlnum(cut[|cut| - 2]) || IsAlnum(cut[|cut| - 1]); }
  }

  /** Tidy strings joined by a hyphen are tidy. */
  lemma TidyJoin(s: string, t: string)
    requires Canonical(s) && Tidy(t) && s != "" && t != ""
    ensures Tidy(s + "-" + t)
  {
    var joined := s + "-" + t;
    forall i | 0 <= i < |joined| - 1 ensures IsAlnum(joined[i]) || IsAlnum(joined[i + 1]) {
      if i < |s| - 1 {
        assert IsAlnum(s[i]) || IsAlnum(s[i + 1]);
      } else if i > |s| {
        assert IsAlnum(t[i - |s| - 1]) || IsAlnum(t[i - |s|]);
      }
    }
  }

  /** The Unicode libraries leave lower-case ASCII slug text alone. */
  ghost predicate KeepsSlugText(normalise: string -> string) {
    forall s :: InAlphabet(s) ==> normalise(s) == s
  }

  lemma BodyIsCanonical(name: string, normalise: string -> string)
    ensures Canonical(Body(name, normalise))
  {
    FoldIsTidy(normalise(name));
    TrimSlugOfTidy(Fold(normalise(name)));
  }

  /** Exactly the canonical strings are left alone; in particular folding a slug again changes nothing. */
  lemma BodyFixesCanonical(s: string, normalise: string -> string)
    requires KeepsSlugText(normalise)
    ensures Body(s, normalise) == s <==> Canonical(s)
  {
    BodyIsCanonical(s, normalise);
    if Canonical(s) {
      FoldKeepsTidy(s);
      TrimSlugOfTidy(s);
    }
  }

  lemma BodyIsIdempotent(name: string, normalise: string -> string)
    requires KeepsSlugText(normalise)
    ensures Body(Body(name, normalise), normalise) == Body(name, normalise)
  {
    BodyIsCanonical(name, normalise);
    BodyFixesCanonical(Body(name, normalise), normalise);
  }

  // ---------------------------------------------------------------- what folding does

  ghost predicate Word(s: string) {
    forall i :: 0 <= i < |s| ==> IsAlnum(s[i])
  }

  ghost predicate Gap(s: string) {
    s != "" && forall i :: 0 <= i < |s| ==> !IsAlnum(s[i])
  }

  lemma {:induction false} WordFolds(w: string)
    requires Word(w)
    ensures Fold(w) == w
  {
    if w != "" {
      WordFolds(Front(w));
      assert w == Front(w) + [Last(w)];
    }
  }

  /** Behind a fold, a gap is one hyphen, or nothing where there is nothing to separate. */
  lemma {:induction false} GapFolds(a: string, gap: string)
    requires Gap(gap)
    ensures Fold(a + gap) == if Fold(a) == "" || Last(Fold(a)) == '-' then Fold(a) else Fold(a) + "-"
  {
    var front := Front(gap);
    assert Front(a + gap) == a + front && Last(a + gap) == Last(gap);
    if front != "" {
      GapFolds(a, front);
      assert Fold(a) != "" ==> Last(Fold(a) + "-") == '-';
    } else {
      assert a + front == a;
    }
  }

  lemma {:induction false} WordFollows(a: string, w: string)
    requires Word(w)
    ensures Fold(a + w) == Fold(a) + w
  {
    if w == "" {
      assert a + w == a;
    } else {
      WordFollows(a, Front(w));
      assert Front(a + w) == a + Front(w) && Last(a + w) == Last(w);
      assert Fold(a) + Front(w) + [Last(w)] == Fold(a) + w;
    }
  }

  /**
   * Folding keeps every letter and digit and puts one hyphen for each run of other characters between two of them:
   * a gap in front disappears, a word stays, and what ends in a word is joined to the next word by one hyphen.
   */
  lemma GapsBecomeHyphens(a: string, gap: string, w: string)
    requires Gap(gap) && Word(w)
    ensures Fold(gap) == "" && Fold(w) == w
    ensures Fold(a + w) == Fold(a) + w
    ensures a != "" && IsAlnum(Last(a)) ==> Fold(a + gap + w) == Fold(a) + "-" + w
  {
    GapFolds("", gap);
    assert "" + gap == gap;
    WordFolds(w);
    WordFollows(a, w);
    GapFolds(a, gap);
    WordFollows(a + gap, w);
  }

  /** The slug of a name is the longest beginning of the folded name that has the form of a slug body. */
  lemma BodyIsLongest(name: string, normalise: string -> string, p: string)
    requires Canonical(p) && p <= Fold(normalise(name))
    ensures Body(name, normalise) <= Fold(normalise(name)) && |p| <= |Body(name, normalise)|
  {
    var folded := Fold(normalise(name));
    FoldIsTidy(normalise(name));
    TrimSlugOfTidy(folded);
    var cut := if |folded| <= SLUG_MAX_LENGTH then folded else folded[..SLUG_MAX_LENGTH];
    TidyPrefix(folded, |cut|);
    TrimTidy(cut);
    assert p <= cut;
    if p == cut && p != "" { assert Last(p) == Last(cut); }
  }

  // ---------------------------------------------------------------- the slug of a display name

  /** The first eight characters of a random UUID: lower-case hexadecimal digits. */
  predicate IsToken(token: string) {
    |token| == 8 && forall i :: 0 <= i < 8 ==> IsDigit(token[i]) || 'a' <= token[i] <= 'f'
  }

  function OrElse(s: string, other: string): string {
    if s == "" then other else s
  }

  /** The slug before the final trim: the body, with something added when it is too short. */
  function Candidate(name: string, prefix: string, token: string, normalise: string -> string): string {
    var body, fallback := Body(name, normalise), Body(prefix, normalise);
    if body == "" then OrElse(fallback, "slug") + "-" + token
    else if |body| == 1 then body + "-" + (if fallback == "" || fallback == body then "slug" else fallback)
    else body
  }

  lemma CandidateIsTidy(name: string, prefix: string, token: string, normalise: string -> string)
    requires IsToken(token)
    ensures Tidy(Candidate(name, prefix, token, normalise))
    ensures |Candidate(name, prefix, token, normalise)| >= 2
    ensures |Body(name, normalise)| < 2 ==> |Candidate(name, prefix, token, normalise)| >= 3
  {
    var body, fallback := Body(name, normalise), Body(prefix, normalise);
    BodyIsCanonical(name, normalise);
    BodyIsCanonical(prefix, normalise);
    assert Canonical("slug");
    if body == "" {
      TidyJoin(OrElse(fallback, "slug"), token);
    } else if |body| == 1 {
      TidyJoin(body, if fallback == "" || fallback == body then "slug" else fallback);
    }
  }

  /** Whatever the name and the prefix, the trimmed candidate is a valid slug: nothing is left to rescue. */
  lemma CandidateIsValid(name: string, prefix: string, token: string, normalise: string -> string)
    requires IsToken(token)
    ensures ValidSlug(TrimSlug(Candidate(name, prefix, token, normalise)))
    ensures Canonical(TrimSlug(Candidate(name, prefix, token, normalise)))
  {
    var candidate := Candidate(name, prefix, token, normalise);
    CandidateIsTidy(name, prefix, token, normalise);
    TrimSlugOfTidy(candidate);
    if |Body(name, normalise)| >= 2 {
      BodyIsCanonical(name, normalise);
      TrimSlugOfTidy(Body(name, normalise));
    }
  }

  /**
   * A body of two or more characters is the slug.  An empty one gives the prefix's body (or the word slug) and a random
   * token; a single character is followed by the prefix's body, or by the word slug where that is empty or the same.
   */
  lemma SlugOfName(name: string, prefix: string, token: string, normalise: string -> string)
    requires IsToken(token)
    ensures var slug := TrimSlug(Candidate(name, prefix, token, normalise));
            var body, fallback := Body(name, normalise), Body(prefix, normalise);
            && (|body| >= 2 ==> slug == body)
            && (body == "" && fallback == "" ==> slug == "slug-" + token)
            && (body == "" && 0 < |fallback| <= 55 ==> slug == fallback + "-" + token)
            && (|body| == 1 && (fallback == "" || fallback == body) ==> slug == body + "-slug")
            && (|body| == 1 && fallback != body && 0 < |fallback| <= 62 ==> slug == body + "-" + fallback)
  {
    var candidate := Candidate(name, prefix, token, normalise);
    CandidateIsTidy(name, prefix, token, normalise);
    BodyIsCanonical(name, normalise);
    BodyIsCanonical(prefix, normalise);
    TrimSlugOfTidy(candidate);
    assert "slug" + "-" == "slug-";
    if |Body(name, normalise)| == 1 {
      Associate(Body(name, normalise), "-", "slug");
      assert "-" + "slug" == "-slug";
    }
    assert |candidate| <= SLUG_MAX_LENGTH && IsAlnum(Last(candidate)) ==> Canonical(candidate);
  }

  /** `rescue` is the second random token, which turns out never to be used. */
  method ToSlug(name: string, prefix: string, token: string, rescue: string, normalise: string -> string)
    returns (slug: string)
    requires IsToken(token) && IsToken(rescue)
    ensures ValidSlug(slug) && Canonical(slug)
    ensures slug == TrimSlug(Candidate(name, prefix, token, normalise))
    ensures KeepsSlugText(normalise) && ValidSlug(name) && Tidy(name) ==> slug == name
  {
    CandidateIsValid(name, prefix, token, normalise);
    var result := SlugBody(name, normalise);
    if result == "" {
      var fallback := SlugBody(prefix, normalise);
      if fallback == "" {
        fallback := "slug";
      }
      result := fallback + "-" + token;
    }
    if |result| == 1 {
      var suffix := SlugBody(prefix, normalise);
      if suffix == "" || suffix == result {
        suffix := "slug";
      }
      result := result + "-" + suffix;
    }
    result := TrimSlug(result);
    if !ValidSlug(result) {
      result := "slug-" + rescue;
    }
    TrimSlugOfTidy(result);
    slug := TrimSlug(result);
    if KeepsSlugText(normalise) && ValidSlug(name) && Tidy(name) {
      BodyFixesCanonical(name, normalise);
    }
  }

  // ---------------------------------------------------------------- numbered slugs

  const MAX_INT: int := 0x7FFF_FFFF_FFFF_FFFF

  function FormatInt(n: int): string {
    if n < 0 then "-" + Itoa(-n) else Itoa(n)
  }

  function SlugWithNumericSuffix(base: string, n: int): string {
    var trimmed := OrElse(TrimSlug(base), "slug");
    var suffix := "-" + FormatInt(n);
    if |trimmed| + |suffix| <= SLUG_MAX_LENGTH then trimmed + suffix
    else
      var room := if SLUG_MAX_LENGTH - |suffix| < 1 then 1 else SLUG_MAX_LENGTH - |suffix|;
      TrimRight(trimmed[..room]) + suffix
  }

  lemma {:induction false} TrimRightKeepsStart(s: string)
    requires s != "" && IsAlnum(s[0])
    ensures TrimRight(s) != "" && TrimRight(s) <= s && Last(TrimRight(s)) != '-'
  {
    if Last(s) == '-' { TrimRightKeepsStart(Front(s)); }
  }

  lemma {:induction false} TrimLeftStarts(s: string)
    requires InAlphabet(s)
    ensures InAlphabet(TrimLeft(s)) && |TrimLeft(s)| <= |s|
    ensures TrimLeft(s) != "" ==> IsAlnum(TrimLeft(s)[0])
  {
    if s != "" && s[0] == '-' { TrimLeftStarts(s[1..]); }
  }

  lemma TrimSlugStarts(s: string)
    requires InAlphabet(s)
    ensures InAlphabet(TrimSlug(s)) && |TrimSlug(s)| <= SLUG_MAX_LENGTH
    ensures TrimSlug(s) != "" ==> IsAlnum(TrimSlug(s)[0])
  {
    var cut := if |s| <= SLUG_MAX_LENGTH then s else s[..SLUG_MAX_LENGTH];
    TrimLeftStarts(cut);
    if TrimLeft(cut) != "" { TrimRightKeepsStart(TrimLeft(cut)); }
  }

  lemma SuffixIsShort(n: int)
    requires 0 <= n <= MAX_INT
    ensures 1 <= |Itoa(n)| <= 19 && AllDigits(Itoa(n))
  {
    assert Pow10(9) == 1_000_000_000 && Pow10(10) == 10_000_000_000;
    Pow10Adds(9, 10);
    ItoaLength(n, 19);
    ItoaDenotes(n);
  }

  lemma StemIsValid(stem: string, digits: string)
    requires stem != "" && InAlphabet(stem) && IsAlnum(stem[0])
    requires digits != "" && AllDigits(digits) && |stem| + 1 + |digits| <= SLUG_MAX_LENGTH
    ensures ValidSlug(stem + ("-" + digits))
  {
    var s := stem + ("-" + digits);
    assert Last(s) == Last(digits);
    forall i | 0 <= i < |s| ensures IsAlnum(s[i]) || s[i] == '-' {
      if i > |stem| { assert s[i] == digits[i - |stem| - 1]; }
    }
  }

  /** What is cut off a stem leaves a stem. */
  lemma CutStem(trimmed: string, room: nat)
    requires trimmed != "" && InAlphabet(trimmed) && IsAlnum(trimmed[0]) && 0 < room <= |trimmed|
    ensures var stem := TrimRight(trimmed[..room]);
            stem != "" && InAlphabet(stem) && IsAlnum(stem[0]) && |stem| <= room
  {
    TrimRightKeepsStart(trimmed[..room]);
  }

  /** A numbered slug is valid, and no longer than any slug. */
  lemma NumberedSlugIsValid(base: string, n: int)
    requires InAlphabet(base) && 0 <= n <= MAX_INT
    ensures ValidSlug(SlugWithNumericSuffix(base, n))
  {
    var trimmed, digits := OrElse(TrimSlug(base), "slug"), Itoa(n);
    TrimSlugStarts(base);
    SuffixIsShort(n);
    if |trimmed| + 1 + |digits| <= SLUG_MAX_LENGTH {
      StemIsValid(trimmed, digits);
    } else {
      CutStem(trimmed, SLUG_MAX_LENGTH - |digits| - 1);
      StemIsValid(TrimRight(trimmed[..SLUG_MAX_LENGTH - |digits| - 1]), digits);
    }
  }

  lemma {:induction false} TrimRightIsLongest(s: string, p: string)
    requires p <= s && (p != "" ==> Last(p) != '-')
    ensures p <= TrimRight(s) <= s
  {
    if s != "" && Last(s) == '-' {
      TrimRightIsLongest(Front(s), p);
    }
  }

  /**
   * A numbered slug is its base and the number while that fits; otherwise the base is cut to its longest beginning
   * that leaves room and does not end in a hyphen.
   */
  lemma NumberedSlugKeepsBase(base: string, n: int, p: string)
    requires Canonical(base) && 0 <= n <= MAX_INT
    requires p <= base && p != "" && Last(p) != '-' && |p| + 1 + |Itoa(n)| <= SLUG_MAX_LENGTH
    ensures var stem := if |base| + 1 + |Itoa(n)| <= SLUG_MAX_LENGTH then base
                        else TrimRight(base[..SLUG_MAX_LENGTH - |Itoa(n)| - 1]);
            SlugWithNumericSuffix(base, n) == stem + "-" + Itoa(n) && p <= stem <= base
  {
    SuffixIsShort(n);
    TrimSlugOfTidy(base);
    Associate(base, "-", Itoa(n));
    if |base| + 1 + |Itoa(n)| > SLUG_MAX_LENGTH {
      var room := SLUG_MAX_LENGTH - |Itoa(n)| - 1;
      assert p <= base[..room];
      TrimRightIsLongest(base[..room], p);
      Associate(TrimRight(base[..room]), "-", Itoa(n));
    }
  }

  /** The sign of a negative number makes a second hyphen. */
  lemma NegativeNumberKeepsSign(base: string, n: int)
    requires Canonical(base) && base != "" && n < 0 && |base| + 2 + |Itoa(-n)| <= SLUG_MAX_LENGTH
    ensures SlugWithNumericSuffix(base, n) == base + "--" + Itoa(-n)
  {
    TrimSlugOfTidy(base);
    assert "-" + ("-" + Itoa(-n)) == "--" + Itoa(-n);
    Associate(base, "--", Itoa(-n));
  }

  lemma LaterHyphen(x: string, d: string, k: int)
    requires |x| < k < |x + "-" + d| && (x + "-" + d)[k] == '-'
    ensures '-' in d
  {
    assert d[k - |x| - 1] == '-';
  }

  /** The text after the last hyphen is determined by the whole. */
  lemma LastHyphen(x: string, d: string, y: string, e: string)
    requires '-' !in d && '-' !in e && x + "-" + d == y + "-" + e
    ensures d == e
  {
    var s := x + "-" + d;
    assert s[|x|] == '-' && s[|y|] == '-';
    assert d == s[|x| + 1..] && e == s[|y| + 1..];
    if |x| < |y| { LaterHyphen(x, d, |y|); }
    if |y| < |x| { LaterHyphen(y, e, |x|); }
  }

  lemma EndsWithNumber(base: string, n: int) returns (stem: string)
    requires 0 <= n <= MAX_INT
    ensures SlugWithNumericSuffix(base, n) == stem + "-" + Itoa(n)
  {
    SuffixIsShort(n);
    var trimmed, digits := OrElse(TrimSlug(base), "slug"), Itoa(n);
    stem := if |trimmed| + |digits| + 1 <= SLUG_MAX_LENGTH then trimmed
            else TrimRight(trimmed[..SLUG_MAX_LENGTH - |digits| - 1]);
    assert stem + "-" + digits == stem + ("-" + digits);
  }

  /** Numbered slugs with different numbers are different, even for different bases. */
  lemma NumberedSlugsDiffer(a: string, m: int, b: string, n: int)
    requires 0 <= m <= MAX_INT && 0 <= n <= MAX_INT && SlugWithNumericSuffix(a, m) == SlugWithNumericSuffix(b, n)
    ensures m == n
  {
    var x := EndsWithNumber(a, m);
    var y := EndsWithNumber(b, n);
    SuffixIsShort(m);
    SuffixIsShort(n);
    LastHyphen(x, Itoa(m), y, Itoa(n));
    ItoaInjective(m, n);
  }
}
