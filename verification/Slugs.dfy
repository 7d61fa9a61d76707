/** Store slugs: what _slugify makes of a name, and the loop that finds a free slug. */
module Slugs {
  // ---------------------------------------------------------------------------
  // Slugify
  // ---------------------------------------------------------------------------

  /** The characters that the pattern [^a-z0-9]+ leaves alone. */
  predicate IsKept(c: char) {
    'a' <= c <= 'z' || '0' <= c <= '9'
  }

  function LowerChar(c: char): char {
    if 'A' <= c <= 'Z' then (c as int + 32) as char else c
  }

  /** str.lower on ASCII text. */
  function Lower(s: string): string {
    if s == "" then "" else [LowerChar(s[0])] + Lower(s[1..])
  }

  lemma {:induction false} LowerIsPointwise(s: string, k: nat)
    requires k < |s|
    ensures |Lower(s)| == |s|
    ensures 'A' <= s[k] <= 'Z' ==> Lower(s)[k] as int - 'a' as int == s[k] as int - 'A' as int
    ensures !('A' <= s[k] <= 'Z') ==> Lower(s)[k] == s[k]
  {
    if k > 0 {
      LowerIsPointwise(s[1..], k - 1);
    } else if |s| > 1 {
      LowerIsPointwise(s[1..], 0);
    }
  }

  function SkipForeign(s: string): (rest: string)
    ensures |rest| <= |s| && (rest != "" ==> IsKept(rest[0]))
  {
    if s != "" && !IsKept(s[0]) then SkipForeign(s[1..]) else s
  }

  /** re.sub: each maximal run of foreign characters becomes one hyphen. */
  function Hyphenate(s: string): string
    decreases |s|
  {
    if s == "" then ""
    else if IsKept(s[0]) then [s[0]] + Hyphenate(s[1..])
    else ['-'] + Hyphenate(SkipForeign(s[1..]))
  }

  function StripLeft(s: string): string {
    if s != "" && s[0] == '-' then StripLeft(s[1..]) else s
  }

  function StripRight(s: string): string {
    if s != "" && s[|s| - 1] == '-' then StripRight(s[..|s| - 1]) else s
  }

  function Slugify(value: string): string {
    var slug := StripRight(StripLeft(Hyphenate(Lower(value))));
    if slug == "" then "store" else slug
  }

  /** A slug: words of a-z and 0-9 with single hyphens between them. */
  predicate IsSlug(s: string) {
    && s != "" && s[0] != '-' && s[|s| - 1] != '-'
    && Hyphenated(s)
  }

  predicate Hyphenated(s: string) {
    && (forall k | 0 <= k < |s| :: 'a' <= s[k] <= 'z' || '0' <= s[k] <= '9' || s[k] == '-')
    && (forall k | 0 <= k < |s| - 1 :: s[k] != '-' || s[k + 1] != '-')
  }

  lemma {:induction false} HyphenateShape(s: string)
    ensures Hyphenated(Hyphenate(s))
    ensures s != "" ==> Hyphenate(s) != ""
    ensures s != "" && IsKept(s[0]) ==> Hyphenate(s)[0] == s[0]
    decreases |s|
  {
    if s != "" {
      var rest := if IsKept(s[0]) then s[1..] else SkipForeign(s[1..]);
      HyphenateShape(rest);
      var out := Hyphenate(s);
      assert out[1..] == Hyphenate(rest);
      forall k | 0 <= k < |out|
        ensures IsKept(out[k]) || out[k] == '-'
        ensures k < |out| - 1 ==> out[k] != '-' || out[k + 1] != '-'
      {
        if k > 0 { assert out[k] == Hyphenate(rest)[k - 1]; }
      }
    }
  }

  lemma {:induction false} StripLeftShape(s: string)
    requires Hyphenated(s)
    ensures Hyphenated(StripLeft(s)) && (StripLeft(s) != "" ==> StripLeft(s)[0] != '-')
  {
    if s != "" && s[0] == '-' {
      StripLeftShape(s[1..]);
    }
  }

  lemma {:induction false} StripRightShape(s: string)
    requires Hyphenated(s) && (s != "" ==> s[0] != '-')
    ensures var r := StripRight(s);
            Hyphenated(r) && (r != "" ==> r[0] != '-' && r[|r| - 1] != '-')
  {
    if s != "" && s[|s| - 1] == '-' {
      StripRightShape(s[..|s| - 1]);
    }
  }

  /** Whatever the name, the result is a slug. */
  lemma SlugifyMakesASlug(value: string)
    ensures IsSlug(Slugify(value))
  {
    var s := Hyphenate(Lower(value));
    HyphenateShape(Lower(value));
    StripLeftShape(s);
    StripRightShape(StripLeft(s));
  }

  lemma {:induction false} LowerKeeps(s: string)
    requires forall k | 0 <= k < |s| :: IsKept(s[k]) || s[k] == '-'
    ensures Lower(s) == s
  {
    if s != "" {
      LowerKeeps(s[1..]);
    }
  }

  lemma {:induction false} HyphenateKeeps(s: string)
    requires Hyphenated(s)
    ensures Hyphenate(s) == s
    decreases |s|
  {
    if s != "" {
      HyphenateKeeps(s[1..]);
      if s[0] == '-' {
        assert SkipForeign(s[1..]) == s[1..];
      }
    }
  }

  /** The texts _slugify leaves alone are exactly the slugs; so applying it twice is applying it once. */
  lemma SlugifyFixesExactlySlugs(value: string)
    ensures Slugify(value) == value <==> IsSlug(value)
    ensures Slugify(Slugify(value)) == Slugify(value)
  {
    SlugifyMakesASlug(value);
    SlugsAreFixed(Slugify(value));
    if IsSlug(value) {
      SlugsAreFixed(value);
    }
  }

  lemma SlugsAreFixed(s: string)
    requires IsSlug(s)
    ensures Slugify(s) == s
  {
    LowerKeeps(s);
    HyphenateKeeps(s);
  }

  // ---------------------------------------------------------------------------
  // What a slug says about its name
  // ---------------------------------------------------------------------------

  /** The maximal runs of kept characters. */
  function Words(s: string): (words: seq<string>)
    ensures s != "" && IsKept(s[0]) ==> words != []
  {
    if s == "" then []
    else if !IsKept(s[0]) then Words(s[1..])
    else if |s| > 1 && IsKept(s[1]) then
      var rest := Words(s[1..]);
      [[s[0]] + rest[0]] + rest[1..]
    else [[s[0]]] + Words(s[1..])
  }

  lemma {:induction false} WordsAfterSkip(s: string)
    ensures Words(SkipForeign(s)) == Words(s)
  {
    if s != "" && !IsKept(s[0]) {
      WordsAfterSkip(s[1..]);
    }
  }

  lemma {:induction false} WordsOfHyphenated(s: string)
    ensures Words(Hyphenate(s)) == Words(s)
    decreases |s|
  {
    if s != "" {
      var rest := if IsKept(s[0]) then s[1..] else SkipForeign(s[1..]);
      WordsOfHyphenated(rest);
      WordsAfterSkip(s[1..]);
      HyphenateShape(rest);
      assert Hyphenate(s)[1..] == Hyphenate(rest);
      assert rest != "" && !IsKept(rest[0]) ==> Hyphenate(rest)[0] == '-';
    }
  }

  lemma {:induction false} WordsOfStripLeft(s: string)
    ensures Words(StripLeft(s)) == Words(s)
  {
    if s != "" && s[0] == '-' {
      WordsOfStripLeft(s[1..]);
    }
  }

  lemma {:induction false} WordsBeforeHyphen(s: string)
    ensures Words(s + ['-']) == Words(s)
  {
    if s == "" {
      assert s + ['-'] == ['-'] && ['-'][1..] == "";
    } else {
      assert (s + ['-'])[1..] == s[1..] + ['-'];
      WordsBeforeHyphen(s[1..]);
    }
  }

  lemma {:induction false} WordsOfStripRight(s: string)
    ensures Words(StripRight(s)) == Words(s)
  {
    if s != "" && s[|s| - 1] == '-' {
      var front := s[..|s| - 1];
      WordsOfStripRight(front);
      WordsBeforeHyphen(front);
      assert s == front + ['-'];
    }
  }

  lemma NoWordsNoSlug(s: string)
    requires IsSlug(s)
    ensures Words(s) != []
  {
  }

  /** A slug has the words of the lower-cased name, in order; a name without any becomes "store". */
  lemma SlugKeepsTheWords(value: string)
    ensures Words(Lower(value)) != [] ==> Words(Slugify(value)) == Words(Lower(value))
    ensures Words(Lower(value)) == [] ==> Slugify(value) == "store"
  {
    var s := Hyphenate(Lower(value));
    WordsOfHyphenated(Lower(value));
    WordsOfStripLeft(s);
    WordsOfStripRight(StripLeft(s));
    HyphenateShape(Lower(value));
    StripLeftShape(s);
    StripRightShape(StripLeft(s));
    var slug := StripRight(StripLeft(s));
    if slug != "" {
      NoWordsNoSlug(slug);
    }
  }

  // ---------------------------------------------------------------------------
  // A free slug
  // ---------------------------------------------------------------------------

  function Digit(d: int): char
    requires 0 <= d < 10
  {
    ('0' as int + d) as char
  }

  /** The decimal text of a suffix. */
  function Decimal(n: nat): string {
    if n < 10 then [Digit(n)] else Decimal(n / 10) + [Digit(n % 10)]
  }

  function Candidate(base: string, suffix: nat): string {
    if suffix == 0 then base else base + "-" + Decimal(suffix)
  }

  /** What a text of digits is worth. */
  function Worth(digits: string): int {
    if digits == "" then 0
    else Worth(digits[..|digits| - 1]) * 10 + (digits[|digits| - 1] as int - '0' as int)
  }

  /** The suffix is its number in decimal digits, without leading zeros. */
  lemma {:induction false} DecimalReadsBack(n: nat)
    ensures Worth(Decimal(n)) == n
    ensures forall k | 0 <= k < |Decimal(n)| :: '0' <= Decimal(n)[k] <= '9'
    ensures |Decimal(n)| >= 1 && (Decimal(n)[0] == '0' ==> n == 0)
  {
    if n >= 10 {
      DecimalReadsBack(n / 10);
      assert Decimal(n)[..|Decimal(n)| - 1] == Decimal(n / 10);
    } else {
      assert [Digit(n)][..0] == "";
      assert Worth("") == 0;
    }
  }

  lemma {:induction false} DecimalIsInjective(m: nat, n: nat)
    requires Decimal(m) == Decimal(n)
    ensures m == n
  {
    DecimalIsNotEmpty(m / 10);
    DecimalIsNotEmpty(n / 10);
    var a, b := Decimal(m), Decimal(n);
    assert a[|a| - 1] == b[|b| - 1];
    if m >= 10 && n >= 10 {
      assert a[..|a| - 1] == Decimal(m / 10) && b[..|b| - 1] == Decimal(n / 10);
      DecimalIsInjective(m / 10, n / 10);
    }
  }

  lemma DecimalIsNotEmpty(n: nat)
    ensures |Decimal(n)| >= 1 && (n >= 10 ==> |Decimal(n)| >= 2)
  {
  }

  lemma CandidatesDiffer(base: string, i: nat, j: nat)
    requires Candidate(base, i) == Candidate(base, j)
    ensures i == j
  {
    if i > 0 && j > 0 {
      assert Candidate(base, i)[|base| + 1..] == Decimal(i);
      assert Candidate(base, j)[|base| + 1..] == Decimal(j);
      DecimalIsInjective(i, j);
    }
  }

  /** The first n candidates. */
  function Tried(base: string, n: nat): set<string> {
    set k | 0 <= k < n :: Candidate(base, k)
  }

  /** Pigeonhole: n different candidates are taken, so at least n slugs are. */
  lemma {:induction false} TriedAreMany(base: string, n: nat)
    ensures |Tried(base, n)| == n
  {
    if n > 0 {
      TriedAreMany(base, n - 1);
      if Candidate(base, n - 1) in Tried(base, n - 1) {
        var k: nat :| k < n - 1 && Candidate(base, k) == Candidate(base, n - 1);
        CandidatesDiffer(base, k, n - 1);
      }
      assert Tried(base, n) == Tried(base, n - 1) + {Candidate(base, n - 1)};
    }
  }

  lemma {:induction false} SubsetIsNoLarger<T>(a: set<T>, b: set<T>)
    requires a <= b
    ensures |a| <= |b|
  {
    if a != {} {
      var x :| x in a;
      SubsetIsNoLarger(a - {x}, b - {x});
    }
  }

  /** The result is the first candidate that is free, at the latest the one numbered like the slugs there are. */
  predicate IsFirstFree(taken: set<string>, base: string, suffix: nat) {
    && suffix <= |taken|
    && Candidate(base, suffix) !in taken
    && forall k | 0 <= k < suffix :: Candidate(base, k) in taken
  }

  method UniqueSlug(taken: set<string>, base: string) returns (candidate: string)
    ensures exists suffix: nat :: IsFirstFree(taken, base, suffix) && candidate == Candidate(base, suffix)
  {
    candidate := base;
    var suffix: nat := 0;
    while candidate in taken
      invariant candidate == Candidate(base, suffix)
      invariant forall k | 0 <= k < suffix :: Candidate(base, k) in taken
      invariant suffix <= |taken|
      decreases |taken| - suffix
    {
      assert forall k | 0 <= k < suffix + 1 :: Candidate(base, k) in taken;
      TriedAreMany(base, suffix + 1);
      SubsetIsNoLarger(Tried(base, suffix + 1), taken);
      suffix := suffix + 1;
      candidate := base + "-" + Decimal(suffix);
    }
    assert IsFirstFree(taken, base, suffix);
  }

  /** There is a free candidate among the first |taken| + 1, and only one of them is the first. */
  lemma FirstFreeIsUnique(taken: set<string>, base: string) returns (suffix: nat)
    ensures IsFirstFree(taken, base, suffix)
    ensures forall other: nat :: IsFirstFree(taken, base, other) ==> other == suffix
  {
    suffix := 0;
    while Candidate(base, suffix) in taken
      invariant forall k | 0 <= k < suffix :: Candidate(base, k) in taken
      invariant suffix <= |taken|
      decreases |taken| - suffix
    {
      assert forall k | 0 <= k < suffix + 1 :: Candidate(base, k) in taken;
      TriedAreMany(base, suffix + 1);
      SubsetIsNoLarger(Tried(base, suffix + 1), taken);
      suffix := suffix + 1;
    }
  }

  lemma {:induction false} DecimalIsKept(n: nat)
    ensures forall k | 0 <= k < |Decimal(n)| :: IsKept(Decimal(n)[k])
  {
    if n >= 10 {
      DecimalIsKept(n / 10);
    }
  }

  /** A suffixed slug is a slug. */
  lemma CandidatesAreSlugs(base: string, suffix: nat)
    requires IsSlug(base)
    ensures IsSlug(Candidate(base, suffix))
  {
    DecimalIsKept(suffix);
    DecimalIsNotEmpty(suffix);
  }
}
