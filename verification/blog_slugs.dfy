/**
  * Slug generation for blog posts and categories: the base slug of a
  * title, then `base-1`, `base-2`, ... until one is not taken. The
  * numbering is decimal, so the model carries the decimal rendering of
  * the counter and the parse that inverts it; that inverse is what makes
  * the candidates distinct and the search finite.
  */
module BlogSlugs {

  function DigitChar(d: nat): (c: char)
    requires d < 10
    ensures '0' <= c <= '9'
  {
    "0123456789"[d]
  }

  function DigitValue(c: char): nat
  {
    if '0' <= c <= '9' then (c as int - '0' as int) as nat else 0
  }

  /** `str(n)` for a natural number: its decimal digits, most significant first, no leading zero. */
  function NatToString(n: nat): (s: string)
    ensures |s| >= 1
    ensures forall i :: 0 <= i < |s| ==> '0' <= s[i] <= '9'
    ensures n > 0 ==> s[0] != '0'
  {
    if n < 10 then [DigitChar(n)] else NatToString(n / 10) + [DigitChar(n % 10)]
  }

  /** The value of a string of decimal digits. */
  function StringToNat(s: string): nat
  {
    if s == [] then 0 else StringToNat(s[..|s| - 1]) * 10 + DigitValue(s[|s| - 1])
  }

  /** Parsing the rendering gives the number back. */
  lemma {:induction false} NatToStringRoundTrip(n: nat)
    ensures StringToNat(NatToString(n)) == n
  {
    var s := NatToString(n);
    if n < 10 {
      assert s[..|s| - 1] == [];
    } else {
      NatToStringRoundTrip(n / 10);
      assert s[..|s| - 1] == NatToString(n / 10);
      assert DigitValue(s[|s| - 1]) == n % 10;
    }
  }

  lemma NatToStringInjective(a: nat, b: nat)
    requires NatToString(a) == NatToString(b)
    ensures a == b
  {
    NatToStringRoundTrip(a);
    NatToStringRoundTrip(b);
  }

  /** `f"{base}-{k}"`. */
  function Suffixed(base: string, k: nat): (s: string)
    ensures |s| > |base| + 1 && s[..|base|] == base && s[|base|] == '-'
  {
    base + "-" + NatToString(k)
  }

  lemma SuffixedInjective(base: string, a: nat, b: nat)
    requires Suffixed(base, a) == Suffixed(base, b)
    ensures a == b
  {
    assert NatToString(a) == Suffixed(base, a)[|base| + 1..];
    assert NatToString(b) == Suffixed(base, b)[|base| + 1..];
    NatToStringInjective(a, b);
  }

  /**
    * What `_generate_unique_slug` returns for base slug `base`: `base`
    * itself when free, otherwise `base-k` for the least `k >= 1` whose
    * slug is free.
    */
  ghost predicate FirstFreeSlug(base: string, taken: set<string>, slug: string)
  {
    && slug !in taken
    && (base !in taken ==> slug == base)
    && (base in taken ==>
          exists k: nat :: k >= 1 && slug == Suffixed(base, k) &&
                           forall j: nat :: 1 <= j < k ==> Suffixed(base, j) in taken)
  }

  /** At most one slug is the first free one, so the contract above fixes the result. */
  lemma FirstFreeSlugUnique(base: string, taken: set<string>, s1: string, s2: string)
    requires FirstFreeSlug(base, taken, s1) && FirstFreeSlug(base, taken, s2)
    ensures s1 == s2
  {
    if base in taken {
      var k1: nat :| k1 >= 1 && s1 == Suffixed(base, k1) && forall j: nat :: 1 <= j < k1 ==> Suffixed(base, j) in taken;
      var k2: nat :| k2 >= 1 && s2 == Suffixed(base, k2) && forall j: nat :: 1 <= j < k2 ==> Suffixed(base, j) in taken;
      assert Suffixed(base, k1) !in taken && Suffixed(base, k2) !in taken;
      assert k1 == k2;
    }
  }

  lemma {:induction false} SubsetSize<T>(a: set<T>, b: set<T>)
    requires a <= b
    ensures |a| <= |b|
    decreases a
  {
    if a != {} {
      var x :| x in a;
      SubsetSize(a - {x}, b - {x});
    }
  }

  /** The candidates `base-1` .. `base-n`. */
  ghost function SuffixesUpTo(base: string, n: nat): set<string>
  {
    if n == 0 then {} else SuffixesUpTo(base, n - 1) + {Suffixed(base, n)}
  }

  lemma {:induction false} SuffixesUpToMembers(base: string, n: nat, s: string)
    ensures s in SuffixesUpTo(base, n) <==> exists j: nat :: 1 <= j <= n && s == Suffixed(base, j)
  {
    if n > 0 {
      SuffixesUpToMembers(base, n - 1, s);
    }
  }

  lemma {:induction false} SuffixesUpToSize(base: string, n: nat)
    ensures |SuffixesUpTo(base, n)| == n
  {
    if n > 0 {
      SuffixesUpToSize(base, n - 1);
      if Suffixed(base, n) in SuffixesUpTo(base, n - 1) {
        SuffixesUpToMembers(base, n - 1, Suffixed(base, n));
        var j: nat :| 1 <= j <= n - 1 && Suffixed(base, n) == Suffixed(base, j);
        SuffixedInjective(base, n, j);
      }
    }
  }

  /**
    * While `base` and `base-1` .. `base-n` are all taken, `taken` has more
    * than `n` elements; this bounds the number of rounds of the search.
    */
  lemma TakenBound(base: string, taken: set<string>, n: nat)
    requires base in taken
    requires forall j: nat :: 1 <= j <= n ==> Suffixed(base, j) in taken
    ensures n + 1 <= |taken|
  {
    var cands := SuffixesUpTo(base, n);
    assert cands <= taken by {
      forall s | s in cands ensures s in taken {
        SuffixesUpToMembers(base, n, s);
      }
    }
    assert base !in cands by {
      SuffixesUpToMembers(base, n, base);
    }
    SuffixesUpToSize(base, n);
    SubsetSize(cands + {base}, taken);
  }

  /**
    * `_generate_unique_slug`: `taken` is the set of slugs already stored in
    * the table, `slugify` the library's slug function.
    */
  method GenerateUniqueSlug(title: string, slugify: string -> string, taken: set<string>) returns (slug: string)
    ensures FirstFreeSlug(slugify(title), taken, slug)
    ensures slug !in taken
    ensures slugify(title) !in taken ==> slug == slugify(title)
  {
    var base := slugify(title);
    slug := base;
    var counter: nat := 1;
    while slug in taken
      invariant counter >= 1
      invariant counter == 1 ==> slug == base
      invariant counter > 1 ==> base in taken && slug == Suffixed(base, counter - 1)
      invariant forall j: nat :: 1 <= j < counter - 1 ==> Suffixed(base, j) in taken
      invariant counter - 1 <= |taken|
      decreases |taken| + 1 - counter
    {
      if counter == 1 {
        assert base in taken;
      } else {
        TakenBound(base, taken, counter - 1);
      }
      slug := Suffixed(base, counter);
      counter := counter + 1;
    }
    if base in taken {
      assert counter > 1;
      assert forall j: nat :: 1 <= j < counter - 1 ==> Suffixed(base, j) in taken;
    }
  }
}
