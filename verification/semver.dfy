/** Semantic versions and their precedence, as defined in section 11 of
    Semantic Versioning 2.0.0: major, minor and patch compare numerically in
    that order; a pre-release version has lower precedence than the normal
    version it belongs to; pre-release identifiers compare one by one (numeric
    ones numerically, alphanumeric ones lexically in ASCII order, numeric
    below alphanumeric, and a shorter list first when one extends the other);
    build metadata plays no part. */
module SemVer {
  import opened Orderings

  /** One dot-separated pre-release identifier. */
  datatype Identifier = Numeric(number: nat) | AlphaNumeric(text: string)

  datatype Version = Version(major: nat, minor: nat, patch: nat, pre: seq<Identifier>, build: seq<string>)

  const ZeroVersion := Version(0, 0, 0, [], [])

  function CompareIdentifiers(x: Identifier, y: Identifier): Ordering {
    match (x, y)
    case (Numeric(m), Numeric(n)) => CompareNats(m, n)
    case (Numeric(_), AlphaNumeric(_)) => Less
    case (AlphaNumeric(_), Numeric(_)) => Greater
    case (AlphaNumeric(s), AlphaNumeric(t)) => CompareStrings(s, t)
  }

  /** An empty pre-release list (a normal version) ranks above every non-empty one. */
  function ComparePreRelease(p: seq<Identifier>, q: seq<Identifier>): Ordering {
    if |p| == 0 && |q| == 0 then Equal
    else if |p| == 0 then Greater
    else if |q| == 0 then Less
    else LexCompare(p, q, CompareIdentifiers)
  }

  function ComparePrecedence(a: Version, b: Version): Ordering {
    if a.major != b.major then CompareNats(a.major, b.major)
    else if a.minor != b.minor then CompareNats(a.minor, b.minor)
    else if a.patch != b.patch then CompareNats(a.patch, b.patch)
    else ComparePreRelease(a.pre, b.pre)
  }

  /** `a < b` in precedence. */
  predicate Precedes(a: Version, b: Version) {
    ComparePrecedence(a, b) == Less
  }

  /** Reference order of the numeric triple alone. */
  predicate TripleLess(a: Version, b: Version) {
    || a.major < b.major
    || (a.major == b.major && a.minor < b.minor)
    || (a.major == b.major && a.minor == b.minor && a.patch < b.patch)
  }

  lemma IdentifiersTotalOrder()
    ensures TotalOrder(CompareIdentifiers)
  {
    StringsTotalOrder();
  }

  lemma PrecedenceAntisymmetric(a: Version, b: Version)
    ensures ComparePrecedence(a, b) == ComparePrecedence(b, a).Flip()
  {
    IdentifiersTotalOrder();
    LexAntisymmetric(a.pre, b.pre, CompareIdentifiers);
  }

  /** Two versions have equal precedence exactly when they agree on everything
      but their build metadata. */
  lemma PrecedenceEqual(a: Version, b: Version)
    ensures ComparePrecedence(a, b) == Equal <==>
              a.major == b.major && a.minor == b.minor && a.patch == b.patch && a.pre == b.pre
  {
    IdentifiersTotalOrder();
    LexEqualMeansIdentical(a.pre, b.pre, CompareIdentifiers);
  }

  lemma PrecedenceTransitive(a: Version, b: Version, c: Version)
    requires Precedes(a, b) && Precedes(b, c)
    ensures Precedes(a, c)
  {
    if a.major == b.major == c.major && a.minor == b.minor == c.minor && a.patch == b.patch == c.patch {
      IdentifiersTotalOrder();
      if |a.pre| > 0 && |b.pre| > 0 && |c.pre| > 0 {
        LexLessTransitive(a.pre, b.pre, c.pre, CompareIdentifiers);
      }
    }
  }

  /** Without pre-release identifiers, precedence is the lexicographic order of
      (major, minor, patch). */
  lemma TripleOrderIsLexicographic(a: Version, b: Version)
    requires a.pre == [] && b.pre == []
    ensures Precedes(a, b) <==> TripleLess(a, b)
  {
  }

  lemma PreReleaseBelowRelease(a: Version, b: Version)
    requires a.major == b.major && a.minor == b.minor && a.patch == b.patch
    requires a.pre != [] && b.pre == []
    ensures Precedes(a, b) && !Precedes(b, a)
  {
  }

  /** The example chain of section 11 of Semantic Versioning 2.0.0:
      1.0.0-alpha < 1.0.0-alpha.1 < 1.0.0-alpha.beta < 1.0.0-beta
        < 1.0.0-beta.2 < 1.0.0-beta.11 < 1.0.0-rc.1 < 1.0.0. */
  lemma StandardExampleChain()
    ensures var alpha, beta, rc := AlphaNumeric("alpha"), AlphaNumeric("beta"), AlphaNumeric("rc");
            && Precedes(Version(1, 0, 0, [alpha], []), Version(1, 0, 0, [alpha, Numeric(1)], []))
            && Precedes(Version(1, 0, 0, [alpha, Numeric(1)], []), Version(1, 0, 0, [alpha, beta], []))
            && Precedes(Version(1, 0, 0, [alpha, beta], []), Version(1, 0, 0, [beta], []))
            && Precedes(Version(1, 0, 0, [beta], []), Version(1, 0, 0, [beta, Numeric(2)], []))
            && Precedes(Version(1, 0, 0, [beta, Numeric(2)], []), Version(1, 0, 0, [beta, Numeric(11)], []))
            && Precedes(Version(1, 0, 0, [beta, Numeric(11)], []), Version(1, 0, 0, [rc, Numeric(1)], []))
            && Precedes(Version(1, 0, 0, [rc, Numeric(1)], []), Version(1, 0, 0, [], []))
  {
    var alpha, beta, rc := AlphaNumeric("alpha"), AlphaNumeric("beta"), AlphaNumeric("rc");
    assert CompareStrings("alpha", "beta") == Less;
    assert CompareStrings("beta", "rc") == Less;
    assert CompareStrings("alpha", "alpha") == Equal;
    assert CompareStrings("beta", "beta") == Equal;
    assert LexCompare([alpha], [alpha, Numeric(1)], CompareIdentifiers) == Less;
    assert LexCompare([alpha, Numeric(1)], [alpha, beta], CompareIdentifiers) == Less;
    assert LexCompare([alpha, beta], [beta], CompareIdentifiers) == Less;
    assert LexCompare([beta], [beta, Numeric(2)], CompareIdentifiers) == Less;
    assert LexCompare([beta, Numeric(2)], [beta, Numeric(11)], CompareIdentifiers) == Less;
    assert LexCompare([beta, Numeric(11)], [rc, Numeric(1)], CompareIdentifiers) == Less;
  }
}
