/**
 * `filters/heuristic.rs`: the entropy floor, the top-level-domain check and the
 * label-by-label Unicode security check run by the engine's heuristic battery.
 */
module Heuristic {
  import opened Oracles
  import opened Text
  import opened Utf8
  import opened Entropy

  // ---------------------------------------------------------------- entropy

  /** What `shannon_entropy(domain, domain_len)` returns: 0 for an empty domain, else the term sum over its byte histogram. */
  function ShannonEntropySpec(lib: Oracles, domain: string, domainLen: nat): real {
    if |domain| == 0 then 0.0 else EntropySum(lib, Histogram(Encode(domain)), domainLen, 256)
  }

  /** `shannon_entropy`: the empty guard, the histogram loop and the summation loop. */
  method ShannonEntropy(lib: Oracles, domain: string, domainLen: nat) returns (entropy: real)
    ensures entropy == ShannonEntropySpec(lib, domain, domainLen)
    ensures domain == [] ==> entropy == 0.0
  {
    if |domain| == 0 {
      return 0.0;
    }
    var frequency := CountBytes(Encode(domain));
    entropy := SumTerms(lib, frequency, domainLen);
  }

  /** `passed_entropy`: domains under 8 bytes always pass; otherwise entropy must not exceed the threshold. */
  predicate PassedEntropy(lib: Oracles, domain: string, threshold: real) {
    var domainLen := |Encode(domain)|;
    domainLen < 8 || ShannonEntropySpec(lib, domain, domainLen) <= threshold
  }

  /** A domain of fewer than 8 bytes passes for every threshold. */
  lemma ShortDomainPasses(lib: Oracles, domain: string, threshold: real)
    requires |Encode(domain)| < 8
    ensures PassedEntropy(lib, domain, threshold)
  {
  }

  /** An ASCII domain of fewer than 8 characters is under the byte floor, so it passes. */
  lemma ShortAsciiDomainPasses(lib: Oracles, domain: string, threshold: real)
    requires forall i :: 0 <= i < |domain| ==> domain[i] as int < 0x80
    requires |domain| < 8
    ensures PassedEntropy(lib, domain, threshold)
  {
    AsciiLength(domain);
  }

  /** From 8 bytes on, passing is `entropy <= threshold`, so raising the threshold never turns a pass into a fail. */
  lemma ThresholdMonotone(lib: Oracles, domain: string, t1: real, t2: real)
    requires t1 <= t2
    ensures |Encode(domain)| >= 8 ==>
      (PassedEntropy(lib, domain, t1) <==> ShannonEntropySpec(lib, domain, |Encode(domain)|) <= t1)
    ensures PassedEntropy(lib, domain, t1) ==> PassedEntropy(lib, domain, t2)
  {
  }

  /** The entropy depends only on the byte histogram: domains whose bytes are permutations of each other score alike. */
  lemma EntropyPermutation(lib: Oracles, a: string, b: string, threshold: real)
    requires multiset(Encode(a)) == multiset(Encode(b))
    ensures |Encode(a)| == |Encode(b)|
    ensures ShannonEntropySpec(lib, a, |Encode(a)|) == ShannonEntropySpec(lib, b, |Encode(b)|)
    ensures PassedEntropy(lib, a, threshold) == PassedEntropy(lib, b, threshold)
  {
    assert |multiset(Encode(a))| == |Encode(a)|;
    assert |multiset(Encode(b))| == |Encode(b)|;
    HistogramPermutation(Encode(a), Encode(b));
  }

  // ---------------------------------------------------------------- TLD

  /** `s.rsplit('.').next()`: the text after the last '.', or all of `s` when it has none. */
  function LastLabel(s: string): (r: string)
    ensures '.' !in r
    ensures EndsWith(s, r)
    ensures |r| < |s| ==> s[|s| - |r| - 1] == '.'
  {
    if |s| == 0 || s[|s| - 1] == '.' then ""
    else
      var r := LastLabel(s[..|s| - 1]) + [s[|s| - 1]];
      assert s[..|s| - 1] + [s[|s| - 1]] == s;
      r
  }

  /** `is_tld_legal`: trim, take the final label, ASCII-lowercase it and look it up. */
  predicate IsTldLegal(lib: Oracles, domain: string) {
    AsciiLower(LastLabel(Trim(domain))) in lib.validTlds
  }

  lemma {:induction false} LastLabelAfterDot(prefix: string, tld: string)
    requires '.' !in tld
    ensures LastLabel(prefix + "." + tld) == tld
    decreases |tld|
  {
    var s := prefix + "." + tld;
    if |tld| > 0 {
      assert s[..|s| - 1] == prefix + "." + tld[..|tld| - 1];
      LastLabelAfterDot(prefix, tld[..|tld| - 1]);
      assert tld[..|tld| - 1] + [tld[|tld| - 1]] == tld;
    }
  }

  /** For a domain `name.tld` with no surrounding white space, the verdict is the lower-cased `tld`'s membership. */
  lemma TldIsFinalLabel(lib: Oracles, name: string, tld: string)
    requires '.' !in tld
    requires |name| > 0 ==> !IsWhitespace(name[0])
    requires |tld| > 0 ==> !IsWhitespace(tld[|tld| - 1])
    ensures IsTldLegal(lib, name + "." + tld) <==> AsciiLower(tld) in lib.validTlds
  {
    var s := name + "." + tld;
    assert s[0] == if |name| > 0 then name[0] else '.';
    assert s[|s| - 1] == if |tld| > 0 then tld[|tld| - 1] else '.';
    TrimUnchanged(s);
    LastLabelAfterDot(name, tld);
  }

  /** A string that neither starts nor ends with white space is its own trim. */
  lemma TrimUnchanged(s: string)
    requires |s| > 0 && !IsWhitespace(s[0]) && !IsWhitespace(s[|s| - 1])
    ensures Trim(s) == s
  {
    assert TrimStartBy(s, IsWhitespace) == s;
  }

  lemma {:induction false} TrimStartLower(s: string)
    ensures TrimStartBy(AsciiLower(s), IsWhitespace) == AsciiLower(TrimStartBy(s, IsWhitespace))
    decreases |s|
  {
    if |s| > 0 {
      var l := AsciiLower(s);
      assert IsWhitespace(l[0]) == IsWhitespace(s[0]);
      assert l[1..] == AsciiLower(s[1..]);
      TrimStartLower(s[1..]);
    }
  }

  lemma {:induction false} TrimEndLower(s: string)
    ensures TrimEndBy(AsciiLower(s), IsWhitespace) == AsciiLower(TrimEndBy(s, IsWhitespace))
    decreases |s|
  {
    if |s| > 0 {
      var l := AsciiLower(s);
      assert IsWhitespace(l[|l| - 1]) == IsWhitespace(s[|s| - 1]);
      assert l[..|l| - 1] == AsciiLower(s[..|s| - 1]);
      TrimEndLower(s[..|s| - 1]);
    }
  }

  lemma {:induction false} LastLabelLower(s: string)
    ensures LastLabel(AsciiLower(s)) == AsciiLower(LastLabel(s))
    decreases |s|
  {
    if |s| > 0 {
      var l := AsciiLower(s);
      var p, c := s[..|s| - 1], s[|s| - 1];
      assert l[..|l| - 1] == AsciiLower(p);
      assert l[|l| - 1] == AsciiLowerChar(c);
      LastLabelLower(p);
      if c == '.' {
        assert LastLabel(l) == "";
        assert LastLabel(s) == "";
      } else {
        assert AsciiLowerChar(c) != '.';
        assert LastLabel(l) == LastLabel(AsciiLower(p)) + [AsciiLowerChar(c)];
        assert LastLabel(s) == LastLabel(p) + [c];
        assert AsciiLower(LastLabel(p) + [c]) == AsciiLower(LastLabel(p)) + [AsciiLowerChar(c)];
      }
    }
  }

  lemma AsciiLowerIdempotent(s: string)
    ensures AsciiLower(AsciiLower(s)) == AsciiLower(s)
  {
  }

  /** The verdict is case-insensitive: ASCII-lowercasing the domain first changes nothing. */
  lemma TldCaseInsensitive(lib: Oracles, domain: string)
    ensures IsTldLegal(lib, AsciiLower(domain)) == IsTldLegal(lib, domain)
  {
    TrimStartLower(domain);
    TrimEndLower(TrimStartBy(domain, IsWhitespace));
    LastLabelLower(Trim(domain));
    AsciiLowerIdempotent(LastLabel(Trim(domain)));
  }

  // ---------------------------------------------------------------- Unicode

  /** `label.chars().filter(|c| *c != '-').collect()`. */
  function RemoveHyphens(part: string): (r: string)
    ensures |r| <= |part|
    ensures forall c :: c in r <==> c in part && c != '-'
  {
    if |part| == 0 then ""
    else if part[0] == '-' then RemoveHyphens(part[1..])
    else [part[0]] + RemoveHyphens(part[1..])
  }

  /** Removing hyphens distributes over concatenation, so the kept characters keep their order and number. */
  lemma {:induction false} RemoveHyphensConcat(a: string, b: string)
    ensures RemoveHyphens(a + b) == RemoveHyphens(a) + RemoveHyphens(b)
    decreases |a|
  {
    if |a| > 0 {
      assert (a + b)[1..] == a[1..] + b;
      RemoveHyphensConcat(a[1..], b);
    } else {
      assert a + b == b;
    }
  }

  /** A hyphen is dropped and any other character is kept. */
  lemma RemoveHyphensChar(c: char)
    ensures RemoveHyphens([c]) == (if c == '-' then "" else [c])
  {
    assert [c][1..] == "";
  }

  /** Exactly the hyphens are removed: the kept characters are all of the others, each as often as in the label. */
  lemma {:induction false} RemoveHyphensMultiset(part: string)
    ensures multiset(RemoveHyphens(part)) == multiset(part)['-' := 0]
    decreases |part|
  {
    if |part| > 0 {
      RemoveHyphensMultiset(part[1..]);
      assert part == [part[0]] + part[1..];
      assert multiset(part) == multiset([part[0]]) + multiset(part[1..]);
    }
  }

  /** The restriction levels `is_domain_unicode_secure` accepts. */
  predicate AcceptedLevel(level: RestrictionLevel) {
    level.ASCIIOnly? || level.SingleScript? || level.HighlyRestrictive?
  }

  /** One label passes: non-empty, non-empty without hyphens, every character identifier-allowed, an accepted level. */
  predicate LabelSecure(lib: Oracles, part: string) {
    && |part| > 0
    && var cleaned := RemoveHyphens(part);
    && |cleaned| > 0
    && (forall i :: 0 <= i < |cleaned| ==> lib.identifierAllowed(cleaned[i]))
    && AcceptedLevel(lib.restrictionLevel(cleaned))
  }

  /** What `is_domain_unicode_secure` decides: clean ToUnicode, at most 253 bytes, and every label secure. */
  predicate UnicodeSecure(lib: Oracles, domain: string) {
    var (unicode, errors) := lib.domainToUnicode(domain);
    && !errors
    && |Encode(unicode)| <= 253
    && forall part | part in Split(unicode, '.') :: LabelSecure(lib, part)
  }

  /** `is_domain_unicode_secure`: the label loop with its early `return false`s. */
  method IsDomainUnicodeSecure(lib: Oracles, domain: string) returns (secure: bool)
    ensures secure == UnicodeSecure(lib, domain)
  {
    var (unicode, errors) := lib.domainToUnicode(domain);
    if errors || |Encode(unicode)| > 253 {
      return false;
    }
    var labels := Split(unicode, '.');
    var k := 0;
    while k < |labels|
      invariant 0 <= k <= |labels|
      invariant forall j :: 0 <= j < k ==> LabelSecure(lib, labels[j])
    {
      var part := labels[k];
      assert part in labels;
      if |part| == 0 {
        return false;
      }
      var cleaned := RemoveHyphens(part);
      if |cleaned| == 0 {
        return false;
      }
      if !(forall i :: 0 <= i < |cleaned| ==> lib.identifierAllowed(cleaned[i])) {
        return false;
      }
      match lib.restrictionLevel(cleaned) {
        case ASCIIOnly | SingleScript | HighlyRestrictive =>
        case ModeratelyRestrictive | MinimallyRestrictive | Unrestricted =>
          return false;
      }
      k := k + 1;
    }
    secure := true;
  }

  /** Decoding errors, or a decoded form over 253 bytes, fail the check. */
  lemma DecodeFailureInsecure(lib: Oracles, domain: string)
    requires lib.domainToUnicode(domain).1 || |Encode(lib.domainToUnicode(domain).0)| > 253
    ensures !UnicodeSecure(lib, domain)
  {
  }

  /** An empty label, or one made only of hyphens, fails the check. */
  lemma EmptyOrHyphenLabelInsecure(lib: Oracles, domain: string, part: string)
    requires part in Split(lib.domainToUnicode(domain).0, '.')
    requires forall i :: 0 <= i < |part| ==> part[i] == '-'
    ensures !UnicodeSecure(lib, domain)
  {
    HyphensOnly(part);
  }

  lemma {:induction false} HyphensOnly(part: string)
    requires forall i :: 0 <= i < |part| ==> part[i] == '-'
    ensures RemoveHyphens(part) == ""
  {
    if |part| > 0 {
      HyphensOnly(part[1..]);
    }
  }

  /** A label with a character that is not identifier-allowed, or a rejected restriction level, fails the check. */
  lemma BadLabelInsecure(lib: Oracles, domain: string, part: string)
    requires part in Split(lib.domainToUnicode(domain).0, '.')
    requires (exists c :: c in RemoveHyphens(part) && !lib.identifierAllowed(c))
          || !AcceptedLevel(lib.restrictionLevel(RemoveHyphens(part)))
    ensures !UnicodeSecure(lib, domain)
  {
  }

  /** For a decoded form made of dot-free labels, the check is the conjunction of the per-label checks. */
  lemma UnicodeSecureConjunction(lib: Oracles, domain: string, labels: seq<string>)
    requires |labels| >= 1
    requires forall i :: 0 <= i < |labels| ==> '.' !in labels[i]
    requires lib.domainToUnicode(domain) == (Join(labels, '.'), false)
    requires |Encode(Join(labels, '.'))| <= 253
    ensures UnicodeSecure(lib, domain) <==> forall i :: 0 <= i < |labels| ==> LabelSecure(lib, labels[i])
  {
    SplitJoin(labels, '.');
  }
}
