/** `engines/patterns.rs`: exact-list membership and substring matching on a domain. */
module EnginesPatterns {
  import opened Text

  /** `in_blocked_list`: `blocked_domains.contains(&domain)`, exact membership. */
  predicate InBlockedList(domain: string, blockedDomains: seq<string>) {
    domain in blockedDomains
  }

  /** What `in_blocked_patterns` decides: some pattern occurs in the domain. */
  predicate SomePatternOccurs(domain: string, blockedPatterns: seq<string>) {
    exists p :: p in blockedPatterns && IsSubstring(p, domain)
  }

  /** `in_blocked_patterns`: the `for` loop with its early `return true`. */
  method InBlockedPatterns(domain: string, blockedPatterns: seq<string>) returns (found: bool)
    ensures found <==> SomePatternOccurs(domain, blockedPatterns)
  {
    for k := 0 to |blockedPatterns|
      invariant forall j :: 0 <= j < k ==> !IsSubstring(blockedPatterns[j], domain)
    {
      if IsSubstring(blockedPatterns[k], domain) {
        return true;
      }
    }
    return false;
  }

  /** No pattern, no match. */
  lemma EmptyPatternListNeverMatches(domain: string)
    ensures !SomePatternOccurs(domain, [])
  {
  }

  /** The empty pattern occurs in every domain. */
  lemma EmptyPatternMatchesAll(domain: string, blockedPatterns: seq<string>)
    requires "" in blockedPatterns
    ensures SomePatternOccurs(domain, blockedPatterns)
  {
    assert OccursAt("", domain, 0);
  }

  /** Adding patterns never loses a match. */
  lemma MorePatternsMonotone(domain: string, ps: seq<string>, qs: seq<string>)
    requires forall p :: p in ps ==> p in qs
    ensures SomePatternOccurs(domain, ps) ==> SomePatternOccurs(domain, qs)
  {
  }

  /** Reordering the patterns leaves the result unchanged. */
  lemma PatternOrderIrrelevant(domain: string, ps: seq<string>, qs: seq<string>)
    requires multiset(ps) == multiset(qs)
    ensures SomePatternOccurs(domain, ps) == SomePatternOccurs(domain, qs)
  {
    forall p | p in ps ensures p in qs {
      assert p in multiset(qs);
    }
    forall q | q in qs ensures q in ps {
      assert q in multiset(ps);
    }
  }
}
