/** `filters/patterns.rs`: does any compiled regular expression match a text? */
module FilterPatterns {
  import opened Oracles

  /** A compiled `regex::Regex`, identified by the source it was compiled from. */
  datatype Regex = Regex(source: string)

  /** `patterns.iter().any(|re| re.is_match(text))`, evaluated left to right. */
  predicate AnyIsMatch(lib: Oracles, text: string, patterns: seq<Regex>)
  {
    |patterns| > 0 && (lib.regexIsMatch(patterns[0].source, text) || AnyIsMatch(lib, text, patterns[1..]))
  }

  /** The short-circuit chain holds exactly when some pattern matches. */
  lemma {:induction false} AnyIsMatchExists(lib: Oracles, text: string, patterns: seq<Regex>)
    ensures AnyIsMatch(lib, text, patterns)
        <==> exists i :: 0 <= i < |patterns| && lib.regexIsMatch(patterns[i].source, text)
  {
    if |patterns| > 0 {
      AnyIsMatchExists(lib, text, patterns[1..]);
      if lib.regexIsMatch(patterns[0].source, text) {
      } else {
        assert forall i :: 1 <= i < |patterns| ==> patterns[i] == patterns[1..][i - 1];
      }
    }
  }

  /** `in_blocked_patterns_regex`. */
  predicate InBlockedPatternsRegex(lib: Oracles, domain: string, blockedPatterns: seq<Regex>)
  {
    AnyIsMatch(lib, domain, blockedPatterns)
  }

  /** `in_allow_patterns_regex`: the same test as `in_blocked_patterns_regex`. */
  predicate InAllowPatternsRegex(lib: Oracles, domain: string, allowedPatterns: seq<Regex>)
  {
    AnyIsMatch(lib, domain, allowedPatterns)
  }

  /** `in_blocked_patterns_regex(t, ps)` holds iff some pattern of `ps` matches `t`. */
  lemma BlockedRegexIffSomeMatch(lib: Oracles, t: string, ps: seq<Regex>)
    ensures InBlockedPatternsRegex(lib, t, ps) <==> exists p :: p in ps && lib.regexIsMatch(p.source, t)
  {
    AnyIsMatchExists(lib, t, ps);
  }

  /** Both helpers are false on an empty pattern list, and agree on every list. */
  lemma EmptyAndAgree(lib: Oracles, t: string, ps: seq<Regex>)
    ensures !InBlockedPatternsRegex(lib, t, []) && !InAllowPatternsRegex(lib, t, [])
    ensures InAllowPatternsRegex(lib, t, ps) == InBlockedPatternsRegex(lib, t, ps)
  {
  }

  /** Appending a pattern never turns a match into a non-match. */
  lemma AppendMonotone(lib: Oracles, t: string, ps: seq<Regex>, extra: seq<Regex>)
    ensures AnyIsMatch(lib, t, ps) ==> AnyIsMatch(lib, t, ps + extra)
  {
    AnyIsMatchExists(lib, t, ps);
    AnyIsMatchExists(lib, t, ps + extra);
    if AnyIsMatch(lib, t, ps) {
      var i :| 0 <= i < |ps| && lib.regexIsMatch(ps[i].source, t);
      assert (ps + extra)[i] == ps[i];
    }
  }

  /** Reordering the patterns leaves the result unchanged. */
  lemma OrderIrrelevant(lib: Oracles, t: string, ps: seq<Regex>, qs: seq<Regex>)
    requires multiset(ps) == multiset(qs)
    ensures AnyIsMatch(lib, t, ps) == AnyIsMatch(lib, t, qs)
  {
    BlockedRegexIffSomeMatch(lib, t, ps);
    BlockedRegexIffSomeMatch(lib, t, qs);
    if AnyIsMatch(lib, t, ps) {
      var p :| p in ps && lib.regexIsMatch(p.source, t);
      assert p in multiset(qs);
    }
    if AnyIsMatch(lib, t, qs) {
      var q :| q in qs && lib.regexIsMatch(q.source, t);
      assert q in multiset(ps);
    }
  }
}
