/**
 * The three domain-matching rules found in the repository: exact set
 * membership (`engine.rs` whitelist), exact list membership
 * (`engines/patterns.rs`) and dot-suffix matching (`plugin.rs`,
 * `url_reputation.py`).
 */
module DomainMatch {
  import opened Text
  import opened EnginesPatterns

  /** `host == d || host.ends_with(&format!(".{}", d))`. */
  predicate DotSuffixMatch(host: string, d: string) {
    host == d || EndsWith(host, "." + d)
  }

  /** Exact equality implies a dot-suffix match. */
  lemma ExactImpliesDotSuffix(host: string, d: string)
    requires host == d
    ensures DotSuffixMatch(host, d)
  {
  }

  /** Every subdomain `sub.d` matches `d` under the dot-suffix rule. */
  lemma SubdomainMatches(sub: string, d: string)
    ensures DotSuffixMatch(sub + "." + d, d)
  {
    var host := sub + "." + d;
    assert host[|host| - |"." + d|..] == "." + d;
  }

  /** The dot-suffix rule is strictly wider than the exact rules. */
  lemma DotSuffixWiderThanExact()
    ensures DotSuffixMatch("api.bad.example", "bad.example")
    ensures "api.bad.example" !in {"bad.example"}
    ensures "api.bad.example" !in ["bad.example"]
  {
    SubdomainMatches("api", "bad.example");
  }

  /** For every listed domain `d`, its subdomain `sub.d` not itself listed is outside `in_blocked_list` yet matches `d` by dot suffix. */
  lemma SubdomainNotListed(sub: string, d: string, listed: seq<string>)
    requires d in listed && sub + "." + d !in listed
    ensures !InBlockedList(sub + "." + d, listed)
    ensures DotSuffixMatch(sub + "." + d, d)
  {
    SubdomainMatches(sub, d);
  }

  /** A match other than equality lies on a dot boundary: the host is longer, and a '.' precedes the domain at its end. */
  lemma DotBoundary(host: string, d: string)
    requires DotSuffixMatch(host, d) && host != d
    ensures |host| > |d| && host[|host| - |d| - 1] == '.'
    ensures host[|host| - |d|..] == d
  {
    var suffix := "." + d;
    assert host[|host| - |suffix|..] == suffix;
    assert host[|host| - |suffix|..][0] == suffix[0];
    assert host[|host| - |d|..] == suffix[1..];
  }

  /** A mere textual suffix without the dot boundary does not match. */
  lemma NoMatchWithoutDotBoundary()
    ensures !DotSuffixMatch("notbad.example", "bad.example")
  {
    var host, suffix := "notbad.example", "." + "bad.example";
    assert |suffix| == 12 && suffix[0] == '.';
    assert host[|host| - |suffix|..][0] == 't';
  }

  /** A dot-suffix match is an ancestor match: `d` is the host with some leading labels dropped. */
  lemma DotSuffixIsAncestor(host: string, d: string)
    requires DotSuffixMatch(host, d)
    ensures exists k :: 0 <= k < |Split(host, '.')| && Join(Split(host, '.')[k..], '.') == d
  {
    JoinSplit(d, '.');
    if host == d {
      JoinSplit(host, '.');
      assert Split(host, '.')[0..] == Split(host, '.');
    } else {
      var name := host[..|host| - |d| - 1];
      assert host == name + "." + d;
      SplitDot(name, d);
      var k := |Split(name, '.')|;
      assert Split(host, '.')[k..] == Split(d, '.');
    }
  }

  /** Conversely, every ancestor of the host (its pieces from some index `k` on, joined) is a dot-suffix match. */
  lemma AncestorIsDotSuffix(host: string, d: string, k: nat)
    requires k < |Split(host, '.')| && Join(Split(host, '.')[k..], '.') == d
    ensures DotSuffixMatch(host, d)
  {
    var parts := Split(host, '.');
    JoinSplit(host, '.');
    if k == 0 {
      assert parts[0..] == parts;
    } else {
      JoinAt(parts, '.', k);
      var name := Join(parts[..k], '.');
      assert host == name + "." + d;
      SubdomainMatches(name, d);
    }
  }

  /** Dot-suffix matching holds exactly when the domain is one of the host's ancestors. */
  lemma DotSuffixIffAncestor(host: string, d: string)
    ensures DotSuffixMatch(host, d) <==> exists k :: 0 <= k < |Split(host, '.')| && Join(Split(host, '.')[k..], '.') == d
  {
    if DotSuffixMatch(host, d) {
      DotSuffixIsAncestor(host, d);
    }
    if exists k :: 0 <= k < |Split(host, '.')| && Join(Split(host, '.')[k..], '.') == d {
      var k :| 0 <= k < |Split(host, '.')| && Join(Split(host, '.')[k..], '.') == d;
      AncestorIsDotSuffix(host, d, k);
    }
  }

  /** The dot in `name.d` is a piece boundary: the pieces are those of `name` followed by those of `d`. */
  lemma {:induction false} SplitDot(name: string, d: string)
    ensures Split(name + "." + d, '.') == Split(name, '.') + Split(d, '.')
    decreases |name|
  {
    var s := name + "." + d;
    if |name| == 0 {
      assert s[1..] == d;
    } else {
      assert s[1..] == name[1..] + "." + d;
      SplitDot(name[1..], d);
    }
  }
}
