/**
 * `engine.rs`: the URL reputation plugin built once from a configuration, and
 * `validate_url`, its first-match-wins decision pipeline.
 */
module Engine {
  import opened Wrappers
  import opened Oracles
  import opened Types
  import opened Text
  import opened FilterPatterns
  import opened Heuristic

  const BlockCode := "URL_REPUTATION_BLOCK"

  /** Every reason `validate_url` can report. */
  const Reasons: set<string> := {
    "Could not parse url", "Could not parse domain", "Blocked non secure http url",
    "Blocked pattern", "High entropy domain", "Illegal TLD", "Domain unicode is not secure"
  }

  /** `URLReputationPlugin`: the configuration and the two compiled pattern lists; never updated after `new`. */
  datatype UrlReputationPlugin = UrlReputationPlugin(
    config: Config,
    allowedPatterns: seq<Regex>,
    blockedPatterns: seq<Regex>
  )

  /** `patterns.iter().filter_map(|p| Regex::new(p).ok()).collect()`. */
  function CompilePatterns(lib: Oracles, patterns: seq<string>): (compiled: seq<Regex>)
    ensures |compiled| <= |patterns|
    ensures forall r :: r in compiled <==> r.source in patterns && lib.regexCompiles(r.source)
  {
    if |patterns| == 0 then []
    else
      var head := if lib.regexCompiles(patterns[0]) then [Regex(patterns[0])] else [];
      assert forall p :: p in patterns <==> p == patterns[0] || p in patterns[1..];
      head + CompilePatterns(lib, patterns[1..])
  }

  /** Compilation keeps config order: it distributes over concatenation. */
  lemma {:induction false} CompilePreservesOrder(lib: Oracles, a: seq<string>, b: seq<string>)
    ensures CompilePatterns(lib, a + b) == CompilePatterns(lib, a) + CompilePatterns(lib, b)
    decreases |a|
  {
    if |a| > 0 {
      assert (a + b)[1..] == a[1..] + b;
      CompilePreservesOrder(lib, a[1..], b);
    } else {
      assert a + b == b;
    }
  }

  /** A single pattern is kept exactly when it compiles; a bad one is dropped without error. */
  lemma CompileOne(lib: Oracles, p: string)
    ensures CompilePatterns(lib, [p]) == if lib.regexCompiles(p) then [Regex(p)] else []
  {
  }

  /** When every pattern compiles, the compiled list is the configured list, in order. */
  lemma {:induction false} CompileAllGood(lib: Oracles, patterns: seq<string>)
    requires forall i :: 0 <= i < |patterns| ==> lib.regexCompiles(patterns[i])
    ensures |CompilePatterns(lib, patterns)| == |patterns|
    ensures forall i :: 0 <= i < |patterns| ==> CompilePatterns(lib, patterns)[i] == Regex(patterns[i])
  {
    if |patterns| > 0 {
      CompileAllGood(lib, patterns[1..]);
    }
  }

  /** `URLReputationPlugin::new`. */
  function New(lib: Oracles, config: Config): (plugin: UrlReputationPlugin)
    ensures plugin.config == config
    ensures forall r :: r in plugin.allowedPatterns <==> r.source in config.allowedPatterns && lib.regexCompiles(r.source)
    ensures forall r :: r in plugin.blockedPatterns <==> r.source in config.blockedPatterns && lib.regexCompiles(r.source)
  {
    UrlReputationPlugin(config, CompilePatterns(lib, config.allowedPatterns), CompilePatterns(lib, config.blockedPatterns))
  }

  /** `url.trim().to_lowercase()`, the string handed to the URL parser. */
  function Normalize(lib: Oracles, url: string): string {
    lib.toLowercase(Trim(url))
  }

  /** The `ip_domain` flag: an IPv4 literal, or an IPv6 literal once surrounding brackets are stripped. */
  predicate IsIpLiteral(lib: Oracles, domain: string) {
    || lib.isIpv4(domain)
    || lib.isIpv6(TrimEndBy(TrimStartBy(domain, c => c == '['), c => c == ']'))
  }

  function Blocked(reason: string, description: string, key: string, value: string): UrlPluginResult {
    UrlPluginResult(false, Some(PluginViolation(reason, description, BlockCode, Some(map[key := value]))))
  }

  const Allowed := UrlPluginResult(true, None)

  /** `validate_url`: parse, host, IP classification, then whitelist, allow patterns, scheme gate, block patterns, heuristics. */
  function ValidateUrl(lib: Oracles, plugin: UrlReputationPlugin, url: string): (r: UrlPluginResult)
    ensures r.continueProcessing <==> r.violation.None?
    ensures r.violation.Some? ==>
      && r.violation.value.code == BlockCode
      && r.violation.value.reason in Reasons
      && r.violation.value.details.Some?
  {
    match lib.urlParse(Normalize(lib, url))
    case ParseFailed(_) =>
      Blocked("Could not parse url", "URL " + url + " is blocked", "url", url)
    case Parsed(_, None) =>
      Blocked("Could not parse domain", "URL " + url + " is blocked", "url", url)
    case Parsed(scheme, Some(domain)) =>
      var ipDomain := IsIpLiteral(lib, domain);
      var config := plugin.config;
      if domain in config.whitelistDomains then Allowed
      else if InAllowPatternsRegex(lib, url, plugin.allowedPatterns) then Allowed
      else if config.blockNonSecureHttp && scheme != "https" then
        Blocked("Blocked non secure http url", "URL " + url + " is blocked", "url", url)
      else if InBlockedPatternsRegex(lib, url, plugin.blockedPatterns) then
        Blocked("Blocked pattern", "URL matches blocked pattern", "domain", url)
      else if !ipDomain && config.useHeuristicCheck then
        if !PassedEntropy(lib, domain, config.entropyThreshold) then
          Blocked("High entropy domain", "Domain exceeds entropy threshold: " + domain, "domain", url)
        else if !IsTldLegal(lib, domain) then
          Blocked("Illegal TLD", "Domain TLD not legal: " + domain, "domain", url)
        else if !UnicodeSecure(lib, domain) then
          Blocked("Domain unicode is not secure", "Domain unicode is not secure for domain: " + domain, "domain", url)
        else Allowed
      else Allowed
  }

  /** The reason of a blocked result, or "" when allowed. */
  function ReasonOf(r: UrlPluginResult): string {
    if r.violation.Some? then r.violation.value.reason else ""
  }

  /** An input the parser rejects is blocked as "Could not parse url", with the original input as detail. */
  lemma UnparsableUrl(lib: Oracles, plugin: UrlReputationPlugin, url: string)
    requires lib.urlParse(Normalize(lib, url)).ParseFailed?
    ensures ValidateUrl(lib, plugin, url)
         == UrlPluginResult(false, Some(PluginViolation("Could not parse url", "URL " + url + " is blocked",
                                                        BlockCode, Some(map["url" := url]))))
  {
  }

  /** A parsed URL without a host is blocked as "Could not parse domain", with the original input as detail. */
  lemma HostlessUrl(lib: Oracles, plugin: UrlReputationPlugin, url: string, scheme: string)
    requires lib.urlParse(Normalize(lib, url)) == Parsed(scheme, None)
    ensures ValidateUrl(lib, plugin, url)
         == UrlPluginResult(false, Some(PluginViolation("Could not parse domain", "URL " + url + " is blocked",
                                                        BlockCode, Some(map["url" := url]))))
  {
  }

  /** A host that is exactly in the whitelist is allowed, whatever the scheme, the patterns or the heuristics say. */
  lemma WhitelistBeatsEverything(lib: Oracles, plugin: UrlReputationPlugin, url: string, scheme: string, host: string)
    requires lib.urlParse(Normalize(lib, url)) == Parsed(scheme, Some(host))
    requires host in plugin.config.whitelistDomains
    ensures ValidateUrl(lib, plugin, url) == UrlPluginResult(true, None)
  {
  }

  /** The whitelist is exact: a non-listed host is not let through by a listed parent domain. */
  lemma WhitelistIsExact(lib: Oracles, plugin: UrlReputationPlugin, url: string, host: string)
    requires lib.urlParse(Normalize(lib, url)) == Parsed("http", Some(host))
    requires host !in plugin.config.whitelistDomains
    requires !InAllowPatternsRegex(lib, url, plugin.allowedPatterns)
    requires plugin.config.blockNonSecureHttp
    ensures ReasonOf(ValidateUrl(lib, plugin, url)) == "Blocked non secure http url"
  {
  }

  /** A raw-input match of an allow pattern allows the URL before the scheme gate is consulted. */
  lemma AllowPatternBeatsSchemeGate(lib: Oracles, plugin: UrlReputationPlugin, url: string, scheme: string, host: string)
    requires lib.urlParse(Normalize(lib, url)) == Parsed(scheme, Some(host))
    requires InAllowPatternsRegex(lib, url, plugin.allowedPatterns)
    ensures ValidateUrl(lib, plugin, url) == UrlPluginResult(true, None)
  {
  }

  /** With `block_non_secure_http`, any scheme but "https" is blocked before block patterns or heuristics run. */
  lemma SchemeGateBeatsBlockPatterns(lib: Oracles, plugin: UrlReputationPlugin, url: string, scheme: string, host: string)
    requires lib.urlParse(Normalize(lib, url)) == Parsed(scheme, Some(host))
    requires host !in plugin.config.whitelistDomains
    requires !InAllowPatternsRegex(lib, url, plugin.allowedPatterns)
    requires plugin.config.blockNonSecureHttp && scheme != "https"
    ensures ValidateUrl(lib, plugin, url)
         == UrlPluginResult(false, Some(PluginViolation("Blocked non secure http url", "URL " + url + " is blocked",
                                                        BlockCode, Some(map["url" := url]))))
  {
  }

  /** Past the gate, a raw-input match of a block pattern blocks before any heuristic runs. */
  lemma BlockPatternBeatsHeuristics(lib: Oracles, plugin: UrlReputationPlugin, url: string, scheme: string, host: string)
    requires lib.urlParse(Normalize(lib, url)) == Parsed(scheme, Some(host))
    requires host !in plugin.config.whitelistDomains
    requires !InAllowPatternsRegex(lib, url, plugin.allowedPatterns)
    requires !plugin.config.blockNonSecureHttp || scheme == "https"
    requires InBlockedPatternsRegex(lib, url, plugin.blockedPatterns)
    ensures ValidateUrl(lib, plugin, url)
         == UrlPluginResult(false, Some(PluginViolation("Blocked pattern", "URL matches blocked pattern",
                                                        BlockCode, Some(map["domain" := url]))))
  {
  }

  /** Holds when no rule before the heuristic battery decides the URL. */
  predicate ReachesHeuristics(lib: Oracles, plugin: UrlReputationPlugin, url: string, scheme: string, host: string) {
    && lib.urlParse(Normalize(lib, url)) == Parsed(scheme, Some(host))
    && host !in plugin.config.whitelistDomains
    && !InAllowPatternsRegex(lib, url, plugin.allowedPatterns)
    && (!plugin.config.blockNonSecureHttp || scheme == "https")
    && !InBlockedPatternsRegex(lib, url, plugin.blockedPatterns)
  }

  /** IP literal hosts, and every host when heuristics are off, skip the battery and are allowed. */
  lemma IpLiteralSkipsHeuristics(lib: Oracles, plugin: UrlReputationPlugin, url: string, scheme: string, host: string)
    requires ReachesHeuristics(lib, plugin, url, scheme, host)
    requires IsIpLiteral(lib, host) || !plugin.config.useHeuristicCheck
    ensures ValidateUrl(lib, plugin, url) == UrlPluginResult(true, None)
  {
  }

  /** The battery runs entropy, then TLD, then Unicode, and reports the first failure. */
  lemma HeuristicOrder(lib: Oracles, plugin: UrlReputationPlugin, url: string, scheme: string, host: string)
    requires ReachesHeuristics(lib, plugin, url, scheme, host)
    requires !IsIpLiteral(lib, host) && plugin.config.useHeuristicCheck
    ensures ReasonOf(ValidateUrl(lib, plugin, url)) ==
      if !PassedEntropy(lib, host, plugin.config.entropyThreshold) then "High entropy domain"
      else if !IsTldLegal(lib, host) then "Illegal TLD"
      else if !UnicodeSecure(lib, host) then "Domain unicode is not secure"
      else ""
  {
  }

  /** `config.blocked_domains` is never read: changing it never changes a decision. */
  lemma BlockedDomainsIgnored(lib: Oracles, plugin: UrlReputationPlugin, url: string, other: set<string>)
    ensures ValidateUrl(lib, plugin.(config := plugin.config.(blockedDomains := other)), url)
         == ValidateUrl(lib, plugin, url)
  {
    var changed := plugin.(config := plugin.config.(blockedDomains := other));
    match lib.urlParse(Normalize(lib, url))
    case ParseFailed(_) =>
    case Parsed(_, None) =>
    case Parsed(_, Some(domain)) =>
      assert changed.config.whitelistDomains == plugin.config.whitelistDomains;
      assert changed.config.useHeuristicCheck == plugin.config.useHeuristicCheck;
  }

  /** The whole pipeline as one condition: exactly these URLs are allowed. */
  lemma AllowedExactly(lib: Oracles, plugin: UrlReputationPlugin, url: string)
    ensures ValidateUrl(lib, plugin, url).continueProcessing <==>
      && lib.urlParse(Normalize(lib, url)).Parsed?
      && lib.urlParse(Normalize(lib, url)).host.Some?
      && var scheme, host := lib.urlParse(Normalize(lib, url)).scheme, lib.urlParse(Normalize(lib, url)).host.value;
      || host in plugin.config.whitelistDomains
      || InAllowPatternsRegex(lib, url, plugin.allowedPatterns)
      || (&& (!plugin.config.blockNonSecureHttp || scheme == "https")
          && !InBlockedPatternsRegex(lib, url, plugin.blockedPatterns)
          && (|| IsIpLiteral(lib, host)
              || !plugin.config.useHeuristicCheck
              || (PassedEntropy(lib, host, plugin.config.entropyThreshold)
                  && IsTldLegal(lib, host) && UnicodeSecure(lib, host))))
  {
  }
}
