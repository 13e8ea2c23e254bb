/**
 * `url_reputation.py`: the Python plugin. Its settings are validated into
 * `URLReputationConfig` with defaults; `resource_pre_fetch` either forwards to
 * the Rust plugin or runs its own dot-suffix domain check and substring pattern check.
 */
module PyUrlReputation {
  import opened Wrappers
  import opened Oracles
  import opened Text
  import opened Types
  import opened DomainMatch

  /** A raw setting value as it reaches validation. */
  datatype SettingValue = Strings(items: seq<string>) | Flag(flag: bool) | Number(number: real) | OtherValue

  /** A validation error naming every field whose value has the wrong type. */
  datatype ConfigError = ValidationError(fields: set<string>)

  /** The Python exceptions `resource_pre_fetch` can raise. */
  datatype PyErr = ValueError(message: string) | AttributeError(name: string)

  /** The `validate_url` of a constructed Rust plugin. */
  type RustValidator = string -> UrlPluginResult

  /** `ResourcePreFetchResult`; its violation has the shape of `PluginViolation`. */
  datatype PreFetchResult = PreFetchResult(continueProcessing: bool, violation: Option<PluginViolation>)

  const ListFields: set<string> := {"whitelist_domains", "allowed_patterns", "blocked_domains", "blocked_patterns"}
  const FlagFields: set<string> := {"use_heuristic_check", "block_non_secure_http"}

  /** A value the field's declared type accepts; keys that are not fields are ignored. */
  predicate Acceptable(key: string, v: SettingValue) {
    if key in ListFields then v.Strings?
    else if key in FlagFields then v.Flag?
    else if key == "entropy_threshold" then v.Number?
    else true
  }

  /** The fields Pydantic rejects: only declared fields are reported, each exactly when its value is of the wrong kind. */
  function InvalidFields(raw: map<string, SettingValue>): (bad: set<string>)
    ensures bad <= raw.Keys * (ListFields + FlagFields + {"entropy_threshold"})
    ensures forall k :: k in raw && k in ListFields ==> (k in bad <==> !raw[k].Strings?)
    ensures forall k :: k in raw && k in FlagFields ==> (k in bad <==> !raw[k].Flag?)
    ensures "entropy_threshold" in raw ==> ("entropy_threshold" in bad <==> !raw["entropy_threshold"].Number?)
  {
    set k | k in raw && !Acceptable(k, raw[k])
  }

  function StringsOr(raw: map<string, SettingValue>, key: string, default: seq<string>): seq<string> {
    if key in raw && raw[key].Strings? then raw[key].items else default
  }

  function FlagOr(raw: map<string, SettingValue>, key: string, default: bool): bool {
    if key in raw && raw[key].Flag? then raw[key].flag else default
  }

  function NumberOr(raw: map<string, SettingValue>, key: string, default: real): real {
    if key in raw && raw[key].Number? then raw[key].number else default
  }

  function SetOf(items: seq<string>): set<string> {
    set x | x in items
  }

  /** `URLReputationConfig(**(config.config or {}))`: each absent field takes its declared default. */
  function ParseConfig(settings: Option<map<string, SettingValue>>): (r: Result<Config, ConfigError>)
    ensures r.Err? <==> settings.Some? && InvalidFields(settings.value) != {}
    ensures r.Err? ==> r.error.fields == InvalidFields(settings.value)
  {
    var raw := if settings.Some? then settings.value else map[];
    if InvalidFields(raw) != {} then Err(ValidationError(InvalidFields(raw)))
    else Ok(Config(
      SetOf(StringsOr(raw, "whitelist_domains", [])),
      StringsOr(raw, "allowed_patterns", []),
      SetOf(StringsOr(raw, "blocked_domains", [])),
      StringsOr(raw, "blocked_patterns", []),
      FlagOr(raw, "use_heuristic_check", false),
      NumberOr(raw, "entropy_threshold", 3.65),
      FlagOr(raw, "block_non_secure_http", true)))
  }

  /** The declared defaults, taken by every field the settings leave out. */
  lemma AbsentFieldsTakeDefaults(settings: Option<map<string, SettingValue>>)
    requires ParseConfig(settings).Ok?
    ensures var raw := if settings.Some? then settings.value else map[];
      var c := ParseConfig(settings).value;
      && ("whitelist_domains" !in raw ==> c.whitelistDomains == {})
      && ("allowed_patterns" !in raw ==> c.allowedPatterns == [])
      && ("blocked_domains" !in raw ==> c.blockedDomains == {})
      && ("blocked_patterns" !in raw ==> c.blockedPatterns == [])
      && ("use_heuristic_check" !in raw ==> !c.useHeuristicCheck)
      && ("entropy_threshold" !in raw ==> c.entropyThreshold == 3.65)
      && ("block_non_secure_http" !in raw ==> c.blockNonSecureHttp)
  {
  }

  /** No settings, or an empty dict, give the all-defaults configuration. */
  lemma NoSettingsIsDefault()
    ensures ParseConfig(None) == ParseConfig(Some(map[]))
    ensures ParseConfig(None) == Ok(Config({}, [], {}, [], false, 3.65, true))
  {
    assert InvalidFields(map[]) == {};
    assert SetOf([]) == {};
  }

  /** A supplied value of the right type is taken as given (lists become sets for the two domain sets). */
  lemma SuppliedValuesKept(raw: map<string, SettingValue>)
    requires ParseConfig(Some(raw)).Ok?
    ensures var c := ParseConfig(Some(raw)).value;
      && ("blocked_domains" in raw ==> c.blockedDomains == SetOf(raw["blocked_domains"].items))
      && ("blocked_patterns" in raw ==> c.blockedPatterns == raw["blocked_patterns"].items)
      && ("entropy_threshold" in raw ==> c.entropyThreshold == raw["entropy_threshold"].number)
  {
  }

  /** The fallback's domain rule: a non-empty host equal to, or a dot-suffix subdomain of, a blocked domain. */
  predicate HostBlocked(host: string, blockedDomains: set<string>) {
    host != "" && exists d :: d in blockedDomains && DotSuffixMatch(host, d)
  }

  function DomainViolation(host: string): PreFetchResult {
    PreFetchResult(false, Some(PluginViolation(
      "Blocked domain", "Domain " + host + " is blocked", "URL_REPUTATION_BLOCK", Some(map["domain" := host]))))
  }

  function PatternViolation(pattern: string): PreFetchResult {
    PreFetchResult(false, Some(PluginViolation(
      "Blocked pattern", "URL matches blocked pattern: " + pattern, "URL_REPUTATION_BLOCK", Some(map["pattern" := pattern]))))
  }

  /** `parsed.hostname or ""`. */
  function HostOrEmpty(hostname: Option<string>): string {
    if hostname.Some? then hostname.value else ""
  }

  /** The pure-Python branch: domain check on the hostname, then the first blocked pattern in the raw uri. */
  function FallbackOutcome(lib: Oracles, cfg: Config, uri: string): Result<PreFetchResult, PyErr> {
    match lib.pyHostname(uri)
    case UrlparseError(message) => Err(ValueError(message))
    case Hostname(hostname) =>
      if HostBlocked(HostOrEmpty(hostname), cfg.blockedDomains) then Ok(DomainViolation(HostOrEmpty(hostname)))
      else
        match FirstOccurring(cfg.blockedPatterns, uri)
        case Some(pattern) => Ok(PatternViolation(pattern))
        case None => Ok(PreFetchResult(true, None))
  }

  /** The Rust branch copies `continue_processing` and the violation's four fields. */
  function FromRust(result: UrlPluginResult): PreFetchResult {
    match result.violation
    case None => PreFetchResult(result.continueProcessing, None)
    case Some(v) => PreFetchResult(result.continueProcessing, Some(PluginViolation(v.reason, v.description, v.code, v.details)))
  }

  /**
   * `resource_pre_fetch`: the module flag is read again at call time, so a plugin
   * built while it was false and called while it is true has no `rust_plugin`.
   */
  function PreFetchOutcome(lib: Oracles, cfg: Config, rustPlugin: Option<RustValidator>, rustAvailable: bool, uri: string): Result<PreFetchResult, PyErr> {
    if rustAvailable then
      match rustPlugin
      case None => Err(AttributeError("rust_plugin"))
      case Some(validate) => Ok(FromRust(validate(uri)))
    else FallbackOutcome(lib, cfg, uri)
  }

  /** `URLReputationPlugin`: `_cfg` and `rust_plugin` are set in `__init__` and never reassigned. */
  class UrlReputationPlugin {
    const cfg: Config
    const rustPlugin: Option<RustValidator>

    /** `__init__` once the settings have validated; the Rust plugin is built from `_cfg` when the flag is set. */
    constructor (cfg: Config, rustAvailable: bool, buildRust: Config -> RustValidator)
      ensures this.cfg == cfg
      ensures rustPlugin == if rustAvailable then Some(buildRust(cfg)) else None
    {
      this.cfg := cfg;
      rustPlugin := if rustAvailable then Some(buildRust(cfg)) else None;
    }

    /** The hook: the Rust result copied, or the fallback's domain check and then its pattern loop. */
    method ResourcePreFetch(lib: Oracles, rustAvailable: bool, uri: string) returns (r: Result<PreFetchResult, PyErr>)
      ensures r == PreFetchOutcome(lib, cfg, rustPlugin, rustAvailable, uri)
    {
      if rustAvailable {
        if rustPlugin.None? {
          return Err(AttributeError("rust_plugin"));
        }
        var result := rustPlugin.value(uri);
        return Ok(FromRust(result));
      }
      var parsed := lib.pyHostname(uri);
      if parsed.UrlparseError? {
        return Err(ValueError(parsed.message));
      }
      var host := HostOrEmpty(parsed.hostname);
      if HostBlocked(host, cfg.blockedDomains) {
        return Ok(DomainViolation(host));
      }
      var patterns := cfg.blockedPatterns;
      for k := 0 to |patterns|
        invariant FirstOccurring(patterns[k..], uri) == FirstOccurring(patterns, uri)
      {
        var pattern := patterns[k];
        if IsSubstring(pattern, uri) {
          return Ok(PatternViolation(pattern));
        }
        assert patterns[k..][1..] == patterns[k + 1..];
      }
      return Ok(PreFetchResult(true, None));
    }
  }

  /** `Create`: validation first, then construction; a ValidationError means no plugin. */
  method Create(settings: Option<map<string, SettingValue>>, rustAvailable: bool, buildRust: Config -> RustValidator)
    returns (r: Result<UrlReputationPlugin, ConfigError>)
    ensures r.Err? <==> ParseConfig(settings).Err?
    ensures r.Err? ==> r == Err(ParseConfig(settings).error)
    ensures r.Ok? ==> fresh(r.value) && r.value.cfg == ParseConfig(settings).value
    ensures r.Ok? ==> r.value.rustPlugin == if rustAvailable then Some(buildRust(r.value.cfg)) else None
  {
    var parsed := ParseConfig(settings);
    if parsed.Err? {
      return Err(parsed.error);
    }
    var plugin := new UrlReputationPlugin(parsed.value, rustAvailable, buildRust);
    return Ok(plugin);
  }

  /** The unit test: "bad.example" blocks "https://api.bad.example/v1" by domain, with details {"domain": host}. */
  lemma SubdomainBlockedInFallback(lib: Oracles, cfg: Config, uri: string)
    requires lib.pyHostname(uri) == Hostname(Some("api.bad.example"))
    requires cfg.blockedDomains == {"bad.example"}
    ensures FallbackOutcome(lib, cfg, uri) == Ok(DomainViolation("api.bad.example"))
    ensures FallbackOutcome(lib, cfg, uri).value.violation.value.details == Some(map["domain" := "api.bad.example"])
  {
    SubdomainMatches("api", "bad.example");
    assert "api" + "." + "bad.example" == "api.bad.example";
    assert HostBlocked("api.bad.example", cfg.blockedDomains);
  }

  /** A missing or empty hostname is never domain-blocked, whatever the blocked domains are. */
  lemma EmptyHostNeverDomainBlocked(lib: Oracles, cfg: Config, uri: string)
    requires lib.pyHostname(uri) == Hostname(None) || lib.pyHostname(uri) == Hostname(Some(""))
    ensures FallbackOutcome(lib, cfg, uri).Ok?
    ensures FallbackOutcome(lib, cfg, uri).value.violation.Some? ==>
      FallbackOutcome(lib, cfg, uri).value.violation.value.reason == "Blocked pattern"
  {
  }

  /** The domain check runs before the pattern check: a blocked host is reported even if a pattern also matches. */
  lemma DomainCheckFirst(lib: Oracles, cfg: Config, uri: string, host: string, d: string)
    requires lib.pyHostname(uri) == Hostname(Some(host))
    requires host != "" && d in cfg.blockedDomains && DotSuffixMatch(host, d)
    ensures FallbackOutcome(lib, cfg, uri) == Ok(DomainViolation(host))
  {
  }

  /** Without a domain match, the first pattern in list order that is a substring of the raw uri blocks it. */
  lemma FirstPatternBlocks(lib: Oracles, cfg: Config, uri: string, hostname: Option<string>, k: nat)
    requires lib.pyHostname(uri) == Hostname(hostname)
    requires !HostBlocked(HostOrEmpty(hostname), cfg.blockedDomains)
    requires k < |cfg.blockedPatterns| && IsSubstring(cfg.blockedPatterns[k], uri)
    requires forall j :: 0 <= j < k ==> !IsSubstring(cfg.blockedPatterns[j], uri)
    ensures FallbackOutcome(lib, cfg, uri) == Ok(PatternViolation(cfg.blockedPatterns[k]))
    ensures FallbackOutcome(lib, cfg, uri).value.violation.value.details == Some(map["pattern" := cfg.blockedPatterns[k]])
  {
    FirstOccurringIsFirst(cfg.blockedPatterns, uri, k);
  }

  /** If neither check fires the fetch continues with no violation. */
  lemma NeitherCheckFires(lib: Oracles, cfg: Config, uri: string, hostname: Option<string>)
    requires lib.pyHostname(uri) == Hostname(hostname)
    requires !HostBlocked(HostOrEmpty(hostname), cfg.blockedDomains)
    requires forall p :: p in cfg.blockedPatterns ==> !IsSubstring(p, uri)
    ensures FallbackOutcome(lib, cfg, uri) == Ok(PreFetchResult(true, None))
  {
  }

  /** On the Rust path the result's fields are those of the Rust result. */
  lemma RustPathCopies(lib: Oracles, cfg: Config, validate: RustValidator, uri: string)
    ensures var r := PreFetchOutcome(lib, cfg, Some(validate), true, uri).value;
      && r.continueProcessing == validate(uri).continueProcessing
      && r.violation.Some? == validate(uri).violation.Some?
      && (r.violation.Some? ==> r.violation.value == validate(uri).violation.value)
  {
  }
}
