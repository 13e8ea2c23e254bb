/**
 * `plugin.rs`: the PyO3 plugin that reads its settings from a Python dict and
 * blocks URLs by dot-suffix domain matching and substring patterns.
 */
module RustPlugin {
  import opened Wrappers
  import opened Oracles
  import opened Text
  import opened DomainMatch

  /** The Python values PyO3 extraction distinguishes. */
  datatype PyValue = PyStr(s: string) | PyList(items: seq<PyValue>) | PyDict(entries: map<string, PyValue>) | PyOther

  /** Python exceptions raised by this file; `ExtractError` is PyO3's conversion error for the named key. */
  datatype PyErr = KeyError(message: string) | ExtractError(key: string) | ValueError(message: string)

  /** `URLReputationPluginConfig`. */
  datatype PluginConfig = PluginConfig(name: string, kind: string, hooks: seq<string>, config: map<string, seq<string>>)

  /** `URLReputationPlugin`: holds its configuration, never updated after `new`. */
  datatype Plugin = Plugin(config: PluginConfig)

  /** This file's `PluginViolation`, whose `details` is a JSON text. */
  datatype PluginViolation = PluginViolation(reason: string, description: string, code: string, details: string)

  /** `ResourcePreFetchResult`. */
  datatype PreFetchResult = PreFetchResult(continueProcessing: bool, violation: Option<PluginViolation>)

  /** `extract::<String>()`. */
  function ExtractString(v: PyValue): (r: Option<string>)
    ensures r.Some? <==> v.PyStr?
    ensures r.Some? ==> r.value == v.s
  {
    if v.PyStr? then Some(v.s) else None
  }

  /** `extract::<Vec<String>>()`: a list whose items are all strings. */
  function ExtractStringList(v: PyValue): (r: Option<seq<string>>)
    ensures r.Some? <==> v.PyList? && forall i :: 0 <= i < |v.items| ==> v.items[i].PyStr?
    ensures r.Some? ==> |r.value| == |v.items| && forall i :: 0 <= i < |v.items| ==> r.value[i] == v.items[i].s
  {
    if v.PyList? && forall i :: 0 <= i < |v.items| ==> v.items[i].PyStr? then
      Some(seq(|v.items|, i requires 0 <= i < |v.items| => v.items[i].s))
    else None
  }

  /** `extract::<HashMap<String, Vec<String>>>()`: a dict whose values are all lists of strings. */
  function ExtractConfigMap(v: PyValue): (r: Option<map<string, seq<string>>>)
    ensures r.Some? <==> v.PyDict? && forall k :: k in v.entries ==> ExtractStringList(v.entries[k]).Some?
    ensures r.Some? ==> r.value.Keys == v.entries.Keys
    ensures r.Some? ==> forall k :: k in r.value ==> r.value[k] == ExtractStringList(v.entries[k]).value
  {
    if v.PyDict? && forall k :: k in v.entries ==> ExtractStringList(v.entries[k]).Some? then
      Some(map k | k in v.entries :: ExtractStringList(v.entries[k]).value)
    else None
  }

  /** The message of the KeyError for a missing key. */
  function MissingKey(key: string): string {
    "Missing '" + key + "' key"
  }

  /** `config_dict.get_item(key)?.ok_or_else(...)`: the value, or a KeyError naming the key. */
  function GetItem(dict: map<string, PyValue>, key: string): (r: Result<PyValue, PyErr>)
    ensures r.Ok? <==> key in dict
    ensures key !in dict ==> r.error == KeyError(MissingKey(key))
    ensures r.Ok? ==> r.value == dict[key]
  {
    if key in dict then Ok(dict[key]) else Err(KeyError(MissingKey(key)))
  }

  /** All four entries are present and of the right shape. */
  predicate WellFormedSettings(dict: map<string, PyValue>) {
    && "name" in dict && ExtractString(dict["name"]).Some?
    && "kind" in dict && ExtractString(dict["kind"]).Some?
    && "hooks" in dict && ExtractStringList(dict["hooks"]).Some?
    && "config" in dict && ExtractConfigMap(dict["config"]).Some?
  }

  /** `URLReputationPlugin::new`: reads "name", "kind", "hooks" and "config" in that order; the first problem is raised. */
  function New(dict: map<string, PyValue>): (r: Result<Plugin, PyErr>)
    ensures r.Ok? <==> WellFormedSettings(dict)
    ensures "name" !in dict ==> r == Err(KeyError(MissingKey("name")))
    ensures WellFormedSettings(dict) ==> r.value.config == PluginConfig(
      ExtractString(dict["name"]).value, ExtractString(dict["kind"]).value,
      ExtractStringList(dict["hooks"]).value, ExtractConfigMap(dict["config"]).value)
  {
    match GetItem(dict, "name")
    case Err(e) => Err(e)
    case Ok(nameValue) =>
      match ExtractString(nameValue)
      case None => Err(ExtractError("name"))
      case Some(name) =>
        match GetItem(dict, "kind")
        case Err(e) => Err(e)
        case Ok(kindValue) =>
          match ExtractString(kindValue)
          case None => Err(ExtractError("kind"))
          case Some(kind) =>
            match GetItem(dict, "hooks")
            case Err(e) => Err(e)
            case Ok(hooksValue) =>
              match ExtractStringList(hooksValue)
              case None => Err(ExtractError("hooks"))
              case Some(hooks) =>
                match GetItem(dict, "config")
                case Err(e) => Err(e)
                case Ok(configValue) =>
                  match ExtractConfigMap(configValue)
                  case None => Err(ExtractError("config"))
                  case Some(config) => Ok(Plugin(PluginConfig(name, kind, hooks, config)))
  }

  /** The keys are looked up in order, and the first missing one names the KeyError. */
  lemma FirstMissingKeyRaised(dict: map<string, PyValue>)
    ensures ("name" in dict && ExtractString(dict["name"]).Some? && "kind" !in dict) ==>
      New(dict) == Err(KeyError(MissingKey("kind")))
    ensures ("name" in dict && ExtractString(dict["name"]).Some? &&
             "kind" in dict && ExtractString(dict["kind"]).Some? && "hooks" !in dict) ==>
      New(dict) == Err(KeyError(MissingKey("hooks")))
    ensures ("name" in dict && ExtractString(dict["name"]).Some? &&
             "kind" in dict && ExtractString(dict["kind"]).Some? &&
             "hooks" in dict && ExtractStringList(dict["hooks"]).Some? && "config" !in dict) ==>
      New(dict) == Err(KeyError(MissingKey("config")))
  {
  }

  /** A value of the wrong shape is reported under its key, even when later keys are missing. */
  lemma WrongShapeRaisesExtractError(dict: map<string, PyValue>)
    ensures ("name" in dict && ExtractString(dict["name"]).None?) ==> New(dict) == Err(ExtractError("name"))
    ensures ("name" in dict && ExtractString(dict["name"]).Some? &&
             "kind" in dict && ExtractString(dict["kind"]).None?) ==> New(dict) == Err(ExtractError("kind"))
    ensures ("name" in dict && ExtractString(dict["name"]).Some? &&
             "kind" in dict && ExtractString(dict["kind"]).Some? &&
             "hooks" in dict && ExtractStringList(dict["hooks"]).None?) ==> New(dict) == Err(ExtractError("hooks"))
    ensures ("name" in dict && ExtractString(dict["name"]).Some? &&
             "kind" in dict && ExtractString(dict["kind"]).Some? &&
             "hooks" in dict && ExtractStringList(dict["hooks"]).Some? &&
             "config" in dict && ExtractConfigMap(dict["config"]).None?) ==> New(dict) == Err(ExtractError("config"))
  {
  }

  /** `self.config.config.get(key).cloned().unwrap_or_default()`. */
  function Setting(plugin: Plugin, key: string): (r: seq<string>)
    ensures key !in plugin.config.config ==> r == []
    ensures key in plugin.config.config ==> r == plugin.config.config[key]
  {
    if key in plugin.config.config then plugin.config.config[key] else []
  }

  /** The settings the pre-fetch reads are the string lists of the "config" dict, and [] for a key it lacks. */
  lemma SettingFromDict(dict: map<string, PyValue>, key: string)
    requires New(dict).Ok?
    ensures dict["config"].PyDict?
    ensures key in dict["config"].entries ==>
      Setting(New(dict).value, key) == ExtractStringList(dict["config"].entries[key]).value
    ensures key !in dict["config"].entries ==> Setting(New(dict).value, key) == []
  {
  }

  function DomainBlocked(hostname: string): PreFetchResult {
    PreFetchResult(false, Some(PluginViolation(
      "Blocked domain", "Domain " + hostname + " is blocked", "URL_REPUTATION_BLOCK",
      "{\"domain\": \"" + hostname + "\"}")))
  }

  function PatternBlocked(pattern: string): PreFetchResult {
    PreFetchResult(false, Some(PluginViolation(
      "Blocked pattern", "URL matches blocked pattern: " + pattern, "URL_REPUTATION_BLOCK",
      "{\"pattern\": \"" + pattern + "\"}")))
  }

  /** What `resource_pre_fetch` returns: parse errors raise, then any dot-suffix domain match, then the first occurring pattern. */
  function PreFetchOutcome(lib: Oracles, plugin: Plugin, urlStr: string): Result<PreFetchResult, PyErr> {
    match lib.urlParse(urlStr)
    case ParseFailed(message) => Err(ValueError("Could not parse url: " + message))
    case Parsed(_, None) => Err(ValueError("Could not parse url hostname from: " + urlStr))
    case Parsed(_, Some(hostname)) =>
      if exists d :: d in Setting(plugin, "blocked_domains") && DotSuffixMatch(hostname, d) then
        Ok(DomainBlocked(hostname))
      else
        match FirstOccurring(Setting(plugin, "blocked_patterns"), urlStr)
        case Some(pattern) => Ok(PatternBlocked(pattern))
        case None => Ok(PreFetchResult(true, None))
  }

  /** `resource_pre_fetch`: the domain loop, then the pattern loop, each returning at its first hit. */
  method ResourcePreFetch(lib: Oracles, plugin: Plugin, urlStr: string) returns (r: Result<PreFetchResult, PyErr>)
    ensures r == PreFetchOutcome(lib, plugin, urlStr)
  {
    var blockedDomains := Setting(plugin, "blocked_domains");
    var blockedPatterns := Setting(plugin, "blocked_patterns");
    var parsed := lib.urlParse(urlStr);
    if parsed.ParseFailed? {
      return Err(ValueError("Could not parse url: " + parsed.message));
    }
    if parsed.host.None? {
      return Err(ValueError("Could not parse url hostname from: " + urlStr));
    }
    var hostname := parsed.host.value;
    for k := 0 to |blockedDomains|
      invariant forall j :: 0 <= j < k ==> !DotSuffixMatch(hostname, blockedDomains[j])
    {
      var domain := blockedDomains[k];
      if hostname == domain || EndsWith(hostname, "." + domain) {
        assert domain in blockedDomains && DotSuffixMatch(hostname, domain);
        return Ok(DomainBlocked(hostname));
      }
    }
    for k := 0 to |blockedPatterns|
      invariant FirstOccurring(blockedPatterns[k..], urlStr) == FirstOccurring(blockedPatterns, urlStr)
    {
      var pattern := blockedPatterns[k];
      SelfOccurs(urlStr);
      if IsSubstring(pattern, urlStr) || urlStr == pattern {
        return Ok(PatternBlocked(pattern));
      }
      assert blockedPatterns[k..][1..] == blockedPatterns[k + 1..];
    }
    return Ok(PreFetchResult(true, None));
  }

  /** The `==` disjunct of the pattern test adds nothing: it implies `contains`. */
  lemma EqualityImpliesContains(urlStr: string, pattern: string)
    ensures (IsSubstring(pattern, urlStr) || urlStr == pattern) == IsSubstring(pattern, urlStr)
  {
    SelfOccurs(urlStr);
  }

  /** A host equal to, or a dot-suffix of, some blocked domain is blocked as that host, before any pattern is tried. */
  lemma DomainBlockedFirst(lib: Oracles, plugin: Plugin, urlStr: string, scheme: string, hostname: string, d: string)
    requires lib.urlParse(urlStr) == Parsed(scheme, Some(hostname))
    requires d in Setting(plugin, "blocked_domains") && DotSuffixMatch(hostname, d)
    ensures PreFetchOutcome(lib, plugin, urlStr) == Ok(DomainBlocked(hostname))
  {
  }

  /** With no domain match, the first pattern in list order that occurs in the raw URL blocks it. */
  lemma PatternBlocksInOrder(lib: Oracles, plugin: Plugin, urlStr: string, scheme: string, hostname: string, k: nat)
    requires lib.urlParse(urlStr) == Parsed(scheme, Some(hostname))
    requires forall d :: d in Setting(plugin, "blocked_domains") ==> !DotSuffixMatch(hostname, d)
    requires k < |Setting(plugin, "blocked_patterns")|
    requires IsSubstring(Setting(plugin, "blocked_patterns")[k], urlStr)
    requires forall j :: 0 <= j < k ==> !IsSubstring(Setting(plugin, "blocked_patterns")[j], urlStr)
    ensures PreFetchOutcome(lib, plugin, urlStr) == Ok(PatternBlocked(Setting(plugin, "blocked_patterns")[k]))
  {
    FirstOccurringIsFirst(Setting(plugin, "blocked_patterns"), urlStr, k);
  }

  /** Otherwise the URL goes through with no violation. */
  lemma OtherwiseAllowed(lib: Oracles, plugin: Plugin, urlStr: string, scheme: string, hostname: string)
    requires lib.urlParse(urlStr) == Parsed(scheme, Some(hostname))
    requires forall d :: d in Setting(plugin, "blocked_domains") ==> !DotSuffixMatch(hostname, d)
    requires forall p :: p in Setting(plugin, "blocked_patterns") ==> !IsSubstring(p, urlStr)
    ensures PreFetchOutcome(lib, plugin, urlStr) == Ok(PreFetchResult(true, None))
  {
  }

  /** The subdomain case of the unit test: "bad.example" blocks host "api.bad.example". */
  lemma SubdomainOfBlockedDomain(lib: Oracles, plugin: Plugin, urlStr: string)
    requires lib.urlParse(urlStr) == Parsed("https", Some("api.bad.example"))
    requires Setting(plugin, "blocked_domains") == ["bad.example"]
    ensures PreFetchOutcome(lib, plugin, urlStr) == Ok(DomainBlocked("api.bad.example"))
  {
    SubdomainMatches("api", "bad.example");
    assert "api" + "." + "bad.example" == "api.bad.example";
    DomainBlockedFirst(lib, plugin, urlStr, "https", "api.bad.example", "bad.example");
  }
}
