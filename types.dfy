/** The configuration and result shapes of `types.rs`. */
module Types {
  import opened Wrappers

  /** `URLReputationConfig`; the f32 threshold is a real. */
  datatype Config = Config(
    whitelistDomains: set<string>,
    allowedPatterns: seq<string>,
    blockedDomains: set<string>,
    blockedPatterns: seq<string>,
    useHeuristicCheck: bool,
    entropyThreshold: real,
    blockNonSecureHttp: bool
  )

  /** `PluginViolation`. */
  datatype PluginViolation = PluginViolation(
    reason: string,
    description: string,
    code: string,
    details: Option<map<string, string>>
  )

  /** `URLPluginResult`. */
  datatype UrlPluginResult = UrlPluginResult(continueProcessing: bool, violation: Option<PluginViolation>)
}
