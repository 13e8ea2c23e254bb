/**
 * The library behaviour the Rust and Python code relies on, passed in as values so that
 * the model states what each decision does with whatever the library answers.
 */
module Oracles {
  import opened Wrappers

  /** What `url::Url::parse` yields: an error message, or the scheme and `host_str()`. */
  datatype UrlParse = ParseFailed(message: string) | Parsed(scheme: string, host: Option<string>)

  /** What Python's `urlparse(uri).hostname` yields: a ValueError message, or the (lower-cased) hostname if any. */
  datatype PyHostname = UrlparseError(message: string) | Hostname(hostname: Option<string>)

  /** `unicode_security::RestrictionLevel` (section 5.2 of UTS #39). */
  datatype RestrictionLevel =
    | ASCIIOnly
    | SingleScript
    | HighlyRestrictive
    | ModeratelyRestrictive
    | MinimallyRestrictive
    | Unrestricted

  datatype Oracles = Oracles(
    /** `url::Url::parse` (WHATWG URL Standard). */
    urlParse: string -> UrlParse,
    /** Rust's `str::to_lowercase` (full Unicode lower-case mapping). */
    toLowercase: string -> string,
    /** `s.parse::<Ipv4Addr>().is_ok()`. */
    isIpv4: string -> bool,
    /** `s.parse::<Ipv6Addr>().is_ok()`. */
    isIpv6: string -> bool,
    /** `Regex::new(p).is_ok()`. */
    regexCompiles: string -> bool,
    /** `Regex::new(p).unwrap().is_match(text)`, for a pattern `p` that compiles. */
    regexIsMatch: (string, string) -> bool,
    /** The f32 value of `-p * p.log2()` with `p = count / len`. */
    entropyTerm: (nat, nat) -> real,
    /** `idna::domain_to_unicode` (ToUnicode, section 4.3 of UTS #46): the text and whether errors were reported. */
    domainToUnicode: string -> (string, bool),
    /** `GeneralSecurityProfile::identifier_allowed` (section 3.1 of UTS #39). */
    identifierAllowed: char -> bool,
    /** `detect_restriction_level` (section 5.2 of UTS #39). */
    restrictionLevel: string -> RestrictionLevel,
    /** Python's `urllib.parse.urlparse(uri).hostname`. */
    pyHostname: string -> PyHostname,
    /** `VALID_TLD_SET`, the table of registered top-level domains. */
    validTlds: set<string>
  )
}
