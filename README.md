# URL reputation plugin — Dafny model

This project models the URL reputation plugin of the MCP context forge gateway. The plugin decides, before a resource is fetched, whether its URL may be fetched. The decision logic exists in several overlapping versions, and each is modelled as written:

- **`engine.rs`**: the Rust `URLReputationPlugin`. Its constructor compiles the allow and block regexes and silently drops any that fail to compile. `validate_url` is a first-match-wins pipeline:
  1. trim, lowercase and parse the URL, then take its host;
  2. classify the host as an IP literal;
  3. whitelist (exact membership);
  4. allow patterns;
  5. the non-HTTPS gate;
  6. block patterns;
  7. the heuristic battery: entropy, then TLD, then Unicode security.
- **`filters/heuristic.rs`**:
  - the byte histogram and the 8-byte entropy floor;
  - the TLD check, which tests the trimmed, lowercased final label against a set;
  - the Unicode security check, which runs label by label.
- **`filters/patterns.rs`** and **`engines/patterns.rs`**: the
  pattern helpers, which test any-of-regex, exact list membership or substring.
- **`engines/entropy.rs`**: the older entropy check. Its comparison is the reverse of `passed_entropy`'s.
- **`plugin.rs`**: the PyO3 plugin.
  - It reads its settings from a Python dict and raises `KeyError` for a missing key.
  - It blocks by dot-suffix domain matching and then by substring patterns.
- **`url_reputation.py`**: the Python plugin.
  - It builds its configuration with the declared defaults.
  - It either copies the Rust result or runs its own domain check and pattern loop.
- **`utils.py`** `to_camel_case` and **`compare_performance.py`** `generate_payloads`: two small pure functions.

## How the model is built

- **Libraries** are passed in as values, in one `Oracles` datatype (`oracles.dfy`). These are:
  - URL parsing (WHATWG URL Standard) and Python's `urlparse(...).hostname`;
  - `Ipv4Addr`/`Ipv6Addr` parsing;
  - regex compilation and matching, and Rust's `to_lowercase`;
  - `domain_to_unicode` (ToUnicode, section 4.3 of UTS #46), `identifier_allowed` (section 3.1 of UTS #39) and `detect_restriction_level` (section 5.2 of UTS #39);
  - the registered-TLD table;
  - the per-slot entropy term `-p * log2(p)`.

  Every decision is proved for whatever these libraries answer.
- **Pure code becomes functions.** `validate_url`, `new`, `passed_entropy`, `is_tld_legal`, the pattern helpers, the Python config, `to_camel_case` and `generate_payloads` are functions over immutable datatypes.
- **Code that loops becomes methods**, each proved equal to a specification function:
  - both `shannon_entropy` functions fill a 256-slot `array<nat>` and then add up its non-zero slots;
  - `is_domain_unicode_secure` has a label loop with early returns;
  - `in_blocked_patterns`;
  - the two loops of `plugin.rs` `resource_pre_fetch`;
  - the pattern loop of the Python fallback.
- **The Python plugin is a class.** `_cfg` and `rust_plugin` are its `const` fields, set in the constructor.
- **Strings** are `seq<char>`.
  - Rust byte lengths (`len()`, `as_bytes()`) use an exact UTF-8 encoder (`utf8.dfy`).
  - `trim` uses the exact Unicode White_Space list.
  - `to_ascii_lowercase`, `split`, `contains` and `ends_with` are written out in `text.dfy`.

Where the doc comments and the code disagree, the model follows the code. Facts about the code worth knowing:

- **Blocked domains.** `engine.rs` never reads `config.blocked_domains`, although its doc comment (engine.rs:22) lists a blocked-domains step. `Engine.BlockedDomainsIgnored` proves that the value of `blocked_domains` never changes a decision.
- **Whitelist.** The `engine.rs` whitelist is exact set membership. A listed parent domain does not let a subdomain through (`Engine.WhitelistIsExact`).
- **Reason strings** are the code's literals, for example "Could not parse url" and "Illegal TLD".
- **Raw input.** Patterns are matched against the raw input; only the parser sees the trimmed, lowercased one. The "Blocked pattern" violation of `engine.rs` stores the URL under the key `"domain"`.
- **Three domain-matching rules coexist:**
  - exact set membership (`engine.rs` whitelist);
  - exact list membership (`engines/patterns.rs`);
  - dot-suffix matching (`plugin.rs` and `url_reputation.py`).

  `DomainMatch` gives the dot-suffix rule its own predicate. It proves that dot-suffix matching extends exact matching, needs a dot boundary (`DomainMatch.DotBoundary`), and holds exactly when the domain is one of the host's ancestors (`DomainMatch.DotSuffixIffAncestor`).

## Model

| member | source | states |
|---|---|---|
| `Engine.Normalize` | plugins_rust/url_reputation/src/engine.rs:92 | the text the parser sees: the input trimmed of Unicode white space, then lowercased; `Engine.UnparsableUrl`, `Engine.HostlessUrl` and `Engine.AllowedExactly` state the decisions made on it |
| `Engine.IsIpLiteral` | plugins_rust/url_reputation/src/engine.rs:121-126 | an IPv4 literal, or an IPv6 literal once leading '[' and trailing ']' are stripped; `Engine.IpLiteralSkipsHeuristics` states that such a host skips the heuristics |
| `Engine.CompilePatterns` | plugins_rust/url_reputation/src/engine.rs:74-83 | a compiled list holds exactly the configured patterns that compile, and never more entries than were configured |
| `Engine.CompilePreservesOrder` | plugins_rust/url_reputation/src/engine.rs:74-83 | compilation distributes over concatenation, so compiled patterns keep configuration order |
| `Engine.CompileOne` | plugins_rust/url_reputation/src/engine.rs:77 | a single pattern is kept exactly when it compiles; one that does not compile is dropped without an error |
| `Engine.CompileAllGood` | plugins_rust/url_reputation/src/engine.rs:74-83 | when every pattern compiles, the compiled list is the configured list, index by index |
| `Engine.New` | plugins_rust/url_reputation/src/engine.rs:73-89 | the configuration is kept unchanged, and both compiled lists contain exactly the configured patterns that compile |
| `Engine.ValidateUrl` | plugins_rust/url_reputation/src/engine.rs:91-210 | the result continues exactly when it has no violation; every violation has code "URL_REPUTATION_BLOCK", one of the seven reasons, and details |
| `Engine.UnparsableUrl` | plugins_rust/url_reputation/src/engine.rs:92-104 | if the trimmed, lowercased input fails to parse, the URL is blocked as "Could not parse url" with details {"url": original input} |
| `Engine.HostlessUrl` | plugins_rust/url_reputation/src/engine.rs:106-118 | a parsed URL without a host is blocked as "Could not parse domain" with details {"url": original input} |
| `Engine.WhitelistBeatsEverything` | plugins_rust/url_reputation/src/engine.rs:131-136 | a host exactly in `whitelist_domains` is allowed with no violation, whatever the scheme, patterns or heuristics say |
| `Engine.WhitelistIsExact` | plugins_rust/url_reputation/src/engine.rs:131-155 | a host not itself in the whitelist gets no exemption, so an http URL that no allow pattern matches is blocked by the scheme gate |
| `Engine.AllowPatternBeatsSchemeGate` | plugins_rust/url_reputation/src/engine.rs:138-143 | if any allow pattern matches the raw input, the URL is allowed before the non-HTTPS gate is consulted |
| `Engine.SchemeGateBeatsBlockPatterns` | plugins_rust/url_reputation/src/engine.rs:145-155 | with `block_non_secure_http`, any scheme other than "https" is blocked as "Blocked non secure http url" before block patterns or heuristics |
| `Engine.BlockPatternBeatsHeuristics` | plugins_rust/url_reputation/src/engine.rs:157-167 | past the gate, a block pattern that matches the raw input gives "Blocked pattern" before any heuristic runs |
| `Engine.IpLiteralSkipsHeuristics` | plugins_rust/url_reputation/src/engine.rs:121-209 | an IPv4 host, a bracket-stripped IPv6 host, or any host when heuristics are off, skips the battery and is allowed |
| `Engine.HeuristicOrder` | plugins_rust/url_reputation/src/engine.rs:169-205 | the battery runs entropy, then TLD, then Unicode, and reports the reason of the first check that fails |
| `Engine.BlockedDomainsIgnored` | plugins_rust/url_reputation/src/engine.rs:91-210 | replacing `config.blocked_domains` by any other set never changes the result |
| `Engine.AllowedExactly` | plugins_rust/url_reputation/src/engine.rs:91-210 | the whole pipeline as one if-and-only-if condition on the parse, the whitelist, the patterns, the scheme and the heuristics |
| `Utf8.Encode` | plugins_rust/url_reputation/src/filters/heuristic.rs:34 | the UTF-8 bytes whose count is `domain.len()`: never fewer than the characters, and empty exactly for the empty string |
| `Entropy.Histogram` | plugins_rust/url_reputation/src/filters/heuristic.rs:18-22 | 256 slots, slot b holding the number of occurrences of byte b |
| `Entropy.HistogramTotal` | plugins_rust/url_reputation/src/filters/heuristic.rs:18-22 | the counts add up to the byte length |
| `Entropy.HistogramPermutation` | plugins_rust/url_reputation/src/filters/heuristic.rs:20-22 | byte sequences that are permutations of each other have the same histogram |
| `Entropy.CountBytes` | plugins_rust/url_reputation/src/filters/heuristic.rs:18-22 | the in-place counting loop leaves the fresh 256-slot array equal to the histogram |
| `Entropy.SumTerms` | plugins_rust/url_reputation/src/filters/heuristic.rs:24-29 | the summation loop adds the entropy term of every non-zero slot in slot order |
| `Entropy.EntropySumZeros` | plugins_rust/url_reputation/src/filters/heuristic.rs:24-29 | an all-zero histogram contributes no term, so the sum is 0 |
| `Heuristic.ShannonEntropy` | plugins_rust/url_reputation/src/filters/heuristic.rs:7-31 | returns 0 for the empty domain, and otherwise the term sum over the domain's byte histogram |
| `Heuristic.PassedEntropy` | plugins_rust/url_reputation/src/filters/heuristic.rs:33-40 | a domain under 8 bytes passes, and otherwise passes when its entropy is at most the threshold; `Heuristic.ShortDomainPasses`, `Heuristic.ThresholdMonotone` and `Heuristic.EntropyPermutation` state its properties |
| `Heuristic.ShortDomainPasses` | plugins_rust/url_reputation/src/filters/heuristic.rs:33-38 | a domain shorter than 8 bytes passes for every threshold |
| `Heuristic.ShortAsciiDomainPasses` | plugins_rust/url_reputation/src/filters/heuristic.rs:34-38 | an ASCII domain of fewer than 8 characters is fewer than 8 bytes, so it passes for every threshold |
| `Heuristic.ThresholdMonotone` | plugins_rust/url_reputation/src/filters/heuristic.rs:39 | from 8 bytes on, passing is `entropy <= threshold`, and raising the threshold never turns a pass into a fail |
| `Heuristic.EntropyPermutation` | plugins_rust/url_reputation/src/filters/heuristic.rs:33-39 | domains whose bytes are permutations of each other have the same length and entropy, and pass or fail alike |
| `Heuristic.LastLabel` | plugins_rust/url_reputation/src/filters/heuristic.rs:46-48 | the text after the last '.' (all of it if there is none): a dot-free suffix preceded by a '.' when it is shorter than the string |
| `Heuristic.IsTldLegal` | plugins_rust/url_reputation/src/filters/heuristic.rs:42-51 | the trimmed domain's final label, ASCII-lowercased, is in the TLD set; `Heuristic.TldIsFinalLabel` and `Heuristic.TldCaseInsensitive` state its properties |
| `Heuristic.TldIsFinalLabel` | plugins_rust/url_reputation/src/filters/heuristic.rs:42-51 | for `name.tld` with no surrounding white space, including an empty `name` as in ".com", the verdict is whether the lowercased `tld` is in the TLD set |
| `Heuristic.TldCaseInsensitive` | plugins_rust/url_reputation/src/filters/heuristic.rs:42-51 | ASCII-lowercasing the domain first never changes the verdict |
| `Heuristic.RemoveHyphens` | plugins_rust/url_reputation/src/filters/heuristic.rs:66 | a character is kept exactly when it is in the label and is not '-' |
| `Heuristic.RemoveHyphensConcat` | plugins_rust/url_reputation/src/filters/heuristic.rs:66 | removing hyphens distributes over concatenation, so the kept characters stay in order |
| `Heuristic.RemoveHyphensChar` | plugins_rust/url_reputation/src/filters/heuristic.rs:66 | a single '-' is dropped and any other single character is kept; with `RemoveHyphensConcat` this fixes the result on every label |
| `Heuristic.RemoveHyphensMultiset` | plugins_rust/url_reputation/src/filters/heuristic.rs:66 | the result holds every non-hyphen character of the label exactly as often as the label does, and no hyphen |
| `Heuristic.UnicodeSecure` | plugins_rust/url_reputation/src/filters/heuristic.rs:53-95 | clean decoding, at most 253 bytes, and every '.'-separated label secure; `Heuristic.IsDomainUnicodeSecure` is proved equal to it, and `Heuristic.UnicodeSecureConjunction` and the three `...Insecure` lemmas state its properties |
| `Heuristic.IsDomainUnicodeSecure` | plugins_rust/url_reputation/src/filters/heuristic.rs:53-95 | the label loop with early returns returns exactly `UnicodeSecure`: clean decoding, at most 253 bytes, and every label secure |
| `Heuristic.DecodeFailureInsecure` | plugins_rust/url_reputation/src/filters/heuristic.rs:54-58 | a decoding error, or a decoded form over 253 bytes, fails the check |
| `Heuristic.EmptyOrHyphenLabelInsecure` | plugins_rust/url_reputation/src/filters/heuristic.rs:60-69 | a label that is empty or made only of hyphens fails the check |
| `Heuristic.BadLabelInsecure` | plugins_rust/url_reputation/src/filters/heuristic.rs:72-91 | a hyphen-stripped label with a character that is not identifier-allowed, or with a moderately, minimally or un-restricted level, fails the check |
| `Heuristic.UnicodeSecureConjunction` | plugins_rust/url_reputation/src/filters/heuristic.rs:60-94 | for a decoded form made of given dot-free labels, the check holds exactly when every label passes |
| `FilterPatterns.InBlockedPatternsRegex` | plugins_rust/url_reputation/src/filters/patterns.rs:3-5 | some block regex matches the text; `FilterPatterns.BlockedRegexIffSomeMatch`, `FilterPatterns.AppendMonotone` and `FilterPatterns.OrderIrrelevant` state its properties |
| `FilterPatterns.InAllowPatternsRegex` | plugins_rust/url_reputation/src/filters/patterns.rs:8-10 | some allow regex matches the text; `FilterPatterns.EmptyAndAgree` states that it agrees with the block version on every list |
| `FilterPatterns.AnyIsMatchExists` | plugins_rust/url_reputation/src/filters/patterns.rs:4 | the short-circuit `any` holds exactly when some list element matches |
| `FilterPatterns.BlockedRegexIffSomeMatch` | plugins_rust/url_reputation/src/filters/patterns.rs:3-5 | `in_blocked_patterns_regex(t, ps)` holds exactly when some pattern of `ps` matches `t` |
| `FilterPatterns.EmptyAndAgree` | plugins_rust/url_reputation/src/filters/patterns.rs:3-10 | both functions are false on an empty list, and agree on every list |
| `FilterPatterns.AppendMonotone` | plugins_rust/url_reputation/src/filters/patterns.rs:4 | appending patterns never turns a true result into false |
| `FilterPatterns.OrderIrrelevant` | plugins_rust/url_reputation/src/filters/patterns.rs:9 | lists with the same patterns in any order give the same result |
| `EnginesPatterns.InBlockedList` | plugins_rust/url_reputation/src/engines/patterns.rs:3-5 | exact list membership; `DomainMatch.SubdomainNotListed` and `DomainMatch.DotSuffixWiderThanExact` state that a subdomain is not a member |
| `EnginesPatterns.InBlockedPatterns` | plugins_rust/url_reputation/src/engines/patterns.rs:7-14 | the loop with early return is true exactly when some pattern is a substring of the domain |
| `EnginesPatterns.EmptyPatternListNeverMatches` | plugins_rust/url_reputation/src/engines/patterns.rs:8-13 | no pattern, no match |
| `EnginesPatterns.EmptyPatternMatchesAll` | plugins_rust/url_reputation/src/engines/patterns.rs:9 | an empty-string pattern matches every domain |
| `EnginesPatterns.MorePatternsMonotone` | plugins_rust/url_reputation/src/engines/patterns.rs:8-13 | adding patterns never turns a match into a non-match |
| `EnginesPatterns.PatternOrderIrrelevant` | plugins_rust/url_reputation/src/engines/patterns.rs:8-12 | lists with the same patterns in any order give the same result |
| `EnginesEntropy.ShannonEntropy` | plugins_rust/url_reputation/src/engines/entropy.rs:3-25 | both loops, without the empty guard, give the term sum over the byte histogram |
| `EnginesEntropy.SameEntropyAsHeuristic` | plugins_rust/url_reputation/src/engines/entropy.rs:3-25 | without its guard this version still scores the empty string 0, so both versions agree on every input |
| `EnginesEntropy.CheckEntropy` | plugins_rust/url_reputation/src/engines/entropy.rs:27-34 | true under 8 bytes, and otherwise when the entropy exceeds the threshold; `EnginesEntropy.InvertedComparison` and `EnginesEntropy.CheckEntropyPermutation` state its properties |
| `EnginesEntropy.InvertedComparison` | plugins_rust/url_reputation/src/engines/entropy.rs:27-34 | under 8 bytes `check_entropy` is true; from 8 bytes on it is the negation of `passed_entropy` on the same input and threshold |
| `EnginesEntropy.CheckEntropyPermutation` | plugins_rust/url_reputation/src/engines/entropy.rs:12-24 | permuting the bytes of the domain leaves the result unchanged |
| `DomainMatch.ExactImpliesDotSuffix` | plugins_rust/url_reputation/src/plugin.rs:113 | an exact match is a dot-suffix match |
| `DomainMatch.SubdomainMatches` | plugins/url_reputation/url_reputation.py:123 | `sub + "." + d` matches `d` |
| `DomainMatch.DotSuffixWiderThanExact` | plugins_rust/url_reputation/src/engines/patterns.rs:3-5 | dot-suffix matching accepts "api.bad.example" under "bad.example", which exact set and list membership both reject |
| `DomainMatch.SubdomainNotListed` | plugins_rust/url_reputation/src/engines/patterns.rs:3-5 | for every listed domain `d` and every `sub`, the host `sub.d`, unless listed itself, is not in `in_blocked_list`, although it matches `d` under the dot-suffix rule |
| `DomainMatch.DotBoundary` | plugins_rust/url_reputation/src/plugin.rs:113 | a match other than equality means the host is longer than the domain, ends with it, and has a '.' just before it |
| `DomainMatch.NoMatchWithoutDotBoundary` | plugins_rust/url_reputation/src/plugin.rs:113 | "notbad.example" ends with the text "bad.example" but, lacking the '.' boundary, does not match it |
| `DomainMatch.DotSuffixIsAncestor` | plugins_rust/url_reputation/src/plugin.rs:113 | a dot-suffix match means the domain is the host with some leading labels dropped |
| `DomainMatch.AncestorIsDotSuffix` | plugins_rust/url_reputation/src/plugin.rs:113 | conversely, the host with any number of leading labels dropped is a dot-suffix match |
| `DomainMatch.DotSuffixIffAncestor` | plugins_rust/url_reputation/src/plugin.rs:113 | dot-suffix matching holds exactly when the domain is one of the host's ancestors |
| `Text.JoinAt` | plugins/url_reputation/url_reputation.py:123 | joining splits at any inner piece boundary into the joined head, the separator and the joined rest, which gives the ancestor-to-dot-suffix direction of the host rule |
| `RustPlugin.ExtractString` | plugins_rust/url_reputation/src/plugin.rs:49 | extraction succeeds exactly on a Python str, and gives that str's content |
| `RustPlugin.ExtractStringList` | plugins_rust/url_reputation/src/plugin.rs:57 | extraction succeeds exactly on a list of strs, giving its items in order |
| `RustPlugin.ExtractConfigMap` | plugins_rust/url_reputation/src/plugin.rs:62 | extraction succeeds exactly on a dict whose values are lists of strs; it keeps the keys, and each value is that entry's extracted list |
| `RustPlugin.GetItem` | plugins_rust/url_reputation/src/plugin.rs:47-48 | a present key gives exactly its value; a missing one gives `KeyError("Missing '<key>' key")` |
| `RustPlugin.New` | plugins_rust/url_reputation/src/plugin.rs:45-72 | construction succeeds exactly when all four keys are present with the right shapes, and then holds their values; a missing "name" raises its KeyError |
| `RustPlugin.FirstMissingKeyRaised` | plugins_rust/url_reputation/src/plugin.rs:51-61 | the keys are read in order, and the first missing key of "kind", "hooks", "config" names the KeyError |
| `RustPlugin.WrongShapeRaisesExtractError` | plugins_rust/url_reputation/src/plugin.rs:47-62 | for each of "name", "kind", "hooks" and "config", a present value of the wrong type, after well-shaped earlier keys, raises an extraction error for that key before later keys are looked at |
| `RustPlugin.Setting` | plugins_rust/url_reputation/src/plugin.rs:90-98 | a present "blocked_domains" or "blocked_patterns" entry gives its list, and a missing one the empty list |
| `RustPlugin.SettingFromDict` | plugins_rust/url_reputation/src/plugin.rs:62-98 | after a successful `new`, each setting the pre-fetch reads is the string list of the "config" dict's entry, or [] when the dict lacks it |
| `RustPlugin.PreFetchOutcome` | plugins_rust/url_reputation/src/plugin.rs:74-151 | a ValueError for an unparsable URL or a missing hostname, then "Blocked domain" on any dot-suffix match, then the first occurring pattern; `DomainBlockedFirst`, `PatternBlocksInOrder` and `OtherwiseAllowed` state each outcome |
| `RustPlugin.ResourcePreFetch` | plugins_rust/url_reputation/src/plugin.rs:74-151 | the domain loop and then the pattern loop, with their early returns, return exactly `RustPlugin.PreFetchOutcome`, including the two ValueErrors |
| `RustPlugin.EqualityImpliesContains` | plugins_rust/url_reputation/src/plugin.rs:130 | the `==` disjunct of the pattern test adds nothing to `contains` |
| `RustPlugin.DomainBlockedFirst` | plugins_rust/url_reputation/src/plugin.rs:111-126 | a hostname equal to some d, or ending in "." + d, is blocked as "Blocked domain" before any pattern is tried |
| `RustPlugin.PatternBlocksInOrder` | plugins_rust/url_reputation/src/plugin.rs:128-143 | with no domain match, the first pattern in list order that the raw URL contains blocks, with its name in the details |
| `RustPlugin.OtherwiseAllowed` | plugins_rust/url_reputation/src/plugin.rs:145-150 | with no domain match and no contained pattern, processing continues with no violation |
| `RustPlugin.SubdomainOfBlockedDomain` | plugins_rust/url_reputation/src/plugin.rs:112-124 | blocked domain "bad.example" blocks host "api.bad.example" |
| `Text.FirstOccurring` | plugins_rust/url_reputation/src/plugin.rs:129-142 | the first pattern that occurs in the text: none exactly when no pattern occurs; otherwise a listed pattern that occurs |
| `Text.FirstOccurringIsFirst` | plugins/url_reputation/url_reputation.py:135-145 | the pattern found is the earliest one in list order that occurs |
| `Text.Split` | mcpgateway/plugins/framework/common/utils.py:38 | `split` gives at least one piece, and no piece contains the separator |
| `PyUrlReputation.InvalidFields` | plugins/url_reputation/url_reputation.py:46-77 | only declared fields are reported; a supplied list field is reported exactly when its value is not a list of strings, a flag field exactly when it is not a bool, and `entropy_threshold` exactly when it is not a number |
| `PyUrlReputation.ParseConfig` | plugins/url_reputation/url_reputation.py:46-77 | validation fails exactly when some field has a value of the wrong type, and the error names exactly those fields |
| `PyUrlReputation.AbsentFieldsTakeDefaults` | plugins/url_reputation/url_reputation.py:50-77 | absent fields default to: empty whitelist, allow list, blocked domains and blocked patterns; no heuristics; threshold 3.65; block non-HTTPS |
| `PyUrlReputation.NoSettingsIsDefault` | plugins/url_reputation/url_reputation.py:90 | no settings and an empty dict both give the all-defaults configuration |
| `PyUrlReputation.SuppliedValuesKept` | plugins/url_reputation/url_reputation.py:58-73 | a supplied blocked-domain list, pattern list or threshold is taken as given |
| `PyUrlReputation.UrlReputationPlugin.constructor` | plugins/url_reputation/url_reputation.py:83-92 | `_cfg` is the validated configuration; `rust_plugin` is built from it exactly when the Rust module is available |
| `PyUrlReputation.Create` | plugins/url_reputation/url_reputation.py:89-92 | a validation error means no plugin; otherwise a fresh plugin holding the validated configuration |
| `PyUrlReputation.UrlReputationPlugin.ResourcePreFetch` | plugins/url_reputation/url_reputation.py:94-146 | the Rust branch, or the domain check followed by the pattern loop, returns exactly `PyUrlReputation.PreFetchOutcome` |
| `PyUrlReputation.PreFetchOutcome` | plugins/url_reputation/url_reputation.py:94-146 | the Rust result copied, an AttributeError when the Rust flag is set without a constructed Rust plugin, or the fallback's domain check then first pattern; `RustPathCopies`, `DomainCheckFirst`, `FirstPatternBlocks` and `NeitherCheckFires` state each outcome |
| `PyUrlReputation.RustPathCopies` | plugins/url_reputation/url_reputation.py:104-118 | on the Rust path, `continue_processing` and the violation's fields are those of the Rust result |
| `PyUrlReputation.SubdomainBlockedInFallback` | plugins/url_reputation/url_reputation.py:123-132 | "bad.example" blocks host "api.bad.example" as "Blocked domain" with details {"domain": host} |
| `PyUrlReputation.EmptyHostNeverDomainBlocked` | plugins/url_reputation/url_reputation.py:121-123 | an absent or empty hostname is never domain-blocked; only a pattern can block it |
| `PyUrlReputation.DomainCheckFirst` | plugins/url_reputation/url_reputation.py:122-132 | a domain match blocks even when a pattern also matches |
| `PyUrlReputation.FirstPatternBlocks` | plugins/url_reputation/url_reputation.py:133-145 | with no domain match, the first pattern in list order that is a substring of the raw uri blocks, with details {"pattern": pat} |
| `PyUrlReputation.NeitherCheckFires` | plugins/url_reputation/url_reputation.py:146 | with neither check firing, processing continues with no violation |
| `CamelCase.ToCamelCase` | mcpgateway/plugins/framework/common/utils.py:7-38 | the first '_'-piece kept and the later ones capitalized and joined; `NoUnderscoreInResult`, `NoUnderscoreVerbatim`, `Idempotent`, `FirstPieceVerbatim` and the doctest lemmas state its properties |
| `CamelCase.Capitalize` | mcpgateway/plugins/framework/common/utils.py:38 | the first character is upper-cased and the rest lower-cased, keeping the length |
| `CamelCase.NoUnderscoreInResult` | mcpgateway/plugins/framework/common/utils.py:38 | the output never contains '_' |
| `CamelCase.NoUnderscoreVerbatim` | mcpgateway/plugins/framework/common/utils.py:19-24 | a string without '_' comes back verbatim, case included |
| `CamelCase.Idempotent` | mcpgateway/plugins/framework/common/utils.py:38 | converting twice equals converting once |
| `CamelCase.FirstPieceVerbatim` | mcpgateway/plugins/framework/common/utils.py:17-18 | the first piece is kept as is, and every later piece is capitalized and appended with no separator |
| `CamelCase.EmptyPiecesVanish` | mcpgateway/plugins/framework/common/utils.py:27-28 | empty pieces, from doubled or trailing underscores, contribute nothing |
| `CamelCase.EmptyString` | mcpgateway/plugins/framework/common/utils.py:21-22 | `to_camel_case("")` is "" |
| `CamelCase.HelloWorldExample` | mcpgateway/plugins/framework/common/utils.py:17-18 | "hello_world_example" becomes "helloWorldExample" |
| `CamelCase.AlreadyCamel` | mcpgateway/plugins/framework/common/utils.py:19-20 | "alreadyCamel" is returned unchanged |
| `CamelCase.LeadingUnderscore` | mcpgateway/plugins/framework/common/utils.py:25-26 | "_leading_underscore" becomes "LeadingUnderscore" |
| `CamelCase.TrailingUnderscore` | mcpgateway/plugins/framework/common/utils.py:27-28 | "trailing_underscore_" becomes "trailingUnderscore" |
| `ComparePerformance.Repeat` | plugins_rust/url_reputation/compare_performance.py:46 | list repetition has length `len(xs) * n`, and none when `n <= 0` |
| `ComparePerformance.RepeatIndex` | plugins_rust/url_reputation/compare_performance.py:48 | element i of a repetition is element `i mod len(xs)` of the original |
| `ComparePerformance.GeneratePayloads` | plugins_rust/url_reputation/compare_performance.py:43-51 | raises ZeroDivisionError exactly when there are no urls or the multiplier is not positive |
| `ComparePerformance.DefaultMultiplierCyclesUrls` | plugins_rust/url_reputation/compare_performance.py:43-51 | with the default `url_multiplier = 1`, a non-negative size gives exactly `size` payloads, payload i carrying `urls[i mod len(urls)]` |
| `ComparePerformance.ExpandedLength` | plugins_rust/url_reputation/compare_performance.py:46-47 | the expanded list has `len(urls) * url_multiplier` entries |
| `ComparePerformance.CyclicExactLength` | plugins_rust/url_reputation/compare_performance.py:48-51 | for a non-negative size, exactly `size` payloads, payload i carrying `expanded[i mod len(expanded)]` |
| `ComparePerformance.ShortSizeIsPrefix` | plugins_rust/url_reputation/compare_performance.py:48-51 | a size below the expanded count gives a prefix of the expanded list |
| `ComparePerformance.NegativeSize` | plugins_rust/url_reputation/compare_performance.py:48-49 | a negative size still yields `size mod count` payloads, since Python's floor `%` is non-negative |
| `ComparePerformance.Payloads` | plugins_rust/url_reputation/compare_performance.py:51 | one payload per uri, in order |

## Left out

- Library behaviour: these are parameters of the model, not reimplementations:
  - WHATWG URL parsing, Python `urlparse` and IP address parsing;
  - the regex engine and Rust's full Unicode `to_lowercase`;
  - ToUnicode (UTS #46) and the UTS #39 identifier and restriction-level tables;
  - the registered-TLD table, whose `iana_tlds` module is not part of this model.
- Floating point: the f32 `-p * log2(p)` terms are one library value per slot, and the running sum is exact real addition. f32 rounding, and f32 conversion of the threshold, are not modelled.
- The `println!` calls in `is_domain_unicode_secure` only produce output, and are left out.
- PyO3 marshalling is left out:
  - `#[pyclass]`, `Py::new` and `getattr("uri")`, whose "Could not extract uri" ValueError is not modelled;
  - the `lib.rs` module registration.
- The Python side is left out where it only logs or imports:
  - Python logging;
  - the try/except import that sets `_RUST_AVAILABLE`, which is a parameter here.
- The Rust result on the Python path is an abstract `validate_url` function. The class `lib.rs` exports (`plugin.rs`) has no `validate_url`, so the two files are modelled separately.
- PyUrlReputation.ParseConfig: only type mismatches are modelled as validation errors. Pydantic's lax coercions are not modelled, such as numeric strings or an int given for a bool. A list, set or tuple is one sequence of strings here.
- RustPlugin.ExtractStringList: only a Python list extracts into `Vec<String>`; the other sequence types PyO3 also accepts are not modelled.
- CamelCase.Capitalize: Python's `str.capitalize` is modelled with ASCII case mapping only. Full Unicode title and lower casing is not modelled.
- `engines/entropy.rs` indexes `frequency[b]` with a `u8`, which Rust does not accept, and no module declares `engines`. It is modelled as the evident byte count.
- `models.py` (Pydantic models), `ORJSONResponse` in `utils.py`, the Criterion benches and the rest of `compare_performance.py` are left out. That rest is timing, statistics floats, JSON loading, argument parsing and printing.
- Concurrency and sharing of the plugin across callers are not modelled. Every decision here is a pure function of immutable values.
