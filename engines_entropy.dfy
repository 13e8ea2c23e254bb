/**
 * `engines/entropy.rs`, the older entropy check: `shannon_entropy` without the
 * empty-string guard, and `check_entropy`, whose comparison is the inverse of
 * `passed_entropy`'s.
 */
module EnginesEntropy {
  import opened Oracles
  import opened Utf8
  import opened Entropy
  import Heuristic

  /** What this `shannon_entropy` returns: the term sum over the byte histogram. */
  function ShannonEntropySpec(lib: Oracles, domain: string, domainLen: nat): real {
    EntropySum(lib, Histogram(Encode(domain)), domainLen, 256)
  }

  /** `shannon_entropy`: the histogram loop and the summation loop. */
  method ShannonEntropy(lib: Oracles, domain: string, domainLen: nat) returns (entropy: real)
    ensures entropy == ShannonEntropySpec(lib, domain, domainLen)
  {
    var frequency := CountBytes(Encode(domain));
    entropy := SumTerms(lib, frequency, domainLen);
  }

  /** `check_entropy`: true for domains under 8 bytes, else `entropy > threshold`. */
  predicate CheckEntropy(lib: Oracles, domain: string, threshold: real) {
    var domainLen := |Encode(domain)|;
    domainLen < 8 || ShannonEntropySpec(lib, domain, domainLen) > threshold
  }

  /** Without the guard the empty string still scores 0, so both `shannon_entropy`s agree on every input. */
  lemma SameEntropyAsHeuristic(lib: Oracles, domain: string, domainLen: nat)
    ensures ShannonEntropySpec(lib, domain, domainLen) == Heuristic.ShannonEntropySpec(lib, domain, domainLen)
  {
    if |domain| == 0 {
      assert Histogram(Encode(domain)) == seq(256, _ => 0);
      EntropySumZeros(lib, domainLen, 256);
    }
  }

  /** Short domains pass both checks; from 8 bytes on, `check_entropy` is the negation of `passed_entropy`. */
  lemma InvertedComparison(lib: Oracles, domain: string, threshold: real)
    ensures |Encode(domain)| < 8 ==> CheckEntropy(lib, domain, threshold)
    ensures |Encode(domain)| >= 8 ==>
      CheckEntropy(lib, domain, threshold) == !Heuristic.PassedEntropy(lib, domain, threshold)
  {
    SameEntropyAsHeuristic(lib, domain, |Encode(domain)|);
  }

  /** Permuting the bytes of the domain leaves the result unchanged. */
  lemma CheckEntropyPermutation(lib: Oracles, a: string, b: string, threshold: real)
    requires multiset(Encode(a)) == multiset(Encode(b))
    ensures CheckEntropy(lib, a, threshold) == CheckEntropy(lib, b, threshold)
  {
    assert |multiset(Encode(a))| == |Encode(a)|;
    assert |multiset(Encode(b))| == |Encode(b)|;
    HistogramPermutation(Encode(a), Encode(b));
  }
}
