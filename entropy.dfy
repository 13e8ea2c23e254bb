/**
 * The byte histogram and the entropy sum shared by both `shannon_entropy`
 * functions (`filters/heuristic.rs` and `engines/entropy.rs`). The per-symbol
 * term `-p * p.log2()` is the library value `entropyTerm(count, len)`.
 */
module Entropy {
  import opened Oracles
  import opened Utf8

  /** `[0usize; 256]` after one `frequency[b] += 1` per byte: slot `b` counts byte `b`. */
  function Histogram(bs: seq<Byte>): (h: seq<nat>)
    ensures |h| == 256
    ensures forall b: Byte :: h[b] == multiset(bs)[b]
  {
    if |bs| == 0 then seq(256, _ => 0)
    else
      var init := bs[..|bs| - 1];
      var last := bs[|bs| - 1];
      assert bs == init + [last];
      var h := Histogram(init);
      h[last := h[last] + 1]
  }

  function Sum(s: seq<nat>): nat {
    if |s| == 0 then 0 else Sum(s[..|s| - 1]) + s[|s| - 1]
  }

  /** The second loop: the terms of the non-zero slots `0 .. k - 1`, added in slot order. */
  function EntropySum(lib: Oracles, freq: seq<nat>, len: nat, k: nat): real
    requires k <= |freq|
  {
    if k == 0 then 0.0
    else
      var e := EntropySum(lib, freq, len, k - 1);
      if freq[k - 1] > 0 then e + lib.entropyTerm(freq[k - 1], len) else e
  }

  /** Sum of a point update. */
  lemma {:induction false} SumUpdate(s: seq<nat>, i: nat, v: nat)
    requires i < |s|
    ensures Sum(s[i := v]) + s[i] == Sum(s) + v
    decreases |s|
  {
    var t := s[i := v];
    if i < |s| - 1 {
      assert t[..|t| - 1] == s[..|s| - 1][i := v];
      SumUpdate(s[..|s| - 1], i, v);
    } else {
      assert t[..|t| - 1] == s[..|s| - 1];
    }
  }

  lemma {:induction false} SumZeros(n: nat)
    ensures Sum(seq(n, _ => 0)) == 0
  {
    if n > 0 {
      assert seq(n, _ => 0)[..n - 1] == seq(n - 1, _ => 0);
      SumZeros(n - 1);
    }
  }

  /** The counts add up to the number of bytes. */
  lemma {:induction false} HistogramTotal(bs: seq<Byte>)
    ensures Sum(Histogram(bs)) == |bs|
    decreases |bs|
  {
    if |bs| == 0 {
      SumZeros(256);
    } else {
      var init := bs[..|bs| - 1];
      var last := bs[|bs| - 1];
      HistogramTotal(init);
      var h := Histogram(init);
      SumUpdate(h, last, h[last] + 1);
    }
  }

  /** The histogram depends only on the multiset of bytes: permuting the input leaves it unchanged. */
  lemma HistogramPermutation(a: seq<Byte>, b: seq<Byte>)
    requires multiset(a) == multiset(b)
    ensures Histogram(a) == Histogram(b)
  {
    var ha, hb := Histogram(a), Histogram(b);
    forall i | 0 <= i < 256 ensures ha[i] == hb[i] {
      var x: Byte := i;
      assert ha[x] == multiset(a)[x];
    }
  }

  /** An all-zero histogram contributes no term. */
  lemma {:induction false} EntropySumZeros(lib: Oracles, len: nat, k: nat)
    requires k <= 256
    ensures EntropySum(lib, seq(256, _ => 0), len, k) == 0.0
  {
    if k > 0 {
      EntropySumZeros(lib, len, k - 1);
    }
  }

  /** Fills the 256-slot `frequency` array of `shannon_entropy` from `bytes`. */
  method CountBytes(bytes: seq<Byte>) returns (frequency: array<nat>)
    ensures fresh(frequency)
    ensures frequency[..] == Histogram(bytes)
  {
    frequency := new nat[256](_ => 0);
    assert frequency[..] == Histogram([]);
    for i := 0 to |bytes|
      invariant frequency.Length == 256
      invariant frequency[..] == Histogram(bytes[..i])
    {
      var b := bytes[i];
      assert bytes[..i + 1][..i] == bytes[..i];
      frequency[b] := frequency[b] + 1;
    }
    assert bytes[..|bytes|] == bytes;
  }

  /** Adds `entropyTerm(count, len)` for every non-zero slot, in slot order. */
  method SumTerms(lib: Oracles, frequency: array<nat>, len: nat) returns (entropy: real)
    requires frequency.Length == 256
    ensures entropy == EntropySum(lib, frequency[..], len, 256)
  {
    entropy := 0.0;
    for k := 0 to 256
      invariant entropy == EntropySum(lib, frequency[..], len, k)
    {
      if frequency[k] > 0 {
        entropy := entropy + lib.entropyTerm(frequency[k], len);
      }
    }
  }
}
