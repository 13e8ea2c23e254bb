/** `generate_payloads` from the benchmark script: cyclic repetition of a URL list to an exact length. */
module ComparePerformance {
  import opened Wrappers

  /** The benchmark's `Payload`, carrying one uri. */
  datatype Payload = Payload(uri: string)

  /** The only exception `generate_payloads` raises. */
  datatype PyErr = ZeroDivisionError

  /** Python `xs * n`: `n` copies of `xs` one after another, none when `n <= 0`. */
  function Repeat<T>(xs: seq<T>, n: int): (r: seq<T>)
    ensures |r| == |xs| * (if n > 0 then n else 0)
    decreases if n > 0 then n else 0
  {
    if n <= 0 then [] else xs + Repeat(xs, n - 1)
  }

  /** Element `i` of a repetition is element `i mod |xs|` of the original. */
  lemma {:induction false} RepeatIndex<T>(xs: seq<T>, n: int, i: int)
    requires 0 <= i < |Repeat(xs, n)|
    ensures |xs| > 0 && Repeat(xs, n)[i] == xs[i % |xs|]
    decreases if n > 0 then n else 0
  {
    if i >= |xs| {
      RepeatIndex(xs, n - 1, i - |xs|);
      ModShift(i - |xs|, |xs|);
    }
  }

  /** Euclidean division is determined by its remainder bound. */
  lemma DivModUnique(x: int, m: int, q: int, r: int)
    requires m > 0 && 0 <= r < m && x == m * q + r
    ensures x / m == q && x % m == r
  {
    var d := x / m - q;
    assert m * d == r - x % m;
  }

  lemma ModShift(j: int, m: int)
    requires m > 0 && j >= 0
    ensures (j + m) % m == j % m
  {
    DivModUnique(j + m, m, j / m + 1, j % m);
  }

  lemma ModOfRemainder(q: int, j: int, m: int)
    requires m > 0 && 0 <= j < m
    ensures (m * q + j) % m == j
  {
    DivModUnique(m * q + j, m, q, j);
  }

  function Payloads(uris: seq<string>): (ps: seq<Payload>)
    ensures |ps| == |uris| && forall i :: 0 <= i < |uris| ==> ps[i].uri == uris[i]
  {
    seq(|uris|, i requires 0 <= i < |uris| => Payload(uris[i]))
  }

  /**
   * `generate_payloads(size, urls, url_multiplier)`: `size // url_count` whole copies of the
   * expanded list, then its first `size % url_count` entries; an empty expanded list divides by zero.
   */
  function GeneratePayloads(size: int, urls: seq<string>, multiplier: int := 1): (r: Result<seq<Payload>, PyErr>)
    ensures r.Err? <==> |urls| == 0 || multiplier <= 0
  {
    var expanded := Repeat(urls, multiplier);
    var count := |expanded|;
    if count == 0 then Err(ZeroDivisionError)
    else Ok(Payloads(Repeat(expanded, size / count) + expanded[..size % count]))
  }

  /** The expanded list has `len(urls) * url_multiplier` entries. */
  lemma ExpandedLength(urls: seq<string>, multiplier: int)
    requires multiplier >= 0
    ensures |Repeat(urls, multiplier)| == |urls| * multiplier
  {
  }

  /** For a non-negative size, exactly `size` payloads, payload `i` carrying `expanded[i mod count]`. */
  lemma {:induction false} CyclicExactLength(size: int, urls: seq<string>, multiplier: int)
    requires size >= 0 && |urls| > 0 && multiplier > 0
    ensures var expanded := Repeat(urls, multiplier);
      var r := GeneratePayloads(size, urls, multiplier).value;
      && |expanded| > 0
      && |r| == size
      && forall i :: 0 <= i < size ==> r[i].uri == expanded[i % |expanded|]
  {
    var expanded := Repeat(urls, multiplier);
    var count := |expanded|;
    assert count == |urls| * multiplier;
    assert count > 0 by {
      assert |urls| * multiplier >= |urls| * 1;
    }
    var q := size / count;
    var whole := Repeat(expanded, q);
    var uris := whole + expanded[..size % count];
    assert |whole| == count * q;
    assert count * q + size % count == size;
    forall i | 0 <= i < size
      ensures uris[i] == expanded[i % count]
    {
      if i < |whole| {
        RepeatIndex(expanded, q, i);
      } else {
        ModOfRemainder(q, i - count * q, count);
      }
    }
  }

  /** With the default multiplier of 1, the payloads cycle through `urls` itself. */
  lemma DefaultMultiplierCyclesUrls(size: int, urls: seq<string>)
    requires size >= 0 && |urls| > 0
    ensures var r := GeneratePayloads(size, urls).value;
      && |r| == size
      && forall i :: 0 <= i < size ==> r[i].uri == urls[i % |urls|]
  {
    assert Repeat(urls, 1) == urls + Repeat(urls, 0) == urls;
    CyclicExactLength(size, urls, 1);
  }

  /** Fewer payloads than urls: the result is a prefix of the expanded list. */
  lemma ShortSizeIsPrefix(size: int, urls: seq<string>, multiplier: int)
    requires |urls| > 0 && multiplier > 0
    requires 0 <= size < |Repeat(urls, multiplier)|
    ensures GeneratePayloads(size, urls, multiplier) == Ok(Payloads(Repeat(urls, multiplier)[..size]))
  {
    var expanded := Repeat(urls, multiplier);
    DivModUnique(size, |expanded|, 0, size);
    assert size % |expanded| == size;
    assert Repeat(expanded, 0) + expanded[..size] == expanded[..size];
  }

  /** A negative size still yields entries: `size // count` is negative but `size % count` is not. */
  lemma NegativeSize(urls: seq<string>, multiplier: int, size: int)
    requires |urls| > 0 && multiplier > 0 && size < 0
    ensures var count := |Repeat(urls, multiplier)|;
      |GeneratePayloads(size, urls, multiplier).value| == size % count
  {
    var count := |Repeat(urls, multiplier)|;
    assert count > 0 by {
      assert |urls| * multiplier >= |urls| * 1;
    }
    assert size / count < 0;
  }
}
