// The queued-audio term of the latency that a send subtracts from a header's time stamp.

module AudioLatency {
  import opened Common

  /** Microseconds of audio in `bytes`, by three truncating divisions. */
  function QueuedLatency(bytes: nat, channels: nat, sampleBytes: nat, rate: nat): nat
    requires channels > 0 && sampleBytes > 0 && rate > 0
  {
    bytes / channels / sampleBytes * 1_000_000 / rate
  }

  lemma DivBounds(n: nat, d: nat)
    requires d > 0
    ensures n / d * d <= n < n / d * d + d
  {
  }

  /** Dividing in turn by two divisors is dividing by their product. */
  lemma DivTwice(n: nat, c: nat, s: nat)
    requires c > 0 && s > 0
    ensures n / c / s * (c * s) <= n < n / c / s * (c * s) + c * s
  {
    var q := n / c;
    var r := q / s;
    DivBounds(n, c);
    DivBounds(q, s);
    MulMonotone(r * s, c, q, c);
    MulMonotone(q + 1, c, r * s + s, c);
    assert r * s * c == r * (c * s);
    assert (r * s + s) * c == r * (c * s) + c * s;
  }

  /** The whole samples, and of their play time the whole microseconds. */
  lemma WholeSamples(bytes: nat, channels: nat, sampleBytes: nat, rate: nat)
    requires channels > 0 && sampleBytes > 0 && rate > 0
    ensures exists samples: nat ::
      && samples * (channels * sampleBytes) <= bytes < samples * (channels * sampleBytes) + channels * sampleBytes
      && QueuedLatency(bytes, channels, sampleBytes, rate) * rate <= samples * 1_000_000
      && samples * 1_000_000 < QueuedLatency(bytes, channels, sampleBytes, rate) * rate + rate
  {
    var samples := bytes / channels / sampleBytes;
    DivTwice(bytes, channels, sampleBytes);
    DivBounds(samples * 1_000_000, rate);
  }

  /**
   * Against the exact play time, bytes * 10^6 / (channels * sampleBytes * rate) microseconds,
   * the computed term is never too long and is short by less than one sample period
   * (10^6 / rate) plus one microsecond. Both sides are multiplied by the frame size and rate.
   */
  lemma LatencyError(bytes: nat, channels: nat, sampleBytes: nat, rate: nat)
    requires channels > 0 && sampleBytes > 0 && rate > 0
    ensures var frame := channels * sampleBytes;
      var computed := QueuedLatency(bytes, channels, sampleBytes, rate);
      && computed * rate * frame <= bytes * 1_000_000
      && bytes * 1_000_000 < computed * rate * frame + 1_000_000 * frame + rate * frame
  {
    var frame := channels * sampleBytes;
    var samples := bytes / channels / sampleBytes;
    var computed := QueuedLatency(bytes, channels, sampleBytes, rate);
    DivTwice(bytes, channels, sampleBytes);
    DivBounds(samples * 1_000_000, rate);
    ErrorsAdd(bytes, samples, frame, computed * rate, rate);
  }

  lemma ErrorsAdd(bytes: nat, samples: nat, frame: nat, scaled: nat, rate: nat)
    requires samples * frame <= bytes < samples * frame + frame
    requires scaled <= samples * 1_000_000 < scaled + rate
    ensures scaled * frame <= bytes * 1_000_000 < scaled * frame + 1_000_000 * frame + rate * frame
  {
  }

  lemma DivMonotone(a: nat, b: nat, d: nat)
    requires a <= b && d > 0
    ensures a / d <= b / d
  {
    DivBounds(a, d);
    DivBounds(b, d);
    if a / d > b / d {
      MulMonotone(b / d + 1, d, a / d, d);
    }
  }

  /** More queued bytes never make the term smaller. */
  lemma LatencyMonotone(a: nat, b: nat, channels: nat, sampleBytes: nat, rate: nat)
    requires a <= b && channels > 0 && sampleBytes > 0 && rate > 0
    ensures QueuedLatency(a, channels, sampleBytes, rate) <= QueuedLatency(b, channels, sampleBytes, rate)
  {
    DivMonotone(a, b, channels);
    DivMonotone(a / channels, b / channels, sampleBytes);
    DivMonotone(a / channels / sampleBytes * 1_000_000, b / channels / sampleBytes * 1_000_000, rate);
  }
}
