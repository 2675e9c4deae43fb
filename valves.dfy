/**
 * One entry of the firmware's valve table, as far as the web interface
 * reads and writes it, and the beat interval derived from the heart rate.
 */
module Valves {
  import opened ValveMode

  /** Milliseconds in one minute: the dividend of every beat-interval computation. */
  const MsPerMinute := 60000

  /**
   * The fields of one valve entry that the web handlers touch. The integers
   * are unbounded: the handlers store the values the request carries.
   */
  datatype Valve = Valve(
    mode: Mode,
    pwmValue: int,
    heartRate: int,
    beatInterval: int,
    manualPulseDuration: int,
    useDynamicPulse: bool)

  /**
   * Beat period in milliseconds for a heart rate in beats per minute, as the
   * firmware's integer division `60000 / rate` computes it
   * (WebInterface.h:487, WebInterface.h:550). The dividend is positive, so
   * Dafny's Euclidean division and C's truncating division agree even for a
   * negative rate; BeatIntervalTruncates states this.
   */
  function BeatInterval(rate: int): (ms: int)
    requires rate != 0
    ensures rate > 0 ==> 0 <= ms && ms * rate <= MsPerMinute < (ms + 1) * rate
  {
    MsPerMinute / rate
  }

  /**
   * C's `/` truncates toward zero: for a negative rate the beat interval is
   * the negated interval of the opposite rate.
   */
  lemma BeatIntervalTruncates(rate: int)
    requires rate < 0
    ensures BeatInterval(rate) == -BeatInterval(-rate)
  {
  }

  /** A faster heart rate never yields a longer beat interval. */
  lemma BeatIntervalAntitone(r1: int, r2: int)
    requires 0 < r1 <= r2
    ensures BeatInterval(r2) <= BeatInterval(r1)
  {
    var q1, q2 := BeatInterval(r1), BeatInterval(r2);
    MulMonotone(q2, r1, r2);
    assert (q2 - q1 - 1) * r1 == q2 * r1 - (q1 + 1) * r1;
    NegativeFactor(q2 - q1 - 1, r1);
  }

  /** Multiplying by a non-negative factor keeps an order. */
  lemma MulMonotone(a: int, b: int, c: int)
    requires 0 <= a && b <= c
    ensures a * b <= a * c
  {
    assert a * c - a * b == a * (c - b);
  }

  /** A negative product with a positive factor has a negative other factor. */
  lemma NegativeFactor(x: int, y: int)
    requires y > 0 && x * y < 0
    ensures x < 0
  {
  }

  /** Inside the accepted rate range the interval lies between those of its ends. */
  lemma BeatIntervalBounds(rate: int, minBpm: int, maxBpm: int)
    requires 0 < minBpm <= rate <= maxBpm
    ensures BeatInterval(maxBpm) <= BeatInterval(rate) <= BeatInterval(minBpm)
  {
    BeatIntervalAntitone(minBpm, rate);
    BeatIntervalAntitone(rate, maxBpm);
  }

  /** The derived field agrees with the heart rate it was computed from. */
  predicate RateConsistent(v: Valve)
  {
    v.heartRate != 0 && v.beatInterval == BeatInterval(v.heartRate)
  }

  /** The heart rate is in the firmware's accepted range and the interval is current. */
  predicate RateValid(v: Valve, minBpm: int, maxBpm: int)
  {
    minBpm <= v.heartRate <= maxBpm && RateConsistent(v)
  }
}
