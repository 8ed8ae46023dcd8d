/** The NTPv4 client codec: RFC 5905 timestamps in integer fixed point, the request and the
    reply on the wire, and the offset, round trip and error bound of one exchange. */
module NtpCodec {
  import opened Basics

  type Byte = b: int | 0 <= b < 0x100
  type Word = w: int | 0 <= w < 0x1_0000_0000
  /** Values computed in 64-bit signed integers: every intermediate declared so is checked. */
  type Int64 = i: int | -0x8000_0000_0000_0000 <= i < 0x8000_0000_0000_0000

  const PACKET_SIZE: nat := 48
  const ERA: int := 0x1_0000_0000
  const HALF_ERA: int := 0x8000_0000
  const SECOND: int := 1_000_000_000
  const UNIX_EPOCH_OFFSET: int := 2_208_988_800

  datatype Timestamp = Timestamp(seconds: Word, fraction: Word)

  // ----- conversions --------------------------------------------------------------

  function RoundDiv(numerator: Int64, denominator: Int64): Int64
    requires 0 <= numerator && 0 < denominator && numerator + denominator / 2 < 0x8000_0000_0000_0000
  {
    (numerator + denominator / 2) / denominator
  }

  function FractionToNanos(fraction: Word): (n: Int64)
    ensures 0 <= n < SECOND
  {
    var product: Int64 := fraction * SECOND;
    Min(RoundDiv(product, ERA), SECOND - 1)
  }

  function NanosToFraction(nanos: Int64): Word {
    var clamped: Int64 := if nanos < 0 then 0 else if nanos > SECOND - 1 then SECOND - 1 else nanos;
    var product: Int64 := clamped * ERA;
    Min(RoundDiv(product, SECOND), 0xFFFF_FFFF)
  }

  /** A negative time breaks the caller's promise and yields the origin of the NTP epoch. */
  function FromUnixNanos(unix: Int64): Timestamp {
    if unix < 0 then Timestamp(0, 0)
    else
      var seconds: Int64 := unix / SECOND + UNIX_EPOCH_OFFSET;
      Timestamp(seconds % ERA, NanosToFraction(unix % SECOND))
  }

  /** 16.16 fixed-point seconds to nanoseconds, for values of 32 bits. */
  function FixedToNanos(fixed: Int64): Int64
    requires -HALF_ERA <= fixed < ERA
  {
    var numerator: Int64 := fixed * SECOND;
    if numerator >= 0 then RoundDiv(numerator, 0x1_0000)
    else -RoundDiv(-numerator, 0x1_0000)
  }

  function Difference(later: Timestamp, earlier: Timestamp): (d: Int64)
    ensures -0x8000_0000 * SECOND - SECOND < d < 0x8000_0000 * SECOND + SECOND
  {
    var raw: Int64 := later.seconds - earlier.seconds;
    var seconds: Int64 := if raw > HALF_ERA then raw - ERA else if raw < -HALF_ERA then raw + ERA else raw;
    var fraction: Int64 := FractionToNanos(later.fraction) - FractionToNanos(earlier.fraction);
    var scaled: Int64 := seconds * SECOND;
    scaled + fraction
  }

  // ----- rounding -----------------------------------------------------------------

  /** Nanoseconds survive the fraction field exactly. */
  lemma NanosRoundTrip(nanos: int)
    requires 0 <= nanos < SECOND
    ensures FractionToNanos(NanosToFraction(nanos)) == nanos
  {
    var f := (nanos * ERA + SECOND / 2) / SECOND;
    assert f * SECOND <= nanos * ERA + SECOND / 2 < f * SECOND + SECOND;
    assert f <= 0xFFFF_FFFF;
    var n := (f * SECOND + ERA / 2) / ERA;
    assert n * ERA <= f * SECOND + ERA / 2 < n * ERA + ERA;
  }

  /** The fraction field survives nanoseconds within three units of 2^-32 s. */
  lemma FractionRoundTrip(fraction: Word)
    ensures -3 <= NanosToFraction(FractionToNanos(fraction)) - fraction <= 3
  {
    var n := (fraction * SECOND + ERA / 2) / ERA;
    assert n * ERA <= fraction * SECOND + ERA / 2 < n * ERA + ERA;
    var m := FractionToNanos(fraction);
    assert m == n || (n == SECOND && m == SECOND - 1);
    var f := (m * ERA + SECOND / 2) / SECOND;
    assert f * SECOND <= m * ERA + SECOND / 2 < f * SECOND + SECOND;
  }

  /** Three units is what the clamp just below the next second costs. */
  lemma FractionRoundTripIsTight()
    ensures NanosToFraction(FractionToNanos(0xFFFF_FFFF)) == 0xFFFF_FFFF - 3
  {}

  /** 16.16 seconds become nanoseconds within half a nanosecond. */
  lemma FixedScale(fixed: Int64)
    requires -0x8000_0000 <= fixed < 0x1_0000_0000
    ensures -32768 <= FixedToNanos(fixed) * 65536 - fixed * 1_000_000_000 <= 32768
  {
    var n := if fixed >= 0 then fixed * 1_000_000_000 else -fixed * 1_000_000_000;
    var q := (n + 32768) / 65536;
    assert q * 65536 <= n + 32768 < q * 65536 + 65536;
  }

  /** The seconds field counts from 1900 and rolls over on 7 February 2036 at 06:28:16 UTC. */
  lemma Calendar()
    ensures FromUnixNanos(0) == Timestamp(2_208_988_800, 0)
    ensures FromUnixNanos(2_085_978_495_000_000_000).seconds == 4_294_967_295
    ensures FromUnixNanos(2_085_978_496_000_000_000) == Timestamp(0, 0)
    ensures FromUnixNanos(500_000_000) == Timestamp(2_208_988_800, 0x8000_0000)
    ensures forall unix: Int64 :: unix < 0 ==> FromUnixNanos(unix) == Timestamp(0, 0)
  {}

  /** Nanoseconds outside one second are cut to its ends. */
  lemma CutToOneSecond(nanos: Int64)
    ensures nanos <= 0 ==> NanosToFraction(nanos) == 0
    ensures nanos >= 999_999_999 ==> NanosToFraction(nanos) == 0xFFFF_FFFC
  {}

  // ----- differences --------------------------------------------------------------

  /** The raw difference of two wrapped second fields, folded into half an era either way. */
  function Fold(raw: int): int {
    if raw > HALF_ERA then raw - ERA else if raw < -HALF_ERA then raw + ERA else raw
  }

  /** The wrapped fields give the true difference d back. */
  predicate Unfolds(raw: int, d: int) {
    -HALF_ERA <= d <= HALF_ERA && (d == HALF_ERA || d == -HALF_ERA ==> raw == d)
  }

  lemma FoldExact(a: int, b: int)
    requires 0 <= a && 0 <= b
    ensures Fold(a % ERA - b % ERA) == a - b <==> Unfolds(a % ERA - b % ERA, a - b)
  {
    var q := b / ERA - a / ERA;
    assert a == a / ERA * ERA + a % ERA;
    assert b == b / ERA * ERA + b % ERA;
    assert a % ERA - b % ERA == a - b + q * ERA;
  }

  /** Timestamps made of Unix nanoseconds subtract exactly across the roll-over of the
      seconds field, precisely when they are less than half an era apart, or half an era
      with no roll-over between them. */
  lemma DifferenceExact(a: Int64, b: Int64)
    requires 0 <= a && 0 <= b
    ensures Difference(FromUnixNanos(a), FromUnixNanos(b)) == a - b <==>
            Unfolds(FromUnixNanos(a).seconds - FromUnixNanos(b).seconds, a / SECOND - b / SECOND)
  {
    NanosRoundTrip(a % SECOND);
    NanosRoundTrip(b % SECOND);
    hide NanosToFraction, FractionToNanos;
    var s, u := a / SECOND + UNIX_EPOCH_OFFSET, b / SECOND + UNIX_EPOCH_OFFSET;
    FoldExact(s, u);
    hide Unfolds;
    assert Difference(FromUnixNanos(a), FromUnixNanos(b)) == Fold(s % ERA - u % ERA) * SECOND + (a % SECOND - b % SECOND);
  }

  lemma DifferenceAntisymmetric(x: Timestamp, y: Timestamp)
    ensures Difference(x, y) == -Difference(y, x)
  {}

  /** For any two timestamps less than half an era apart the difference is within two
      nanoseconds of the true one, here in units of 2^-32 ns. */
  lemma DifferenceAccurate(later: Timestamp, earlier: Timestamp)
    ensures var truth := Fold(later.seconds - earlier.seconds) * SECOND * ERA + (later.fraction - earlier.fraction) * SECOND;
      -2 * ERA < Difference(later, earlier) * ERA - truth < 2 * ERA
  {
    FractionError(later.fraction);
    FractionError(earlier.fraction);
  }

  lemma FractionError(f: Word)
    ensures -ERA < FractionToNanos(f) * ERA - f * SECOND <= ERA / 2
  {
    var n := (f * SECOND + ERA / 2) / ERA;
    assert n * ERA <= f * SECOND + ERA / 2 < n * ERA + ERA;
  }

  // ----- one exchange ---------------------------------------------------------------

  datatype Timestamps = Timestamps(t1: Timestamp, t2: Timestamp, t3: Timestamp, t4: Timestamp)

  datatype Sample = Sample(offset: int, rtt: int, bound: int)

  function DeriveSample(ts: Timestamps, steadyRtt: int, rootDispersion: int): Option<Sample> {
    var processing := Difference(ts.t3, ts.t2);
    if processing < 0 then None
    else
      var rtt := steadyRtt - processing;
      if rtt < 0 then None
      else
        var there := Difference(ts.t1, ts.t2);
        var back := Difference(ts.t4, ts.t3);
        Some(Sample(TruncDiv(there + back, 2), rtt, TruncDiv(rtt, 2) + rootDispersion))
  }

  /** Nothing overflows 64 bits: a root dispersion is read from 32 bits, and a steady round
      trip below 146 years either way leaves room for every intermediate. */
  lemma DeriveSampleFits(ts: Timestamps, steadyRtt: int, fixed: Int64)
    requires -0x4000_0000_0000_0000 <= steadyRtt <= 0x4000_0000_0000_0000 && 0 <= fixed < ERA
    ensures var there, back := Difference(ts.t1, ts.t2), Difference(ts.t4, ts.t3);
      -0x8000_0000_0000_0000 <= there + back < 0x8000_0000_0000_0000
    ensures var rtt := steadyRtt - Difference(ts.t3, ts.t2);
      -0x8000_0000_0000_0000 <= rtt < 0x8000_0000_0000_0000
      && TruncDiv(rtt, 2) + FixedToNanos(fixed) < 0x8000_0000_0000_0000
  {
    var n := fixed * SECOND;
    assert (n + 0x8000) / 0x1_0000 <= 0x1_0000 * SECOND;
  }

  predicate Near(a: int, b: int) { -HALF_ERA < a / SECOND - b / SECOND < HALF_ERA }

  lemma HalfOf(x: int)
    ensures x - 1 <= 2 * TruncDiv(x, 2) <= x + 1
    ensures x >= 0 ==> x - 1 <= 2 * TruncDiv(x, 2) <= x
  {}

  /** An ideal exchange in whole nanoseconds: the local clock is ahead of the server by theta,
      the request took there and the reply back nanoseconds, the server worked for work
      nanoseconds, and the three differences are within half an era. */
  predicate Ideal(sent: int, theta: int, there: int, work: int, back: int) {
    && 0 <= there && 0 <= work && 0 <= back
    && 0 <= sent && sent + there + work + back < 0x8000_0000_0000_0000
    && 0 <= sent - theta && sent - theta + there + work < 0x8000_0000_0000_0000
    && Near(sent, sent - theta + there) && Near(sent - theta + there + work, sent - theta + there)
    && Near(sent + there + work + back, sent - theta + there + work)
  }

  /** What the steady clock, which saw the same time pass, makes of it. */
  function IdealSample(sent: int, theta: int, there: int, work: int, back: int, dispersion: int): Option<Sample>
    requires Ideal(sent, theta, there, work, back)
  {
    var ts := Timestamps(FromUnixNanos(sent), FromUnixNanos(sent - theta + there),
                         FromUnixNanos(sent - theta + there + work), FromUnixNanos(sent + there + work + back));
    DeriveSample(ts, there + work + back, dispersion)
  }

  lemma IdealIs(sent: int, theta: int, there: int, work: int, back: int, dispersion: int)
    requires Ideal(sent, theta, there, work, back)
    ensures IdealSample(sent, theta, there, work, back, dispersion) ==
            Some(Sample(TruncDiv(2 * theta + back - there, 2), there + back, TruncDiv(there + back, 2) + dispersion))
  {
    hide FromUnixNanos, Difference, Near, TruncDiv;
    var t2 := sent - theta + there;
    DifferenceNear(sent, t2);
    DifferenceNear(t2 + work, t2);
    DifferenceNear(sent + there + work + back, t2 + work);
    assert (sent - t2) + (sent + there + work + back - (t2 + work)) == 2 * theta + back - there;
  }

  /** Section 8 of RFC 5905, for an ideal exchange in whole nanoseconds: the sample is accepted,
      its round trip is the two delays, and the offset it reports is within its own bound of
      theta, up to one nanosecond of truncation. */
  lemma ErrorBoundIsSound(sent: int, theta: int, there: int, work: int, back: int, dispersion: int)
    requires Ideal(sent, theta, there, work, back) && 0 <= dispersion
    ensures var r := IdealSample(sent, theta, there, work, back, dispersion);
      && r.Some?
      && r.value.rtt == there + back
      && -(r.value.bound + 1) <= r.value.offset - theta <= r.value.bound + 1
  {
    IdealIs(sent, theta, there, work, back, dispersion);
    OffsetWithin(theta, there, back);
    hide TruncDiv, IdealSample, Near;
  }

  /** What halving loses. */
  lemma HalfExactly(x: int)
    ensures 2 * TruncDiv(x, 2) == x - (if x % 2 == 0 then 0 else if x >= 0 then 1 else -1)
  {}

  lemma OffsetMisses(theta: int, there: int, back: int, dispersion: int)
    requires 0 <= there && 0 <= back && 0 <= dispersion
    ensures var miss, bound := TruncDiv(2 * theta + back - there, 2) - theta, TruncDiv(there + back, 2) + dispersion;
      !(-bound <= miss <= bound) <==>
        && dispersion == 0
        && ((back == 0 && there % 2 == 1 && 2 * theta >= there) || (there == 0 && back % 2 == 1 && 2 * theta + back < 0))
  {
    var x := 2 * theta + back - there;
    HalfExactly(x);
    HalfExactly(there + back);
    assert x % 2 == (there + back) % 2;
    hide TruncDiv;
  }

  /** The nanosecond is needed exactly when nothing was dispersed, one way took no time and the
      other an odd number of nanoseconds, and the sum that is halved has the sign that rounds
      the offset away from theta. */
  lemma ErrorBoundMissesExactly(sent: int, theta: int, there: int, work: int, back: int, dispersion: int)
    requires Ideal(sent, theta, there, work, back) && 0 <= dispersion
    ensures var r := IdealSample(sent, theta, there, work, back, dispersion);
      && r.Some?
      && (!(-r.value.bound <= r.value.offset - theta <= r.value.bound) <==>
           && dispersion == 0
           && ((back == 0 && there % 2 == 1 && 2 * theta >= there) || (there == 0 && back % 2 == 1 && 2 * theta + back < 0)))
  {
    IdealIs(sent, theta, there, work, back, dispersion);
    OffsetMisses(theta, there, back, dispersion);
    hide IdealSample, Near, TruncDiv;
  }

  lemma DifferenceNear(a: Int64, b: Int64)
    requires 0 <= a && 0 <= b && Near(a, b)
    ensures Difference(FromUnixNanos(a), FromUnixNanos(b)) == a - b
  {
    DifferenceExact(a, b);
    hide FromUnixNanos, Difference;
  }

  lemma OffsetWithin(theta: int, there: int, back: int)
    requires 0 <= there && 0 <= back
    ensures -(TruncDiv(there + back, 2) + 1) <= TruncDiv(2 * theta + back - there, 2) - theta <= TruncDiv(there + back, 2) + 1
  {
    HalfOf(2 * theta + back - there);
    HalfOf(there + back);
    hide TruncDiv;
  }

  /** The nanosecond is needed: an exchange whose offset misses theta by one although its
      bound is zero. */
  lemma ErrorBoundIsTight()
    ensures var ts := Timestamps(FromUnixNanos(10), FromUnixNanos(11), FromUnixNanos(11), FromUnixNanos(11));
      DeriveSample(ts, 1, 0) == Some(Sample(0, 1, 0))
  {
    DifferenceExact(10, 11);
    DifferenceExact(11, 11);
  }

  // ----- any server ------------------------------------------------------------------------

  /** Times since the NTP epoch in units of 2^-32 ns, exactly: of a local clock, which counts
      nanoseconds since 1970, and of a server, which counts seconds and 2^-32 seconds. */
  function LocalTime(unix: int): int { (unix + UNIX_EPOCH_OFFSET * SECOND) * ERA }

  function ServerTime(seconds: int, fraction: Word): int { seconds * SECOND * ERA + fraction * SECOND }

  predicate NearSeconds(a: int, b: int) { -HALF_ERA < a - b < HALF_ERA }

  lemma FoldNear(a: int, b: int)
    requires 0 <= a && 0 <= b && NearSeconds(a, b)
    ensures Fold(a % ERA - b % ERA) == a - b
  {
    FoldExact(a, b);
  }

  lemma DifferenceIs(a: int, f: Word, b: int, g: Word)
    requires 0 <= a && 0 <= b && NearSeconds(a, b)
    ensures Difference(Timestamp(a % ERA, f), Timestamp(b % ERA, g)) == (a - b) * SECOND + FractionToNanos(f) - FractionToNanos(g)
  {
    FoldNear(a, b);
    hide FractionToNanos;
  }

  /** The local times are exact. */
  lemma LocalStamp(unix: Int64)
    requires 0 <= unix
    ensures var s := unix / SECOND + UNIX_EPOCH_OFFSET;
      && FromUnixNanos(unix).seconds == s % ERA
      && FractionToNanos(FromUnixNanos(unix).fraction) == unix % SECOND
      && LocalTime(unix) == s * SECOND * ERA + unix % SECOND * ERA
  {
    NanosRoundTrip(unix % SECOND);
    hide NanosToFraction, FractionToNanos;
  }

  lemma LaterIsLater(a: int, f: Word, b: int, g: Word)
    requires ServerTime(b, g) <= ServerTime(a, f)
    ensures 0 <= (a - b) * SECOND + FractionToNanos(f) - FractionToNanos(g)
  {
    if a <= b {
      assert a == b && g <= f;
      assert g * SECOND + ERA / 2 <= f * SECOND + ERA / 2;
      DivMonotone(g * SECOND + ERA / 2, f * SECOND + ERA / 2);
    } else {
      hide FractionToNanos;
    }
  }

  lemma DivMonotone(x: int, y: int)
    requires x <= y
    ensures x / ERA <= y / ERA
  {}

  /** The bound, with the errors of the server's two timestamps. */
  lemma ErrorWithin(there: int, back: int, e2: int, e3: int, theta: int, sum: int, rtt: int)
    requires 0 <= there && 0 <= back && -ERA < e2 <= ERA / 2 && -ERA < e3 <= ERA / 2
    requires sum * ERA == 2 * theta - there + back - e2 - e3
    requires rtt * ERA == there + back - e3 + e2
    ensures -2 * ERA < rtt * ERA - (there + back) < 2 * ERA
    ensures there + back >= ERA ==> rtt >= 0
    ensures rtt >= 0 ==>
      var half := TruncDiv(rtt, 2);
      -(half + 2) * ERA < TruncDiv(sum, 2) * ERA - theta < (half + 2) * ERA
  {
    HalfOf(sum);
    HalfOf(rtt);
    hide TruncDiv;
  }

  /** A local time against a server's. */
  lemma LocalDifference(unix: Int64, u: nat, f: Word)
    requires 0 <= unix && NearSeconds(unix / SECOND + UNIX_EPOCH_OFFSET, u)
    ensures Difference(FromUnixNanos(unix), Timestamp(u % ERA, f)) ==
            (unix / SECOND + UNIX_EPOCH_OFFSET - u) * SECOND + unix % SECOND - FractionToNanos(f)
  {
    LocalStamp(unix);
    DifferenceIs(unix / SECOND + UNIX_EPOCH_OFFSET, FromUnixNanos(unix).fraction, u, f);
    hide Difference, FractionToNanos, NanosToFraction;
  }

  /** Both differences through the server's times, and the round trip, as they are computed. */
  function MeasuredSum(sent: int, received: int, u2: int, n2: int, u3: int, n3: int): int {
    (sent / SECOND + UNIX_EPOCH_OFFSET - u2) * SECOND + sent % SECOND - n2
    + (received / SECOND + UNIX_EPOCH_OFFSET - u3) * SECOND + received % SECOND - n3
  }

  function MeasuredTrip(sent: int, received: int, u2: int, n2: int, u3: int, n3: int): int {
    received - sent - ((u3 - u2) * SECOND + n3 - n2)
  }

  lemma MeasuredIs(sent: Int64, received: Int64, u2: nat, f2: Word, u3: nat, f3: Word, dispersion: nat)
    requires 0 <= sent && 0 <= received
    requires NearSeconds(sent / SECOND + UNIX_EPOCH_OFFSET, u2) && NearSeconds(u3, u2)
    requires NearSeconds(received / SECOND + UNIX_EPOCH_OFFSET, u3)
    requires ServerTime(u2, f2) <= ServerTime(u3, f3)
    ensures var ts := Timestamps(FromUnixNanos(sent), Timestamp(u2 % ERA, f2), Timestamp(u3 % ERA, f3), FromUnixNanos(received));
      var n2, n3 := FractionToNanos(f2), FractionToNanos(f3);
      var sum, rtt := MeasuredSum(sent, received, u2, n2, u3, n3), MeasuredTrip(sent, received, u2, n2, u3, n3);
      DeriveSample(ts, received - sent, dispersion) ==
      if rtt < 0 then None else Some(Sample(TruncDiv(sum, 2), rtt, TruncDiv(rtt, 2) + dispersion))
  {
    hide Difference, FractionToNanos, TruncDiv, FromUnixNanos;
    LocalDifference(sent, u2, f2);
    LaterIsLater(u3, f3, u2, f2);
    DifferenceIs(u3, f3, u2, f2);
    LocalDifference(received, u3, f3);
    hide NearSeconds, ServerTime;
  }

  lemma MeasuredErrors(sent: int, received: int, u2: int, f2: Word, n2: int, u3: int, f3: Word, n3: int)
    ensures MeasuredSum(sent, received, u2, n2, u3, n3) * ERA ==
            LocalTime(sent) - ServerTime(u2, f2) + LocalTime(received) - ServerTime(u3, f3)
            - (n2 * ERA - f2 * SECOND) - (n3 * ERA - f3 * SECOND)
    ensures MeasuredTrip(sent, received, u2, n2, u3, n3) * ERA ==
            LocalTime(received) - LocalTime(sent) - (ServerTime(u3, f3) - ServerTime(u2, f2))
            - (n3 * ERA - f3 * SECOND) + (n2 * ERA - f2 * SECOND)
  {
    assert sent == sent / SECOND * SECOND + sent % SECOND;
    assert received == received / SECOND * SECOND + received % SECOND;
  }

  /** Section 8 of RFC 5905, for a server whose clock has the full resolution of the format. The
      request leaves at the local time sent and the reply arrives at received, in nanoseconds;
      the server stamps them u2 + f2 and u3 + f3; the local clock is ahead by theta, in units of
      2^-32 ns. If no delay is negative, and the two delays make a nanosecond, the sample is
      accepted; and the offset of an accepted sample is within its bound of theta, up to two
      nanoseconds of rounding. */
  lemma ErrorBoundForAnyServer(sent: Int64, received: Int64, u2: nat, f2: Word, u3: nat, f3: Word, theta: int, dispersion: nat)
    requires 0 <= sent && 0 <= received
    requires NearSeconds(sent / SECOND + UNIX_EPOCH_OFFSET, u2) && NearSeconds(u3, u2)
    requires NearSeconds(received / SECOND + UNIX_EPOCH_OFFSET, u3)
    requires 0 <= ServerTime(u2, f2) - (LocalTime(sent) - theta)
    requires ServerTime(u2, f2) <= ServerTime(u3, f3)
    requires 0 <= LocalTime(received) - theta - ServerTime(u3, f3)
    ensures var ts := Timestamps(FromUnixNanos(sent), Timestamp(u2 % ERA, f2), Timestamp(u3 % ERA, f3), FromUnixNanos(received));
      var delays := (ServerTime(u2, f2) - (LocalTime(sent) - theta)) + (LocalTime(received) - theta - ServerTime(u3, f3));
      var r := DeriveSample(ts, received - sent, dispersion);
      && (delays >= ERA ==> r.Some?)
      && (r.Some? ==>
            && -2 * ERA < r.value.rtt * ERA - delays < 2 * ERA
            && -(r.value.bound + 2) * ERA < r.value.offset * ERA - theta < (r.value.bound + 2) * ERA)
  {
    FractionError(f2);
    FractionError(f3);
    MeasuredIs(sent, received, u2, f2, u3, f3, dispersion);
    hide FromUnixNanos, Difference, FractionToNanos, TruncDiv, DeriveSample;
    var n2, n3 := FractionToNanos(f2), FractionToNanos(f3);
    var sum, rtt := MeasuredSum(sent, received, u2, n2, u3, n3), MeasuredTrip(sent, received, u2, n2, u3, n3);
    var there, back := ServerTime(u2, f2) - (LocalTime(sent) - theta), LocalTime(received) - theta - ServerTime(u3, f3);
    MeasuredErrors(sent, received, u2, f2, n2, u3, f3, n3);
    hide MeasuredSum, MeasuredTrip, LocalTime, ServerTime;
    ErrorWithin(there, back, n2 * ERA - f2 * SECOND, n3 * ERA - f3 * SECOND, theta, sum, rtt);
  }

  /** A sample is refused exactly when the server's own times run backwards or its work took
      longer than the whole round trip. */
  lemma RefusedExactly(ts: Timestamps, steadyRtt: int, dispersion: int)
    ensures DeriveSample(ts, steadyRtt, dispersion).None? <==>
            Difference(ts.t3, ts.t2) < 0 || steadyRtt < Difference(ts.t3, ts.t2)
  {}
}
