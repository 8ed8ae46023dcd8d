/** What a measured server reports: the sample of its own exchange, from the bytes of one datagram
    and the readings taken at the send and at the reply, within the stated bound of the truth. */
module ProbeAccuracy {
  import opened Basics
  import opened NtpCodec
  import opened NtpPacket
  import opened ProbeRounds
  import opened ProbeInvariants
  import opened ClockProbe

  /** The four timestamps of an exchange, the server's two read from the datagram. */
  function TimesOf(t1: Timestamp, packet: seq<Byte>, wall: Int64): Timestamps
    requires |packet| >= 48
  {
    Timestamps(t1, Timestamp(Spelled(packet, 32), Spelled(packet, 36)), Timestamp(Spelled(packet, 40), Spelled(packet, 44)),
               FromUnixNanos(wall))
  }

  lemma OkIsMeasured(d: Detail, p: Pending, now: Moment, x: Exchange)
    requires Judge(d, p, now, x).ok
    ensures x.Received? && Parse(x.packet).Ok? && Judge(d, p, now, x) == Measure(d, p, Parse(x.packet).value, now)
  {
    hide Parse, Classify, Measure, KissOf;
  }

  lemma MeasureShows(d: Detail, p: Pending, r: Response, now: Moment)
    requires Measure(d, p, r, now).ok
    ensures var m, sample := Measure(d, p, r, now),
                    DeriveSample(Timestamps(p.t1, r.receive, r.transmit, FromUnixNanos(now.wall)), now.steady - p.steady, r.rootDispersion);
      && m.host == d.host && m.error.None? && m.stratum == Some(r.stratum)
      && sample.Some?
      && m.offsetMs.Some? && m.offsetMs.value * 1000000.0 == sample.value.offset as real
      && m.boundMs.Some? && m.boundMs.value * 1000000.0 == sample.value.bound as real
      && m.rttMs.Some? && m.rttMs.value * 1000000.0 == sample.value.rtt as real
  {
    hide DeriveSample, FromUnixNanos;
  }

  lemma ReplyTimes(packet: seq<Byte>, t1: Timestamp, wall: Int64)
    requires Parse(packet).Ok?
    ensures |packet| >= 48
    ensures var r := Parse(packet).value;
      && Timestamps(t1, r.receive, r.transmit, FromUnixNanos(wall)) == TimesOf(t1, packet, wall)
      && r.rootDispersion == FixedToNanos(Spelled(packet, 8)) && r.stratum == packet[1]
  {
    ReplyLayout(packet);
    ReadSpells(packet, 8);
    hide Spelled, ReadBe32, ReadTimestamp, FixedToNanos, FromUnixNanos, Signed;
  }

  /** A measured server shows offset, bound and round trip of its sample, in milliseconds, and the
      stratum byte; the dispersion is that of bytes 8 to 11. */
  lemma MeasuredNumbers(d: Detail, p: Pending, now: Moment, x: Exchange)
    requires Judge(d, p, now, x).ok
    ensures x.Received? && |x.packet| >= 48
    ensures var r, sample := Judge(d, p, now, x),
                    DeriveSample(TimesOf(p.t1, x.packet, now.wall), now.steady - p.steady, FixedToNanos(Spelled(x.packet, 8)));
      && r.host == d.host && r.error.None? && r.stratum == Some(x.packet[1])
      && sample.Some?
      && r.offsetMs.Some? && r.offsetMs.value * 1000000.0 == sample.value.offset as real
      && r.boundMs.Some? && r.boundMs.value * 1000000.0 == sample.value.bound as real
      && r.rttMs.Some? && r.rttMs.value * 1000000.0 == sample.value.rtt as real
  {
    OkIsMeasured(d, p, now, x);
    ReplyTimes(x.packet, p.t1, now.wall);
    MeasureShows(d, p, Parse(x.packet).value, now);
    hide *;
  }

  /** The bound is half the round trip and the root dispersion of bytes 8 to 11, which counts
      2^-16 s: in units of 2^-17 ns, up to one nanosecond of truncation and half of rounding. */
  lemma BoundNumbers(d: Detail, p: Pending, now: Moment, x: Exchange) returns (bound: int, rtt: nat)
    requires Judge(d, p, now, x).ok
    ensures x.Received? && |x.packet| >= 48
    ensures var r := Judge(d, p, now, x);
      && r.boundMs.Some? && r.boundMs.value * 1000000.0 == bound as real
      && r.rttMs.Some? && r.rttMs.value * 1000000.0 == rtt as real
    ensures bound >= 0
    ensures -131072 <= 131072 * bound - (65536 * rtt + 2_000_000_000 * Spelled(x.packet, 8)) <= 65536
  {
    MeasuredNumbers(d, p, now, x);
    FixedScale(Spelled(x.packet, 8));
    var sample := DeriveSample(TimesOf(p.t1, x.packet, now.wall), now.steady - p.steady, FixedToNanos(Spelled(x.packet, 8))).value;
    bound, rtt := sample.bound, sample.rtt;
    HalfOf(rtt);
    hide Judge, FixedToNanos, Spelled, TimesOf, Difference, TruncDiv;
  }

  function DispersionOf(packet: seq<Byte>): (n: nat)
    requires |packet| >= 48
    ensures n == FixedToNanos(Spelled(packet, 8))
  {
    FixedScale(Spelled(packet, 8));
    FixedToNanos(Spelled(packet, 8))
  }

  /** An exchange as in NtpCodec.ErrorBoundForAnyServer: the request left at the local time sent
      and the reply was handled at the local time wall, the server's clock, which the datagram
      shows, is theta behind, and no delay is negative. Times are in units of 2^-32 ns. */
  predicate TrueExchange(packet: seq<Byte>, sent: Int64, wall: Int64, u2: nat, u3: nat, theta: int) {
    && |packet| >= 48 && 0 <= sent && 0 <= wall
    && u2 % 4_294_967_296 == Spelled(packet, 32) && u3 % 4_294_967_296 == Spelled(packet, 40)
    && NearSeconds(sent / SECOND + UNIX_EPOCH_OFFSET, u2) && NearSeconds(u3, u2)
    && NearSeconds(wall / SECOND + UNIX_EPOCH_OFFSET, u3)
    && 0 <= ServerTime(u2, Spelled(packet, 36)) - (LocalTime(sent) - theta)
    && ServerTime(u2, Spelled(packet, 36)) <= ServerTime(u3, Spelled(packet, 44))
    && 0 <= LocalTime(wall) - theta - ServerTime(u3, Spelled(packet, 44))
  }

  lemma SampleIsTrue(packet: seq<Byte>, sent: Int64, wall: Int64, u2: nat, u3: nat, theta: int, dispersion: nat)
    requires TrueExchange(packet, sent, wall, u2, u3, theta)
    ensures var x := DeriveSample(TimesOf(FromUnixNanos(sent), packet, wall), wall - sent, dispersion);
      x.Some? ==> -(x.value.bound + 2) * ERA < x.value.offset * ERA - theta < (x.value.bound + 2) * ERA
  {
    ErrorBoundForAnyServer(sent, wall, u2, Spelled(packet, 36), u3, Spelled(packet, 44), theta, dispersion);
    hide FromUnixNanos, DeriveSample, Spelled, ServerTime, LocalTime, NearSeconds;
  }

  /** Milliseconds against units of 2^-32 ns: the offset is within the bound of theta, up to two
      nanoseconds. */
  predicate Within(offsetMs: real, boundMs: real, theta: int) {
    var miss := offsetMs * 1000000.0 * 4294967296.0 - theta as real;
    -(boundMs * 1000000.0 + 2.0) * 4294967296.0 < miss < (boundMs * 1000000.0 + 2.0) * 4294967296.0
  }

  /** A reported offset is true within the reported bound, both in milliseconds, up to two
      nanoseconds, if the same time passed on the steady clock as on the wall clock. */
  lemma ReportedOffsetIsTrue(d: Detail, p: Pending, now: Moment, x: Exchange, sent: Int64, u2: nat, u3: nat, theta: int)
    requires Judge(d, p, now, x).ok && x.Received? && TrueExchange(x.packet, sent, now.wall, u2, u3, theta)
    requires p.t1 == FromUnixNanos(sent) && now.steady - p.steady == now.wall - sent
    ensures var r := Judge(d, p, now, x);
      r.offsetMs.Some? && r.boundMs.Some? && Within(r.offsetMs.value, r.boundMs.value, theta)
  {
    hide Judge, TrueExchange, FromUnixNanos, DeriveSample, TimesOf, Within;
    MeasuredNumbers(d, p, now, x);
    var dispersion := DispersionOf(x.packet);
    hide DispersionOf;
    SampleIsTrue(x.packet, sent, now.wall, u2, u3, theta, dispersion);
    var r := Judge(d, p, now, x);
    var sample := DeriveSample(TimesOf(p.t1, x.packet, now.wall), now.steady - p.steady, dispersion).value;
    InReals(r.offsetMs.value, r.boundMs.value, sample.offset, sample.bound, theta);
    hide *;
  }

  lemma InReals(offsetMs: real, boundMs: real, offset: int, bound: int, theta: int)
    requires offsetMs * 1000000.0 == offset as real && boundMs * 1000000.0 == bound as real
    requires -(bound + 2) * ERA < offset * ERA - theta < (bound + 2) * ERA
    ensures Within(offsetMs, boundMs, theta)
  {
    assert (offset * ERA) as real == offset as real * 4294967296.0;
    assert ((bound + 2) * ERA) as real == (bound as real + 2.0) * 4294967296.0;
  }

  // ----- whole runs ---------------------------------------------------------------------------------

  /** The request was stamped with the a-th readings of the two clocks. */
  predicate Stamped(p: Pending, clock: nat -> Moment, a: nat) {
    p.t1 == FromUnixNanos(clock(a).wall) && p.steady == clock(a).steady
  }

  /** This server was measured by one exchange: sent at the a-th reading, answered by this
      datagram at the b-th. */
  predicate Exchanged(d: Detail, clock: nat -> Moment, a: nat, b: nat, packet: seq<Byte>) {
    a < b && d == Judge(Blank(d.host), Pending(FromUnixNanos(clock(a).wall), clock(a).steady, false), clock(b), Received(packet))
  }

  ghost predicate Honest(d: Detail, clock: nat -> Moment) {
    d.ok ==> exists a, b, packet :: Exchanged(d, clock, a, b, packet)
  }

  ghost predicate AllHonest(ds: seq<Detail>, clock: nat -> Moment) { forall i :: 0 <= i < |ds| ==> Honest(ds[i], clock) }

  ghost predicate OpenStamped(pending: seq<Pending>, clock: nat -> Moment, readings: nat) {
    forall i :: 0 <= i < |pending| && !pending[i].settled ==> exists a: nat :: a < readings && Stamped(pending[i], clock, a)
  }

  ghost predicate LogHonest(log: seq<Event>, clock: nat -> Moment) {
    forall i :: 0 <= i < |log| && log[i].Delivered? ==> AllHonest(log[i].outcome.servers, clock)
  }

  ghost predicate RunHonest(s: State, clock: nat -> Moment) {
    OpenStamped(s.pending, clock, s.readings) && AllHonest(s.details, clock) && LogHonest(s.log, clock)
  }

  lemma JudgeNeeds(d: Detail, p: Pending, now: Moment, x: Exchange)
    ensures Judge(d, p, now, x) == Judge(Blank(d.host), Pending(p.t1, p.steady, false), now, x)
    ensures Judge(d, p, now, x).ok ==> x.Received?
    ensures Judge(d, p, now, x).host == d.host
  {
    hide Parse, Classify, DeriveSample, ToMs, KissOf, FromUnixNanos;
  }

  lemma SettleHonest(s: State, clock: nat -> Moment, c: Callback)
    requires RunHonest(s, clock) && c.slot < |s.details| && c.slot < |s.pending| && !s.pending[c.slot].settled
    ensures RunHonest(Settle(s, clock, c), clock)
  {
    var p, d, now := s.pending[c.slot], s.details[c.slot], clock(s.readings);
    var a: nat :| a < s.readings && Stamped(p, clock, a);
    JudgeNeeds(d, p, now, c.result);
    var r := Judge(d, p, now, c.result);
    hide Judge, KissIn, NoteKiss;
    if r.ok { assert Exchanged(r, clock, a, s.readings, c.result.packet); }
    assert Honest(r, clock);
    var t := Settle(s, clock, c);
    hide Honest, Stamped;
    assert AllHonest(t.details, clock) && LogHonest(t.log, clock);
    hide AllHonest, LogHonest;
    forall i | 0 <= i < |t.pending| && !t.pending[i].settled ensures exists b: nat :: b < t.readings && Stamped(t.pending[i], clock, b) {
      var b: nat :| b < s.readings && Stamped(s.pending[i], clock, b);
    }
  }

  lemma FinishHonest(s: State, clock: nat -> Moment)
    requires RunHonest(s, clock)
    ensures RunHonest(FinishRound(s, clock), clock)
  {
    AggregateServers(s.details, TruncDiv(clock(s.readings).wall, 1_000_000));
    hide Aggregate, Honest, Stamped;
  }

  lemma AggregateServers(servers: seq<Detail>, finishedMs: int)
    ensures Aggregate(servers, finishedMs).servers == servers && Aggregate(servers, finishedMs).finishedMs == finishedMs
  {}

  lemma ExchangeHonest(s: State, clock: nat -> Moment, c: Callback)
    requires RunHonest(s, clock)
    ensures RunHonest(HandleExchange(s, clock, c), clock)
  {
    if !Foreign(s, c) && c.slot < |s.pending| {
      SettleHonest(s, clock, c);
      var t := Settle(s, clock, c).(remaining := s.remaining - 1);
      hide Settle, AllHonest, LogHonest, OpenStamped;
      FinishHonest(t, clock);
      hide FinishRound;
    }
  }

  lemma {:induction false} AllExchangesHonest(s: State, clock: nat -> Moment, cs: seq<Callback>)
    requires RunHonest(s, clock)
    ensures RunHonest(HandleAll(s, clock, cs), clock)
    decreases |cs|
  {
    if cs != [] {
      ExchangeHonest(s, clock, cs[0]);
      hide RunHonest, HandleExchange;
      AllExchangesHonest(HandleExchange(s, clock, cs[0]), clock, cs[1..]);
    }
  }

  lemma OneIssueHonest(s: State, clock: nat -> Moment, slot: nat)
    requires RunHonest(s, clock) && slot < |s.pending| && slot < |s.details|
    ensures RunHonest(IssueOne(s, clock, slot), clock)
  {
    var m := IssueOne(s, clock, slot);
    assert Stamped(m.pending[slot], clock, s.readings);
    hide Honest, Stamped, FromUnixNanos;
    forall i | 0 <= i < |m.pending| && !m.pending[i].settled ensures exists a: nat :: a < m.readings && Stamped(m.pending[i], clock, a) {
      if i != slot {
        var a: nat :| a < s.readings && Stamped(s.pending[i], clock, a);
        assert m.pending[i] == s.pending[i];
      }
    }
  }

  lemma {:induction false} IssueHonest(s: State, clock: nat -> Moment, slots: seq<nat>, during: seq<seq<Callback>>, k: nat)
    requires RunHonest(s, clock)
    ensures RunHonest(Issue(s, clock, slots, during, k), clock)
    decreases |slots|
  {
    if slots != [] && slots[0] < |s.details| && slots[0] < |s.pending| {
      var m := IssueOne(s, clock, slots[0]);
      OneIssueHonest(s, clock, slots[0]);
      AllExchangesHonest(m, clock, Window(during, k));
      hide RunHonest, IssueOne, HandleAll;
      IssueHonest(HandleAll(m, clock, Window(during, k)), clock, slots[1..], during, k + 1);
    }
  }

  lemma {:induction false} SkeletonHonest(s: State, clock: nat -> Moment, hosts: seq<Host>, i: nat)
    requires i <= |hosts| == |s.details| && RunHonest(s, clock)
    ensures RunHonest(Skeleton(s, clock, hosts, i).0, clock)
    decreases |hosts| - i
  {
    if i < |hosts| {
      var n := Sketch(s, clock, hosts, i);
      assert !n.details[i].ok;
      assert RunHonest(n, clock) by {
        forall j | 0 <= j < |n.pending| && !n.pending[j].settled ensures exists a: nat :: a < n.readings && Stamped(n.pending[j], clock, a) {
          var a: nat :| a < s.readings && Stamped(s.pending[j], clock, a);
        }
        hide Stamped, SkipReason;
      }
      hide RunHonest, Sketch, SkipReason;
      SkeletonHonest(n, clock, hosts, i + 1);
    }
  }

  lemma ProbeHonest(s: State, clock: nat -> Moment, hosts: seq<Host>, during: seq<seq<Callback>>)
    requires RunHonest(s, clock)
    ensures RunHonest(Probe(s, clock, hosts, during), clock)
  {
    if !s.inFlight {
      var n := NewRound(s, hosts);
      assert RunHonest(n, clock) by { hide Stamped, Dedup; }
      hide RunHonest, Dedup, NewRound, Issue, FinishRound, Skeleton;
      SkeletonHonest(n, clock, Dedup(hosts), 0);
      var (t, slots) := Skeleton(n, clock, Dedup(hosts), 0);
      SameTables(t, t.(issuing := true), clock);
      IssueHonest(t.(issuing := true), clock, slots, during, 0);
      var i := Issue(t.(issuing := true), clock, slots, during, 0);
      SameTables(i, i.(issuing := false), clock);
      FinishHonest(i.(issuing := false), clock);
    }
  }

  lemma SameTables(s: State, t: State, clock: nat -> Moment)
    requires RunHonest(s, clock) && t == s.(issuing := t.issuing)
    ensures RunHonest(t, clock)
  {}

  lemma {:induction false} RunStaysHonest(s: State, clock: nat -> Moment, steps: seq<Step>)
    requires RunHonest(s, clock)
    ensures RunHonest(Run(s, clock, steps), clock)
    decreases |steps|
  {
    if steps != [] {
      match steps[0] {
        case ProbeStep(hosts, during) => ProbeHonest(s, clock, hosts, during);
        case CallbackStep(c) => ExchangeHonest(s, clock, c);
      }
      hide RunHonest, Probe, HandleExchange;
      RunStaysHonest(Next(s, clock, steps[0]), clock, steps[1..]);
    }
  }

  /** Over every run: every measured server of every outcome handed over shows the numbers of one
      exchange, of a request stamped at one reading of the clocks and a datagram handled at a
      later one. */
  lemma OutcomesAreExchanges(clock: nat -> Moment, steps: seq<Step>, i: nat, k: nat)
    requires var log := Run(Initial(), clock, steps).log;
      i < |log| && log[i].Delivered? && k < |log[i].outcome.servers| && log[i].outcome.servers[k].ok
    ensures exists a, b, packet :: Exchanged(Run(Initial(), clock, steps).log[i].outcome.servers[k], clock, a, b, packet)
  {
    assert RunHonest(Initial(), clock);
    hide Run, Exchanged, Stamped;
    RunStaysHonest(Initial(), clock, steps);
    assert Honest(Run(Initial(), clock, steps).log[i].outcome.servers[k], clock);
  }

  // ----- the date of an outcome ---------------------------------------------------------------------

  /** The outcome bears this wall time in whole milliseconds, cut toward zero. */
  predicate Dated(o: Outcome, wall: int) {
    if wall >= 0 then 0 <= wall - o.finishedMs * 1_000_000 < 1_000_000
    else -1_000_000 < wall - o.finishedMs * 1_000_000 <= 0
  }

  /** An outcome that is the last event bears the last reading. */
  predicate LastDated(s: State, clock: nat -> Moment) {
    s.log != [] && Last(s.log).Delivered? ==>
      !s.inFlight && s.readings > 0 && Dated(Last(s.log).outcome, clock(s.readings - 1).wall)
  }

  lemma FinishDated(s: State, clock: nat -> Moment)
    requires LastDated(s, clock) && s.inFlight
    ensures LastDated(FinishRound(s, clock), clock)
  {
    var w: int := clock(s.readings).wall;
    AggregateServers(s.details, TruncDiv(w, 1_000_000));
    assert w == w / 1_000_000 * 1_000_000 + w % 1_000_000 && -w == (-w) / 1_000_000 * 1_000_000 + (-w) % 1_000_000;
    hide Aggregate;
  }

  lemma ExchangeDated(s: State, clock: nat -> Moment, c: Callback)
    requires LastDated(s, clock)
    ensures LastDated(HandleExchange(s, clock, c), clock)
    ensures s.issuing ==> HandleExchange(s, clock, c).inFlight == s.inFlight && HandleExchange(s, clock, c).issuing
  {
    if !Foreign(s, c) && c.slot < |s.pending| {
      var t := Settle(s, clock, c).(remaining := s.remaining - 1);
      hide Judge, KissIn, NoteKiss;
      assert t.inFlight && t.issuing == s.issuing && LastDated(t, clock);
      hide Settle, Foreign, LastDated;
      FinishDated(t, clock);
      hide FinishRound;
    }
  }

  lemma {:induction false} AllExchangesDated(s: State, clock: nat -> Moment, cs: seq<Callback>)
    requires LastDated(s, clock) && s.issuing
    ensures var t := HandleAll(s, clock, cs); LastDated(t, clock) && t.inFlight == s.inFlight && t.issuing
    decreases |cs|
  {
    if cs != [] {
      ExchangeDated(s, clock, cs[0]);
      hide LastDated, HandleExchange;
      AllExchangesDated(HandleExchange(s, clock, cs[0]), clock, cs[1..]);
    }
  }

  lemma {:induction false} IssueDated(s: State, clock: nat -> Moment, slots: seq<nat>, during: seq<seq<Callback>>, k: nat)
    requires LastDated(s, clock) && s.issuing
    ensures var t := Issue(s, clock, slots, during, k); LastDated(t, clock) && t.inFlight == s.inFlight
    decreases |slots|
  {
    if slots != [] && slots[0] < |s.details| && slots[0] < |s.pending| {
      var m := IssueOne(s, clock, slots[0]);
      AllExchangesDated(m, clock, Window(during, k));
      hide LastDated, IssueOne, HandleAll;
      IssueDated(HandleAll(m, clock, Window(during, k)), clock, slots[1..], during, k + 1);
    }
  }

  lemma {:induction false} SkeletonDated(s: State, clock: nat -> Moment, hosts: seq<Host>, i: nat)
    requires i <= |hosts| == |s.details| && LastDated(s, clock) && s.inFlight
    ensures var t := Skeleton(s, clock, hosts, i).0; LastDated(t, clock) && t.inFlight
    decreases |hosts| - i
  {
    if i < |hosts| { SkeletonDated(Sketch(s, clock, hosts, i), clock, hosts, i + 1); }
  }

  lemma ProbeDated(s: State, clock: nat -> Moment, hosts: seq<Host>, during: seq<seq<Callback>>)
    requires LastDated(s, clock)
    ensures LastDated(Probe(s, clock, hosts, during), clock)
  {
    if !s.inFlight {
      var n := NewRound(s, hosts);
      hide Dedup, Issue, FinishRound, Skeleton;
      SkeletonDated(n, clock, Dedup(hosts), 0);
      var (t, slots) := Skeleton(n, clock, Dedup(hosts), 0);
      IssueDated(t.(issuing := true), clock, slots, during, 0);
      FinishDated(Issue(t.(issuing := true), clock, slots, during, 0).(issuing := false), clock);
    }
  }

  lemma {:induction false} RunDated(s: State, clock: nat -> Moment, steps: seq<Step>)
    requires LastDated(s, clock)
    ensures LastDated(Run(s, clock, steps), clock)
    decreases |steps|
  {
    if steps != [] {
      match steps[0] {
        case ProbeStep(hosts, during) => ProbeDated(s, clock, hosts, during);
        case CallbackStep(c) => ExchangeDated(s, clock, c);
      }
      hide LastDated, Probe, HandleExchange;
      RunDated(Next(s, clock, steps[0]), clock, steps[1..]);
    }
  }

  /** Over every run: when an outcome is handed over it bears the time of the last reading taken. */
  lemma OutcomeIsDated(clock: nat -> Moment, steps: seq<Step>)
    ensures var t := Run(Initial(), clock, steps);
      t.log != [] && Last(t.log).Delivered? ==> t.readings > 0 && Dated(Last(t.log).outcome, clock(t.readings - 1).wall)
  {
    RunDated(Initial(), clock, steps);
    hide Run, Dated;
  }
}
