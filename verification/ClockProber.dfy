/** The prober as an object: fields updated in place, loops as in clock_probe.cpp, each method
    proved to do what ProbeRounds says of the same call. */
module ClockProber {
  import opened Basics
  import opened NtpCodec
  import opened NtpPacket
  import opened ProbeRounds
  import opened ClockProbe

  datatype ManualDecision = Allowed | ProbeInFlight | RateLimited

  /** A manual trigger is allowed exactly when no probe is in flight and the interval since the
      last accepted one has passed, if there is a last one and an interval. */
  function JudgeManualTrigger(now: Int64, last: Option<Int64>, minIntervalSec: int, inFlight: bool): (d: ManualDecision)
    ensures d == ProbeInFlight <==> inFlight
    ensures d == Allowed <==> !inFlight && (last.None? || minIntervalSec <= 0 || now - last.value >= minIntervalSec * 1_000_000_000)
  {
    if inFlight then ProbeInFlight
    else if last.None? || minIntervalSec <= 0 then Allowed
    else if now - last.value < 0 then RateLimited
    else if now - last.value < minIntervalSec * SECOND then RateLimited
    else Allowed
  }

  class Prober {
    const clock: nat -> Moment
    var readings: nat
    var inFlight: bool
    var token: nat
    var issuing: bool
    var finishRequested: bool
    var remaining: nat
    var pending: seq<Pending>
    var details: seq<Detail>
    var kiss: map<Host, KissEntry>
    var done: Option<nat>
    ghost var log: seq<Event>

    ghost predicate Valid()
      reads this
    {
      |pending| == |details|
    }

    ghost function View(): State
      reads this
    {
      State(inFlight, token, issuing, finishRequested, remaining, pending, details, kiss, done, readings, log)
    }

    constructor (clock: nat -> Moment)
      ensures Valid() && View() == Initial() && this.clock == clock
    {
      this.clock := clock;
      readings, inFlight, token, issuing, finishRequested, remaining := 0, false, 0, false, false, 0;
      pending, details, kiss, done, log := [], [], map[], None, [];
    }

    method TakeMoment() returns (now: Moment)
      modifies this`readings
      ensures now == clock(old(readings)) && readings == old(readings) + 1
    {
      now := clock(readings);
      readings := readings + 1;
    }

    method FinishRound()
      requires Valid()
      modifies this
      ensures Valid() && View() == ProbeRounds.FinishRound(old(View()), clock)
    {
      var servers := details;
      var now := TakeMoment();
      var finishedMs := TruncDiv(now.wall, 1_000_000);
      var best: Option<nat> := None;
      for i := 0 to |servers|
        invariant best == Best(servers, i)
      {
        if Candidate(servers[i]) && (best.None? || Better(servers[i], servers[best.value])) {
          best := Some(i);
        }
      }
      var outcome := Outcome(None, None, "", None, servers, finishedMs);
      if best.Some? {
        var b := servers[best.value];
        outcome := outcome.(offsetMs := b.offsetMs, boundMs := b.boundMs, source := b.host, sourceStratum := b.stratum);
      }
      inFlight := false;
      pending := [];
      details := [];
      var handler := done;
      done := None;
      if handler.Some? {
        log := log + [Delivered(handler.value, outcome)];
      }
    }

    method NoteKiss(host: Host, code: KissCode, steady: int)
      modifies this`kiss
      ensures kiss == ProbeRounds.NoteKiss(old(kiss), host, code, steady)
    {
      match code
      case Rate => kiss := kiss[host := KissEntry(false, steady + KISS_BACKOFF)];
      case Deny | Restrict => kiss := kiss[host := KissEntry(true, 0)];
      case NoKiss | OtherKiss =>
    }

    method MarkFailed(slot: nat, error: ProbeError)
      requires slot < |details|
      modifies this`details
      ensures details == old(details)[slot := Failed(old(details)[slot], error)]
    {
      details := details[slot := details[slot].(ok := false, offsetMs := None, boundMs := None, rttMs := None,
                                                stratum := None, error := Some(error))];
    }

    /** What a reply does to the detail of its slot and to the kiss state. */
    method Received(slot: nat, p: Pending, now: Moment, packet: seq<Byte>)
      requires slot < |details|
      modifies this`details, this`kiss, this`log
      ensures details == old(details)[slot := Judge(old(details)[slot], p, now, Exchange.Received(packet))]
      ensures var code := KissIn(p, Exchange.Received(packet));
        && kiss == ProbeRounds.NoteKiss(old(kiss), old(details)[slot].host, code, now.steady)
        && log == if code.NoKiss? then old(log) else old(log) + [Kissed(old(details)[slot].host, code, now.steady)]
    {
      var response := Parse(packet);
      if response.Err? {
        MarkFailed(slot, BadEchoError);
        return;
      }
      var r := response.value;
      match Classify(r, p.t1)
      case KissOfDeath =>
        var code := ReadKissCode(r);
        NoteKiss(details[slot].host, code, now.steady);
        log := log + [Kissed(details[slot].host, code, now.steady)];
        if code == Rate {
          MarkFailed(slot, KodRateError);
        } else if code == Deny || code == Restrict {
          MarkFailed(slot, KodDenyError);
        } else {
          MarkFailed(slot, BadEchoError);
        }
      case Unsynchronised => MarkFailed(slot, BadEchoError);
      case BadEcho => MarkFailed(slot, BadEchoError);
      case Usable =>
        var sample := DeriveSample(Timestamps(p.t1, r.receive, r.transmit, FromUnixNanos(now.wall)),
                                   now.steady - p.steady, r.rootDispersion);
        if sample.None? {
          MarkFailed(slot, BadEchoError);
        } else {
          details := details[slot := details[slot].(ok := true, error := None, offsetMs := Some(ToMs(sample.value.offset)),
                                                    boundMs := Some(ToMs(sample.value.bound)),
                                                    rttMs := Some(ToMs(sample.value.rtt)), stratum := Some(r.stratum))];
        }
    }

    method HandleExchange(c: Callback)
      requires Valid()
      modifies this
      ensures Valid() && View() == ProbeRounds.HandleExchange(old(View()), clock, c)
    {
      if !inFlight || c.token != token || c.slot >= |details| || remaining == 0 { return; }
      if pending[c.slot].settled { return; }
      Settle(c);
      hide ProbeRounds.Settle, ProbeRounds.FinishRound;
      remaining := remaining - 1;
      if remaining == 0 {
        if issuing { finishRequested := true; } else { FinishRound(); }
      }
    }

    /** The body of handle_exchange up to the count. */
    method Settle(c: Callback)
      requires Valid() && c.slot < |details|
      modifies this
      ensures Valid() && View() == ProbeRounds.Settle(old(View()), clock, c)
    {
      NoReply(details[c.slot], pending[c.slot], clock(readings), kiss);
      hide Judge, KissIn, ProbeRounds.NoteKiss;
      pending := pending[c.slot := pending[c.slot].(settled := true)];
      var item := pending[c.slot];
      var now := TakeMoment();
      match c.result {
        case TimedOut => MarkFailed(c.slot, TimeoutError);
        case NotReached => MarkFailed(c.slot, UnreachableError);
        case Received(packet) => Received(c.slot, item, now, packet);
      }
    }

    /** The callbacks that come before the transport's send returns. */
    method HandleAll(cs: seq<Callback>)
      requires Valid()
      modifies this
      ensures Valid() && View() == ProbeRounds.HandleAll(old(View()), clock, cs)
    {
      for k := 0 to |cs|
        invariant Valid()
        invariant ProbeRounds.HandleAll(View(), clock, cs[k..]) == ProbeRounds.HandleAll(old(View()), clock, cs)
      {
        assert cs[k..][1..] == cs[k + 1..];
        HandleExchange(cs[k]);
      }
    }

    method Probe(hosts: seq<Host>, during: seq<seq<Callback>>) returns (accepted: bool)
      requires Valid() && !issuing
      modifies this
      ensures Valid() && View() == ProbeRounds.Probe(old(View()), clock, hosts, during)
      ensures accepted <==> !old(inFlight)
    {
      if inFlight { return false; }
      hide Skeleton, ProbeRounds.Issue, ProbeRounds.FinishRound, NewRound, Dedup;
      var unique := Begin(hosts);
      var slots := Sketch(unique);
      issuing := true;
      Issue(slots, during);
      issuing := false;
      if finishRequested || remaining == 0 { FinishRound(); }
      return true;
    }

    /** The new round's token and its blank tables. */
    method Begin(hosts: seq<Host>) returns (unique: seq<Host>)
      requires Valid()
      modifies this
      ensures Valid() && unique == Dedup(hosts) && View() == NewRound(old(View()), hosts)
      ensures |details| == |unique| && issuing == old(issuing)
    {
      unique := Unique(hosts);
      inFlight, token, done, remaining, finishRequested := true, token + 1, Some(token + 1), 0, false;
      log := log + [Started(token, hosts)];
      details := seq(|unique|, _ => Blank(""));
      pending := seq(|unique|, _ => Pending(Timestamp(0, 0), 0, true));
    }

    static method Unique(hosts: seq<Host>) returns (unique: seq<Host>)
      ensures unique == Dedup(hosts)
    {
      unique := [];
      for i := 0 to |hosts|
        invariant unique == Dedup(hosts[..i])
      {
        assert hosts[..i + 1][..i] == hosts[..i];
        if hosts[i] !in unique { unique := unique + [hosts[i]]; }
      }
      assert hosts[..|hosts|] == hosts;
    }

    /** The first phase: settle the servers that are not contacted, before anything is sent. */
    method Sketch(unique: seq<Host>) returns (slots: seq<nat>)
      requires Valid() && |details| == |unique|
      modifies this
      ensures Valid() && (View(), slots) == Skeleton(old(View()), clock, unique, 0)
      ensures |details| == |unique| && issuing == old(issuing)
      ensures forall k :: 0 <= k < |slots| ==> slots[k] < |unique|
    {
      slots := [];
      hide SkipReason, Skeleton;
      assert slots + Skeleton(View(), clock, unique, 0).1 == Skeleton(View(), clock, unique, 0).1;
      for i := 0 to |unique|
        invariant Valid() && |details| == |unique| && issuing == old(issuing)
        invariant forall k :: 0 <= k < |slots| ==> slots[k] < i
        invariant Skeleton(old(View()), clock, unique, 0).0 == Skeleton(View(), clock, unique, i).0
        invariant Skeleton(old(View()), clock, unique, 0).1 == slots + Skeleton(View(), clock, unique, i).1
      {
        ghost var before, found := View(), slots;
        details := details[i := Blank(unique[i])];
        var now := TakeMoment();
        var reason := SkipReason(kiss, details[i].host, now.steady);
        if reason.Some? {
          MarkFailed(i, reason.value);
        } else {
          remaining := remaining + 1;
          slots := slots + [i];
        }
        assert View() == ProbeRounds.Sketch(before, clock, unique, i);
        SkeletonStep(before, clock, unique, i, found, slots);
      }
      SkeletonEnd(View(), clock, unique, slots);
    }

    /** The second phase: send to each slot; the transport may call back before it returns. */
    method Issue(slots: seq<nat>, during: seq<seq<Callback>>)
      requires Valid() && issuing
      requires forall k :: 0 <= k < |slots| ==> slots[k] < |details|
      modifies this
      ensures Valid() && View() == ProbeRounds.Issue(old(View()), clock, slots, during, 0)
    {
      for k := 0 to |slots|
        invariant Valid() && issuing && |details| == old(|details|)
        invariant ProbeRounds.Issue(View(), clock, slots[k..], during, k) == ProbeRounds.Issue(old(View()), clock, slots, during, 0)
      {
        var slot := slots[k];
        ghost var before := View();
        IssueUnfolds(before, clock, slots, during, k);
        hide ProbeRounds.Issue, ProbeRounds.HandleAll;
        var now := TakeMoment();
        pending := pending[slot := Pending(FromUnixNanos(now.wall), now.steady, false)];
        log := log + [Sent(details[slot].host, now.steady)];
        assert View() == IssueOne(before, clock, slot);
        IssuingKeepsTable(View(), clock, Window(during, k));
        HandleAll(Window(during, k));
      }
    }
  }

  lemma NoReply(d: Detail, p: Pending, now: Moment, kiss: map<Host, KissEntry>)
    ensures Judge(d, p, now, TimedOut) == Failed(d, TimeoutError) && Judge(d, p, now, NotReached) == Failed(d, UnreachableError)
    ensures KissIn(p, TimedOut) == NoKiss && KissIn(p, NotReached) == NoKiss
    ensures NoteKiss(kiss, d.host, NoKiss, now.steady) == kiss
    ensures forall packet, settled :: Judge(d, p.(settled := settled), now, Received(packet)) == Judge(d, p, now, Received(packet))
              && KissIn(p.(settled := settled), Received(packet)) == KissIn(p, Received(packet))
  {
    hide Parse, Classify, KissOf, DeriveSample;
  }

  /** One step of the first phase, with the slots found before it. */
  lemma SkeletonStep(s: State, clock: nat -> Moment, hosts: seq<Host>, i: nat, found: seq<nat>, slots: seq<nat>)
    requires i < |hosts| == |s.details|
    requires slots == if ReasonAt(s, clock, hosts, i).Some? then found else found + [i]
    ensures var t := Sketch(s, clock, hosts, i);
      && Skeleton(s, clock, hosts, i).0 == Skeleton(t, clock, hosts, i + 1).0
      && found + Skeleton(s, clock, hosts, i).1 == slots + Skeleton(t, clock, hosts, i + 1).1
  {
    hide ReasonAt, Sketch;
    var rest := Skeleton(Sketch(s, clock, hosts, i), clock, hosts, i + 1).1;
    SkeletonUnfolds(s, clock, hosts, i, rest);
    hide Skeleton;
    if ReasonAt(s, clock, hosts, i).None? { assert found + ([i] + rest) == found + [i] + rest; }
  }

  lemma SkeletonUnfolds(s: State, clock: nat -> Moment, hosts: seq<Host>, i: nat, rest: seq<nat>)
    requires i < |hosts| == |s.details| && rest == Skeleton(Sketch(s, clock, hosts, i), clock, hosts, i + 1).1
    ensures Skeleton(s, clock, hosts, i).0 == Skeleton(Sketch(s, clock, hosts, i), clock, hosts, i + 1).0
    ensures Skeleton(s, clock, hosts, i).1 == if ReasonAt(s, clock, hosts, i).Some? then rest else [i] + rest
  {
    hide ReasonAt, Sketch;
  }

  lemma SkeletonEnd(s: State, clock: nat -> Moment, hosts: seq<Host>, slots: seq<nat>)
    requires |hosts| == |s.details|
    ensures Skeleton(s, clock, hosts, |hosts|).0 == s && slots + Skeleton(s, clock, hosts, |hosts|).1 == slots
  {}

  lemma IssueUnfolds(s: State, clock: nat -> Moment, slots: seq<nat>, during: seq<seq<Callback>>, k: nat)
    requires k < |slots| && slots[k] < |s.details| && slots[k] < |s.pending|
    ensures Issue(s, clock, slots[k..], during, k)
         == Issue(HandleAll(IssueOne(s, clock, slots[k]), clock, Window(during, k)), clock, slots[k + 1..], during, k + 1)
  {
    hide HandleAll, IssueOne;
    assert slots[k..][1..] == slots[k + 1..];
  }

  /** While requests are being sent no callback ends the round. */
  lemma {:induction false} IssuingKeepsTable(s: State, clock: nat -> Moment, cs: seq<Callback>)
    requires s.issuing
    ensures var t := HandleAll(s, clock, cs); t.issuing && |t.details| == |s.details| && |t.pending| == |s.pending|
    decreases |cs|
  {
    if cs != [] {
      hide Judge, KissIn, NoteKiss;
      IssuingKeepsTable(HandleExchange(s, clock, cs[0]), clock, cs[1..]);
    }
  }
}
