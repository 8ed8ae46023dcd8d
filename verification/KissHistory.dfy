/** Back-off and blocking read off the log alone: whom a probe contacts is decided by the last
    kiss-o'-death of each host, and the codes are those of the datagrams. */
module KissHistory {
  import opened Basics
  import opened NtpCodec
  import opened NtpPacket
  import opened ProbeRounds
  import opened ProbeInvariants
  import opened ClockProbe

  // ----- which datagrams are kisses -------------------------------------------------------------

  /** The datagram is a server's reply of stratum zero. */
  predicate StratumZero(x: Exchange) {
    && x.Received? && |x.packet| >= 48
    && 3 <= x.packet[0] / 8 % 8 <= 4 && x.packet[0] % 8 == 4
    && x.packet[1] == 0
  }

  predicate Carries(x: Exchange, letters: string) {
    && StratumZero(x) && |letters| == 4
    && x.packet[12] == letters[0] as int && x.packet[13] == letters[1] as int
    && x.packet[14] == letters[2] as int && x.packet[15] == letters[3] as int
  }

  lemma LettersAre(x: Exchange)
    requires StratumZero(x)
    ensures Carries(x, "RATE") <==> x.packet[12..16] == RATE
    ensures Carries(x, "DENY") <==> x.packet[12..16] == DENY
    ensures Carries(x, "RSTR") <==> x.packet[12..16] == RSTR
  {
    var code := x.packet[12..16];
    assert code == [x.packet[12], x.packet[13], x.packet[14], x.packet[15]];
    KissLetters();
  }

  /** A result is a kiss exactly by its bytes; its timestamps do not matter. */
  lemma KissByBytes(p: Pending, x: Exchange)
    ensures KissIn(p, x) == Rate <==> Carries(x, "RATE")
    ensures KissIn(p, x) == Deny <==> Carries(x, "DENY")
    ensures KissIn(p, x) == Restrict <==> Carries(x, "RSTR")
    ensures KissIn(p, x) == NoKiss <==> !StratumZero(x)
  {
    if x.Received? {
      ParsedExactly(x.packet);
      if Parse(x.packet).Ok? {
        ReplyLayout(x.packet);
        KissExactly(x.packet, p.t1);
        if StratumZero(x) { LettersAre(x); }
        hide Parse, Classify, KissOf;
      }
    }
    hide Carries;
  }

  /** The reason of a failure, by the bytes: a kiss gives the code's, and anything else that is
      not measured is a bad echo. */
  lemma FailureByBytes(d: Detail, p: Pending, now: Moment, x: Exchange)
    ensures var e := Judge(d, p, now, x).error;
      && (e == Some(KodRateError) <==> Carries(x, "RATE"))
      && (e == Some(KodDenyError) <==> Carries(x, "DENY") || Carries(x, "RSTR"))
      && (e == Some(TimeoutError) <==> x.TimedOut?)
      && (e == Some(UnreachableError) <==> x.NotReached?)
      && (e.None? <==> Judge(d, p, now, x).ok)
  {
    FailureExactly(d, p, now, x);
    KissByBytes(p, x);
    hide Parse, Classify, KissOf, DeriveSample, ToMs, Carries, KissIn;
  }

  // ----- the table of kisses --------------------------------------------------------------------

  /** A kiss that counts: RATE, DENY or RSTR of this host. */
  predicate Counts(e: Event, h: Host) { (Rates(e) || Denies(e)) && e.host == h }

  /** The last kiss of h that counts. */
  ghost predicate LastKiss(log: seq<Event>, i: int, h: Host) {
    0 <= i < |log| && Counts(log[i], h) && forall j :: i < j < |log| ==> !Counts(log[j], h)
  }

  /** The table says of every host what its last kiss said. */
  ghost predicate TableFits(log: seq<Event>, kiss: map<Host, KissEntry>) {
    && (forall h :: h in kiss ==> exists i :: LastKiss(log, i, h))
    && (forall h, i :: LastKiss(log, i, h) ==>
         && h in kiss
         && (if Denies(log[i]) then kiss[h].blocked else kiss[h] == KissEntry(false, log[i].steady + 3_600_000_000_000)))
  }

  lemma OtherEvents(log: seq<Event>, kiss: map<Host, KissEntry>, e: Event)
    requires TableFits(log, kiss) && !Rates(e) && !Denies(e)
    ensures TableFits(log + [e], kiss)
  {
    forall h, i | LastKiss(log, i, h) ensures LastKiss(log + [e], i, h) {}
    forall h, i | LastKiss(log + [e], i, h) ensures LastKiss(log, i, h) {
      assert forall j :: 0 <= j < |log| ==> log[j] == (log + [e])[j];
    }
  }

  lemma NotedFits(log: seq<Event>, kiss: map<Host, KissEntry>, h: Host, code: KissCode, steady: int)
    requires TableFits(log, kiss)
    ensures TableFits(if code.NoKiss? then log else log + [Kissed(h, code, steady)], NoteKiss(kiss, h, code, steady))
  {
    var e := Kissed(h, code, steady);
    if code.NoKiss? {
    } else if code.OtherKiss? {
      OtherEvents(log, kiss, e);
    } else {
      var all, noted := log + [e], NoteKiss(kiss, h, code, steady);
      assert all[|log|] == e && forall j :: 0 <= j < |log| ==> all[j] == log[j];
      assert LastKiss(all, |log|, h);
      forall g | g in noted ensures exists i :: LastKiss(all, i, g) {
        if g != h {
          var i :| LastKiss(log, i, g);
          assert LastKiss(all, i, g);
        }
      }
      forall g, i | LastKiss(all, i, g) && g != h ensures LastKiss(log, i, g) {}
    }
  }

  lemma ExchangeFits(s: State, clock: nat -> Moment, c: Callback)
    requires TableFits(s.log, s.kiss)
    ensures TableFits(HandleExchange(s, clock, c).log, HandleExchange(s, clock, c).kiss)
  {
    if !Foreign(s, c) && c.slot < |s.pending| {
      var t := Settle(s, clock, c).(remaining := s.remaining - 1);
      NotedFits(s.log, s.kiss, s.details[c.slot].host, KissIn(s.pending[c.slot], c.result), clock(s.readings).steady);
      FinishFits(t, clock);
      hide TableFits, KissIn, Judge, NoteKiss, FinishRound;
    }
  }

  lemma FinishFits(s: State, clock: nat -> Moment)
    requires TableFits(s.log, s.kiss)
    ensures TableFits(FinishRound(s, clock).log, FinishRound(s, clock).kiss)
  {
    if s.done.Some? {
      OtherEvents(s.log, s.kiss, Delivered(s.done.value, Aggregate(s.details, TruncDiv(clock(s.readings).wall, 1_000_000))));
    }
    hide TableFits, Aggregate;
  }

  lemma {:induction false} AllFit(s: State, clock: nat -> Moment, cs: seq<Callback>)
    requires TableFits(s.log, s.kiss)
    ensures TableFits(HandleAll(s, clock, cs).log, HandleAll(s, clock, cs).kiss)
    decreases |cs|
  {
    if cs != [] {
      ExchangeFits(s, clock, cs[0]);
      hide TableFits, HandleExchange;
      AllFit(HandleExchange(s, clock, cs[0]), clock, cs[1..]);
    }
  }

  lemma {:induction false} IssueFits(s: State, clock: nat -> Moment, slots: seq<nat>, during: seq<seq<Callback>>, k: nat)
    requires TableFits(s.log, s.kiss)
    ensures TableFits(Issue(s, clock, slots, during, k).log, Issue(s, clock, slots, during, k).kiss)
    decreases |slots|
  {
    if slots != [] && slots[0] < |s.details| && slots[0] < |s.pending| {
      var m := IssueOne(s, clock, slots[0]);
      OtherEvents(s.log, s.kiss, Sent(s.details[slots[0]].host, clock(s.readings).steady));
      assert TableFits(m.log, m.kiss);
      AllFit(m, clock, Window(during, k));
      hide TableFits, IssueOne, HandleAll;
      IssueFits(HandleAll(m, clock, Window(during, k)), clock, slots[1..], during, k + 1);
    }
  }

  lemma ProbeFits(s: State, clock: nat -> Moment, hosts: seq<Host>, during: seq<seq<Callback>>)
    requires TableFits(s.log, s.kiss)
    ensures TableFits(Probe(s, clock, hosts, during).log, Probe(s, clock, hosts, during).kiss)
  {
    if !s.inFlight {
      var n, b, slots := NewRound(s, hosts), Sketches(s, clock, hosts), Contacted(s, clock, hosts);
      SkeletonSketches(n, clock, Dedup(hosts), 0);
      assert b.log == n.log && b.kiss == s.kiss by { hide Skeleton, Dedup, MayContact, Final; }
      ProbeUnfolds(s, clock, hosts, during);
      OtherEvents(s.log, s.kiss, Started(s.token + 1, hosts));
      assert n.log == s.log + [Started(s.token + 1, hosts)];
      hide TableFits, Probe, Sketches, Contacted, Issue, FinishRound, NewRound;
      IssueFits(b, clock, slots, during, 0);
      var u := Issue(b, clock, slots, during, 0).(issuing := false);
      FinishFits(u, clock);
    }
  }

  lemma {:induction false} RunFits(s: State, clock: nat -> Moment, steps: seq<Step>)
    requires TableFits(s.log, s.kiss)
    ensures TableFits(Run(s, clock, steps).log, Run(s, clock, steps).kiss)
    decreases |steps|
  {
    if steps != [] {
      match steps[0] {
        case ProbeStep(hosts, during) => ProbeFits(s, clock, hosts, during);
        case CallbackStep(c) => ExchangeFits(s, clock, c);
      }
      hide TableFits, Probe, HandleExchange;
      RunFits(Next(s, clock, steps[0]), clock, steps[1..]);
    }
  }

  // ----- the result ---------------------------------------------------------------------------------

  /** After any run, an accepted probe contacts exactly those of its distinct hosts whose last
      kiss, if there was one, was a RATE at least an hour before the reading taken for it: a
      host that said RATE is contacted again once the hour has passed. */
  lemma ContactedByLogExactly(clock: nat -> Moment, steps: seq<Step>, hosts: seq<Host>, j: nat)
    requires j < |Dedup(hosts)|
    ensures var s := Run(Initial(), clock, steps);
      j in Contacted(s, clock, hosts) <==>
        forall i :: LastKiss(s.log, i, Dedup(hosts)[j]) ==>
          Rates(s.log[i]) && s.log[i].steady + 3_600_000_000_000 <= clock(s.readings + j).steady
  {
    assert TableFits(Initial().log, Initial().kiss);
    hide *;
    RunFits(Initial(), clock, steps);
    var s := Run(Initial(), clock, steps);
    ContactedNow(s, clock, hosts, j);
    SkipByLog(s.log, s.kiss, Dedup(hosts)[j], clock(s.readings + j).steady);
  }

  lemma ContactedNow(s: State, clock: nat -> Moment, hosts: seq<Host>, j: nat)
    requires j < |Dedup(hosts)|
    ensures j in Contacted(s, clock, hosts) <==> SkipReason(s.kiss, Dedup(hosts)[j], clock(s.readings + j).steady).None?
  {
    ContactedExactly(NewRound(s, hosts), clock, Dedup(hosts), 0);
    hide Skeleton, Dedup, SkipReason;
  }

  lemma SkipByLog(log: seq<Event>, kiss: map<Host, KissEntry>, h: Host, now: int)
    requires TableFits(log, kiss)
    ensures SkipReason(kiss, h, now).None? <==>
      forall i :: LastKiss(log, i, h) ==> Rates(log[i]) && log[i].steady + 3_600_000_000_000 <= now
  {
    if h in kiss { var i :| LastKiss(log, i, h); }
  }

  /** Why a host is not contacted: its last kiss was a DENY or RSTR, or a RATE less than an hour
      ago. */
  lemma SkippedByLog(log: seq<Event>, kiss: map<Host, KissEntry>, h: Host, now: int)
    requires TableFits(log, kiss)
    ensures SkipReason(kiss, h, now) == Some(KodDenyError) <==> exists i :: LastKiss(log, i, h) && Denies(log[i])
    ensures SkipReason(kiss, h, now) == Some(KodRateError) <==>
      exists i :: LastKiss(log, i, h) && Rates(log[i]) && now < log[i].steady + 3_600_000_000_000
  {
    if h in kiss { var i :| LastKiss(log, i, h); }
  }

  // ----- requests -----------------------------------------------------------------------------------

  ghost predicate SentNow(s: State, t: State, h: Host) { exists i :: |s.log| <= i < |t.log| && SendsTo(t.log[i], h) }

  ghost predicate NoneSent(s: State, t: State) { s.log <= t.log && forall h :: !SentNow(s, t, h) }

  lemma SentTrans(s: State, m: State, t: State, h: Host)
    requires s.log <= m.log <= t.log
    ensures SentNow(s, t, h) <==> SentNow(s, m, h) || SentNow(m, t, h)
  {
    if SentNow(s, m, h) {
      var i :| |s.log| <= i < |m.log| && SendsTo(m.log[i], h);
      assert t.log[i] == m.log[i];
    }
    if SentNow(s, t, h) && !SentNow(m, t, h) {
      var i :| |s.log| <= i < |t.log| && SendsTo(t.log[i], h);
      assert t.log[i] == m.log[i];
    }
  }

  /** The same hosts in the same slots. */
  ghost predicate SameHosts(s: State, t: State) {
    && t.issuing == s.issuing && |t.pending| == |s.pending| && |t.details| == |s.details|
    && forall i :: 0 <= i < |s.details| ==> t.details[i].host == s.details[i].host
  }

  lemma ExchangeSendsNone(s: State, clock: nat -> Moment, c: Callback)
    ensures var t := HandleExchange(s, clock, c); NoneSent(s, t) && (s.issuing ==> SameHosts(s, t))
  {
    if !Foreign(s, c) && c.slot < |s.pending| {
      JudgeKeepsHost(s.details[c.slot], s.pending[c.slot], clock(s.readings), c.result);
    }
    hide Judge, KissIn, NoteKiss, Aggregate;
  }

  lemma JudgeKeepsHost(d: Detail, p: Pending, now: Moment, x: Exchange)
    ensures Judge(d, p, now, x).host == d.host
  {
    hide Parse, Classify, DeriveSample, ToMs, KissOf;
  }

  lemma {:induction false} AllSendNone(s: State, clock: nat -> Moment, cs: seq<Callback>)
    ensures var t := HandleAll(s, clock, cs); NoneSent(s, t) && (s.issuing ==> SameHosts(s, t))
    decreases |cs|
  {
    if cs != [] {
      var m := HandleExchange(s, clock, cs[0]);
      ExchangeSendsNone(s, clock, cs[0]);
      AllSendNone(m, clock, cs[1..]);
      hide HandleExchange, SentNow;
      forall h ensures !SentNow(s, HandleAll(s, clock, cs), h) { SentTrans(s, m, HandleAll(s, clock, cs), h); }
    }
  }

  /** Each of these slots is in the tables. */
  ghost predicate InTables(s: State, slots: seq<nat>) {
    forall k :: 0 <= k < |slots| ==> slots[k] < |s.pending| && slots[k] < |s.details|
  }

  ghost predicate HostIn(s: State, slots: seq<nat>, h: Host)
    requires InTables(s, slots)
  {
    exists k :: 0 <= k < |slots| && s.details[slots[k]].host == h
  }

  lemma OneSent(s: State, clock: nat -> Moment, slot: nat, h: Host)
    requires slot < |s.pending| && slot < |s.details|
    ensures var m := IssueOne(s, clock, slot);
      s.log <= m.log && SameHosts(s, m) && (SentNow(s, m, h) <==> s.details[slot].host == h)
  {
    var m := IssueOne(s, clock, slot);
    assert SendsTo(m.log[|s.log|], s.details[slot].host);
    hide FromUnixNanos;
  }

  lemma {:induction false} IssueSendsTo(s: State, clock: nat -> Moment, slots: seq<nat>, during: seq<seq<Callback>>, k: nat, h: Host)
    requires s.issuing && InTables(s, slots)
    ensures var t := Issue(s, clock, slots, during, k);
      s.log <= t.log && (SentNow(s, t, h) <==> HostIn(s, slots, h))
    decreases |slots|
  {
    if slots != [] {
      var m := IssueOne(s, clock, slots[0]);
      var u := HandleAll(m, clock, Window(during, k));
      var t := Issue(u, clock, slots[1..], during, k + 1);
      OneSent(s, clock, slots[0], h);
      AllSendNone(m, clock, Window(during, k));
      hide IssueOne, HandleAll;
      assert InTables(u, slots[1..]);
      IssueSendsTo(u, clock, slots[1..], during, k + 1, h);
      SentTrans(s, m, u, h);
      SentTrans(s, u, t, h);
      HostSplit(s, u, slots, h);
      hide SentNow, HostIn, Issue;
      assert Issue(s, clock, slots, during, k) == t by { IssueUnfolds(s, clock, slots, during, k); }
    }
  }

  lemma IssueUnfolds(s: State, clock: nat -> Moment, slots: seq<nat>, during: seq<seq<Callback>>, k: nat)
    requires slots != [] && slots[0] < |s.details| && slots[0] < |s.pending|
    ensures Issue(s, clock, slots, during, k) ==
            Issue(HandleAll(IssueOne(s, clock, slots[0]), clock, Window(during, k)), clock, slots[1..], during, k + 1)
  {
    hide IssueOne, HandleAll;
  }

  lemma HostSplit(s: State, u: State, slots: seq<nat>, h: Host)
    requires slots != [] && InTables(s, slots) && InTables(u, slots[1..]) && SameHosts(s, u)
    ensures HostIn(s, slots, h) <==> s.details[slots[0]].host == h || HostIn(u, slots[1..], h)
  {
    if HostIn(s, slots, h) && s.details[slots[0]].host != h {
      var k :| 0 <= k < |slots| && s.details[slots[k]].host == h;
      assert slots[1..][k - 1] == slots[k];
    }
    if k :| 0 <= k < |slots[1..]| && u.details[slots[1..][k]].host == h { assert slots[k + 1] == slots[1..][k]; }
  }

  lemma FinishSendsNone(s: State, clock: nat -> Moment)
    ensures NoneSent(s, FinishRound(s, clock))
  {
    hide Aggregate;
  }

  /** A probe while none is in flight sends requests to exactly the hosts it contacts. */
  lemma ProbeSendsExactly(s: State, clock: nat -> Moment, hosts: seq<Host>, during: seq<seq<Callback>>, h: Host)
    requires !s.inFlight
    ensures SentNow(s, Probe(s, clock, hosts, during), h) <==>
            exists j :: 0 <= j < |Dedup(hosts)| && j in Contacted(s, clock, hosts) && Dedup(hosts)[j] == h
  {
    var n, b, slots := NewRound(s, hosts), Sketches(s, clock, hosts), Contacted(s, clock, hosts);
    SkeletonSketches(n, clock, Dedup(hosts), 0);
    SketchedSlots(n, b, slots, clock, Dedup(hosts));
    var i := Issue(b, clock, slots, during, 0);
    var u := i.(issuing := false);
    assert NoneSent(s, b) by { StartedOnly(s, clock, hosts); }
    assert b.issuing;
    hide Skeleton, Dedup, Issue, FinishRound, Probe, NewRound, Sketches, Contacted, Sketched;
    IssueSendsTo(b, clock, slots, during, 0, h);
    FinishSendsNone(u, clock);
    ProbeUnfolds(s, clock, hosts, during);
    var t := Probe(s, clock, hosts, during);
    assert t == u || t == FinishRound(u, clock);
    assert NoneSent(u, u);
    SentTrans(s, b, i, h);
    assert SentNow(s, i, h) <==> SentNow(s, u, h);
    SentTrans(s, u, t, h);
    hide SentNow;
    assert HostIn(b, slots, h) <==> exists j :: 0 <= j < |Dedup(hosts)| && j in slots && Dedup(hosts)[j] == h by {
      SlotHosts(b, slots, Dedup(hosts), h);
    }
  }

  lemma SketchedSlots(n: State, b: State, slots: seq<nat>, clock: nat -> Moment, unique: seq<Host>)
    requires |n.pending| == |unique| && Sketched(n, b.(issuing := n.issuing), slots, clock, unique, 0)
    ensures InTables(b, slots) && |b.details| == |unique|
    ensures forall j :: 0 <= j < |unique| ==> b.details[j].host == unique[j]
  {
    hide Final, MayContact;
  }

  lemma StartedOnly(s: State, clock: nat -> Moment, hosts: seq<Host>)
    ensures NoneSent(s, Sketches(s, clock, hosts))
  {
    SkeletonSketches(NewRound(s, hosts), clock, Dedup(hosts), 0);
    hide Skeleton, Dedup, Final, MayContact;
  }

  lemma SlotHosts(b: State, slots: seq<nat>, unique: seq<Host>, h: Host)
    requires InTables(b, slots) && |b.details| == |unique| && forall j :: 0 <= j < |unique| ==> b.details[j].host == unique[j]
    ensures HostIn(b, slots, h) <==> exists j :: 0 <= j < |unique| && j in slots && unique[j] == h
  {
    if HostIn(b, slots, h) {
      var k :| 0 <= k < |slots| && b.details[slots[k]].host == h;
      assert slots[k] in slots;
    }
    if j :| 0 <= j < |unique| && j in slots && unique[j] == h {
      var k :| 0 <= k < |slots| && slots[k] == j;
    }
  }
}
