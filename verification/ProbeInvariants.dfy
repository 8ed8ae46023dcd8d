/** What every step of the clock prober keeps, whatever the transport does: callbacks may come
    before the send returns, late, twice, for a round that is over, or never. */
module ProbeInvariants {
  import opened Basics
  import opened NtpCodec
  import opened NtpPacket
  import opened ProbeRounds

  // ----- the clock ------------------------------------------------------------------------

  ghost predicate Monotone(clock: nat -> Moment) {
    forall i: nat, j: nat :: i <= j ==> clock(i).steady <= clock(j).steady
  }

  /** The last steady reading when n readings were taken. */
  function Floor(clock: nat -> Moment, n: nat): int { clock(if n == 0 then 0 else n - 1).steady }

  // ----- a round under way ------------------------------------------------------------------

  /** Fully measured with no error, or unmeasured with an error. */
  predicate Final(d: Detail) {
    if d.ok then d.offsetMs.Some? && d.boundMs.Some? && d.rttMs.Some? && d.stratum.Some? && d.error.None?
    else d.offsetMs.None? && d.boundMs.None? && d.rttMs.None? && d.stratum.None? && d.error.Some?
  }

  function OpenSlots(pending: seq<Pending>): set<nat> { set i: nat | i < |pending| && !pending[i].settled }

  /** A slot whose server was contacted or will be. */
  predicate Awaited(pending: seq<Pending>, todo: seq<nat>, i: nat)
    requires i < |pending|
  {
    !pending[i].settled || i in todo
  }

  /** todo: the slots the send loop has not reached yet. */
  ghost predicate Table(pending: seq<Pending>, details: seq<Detail>, todo: seq<nat>) {
    && |pending| == |details|
    && (forall i, j :: 0 <= i < j < |details| ==> details[i].host != details[j].host)
    && (forall k :: 0 <= k < |todo| ==> todo[k] < |pending| && pending[todo[k]].settled)
    && (forall j, k :: 0 <= j < k < |todo| ==> todo[j] < todo[k])
    && (forall i :: 0 <= i < |pending| && !Awaited(pending, todo, i) ==> Final(details[i]))
  }

  ghost predicate Counted(pending: seq<Pending>, remaining: nat, todo: seq<nat>) {
    remaining == |OpenSlots(pending)| + |todo|
  }

  predicate Blocked(kiss: map<Host, KissEntry>, h: Host) { h in kiss && kiss[h].blocked }

  /** No awaited server is blocked. */
  ghost predicate Unblocked(kiss: map<Host, KissEntry>, pending: seq<Pending>, details: seq<Detail>, todo: seq<nat>) {
    |pending| == |details| && forall i :: 0 <= i < |pending| && Awaited(pending, todo, i) ==> !Blocked(kiss, details[i].host)
  }

  /** No server still to be contacted is backing off. */
  ghost predicate Rested(kiss: map<Host, KissEntry>, details: seq<Detail>, todo: seq<nat>, floor: int) {
    forall k :: 0 <= k < |todo| && todo[k] < |details| && details[todo[k]].host in kiss
      ==> kiss[details[todo[k]].host].until <= floor
  }

  // ----- the log --------------------------------------------------------------------------

  predicate Denies(e: Event) { e.Kissed? && (e.code.Deny? || e.code.Restrict?) }

  predicate Rates(e: Event) { e.Kissed? && e.code.Rate? }

  predicate SendsTo(e: Event, h: Host) { e.Sent? && e.host == h }

  /** A host that answered DENY or RSTR is blocked. */
  ghost predicate DeniesBlock(log: seq<Event>, kiss: map<Host, KissEntry>) {
    forall i :: 0 <= i < |log| && Denies(log[i]) ==> Blocked(kiss, log[i].host)
  }

  /** No request follows a DENY or RSTR of its host. */
  ghost predicate NeverAgain(log: seq<Event>) {
    forall i, j :: 0 <= i < j < |log| && Denies(log[i]) ==> !SendsTo(log[j], log[i].host)
  }

  /** The host is blocked or rests for the whole back-off from this time. */
  predicate Resting(kiss: map<Host, KissEntry>, h: Host, from: int) {
    h in kiss && (kiss[h].blocked || from + 3_600_000_000_000 <= kiss[h].until)
  }

  /** A RATE is on record: its host is blocked or rests for the whole back-off. */
  ghost predicate RatesRest(log: seq<Event>, kiss: map<Host, KissEntry>, floor: int) {
    forall i :: 0 <= i < |log| && Rates(log[i]) ==> log[i].steady <= floor && Resting(kiss, log[i].host, log[i].steady)
  }

  /** No request goes to a RATE host within an hour, in nanoseconds. */
  ghost predicate BackedOff(log: seq<Event>) {
    forall i, j :: 0 <= i < j < |log| && Rates(log[i]) && SendsTo(log[j], log[i].host) ==>
      log[i].steady + 3_600_000_000_000 <= log[j].steady
  }

  ghost predicate LogSafe(log: seq<Event>, kiss: map<Host, KissEntry>, timely: bool, floor: int) {
    && DeniesBlock(log, kiss)
    && NeverAgain(log)
    && (timely ==> RatesRest(log, kiss, floor) && BackedOff(log))
  }

  function Hosts(ds: seq<Detail>): seq<Host> { seq(|ds|, i requires 0 <= i < |ds| => ds[i].host) }

  /** The round of this token was asked for, with a list whose distinct hosts are these. */
  ghost predicate Asked(log: seq<Event>, token: nat, hosts: seq<Host>) {
    exists i :: 0 <= i < |log| && log[i].Started? && log[i].token == token && hosts == Dedup(log[i].hosts)
  }

  /** What a delivered outcome says about its round. */
  ghost predicate Sound(log: seq<Event>, e: Event)
    requires e.Delivered?
  {
    && Asked(log, e.token, Hosts(e.outcome.servers))
    && (forall i :: 0 <= i < |e.outcome.servers| ==> Final(e.outcome.servers[i]))
    && e.outcome == Aggregate(e.outcome.servers, e.outcome.finishedMs)
  }

  /** Every delivery is sound, and the tokens of deliveries rise below the bound. */
  ghost predicate Deliveries(log: seq<Event>, below: nat) {
    && (forall i :: 0 <= i < |log| && log[i].Delivered? ==> log[i].token < below && Sound(log[..i], log[i]))
    && (forall i, j :: 0 <= i < j < |log| && log[i].Delivered? && log[j].Delivered? ==> log[i].token < log[j].token)
  }

  /** Each accepted probe has a token of its own, rising up to this one. */
  ghost predicate Starts(log: seq<Event>, upto: nat) {
    && (forall i :: 0 <= i < |log| && log[i].Started? ==> log[i].token <= upto)
    && (forall i, j :: 0 <= i < j < |log| && log[i].Started? && log[j].Started? ==> log[i].token < log[j].token)
  }

  // ----- the invariant --------------------------------------------------------------------

  ghost predicate InRound(s: State, clock: nat -> Moment, todo: seq<nat>) {
    && s.inFlight
    && s.done == Some(s.token)
    && Table(s.pending, s.details, todo)
    && Counted(s.pending, s.remaining, todo)
    && Unblocked(s.kiss, s.pending, s.details, todo)
    && (Monotone(clock) ==> Rested(s.kiss, s.details, todo, Floor(clock, s.readings)))
    && LogSafe(s.log, s.kiss, Monotone(clock), Floor(clock, s.readings))
    && Asked(s.log, s.token, Hosts(s.details))
    && Deliveries(s.log, s.token) && Starts(s.log, s.token)
  }

  ghost predicate Idle(s: State, clock: nat -> Moment) {
    && !s.inFlight && s.done.None?
    && s.pending == [] && s.details == []
    && LogSafe(s.log, s.kiss, Monotone(clock), Floor(clock, s.readings))
    && Deliveries(s.log, s.token + 1) && Starts(s.log, s.token)
  }

  /** Between two steps: idle, or waiting for at least one server. */
  ghost predicate Valid(s: State, clock: nat -> Moment) {
    !s.issuing && (Idle(s, clock) || (InRound(s, clock, []) && s.remaining > 0))
  }

  // ----- settling one slot --------------------------------------------------------------------

  lemma JudgeFinal(d: Detail, p: Pending, now: Moment, x: Exchange)
    ensures Final(Judge(d, p, now, x)) && Judge(d, p, now, x).host == d.host
  {
    hide Classify, Parse, DeriveSample, KissOf, ToMs;
  }

  lemma SettleTable(pending: seq<Pending>, details: seq<Detail>, todo: seq<nat>, i: nat, d: Detail, remaining: nat)
    requires Table(pending, details, todo) && Counted(pending, remaining, todo)
    requires i < |pending| && !pending[i].settled && Final(d) && d.host == details[i].host
    ensures remaining > 0
    ensures var p := pending[i := pending[i].(settled := true)];
      Table(p, details[i := d], todo) && Counted(p, remaining - 1, todo)
  {
    hide Final;
    SettleCount(pending, i);
    hide OpenSlots;
    var p := pending[i := pending[i].(settled := true)];
    var ds := details[i := d];
    forall j | 0 <= j < |p| && !Awaited(p, todo, j) ensures Final(ds[j]) {
      if j != i { assert !Awaited(pending, todo, j); }
    }
  }

  lemma SettleCount(pending: seq<Pending>, i: nat)
    requires i < |pending| && !pending[i].settled
    ensures |OpenSlots(pending[i := pending[i].(settled := true)])| == |OpenSlots(pending)| - 1
  {
    assert OpenSlots(pending[i := pending[i].(settled := true)]) == OpenSlots(pending) - {i};
    assert i in OpenSlots(pending);
  }

  lemma SettleKiss(kiss: map<Host, KissEntry>, pending: seq<Pending>, details: seq<Detail>, todo: seq<nat>, i: nat, d: Detail,
                   code: KissCode, steady: int)
    requires Table(pending, details, todo) && Unblocked(kiss, pending, details, todo)
    requires i < |pending| && !pending[i].settled && d.host == details[i].host
    ensures Unblocked(NoteKiss(kiss, d.host, code, steady), pending[i := pending[i].(settled := true)], details[i := d], todo)
    ensures forall floor :: Rested(kiss, details, todo, floor) && floor <= steady ==>
              Rested(NoteKiss(kiss, d.host, code, steady), details[i := d], todo, steady)
  {
    var p, ds := pending[i := pending[i].(settled := true)], details[i := d];
    var k := NoteKiss(kiss, d.host, code, steady);
    assert i !in todo;
    assert forall h :: h != d.host ==> (h in k <==> h in kiss) && (h in kiss ==> k[h] == kiss[h]);
    hide NoteKiss;
    assert forall j :: 0 <= j < |ds| ==> ds[j].host == details[j].host;
    forall j | 0 <= j < |p| && Awaited(p, todo, j) ensures !Blocked(k, ds[j].host) {
      assert j != i && ds[j].host != d.host;
      assert Awaited(pending, todo, j);
    }
    forall n | 0 <= n < |todo| ensures ds[todo[n]].host != d.host {
      assert todo[n] in todo && todo[n] != i;
    }
  }

  lemma NoteKissLog(log: seq<Event>, kiss: map<Host, KissEntry>, timely: bool, floor: int, h: Host, code: KissCode, steady: int)
    requires LogSafe(log, kiss, timely, floor) && !Blocked(kiss, h)
    requires timely ==> floor <= steady
    ensures LogSafe(if code.NoKiss? then log else log + [Kissed(h, code, steady)], NoteKiss(kiss, h, code, steady), timely, steady)
  {
    var k := NoteKiss(kiss, h, code, steady);
    var l := if code.NoKiss? then log else log + [Kissed(h, code, steady)];
    assert forall g :: g != h ==> (g in k <==> g in kiss) && (g in kiss ==> k[g] == kiss[g]);
    assert code.NoKiss? ==> k == kiss;
    DeniesAppend(log, kiss, h, code, steady);
    if timely { RatesAppend(log, kiss, floor, h, code, steady); }
    assert forall i :: 0 <= i < |l| ==> i < |log| ==> l[i] == log[i];
    assert forall i, g :: |log| <= i < |l| ==> !SendsTo(l[i], g);
  }

  lemma DeniesAppend(log: seq<Event>, kiss: map<Host, KissEntry>, h: Host, code: KissCode, steady: int)
    requires DeniesBlock(log, kiss)
    requires !Blocked(kiss, h)
    ensures DeniesBlock(log + [Kissed(h, code, steady)], NoteKiss(kiss, h, code, steady))
    ensures code.NoKiss? ==> DeniesBlock(log, NoteKiss(kiss, h, code, steady))
  {
    var l := log + [Kissed(h, code, steady)];
    var k := NoteKiss(kiss, h, code, steady);
    forall i | 0 <= i < |l| && Denies(l[i]) ensures Blocked(k, l[i].host) {
      if i < |log| { assert l[i] == log[i]; }
    }
  }

  lemma RatesAppend(log: seq<Event>, kiss: map<Host, KissEntry>, floor: int, h: Host, code: KissCode, steady: int)
    requires RatesRest(log, kiss, floor) && floor <= steady
    requires !Blocked(kiss, h)
    ensures RatesRest(log + [Kissed(h, code, steady)], NoteKiss(kiss, h, code, steady), steady)
    ensures code.NoKiss? ==> RatesRest(log, NoteKiss(kiss, h, code, steady), steady)
  {
    var l := log + [Kissed(h, code, steady)];
    var k := NoteKiss(kiss, h, code, steady);
    forall i | 0 <= i < |l| && Rates(l[i]) ensures l[i].steady <= steady && Resting(k, l[i].host, l[i].steady) {
      if i < |log| { assert l[i] == log[i]; }
    }
  }

  lemma DeliveriesAppend(log: seq<Event>, below: nat, e: Event)
    requires Deliveries(log, below) && !e.Delivered?
    ensures Deliveries(log + [e], below)
  {
    var l := log + [e];
    forall i | 0 <= i < |l| && l[i].Delivered? ensures l[i].token < below && Sound(l[..i], l[i]) {
      assert l[..i] == log[..i] && l[i] == log[i];
    }
    hide Sound;
  }

  lemma StartsAppend(log: seq<Event>, upto: nat, e: Event)
    requires Starts(log, upto) && !e.Started?
    ensures Starts(log + [e], upto)
  {
    var l := log + [e];
    assert forall i :: 0 <= i < |log| ==> l[i] == log[i];
  }

  lemma AskedAppend(log: seq<Event>, more: seq<Event>, token: nat, hosts: seq<Host>)
    requires Asked(log, token, hosts)
    ensures Asked(log + more, token, hosts)
  {
    var i :| 0 <= i < |log| && log[i].Started? && log[i].token == token && hosts == Dedup(log[i].hosts);
    assert (log + more)[i] == log[i];
  }

  lemma ForeignOtherwise(s: State, clock: nat -> Moment, todo: seq<nat>, c: Callback)
    requires InRound(s, clock, todo) && !Foreign(s, c)
    ensures c.slot < |s.details| == |s.pending| && !s.pending[c.slot].settled
    ensures Awaited(s.pending, todo, c.slot) && !Blocked(s.kiss, s.details[c.slot].host)
  {
    assert Awaited(s.pending, todo, c.slot);
  }

  lemma SettleSlots(s: State, clock: nat -> Moment, todo: seq<nat>, c: Callback)
    requires InRound(s, clock, todo) && !Foreign(s, c)
    ensures c.slot < |s.details| == |s.pending| && s.remaining > 0
    ensures var t := Settle(s, clock, c);
      && Table(t.pending, t.details, todo) && Counted(t.pending, s.remaining - 1, todo)
      && Unblocked(t.kiss, t.pending, t.details, todo)
      && (Monotone(clock) ==> Rested(t.kiss, t.details, todo, Floor(clock, t.readings)))
      && Hosts(t.details) == Hosts(s.details)
  {
    ForeignOtherwise(s, clock, todo, c);
    var p, d, now := s.pending[c.slot], s.details[c.slot], clock(s.readings);
    var e := Judge(d, p, now, c.result);
    JudgeFinal(d, p, now, c.result);
    SettleTable(s.pending, s.details, todo, c.slot, e, s.remaining);
    SettleKiss(s.kiss, s.pending, s.details, todo, c.slot, e, KissIn(p, c.result), now.steady);
    hide Judge, KissIn, NoteKiss, Table, Counted, Unblocked, LogSafe, Rested, Asked, Deliveries, Starts, Final;
    assert Monotone(clock) ==> Floor(clock, s.readings) <= now.steady;
    assert Hosts(s.details[c.slot := e]) == Hosts(s.details);
  }

  lemma SettleLog(s: State, clock: nat -> Moment, todo: seq<nat>, c: Callback)
    requires InRound(s, clock, todo) && !Foreign(s, c)
    ensures c.slot < |s.details| == |s.pending|
    ensures var t := Settle(s, clock, c);
      && LogSafe(t.log, t.kiss, Monotone(clock), Floor(clock, t.readings))
      && Asked(t.log, s.token, Hosts(s.details)) && Deliveries(t.log, s.token) && Starts(t.log, s.token)
  {
    ForeignOtherwise(s, clock, todo, c);
    var d, now := s.details[c.slot], clock(s.readings);
    var code := KissIn(s.pending[c.slot], c.result);
    hide Judge, KissIn, NoteKiss, Table, Counted, Unblocked, LogSafe, Rested, Asked, Deliveries, Starts, Blocked, Awaited, Foreign;
    NoteKissLog(s.log, s.kiss, Monotone(clock), Floor(clock, s.readings), d.host, code, now.steady);
    if !code.NoKiss? {
      DeliveriesAppend(s.log, s.token, Kissed(d.host, code, now.steady));
      AskedAppend(s.log, [Kissed(d.host, code, now.steady)], s.token, Hosts(s.details));
      StartsAppend(s.log, s.token, Kissed(d.host, code, now.steady));
    }
  }

  /** A callback that is not foreign settles its slot and takes one off the count. */
  lemma SettleKept(s: State, clock: nat -> Moment, todo: seq<nat>, c: Callback)
    requires InRound(s, clock, todo) && !Foreign(s, c)
    ensures c.slot < |s.details| == |s.pending| && !s.pending[c.slot].settled && s.remaining > 0
    ensures InRound(Settle(s, clock, c).(remaining := s.remaining - 1), clock, todo)
  {
    ForeignOtherwise(s, clock, todo, c);
    SettleSlots(s, clock, todo, c);
    SettleLog(s, clock, todo, c);
    hide Judge, KissIn, NoteKiss, Table, Counted, Unblocked, LogSafe, Rested, Asked, Deliveries, Starts, Blocked, Awaited,
         Hosts, Floor, Monotone;
  }

  // ----- the end of a round ------------------------------------------------------------------

  lemma DeliverSound(log: seq<Event>, token: nat, details: seq<Detail>, finishedMs: int)
    requires Deliveries(log, token) && Asked(log, token, Hosts(details))
    requires forall i :: 0 <= i < |details| ==> Final(details[i])
    ensures Deliveries(log + [Delivered(token, Aggregate(details, finishedMs))], token + 1)
  {
    var e := Delivered(token, Aggregate(details, finishedMs));
    var l := log + [e];
    assert e.outcome.servers == details && e.outcome.finishedMs == finishedMs;
    assert Sound(log, e);
    hide Sound, Aggregate;
    forall i | 0 <= i < |l| && l[i].Delivered? ensures l[i].token < token + 1 && Sound(l[..i], l[i]) {
      assert l[..i] == log[..i];
      if i == |log| { assert log[..i] == log; }
    }
  }

  lemma NothingOpen(pending: seq<Pending>, details: seq<Detail>, remaining: nat)
    requires Table(pending, details, []) && Counted(pending, remaining, []) && remaining == 0
    ensures forall i :: 0 <= i < |details| ==> Final(details[i])
  {
    assert OpenSlots(pending) == {};
    forall i | 0 <= i < |details| ensures Final(details[i]) {
      assert i !in OpenSlots(pending);
      assert !Awaited(pending, [], i);
    }
  }

  lemma LaterLog(log: seq<Event>, kiss: map<Host, KissEntry>, timely: bool, floor: int, later: int, e: Event)
    requires LogSafe(log, kiss, timely, floor) && (timely ==> floor <= later) && !e.Kissed? && !e.Sent?
    ensures LogSafe(log, kiss, timely, later)
    ensures LogSafe(log + [e], kiss, timely, later)
  {
    var l := log + [e];
    assert forall i :: 0 <= i < |log| ==> l[i] == log[i];
    assert !Denies(e) && !Rates(e) && forall h :: !SendsTo(e, h);
  }

  lemma FinishKept(s: State, clock: nat -> Moment)
    requires InRound(s, clock, []) && s.remaining == 0
    ensures Idle(FinishRound(s, clock), clock)
    ensures FinishRound(s, clock).token == s.token && FinishRound(s, clock).issuing == s.issuing
    ensures exists o :: FinishRound(s, clock).log == s.log + [Delivered(s.token, o)]
  {
    var ms := TruncDiv(clock(s.readings).wall, 1_000_000);
    NothingOpen(s.pending, s.details, s.remaining);
    DeliverSound(s.log, s.token, s.details, ms);
    LaterLog(s.log, s.kiss, Monotone(clock), Floor(clock, s.readings), Floor(clock, s.readings + 1),
             Delivered(s.token, Aggregate(s.details, ms)));
    StartsAppend(s.log, s.token, Delivered(s.token, Aggregate(s.details, ms)));
    hide Aggregate, Deliveries, Starts, LogSafe, Table, Unblocked;
  }
}
