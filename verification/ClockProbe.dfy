/** Whole rounds and whole runs of the clock prober: exactly-once delivery, kiss-o'-death
    safety, and the outcome of a round. */
module ClockProbe {
  import opened Basics
  import opened NtpCodec
  import opened NtpPacket
  import opened ProbeRounds
  import opened ProbeInvariants

  /** One of these callbacks is for this slot and round. */
  ghost predicate Answered(cs: seq<Callback>, slot: nat, token: nat) {
    exists k :: 0 <= k < |cs| && cs[k].slot == slot && cs[k].token == token
  }

  lemma AnsweredConcat(a: seq<Callback>, b: seq<Callback>, slot: nat, token: nat)
    ensures Answered(a + b, slot, token) <==> Answered(a, slot, token) || Answered(b, slot, token)
  {
    if Answered(a, slot, token) {
      var k :| 0 <= k < |a| && a[k].slot == slot && a[k].token == token;
      assert (a + b)[k] == a[k];
    }
    if Answered(b, slot, token) {
      var k :| 0 <= k < |b| && b[k].slot == slot && b[k].token == token;
      assert (a + b)[|a| + k] == b[k];
    }
  }

  /** Blocks stay as they are. */
  ghost predicate BlocksKept(k: map<Host, KissEntry>, m: map<Host, KissEntry>) {
    forall h :: Blocked(k, h) ==> h in m && m[h] == k[h]
  }

  /** What the callbacks of a round leave alone. */
  ghost predicate SameRound(s: State, t: State) {
    && t.token == s.token && t.issuing == s.issuing
    && |t.pending| == |s.pending|
    && BlocksKept(s.kiss, t.kiss)
  }

  /** The slots of t are those of s, settled also where these callbacks answered. */
  ghost predicate SettledBy(s: State, t: State, cs: seq<Callback>) {
    && |t.pending| == |s.pending|
    && forall i :: 0 <= i < |t.pending| ==> (t.pending[i].settled <==> s.pending[i].settled || Answered(cs, i, s.token))
  }

  lemma SettledByTrans(s: State, m: State, t: State, c: Callback, cs: seq<Callback>)
    requires SettledBy(s, m, [c]) && SettledBy(m, t, cs) && m.token == s.token
    ensures SettledBy(s, t, [c] + cs)
  {
    forall i | 0 <= i < |t.pending|
      ensures t.pending[i].settled <==> s.pending[i].settled || Answered([c] + cs, i, s.token)
    {
      AnsweredConcat([c], cs, i, s.token);
    }
  }

  // ----- one callback -----------------------------------------------------------------------

  lemma SettleSettles(s: State, clock: nat -> Moment, todo: seq<nat>, c: Callback)
    requires InRound(s, clock, todo) && !Foreign(s, c)
    ensures c.slot < |s.details| == |s.pending|
    ensures var t := Settle(s, clock, c); SameRound(s, t) && SettledBy(s, t, [c]) && t.done == s.done
  {
    ForeignOtherwise(s, clock, todo, c);
    hide Judge, KissIn, InRound;
    var t := Settle(s, clock, c);
    assert [c][0] == c;
  }

  lemma NoneOpen(pending: seq<Pending>)
    ensures |OpenSlots(pending)| == 0 <==> forall i :: 0 <= i < |pending| ==> pending[i].settled
  {
    if forall i :: 0 <= i < |pending| ==> pending[i].settled {
      assert OpenSlots(pending) == {};
    } else {
      var i :| 0 <= i < |pending| && !pending[i].settled;
      assert i in OpenSlots(pending);
    }
  }

  lemma ForeignSettles(s: State, clock: nat -> Moment, todo: seq<nat>, c: Callback)
    requires InRound(s, clock, todo) && Foreign(s, c)
    ensures SettledBy(s, s, [c])
  {
    NoneOpen(s.pending);
    forall i | 0 <= i < |s.pending| && Answered([c], i, s.token) ensures s.pending[i].settled {}
  }

  /** While requests are still being sent: a synchronous callback is settled but the round is
      not finished under the send loop's feet. */
  ghost predicate Sending(s: State, clock: nat -> Moment, todo: seq<nat>) {
    InRound(s, clock, todo) && s.issuing && (s.finishRequested ==> s.remaining == 0)
  }

  lemma SendingOne(s: State, clock: nat -> Moment, todo: seq<nat>, c: Callback)
    requires Sending(s, clock, todo)
    ensures var t := HandleExchange(s, clock, c);
      Sending(t, clock, todo) && SameRound(s, t) && SettledBy(s, t, [c])
  {
    if Foreign(s, c) {
      ForeignSettles(s, clock, todo, c);
    } else {
      SettleKept(s, clock, todo, c);
      SettleSettles(s, clock, todo, c);
      hide Settle, SettledBy, SameRound, InRound, Foreign;
    }
  }

  lemma {:induction false} SendingAll(s: State, clock: nat -> Moment, todo: seq<nat>, cs: seq<Callback>)
    requires Sending(s, clock, todo)
    ensures var t := HandleAll(s, clock, cs);
      Sending(t, clock, todo) && SameRound(s, t) && SettledBy(s, t, cs)
    decreases |cs|
  {
    if cs != [] {
      hide HandleExchange, Sending;
      var m := HandleExchange(s, clock, cs[0]);
      SendingOne(s, clock, todo, cs[0]);
      SendingAll(m, clock, todo, cs[1..]);
      SettledByTrans(s, m, HandleAll(m, clock, cs[1..]), cs[0], cs[1..]);
      assert [cs[0]] + cs[1..] == cs;
      hide SettledBy;
    }
  }

  // ----- a round that waits ---------------------------------------------------------------------

  ghost predicate Waiting(s: State, clock: nat -> Moment) {
    InRound(s, clock, []) && !s.issuing && s.remaining > 0
  }

  ghost predicate HasDelivered(log: seq<Event>, token: nat) {
    exists i :: 0 <= i < |log| && log[i].Delivered? && log[i].token == token
  }

  /** Every open slot is answered by these callbacks. */
  ghost predicate AllAnswered(s: State, cs: seq<Callback>) {
    forall i :: 0 <= i < |s.pending| && !s.pending[i].settled ==> Answered(cs, i, s.token)
  }

  /** The round is over and its outcome was handed over. */
  ghost predicate Over(s: State, clock: nat -> Moment, token: nat) {
    Idle(s, clock) && !s.issuing && s.token == token && HasDelivered(s.log, token)
  }

  lemma FinishOver(s: State, clock: nat -> Moment)
    requires InRound(s, clock, []) && s.remaining == 0 && !s.issuing
    ensures Over(FinishRound(s, clock), clock, s.token) && FinishRound(s, clock).kiss == s.kiss
  {
    FinishKept(s, clock);
    var t := FinishRound(s, clock);
    assert t.log[|s.log|].Delivered? && t.log[|s.log|].token == s.token;
    hide Idle, InRound, Aggregate;
  }

  lemma OpenOrNot(s: State, clock: nat -> Moment)
    requires InRound(s, clock, [])
    ensures s.remaining == 0 <==> forall i :: 0 <= i < |s.pending| ==> s.pending[i].settled
  {
    NoneOpen(s.pending);
  }

  lemma WaitingOne(s: State, clock: nat -> Moment, c: Callback)
    requires Waiting(s, clock)
    ensures var t := HandleExchange(s, clock, c);
      && BlocksKept(s.kiss, t.kiss)
      && (AllAnswered(s, [c]) ==> Over(t, clock, s.token))
      && (!AllAnswered(s, [c]) ==> Waiting(t, clock) && t.token == s.token && SettledBy(s, t, [c]))
  {
    OpenOrNot(s, clock);
    if Foreign(s, c) {
      ForeignSettles(s, clock, [], c);
    } else {
      SettleKept(s, clock, [], c);
      SettleSettles(s, clock, [], c);
      var u := Settle(s, clock, c).(remaining := s.remaining - 1);
      OpenOrNot(u, clock);
      assert SettledBy(s, u, [c]);
      assert u.remaining == 0 <==> AllAnswered(s, [c]);
      if u.remaining == 0 { FinishOver(u, clock); }
      hide Settle, FinishRound, InRound, Over, SettledBy, Foreign;
    }
  }

  lemma {:induction false} IdleIgnores(s: State, clock: nat -> Moment, cs: seq<Callback>)
    requires Idle(s, clock)
    ensures HandleAll(s, clock, cs) == s
    decreases |cs|
  {
    if cs != [] { IdleIgnores(s, clock, cs[1..]); }
  }

  /** What callbacks do to a round that waits. */
  ghost predicate RoundAfter(s: State, t: State, clock: nat -> Moment, cs: seq<Callback>) {
    && BlocksKept(s.kiss, t.kiss)
    && (AllAnswered(s, cs) ==> Over(t, clock, s.token))
    && (!AllAnswered(s, cs) ==> Waiting(t, clock) && t.token == s.token && SettledBy(s, t, cs))
  }

  lemma AllAnsweredCons(s: State, m: State, c: Callback, cs: seq<Callback>)
    requires m.token == s.token && SettledBy(s, m, [c])
    ensures AllAnswered(m, cs) <==> AllAnswered(s, [c] + cs)
  {
    forall i | 0 <= i < |s.pending| ensures Answered([c] + cs, i, s.token) <==> Answered([c], i, s.token) || Answered(cs, i, s.token) {
      AnsweredConcat([c], cs, i, s.token);
    }
    hide Answered;
  }

  lemma AllAnsweredMore(s: State, c: Callback, cs: seq<Callback>)
    requires AllAnswered(s, [c])
    ensures AllAnswered(s, [c] + cs)
  {
    forall i | 0 <= i < |s.pending| && !s.pending[i].settled ensures Answered([c] + cs, i, s.token) {
      AnsweredConcat([c], cs, i, s.token);
    }
  }

  /** In a round that waits, whatever the order and number of the callbacks, and whatever other
      rounds' callbacks are among them: the outcome is handed over exactly when every server
      still open has called back once, and until then the round goes on waiting for the rest. */
  lemma {:induction false} RoundCompletesExactly(s: State, clock: nat -> Moment, cs: seq<Callback>)
    requires Waiting(s, clock)
    ensures RoundAfter(s, HandleAll(s, clock, cs), clock, cs)
    decreases |cs|
  {
    if cs == [] {
      OpenOrNot(s, clock);
    } else {
      var c, rest := cs[0], cs[1..];
      assert [c] + rest == cs;
      var m := HandleExchange(s, clock, c);
      WaitingOne(s, clock, c);
      hide HandleExchange, Waiting, Over, SettledBy, AllAnswered, Idle;
      if AllAnswered(s, [c]) {
        AllAnsweredMore(s, c, rest);
        OverIgnores(m, clock, s.token, rest);
      } else {
        RoundCompletesExactly(m, clock, rest);
        AllAnsweredCons(s, m, c, rest);
        if !AllAnswered(s, cs) { SettledByTrans(s, m, HandleAll(m, clock, rest), c, rest); }
      }
    }
  }

  lemma OverIgnores(s: State, clock: nat -> Moment, token: nat, cs: seq<Callback>)
    requires Over(s, clock, token)
    ensures HandleAll(s, clock, cs) == s
  {
    IdleIgnores(s, clock, cs);
  }

  // ----- starting a round -----------------------------------------------------------------------

  /** Deduplication keeps each host once, in the order of first appearance: every prefix of the
      list yields a prefix of the result. */
  lemma {:induction false} DedupKeepsFirsts(hosts: seq<Host>, k: nat)
    requires k <= |hosts|
    ensures forall i, j :: 0 <= i < j < |Dedup(hosts)| ==> Dedup(hosts)[i] != Dedup(hosts)[j]
    ensures forall h :: h in Dedup(hosts) <==> h in hosts
    ensures Dedup(hosts[..k]) <= Dedup(hosts)
  {
    if hosts != [] {
      var n := |hosts| - 1;
      assert hosts == hosts[..n] + [hosts[n]];
      DedupKeepsFirsts(hosts[..n], if k <= n then k else n);
      if k <= n { assert hosts[..n][..k] == hosts[..k]; } else { assert hosts[..k] == hosts; }
    }
  }

  /** What the first phase of a probe leaves: every server not contacted has failed for good. */
  ghost predicate Sketched(s: State, t: State, slots: seq<nat>, clock: nat -> Moment, hosts: seq<Host>, i: nat) {
    && i <= |hosts| == |s.details| == |t.details|
    && t == s.(readings := s.readings + |hosts| - i, details := t.details, remaining := s.remaining + |slots|)
    && (forall j :: 0 <= j < i ==> t.details[j] == s.details[j])
    && (forall j :: i <= j < |hosts| ==> t.details[j].host == hosts[j] && (j in slots || Final(t.details[j])))
    && (forall k :: 0 <= k < |slots| ==> i <= slots[k] < |hosts| && MayContact(s.kiss, hosts[slots[k]], clock, t.readings))
    && (forall j, k :: 0 <= j < k < |slots| ==> slots[j] < slots[k])
  }

  ghost predicate MayContact(kiss: map<Host, KissEntry>, h: Host, clock: nat -> Moment, readings: nat) {
    !Blocked(kiss, h) && (Monotone(clock) && h in kiss ==> kiss[h].until <= Floor(clock, readings))
  }

  lemma MayContactNow(kiss: map<Host, KissEntry>, h: Host, clock: nat -> Moment, r: nat, later: nat)
    requires SkipReason(kiss, h, clock(r).steady).None? && r < later
    ensures MayContact(kiss, h, clock, later)
  {
    if Monotone(clock) { assert clock(r).steady <= clock(later - 1).steady; }
  }

  lemma SketchSkip(s: State, t: State, slots: seq<nat>, clock: nat -> Moment, hosts: seq<Host>, i: nat)
    requires i < |hosts| == |s.details| && ReasonAt(s, clock, hosts, i).Some?
    requires Sketched(Sketch(s, clock, hosts, i), t, slots, clock, hosts, i + 1)
    ensures Sketched(s, t, slots, clock, hosts, i)
  {
    hide MayContact, SkipReason;
  }

  lemma SketchContact(s: State, t: State, slots: seq<nat>, clock: nat -> Moment, hosts: seq<Host>, i: nat)
    requires i < |hosts| == |s.details| && ReasonAt(s, clock, hosts, i).None?
    requires Sketched(Sketch(s, clock, hosts, i), t, slots, clock, hosts, i + 1)
    ensures Sketched(s, t, [i] + slots, clock, hosts, i)
  {
    MayContactNow(s.kiss, hosts[i], clock, s.readings, t.readings);
    hide MayContact, SkipReason, Final;
    var all := [i] + slots;
    assert all[0] == i && forall k :: 0 < k < |all| ==> all[k] == slots[k - 1];
    forall j | i <= j < |hosts| ensures t.details[j].host == hosts[j] && (j in all || Final(t.details[j])) {
      if j > i && j in slots { assert j in all; }
    }
  }

  lemma {:induction false} SkeletonSketches(s: State, clock: nat -> Moment, hosts: seq<Host>, i: nat)
    requires i <= |hosts| == |s.details|
    ensures var (t, slots) := Skeleton(s, clock, hosts, i); Sketched(s, t, slots, clock, hosts, i)
    decreases |hosts| - i
  {
    if i < |hosts| {
      var n := Sketch(s, clock, hosts, i);
      SkeletonSketches(n, clock, hosts, i + 1);
      var (t, slots) := Skeleton(n, clock, hosts, i + 1);
      hide Sketched, Sketch, SkipReason;
      if ReasonAt(s, clock, hosts, i).Some? {
        SketchSkip(s, t, slots, clock, hosts, i);
      } else {
        SketchContact(s, t, slots, clock, hosts, i);
      }
    }
  }

  lemma StartedLog(s: State, clock: nat -> Moment, hosts: seq<Host>, later: nat)
    requires Idle(s, clock) && s.readings <= later
    ensures var l := s.log + [Started(s.token + 1, hosts)];
      && LogSafe(l, s.kiss, Monotone(clock), Floor(clock, later))
      && Asked(l, s.token + 1, Dedup(hosts)) && Deliveries(l, s.token + 1) && Starts(l, s.token + 1)
  {
    var e := Started(s.token + 1, hosts);
    var l := s.log + [e];
    LaterLog(s.log, s.kiss, Monotone(clock), Floor(clock, s.readings), Floor(clock, later), e);
    DeliveriesAppend(s.log, s.token + 1, e);
    assert l[|s.log|] == e;
    hide LogSafe, Deliveries, Dedup;
    assert forall i :: 0 <= i < |s.log| ==> l[i] == s.log[i];
  }

  /** The state the send loop of a probe starts from, and the slots it goes through. */
  function Sketches(s: State, clock: nat -> Moment, hosts: seq<Host>): State {
    Skeleton(NewRound(s, hosts), clock, Dedup(hosts), 0).0.(issuing := true)
  }

  function Contacted(s: State, clock: nat -> Moment, hosts: seq<Host>): seq<nat> {
    Skeleton(NewRound(s, hosts), clock, Dedup(hosts), 0).1
  }

  lemma SketchedRound(s: State, clock: nat -> Moment, hosts: seq<Host>)
    requires Idle(s, clock)
    ensures var n, b, slots := NewRound(s, hosts), Sketches(s, clock, hosts), Contacted(s, clock, hosts);
      Sketched(n.(issuing := true), b, slots, clock, Dedup(hosts), 0)
  {
    SkeletonSketches(NewRound(s, hosts), clock, Dedup(hosts), 0);
    hide Skeleton, Dedup, Final, MayContact;
  }

  lemma RoundBegins(s: State, clock: nat -> Moment, hosts: seq<Host>)
    requires Idle(s, clock)
    ensures var b, slots := Sketches(s, clock, hosts), Contacted(s, clock, hosts);
      && b.kiss == s.kiss && b.token == s.token + 1
      && Sending(b, clock, slots)
      && (forall i :: 0 <= i < |b.pending| ==> b.pending[i].settled)
      && (forall k :: 0 <= k < |slots| ==> slots[k] < |b.pending|)
  {
    var n, unique := NewRound(s, hosts).(issuing := true), Dedup(hosts);
    var b, slots := Sketches(s, clock, hosts), Contacted(s, clock, hosts);
    SketchedRound(s, clock, hosts);
    DedupKeepsFirsts(hosts, 0);
    SketchedTable(n, b, slots, clock, unique);
    SketchedKiss(n, b, slots, clock, unique);
    SketchedHosts(n, b, slots, clock, unique);
    StartedLog(s, clock, hosts, b.readings);
    hide Sketches, Contacted, LogSafe, Asked, Deliveries, Starts, Dedup, Table, Unblocked, Rested, MayContact, Final;
  }

  lemma SketchedHosts(n: State, t: State, slots: seq<nat>, clock: nat -> Moment, unique: seq<Host>)
    requires Sketched(n, t, slots, clock, unique, 0)
    ensures Hosts(t.details) == unique
  {}

  lemma SketchedTable(n: State, t: State, slots: seq<nat>, clock: nat -> Moment, unique: seq<Host>)
    requires Sketched(n, t, slots, clock, unique, 0) && |n.pending| == |unique| && n.remaining == 0
    requires forall i, j :: 0 <= i < j < |unique| ==> unique[i] != unique[j]
    requires forall i :: 0 <= i < |n.pending| ==> n.pending[i].settled
    ensures Table(t.pending, t.details, slots) && Counted(t.pending, t.remaining, slots)
  {
    hide Final, MayContact;
    NoneOpen(t.pending);
  }

  lemma SketchedKiss(n: State, t: State, slots: seq<nat>, clock: nat -> Moment, unique: seq<Host>)
    requires Sketched(n, t, slots, clock, unique, 0) && |n.pending| == |unique|
    requires forall i :: 0 <= i < |n.pending| ==> n.pending[i].settled
    ensures Unblocked(t.kiss, t.pending, t.details, slots)
    ensures Monotone(clock) ==> Rested(t.kiss, t.details, slots, Floor(clock, t.readings))
  {
    hide Final, Monotone, Floor;
  }

  // ----- sending --------------------------------------------------------------------------------

  lemma SentLog(log: seq<Event>, kiss: map<Host, KissEntry>, timely: bool, floor: int, h: Host, now: int)
    requires LogSafe(log, kiss, timely, floor) && !Blocked(kiss, h)
    requires timely ==> floor <= now && (h in kiss ==> kiss[h].until <= floor)
    ensures LogSafe(log + [Sent(h, now)], kiss, timely, now)
  {
    var l := log + [Sent(h, now)];
    assert forall i :: 0 <= i < |log| ==> l[i] == log[i];
    forall i, j | 0 <= i < j < |l| && Denies(l[i]) ensures !SendsTo(l[j], l[i].host) {
      assert l[i] == log[i];
    }
    if timely {
      forall i, j | 0 <= i < j < |l| && Rates(l[i]) && SendsTo(l[j], l[i].host) ensures l[i].steady + 3_600_000_000_000 <= l[j].steady {
        assert l[i] == log[i];
      }
    }
  }

  lemma SendOpens(pending: seq<Pending>, details: seq<Detail>, todo: seq<nat>, remaining: nat, p: Pending)
    requires Table(pending, details, todo) && Counted(pending, remaining, todo) && todo != [] && !p.settled
    ensures todo[0] < |pending| && remaining > 0
    ensures Table(pending[todo[0] := p], details, todo[1..]) && Counted(pending[todo[0] := p], remaining, todo[1..])
    ensures forall i :: 0 <= i < |pending| ==> (Awaited(pending[todo[0] := p], todo[1..], i) <==> Awaited(pending, todo, i))
  {
    var slot := todo[0];
    var q := pending[slot := p];
    assert OpenSlots(q) == OpenSlots(pending) + {slot};
    assert todo == [slot] + todo[1..];
    hide Final;
    assert slot !in todo[1..];
  }

  lemma SendKept(s: State, clock: nat -> Moment, todo: seq<nat>)
    requires Sending(s, clock, todo) && todo != []
    ensures todo[0] < |s.details| && todo[0] < |s.pending|
    ensures Sending(IssueOne(s, clock, todo[0]), clock, todo[1..])
  {
    var slot := todo[0];
    var now := clock(s.readings);
    var p := Pending(FromUnixNanos(now.wall), now.steady, false);
    SendOpens(s.pending, s.details, todo, s.remaining, p);
    var h := s.details[slot].host;
    assert Awaited(s.pending, todo, slot);
    var e := Sent(h, now.steady);
    var floor := Floor(clock, s.readings);
    assert Monotone(clock) ==> floor <= now.steady;
    assert Rested(s.kiss, s.details, todo, floor) ==> Rested(s.kiss, s.details, todo[1..], now.steady) || now.steady < floor;
    SentLog(s.log, s.kiss, Monotone(clock), floor, h, now.steady);
    DeliveriesAppend(s.log, s.token, e);
    AskedAppend(s.log, [e], s.token, Hosts(s.details));
    StartsAppend(s.log, s.token, e);
    hide Table, Counted, Monotone, LogSafe, Asked, Deliveries, Starts, FromUnixNanos;
  }

  /** The callbacks of the windows k to n, in order. */
  function Flat(during: seq<seq<Callback>>, k: nat, n: nat): seq<Callback>
    decreases n - k
  {
    if k >= n then [] else Window(during, k) + Flat(during, k + 1, n)
  }

  /** The slots of t after sending: those not contacted are still settled, and the one sent to
      in window k + j is settled when a callback answered it in that window or a later one. */
  ghost predicate SentAll(s: State, t: State, slots: seq<nat>, during: seq<seq<Callback>>, k: nat) {
    && |t.pending| == |s.pending|
    && (forall i :: 0 <= i < |t.pending| && i !in slots ==>
         (t.pending[i].settled <==> s.pending[i].settled || Answered(Flat(during, k, k + |slots|), i, s.token)))
    && (forall j :: 0 <= j < |slots| && slots[j] < |t.pending| ==>
         (t.pending[slots[j]].settled <==> Answered(Flat(during, k + j, k + |slots|), slots[j], s.token)))
  }

  /** What sending to the first slot leads to. */
  ghost predicate FirstSent(s: State, m: State, u: State, t: State, slots: seq<nat>, during: seq<seq<Callback>>, k: nat) {
    && slots != [] && slots[0] < |s.pending| == |m.pending| && slots[0] !in slots[1..]
    && m.token == s.token && u.token == s.token
    && (forall i :: 0 <= i < |s.pending| ==> m.pending[i].settled == (i != slots[0] && s.pending[i].settled))
    && SettledBy(m, u, Window(during, k)) && SentAll(u, t, slots[1..], during, k + 1)
  }

  lemma FlatSplit(during: seq<seq<Callback>>, k: nat, n: nat, slot: nat, token: nat)
    requires k < n
    ensures Answered(Flat(during, k, n), slot, token) <==>
            Answered(Window(during, k), slot, token) || Answered(Flat(during, k + 1, n), slot, token)
  {
    AnsweredConcat(Window(during, k), Flat(during, k + 1, n), slot, token);
  }

  lemma OneSlotSent(s: State, m: State, u: State, t: State, slots: seq<nat>, during: seq<seq<Callback>>, k: nat, i: nat)
    requires FirstSent(s, m, u, t, slots, during, k) && i < |t.pending| && i !in slots[1..]
    ensures i < |s.pending| == |t.pending|
    ensures t.pending[i].settled <==> (i != slots[0] && s.pending[i].settled) || Answered(Flat(during, k, k + |slots|), i, s.token)
  {
    FlatSplit(during, k, k + |slots|, i, s.token);
    hide Answered, Flat, Window;
  }

  lemma SentAllCons(s: State, m: State, u: State, t: State, slots: seq<nat>, during: seq<seq<Callback>>, k: nat)
    requires FirstSent(s, m, u, t, slots, during, k)
    ensures SentAll(s, t, slots, during, k)
  {
    var n := k + |slots|;
    hide Answered, Flat, Window;
    forall i | 0 <= i < |t.pending| && i !in slots
      ensures t.pending[i].settled <==> s.pending[i].settled || Answered(Flat(during, k, n), i, s.token)
    {
      OneSlotSent(s, m, u, t, slots, during, k, i);
    }
    forall j | 0 <= j < |slots| && slots[j] < |t.pending|
      ensures t.pending[slots[j]].settled <==> Answered(Flat(during, k + j, n), slots[j], s.token)
    {
      if j == 0 { OneSlotSent(s, m, u, t, slots, during, k, slots[0]); } else { assert slots[j] == slots[1..][j - 1]; }
    }
  }

  lemma BlocksTrans(a: map<Host, KissEntry>, b: map<Host, KissEntry>, c: map<Host, KissEntry>)
    requires BlocksKept(a, b) && BlocksKept(b, c)
    ensures BlocksKept(a, c)
  {}

  lemma TableSlots(pending: seq<Pending>, details: seq<Detail>, todo: seq<nat>)
    requires Table(pending, details, todo) && todo != []
    ensures todo[0] !in todo[1..]
    ensures forall j :: 0 <= j < |todo| ==> todo[j] < |pending|
  {
    hide Final;
    forall j | 0 < j < |todo| ensures todo[j] != todo[0] {}
  }

  lemma {:induction false} IssueSends(s: State, clock: nat -> Moment, slots: seq<nat>, during: seq<seq<Callback>>, k: nat)
    requires Sending(s, clock, slots)
    ensures var t := Issue(s, clock, slots, during, k);
      Sending(t, clock, []) && SameRound(s, t) && SentAll(s, t, slots, during, k)
    decreases |slots|
  {
    if slots != [] {
      SendKept(s, clock, slots);
      TableSlots(s.pending, s.details, slots);
      var m := IssueOne(s, clock, slots[0]);
      var u := HandleAll(m, clock, Window(during, k));
      var t := Issue(u, clock, slots[1..], during, k + 1);
      assert m.token == s.token && m.kiss == s.kiss && m.issuing == s.issuing && |m.pending| == |s.pending|;
      assert forall i :: 0 <= i < |s.pending| ==> m.pending[i].settled == (i != slots[0] && s.pending[i].settled);
      hide Sending, IssueOne, HandleAll;
      SendingAll(m, clock, slots[1..], Window(during, k));
      IssueSends(u, clock, slots[1..], during, k + 1);
      BlocksTrans(m.kiss, u.kiss, t.kiss);
      hide SettledBy, SentAll, BlocksKept;
      SentAllCons(s, m, u, t, slots, during, k);
    } else {
      assert k == k + |slots|;
    }
  }

  // ----- a whole probe --------------------------------------------------------------------------

  /** The slots contacted by a probe are those whose host is neither blocked nor backing off at
      the reading taken for it. */
  lemma {:induction false} ContactedExactly(s: State, clock: nat -> Moment, hosts: seq<Host>, i: nat)
    requires i <= |hosts| == |s.details|
    ensures forall j: nat :: j in Skeleton(s, clock, hosts, i).1 <==>
              i <= j < |hosts| && SkipReason(s.kiss, hosts[j], clock(s.readings + (j - i)).steady).None?
    decreases |hosts| - i
  {
    if i < |hosts| {
      ContactedExactly(Sketch(s, clock, hosts, i), clock, hosts, i + 1);
      hide SkipReason;
    }
  }

  /** The server contacted k-th called back in its own window or later. */
  ghost predicate AllCalledBack(slots: seq<nat>, during: seq<seq<Callback>>, cs: seq<Callback>, token: nat) {
    forall k :: 0 <= k < |slots| ==> Answered(Flat(during, k, |slots|) + cs, slots[k], token)
  }

  lemma CalledBackSplit(t: State, u: State, slots: seq<nat>, during: seq<seq<Callback>>, cs: seq<Callback>)
    requires SentAll(t, u, slots, during, 0) && u.token == t.token
    requires forall i :: 0 <= i < |t.pending| ==> t.pending[i].settled
    requires forall k :: 0 <= k < |slots| ==> slots[k] < |t.pending|
    ensures AllCalledBack(slots, during, cs, t.token) <==> AllAnswered(u, cs)
  {
    forall k | 0 <= k < |slots|
      ensures Answered(Flat(during, k, |slots|) + cs, slots[k], t.token) <==> u.pending[slots[k]].settled || Answered(cs, slots[k], t.token)
    {
      AnsweredConcat(Flat(during, k, |slots|), cs, slots[k], t.token);
    }
    hide Answered, Flat;
    forall i | 0 <= i < |u.pending| && !u.pending[i].settled ensures i in slots {}
  }

  lemma ProbeSends(s: State, clock: nat -> Moment, hosts: seq<Host>, during: seq<seq<Callback>>, cs: seq<Callback>)
    requires Idle(s, clock) && !s.issuing
    ensures var b, slots := Sketches(s, clock, hosts), Contacted(s, clock, hosts);
      var i := Issue(b, clock, slots, during, 0);
      && Sending(i, clock, []) && BlocksKept(s.kiss, i.kiss) && i.token == s.token + 1
      && (AllCalledBack(slots, during, cs, s.token + 1) <==> AllAnswered(i, cs))
  {
    RoundBegins(s, clock, hosts);
    var b, slots := Sketches(s, clock, hosts), Contacted(s, clock, hosts);
    hide Sketches, Contacted, Sending, Issue, Idle;
    IssueSends(b, clock, slots, during, 0);
    CalledBackSplit(b, Issue(b, clock, slots, during, 0), slots, during, cs);
    hide AllCalledBack, AllAnswered, SentAll, BlocksKept;
  }

  /** The end of probe, after the send loop. */
  function AfterIssue(i: State, clock: nat -> Moment): State {
    var u := i.(issuing := false);
    if u.finishRequested || u.remaining == 0 then FinishRound(u, clock) else u
  }

  lemma ProbeUnfolds(s: State, clock: nat -> Moment, hosts: seq<Host>, during: seq<seq<Callback>>)
    requires !s.inFlight
    ensures Probe(s, clock, hosts, during) ==
            AfterIssue(Issue(Sketches(s, clock, hosts), clock, Contacted(s, clock, hosts), during, 0), clock)
  {
    hide Skeleton, Issue, FinishRound, Dedup, NewRound;
  }

  lemma AfterIssueOk(i: State, clock: nat -> Moment, cs: seq<Callback>)
    requires Sending(i, clock, [])
    ensures var t := AfterIssue(i, clock);
      && t.kiss == i.kiss
      && (Over(t, clock, i.token) || (Waiting(t, clock) && t.token == i.token))
      && (AllAnswered(i, cs) <==> Over(t, clock, i.token) || AllAnswered(t, cs))
  {
    var u := i.(issuing := false);
    EndIssue(i, clock);
    OpenOrNot(u, clock);
    if u.remaining == 0 {
      FinishOver(u, clock);
      hide Over, FinishRound, InRound;
    } else {
      assert u.inFlight;
      hide InRound, FinishRound;
    }
  }

  /** What an accepted probe leaves, and what the callbacks still to come must answer. */
  lemma ProbeBegins(s: State, clock: nat -> Moment, hosts: seq<Host>, during: seq<seq<Callback>>, cs: seq<Callback>)
    requires Idle(s, clock) && !s.issuing
    ensures var t := Probe(s, clock, hosts, during);
      && BlocksKept(s.kiss, t.kiss)
      && (Over(t, clock, s.token + 1) || (Waiting(t, clock) && t.token == s.token + 1))
      && (AllCalledBack(Contacted(s, clock, hosts), during, cs, s.token + 1) <==> Over(t, clock, s.token + 1) || AllAnswered(t, cs))
  {
    ProbeSends(s, clock, hosts, during, cs);
    ProbeUnfolds(s, clock, hosts, during);
    AfterIssueOk(Issue(Sketches(s, clock, hosts), clock, Contacted(s, clock, hosts), during, 0), clock, cs);
    hide Probe, Issue, Sketches, Contacted, AfterIssue, Over, Waiting, Sending, AllCalledBack, AllAnswered, BlocksKept;
  }

  lemma EndIssue(s: State, clock: nat -> Moment)
    requires InRound(s, clock, [])
    ensures InRound(s.(issuing := false), clock, [])
  {}

  /** Exactly-once delivery, for a transport that may call back before the send returns, twice,
      out of order, for older rounds, or not at all: after an accepted probe and any further
      callbacks, the outcome has been handed over exactly when every server that was contacted
      has called back at least once since its request was sent. */
  lemma ProbeDeliversExactly(s: State, clock: nat -> Moment, hosts: seq<Host>, during: seq<seq<Callback>>, cs: seq<Callback>)
    requires Valid(s, clock) && !s.inFlight
    ensures HasDelivered(HandleAll(Probe(s, clock, hosts, during), clock, cs).log, s.token + 1) <==>
            AllCalledBack(Contacted(s, clock, hosts), during, cs, s.token + 1)
  {
    var t := Probe(s, clock, hosts, during);
    ProbeBegins(s, clock, hosts, during, cs);
    hide Probe, Contacted, AllCalledBack, Valid, BlocksKept, HandleAll, Idle, Over, Waiting, AllAnswered, HasDelivered;
    DeliveredAfter(t, clock, s.token + 1, cs);
  }

  lemma DeliveredAfter(t: State, clock: nat -> Moment, token: nat, cs: seq<Callback>)
    requires Over(t, clock, token) || (Waiting(t, clock) && t.token == token)
    ensures HasDelivered(HandleAll(t, clock, cs).log, token) <==> Over(t, clock, token) || AllAnswered(t, cs)
  {
    if Over(t, clock, token) {
      OverIgnores(t, clock, token, cs);
    } else {
      RoundCompletesExactly(t, clock, cs);
      hide Waiting, AllAnswered, HandleAll, BlocksKept, Idle, HasDelivered;
      if !AllAnswered(t, cs) { WaitingUndelivered(HandleAll(t, clock, cs), clock); }
    }
  }

  lemma WaitingUndelivered(s: State, clock: nat -> Moment)
    requires Waiting(s, clock)
    ensures !HasDelivered(s.log, s.token)
  {
    hide Sound;
  }

  /** A callback changes nothing exactly when no round is in flight, its token is another
      round's, or its slot is not open. */
  lemma ForeignIgnoredExactly(s: State, clock: nat -> Moment, c: Callback)
    requires Valid(s, clock)
    ensures HandleExchange(s, clock, c) == s <==>
            !(s.inFlight && c.token == s.token && c.slot < |s.pending| && !s.pending[c.slot].settled)
  {
    NoneOpen(s.pending);
    if !Foreign(s, c) {
      assert HandleExchange(s, clock, c).readings > s.readings;
    }
  }

  // ----- whole runs -------------------------------------------------------------------------------

  lemma StepKept(s: State, clock: nat -> Moment, step: Step)
    requires Valid(s, clock)
    ensures Valid(Next(s, clock, step), clock) && BlocksKept(s.kiss, Next(s, clock, step).kiss)
  {
    match step
    case ProbeStep(hosts, during) =>
      if !s.inFlight {
        ProbeBegins(s, clock, hosts, during, []);
        hide Probe, Contacted, Idle, InRound;
      }
    case CallbackStep(c) =>
      if s.inFlight {
        WaitingOne(s, clock, c);
        hide HandleExchange, InRound, Idle;
      }
  }

  lemma {:induction false} RunKept(s: State, clock: nat -> Moment, steps: seq<Step>)
    requires Valid(s, clock)
    ensures Valid(Run(s, clock, steps), clock) && BlocksKept(s.kiss, Run(s, clock, steps).kiss)
    decreases |steps|
  {
    if steps != [] {
      hide Next, Valid;
      StepKept(s, clock, steps[0]);
      RunKept(Next(s, clock, steps[0]), clock, steps[1..]);
    }
  }

  lemma InitialValid(clock: nat -> Moment)
    ensures Valid(Initial(), clock)
  {}

  /** Kiss-o'-death safety over every run of probes and callbacks. Once a host answered DENY or
      RSTR no request is sent to it again; with a monotone steady clock no request follows a
      RATE of its host within one hour; and a block, once noted, is never overwritten. */
  lemma KodSafety(clock: nat -> Moment, steps: seq<Step>, more: seq<Step>)
    ensures var s := Run(Initial(), clock, steps);
      && NeverAgain(s.log)
      && (Monotone(clock) ==> BackedOff(s.log))
      && DeniesBlock(s.log, s.kiss)
      && BlocksKept(s.kiss, Run(s, clock, more).kiss)
  {
    InitialValid(clock);
    RunKept(Initial(), clock, steps);
    RunKept(Run(Initial(), clock, steps), clock, more);
    hide Run, BlocksKept, Aggregate;
  }

  /** Over every run, an outcome is handed over at most once per accepted probe, later probes'
      outcomes later, and each one is sound: its details are in final form and line up one to
      one with the distinct hosts that probe was given, and the aggregate is theirs. */
  lemma OutcomesSound(clock: nat -> Moment, steps: seq<Step>)
    ensures var s := Run(Initial(), clock, steps); Deliveries(s.log, s.token + 1) && Starts(s.log, s.token)
  {
    InitialValid(clock);
    RunKept(Initial(), clock, steps);
    hide Run, Sound;
  }

  // ----- what an outcome means ----------------------------------------------------------------------

  /** a has the shorter round trip, or the same and no greater bound. */
  predicate NoWorse(a: Detail, b: Detail) {
    && a.rttMs.Some? && b.rttMs.Some? && a.boundMs.Some? && b.boundMs.Some?
    && a.rttMs.value <= b.rttMs.value
    && (a.rttMs.value == b.rttMs.value ==> a.boundMs.value <= b.boundMs.value)
  }

  /** The aggregate takes the first of the servers with the least round trip, and of those the
      least bound; its three fields are all present, or all absent when no server was measured. */
  lemma AggregateMeaning(servers: seq<Detail>, finishedMs: int)
    requires forall i :: 0 <= i < |servers| ==> Final(servers[i])
    ensures forall i :: 0 <= i < |servers| ==> (Candidate(servers[i]) <==> servers[i].ok)
    ensures var o := Aggregate(servers, finishedMs);
      if exists i :: 0 <= i < |servers| && servers[i].ok then
        exists b :: 0 <= b < |servers| && servers[b].ok && Candidate(servers[b])
          && o.offsetMs == servers[b].offsetMs && o.boundMs == servers[b].boundMs
          && o.source == servers[b].host && o.sourceStratum == servers[b].stratum
          && o.offsetMs.Some? && o.boundMs.Some? && o.sourceStratum.Some?
          && (forall i :: 0 <= i < |servers| && Candidate(servers[i]) ==> NoWorse(servers[b], servers[i]))
          && (forall i :: 0 <= i < b && Candidate(servers[i]) ==> !NoWorse(servers[i], servers[b]))
      else o.offsetMs.None? && o.boundMs.None? && o.source == "" && o.sourceStratum.None?
  {
    BestIsFirstMinimum(servers, |servers|);
    assert forall i :: 0 <= i < |servers| ==> (Candidate(servers[i]) <==> servers[i].ok);
    var best := Best(servers, |servers|);
    if best.Some? {
      var b := best.value;
      assert servers[b].ok;
      hide Best;
      forall i | 0 <= i < |servers| && Candidate(servers[i]) ensures NoWorse(servers[b], servers[i]) {
        assert !Better(servers[i], servers[b]);
      }
      forall i | 0 <= i < b && Candidate(servers[i]) ensures !NoWorse(servers[i], servers[b]) {
        assert Better(servers[b], servers[i]);
      }
    }
  }

  /** A server counts as measured exactly when a datagram of at least 48 bytes arrived whose
      version is 3 or 4, whose mode is server, whose stratum is 1 to 15, whose origin bytes
      are the transmit bytes of the request, and whose times are consistent. */
  lemma MeasuredExactly(d: Detail, p: Pending, now: Moment, x: Exchange)
    ensures Judge(d, p, now, x).ok <==>
            && x.Received? && |x.packet| >= PACKET_SIZE
            && 3 <= Version(x.packet[0]) <= 4 && Mode(x.packet[0]) == MODE_SERVER
            && 1 <= x.packet[1] <= 15 && x.packet[24..32] == RequestBytes(p.t1)[40..48]
            && var processing := Difference(ReadTimestamp(x.packet, 40), ReadTimestamp(x.packet, 32));
               0 <= processing <= now.steady - p.steady
  {
    if x.Received? && |x.packet| >= PACKET_SIZE {
      UsableExactly(p.t1, x.packet);
      hide RequestBytes, ReadTimestamp, Difference, Version, Mode, FixedToNanos, FromUnixNanos, ToMs, KissOf, ReadBe32;
    }
  }

  /** The reasons of a failure, each exactly when it applies. */
  lemma FailureExactly(d: Detail, p: Pending, now: Moment, x: Exchange)
    ensures var e := Judge(d, p, now, x).error;
      && (e == Some(TimeoutError) <==> x.TimedOut?)
      && (e == Some(UnreachableError) <==> x.NotReached?)
      && (e == Some(KodRateError) <==> KissIn(p, x) == Rate)
      && (e == Some(KodDenyError) <==> KissIn(p, x) == Deny || KissIn(p, x) == Restrict)
  {
    hide Parse, Classify, KissOf, DeriveSample, ToMs;
  }
}
