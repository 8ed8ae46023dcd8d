/** What the automaton of one subject logs, told from its history alone: when it enters, when
    it recovers, and when a breach that lasts is logged again. */
module ThresholdHistory {
  import opened Basics
  import opened TextOrder
  import opened Thresholds

  predicate Breach(t: Tick) { t.reading.Read? && t.reading.breached }

  /** A subject is in an active period exactly when its last reading was a breach. */
  predicate Active(ts: seq<Tick>) { ts != [] && Breach(ts[|ts| - 1]) }

  ghost predicate InOrder(ts: seq<Tick>) { forall i, j :: 0 <= i < j < |ts| ==> ts[i].monotonic <= ts[j].monotonic }

  /** The tick the active period began with. */
  function Entry(ts: seq<Tick>): Tick
    requires ts != []
  {
    if Active(Front(ts)) then Entry(Front(ts)) else Last(ts)
  }

  /** The last breach since the entry that had a repeat interval, or else the entry. */
  function Anchor(ts: seq<Tick>): Tick
    requires ts != []
  {
    if !Active(Front(ts)) || Last(ts).repeat > 0 then Last(ts) else Anchor(Front(ts))
  }

  function StateAfter(key: Key, ts: seq<Tick>): Option<SubjectState> { AdvanceAll(None, key, ts).0 }

  /** The records of the last tick. */
  function Emitted(key: Key, ts: seq<Tick>): seq<Record>
    requires ts != []
  {
    Advance(StateAfter(key, Front(ts)), key, Last(ts)).1
  }

  lemma StateAfterLast(key: Key, ts: seq<Tick>)
    requires ts != []
    ensures StateAfter(key, ts) == Advance(StateAfter(key, Front(ts)), key, Last(ts)).0
    ensures AdvanceAll(None, key, ts).1 == AdvanceAll(None, key, Front(ts)).1 + Emitted(key, ts)
  {
    AdvanceConcat(None, key, Front(ts), [Last(ts)]);
    AdvanceOne(StateAfter(key, Front(ts)), key, Last(ts));
    assert Front(ts) + [Last(ts)] == ts;
    hide Advance;
  }

  // ----- milestones --------------------------------------------------------------------------------

  /** The point since + n times interval lies after one time and not after the other. */
  predicate Falls(n: int, since: int, interval: int, after: int, until: int) {
    after < since + n * interval && since + n * interval <= until
  }

  ghost predicate MilestoneIn(since: int, interval: int, after: int, until: int) {
    exists n :: n >= 1 && Falls(n, since, interval, after, until)
  }

  lemma QuotientsStep(since: int, interval: int, after: int, until: int)
    requires since <= after <= until && interval > 0
    ensures MilestoneIn(since, interval, after, until) <==> (until - since) / interval > (after - since) / interval
    ensures (until - since) / interval >= (after - since) / interval >= 0
  {
    var a, b := (after - since) / interval, (until - since) / interval;
    Quotient(after - since, interval);
    Quotient(until - since, interval);
    if b > a {
      Ordered(a + 1, b, interval);
      assert Falls(b, since, interval, after, until);
    }
    if b < a { Ordered(b + 1, a, interval); }
    if MilestoneIn(since, interval, after, until) {
      var n :| n >= 1 && Falls(n, since, interval, after, until);
      if n <= a { Ordered(n, a, interval); }
      if b + 1 <= n { Ordered(b + 1, n, interval); }
    }
    if a < 0 { Ordered(a + 1, 0, interval); }
  }

  lemma Quotient(x: int, d: int)
    requires d > 0
    ensures x / d * d <= x < (x / d + 1) * d
  {}

  lemma Ordered(a: int, b: int, d: int)
    requires a <= b && d > 0
    ensures a * d <= b * d
  {}

  // ----- the state -----------------------------------------------------------------------------------

  /** The state keeps the entry's times, the anchor's interval, and the number of whole
      intervals from the entry to the anchor. */
  ghost predicate Remembers(st: Option<SubjectState>, ts: seq<Tick>) {
    if !Active(ts) then st.None?
    else
      && st.Some? && st.value.active
      && st.value.since == Entry(ts).monotonic && st.value.sinceUnix == Entry(ts).unix
      && st.value.since <= Anchor(ts).monotonic <= Last(ts).monotonic
      && st.value.scheduled == Anchor(ts).repeat
      && (st.value.scheduled > 0 ==> st.value.milestone == (Anchor(ts).monotonic - st.value.since) / st.value.scheduled)
  }

  lemma RemembersStep(st: Option<SubjectState>, key: Key, ts: seq<Tick>)
    requires ts != [] && InOrder(ts) && Remembers(st, Front(ts))
    ensures Remembers(Advance(st, key, Last(ts)).0, ts)
  {
    var t := Last(ts);
    if Active(ts) && Active(Front(ts)) {
      var s := st.value;
      assert Last(Front(ts)).monotonic <= t.monotonic;
      if t.repeat > 0 {
        hide Active, Entry, Anchor, MakeRecord;
        if t.repeat == s.scheduled { QuotientsStep(s.since, t.repeat, Anchor(Front(ts)).monotonic, t.monotonic); }
      }
    }
  }

  lemma {:induction false} StateRemembers(key: Key, ts: seq<Tick>)
    requires InOrder(ts)
    ensures Remembers(StateAfter(key, ts), ts)
  {
    if ts != [] {
      StateRemembers(key, Front(ts));
      StateAfterLast(key, ts);
      hide Advance;
      RemembersStep(StateAfter(key, Front(ts)), key, ts);
    }
  }

  // ----- what is logged ---------------------------------------------------------------------------------

  /** A lasting breach is logged again when its interval is the anchor's and one of the points
      entry + n times interval lies after the anchor and not after now. */
  ghost predicate LoggedAgain(ts: seq<Tick>)
    requires ts != [] && Front(ts) != []
  {
    var a, t := Anchor(Front(ts)), Last(ts);
    t.repeat > 0 && t.repeat == a.repeat && MilestoneIn(Entry(ts).monotonic, t.repeat, a.monotonic, t.monotonic)
  }

  /** Seconds since the entry. */
  function Lasted(ts: seq<Tick>): int
    requires ts != [] && Front(ts) != []
  {
    TruncDiv(Last(ts).monotonic - Entry(Front(ts)).monotonic, 1000)
  }

  /** For a monotone clock and any intervals, the records of every tick from the history alone:
      Entered on the first breach after anything else; Recovered only on a reading on the good
      side that follows a breach; Ongoing exactly at a milestone; nothing when the subject is
      gone, however long it had been active. */
  lemma LogMeaning(key: Key, ts: seq<Tick>)
    requires ts != [] && InOrder(ts)
    ensures var t, before := Last(ts), Active(Front(ts));
      Emitted(key, ts) ==
        if t.reading.Gone? then []
        else if t.reading.breached && !before then [MakeRecord(key, Entered, t.reading, 0, t.unix)]
        else if t.reading.breached && LoggedAgain(ts) then [MakeRecord(key, Ongoing, t.reading, Lasted(ts), Entry(Front(ts)).unix)]
        else if t.reading.breached then []
        else if before then [MakeRecord(key, Recovered, t.reading, Lasted(ts), Entry(Front(ts)).unix)]
        else []
  {
    StateRemembers(key, Front(ts));
    hide StateAfter, MakeRecord;
    var t := Last(ts);
    if Active(Front(ts)) && t.reading.Read? && t.reading.breached {
      var s := StateAfter(key, Front(ts)).value;
      assert Entry(ts) == Entry(Front(ts)) && Last(Front(ts)).monotonic <= t.monotonic;
      hide Entry, Anchor;
      if t.repeat > 0 && t.repeat == s.scheduled { QuotientsStep(s.since, t.repeat, Anchor(Front(ts)).monotonic, t.monotonic); }
    }
  }

  /** The first breach with a new interval is silent, and the points that count from then on
      are multiples of the new interval. */
  lemma NewIntervalRealigns(key: Key, ts: seq<Tick>)
    requires ts != [] && InOrder(ts) && Active(ts) && Active(Front(ts))
    requires Last(ts).repeat > 0 && Last(ts).repeat != Anchor(Front(ts)).repeat
    ensures Emitted(key, ts) == [] && Anchor(ts) == Last(ts)
  {
    LogMeaning(key, ts);
    hide Emitted, MakeRecord;
  }

  // ----- no drift -----------------------------------------------------------------------------------------

  /** How often the current active period was logged again. */
  function Repeats(key: Key, ts: seq<Tick>): nat {
    if !Active(ts) || !Active(Front(ts)) then 0
    else Repeats(key, Front(ts)) + |Emitted(key, ts)|
  }

  /** With one interval throughout, by any time at most as many repeats were logged as whole
      intervals have passed since the entry. */
  lemma {:induction false} RepeatsNeverDrift(key: Key, ts: seq<Tick>, interval: int)
    requires InOrder(ts) && interval > 0 && forall i :: 0 <= i < |ts| ==> ts[i].repeat == interval
    requires Active(ts)
    ensures Entry(ts).monotonic <= Last(ts).monotonic
    ensures Repeats(key, ts) <= (Last(ts).monotonic - Entry(ts).monotonic) / interval
  {
    StateRemembers(key, ts);
    if Active(Front(ts)) {
      RepeatsNeverDrift(key, Front(ts), interval);
      StateRemembers(key, Front(ts));
      LogMeaning(key, ts);
      assert Anchor(Front(ts)) == Last(Front(ts)) && Anchor(Front(ts)).repeat == interval;
      assert Last(Front(ts)).monotonic <= Last(ts).monotonic;
      hide StateAfter, MakeRecord, Emitted;
      QuotientsStep(Entry(ts).monotonic, interval, Last(Front(ts)).monotonic, Last(ts).monotonic);
    }
  }

  // ----- whole runs -----------------------------------------------------------------------------------------

  /** The records of every tick, in order. */
  function History(key: Key, ts: seq<Tick>): seq<Record> {
    if ts == [] then [] else History(key, Front(ts)) + Emitted(key, ts)
  }

  lemma {:induction false} HistoryIsRun(key: Key, ts: seq<Tick>)
    ensures AdvanceAll(None, key, ts).1 == History(key, ts)
  {
    if ts != [] {
      HistoryIsRun(key, Front(ts));
      StateAfterLast(key, ts);
      hide Emitted;
    }
  }

  /** Over every run of the evaluator from an empty table, the records of a subject are the
      history of its own readings. */
  lemma RecordsAreHistory(frames: seq<Frame>, key: Key)
    ensures Filter(Run(map[], frames).1, KeyOf, key) == History(key, AllTicks(frames, key))
  {
    SubjectsAreIndependent(map[], frames, key);
    HistoryIsRun(key, AllTicks(frames, key));
    hide Run, AllTicks, History, AdvanceAll;
  }
}
