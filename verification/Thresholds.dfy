/** The threshold evaluator: what one evaluation does to the table of subjects and what it
    logs, and the automaton of a single subject it is proved to run independently. Ratios are
    exact reals. */
module Thresholds {
  import opened Basics
  import opened TextOrder

  const MEMORY_USED := "memory_used"
  const SWAP_USED := "swap_used"
  const CPU_SATURATED := "cpu_saturated"
  const VOLUME_FREE := "volume_free"

  type Positive = n: nat | n > 0 witness 1

  datatype Volume = Volume(mount: string, total: Positive, free: nat)

  /** A ratio that is not a finite number arrives as None. */
  datatype Inputs = Inputs(memoryApplicable: bool, memoryRatio: Option<real>, swapApplicable: bool, swapRatio: Option<real>,
                           cpuApplicable: bool, coresReadable: bool, saturatedCores: seq<nat>,
                           volumesApplicable: bool, volumes: seq<Volume>, knownMounts: Option<seq<string>>,
                           unix: int, monotonic: int)

  datatype Config = Config(memoryPct: real, swapPct: real, volumeFreePct: real, repeatSec: int)

  datatype Frame = Frame(inputs: Inputs, config: Config)

  datatype SubjectState = SubjectState(active: bool, sinceUnix: int, since: int, milestone: int, scheduled: int)

  datatype LogState = Entered | Ongoing | Recovered

  datatype Level = Warn | Info

  datatype Record = Record(key: Key, state: LogState, level: Level, current: real, threshold: Option<real>,
                           activeSec: int, sinceUnix: int)

  type States = map<Key, SubjectState>

  function KeyOf(r: Record): Key { r.key }

  // ----- one subject ----------------------------------------------------------------------------

  /** What a frame says of one subject: it is gone, or it was really read. A frame that could
      not read it says nothing. */
  datatype Reading = Gone | Read(breached: bool, current: real, threshold: Option<real>)

  /** A reading with the two clocks and the repeat interval in milliseconds of its frame. */
  datatype Tick = Tick(reading: Reading, unix: int, monotonic: int, repeat: int)

  function RepeatDue(s: SubjectState, monotonic: int, repeat: int): (SubjectState, bool) {
    if repeat <= 0 then (s, false)
    else
      var milestone := TruncDiv(monotonic - s.since, repeat);
      if repeat != s.scheduled then (s.(scheduled := repeat, milestone := milestone), false)
      else if milestone <= s.milestone then (s, false)
      else (s.(milestone := milestone), true)
  }

  function MakeRecord(key: Key, state: LogState, r: Reading, activeSec: int, sinceUnix: int): Record
    requires r.Read?
  {
    Record(key, state, if state.Entered? then Warn else Info, r.current, r.threshold, activeSec, sinceUnix)
  }

  /** A subject's own automaton. */
  function Advance(st: Option<SubjectState>, key: Key, t: Tick): (Option<SubjectState>, seq<Record>) {
    var r := t.reading;
    if r.Gone? then (None, [])
    else if r.breached then
      if st.None? || !st.value.active then
        (Some(SubjectState(true, t.unix, t.monotonic, 0, t.repeat)), [MakeRecord(key, Entered, r, 0, t.unix)])
      else
        var (s, due) := RepeatDue(st.value, t.monotonic, t.repeat);
        (Some(s), if due then [MakeRecord(key, Ongoing, r, TruncDiv(t.monotonic - s.since, 1000), s.sinceUnix)] else [])
    else if st.Some? && st.value.active then
      (None, [MakeRecord(key, Recovered, r, TruncDiv(t.monotonic - st.value.since, 1000), st.value.sinceUnix)])
    else (None, [])
  }

  function AdvanceAll(st: Option<SubjectState>, key: Key, ts: seq<Tick>): (Option<SubjectState>, seq<Record>)
    decreases |ts|
  {
    if ts == [] then (st, [])
    else
      var (s, out) := Advance(st, key, ts[0]);
      var (r, rest) := AdvanceAll(s, key, ts[1..]);
      (r, out + rest)
  }

  // ----- the table of subjects ------------------------------------------------------------------

  function Lookup(states: States, key: Key): Option<SubjectState> { if key in states then Some(states[key]) else None }

  function Store(states: States, key: Key, s: Option<SubjectState>): States {
    if s.Some? then states[key := s.value] else states - {key}
  }

  function TickOf(f: Frame, r: Reading): Tick { Tick(r, f.inputs.unix, f.inputs.monotonic, f.config.repeatSec * 1000) }

  function Transition(states: States, key: Key, f: Frame, r: Reading): (States, seq<Record>) {
    var (s, out) := Advance(Lookup(states, key), key, TickOf(f, r));
    (Store(states, key, s), out)
  }

  function EraseKind(states: States, kind: string): States { map k | k in states && k.kind != kind :: states[k] }

  function EraseVanished(states: States, known: seq<string>): States {
    map k | k in states && !(k.kind == VOLUME_FREE && k.subject !in known) :: states[k]
  }

  predicate ValidRatio(ratio: Option<real>) { ratio.Some? && 0.0 <= ratio.value <= 1.0 }

  function UsageReading(ratio: real, pct: real): Reading { Read(ratio >= pct / 100.0, ratio, Some(pct / 100.0)) }

  function CpuReading(saturated: seq<nat>): Reading { Read(saturated != [], |saturated| as real, None) }

  function VolumeReading(v: Volume, pct: real): Reading {
    var ratio := v.free as real / v.total as real;
    Read(ratio < pct / 100.0, ratio, Some(pct / 100.0))
  }

  function EvaluateUsage(states: States, kind: string, applicable: bool, ratio: Option<real>, pct: real, f: Frame):
    (States, seq<Record>)
  {
    if !applicable then (EraseKind(states, kind), [])
    else if !ValidRatio(ratio) then (states, [])
    else Transition(states, Key(kind, ""), f, UsageReading(ratio.value, pct))
  }

  function EvaluateCpu(states: States, f: Frame): (States, seq<Record>) {
    if !f.inputs.cpuApplicable then (EraseKind(states, CPU_SATURATED), [])
    else if !f.inputs.coresReadable then (states, [])
    else Transition(states, Key(CPU_SATURATED, ""), f, CpuReading(f.inputs.saturatedCores))
  }

  function EvaluateEach(states: States, f: Frame, volumes: seq<Volume>): (States, seq<Record>)
    decreases |volumes|
  {
    if volumes == [] then (states, [])
    else
      var v := volumes[|volumes| - 1];
      var (s, out) := EvaluateEach(states, f, volumes[..|volumes| - 1]);
      if v.mount == "" then (s, out)
      else
        var (t, more) := Transition(s, Key(VOLUME_FREE, v.mount), f, VolumeReading(v, f.config.volumeFreePct));
        (t, out + more)
  }

  function EvaluateVolumes(states: States, f: Frame): (States, seq<Record>) {
    if !f.inputs.volumesApplicable then (EraseKind(states, VOLUME_FREE), [])
    else
      var known := f.inputs.knownMounts;
      EvaluateEach(if known.Some? then EraseVanished(states, known.value) else states, f, f.inputs.volumes)
  }

  /** The records in the order of evaluation, before they are sorted. */
  function EvaluateUnsorted(states: States, f: Frame): (States, seq<Record>) {
    var i, c := f.inputs, f.config;
    var (a, memory) := EvaluateUsage(states, MEMORY_USED, i.memoryApplicable, i.memoryRatio, c.memoryPct, f);
    var (b, swap) := EvaluateUsage(a, SWAP_USED, i.swapApplicable, i.swapRatio, c.swapPct, f);
    var (d, cpu) := EvaluateCpu(b, f);
    var (e, volumes) := EvaluateVolumes(d, f);
    (e, memory + swap + cpu + volumes)
  }

  function Evaluate(states: States, f: Frame): (States, seq<Record>) {
    var (s, out) := EvaluateUnsorted(states, f);
    (s, Sort(out, KeyOf))
  }

  function Run(states: States, frames: seq<Frame>): (States, seq<Record>)
    decreases |frames|
  {
    if frames == [] then (states, [])
    else
      var (s, out) := Evaluate(states, frames[0]);
      var (t, rest) := Run(s, frames[1..]);
      (t, out + rest)
  }

  // ----- what a frame says of one subject ---------------------------------------------------------

  function UsageSays(key: Key, applicable: bool, ratio: Option<real>, pct: real): seq<Reading> {
    if !applicable then [Gone]
    else if key.subject != "" || !ValidRatio(ratio) then []
    else [UsageReading(ratio.value, pct)]
  }

  function CpuSays(key: Key, i: Inputs): seq<Reading> {
    if !i.cpuApplicable then [Gone]
    else if key.subject != "" || !i.coresReadable then []
    else [CpuReading(i.saturatedCores)]
  }

  function VolumeReadings(mount: string, volumes: seq<Volume>, pct: real): seq<Reading> {
    if volumes == [] then []
    else
      var v := volumes[|volumes| - 1];
      VolumeReadings(mount, volumes[..|volumes| - 1], pct) + if v.mount == mount && mount != "" then [VolumeReading(v, pct)] else []
  }

  function VolumeSays(key: Key, f: Frame): seq<Reading> {
    var known := f.inputs.knownMounts;
    if !f.inputs.volumesApplicable then [Gone]
    else (if known.Some? && key.subject !in known.value then [Gone] else [])
         + VolumeReadings(key.subject, f.inputs.volumes, f.config.volumeFreePct)
  }

  /** The readings of one subject in one frame, which no other subject's facts enter. */
  function Says(f: Frame, key: Key): seq<Reading> {
    if key.kind == MEMORY_USED then UsageSays(key, f.inputs.memoryApplicable, f.inputs.memoryRatio, f.config.memoryPct)
    else if key.kind == SWAP_USED then UsageSays(key, f.inputs.swapApplicable, f.inputs.swapRatio, f.config.swapPct)
    else if key.kind == CPU_SATURATED then CpuSays(key, f.inputs)
    else if key.kind == VOLUME_FREE then VolumeSays(key, f)
    else []
  }

  function Ticks(f: Frame, rs: seq<Reading>): (ts: seq<Tick>)
    ensures |ts| == |rs| && forall i :: 0 <= i < |rs| ==> ts[i] == TickOf(f, rs[i])
  {
    seq(|rs|, i requires 0 <= i < |rs| => TickOf(f, rs[i]))
  }

  function AllTicks(frames: seq<Frame>, key: Key): seq<Tick> {
    if frames == [] then [] else Ticks(frames[0], Says(frames[0], key)) + AllTicks(frames[1..], key)
  }

  // ----- independence ------------------------------------------------------------------------------

  /** From one table to the next, this subject did what its own automaton does with these
      ticks, and its records are the automaton's. */
  ghost predicate Follows(before: States, after: States, out: seq<Record>, key: Key, ts: seq<Tick>) {
    AdvanceAll(Lookup(before, key), key, ts) == (Lookup(after, key), Filter(out, KeyOf, key))
  }

  lemma {:induction false} AdvanceConcat(st: Option<SubjectState>, key: Key, a: seq<Tick>, b: seq<Tick>)
    ensures var (s, out) := AdvanceAll(st, key, a);
      var (t, more) := AdvanceAll(s, key, b);
      AdvanceAll(st, key, a + b) == (t, out + more)
    decreases |a|
  {
    if a == [] {
      assert a + b == b;
      var more := AdvanceAll(st, key, b).1;
      assert [] + more == more;
    } else {
      assert (a + b)[1..] == a[1..] + b;
      AdvanceConcat(Advance(st, key, a[0]).0, key, a[1..], b);
      var out, rest := Advance(st, key, a[0]).1, AdvanceAll(Advance(st, key, a[0]).0, key, a[1..]).1;
      var more := AdvanceAll(AdvanceAll(st, key, a).0, key, b).1;
      assert out + (rest + more) == (out + rest) + more;
      hide Advance;
    }
  }

  lemma FollowsTrans(a: States, b: States, c: States, out: seq<Record>, more: seq<Record>, key: Key, ts: seq<Tick>, us: seq<Tick>)
    requires Follows(a, b, out, key, ts) && Follows(b, c, more, key, us)
    ensures Follows(a, c, out + more, key, ts + us)
  {
    AdvanceConcat(Lookup(a, key), key, ts, us);
    FilterConcat(out, more, KeyOf, key);
  }

  lemma TransitionFollows(states: States, k: Key, f: Frame, r: Reading, key: Key)
    ensures var (s, out) := Transition(states, k, f, r); Follows(states, s, out, key, if k == key then [TickOf(f, r)] else [])
  {
    AdvanceEmits(Lookup(states, k), k, TickOf(f, r));
    var (s, out) := Advance(Lookup(states, k), k, TickOf(f, r));
    hide Advance, Filter;
    if k == key { AdvanceOne(Lookup(states, key), key, TickOf(f, r)); }
    if out == [] { FilterNone(key); } else { FilterOne(out[0], key); }
  }

  lemma AdvanceEmits(st: Option<SubjectState>, key: Key, t: Tick)
    ensures var out := Advance(st, key, t).1; out == [] || (out == [out[0]] && out[0].key == key)
  {
    hide RepeatDue;
  }

  lemma FilterNone(key: Key)
    ensures Filter([], KeyOf, key) == []
  {}

  lemma FilterOne(x: Record, key: Key)
    ensures Filter([x], KeyOf, key) == if x.key == key then [x] else []
  {
    assert [x][..0] == [];
  }

  lemma AdvanceOne(st: Option<SubjectState>, key: Key, t: Tick)
    ensures AdvanceAll(st, key, [t]) == Advance(st, key, t)
  {
    hide Advance;
    assert [t][1..] == [];
    assert AdvanceAll(Advance(st, key, t).0, key, []) == (Advance(st, key, t).0, []);
    assert Advance(st, key, t).1 + [] == Advance(st, key, t).1;
  }

  lemma GoneFollows(states: States, s: States, key: Key, f: Frame, gone: bool)
    requires Lookup(s, key) == if gone then None else Lookup(states, key)
    ensures Follows(states, s, [], key, Ticks(f, if gone then [Gone] else []))
  {
    if gone {
      AdvanceOne(Lookup(states, key), key, TickOf(f, Gone));
      assert Ticks(f, [Gone]) == [TickOf(f, Gone)];
    }
  }

  lemma UsageFollows(states: States, kind: string, applicable: bool, ratio: Option<real>, pct: real, f: Frame, key: Key)
    ensures var (s, out) := EvaluateUsage(states, kind, applicable, ratio, pct, f);
      Follows(states, s, out, key, Ticks(f, if key.kind == kind then UsageSays(key, applicable, ratio, pct) else []))
  {
    if !applicable {
      GoneFollows(states, EraseKind(states, kind), key, f, key.kind == kind);
    } else if ValidRatio(ratio) {
      TransitionFollows(states, Key(kind, ""), f, UsageReading(ratio.value, pct), key);
      var rs := if key == Key(kind, "") then [UsageReading(ratio.value, pct)] else [];
      assert Ticks(f, rs) == if Key(kind, "") == key then [TickOf(f, UsageReading(ratio.value, pct))] else [];
      hide Transition, Follows, UsageReading;
    }
  }

  lemma CpuFollows(states: States, f: Frame, key: Key)
    ensures var (s, out) := EvaluateCpu(states, f);
      Follows(states, s, out, key, Ticks(f, if key.kind == CPU_SATURATED then CpuSays(key, f.inputs) else []))
  {
    if !f.inputs.cpuApplicable {
      GoneFollows(states, EraseKind(states, CPU_SATURATED), key, f, key.kind == CPU_SATURATED);
    } else if f.inputs.coresReadable {
      var r := CpuReading(f.inputs.saturatedCores);
      TransitionFollows(states, Key(CPU_SATURATED, ""), f, r, key);
      var rs := if key == Key(CPU_SATURATED, "") then [r] else [];
      assert Ticks(f, rs) == if Key(CPU_SATURATED, "") == key then [TickOf(f, r)] else [];
      hide Transition, Follows, CpuReading;
    }
  }

  lemma {:induction false} EachFollows(states: States, f: Frame, volumes: seq<Volume>, key: Key)
    ensures var (s, out) := EvaluateEach(states, f, volumes);
      var rs := if key.kind == VOLUME_FREE then VolumeReadings(key.subject, volumes, f.config.volumeFreePct) else [];
      Follows(states, s, out, key, Ticks(f, rs))
    decreases |volumes|
  {
    if volumes != [] {
      var front, v := volumes[..|volumes| - 1], volumes[|volumes| - 1];
      var pct := f.config.volumeFreePct;
      EachFollows(states, f, front, key);
      var rs := if key.kind == VOLUME_FREE then VolumeReadings(key.subject, front, pct) else [];
      if v.mount != "" {
        var (s, out) := EvaluateEach(states, f, front);
        var k, r := Key(VOLUME_FREE, v.mount), VolumeReading(v, pct);
        TransitionFollows(s, k, f, r, key);
        var (t, more) := Transition(s, k, f, r);
        var last := if k == key then [r] else [];
        assert Ticks(f, rs + last) == Ticks(f, rs) + if k == key then [TickOf(f, r)] else [];
        hide Transition, Follows, VolumeReading, Ticks;
        FollowsTrans(states, s, t, out, more, key, Ticks(f, rs), if k == key then [TickOf(f, r)] else []);
      } else {
        assert rs + [] == rs;
      }
    }
  }

  lemma VolumesFollow(states: States, f: Frame, key: Key)
    ensures var (s, out) := EvaluateVolumes(states, f);
      Follows(states, s, out, key, Ticks(f, if key.kind == VOLUME_FREE then VolumeSays(key, f) else []))
  {
    var known := f.inputs.knownMounts;
    if !f.inputs.volumesApplicable {
      GoneFollows(states, EraseKind(states, VOLUME_FREE), key, f, key.kind == VOLUME_FREE);
    } else {
      var e := if known.Some? then EraseVanished(states, known.value) else states;
      var gone := known.Some? && key.kind == VOLUME_FREE && key.subject !in known.value;
      GoneFollows(states, e, key, f, gone);
      EachFollows(e, f, f.inputs.volumes, key);
      hide Follows, EvaluateEach, VolumeReadings, EraseVanished, Ticks;
      VanishedThenRead(states, e, key, f, gone);
    }
  }

  lemma VanishedThenRead(states: States, e: States, key: Key, f: Frame, gone: bool)
    requires Follows(states, e, [], key, Ticks(f, if gone then [Gone] else []))
    requires var rs := if key.kind == VOLUME_FREE then VolumeReadings(key.subject, f.inputs.volumes, f.config.volumeFreePct) else [];
      var (s, out) := EvaluateEach(e, f, f.inputs.volumes);
      Follows(e, s, out, key, Ticks(f, rs))
    ensures var rs := if key.kind == VOLUME_FREE then VolumeReadings(key.subject, f.inputs.volumes, f.config.volumeFreePct) else [];
      var (s, out) := EvaluateEach(e, f, f.inputs.volumes);
      Follows(states, s, out, key, Ticks(f, (if gone then [Gone] else []) + rs))
  {
    var (s, out) := EvaluateEach(e, f, f.inputs.volumes);
    var first := if gone then [Gone] else [];
    var rs := if key.kind == VOLUME_FREE then VolumeReadings(key.subject, f.inputs.volumes, f.config.volumeFreePct) else [];
    hide Follows, EvaluateEach, VolumeReadings;
    FollowsTrans(states, e, s, [], out, key, Ticks(f, first), Ticks(f, rs));
    assert [] + out == out;
    assert Ticks(f, first + rs) == Ticks(f, first) + Ticks(f, rs);
  }

  lemma EvaluateFollows(states: States, f: Frame, key: Key)
    ensures var (s, out) := Evaluate(states, f); Follows(states, s, out, key, Ticks(f, Says(f, key)))
  {
    var i, c := f.inputs, f.config;
    var (a, memory) := EvaluateUsage(states, MEMORY_USED, i.memoryApplicable, i.memoryRatio, c.memoryPct, f);
    var (b, swap) := EvaluateUsage(a, SWAP_USED, i.swapApplicable, i.swapRatio, c.swapPct, f);
    var (d, cpu) := EvaluateCpu(b, f);
    var (e, volumes) := EvaluateVolumes(d, f);
    UsageFollows(states, MEMORY_USED, i.memoryApplicable, i.memoryRatio, c.memoryPct, f, key);
    UsageFollows(a, SWAP_USED, i.swapApplicable, i.swapRatio, c.swapPct, f, key);
    CpuFollows(b, f, key);
    VolumesFollow(d, f, key);
    hide EvaluateUsage, EvaluateCpu, EvaluateVolumes, Follows;
    var ta := Ticks(f, if key.kind == MEMORY_USED then UsageSays(key, i.memoryApplicable, i.memoryRatio, c.memoryPct) else []);
    var tb := Ticks(f, if key.kind == SWAP_USED then UsageSays(key, i.swapApplicable, i.swapRatio, c.swapPct) else []);
    var tc := Ticks(f, if key.kind == CPU_SATURATED then CpuSays(key, i) else []);
    var tv := Ticks(f, if key.kind == VOLUME_FREE then VolumeSays(key, f) else []);
    FollowsTrans(states, a, b, memory, swap, key, ta, tb);
    FollowsTrans(states, b, d, memory + swap, cpu, key, ta + tb, tc);
    FollowsTrans(states, d, e, memory + swap + cpu, volumes, key, ta + tb + tc, tv);
    KindsDiffer();
    hide UsageSays, CpuSays, VolumeSays;
    assert ta + tb + tc + tv == Ticks(f, Says(f, key));
    SortedFollows(states, e, memory + swap + cpu + volumes, key, Ticks(f, Says(f, key)));
  }

  lemma KindsDiffer()
    ensures MEMORY_USED != SWAP_USED && MEMORY_USED != CPU_SATURATED && MEMORY_USED != VOLUME_FREE
    ensures SWAP_USED != CPU_SATURATED && SWAP_USED != VOLUME_FREE && CPU_SATURATED != VOLUME_FREE
  {
    assert MEMORY_USED[0] == 'm' && SWAP_USED[0] == 's' && CPU_SATURATED[0] == 'c' && VOLUME_FREE[0] == 'v';
  }

  lemma SortedFollows(before: States, after: States, out: seq<Record>, key: Key, ts: seq<Tick>)
    requires Follows(before, after, out, key, ts)
    ensures Follows(before, after, Sort(out, KeyOf), key, ts)
  {
    SortIsStable(out, KeyOf, key);
    hide Filter, Sort;
  }

  /** Over every run, a subject's records are those of its own automaton on its own readings:
      nothing about another subject, and nothing about the order of evaluation, enters. */
  lemma {:induction false} SubjectsAreIndependent(states: States, frames: seq<Frame>, key: Key)
    ensures var (s, out) := Run(states, frames); Follows(states, s, out, key, AllTicks(frames, key))
    decreases |frames|
  {
    if frames != [] {
      var (s, out) := Evaluate(states, frames[0]);
      var (t, rest) := Run(s, frames[1..]);
      EvaluateFollows(states, frames[0], key);
      SubjectsAreIndependent(s, frames[1..], key);
      hide Evaluate, Follows;
      FollowsTrans(states, s, t, out, rest, key, Ticks(frames[0], Says(frames[0], key)), AllTicks(frames[1..], key));
    }
  }
}
