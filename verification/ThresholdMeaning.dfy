/** What counts as a breach, in the quantities of a frame, and the records one frame yields. */
module ThresholdMeaning {
  import opened Basics
  import opened TextOrder
  import opened Thresholds
  import opened ThresholdHistory

  /** A breach or a good reading, the value it shows, and the limit in percent it is shown with. */
  ghost predicate IsReading(r: Reading, breached: bool, current: real, percent: Option<real>) {
    && r.Read? && r.breached == breached && r.current == current
    && r.threshold.Some? == percent.Some?
    && (percent.Some? ==> 100.0 * r.threshold.value == percent.value)
  }

  // ----- one frame, one subject -------------------------------------------------------------------

  /** The reading of a usage ratio: a breach exactly at or above so many percent; nothing when the
      ratio is absent or not a share; gone when the subject does not apply. */
  ghost predicate UsageMeans(rs: seq<Reading>, applicable: bool, ratio: Option<real>, percent: real) {
    if !applicable then rs == [Gone]
    else if ratio.None? || ratio.value < 0.0 || ratio.value > 1.0 then rs == []
    else |rs| == 1 && IsReading(rs[0], 100.0 * ratio.value >= percent, ratio.value, Some(percent))
  }

  lemma UsageBreach(f: Frame)
    ensures UsageMeans(Says(f, Key("memory_used", "")), f.inputs.memoryApplicable, f.inputs.memoryRatio, f.config.memoryPct)
    ensures UsageMeans(Says(f, Key("swap_used", "")), f.inputs.swapApplicable, f.inputs.swapRatio, f.config.swapPct)
  {
    KindsDiffer();
    hide CpuSays, VolumeSays;
  }

  /** The processor breaches exactly when some core is saturated, and shows how many are. */
  lemma CpuBreach(f: Frame)
    ensures var rs, i := Says(f, Key("cpu_saturated", "")), f.inputs;
      if !i.cpuApplicable then rs == [Gone]
      else if !i.coresReadable then rs == []
      else |rs| == 1 && IsReading(rs[0], |i.saturatedCores| > 0, |i.saturatedCores| as real, None)
  {
    KindsDiffer();
    hide UsageSays, VolumeSays;
  }

  lemma {:induction false} OneVolume(volumes: seq<Volume>, j: nat, pct: real)
    requires j < |volumes| && volumes[j].mount != ""
    requires forall i :: 0 <= i < |volumes| && i != j ==> volumes[i].mount != volumes[j].mount
    ensures VolumeReadings(volumes[j].mount, volumes, pct) == [VolumeReading(volumes[j], pct)]
    decreases |volumes|
  {
    var n := |volumes| - 1;
    hide VolumeReading;
    if j < n {
      OneVolume(volumes[..n], j, pct);
    } else {
      NoVolume(volumes[..n], volumes[j].mount, pct);
    }
  }

  lemma {:induction false} NoVolume(volumes: seq<Volume>, mount: string, pct: real)
    requires forall i :: 0 <= i < |volumes| ==> volumes[i].mount != mount
    ensures VolumeReadings(mount, volumes, pct) == []
  {
    if volumes != [] { NoVolume(volumes[..|volumes| - 1], mount, pct); }
  }

  /** Less than so many percent of the volume are free. */
  predicate TooFull(v: Volume, percent: real) { 100.0 * v.free as real < percent * v.total as real }

  function FreeShare(v: Volume): real { v.free as real / v.total as real }

  lemma ShareBelow(v: Volume, pct: real)
    ensures IsReading(VolumeReading(v, pct), TooFull(v, pct), FreeShare(v), Some(pct))
  {
    var ratio, total := v.free as real / v.total as real, v.total as real;
    assert ratio * total == v.free as real;
    Scale(ratio, pct / 100.0, total);
    assert pct / 100.0 * total * 100.0 == pct * total;
  }

  lemma Scale(a: real, b: real, c: real)
    requires c > 0.0
    ensures a < b <==> a * c < b * c
  {}

  /** Gone first when the mount is not among the known ones. */
  function VanishedFirst(i: Inputs, mount: string): seq<Reading> {
    if i.knownMounts.Some? && mount !in i.knownMounts.value then [Gone] else []
  }

  /** A volume that was read breaches exactly when less than so many percent of it are free. */
  lemma VolumeBreach(f: Frame, j: nat)
    requires forall i, k :: 0 <= i < k < |f.inputs.volumes| ==> f.inputs.volumes[i].mount != f.inputs.volumes[k].mount
    requires j < |f.inputs.volumes| && f.inputs.volumes[j].mount != ""
    ensures var v, i := f.inputs.volumes[j], f.inputs;
      var rs, gone := Says(f, Key("volume_free", v.mount)), VanishedFirst(i, v.mount);
      if !i.volumesApplicable then rs == [Gone]
      else
        && |rs| == |gone| + 1 && rs[..|gone|] == gone
        && IsReading(rs[|gone|], TooFull(v, f.config.volumeFreePct), FreeShare(v), Some(f.config.volumeFreePct))
  {
    KindsDiffer();
    OneVolume(f.inputs.volumes, j, f.config.volumeFreePct);
    ShareBelow(f.inputs.volumes[j], f.config.volumeFreePct);
    hide UsageSays, CpuSays, VolumeReading, VolumeReadings, IsReading, TooFull, FreeShare;
  }

  /** A volume that was not read says nothing, or that it is gone if it is not known any more. */
  lemma VolumeUnread(f: Frame, mount: string)
    requires forall i :: 0 <= i < |f.inputs.volumes| ==> f.inputs.volumes[i].mount != mount
    ensures Says(f, Key("volume_free", mount)) == if !f.inputs.volumesApplicable then [Gone] else VanishedFirst(f.inputs, mount)
  {
    KindsDiffer();
    NoVolume(f.inputs.volumes, mount, f.config.volumeFreePct);
    hide UsageSays, CpuSays, VolumeReadings;
  }

  // ----- the records of one frame -----------------------------------------------------------------

  /** The fields of a record: a warning when a breach begins, information otherwise. */
  lemma RecordFields(key: Key, state: LogState, r: Reading, activeSec: int, sinceUnix: int)
    requires r.Read?
    ensures var x := MakeRecord(key, state, r, activeSec, sinceUnix);
      && x.key == key && x.state == state && (x.level == Warn <==> state == Entered)
      && x.current == r.current && x.threshold == r.threshold && x.activeSec == activeSec && x.sinceUnix == sinceUnix
  {}

  /** A frame's readings carry its two clocks, and its repeat interval in milliseconds. */
  lemma TickFields(f: Frame, key: Key, i: nat)
    requires i < |Says(f, key)|
    ensures Ticks(f, Says(f, key))[i] == Tick(Says(f, key)[i], f.inputs.unix, f.inputs.monotonic, 1000 * f.config.repeatSec)
  {
    hide Says;
  }

  /** Whether the subject is in an active period. */
  predicate InBreach(states: States, key: Key) { key in states && states[key].active }

  /** What one frame logs of a subject it reads once, from any table: a breach that begins is
      logged with its reading, zero seconds and now as its beginning; a good reading that ends a
      breach is logged with the whole seconds since its beginning; a breach that goes on is at
      most repeated, and a good reading after a good one is not logged. */
  lemma FrameRecords(states: States, f: Frame, key: Key)
    requires |Says(f, key)| == 1 && Says(f, key)[0].Read?
    ensures var r, out := Says(f, key)[0], Filter(Evaluate(states, f).1, KeyOf, key);
      && (r.breached && !InBreach(states, key) ==> out == [Record(key, Entered, Warn, r.current, r.threshold, 0, f.inputs.unix)])
      && (!r.breached && InBreach(states, key) ==>
           out == [Record(key, Recovered, Info, r.current, r.threshold,
                          TruncDiv(f.inputs.monotonic - states[key].since, 1000), states[key].sinceUnix)])
      && (r.breached && InBreach(states, key) ==> |out| <= 1 && forall x :: x in out ==> x.state == Ongoing)
      && (!r.breached && !InBreach(states, key) ==> out == [])
  {
    EvaluateFollows(states, f, key);
    hide Evaluate, Says, Filter, RepeatDue;
    var t := TickOf(f, Says(f, key)[0]);
    assert Ticks(f, Says(f, key)) == [t];
    AdvanceOne(Lookup(states, key), key, t);
    hide AdvanceAll, Ticks;
    AdvanceRecords(Lookup(states, key), key, t);
    hide Advance;
  }

  lemma AdvanceRecords(st: Option<SubjectState>, key: Key, t: Tick)
    requires t.reading.Read?
    ensures var r, out, active := t.reading, Advance(st, key, t).1, st.Some? && st.value.active;
      && (r.breached && !active ==> out == [Record(key, Entered, Warn, r.current, r.threshold, 0, t.unix)])
      && (!r.breached && active ==>
           out == [Record(key, Recovered, Info, r.current, r.threshold, TruncDiv(t.monotonic - st.value.since, 1000), st.value.sinceUnix)])
      && (r.breached && active ==> |out| <= 1 && forall x :: x in out ==> x.state == Ongoing)
      && (!r.breached && !active ==> out == [])
  {
    hide RepeatDue;
  }

  /** From an empty table, memory enters exactly when it is judged, readable, and at or above its
      percentage. */
  lemma MemoryEntersExactly(f: Frame)
    ensures var i, key := f.inputs, Key("memory_used", "");
      var out := Filter(Evaluate(map[], f).1, KeyOf, key);
      if i.memoryApplicable && i.memoryRatio.Some? && 0.0 <= i.memoryRatio.value <= 1.0 && 100.0 * i.memoryRatio.value >= f.config.memoryPct
      then |out| == 1 && Enters(out[0], key, i.memoryRatio.value, Some(f.config.memoryPct), i.unix)
      else out == []
  {
    UsageBreach(f);
    FirstFrame(f, Key("memory_used", ""));
    hide Evaluate, Says, Filter;
  }

  lemma SwapEntersExactly(f: Frame)
    ensures var i, key := f.inputs, Key("swap_used", "");
      var out := Filter(Evaluate(map[], f).1, KeyOf, key);
      if i.swapApplicable && i.swapRatio.Some? && 0.0 <= i.swapRatio.value <= 1.0 && 100.0 * i.swapRatio.value >= f.config.swapPct
      then |out| == 1 && Enters(out[0], key, i.swapRatio.value, Some(f.config.swapPct), i.unix)
      else out == []
  {
    UsageBreach(f);
    FirstFrame(f, Key("swap_used", ""));
    hide Evaluate, Says, Filter;
  }

  /** The processor enters exactly when it is judged, some core is readable and some is
      saturated. */
  lemma CpuEntersExactly(f: Frame)
    ensures var i, key := f.inputs, Key("cpu_saturated", "");
      var out := Filter(Evaluate(map[], f).1, KeyOf, key);
      if i.cpuApplicable && i.coresReadable && i.saturatedCores != []
      then |out| == 1 && Enters(out[0], key, |i.saturatedCores| as real, None, i.unix)
      else out == []
  {
    CpuBreach(f);
    FirstFrame(f, Key("cpu_saturated", ""));
    hide Evaluate, Says, Filter;
  }

  /** A volume enters exactly when volumes are judged, it was read, and less than the percentage
      of it is free. */
  lemma VolumeEntersExactly(f: Frame, j: nat)
    requires forall i, k :: 0 <= i < k < |f.inputs.volumes| ==> f.inputs.volumes[i].mount != f.inputs.volumes[k].mount
    requires j < |f.inputs.volumes| && f.inputs.volumes[j].mount != ""
    ensures var v := f.inputs.volumes[j];
      var key := Key("volume_free", v.mount);
      var out := Filter(Evaluate(map[], f).1, KeyOf, key);
      if f.inputs.volumesApplicable && TooFull(v, f.config.volumeFreePct)
      then |out| == 1 && Enters(out[0], key, FreeShare(v), Some(f.config.volumeFreePct), f.inputs.unix)
      else out == []
  {
    var v, pct := f.inputs.volumes[j], f.config.volumeFreePct;
    VolumeBreach(f, j);
    FirstFrame(f, Key("volume_free", v.mount));
    if f.inputs.volumesApplicable {
      EntersIf(f, Key("volume_free", v.mount), TooFull(v, pct), FreeShare(v), Some(pct));
    }
    hide Evaluate, Says, Filter, Enters, IsReading, TooFull, FreeShare;
  }

  /** The last reading of a frame decides. */
  lemma EntersIf(f: Frame, key: Key, breached: bool, current: real, percent: Option<real>)
    requires var rs := Says(f, key);
      && (|rs| == 1 || (|rs| == 2 && rs[0].Gone?)) && IsReading(rs[|rs| - 1], breached, current, percent)
    ensures var out := Filter(Evaluate(map[], f).1, KeyOf, key);
      if breached then |out| == 1 && Enters(out[0], key, current, percent, f.inputs.unix) else out == []
  {
    FirstFrame(f, key);
    hide Evaluate, Says, Filter;
  }

  /** A record of a breach that begins now. */
  ghost predicate Enters(x: Record, key: Key, current: real, percent: Option<real>, unix: int) {
    && x.key == key && x.state == Entered && x.level == Warn
    && x.current == current && x.threshold.Some? == percent.Some? && (percent.Some? ==> 100.0 * x.threshold.value == percent.value)
    && x.activeSec == 0 && x.sinceUnix == unix
  }

  /** From an empty table only the last reading can enter. */
  lemma FirstFrame(f: Frame, key: Key)
    ensures var rs, out := Says(f, key), Filter(Evaluate(map[], f).1, KeyOf, key);
      && (rs == [] || (|rs| == 1 && rs[0].Gone?) ==> out == [])
      && (|rs| == 1 || (|rs| == 2 && rs[0].Gone?) ==>
           var r := rs[|rs| - 1];
           r.Read? ==> out == if r.breached then [Record(key, Entered, Warn, r.current, r.threshold, 0, f.inputs.unix)] else [])
  {
    EvaluateFollows(map[], f, key);
    var rs := Says(f, key);
    hide Evaluate, Says, Filter, RepeatDue;
    if |rs| == 1 {
      assert Ticks(f, rs) == [TickOf(f, rs[0])];
      AdvanceOne(None, key, TickOf(f, rs[0]));
    } else if |rs| == 2 {
      assert Ticks(f, rs) == [TickOf(f, rs[0])] + [TickOf(f, rs[1])];
      AdvanceConcat(None, key, [TickOf(f, rs[0])], [TickOf(f, rs[1])]);
      AdvanceOne(None, key, TickOf(f, rs[0]));
      AdvanceOne(None, key, TickOf(f, rs[1]));
    }
  }
}
