/** The evaluator as an object, its inputs as they are built from one measurement, and the
    order of its output. */
module ThresholdEvaluator {
  import opened Basics
  import opened TextOrder
  import opened Thresholds

  class Evaluator {
    var states: States

    constructor ()
      ensures states == map[]
    {
      states := map[];
    }

    method RepeatDue(key: Key, monotonic: int, repeat: int) returns (due: bool)
      requires key in states
      modifies this
      ensures key in states && (states[key], due) == Thresholds.RepeatDue(old(states)[key], monotonic, repeat)
      ensures states == old(states)[key := states[key]]
    {
      var s := states[key];
      if repeat <= 0 { return false; }
      var milestone := TruncDiv(monotonic - s.since, repeat);
      if repeat != s.scheduled {
        states := states[key := s.(scheduled := repeat, milestone := milestone)];
        return false;
      }
      if milestone <= s.milestone { return false; }
      states := states[key := s.(milestone := milestone)];
      return true;
    }

    method Transition(key: Key, f: Frame, r: Reading) returns (out: seq<Record>)
      requires r.Read?
      modifies this
      ensures (states, out) == Thresholds.Transition(old(states), key, f, r)
    {
      var now, repeat := f.inputs.monotonic, f.config.repeatSec * 1000;
      out := [];
      if key !in states && !r.breached {
        NothingToEnd(states, key, f, r);
      } else {
        if key !in states { states := states[key := SubjectState(false, 0, 0, 0, 0)]; }
        var s := states[key];
        if r.breached && !s.active {
          states := states[key := SubjectState(true, f.inputs.unix, now, 0, repeat)];
          assert states == old(states)[key := states[key]];
          out := [MakeRecord(key, Entered, r, 0, f.inputs.unix)];
        } else if r.breached {
          var due := RepeatDue(key, now, repeat);
          s := states[key];
          if due { out := [MakeRecord(key, Ongoing, r, TruncDiv(now - s.since, 1000), s.sinceUnix)]; }
        } else {
          if s.active { out := [MakeRecord(key, Recovered, r, TruncDiv(now - s.since, 1000), s.sinceUnix)]; }
          states := states - {key};
        }
      }
    }

    method EraseKind(kind: string)
      modifies this
      ensures states == Thresholds.EraseKind(old(states), kind)
    {
      var left := states.Keys;
      while left != {}
        invariant left <= old(states).Keys
        invariant states == map k | k in old(states) && (k in left || k.kind != kind) :: old(states)[k]
        decreases |left|
      {
        var k :| k in left;
        left := left - {k};
        if k.kind == kind { states := states - {k}; }
      }
    }

    method EraseVanished(known: seq<string>)
      requires SortedText(known)
      modifies this
      ensures states == Thresholds.EraseVanished(old(states), known)
    {
      var left := states.Keys;
      while left != {}
        invariant left <= old(states).Keys
        invariant states == map k | k in old(states) && (k in left || !(k.kind == VOLUME_FREE && k.subject !in known)) :: old(states)[k]
        decreases |left|
      {
        var k :| k in left;
        left := left - {k};
        if k.kind == VOLUME_FREE {
          var found := BinarySearch(known, k.subject);
          if !found { states := states - {k}; }
        }
      }
    }

    method EvaluateUsage(kind: string, applicable: bool, ratio: Option<real>, pct: real, f: Frame) returns (out: seq<Record>)
      modifies this
      ensures (states, out) == Thresholds.EvaluateUsage(old(states), kind, applicable, ratio, pct, f)
    {
      out := [];
      if !applicable {
        EraseKind(kind);
        return;
      }
      if !ValidRatio(ratio) { return; }
      out := Transition(Key(kind, ""), f, UsageReading(ratio.value, pct));
    }

    method EvaluateCpu(f: Frame) returns (out: seq<Record>)
      modifies this
      ensures (states, out) == Thresholds.EvaluateCpu(old(states), f)
    {
      out := [];
      if !f.inputs.cpuApplicable {
        EraseKind(CPU_SATURATED);
      } else if f.inputs.coresReadable {
        out := Transition(Key(CPU_SATURATED, ""), f, CpuReading(f.inputs.saturatedCores));
      }
    }

    method EvaluateVolumes(f: Frame) returns (out: seq<Record>)
      requires f.inputs.knownMounts.Some? ==> SortedText(f.inputs.knownMounts.value)
      modifies this
      ensures (states, out) == Thresholds.EvaluateVolumes(old(states), f)
    {
      out := [];
      if !f.inputs.volumesApplicable {
        EraseKind(VOLUME_FREE);
        return;
      }
      if f.inputs.knownMounts.Some? { EraseVanished(f.inputs.knownMounts.value); }
      ghost var erased := states;
      var volumes := f.inputs.volumes;
      for i := 0 to |volumes|
        invariant (states, out) == EvaluateEach(erased, f, volumes[..i])
      {
        assert volumes[..i + 1][..i] == volumes[..i];
        var v := volumes[i];
        if v.mount != "" {
          var more := Transition(Key(VOLUME_FREE, v.mount), f, VolumeReading(v, f.config.volumeFreePct));
          out := out + more;
        }
      }
      assert volumes[..|volumes|] == volumes;
    }

    method Evaluate(f: Frame) returns (records: seq<Record>)
      requires f.inputs.knownMounts.Some? ==> SortedText(f.inputs.knownMounts.value)
      modifies this
      ensures (states, records) == Thresholds.Evaluate(old(states), f)
    {
      hide Thresholds.EvaluateUsage, Thresholds.EvaluateCpu, Thresholds.EvaluateVolumes;
      var i, c := f.inputs, f.config;
      records := EvaluateUsage(MEMORY_USED, i.memoryApplicable, i.memoryRatio, c.memoryPct, f);
      var swap := EvaluateUsage(SWAP_USED, i.swapApplicable, i.swapRatio, c.swapPct, f);
      records := records + swap;
      var cpu := EvaluateCpu(f);
      records := records + cpu;
      var volumes := EvaluateVolumes(f);
      records := Sort(records + volumes, KeyOf);
    }
  }

  lemma NothingToEnd(states: States, key: Key, f: Frame, r: Reading)
    requires key !in states && r.Read? && !r.breached
    ensures Thresholds.Transition(states, key, f, r) == (states, [])
  {
    assert states - {key} == states;
  }

  // ----- the order of the output ----------------------------------------------------------------

  lemma {:induction false} FewReadings(mount: string, volumes: seq<Volume>, pct: real)
    requires forall i, j :: 0 <= i < j < |volumes| ==> volumes[i].mount != volumes[j].mount
    ensures |VolumeReadings(mount, volumes, pct)| <= 1
    ensures mount !in (set v | v in volumes :: v.mount) ==> VolumeReadings(mount, volumes, pct) == []
    ensures forall r :: r in VolumeReadings(mount, volumes, pct) ==> r.Read?
  {
    if volumes != [] {
      var n := |volumes| - 1;
      FewReadings(mount, volumes[..n], pct);
      assert forall v :: v in volumes[..n] ==> v in volumes && v.mount != volumes[n].mount;
      assert volumes[n] in volumes;
    }
  }

  lemma FewTicks(f: Frame, key: Key)
    requires forall i, j :: 0 <= i < j < |f.inputs.volumes| ==> f.inputs.volumes[i].mount != f.inputs.volumes[j].mount
    ensures var rs := Says(f, key); |rs| <= 1 || (|rs| == 2 && rs[0].Gone?)
  {
    FewReadings(key.subject, f.inputs.volumes, f.config.volumeFreePct);
    hide UsageReading, CpuReading, VolumeReadings, ValidRatio;
  }

  /** Records come out in ascending (kind, subject) order, and when no mount is listed twice no
      two of them are of one subject: the order is the only one there is. */
  lemma OutputOrdered(states: States, f: Frame, key: Key)
    requires forall i, j :: 0 <= i < j < |f.inputs.volumes| ==> f.inputs.volumes[i].mount != f.inputs.volumes[j].mount
    ensures var out := Evaluate(states, f).1;
      forall i, j :: 0 <= i < j < |out| ==>
        !Less(out[j].key.kind, out[i].key.kind)
        && (out[i].key.kind == out[j].key.kind ==> !Less(out[j].key.subject, out[i].key.subject))
    ensures |Filter(Evaluate(states, f).1, KeyOf, key)| <= 1
  {
    hide EvaluateUnsorted, Says, Sort, Filter, Sorted, AdvanceAll;
    SortSorts(EvaluateUnsorted(states, f).1, KeyOf);
    FewTicks(f, key);
    OneRecord(Lookup(states, key), key, Ticks(f, Says(f, key)));
    EvaluateFollows(states, f, key);
    SortedByKind(Evaluate(states, f).1);
    hide Evaluate, Ticks, Lookup;
  }

  lemma SortedByKind(out: seq<Record>)
    requires Sorted(out, KeyOf)
    ensures forall i, j :: 0 <= i < j < |out| ==>
      !Less(out[j].key.kind, out[i].key.kind)
      && (out[i].key.kind == out[j].key.kind ==> !Less(out[j].key.subject, out[i].key.subject))
  {
    forall i, j | 0 <= i < j < |out|
      ensures !Less(out[j].key.kind, out[i].key.kind)
      ensures out[i].key.kind == out[j].key.kind ==> !Less(out[j].key.subject, out[i].key.subject)
    {
      assert !KeyLess(KeyOf(out[j]), KeyOf(out[i]));
    }
  }

  lemma OneRecord(st: Option<SubjectState>, key: Key, ts: seq<Tick>)
    requires |ts| <= 1 || (|ts| == 2 && ts[0].reading.Gone?)
    ensures |AdvanceAll(st, key, ts).1| <= 1
  {
    if |ts| == 1 {
      assert ts == [ts[0]];
      AdvanceOne(st, key, ts[0]);
    } else if |ts| == 2 {
      assert ts == [ts[0]] + [ts[1]];
      AdvanceConcat(st, key, [ts[0]], [ts[1]]);
      AdvanceOne(st, key, ts[0]);
      AdvanceOne(None, key, ts[1]);
    }
    hide MakeRecord, RepeatDue;
  }

  // ----- inputs ---------------------------------------------------------------------------------

  datatype Sizes = Sizes(total: nat, free: nat)

  datatype MemoryMetrics = MemoryMetrics(disabled: bool, memory: Option<Sizes>,
                                         swapDisabled: bool, swapSupported: bool, swap: Option<Sizes>)

  datatype CpuMetrics = CpuMetrics(disabled: bool, saturatedCores: seq<nat>, cores: seq<Option<real>>)

  datatype RawVolume = RawVolume(mount: string, total: Option<nat>, free: Option<nat>)

  datatype DiskMetrics = DiskMetrics(volumesDisabled: bool, volumes: Option<seq<RawVolume>>)

  /** The used share, with the free amount clamped to the total. */
  function UsedRatio(s: Sizes): (r: Option<real>)
    ensures r.Some? <==> s.total > 0
    ensures r.Some? ==> ValidRatio(r) && r.value * s.total as real == if s.free <= s.total then (s.total - s.free) as real else 0.0
  {
    if s.total == 0 then None
    else
      var free := if s.free <= s.total then s.free else s.total;
      var used, total := (s.total - free) as real, s.total as real;
      ShareOf(used, total);
      Some(used / total)
  }

  lemma ShareOf(part: real, whole: real)
    requires 0.0 <= part <= whole && whole > 0.0
    ensures 0.0 <= part / whole <= 1.0 && part / whole * whole == part
  {}

  predicate Judged(v: RawVolume) { v.total.Some? && v.free.Some? && v.total.value > 0 }

  function Clamped(v: RawVolume): Volume
    requires Judged(v)
  {
    Volume(v.mount, v.total.value, if v.free.value <= v.total.value then v.free.value else v.total.value)
  }

  function AllJudged(vs: seq<RawVolume>): seq<Volume> {
    if vs == [] then []
    else AllJudged(vs[..|vs| - 1]) + if Judged(vs[|vs| - 1]) then [Clamped(vs[|vs| - 1])] else []
  }

  /** A volume is judged exactly when its capacity and free space are readable and the capacity is
      not zero; the free space shown is at most the capacity. */
  lemma {:induction false} JudgedExactly(listed: seq<RawVolume>, v: Volume)
    ensures v in AllJudged(listed) <==>
      exists w :: w in listed && w.mount == v.mount && w.total == Some(v.total) && w.free.Some?
        && v.free == if w.free.value <= v.total then w.free.value else v.total
  {
    if listed != [] {
      var n := |listed| - 1;
      JudgedExactly(listed[..n], v);
      assert forall w :: w in listed <==> w in listed[..n] || w == listed[n];
    }
  }

  function Mounts(vs: seq<RawVolume>): (ms: seq<string>)
    ensures |ms| == |vs| && forall i :: 0 <= i < |vs| ==> ms[i] == vs[i].mount
  {
    seq(|vs|, i requires 0 <= i < |vs| => vs[i].mount)
  }

  function MountKey(v: Volume): Key { Key(v.mount, "") }

  function TextKey(s: string): Key { Key(s, "") }

  lemma SortTextSorts(s: seq<string>)
    ensures SortedText(Sort(s, TextKey))
  {
    SortSorts(s, TextKey);
    var r := Sort(s, TextKey);
    forall i, j | 0 <= i < j < |r| ensures !Less(r[j], r[i]) {
      assert !KeyLess(TextKey(r[j]), TextKey(r[i]));
    }
  }

  ghost predicate VolumesOf(listed: seq<RawVolume>, known: seq<string>, volumes: seq<Volume>) {
    && SortedText(known) && multiset(known) == multiset(Mounts(listed))
    && Sorted(volumes, MountKey) && multiset(volumes) == multiset(AllJudged(listed))
  }

  method Collect(listed: seq<RawVolume>) returns (known: seq<string>, volumes: seq<Volume>)
    ensures VolumesOf(listed, known, volumes)
  {
    known, volumes := [], [];
    for i := 0 to |listed|
      invariant known == Mounts(listed[..i])
      invariant volumes == AllJudged(listed[..i])
    {
      assert listed[..i + 1][..i] == listed[..i];
      known := known + [listed[i].mount];
      if Judged(listed[i]) { volumes := volumes + [Clamped(listed[i])]; }
    }
    assert listed[..|listed|] == listed;
    SortSorts(volumes, MountKey);
    SortTextSorts(known);
    volumes := Sort(volumes, MountKey);
    known := Sort(known, TextKey);
  }

  method AnyReadable(cores: seq<Option<real>>) returns (readable: bool)
    ensures readable <==> exists i :: 0 <= i < |cores| && cores[i].Some?
  {
    for i := 0 to |cores|
      invariant forall j :: 0 <= j < i ==> cores[j].None?
    {
      if cores[i].Some? { return true; }
    }
    return false;
  }

  method MemoryRatios(m: MemoryMetrics) returns (memory: Option<real>, swap: Option<real>)
    ensures memory == if m.disabled || m.memory.None? then None else UsedRatio(m.memory.value)
    ensures swap == if m.swap.None? then None else UsedRatio(m.swap.value)
  {
    memory, swap := None, None;
    if !m.disabled && m.memory.Some? && m.memory.value.total > 0 { memory := UsedRatio(m.memory.value); }
    if m.swap.Some? && m.swap.value.total > 0 { swap := UsedRatio(m.swap.value); }
  }

  /** Facts of one measurement become inputs: a ratio is the used share and lies between 0 and 1
      or is absent; a volume whose capacity is unreadable or zero is known but not judged; the
      known mounts are those listed, sorted as the search needs them, and unknown altogether
      when the volumes could not be listed. */
  method MakeInputs(cpu: CpuMetrics, memory: MemoryMetrics, disk: DiskMetrics, unix: int, monotonic: int) returns (inputs: Inputs)
    ensures inputs.unix == unix && inputs.monotonic == monotonic
    ensures inputs.memoryApplicable == !memory.disabled && inputs.swapApplicable == (!memory.swapDisabled && memory.swapSupported)
    ensures inputs.memoryRatio == if memory.disabled || memory.memory.None? then None else UsedRatio(memory.memory.value)
    ensures inputs.swapRatio == if memory.swap.None? then None else UsedRatio(memory.swap.value)
    ensures inputs.cpuApplicable == !cpu.disabled && inputs.saturatedCores == cpu.saturatedCores
    ensures inputs.coresReadable <==> exists i :: 0 <= i < |cpu.cores| && cpu.cores[i].Some?
    ensures inputs.volumesApplicable == !disk.volumesDisabled
    ensures disk.volumes.None? ==> inputs.knownMounts.None? && inputs.volumes == []
    ensures disk.volumes.Some? ==>
      inputs.knownMounts.Some? && VolumesOf(disk.volumes.value, inputs.knownMounts.value, inputs.volumes)
  {
    hide UsedRatio, VolumesOf;
    var memoryRatio, swapRatio := MemoryRatios(memory);
    var readable := AnyReadable(cpu.cores);
    inputs := Inputs(!memory.disabled, memoryRatio, !memory.swapDisabled && memory.swapSupported, swapRatio,
                     !cpu.disabled, readable, cpu.saturatedCores, !disk.volumesDisabled, [], None, unix, monotonic);
    if disk.volumes.None? { return; }
    var known, volumes := Collect(disk.volumes.value);
    inputs := inputs.(volumes := volumes, knownMounts := Some(known));
  }
}
