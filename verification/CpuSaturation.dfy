/** Saturated cores: the capped counter of every core, and what the mark means for the history
    of its readings. Usage ratios are exact reals. */
module CpuSaturation {
  import opened Basics

  datatype Core = Core(index: nat, usage: Option<real>, saturated: bool)

  datatype CoreState = CoreState(index: nat, consecutive: nat)

  // ----- one sample -----------------------------------------------------------------------------

  predicate SameCores(states: seq<CoreState>, cores: seq<Core>) {
    |states| == |cores| && forall i :: 0 <= i < |cores| ==> states[i].index == cores[i].index
  }

  function Synced(states: seq<CoreState>, cores: seq<Core>): (r: seq<CoreState>)
    ensures SameCores(r, cores)
  {
    if SameCores(states, cores) then states
    else seq(|cores|, i requires 0 <= i < |cores| => CoreState(cores[i].index, 0))
  }

  function Required(requiredSamples: nat): nat { if requiredSamples == 0 then 1 else requiredSamples }

  function Counted(s: CoreState, usage: Option<real>, threshold: real, required: nat): CoreState {
    if usage.None? then s
    else if usage.value >= threshold then (if s.consecutive < required then s.(consecutive := s.consecutive + 1) else s)
    else s.(consecutive := 0)
  }

  function StatesAfter(states: seq<CoreState>, cores: seq<Core>, threshold: real, required: nat): (r: seq<CoreState>)
    ensures |r| == |cores|
    ensures forall i :: 0 <= i < |cores| ==> r[i] == Counted(Synced(states, cores)[i], cores[i].usage, threshold, required)
  {
    seq(|cores|, i requires 0 <= i < |cores| => Counted(Synced(states, cores)[i], cores[i].usage, threshold, required))
  }

  function Marked(states: seq<CoreState>, cores: seq<Core>, required: nat): (r: seq<Core>)
    requires |states| == |cores|
    ensures |r| == |cores|
    ensures forall i :: 0 <= i < |cores| ==> r[i] == cores[i].(saturated := states[i].consecutive >= required)
  {
    seq(|cores|, i requires 0 <= i < |cores| => cores[i].(saturated := states[i].consecutive >= required))
  }

  function SaturatedIn(cores: seq<Core>): seq<nat> {
    if cores == [] then []
    else SaturatedIn(cores[..|cores| - 1]) + if cores[|cores| - 1].saturated then [cores[|cores| - 1].index] else []
  }

  /** These positions, in ascending order, are those of the marked cores, and the list holds the
      indices of the cores there. */
  ghost predicate ListedFrom(cores: seq<Core>, listed: seq<nat>, at: seq<nat>) {
    && |at| == |listed|
    && (forall i :: 0 <= i < |at| ==> at[i] < |cores| && cores[at[i]].saturated && listed[i] == cores[at[i]].index)
    && (forall i, j :: 0 <= i < j < |at| ==> at[i] < at[j])
    && (forall k :: 0 <= k < |cores| && cores[k].saturated ==> exists i :: 0 <= i < |at| && at[i] == k)
  }

  lemma ListedSnoc(cores: seq<Core>, c: Core, listed: seq<nat>, at: seq<nat>)
    requires ListedFrom(cores, listed, at)
    ensures c.saturated ==> ListedFrom(cores + [c], listed + [c.index], at + [|cores|])
    ensures !c.saturated ==> ListedFrom(cores + [c], listed, at)
  {
    var all := cores + [c];
    assert all[|cores|] == c && forall k :: 0 <= k < |cores| ==> all[k] == cores[k];
    if c.saturated {
      var more := at + [|cores|];
      assert more[|at|] == |cores|;
      forall k | 0 <= k < |cores| && cores[k].saturated ensures exists i :: 0 <= i < |more| && more[i] == k {
        var i :| 0 <= i < |at| && at[i] == k;
        assert more[i] == k;
      }
    }
  }

  /** The list holds exactly the indices of the marked cores, in core order. */
  lemma {:induction false} ListedAreMarked(cores: seq<Core>) returns (at: seq<nat>)
    ensures ListedFrom(cores, SaturatedIn(cores), at)
  {
    if cores == [] {
      at := [];
    } else {
      var front, c := Front(cores), Last(cores);
      var before := ListedAreMarked(front);
      SaturatedLast(cores);
      ListedSnoc(front, c, SaturatedIn(front), before);
      hide SaturatedIn, ListedFrom;
      assert front + [c] == cores;
      at := if c.saturated then before + [|front|] else before;
      assert SaturatedIn(front) + [] == SaturatedIn(front);
    }
  }

  lemma SaturatedLast(cores: seq<Core>)
    requires cores != []
    ensures var n := |cores| - 1;
      SaturatedIn(cores) == SaturatedIn(cores[..n]) + if cores[n].saturated then [cores[n].index] else []
  {}

  class Tracker {
    var states: seq<CoreState>
    var saturatedCores: seq<nat>

    constructor ()
      ensures states == [] && saturatedCores == []
    {
      states, saturatedCores := [], [];
    }

    method SyncStates(cores: array<Core>)
      modifies this`states
      ensures states == Synced(old(states), cores[..])
    {
      var same := |states| == cores.Length;
      if same {
        for i := 0 to cores.Length
          invariant same && forall j :: 0 <= j < i ==> states[j].index == cores[j].index
        {
          if states[i].index != cores[i].index {
            same := false;
            break;
          }
        }
      }
      if !same {
        states := [];
        for i := 0 to cores.Length
          invariant |states| == i && forall j :: 0 <= j < i ==> states[j] == CoreState(cores[j].index, 0)
        {
          states := states + [CoreState(cores[i].index, 0)];
        }
        assert !SameCores(old(states), cores[..]) ==> states == Synced(old(states), cores[..]);
      }
    }

    /** The body of the loop over the cores. */
    method UpdateOne(cores: array<Core>, i: nat, threshold: real, required: nat)
      requires i < cores.Length == |states|
      modifies this, cores
      ensures states == old(states)[i := Counted(old(states)[i], old(cores[i]).usage, threshold, required)]
      ensures cores[..] == old(cores[..])[i := old(cores[i]).(saturated := states[i].consecutive >= required)]
      ensures saturatedCores == old(saturatedCores) + if cores[i].saturated then [cores[i].index] else []
    {
      var ratio := cores[i].usage;
      if ratio.Some? {
        if ratio.value >= threshold {
          if states[i].consecutive < required { states := states[i := states[i].(consecutive := states[i].consecutive + 1)]; }
        } else {
          states := states[i := states[i].(consecutive := 0)];
        }
      }
      cores[i] := cores[i].(saturated := states[i].consecutive >= required);
      if cores[i].saturated { saturatedCores := saturatedCores + [cores[i].index]; }
    }

    method Update(cores: array<Core>, threshold: real, requiredSamples: nat)
      modifies this, cores
      ensures states == StatesAfter(old(states), old(cores[..]), threshold, Required(requiredSamples))
      ensures cores[..] == Marked(states, old(cores[..]), Required(requiredSamples))
      ensures saturatedCores == SaturatedIn(cores[..])
    {
      hide Synced, Required, Counted;
      ghost var was := cores[..];
      var required := Required(requiredSamples);
      ghost var after := StatesAfter(old(states), was, threshold, required);
      ghost var marked := Marked(after, was, required);
      SyncStates(cores);
      ghost var synced := states;
      assert |synced| == |was|;
      hide StatesAfter, Marked;
      saturatedCores := [];
      for i := 0 to cores.Length
        invariant |states| == cores.Length
        invariant forall j :: 0 <= j < i ==> states[j] == after[j] && cores[..][j] == marked[j]
        invariant forall j :: i <= j < cores.Length ==> states[j] == synced[j] && cores[..][j] == was[j]
        invariant saturatedCores == SaturatedIn(marked[..i])
      {
        assert cores[i] == cores[..][i];
        UpdateOne(cores, i, threshold, required);
        assert cores[i] == cores[..][i] == marked[i];
        assert marked[..i + 1][..i] == marked[..i];
      }
      assert cores[..] == marked && marked[..cores.Length] == marked;
    }

    method Reset()
      modifies this
      ensures states == [] && saturatedCores == []
    {
      states, saturatedCores := [], [];
    }
  }

  // ----- histories --------------------------------------------------------------------------------

  /** One update: the cores read and the configuration at that moment. */
  datatype Sample = Sample(cores: seq<Core>, threshold: real, required: nat)

  /** The counters after a run from an empty tracker. */
  function Run(ss: seq<Sample>): seq<CoreState> {
    if ss == [] then []
    else StatesAfter(Run(Front(ss)), Last(ss).cores, Last(ss).threshold, Required(Last(ss).required))
  }

  predicate SameSet(a: seq<Core>, b: seq<Core>) {
    |a| == |b| && forall i :: 0 <= i < |a| ==> a[i].index == b[i].index
  }

  /** For core i of the last sample: whether each available reading since the last change of
      the core set was at or above the threshold of its moment. */
  function Readings(ss: seq<Sample>, i: nat): seq<bool>
    requires ss != [] && i < |Last(ss).cores|
  {
    var s := Last(ss);
    var before := if Front(ss) != [] && SameSet(Last(Front(ss)).cores, s.cores) then Readings(Front(ss), i) else [];
    if s.cores[i].usage.None? then before else before + [s.cores[i].usage.value >= s.threshold]
  }

  /** A required count of zero means one. */
  function AtLeastOne(n: nat): nat { if n >= 1 then n else 1 }

  /** The length of the run of true at the end. */
  function Streak(rs: seq<bool>): (n: nat)
    ensures n <= |rs|
    ensures forall k :: |rs| - n <= k < |rs| ==> rs[k]
    ensures n < |rs| ==> !rs[|rs| - n - 1]
  {
    if rs == [] || !rs[|rs| - 1] then 0 else Streak(rs[..|rs| - 1]) + 1
  }

  /** The last n readings exist and are all high. */
  ghost predicate LastAllHigh(rs: seq<bool>, n: nat) {
    n <= |rs| && forall k :: |rs| - n <= k < |rs| ==> rs[k]
  }

  lemma StreakMeaning(rs: seq<bool>, n: nat)
    ensures Streak(rs) >= n <==> LastAllHigh(rs, n)
  {
    if Streak(rs) < n <= |rs| {
      assert !rs[|rs| - Streak(rs) - 1];
    }
  }

  lemma RunIndices(ss: seq<Sample>)
    requires ss != []
    ensures SameCores(Run(ss), Last(ss).cores)
  {}

  lemma SyncedMeaning(ss: seq<Sample>)
    requires ss != []
    ensures SameCores(Run(Front(ss)), Last(ss).cores) <==>
            (if Front(ss) == [] then Last(ss).cores == [] else SameSet(Last(Front(ss)).cores, Last(ss).cores))
  {
    if Front(ss) != [] { RunIndices(Front(ss)); }
  }

  /** With one required count throughout, and whatever thresholds, every counter is the run of
      high readings since the last change of the core set, capped at the required count. */
  lemma {:induction false} CounterIsCappedStreak(ss: seq<Sample>, required: nat, i: nat)
    requires ss != [] && i < |Last(ss).cores|
    requires forall k :: 0 <= k < |ss| ==> ss[k].required == required
    ensures Run(ss)[i].consecutive == Min(AtLeastOne(required), Streak(Readings(ss, i)))
  {
    SyncedMeaning(ss);
    var s := Last(ss);
    var kept := Front(ss) != [] && SameSet(Last(Front(ss)).cores, s.cores);
    if kept { CounterIsCappedStreak(Front(ss), required, i); }
    var before := if kept then Readings(Front(ss), i) else [];
    var was := Synced(Run(Front(ss)), s.cores)[i];
    assert !kept ==> was.consecutive == 0;
    StreakEmpty();
    hide Streak, Counted, Synced;
    CountedStep(was, s.cores[i].usage, s.threshold, Required(required), before);
  }

  lemma CountedStep(s: CoreState, usage: Option<real>, threshold: real, required: nat, rs: seq<bool>)
    requires s.consecutive == Min(required, Streak(rs))
    ensures Counted(s, usage, threshold, required).consecutive ==
            Min(required, Streak(if usage.None? then rs else rs + [usage.value >= threshold]))
  {
    if usage.Some? { StreakAppend(rs, usage.value >= threshold); }
    hide Streak;
  }

  lemma StreakEmpty()
    ensures Streak([]) == 0
  {}

  lemma StreakAppend(rs: seq<bool>, high: bool)
    ensures Streak(rs + [high]) == if high then Streak(rs) + 1 else 0
  {
    assert (rs + [high])[..|rs|] == rs;
  }

  /** With one required count, a core is marked exactly when its last `required` available
      readings since the last change of the core set are all at or above the threshold. */
  lemma MarkedExactly(ss: seq<Sample>, required: nat, i: nat)
    requires ss != [] && i < |Last(ss).cores|
    requires forall k :: 0 <= k < |ss| ==> ss[k].required == required
    ensures Marked(Run(ss), Last(ss).cores, Required(required))[i].saturated <==> LastAllHigh(Readings(ss, i), AtLeastOne(required))
  {
    CounterIsCappedStreak(ss, required, i);
    StreakMeaning(Readings(ss, i), Required(required));
    hide Run, Readings, Streak;
  }

  /** Whatever the required counts were along the way, a mark is never false: the counter never
      exceeds the run of high readings. */
  lemma {:induction false} CounterNeverAhead(ss: seq<Sample>, i: nat)
    requires ss != [] && i < |Last(ss).cores|
    ensures Run(ss)[i].consecutive <= Streak(Readings(ss, i))
  {
    SyncedMeaning(ss);
    var s := Last(ss);
    var kept := Front(ss) != [] && SameSet(Last(Front(ss)).cores, s.cores);
    if kept { CounterNeverAhead(Front(ss), i); }
    var before := if kept then Readings(Front(ss), i) else [];
    if s.cores[i].usage.Some? { StreakAppend(before, s.cores[i].usage.value >= s.threshold); }
    hide Streak;
  }

  lemma MarksAreTrue(ss: seq<Sample>, i: nat)
    requires ss != [] && i < |Last(ss).cores|
    requires Marked(Run(ss), Last(ss).cores, Required(Last(ss).required))[i].saturated
    ensures LastAllHigh(Readings(ss, i), AtLeastOne(Last(ss).required))
  {
    CounterNeverAhead(ss, i);
    StreakMeaning(Readings(ss, i), Required(Last(ss).required));
    hide Run, Readings, Streak;
  }

  // ----- counts that change along the way ---------------------------------------------------------

  /** Beside every reading the count that was required at that moment. */
  function Asked(ss: seq<Sample>, i: nat): (r: seq<nat>)
    requires ss != [] && i < |Last(ss).cores|
    ensures |r| == |Readings(ss, i)|
  {
    var s := Last(ss);
    var before := if Front(ss) != [] && SameSet(Last(Front(ss)).cores, s.cores) then Asked(Front(ss), i) else [];
    if s.cores[i].usage.None? then before else before + [AtLeastOne(s.required)]
  }

  /** What stands beside the run of high readings at the end. */
  function BesideStreak(rs: seq<bool>, asked: seq<nat>): (r: seq<nat>)
    requires |rs| == |asked|
    ensures |r| == Streak(rs)
  {
    asked[|rs| - Streak(rs)..]
  }

  /** The counts required during the run of high readings at the end. */
  function Climb(ss: seq<Sample>, i: nat): seq<nat>
    requires ss != [] && i < |Last(ss).cores|
  {
    BesideStreak(Readings(ss, i), Asked(ss, i))
  }

  /** n readings of the run, in order, the j-th of which (from 1) was taken while at least j
      were required. */
  ghost predicate Rungs(asked: seq<nat>, ks: seq<nat>) {
    && (forall j :: 0 <= j < |ks| ==> ks[j] < |asked| && asked[ks[j]] >= j + 1)
    && (forall j, k :: 0 <= j < k < |ks| ==> ks[j] < ks[k])
  }

  ghost predicate Ladder(asked: seq<nat>, n: nat) { exists ks :: |ks| == n && Rungs(asked, ks) }

  /** What the counter makes of a run of high readings. */
  function Climbed(asked: seq<nat>): nat {
    if asked == [] then 0
    else
      var c := Climbed(Front(asked));
      if c < Last(asked) then c + 1 else c
  }

  lemma {:induction false} ClimbedByRungs(asked: seq<nat>, ks: seq<nat>)
    requires Rungs(asked, ks)
    ensures |ks| <= Climbed(asked)
    decreases |asked|
  {
    if asked != [] {
      var m := |asked| - 1;
      if ks != [] && Last(ks) == m {
        assert Rungs(Front(asked), Front(ks));
        ClimbedByRungs(Front(asked), Front(ks));
        assert asked[m] >= |ks|;
      } else {
        assert ks != [] ==> Last(ks) == ks[|ks| - 1] && Last(ks) < m;
        assert Rungs(Front(asked), ks);
        ClimbedByRungs(Front(asked), ks);
      }
    }
  }

  lemma {:induction false} ClimbedHasRungs(asked: seq<nat>) returns (ks: seq<nat>)
    ensures Rungs(asked, ks) && |ks| == Climbed(asked)
    decreases |asked|
  {
    if asked == [] {
      ks := [];
    } else {
      ks := ClimbedHasRungs(Front(asked));
      if |ks| < Last(asked) { ks := ks + [|asked| - 1]; }
    }
  }

  /** The counter reaches n exactly when the run has n such readings. */
  lemma ClimbedExactly(asked: seq<nat>, n: nat)
    ensures Climbed(asked) >= n <==> Ladder(asked, n)
  {
    var ks := ClimbedHasRungs(asked);
    if Climbed(asked) >= n { assert Rungs(asked, ks[..n]); }
    if Ladder(asked, n) {
      var js :| |js| == n && Rungs(asked, js);
      ClimbedByRungs(asked, js);
    }
  }

  lemma {:induction false} CounterIsClimbed(ss: seq<Sample>, i: nat)
    requires ss != [] && i < |Last(ss).cores|
    ensures Run(ss)[i].consecutive == Climbed(Climb(ss, i))
  {
    SyncedMeaning(ss);
    var s := Last(ss);
    var kept := Front(ss) != [] && SameSet(Last(Front(ss)).cores, s.cores);
    if kept { CounterIsClimbed(Front(ss), i); }
    var was := Synced(Run(Front(ss)), s.cores)[i];
    var before := if kept then Readings(Front(ss), i) else [];
    var asked := if kept then Asked(Front(ss), i) else [];
    assert was.consecutive == Climbed(BesideStreak(before, asked));
    hide Streak, Climbed, BesideStreak, Counted, Synced;
    ClimbStep(was, s.cores[i].usage, s.threshold, Required(s.required), before, asked);
  }

  lemma ClimbStep(s: CoreState, usage: Option<real>, threshold: real, required: nat, rs: seq<bool>, asked: seq<nat>)
    requires |rs| == |asked| && s.consecutive == Climbed(BesideStreak(rs, asked))
    ensures usage.None? ==> Counted(s, usage, threshold, required) == s
    ensures usage.Some? ==>
      Counted(s, usage, threshold, required).consecutive ==
      Climbed(BesideStreak(rs + [usage.value >= threshold], asked + [required]))
  {
    if usage.Some? {
      BesideAppend(rs, asked, usage.value >= threshold, required);
      ClimbedAppend(BesideStreak(rs, asked), required);
    }
    hide Streak, Climbed, BesideStreak;
  }

  lemma BesideAppend(rs: seq<bool>, asked: seq<nat>, high: bool, required: nat)
    requires |rs| == |asked|
    ensures BesideStreak(rs + [high], asked + [required]) == if high then BesideStreak(rs, asked) + [required] else []
  {
    StreakAppend(rs, high);
    hide Streak;
    var n, k := |asked|, |rs| - Streak(rs);
    if high {
      assert (asked + [required])[k..] == asked[k..] + [required];
    } else {
      assert (asked + [required])[n + 1..] == [];
    }
  }

  lemma ClimbedAppend(asked: seq<nat>, r: nat)
    ensures Climbed(asked + [r]) == if Climbed(asked) < r then Climbed(asked) + 1 else Climbed(asked)
    ensures Climbed([]) == 0
  {
    assert Front(asked + [r]) == asked;
  }

  /** Whatever the required counts and thresholds along the way: a core is marked exactly when
      its run of high readings has R readings, R the count required last, the j-th of which was
      taken while at least j were required. Its last R readings are all high exactly when the
      run has R readings at all; in the difference the mark is late. */
  lemma MarkedForAnyCounts(ss: seq<Sample>, i: nat)
    requires ss != [] && i < |Last(ss).cores|
    ensures var required := AtLeastOne(Last(ss).required);
      && (Marked(Run(ss), Last(ss).cores, Required(Last(ss).required))[i].saturated <==> Ladder(Climb(ss, i), required))
      && (LastAllHigh(Readings(ss, i), required) <==> |Climb(ss, i)| >= required)
  {
    CounterIsClimbed(ss, i);
    ClimbedExactly(Climb(ss, i), Required(Last(ss).required));
    StreakMeaning(Readings(ss, i), Required(Last(ss).required));
    hide Run, Readings, Streak, Climb, Climbed, Ladder;
  }

  /** A mark is on time unless the count was raised during the run: if no reading of the run was
      taken while fewer were required than now, the core is marked exactly when its last R
      readings are all high. */
  lemma OnTimeUnlessRaised(ss: seq<Sample>, i: nat)
    requires ss != [] && i < |Last(ss).cores|
    requires forall k :: 0 <= k < |Climb(ss, i)| ==> Climb(ss, i)[k] >= AtLeastOne(Last(ss).required)
    ensures Marked(Run(ss), Last(ss).cores, Required(Last(ss).required))[i].saturated <==>
            LastAllHigh(Readings(ss, i), AtLeastOne(Last(ss).required))
  {
    MarkedForAnyCounts(ss, i);
    var climb := Climb(ss, i);
    hide Run, Readings, Climb, Ladder, LastAllHigh, Required;
    LadderIfHigh(climb, Required(Last(ss).required));
  }

  lemma LadderIfHigh(asked: seq<nat>, n: nat)
    requires forall k :: 0 <= k < |asked| ==> asked[k] >= n
    ensures Ladder(asked, n) <==> |asked| >= n
  {
    if |asked| >= n {
      var ks := seq(n, j => j);
      assert Rungs(asked, ks);
    }
    if ks :| |ks| == n && Rungs(asked, ks) { RungsFit(asked, ks); }
  }

  lemma {:induction false} RungsFit(asked: seq<nat>, ks: seq<nat>)
    requires Rungs(asked, ks)
    ensures |ks| <= |asked|
    decreases |ks|
  {
    if ks != [] {
      assert Rungs(asked[..Last(ks)], Front(ks));
      RungsFit(asked[..Last(ks)], Front(ks));
    }
  }

  const ONE_CORE: seq<Core> := [Core(0, Some(1.0), false)]
  const ONCE := Sample(ONE_CORE, 0.9, 1)
  const THRICE := Sample(ONE_CORE, 0.9, 3)

  lemma SeenSoFar()
    ensures Readings([ONCE, ONCE], 0) == [true, true] && Asked([ONCE, ONCE], 0) == [1, 1]
    ensures Run([ONCE, ONCE]) == [CoreState(0, 1)]
  {
    assert Front([ONCE, ONCE]) == [ONCE] && Front([ONCE]) == [];
    assert Run([ONCE]) == [CoreState(0, 1)];
    assert Readings([ONCE], 0) == [true] && Asked([ONCE], 0) == [1];
  }

  /** A late mark: one reading was required, twice, and then three; all three readings are high
      and the core is not marked, because the cap forgot the second. */
  lemma RaisedCountForgets()
    ensures var ss := [ONCE, ONCE, THRICE];
      LastAllHigh(Readings(ss, 0), 3) && Climb(ss, 0) == [1, 1, 3] && !Marked(Run(ss), ONE_CORE, 3)[0].saturated
  {
    var ss := [ONCE, ONCE, THRICE];
    SeenSoFar();
    assert Front(ss) == [ONCE, ONCE];
    assert Run(ss)[0].consecutive == 2;
    assert Readings(ss, 0) == [true, true, true] && Asked(ss, 0) == [1, 1, 3];
    StreakMeaning(Readings(ss, 0), 3);
  }
}
