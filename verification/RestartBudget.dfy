/** Automatic restarts over every run: a crash chain is as short as the policy says although
    every launch resets the counter, and a stop or remove request ends it exactly when no
    expired restart handler is still queued. */
module RestartBudget {
  import opened Basics
  import opened MasterTypes
  import opened MasterSteps
  import opened MasterInvariants
  import opened ShutdownOrder

  // ----- automatic and other launches of one process -----------------------------------

  predicate Auto(e: Event, n: Name) { e.Spawned? && e.entry.name == n && e.via.Restart? }

  predicate Manual(e: Event, n: Name) { e.Spawned? && e.entry.name == n && !e.via.Restart? }

  function Autos(log: seq<Event>, n: Name): nat {
    if log == [] then 0 else Autos(log[..|log| - 1], n) + (if Auto(log[|log| - 1], n) then 1 else 0)
  }

  ghost predicate NoneNew(start: seq<Event>, log: seq<Event>, n: Name) {
    start <= log && forall i :: |start| <= i < |log| ==> !Auto(log[i], n)
  }

  lemma {:induction false} AutosSame(a: seq<Event>, log: seq<Event>, n: Name)
    requires NoneNew(a, log, n)
    ensures Autos(log, n) == Autos(a, n)
    decreases |log|
  {
    if |log| > |a| {
      assert a <= log[..|log| - 1];
      AutosSame(a, log[..|log| - 1], n);
    } else {
      assert log == a;
    }
  }

  ghost predicate NoManual(start: seq<Event>, log: seq<Event>, n: Name) {
    start <= log && forall i :: |start| <= i < |log| ==> !Manual(log[i], n)
  }

  lemma ManualSplit(a: seq<Event>, b: seq<Event>, c: seq<Event>, n: Name)
    requires NoManual(a, c, n) && a <= b <= c
    ensures NoManual(a, b, n) && NoManual(b, c, n)
  {
    forall i | |a| <= i < |b| ensures !Manual(b[i], n) { assert b[i] == c[i]; }
  }

  /** The restart handler of n is queued or can still expire. */
  predicate Armed(tm: Timers, t: nat, n: Name) {
    t in tm.waits && tm.waits[t].handler.RestartWait? && tm.waits[t].handler.name == n && !tm.waits[t].wait.Cancelled?
  }

  // ----- steps that neither restart n nor schedule its restart --------------------------

  ghost predicate SameOrFewer(a: Timers, b: Timers, n: Name) {
    forall t :: Armed(b, t, n) ==> Armed(a, t, n) && b.waits[t].handler == a.waits[t].handler
  }

  ghost predicate Neutral(s: State, r: State, n: Name) {
    && NoneNew(s.log, r.log, n)
    && (Live(r.children, n) ==> Live(s.children, n))
    && (s.shuttingDown ==> r.shuttingDown)
    && (!r.shuttingDown && Live(r.children, n) ==> Get(r.restartCounts, n, 0) == Get(s.restartCounts, n, 0))
    && SameOrFewer(s.tm, r.tm, n)
  }

  lemma NeutralTrans(a: State, b: State, c: State, n: Name)
    requires Neutral(a, b, n) && Neutral(b, c, n)
    ensures Neutral(a, c, n)
  {
    forall i | |a.log| <= i < |c.log| ensures !Auto(c.log[i], n) {
      if i < |b.log| { assert c.log[i] == b.log[i]; }
    }
    forall t | Armed(c.tm, t, n) ensures Armed(a.tm, t, n) && c.tm.waits[t].handler == a.tm.waits[t].handler {
      assert Armed(b.tm, t, n);
    }
  }

  lemma DropFewer(tm: Timers, k: Slot, n: Name)
    ensures SameOrFewer(tm, Drop(tm, k), n)
  {}

  lemma ArmOther(tm: Timers, h: Handler, n: Name)
    requires forall t :: t in tm.waits ==> t < tm.next
    requires h.RestartWait? ==> h.name != n
    ensures SameOrFewer(tm, Arm(tm, h), n)
  {}

  lemma SpawnTimers(s: State, e: ProcessEntry, via: Via, n: Name)
    requires TimersOk(s.tm)
    ensures SameOrFewer(s.tm, Spawn(s, e, via).tm, n)
  {
    var d := Drop(s.tm, RestartSlot(e.name));
    DropKeeps(s.tm, RestartSlot(e.name));
    DropFewer(s.tm, RestartSlot(e.name), n);
    ArmOther(d, ReadyWait(e.name), n);
  }

  /** A launch of another process, or one of n that spawns nothing, or is not automatic and
      so ends the chain. */
  lemma LaunchNeutral(s: State, e: ProcessEntry, a: Attempt, via: Via, n: Name)
    requires TimersOk(s.tm)
    requires e.name == n ==> !via.Restart? && NoManual(s.log, LaunchChild(s, e, a, via).0.log, n)
    ensures Neutral(s, LaunchChild(s, e, a, via).0, n)
  {
    LaunchFrame(s, e, a, via);
    var (r, o) := LaunchChild(s, e, a, via);
    if o.Launched? {
      assert via.Restart? || (Manual(r.log[|s.log|], n) <==> e.name == n);
      var c := if e.category.GatewayMd?
               then s.(channels := CreateMdChannel(s.channels, e.name, a.pageSize)) else s;
      SpawnTimers(c, e, via, n);
      LiveAppend(s.children, r.children[|s.children|], n);
    }
  }

  lemma {:induction false} LaunchEachNeutral(s: State, names: seq<Name>, source: Name, attempts: map<Name, Attempt>, via: Via, n: Name)
    requires Core(s) && !via.Restart? && NoManual(s.log, LaunchEach(s, names, source, attempts, via).log, n)
    ensures Neutral(s, LaunchEach(s, names, source, attempts, via), n)
    decreases |names|
  {
    if names != [] {
      var m := names[0];
      var a := AttemptFor(attempts, m);
      var e := FindEntry(s.registry, m);
      var l := if via.Startup? && Live(s.children, m) then s else LaunchWithReader(s, m, source, a, via);
      var r := LaunchEach(l, names[1..], source, attempts, via);
      OneLaunchOrdinary(s, m, source, a, via);
      LaunchEachOrdinary(l, names[1..], source, attempts, via);
      if e.Some? {
        var p := s.(channels := PreRegister(s.channels, m, source));
        LaunchKeeps(p, e.value, a, via);
        ManualSplit(s.log, l.log, r.log, n);
        if l != s { LaunchNeutral(p, e.value, a, via, n); }
      }
      hide LaunchChild, Core, PreRegister;
      assert Neutral(s, l, n);
      ManualSplit(s.log, l.log, r.log, n);
      LaunchEachNeutral(l, names[1..], source, attempts, via, n);
      NeutralTrans(s, l, r, n);
    }
  }

  lemma KillFrameNeutral(s: State, r: State, killer: Killer, n: Name)
    requires KillFrame(s, r, killer)
    ensures Neutral(s, r, n)
  {
    MilderLive(s.children, r.children);
  }

  lemma {:induction false} SendNeutral(s: State, n: Name)
    requires TimersOk(s.tm)
    ensures Neutral(s, SendCurrentBatch(s), n)
    decreases |s.batches| - s.batchIndex
  {
    if s.batchIndex >= |s.batches| {
      DropFewer(s.tm, BatchSlot, n);
    } else if AnyLive(s.children, s.batches[s.batchIndex]) {
      ArmOther(s.tm, BatchWait(s.batchIndex), n);
      var frames := ShutdownFrames(s.children, s.batches[s.batchIndex]);
      forall i | |s.log| <= i < |s.log + frames| ensures !Auto((s.log + frames)[i], n) {
        assert frames[i - |s.log|] in frames;
      }
    } else {
      var t := s.(batchIndex := s.batchIndex + 1);
      SendNeutral(t, n);
    }
  }

  lemma CleanupNeutral(s: State, c: Child, code: int, n: Name)
    requires Core(s) && c in s.children
    ensures Neutral(s, ExitCleanup(s, c, code), n)
  {
    DropFewer(s.tm, StopSlot(c.entry.name), n);
    var d := ExitCleanup(s, c, code);
    if Live(d.children, n) {
      var x := FindChild(d.children, n).value;
      assert x in s.children;
    }
  }

  lemma RestNeutral(d: State, n: Name)
    requires TimersOk(d.tm)
    ensures Neutral(d, AdvanceBatch(d), n)
  {
    var e := d.(tm := Drop(d.tm, BatchSlot), batchIndex := d.batchIndex + 1);
    DropKeeps(d.tm, BatchSlot);
    DropFewer(d.tm, BatchSlot, n);
    assert Neutral(d, e, n);
    SendNeutral(e, n);
    NeutralTrans(d, e, SendCurrentBatch(e), n);
    hide SendCurrentBatch, Neutral;
    assert Neutral(d, d, n) by { DropFewer(d.tm, BatchSlot, n); NeutralRefl(d, n); }
  }

  lemma NeutralRefl(s: State, n: Name)
    ensures Neutral(s, s, n)
  {}

  /** An exit of another process, of one that is shutting down, or without a restart. */
  lemma ExitNeutral(s: State, c: Child, code: int, n: Name)
    requires Core(s) && c in s.children
    requires c.entry.name != n || s.shuttingDown || n in s.removePending || code == 0
    ensures Neutral(s, OnChildExit(s, c, code), n)
  {
    var d := ExitCleanup(s, c, code);
    CleanupNeutral(s, c, code, n);
    ExitCleanupKeeps(s, c, code);
    RestNeutral(d, n);
    var r := OnChildExit(s, c, code);
    CrashNeutral(d, c, n);
    assert c.entry.name == n ==> !Live(d.children, n);
    hide ExitCleanup, AdvanceBatch, AfterCrash, SameOrFewer, NoneNew;
    var e := d.(restartCounts := d.restartCounts - {c.entry.name});
    assert Neutral(d, e, n) by { NeutralRefl(d, n); }
    NeutralTrans(s, d, r, n);
  }

  lemma CrashNeutral(d: State, c: Child, n: Name)
    requires TimersOk(d.tm)
    ensures c.entry.name != n ==> Neutral(d, AfterCrash(d, c), n)
  {
    var m := c.entry.name;
    var found := FindEntry(d.registry, m);
    var effective := if found.Some? then found.value else c.entry;
    var h := RestartWait(m, effective, Get(d.restartCounts, m, 0) + 1);
    NeutralRefl(d, n);
    if m != n { ArmOther(d.tm, h, n); }
    hide Arm, SameOrFewer, FindEntry, FindChild;
    assert AfterCrash(d, c) == d.(restartCounts := AfterCrash(d, c).restartCounts, tm := AfterCrash(d, c).tm);
    hide NoneNew;
  }

  lemma TakenFewer(tm: Timers, id: nat, n: Name)
    ensures SameOrFewer(tm, Taken(tm, id), n)
  {}

  lemma HandlersNeutral(s: State, h: Handler, a: Attempt, n: Name)
    requires TimersOk(s.(tm := Drop(s.tm, SlotOf(h))).tm)
    ensures h.RestartWait? && h.name != n && h.entry.name != n ==> Neutral(s, OnRestartTimer(s, h, a), n)
    ensures h.StopWait? ==> Neutral(s, OnStopTimer(s, h), n)
    ensures h.ReadyWait? ==> Neutral(s, OnReadyTimer(s, h.source), n)
  {
    var e := s.(tm := Drop(s.tm, SlotOf(h)));
    DropFewer(s.tm, SlotOf(h), n);
    assert Neutral(s, e, n);
    match h
    case RestartWait(m, entry, k) =>
      if m != n && entry.name != n {
        LaunchNeutral(e, entry, a, Restart, n);
        var (l, o) := LaunchChild(e, entry, a, Restart);
        NeutralTrans(s, e, l, n);
        hide LaunchChild;
      }
    case StopWait(cid, _) =>
      var c := ChildById(e.children, cid);
      if c.Some? {
        OneKillFrame(e, c.value, StopTimer);
        KillFrameNeutral(e, ForceKill(e, c.value, StopTimer), StopTimer, n);
        NeutralTrans(s, e, ForceKill(e, c.value, StopTimer), n);
        hide ForceKill, Neutral;
      }
    case ReadyWait(source) =>
      var c := FindChild(e.children, source);
      if c.Some? {
        OneKillFrame(e, c.value, ReadyTimer);
        KillFrameNeutral(e, ForceKill(e, c.value, ReadyTimer), ReadyTimer, n);
        NeutralTrans(s, e, ForceKill(e, c.value, ReadyTimer), n);
        hide ForceKill, Neutral;
      }
    case BatchWait(_) =>
  }

  /** Any timer but a queued restart of n. */
  lemma TimerNeutral(s: State, id: nat, a: Attempt, n: Name)
    requires Core(s) && !(Armed(s.tm, id, n) && s.tm.waits[id].wait.Expired?)
    ensures Neutral(s, RunTimer(s, id, a), n)
  {
    NeutralRefl(s, n);
    if id in s.tm.waits && !s.tm.waits[id].wait.Waiting? {
      var h := s.tm.waits[id].handler;
      var d := s.(tm := Taken(s.tm, id));
      TakenFewer(s.tm, id, n);
      assert Neutral(s, d, n);
      TakenKeeps(s.tm, id);
      var r := RunTimer(s, id, a);
      if s.tm.waits[id].wait.Cancelled? {
        DropFewer(d.tm, SlotOf(h), n);
      } else if h.BatchWait? {
        if h.armedIndex == s.batchIndex && h.armedIndex < |s.batches| {
          KillEachFrame(d, s.batches[h.armedIndex], BatchTimer(h.armedIndex));
          KillFrameNeutral(d, r, BatchTimer(h.armedIndex), n);
          NeutralTrans(s, d, r, n);
        }
      } else {
        HandlersNeutral(d, h, a, n);
        hide OnRestartTimer, OnStopTimer, OnReadyTimer, Neutral;
        NeutralTrans(s, d, r, n);
      }
    }
  }

  lemma ShutdownNeutral(s: State, n: Name)
    requires TimersOk(s.tm)
    ensures Neutral(s, Shutdown(s), n)
  {
    NeutralRefl(s, n);
    if !s.shuttingDown {
      var batches := BuildShutdownBatches(RunningPairs(s.children));
      var d := s.(shuttingDown := true, tm := DropNamed(s.tm), restartCounts := map[], pending := map[],
                  batches := batches, batchIndex := 0, log := s.log + [ShutdownBegun(batches)]);
      DropNamedKeeps(s.tm);
      assert SameOrFewer(s.tm, d.tm, n);
      assert Neutral(s, d, n);
      SendNeutral(d, n);
      NeutralTrans(s, d, SendCurrentBatch(d), n);
      hide SendCurrentBatch, Neutral, DropNamed;
      assert batches == [] ==> CheckComplete(d) == SendCurrentBatch(d) by { EmptySend(d); }
    }
  }

  lemma EmptySend(d: State)
    ensures d.batches == [] ==> SendCurrentBatch(d) == CheckComplete(d)
  {}

  lemma StopNeutral(s: State, target: Name, n: Name)
    requires TimersOk(s.tm)
    ensures Neutral(s, StopRequest(s, target), n) && Neutral(s, RemoveRequest(s, target), n)
  {
    DropFewer(s.tm, RestartSlot(target), n);
    var c := FindChild(s.children, target);
    if c.Some? { ArmOther(s.tm, StopWait(c.value.id, target), n); }
    hide Drop, Arm, SameOrFewer;
  }

  lemma StartNeutral(s: State, target: Name, scanned: Option<ProcessEntry>, a: Attempt, n: Name)
    requires TimersOk(s.tm) && NoManual(s.log, StartRequest(s, target, scanned, a).log, n)
    ensures Neutral(s, StartRequest(s, target, scanned, a), n)
  {
    NeutralRefl(s, n);
    var known := FindEntry(s.registry, target);
    if known.Some? || scanned.Some? {
      var r := if known.None? then s.(registry := s.registry + [scanned.value]) else s;
      var e := if known.None? then scanned.value else known.value;
      var p := r.(channels := PreRegister(r.channels, e.name, e.mdSource));
      var x := StartRequest(s, target, scanned, a);
      if x == LaunchChild(r, e, a, Request).0 { LaunchNeutral(r, e, a, Request, n); }
      if x == LaunchChild(p, e, a, Request).0 { LaunchNeutral(p, e, a, Request, n); }
      hide LaunchChild, PreRegister, SameOrFewer;
    }
  }

  lemma ReadyNeutral(s: State, source: Name, attempts: map<Name, Attempt>, n: Name)
    requires Core(s) && NoManual(s.log, MdStarted(s, source, attempts).log, n)
    ensures Neutral(s, MdStarted(s, source, attempts), n)
  {
    NeutralRefl(s, n);
    if source in s.channels && s.channels[source].meta.Some? && s.channels[source].status.MdRunning? {
      var d := s.(channels := s.channels[source := s.channels[source].(ready := true)], tm := Drop(s.tm, ReadySlot(source)));
      DropFewer(s.tm, ReadySlot(source), n);
      DropKeeps(s.tm, ReadySlot(source));
      assert Core(d) && Neutral(s, d, n);
      if source in s.pending {
        var q := d.(pending := s.pending - {source});
        assert Neutral(s, q, n);
        LaunchEachNeutral(q, s.pending[source], source, attempts, LateReady, n);
        NeutralTrans(s, q, LaunchEach(q, s.pending[source], source, attempts, LateReady), n);
        hide LaunchEach, Neutral;
      }
    }
  }

  /** Every step but a crash of n and a queued restart of n leaves its chain alone, unless it
      launches n by other means. */
  lemma StepNeutral(s: State, step: Step, n: Name)
    requires Core(s) && NoManual(s.log, Next(s, step).log, n)
    requires step.TimerStep? ==> !(Armed(s.tm, step.timer, n) && s.tm.waits[step.timer].wait.Expired?)
    requires step.ExitStep? && ChildById(s.children, step.id).Some? ==>
      ChildById(s.children, step.id).value.entry.name != n || s.shuttingDown || n in s.removePending || step.code == 0
    ensures Neutral(s, Next(s, step), n)
  {
    hide LaunchChild, LaunchEach, ParkEach, StartRequest, StopRequest, RemoveRequest, MdStarted, OnChildExit, RunTimer,
         Shutdown, TerminateFrom, ReaderRegister, ReaderUnregister, Core;
    assert TimersOk(s.tm) by { CoreTimers(s); }
    NeutralRefl(s, n);
    match step
    case StartupLaunchStep(e, a) =>
      if !(s.shuttingDown || e !in s.registry || (e.category.Strategy? && e.mdSource != "")) { LaunchNeutral(s, e, a, Startup, n); }
    case StartupPromoteStep(source, attempts) =>
      if !(s.shuttingDown || source == "" || !SourceReady(s.channels, source)) {
        LaunchEachNeutral(s, StrategiesBoundTo(s.registry, source), source, attempts, Startup, n);
      }
    case StartupParkStep(source) => ParkEachOrdinary(s, source, StrategiesBoundTo(s.registry, source));
    case StartStep(target, scanned, a) => StartNeutral(s, target, scanned, a, n);
    case StopStep(target) => StopNeutral(s, target, n);
    case RemoveStep(target) => StopNeutral(s, target, n);
    case SetPolicyStep(_, _) =>
    case MdStartedStep(source, attempts) => ReadyNeutral(s, source, attempts, n);
    case ReaderRegisterStep(channel, sub) => ReadersNeutral(s, channel, sub, n);
    case ReaderUnregisterStep(channel, sub) => ReadersNeutral(s, channel, sub, n);
    case ExitStep(id, code) =>
      var c := ChildById(s.children, id);
      if c.Some? { ExitNeutral(s, c.value, code, n); }
    case ExpireStep(t) => ExpireNeutral(s, t, n);
    case TimerStep(t, a) => TimerNeutral(s, t, a, n);
    case ShutdownStep => ShutdownNeutral(s, n);
    case ForceAllStep =>
      TerminateFromFrame(s, 0);
      KillFrameNeutral(s, TerminateFrom(s, 0), ForceAll, n);
  }

  lemma CoreTimers(s: State)
    requires Core(s)
    ensures TimersOk(s.tm)
  {}

  lemma ReadersNeutral(s: State, channel: Name, sub: Name, n: Name)
    ensures Neutral(s, ReaderRegister(s, channel, sub), n) && Neutral(s, ReaderUnregister(s, channel, sub), n)
  {}

  lemma ExpireNeutral(s: State, t: nat, n: Name)
    ensures Neutral(s, ExpireTimer(s, t), n)
  {}

  // ----- the budget ------------------------------------------------------------------

  /** How often in a row a policy restarts a process. */
  function Allowed(p: RestartPolicy): nat { if p.enabled && p.maxAttempts > 0 then p.maxAttempts else 0 }

  /** The policy a crash of n would consult allows at most limit attempts: that of the
      registry, or of the child itself once it is no longer registered. */
  ghost predicate PolicyAtMost(s: State, n: Name, limit: nat) {
    var found := FindEntry(s.registry, n);
    if found.Some? then Allowed(found.value.restart) <= limit
    else forall c :: c in s.children && c.entry.name == n ==> Allowed(c.entry.restart) <= limit
  }

  /** The policy of n allows at most limit attempts at every moment of the run. */
  ghost predicate Governed(s: State, steps: seq<Step>, n: Name, limit: nat)
    decreases |steps|
  {
    PolicyAtMost(s, n, limit) && (steps != [] ==> Governed(Next(s, steps[0]), steps[1..], n, limit))
  }

  /** After done automatic launches: a live n has counted them, and a restart still to come is
      the only one, has counted them too, and is within the limit. */
  ghost predicate WithinBudget(s: State, n: Name, limit: nat, done: nat) {
    && done <= limit
    && (!s.shuttingDown && Live(s.children, n) ==> Get(s.restartCounts, n, 0) >= done)
    && (forall t :: Armed(s.tm, t, n) ==> !Live(s.children, n) && done < s.tm.waits[t].handler.count <= limit)
    && (forall t, u :: Armed(s.tm, t, n) && Armed(s.tm, u, n) ==> t == u)
  }

  lemma NeutralBudget(s: State, r: State, n: Name, limit: nat, done: nat)
    requires WithinBudget(s, n, limit, done) && Neutral(s, r, n)
    ensures WithinBudget(r, n, limit, done) && Autos(r.log, n) == Autos(s.log, n)
  {
    AutosSame(s.log, r.log, n);
  }

  lemma CrashBudget(s: State, c: Child, code: int, limit: nat, done: nat)
    requires Core(s) && c in s.children && WithinBudget(s, c.entry.name, limit, done) && PolicyAtMost(s, c.entry.name, limit)
    requires !s.shuttingDown && c.entry.name !in s.removePending && code != 0
    ensures var r := OnChildExit(s, c, code);
      WithinBudget(r, c.entry.name, limit, done) && Autos(r.log, c.entry.name) == Autos(s.log, c.entry.name)
  {
    var n := c.entry.name;
    var d := ExitCleanup(s, c, code);
    LiveEach(s.children);
    CleanupNeutral(s, c, code, n);
    NeutralBudget(s, d, n, limit, done);
    ExitCleanupKeeps(s, c, code);
    assert forall t :: !Armed(d.tm, t, n);
    assert Get(d.restartCounts, n, 0) >= done && PolicyAtMost(s, n, limit);
    AfterCrashBudget(d, c, limit, done);
    assert OnChildExit(s, c, code) == AfterCrash(d, c);
    hide ExitCleanup, AfterCrash, Autos;
  }

  lemma AfterCrashBudget(d: State, c: Child, limit: nat, done: nat)
    requires !Live(d.children, c.entry.name) && done <= limit && Get(d.restartCounts, c.entry.name, 0) >= done
    requires forall t :: !Armed(d.tm, t, c.entry.name)
    requires var found := FindEntry(d.registry, c.entry.name);
      Allowed(if found.Some? then found.value.restart else c.entry.restart) <= limit
    ensures WithinBudget(AfterCrash(d, c), c.entry.name, limit, done) && AfterCrash(d, c).log == d.log
  {
    var n := c.entry.name;
    var found := FindEntry(d.registry, n);
    var effective := if found.Some? then found.value else c.entry;
    var h := RestartWait(n, effective, Get(d.restartCounts, n, 0) + 1);
    OnlyArmed(d.tm, h, n);
    hide Arm;
  }

  lemma OnlyArmed(tm: Timers, h: Handler, n: Name)
    requires h.RestartWait? && h.name == n && forall t :: !Armed(tm, t, n)
    ensures forall t :: Armed(Arm(tm, h), t, n) <==> t == tm.next
    ensures Arm(tm, h).waits[tm.next].handler == h
  {
    var d := Drop(tm, SlotOf(h));
    DropFewer(tm, SlotOf(h), n);
    assert d.next == tm.next && Arm(tm, h).waits == d.waits[d.next := Timer(h, Waiting)];
    forall t ensures Armed(Arm(tm, h), t, n) <==> t == tm.next {
      assert t != tm.next ==> Armed(Arm(tm, h), t, n) == Armed(d, t, n);
      assert !Armed(tm, t, n);
    }
  }

  lemma RunsRestart(s: State, id: nat, a: Attempt, n: Name)
    requires Armed(s.tm, id, n) && s.tm.waits[id].wait.Expired?
    ensures RunTimer(s, id, a) == OnRestartTimer(s.(tm := Taken(s.tm, id)), s.tm.waits[id].handler, a)
  {
    hide OnRestartTimer, OnStopTimer, OnReadyTimer, ForceTerminateBatch, Drop;
  }

  /** A restart that launches uses up one attempt; one that does not ends the chain. */
  lemma RestartLaunch(e: State, entry: ProcessEntry, count: int, a: Attempt, limit: nat, done: nat)
    requires TimersOk(e.tm) && !Live(e.children, entry.name) && done < count <= limit
    requires forall t :: !Armed(e.tm, t, entry.name)
    ensures var (l, o) := LaunchChild(e, entry, a, Restart);
      if o.Launched? then
        && WithinBudget(l.(restartCounts := l.restartCounts[entry.name := count]), entry.name, limit, done + 1)
        && Autos(l.log, entry.name) == Autos(e.log, entry.name) + 1
      else WithinBudget(l, entry.name, limit, done) && Autos(l.log, entry.name) == Autos(e.log, entry.name)
  {
    LaunchFrame(e, entry, a, Restart);
    var n := entry.name;
    var (l, o) := LaunchChild(e, entry, a, Restart);
    if o.Launched? {
      var c := if entry.category.GatewayMd?
               then e.(channels := CreateMdChannel(e.channels, n, a.pageSize)) else e;
      SpawnTimers(c, entry, Restart, n);
      assert l.tm == Spawn(c, entry, Restart).tm && c.tm == e.tm;
      assert forall t :: !Armed(l.tm, t, n);
      assert l.log[..|l.log| - 1] == e.log;
    } else {
      hide LaunchChild;
      assert l.tm == e.tm && l.log == e.log && !Live(l.children, n);
    }
  }

  lemma RestartRun(s: State, id: nat, a: Attempt, n: Name, limit: nat, done: nat)
    requires Core(s) && WithinBudget(s, n, limit, done)
    requires Armed(s.tm, id, n) && s.tm.waits[id].wait.Expired?
    ensures var r := RunTimer(s, id, a);
      exists d: nat :: WithinBudget(r, n, limit, d) && Autos(r.log, n) == Autos(s.log, n) + (d - done)
  {
    var h := s.tm.waits[id].handler;
    assert h.entry.name == n && done < h.count <= limit && !Live(s.children, n);
    var d := s.(tm := Taken(s.tm, id));
    var e := d.(tm := Drop(d.tm, RestartSlot(n)));
    RunsRestart(s, id, a, n);
    TakenFewer(s.tm, id, n);
    DropFewer(d.tm, RestartSlot(n), n);
    assert forall t :: !Armed(e.tm, t, n);
    TakenKeeps(s.tm, id);
    hide RunTimer, LaunchChild, Core, Autos;
    RestartLaunch(e, h.entry, h.count, a, limit, done);
    var r := RunTimer(s, id, a);
    if e.shuttingDown {
      assert WithinBudget(r, n, limit, done);
    } else if LaunchChild(e, h.entry, a, Restart).1.Launched? {
      assert WithinBudget(r, n, limit, done + 1);
    } else {
      assert WithinBudget(r, n, limit, done);
    }
  }

  /** A crash chain of n begins: it has no crash counted and no restart armed. */
  ghost predicate ChainStart(s: State, n: Name) {
    n !in s.restartCounts && forall t :: !Armed(s.tm, t, n)
  }

  lemma {:induction false} BudgetOverRun(s: State, steps: seq<Step>, n: Name, limit: nat, done: nat)
    requires Core(s) && WithinBudget(s, n, limit, done) && Governed(s, steps, n, limit)
    requires NoManual(s.log, Run(s, steps).log, n)
    ensures Autos(Run(s, steps).log, n) - Autos(s.log, n) <= limit - done
    decreases |steps|
  {
    if steps != [] {
      var step := steps[0];
      var m := Next(s, step);
      CoreKept(s, step);
      RunGrows(s, [step]);
      RunGrows(m, steps[1..]);
      assert Run(s, [step]) == m by { RunCons(s, step, []); assert [step] + [] == [step]; }
      ManualSplit(s.log, m.log, Run(s, steps).log, n);
      var next := StepBudget(s, step, n, limit, done);
      BudgetOverRun(m, steps[1..], n, limit, next);
    }
  }

  lemma StepBudget(s: State, step: Step, n: Name, limit: nat, done: nat) returns (next: nat)
    requires Core(s) && WithinBudget(s, n, limit, done) && PolicyAtMost(s, n, limit) && NoManual(s.log, Next(s, step).log, n)
    ensures WithinBudget(Next(s, step), n, limit, next)
    ensures Autos(Next(s, step).log, n) == Autos(s.log, n) + (next - done)
  {
    next := done;
    var m := Next(s, step);
    var c := if step.ExitStep? then ChildById(s.children, step.id) else None;
    hide OnChildExit, RunTimer, Core, PolicyAtMost, WithinBudget;
    if step.TimerStep? && Armed(s.tm, step.timer, n) && s.tm.waits[step.timer].wait.Expired? {
      RestartRun(s, step.timer, step.attempt, n, limit, done);
      next :| WithinBudget(m, n, limit, next) && Autos(m.log, n) == Autos(s.log, n) + (next - done);
    } else if c.Some? && c.value.entry.name == n && !s.shuttingDown && n !in s.removePending && step.code != 0 {
      CrashBudget(s, c.value, step.code, limit, done);
    } else {
      StepNeutral(s, step, n);
      NeutralBudget(s, m, n, limit, done);
    }
  }

  /** Runs only append to the log. */
  lemma {:induction false} RunGrows(s: State, steps: seq<Step>)
    ensures s.log <= Run(s, steps).log
    decreases |steps|
  {
    if steps != [] {
      StepGrows(s, steps[0]);
      hide Next;
      RunGrows(Next(s, steps[0]), steps[1..]);
    }
  }

  lemma {:induction false} SendGrows(s: State)
    ensures s.log <= SendCurrentBatch(s).log
    decreases |s.batches| - s.batchIndex
  {
    if s.batchIndex < |s.batches| && !AnyLive(s.children, s.batches[s.batchIndex]) {
      SendGrows(s.(batchIndex := s.batchIndex + 1));
    }
  }

  lemma ExitGrows(s: State, c: Child, code: int)
    ensures s.log <= OnChildExit(s, c, code).log
  {
    var d := ExitCleanup(s, c, code);
    SendGrows(d.(tm := Drop(d.tm, BatchSlot), batchIndex := d.batchIndex + 1));
    hide Drop, Arm, SendCurrentBatch;
  }

  lemma HandlersGrow(s: State, h: Handler, a: Attempt)
    ensures h.RestartWait? ==> s.log <= OnRestartTimer(s, h, a).log
    ensures h.StopWait? ==> s.log <= OnStopTimer(s, h).log
    ensures h.ReadyWait? ==> s.log <= OnReadyTimer(s, h.source).log
  {
    if h.RestartWait? { LaunchFrame(s.(tm := Drop(s.tm, RestartSlot(h.name))), h.entry, a, Restart); }
    hide LaunchChild, Drop;
  }

  lemma TimerGrows(s: State, id: nat, a: Attempt)
    ensures s.log <= RunTimer(s, id, a).log
  {
    if id in s.tm.waits {
      var h := s.tm.waits[id].handler;
      var d := s.(tm := Taken(s.tm, id));
      HandlersGrow(d, h, a);
      if h.BatchWait? && h.armedIndex == s.batchIndex && h.armedIndex < |s.batches| {
        KillEachFrame(d, s.batches[h.armedIndex], BatchTimer(h.armedIndex));
      }
      hide OnRestartTimer, OnStopTimer, OnReadyTimer, KillEach, Drop;
    }
  }

  lemma ShutdownGrows(s: State)
    ensures s.log <= Shutdown(s).log
  {
    var batches := BuildShutdownBatches(RunningPairs(s.children));
    SendGrows(s.(shuttingDown := true, tm := DropNamed(s.tm), restartCounts := map[], pending := map[],
                 batches := batches, batchIndex := 0, log := s.log + [ShutdownBegun(batches)]));
    hide BuildShutdownBatches, DropNamed, SendCurrentBatch;
  }

  lemma StepGrows(s: State, step: Step)
    ensures s.log <= Next(s, step).log
  {
    hide OnChildExit, RunTimer, StartRequest, MdStarted, Shutdown, LaunchEach, LaunchChild;
    match step
    case ExitStep(id, code) =>
      var c := ChildById(s.children, id);
      if c.Some? { ExitGrows(s, c.value, code); }
    case TimerStep(t, a) => TimerGrows(s, t, a);
    case ShutdownStep => ShutdownGrows(s);
    case StartupLaunchStep(e, a) => LaunchFrame(s, e, a, Startup);
    case StartupPromoteStep(source, attempts) =>
      LaunchEachOrdinary(s, StrategiesBoundTo(s.registry, source), source, attempts, Startup);
    case StartupParkStep(source) => ParkEachOrdinary(s, source, StrategiesBoundTo(s.registry, source));
    case StartStep(target, scanned, a) => OrdinaryStart(s, target, scanned, a);
    case MdStartedStep(source, attempts) => OrdinaryReady(s, source, attempts);
    case ForceAllStep => TerminateFromFrame(s, 0);
    case StopStep(target) => OrdinaryStop(s, target);
    case RemoveStep(target) => OrdinaryStop(s, target);
    case _ =>
  }

  /** The restart budget, over every run from the start of a crash chain of n, for instance
      right after a manual start with no expired restart left in the queue: as long as n is
      not launched by other means and its policy allows at most limit attempts, it is
      restarted automatically at most limit times, although every launch resets its counter. */
  lemma RestartBudgetHolds(s: State, steps: seq<Step>, n: Name, limit: nat)
    requires Core(s) && ChainStart(s, n) && Governed(s, steps, n, limit)
    requires NoManual(s.log, Run(s, steps).log, n)
    ensures Autos(Run(s, steps).log, n) - Autos(s.log, n) <= limit
  {
    BudgetOverRun(s, steps, n, limit, 0);
  }

  // ----- what a stop or remove request ends ---------------------------------------------

  ghost predicate Dormant(s: State, n: Name) { !Live(s.children, n) && forall t :: !Armed(s.tm, t, n) }

  ghost predicate AllOfEventLoop(steps: seq<Step>) { forall i :: 0 <= i < |steps| ==> OfEventLoop(steps[i]) }

  lemma DormantStep(s: State, step: Step, n: Name)
    requires Core(s) && Dormant(s, n) && OfEventLoop(step)
    ensures Dormant(Next(s, step), n)
  {
    LiveEach(s.children);
    NeutralRefl(s, n);
    match step
    case ExitStep(id, code) =>
      var c := ChildById(s.children, id);
      if c.Some? { ExitNeutral(s, c.value, code, n); }
      hide OnChildExit, Core;
    case ExpireStep(t) => ExpireNeutral(s, t, n);
    case TimerStep(t, a) =>
      TimerNeutral(s, t, a, n);
      hide RunTimer, Core;
  }

  lemma {:induction false} DormantStays(s: State, steps: seq<Step>, n: Name)
    requires Core(s) && Dormant(s, n) && AllOfEventLoop(steps)
    ensures !Live(Run(s, steps).children, n)
    decreases |steps|
  {
    if steps != [] {
      assert OfEventLoop(steps[0]);
      CoreKept(s, steps[0]);
      DormantStep(s, steps[0], n);
      hide Core, Next, Dormant;
      DormantStays(Next(s, steps[0]), steps[1..], n);
    }
  }

  /** Some exits and timers alone bring n back to life. */
  ghost predicate Revives(s: State, n: Name) {
    exists steps :: AllOfEventLoop(steps) && Live(Run(s, steps).children, n)
  }

  ghost predicate RestartQueued(tm: Timers, n: Name) { exists t :: Armed(tm, t, n) && tm.waits[t].wait.Expired? }

  /** The page size that resets nothing. */
  function KeptSize(s: State, n: Name): PageSize {
    if n in s.channels && s.channels[n].lastPageSize > 0 then s.channels[n].lastPageSize else 1
  }

  /** A queued restart of n that runs while n is not running starts it. */
  lemma QueuedLaunches(s: State, t: nat, n: Name)
    requires Core(s) && !s.shuttingDown && !Live(s.children, n) && Armed(s.tm, t, n) && s.tm.waits[t].wait.Expired?
    ensures var h, a := s.tm.waits[t].handler, Spawns(KeptSize(s, n));
      var e := s.(tm := Drop(Taken(s.tm, t), RestartSlot(n)));
      && h.entry.name == n
      && LaunchChild(e, h.entry, a, Restart).1.Launched?
      && Live(LaunchChild(e, h.entry, a, Restart).0.children, n)
      && Next(s, TimerStep(t, a)).children == LaunchChild(e, h.entry, a, Restart).0.children
  {
    var h, a := s.tm.waits[t].handler, Spawns(KeptSize(s, n));
    var e := s.(tm := Drop(Taken(s.tm, t), RestartSlot(n)));
    RunsRestart(s, t, a, n);
    LaunchFrame(e, h.entry, a, Restart);
    hide LaunchChild, RunTimer, Drop;
    var r := LaunchChild(e, h.entry, a, Restart).0;
    LiveAppend(s.children, r.children[|s.children|], n);
  }

  lemma QueuedRevives(s: State, n: Name)
    requires Core(s) && !s.shuttingDown && !Live(s.children, n) && RestartQueued(s.tm, n)
    ensures Revives(s, n)
  {
    var t :| Armed(s.tm, t, n) && s.tm.waits[t].wait.Expired?;
    var step := TimerStep(t, Spawns(KeptSize(s, n)));
    QueuedLaunches(s, t, n);
    hide LaunchChild, Next, Core, FindChild;
    RunOne(s, step);
    assert AllOfEventLoop([step]);
  }

  lemma CancelKeepsQueued(tm: Timers, n: Name)
    requires TimersOk(tm)
    ensures RestartQueued(Drop(tm, RestartSlot(n)), n) <==> RestartQueued(tm, n)
    ensures !RestartQueued(tm, n) ==> forall t :: !Armed(Drop(tm, RestartSlot(n)), t, n)
  {
    var d := Drop(tm, RestartSlot(n));
    forall t ensures Armed(d, t, n) && d.waits[t].wait.Expired? <==> Armed(tm, t, n) && tm.waits[t].wait.Expired? {}
    forall t ensures Armed(d, t, n) ==> d.waits[t].wait.Expired? {
      if Armed(tm, t, n) && tm.waits[t].wait.Waiting? { assert Tracked(tm, t); }
    }
  }

  /** A stop or remove request for a process that is waiting to be restarted cancels the
      timer, and yet does not always end the matter: exits and timers alone bring the process
      back exactly when its restart had already expired and was queued at that moment. */
  lemma CancelEndsRestartsExactly(s: State, n: Name)
    requires Core(s) && !s.shuttingDown && FindEntry(s.registry, n).Some? && !Live(s.children, n)
    ensures Revives(StopRequest(s, n), n) <==> RestartQueued(s.tm, n)
    ensures Revives(RemoveRequest(s, n), n) <==> RestartQueued(s.tm, n)
  {
    StopKeeps(s, n);
    CancelKeepsQueued(s.tm, n);
    var a, b := StopRequest(s, n), RemoveRequest(s, n);
    assert a.tm == Drop(s.tm, RestartSlot(n)) && a.children == s.children && !a.shuttingDown;
    assert b.tm == Drop(s.tm, RestartSlot(n)) && b.children == s.children && !b.shuttingDown;
    hide StopRequest, RemoveRequest, RestartQueued, Drop, Core;
    if RestartQueued(s.tm, n) {
      QueuedRevives(a, n);
      QueuedRevives(b, n);
    } else {
      forall steps | AllOfEventLoop(steps) ensures !Live(Run(a, steps).children, n) { DormantStays(a, steps, n); }
      forall steps | AllOfEventLoop(steps) ensures !Live(Run(b, steps).children, n) { DormantStays(b, steps, n); }
    }
  }
}
