/** Launches by hand over every run: what such a step leaves, and the restart budget that
    follows it, exactly. */
module LaunchByHand {
  import opened Basics
  import opened MasterTypes
  import opened MasterSteps
  import opened MasterInvariants
  import opened ShutdownOrder
  import opened RestartBudget
  import opened ManualLaunch

  // ----- removals concern live processes --------------------------------------------------------

  ghost predicate RemovalsLive(s: State) { forall m :: m in s.removePending ==> Live(s.children, m) }

  /** From s to r nobody left and no removal was added. */
  ghost predicate NobodyLeft(s: State, r: State) {
    r.removePending == s.removePending && forall m :: Live(s.children, m) ==> Live(r.children, m)
  }

  lemma NobodyTrans(s: State, m: State, r: State)
    requires NobodyLeft(s, m) && NobodyLeft(m, r)
    ensures NobodyLeft(s, r)
  {}

  lemma LaunchNobody(s: State, e: ProcessEntry, a: Attempt, via: Via)
    ensures NobodyLeft(s, LaunchChild(s, e, a, via).0)
  {
    LaunchFrame(s, e, a, via);
    var (r, o) := LaunchChild(s, e, a, via);
    if o.Launched? {
      forall m | Live(s.children, m) ensures Live(r.children, m) { LiveAppend(s.children, r.children[|s.children|], m); }
    }
    hide LaunchChild;
  }

  lemma {:induction false} LaunchEachNobody(s: State, names: seq<Name>, source: Name, attempts: map<Name, Attempt>, via: Via)
    ensures NobodyLeft(s, LaunchEach(s, names, source, attempts, via))
    decreases |names|
  {
    if names != [] {
      var n := names[0];
      var e := FindEntry(s.registry, n);
      var l := if via.Startup? && Live(s.children, n) then s
               else LaunchWithReader(s, n, source, AttemptFor(attempts, n), via);
      if e.Some? { LaunchNobody(s.(channels := PreRegister(s.channels, n, source)), e.value, AttemptFor(attempts, n), via); }
      assert NobodyLeft(s, l);
      hide LaunchWithReader, NobodyLeft, FindChild, FindEntry;
      LaunchEachNobody(l, names[1..], source, attempts, via);
      NobodyTrans(s, l, LaunchEach(s, names, source, attempts, via));
    }
  }

  lemma KillNobody(s: State, r: State, killer: Killer)
    requires KillFrame(s, r, killer)
    ensures NobodyLeft(s, r)
  {
    MilderLive(s.children, r.children);
  }

  lemma {:induction false} SendNobody(s: State)
    ensures SendCurrentBatch(s).children == s.children && SendCurrentBatch(s).removePending == s.removePending
    decreases |s.batches| - s.batchIndex
  {
    if s.batchIndex < |s.batches| && !AnyLive(s.children, s.batches[s.batchIndex]) {
      SendNobody(s.(batchIndex := s.batchIndex + 1));
    }
  }

  lemma StartNobody(s: State, target: Name, scanned: Option<ProcessEntry>, a: Attempt)
    ensures NobodyLeft(s, StartRequest(s, target, scanned, a))
  {
    hide LaunchChild, FindEntry, FindChild, PreRegister, SourceReady;
    var known := FindEntry(s.registry, target);
    if known.Some? || scanned.Some? {
      var r := if known.None? then s.(registry := s.registry + [scanned.value]) else s;
      var e := if known.None? then scanned.value else known.value;
      LaunchNobody(r, e, a, Request);
      LaunchNobody(r.(channels := PreRegister(r.channels, e.name, e.mdSource)), e, a, Request);
    }
  }

  lemma ReadyNobody(s: State, source: Name, attempts: map<Name, Attempt>)
    ensures NobodyLeft(s, MdStarted(s, source, attempts))
  {
    if source in s.channels {
      var d := s.(channels := s.channels[source := s.channels[source].(ready := true)], tm := Drop(s.tm, ReadySlot(source)));
      if source in d.pending {
        LaunchEachNobody(d.(pending := d.pending - {source}), d.pending[source], source, attempts, LateReady);
      }
    }
    hide LaunchEach, Drop, FindChild;
  }

  lemma StopRemovals(s: State, target: Name)
    requires RemovalsLive(s)
    ensures RemovalsLive(StopRequest(s, target)) && RemovalsLive(RemoveRequest(s, target))
  {
    hide Drop, Arm, FindEntry, FindChild, Unregister, TombstoneMdChannel;
  }

  lemma ExitRemovals(s: State, c: Child, code: int)
    requires Core(s) && RemovalsLive(s) && c in s.children
    ensures RemovalsLive(OnChildExit(s, c, code))
  {
    var d := ExitCleanup(s, c, code);
    SendNobody(d.(tm := Drop(d.tm, BatchSlot), batchIndex := d.batchIndex + 1));
    forall m | m in d.removePending ensures Live(d.children, m) {
      var x := FindChild(s.children, m).value;
      FindIsUnique(s.children, x);
      FindIsUnique(s.children, c);
      assert x in d.children;
    }
    hide Drop, Arm, ExitChannels, SendCurrentBatch, FindEntry, FindChild;
  }

  lemma HandlersNobody(s: State, h: Handler, a: Attempt)
    ensures h.RestartWait? ==> NobodyLeft(s, OnRestartTimer(s, h, a))
    ensures h.StopWait? ==> NobodyLeft(s, OnStopTimer(s, h))
    ensures h.ReadyWait? ==> NobodyLeft(s, OnReadyTimer(s, h.source))
  {
    if h.RestartWait? { LaunchNobody(s.(tm := Drop(s.tm, RestartSlot(h.name))), h.entry, a, Restart); }
    if h.StopWait? {
      var d := s.(tm := Drop(s.tm, StopSlot(h.name)));
      var c := ChildById(d.children, h.childId);
      if c.Some? { KillOne(d, c.value, StopTimer); }
    }
    if h.ReadyWait? {
      var d := s.(tm := Drop(s.tm, ReadySlot(h.source)));
      var c := FindChild(d.children, h.source);
      if c.Some? { KillOne(d, c.value, ReadyTimer); }
    }
    hide LaunchChild, Drop, ForceKill, ChildById, FindChild, StrategiesBoundTo, AnyLive;
  }

  lemma KillOne(s: State, c: Child, killer: Killer)
    requires !killer.BatchTimer?
    ensures NobodyLeft(s, ForceKill(s, c, killer))
  {
    OneKillFrame(s, c, killer);
    KillNobody(s, ForceKill(s, c, killer), killer);
  }

  lemma TimerNobody(s: State, id: nat, a: Attempt)
    ensures NobodyLeft(s, RunTimer(s, id, a))
  {
    if id in s.tm.waits {
      var h := s.tm.waits[id].handler;
      var d := s.(tm := Taken(s.tm, id));
      HandlersNobody(d, h, a);
      if h.BatchWait? && h.armedIndex == s.batchIndex && h.armedIndex < |s.batches| {
        KillEachFrame(d, s.batches[h.armedIndex], BatchTimer(h.armedIndex));
        KillNobody(d, KillEach(d, s.batches[h.armedIndex], BatchTimer(h.armedIndex)), BatchTimer(h.armedIndex));
      }
    }
    hide OnRestartTimer, OnStopTimer, OnReadyTimer, KillEach, Drop, FindChild;
  }

  lemma ShutdownNobody(s: State)
    ensures Shutdown(s).children == s.children && Shutdown(s).removePending == s.removePending
  {
    var batches := BuildShutdownBatches(RunningPairs(s.children));
    SendNobody(s.(shuttingDown := true, tm := DropNamed(s.tm), restartCounts := map[], pending := map[],
                  batches := batches, batchIndex := 0, log := s.log + [ShutdownBegun(batches)]));
    hide BuildShutdownBatches, DropNamed, SendCurrentBatch, Drop;
  }

  lemma RemovalsKept(s: State, step: Step)
    requires Core(s) && RemovalsLive(s)
    ensures RemovalsLive(Next(s, step))
  {
    hide LaunchChild, LaunchEach, ParkEach, StartRequest, StopRequest, RemoveRequest, MdStarted, OnChildExit, RunTimer, Shutdown,
         TerminateFrom, Core, FindChild;
    match step
    case StartupLaunchStep(e, a) => LaunchNobody(s, e, a, Startup);
    case StartupPromoteStep(source, attempts) =>
      LaunchEachNobody(s, StrategiesBoundTo(s.registry, source), source, attempts, Startup);
    case StartupParkStep(source) => ParkEachOrdinary(s, source, StrategiesBoundTo(s.registry, source));
    case StartStep(target, scanned, a) => StartNobody(s, target, scanned, a);
    case StopStep(target) => StopRemovals(s, target);
    case RemoveStep(target) => StopRemovals(s, target);
    case MdStartedStep(source, attempts) => ReadyNobody(s, source, attempts);
    case ExitStep(id, code) =>
      var c := ChildById(s.children, id);
      if c.Some? { ExitRemovals(s, c.value, code); }
    case TimerStep(t, a) => TimerNobody(s, t, a);
    case ShutdownStep => ShutdownNobody(s);
    case ForceAllStep =>
      TerminateFromFrame(s, 0);
      KillNobody(s, TerminateFrom(s, 0), ForceAll);
    case _ =>
  }

  lemma {:induction false} RemovalsOverRun(s: State, steps: seq<Step>)
    requires Core(s) && RemovalsLive(s)
    ensures Core(Run(s, steps)) && RemovalsLive(Run(s, steps))
    decreases |steps|
  {
    if steps != [] {
      CoreKept(s, steps[0]);
      RemovalsKept(s, steps[0]);
      hide Core, RemovalsLive, Next;
      RemovalsOverRun(Next(s, steps[0]), steps[1..]);
    }
  }

  // ----- the four ways to launch by hand --------------------------------------------------------

  predicate ByHand(step: Step) {
    step.StartStep? || step.MdStartedStep? || step.StartupLaunchStep? || step.StartupPromoteStep?
  }

  /** The queue of expired restarts of n is the same. */
  ghost predicate SameQueue(s: State, r: State, n: Name) { RestartQueued(r.tm, n) <==> RestartQueued(s.tm, n) }

  lemma QueueArm(tm: Timers, h: Handler, n: Name)
    requires (forall t :: t in tm.waits ==> t < tm.next) && !h.RestartWait?
    ensures RestartQueued(Arm(tm, h), n) <==> RestartQueued(tm, n)
  {
    DropNext(tm, SlotOf(h));
    forall t | Queued(tm, t, n) ensures Queued(Arm(tm, h), t, n) { ArmKeepsQueued(tm, h, t, n); }
    forall t | Queued(Arm(tm, h), t, n) ensures Queued(tm, t, n) {}
    QueuedIs(tm, n);
    QueuedIs(Arm(tm, h), n);
  }

  lemma QueuedIs(tm: Timers, n: Name)
    ensures RestartQueued(tm, n) <==> exists t :: Queued(tm, t, n)
  {
    if RestartQueued(tm, n) {
      var t :| Armed(tm, t, n) && tm.waits[t].wait.Expired?;
      assert Queued(tm, t, n);
    }
    if t :| Queued(tm, t, n) { assert Armed(tm, t, n); }
  }

  lemma QueueDrop(tm: Timers, k: Slot, n: Name)
    ensures RestartQueued(Drop(tm, k), n) <==> RestartQueued(tm, n)
  {
    forall t ensures Queued(Drop(tm, k), t, n) <==> Queued(tm, t, n) {}
    QueuedIs(tm, n);
    QueuedIs(Drop(tm, k), n);
  }

  lemma SpawnQueue(s: State, e: ProcessEntry, via: Via, n: Name)
    requires TimersOk(s.tm)
    ensures SameQueue(s, Spawn(s, e, via), n)
  {
    var d := Drop(s.tm, RestartSlot(e.name));
    DropKeeps(s.tm, RestartSlot(e.name));
    QueueDrop(s.tm, RestartSlot(e.name), n);
    QueueArm(d, ReadyWait(e.name), n);
    hide Drop, Arm, RestartQueued;
  }

  /** What a launch by hand promises, from s to r. */
  ghost predicate HandOk(s: State, r: State, n: Name) {
    && SameQueue(s, r, n)
    && (FreshLaunch(s, n) || !NoManual(s.log, r.log, n) ==> FreshLaunch(r, n))
    && r.registry == s.registry && !r.shuttingDown && s.log <= r.log
  }

  /** A launch that spawns. */
  lemma SpawnHand(s: State, e: ProcessEntry, a: Attempt, via: Via, n: Name)
    requires Core(s) && !s.shuttingDown && RemovalsLive(s) && !via.Restart? && FindEntry(s.registry, e.name).Some?
    requires LaunchChild(s, e, a, via).1.Launched?
    ensures HandOk(s, LaunchChild(s, e, a, via).0, n)
  {
    hide FindEntry, RestartQueued, Drop, Arm;
    LaunchKeeps(s, e, a, via);
    LaunchFrame(s, e, a, via);
    LaunchNobody(s, e, a, via);
    var l := LaunchChild(s, e, a, via).0;
    var c := if e.category.GatewayMd?
             then s.(channels := CreateMdChannel(s.channels, e.name, a.pageSize)) else s;
    SpawnQueue(c, e, via, n);
    LiveAppend(s.children, l.children[|s.children|], e.name);
    assert l.restartCounts == s.restartCounts - {e.name} && l.tm == Spawn(c, e, via).tm && c.tm == s.tm;
    hide LaunchChild, Spawn, Core, FindChild, CreateMdChannel;
    forall i | |s.log| <= i < |l.log| ensures Manual(l.log[i], n) ==> e.name == n {}
  }

  /** One launch: it is the one by hand of n, or it leaves n's count, timers and policy alone. */
  lemma LaunchHand(s: State, e: ProcessEntry, a: Attempt, via: Via, n: Name)
    requires Core(s) && !s.shuttingDown && RemovalsLive(s) && !via.Restart? && FindEntry(s.registry, e.name).Some?
    ensures HandOk(s, LaunchChild(s, e, a, via).0, n)
  {
    var (l, o) := LaunchChild(s, e, a, via);
    if o.Launched? {
      SpawnHand(s, e, a, via, n);
    } else {
      hide FindEntry, RestartQueued;
      LaunchKeeps(s, e, a, via);
      LaunchFrame(s, e, a, via);
      assert n !in s.restartCounts ==> n !in l.restartCounts;
      hide LaunchChild, Core;
    }
  }

  lemma HandTrans(s: State, m: State, r: State, n: Name)
    requires HandOk(s, m, n) && HandOk(m, r, n)
    ensures HandOk(s, r, n)
  {
    hide FreshLaunch, RestartQueued;
    if NoManual(s.log, m.log, n) && NoManual(m.log, r.log, n) {
      forall i | |s.log| <= i < |r.log| ensures !Manual(r.log[i], n) {
        if i < |m.log| { assert r.log[i] == m.log[i]; }
      }
    }
  }

  lemma WithReaderHand(s: State, m: Name, source: Name, a: Attempt, via: Via, n: Name)
    requires Core(s) && !s.shuttingDown && RemovalsLive(s) && !via.Restart?
    ensures var l := LaunchWithReader(s, m, source, a, via); HandOk(s, l, n) && Core(l) && RemovalsLive(l)
  {
    var e := FindEntry(s.registry, m);
    if e.Some? {
      var p := s.(channels := PreRegister(s.channels, m, source));
      LaunchHand(p, e.value, a, via, n);
      LaunchKeeps(p, e.value, a, via);
      LaunchNobody(p, e.value, a, via);
      hide LaunchChild, PreRegister, RestartQueued, FindChild;
    }
  }

  lemma {:induction false} LaunchEachHand(s: State, names: seq<Name>, source: Name, attempts: map<Name, Attempt>, via: Via, n: Name)
    requires Core(s) && !s.shuttingDown && RemovalsLive(s) && !via.Restart?
    ensures HandOk(s, LaunchEach(s, names, source, attempts, via), n)
    decreases |names|
  {
    if names != [] {
      var m := names[0];
      var a := AttemptFor(attempts, m);
      WithReaderHand(s, m, source, a, via, n);
      hide LaunchWithReader, Core, RemovalsLive, FindChild, FreshLaunch, RestartQueued;
      var l := if via.Startup? && Live(s.children, m) then s else LaunchWithReader(s, m, source, a, via);
      LaunchEachHand(l, names[1..], source, attempts, via, n);
      HandTrans(s, l, LaunchEach(s, names, source, attempts, via), n);
    }
  }

  lemma StartHand(s: State, target: Name, scanned: Option<ProcessEntry>, a: Attempt, n: Name)
    requires Core(s) && !s.shuttingDown && RemovalsLive(s)
    requires !NoManual(s.log, StartRequest(s, target, scanned, a).log, n)
    ensures var r := StartRequest(s, target, scanned, a); FreshLaunch(r, n) && SameQueue(s, r, n)
  {
    hide LaunchChild, FindChild, PreRegister, SourceReady, Core, RestartQueued, FreshLaunch, RemovalsLive;
    var known := FindEntry(s.registry, target);
    if known.Some? || scanned.Some? {
      var r := if known.None? then s.(registry := s.registry + [scanned.value]) else s;
      var e := if known.None? then scanned.value else known.value;
      var p := r.(channels := PreRegister(r.channels, e.name, e.mdSource));
      SameButRegistry(s, r);
      SameButRegistry(r, p);
      assert e in r.registry && FindEntry(r.registry, e.name).Some?;
      hide FindEntry;
      LaunchHand(r, e, a, Request, n);
      LaunchHand(p, e, a, Request, n);
    }
  }

  lemma SameButRegistry(s: State, r: State)
    requires r == s.(registry := r.registry, channels := r.channels)
    ensures Core(s) ==> Core(r)
    ensures RemovalsLive(s) ==> RemovalsLive(r)
  {}

  lemma ReadyHand(s: State, source: Name, attempts: map<Name, Attempt>, n: Name)
    requires Core(s) && !s.shuttingDown && RemovalsLive(s)
    requires !NoManual(s.log, MdStarted(s, source, attempts).log, n)
    ensures var r := MdStarted(s, source, attempts); FreshLaunch(r, n) && SameQueue(s, r, n)
  {
    var d := s.(channels := s.channels[source := s.channels[source].(ready := true)], tm := Drop(s.tm, ReadySlot(source)));
    DropKeeps(s.tm, ReadySlot(source));
    QueueDrop(s.tm, ReadySlot(source), n);
    assert Core(d);
    var q := d.(pending := d.pending - {source});
    LaunchEachHand(q, s.pending[source], source, attempts, LateReady, n);
    hide LaunchEach, Drop, FindChild, RestartQueued, Core;
  }

  /** A step that launches n by hand leaves n freshly launched, and the queue of its expired
      restarts as it was: cancelling does not reach into the queue. */
  lemma ByHandIsFresh(s: State, step: Step, n: Name)
    requires Core(s) && RemovalsLive(s) && !s.shuttingDown
    requires ByHand(step) && !NoManual(s.log, Next(s, step).log, n)
    ensures FreshLaunch(Next(s, step), n) && SameQueue(s, Next(s, step), n)
  {
    hide LaunchChild, LaunchEach, StartRequest, MdStarted, Core, FindChild, RestartQueued, FreshLaunch;
    match step
    case StartStep(target, scanned, a) => StartHand(s, target, scanned, a, n);
    case MdStartedStep(source, attempts) => ReadyHand(s, source, attempts, n);
    case StartupLaunchStep(e, a) => LaunchHand(s, e, a, Startup, n);
    case StartupPromoteStep(source, attempts) =>
      LaunchEachHand(s, StrategiesBoundTo(s.registry, source), source, attempts, Startup, n);
  }

  /** From such a state a crash chain begins, unless an expired restart was queued. */
  lemma ByHandStartsChain(s: State, step: Step, n: Name)
    requires Core(s) && RemovalsLive(s) && !s.shuttingDown
    requires ByHand(step) && !NoManual(s.log, Next(s, step).log, n)
    ensures ChainStart(Next(s, step), n) <==> !RestartQueued(s.tm, n)
  {
    ByHandIsFresh(s, step, n);
    ArmedIsQueued(Next(s, step), n);
    hide Next, Core, RestartQueued;
  }

  /** The budget after any launch by hand of any run: outside a shutdown, n is restarted
      automatically no more often than its policy allows, as long as nobody launches it by hand
      again, if and only if no expired restart of n was queued when it was launched. */
  lemma BudgetAfterLaunchExactly(registry: seq<ProcessEntry>, steps: seq<Step>, step: Step, n: Name)
    requires var s := Run(Initial(registry), steps);
      !s.shuttingDown && ByHand(step) && !NoManual(s.log, Next(s, step).log, n)
    ensures var s := Run(Initial(registry), steps);
      var r := Next(s, step);
      && FindEntry(r.registry, n).Some?
      && (StaysWithin(r, n, Allowed(FindEntry(r.registry, n).value.restart)) <==> !RestartQueued(s.tm, n))
  {
    RemovalsOverRun(Initial(registry), steps);
    var s := Run(Initial(registry), steps);
    ByHandIsFresh(s, step, n);
    ManualBudgetExactly(Next(s, step), n);
    hide Run, Next, StaysWithin, RestartQueued;
  }
}
