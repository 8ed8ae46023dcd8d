/** The process supervisor as an object: children, timers, counters and shutdown batches updated
    in place, with the loops of process_supervisor.cpp. Each method is proved to do to the state what
    MasterSteps says of the same handler, so the run theorems are about these methods. */
module Supervisor {
  import opened Basics
  import opened MasterTypes
  import opened MasterSteps
  import opened MarketChannels

  class ProcessSupervisor {
    const shm: ShmManager
    var registry: seq<ProcessEntry>
    var children: seq<Child>
    var nextChild: nat
    var tm: Timers
    var restartCounts: map<Name, int>
    var removePending: set<Name>
    var forceKilled: set<Name>
    var pending: map<Name, seq<Name>>
    var shuttingDown: bool
    var batches: seq<seq<Name>>
    var batchIndex: nat
    ghost var log: seq<Event>

    ghost function View(): State
      reads this, shm
    {
      State(registry, children, nextChild, tm, restartCounts, removePending, forceKilled, pending, shm.channels,
            shuttingDown, batches, batchIndex, log)
    }

    constructor (registry: seq<ProcessEntry>)
      ensures fresh(shm) && View() == Initial(registry)
    {
      this.registry := registry;
      children, nextChild, tm := [], 0, Timers(map[], map[], 0);
      restartCounts, removePending, forceKilled, pending := map[], {}, {}, map[];
      shuttingDown, batches, batchIndex, log := false, [], 0, [];
      shm := new ShmManager();
    }

    // ----- lookups ------------------------------------------------------------------------------

    method FindChild(n: Name) returns (c: Option<Child>)
      ensures c == MasterSteps.FindChild(children, n)
    {
      for i := 0 to |children|
        invariant MasterSteps.FindChild(children, n) == MasterSteps.FindChild(children[i..], n)
      {
        assert children[i..][1..] == children[i + 1..];
        if children[i].entry.name == n { return Some(children[i]); }
      }
      return None;
    }

    method FindEntry(n: Name) returns (e: Option<ProcessEntry>)
      ensures e == MasterSteps.FindEntry(registry, n)
    {
      for i := 0 to |registry|
        invariant MasterSteps.FindEntry(registry, n) == MasterSteps.FindEntry(registry[i..], n)
      {
        assert registry[i..][1..] == registry[i + 1..];
        if registry[i].name == n { return Some(registry[i]); }
      }
      return None;
    }

    method StrategiesBoundTo(source: Name) returns (names: seq<Name>)
      ensures names == MasterSteps.StrategiesBoundTo(registry, source)
    {
      names := [];
      for i := 0 to |registry|
        invariant names + MasterSteps.StrategiesBoundTo(registry[i..], source) == MasterSteps.StrategiesBoundTo(registry, source)
      {
        assert registry[i..][1..] == registry[i + 1..];
        if registry[i].category.Strategy? && registry[i].mdSource == source { names := names + [registry[i].name]; }
      }
    }

    method AnyLive(names: seq<Name>) returns (any: bool)
      ensures any == MasterSteps.AnyLive(children, names)
    {
      for i := 0 to |names|
        invariant forall j :: 0 <= j < i ==> !Live(children, names[j])
      {
        var c := FindChild(names[i]);
        if c.Some? {
          assert names[i] in names && Live(children, names[i]);
          return true;
        }
      }
      return false;
    }

    // ----- timers -------------------------------------------------------------------------------

    method Drop(k: Slot)
      modifies this`tm
      ensures tm == MasterSteps.Drop(old(tm), k)
    {
      if k in tm.slots {
        var id := tm.slots[k];
        if id in tm.waits && tm.waits[id].wait.Waiting? {
          tm := tm.(waits := tm.waits[id := tm.waits[id].(wait := Wait.Cancelled)]);
        }
        tm := tm.(slots := tm.slots - {k});
      }
    }

    method Arm(h: Handler)
      modifies this`tm
      ensures tm == MasterSteps.Arm(old(tm), h)
    {
      Drop(SlotOf(h));
      tm := Timers(tm.waits[tm.next := Timer(h, Waiting)], tm.slots[SlotOf(h) := tm.next], tm.next + 1);
    }

    method CancelPendingRestart(n: Name)
      modifies this`tm, this`restartCounts
      ensures tm == MasterSteps.Drop(old(tm), RestartSlot(n)) && restartCounts == old(restartCounts) - {n}
    {
      Drop(RestartSlot(n));
      restartCounts := restartCounts - {n};
    }

    // ----- launching ----------------------------------------------------------------------------

    method LaunchChild(e: ProcessEntry, a: Attempt, via: Via) returns (o: Outcome)
      modifies this, shm
      ensures (View(), o) == MasterSteps.LaunchChild(old(View()), e, a, via)
    {
      hide MasterSteps.Drop, MasterSteps.Arm, MasterSteps.FindChild, MasterSteps.StrategiesBoundTo, MasterSteps.CreateMdChannel;
      var existing := FindChild(e.name);
      if existing.Some? { return NotLaunched; }
      if a.ExeMissing? {
        restartCounts := restartCounts - {e.name};
        return NotLaunched;
      }
      if e.category.GatewayMd? {
        var bound := StrategiesBoundTo(e.name);
        var live := AnyLive(bound);
        var threw := shm.CreateMdChannel(e.name, a.pageSize, live);
        if threw { return Threw; }
      }
      if a.SpawnFails? {
        restartCounts := restartCounts - {e.name};
        return NotLaunched;
      }
      Spawned(e, via);
      return Launched;
    }

    /** What follows a successful spawn. */
    method Spawned(e: ProcessEntry, via: Via)
      modifies this
      ensures View() == Spawn(old(View()), e, via)
    {
      hide MasterSteps.Drop, MasterSteps.Arm;
      CancelPendingRestart(e.name);
      ghost var bound := BoundChannel(shm.channels, e);
      var layout: Option<nat> := None;
      if e.category.Strategy? && e.mdSource in shm.channels { layout := Some(shm.channels[e.mdSource].lastPageSize); }
      log := log + [Event.Spawned(nextChild, e, via, bound)];
      if e.category.GatewayMd? { Arm(ReadyWait(e.name)); }
      children := children + [Child(nextChild, e, ChildRunning, layout)];
      nextChild := nextChild + 1;
    }

    method LaunchWithReader(n: Name, source: Name, a: Attempt, via: Via)
      modifies this, shm
      ensures View() == MasterSteps.LaunchWithReader(old(View()), n, source, a, via)
    {
      hide MasterSteps.LaunchChild, MasterSteps.FindEntry, MasterSteps.PreRegister;
      var e := FindEntry(n);
      if e.None? { return; }
      shm.PreRegister(n, source);
      var _ := LaunchChild(e.value, a, via);
    }

    /** The strategies of a source that was found ready during start-up. */
    method StartStrategiesForSource(source: Name, attempts: map<Name, Attempt>)
      modifies this, shm
      ensures View() == LaunchEach(old(View()), MasterSteps.StrategiesBoundTo(old(registry), source), source, attempts, Startup)
    {
      hide MasterSteps.LaunchWithReader, MasterSteps.StrategiesBoundTo, MasterSteps.FindChild;
      var names := StrategiesBoundTo(source);
      for i := 0 to |names|
        invariant LaunchEach(View(), names[i..], source, attempts, Startup) == LaunchEach(old(View()), names, source, attempts, Startup)
      {
        assert names[i..][1..] == names[i + 1..];
        var running := FindChild(names[i]);
        if running.None? { LaunchWithReader(names[i], source, AttemptFor(attempts, names[i]), Startup); }
      }
    }

    method OnMdChannelReady(source: Name, attempts: map<Name, Attempt>)
      modifies this, shm
      ensures View() == OnReady(old(View()), source, attempts)
    {
      hide MasterSteps.LaunchWithReader, MasterSteps.Drop, MasterSteps.FindChild;
      Drop(ReadySlot(source));
      if source !in pending { return; }
      var names := pending[source];
      pending := pending - {source};
      ghost var start := View();
      for i := 0 to |names|
        invariant LaunchEach(View(), names[i..], source, attempts, LateReady) == LaunchEach(start, names, source, attempts, LateReady)
      {
        assert names[i..][1..] == names[i + 1..];
        LaunchWithReader(names[i], source, AttemptFor(attempts, names[i]), LateReady);
      }
    }

    method HandleMdStarted(source: Name, attempts: map<Name, Attempt>)
      modifies this, shm
      ensures View() == MdStarted(old(View()), source, attempts)
    {
      hide OnReady;
      var accepted := shm.MarkReady(source);
      if accepted { OnMdChannelReady(source, attempts); }
    }

    method ParkStrategy(source: Name, n: Name)
      modifies this`pending
      ensures pending == Park(old(View()), source, n).pending
    {
      if source !in pending { pending := pending[source := []]; }
      if n !in pending[source] { pending := pending[source := pending[source] + [n]]; }
      assert pending == old(pending)[source := pending[source]];
    }

    method LaunchRegisteredProcess(e: ProcessEntry, a: Attempt)
      modifies this, shm
      ensures View() == LaunchRegistered(old(View()), e, a)
    {
      hide MasterSteps.LaunchChild, MasterSteps.PreRegister, Park;
      if e.category.Strategy? && e.mdSource != "" {
        if !SourceReady(shm.channels, e.mdSource) {
          ParkFrame(View(), e.mdSource, e.name);
          ParkStrategy(e.mdSource, e.name);
          return;
        }
        shm.PreRegister(e.name, e.mdSource);
      }
      var _ := LaunchChild(e, a, Request);
    }

    // ----- control requests ---------------------------------------------------------------------

    method HandleStart(target: Name, scanned: Option<ProcessEntry>, a: Attempt)
      modifies this, shm
      ensures View() == StartRequest(old(View()), target, scanned, a)
    {
      hide LaunchRegistered, MasterSteps.FindEntry, MasterSteps.FindChild;
      if shuttingDown { return; }
      var known := FindEntry(target);
      var e: ProcessEntry;
      if known.None? {
        if scanned.None? || !IsGateway(scanned.value) || scanned.value.name != target { return; }
        e := scanned.value;
        registry := registry + [e];
      } else {
        e := known.value;
      }
      var running := FindChild(target);
      if running.Some? { return; }
      LaunchRegisteredProcess(e, a);
    }

    method StopProcess(n: Name)
      modifies this
      ensures View() == MasterSteps.StopProcess(old(View()), n)
    {
      hide MasterSteps.Arm, MasterSteps.FindChild;
      if shuttingDown { return; }
      var c := FindChild(n);
      if c.None? { return; }
      log := log + [ShutdownSent(c.value.entry.name)];
      Arm(StopWait(c.value.id, c.value.entry.name));
    }

    method HandleStop(target: Name)
      modifies this
      ensures View() == StopRequest(old(View()), target)
    {
      hide MasterSteps.StopProcess, MasterSteps.Drop, MasterSteps.FindEntry, MasterSteps.FindChild;
      var e := FindEntry(target);
      if e.None? { return; }
      var c := FindChild(target);
      if c.None? {
        CancelPendingRestart(target);
        return;
      }
      StopProcess(target);
    }

    method UnregisterEntry(n: Name)
      modifies this`registry
      ensures registry == Unregister(old(registry), n)
    {
      var kept: seq<ProcessEntry> := [];
      for i := 0 to |registry|
        invariant registry == old(registry)
        invariant kept + Unregister(registry[i..], n) == Unregister(registry, n)
      {
        UnregisterStep(registry, i, n, kept);
        hide Unregister;
        if registry[i].name != n { kept := kept + [registry[i]]; }
      }
      registry := kept;
    }

    method HandleRemove(target: Name)
      modifies this, shm
      ensures View() == RemoveRequest(old(View()), target)
    {
      hide MasterSteps.StopProcess, MasterSteps.Drop, MasterSteps.FindEntry, MasterSteps.FindChild, Unregister, TombstoneMdChannel;
      var running := FindChild(target);
      var e := FindEntry(target);
      if e.None? { return; }
      UnregisterEntry(target);
      removePending := removePending + {target};
      if running.Some? {
        StopProcess(target);
      } else {
        NotifyRemovedForInactive(target, e.value.category);
        assert (old(removePending) + {target}) - {target} == old(removePending) - {target};
      }
    }

    method NotifyRemovedForInactive(n: Name, category: Category)
      modifies this, shm
      ensures View() == var d := MasterSteps.CancelPendingRestart(old(View()), n);
        d.(channels := if category.GatewayMd? then TombstoneMdChannel(d.channels, n) else d.channels,
           removePending := d.removePending - {n})
    {
      hide MasterSteps.Drop, TombstoneMdChannel;
      CancelPendingRestart(n);
      if category.GatewayMd? { shm.TombstoneMdChannel(n); }
      removePending := removePending - {n};
    }

    /** update_entry changes the first entry of the name. */
    method UpdateEntryPolicy(n: Name, p: RestartPolicy)
      modifies this
      ensures View() == SetPolicy(old(View()), n, p)
    {
      for i := 0 to |registry|
        invariant View() == old(View())
        invariant registry[..i] + SetPolicies(registry[i..], n, p) == SetPolicies(registry, n, p)
      {
        assert registry[i..][1..] == registry[i + 1..];
        if registry[i].name == n {
          registry := registry[i := registry[i].(restart := p)];
          return;
        }
      }
    }

    method HandleReaderRegister(channel: Name, subscriber: Name) returns (ok: bool)
      modifies this, shm
      ensures View() == ReaderRegister(old(View()), channel, subscriber)
      ensures ok <==> RegisterAccepted(old(View()), channel, subscriber)
    {
      hide IsRegisteredProcess;
      ok := shm.HandleReaderRegister(channel, subscriber, IsRegisteredProcess(registry, subscriber));
    }

    method HandleReaderUnregister(channel: Name, subscriber: Name) returns (ok: bool)
      modifies this, shm
      ensures View() == ReaderUnregister(old(View()), channel, subscriber)
    {
      hide IsRegisteredProcess;
      ok := shm.HandleReaderUnregister(channel, subscriber, IsRegisteredProcess(registry, subscriber));
    }

    // ----- termination --------------------------------------------------------------------------

    method Terminate(c: Child, killer: Killer)
      modifies this
      ensures View() == MasterSteps.Terminate(old(View()), c, killer)
    {
      ghost var marked := MarkStopping(children, c.id);
      for i := 0 to |children|
        invariant View() == old(View()).(children := children) && |children| == |marked|
        invariant forall j :: 0 <= j < i ==> children[j] == marked[j]
        invariant forall j :: i <= j < |children| ==> children[j] == old(children)[j]
      {
        if children[i].id == c.id { children := children[i := children[i].(state := ChildStopping)]; }
      }
      assert children == marked;
      log := log + [Terminated(c.entry.name, killer)];
    }

    method ForceKill(c: Child, killer: Killer)
      modifies this
      ensures View() == MasterSteps.ForceKill(old(View()), c, killer)
    {
      hide MarkStopping;
      forceKilled := forceKilled + {c.entry.name};
      Terminate(c, killer);
    }

    method ForceTerminateBatch(armed: nat)
      modifies this
      ensures View() == MasterSteps.ForceTerminateBatch(old(View()), armed)
    {
      hide MasterSteps.ForceKill, MasterSteps.FindChild;
      if armed != batchIndex || armed >= |batches| { return; }
      var names := batches[armed];
      for i := 0 to |names|
        invariant KillEach(View(), names[i..], BatchTimer(armed)) == KillEach(old(View()), names, BatchTimer(armed))
      {
        assert names[i..][1..] == names[i + 1..];
        var c := FindChild(names[i]);
        if c.Some? { ForceKill(c.value, BatchTimer(armed)); }
      }
    }

    method ForceTerminateAll()
      modifies this
      ensures View() == MasterSteps.ForceTerminateAll(old(View()))
    {
      for i := 0 to |children|
        invariant |children| == |old(children)|
        invariant TerminateFrom(View(), i) == TerminateFrom(old(View()), 0)
      {
        Terminate(children[i], ForceAll);
      }
    }

    // ----- shutdown -----------------------------------------------------------------------------

    static method BuildShutdownBatches(running: seq<(Name, Category)>) returns (built: seq<seq<Name>>)
      ensures built == MasterSteps.BuildShutdownBatches(running)
    {
      var order := SHUTDOWN_ORDER;
      built := [];
      for i := 0 to |order|
        invariant built + BatchesFor(running, order[i..]) == BatchesFor(running, order)
      {
        BatchStep(running, order, i, built);
        hide BatchesFor, NamesIn;
        var names := NamesOf(running, order[i]);
        if names != [] { built := built + [names]; }
      }
    }

    static method NamesOf(running: seq<(Name, Category)>, cat: Category) returns (names: seq<Name>)
      ensures names == NamesIn(running, cat)
    {
      names := [];
      for k := 0 to |running|
        invariant names + NamesIn(running[k..], cat) == NamesIn(running, cat)
      {
        assert running[k..][1..] == running[k + 1..];
        if running[k].1 == cat { names := names + [running[k].0]; }
      }
    }

    method CheckShutdownComplete()
      modifies this
      ensures View() == CheckComplete(old(View()))
    {
      hide MasterSteps.Drop;
      if !shuttingDown { return; }
      if children != [] { return; }
      Drop(BatchSlot);
      log := log + [Completed];
    }

    /** Asks every live member of a batch to stop. */
    method SendShutdowns(names: seq<Name>) returns (any: bool)
      modifies this`log
      ensures any == MasterSteps.AnyLive(children, names)
      ensures log == old(log) + ShutdownFrames(children, names)
    {
      hide MasterSteps.FindChild;
      any := false;
      ghost var sent: seq<Event> := [];
      for i := 0 to |names|
        invariant any == MasterSteps.AnyLive(children, names[..i])
        invariant log == old(log) + sent && sent + ShutdownFrames(children, names[i..]) == ShutdownFrames(children, names)
      {
        FrameStep(children, names, i, sent);
        AnyLiveStep(children, names, i);
        hide ShutdownFrames, MasterSteps.AnyLive;
        var c := FindChild(names[i]);
        if c.Some? {
          any := true;
          sent := sent + [ShutdownSent(names[i])];
          log := log + [ShutdownSent(names[i])];
        }
      }
      assert names[..|names|] == names;
    }

    method SendCurrentShutdownBatch()
      modifies this
      ensures View() == SendCurrentBatch(old(View()))
    {
      hide CheckComplete, MasterSteps.Arm, MasterSteps.AnyLive, ShutdownFrames;
      while batchIndex < |batches|
        invariant SendCurrentBatch(View()) == SendCurrentBatch(old(View()))
        decreases |batches| - batchIndex
      {
        ghost var before := log;
        var any := SendShutdowns(batches[batchIndex]);
        if any {
          Arm(BatchWait(batchIndex));
          return;
        }
        NoFrames(children, batches[batchIndex]);
        assert before + [] == before && log == before;
        batchIndex := batchIndex + 1;
      }
      CheckShutdownComplete();
    }

    method AdvanceShutdownBatch()
      modifies this
      ensures View() == AdvanceBatch(old(View()))
    {
      hide SendCurrentBatch, MasterSteps.Drop, MasterSteps.AnyLive;
      if !shuttingDown || batchIndex >= |batches| { return; }
      var any := AnyLive(batches[batchIndex]);
      if any { return; }
      Drop(BatchSlot);
      batchIndex := batchIndex + 1;
      SendCurrentShutdownBatch();
    }

    /** Cancels the stop, restart and readiness timers and forgets them. */
    method DropNamedTimers()
      modifies this`tm
      ensures tm == DropNamed(old(tm))
    {
      var left := tm.slots.Keys - {BatchSlot};
      while left != {}
        invariant left <= old(tm).slots.Keys - {BatchSlot} && PartlyDropped(old(tm), tm, left)
        decreases |left|
      {
        var k :| k in left;
        DropOne(old(tm), tm, k, left);
        left := left - {k};
        Drop(k);
      }
      AllDropped(old(tm), tm);
    }

    method Running() returns (running: seq<(Name, Category)>)
      ensures running == RunningPairs(children)
    {
      running := [];
      for i := 0 to |children|
        invariant |running| == i && forall j :: 0 <= j < i ==> running[j] == (children[j].entry.name, children[j].entry.category)
      {
        running := running + [(children[i].entry.name, children[i].entry.category)];
      }
    }

    /** Cancels what is pending and freezes the batches. */
    method BeginShutdown()
      modifies this
      ensures var frozen := MasterSteps.BuildShutdownBatches(RunningPairs(old(children)));
        View() == old(View()).(shuttingDown := true, tm := DropNamed(old(tm)), restartCounts := map[], pending := map[],
                               batches := frozen, batchIndex := 0, log := old(log) + [ShutdownBegun(frozen)])
    {
      hide DropNamed, MasterSteps.BuildShutdownBatches, RunningPairs;
      shuttingDown := true;
      DropNamedTimers();
      restartCounts := map[];
      pending := map[];
      var running := Running();
      batches := BuildShutdownBatches(running);
      batchIndex := 0;
      log := log + [ShutdownBegun(batches)];
    }

    method Shutdown()
      modifies this
      ensures View() == MasterSteps.Shutdown(old(View()))
    {
      hide SendCurrentBatch, CheckComplete, DropNamed, MasterSteps.BuildShutdownBatches, RunningPairs;
      if shuttingDown { return; }
      BeginShutdown();
      if batches == [] {
        CheckShutdownComplete();
        return;
      }
      SendCurrentShutdownBatch();
    }

    // ----- child exit ---------------------------------------------------------------------------

    method DropChild(id: nat)
      modifies this`children
      ensures children == RemoveChild(old(children), id)
    {
      var kept: seq<Child> := [];
      for i := 0 to |children|
        invariant children == old(children)
        invariant kept + RemoveChild(children[i..], id) == RemoveChild(children, id)
      {
        RemovalStep(children, i, id, kept);
        hide RemoveChild;
        if children[i].id != id { kept := kept + [children[i]]; }
      }
      children := kept;
    }

    /** The callback up to the restart decision. */
    method CleanUpAfter(c: Child, code: int) returns (removed: bool)
      modifies this, shm
      ensures View() == ExitCleanup(old(View()), c, code) && (removed <==> c.entry.name in old(removePending))
    {
      hide MasterSteps.Drop, RemoveChild, RemoveReaderEverywhere, MasterSteps.FindEntry, TombstoneMdChannel, CloseMdChannel;
      var n := c.entry.name;
      DropChild(c.id);
      Drop(StopSlot(n));
      removed := n in removePending;
      removePending := removePending - {n};
      shm.RemoveReaderFromAll(SubscriberName(c.entry));
      if c.entry.category.GatewayMd? {
        var again := FindEntry(n);
        if removed && again.None? { shm.TombstoneMdChannel(n); } else { shm.CloseMdChannel(n); }
      }
      forceKilled := forceKilled - {n};
      log := log + [Exited(c.id, n, code)];
    }

    method OnChildExit(c: Child, code: int)
      modifies this, shm
      ensures View() == MasterSteps.OnChildExit(old(View()), c, code)
    {
      hide ExitCleanup, AdvanceBatch, MasterSteps.FindEntry, MasterSteps.Arm;
      var n := c.entry.name;
      var removed := CleanUpAfter(c, code);
      if shuttingDown {
        AdvanceShutdownBatch();
        return;
      }
      if removed {
        restartCounts := restartCounts - {n};
        return;
      }
      if code == 0 {
        restartCounts := restartCounts - {n};
        return;
      }
      RestartAfterCrash(c);
    }

    method RestartAfterCrash(c: Child)
      modifies this
      ensures View() == AfterCrash(old(View()), c)
    {
      hide MasterSteps.FindEntry, MasterSteps.Arm;
      var n := c.entry.name;
      var latest := FindEntry(n);
      var effective := if latest.Some? then latest.value else c.entry;
      if !effective.restart.enabled {
        restartCounts := restartCounts - {n};
        return;
      }
      restartCounts := restartCounts[n := (if n in restartCounts then restartCounts[n] else 0) + 1];
      var count := restartCounts[n];
      if count > effective.restart.maxAttempts {
        restartCounts := restartCounts - {n};
        assert restartCounts == old(restartCounts) - {n};
        return;
      }
      Arm(RestartWait(n, effective, count));
    }

    // ----- timer callbacks ----------------------------------------------------------------------

    method OnRestartTimer(n: Name, e: ProcessEntry, count: int, a: Attempt)
      modifies this, shm
      ensures View() == MasterSteps.OnRestartTimer(old(View()), RestartWait(n, e, count), a)
    {
      hide MasterSteps.LaunchChild, MasterSteps.Drop;
      Drop(RestartSlot(n));
      if shuttingDown { return; }
      var o := LaunchChild(e, a, Restart);
      if o.Launched? { restartCounts := restartCounts[n := count]; }
    }

    method ChildById(id: nat) returns (c: Option<Child>)
      ensures c == MasterSteps.ChildById(children, id)
    {
      for i := 0 to |children|
        invariant MasterSteps.ChildById(children, id) == MasterSteps.ChildById(children[i..], id)
      {
        assert children[i..][1..] == children[i + 1..];
        if children[i].id == id { return Some(children[i]); }
      }
      return None;
    }

    method OnStopTimer(id: nat, n: Name)
      modifies this
      ensures View() == MasterSteps.OnStopTimer(old(View()), StopWait(id, n))
    {
      hide MasterSteps.Drop, MarkStopping, MasterSteps.ChildById;
      var c := ChildById(id);
      Drop(StopSlot(n));
      if c.Some? { ForceKill(c.value, StopTimer); }
    }

    method OnReadyTimer(source: Name)
      modifies this
      ensures View() == MasterSteps.OnReadyTimer(old(View()), source)
    {
      hide MasterSteps.Drop, MasterSteps.ForceKill, MasterSteps.FindChild, MasterSteps.StrategiesBoundTo, MasterSteps.AnyLive;
      Drop(ReadySlot(source));
      var bound := StrategiesBoundTo(source);
      var live := AnyLive(bound);
      if live {
        var c := FindChild(source);
        if c.Some? { ForceKill(c.value, ReadyTimer); }
      }
    }

    /** The event loop runs the handler of a timer that has expired or was cancelled. */
    method RunTimer(id: nat, a: Attempt)
      modifies this, shm
      ensures View() == MasterSteps.RunTimer(old(View()), id, a)
    {
      hide MasterSteps.OnRestartTimer, MasterSteps.OnStopTimer, MasterSteps.OnReadyTimer, MasterSteps.ForceTerminateBatch, MasterSteps.Drop;
      if id !in tm.waits || tm.waits[id].wait.Waiting? { return; }
      var t := tm.waits[id];
      tm := tm.(waits := tm.waits - {id});
      match t.handler {
        case RestartWait(n, e, count) => if t.wait.Expired? { OnRestartTimer(n, e, count, a); }
        case StopWait(childId, n) => if t.wait.Expired? { OnStopTimer(childId, n); } else { Drop(StopSlot(n)); }
        case ReadyWait(source) => if t.wait.Expired? { OnReadyTimer(source); }
        case BatchWait(armed) => if t.wait.Expired? { ForceTerminateBatch(armed); }
      }
    }
  }

  // ----- one step of a loop over a list -----------------------------------------------------------

  lemma UnregisterStep(es: seq<ProcessEntry>, i: nat, n: Name, kept: seq<ProcessEntry>)
    requires i < |es|
    ensures kept + Unregister(es[i..], n) == (if es[i].name == n then kept else kept + [es[i]]) + Unregister(es[i + 1..], n)
  {
    assert es[i..][1..] == es[i + 1..];
    assert Unregister(es[i..], n) == (if es[i].name == n then [] else [es[i]]) + Unregister(es[i + 1..], n);
    hide Unregister;
  }

  lemma RemovalStep(cs: seq<Child>, i: nat, id: nat, kept: seq<Child>)
    requires i < |cs|
    ensures kept + RemoveChild(cs[i..], id) == (if cs[i].id == id then kept else kept + [cs[i]]) + RemoveChild(cs[i + 1..], id)
  {
    assert cs[i..][1..] == cs[i + 1..];
    assert RemoveChild(cs[i..], id) == (if cs[i].id == id then [] else [cs[i]]) + RemoveChild(cs[i + 1..], id);
    hide RemoveChild;
  }

  lemma BatchStep(running: seq<(Name, Category)>, cats: seq<Category>, i: nat, built: seq<seq<Name>>)
    requires i < |cats|
    ensures var names := NamesIn(running, cats[i]);
      built + BatchesFor(running, cats[i..]) == (if names == [] then built else built + [names]) + BatchesFor(running, cats[i + 1..])
  {
    assert cats[i..][1..] == cats[i + 1..];
    hide NamesIn;
  }

  lemma FrameStep(cs: seq<Child>, names: seq<Name>, i: nat, sent: seq<Event>)
    requires i < |names|
    ensures sent + ShutdownFrames(cs, names[i..]) ==
            (if Live(cs, names[i]) then sent + [ShutdownSent(names[i])] else sent) + ShutdownFrames(cs, names[i + 1..])
  {
    assert names[i..][1..] == names[i + 1..];
    assert ShutdownFrames(cs, names[i..]) ==
           (if Live(cs, names[i]) then [ShutdownSent(names[i])] else []) + ShutdownFrames(cs, names[i + 1..]);
    hide ShutdownFrames;
  }

  lemma AnyLiveStep(cs: seq<Child>, names: seq<Name>, i: nat)
    requires i < |names|
    ensures AnyLive(cs, names[..i + 1]) <==> AnyLive(cs, names[..i]) || Live(cs, names[i])
  {
    assert names[..i + 1] == names[..i] + [names[i]];
    hide FindChild;
  }

  lemma NoFrames(cs: seq<Child>, names: seq<Name>)
    requires !AnyLive(cs, names)
    ensures ShutdownFrames(cs, names) == []
  {
    var frames := ShutdownFrames(cs, names);
    assert forall i :: 0 <= i < |frames| ==> frames[i] in frames;
  }

  // ----- dropping all named timers --------------------------------------------------------------

  ghost predicate Tracks(start: Timers, left: set<Slot>, t: nat) {
    exists k :: k in start.slots && k != BatchSlot && k !in left && start.slots[k] == t
  }

  /** Every named timer but those left is cancelled and forgotten. */
  ghost predicate PartlyDropped(start: Timers, now: Timers, left: set<Slot>) {
    && now.next == start.next
    && now.slots == (map k | k in start.slots && (k in left || k == BatchSlot) :: start.slots[k])
    && now.waits.Keys == start.waits.Keys
    && forall t :: t in now.waits ==>
         now.waits[t] == if Tracks(start, left, t) then MasterSteps.Cancelled(start.waits[t]) else start.waits[t]
  }

  lemma DropOne(start: Timers, now: Timers, k: Slot, left: set<Slot>)
    requires PartlyDropped(start, now, left) && k in left && left <= start.slots.Keys - {BatchSlot}
    ensures PartlyDropped(start, Drop(now, k), left - {k})
  {
    var after := Drop(now, k);
    assert now.slots[k] == start.slots[k];
    forall t | t in after.waits
      ensures after.waits[t] == if Tracks(start, left - {k}, t) then MasterSteps.Cancelled(start.waits[t]) else start.waits[t]
    {
      assert Tracks(start, left - {k}, t) <==> Tracks(start, left, t) || t == start.slots[k];
    }
  }

  lemma AllDropped(start: Timers, now: Timers)
    requires PartlyDropped(start, now, {})
    ensures now == DropNamed(start)
  {
    forall t | t in now.waits
      ensures Tracks(start, {}, t) <==> exists k :: k in start.slots && k != BatchSlot && start.slots[k] == t
    {}
    assert now.waits == DropNamed(start).waits;
    assert now.slots == DropNamed(start).slots;
  }

  lemma ParkFrame(s: State, source: Name, n: Name)
    ensures Park(s, source, n) == s.(pending := Park(s, source, n).pending)
  {}
}
