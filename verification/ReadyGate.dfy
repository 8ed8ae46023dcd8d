/** The ready gate over every run: a strategy bound to a market source is spawned only when
    the source's channel is ready and its reader is already registered, and waits on the
    pending list only while the source is not ready. */
module ReadyGate {
  import opened Basics
  import opened MasterTypes
  import opened MasterSteps
  import opened MasterInvariants
  import opened RegistryNames

  // ----- channels -----------------------------------------------------------------

  /** Ready channels are running, metadata is held, and a page size was chosen. */
  ghost predicate ChannelsOk(chans: map<Name, Channel>) {
    forall c :: c in chans ==>
      chans[c].meta.Some? && chans[c].lastPageSize > 0 && (chans[c].ready ==> chans[c].status.MdRunning?)
  }

  /** No source becomes ready from a to b, and a ready one stays so and keeps its readers. */
  ghost predicate ReadyStable(a: map<Name, Channel>, b: map<Name, Channel>) {
    && (forall c :: SourceReady(b, c) ==> SourceReady(a, c))
    && (forall c :: SourceReady(a, c) ==> SourceReady(b, c) && a[c].meta.value <= b[c].meta.value)
  }

  lemma StableTrans(a: map<Name, Channel>, b: map<Name, Channel>, c: map<Name, Channel>)
    requires ReadyStable(a, b) && ReadyStable(b, c)
    ensures ReadyStable(a, c)
  {}

  lemma LaunchStable(s: State, e: ProcessEntry, a: Attempt, via: Via)
    requires ChannelsOk(s.channels)
    ensures var r := LaunchChild(s, e, a, via).0; ChannelsOk(r.channels) && ReadyStable(s.channels, r.channels)
  {
    LaunchFrame(s, e, a, via);
    hide LaunchChild;
  }

  lemma PreRegisterStable(chans: map<Name, Channel>, n: Name, source: Name)
    requires ChannelsOk(chans)
    ensures var r := PreRegister(chans, n, source);
      && ChannelsOk(r) && ReadyStable(chans, r)
      && (SourceReady(chans, source) ==> "stg." + n in r[source].meta.value)
  {}

  // ----- registry and pending list ----------------------------------------------------

  ghost predicate NoDuplicates(names: seq<Name>) {
    forall i, j :: 0 <= i < j < |names| ==> names[i] != names[j]
  }

  ghost predicate PendingOk(registry: seq<ProcessEntry>, chans: map<Name, Channel>, pending: map<Name, seq<Name>>) {
    forall src :: src in pending ==>
      && !SourceReady(chans, src)
      && NoDuplicates(pending[src])
      && forall n :: n in pending[src] ==> AgreesIfOpen(registry, n, src)
  }

  // ----- the log --------------------------------------------------------------------

  /** A spawn of a strategy with a source, other than an automatic restart, finds its channel
      running and ready and its reader in the table. */
  predicate Gated(e: Event) {
    e.Spawned? && e.entry.category.Strategy? && e.entry.mdSource != "" && !e.via.Restart? ==>
      && e.bound.Some?
      && e.bound.value.status.MdRunning? && e.bound.value.ready
      && e.bound.value.meta.Some? && "stg." + e.entry.name in e.bound.value.meta.value
  }

  ghost predicate AllGated(log: seq<Event>) { forall i :: 0 <= i < |log| ==> Gated(log[i]) }

  ghost predicate GateOk(s: State) {
    && ChannelsOk(s.channels)
    && GateSafe(s.registry)
    && PendingOk(s.registry, s.channels, s.pending)
    && AllGated(s.log)
  }

  // ----- launches -------------------------------------------------------------------

  lemma LaunchGate(s: State, e: ProcessEntry, a: Attempt, via: Via)
    requires GateOk(s)
    requires e.category.Strategy? && e.mdSource != "" && !via.Restart? ==>
      SourceReady(s.channels, e.mdSource) && "stg." + e.name in s.channels[e.mdSource].meta.value
    ensures GateOk(LaunchChild(s, e, a, via).0)
    ensures ReadyStable(s.channels, LaunchChild(s, e, a, via).0.channels)
    ensures LaunchChild(s, e, a, via).0.registry == s.registry
  {
    LaunchFrame(s, e, a, via);
    LaunchStable(s, e, a, via);
    hide LaunchChild;
    var (r, o) := LaunchChild(s, e, a, via);
    if o.Launched? {
      assert e.category.Strategy? ==> r.channels == s.channels;
      assert Gated(r.log[|s.log|]);
    }
  }

  lemma {:induction false} LaunchEachGate(s: State, names: seq<Name>, source: Name, attempts: map<Name, Attempt>, via: Via)
    requires GateOk(s) && SourceReady(s.channels, source)
    requires forall n :: n in names ==> Agrees(s.registry, n, source)
    ensures GateOk(LaunchEach(s, names, source, attempts, via))
    decreases |names|
  {
    if names != [] {
      var n := names[0];
      var e := FindEntry(s.registry, n);
      var a := AttemptFor(attempts, n);
      assert Agrees(s.registry, n, source);
      PreRegisterStable(s.channels, n, source);
      var p := s.(channels := PreRegister(s.channels, n, source));
      if e.Some? { LaunchGate(p, e.value, a, via); }
      var l := if via.Startup? && Live(s.children, n) then s else LaunchWithReader(s, n, source, a, via);
      assert GateOk(l) && SourceReady(l.channels, source) && l.registry == s.registry;
      hide GateOk, SourceReady, LaunchWithReader;
      LaunchEachGate(l, names[1..], source, attempts, via);
    }
  }

  lemma ParkGate(s: State, source: Name, n: Name)
    requires GateOk(s) && !SourceReady(s.channels, source) && AgreesIfOpen(s.registry, n, source)
    ensures GateOk(Park(s, source, n))
  {}

  lemma {:induction false} ParkEachGate(s: State, source: Name, names: seq<Name>)
    requires GateOk(s) && !SourceReady(s.channels, source)
    requires forall n :: n in names ==> AgreesIfOpen(s.registry, n, source)
    ensures GateOk(ParkEach(s, source, names))
    decreases |names|
  {
    if names != [] {
      if !Live(s.children, names[0]) { ParkGate(s, source, names[0]); }
      ParkEachGate(if Live(s.children, names[0]) then s else Park(s, source, names[0]), source, names[1..]);
    }
  }

  lemma BoundAgree(registry: seq<ProcessEntry>, source: Name)
    requires GateSafe(registry) && source != ""
    ensures forall n :: n in StrategiesBoundTo(registry, source) ==> AgreesIfOpen(registry, n, source)
  {}

  /** A source with a channel is one that may have it. */
  lemma OpenAgrees(s: State, n: Name, source: Name)
    requires ChannelNamesOk(s) && source in s.channels && AgreesIfOpen(s.registry, n, source)
    ensures Agrees(s.registry, n, source)
  {}

  // ----- registry changes -------------------------------------------------------------

  lemma UnregisterGate(s: State, gone: Name)
    requires GateOk(s)
    ensures GateOk(s.(registry := Unregister(s.registry, gone)))
  {
    forall n ensures FindEntry(Unregister(s.registry, gone), n) == if n == gone then None else FindEntry(s.registry, n) {
      FindUnregistered(s.registry, gone, n);
    }
  }

  lemma RegisterGate(s: State, e: ProcessEntry)
    requires GateOk(s) && FindEntry(s.registry, e.name).None? && IsGateway(e)
    ensures GateOk(s.(registry := s.registry + [e]))
  {
    forall n ensures FindEntry(s.registry + [e], n) == if n == e.name then Some(e) else FindEntry(s.registry, n) {
      FindAppended(s.registry, e, n);
    }
  }

  lemma SetPolicyGate(s: State, n: Name, p: RestartPolicy)
    requires GateOk(s)
    ensures GateOk(SetPolicy(s, n, p))
  {
    SetPoliciesSame(s.registry, n, p);
  }

  // ----- channel changes --------------------------------------------------------------

  /** Closing, dropping readers and adding readers make no source ready. */
  lemma ChannelsGate(s: State, chans: map<Name, Channel>)
    requires GateOk(s) && ChannelsOk(chans) && forall c :: SourceReady(chans, c) ==> SourceReady(s.channels, c)
    ensures GateOk(s.(channels := chans))
  {}

  // ----- steps --------------------------------------------------------------------

  lemma GateStart(s: State, target: Name, scanned: Option<ProcessEntry>, a: Attempt)
    requires GateOk(s)
    ensures GateOk(StartRequest(s, target, scanned, a))
  {
    var known := FindEntry(s.registry, target);
    if !s.shuttingDown && (known.Some? || (scanned.Some? && IsGateway(scanned.value) && scanned.value.name == target)) {
      var r := if known.None? then s.(registry := s.registry + [scanned.value]) else s;
      var e := if known.None? then scanned.value else known.value;
      if known.None? { RegisterGate(s, e); }
      if e.category.Strategy? && e.mdSource != "" {
        assert AgreesIfOpen(r.registry, e.name, e.mdSource);
        if SourceReady(r.channels, e.mdSource) {
          PreRegisterStable(r.channels, e.name, e.mdSource);
          LaunchGate(r.(channels := PreRegister(r.channels, e.name, e.mdSource)), e, a, Request);
        } else {
          ParkGate(r, e.mdSource, e.name);
        }
      } else {
        LaunchGate(r, e, a, Request);
      }
      hide LaunchChild, GateOk;
    }
  }

  lemma GateRemove(s: State, target: Name)
    requires GateOk(s)
    ensures GateOk(RemoveRequest(s, target)) && GateOk(StopRequest(s, target))
  {
    var r := s.(registry := Unregister(s.registry, target));
    UnregisterGate(s, target);
    ChannelsGate(r, TombstoneMdChannel(r.channels, target));
    var c := FindChild(s.children, target);
    if c.Some? { LogGate(r, [ShutdownSent(target)]); LogGate(s, [ShutdownSent(target)]); }
    hide FindEntry, FindChild, Unregister, Drop, Arm, TombstoneMdChannel, AllGated, PendingOk, GateSafe, ChannelsOk;
  }

  /** Events other than spawns are free. */
  lemma LogGate(s: State, more: seq<Event>)
    requires GateOk(s) && forall e :: e in more ==> !e.Spawned?
    ensures GateOk(s.(log := s.log + more))
  {
    forall i | 0 <= i < |s.log + more| ensures Gated((s.log + more)[i]) {
      if i >= |s.log| { assert more[i - |s.log|] in more; }
    }
  }

  lemma GateReady(s: State, source: Name, attempts: map<Name, Attempt>)
    requires GateOk(s) && ChannelNamesOk(s)
    ensures GateOk(MdStarted(s, source, attempts))
  {
    if source in s.channels && s.channels[source].meta.Some? && s.channels[source].status.MdRunning? {
      var chans := s.channels[source := s.channels[source].(ready := true)];
      var d := s.(channels := chans, tm := Drop(s.tm, ReadySlot(source)), pending := s.pending - {source});
      assert GateOk(d);
      if source in s.pending {
        forall n | n in s.pending[source] ensures Agrees(s.registry, n, source) { OpenAgrees(s, n, source); }
        LaunchEachGate(d, s.pending[source], source, attempts, LateReady);
      } else {
        assert s.pending - {source} == s.pending;
      }
      assert MdStarted(s, source, attempts) ==
             if source in s.pending then LaunchEach(d, s.pending[source], source, attempts, LateReady) else d;
    }
  }

  lemma CleanupGate(s: State, c: Child, code: int)
    requires GateOk(s)
    ensures GateOk(ExitCleanup(s, c, code))
  {
    var chans := ExitChannels(s, c, c.entry.name in s.removePending);
    ChannelsGate(s, chans);
    LogGate(s.(channels := chans), [Exited(c.id, c.entry.name, code)]);
    hide ExitChannels, AllGated, ChannelsOk, PendingOk, GateSafe;
  }

  lemma GateExit(s: State, c: Child, code: int)
    requires GateOk(s)
    ensures GateOk(OnChildExit(s, c, code))
  {
    CleanupGate(s, c, code);
    var d := ExitCleanup(s, c, code);
    SendGate(d.(tm := Drop(d.tm, BatchSlot), batchIndex := d.batchIndex + 1));
    hide ExitCleanup, SendCurrentBatch, AllGated, ChannelsOk, PendingOk, GateSafe, Drop, Arm;
  }

  lemma {:induction false} SendGate(s: State)
    requires GateOk(s)
    ensures GateOk(SendCurrentBatch(s))
    decreases |s.batches| - s.batchIndex
  {
    if s.batchIndex >= |s.batches| {
      LogGate(s, [Completed]);
    } else if AnyLive(s.children, s.batches[s.batchIndex]) {
      LogGate(s, ShutdownFrames(s.children, s.batches[s.batchIndex]));
    } else {
      SendGate(s.(batchIndex := s.batchIndex + 1));
    }
  }

  lemma KillGate(s: State, c: Child, killer: Killer)
    requires GateOk(s)
    ensures GateOk(Terminate(s, c, killer)) && GateOk(ForceKill(s, c, killer))
  {
    LogGate(s, [Terminated(c.entry.name, killer)]);
    hide AllGated, ChannelsOk, PendingOk, GateSafe;
  }

  lemma {:induction false} KillEachGate(s: State, names: seq<Name>, killer: Killer)
    requires GateOk(s)
    ensures GateOk(KillEach(s, names, killer))
    decreases |names|
  {
    hide GateOk, ForceKill;
    if names != [] {
      var c := FindChild(s.children, names[0]);
      if c.Some? { KillGate(s, c.value, killer); }
      KillEachGate(if c.Some? then ForceKill(s, c.value, killer) else s, names[1..], killer);
    }
  }

  lemma {:induction false} TerminateFromGate(s: State, i: nat)
    requires GateOk(s)
    ensures GateOk(TerminateFrom(s, i))
    decreases |s.children| - i
  {
    hide GateOk;
    if i < |s.children| {
      KillGate(s, s.children[i], ForceAll);
      TerminateFromGate(Terminate(s, s.children[i], ForceAll), i + 1);
    }
  }

  lemma HandlersGate(s: State, h: Handler, a: Attempt)
    requires GateOk(s)
    ensures h.RestartWait? ==> GateOk(OnRestartTimer(s, h, a))
    ensures h.StopWait? ==> GateOk(OnStopTimer(s, h))
    ensures h.ReadyWait? ==> GateOk(OnReadyTimer(s, h.source))
  {
    hide AllGated, ChannelsOk, PendingOk, GateSafe, LaunchChild, ForceKill;
    var e := s.(tm := Drop(s.tm, SlotOf(h)));
    if h.RestartWait? { LaunchGate(e, h.entry, a, Restart); }
    var c := if h.StopWait? then ChildById(s.children, h.childId)
             else if h.ReadyWait? then FindChild(s.children, h.source) else None;
    if c.Some? { KillGate(e, c.value, if h.StopWait? then StopTimer else ReadyTimer); }
  }

  lemma GateTimer(s: State, id: nat, a: Attempt)
    requires GateOk(s)
    ensures GateOk(RunTimer(s, id, a))
  {
    if id in s.tm.waits && !s.tm.waits[id].wait.Waiting? {
      var h := s.tm.waits[id].handler;
      var d := s.(tm := Taken(s.tm, id));
      HandlersGate(d, h, a);
      if h.BatchWait? && h.armedIndex < |s.batches| { KillEachGate(d, s.batches[h.armedIndex], BatchTimer(h.armedIndex)); }
      hide OnRestartTimer, OnStopTimer, OnReadyTimer, KillEach, Drop, PendingOk, GateSafe, ChannelsOk, AllGated;
    }
  }

  lemma GateShutdown(s: State)
    requires GateOk(s)
    ensures GateOk(Shutdown(s))
  {
    var batches := BuildShutdownBatches(RunningPairs(s.children));
    LogGate(s, [ShutdownBegun(batches)]);
    var d := s.(shuttingDown := true, tm := DropNamed(s.tm), restartCounts := map[], pending := map[],
                batches := batches, batchIndex := 0, log := s.log + [ShutdownBegun(batches)]);
    SendGate(d);
    LogGate(d, [Completed]);
  }

  lemma GateReaders(s: State, channel: Name, sub: Name)
    requires GateOk(s)
    ensures GateOk(ReaderRegister(s, channel, sub)) && GateOk(ReaderUnregister(s, channel, sub))
  {
    ChannelsGate(s, ReaderRegister(s, channel, sub).channels);
    ChannelsGate(s, ReaderUnregister(s, channel, sub).channels);
  }

  lemma GateLaunchAll(s: State, source: Name, attempts: map<Name, Attempt>)
    requires GateOk(s) && ChannelNamesOk(s)
    ensures GateOk(StartupPromote(s, source, attempts)) && GateOk(StartupPark(s, source))
  {
    if source != "" {
      BoundAgree(s.registry, source);
      var names := StrategiesBoundTo(s.registry, source);
      if SourceReady(s.channels, source) {
        forall n | n in names ensures Agrees(s.registry, n, source) { OpenAgrees(s, n, source); }
        LaunchEachGate(s, names, source, attempts, Startup);
      } else {
        ParkEachGate(s, source, names);
      }
    }
    hide LaunchEach, ParkEach;
  }

  lemma GateKept(s: State, step: Step)
    requires GateOk(s) && ChannelNamesOk(s)
    ensures GateOk(Next(s, step))
  {
    hide LaunchChild, StartRequest, StopRequest, RemoveRequest, SetPolicy, MdStarted, OnChildExit, RunTimer, Shutdown,
         ReaderRegister, ReaderUnregister, StartupPromote, StartupPark;
    match step
    case StartupLaunchStep(e, a) => if !(e.category.Strategy? && e.mdSource != "") { LaunchGate(s, e, a, Startup); }
    case StartupPromoteStep(source, attempts) => GateLaunchAll(s, source, attempts);
    case StartupParkStep(source) => GateLaunchAll(s, source, map[]);
    case StartStep(target, scanned, a) => GateStart(s, target, scanned, a);
    case StopStep(target) => GateRemove(s, target);
    case RemoveStep(target) => GateRemove(s, target);
    case SetPolicyStep(target, p) => SetPolicyGate(s, target, p);
    case MdStartedStep(source, attempts) => GateReady(s, source, attempts);
    case ReaderRegisterStep(channel, sub) => GateReaders(s, channel, sub);
    case ReaderUnregisterStep(channel, sub) => GateReaders(s, channel, sub);
    case ExitStep(id, code) =>
      var c := ChildById(s.children, id);
      if c.Some? { GateExit(s, c.value, code); }
    case ExpireStep(_) =>
    case TimerStep(t, a) => GateTimer(s, t, a);
    case ShutdownStep => GateShutdown(s);
    case ForceAllStep => TerminateFromGate(s, 0);
  }

  lemma {:induction false} GateInvariant(s: State, steps: seq<Step>)
    requires GateOk(s) && ChannelNamesOk(s)
    ensures GateOk(Run(s, steps))
    decreases |steps|
  {
    if steps != [] {
      GateKept(s, steps[0]);
      NamesKept(s, steps[0]);
      hide GateOk, ChannelNamesOk, Next;
      GateInvariant(Next(s, steps[0]), steps[1..]);
    }
  }

  /** Over every run: a source has strategies waiting only while it is not ready, each waits
      once; every strategy with a source that start-up, a late STARTED or a start request
      spawned found its channel running and ready with its reader registered; and ready
      channels are running with their metadata held. */
  lemma ReadyGateHolds(registry: seq<ProcessEntry>, steps: seq<Step>)
    requires GateSafe(registry)
    ensures var s := Run(Initial(registry), steps);
      && (forall src :: src in s.pending ==> !SourceReady(s.channels, src) && NoDuplicates(s.pending[src]))
      && AllGated(s.log)
      && (forall c :: c in s.channels && s.channels[c].ready ==>
            s.channels[c].status.MdRunning? && s.channels[c].meta.Some?)
  {
    GateInvariant(Initial(registry), steps);
  }

  // ----- the condition on the registry is needed ---------------------------------------

  lemma LaunchLogGrows(s: State, n: Name, source: Name, a: Attempt, via: Via)
    ensures var r := LaunchWithReader(s, n, source, a, via); s.log <= r.log && r.registry == s.registry
  {
    var e := FindEntry(s.registry, n);
    if e.Some? { LaunchFrame(s.(channels := PreRegister(s.channels, n, source)), e.value, a, via); }
    hide LaunchChild;
  }

  lemma {:induction false} LogGrows(s: State, names: seq<Name>, source: Name, attempts: map<Name, Attempt>, via: Via)
    ensures s.log <= LaunchEach(s, names, source, attempts, via).log
    decreases |names|
  {
    if names != [] {
      var n := names[0];
      LaunchLogGrows(s, n, source, AttemptFor(attempts, n), via);
      hide LaunchWithReader;
      var l := if via.Startup? && Live(s.children, n) then s
               else LaunchWithReader(s, n, source, AttemptFor(attempts, n), via);
      LogGrows(l, names[1..], source, attempts, via);
    }
  }

  /** The launch of the strategy found under n, whose own source has no channel. */
  lemma {:induction false} LaunchesUngated(s: State, names: seq<Name>, n: Name, source: Name, f: ProcessEntry)
    requires n in names && !Live(s.children, n) && FindEntry(s.registry, n) == Some(f)
    requires f.category.Strategy? && f.mdSource != "" && f.mdSource !in s.channels
    ensures !AllGated(LaunchEach(s, names, source, map[n := Spawns(1)], Startup).log)
    decreases |names|
  {
    var m := names[0];
    var attempts := map[n := Spawns(1)];
    var l := if Live(s.children, m) then s else LaunchWithReader(s, m, source, AttemptFor(attempts, m), Startup);
    if m == n {
      var p := s.(channels := PreRegister(s.channels, n, source));
      LaunchFrame(p, f, Spawns(1), Startup);
      assert l.log == s.log + [Spawned(s.nextChild, f, Startup, None)];
      LogGrows(l, names[1..], source, attempts, Startup);
      var r := LaunchEach(l, names[1..], source, attempts, Startup);
      assert r.log[|s.log|] == l.log[|s.log|];
    } else {
      LaunchesUngated(l, names[1..], n, source, f);
    }
  }

  ghost predicate Blank(s: State, registry: seq<ProcessEntry>) {
    s.registry == registry && s.children == [] && s.channels == map[] && s.pending == map[] && !s.shuttingDown
  }

  lemma RemovedBlank(registry: seq<ProcessEntry>, src: Name)
    ensures Blank(RemoveRequest(Initial(registry), src), Unregister(registry, src))
  {
    if FindEntry(registry, src).None? { UnregisterNone(registry, src); }
  }

  lemma StartedGateway(s: State, registry: seq<ProcessEntry>, gw: ProcessEntry)
    requires Blank(s, registry) && gw.category.GatewayMd? && FindEntry(registry, gw.name).None?
    ensures var r := StartRequest(s, gw.name, Some(gw), Spawns(1));
      && r.registry == registry + [gw] && r.pending == map[] && !r.shuttingDown
      && r.children == [Child(s.nextChild, gw, ChildRunning, None)]
      && r.channels == map[gw.name := Channel(MdRunning, false, 1, Some({}))]
  {
    LaunchFrame(s.(registry := registry + [gw]), gw, Spawns(1), Request);
    hide LaunchChild;
  }

  /** The state in which the source has just become ready and nothing else has happened. */
  lemma OnlySourceReady(registry: seq<ProcessEntry>, src: Name, n: Name)
    requires n != src
    ensures var gw := ProcessEntry(src, GatewayMd, RestartPolicy(false, 0), "");
      var s := MdStarted(StartRequest(RemoveRequest(Initial(registry), src), src, Some(gw), Spawns(1)), src, map[]);
      && s.channels == map[src := Channel(MdRunning, true, 1, Some({}))]
      && FindEntry(s.registry, n) == FindEntry(registry, n)
      && (forall e :: e in registry && e.name == n ==> e in s.registry)
      && !Live(s.children, n) && !s.shuttingDown
  {
    var gw := ProcessEntry(src, GatewayMd, RestartPolicy(false, 0), "");
    RemovedBlank(registry, src);
    FindUnregistered(registry, src, n);
    FindUnregistered(registry, src, src);
    StartedGateway(RemoveRequest(Initial(registry), src), Unregister(registry, src), gw);
    FindAppended(Unregister(registry, src), gw, n);
    hide RemoveRequest, StartRequest, LaunchEach;
  }

  /** A market-data process named like the source src of another strategy is started on its own,
      reports STARTED, and start-up launches the strategies of src, n among them. */
  function OtherSourceRun(src: Name, n: Name): seq<Step> {
    [RemoveStep(src), StartStep(src, Some(ProcessEntry(src, GatewayMd, RestartPolicy(false, 0), "")), Spawns(1)),
     MdStartedStep(src, map[])] + [StartupPromoteStep(src, map[n := Spawns(1)])]
  }

  /** Without it the gate fails: whenever the registry finds, under the name of a strategy
      bound to one source, a strategy bound to another, this run spawns the latter before its
      own source has a channel. */
  lemma GateNeedsAgreement(registry: seq<ProcessEntry>, e: ProcessEntry)
    requires e in registry && e.category.Strategy? && e.mdSource != "" && !Agrees(registry, e.name, e.mdSource)
    requires e.name != e.mdSource
    ensures !AllGated(Run(Initial(registry), OtherSourceRun(e.mdSource, e.name)).log)
  {
    hide RemoveRequest, StartRequest, MdStarted, StartupPromote, AllGated;
    var src, n := e.mdSource, e.name;
    var gw := ProcessEntry(src, GatewayMd, RestartPolicy(false, 0), "");
    var s0 := Initial(registry);
    var a, b, c, d := RemoveStep(src), StartStep(src, Some(gw), Spawns(1)), MdStartedStep(src, map[]),
                      StartupPromoteStep(src, map[n := Spawns(1)]);
    OnlySourceReady(registry, src, n);
    var s3 := MdStarted(StartRequest(RemoveRequest(s0, src), src, Some(gw), Spawns(1)), src, map[]);
    PromoteUngated(s3, e, FindEntry(registry, n).value);
    FourSteps(s0, src, gw, map[n := Spawns(1)]);
    assert OtherSourceRun(src, n) == [a, b, c] + [d];
    hide *;
    RunThree(s0, a, b, c, [d]);
    RunCons(s3, d, []);
    assert [d] + [] == [d];
    assert !AllGated(Run(s0, [a, b, c] + [d]).log) by { RunEmpty(Next(s3, d)); }
  }

  /** The market-data process opens its channel but does not spawn, a frame in its channel reads
      STARTED, and start-up launches the strategies of the source. */
  function OwnSourceRun(gw: ProcessEntry): seq<Step> {
    [StartupLaunchStep(gw, SpawnFails(1)), MdStartedStep(gw.name, map[]),
     StartupPromoteStep(gw.name, map[gw.name := Spawns(1)])] + []
  }

  /** The state before the last of its steps. */
  lemma OwnSourceReady(registry: seq<ProcessEntry>, gw: ProcessEntry)
    requires gw in registry && gw.category.GatewayMd?
    ensures var s := MdStarted(StartupLaunch(Initial(registry), gw, SpawnFails(1)), gw.name, map[]);
      && s.channels == map[gw.name := Channel(MdRunning, true, 1, Some({}))]
      && s.registry == registry && s.children == [] && !s.shuttingDown
  {
    var s := Initial(registry);
    LaunchFrame(s, gw, SpawnFails(1), Startup);
    assert StartupLaunch(s, gw, SpawnFails(1)).channels == map[gw.name := Channel(MdRunning, false, 1, Some({}))];
    hide LaunchChild, LaunchEach;
  }

  /** It fails as well when the strategy is named like its own source, if a market-data process
      of that name is registered. */
  lemma GateNeedsOwnName(registry: seq<ProcessEntry>, e: ProcessEntry, gw: ProcessEntry)
    requires e in registry && e.category.Strategy? && e.mdSource != "" && !Agrees(registry, e.name, e.mdSource)
    requires e.name == e.mdSource && gw in registry && gw.category.GatewayMd? && gw.name == e.name
    ensures !AllGated(Run(Initial(registry), OwnSourceRun(gw)).log)
  {
    hide MdStarted, StartupLaunch, StartupPromote, AllGated;
    var s0 := Initial(registry);
    var s2 := MdStarted(StartupLaunch(s0, gw, SpawnFails(1)), gw.name, map[]);
    OwnSourceReady(registry, gw);
    PromoteUngated(s2, e, FindEntry(registry, e.name).value);
    var a, b, c := StartupLaunchStep(gw, SpawnFails(1)), MdStartedStep(gw.name, map[]), StartupPromoteStep(gw.name, map[gw.name := Spawns(1)]);
    assert OwnSourceRun(gw) == [a, b, c] + [];
    assert Next(Next(s0, a), b) == s2 && Next(s2, c) == StartupPromote(s2, gw.name, map[gw.name := Spawns(1)]);
    hide *;
    RunThree(s0, a, b, c, []);
    RunEmpty(Next(s2, c));
  }

  /** The ready gate, exactly: it holds in every run if and only if looking a strategy up by name
      never finds a strategy of another source, except that a strategy may be hidden so when it
      is named like its own source and no market-data process has that name. */
  lemma GateExactly(registry: seq<ProcessEntry>)
    ensures (forall steps :: AllGated(Run(Initial(registry), steps).log)) <==> GateSafe(registry)
  {
    hide Run, AllGated, Initial;
    if GateSafe(registry) {
      forall steps ensures AllGated(Run(Initial(registry), steps).log) { ReadyGateHolds(registry, steps); }
    } else {
      var e :| e in registry && e.category.Strategy? && e.mdSource != "" && !AgreesIfOpen(registry, e.name, e.mdSource);
      if e.name == e.mdSource {
        var gw :| gw in registry && gw.category.GatewayMd? && gw.name == e.name;
        GateNeedsOwnName(registry, e, gw);
      } else {
        GateNeedsAgreement(registry, e);
      }
    }
  }

  const CLASHING: seq<ProcessEntry> :=
    [ProcessEntry("s", Strategy, RestartPolicy(false, 0), "x"), ProcessEntry("s", Strategy, RestartPolicy(false, 0), "y")]

  /** A registry for which it fails, and the run: two strategies of one name and two sources. */
  lemma ClashingRegistryFails()
    ensures !AllGated(Run(Initial(CLASHING), OtherSourceRun("y", "s")).log)
  {
    hide Run, AllGated, Initial, OtherSourceRun;
    assert FindEntry(CLASHING, "s") == Some(CLASHING[0]);
    GateNeedsAgreement(CLASHING, CLASHING[1]);
  }

  lemma FourSteps(s: State, src: Name, gw: ProcessEntry, attempts: map<Name, Attempt>)
    ensures var r := MdStarted(StartRequest(RemoveRequest(s, src), src, Some(gw), Spawns(1)), src, map[]);
      && Next(Next(Next(s, RemoveStep(src)), StartStep(src, Some(gw), Spawns(1))), MdStartedStep(src, map[])) == r
      && Next(r, StartupPromoteStep(src, attempts)) == StartupPromote(r, src, attempts)
  {
    hide RemoveRequest, StartRequest, MdStarted, StartupPromote;
  }

  lemma PromoteUngated(s: State, e: ProcessEntry, f: ProcessEntry)
    requires e in s.registry && BoundTo(e, e.mdSource) && e.mdSource != "" && SourceReady(s.channels, e.mdSource)
    requires !Live(s.children, e.name) && !s.shuttingDown && FindEntry(s.registry, e.name) == Some(f)
    requires f.category.Strategy? && f.mdSource != "" && f.mdSource !in s.channels
    ensures !AllGated(StartupPromote(s, e.mdSource, map[e.name := Spawns(1)]).log)
  {
    LaunchesUngated(s, StrategiesBoundTo(s.registry, e.mdSource), e.name, e.mdSource, f);
    hide LaunchEach, AllGated;
  }

  // ----- automatic restarts ------------------------------------------------------------

  ghost predicate NoReader(chans: map<Name, Channel>, reader: Name) {
    forall c :: c in chans && chans[c].meta.Some? ==> reader !in chans[c].meta.value
  }

  lemma {:induction false} SendChannels(s: State)
    ensures SendCurrentBatch(s).channels == s.channels
    decreases |s.batches| - s.batchIndex
  {
    if s.batchIndex < |s.batches| && !AnyLive(s.children, s.batches[s.batchIndex]) {
      SendChannels(s.(batchIndex := s.batchIndex + 1));
    }
  }

  lemma {:induction false} KillChannels(s: State, names: seq<Name>, killer: Killer)
    ensures KillEach(s, names, killer).channels == s.channels
    decreases |names|
  {
    if names != [] {
      var c := FindChild(s.children, names[0]);
      KillChannels(if c.Some? then ForceKill(s, c.value, killer) else s, names[1..], killer);
    }
  }

  lemma ExitReader(s: State, c: Child, code: int, reader: Name)
    requires NoReader(s.channels, reader) || reader == SubscriberName(c.entry)
    ensures NoReader(OnChildExit(s, c, code).channels, reader)
  {
    var d := ExitCleanup(s, c, code);
    assert NoReader(d.channels, reader);
    SendChannels(d.(tm := Drop(d.tm, BatchSlot), batchIndex := d.batchIndex + 1));
    hide ExitCleanup, NoReader, Drop, Arm;
  }

  lemma TimerReader(s: State, id: nat, a: Attempt, reader: Name)
    requires NoReader(s.channels, reader)
    ensures NoReader(RunTimer(s, id, a).channels, reader)
  {
    hide MarkStopping, FindChild, ChildById, StrategiesBoundTo, AnyLive;
    if id in s.tm.waits {
      var h := s.tm.waits[id].handler;
      var e := s.(tm := Drop(Taken(s.tm, id), SlotOf(h)));
      if h.RestartWait? { LaunchFrame(e, h.entry, a, Restart); }
      if h.BatchWait? && h.armedIndex < |s.batches| {
        KillChannels(s.(tm := Taken(s.tm, id)), s.batches[h.armedIndex], BatchTimer(h.armedIndex));
      }
    }
    hide LaunchChild, KillEach, Drop;
  }

  /** The gate does not extend to automatic restarts: an exit takes the process out of every
      reader table, and however often it crashes and is restarted by its timer from then on,
      it is in none. */
  lemma {:induction false} RestartNeverRegisters(s: State, steps: seq<Step>, reader: Name)
    requires NoReader(s.channels, reader) && forall i :: 0 <= i < |steps| ==> OfEventLoop(steps[i])
    ensures NoReader(Run(s, steps).channels, reader)
    decreases |steps|
  {
    if steps != [] {
      match steps[0] {
        case ExitStep(id, code) =>
          var c := ChildById(s.children, id);
          if c.Some? { ExitReader(s, c.value, code, reader); }
        case TimerStep(id, a) => TimerReader(s, id, a, reader);
        case _ =>
      }
      assert OfEventLoop(steps[0]);
      hide OnChildExit, RunTimer, NoReader;
      RestartNeverRegisters(Next(s, steps[0]), steps[1..], reader);
    }
  }

  lemma RestartedRunsUnregistered(s: State, c: Child, code: int, steps: seq<Step>)
    requires c in s.children && forall i :: 0 <= i < |steps| ==> OfEventLoop(steps[i])
    ensures NoReader(Run(OnChildExit(s, c, code), steps).channels, SubscriberName(c.entry))
  {
    ExitReader(s, c, code, SubscriberName(c.entry));
    RestartNeverRegisters(OnChildExit(s, c, code), steps, SubscriberName(c.entry));
  }
}
