/** Page layout safety over every run: under a live strategy that is still registered, the
    page size of its channel never changes, and reader tables are emptied by an open only
    when the channel is new or its page size is reset. */
module PageLayout {
  import opened Basics
  import opened MasterTypes
  import opened MasterSteps
  import opened MasterInvariants
  import opened ReadyGate
  import opened RegistryNames

  /** The registry still binds this child to the source it was spawned for. */
  ghost predicate StillBound(registry: seq<ProcessEntry>, c: Child) {
    exists e :: e in registry && BoundTo(e, c.entry.mdSource) && e.name == c.entry.name
  }

  ghost predicate LayoutHolds(registry: seq<ProcessEntry>, chans: map<Name, Channel>, c: Child) {
    c.layout.Some? ==>
      && c.entry.category.Strategy? && c.entry.mdSource in chans
      && (StillBound(registry, c) ==> chans[c.entry.mdSource].lastPageSize == c.layout.value)
  }

  ghost predicate LayoutOk(registry: seq<ProcessEntry>, cs: seq<Child>, chans: map<Name, Channel>) {
    forall c :: c in cs ==> LayoutHolds(registry, chans, c)
  }

  ghost predicate LayInv(s: State) { ChannelsOk(s.channels) && LayoutOk(s.registry, s.children, s.channels) }

  /** No channel disappears and no page size changes. */
  ghost predicate SameSizes(a: map<Name, Channel>, b: map<Name, Channel>) {
    forall c :: c in a ==> c in b && b[c].lastPageSize == a[c].lastPageSize
  }

  lemma SizesKeep(registry: seq<ProcessEntry>, cs: seq<Child>, a: map<Name, Channel>, b: map<Name, Channel>)
    requires LayoutOk(registry, cs, a) && SameSizes(a, b)
    ensures LayoutOk(registry, cs, b)
  {
    forall c | c in cs ensures LayoutHolds(registry, b, c) { assert LayoutHolds(registry, a, c); }
  }

  /** Fewer bindings ask for less. */
  lemma RegistryKeeps(r1: seq<ProcessEntry>, r2: seq<ProcessEntry>, cs: seq<Child>, chans: map<Name, Channel>)
    requires LayoutOk(r1, cs, chans)
    requires forall e :: e in r2 && e.category.Strategy? ==>
      exists d :: d in r1 && d.category.Strategy? && d.name == e.name && d.mdSource == e.mdSource
    ensures LayoutOk(r2, cs, chans)
  {
    forall c | c in cs ensures LayoutHolds(r2, chans, c) {
      assert LayoutHolds(r1, chans, c);
      if StillBound(r2, c) {
        var e :| e in r2 && BoundTo(e, c.entry.mdSource) && e.name == c.entry.name;
        assert StillBound(r1, c);
      }
    }
  }

  /** Children that only lost members or were told to terminate. */
  lemma ChildrenKeep(registry: seq<ProcessEntry>, cs: seq<Child>, ds: seq<Child>, chans: map<Name, Channel>)
    requires LayoutOk(registry, cs, chans)
    requires forall d :: d in ds ==> exists c :: c in cs && c.entry == d.entry && c.layout == d.layout
    ensures LayoutOk(registry, ds, chans)
  {
    forall d | d in ds ensures LayoutHolds(registry, chans, d) {
      var c :| c in cs && c.entry == d.entry && c.layout == d.layout;
      assert LayoutHolds(registry, chans, c);
    }
  }

  // ----- launches -------------------------------------------------------------------

  /** From a to b the page size under channel c changes. */
  predicate Resized(a: map<Name, Channel>, b: map<Name, Channel>, c: Name) {
    c in a && c in b && b[c].lastPageSize != a[c].lastPageSize
  }

  /** Exactly when a launch of market-data process e changes the page size under a channel
      that has one: the channel is not open, the configured size differs, and no live
      strategy is registered as bound to it. */
  lemma ResetExactly(s: State, e: ProcessEntry, a: Attempt, via: Via)
    requires ChannelsOk(s.channels) && e.category.GatewayMd? && e.name in s.channels
    ensures (LaunchChild(s, e, a, via).0.channels[e.name].lastPageSize != s.channels[e.name].lastPageSize) <==>
            !Live(s.children, e.name) && !a.ExeMissing? && !AlreadyOpen(s.channels, e.name)
            && a.pageSize != s.channels[e.name].lastPageSize
            && forall n :: n in StrategiesBoundTo(s.registry, e.name) ==> !Live(s.children, n)
  {
    LaunchFrame(s, e, a, via);
    hide LaunchChild;
  }

  /** A launch changes no other page size. */
  lemma OthersKeepSize(s: State, e: ProcessEntry, a: Attempt, via: Via, c: Name)
    requires c in s.channels && !(e.category.GatewayMd? && c == e.name)
    ensures c in LaunchChild(s, e, a, via).0.channels
    ensures LaunchChild(s, e, a, via).0.channels[c] == s.channels[c]
  {
    LaunchFrame(s, e, a, via);
    hide LaunchChild;
  }

  lemma LaunchChannelsLayout(s: State, e: ProcessEntry, a: Attempt, via: Via)
    requires LayInv(s)
    ensures LayoutOk(s.registry, s.children, LaunchChild(s, e, a, via).0.channels)
  {
    var chans := LaunchChild(s, e, a, via).0.channels;
    forall c | c in s.children ensures LayoutHolds(s.registry, chans, c) {
      assert LayoutHolds(s.registry, s.channels, c);
      if c.layout.Some? {
        var src := c.entry.mdSource;
        if e.category.GatewayMd? && src == e.name {
          ResetExactly(s, e, a, via);
          LaunchFrame(s, e, a, via);
          hide LaunchChild;
          if StillBound(s.registry, c) {
            assert c.entry.name in StrategiesBoundTo(s.registry, src) && Live(s.children, c.entry.name);
          }
        } else {
          OthersKeepSize(s, e, a, via, src);
        }
      }
    }
  }

  lemma LaunchLayout(s: State, e: ProcessEntry, a: Attempt, via: Via)
    requires LayInv(s)
    ensures LayInv(LaunchChild(s, e, a, via).0)
  {
    LaunchStable(s, e, a, via);
    LaunchChannelsLayout(s, e, a, via);
    LaunchFrame(s, e, a, via);
    hide LaunchChild;
    var (r, o) := LaunchChild(s, e, a, via);
    forall c | c in r.children ensures LayoutHolds(r.registry, r.channels, c) {
      if c !in s.children { assert c == Child(s.nextChild, e, ChildRunning, LayoutOf(BoundChannel(r.channels, e))); }
    }
  }

  lemma PreRegisterLayout(s: State, n: Name, source: Name)
    requires LayInv(s)
    ensures LayInv(s.(channels := PreRegister(s.channels, n, source)))
  {
    SizesKeep(s.registry, s.children, s.channels, PreRegister(s.channels, n, source));
  }

  lemma {:induction false} LaunchEachLayout(s: State, names: seq<Name>, source: Name, attempts: map<Name, Attempt>, via: Via)
    requires LayInv(s)
    ensures LayInv(LaunchEach(s, names, source, attempts, via))
    decreases |names|
  {
    if names != [] {
      var n := names[0];
      var e := FindEntry(s.registry, n);
      var a := AttemptFor(attempts, n);
      PreRegisterLayout(s, n, source);
      if e.Some? { LaunchLayout(s.(channels := PreRegister(s.channels, n, source)), e.value, a, via); }
      hide LayInv, LaunchChild, PreRegister;
      var l := if via.Startup? && Live(s.children, n) then s else LaunchWithReader(s, n, source, a, via);
      LaunchEachLayout(l, names[1..], source, attempts, via);
    }
  }

  // ----- the other steps --------------------------------------------------------------

  lemma MarkLayout(s: State, c: Child, killer: Killer)
    requires LayInv(s)
    ensures LayInv(Terminate(s, c, killer)) && LayInv(ForceKill(s, c, killer))
  {
    MarkKeepsNames(s.children, c.id);
    ChildrenKeep(s.registry, s.children, MarkStopping(s.children, c.id), s.channels);
  }

  lemma {:induction false} KillEachLayout(s: State, names: seq<Name>, killer: Killer)
    requires LayInv(s)
    ensures LayInv(KillEach(s, names, killer))
    decreases |names|
  {
    hide LayInv, ForceKill;
    if names != [] {
      var c := FindChild(s.children, names[0]);
      if c.Some? { MarkLayout(s, c.value, killer); }
      KillEachLayout(if c.Some? then ForceKill(s, c.value, killer) else s, names[1..], killer);
    }
  }

  lemma {:induction false} TerminateFromLayout(s: State, i: nat)
    ensures LayInv(s) ==> LayInv(TerminateFrom(s, i))
    ensures TerminateFrom(s, i).channels == s.channels
    decreases |s.children| - i
  {
    hide LayInv;
    if i < |s.children| {
      if LayInv(s) { MarkLayout(s, s.children[i], ForceAll); }
      TerminateFromLayout(Terminate(s, s.children[i], ForceAll), i + 1);
    }
  }

  lemma {:induction false} SendLayout(s: State)
    ensures SendCurrentBatch(s).channels == s.channels && SendCurrentBatch(s).children == s.children
    ensures SendCurrentBatch(s).registry == s.registry
    decreases |s.batches| - s.batchIndex
  {
    if s.batchIndex < |s.batches| && !AnyLive(s.children, s.batches[s.batchIndex]) {
      SendLayout(s.(batchIndex := s.batchIndex + 1));
    }
  }

  lemma ExitLayout(s: State, c: Child, code: int)
    requires LayInv(s)
    ensures LayInv(OnChildExit(s, c, code))
  {
    var d := ExitCleanup(s, c, code);
    assert ChannelsOk(d.channels) && SameSizes(s.channels, d.channels);
    SizesKeep(s.registry, s.children, s.channels, d.channels);
    ChildrenKeep(s.registry, s.children, d.children, d.channels);
    SendLayout(d.(tm := Drop(d.tm, BatchSlot), batchIndex := d.batchIndex + 1));
    hide ExitCleanup, Drop, Arm, LayoutOk, ChannelsOk;
  }

  lemma HandlersLayout(s: State, h: Handler, a: Attempt)
    requires LayInv(s)
    ensures h.RestartWait? ==> LayInv(OnRestartTimer(s, h, a))
    ensures h.StopWait? ==> LayInv(OnStopTimer(s, h))
    ensures h.ReadyWait? ==> LayInv(OnReadyTimer(s, h.source))
  {
    hide LayoutOk, ChannelsOk, LaunchChild, ForceKill;
    var e := s.(tm := Drop(s.tm, SlotOf(h)));
    if h.RestartWait? { LaunchLayout(e, h.entry, a, Restart); }
    var c := if h.StopWait? then ChildById(s.children, h.childId)
             else if h.ReadyWait? then FindChild(s.children, h.source) else None;
    if c.Some? { MarkLayout(e, c.value, if h.StopWait? then StopTimer else ReadyTimer); }
  }

  lemma TimerLayout(s: State, id: nat, a: Attempt)
    requires LayInv(s)
    ensures LayInv(RunTimer(s, id, a))
  {
    if id in s.tm.waits && !s.tm.waits[id].wait.Waiting? {
      var h := s.tm.waits[id].handler;
      var d := s.(tm := Taken(s.tm, id));
      HandlersLayout(d, h, a);
      if h.BatchWait? && h.armedIndex < |s.batches| { KillEachLayout(d, s.batches[h.armedIndex], BatchTimer(h.armedIndex)); }
      hide OnRestartTimer, OnStopTimer, OnReadyTimer, KillEach, Drop, LayoutOk, ChannelsOk;
    }
  }

  lemma StartLayout(s: State, target: Name, scanned: Option<ProcessEntry>, a: Attempt)
    requires LayInv(s)
    ensures LayInv(StartRequest(s, target, scanned, a))
  {
    var known := FindEntry(s.registry, target);
    if known.Some? || (scanned.Some? && IsGateway(scanned.value)) {
      var r := if known.None? then s.(registry := s.registry + [scanned.value]) else s;
      var e := if known.None? then scanned.value else known.value;
      RegistryKeeps(s.registry, r.registry, s.children, s.channels);
      LaunchLayout(r, e, a, Request);
      PreRegisterLayout(r, e.name, e.mdSource);
      LaunchLayout(r.(channels := PreRegister(r.channels, e.name, e.mdSource)), e, a, Request);
      hide LaunchChild, PreRegister, LayoutOk, ChannelsOk;
    }
  }

  lemma StopLayout(s: State, target: Name)
    requires LayInv(s)
    ensures LayInv(StopRequest(s, target)) && LayInv(RemoveRequest(s, target))
  {
    var registry := Unregister(s.registry, target);
    RegistryKeeps(s.registry, registry, s.children, s.channels);
    SizesKeep(registry, s.children, s.channels, TombstoneMdChannel(s.channels, target));
    assert ChannelsOk(TombstoneMdChannel(s.channels, target));
    hide LayoutOk, ChannelsOk, TombstoneMdChannel, Drop, Arm;
  }

  lemma PolicyLayout(s: State, target: Name, p: RestartPolicy)
    requires LayInv(s)
    ensures LayInv(SetPolicy(s, target, p))
  {
    SetPoliciesSame(s.registry, target, p);
    RegistryKeeps(s.registry, SetPolicies(s.registry, target, p), s.children, s.channels);
  }

  lemma ReadersLayout(s: State, channel: Name, sub: Name)
    requires LayInv(s)
    ensures LayInv(ReaderRegister(s, channel, sub)) && LayInv(ReaderUnregister(s, channel, sub))
  {
    if channel in s.channels && s.channels[channel].meta.Some? {
      var a := s.channels[channel := WithReader(s.channels[channel], sub)];
      var b := s.channels[channel := WithoutReader(s.channels[channel], sub)];
      SizesKeep(s.registry, s.children, s.channels, a);
      SizesKeep(s.registry, s.children, s.channels, b);
      assert ChannelsOk(a) && ChannelsOk(b);
      hide LayoutOk, ChannelsOk, IsRegisteredProcess;
    }
  }

  lemma ReadyLayout(s: State, source: Name, attempts: map<Name, Attempt>)
    requires LayInv(s)
    ensures LayInv(MdStarted(s, source, attempts))
  {
    if source in s.channels && s.channels[source].status.MdRunning? {
      var chans := s.channels[source := s.channels[source].(ready := true)];
      SizesKeep(s.registry, s.children, s.channels, chans);
      var d := s.(channels := chans, tm := Drop(s.tm, ReadySlot(source)));
      if source in s.pending {
        LaunchEachLayout(d.(pending := s.pending - {source}), s.pending[source], source, attempts, LateReady);
      }
      hide LayoutOk, LaunchEach;
    }
  }

  lemma {:induction false} ParkEachLayout(s: State, source: Name, names: seq<Name>)
    ensures ParkEach(s, source, names) == s.(pending := ParkEach(s, source, names).pending)
    decreases |names|
  {
    if names != [] {
      ParkEachLayout(if Live(s.children, names[0]) then s else Park(s, source, names[0]), source, names[1..]);
    }
  }

  lemma LayoutKept(s: State, step: Step)
    requires LayInv(s)
    ensures LayInv(Next(s, step))
  {
    hide LaunchChild, LaunchEach, ParkEach, StartRequest, StopRequest, RemoveRequest, SetPolicy, MdStarted, OnChildExit,
         RunTimer, ReaderRegister, ReaderUnregister, LayoutOk, ChannelsOk, SendCurrentBatch;
    match step
    case StartupLaunchStep(e, a) => LaunchLayout(s, e, a, Startup);
    case StartupPromoteStep(source, attempts) =>
      LaunchEachLayout(s, StrategiesBoundTo(s.registry, source), source, attempts, Startup);
    case StartupParkStep(source) => ParkEachLayout(s, source, StrategiesBoundTo(s.registry, source));
    case StartStep(target, scanned, a) => StartLayout(s, target, scanned, a);
    case StopStep(target) => StopLayout(s, target);
    case RemoveStep(target) => StopLayout(s, target);
    case SetPolicyStep(target, p) => PolicyLayout(s, target, p);
    case MdStartedStep(source, attempts) => ReadyLayout(s, source, attempts);
    case ReaderRegisterStep(channel, sub) => ReadersLayout(s, channel, sub);
    case ReaderUnregisterStep(channel, sub) => ReadersLayout(s, channel, sub);
    case ExitStep(id, code) =>
      var c := ChildById(s.children, id);
      if c.Some? { ExitLayout(s, c.value, code); }
    case ExpireStep(_) =>
    case TimerStep(t, a) => TimerLayout(s, t, a);
    case ShutdownStep =>
      var batches := BuildShutdownBatches(RunningPairs(s.children));
      SendLayout(s.(shuttingDown := true, tm := DropNamed(s.tm), restartCounts := map[], pending := map[],
                    batches := batches, batchIndex := 0, log := s.log + [ShutdownBegun(batches)]));
    case ForceAllStep => TerminateFromLayout(s, 0);
  }

  lemma {:induction false} LayoutInvariant(s: State, steps: seq<Step>)
    requires LayInv(s)
    ensures LayInv(Run(s, steps))
    decreases |steps|
  {
    if steps != [] {
      LayoutKept(s, steps[0]);
      hide LayInv;
      LayoutInvariant(Next(s, steps[0]), steps[1..]);
    }
  }

  /** Over every run: as long as a live strategy is registered as bound to its source, the
      page size of that channel is the one the strategy had when it was spawned. */
  lemma PageLayoutIsStable(registry: seq<ProcessEntry>, steps: seq<Step>, c: Child)
    requires c in Run(Initial(registry), steps).children && c.layout.Some?
    requires StillBound(Run(Initial(registry), steps).registry, c)
    ensures var chans := Run(Initial(registry), steps).channels;
      c.entry.mdSource in chans && chans[c.entry.mdSource].lastPageSize == c.layout.value
  {
    LayoutInvariant(Initial(registry), steps);
    assert LayoutHolds(Run(Initial(registry), steps).registry, Run(Initial(registry), steps).channels, c);
  }

  // ----- when a start request changes a page size ----------------------------------------

  /** The next start request for src may change the page size of its channel: src is not
      running and its channel not open, the name is free for a gateway, and no live strategy is
      registered as bound to it. */
  predicate ResetOpen(s: State, src: Name) {
    && !s.shuttingDown && !Live(s.children, src)
    && src in s.channels && !s.channels[src].status.MdRunning?
    && (FindEntry(s.registry, src).Some? ==> FindEntry(s.registry, src).value.category.GatewayMd?)
    && forall n :: n in StrategiesBoundTo(s.registry, src) ==> !Live(s.children, n)
  }

  lemma StrategySizes(s: State, e: ProcessEntry, a: Attempt, c: Name)
    requires ChannelsOk(s.channels) && e.category.Strategy?
    ensures !Resized(s.channels, LaunchRegistered(s, e, a).channels, c)
  {
    var p := s.(channels := PreRegister(s.channels, e.name, e.mdSource));
    LaunchFrame(p, e, a, Request);
    LaunchFrame(s, e, a, Request);
    hide LaunchChild;
  }

  lemma ResetNeedsOpen(s: State, src: Name, scanned: Option<ProcessEntry>, a: Attempt)
    requires ChannelsOk(s.channels) && Resized(s.channels, StartRequest(s, src, scanned, a).channels, src)
    ensures ResetOpen(s, src)
  {
    var known := FindEntry(s.registry, src);
    var r := if known.None? then s.(registry := s.registry + [scanned.value]) else s;
    var e := if known.None? then scanned.value else known.value;
    assert known.None? ==> e.name == src && IsGateway(e);
    if e.category.Strategy? { StrategySizes(r, e, a, src); }
    if e.category.GatewayMd? { ResetExactly(r, e, a, Request); }
    LaunchFrame(r, e, a, Request);
    hide LaunchChild, PreRegister, FindChild;
    forall n | n in StrategiesBoundTo(s.registry, src) ensures n in StrategiesBoundTo(r.registry, src) {}
  }

  lemma OpenResets(s: State, src: Name, size: PageSize) returns (scanned: Option<ProcessEntry>)
    requires ChannelsOk(s.channels) && ResetOpen(s, src) && size != s.channels[src].lastPageSize
    ensures Resized(s.channels, StartRequest(s, src, scanned, Spawns(size)).channels, src)
  {
    scanned := Some(ProcessEntry(src, GatewayMd, RestartPolicy(false, 0), ""));
    var known := FindEntry(s.registry, src);
    var r := if known.None? then s.(registry := s.registry + [scanned.value]) else s;
    var e := if known.None? then scanned.value else known.value;
    forall n | n in StrategiesBoundTo(r.registry, src) ensures n in StrategiesBoundTo(s.registry, src) {}
    ResetExactly(r, e, Spawns(size), Request);
    LaunchFrame(r, e, Spawns(size), Request);
    hide LaunchChild, FindChild;
  }

  /** A start request for a source can change the page size of its channel exactly then. */
  lemma StartResizesExactly(s: State, src: Name)
    requires ChannelsOk(s.channels)
    ensures (exists scanned, a :: Resized(s.channels, StartRequest(s, src, scanned, a).channels, src)) <==> ResetOpen(s, src)
  {
    hide StartRequest, ResetOpen, Resized;
    forall scanned, a | Resized(s.channels, StartRequest(s, src, scanned, a).channels, src) ensures ResetOpen(s, src) {
      ResetNeedsOpen(s, src, scanned, a);
    }
    if ResetOpen(s, src) {
      var size: PageSize := if src in s.channels then s.channels[src].lastPageSize + 1 else 1;
      assert src in s.channels by { OpenHasChannel(s, src); }
      var scanned := OpenResets(s, src, size);
    }
  }

  lemma OpenHasChannel(s: State, src: Name)
    requires ResetOpen(s, src)
    ensures src in s.channels
  {}

  lemma StartKeepsChildren(s: State, target: Name, scanned: Option<ProcessEntry>, a: Attempt)
    ensures s.children <= StartRequest(s, target, scanned, a).children
  {
    var known := FindEntry(s.registry, target);
    if known.Some? || scanned.Some? {
      var r := if known.None? then s.(registry := s.registry + [scanned.value]) else s;
      var e := if known.None? then scanned.value else known.value;
      LaunchFrame(r, e, a, Request);
      LaunchFrame(r.(channels := PreRegister(r.channels, e.name, e.mdSource)), e, a, Request);
    }
    hide LaunchChild, PreRegister;
  }

  lemma RemoveOfLive(s: State, n: Name)
    requires Live(s.children, n) && FindEntry(s.registry, n).Some?
    ensures var d := RemoveRequest(s, n);
      d.children == s.children && d.channels == s.channels && d.registry == Unregister(s.registry, n)
      && d.shuttingDown == s.shuttingDown
  {
    hide Arm;
  }

  lemma BoundToOthers(registry: seq<ProcessEntry>, gone: Name, src: Name)
    ensures forall n :: n in StrategiesBoundTo(Unregister(registry, gone), src) <==>
                        n in StrategiesBoundTo(registry, src) && n != gone
  {}

  /** Some start request from s changes the page size under the live child c. */
  ghost predicate LayoutLost(s: State, c: Child) {
    exists scanned, a :: var r := StartRequest(s, c.entry.mdSource, scanned, a);
      c in r.children && Resized(s.channels, r.channels, c.entry.mdSource)
  }

  /** Registration is what protects a live strategy: a remove request takes its entry off the
      registry at once while its process only stops later, and from then on a start request for
      its source can change the page size under it exactly when the source is down, its channel
      is closed, and no other live strategy is registered as bound to it. */
  lemma RemovedStrategyLosesLayout(s: State, c: Child)
    requires ChannelsOk(s.channels) && c in s.children && FindEntry(s.registry, c.entry.name).Some?
    ensures var src, n := c.entry.mdSource, c.entry.name;
      LayoutLost(RemoveRequest(s, n), c) <==>
        && !s.shuttingDown && !Live(s.children, src)
        && src in s.channels && !s.channels[src].status.MdRunning?
        && (FindEntry(s.registry, src).Some? ==> FindEntry(s.registry, src).value.category.GatewayMd?)
        && forall m :: m in StrategiesBoundTo(s.registry, src) && m != n ==> !Live(s.children, m)
  {
    var src, n := c.entry.mdSource, c.entry.name;
    var d := RemoveRequest(s, n);
    RemoveOfLive(s, n);
    hide RemoveRequest, StartRequest, Resized, Live, FindEntry;
    StartResizesExactly(d, src);
    forall scanned, a ensures c in StartRequest(d, src, scanned, a).children { StartKeepsChildren(d, src, scanned, a); }
    BoundToOthers(s.registry, n, src);
    FindUnregistered(s.registry, n, src);
    assert Live(s.children, n) by { assert c in s.children; LiveMember(s.children, c); }
    hide StrategiesBoundTo, Unregister;
    assert n == src ==> Live(s.children, src);
    assert LayoutLost(d, c) <==> ResetOpen(d, src);
  }

  lemma LiveMember(cs: seq<Child>, c: Child)
    requires c in cs
    ensures Live(cs, c.entry.name)
  {}

  // ----- reader tables ----------------------------------------------------------------

  /** From a to b, a running channel stays running, and a channel keeps its readers unless it
      was opened anew with another page size. */
  ghost predicate ReadersKept(a: map<Name, Channel>, b: map<Name, Channel>) {
    forall c :: c in a && a[c].meta.Some? ==>
      && c in b && b[c].meta.Some?
      && (a[c].status.MdRunning? ==> b[c].status.MdRunning? && b[c].lastPageSize == a[c].lastPageSize)
      && (b[c].lastPageSize == a[c].lastPageSize ==> a[c].meta.value <= b[c].meta.value)
      && (b[c].lastPageSize != a[c].lastPageSize ==> b[c].status.MdRunning?)
  }

  lemma KeptTrans(a: map<Name, Channel>, b: map<Name, Channel>, c: map<Name, Channel>)
    requires ReadersKept(a, b) && ReadersKept(b, c)
    ensures ReadersKept(a, c)
  {}

  lemma LaunchReaders(s: State, e: ProcessEntry, a: Attempt, via: Via)
    requires ChannelsOk(s.channels)
    ensures ReadersKept(s.channels, LaunchChild(s, e, a, via).0.channels)
  {
    LaunchFrame(s, e, a, via);
    hide LaunchChild;
  }

  lemma {:induction false} LaunchEachReaders(s: State, names: seq<Name>, source: Name, attempts: map<Name, Attempt>, via: Via)
    requires ChannelsOk(s.channels)
    ensures ReadersKept(s.channels, LaunchEach(s, names, source, attempts, via).channels)
    decreases |names|
  {
    if names != [] {
      var n := names[0];
      var e := FindEntry(s.registry, n);
      var a := AttemptFor(attempts, n);
      var p := s.(channels := PreRegister(s.channels, n, source));
      assert ReadersKept(s.channels, p.channels) && ChannelsOk(p.channels);
      if e.Some? { LaunchReaders(p, e.value, a, via); LaunchStable(p, e.value, a, via); }
      hide LaunchChild, PreRegister;
      var l := if via.Startup? && Live(s.children, n) then s else LaunchWithReader(s, n, source, a, via);
      if l != s { KeptTrans(s.channels, p.channels, l.channels); }
      LaunchEachReaders(l, names[1..], source, attempts, via);
      KeptTrans(s.channels, l.channels, LaunchEach(s, names, source, attempts, via).channels);
    }
  }

  /** Opens and readiness frames clear a reader table only with a page-size reset. */
  lemma ReadyReaders(s: State, source: Name, attempts: map<Name, Attempt>)
    requires ChannelsOk(s.channels)
    ensures ReadersKept(s.channels, MdStarted(s, source, attempts).channels)
  {
    if source in s.channels && s.channels[source].status.MdRunning? {
      var chans := s.channels[source := s.channels[source].(ready := true)];
      var d := s.(channels := chans, tm := Drop(s.tm, ReadySlot(source)));
      if source in s.pending {
        var q := d.(pending := s.pending - {source});
        LaunchEachReaders(q, s.pending[source], source, attempts, LateReady);
        KeptTrans(s.channels, chans, LaunchEach(q, s.pending[source], source, attempts, LateReady).channels);
      }
      hide LaunchEach;
    }
  }

  predicate HasReader(chans: map<Name, Channel>, c: Name, reader: Name) {
    c in chans && chans[c].meta.Some? && reader in chans[c].meta.value
  }

  lemma PreRegisterReaders(s: State, n: Name, source: Name)
    requires ChannelsOk(s.channels)
    ensures ReadersKept(s.channels, s.channels)
    ensures ReadersKept(s.channels, PreRegister(s.channels, n, source)) && ChannelsOk(PreRegister(s.channels, n, source))
  {}

  lemma LaunchRegisteredReaders(s: State, e: ProcessEntry, a: Attempt)
    requires ChannelsOk(s.channels)
    ensures ReadersKept(s.channels, LaunchRegistered(s, e, a).channels)
  {
    PreRegisterReaders(s, e.name, e.mdSource);
    var p := s.(channels := PreRegister(s.channels, e.name, e.mdSource));
    LaunchReaders(s, e, a, Request);
    LaunchReaders(p, e, a, Request);
    KeptTrans(s.channels, p.channels, LaunchChild(p, e, a, Request).0.channels);
    hide LaunchChild, PreRegister, ReadersKept, ChannelsOk;
  }

  lemma StartReaders(s: State, target: Name, scanned: Option<ProcessEntry>, a: Attempt)
    requires ChannelsOk(s.channels)
    ensures ReadersKept(s.channels, StartRequest(s, target, scanned, a).channels)
  {
    var known := FindEntry(s.registry, target);
    PreRegisterReaders(s, target, target);
    if known.Some? || scanned.Some? {
      var r := if known.None? then s.(registry := s.registry + [scanned.value]) else s;
      LaunchRegisteredReaders(r, if known.None? then scanned.value else known.value, a);
      hide LaunchRegistered, ReadersKept;
    }
  }

  lemma CleanupReaders(s: State, c: Child, code: int)
    ensures forall k :: k in s.channels ==>
      && k in ExitCleanup(s, c, code).channels
      && ExitCleanup(s, c, code).channels[k].meta == WithoutReader(s.channels[k], SubscriberName(c.entry)).meta
  {
    hide Drop, FindEntry, RemoveChild, SubscriberName;
  }

  lemma ExitReaders(s: State, c: Child, code: int)
    ensures forall k :: k in s.channels ==>
      && k in OnChildExit(s, c, code).channels
      && OnChildExit(s, c, code).channels[k].meta == WithoutReader(s.channels[k], SubscriberName(c.entry)).meta
  {
    var d := ExitCleanup(s, c, code);
    CleanupReaders(s, c, code);
    SendLayout(d.(tm := Drop(d.tm, BatchSlot), batchIndex := d.batchIndex + 1));
    hide ExitCleanup, SendCurrentBatch, Drop, Arm, FindEntry, AnyLive, SubscriberName, WithoutReader;
  }

  lemma HandlersReaders(s: State, h: Handler, a: Attempt)
    requires ChannelsOk(s.channels)
    ensures h.RestartWait? ==> ReadersKept(s.channels, OnRestartTimer(s, h, a).channels)
    ensures h.StopWait? ==> OnStopTimer(s, h).channels == s.channels
    ensures h.ReadyWait? ==> OnReadyTimer(s, h.source).channels == s.channels
  {
    PreRegisterReaders(s, "", "");
    if h.RestartWait? { LaunchReaders(s.(tm := Drop(s.tm, RestartSlot(h.name))), h.entry, a, Restart); }
    hide LaunchChild, Drop, ReadersKept, ChannelsOk, MarkStopping, FindChild, ChildById, StrategiesBoundTo, AnyLive;
  }

  lemma TimerReaders(s: State, id: nat, a: Attempt)
    requires ChannelsOk(s.channels)
    ensures ReadersKept(s.channels, RunTimer(s, id, a).channels)
  {
    PreRegisterReaders(s, "", "");
    if id in s.tm.waits {
      var h := s.tm.waits[id].handler;
      HandlersReaders(s.(tm := Taken(s.tm, id)), h, a);
      if h.BatchWait? && h.armedIndex < |s.batches| {
        KillChannels(s.(tm := Taken(s.tm, id)), s.batches[h.armedIndex], BatchTimer(h.armedIndex));
      }
    }
    hide OnRestartTimer, OnStopTimer, OnReadyTimer, KillEach, Drop, ReadersKept, ChannelsOk;
  }

  lemma ShutdownReaders(s: State)
    ensures Shutdown(s).channels == s.channels
  {
    var batches := BuildShutdownBatches(RunningPairs(s.children));
    SendLayout(s.(shuttingDown := true, tm := DropNamed(s.tm), restartCounts := map[], pending := map[],
                  batches := batches, batchIndex := 0, log := s.log + [ShutdownBegun(batches)]));
    hide SendCurrentBatch, BuildShutdownBatches;
  }

  /** A channel keeps its readers as long as its page size stays. */
  ghost predicate TablesKept(a: map<Name, Channel>, b: map<Name, Channel>) {
    forall c :: c in a && a[c].meta.Some? ==>
      c in b && b[c].meta.Some? && (b[c].lastPageSize == a[c].lastPageSize ==> a[c].meta.value <= b[c].meta.value)
  }

  /** Every step but exits and unregister requests keeps readers up to a page-size reset. */
  lemma StepReaders(s: State, step: Step)
    requires ChannelsOk(s.channels) && !step.ExitStep? && !step.ReaderUnregisterStep?
    ensures TablesKept(s.channels, Next(s, step).channels)
  {
    hide LaunchChild, LaunchEach, ParkEach, StartRequest, StopRequest, RemoveRequest, MdStarted, RunTimer, Shutdown, TerminateFrom,
         ReaderRegister, ReadersKept;
    KeptTables(s.channels, Next(s, step).channels);
    PreRegisterReaders(s, "", "");
    KeptTables(s.channels, s.channels);
    match step
    case StartupLaunchStep(e, a) => LaunchReaders(s, e, a, Startup);
    case StartupPromoteStep(source, attempts) =>
      LaunchEachReaders(s, StrategiesBoundTo(s.registry, source), source, attempts, Startup);
    case StartupParkStep(source) => ParkEachLayout(s, source, StrategiesBoundTo(s.registry, source));
    case StartStep(target, scanned, a) => StartReaders(s, target, scanned, a);
    case MdStartedStep(source, attempts) => ReadyReaders(s, source, attempts);
    case TimerStep(t, a) => TimerReaders(s, t, a);
    case ShutdownStep => ShutdownReaders(s);
    case ForceAllStep => TerminateFromLayout(s, 0);
    case StopStep(target) => RequestReaders(s, target, target);
    case RemoveStep(target) => RequestReaders(s, target, target);
    case ReaderRegisterStep(channel, sub) => RequestReaders(s, channel, sub);
    case _ =>
  }

  lemma KeptTables(a: map<Name, Channel>, b: map<Name, Channel>)
    ensures ReadersKept(a, b) ==> TablesKept(a, b)
  {}

  lemma RequestReaders(s: State, channel: Name, sub: Name)
    ensures TablesKept(s.channels, StopRequest(s, sub).channels) && TablesKept(s.channels, RemoveRequest(s, sub).channels)
    ensures TablesKept(s.channels, ReaderRegister(s, channel, sub).channels)
  {
    StopTables(s, sub);
    hide Drop, Arm, IsRegisteredProcess, StopRequest, RemoveRequest;
  }

  lemma StopTables(s: State, target: Name)
    ensures TablesKept(s.channels, StopRequest(s, target).channels) && TablesKept(s.channels, RemoveRequest(s, target).channels)
  {
    var chans := TombstoneMdChannel(s.channels, target);
    assert TablesKept(s.channels, s.channels) && TablesKept(s.channels, chans);
    hide Drop, Arm, FindEntry, FindChild, Unregister, TablesKept, TombstoneMdChannel;
  }

  /** The only ways to leave a reader table, for every step from every state with held
      metadata: one's process exited, one asked for it, or the page size was reset. */
  lemma WhoLeavesTheTable(s: State, step: Step, c: Name, reader: Name)
    requires ChannelsOk(s.channels) && HasReader(s.channels, c, reader) && !HasReader(Next(s, step).channels, c, reader)
    ensures || (step.ExitStep? && exists x :: x in s.children && x.id == step.id && SubscriberName(x.entry) == reader)
            || (step == ReaderUnregisterStep(c, reader))
            || (c in Next(s, step).channels && Next(s, step).channels[c].lastPageSize != s.channels[c].lastPageSize)
  {
    if step.ExitStep? {
      var x := ChildById(s.children, step.id);
      if x.Some? { ExitReaders(s, x.value, step.code); }
      hide OnChildExit;
    } else if !step.ReaderUnregisterStep? {
      StepReaders(s, step);
      hide Next;
    }
  }
}
