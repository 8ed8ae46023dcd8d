/** What looking a name up in the registry can find, how registrations change it, and when a
    name may become the name of a market-data channel. */
module RegistryNames {
  import opened Basics
  import opened MasterTypes
  import opened MasterSteps

  // ----- lookups after a change -----------------------------------------------------------------

  lemma {:induction false} FindUnregistered(es: seq<ProcessEntry>, gone: Name, n: Name)
    ensures FindEntry(Unregister(es, gone), n) == if n == gone then None else FindEntry(es, n)
  {
    if es != [] {
      var rest := Unregister(es[1..], gone);
      FindUnregistered(es[1..], gone, n);
      assert es[0].name == gone ==> Unregister(es, gone) == rest;
      assert es[0].name != gone ==> Unregister(es, gone)[0] == es[0] && Unregister(es, gone)[1..] == rest;
    }
  }

  lemma {:induction false} UnregisterNone(es: seq<ProcessEntry>, n: Name)
    requires FindEntry(es, n).None?
    ensures Unregister(es, n) == es
  {
    if es != [] {
      assert es[0].name != n;
      assert FindEntry(es[1..], n).None?;
      UnregisterNone(es[1..], n);
    }
  }

  lemma {:induction false} FindAppended(es: seq<ProcessEntry>, e: ProcessEntry, n: Name)
    requires FindEntry(es, e.name).None?
    ensures FindEntry(es + [e], n) == if n == e.name then Some(e) else FindEntry(es, n)
  {
    if es != [] {
      assert es[0].name != e.name;
      assert (es + [e])[1..] == es[1..] + [e];
      assert FindEntry(es[1..], e.name).None?;
      FindAppended(es[1..], e, n);
    }
  }

  /** Changing a policy changes no category and no source. */
  predicate SameBut(a: Option<ProcessEntry>, b: Option<ProcessEntry>) {
    a.Some? == b.Some? && (a.Some? ==> b.value == a.value.(restart := b.value.restart))
  }

  lemma {:induction false} SetPoliciesSame(es: seq<ProcessEntry>, target: Name, p: RestartPolicy)
    ensures forall n :: SameBut(FindEntry(es, n), FindEntry(SetPolicies(es, target, p), n))
    ensures forall e :: e in SetPolicies(es, target, p) ==> exists d :: d in es && e == d.(restart := e.restart)
  {
    if es != [] {
      if es[0].name != target { SetPoliciesSame(es[1..], target, p); }
      var r := SetPolicies(es, target, p);
      assert forall e :: e in r ==> e == r[0] || e in r[1..];
    }
  }

  // ----- strategies and their sources -----------------------------------------------------------

  /** The entry found under n, if a strategy with a source, is bound to this source. */
  predicate Agrees(registry: seq<ProcessEntry>, n: Name, source: Name) {
    var f := FindEntry(registry, n);
    f.Some? && f.value.category.Strategy? && f.value.mdSource != "" ==> f.value.mdSource == source
  }

  /** A market-data process is registered under n, found by a lookup or not. */
  ghost predicate HasMd(registry: seq<ProcessEntry>, n: Name) {
    exists e :: e in registry && e.category.GatewayMd? && e.name == n
  }

  /** A channel named n can come to exist: the lookup does not find a strategy of another source
      under n, or a market-data process of that name is registered as well. */
  ghost predicate Openable(registry: seq<ProcessEntry>, n: Name) { Agrees(registry, n, n) || HasMd(registry, n) }

  /** Launching n because source became ready launches a strategy of that source, or the source
      is one that never becomes ready. */
  ghost predicate AgreesIfOpen(registry: seq<ProcessEntry>, n: Name, source: Name) {
    Agrees(registry, n, source) || (n == source && !HasMd(registry, n))
  }

  /** Looking up a strategy by name never finds a strategy of another source; or else the
      strategy is named like its own source, and no market-data process has that name. */
  ghost predicate GateSafe(registry: seq<ProcessEntry>) {
    forall e :: e in registry && e.category.Strategy? && e.mdSource != "" ==> AgreesIfOpen(registry, e.name, e.mdSource)
  }

  // ----- names of channels, over every run --------------------------------------------------------

  /** Every channel, and every market-data process that is to be restarted, has such a name. */
  ghost predicate ChannelNamesOk(s: State) {
    && (forall c :: c in s.channels ==> Openable(s.registry, c))
    && (forall t :: t in s.tm.waits && s.tm.waits[t].handler.RestartWait? && s.tm.waits[t].handler.entry.category.GatewayMd?
          ==> Openable(s.registry, s.tm.waits[t].handler.entry.name))
  }

  /** From a to b no restart handler is added. */
  ghost predicate NoNewRestart(a: Timers, b: Timers) {
    forall t :: t in b.waits && b.waits[t].handler.RestartWait? ==> t in a.waits && a.waits[t].handler == b.waits[t].handler
  }

  lemma DropAdds(tm: Timers, k: Slot)
    ensures NoNewRestart(tm, Drop(tm, k))
  {}

  lemma ArmAdds(tm: Timers, h: Handler)
    requires !h.RestartWait?
    ensures NoNewRestart(tm, Arm(tm, h))
  {}

  lemma NamesFrame(s: State, r: State)
    requires ChannelNamesOk(s) && r.registry == s.registry && r.channels.Keys == s.channels.Keys && NoNewRestart(s.tm, r.tm)
    ensures ChannelNamesOk(r)
  {
    assert forall c :: c in r.channels <==> c in s.channels;
  }

  /** Registrations keep such names. */
  lemma OpenableKept(s: State, r: State)
    requires ChannelNamesOk(s) && r == s.(registry := r.registry)
    requires forall n :: Openable(s.registry, n) ==> Openable(r.registry, n)
    ensures ChannelNamesOk(r)
  {}

  lemma UnregisterOpenable(registry: seq<ProcessEntry>, gone: Name, n: Name)
    requires Openable(registry, n)
    ensures Openable(Unregister(registry, gone), n)
  {
    FindUnregistered(registry, gone, n);
    if n != gone && HasMd(registry, n) {
      var e :| e in registry && e.category.GatewayMd? && e.name == n;
      assert e in Unregister(registry, gone);
    }
  }

  lemma RegisterOpenable(registry: seq<ProcessEntry>, e: ProcessEntry, n: Name)
    requires Openable(registry, n) && FindEntry(registry, e.name).None? && !e.category.Strategy?
    ensures Openable(registry + [e], n)
  {
    FindAppended(registry, e, n);
    if HasMd(registry, n) {
      var d :| d in registry && d.category.GatewayMd? && d.name == n;
      assert d in registry + [e];
    }
  }

  lemma PolicyOpenable(registry: seq<ProcessEntry>, target: Name, p: RestartPolicy, n: Name)
    requires Openable(registry, n)
    ensures Openable(SetPolicies(registry, target, p), n)
  {
    SetPoliciesSame(registry, target, p);
    assert SameBut(FindEntry(registry, n), FindEntry(SetPolicies(registry, target, p), n));
    if HasMd(registry, n) { PolicyKeepsMd(registry, target, p, n); }
  }

  lemma {:induction false} PolicyKeepsMd(registry: seq<ProcessEntry>, target: Name, p: RestartPolicy, n: Name)
    requires HasMd(registry, n)
    ensures HasMd(SetPolicies(registry, target, p), n)
  {
    var e :| e in registry && e.category.GatewayMd? && e.name == n;
    var r := SetPolicies(registry, target, p);
    if registry[0] == e {
      assert r[0] in r && r[0].category.GatewayMd? && r[0].name == n;
    } else {
      assert e in registry[1..];
      if registry[0].name != target {
        PolicyKeepsMd(registry[1..], target, p, n);
        var d :| d in r[1..] && d.category.GatewayMd? && d.name == n;
        assert d in r;
      } else {
        assert r[1..] == registry[1..] && e in r;
      }
    }
  }

  lemma LaunchNames(s: State, e: ProcessEntry, a: Attempt, via: Via)
    requires ChannelNamesOk(s) && (e.category.GatewayMd? ==> Openable(s.registry, e.name))
    ensures var r := LaunchChild(s, e, a, via).0; ChannelNamesOk(r) && r.registry == s.registry
  {
    var r := LaunchChild(s, e, a, via).0;
    LaunchTimers(s, e, a, via);
    forall c | c in r.channels ensures Openable(s.registry, c) {}
    hide Spawn, Openable, Drop, Arm;
  }

  lemma SpawnAdds(s: State, e: ProcessEntry, via: Via)
    ensures NoNewRestart(s.tm, Spawn(s, e, via).tm)
  {
    DropAdds(s.tm, RestartSlot(e.name));
    ArmAdds(Drop(s.tm, RestartSlot(e.name)), ReadyWait(e.name));
    hide Drop, Arm;
  }

  lemma LaunchTimers(s: State, e: ProcessEntry, a: Attempt, via: Via)
    ensures var r := LaunchChild(s, e, a, via).0;
      && r.registry == s.registry && NoNewRestart(s.tm, r.tm)
      && (forall c :: c in r.channels ==> c in s.channels || (e.category.GatewayMd? && c == e.name))
  {
    SpawnAdds(s, e, via);
    if e.category.GatewayMd? && !a.ExeMissing? {
      var c := s.(channels := CreateMdChannel(s.channels, e.name, a.pageSize));
      assert forall k :: k in c.channels ==> k in s.channels || k == e.name;
      SpawnAdds(c, e, via);
    }
    assert NoNewRestart(s.tm, s.tm);
    hide Drop, Arm, FindChild, CreateRejected, CreateMdChannel, NoNewRestart;
  }

  lemma WithReaderNames(s: State, n: Name, source: Name, a: Attempt, via: Via)
    requires ChannelNamesOk(s)
    ensures var r := LaunchWithReader(s, n, source, a, via); ChannelNamesOk(r) && r.registry == s.registry
  {
    var e := FindEntry(s.registry, n);
    if e.Some? {
      var p := s.(channels := PreRegister(s.channels, n, source));
      assert p.channels.Keys == s.channels.Keys;
      NamesFrame(s, p);
      LaunchNames(p, e.value, a, via);
    }
    hide LaunchChild, PreRegister;
  }

  lemma {:induction false} LaunchEachNames(s: State, names: seq<Name>, source: Name, attempts: map<Name, Attempt>, via: Via)
    requires ChannelNamesOk(s)
    ensures ChannelNamesOk(LaunchEach(s, names, source, attempts, via))
    decreases |names|
  {
    if names != [] {
      var n := names[0];
      var a := AttemptFor(attempts, n);
      WithReaderNames(s, n, source, a, via);
      hide LaunchWithReader, ChannelNamesOk;
      LaunchEachNames(if via.Startup? && Live(s.children, n) then s else LaunchWithReader(s, n, source, a, via), names[1..],
                      source, attempts, via);
    }
  }

  lemma StartNames(s: State, target: Name, scanned: Option<ProcessEntry>, a: Attempt)
    requires ChannelNamesOk(s)
    ensures ChannelNamesOk(StartRequest(s, target, scanned, a))
  {
    var known := FindEntry(s.registry, target);
    if known.Some? || (scanned.Some? && IsGateway(scanned.value) && scanned.value.name == target) {
      var r := if known.None? then s.(registry := s.registry + [scanned.value]) else s;
      var e := if known.None? then scanned.value else known.value;
      if known.None? {
        forall n | Openable(s.registry, n) ensures Openable(r.registry, n) { RegisterOpenable(s.registry, e, n); }
        OpenableKept(s, r);
      }
      var p := r.(channels := PreRegister(r.channels, e.name, e.mdSource));
      assert p.channels.Keys == r.channels.Keys;
      NamesFrame(r, p);
      assert e in r.registry;
      LaunchNames(r, e, a, Request);
      LaunchNames(p, e, a, Request);
    }
    hide LaunchChild, PreRegister, ChannelNamesOk;
  }

  lemma StopNames(s: State, target: Name)
    requires ChannelNamesOk(s)
    ensures ChannelNamesOk(StopRequest(s, target)) && ChannelNamesOk(RemoveRequest(s, target))
  {
    var r := s.(registry := Unregister(s.registry, target));
    forall n | Openable(s.registry, n) ensures Openable(r.registry, n) { UnregisterOpenable(s.registry, target, n); }
    OpenableKept(s, r);
    DropAdds(s.tm, RestartSlot(target));
    var c := FindChild(s.children, target);
    if c.Some? { ArmAdds(s.tm, StopWait(c.value.id, target)); }
    var x, y := StopRequest(s, target), RemoveRequest(s, target);
    assert x.registry == s.registry && x.channels == s.channels && NoNewRestart(s.tm, x.tm);
    NamesFrame(s, x);
    assert y != s ==> y.registry == r.registry && y.channels.Keys == s.channels.Keys && NoNewRestart(s.tm, y.tm);
    if y != s { NamesFrame(r, y); }
    hide Drop, Arm, FindEntry, FindChild, Unregister;
  }

  lemma {:induction false} SendNames(s: State)
    requires ChannelNamesOk(s)
    ensures ChannelNamesOk(SendCurrentBatch(s))
    decreases |s.batches| - s.batchIndex
  {
    DropAdds(s.tm, BatchSlot);
    ArmAdds(s.tm, BatchWait(s.batchIndex));
    if s.batchIndex < |s.batches| && !AnyLive(s.children, s.batches[s.batchIndex]) {
      SendNames(s.(batchIndex := s.batchIndex + 1));
    } else {
      hide ChannelNamesOk, Drop, Arm;
      NamesFrame(s, SendCurrentBatch(s));
    }
  }

  /** A crash arms a restart of what the lookup finds, or of the child itself when it finds
      nothing. */
  lemma EffectiveOpenable(registry: seq<ProcessEntry>, e: ProcessEntry)
    ensures var found := FindEntry(registry, e.name);
      var effective := if found.Some? then found.value else e;
      effective.category.GatewayMd? ==> Openable(registry, effective.name)
  {}

  lemma AfterCrashNames(s: State, c: Child)
    requires ChannelNamesOk(s)
    ensures ChannelNamesOk(AfterCrash(s, c))
  {
    EffectiveOpenable(s.registry, c.entry);
    hide Openable, ChannelNamesOk, Arm, FindEntry;
    var n := c.entry.name;
    var found := FindEntry(s.registry, n);
    var effective := if found.Some? then found.value else c.entry;
    var h := RestartWait(n, effective, Get(s.restartCounts, n, 0) + 1);
    var e := s.(restartCounts := AfterCrash(s, c).restartCounts);
    NamesFrame(s, e);
    ArmRestart(e, h);
  }

  lemma ArmRestart(s: State, h: Handler)
    requires ChannelNamesOk(s) && h.RestartWait? && (h.entry.category.GatewayMd? ==> Openable(s.registry, h.entry.name))
    ensures ChannelNamesOk(s.(tm := Arm(s.tm, h)))
  {
    hide Openable;
  }

  lemma ExitNames(s: State, c: Child, code: int)
    requires ChannelNamesOk(s)
    ensures ChannelNamesOk(OnChildExit(s, c, code))
  {
    var d := ExitCleanup(s, c, code);
    DropAdds(s.tm, StopSlot(c.entry.name));
    assert d.channels.Keys == s.channels.Keys by { hide FindEntry, SubscriberName; }
    NamesFrame(s, d);
    AfterCrashNames(d, c);
    DropAdds(d.tm, BatchSlot);
    hide ExitCleanup, AfterCrash, Drop, ChannelNamesOk;
    var e := d.(tm := Drop(d.tm, BatchSlot), batchIndex := d.batchIndex + 1);
    NamesFrame(d, e);
    SendNames(e);
    NamesFrame(d, d.(restartCounts := d.restartCounts - {c.entry.name}));
  }

  lemma {:induction false} KillEachNames(s: State, names: seq<Name>, killer: Killer)
    ensures var r := KillEach(s, names, killer); r.registry == s.registry && r.channels == s.channels && r.tm == s.tm
    decreases |names|
  {
    if names != [] {
      var c := FindChild(s.children, names[0]);
      KillEachNames(if c.Some? then ForceKill(s, c.value, killer) else s, names[1..], killer);
    }
  }

  lemma {:induction false} TerminateFromNames(s: State, i: nat)
    ensures var r := TerminateFrom(s, i); r.registry == s.registry && r.channels == s.channels && r.tm == s.tm
    decreases |s.children| - i
  {
    if i < |s.children| { TerminateFromNames(Terminate(s, s.children[i], ForceAll), i + 1); }
  }

  lemma {:induction false} ParkEachNames(s: State, source: Name, names: seq<Name>)
    ensures var r := ParkEach(s, source, names); r.registry == s.registry && r.channels == s.channels && r.tm == s.tm
    decreases |names|
  {
    if names != [] {
      ParkEachNames(if Live(s.children, names[0]) then s else Park(s, source, names[0]), source, names[1..]);
    }
  }

  lemma TimerNames(s: State, id: nat, a: Attempt)
    requires ChannelNamesOk(s)
    ensures ChannelNamesOk(RunTimer(s, id, a))
  {
    if id in s.tm.waits && !s.tm.waits[id].wait.Waiting? {
      var h := s.tm.waits[id].handler;
      var d := s.(tm := Taken(s.tm, id));
      var e := d.(tm := Drop(d.tm, SlotOf(h)));
      DropAdds(d.tm, SlotOf(h));
      NamesFrame(s, d);
      NamesFrame(d, e);
      if h.RestartWait? { LaunchNames(e, h.entry, a, Restart); }
      if h.BatchWait? && h.armedIndex < |d.batches| { KillEachNames(d, d.batches[h.armedIndex], BatchTimer(h.armedIndex)); }
      var r := RunTimer(s, id, a);
      HandlersNames(d, h, a);
      hide Openable, OnRestartTimer, OnStopTimer, OnReadyTimer, Drop, KillEach, LaunchChild;
    }
  }

  lemma HandlersNames(s: State, h: Handler, a: Attempt)
    requires h.RestartWait? ==> ChannelNamesOk(LaunchChild(s.(tm := Drop(s.tm, SlotOf(h))), h.entry, a, Restart).0)
    requires ChannelNamesOk(s.(tm := Drop(s.tm, SlotOf(h))))
    ensures h.RestartWait? ==> ChannelNamesOk(OnRestartTimer(s, h, a))
    ensures h.StopWait? ==> ChannelNamesOk(OnStopTimer(s, h))
    ensures h.ReadyWait? ==> ChannelNamesOk(OnReadyTimer(s, h.source))
  {
    hide LaunchChild, Drop, Openable;
  }

  lemma ShutdownNames(s: State)
    requires ChannelNamesOk(s)
    ensures ChannelNamesOk(Shutdown(s))
  {
    if !s.shuttingDown {
      var batches := BuildShutdownBatches(RunningPairs(s.children));
      var d := s.(shuttingDown := true, tm := DropNamed(s.tm), restartCounts := map[], pending := map[],
                  batches := batches, batchIndex := 0, log := s.log + [ShutdownBegun(batches)]);
      assert NoNewRestart(s.tm, d.tm);
      NamesFrame(s, d);
      SendNames(d);
      hide ChannelNamesOk, DropNamed, BuildShutdownBatches;
      assert batches == [] ==> CheckComplete(d) == SendCurrentBatch(d);
    }
  }

  lemma StartedNames(s: State, source: Name, attempts: map<Name, Attempt>)
    requires ChannelNamesOk(s)
    ensures ChannelNamesOk(MdStarted(s, source, attempts))
  {
    if source in s.channels {
      var chans := s.channels[source := s.channels[source].(ready := true)];
      var d := s.(channels := chans, tm := Drop(s.tm, ReadySlot(source)));
      assert chans.Keys == s.channels.Keys;
      DropAdds(s.tm, ReadySlot(source));
      NamesFrame(s, d);
      NamesFrame(d, d.(pending := d.pending - {source}));
      if source in s.pending { LaunchEachNames(d.(pending := d.pending - {source}), s.pending[source], source, attempts, LateReady); }
    }
    hide ChannelNamesOk, LaunchEach, Drop;
  }

  lemma ReadersNames(s: State, channel: Name, sub: Name)
    requires ChannelNamesOk(s)
    ensures ChannelNamesOk(ReaderRegister(s, channel, sub)) && ChannelNamesOk(ReaderUnregister(s, channel, sub))
  {
    assert ReaderRegister(s, channel, sub).channels.Keys == s.channels.Keys;
    assert ReaderUnregister(s, channel, sub).channels.Keys == s.channels.Keys;
    NamesFrame(s, ReaderRegister(s, channel, sub));
    NamesFrame(s, ReaderUnregister(s, channel, sub));
    hide ChannelNamesOk, IsRegisteredProcess;
  }

  lemma NamesKept(s: State, step: Step)
    requires ChannelNamesOk(s)
    ensures ChannelNamesOk(Next(s, step))
  {
    hide LaunchChild, LaunchEach, ParkEach, StartRequest, StopRequest, RemoveRequest, SetPolicies, MdStarted, OnChildExit, RunTimer,
         Shutdown, ReaderRegister, ReaderUnregister, TerminateFrom, Openable;
    match step
    case StartupLaunchStep(e, a) => if e in s.registry { if e.category.GatewayMd? { InRegistry(s.registry, e); } LaunchNames(s, e, a, Startup); }
    case StartupPromoteStep(source, attempts) =>
      LaunchEachNames(s, StrategiesBoundTo(s.registry, source), source, attempts, Startup);
    case StartupParkStep(source) => ParkEachNames(s, source, StrategiesBoundTo(s.registry, source));
    case StartStep(target, scanned, a) => StartNames(s, target, scanned, a);
    case StopStep(target) => StopNames(s, target);
    case RemoveStep(target) => StopNames(s, target);
    case SetPolicyStep(target, p) =>
      forall n | Openable(s.registry, n) ensures Openable(SetPolicies(s.registry, target, p), n) {
        PolicyOpenable(s.registry, target, p, n);
      }
    case MdStartedStep(source, attempts) => StartedNames(s, source, attempts);
    case ReaderRegisterStep(channel, sub) => ReadersNames(s, channel, sub);
    case ReaderUnregisterStep(channel, sub) => ReadersNames(s, channel, sub);
    case ExitStep(id, code) =>
      var c := ChildById(s.children, id);
      if c.Some? { ExitNames(s, c.value, code); }
    case ExpireStep(_) =>
    case TimerStep(t, a) => TimerNames(s, t, a);
    case ShutdownStep => ShutdownNames(s);
    case ForceAllStep => TerminateFromNames(s, 0);
  }

  lemma InRegistry(registry: seq<ProcessEntry>, e: ProcessEntry)
    requires e in registry && e.category.GatewayMd?
    ensures Openable(registry, e.name)
  {}
}
