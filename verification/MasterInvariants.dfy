/** What every step of the master keeps about identities and timers: one live child per
    name, and no timer that could still restart a live process behind its back. */
module MasterInvariants {
  import opened Basics
  import opened MasterTypes
  import opened MasterSteps

  // ----- identities ---------------------------------------------------------------

  ghost predicate DistinctChildren(cs: seq<Child>) {
    forall i, j :: 0 <= i < j < |cs| ==> cs[i].entry.name != cs[j].entry.name && cs[i].id != cs[j].id
  }

  ghost predicate Identity(cs: seq<Child>, next: nat) {
    DistinctChildren(cs) && forall c :: c in cs ==> c.id < next
  }

  lemma {:induction false} RemoveKeepsDistinct(cs: seq<Child>, id: nat)
    requires DistinctChildren(cs)
    ensures DistinctChildren(RemoveChild(cs, id))
  {
    if cs != [] {
      RemoveKeepsDistinct(cs[1..], id);
      var rest := RemoveChild(cs[1..], id);
      assert forall c :: c in rest ==> c in cs[1..];
      assert forall c :: c in cs[1..] ==> exists j :: 0 < j < |cs| && cs[j] == c;
      assert cs[0].id != id ==> RemoveChild(cs, id) == [cs[0]] + rest;
    }
  }

  /** With distinct children the first child of a name is the only one. */
  lemma FindIsUnique(cs: seq<Child>, c: Child)
    requires DistinctChildren(cs) && c in cs
    ensures FindChild(cs, c.entry.name) == Some(c)
    ensures ChildById(cs, c.id) == Some(c)
  {
    var f := FindChild(cs, c.entry.name).value;
    var g := ChildById(cs, c.id).value;
    var i :| 0 <= i < |cs| && cs[i] == c;
    var j :| 0 <= j < |cs| && cs[j] == f;
    var k :| 0 <= k < |cs| && cs[k] == g;
  }

  lemma LiveAt(cs: seq<Child>, n: Name)
    ensures Live(cs, n) <==> exists i :: 0 <= i < |cs| && cs[i].entry.name == n
  {
    if Live(cs, n) {
      var i :| 0 <= i < |cs| && cs[i] == FindChild(cs, n).value;
    }
    forall i | 0 <= i < |cs| && cs[i].entry.name == n ensures Live(cs, n) { assert cs[i] in cs; }
  }

  lemma {:induction false} LiveAppend(cs: seq<Child>, c: Child, n: Name)
    ensures Live(cs + [c], n) == (Live(cs, n) || c.entry.name == n)
  {
    if cs != [] {
      assert (cs + [c])[0] == cs[0];
      assert (cs + [c])[1..] == cs[1..] + [c];
      LiveAppend(cs[1..], c, n);
    }
  }

  /** Terminating a child changes no name and no identity. */
  lemma MarkKeepsNames(cs: seq<Child>, id: nat)
    ensures forall n :: Live(MarkStopping(cs, id), n) == Live(cs, n)
    ensures DistinctChildren(cs) ==> DistinctChildren(MarkStopping(cs, id))
    ensures forall c :: c in MarkStopping(cs, id) ==> exists d :: d in cs && d.(state := c.state) == c
  {
    var m := MarkStopping(cs, id);
    forall n ensures Live(m, n) == Live(cs, n) {
      LiveAt(cs, n);
      LiveAt(m, n);
    }
    hide FindChild;
    forall c | c in m ensures exists d :: d in cs && d.(state := c.state) == c {
      var i :| 0 <= i < |m| && m[i] == c;
      assert cs[i] in cs;
    }
  }

  // ----- timers -------------------------------------------------------------------

  predicate Pending(tm: Timers, t: nat) { t in tm.waits && !tm.waits[t].wait.Cancelled? }

  predicate Tracked(tm: Timers, t: nat)
    requires t in tm.waits
  {
    SlotOf(tm.waits[t].handler) in tm.slots && tm.slots[SlotOf(tm.waits[t].handler)] == t
  }

  /** A tracked timer is of the right kind and not cancelled, and it is gone from the event
      loop only if it is the shutdown timer; a timer that can still expire is tracked:
      whoever drops a slot cancels its timer; a restart handler restarts the process it is
      named after. */
  ghost predicate TimersOk(tm: Timers) {
    && (forall k :: k in tm.slots ==> tm.slots[k] < tm.next)
    && (forall k :: k in tm.slots && (k != BatchSlot || tm.slots[k] in tm.waits) ==>
         Pending(tm, tm.slots[k]) && SlotOf(tm.waits[tm.slots[k]].handler) == k)
    && (forall t :: t in tm.waits ==> t < tm.next)
    && (forall t :: t in tm.waits && tm.waits[t].wait.Waiting? ==> Tracked(tm, t))
    && (forall t :: t in tm.waits && tm.waits[t].handler.RestartWait? ==>
         tm.waits[t].handler.entry.name == tm.waits[t].handler.name)
  }

  predicate OwnName(h: Handler) { h.RestartWait? ==> h.entry.name == h.name }

  lemma DropKeeps(tm: Timers, k: Slot)
    requires TimersOk(tm)
    ensures TimersOk(Drop(tm, k))
  {}

  lemma ArmKeeps(tm: Timers, h: Handler)
    requires TimersOk(tm) && OwnName(h)
    ensures TimersOk(Arm(tm, h))
  {
    DropKeeps(tm, SlotOf(h));
  }

  lemma DropNamedKeeps(tm: Timers)
    requires TimersOk(tm)
    ensures TimersOk(DropNamed(tm))
  {}

  /** A handler that ran drops its slot, unless it was cancelled and so already untracked. */
  lemma TakenKeeps(tm: Timers, id: nat)
    requires TimersOk(tm) && id in tm.waits && !tm.waits[id].wait.Waiting?
    ensures TimersOk(Drop(Taken(tm, id), SlotOf(tm.waits[id].handler)))
    ensures tm.waits[id].wait.Cancelled? || tm.waits[id].handler.BatchWait? ==> TimersOk(Taken(tm, id))
  {}

  /** A process with a tracked restart timer is not running. */
  ghost predicate NoLiveRestart(s: State) {
    forall n :: RestartSlot(n) in s.tm.slots ==> !Live(s.children, n)
  }

  ghost predicate Core(s: State) { Identity(s.children, s.nextChild) && TimersOk(s.tm) && NoLiveRestart(s) }

  // ----- what a launch changes ------------------------------------------------------

  /** The channels a launch leaves: its own channel opened, for a market-data process. */
  function LaunchChannels(s: State, e: ProcessEntry, a: Attempt): map<Name, Channel> {
    if e.category.GatewayMd? && !a.ExeMissing? then CreateMdChannel(s.channels, e.name, a.pageSize) else s.channels
  }

  ghost predicate LaunchRefused(s: State, e: ProcessEntry, a: Attempt) {
    || Live(s.children, e.name) || a.ExeMissing?
    || (e.category.GatewayMd? && CreateRejected(s, e.name, a.pageSize))
  }

  /** A launch adds one child and logs it, or changes at most counters and its channel. */
  lemma LaunchFrame(s: State, e: ProcessEntry, a: Attempt, via: Via)
    ensures var (r, o) := LaunchChild(s, e, a, via);
      && r == s.(children := r.children, nextChild := r.nextChild, tm := r.tm, restartCounts := r.restartCounts,
                 channels := r.channels, log := r.log)
      && (o.Launched? <==> !LaunchRefused(s, e, a) && a.Spawns?)
      && r.channels == (if LaunchRefused(s, e, a) then s.channels else LaunchChannels(s, e, a))
      && (if o.Launched? then
            var bound := BoundChannel(r.channels, e);
            && r.children == s.children + [Child(s.nextChild, e, ChildRunning, LayoutOf(bound))]
            && r.log == s.log + [Spawned(s.nextChild, e, via, bound)]
          else r.children == s.children && r.log == s.log && r.tm == s.tm)
  {}

  // ----- preservation -------------------------------------------------------------

  lemma SpawnKeeps(s: State, e: ProcessEntry, via: Via)
    requires Core(s) && !Live(s.children, e.name)
    ensures Core(Spawn(s, e, via))
  {
    DropKeeps(s.tm, RestartSlot(e.name));
    ArmKeeps(Drop(s.tm, RestartSlot(e.name)), ReadyWait(e.name));
    var r := Spawn(s, e, via);
    forall n | RestartSlot(n) in r.tm.slots ensures !Live(r.children, n) {
      assert RestartSlot(n) in s.tm.slots && n != e.name;
    }
  }

  lemma LaunchKeeps(s: State, e: ProcessEntry, a: Attempt, via: Via)
    requires Core(s)
    ensures Core(LaunchChild(s, e, a, via).0)
  {
    if !Live(s.children, e.name) && a.Spawns? {
      var c := if e.category.GatewayMd?
               then s.(channels := CreateMdChannel(s.channels, e.name, a.pageSize)) else s;
      SpawnKeeps(c, e, via);
    }
  }

  lemma {:induction false} LaunchEachKeeps(s: State, names: seq<Name>, source: Name, attempts: map<Name, Attempt>, via: Via)
    requires Core(s)
    ensures Core(LaunchEach(s, names, source, attempts, via))
    decreases |names|
  {
    if names != [] {
      var n := names[0];
      var a := AttemptFor(attempts, n);
      var e := FindEntry(s.registry, n);
      if e.Some? { LaunchKeeps(s.(channels := PreRegister(s.channels, n, source)), e.value, a, via); }
      var l := if via.Startup? && Live(s.children, n) then s else LaunchWithReader(s, n, source, a, via);
      LaunchEachKeeps(l, names[1..], source, attempts, via);
    }
  }

  lemma TerminateKeeps(s: State, c: Child, killer: Killer)
    requires Core(s)
    ensures Core(Terminate(s, c, killer)) && Core(ForceKill(s, c, killer))
  {
    MarkKeepsNames(s.children, c.id);
  }

  lemma {:induction false} KillEachKeeps(s: State, names: seq<Name>, killer: Killer)
    requires Core(s)
    ensures Core(KillEach(s, names, killer))
    decreases |names|
  {
    if names != [] {
      var c := FindChild(s.children, names[0]);
      if c.Some? { TerminateKeeps(s, c.value, killer); }
      KillEachKeeps(if c.Some? then ForceKill(s, c.value, killer) else s, names[1..], killer);
    }
  }

  lemma {:induction false} TerminateFromKeeps(s: State, i: nat)
    requires Core(s)
    ensures Core(TerminateFrom(s, i))
    decreases |s.children| - i
  {
    if i < |s.children| {
      TerminateKeeps(s, s.children[i], ForceAll);
      TerminateFromKeeps(Terminate(s, s.children[i], ForceAll), i + 1);
    }
  }

  lemma {:induction false} SendKeeps(s: State)
    requires Core(s)
    ensures Core(SendCurrentBatch(s))
    decreases |s.batches| - s.batchIndex
  {
    if s.batchIndex >= |s.batches| {
      DropKeeps(s.tm, BatchSlot);
    } else if AnyLive(s.children, s.batches[s.batchIndex]) {
      ArmKeeps(s.tm, BatchWait(s.batchIndex));
    } else {
      SendKeeps(s.(batchIndex := s.batchIndex + 1));
    }
  }

  lemma {:induction false} ParkEachKeeps(s: State, source: Name, names: seq<Name>)
    requires Core(s)
    ensures Core(ParkEach(s, source, names))
    decreases |names|
  {
    if names != [] {
      ParkEachKeeps(if Live(s.children, names[0]) then s else Park(s, source, names[0]), source, names[1..]);
    }
  }

  lemma ShutdownKeeps(s: State)
    requires Core(s)
    ensures Core(Shutdown(s))
  {
    if !s.shuttingDown {
      DropNamedKeeps(s.tm);
      var batches := BuildShutdownBatches(RunningPairs(s.children));
      var d := s.(shuttingDown := true, tm := DropNamed(s.tm), restartCounts := map[], pending := map[],
                  batches := batches, batchIndex := 0, log := s.log + [ShutdownBegun(batches)]);
      DropKeeps(d.tm, BatchSlot);
      SendKeeps(d);
    }
  }

  lemma ExitCleanupKeeps(s: State, c: Child, code: int)
    requires Core(s) && c in s.children
    ensures Core(ExitCleanup(s, c, code))
    ensures !Live(ExitCleanup(s, c, code).children, c.entry.name)
  {
    DropKeeps(s.tm, StopSlot(c.entry.name));
    RemoveKeepsDistinct(s.children, c.id);
    var r := ExitCleanup(s, c, code);
    forall d | d in r.children && d.entry.name == c.entry.name ensures false {
      FindIsUnique(s.children, d);
      FindIsUnique(s.children, c);
    }
    forall n | RestartSlot(n) in r.tm.slots ensures !Live(r.children, n) {
      assert !Live(s.children, n);
    }
  }

  lemma AdvanceKeeps(s: State)
    requires Core(s)
    ensures Core(AdvanceBatch(s))
  {
    DropKeeps(s.tm, BatchSlot);
    SendKeeps(s.(tm := Drop(s.tm, BatchSlot), batchIndex := s.batchIndex + 1));
  }

  lemma AfterCrashKeeps(s: State, c: Child)
    requires Core(s) && !Live(s.children, c.entry.name)
    ensures Core(AfterCrash(s, c))
  {
    var n := c.entry.name;
    var found := FindEntry(s.registry, n);
    var effective := if found.Some? then found.value else c.entry;
    var h := RestartWait(n, effective, Get(s.restartCounts, n, 0) + 1);
    ArmKeeps(s.tm, h);
    var r := AfterCrash(s, c);
    assert r.tm == s.tm || r.tm == Arm(s.tm, h);
    forall m | RestartSlot(m) in r.tm.slots ensures !Live(r.children, m) {
      assert m == n || RestartSlot(m) in s.tm.slots;
    }
  }

  lemma ExitKeeps(s: State, c: Child, code: int)
    requires Core(s) && c in s.children
    ensures Core(OnChildExit(s, c, code))
  {
    ExitCleanupKeeps(s, c, code);
    AdvanceKeeps(ExitCleanup(s, c, code));
    AfterCrashKeeps(ExitCleanup(s, c, code), c);
  }

  /** The handlers, run after their timer was taken and its slot dropped. */
  lemma HandlersKeep(s: State, h: Handler, a: Attempt)
    requires Core(s.(tm := Drop(s.tm, SlotOf(h))))
    ensures h.RestartWait? ==> Core(OnRestartTimer(s, h, a))
    ensures h.StopWait? ==> Core(OnStopTimer(s, h))
    ensures h.ReadyWait? ==> Core(OnReadyTimer(s, h.source))
  {
    var e := s.(tm := Drop(s.tm, SlotOf(h)));
    match h
    case RestartWait(n, entry, k) => LaunchKeeps(e, entry, a, Restart);
    case StopWait(cid, n) =>
      var c := ChildById(e.children, cid);
      if c.Some? { TerminateKeeps(e, c.value, StopTimer); }
    case ReadyWait(source) =>
      var c := FindChild(e.children, source);
      if c.Some? { TerminateKeeps(e, c.value, ReadyTimer); }
    case BatchWait(_) =>
  }

  lemma TimerKeeps(s: State, id: nat, a: Attempt)
    requires Core(s)
    ensures Core(RunTimer(s, id, a))
  {
    if id in s.tm.waits && !s.tm.waits[id].wait.Waiting? {
      TakenKeeps(s.tm, id);
      var h := s.tm.waits[id].handler;
      var d := s.(tm := Taken(s.tm, id));
      assert Core(d.(tm := Drop(d.tm, SlotOf(h))));
      HandlersKeep(d, h, a);
      if h.BatchWait? && h.armedIndex < |d.batches| {
        KillEachKeeps(d, d.batches[h.armedIndex], BatchTimer(h.armedIndex));
      }
    }
  }

  lemma StartKeeps(s: State, target: Name, scanned: Option<ProcessEntry>, a: Attempt)
    requires Core(s)
    ensures Core(StartRequest(s, target, scanned, a))
  {
    hide LaunchChild, TimersOk, Identity;
    var known := FindEntry(s.registry, target);
    if known.Some? || scanned.Some? {
      var r := if known.None? then s.(registry := s.registry + [scanned.value]) else s;
      var e := if known.None? then scanned.value else known.value;
      LaunchKeeps(r, e, a, Request);
      LaunchKeeps(r.(channels := PreRegister(r.channels, e.name, e.mdSource)), e, a, Request);
    }
  }

  lemma StopKeeps(s: State, target: Name)
    requires Core(s)
    ensures Core(StopRequest(s, target)) && Core(RemoveRequest(s, target))
  {
    DropKeeps(s.tm, RestartSlot(target));
    var c := FindChild(s.children, target);
    if c.Some? { ArmKeeps(s.tm, StopWait(c.value.id, target)); }
    hide TimersOk, Identity, Unregister, FindEntry;
  }

  lemma ReadyKeeps(s: State, source: Name, attempts: map<Name, Attempt>)
    requires Core(s)
    ensures Core(MdStarted(s, source, attempts))
  {
    if source in s.channels {
      var r := s.(channels := s.channels[source := s.channels[source].(ready := true)]);
      DropKeeps(r.tm, ReadySlot(source));
      var d := r.(tm := Drop(r.tm, ReadySlot(source)));
      if source in d.pending {
        LaunchEachKeeps(d.(pending := d.pending - {source}), d.pending[source], source, attempts, LateReady);
      }
    }
  }

  lemma ReadersKeep(s: State, channel: Name, sub: Name)
    requires Core(s)
    ensures Core(ReaderRegister(s, channel, sub)) && Core(ReaderUnregister(s, channel, sub))
  {
    hide TimersOk, Identity, IsRegisteredProcess;
  }

  lemma ExpireKeeps(s: State, t: nat)
    requires Core(s)
    ensures Core(ExpireTimer(s, t))
  {
    hide Identity;
  }

  /** Every step keeps identities and timers in order. */
  lemma CoreKept(s: State, step: Step)
    requires Core(s)
    ensures Core(Next(s, step))
  {
    hide LaunchChild, LaunchEach, ParkEach, StartRequest, StopRequest, RemoveRequest, MdStarted, OnChildExit, RunTimer,
         Shutdown, TerminateFrom, ReaderRegister, ReaderUnregister, TimersOk, Identity;
    match step
    case StartupLaunchStep(e, a) => LaunchKeeps(s, e, a, Startup);
    case StartupPromoteStep(source, attempts) =>
      LaunchEachKeeps(s, StrategiesBoundTo(s.registry, source), source, attempts, Startup);
    case StartupParkStep(source) => ParkEachKeeps(s, source, StrategiesBoundTo(s.registry, source));
    case StartStep(target, scanned, a) => StartKeeps(s, target, scanned, a);
    case StopStep(target) => StopKeeps(s, target);
    case RemoveStep(target) => StopKeeps(s, target);
    case SetPolicyStep(_, _) =>
    case MdStartedStep(source, attempts) => ReadyKeeps(s, source, attempts);
    case ReaderRegisterStep(channel, sub) => ReadersKeep(s, channel, sub);
    case ReaderUnregisterStep(channel, sub) => ReadersKeep(s, channel, sub);
    case ExitStep(id, code) =>
      var c := ChildById(s.children, id);
      if c.Some? { ExitKeeps(s, c.value, code); }
    case ExpireStep(t) => ExpireKeeps(s, t);
    case TimerStep(t, a) => TimerKeeps(s, t, a);
    case ShutdownStep => ShutdownKeeps(s);
    case ForceAllStep => TerminateFromKeeps(s, 0);
  }

  lemma {:induction false} CoreOverRun(s: State, steps: seq<Step>)
    requires Core(s)
    ensures Core(Run(s, steps))
    decreases |steps|
  {
    if steps != [] {
      CoreKept(s, steps[0]);
      CoreOverRun(Next(s, steps[0]), steps[1..]);
    }
  }

  /** Over every run: at most one live child per name and per identity, and no restart timer is
      tracked for a name that is live. */
  lemma SingleInstance(registry: seq<ProcessEntry>, steps: seq<Step>)
    ensures var s := Run(Initial(registry), steps);
      && (forall i, j :: 0 <= i < j < |s.children| ==>
           s.children[i].entry.name != s.children[j].entry.name && s.children[i].id != s.children[j].id)
      && (forall n :: RestartSlot(n) in s.tm.slots ==> !Live(s.children, n))
  {
    CoreOverRun(Initial(registry), steps);
    hide Run;
  }
}
