/** What each handler of the master does to the state: the specification the classes of
    Supervisor.dfy are proved against, and the step system the run theorems are about. */
module MasterSteps {
  import opened Basics
  import opened MasterTypes

  // ----- lookups ------------------------------------------------------------------

  function FindChild(cs: seq<Child>, n: Name): (r: Option<Child>)
    ensures r.Some? <==> exists c :: c in cs && c.entry.name == n
    ensures r.Some? ==> r.value in cs && r.value.entry.name == n
  {
    if cs == [] then None
    else if cs[0].entry.name == n then Some(cs[0])
    else FindChild(cs[1..], n)
  }

  predicate Live(cs: seq<Child>, n: Name) { FindChild(cs, n).Some? }

  function FindEntry(es: seq<ProcessEntry>, n: Name): (r: Option<ProcessEntry>)
    ensures r.Some? <==> exists e :: e in es && e.name == n
    ensures r.Some? ==> r.value in es && r.value.name == n
  {
    if es == [] then None
    else if es[0].name == n then Some(es[0])
    else FindEntry(es[1..], n)
  }

  predicate BoundTo(e: ProcessEntry, source: Name) { e.category.Strategy? && e.mdSource == source }

  function StrategiesBoundTo(es: seq<ProcessEntry>, source: Name): (r: seq<Name>)
    ensures forall n :: n in r <==> exists e :: e in es && BoundTo(e, source) && e.name == n
  {
    if es == [] then []
    else (if BoundTo(es[0], source) then [es[0].name] else []) + StrategiesBoundTo(es[1..], source)
  }

  function AttemptFor(attempts: map<Name, Attempt>, n: Name): Attempt {
    if n in attempts then attempts[n] else ExeMissing
  }

  function SubscriberName(e: ProcessEntry): Name {
    if e.category.Strategy? then "stg." + e.name else e.name
  }

  function Get<K, V>(m: map<K, V>, k: K, default: V): V { if k in m then m[k] else default }

  // ----- timers -------------------------------------------------------------------

  function SlotOf(h: Handler): Slot {
    match h
    case RestartWait(n, _, _) => RestartSlot(n)
    case StopWait(_, n) => StopSlot(n)
    case ReadyWait(source) => ReadySlot(source)
    case BatchWait(_) => BatchSlot
  }

  function Cancelled(t: Timer): Timer { if t.wait.Waiting? then t.(wait := Wait.Cancelled) else t }

  function CancelOne(waits: map<nat, Timer>, id: nat): map<nat, Timer> {
    if id in waits then waits[id := Cancelled(waits[id])] else waits
  }

  /** Cancels and forgets the timer of a slot, if there is one. */
  function Drop(tm: Timers, k: Slot): Timers {
    if k in tm.slots then tm.(waits := CancelOne(tm.waits, tm.slots[k]), slots := tm.slots - {k}) else tm
  }

  /** Starts a timer and tracks it, in place of the one its slot had. */
  function Arm(tm: Timers, h: Handler): Timers {
    var d := Drop(tm, SlotOf(h));
    Timers(d.waits[d.next := Timer(h, Waiting)], d.slots[SlotOf(h) := d.next], d.next + 1)
  }

  /** Cancels and forgets everything but the shutdown timer. */
  function DropNamed(tm: Timers): Timers {
    tm.(waits := map t | t in tm.waits ::
          if exists k :: k in tm.slots && k != BatchSlot && tm.slots[k] == t then Cancelled(tm.waits[t]) else tm.waits[t],
        slots := map k | k in tm.slots && k == BatchSlot :: tm.slots[k])
  }

  /** The event loop has taken the handler of this timer to run it. */
  function Taken(tm: Timers, id: nat): Timers { tm.(waits := tm.waits - {id}) }

  function CancelPendingRestart(s: State, n: Name): State {
    s.(tm := Drop(s.tm, RestartSlot(n)), restartCounts := s.restartCounts - {n})
  }

  // ----- market-data channels -----------------------------------------------------

  predicate AlreadyOpen(chans: map<Name, Channel>, source: Name) {
    source in chans && chans[source].status.MdRunning? && chans[source].meta.Some?
  }

  predicate NeedsReset(chans: map<Name, Channel>, source: Name, size: nat) {
    source in chans && chans[source].meta.Some? && chans[source].lastPageSize > 0 && chans[source].lastPageSize != size
  }

  predicate CreateRejected(s: State, source: Name, size: nat) {
    && !AlreadyOpen(s.channels, source)
    && NeedsReset(s.channels, source, size)
    && exists n :: n in StrategiesBoundTo(s.registry, source) && Live(s.children, n)
  }

  function CreateMdChannel(chans: map<Name, Channel>, source: Name, size: nat): map<Name, Channel> {
    if AlreadyOpen(chans, source) then chans
    else
      var keep := source in chans && !NeedsReset(chans, source, size) && chans[source].meta.Some?;
      var readers := if keep then chans[source].meta.value else {};
      chans[source := Channel(MdRunning, false, size, Some(readers))]
  }

  function SetStatus(chans: map<Name, Channel>, source: Name, status: MdStatus): map<Name, Channel> {
    if source in chans then chans[source := chans[source].(ready := false, status := status)] else chans
  }

  function CloseMdChannel(chans: map<Name, Channel>, source: Name): map<Name, Channel> {
    SetStatus(chans, source, MdStopped)
  }

  function TombstoneMdChannel(chans: map<Name, Channel>, source: Name): map<Name, Channel> {
    SetStatus(chans, source, MdTombstone)
  }

  predicate SourceReady(chans: map<Name, Channel>, source: Name) {
    source in chans && chans[source].status.MdRunning? && chans[source].ready && chans[source].meta.Some?
  }

  function WithReader(c: Channel, reader: Name): Channel
    requires c.meta.Some?
  {
    c.(meta := Some(c.meta.value + {reader}))
  }

  function WithoutReader(c: Channel, reader: Name): Channel {
    if c.meta.Some? then c.(meta := Some(c.meta.value - {reader})) else c
  }

  function PreRegister(chans: map<Name, Channel>, strategy: Name, source: Name): map<Name, Channel> {
    if SourceReady(chans, source) then chans[source := WithReader(chans[source], "stg." + strategy)] else chans
  }

  function RemoveReaderEverywhere(chans: map<Name, Channel>, reader: Name): map<Name, Channel> {
    map c | c in chans :: WithoutReader(chans[c], reader)
  }

  predicate IsRegisteredProcess(registry: seq<ProcessEntry>, subscriber: Name) {
    if "stg." <= subscriber then
      var e := FindEntry(registry, subscriber[4..]);
      subscriber[4..] != [] && e.Some? && e.value.category.Strategy?
    else
      var e := FindEntry(registry, subscriber);
      e.Some? && !e.value.category.Strategy?
  }

  predicate RegisterAccepted(s: State, channel: Name, subscriber: Name) {
    IsRegisteredProcess(s.registry, subscriber) && SourceReady(s.channels, channel)
  }

  function ReaderRegister(s: State, channel: Name, subscriber: Name): State {
    if RegisterAccepted(s, channel, subscriber)
    then s.(channels := s.channels[channel := WithReader(s.channels[channel], subscriber)])
    else s
  }

  function ReaderUnregister(s: State, channel: Name, subscriber: Name): State {
    if IsRegisteredProcess(s.registry, subscriber) && channel in s.channels
       && !s.channels[channel].status.MdTombstone? && s.channels[channel].meta.Some?
    then s.(channels := s.channels[channel := WithoutReader(s.channels[channel], subscriber)])
    else s
  }

  // ----- launching ----------------------------------------------------------------

  function BoundChannel(chans: map<Name, Channel>, e: ProcessEntry): Option<Channel> {
    if e.category.Strategy? && e.mdSource in chans then Some(chans[e.mdSource]) else None
  }

  function LayoutOf(bound: Option<Channel>): Option<nat> {
    if bound.Some? then Some(bound.value.lastPageSize) else None
  }

  /** The success half of a launch. */
  function Spawn(s: State, e: ProcessEntry, via: Via): State {
    var d := CancelPendingRestart(s, e.name);
    var bound := BoundChannel(s.channels, e);
    d.(tm := if e.category.GatewayMd? then Arm(d.tm, ReadyWait(e.name)) else d.tm,
       children := s.children + [Child(s.nextChild, e, ChildRunning, LayoutOf(bound))],
       nextChild := s.nextChild + 1,
       log := s.log + [Spawned(s.nextChild, e, via, bound)])
  }

  function LaunchChild(s: State, e: ProcessEntry, a: Attempt, via: Via): (State, Outcome) {
    if Live(s.children, e.name) then (s, NotLaunched)
    else if a.ExeMissing? then (s.(restartCounts := s.restartCounts - {e.name}), NotLaunched)
    else if e.category.GatewayMd? && CreateRejected(s, e.name, a.pageSize) then (s, Threw)
    else
      var c := if e.category.GatewayMd?
               then s.(channels := CreateMdChannel(s.channels, e.name, a.pageSize)) else s;
      if a.SpawnFails? then (c.(restartCounts := c.restartCounts - {e.name}), NotLaunched)
      else (Spawn(c, e, via), Launched)
  }

  /** Registers the reader of strategy n, then launches its registry entry. */
  function LaunchWithReader(s: State, n: Name, source: Name, a: Attempt, via: Via): State {
    var e := FindEntry(s.registry, n);
    if e.None? then s
    else LaunchChild(s.(channels := PreRegister(s.channels, n, source)), e.value, a, via).0
  }

  function LaunchEach(s: State, names: seq<Name>, source: Name, attempts: map<Name, Attempt>, via: Via): State
    decreases |names|
  {
    if names == [] then s
    else
      var n := names[0];
      var l := if via.Startup? && Live(s.children, n) then s
               else LaunchWithReader(s, n, source, AttemptFor(attempts, n), via);
      LaunchEach(l, names[1..], source, attempts, via)
  }

  function Park(s: State, source: Name, n: Name): State {
    var list := Get(s.pending, source, []);
    s.(pending := s.pending[source := if n in list then list else list + [n]])
  }

  function LaunchRegistered(s: State, e: ProcessEntry, a: Attempt): State {
    if e.category.Strategy? && e.mdSource != "" then
      if !SourceReady(s.channels, e.mdSource) then Park(s, e.mdSource, e.name)
      else LaunchChild(s.(channels := PreRegister(s.channels, e.name, e.mdSource)), e, a, Request).0
    else LaunchChild(s, e, a, Request).0
  }

  // ----- control requests ---------------------------------------------------------

  predicate IsGateway(e: ProcessEntry) { e.category.GatewayMd? || e.category.GatewayTd? }

  /** A start request; an unknown target is registered first when the scan finds a gateway. */
  function StartRequest(s: State, target: Name, scanned: Option<ProcessEntry>, a: Attempt): State {
    if s.shuttingDown then s
    else
      var known := FindEntry(s.registry, target);
      if known.None? && (scanned.None? || !IsGateway(scanned.value) || scanned.value.name != target) then s
      else
        var r := if known.None? then s.(registry := s.registry + [scanned.value]) else s;
        var e := if known.None? then scanned.value else known.value;
        if Live(r.children, target) then r else LaunchRegistered(r, e, a)
  }

  function StopChild(s: State, c: Child): State {
    s.(tm := Arm(s.tm, StopWait(c.id, c.entry.name)), log := s.log + [ShutdownSent(c.entry.name)])
  }

  function StopProcess(s: State, n: Name): State {
    var c := FindChild(s.children, n);
    if s.shuttingDown || c.None? then s else StopChild(s, c.value)
  }

  function StopRequest(s: State, target: Name): State {
    if FindEntry(s.registry, target).None? then s
    else if !Live(s.children, target) then CancelPendingRestart(s, target)
    else StopProcess(s, target)
  }

  function Unregister(es: seq<ProcessEntry>, n: Name): (r: seq<ProcessEntry>)
    ensures forall e :: e in r <==> e in es && e.name != n
  {
    if es == [] then []
    else (if es[0].name == n then [] else [es[0]]) + Unregister(es[1..], n)
  }

  function RemoveRequest(s: State, target: Name): State {
    var e := FindEntry(s.registry, target);
    if e.None? then s
    else
      var r := s.(registry := Unregister(s.registry, target));
      if Live(s.children, target) then StopProcess(r.(removePending := r.removePending + {target}), target)
      else
        var d := CancelPendingRestart(r, target);
        d.(channels := if e.value.category.GatewayMd? then TombstoneMdChannel(d.channels, target) else d.channels,
           removePending := d.removePending - {target})
  }

  function SetPolicies(es: seq<ProcessEntry>, n: Name, p: RestartPolicy): seq<ProcessEntry> {
    if es == [] then []
    else if es[0].name == n then [es[0].(restart := p)] + es[1..]
    else [es[0]] + SetPolicies(es[1..], n, p)
  }

  function SetPolicy(s: State, n: Name, p: RestartPolicy): State {
    s.(registry := SetPolicies(s.registry, n, p))
  }

  // ----- readiness ----------------------------------------------------------------

  function OnReady(s: State, source: Name, attempts: map<Name, Attempt>): State {
    var d := s.(tm := Drop(s.tm, ReadySlot(source)));
    if source !in d.pending then d
    else LaunchEach(d.(pending := d.pending - {source}), d.pending[source], source, attempts, LateReady)
  }

  function MdStarted(s: State, source: Name, attempts: map<Name, Attempt>): State {
    if source !in s.channels || s.channels[source].meta.None? || !s.channels[source].status.MdRunning? then s
    else OnReady(s.(channels := s.channels[source := s.channels[source].(ready := true)]), source, attempts)
  }

  // ----- termination --------------------------------------------------------------

  /** terminate() on the child with this identity. */
  function MarkStopping(cs: seq<Child>, id: nat): (r: seq<Child>)
    ensures |r| == |cs|
    ensures forall i :: 0 <= i < |cs| ==> r[i] == (if cs[i].id == id then cs[i].(state := ChildStopping) else cs[i])
  {
    if cs == [] then []
    else [if cs[0].id == id then cs[0].(state := ChildStopping) else cs[0]] + MarkStopping(cs[1..], id)
  }

  function Terminate(s: State, c: Child, killer: Killer): State {
    s.(children := MarkStopping(s.children, c.id), log := s.log + [Terminated(c.entry.name, killer)])
  }

  function ForceKill(s: State, c: Child, killer: Killer): State {
    Terminate(s.(forceKilled := s.forceKilled + {c.entry.name}), c, killer)
  }

  function KillEach(s: State, names: seq<Name>, killer: Killer): State
    decreases |names|
  {
    if names == [] then s
    else
      var c := FindChild(s.children, names[0]);
      KillEach(if c.Some? then ForceKill(s, c.value, killer) else s, names[1..], killer)
  }

  function TerminateFrom(s: State, i: nat): State
    decreases |s.children| - i
  {
    if i >= |s.children| then s
    else TerminateFrom(Terminate(s, s.children[i], ForceAll), i + 1)
  }

  function ForceTerminateAll(s: State): State { TerminateFrom(s, 0) }

  // ----- shutdown -----------------------------------------------------------------

  const SHUTDOWN_ORDER: seq<Category> := [Strategy, GatewayTd, GatewayMd, Internal, WebUI]

  function NamesIn(running: seq<(Name, Category)>, cat: Category): seq<Name> {
    if running == [] then []
    else (if running[0].1 == cat then [running[0].0] else []) + NamesIn(running[1..], cat)
  }

  function BatchesFor(running: seq<(Name, Category)>, cats: seq<Category>): seq<seq<Name>> {
    if cats == [] then []
    else
      var names := NamesIn(running, cats[0]);
      (if names == [] then [] else [names]) + BatchesFor(running, cats[1..])
  }

  function BuildShutdownBatches(running: seq<(Name, Category)>): seq<seq<Name>> {
    BatchesFor(running, SHUTDOWN_ORDER)
  }

  function RunningPairs(cs: seq<Child>): (r: seq<(Name, Category)>)
    ensures |r| == |cs|
    ensures forall i :: 0 <= i < |cs| ==> r[i] == (cs[i].entry.name, cs[i].entry.category)
  {
    if cs == [] then [] else [(cs[0].entry.name, cs[0].entry.category)] + RunningPairs(cs[1..])
  }

  predicate AnyLive(cs: seq<Child>, names: seq<Name>) { exists n :: n in names && Live(cs, n) }

  function ShutdownFrames(cs: seq<Child>, names: seq<Name>): (r: seq<Event>)
    ensures forall e :: e in r ==> e.ShutdownSent? && e.name in names && Live(cs, e.name)
    ensures forall n :: n in names && Live(cs, n) ==> ShutdownSent(n) in r
  {
    if names == [] then []
    else (if Live(cs, names[0]) then [ShutdownSent(names[0])] else []) + ShutdownFrames(cs, names[1..])
  }

  function CheckComplete(s: State): State {
    if !s.shuttingDown || s.children != [] then s
    else
      s.(tm := Drop(s.tm, BatchSlot), log := s.log + [Completed])
  }

  function SendCurrentBatch(s: State): State
    decreases |s.batches| - s.batchIndex
  {
    if s.batchIndex >= |s.batches| then CheckComplete(s)
    else if AnyLive(s.children, s.batches[s.batchIndex]) then
      s.(tm := Arm(s.tm, BatchWait(s.batchIndex)), log := s.log + ShutdownFrames(s.children, s.batches[s.batchIndex]))
    else SendCurrentBatch(s.(batchIndex := s.batchIndex + 1))
  }

  function AdvanceBatch(s: State): State {
    if !s.shuttingDown || s.batchIndex >= |s.batches| then s
    else if AnyLive(s.children, s.batches[s.batchIndex]) then s
    else
      SendCurrentBatch(s.(tm := Drop(s.tm, BatchSlot), batchIndex := s.batchIndex + 1))
  }

  function ForceTerminateBatch(s: State, armed: nat): State {
    if armed != s.batchIndex || armed >= |s.batches| then s
    else KillEach(s, s.batches[armed], BatchTimer(armed))
  }

  function Shutdown(s: State): State {
    if s.shuttingDown then s
    else
      var batches := BuildShutdownBatches(RunningPairs(s.children));
      var d := s.(shuttingDown := true, tm := DropNamed(s.tm), restartCounts := map[], pending := map[], batches := batches,
                  batchIndex := 0, log := s.log + [ShutdownBegun(batches)]);
      if batches == [] then CheckComplete(d) else SendCurrentBatch(d)
  }

  // ----- child exit ---------------------------------------------------------------

  function RemoveChild(cs: seq<Child>, id: nat): (r: seq<Child>)
    ensures forall c :: c in r <==> c in cs && c.id != id
    ensures |r| <= |cs|
  {
    if cs == [] then []
    else (if cs[0].id == id then [] else [cs[0]]) + RemoveChild(cs[1..], id)
  }

  /** The restart policy's answer to a crash of a child that was not being removed. */
  function AfterCrash(s: State, c: Child): State {
    var n := c.entry.name;
    var found := FindEntry(s.registry, n);
    var effective := if found.Some? then found.value else c.entry;
    var count := Get(s.restartCounts, n, 0) + 1;
    if !effective.restart.enabled || count > effective.restart.maxAttempts
    then s.(restartCounts := s.restartCounts - {n})
    else s.(restartCounts := s.restartCounts[n := count], tm := Arm(s.tm, RestartWait(n, effective, count)))
  }

  function ExitChannels(s: State, c: Child, removed: bool): map<Name, Channel> {
    var chans := RemoveReaderEverywhere(s.channels, SubscriberName(c.entry));
    if !c.entry.category.GatewayMd? then chans
    else if removed && FindEntry(s.registry, c.entry.name).None? then TombstoneMdChannel(chans, c.entry.name)
    else CloseMdChannel(chans, c.entry.name)
  }

  /** The part of the exit callback before the restart decision. */
  function ExitCleanup(s: State, c: Child, code: int): State {
    var n := c.entry.name;
    s.(tm := Drop(s.tm, StopSlot(n)),
       children := RemoveChild(s.children, c.id),
       removePending := s.removePending - {n},
       channels := ExitChannels(s, c, n in s.removePending),
       forceKilled := s.forceKilled - {n},
       log := s.log + [Exited(c.id, n, code)])
  }

  function OnChildExit(s: State, c: Child, code: int): State {
    var n := c.entry.name;
    var d := ExitCleanup(s, c, code);
    if d.shuttingDown then AdvanceBatch(d)
    else if n in s.removePending || code == 0 then d.(restartCounts := d.restartCounts - {n})
    else AfterCrash(d, c)
  }

  // ----- timer callbacks ----------------------------------------------------------

  function OnRestartTimer(s: State, h: Handler, a: Attempt): State
    requires h.RestartWait?
  {
    var d := s.(tm := Drop(s.tm, RestartSlot(h.name)));
    if d.shuttingDown then d
    else
      var (l, o) := LaunchChild(d, h.entry, a, Restart);
      if o.Launched? then l.(restartCounts := l.restartCounts[h.name := h.count]) else l
  }

  function ChildById(cs: seq<Child>, id: nat): (r: Option<Child>)
    ensures r.Some? ==> r.value in cs && r.value.id == id
    ensures r.None? ==> forall c :: c in cs ==> c.id != id
  {
    if cs == [] then None else if cs[0].id == id then Some(cs[0]) else ChildById(cs[1..], id)
  }

  function OnStopTimer(s: State, h: Handler): State
    requires h.StopWait?
  {
    var c := ChildById(s.children, h.childId);
    var d := s.(tm := Drop(s.tm, StopSlot(h.name)));
    if c.Some? then ForceKill(d, c.value, StopTimer) else d
  }

  function OnReadyTimer(s: State, source: Name): State {
    var d := s.(tm := Drop(s.tm, ReadySlot(source)));
    var c := FindChild(d.children, source);
    if AnyLive(d.children, StrategiesBoundTo(d.registry, source)) && c.Some?
    then ForceKill(d, c.value, ReadyTimer) else d
  }

  /** The event loop runs a handler once: with success if its timer expired before any
      cancellation, with the aborted error otherwise. */
  function RunTimer(s: State, id: nat, a: Attempt): State {
    if id !in s.tm.waits || s.tm.waits[id].wait.Waiting? then s
    else
      var t := s.tm.waits[id];
      var d := s.(tm := Taken(s.tm, id));
      match t.handler
      case RestartWait(_, _, _) => if t.wait.Expired? then OnRestartTimer(d, t.handler, a) else d
      case StopWait(_, n) => if t.wait.Expired? then OnStopTimer(d, t.handler) else d.(tm := Drop(d.tm, StopSlot(n)))
      case ReadyWait(source) => if t.wait.Expired? then OnReadyTimer(d, source) else d
      case BatchWait(armed) => if t.wait.Expired? then ForceTerminateBatch(d, armed) else d
  }

  function ExpireTimer(s: State, id: nat): State {
    if id in s.tm.waits && s.tm.waits[id].wait.Waiting?
    then s.(tm := s.tm.(waits := s.tm.waits[id := s.tm.waits[id].(wait := Expired)])) else s
  }

  // ----- start-up -----------------------------------------------------------------

  /** Start-up launches an entry directly unless it is a strategy bound to a source. */
  function StartupLaunch(s: State, e: ProcessEntry, a: Attempt): State {
    if s.shuttingDown || e !in s.registry || (e.category.Strategy? && e.mdSource != "") then s
    else LaunchChild(s, e, a, Startup).0
  }

  /** Launches the strategies bound to a source whose channel was found ready. */
  function StartupPromote(s: State, source: Name, attempts: map<Name, Attempt>): State {
    if s.shuttingDown || source == "" || !SourceReady(s.channels, source) then s
    else LaunchEach(s, StrategiesBoundTo(s.registry, source), source, attempts, Startup)
  }

  function ParkEach(s: State, source: Name, names: seq<Name>): State
    decreases |names|
  {
    if names == [] then s
    else ParkEach(if Live(s.children, names[0]) then s else Park(s, source, names[0]), source, names[1..])
  }

  /** Parks the strategies of a source that did not become ready in time. */
  function StartupPark(s: State, source: Name): State {
    if s.shuttingDown || source == "" || SourceReady(s.channels, source) then s
    else ParkEach(s, source, StrategiesBoundTo(s.registry, source))
  }

  // ----- the step system ----------------------------------------------------------

  datatype Step =
    | StartupLaunchStep(entry: ProcessEntry, attempt: Attempt)
    | StartupPromoteStep(source: Name, attempts: map<Name, Attempt>)
    | StartupParkStep(source: Name)
    | StartStep(target: Name, scanned: Option<ProcessEntry>, attempt: Attempt)
    | StopStep(target: Name)
    | RemoveStep(target: Name)
    | SetPolicyStep(target: Name, policy: RestartPolicy)
    | MdStartedStep(source: Name, attempts: map<Name, Attempt>)
    | ReaderRegisterStep(channel: Name, subscriber: Name)
    | ReaderUnregisterStep(channel: Name, subscriber: Name)
    | ExitStep(id: nat, code: int)
    | ExpireStep(timer: nat)
    | TimerStep(timer: nat, attempt: Attempt)
    | ShutdownStep
    | ForceAllStep

  function Next(s: State, step: Step): State {
    match step
    case StartupLaunchStep(e, a) => StartupLaunch(s, e, a)
    case StartupPromoteStep(source, attempts) => StartupPromote(s, source, attempts)
    case StartupParkStep(source) => StartupPark(s, source)
    case StartStep(target, scanned, a) => StartRequest(s, target, scanned, a)
    case StopStep(target) => StopRequest(s, target)
    case RemoveStep(target) => RemoveRequest(s, target)
    case SetPolicyStep(target, p) => SetPolicy(s, target, p)
    case MdStartedStep(source, attempts) => MdStarted(s, source, attempts)
    case ReaderRegisterStep(channel, sub) => ReaderRegister(s, channel, sub)
    case ReaderUnregisterStep(channel, sub) => ReaderUnregister(s, channel, sub)
    case ExitStep(id, code) =>
      var c := ChildById(s.children, id);
      if c.Some? then OnChildExit(s, c.value, code) else s
    case ExpireStep(t) => ExpireTimer(s, t)
    case TimerStep(t, a) => RunTimer(s, t, a)
    case ShutdownStep => Shutdown(s)
    case ForceAllStep => ForceTerminateAll(s)
  }

  /** The steps that happen without any request: exits and timers. */
  predicate OfEventLoop(step: Step) { step.ExitStep? || step.ExpireStep? || step.TimerStep? }

  function Run(s: State, steps: seq<Step>): State
    decreases |steps|
  {
    if steps == [] then s else Run(Next(s, steps[0]), steps[1..])
  }

  lemma RunCons(s: State, step: Step, rest: seq<Step>)
    ensures Run(s, [step] + rest) == Run(Next(s, step), rest)
  {
    assert ([step] + rest)[1..] == rest;
  }

  lemma RunEmpty(s: State)
    ensures Run(s, []) == s
  {}

  lemma RunOne(s: State, step: Step)
    ensures Run(s, [step]) == Next(s, step)
  {
    hide Next;
    assert [step] + [] == [step];
    RunCons(s, step, []);
  }

  lemma {:induction false} RunLast(s: State, steps: seq<Step>, step: Step)
    ensures Run(s, steps + [step]) == Next(Run(s, steps), step)
    decreases |steps|
  {
    hide Next;
    if steps == [] {
      assert [] + [step] == [step] + [];
      RunCons(s, step, []);
    } else {
      assert steps + [step] == [steps[0]] + (steps[1..] + [step]);
      RunCons(s, steps[0], steps[1..] + [step]);
      RunLast(Next(s, steps[0]), steps[1..], step);
    }
  }

  lemma RunThree(s: State, a: Step, b: Step, c: Step, rest: seq<Step>)
    ensures Run(s, [a, b, c] + rest) == Run(Next(Next(Next(s, a), b), c), rest)
  {
    hide Next;
    assert [a, b, c] + rest == [a] + ([b] + ([c] + rest));
    RunCons(s, a, [b] + ([c] + rest));
    RunCons(Next(s, a), b, [c] + rest);
    RunCons(Next(Next(s, a), b), c, rest);
  }

  function Initial(registry: seq<ProcessEntry>): State {
    State(registry, [], 0, Timers(map[], map[], 0), map[], {}, {}, map[], map[],
          false, [], 0, [])
  }
}
