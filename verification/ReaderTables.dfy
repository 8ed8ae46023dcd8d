/** Reader tables, exactly: which steps put the reader of a strategy in the table of a channel
    and which take it out, and what that means for a strategy its policy restarted. */
module ReaderTables {
  import opened Basics
  import opened MasterTypes
  import opened MasterSteps
  import opened MasterInvariants
  import opened ReadyGate
  import opened PageLayout

  function Reader(n: Name): Name { "stg." + n }

  lemma ReaderInjective(m: Name, n: Name)
    ensures Reader(m) == Reader(n) <==> m == n
  {
    assert Reader(m)[4..] == m && Reader(n)[4..] == n;
  }

  /** Who may ask for a reader: a strategy under its name with the prefix, or any other registered
      process under its own name, if that has no such prefix. */
  lemma RegisteredExactly(registry: seq<ProcessEntry>, n: Name)
    ensures IsRegisteredProcess(registry, "stg." + n) <==>
            n != "" && FindEntry(registry, n).Some? && FindEntry(registry, n).value.category.Strategy?
    ensures !("stg." <= n) ==>
      (IsRegisteredProcess(registry, n) <==> FindEntry(registry, n).Some? && !FindEntry(registry, n).value.category.Strategy?)
  {
    assert ("stg." + n)[4..] == n;
    hide FindEntry;
  }

  // ----- who joins and who leaves -----------------------------------------------------------------

  /** The STARTED frame of source c is accepted. */
  predicate StartedAccepted(s: State, c: Name) {
    c in s.channels && s.channels[c].meta.Some? && s.channels[c].status.MdRunning?
  }

  /** The step registers strategy n with channel c: on request; because the source became ready
      while n was waiting for it, running or not; because start-up found the source ready and n
      not running; or because a start request did. */
  predicate Joins(s: State, step: Step, c: Name, n: Name) {
    match step
    case ReaderRegisterStep(channel, sub) => channel == c && sub == Reader(n) && RegisterAccepted(s, c, sub)
    case MdStartedStep(source, _) =>
      source == c && StartedAccepted(s, c) && c in s.pending && n in s.pending[c] && FindEntry(s.registry, n).Some?
    case StartupPromoteStep(source, _) =>
      && source == c && c != "" && !s.shuttingDown && SourceReady(s.channels, c)
      && n in StrategiesBoundTo(s.registry, c) && !Live(s.children, n)
    case StartStep(target, _, _) =>
      && target == n && !s.shuttingDown && !Live(s.children, n) && SourceReady(s.channels, c) && c != ""
      && FindEntry(s.registry, n).Some? && BoundTo(FindEntry(s.registry, n).value, c)
    case _ => false
  }

  /** The step takes reader n off the table of c: the exit of a process of that subscriber name,
      its own accepted request, or a reset of the channel's page size. */
  predicate Leaves(s: State, step: Step, c: Name, n: Name) {
    || (step.ExitStep? && ChildById(s.children, step.id).Some?
        && SubscriberName(ChildById(s.children, step.id).value.entry) == Reader(n))
    || (step == ReaderUnregisterStep(c, Reader(n)) && IsRegisteredProcess(s.registry, Reader(n))
        && c in s.channels && !s.channels[c].status.MdTombstone?)
    || Resized(s.channels, Next(s, step).channels, c)
  }

  // ----- launches -----------------------------------------------------------------------------------

  lemma LaunchTable(s: State, e: ProcessEntry, a: Attempt, via: Via, c: Name, reader: Name)
    requires ChannelsOk(s.channels)
    ensures var b := LaunchChild(s, e, a, via).0.channels;
      HasReader(b, c, reader) <==> HasReader(s.channels, c, reader) && !Resized(s.channels, b, c)
  {
    LaunchFrame(s, e, a, via);
    hide LaunchChild;
  }

  lemma PreRegisterTable(chans: map<Name, Channel>, m: Name, source: Name, c: Name, n: Name)
    requires ChannelsOk(chans)
    ensures var b := PreRegister(chans, m, source);
      && !Resized(chans, b, c)
      && (HasReader(b, c, Reader(n)) <==> HasReader(chans, c, Reader(n)) || (m == n && source == c && SourceReady(chans, c)))
  {
    ReaderInjective(m, n);
  }

  /** Within one step a channel is reset at most once: afterwards it is open. */
  lemma ResizedTrans(a: map<Name, Channel>, m: map<Name, Channel>, b: map<Name, Channel>, c: Name)
    requires ChannelsOk(a) && ReadersKept(a, m) && ReadersKept(m, b)
    ensures Resized(a, b, c) <==> Resized(a, m, c) || (c in a && Resized(m, b, c))
  {}

  /** One launch of LaunchEach. */
  lemma OneTable(s: State, m: Name, source: Name, a: Attempt, via: Via, c: Name, n: Name)
    requires ChannelsOk(s.channels) && SourceReady(s.channels, source)
    ensures var l := LaunchWithReader(s, m, source, a, via);
      && ChannelsOk(l.channels) && SourceReady(l.channels, source) && l.registry == s.registry
      && ReadersKept(s.channels, l.channels)
      && (m != n ==> Live(l.children, n) == Live(s.children, n))
      && (HasReader(l.channels, c, Reader(n)) <==>
            || (HasReader(s.channels, c, Reader(n)) && !Resized(s.channels, l.channels, c))
            || (source == c && m == n && FindEntry(s.registry, n).Some?))
  {
    var e := FindEntry(s.registry, m);
    PreRegisterReaders(s, m, source);
    if e.Some? {
      var p := s.(channels := PreRegister(s.channels, m, source));
      PreRegisterTable(s.channels, m, source, c, n);
      PreRegisterStable(s.channels, m, source);
      LaunchTable(p, e.value, a, via, c, Reader(n));
      LaunchStable(p, e.value, a, via);
      LaunchReaders(p, e.value, a, via);
      LaunchFrame(p, e.value, a, via);
      var l := LaunchChild(p, e.value, a, via).0;
      if m != n { LiveLaunched(p, e.value, a, via, n); }
      hide LaunchChild, PreRegister;
      KeptTrans(s.channels, p.channels, l.channels);
      ResizedTrans(s.channels, p.channels, l.channels, c);
      SourceKeepsSize(p.channels, l.channels, source);
    }
  }

  lemma SourceKeepsSize(a: map<Name, Channel>, b: map<Name, Channel>, c: Name)
    requires ReadersKept(a, b) && SourceReady(a, c)
    ensures !Resized(a, b, c)
  {}

  lemma LiveLaunched(s: State, e: ProcessEntry, a: Attempt, via: Via, n: Name)
    requires e.name != n
    ensures Live(LaunchChild(s, e, a, via).0.children, n) == Live(s.children, n)
  {
    LaunchFrame(s, e, a, via);
    var r := LaunchChild(s, e, a, via).0;
    if r.children != s.children { LiveAppend(s.children, r.children[|s.children|], n); }
    hide LaunchChild;
  }

  lemma {:induction false} LaunchEachTable(s: State, names: seq<Name>, source: Name, attempts: map<Name, Attempt>, via: Via,
                                           c: Name, n: Name)
    requires ChannelsOk(s.channels) && SourceReady(s.channels, source)
    ensures var r := LaunchEach(s, names, source, attempts, via);
      && ReadersKept(s.channels, r.channels)
      && (HasReader(r.channels, c, Reader(n)) <==>
            || (HasReader(s.channels, c, Reader(n)) && !Resized(s.channels, r.channels, c))
            || (source == c && n in names && FindEntry(s.registry, n).Some? && !(via.Startup? && Live(s.children, n))))
    decreases |names|
  {
    PreRegisterReaders(s, "", "");
    if names != [] {
      var m := names[0];
      var skip := via.Startup? && Live(s.children, m);
      var l := if skip then s else LaunchWithReader(s, m, source, AttemptFor(attempts, m), via);
      if !skip { OneTable(s, m, source, AttemptFor(attempts, m), via, c, n); }
      assert n in names <==> n == m || n in names[1..];
      hide ChannelsOk, SourceReady, LaunchWithReader, FindChild, FindEntry, HasReader;
      LaunchEachTable(l, names[1..], source, attempts, via, c, n);
      hide ReadersKept;
      var r := LaunchEach(s, names, source, attempts, via);
      KeptTrans(s.channels, l.channels, r.channels);
      ResizedTrans(s.channels, l.channels, r.channels, c);
      SourceKeepsSize(s.channels, r.channels, source);
    }
  }

  // ----- every step ---------------------------------------------------------------------------------

  /** What the step theorem says. */
  predicate TableStep(s: State, step: Step, c: Name, n: Name) {
    HasReader(Next(s, step).channels, c, Reader(n)) <==>
      Joins(s, step, c, n) || (HasReader(s.channels, c, Reader(n)) && !Leaves(s, step, c, n))
  }

  lemma StrategyOpensNothing(s: State, e: ProcessEntry, a: Attempt, via: Via)
    ensures e.category.Strategy? ==> LaunchChild(s, e, a, via).0.channels == s.channels
  {
    hide Spawn;
    LaunchFrame(s, e, a, via);
    hide LaunchChild;
  }

  lemma StartTable(s: State, step: Step, c: Name, n: Name)
    requires ChannelsOk(s.channels) && step.StartStep?
    ensures TableStep(s, step, c, n)
  {
    var target, scanned, a := step.target, step.scanned, step.attempt;
    var known := FindEntry(s.registry, target);
    if known.Some? || scanned.Some? {
      var r := if known.None? then s.(registry := s.registry + [scanned.value]) else s;
      var e := if known.None? then scanned.value else known.value;
      var p := r.(channels := PreRegister(r.channels, e.name, e.mdSource));
      PreRegisterTable(r.channels, e.name, e.mdSource, c, n);
      PreRegisterStable(r.channels, e.name, e.mdSource);
      LaunchTable(r, e, a, Request, c, Reader(n));
      StrategyOpensNothing(p, e, a, Request);
      hide LaunchChild, PreRegister, ChannelsOk, FindChild, FindEntry, SourceReady, HasReader;
    }
  }

  lemma StartedTable(s: State, step: Step, c: Name, n: Name)
    requires ChannelsOk(s.channels) && step.MdStartedStep?
    ensures TableStep(s, step, c, n)
  {
    var source := step.source;
    if StartedAccepted(s, source) {
      var chans := s.channels[source := s.channels[source].(ready := true)];
      var d := s.(channels := chans, tm := Drop(s.tm, ReadySlot(source)));
      var q := d.(pending := d.pending - {source});
      assert HasReader(chans, c, Reader(n)) <==> HasReader(s.channels, c, Reader(n));
      if source in s.pending { LaunchEachTable(q, s.pending[source], source, step.attempts, LateReady, c, n); }
      hide LaunchEach, HasReader, FindEntry, Drop;
    }
  }

  lemma PromoteTable(s: State, step: Step, c: Name, n: Name)
    requires ChannelsOk(s.channels) && step.StartupPromoteStep?
    ensures TableStep(s, step, c, n)
  {
    if !s.shuttingDown && step.source != "" && SourceReady(s.channels, step.source) {
      LaunchEachTable(s, StrategiesBoundTo(s.registry, step.source), step.source, step.attempts, Startup, c, n);
      hide LaunchEach, HasReader, FindChild, SourceReady;
    }
  }

  lemma ExitTable(s: State, step: Step, c: Name, n: Name)
    requires step.ExitStep?
    ensures TableStep(s, step, c, n)
  {
    var x := ChildById(s.children, step.id);
    if x.Some? {
      ExitReaders(s, x.value, step.code);
      ExitSizes(s, x.value, step.code);
      hide OnChildExit, SubscriberName;
    }
  }

  predicate SizesSame(a: map<Name, Channel>, b: map<Name, Channel>) {
    b.Keys == a.Keys && forall k :: k in a ==> b[k].lastPageSize == a[k].lastPageSize
  }

  lemma ExitChannelSizes(s: State, c: Child, removed: bool)
    ensures SizesSame(s.channels, ExitChannels(s, c, removed))
  {
    hide FindEntry, SubscriberName;
  }

  lemma ExitSizes(s: State, c: Child, code: int)
    ensures SizesSame(s.channels, OnChildExit(s, c, code).channels)
  {
    var d := ExitCleanup(s, c, code);
    ExitChannelSizes(s, c, c.entry.name in s.removePending);
    assert SizesSame(s.channels, d.channels);
    SendLayout(d.(tm := Drop(d.tm, BatchSlot), batchIndex := d.batchIndex + 1));
    hide ExitCleanup, SizesSame, SendCurrentBatch, Drop, Arm, FindEntry, AnyLive;
  }

  lemma TimerTable(s: State, step: Step, c: Name, n: Name)
    requires ChannelsOk(s.channels) && step.TimerStep?
    ensures TableStep(s, step, c, n)
  {
    var id := step.timer;
    if id in s.tm.waits && !s.tm.waits[id].wait.Waiting? {
      var h := s.tm.waits[id].handler;
      var d := s.(tm := Taken(s.tm, id));
      HandlersReaders(d, h, step.attempt);
      if h.RestartWait? {
        LaunchTable(d.(tm := Drop(d.tm, RestartSlot(h.name))), h.entry, step.attempt, Restart, c, Reader(n));
      }
      if h.BatchWait? && h.armedIndex < |s.batches| { KillChannels(d, s.batches[h.armedIndex], BatchTimer(h.armedIndex)); }
    }
    hide LaunchChild, OnStopTimer, OnReadyTimer, KillEach, Drop, HasReader, ChannelsOk, ReadersKept;
  }

  lemma StopChannels(s: State, target: Name)
    ensures StopRequest(s, target).channels == s.channels
    ensures var r := RemoveRequest(s, target).channels; r == s.channels || r == TombstoneMdChannel(s.channels, target)
  {
    hide TombstoneMdChannel, Drop, Arm, FindEntry, FindChild, Unregister;
  }

  lemma StopTable(s: State, step: Step, c: Name, n: Name)
    requires step.StopStep? || step.RemoveStep?
    ensures TableStep(s, step, c, n)
  {
    StopChannels(s, step.target);
    hide StopRequest, RemoveRequest, IsRegisteredProcess;
  }

  lemma ReaderRequestTable(s: State, step: Step, c: Name, n: Name)
    requires step.ReaderRegisterStep? || step.ReaderUnregisterStep?
    requires ChannelsOk(s.channels)
    ensures TableStep(s, step, c, n)
  {
    hide IsRegisteredProcess;
  }

  /** The reader of a strategy is in the table of a channel after a step exactly when the step
      put it there, or it was there and the step did not take it out. */
  lemma TableStepExactly(s: State, step: Step, c: Name, n: Name)
    requires ChannelsOk(s.channels)
    ensures HasReader(Next(s, step).channels, c, Reader(n)) <==>
            Joins(s, step, c, n) || (HasReader(s.channels, c, Reader(n)) && !Leaves(s, step, c, n))
  {
    assert TableStep(s, step, c, n) by {
      match step
      case StartupLaunchStep(e, a) =>
        LaunchTable(s, e, a, Startup, c, Reader(n));
        hide LaunchChild;
      case StartupPromoteStep(_, _) => PromoteTable(s, step, c, n);
      case StartupParkStep(source) =>
        ParkEachLayout(s, source, StrategiesBoundTo(s.registry, source));
        hide ParkEach;
      case StartStep(_, _, _) => StartTable(s, step, c, n);
      case StopStep(_) => StopTable(s, step, c, n);
      case RemoveStep(_) => StopTable(s, step, c, n);
      case SetPolicyStep(_, _) =>
      case MdStartedStep(_, _) => StartedTable(s, step, c, n);
      case ReaderRegisterStep(_, _) => ReaderRequestTable(s, step, c, n);
      case ReaderUnregisterStep(_, _) => ReaderRequestTable(s, step, c, n);
      case ExitStep(_, _) => ExitTable(s, step, c, n);
      case ExpireStep(_) =>
      case TimerStep(_, _) => TimerTable(s, step, c, n);
      case ShutdownStep =>
        ShutdownReaders(s);
        hide Shutdown;
      case ForceAllStep =>
        TerminateFromLayout(s, 0);
        hide TerminateFrom;
    }
  }

  // ----- every run ----------------------------------------------------------------------------------

  ghost predicate JoinsAt(s: State, steps: seq<Step>, i: nat, c: Name, n: Name)
    requires i < |steps|
  {
    Joins(Run(s, steps[..i]), steps[i], c, n)
  }

  ghost predicate LeavesAt(s: State, steps: seq<Step>, i: nat, c: Name, n: Name)
    requires i < |steps|
  {
    Leaves(Run(s, steps[..i]), steps[i], c, n)
  }

  /** From step i on, nothing takes n off the table of c. */
  ghost predicate NoLeave(s: State, steps: seq<Step>, i: nat, c: Name, n: Name) {
    forall j :: i <= j < |steps| ==> !LeavesAt(s, steps, j, c, n)
  }

  /** n was put in the table of c and not taken out since; the run may also start with it in. */
  ghost predicate Stayed(s: State, steps: seq<Step>, c: Name, n: Name) {
    || (HasReader(s.channels, c, Reader(n)) && NoLeave(s, steps, 0, c, n))
    || (exists i :: 0 <= i < |steps| && JoinsAt(s, steps, i, c, n) && NoLeave(s, steps, i + 1, c, n))
  }

  lemma FrontSame(s: State, steps: seq<Step>, c: Name, n: Name)
    requires steps != []
    ensures forall i :: 0 <= i < |steps| - 1 ==>
      && JoinsAt(s, Front(steps), i, c, n) == JoinsAt(s, steps, i, c, n)
      && LeavesAt(s, Front(steps), i, c, n) == LeavesAt(s, steps, i, c, n)
  {
    forall i | 0 <= i < |steps| - 1
      ensures JoinsAt(s, Front(steps), i, c, n) == JoinsAt(s, steps, i, c, n)
      ensures LeavesAt(s, Front(steps), i, c, n) == LeavesAt(s, steps, i, c, n)
    {
      assert Front(steps)[..i] == steps[..i];
    }
    hide Joins, Leaves, Run;
  }

  /** One more step. */
  lemma StayedSnoc(s: State, steps: seq<Step>, c: Name, n: Name)
    requires steps != []
    ensures var k := |steps| - 1;
      Stayed(s, steps, c, n) <==>
        JoinsAt(s, steps, k, c, n) || (Stayed(s, Front(steps), c, n) && !LeavesAt(s, steps, k, c, n))
  {
    var k := |steps| - 1;
    FrontSame(s, steps, c, n);
    hide JoinsAt, LeavesAt, HasReader;
    forall i | 0 <= i <= k
      ensures NoLeave(s, steps, i, c, n) <==> NoLeave(s, Front(steps), i, c, n) && !LeavesAt(s, steps, k, c, n) {}
    assert NoLeave(s, steps, k + 1, c, n);
  }

  /** Over every run: the reader of a strategy is in the table of a channel exactly when some
      step put it there and none took it out since. */
  lemma {:induction false} InTableExactly(s: State, steps: seq<Step>, c: Name, n: Name)
    requires LayInv(s)
    ensures HasReader(Run(s, steps).channels, c, Reader(n)) <==> Stayed(s, steps, c, n)
    decreases |steps|
  {
    if steps == [] {
      assert NoLeave(s, steps, 0, c, n);
    } else {
      assert steps == Front(steps) + [Last(steps)];
      RunLast(s, Front(steps), Last(steps));
      StayedSnoc(s, steps, c, n);
      InTableExactly(s, Front(steps), c, n);
      LayoutInvariant(s, Front(steps));
      TableStepExactly(Run(s, Front(steps)), Last(steps), c, n);
      assert steps[..|steps| - 1] == Front(steps);
      hide Joins, Leaves, Next, Run, HasReader;
    }
  }

  // ----- automatic restarts ---------------------------------------------------------------------------

  /** What can register a running strategy: its own request, or a late STARTED of a source it
      still waits for. */
  predicate Registers(s: State, step: Step, c: Name, n: Name) {
    Joins(s, step, c, n) && (step.ReaderRegisterStep? || step.MdStartedStep?)
  }

  /** n runs all along, and nothing takes it off the table of c. */
  ghost predicate Undisturbed(s: State, steps: seq<Step>, c: Name, n: Name) {
    && (forall j :: 0 <= j < |steps| ==> Live(Run(s, steps[..j]).children, n))
    && NoLeave(s, steps, 0, c, n)
  }

  lemma ExitOf(s: State, x: Child, code: int)
    requires Core(s) && x in s.children
    ensures Next(s, ExitStep(x.id, code)) == OnChildExit(s, x, code)
  {
    FindIsUnique(s.children, x);
    hide OnChildExit;
  }

  lemma AfterRestart(s: State, x: Child, code: int, restart: seq<Step>)
    requires Core(s) && LayInv(s) && x in s.children && x.entry.category.Strategy?
    requires forall i :: 0 <= i < |restart| ==> OfEventLoop(restart[i])
    ensures var r := Run(Next(s, ExitStep(x.id, code)), restart);
      && LayInv(r) && NoReader(r.channels, Reader(x.entry.name))
      && forall c :: !HasReader(r.channels, c, Reader(x.entry.name))
  {
    ExitOf(s, x, code);
    LayoutKept(s, ExitStep(x.id, code));
    hide OnChildExit, Next, LayInv, Core, Run;
    LayoutInvariant(OnChildExit(s, x, code), restart);
    RestartedRunsUnregistered(s, x, code, restart);
  }

  lemma StayedRunning(s: State, steps: seq<Step>, c: Name, n: Name)
    requires !HasReader(s.channels, c, Reader(n)) && Undisturbed(s, steps, c, n)
    ensures Stayed(s, steps, c, n) <==> exists j :: 0 <= j < |steps| && Registers(Run(s, steps[..j]), steps[j], c, n)
  {
    forall j | 0 <= j < |steps| ensures JoinsAt(s, steps, j, c, n) <==> Registers(Run(s, steps[..j]), steps[j], c, n) {
      assert Live(Run(s, steps[..j]).children, n);
    }
    hide Run, HasReader, FindChild, Joins, LeavesAt;
  }

  lemma InvariantsOver(registry: seq<ProcessEntry>, steps: seq<Step>)
    ensures Core(Run(Initial(registry), steps)) && LayInv(Run(Initial(registry), steps))
  {
    CoreOverRun(Initial(registry), steps);
    LayoutInvariant(Initial(registry), steps);
    hide Run;
  }

  /** A strategy that exits and is brought back by its restart timer is in no reader table; as
      long as it then runs, does not unregister and its channel keeps its page size, it is in
      the table exactly when it was registered since: by an accepted request of its own, or
      because its source reported STARTED while it was on the waiting list. */
  lemma RestartedInTableExactly(registry: seq<ProcessEntry>, before: seq<Step>, x: Child, code: int, restart: seq<Step>,
                                steps: seq<Step>, c: Name)
    requires x in Run(Initial(registry), before).children && x.entry.category.Strategy?
    requires forall i :: 0 <= i < |restart| ==> OfEventLoop(restart[i])
    requires var s := Run(Next(Run(Initial(registry), before), ExitStep(x.id, code)), restart);
      Live(s.children, x.entry.name) && Undisturbed(s, steps, c, x.entry.name)
    ensures var s := Run(Next(Run(Initial(registry), before), ExitStep(x.id, code)), restart);
      && NoReader(s.channels, Reader(x.entry.name))
      && (HasReader(Run(s, steps).channels, c, Reader(x.entry.name)) <==>
           exists j :: 0 <= j < |steps| && Registers(Run(s, steps[..j]), steps[j], c, x.entry.name))
  {
    hide *;
    InvariantsOver(registry, before);
    AfterRestart(Run(Initial(registry), before), x, code, restart);
    var s := Run(Next(Run(Initial(registry), before), ExitStep(x.id, code)), restart);
    InTableExactly(s, steps, c, x.entry.name);
    StayedRunning(s, steps, c, x.entry.name);
  }
}
