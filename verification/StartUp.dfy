/** Start-up as one method, before the event loop runs: gateways, then everything else that is
    no strategy, then strategies as their sources become ready. It is proved to be a run of the
    step system, so that what holds over every run holds of it. */
module StartUp {
  import opened Basics
  import opened MasterTypes
  import opened MasterSteps
  import opened MasterInvariants
  import opened ReadyGate
  import opened PageLayout
  import opened ShutdownOrder
  import opened Supervisor

  /** Frames the manager handles while start-up drains the event channel. */
  predicate OfFrame(step: Step) {
    || step.StartStep? || step.StopStep? || step.RemoveStep? || step.SetPolicyStep? || step.MdStartedStep?
    || step.ReaderRegisterStep? || step.ReaderUnregisterStep?
  }

  predicate OfStartUp(step: Step) {
    step.StartupLaunchStep? || step.StartupPromoteStep? || step.StartupParkStep? || OfFrame(step)
  }

  datatype Pass = Gateways | Others | Unbound

  predicate Belongs(e: ProcessEntry, pass: Pass) {
    match pass
    case Gateways => e.category.GatewayMd?
    case Others => !e.category.GatewayMd? && !e.category.Strategy?
    case Unbound => e.category.Strategy? && e.mdSource == ""
  }

  function LaunchSteps(es: seq<ProcessEntry>, pass: Pass, attempts: map<Name, Attempt>): seq<Step> {
    if es == [] then []
    else
      var e := es[|es| - 1];
      LaunchSteps(es[..|es| - 1], pass, attempts)
      + if Belongs(e, pass) then [StartupLaunchStep(e, AttemptFor(attempts, e.name))] else []
  }

  /** These steps lead from one state to the other. */
  ghost predicate Reached(start: State, now: State, steps: seq<Step>) {
    && now == Run(start, steps)
    && (forall i :: 0 <= i < |steps| ==> OfStartUp(steps[i]))
    && LayInv(now) && !now.shuttingDown
  }

  lemma StepReached(start: State, now: State, steps: seq<Step>, step: Step)
    requires Reached(start, now, steps) && OfStartUp(step)
    ensures Reached(start, Next(now, step), steps + [step])
  {
    RunLast(start, steps, step);
    LayoutKept(now, step);
    OrdinaryStep(now, step);
    hide Next, LayInv, OfStartUp, Run;
  }

  // ----- readiness during start-up -----------------------------------------------------------------

  lemma {:induction false} LaunchEachStable(s: State, names: seq<Name>, source: Name, attempts: map<Name, Attempt>, via: Via)
    requires ChannelsOk(s.channels)
    ensures var r := LaunchEach(s, names, source, attempts, via); ChannelsOk(r.channels) && ReadyStable(s.channels, r.channels)
    decreases |names|
  {
    if names != [] {
      var n := names[0];
      var e, a := FindEntry(s.registry, n), AttemptFor(attempts, n);
      var p := s.(channels := PreRegister(s.channels, n, source));
      PreRegisterStable(s.channels, n, source);
      if e.Some? { LaunchStable(p, e.value, a, via); }
      hide LaunchChild, FindEntry, FindChild, PreRegister, ChannelsOk;
      var l := if via.Startup? && Live(s.children, n) then s else LaunchWithReader(s, n, source, a, via);
      StableStep(s, p, l);
      hide LaunchWithReader, ReadyStable;
      LaunchEachStable(l, names[1..], source, attempts, via);
      StableTrans(s.channels, l.channels, LaunchEach(l, names[1..], source, attempts, via).channels);
    }
  }

  lemma StableStep(s: State, p: State, l: State)
    requires ReadyStable(s.channels, p.channels)
    requires l.channels == s.channels || ReadyStable(p.channels, l.channels)
    ensures ReadyStable(s.channels, l.channels)
  {}

  lemma PromoteStable(s: State, source: Name, attempts: map<Name, Attempt>, other: Name)
    requires LayInv(s) && !SourceReady(s.channels, other)
    ensures !SourceReady(StartupPromote(s, source, attempts).channels, other)
  {
    LaunchEachStable(s, StrategiesBoundTo(s.registry, source), source, attempts, Startup);
    hide LaunchEach, ChannelsOk;
  }

  lemma LaunchKeeps(s: State, e: ProcessEntry, a: Attempt, other: Name)
    requires LayInv(s)
    ensures LaunchChild(s, e, a, Startup).0.registry == s.registry
    ensures !SourceReady(s.channels, other) ==> !SourceReady(LaunchChild(s, e, a, Startup).0.channels, other)
  {
    LaunchFrame(s, e, a, Startup);
    LaunchStable(s, e, a, Startup);
    hide LaunchChild;
  }

  // ----- the method ----------------------------------------------------------------------------------

  method HandleFrame(p: ProcessSupervisor, step: Step)
    requires OfFrame(step)
    modifies p, p.shm
    ensures p.View() == Next(old(p.View()), step)
  {
    hide StartRequest, StopRequest, RemoveRequest, SetPolicy, MdStarted, ReaderRegister, ReaderUnregister;
    match step {
      case StartStep(target, scanned, a) => p.HandleStart(target, scanned, a);
      case StopStep(target) => p.HandleStop(target);
      case RemoveStep(target) => p.HandleRemove(target);
      case SetPolicyStep(target, policy) => p.UpdateEntryPolicy(target, policy);
      case MdStartedStep(source, attempts) => p.HandleMdStarted(source, attempts);
      case ReaderRegisterStep(channel, subscriber) => var _ := p.HandleReaderRegister(channel, subscriber);
      case ReaderUnregisterStep(channel, subscriber) => var _ := p.HandleReaderUnregister(channel, subscriber);
    }
  }

  method Drain(p: ProcessSupervisor, frames: seq<Step>, ghost start: State, ghost before: seq<Step>) returns (ghost steps: seq<Step>)
    requires forall i :: 0 <= i < |frames| ==> OfFrame(frames[i])
    requires Reached(start, p.View(), before)
    modifies p, p.shm
    ensures Reached(start, p.View(), steps) && before <= steps
  {
    hide Reached, Next;
    steps := before;
    for i := 0 to |frames|
      invariant Reached(start, p.View(), steps) && before <= steps
    {
      StepReached(start, p.View(), steps, frames[i]);
      HandleFrame(p, frames[i]);
      steps := steps + [frames[i]];
    }
  }

  method StartOne(p: ProcessSupervisor, e: ProcessEntry, a: Attempt, ghost start: State, ghost before: seq<Step>)
    requires e in p.registry && !(e.category.Strategy? && e.mdSource != "")
    requires Reached(start, p.View(), before)
    modifies p, p.shm
    ensures Reached(start, p.View(), before + [StartupLaunchStep(e, a)]) && p.registry == old(p.registry)
    ensures forall x :: !SourceReady(old(p.shm.channels), x) ==> !SourceReady(p.shm.channels, x)
  {
    hide LaunchChild, LayInv, Run, SourceReady;
    StepReached(start, p.View(), before, StartupLaunchStep(e, a));
    forall x ensures !SourceReady(p.shm.channels, x) ==> !SourceReady(LaunchChild(p.View(), e, a, Startup).0.channels, x) {
      LaunchKeeps(p.View(), e, a, x);
    }
    LaunchKeeps(p.View(), e, a, "");
    var _ := p.LaunchChild(e, a, Startup);
  }

  /** One pass over the registered entries. */
  method LaunchPass(p: ProcessSupervisor, pass: Pass, attempts: map<Name, Attempt>, ghost start: State, ghost before: seq<Step>)
    requires Reached(start, p.View(), before)
    modifies p, p.shm
    ensures Reached(start, p.View(), before + LaunchSteps(p.registry, pass, attempts)) && p.registry == old(p.registry)
    ensures forall x :: !SourceReady(old(p.shm.channels), x) ==> !SourceReady(p.shm.channels, x)
  {
    hide Reached, SourceReady, Belongs;
    var es := p.registry;
    ghost var steps := before;
    assert before + [] == before;
    for i := 0 to |es|
      invariant p.registry == es && steps == before + LaunchSteps(es[..i], pass, attempts)
      invariant Reached(start, p.View(), steps)
      invariant forall x :: !SourceReady(old(p.shm.channels), x) ==> !SourceReady(p.shm.channels, x)
    {
      assert es[..i + 1][..i] == es[..i];
      if Belongs(es[i], pass) {
        BelongsFree(es[i], pass);
        var a := AttemptFor(attempts, es[i].name);
        StartOne(p, es[i], a, start, steps);
        steps := steps + [StartupLaunchStep(es[i], a)];
        assert steps == before + (LaunchSteps(es[..i], pass, attempts) + [StartupLaunchStep(es[i], a)]);
      } else {
        assert LaunchSteps(es[..i], pass, attempts) + [] == LaunchSteps(es[..i], pass, attempts);
      }
    }
    assert es[..|es|] == es;
  }

  lemma BelongsFree(e: ProcessEntry, pass: Pass)
    requires Belongs(e, pass)
    ensures !(e.category.Strategy? && e.mdSource != "")
  {}

  /** The distinct sources some registered strategy names. */
  method ReferencedSources(es: seq<ProcessEntry>) returns (sources: seq<Name>)
    ensures forall x :: x in sources <==> x != "" && exists i :: 0 <= i < |es| && es[i].category.Strategy? && es[i].mdSource == x
    ensures forall i, j :: 0 <= i < j < |sources| ==> sources[i] != sources[j]
  {
    sources := [];
    for k := 0 to |es|
      invariant forall x :: x in sources <==> x != "" && exists i :: 0 <= i < k && es[i].category.Strategy? && es[i].mdSource == x
      invariant forall i, j :: 0 <= i < j < |sources| ==> sources[i] != sources[j]
    {
      if es[k].category.Strategy? && es[k].mdSource != "" && es[k].mdSource !in sources { sources := sources + [es[k].mdSource]; }
    }
  }

  /** Starts the strategies of every source that is ready for the first time. */
  method PromoteReady(p: ProcessSupervisor, sources: seq<Name>, known: set<Name>, attempts: map<Name, Attempt>,
                      ghost start: State, ghost before: seq<Step>)
    returns (ready: set<Name>, ghost steps: seq<Step>)
    requires "" !in sources && Reached(start, p.View(), before)
    modifies p, p.shm
    ensures Reached(start, p.View(), steps) && before <= steps
    ensures forall x :: x in sources && x !in ready ==> !SourceReady(p.shm.channels, x)
  {
    hide Reached, SourceReady;
    ready, steps := known, before;
    for i := 0 to |sources|
      invariant Reached(start, p.View(), steps) && before <= steps
      invariant forall j :: 0 <= j < i && sources[j] !in ready ==> !SourceReady(p.shm.channels, sources[j])
    {
      var source := sources[i];
      if source !in ready && SourceReady(p.shm.channels, source) {
        ready := ready + {source};
        steps := PromoteOne(p, source, attempts, start, steps);
      }
    }
  }

  method PromoteOne(p: ProcessSupervisor, source: Name, attempts: map<Name, Attempt>, ghost start: State, ghost before: seq<Step>)
    returns (ghost steps: seq<Step>)
    requires source != "" && Reached(start, p.View(), before) && SourceReady(p.shm.channels, source)
    modifies p, p.shm
    ensures Reached(start, p.View(), steps) && before <= steps
    ensures forall x :: !SourceReady(old(p.shm.channels), x) ==> !SourceReady(p.shm.channels, x)
  {
    hide LaunchEach, LayInv, Run, SourceReady;
    var step := StartupPromoteStep(source, attempts);
    StepReached(start, p.View(), before, step);
    forall x ensures !SourceReady(p.shm.channels, x) ==> !SourceReady(StartupPromote(p.View(), source, attempts).channels, x) {
      if !SourceReady(p.shm.channels, x) { PromoteStable(p.View(), source, attempts, x); }
    }
    p.StartStrategiesForSource(source, attempts);
    steps := before + [step];
  }

  /** Parks the strategies of a source that is not ready. */
  method ParkSource(p: ProcessSupervisor, source: Name, ghost start: State, ghost before: seq<Step>) returns (ghost steps: seq<Step>)
    requires source != "" && Reached(start, p.View(), before) && !SourceReady(p.shm.channels, source)
    modifies p
    ensures Reached(start, p.View(), steps) && before <= steps && p.shm.channels == old(p.shm.channels)
  {
    StepReached(start, p.View(), before, StartupParkStep(source));
    hide LayInv, Run, SourceReady, StrategiesBoundTo, FindChild, Park;
    var names := p.StrategiesBoundTo(source);
    for i := 0 to |names|
      invariant ParkEach(p.View(), source, names[i..]) == ParkEach(old(p.View()), source, names)
    {
      assert names[i..][1..] == names[i + 1..];
      var running := p.FindChild(names[i]);
      if running.None? {
        ParkFrame(p.View(), source, names[i]);
        p.ParkStrategy(source, names[i]);
      }
    }
    steps := before + [StartupParkStep(source)];
  }

  /** Waits for the sources some strategy names, starts strategies as theirs become ready, and
      parks the rest. rounds are the frames that arrive between looks at the sources until the
      deadline, last those of the final drain. */
  method WaitForSources(p: ProcessSupervisor, sources: seq<Name>, attempts: map<Name, Attempt>, rounds: seq<seq<Step>>, last: seq<Step>,
                        ghost start: State, ghost before: seq<Step>)
    returns (ghost steps: seq<Step>)
    requires "" !in sources && Reached(start, p.View(), before)
    requires forall k, i :: 0 <= k < |rounds| && 0 <= i < |rounds[k]| ==> OfFrame(rounds[k][i])
    requires forall i :: 0 <= i < |last| ==> OfFrame(last[i])
    modifies p, p.shm
    ensures Reached(start, p.View(), steps) && before <= steps
  {
    hide Reached, SourceReady, LaunchSteps;
    steps := before;
    var ready: set<Name> := {};
    for k := 0 to |rounds|
      invariant Reached(start, p.View(), steps) && before <= steps
    {
      steps := Drain(p, rounds[k], start, steps);
      ready, steps := PromoteReady(p, sources, ready, attempts, start, steps);
      if |ready| == |sources| { break; }
    }
    steps := Drain(p, last, start, steps);
    ready, steps := PromoteReady(p, sources, ready, attempts, start, steps);
    LaunchPass(p, Unbound, attempts, start, steps);
    steps := steps + LaunchSteps(p.registry, Unbound, attempts);
    for k := 0 to |sources|
      invariant Reached(start, p.View(), steps) && before <= steps
      invariant forall x :: x in sources && x !in ready ==> !SourceReady(p.shm.channels, x)
    {
      if sources[k] !in ready {
        steps := ParkSource(p, sources[k], start, steps);
      }
    }
  }

  /** Starts everything: gateways first, then what is neither gateway of market data nor
      strategy, then the strategies. */
  method StartAll(p: ProcessSupervisor, attempts: map<Name, Attempt>, rounds: seq<seq<Step>>, last: seq<Step>)
    returns (ghost steps: seq<Step>)
    requires LayInv(p.View()) && !p.shuttingDown
    requires forall k, i :: 0 <= k < |rounds| && 0 <= i < |rounds[k]| ==> OfFrame(rounds[k][i])
    requires forall i :: 0 <= i < |last| ==> OfFrame(last[i])
    modifies p, p.shm
    ensures Reached(old(p.View()), p.View(), steps)
    ensures LaunchSteps(old(p.registry), Gateways, attempts) + LaunchSteps(old(p.registry), Others, attempts) <= steps
  {
    ghost var start := p.View();
    assert Reached(start, p.View(), []);
    hide Reached, LayInv, LaunchSteps;
    LaunchPass(p, Gateways, attempts, start, []);
    steps := [] + LaunchSteps(p.registry, Gateways, attempts);
    LaunchPass(p, Others, attempts, start, steps);
    steps := steps + LaunchSteps(p.registry, Others, attempts);
    var sources := ReferencedSources(p.registry);
    if sources == [] {
      LaunchPass(p, Unbound, attempts, start, steps);
      steps := steps + LaunchSteps(p.registry, Unbound, attempts);
    } else {
      steps := WaitForSources(p, sources, attempts, rounds, last, start, steps);
    }
  }
}
