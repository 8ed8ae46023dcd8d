/** What a single step leaves behind: whom each timer kills, what an exit and a crash leave, what
    a launch arms, and what requests change. */
module HandlerEffects {
  import opened Basics
  import opened MasterTypes
  import opened MasterSteps
  import opened MasterInvariants

  // ----- kills --------------------------------------------------------------------------------------

  /** Exactly the children of these names are told to terminate; the rest is as before. */
  ghost predicate KillsExactly(cs: seq<Child>, ds: seq<Child>, names: set<Name>) {
    && |ds| == |cs|
    && forall i :: 0 <= i < |cs| ==>
         ds[i] == if cs[i].entry.name in names then cs[i].(state := ChildStopping) else cs[i]
  }

  lemma OneKill(s: State, c: Child, killer: Killer)
    requires DistinctChildren(s.children) && c in s.children
    ensures KillsExactly(s.children, ForceKill(s, c, killer).children, {c.entry.name})
    ensures ForceKill(s, c, killer).log == s.log + [Terminated(c.entry.name, killer)]
    ensures ForceKill(s, c, killer).forceKilled == s.forceKilled + {c.entry.name}
  {
    var j :| 0 <= j < |s.children| && s.children[j] == c;
    forall i | 0 <= i < |s.children| ensures s.children[i].id == c.id <==> s.children[i].entry.name == c.entry.name {}
  }

  /** A strategy that is registered as bound to the source runs. */
  ghost predicate BoundRuns(s: State, source: Name) {
    exists b :: b in s.registry && b.category.Strategy? && b.mdSource == source && Live(s.children, b.name)
  }

  /** The readiness timer of a source kills the source exactly when it runs and a strategy that is
      registered as bound to it runs. */
  lemma ReadyTimerKillsExactly(s: State, t: nat, a: Attempt, source: Name)
    requires Core(s) && t in s.tm.waits && s.tm.waits[t] == Timer(ReadyWait(source), Expired)
    ensures var r := Next(s, TimerStep(t, a));
      if Live(s.children, source) && BoundRuns(s, source)
      then
        && KillsExactly(s.children, r.children, {source}) && r.log == s.log + [Terminated(source, ReadyTimer)]
        && r.forceKilled == s.forceKilled + {source}
      else r.children == s.children && r.log == s.log && r.forceKilled == s.forceKilled
  {
    var e := s.(tm := Drop(Taken(s.tm, t), ReadySlot(source)));
    var c := FindChild(s.children, source);
    if c.Some? { OneKill(e, c.value, ReadyTimer); }
    BoundLive(s, source);
    ReadyTimerIs(s, t, a, source);
    hide Next, ForceKill, Drop, Core, FindChild, AnyLive, KillsExactly, BoundRuns;
  }

  lemma ReadyTimerIs(s: State, t: nat, a: Attempt, source: Name)
    requires t in s.tm.waits && s.tm.waits[t] == Timer(ReadyWait(source), Expired)
    ensures var e, c := s.(tm := Drop(Taken(s.tm, t), ReadySlot(source))), FindChild(s.children, source);
      Next(s, TimerStep(t, a)) ==
      if AnyLive(s.children, StrategiesBoundTo(s.registry, source)) && c.Some? then ForceKill(e, c.value, ReadyTimer) else e
  {
    hide ForceKill, Drop, FindChild, StrategiesBoundTo, AnyLive;
  }

  lemma BoundLive(s: State, source: Name)
    ensures AnyLive(s.children, StrategiesBoundTo(s.registry, source)) <==> BoundRuns(s, source)
  {
    if b :| b in s.registry && b.category.Strategy? && b.mdSource == source && Live(s.children, b.name) {
      assert BoundTo(b, source) && b.name in StrategiesBoundTo(s.registry, source);
    }
    hide FindChild;
  }

  /** The stop timer of a child kills that child, if it is still there. */
  lemma StopTimerKillsExactly(s: State, t: nat, a: Attempt, id: nat, n: Name)
    requires Core(s) && t in s.tm.waits && s.tm.waits[t] == Timer(StopWait(id, n), Expired)
    ensures var r, c := Next(s, TimerStep(t, a)), ChildById(s.children, id);
      if c.Some?
      then
        && KillsExactly(s.children, r.children, {c.value.entry.name})
        && r.log == s.log + [Terminated(c.value.entry.name, StopTimer)]
        && r.forceKilled == s.forceKilled + {c.value.entry.name}
      else r.children == s.children && r.log == s.log && r.forceKilled == s.forceKilled
  {
    var d := s.(tm := Drop(Taken(s.tm, t), StopSlot(n)));
    var c := ChildById(s.children, id);
    if c.Some? { OneKill(d, c.value, StopTimer); }
    hide ForceKill, Drop, TimersOk, KillsExactly;
  }

  lemma KillsCompose(cs: seq<Child>, ms: seq<Child>, ds: seq<Child>, n: Name, names: seq<Name>)
    requires KillsExactly(cs, ms, {n}) && KillsExactly(ms, ds, set m | m in names)
    ensures KillsExactly(cs, ds, set m | m in [n] + names)
  {
    forall i | 0 <= i < |cs|
      ensures ds[i] == if cs[i].entry.name in [n] + names then cs[i].(state := ChildStopping) else cs[i]
    {
      assert ms[i].entry == cs[i].entry;
    }
  }

  lemma NoneNamed(cs: seq<Child>, n: Name)
    requires !Live(cs, n)
    ensures KillsExactly(cs, cs, {n})
  {
    assert forall i :: 0 <= i < |cs| ==> cs[i] in cs;
  }

  function FirstKilled(s: State, n: Name, killer: Killer): State {
    var c := FindChild(s.children, n);
    if c.Some? then ForceKill(s, c.value, killer) else s
  }

  lemma FirstKill(s: State, n: Name, killer: Killer)
    requires DistinctChildren(s.children)
    ensures var m := FirstKilled(s, n, killer); DistinctChildren(m.children) && KillsExactly(s.children, m.children, {n})
  {
    var c := FindChild(s.children, n);
    if c.Some? {
      OneKill(s, c.value, killer);
      MarkKeepsNames(s.children, c.value.id);
    } else {
      NoneNamed(s.children, n);
    }
    hide DistinctChildren, KillsExactly, MarkStopping;
  }

  lemma {:induction false} KillEachKills(s: State, names: seq<Name>, killer: Killer)
    requires DistinctChildren(s.children)
    ensures KillsExactly(s.children, KillEach(s, names, killer).children, set n | n in names)
    decreases |names|
  {
    hide FindChild, ForceKill, DistinctChildren;
    if names != [] {
      var m := FirstKilled(s, names[0], killer);
      FirstKill(s, names[0], killer);
      KillEachKills(m, names[1..], killer);
      KillsCompose(s.children, m.children, KillEach(m, names[1..], killer).children, names[0], names[1..]);
      hide KillsExactly;
      assert [names[0]] + names[1..] == names;
    }
  }

  /** The timer of a batch kills the members of that batch that are left, if it is still the
      current one, and otherwise nobody. */
  lemma BatchTimerKillsExactly(s: State, t: nat, a: Attempt, k: nat)
    requires Core(s) && t in s.tm.waits && s.tm.waits[t] == Timer(BatchWait(k), Expired)
    ensures var r := Next(s, TimerStep(t, a));
      if k == s.batchIndex && k < |s.batches| then
        && KillsExactly(s.children, r.children, set n | n in s.batches[k])
        && (exists events :: r.log == s.log + events && TellsAll(s.children, s.batches[k], BatchTimer(k), events))
        && r.forceKilled == s.forceKilled + set n | n in s.batches[k] && Live(s.children, n)
      else r.children == s.children && r.log == s.log && r.forceKilled == s.forceKilled
  {
    if k == s.batchIndex && k < |s.batches| {
      KillEachKills(s.(tm := Taken(s.tm, t)), s.batches[k], BatchTimer(k));
      var events := KillEachNotes(s.(tm := Taken(s.tm, t)), s.batches[k], BatchTimer(k));
    }
    hide KillEach, TimersOk, KillsExactly, FindChild, TellsAll;
  }

  lemma FirstNotes(s: State, n: Name, killer: Killer)
    ensures var m := FirstKilled(s, n, killer);
      && (forall x :: Live(m.children, x) == Live(s.children, x))
      && m.log == s.log + (if Live(s.children, n) then [Terminated(n, killer)] else [])
      && m.forceKilled == s.forceKilled + (if Live(s.children, n) then {n} else {})
  {
    var c := FindChild(s.children, n);
    if c.Some? { MarkKeepsNames(s.children, c.value.id); }
    hide MarkStopping;
  }

  /** These events tell every live member of the list. */
  ghost predicate TellsAll(cs: seq<Child>, names: seq<Name>, killer: Killer, events: seq<Event>) {
    forall n :: n in names && Live(cs, n) ==> Terminated(n, killer) in events
  }

  lemma TellsCons(cs: seq<Child>, ms: seq<Child>, names: seq<Name>, killer: Killer, first: seq<Event>, rest: seq<Event>)
    requires names != [] && (forall n :: Live(ms, n) == Live(cs, n)) && TellsAll(ms, names[1..], killer, rest)
    requires Live(cs, names[0]) ==> Terminated(names[0], killer) in first
    ensures TellsAll(cs, names, killer, first + rest)
  {
    hide FindChild;
    forall n | n in names && Live(cs, n) ensures Terminated(n, killer) in first + rest {
      if n != names[0] { assert n in names[1..]; }
    }
  }

  lemma {:induction false} KillEachNotes(s: State, names: seq<Name>, killer: Killer) returns (events: seq<Event>)
    ensures var r := KillEach(s, names, killer);
      && r.log == s.log + events && TellsAll(s.children, names, killer, events)
      && r.forceKilled == s.forceKilled + set n | n in names && Live(s.children, n)
    decreases |names|
  {
    hide FindChild, ForceKill;
    if names == [] {
      events := [];
    } else {
      var m := FirstKilled(s, names[0], killer);
      FirstNotes(s, names[0], killer);
      var rest := KillEachNotes(m, names[1..], killer);
      var first := if Live(s.children, names[0]) then [Terminated(names[0], killer)] else [];
      events := first + rest;
      TellsCons(s.children, m.children, names, killer, first, rest);
      hide FirstKilled, TellsAll;
      assert KillEach(s, names, killer) == KillEach(m, names[1..], killer) by { KillUnfolds(s, names, killer); }
      hide KillEach;
      assert (s.log + first) + rest == s.log + events;
      assert forall n :: n in names <==> n == names[0] || n in names[1..];
    }
  }

  lemma KillUnfolds(s: State, names: seq<Name>, killer: Killer)
    requires names != []
    ensures KillEach(s, names, killer) == KillEach(FirstKilled(s, names[0], killer), names[1..], killer)
  {
    hide FindChild, ForceKill;
  }

  /** d is c, or c told to terminate. */
  predicate Told(c: Child, d: Child) { d == c || d == c.(state := ChildStopping) }

  lemma ToldTwice(b: Child, c: Child, d: Child)
    requires Told(b, c) && Told(c, d)
    ensures Told(b, d) && (c.state.ChildStopping? ==> d.state.ChildStopping?)
  {}

  /** From cs to ds, children were told to terminate, those from index i on for certain. */
  ghost predicate StoppedFrom(cs: seq<Child>, ds: seq<Child>, i: nat) {
    && |ds| == |cs|
    && (forall j :: 0 <= j < |cs| ==> Told(cs[j], ds[j]))
    && (forall j :: i <= j < |cs| ==> ds[j].state.ChildStopping?)
  }

  lemma {:induction false} TerminateFromStops(s: State, i: nat)
    requires i <= |s.children|
    ensures StoppedFrom(s.children, TerminateFrom(s, i).children, i)
    decreases |s.children| - i
  {
    hide Told;
    if i < |s.children| {
      var m := Terminate(s, s.children[i], ForceAll);
      TerminateFromStops(m, i + 1);
      MarkTells(s.children, i);
      OneStops(s.children, m.children, TerminateFrom(m, i + 1).children, i);
      hide StoppedFrom, MarkStopping;
    } else {
      forall j | 0 <= j < |s.children| ensures Told(s.children[j], s.children[j]) { ToldSame(s.children[j]); }
    }
  }

  lemma ToldSame(c: Child)
    ensures Told(c, c)
  {}

  lemma MarkTells(cs: seq<Child>, i: nat)
    requires i < |cs|
    ensures var ms := MarkStopping(cs, cs[i].id);
      |ms| == |cs| && ms[i].state.ChildStopping? && forall j :: 0 <= j < |cs| ==> Told(cs[j], ms[j])
  {}

  lemma OneStops(cs: seq<Child>, ms: seq<Child>, ds: seq<Child>, i: nat)
    requires i < |cs| == |ms| && ms[i].state.ChildStopping? && forall j :: 0 <= j < |cs| ==> Told(cs[j], ms[j])
    requires StoppedFrom(ms, ds, i + 1)
    ensures StoppedFrom(cs, ds, i)
  {
    hide Told;
    forall j | 0 <= j < |cs| ensures Told(cs[j], ds[j]) && (ms[j].state.ChildStopping? ==> ds[j].state.ChildStopping?) {
      ToldTwice(cs[j], ms[j], ds[j]);
    }
  }

  function TellsFrom(cs: seq<Child>, i: nat): seq<Event>
    decreases |cs| - i
  {
    if i >= |cs| then [] else [Terminated(cs[i].entry.name, ForceAll)] + TellsFrom(cs, i + 1)
  }

  lemma {:induction false} SameTells(cs: seq<Child>, ds: seq<Child>, i: nat)
    requires |cs| == |ds| && forall j :: 0 <= j < |cs| ==> ds[j].entry == cs[j].entry
    ensures TellsFrom(ds, i) == TellsFrom(cs, i)
    decreases |cs| - i
  {
    if i < |cs| { SameTells(cs, ds, i + 1); }
  }

  lemma {:induction false} TellsAt(cs: seq<Child>, i: nat, j: nat)
    requires i <= j < |cs|
    ensures |TellsFrom(cs, i)| == |cs| - i && TellsFrom(cs, i)[j - i] == Terminated(cs[j].entry.name, ForceAll)
    decreases j - i
  {
    if i < j { TellsAt(cs, i + 1, j); } else { TellsLength(cs, i); }
  }

  lemma {:induction false} TellsLength(cs: seq<Child>, i: nat)
    requires i <= |cs|
    ensures |TellsFrom(cs, i)| == |cs| - i
    decreases |cs| - i
  {
    if i < |cs| { TellsLength(cs, i + 1); }
  }

  lemma {:induction false} TerminateFromLogs(s: State, i: nat)
    ensures TerminateFrom(s, i).log == s.log + TellsFrom(s.children, i)
    decreases |s.children| - i
  {
    hide Terminate, TellsFrom, TerminateFrom;
    if i < |s.children| {
      var m := Terminate(s, s.children[i], ForceAll);
      OneTold(s, i);
      TerminateFromLogs(m, i + 1);
      SameTells(s.children, m.children, i + 1);
      TerminateUnfolds(s, i);
      TellsUnfolds(s.children, i);
    } else {
      NobodyLeft(s, i);
    }
  }

  lemma NobodyLeft(s: State, i: nat)
    requires i >= |s.children|
    ensures TerminateFrom(s, i) == s && s.log + TellsFrom(s.children, i) == s.log
  {}

  lemma OneTold(s: State, i: nat)
    requires i < |s.children|
    ensures var m := Terminate(s, s.children[i], ForceAll);
      && m.log == s.log + [Terminated(s.children[i].entry.name, ForceAll)] && |m.children| == |s.children|
      && forall j :: 0 <= j < |s.children| ==> m.children[j].entry == s.children[j].entry
  {}

  lemma TerminateUnfolds(s: State, i: nat)
    requires i < |s.children|
    ensures TerminateFrom(s, i) == TerminateFrom(Terminate(s, s.children[i], ForceAll), i + 1)
  {
    hide Terminate;
  }

  lemma TellsUnfolds(cs: seq<Child>, i: nat)
    requires i < |cs|
    ensures TellsFrom(cs, i) == [Terminated(cs[i].entry.name, ForceAll)] + TellsFrom(cs, i + 1)
  {}

  /** After a forced termination of all, every child was told, in order, and is stopping. */
  lemma ForceAllStopsAll(s: State)
    ensures var cs, r := s.children, Next(s, ForceAllStep);
      && |r.children| == |cs| && (forall j :: 0 <= j < |cs| ==> r.children[j] == cs[j].(state := ChildStopping))
      && s.log <= r.log && |r.log| == |s.log| + |cs|
      && (forall j :: 0 <= j < |cs| ==> r.log[|s.log| + j] == Terminated(cs[j].entry.name, ForceAll))
  {
    TerminateFromStops(s, 0);
    TerminateFromLogs(s, 0);
    TellsLength(s.children, 0);
    hide TerminateFrom;
    forall j | 0 <= j < |s.children|
      ensures Next(s, ForceAllStep).log[|s.log| + j] == Terminated(s.children[j].entry.name, ForceAll)
    {
      TellsAt(s.children, 0, j);
    }
    hide TellsFrom;
    forall j | 0 <= j < |s.children| ensures Next(s, ForceAllStep).children[j] == s.children[j].(state := ChildStopping) {
      assert Told(s.children[j], Next(s, ForceAllStep).children[j]);
    }
  }

  // ----- the registry -------------------------------------------------------------------------------

  lemma {:induction false} PolicyFound(es: seq<ProcessEntry>, n: Name, p: RestartPolicy, m: Name)
    ensures var before, after := FindEntry(es, m), FindEntry(SetPolicies(es, n, p), m);
      && after.Some? == before.Some?
      && (after.Some? ==> after.value == if m == n then before.value.(restart := p) else before.value)
  {
    if es != [] {
      var r := SetPolicies(es, n, p);
      if es[0].name != n {
        PolicyFound(es[1..], n, p, m);
        assert r[0] == es[0] && r[1..] == SetPolicies(es[1..], n, p);
      } else {
        assert r[0] == es[0].(restart := p) && r[1..] == es[1..];
      }
    }
  }

  /** A new policy is what the lookup finds from then on, and every other lookup, and the rest of
      the state, is as before. */
  lemma PolicyTakesEffect(s: State, n: Name, p: RestartPolicy, m: Name)
    ensures var r := Next(s, SetPolicyStep(n, p));
      && r == s.(registry := r.registry)
      && FindEntry(r.registry, m).Some? == FindEntry(s.registry, m).Some?
      && (FindEntry(r.registry, m).Some? ==>
           FindEntry(r.registry, m).value ==
           if m == n then FindEntry(s.registry, m).value.(restart := p) else FindEntry(s.registry, m).value)
  {
    PolicyFound(s.registry, n, p, m);
    hide SetPolicies, FindEntry;
  }

  // ----- timers ---------------------------------------------------------------------------------------

  /** This timer is tracked for its purpose, and runs. */
  predicate RunsFor(tm: Timers, k: Slot, h: Handler) {
    k in tm.slots && tm.slots[k] in tm.waits && tm.waits[tm.slots[k]] == Timer(h, Waiting)
  }

  lemma ArmRuns(tm: Timers, h: Handler)
    ensures RunsFor(Arm(tm, h), SlotOf(h), h)
    ensures forall k :: k != SlotOf(h) ==> (k in Arm(tm, h).slots <==> k in tm.slots)
  {}

  lemma DropEnds(tm: Timers, k: Slot)
    ensures k !in Drop(tm, k).slots
    ensures forall j :: j != k ==> (j in Drop(tm, k).slots <==> j in tm.slots)
    ensures k in tm.slots && tm.slots[k] in tm.waits ==>
      tm.slots[k] in Drop(tm, k).waits && !Drop(tm, k).waits[tm.slots[k]].wait.Waiting?
  {}

  // ----- crashes and exits ----------------------------------------------------------------------------

  /** The policy a crash consults. */
  function Governing(s: State, e: ProcessEntry): ProcessEntry {
    if FindEntry(s.registry, e.name).Some? then FindEntry(s.registry, e.name).value else e
  }

  /** A crash is answered with a restart: it is not being removed, the exit was not clean, and the
      policy allows one more attempt. */
  predicate Restarts(s: State, c: Child, code: int) {
    var n, p := c.entry.name, Governing(s, c.entry).restart;
    n !in s.removePending && code != 0 && p.enabled && Get(s.restartCounts, n, 0) + 1 <= p.maxAttempts
  }

  lemma CleanupTimers(s: State, c: Child, code: int)
    requires Core(s) && c in s.children
    ensures var d := ExitCleanup(s, c, code);
      && d.restartCounts == s.restartCounts && d.registry == s.registry && d.shuttingDown == s.shuttingDown
      && RestartSlot(c.entry.name) !in d.tm.slots && StopSlot(c.entry.name) !in d.tm.slots
  {
    DropEnds(s.tm, StopSlot(c.entry.name));
    FindIsUnique(s.children, c);
    assert RestartSlot(c.entry.name) !in s.tm.slots;
    hide Drop, TimersOk, Identity, FindChild;
  }

  /** Outside a shutdown, an exit arms a restart exactly then, of the entry in force, with the
      count one higher; otherwise no restart is tracked and the count is forgotten. */
  lemma CrashRestartsExactly(s: State, c: Child, code: int)
    requires Core(s) && c in s.children && !s.shuttingDown
    ensures var n, r := c.entry.name, Next(s, ExitStep(c.id, code));
      var count := Get(s.restartCounts, n, 0) + 1;
      && (RestartSlot(n) in r.tm.slots <==> Restarts(s, c, code))
      && (if Restarts(s, c, code)
          then RunsFor(r.tm, RestartSlot(n), RestartWait(n, Governing(s, c.entry), count)) && Get(r.restartCounts, n, 0) == count
          else n !in r.restartCounts)
  {
    FindIsUnique(s.children, c);
    CleanupTimers(s, c, code);
    var n := c.entry.name;
    var d := ExitCleanup(s, c, code);
    ArmRuns(d.tm, RestartWait(n, Governing(s, c.entry), Get(s.restartCounts, n, 0) + 1));
    CrashIs(s, c, code);
    hide Next, ExitCleanup, Arm, Core, Governing, RunsFor;
  }

  lemma CrashIs(s: State, c: Child, code: int)
    requires !s.shuttingDown && ChildById(s.children, c.id) == Some(c)
    ensures var n, d, count := c.entry.name, ExitCleanup(s, c, code), Get(s.restartCounts, c.entry.name, 0) + 1;
      var r := Next(s, ExitStep(c.id, code));
      if Restarts(s, c, code) then
        r == d.(restartCounts := s.restartCounts[n := count], tm := Arm(d.tm, RestartWait(n, Governing(s, c.entry), count)))
      else r == d.(restartCounts := s.restartCounts - {n})
  {
    hide ExitChannels, Drop, Arm, AdvanceBatch, FindEntry, ChildById, RemoveChild;
  }

  /** What an exit leaves of the process: no child of that identity, no pending removal and no
      forced kill on record, its reader in no table, and, for a market-data process, its channel
      closed, for good exactly when it was being removed and is not registered again. */
  lemma ExitLeaves(s: State, c: Child, code: int)
    requires Core(s) && c in s.children && !s.shuttingDown
    ensures var n, r := c.entry.name, Next(s, ExitStep(c.id, code));
      && !Live(r.children, n) && (forall x :: x in r.children <==> x in s.children && x != c)
      && n !in r.removePending && n !in r.forceKilled
      && r.log == s.log + [Exited(c.id, n, code)]
      && r.channels.Keys == s.channels.Keys
      && (c.entry.category.GatewayMd? && n in s.channels ==>
           && !r.channels[n].ready
           && r.channels[n].status ==
              if n in s.removePending && FindEntry(s.registry, n).None? then MdTombstone else MdStopped)
      && (forall k :: k in s.channels && !(c.entry.category.GatewayMd? && k == n) ==>
           r.channels[k] == LeftBy(s.channels[k], c.entry))
  {
    FindIsUnique(s.children, c);
    ExitCleanupKeeps(s, c, code);
    ExitChannelsAre(s, c, c.entry.name in s.removePending);
    forall x | x in s.children && x != c ensures x.id != c.id { FindIsUnique(s.children, x); }
    ExitIs(s, c, code);
    hide Next, ExitChannels, Drop, Core, FindEntry, FindChild, LeftBy;
  }

  /** Answering the crash touches only counts and timers. */
  lemma ExitIs(s: State, c: Child, code: int)
    requires !s.shuttingDown && ChildById(s.children, c.id) == Some(c)
    ensures var d, r := ExitCleanup(s, c, code), Next(s, ExitStep(c.id, code));
      r == d.(tm := r.tm, restartCounts := r.restartCounts)
  {
    hide ExitChannels, Drop, Arm, AdvanceBatch, FindEntry, ChildById, RemoveChild;
  }

  /** The channel without the reader of this process, which is named after it, a strategy's with
      the prefix stg. */
  function LeftBy(c: Channel, e: ProcessEntry): Channel {
    var reader := if e.category.Strategy? then "stg." + e.name else e.name;
    if c.meta.Some? then c.(meta := Some(c.meta.value - {reader})) else c
  }

  lemma ExitChannelsAre(s: State, c: Child, removed: bool)
    ensures var n, b := c.entry.name, ExitChannels(s, c, removed);
      && b.Keys == s.channels.Keys
      && (c.entry.category.GatewayMd? && n in s.channels ==>
           !b[n].ready && b[n].status == if removed && FindEntry(s.registry, n).None? then MdTombstone else MdStopped)
      && (forall k :: k in s.channels && !(c.entry.category.GatewayMd? && k == n) ==>
           b[k] == LeftBy(s.channels[k], c.entry))
  {
    assert forall d: Channel :: WithoutReader(d, SubscriberName(c.entry)) == LeftBy(d, c.entry);
    hide FindEntry, SubscriberName, WithoutReader, LeftBy;
    assert RemoveReaderEverywhere(s.channels, SubscriberName(c.entry)).Keys == s.channels.Keys;
  }

  // ----- launches -------------------------------------------------------------------------------------

  /** What a launch leaves: no crash counted and no restart tracked; and, for a market-data
      process, its readiness timer running and its channel open, not ready and with the page size
      configured, unless it was open before. */
  lemma LaunchLeaves(s: State, e: ProcessEntry, a: Attempt, via: Via)
    requires LaunchChild(s, e, a, via).1.Launched?
    ensures var r := LaunchChild(s, e, a, via).0;
      && e.name !in r.restartCounts && RestartSlot(e.name) !in r.tm.slots
      && (e.category.GatewayMd? ==>
           && RunsFor(r.tm, ReadySlot(e.name), ReadyWait(e.name))
           && e.name in r.channels
           && (if e.name in s.channels && s.channels[e.name].status.MdRunning? && s.channels[e.name].meta.Some?
               then r.channels[e.name] == s.channels[e.name]
               else && r.channels[e.name].status.MdRunning? && !r.channels[e.name].ready
                    && r.channels[e.name].lastPageSize == a.pageSize && r.channels[e.name].meta.Some?))
      && (!e.category.GatewayMd? ==> r.channels == s.channels)
  {
    DropEnds(s.tm, RestartSlot(e.name));
    ArmRuns(Drop(s.tm, RestartSlot(e.name)), ReadyWait(e.name));
    LaunchFrame(s, e, a, via);
    hide Drop, Arm, FindChild, CreateRejected, StrategiesBoundTo;
  }

  /** The channel of a market-data process is refused: it is closed, its page size would change, and
      a strategy registered as bound to it runs. */
  ghost predicate Refused(s: State, e: ProcessEntry, a: Attempt) {
    && e.category.GatewayMd? && !a.ExeMissing?
    && e.name in s.channels && s.channels[e.name].meta.Some? && !s.channels[e.name].status.MdRunning?
    && 0 < s.channels[e.name].lastPageSize != a.pageSize
    && BoundRuns(s, e.name)
  }

  /** A launch that does not happen: of a process that runs, or whose channel is refused, it changes
      nothing; without an executable, or when the spawn fails, it forgets the count, and a spawn
      that fails has opened the channel. Only the refusal is an error. */
  lemma LaunchFails(s: State, e: ProcessEntry, a: Attempt, via: Via)
    requires !LaunchChild(s, e, a, via).1.Launched?
    ensures var (r, o) := LaunchChild(s, e, a, via);
      var refused := Refused(s, e, a);
      && (o.Threw? <==> !Live(s.children, e.name) && refused)
      && (Live(s.children, e.name) || refused ==> r == s)
      && (!Live(s.children, e.name) && !refused ==>
           && r == s.(restartCounts := s.restartCounts - {e.name}, channels := r.channels)
           && r.channels == if e.category.GatewayMd? && a.SpawnFails? then CreateMdChannel(s.channels, e.name, a.pageSize)
                            else s.channels)
  {
    BoundLive(s, e.name);
    assert e.category.GatewayMd? && !a.ExeMissing? ==> (CreateRejected(s, e.name, a.pageSize) <==> Refused(s, e, a)) by {
      hide FindChild, StrategiesBoundTo, BoundRuns;
    }
    hide Spawn, FindChild, CreateRejected, CreateMdChannel, Refused;
  }

  // ----- requests -------------------------------------------------------------------------------------

  /** A stop request asks a running process to stop and starts its stop timer, and ends the pending
      restart of one that does not run; it does nothing for a name that is not registered, nor to
      a running process once shutdown has begun. */
  lemma StopRequestExactly(s: State, n: Name)
    ensures var r := Next(s, StopStep(n));
      && r == s.(tm := r.tm, restartCounts := r.restartCounts, log := r.log)
      && (if FindEntry(s.registry, n).None? || (Live(s.children, n) && s.shuttingDown) then r == s
          else if Live(s.children, n) then
            && r.log == s.log + [ShutdownSent(n)] && r.restartCounts == s.restartCounts
            && RunsFor(r.tm, StopSlot(n), StopWait(FindChild(s.children, n).value.id, n))
          else r.log == s.log && n !in r.restartCounts && RestartSlot(n) !in r.tm.slots)
  {
    DropEnds(s.tm, RestartSlot(n));
    var c := FindChild(s.children, n);
    if c.Some? { ArmRuns(s.tm, StopWait(c.value.id, n)); }
    hide Drop, Arm, FindEntry;
  }

  /** A remove request takes every entry of the name off the registry; a running process is asked
      to stop and noted for removal; for one that does not run the removal is finished: no pending
      restart, and the channel of a market-data process closed for good. */
  lemma RemoveRequestExactly(s: State, n: Name)
    ensures var r := Next(s, RemoveStep(n));
      if FindEntry(s.registry, n).None? then r == s
      else
        && (forall e :: e in r.registry <==> e in s.registry && e.name != n)
        && r.children == s.children
        && (if Live(s.children, n) then
              && r.removePending == s.removePending + {n} && r.channels == s.channels
              && (!s.shuttingDown ==>
                   r.log == s.log + [ShutdownSent(n)] && RunsFor(r.tm, StopSlot(n), StopWait(FindChild(s.children, n).value.id, n)))
              && (s.shuttingDown ==> r.log == s.log && r.tm == s.tm)
            else
              && n !in r.removePending && n !in r.restartCounts && RestartSlot(n) !in r.tm.slots && r.log == s.log
              && (if FindEntry(s.registry, n).value.category.GatewayMd? && n in s.channels
                  then r.channels == s.channels[n := s.channels[n].(status := MdTombstone, ready := false)]
                  else r.channels == s.channels))
  {
    DropEnds(s.tm, RestartSlot(n));
    var c := FindChild(s.children, n);
    if c.Some? { ArmRuns(s.tm, StopWait(c.value.id, n)); }
    hide Drop, Arm, FindEntry;
  }

  /** When shutdown begins nothing waits to be restarted or launched, no crash is counted, and of
      all timers only that of a batch can still expire. */
  lemma ShutdownClears(s: State)
    requires Core(s) && !s.shuttingDown
    ensures var r := Next(s, ShutdownStep);
      && r.shuttingDown && r.pending == map[] && r.restartCounts == map[]
      && (forall k :: k in r.tm.slots ==> k == BatchSlot)
      && (forall t :: t in r.tm.waits && r.tm.waits[t].wait.Waiting? ==> r.tm.waits[t].handler.BatchWait?)
  {
    ShutdownKeeps(s);
    var batches := BuildShutdownBatches(RunningPairs(s.children));
    var d := s.(shuttingDown := true, tm := DropNamed(s.tm), restartCounts := map[], pending := map[],
                batches := batches, batchIndex := 0, log := s.log + [ShutdownBegun(batches)]);
    SendSlots(d);
    var r := Next(s, ShutdownStep);
    assert batches == [] ==> CheckComplete(d) == SendCurrentBatch(d);
    hide SendCurrentBatch, BuildShutdownBatches, Identity, CheckComplete;
    assert r == SendCurrentBatch(d);
    forall t | t in r.tm.waits && r.tm.waits[t].wait.Waiting? ensures r.tm.waits[t].handler.BatchWait? {
      assert Tracked(r.tm, t);
    }
  }

  lemma {:induction false} SendSlots(s: State)
    requires forall k :: k in s.tm.slots ==> k == BatchSlot
    ensures var r := SendCurrentBatch(s);
      && (forall k :: k in r.tm.slots ==> k == BatchSlot)
      && r.pending == s.pending && r.restartCounts == s.restartCounts && r.shuttingDown == s.shuttingDown
    decreases |s.batches| - s.batchIndex
  {
    if s.batchIndex < |s.batches| && !AnyLive(s.children, s.batches[s.batchIndex]) {
      SendSlots(s.(batchIndex := s.batchIndex + 1));
    }
  }
}
