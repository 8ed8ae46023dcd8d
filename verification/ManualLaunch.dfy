/** The restart budget right after a launch by hand. The launch cancels a pending restart and
    forgets the count, but a restart handler that had already expired stays queued: the budget
    of the new crash chain holds exactly when there is none. */
module ManualLaunch {
  import opened Basics
  import opened MasterTypes
  import opened MasterSteps
  import opened MasterInvariants
  import opened ShutdownOrder
  import opened RestartBudget

  /** What a launch by hand leaves: n runs, is registered and is not being removed, and no
      crash of it is counted. */
  ghost predicate FreshLaunch(s: State, n: Name) {
    && Core(s) && !s.shuttingDown
    && Live(s.children, n) && FindEntry(s.registry, n).Some?
    && n !in s.restartCounts && n !in s.removePending
  }

  /** As long as n is not launched by hand again, and its policy allows no more than limit, it
      is restarted automatically at most limit times. */
  ghost predicate StaysWithin(s: State, n: Name, limit: nat) {
    forall steps :: Governed(s, steps, n, limit) && NoManual(s.log, Run(s, steps).log, n) ==>
      Autos(Run(s, steps).log, n) - Autos(s.log, n) <= limit
  }

  /** While n runs, a restart of it that is still armed can only be a queued one. */
  lemma ArmedIsQueued(s: State, n: Name)
    requires Core(s) && Live(s.children, n)
    ensures RestartQueued(s.tm, n) <==> exists t :: Armed(s.tm, t, n)
  {
    hide FindChild;
    forall t | Armed(s.tm, t, n) ensures s.tm.waits[t].wait.Expired? {
      assert s.tm.waits[t].wait.Waiting? ==> Tracked(s.tm, t);
    }
  }

  // ----- one round of a crash and its restart ------------------------------------------------

  /** n runs under the policy of e with k crashes counted, and this restart of it is queued. */
  ghost predicate Chain(s: State, n: Name, e: ProcessEntry, stale: nat, k: nat) {
    && Core(s) && !s.shuttingDown && Live(s.children, n) && n !in s.removePending
    && FindEntry(s.registry, n) == Some(e) && Get(s.restartCounts, n, 0) == k
    && Queued(s.tm, stale, n)
  }

  predicate Queued(tm: Timers, t: nat, n: Name) { Armed(tm, t, n) && tm.waits[t].wait.Expired? }

  lemma DropKeepsQueued(tm: Timers, k: Slot, t: nat, n: Name)
    requires Queued(tm, t, n)
    ensures Queued(Drop(tm, k), t, n)
  {}

  lemma ArmKeepsQueued(tm: Timers, h: Handler, t: nat, n: Name)
    requires Queued(tm, t, n) && t < tm.next
    ensures Queued(Arm(tm, h), t, n)
  {}

  lemma SpawnKeepsQueued(s: State, e: ProcessEntry, via: Via, t: nat, n: Name)
    requires Queued(s.tm, t, n) && t < s.tm.next
    ensures Queued(Spawn(s, e, via).tm, t, n)
  {
    DropKeepsQueued(s.tm, RestartSlot(e.name), t, n);
    ArmKeepsQueued(Drop(s.tm, RestartSlot(e.name)), ReadyWait(e.name), t, n);
    hide Drop, Arm;
    assert Drop(s.tm, RestartSlot(e.name)).next == s.tm.next by { DropNext(s.tm, RestartSlot(e.name)); }
  }

  lemma DropNext(tm: Timers, k: Slot)
    ensures Drop(tm, k).next == tm.next
  {}

  /** A crash of n outside a shutdown and a removal is answered by the restart policy. */
  lemma CrashAnswer(s: State, c: Child, stale: nat)
    requires Core(s) && c in s.children && !s.shuttingDown && c.entry.name !in s.removePending
    requires Queued(s.tm, stale, c.entry.name)
    ensures var d := ExitCleanup(s, c, 1);
      && Next(s, ExitStep(c.id, 1)) == AfterCrash(d, c)
      && d == s.(tm := d.tm, children := d.children, removePending := d.removePending, channels := d.channels,
                 forceKilled := d.forceKilled, log := s.log + [Exited(c.id, c.entry.name, 1)])
      && !Live(d.children, c.entry.name) && c.entry.name !in d.removePending
      && d.tm.next == s.tm.next && Queued(d.tm, stale, c.entry.name)
  {
    FindIsUnique(s.children, c);
    var n := c.entry.name;
    DropKeepsQueued(s.tm, StopSlot(n), stale, n);
    DropNext(s.tm, StopSlot(n));
    var d := ExitCleanup(s, c, 1);
    hide Drop, ExitChannels, AfterCrash, AdvanceBatch;
    if Live(d.children, n) {
      var x := FindChild(d.children, n).value;
      FindIsUnique(s.children, x);
    }
  }

  /** The crash of the child c with k crashes counted before it. */
  lemma Crash(s: State, c: Child, e: ProcessEntry, stale: nat, k: nat)
    requires Chain(s, c.entry.name, e, stale, k) && c in s.children
    ensures var n, x := c.entry.name, Next(s, ExitStep(c.id, 1));
      && x.registry == s.registry && !x.shuttingDown && !Live(x.children, n) && n !in x.removePending
      && x.log == s.log + [Exited(c.id, n, 1)]
      && Queued(x.tm, stale, n)
      && (k < Allowed(e.restart) ==>
           s.tm.next in x.tm.waits && x.tm.waits[s.tm.next] == Timer(RestartWait(n, e, k + 1), Waiting))
  {
    CrashAnswer(s, c, stale);
    var d := ExitCleanup(s, c, 1);
    var h := RestartWait(c.entry.name, e, k + 1);
    assert stale < d.tm.next;
    ArmKeepsQueued(d.tm, h, stale, c.entry.name);
    DropNext(d.tm, SlotOf(h));
    hide ExitCleanup, Next, Drop, FindEntry, FindChild, Core;
  }

  /** A queued restart of n that runs while n is not running starts it. */
  lemma QueuedRestarts(s: State, t: nat, n: Name)
    requires Core(s) && !s.shuttingDown && !Live(s.children, n) && Queued(s.tm, t, n)
    ensures var h, r := s.tm.waits[t].handler, Next(s, TimerStep(t, Spawns(KeptSize(s, n))));
      && r.registry == s.registry && !r.shuttingDown && r.removePending == s.removePending
      && Live(r.children, n) && Get(r.restartCounts, n, 0) == h.count
      && (exists bound :: r.log == s.log + [Spawned(s.nextChild, h.entry, Restart, bound)])
      && h.entry.name == n
      && (forall u :: u != t && Queued(s.tm, u, n) ==> Queued(r.tm, u, n))
  {
    var h := s.tm.waits[t].handler;
    var a := Spawns(KeptSize(s, n));
    var e := s.(tm := Drop(Taken(s.tm, t), RestartSlot(n)));
    QueuedLaunches(s, t, n);
    RunsRestart(s, t, a, n);
    LaunchFrame(e, h.entry, a, Restart);
    var (l, o) := LaunchChild(e, h.entry, a, Restart);
    var c := if h.entry.category.GatewayMd?
             then e.(channels := CreateMdChannel(e.channels, n, a.pageSize)) else e;
    assert l.tm == Spawn(c, h.entry, Restart).tm && c.tm == e.tm;
    hide LaunchChild, RunTimer, Spawn, Drop, FindChild, Core;
    forall u: nat | u != t && Queued(s.tm, u, n) ensures Queued(l.tm, u, n) {
      DropKeepsQueued(Taken(s.tm, t), RestartSlot(n), u, n);
      DropNext(Taken(s.tm, t), RestartSlot(n));
      assert u < s.tm.next by { WaitsBelow(s, u); }
      SpawnKeepsQueued(c, h.entry, Restart, u, n);
    }
  }

  lemma WaitsBelow(s: State, t: nat)
    requires Core(s) && t in s.tm.waits
    ensures t < s.tm.next
  {}

  // ----- the run that exceeds the budget --------------------------------------------------------

  lemma GovernedCons(s: State, step: Step, rest: seq<Step>, n: Name, limit: nat)
    requires PolicyAtMost(s, n, limit) && Governed(Next(s, step), rest, n, limit)
    ensures Governed(s, [step] + rest, n, limit)
  {
    hide Next, PolicyAtMost;
    assert ([step] + rest)[1..] == rest;
  }

  /** A run goes on: from s over m, with so many automatic launches and none by hand. */
  ghost predicate Advanced(s: State, m: State, n: Name, autos: nat) {
    s.log <= m.log && NoManual(s.log, m.log, n) && Autos(m.log, n) == Autos(s.log, n) + autos
  }

  lemma AdvancedTrans(s: State, m: State, r: State, n: Name, a: nat, b: nat)
    requires Advanced(s, m, n, a) && Advanced(m, r, n, b)
    ensures Advanced(s, r, n, a + b)
  {
    forall i | |s.log| <= i < |r.log| ensures !Manual(r.log[i], n) {
      if i < |m.log| { assert r.log[i] == m.log[i]; }
    }
  }

  lemma AdvancedOne(s: State, m: State, n: Name, e: Event)
    requires m.log == s.log + [e] && !Manual(e, n)
    ensures Advanced(s, m, n, if Auto(e, n) then 1 else 0)
  {
    assert m.log[..|m.log| - 1] == s.log;
  }

  /** n is down, and this restart of it with k crashes counted can expire. */
  ghost predicate BackingOff(x: State, n: Name, e: ProcessEntry, stale: nat, k: nat, id: nat) {
    && Core(x) && !x.shuttingDown && !Live(x.children, n) && n !in x.removePending
    && FindEntry(x.registry, n) == Some(e) && Queued(x.tm, stale, n)
    && id in x.tm.waits && x.tm.waits[id] == Timer(RestartWait(n, e, k), Waiting)
  }

  lemma ExpireAndRestart(x: State, n: Name, e: ProcessEntry, stale: nat, k: nat, id: nat) returns (c: Step)
    requires BackingOff(x, n, e, stale, k, id)
    ensures var y := Next(x, ExpireStep(id));
      var r := Next(y, c);
      && y.registry == x.registry
      && Chain(r, n, e, stale, k) && Advanced(x, r, n, 1)
  {
    Expires(x, id, stale, n);
    CoreKept(x, ExpireStep(id));
    var y := Next(x, ExpireStep(id));
    c := TimerStep(id, Spawns(KeptSize(y, n)));
    assert stale != id;
    QueuedRestarts(y, id, n);
    CoreKept(y, c);
    var r := Next(y, c);
    var bound :| r.log == y.log + [Spawned(y.nextChild, e, Restart, bound)];
    hide Next, Core, FindChild, FindEntry;
    AdvancedOne(x, r, n, Spawned(y.nextChild, e, Restart, bound));
  }

  /** A crash within the limit, the expiry of its restart timer, and the restart. */
  lemma CrashAndRestart(s: State, n: Name, e: ProcessEntry, stale: nat, k: nat) returns (a: Step, b: Step, c: Step)
    requires Chain(s, n, e, stale, k) && k < Allowed(e.restart)
    ensures var x := Next(s, a);
      var y := Next(x, b);
      var r := Next(y, c);
      && x.registry == s.registry && y.registry == s.registry
      && Chain(r, n, e, stale, k + 1) && Advanced(s, r, n, 1)
  {
    var child := FindChild(s.children, n).value;
    a := ExitStep(child.id, 1);
    b := ExpireStep(s.tm.next);
    var x := Next(s, a);
    Crash(s, child, e, stale, k);
    CoreKept(s, a);
    AdvancedOne(s, x, n, Exited(child.id, n, 1));
    hide Next, Core, FindChild, FindEntry, Queued;
    assert BackingOff(x, n, e, stale, k + 1, s.tm.next);
    hide BackingOff, Chain, Advanced;
    c := ExpireAndRestart(x, n, e, stale, k + 1, s.tm.next);
    AdvancedTrans(s, x, Next(Next(x, b), c), n, 0, 1);
  }

  lemma Expires(x: State, id: nat, stale: nat, n: Name)
    requires Queued(x.tm, stale, n)
    requires id in x.tm.waits && x.tm.waits[id].handler.RestartWait? && x.tm.waits[id].handler.name == n && x.tm.waits[id].wait.Waiting?
    ensures var y := Next(x, ExpireStep(id)); y == x.(tm := y.tm) && Queued(y.tm, id, n) && Queued(y.tm, stale, n)
    ensures Next(x, ExpireStep(id)).tm.waits[id].handler == x.tm.waits[id].handler
  {}

  /** A last crash, and then the stale handler runs although the policy has given up. */
  lemma CrashThenStale(s: State, n: Name, e: ProcessEntry, stale: nat, k: nat) returns (a: Step, b: Step)
    requires Chain(s, n, e, stale, k)
    ensures var x := Next(s, a);
      var r := Next(x, b);
      x.registry == s.registry && r.registry == s.registry && Advanced(s, r, n, 1)
  {
    var child := FindChild(s.children, n).value;
    a := ExitStep(child.id, 1);
    var x := Next(s, a);
    Crash(s, child, e, stale, k);
    CoreKept(s, a);
    b := TimerStep(stale, Spawns(KeptSize(x, n)));
    QueuedRestarts(x, stale, n);
    var r := Next(x, b);
    var h := x.tm.waits[stale].handler;
    AdvancedOne(s, x, n, Exited(child.id, n, 1));
    var bound :| r.log == x.log + [Spawned(x.nextChild, h.entry, Restart, bound)];
    AdvancedOne(x, r, n, Spawned(x.nextChild, h.entry, Restart, bound));
    hide Next, Core, FindChild, FindEntry, Advanced;
    AdvancedTrans(s, x, r, n, 0, 1);
  }

  lemma RegistryPolicy(s: State, n: Name, e: ProcessEntry)
    requires FindEntry(s.registry, n) == Some(e)
    ensures PolicyAtMost(s, n, Allowed(e.restart))
  {}

  lemma GovernedThree(s: State, a: Step, b: Step, c: Step, rest: seq<Step>, n: Name, e: ProcessEntry)
    requires FindEntry(s.registry, n) == Some(e)
    requires Next(s, a).registry == s.registry && Next(Next(s, a), b).registry == s.registry
    requires Governed(Next(Next(Next(s, a), b), c), rest, n, Allowed(e.restart))
    ensures Governed(s, [a, b, c] + rest, n, Allowed(e.restart))
  {
    var x := Next(s, a);
    var y := Next(x, b);
    RegistryPolicy(s, n, e);
    RegistryPolicy(x, n, e);
    RegistryPolicy(y, n, e);
    hide Next, FindEntry, PolicyAtMost, Governed;
    GovernedCons(y, c, rest, n, Allowed(e.restart));
    GovernedCons(x, b, [c] + rest, n, Allowed(e.restart));
    GovernedCons(s, a, [b] + ([c] + rest), n, Allowed(e.restart));
    assert [a, b, c] + rest == [a] + ([b] + ([c] + rest));
  }

  /** Using up the limit first and the stale handler last makes one restart too many. */
  lemma {:induction false} Exceeds(s: State, n: Name, e: ProcessEntry, stale: nat, k: nat) returns (steps: seq<Step>)
    requires Chain(s, n, e, stale, k) && k <= Allowed(e.restart)
    ensures Governed(s, steps, n, Allowed(e.restart))
    ensures Advanced(s, Run(s, steps), n, Allowed(e.restart) - k + 1)
    decreases Allowed(e.restart) - k
  {
    var limit := Allowed(e.restart);
    RegistryPolicy(s, n, e);
    if k < limit {
      var a, b, c := CrashAndRestart(s, n, e, stale, k);
      var m := Next(Next(Next(s, a), b), c);
      var rest := Exceeds(m, n, e, stale, k + 1);
      hide Next, Core, FindEntry, Advanced, PolicyAtMost, Governed;
      GovernedThree(s, a, b, c, rest, n, e);
      steps := [a, b, c] + rest;
      RunThree(s, a, b, c, rest);
      AdvancedTrans(s, m, Run(m, rest), n, 1, limit - k);
    } else {
      var a, b := CrashThenStale(s, n, e, stale, k);
      var x := Next(s, a);
      var r := Next(x, b);
      RegistryPolicy(x, n, e);
      RegistryPolicy(r, n, e);
      assert Governed(r, [], n, limit);
      hide Next, Core, FindEntry, Advanced, PolicyAtMost, Governed;
      GovernedCons(x, b, [], n, limit);
      GovernedCons(s, a, [b] + [], n, limit);
      steps := [a] + ([b] + []);
      RunCons(s, a, [b] + []);
      RunCons(x, b, []);
      RunEmpty(r);
    }
  }

  /** The budget after a launch by hand, exactly: n is restarted automatically no more often
      than its policy allows, in every run without another launch by hand, if and only if no
      expired restart of n was queued at the launch. */
  lemma ManualBudgetExactly(s: State, n: Name)
    requires FreshLaunch(s, n)
    ensures StaysWithin(s, n, Allowed(FindEntry(s.registry, n).value.restart)) <==> !RestartQueued(s.tm, n)
  {
    var e := FindEntry(s.registry, n).value;
    var limit := Allowed(e.restart);
    ArmedIsQueued(s, n);
    if RestartQueued(s.tm, n) {
      var t :| Armed(s.tm, t, n) && s.tm.waits[t].wait.Expired?;
      assert Chain(s, n, e, t, 0);
      var steps := Exceeds(s, n, e, t, 0);
      hide Governed, Chain, FreshLaunch;
      assert Autos(Run(s, steps).log, n) - Autos(s.log, n) == limit + 1;
    } else {
      hide Governed, Autos, Run, FindEntry, Core;
      forall steps | Governed(s, steps, n, limit) && NoManual(s.log, Run(s, steps).log, n)
        ensures Autos(Run(s, steps).log, n) - Autos(s.log, n) <= limit
      {
        RestartBudgetHolds(s, steps, n, limit);
      }
    }
  }
}
