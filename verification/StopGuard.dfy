/** The guard of a stop request: a process told to stop is killed when its stop timer fires, but
    the aborted handler of an earlier stop timer drops the timer of a later one. */
module StopGuard {
  import opened Basics
  import opened MasterTypes
  import opened MasterSteps
  import opened MasterInvariants
  import opened ShutdownOrder
  import opened RestartBudget

  // ----- guards -------------------------------------------------------------------------------

  predicate StopOf(tm: Timers, t: nat, n: Name) {
    t in tm.waits && tm.waits[t].handler.StopWait? && tm.waits[t].handler.name == n
  }

  /** A stop timer of this child that can still fire. */
  predicate OwnPending(tm: Timers, t: nat, id: nat, n: Name) {
    StopOf(tm, t, n) && tm.waits[t].handler.childId == id && !tm.waits[t].wait.Cancelled?
  }

  predicate OwnExpired(tm: Timers, t: nat, id: nat, n: Name) {
    StopOf(tm, t, n) && tm.waits[t].handler.childId == id && tm.waits[t].wait.Expired?
  }

  ghost predicate RunningChild(cs: seq<Child>, id: nat) { exists c :: c in cs && c.id == id && c.state.ChildRunning? }

  /** The child still runs, nothing has killed it, and no stop timer of it can still fire. */
  ghost predicate Unguarded(s: State, id: nat, n: Name) {
    RunningChild(s.children, id) && forall t :: !OwnPending(s.tm, t, id, n)
  }

  /** A stop handler of the child has expired, or its timer is the only one of that name. */
  ghost predicate Safe(tm: Timers, id: nat, n: Name) {
    || (exists t :: OwnExpired(tm, t, id, n))
    || (exists t :: OwnPending(tm, t, id, n) && forall u :: StopOf(tm, u, n) ==> u == t)
  }

  lemma SafeIsGuarded(tm: Timers, id: nat, n: Name)
    requires Safe(tm, id, n)
    ensures exists t :: OwnPending(tm, t, id, n)
  {
    if t :| OwnExpired(tm, t, id, n) { assert OwnPending(tm, t, id, n); }
  }

  // ----- what keeps the guard -------------------------------------------------------------------

  lemma DropSafe(tm: Timers, k: Slot, id: nat, n: Name)
    requires TimersOk(tm) && k != StopSlot(n) && Safe(tm, id, n)
    ensures Safe(Drop(tm, k), id, n)
  {
    var d := Drop(tm, k);
    if t :| OwnExpired(tm, t, id, n) {
      assert OwnExpired(d, t, id, n);
    } else {
      var t :| OwnPending(tm, t, id, n) && forall u :: StopOf(tm, u, n) ==> u == t;
      assert OwnPending(d, t, id, n);
      assert forall u :: StopOf(d, u, n) ==> StopOf(tm, u, n);
    }
  }

  lemma ArmSafe(tm: Timers, h: Handler, id: nat, n: Name)
    requires TimersOk(tm) && SlotOf(h) != StopSlot(n) && Safe(tm, id, n)
    ensures Safe(Arm(tm, h), id, n)
  {
    DropSafe(tm, SlotOf(h), id, n);
    var d, r := Drop(tm, SlotOf(h)), Arm(tm, h);
    if t :| OwnExpired(d, t, id, n) {
      assert OwnExpired(r, t, id, n);
    } else {
      var t :| OwnPending(d, t, id, n) && forall u :: StopOf(d, u, n) ==> u == t;
      assert OwnPending(r, t, id, n);
      assert forall u :: StopOf(r, u, n) ==> StopOf(d, u, n);
    }
  }

  /** Another handler is taken, and drops its slot or not. */
  lemma TakenSafe(tm: Timers, t: nat, id: nat, n: Name)
    requires TimersOk(tm) && t in tm.waits && !tm.waits[t].wait.Waiting? && !OwnExpired(tm, t, id, n) && Safe(tm, id, n)
    ensures Safe(Taken(tm, t), id, n) && Safe(Drop(Taken(tm, t), SlotOf(tm.waits[t].handler)), id, n)
  {
    var d := Taken(tm, t);
    var e := Drop(d, SlotOf(tm.waits[t].handler));
    if u :| OwnExpired(tm, u, id, n) {
      assert OwnExpired(d, u, id, n) && OwnExpired(e, u, id, n);
    } else {
      var u :| OwnPending(tm, u, id, n) && forall v :: StopOf(tm, v, n) ==> v == u;
      assert !OwnExpired(tm, u, id, n);
      assert u != t && tm.waits[u].wait.Waiting?;
      var k := SlotOf(tm.waits[t].handler);
      assert k == StopSlot(n) ==> StopOf(tm, t, n);
      assert k in tm.slots ==> tm.slots[k] != u;
      assert OwnPending(d, u, id, n) && OwnPending(e, u, id, n);
      assert forall v :: StopOf(d, v, n) || StopOf(e, v, n) ==> StopOf(tm, v, n);
    }
  }

  lemma ExpireSafe(tm: Timers, t: nat, id: nat, n: Name)
    requires Safe(tm, id, n) && t in tm.waits && tm.waits[t].wait.Waiting?
    ensures Safe(tm.(waits := tm.waits[t := tm.waits[t].(wait := Expired)]), id, n)
  {
    var d := tm.(waits := tm.waits[t := tm.waits[t].(wait := Expired)]);
    if u :| OwnExpired(tm, u, id, n) {
      assert OwnExpired(d, u, id, n);
    } else {
      var u :| OwnPending(tm, u, id, n) && forall v :: StopOf(tm, v, n) ==> v == u;
      assert OwnPending(d, u, id, n);
      assert forall v :: StopOf(d, v, n) ==> StopOf(tm, v, n);
    }
  }

  // ----- the child -------------------------------------------------------------------------------

  /** From cs to ds, a child of this identity is one from before that may have been told to
      terminate. */
  ghost predicate NoNewRun(cs: seq<Child>, ds: seq<Child>, id: nat) {
    forall d :: d in ds && d.id == id ==> exists c :: c in cs && c.id == id && c.entry == d.entry && (d.state.ChildRunning? ==> c == d)
  }

  lemma MilderRun(cs: seq<Child>, ds: seq<Child>, id: nat)
    requires Milder(cs, ds)
    ensures NoNewRun(cs, ds, id)
  {
    forall d | d in ds && d.id == id
      ensures exists c :: c in cs && c.id == id && c.entry == d.entry && (d.state.ChildRunning? ==> c == d)
    {
      var i :| 0 <= i < |ds| && ds[i] == d;
      assert cs[i] in cs;
    }
  }

  /** The child of this identity has this name, and while it runs the guard is safe. */
  ghost predicate GuardOk(s: State, id: nat, n: Name) {
    && !s.shuttingDown && id < s.nextChild
    && (forall c :: c in s.children && c.id == id ==> c.entry.name == n)
    && (RunningChild(s.children, id) ==> Safe(s.tm, id, n))
  }

  lemma GuardFrame(s: State, r: State, id: nat, n: Name)
    requires GuardOk(s, id, n) && !r.shuttingDown && s.nextChild <= r.nextChild && NoNewRun(s.children, r.children, id)
    requires RunningChild(r.children, id) ==> Safe(r.tm, id, n)
    ensures GuardOk(r, id, n)
  {}

  lemma LaunchGuard(s: State, e: ProcessEntry, a: Attempt, via: Via, id: nat, n: Name)
    requires Core(s) && GuardOk(s, id, n)
    ensures GuardOk(LaunchChild(s, e, a, via).0, id, n)
  {
    LaunchFrame(s, e, a, via);
    var (r, o) := LaunchChild(s, e, a, via);
    forall d | d in r.children && d.id == id ensures d in s.children {}
    assert RunningChild(r.children, id) ==> RunningChild(s.children, id);
    if RunningChild(r.children, id) && o.Launched? {
      var d := Drop(s.tm, RestartSlot(e.name));
      DropSafe(s.tm, RestartSlot(e.name), id, n);
      DropKeeps(s.tm, RestartSlot(e.name));
      ArmSafe(d, ReadyWait(e.name), id, n);
      assert r.tm == d || r.tm == Arm(d, ReadyWait(e.name)) by { hide Drop, Arm; }
    }
    hide LaunchChild, Safe;
  }

  lemma KillGuard(s: State, c: Child, killer: Killer, id: nat, n: Name)
    requires GuardOk(s, id, n) && !killer.BatchTimer?
    ensures GuardOk(ForceKill(s, c, killer), id, n)
  {
    OneKillFrame(s, c, killer);
    var r := ForceKill(s, c, killer);
    MilderRun(s.children, r.children, id);
    GuardFrame(s, r, id, n);
    hide ForceKill;
  }

  /** An exit outside a shutdown takes the child off the list and may arm its restart. */
  lemma ExitShape(s: State, c: Child, code: int) returns (h: Handler)
    requires !s.shuttingDown
    ensures h.RestartWait? && h.name == c.entry.name
    ensures var r, tm := OnChildExit(s, c, code), Drop(s.tm, StopSlot(c.entry.name));
      && r.children == RemoveChild(s.children, c.id) && r.nextChild == s.nextChild && !r.shuttingDown
      && (r.tm == tm || r.tm == Arm(tm, h))
  {
    var d := ExitCleanup(s, c, code);
    var n := c.entry.name;
    var found := FindEntry(s.registry, n);
    h := RestartWait(n, if found.Some? then found.value else c.entry, Get(d.restartCounts, n, 0) + 1);
    hide Drop, Arm, ExitChannels, FindEntry, RemoveChild;
  }

  lemma ExitTimersSafe(tm: Timers, m: Name, h: Handler, id: nat, n: Name)
    requires TimersOk(tm) && Safe(tm, id, n) && m != n && h.RestartWait?
    ensures Safe(Drop(tm, StopSlot(m)), id, n) && Safe(Arm(Drop(tm, StopSlot(m)), h), id, n)
  {
    DropSafe(tm, StopSlot(m), id, n);
    DropKeeps(tm, StopSlot(m));
    ArmSafe(Drop(tm, StopSlot(m)), h, id, n);
    hide Safe, Drop, Arm, TimersOk;
  }

  lemma ExitGuard(s: State, c: Child, code: int, id: nat, n: Name)
    requires Core(s) && GuardOk(s, id, n) && c in s.children
    ensures GuardOk(OnChildExit(s, c, code), id, n)
  {
    var h := ExitShape(s, c, code);
    var r := OnChildExit(s, c, code);
    hide OnChildExit, Safe, Drop, Arm;
    forall x | x in r.children ensures x in s.children && x.id != c.id {}
    if RunningChild(r.children, id) {
      var x :| x in r.children && x.id == id && x.state.ChildRunning?;
      FindIsUnique(s.children, x);
      FindIsUnique(s.children, c);
      ExitTimersSafe(s.tm, c.entry.name, h, id, n);
    }
  }

  lemma StoppedRunsNot(s: State, c: Child, id: nat)
    requires c.id == id
    ensures !RunningChild(ForceKill(s, c, StopTimer).children, id)
  {
    var r := ForceKill(s, c, StopTimer).children;
    forall d | d in r && d.id == id ensures d.state.ChildStopping? {
      var i :| 0 <= i < |r| && r[i] == d;
    }
  }

  /** The handler of this child's own stop timer kills it. */
  lemma OwnTimerKills(s: State, t: nat, a: Attempt, id: nat, n: Name)
    requires Core(s) && GuardOk(s, id, n) && OwnExpired(s.tm, t, id, n)
    ensures GuardOk(RunTimer(s, t, a), id, n) && !RunningChild(RunTimer(s, t, a).children, id)
  {
    var d := s.(tm := Drop(Taken(s.tm, t), StopSlot(n)));
    var c := ChildById(s.children, id);
    var r := RunTimer(s, t, a);
    assert r == if c.Some? then ForceKill(d, c.value, StopTimer) else d by { hide Drop, ForceKill; }
    if c.Some? {
      StoppedRunsNot(d, c.value, id);
      OneKillFrame(d, c.value, StopTimer);
      MilderRun(s.children, r.children, id);
    }
    assert !RunningChild(r.children, id);
    hide RunTimer, ForceKill, Drop, Safe, Core;
  }

  lemma OtherHandlers(s: State, h: Handler, a: Attempt, id: nat, n: Name)
    requires Core(s.(tm := Drop(s.tm, SlotOf(h)))) && GuardOk(s.(tm := Drop(s.tm, SlotOf(h))), id, n)
    ensures h.RestartWait? ==> GuardOk(OnRestartTimer(s, h, a), id, n)
    ensures h.StopWait? ==> GuardOk(OnStopTimer(s, h), id, n)
    ensures h.ReadyWait? ==> GuardOk(OnReadyTimer(s, h.source), id, n)
  {
    var e := s.(tm := Drop(s.tm, SlotOf(h)));
    if h.RestartWait? { LaunchGuard(e, h.entry, a, Restart, id, n); }
    var c := if h.StopWait? then ChildById(s.children, h.childId)
             else if h.ReadyWait? then FindChild(s.children, h.source) else None;
    if c.Some? { KillGuard(e, c.value, if h.StopWait? then StopTimer else ReadyTimer, id, n); }
    hide LaunchChild, ForceKill, Drop, Safe, Core;
  }

  lemma TimerGuard(s: State, t: nat, a: Attempt, id: nat, n: Name)
    requires Core(s) && GuardOk(s, id, n)
    ensures GuardOk(RunTimer(s, t, a), id, n)
  {
    if t in s.tm.waits && !s.tm.waits[t].wait.Waiting? {
      if OwnExpired(s.tm, t, id, n) {
        OwnTimerKills(s, t, a, id, n);
      } else {
        var h := s.tm.waits[t].handler;
        var d := s.(tm := Taken(s.tm, t));
        var e := d.(tm := Drop(d.tm, SlotOf(h)));
        if RunningChild(s.children, id) { TakenSafe(s.tm, t, id, n); }
        TakenKeeps(s.tm, t);
        assert Core(e) && GuardOk(e, id, n) && GuardOk(d, id, n) by { hide Safe; }
        OtherHandlers(d, h, a, id, n);
        if h.BatchWait? && h.armedIndex == s.batchIndex && h.armedIndex < |s.batches| {
          KillEachFrame(d, s.batches[h.armedIndex], BatchTimer(h.armedIndex));
          var r := KillEach(d, s.batches[h.armedIndex], BatchTimer(h.armedIndex));
          MilderRun(d.children, r.children, id);
          GuardFrame(d, r, id, n);
        }
        hide OnRestartTimer, OnStopTimer, OnReadyTimer, Drop, Safe, Core, KillEach;
      }
    }
  }

  lemma GuardKept(s: State, step: Step, id: nat, n: Name)
    requires Core(s) && GuardOk(s, id, n) && OfEventLoop(step)
    ensures GuardOk(Next(s, step), id, n)
  {
    hide OnChildExit, RunTimer, Core;
    match step
    case ExitStep(x, code) =>
      var c := ChildById(s.children, x);
      if c.Some? { ExitGuard(s, c.value, code, id, n); }
    case ExpireStep(t) =>
      if RunningChild(s.children, id) && t in s.tm.waits && s.tm.waits[t].wait.Waiting? { ExpireSafe(s.tm, t, id, n); }
    case TimerStep(t, a) => TimerGuard(s, t, a, id, n);
  }

  lemma {:induction false} GuardStays(s: State, steps: seq<Step>, id: nat, n: Name)
    requires Core(s) && GuardOk(s, id, n) && AllOfEventLoop(steps)
    ensures GuardOk(Run(s, steps), id, n)
    decreases |steps|
  {
    if steps != [] {
      assert OfEventLoop(steps[0]);
      GuardKept(s, steps[0], id, n);
      CoreKept(s, steps[0]);
      hide Core, GuardOk, Next;
      GuardStays(Next(s, steps[0]), steps[1..], id, n);
    }
  }

  // ----- a stop request ------------------------------------------------------------------------------

  /** Exits and timers alone take the guard away and leave the child running. */
  ghost predicate GuardLost(s: State, id: nat, n: Name) {
    exists steps :: AllOfEventLoop(steps) && Unguarded(Run(s, steps), id, n)
  }

  /** An earlier stop timer of this name has a handler still to run, and none of this child's
      own has expired. */
  ghost predicate StaleStop(tm: Timers, id: nat, n: Name) {
    (exists t :: StopOf(tm, t, n)) && forall t :: !OwnExpired(tm, t, id, n)
  }

  /** The timers a stop request leaves. */
  lemma StopArms(tm: Timers, id: nat, n: Name)
    requires TimersOk(tm)
    ensures var r := Arm(tm, StopWait(id, n));
      && tm.next in r.waits && r.waits[tm.next] == Timer(StopWait(id, n), Waiting)
      && StopSlot(n) in r.slots && r.slots[StopSlot(n)] == tm.next
      && (forall t :: t != tm.next ==> (StopOf(r, t, n) <==> StopOf(tm, t, n)))
      && (forall t :: StopOf(tm, t, n) ==>
            t != tm.next && r.waits[t].handler == tm.waits[t].handler
            && r.waits[t].wait == (if tm.waits[t].wait.Waiting? then Wait.Cancelled else tm.waits[t].wait))
  {
    forall t | StopOf(tm, t, n) && tm.waits[t].wait.Waiting? ensures Tracked(tm, t) {}
  }

  lemma SafeAtStop(s: State, c: Child)
    requires Core(s) && !s.shuttingDown && c in s.children
    requires c.state.ChildRunning? ==> !StaleStop(s.tm, c.id, c.entry.name)
    ensures GuardOk(StopChild(s, c), c.id, c.entry.name)
  {
    var id, n := c.id, c.entry.name;
    var r := Arm(s.tm, StopWait(id, n));
    StopArms(s.tm, id, n);
    forall x | x in s.children && x.id == id ensures x == c {
      FindIsUnique(s.children, x);
      FindIsUnique(s.children, c);
    }
    if c.state.ChildRunning? {
      if t :| OwnExpired(s.tm, t, id, n) {
        assert OwnExpired(r, t, id, n);
      } else {
        assert OwnPending(r, s.tm.next, id, n);
        assert forall u :: StopOf(r, u, n) ==> u == s.tm.next;
      }
    }
    hide Arm, Core;
  }

  lemma StaleTimers(tm: Timers, t: nat, newest: nat, n: Name)
    requires t != newest && newest in tm.waits && tm.waits[newest].wait.Waiting?
    requires StopSlot(n) in tm.slots && tm.slots[StopSlot(n)] == newest
    ensures var d := Drop(Taken(tm, t), StopSlot(n));
      && newest in d.waits && d.waits[newest].wait.Cancelled?
      && (forall u :: u in d.waits && u != newest ==> u in tm.waits && d.waits[u] == tm.waits[u])
  {}

  lemma StaleRun(s: State, t: nat, n: Name)
    requires StopOf(s.tm, t, n) && !s.tm.waits[t].wait.Waiting?
    ensures var d, x := s.(tm := Drop(Taken(s.tm, t), StopSlot(n))), RunTimer(s, t, ExeMissing);
      var k := ChildById(s.children, s.tm.waits[t].handler.childId);
      x == if s.tm.waits[t].wait.Expired? && k.Some? then ForceKill(d, k.value, StopTimer) else d
  {
    hide Drop, ForceKill;
  }

  /** Killing another child leaves this one as it is. */
  lemma StillRuns(s: State, c: Child, h: Handler)
    requires c in s.children && c.state.ChildRunning?
    ensures RunningChild(s.children, c.id)
    ensures h.StopWait? && h.childId != c.id && ChildById(s.children, h.childId).Some? ==>
      RunningChild(ForceKill(s, ChildById(s.children, h.childId).value, StopTimer).children, c.id)
  {
    if h.StopWait? && h.childId != c.id && ChildById(s.children, h.childId).Some? {
      var k := ChildById(s.children, h.childId).value;
      var i :| 0 <= i < |s.children| && s.children[i] == c;
      assert MarkStopping(s.children, k.id)[i] == c;
    }
  }

  lemma StaleTakesAll(tm: Timers, t: nat, id: nat, n: Name)
    requires TimersOk(tm) && StopOf(tm, t, n) && forall u :: !OwnExpired(tm, u, id, n)
    ensures var a := Arm(tm, StopWait(id, n));
      && StopOf(a, t, n) && !a.waits[t].wait.Waiting? && (a.waits[t].wait.Expired? ==> a.waits[t].handler.childId != id)
      && forall u :: !OwnPending(Drop(Taken(a, t), StopSlot(n)), u, id, n)
  {
    var a := Arm(tm, StopWait(id, n));
    StopArms(tm, id, n);
    assert !OwnExpired(tm, t, id, n);
    hide Arm, TimersOk;
    StaleTimers(a, t, tm.next, n);
    var d := Drop(Taken(a, t), StopSlot(n));
    hide Drop, Taken;
    forall u ensures !OwnPending(d, u, id, n) {
      assert !OwnExpired(tm, u, id, n);
    }
  }

  /** The stale handler drops the new timer, and leaves the child alone. */
  lemma StaleDrops(s: State, c: Child, t: nat)
    requires Core(s) && !s.shuttingDown && c in s.children && c.state.ChildRunning?
    requires StopOf(s.tm, t, c.entry.name) && forall u :: !OwnExpired(s.tm, u, c.id, c.entry.name)
    ensures Unguarded(RunTimer(StopChild(s, c), t, ExeMissing), c.id, c.entry.name)
  {
    var id, n := c.id, c.entry.name;
    var r := StopChild(s, c);
    StaleTakesAll(s.tm, t, id, n);
    hide Arm, Core;
    var d := r.(tm := Drop(Taken(r.tm, t), StopSlot(n)));
    StaleRun(r, t, n);
    StillRuns(d, c, r.tm.waits[t].handler);
    hide RunTimer, Drop;
  }

  lemma StopIs(s: State, n: Name)
    requires Core(s) && !s.shuttingDown && FindEntry(s.registry, n).Some? && Live(s.children, n)
    ensures var c := FindChild(s.children, n).value;
      c in s.children && c.entry.name == n && StopRequest(s, n) == StopChild(s, c) && Core(StopRequest(s, n))
  {
    StopKeeps(s, n);
    hide Core, StopChild;
  }

  lemma StaleLoses(s: State, c: Child)
    requires Core(s) && !s.shuttingDown && c in s.children && c.state.ChildRunning? && StaleStop(s.tm, c.id, c.entry.name)
    ensures GuardLost(StopChild(s, c), c.id, c.entry.name)
  {
    var t :| StopOf(s.tm, t, c.entry.name);
    StaleDrops(s, c, t);
    var r := StopChild(s, c);
    hide StopChild, Core, Unguarded;
    RunOne(r, TimerStep(t, ExeMissing));
    assert AllOfEventLoop([TimerStep(t, ExeMissing)]);
  }

  lemma SafeKeeps(r: State, id: nat, n: Name)
    requires Core(r) && GuardOk(r, id, n)
    ensures !GuardLost(r, id, n)
  {
    hide Core, Run, Safe;
    forall steps | AllOfEventLoop(steps) ensures !Unguarded(Run(r, steps), id, n) {
      GuardStays(r, steps, id, n);
      if RunningChild(Run(r, steps).children, id) { SafeIsGuarded(Run(r, steps).tm, id, n); }
    }
  }

  /** Outside a shutdown, a stop request leaves a running child with a stop timer that can still
      fire, whatever exits and timers follow, unless a handler of an earlier stop timer of that
      name has still to run and none of the child's own has expired: then the aborted handler
      drops the new timer, and nothing will kill a child that hangs. */
  lemma StopGuardedExactly(s: State, n: Name)
    requires Core(s) && !s.shuttingDown && FindEntry(s.registry, n).Some? && Live(s.children, n)
    ensures var c := FindChild(s.children, n).value;
      GuardLost(StopRequest(s, n), c.id, n) <==> c.state.ChildRunning? && StaleStop(s.tm, c.id, n)
  {
    var c := FindChild(s.children, n).value;
    StopIs(s, n);
    hide StopRequest, StopChild, Core, FindChild, FindEntry, GuardLost, StaleStop;
    if c.state.ChildRunning? && StaleStop(s.tm, c.id, n) {
      StaleLoses(s, c);
    } else {
      SafeAtStop(s, c);
      SafeKeeps(StopChild(s, c), c.id, n);
    }
  }

  // ----- a run ---------------------------------------------------------------------------------------

  const P := ProcessEntry("p", Internal, RestartPolicy(false, 0), "")
  const HUNG := Child(0, P, ChildRunning, None)

  function At(tm: Timers, log: seq<Event>): State {
    State([P], [HUNG], 1, tm, map[], {}, {}, map[], map[], false, [], 0, log)
  }

  function Stops(wait: Wait): Timer { Timer(StopWait(0, "p"), wait) }

  const ONE := Timers(map[0 := Stops(Waiting)], map[StopSlot("p") := 0], 1)
  const TWO := Timers(map[0 := Stops(Wait.Cancelled), 1 := Stops(Waiting)], map[StopSlot("p") := 1], 2)
  const NEITHER := Timers(map[1 := Stops(Wait.Cancelled)], map[], 2)
  const L1: seq<Event> := [Spawned(0, P, Request, None)]
  const L2 := L1 + [ShutdownSent("p")]

  lemma TimersOfRun()
    ensures Arm(Timers(map[], map[], 0), StopWait(0, "p")) == ONE && Arm(ONE, StopWait(0, "p")) == TWO
    ensures Drop(Taken(TWO, 0), StopSlot("p")) == NEITHER
  {
    assert ONE.slots - {StopSlot("p")} == map[];
    assert TWO.waits - {0} == map[1 := Stops(Waiting)] && TWO.slots - {StopSlot("p")} == map[];
    assert NEITHER.waits == map[1 := Stops(Waiting)][1 := Stops(Wait.Cancelled)];
  }

  lemma FirstStart()
    ensures Next(Initial([P]), StartStep("p", None, Spawns(1))) == At(Timers(map[], map[], 0), L1)
  {
    assert FindEntry([P], "p") == Some(P);
    var none: map<Name, int> := map[];
    assert none - {"p"} == none;
  }

  lemma TwoStops()
    ensures Next(At(Timers(map[], map[], 0), L1), StopStep("p")) == At(ONE, L2)
    ensures Next(At(ONE, L2), StopStep("p")) == At(TWO, L2 + [ShutdownSent("p")])
    ensures Next(At(TWO, L2 + [ShutdownSent("p")]), TimerStep(0, ExeMissing)) == At(NEITHER, L2 + [ShutdownSent("p")])
  {
    TimersOfRun();
    assert FindEntry([P], "p") == Some(P);
    hide Arm, Drop;
  }

  /** Stopped twice; the aborted handler of the first timer has run, and no timer is left that
      could kill the child. */
  lemma StoppedTwiceUnguarded()
    ensures Unguarded(Run(Initial([P]), [StartStep("p", None, Spawns(1)), StopStep("p"), StopStep("p")]
                                        + [TimerStep(0, ExeMissing)]), 0, "p")
  {
    FirstStart();
    TwoStops();
    var s := At(NEITHER, L2 + [ShutdownSent("p")]);
    assert HUNG in s.children;
    assert Unguarded(s, 0, "p");
    hide Next, Unguarded;
    RunThree(Initial([P]), StartStep("p", None, Spawns(1)), StopStep("p"), StopStep("p"), [TimerStep(0, ExeMissing)]);
    RunOne(At(TWO, L2 + [ShutdownSent("p")]), TimerStep(0, ExeMissing));
  }
}
