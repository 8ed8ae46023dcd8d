/** Two concrete runs of one process that is restarted at most once. In the first, a launch by
    hand while an expired restart is queued is followed by two automatic restarts; in the
    second, a stop request while it is queued does not keep the process down. */
module RestartRuns {
  import opened Basics
  import opened MasterTypes
  import opened MasterSteps
  import opened RestartBudget
  import opened ManualLaunch

  const POLICY := RestartPolicy(true, 1)
  const P: ProcessEntry := ProcessEntry("p", Internal, POLICY, "")

  /** The registry holds P alone; k of its children were started before. */
  function At(children: seq<Child>, k: nat, tm: Timers, counts: map<Name, int>, log: seq<Event>): State {
    State([P], children, k, tm, counts, {}, {}, map[], map[], false, [], 0, log)
  }

  function Only(id: nat): seq<Child> { [Child(id, P, ChildRunning, None)] }

  function Waits(wait: Wait): Timer { Timer(RestartWait("p", P, 1), wait) }

  const NO_COUNTS: map<Name, int> := map[]

  const START := StartStep("p", None, Spawns(1))

  lemma StartOne(k: nat, tm: Timers, counts: map<Name, int>, log: seq<Event>)
    ensures Next(At([], k, tm, counts, log), START) ==
            At(Only(k), k + 1, Drop(tm, RestartSlot("p")), counts - {"p"}, log + [Spawned(k, P, Request, None)])
  {
    hide Drop;
  }

  lemma NothingDropped(tm: Timers, k: Slot)
    requires k !in tm.slots
    ensures Drop(tm, k) == tm
  {}

  /** A crash with nothing counted arms the restart. */
  lemma FirstCrash(id: nat, k: nat, tm: Timers, log: seq<Event>)
    requires tm.slots == map[]
    ensures Next(At(Only(id), k, tm, map[], log), ExitStep(id, 1)) ==
            At([], k, Timers(tm.waits[tm.next := Waits(Waiting)], map[RestartSlot("p") := tm.next], tm.next + 1),
               map["p" := 1], log + [Exited(id, "p", 1)])
  {
    NothingDropped(tm, StopSlot("p"));
    NothingDropped(tm, RestartSlot("p"));
    var s := At(Only(id), k, tm, map[], log);
    assert s.children[1..] == [];
    assert ExitChannels(s, s.children[0], false) == map[];
    assert Arm(tm, RestartWait("p", P, 1)).slots == map[RestartSlot("p") := tm.next];
    hide Drop;
  }

  /** One more crash gives up. */
  lemma SecondCrash(id: nat, k: nat, tm: Timers, log: seq<Event>)
    requires tm.slots == map[]
    ensures Next(At(Only(id), k, tm, map["p" := 1], log), ExitStep(id, 1)) == At([], k, tm, map[], log + [Exited(id, "p", 1)])
  {
    NothingDropped(tm, StopSlot("p"));
    var s := At(Only(id), k, tm, map["p" := 1], log);
    assert s.children[1..] == [];
    assert ExitChannels(s, s.children[0], false) == map[];
    assert map["p" := 1] - {"p"} == map[];
    hide Drop;
  }

  /** A queued restart runs. */
  lemma Restarts(t: nat, k: nat, tm: Timers, counts: map<Name, int>, log: seq<Event>)
    requires t in tm.waits && tm.waits[t] == Waits(Expired) && counts - {"p"} == map[]
    ensures var d := Drop(Taken(tm, t), RestartSlot("p"));
      Next(At([], k, tm, counts, log), TimerStep(t, Spawns(1))) ==
      At(Only(k), k + 1, d, map["p" := 1], log + [Spawned(k, P, Restart, None)])
  {
    var d := Drop(Taken(tm, t), RestartSlot("p"));
    assert RestartSlot("p") !in d.slots;
    NothingDropped(d, RestartSlot("p"));
    assert (counts - {"p"})["p" := 1] == map["p" := 1];
    hide Drop, Arm;
  }

  /** An armed restart expires, and is then dropped without being cancelled. */
  lemma Expires(children: seq<Child>, k: nat, tm: Timers, counts: map<Name, int>, log: seq<Event>, t: nat)
    requires t in tm.waits && tm.waits[t] == Waits(Waiting)
    ensures Next(At(children, k, tm, counts, log), ExpireStep(t)) ==
            At(children, k, tm.(waits := tm.waits[t := Waits(Expired)]), counts, log)
  {}

  // ----- timers of the two runs ----------------------------------------------------------------

  const NONE := Timers(map[], map[], 0)
  /** The first restart, expired and tracked, and then queued after a launch or a stop. */
  const READY := Timers(map[0 := Waits(Expired)], map[RestartSlot("p") := 0], 1)
  const STALE := Timers(map[0 := Waits(Expired)], map[], 1)
  const BOTH := Timers(map[0 := Waits(Expired), 1 := Waits(Expired)], map[RestartSlot("p") := 1], 2)
  const SECOND := Timers(map[1 := Waits(Expired)], map[], 2)

  lemma TimerFacts()
    ensures Drop(READY, RestartSlot("p")) == STALE
    ensures Drop(Taken(BOTH, 0), RestartSlot("p")) == SECOND
    ensures Drop(Taken(SECOND, 1), RestartSlot("p")) == Timers(map[], map[], 2)
    ensures Drop(Taken(STALE, 0), RestartSlot("p")) == Timers(map[], map[], 1)
  {
    assert READY.slots - {RestartSlot("p")} == map[];
    assert BOTH.slots - {RestartSlot("p")} == map[];
    assert BOTH.waits - {0} == map[1 := Waits(Expired)];
    assert SECOND.waits - {1} == map[];
    assert STALE.waits - {0} == map[];
  }

  const L1: seq<Event> := [Spawned(0, P, Request, None)]
  const L2 := L1 + [Exited(0, "p", 1)]
  const L4 := L2 + [Spawned(1, P, Request, None)]
  const L5 := L4 + [Exited(1, "p", 1)]
  const L7 := L5 + [Spawned(2, P, Restart, None)]
  const L8 := L7 + [Exited(2, "p", 1)]
  const L9 := L8 + [Spawned(3, P, Restart, None)]

  lemma RunTwo(s: State, a: Step, b: Step)
    ensures Run(s, [a, b]) == Next(Next(s, a), b)
  {
    hide Next;
    assert [a, b] == [a] + [b] && [b] == [b] + [];
    RunCons(s, a, [b]);
    RunCons(Next(s, a), b, []);
  }

  const FIRST := Timers(map[0 := Waits(Waiting)], map[RestartSlot("p") := 0], 1)

  lemma FirstStart()
    ensures Next(Initial([P]), START) == At(Only(0), 1, NONE, map[], L1)
  {
    StartOne(0, NONE, map[], []);
    NothingDropped(NONE, RestartSlot("p"));
    assert NO_COUNTS - {"p"} == NO_COUNTS;
    hide Next, Drop;
  }

  lemma FirstDown()
    ensures Next(At(Only(0), 1, NONE, map[], L1), ExitStep(0, 1)) == At([], 1, FIRST, map["p" := 1], L2)
    ensures Next(At([], 1, FIRST, map["p" := 1], L2), ExpireStep(0)) == At([], 1, READY, map["p" := 1], L2)
  {
    FirstCrash(0, 1, NONE, L1);
    assert NONE.waits[0 := Waits(Waiting)] == FIRST.waits;
    Expires([], 1, FIRST, map["p" := 1], L2, 0);
    assert FIRST.waits[0 := Waits(Expired)] == READY.waits;
    hide Next;
  }

  /** Started once, crashed, and the restart has expired. */
  lemma CrashedOnce()
    ensures Next(Next(Next(Initial([P]), START), ExitStep(0, 1)), ExpireStep(0)) == At([], 1, READY, map["p" := 1], L2)
  {
    FirstStart();
    FirstDown();
    hide Next;
  }

  /** Then launched by hand: it runs, nothing is counted, and the expired restart is queued. */
  lemma LaunchedWhileQueued()
    ensures Run(Initial([P]), [START, ExitStep(0, 1), ExpireStep(0), START]) == At(Only(1), 2, STALE, map[], L4)
  {
    CrashedOnce();
    StartOne(1, READY, map["p" := 1], L2);
    TimerFacts();
    assert map["p" := 1] - {"p"} == map[];
    hide Next, Drop;
    RunThree(Initial([P]), START, ExitStep(0, 1), ExpireStep(0), [START]);
    assert [START, ExitStep(0, 1), ExpireStep(0)] + [START] == [START, ExitStep(0, 1), ExpireStep(0), START];
    RunCons(At([], 1, READY, map["p" := 1], L2), START, []);
    assert [START] + [] == [START];
  }

  const REST := [ExitStep(1, 1), ExpireStep(1), TimerStep(0, Spawns(1)), ExitStep(2, 1), TimerStep(1, Spawns(1))]

  const ARMED := Timers(map[0 := Waits(Expired), 1 := Waits(Waiting)], map[RestartSlot("p") := 1], 2)
  const DONE := Timers(map[], map[], 2)

  lemma Crashes()
    ensures Next(At(Only(1), 2, STALE, map[], L4), ExitStep(1, 1)) == At([], 2, ARMED, map["p" := 1], L5)
    ensures Next(At([], 2, ARMED, map["p" := 1], L5), ExpireStep(1)) == At([], 2, BOTH, map["p" := 1], L5)
  {
    FirstCrash(1, 2, STALE, L4);
    assert STALE.waits[1 := Waits(Waiting)] == ARMED.waits;
    Expires([], 2, ARMED, map["p" := 1], L5, 1);
    assert ARMED.waits[1 := Waits(Expired)] == BOTH.waits;
    hide Next;
  }

  lemma RestartsTwice()
    ensures Next(At([], 2, BOTH, map["p" := 1], L5), TimerStep(0, Spawns(1))) == At(Only(2), 3, SECOND, map["p" := 1], L7)
    ensures Next(At(Only(2), 3, SECOND, map["p" := 1], L7), ExitStep(2, 1)) == At([], 3, SECOND, map[], L8)
    ensures Next(At([], 3, SECOND, map[], L8), TimerStep(1, Spawns(1))) == At(Only(3), 4, DONE, map["p" := 1], L9)
  {
    TimerFacts();
    assert map["p" := 1] - {"p"} == NO_COUNTS && NO_COUNTS - {"p"} == NO_COUNTS;
    Restarts(0, 2, BOTH, map["p" := 1], L5);
    SecondCrash(2, 3, SECOND, L7);
    Restarts(1, 3, SECOND, map[], L8);
    hide Next, Drop;
  }

  /** The policy of p is the registry's at every moment. */
  lemma AtGoverned(children: seq<Child>, k: nat, tm: Timers, counts: map<Name, int>, log: seq<Event>)
    ensures PolicyAtMost(At(children, k, tm, counts, log), "p", 1)
  {
    assert FindEntry([P], "p") == Some(P);
  }

  lemma RestRuns()
    ensures var s := At(Only(1), 2, STALE, map[], L4);
      Governed(s, REST, "p", 1) && Run(s, REST) == At(Only(3), 4, DONE, map["p" := 1], L9)
  {
    Crashes();
    RestartsTwice();
    var s, a, b := At(Only(1), 2, STALE, map[], L4), At([], 2, ARMED, map["p" := 1], L5), At([], 2, BOTH, map["p" := 1], L5);
    var c, d, e := At(Only(2), 3, SECOND, map["p" := 1], L7), At([], 3, SECOND, map[], L8), At(Only(3), 4, DONE, map["p" := 1], L9);
    AtGoverned(Only(1), 2, STALE, map[], L4);
    AtGoverned([], 2, ARMED, map["p" := 1], L5);
    AtGoverned([], 2, BOTH, map["p" := 1], L5);
    AtGoverned(Only(2), 3, SECOND, map["p" := 1], L7);
    AtGoverned([], 3, SECOND, map[], L8);
    AtGoverned(Only(3), 4, DONE, map["p" := 1], L9);
    assert Governed(e, [], "p", 1);
    assert REST == [REST[0], REST[1], REST[2]] + [REST[3], REST[4]]
           && REST == [REST[0]] + ([REST[1]] + ([REST[2]] + ([REST[3]] + ([REST[4]] + []))));
    hide Next, At, PolicyAtMost, Governed;
    GovernedCons(d, REST[4], [], "p", 1);
    GovernedCons(c, REST[3], [REST[4]] + [], "p", 1);
    GovernedCons(b, REST[2], [REST[3]] + ([REST[4]] + []), "p", 1);
    GovernedCons(a, REST[1], [REST[2]] + ([REST[3]] + ([REST[4]] + [])), "p", 1);
    GovernedCons(s, REST[0], [REST[1]] + ([REST[2]] + ([REST[3]] + ([REST[4]] + []))), "p", 1);
    RunThree(s, REST[0], REST[1], REST[2], [REST[3], REST[4]]);
    RunTwo(c, REST[3], REST[4]);
  }

  lemma LogFacts()
    ensures NoManual(L4, L9, "p") && Autos(L4, "p") == 0 && Autos(L9, "p") == 2
  {
    assert L9[..6] == L8 && L8[..5] == L7 && L7[..4] == L5;
    assert NoneNew([], L5, "p");
    AutosSame([], L5, "p");
    AutosSame([], L4, "p");
    assert NoneNew(L7, L8, "p");
    AutosSame(L7, L8, "p");
    assert Autos(L7, "p") == 1 && Autos(L9, "p") == Autos(L8, "p") + 1;
  }

  /** One automatic restart is allowed at every moment, and two follow the launch by hand. */
  lemma OneAllowedTwoRestarts()
    ensures var s := Run(Initial([P]), [START, ExitStep(0, 1), ExpireStep(0), START]);
      var r := Run(s, REST);
      && Live(s.children, "p") && Allowed(POLICY) == 1 && Governed(s, REST, "p", 1)
      && NoManual(s.log, r.log, "p") && Autos(r.log, "p") - Autos(s.log, "p") == 2
  {
    LaunchedWhileQueued();
    RestRuns();
    LogFacts();
    hide Run, Governed, Autos, NoManual;
  }

  // ----- a stop request while the restart is queued -----------------------------------------------

  /** The stop request finds p down and cancels; the queued handler starts it all the same. */
  lemma StoppedAndBack()
    ensures Live(Run(Initial([P]), [START, ExitStep(0, 1), ExpireStep(0), StopStep("p"), TimerStep(0, Spawns(1))]).children, "p")
  {
    CrashedOnce();
    TimerFacts();
    assert map["p" := 1] - {"p"} == NO_COUNTS && NO_COUNTS - {"p"} == NO_COUNTS;
    var s := At([], 1, READY, map["p" := 1], L2);
    assert FindEntry([P], "p") == Some(P);
    assert Next(s, StopStep("p")) == At([], 1, STALE, map[], L2);
    Restarts(0, 1, STALE, map[], L2);
    hide Next, Drop;
    RunThree(Initial([P]), START, ExitStep(0, 1), ExpireStep(0), [StopStep("p"), TimerStep(0, Spawns(1))]);
    assert [START, ExitStep(0, 1), ExpireStep(0)] + [StopStep("p"), TimerStep(0, Spawns(1))] ==
           [START, ExitStep(0, 1), ExpireStep(0), StopStep("p"), TimerStep(0, Spawns(1))];
    RunTwo(s, StopStep("p"), TimerStep(0, Spawns(1)));
    assert Only(1)[0].entry.name == "p";
  }
}
