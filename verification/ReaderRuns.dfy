/** Two concrete runs of a market source and one strategy bound to it. In the first the strategy
    is restarted by its policy and runs, its source ready, in no reader table; in the second it
    is removed, and the page size of its channel changes while it still runs. */
module ReaderRuns {
  import opened Basics
  import opened MasterTypes
  import opened MasterSteps
  import opened MasterInvariants
  import opened ReadyGate
  import opened PageLayout

  const MD := ProcessEntry("md", GatewayMd, RestartPolicy(false, 0), "")
  const STG := ProcessEntry("s", Strategy, RestartPolicy(true, 1), "md")
  const NO_COUNTS: map<Name, int> := map[]

  /** The registry holds both; only the one channel exists. */
  function At(children: seq<Child>, k: nat, tm: Timers, counts: map<Name, int>, channel: Channel, log: seq<Event>): State {
    State([MD, STG], children, k, tm, counts, {}, {}, map[], map["md" := channel], false, [], 0, log)
  }

  const START_MD := StartStep("md", None, Spawns(1))
  const START_STG := StartStep("s", None, Spawns(1))

  const GATEWAY := Child(0, MD, ChildRunning, None)
  const FIRST := Child(1, STG, ChildRunning, Some(1))
  const SECOND := Child(2, STG, ChildRunning, Some(1))

  const OPEN := Channel(MdRunning, false, 1, Some({}))
  const EMPTY := Channel(MdRunning, true, 1, Some({}))
  const JOINED := Channel(MdRunning, true, 1, Some({"stg.s"}))
  const CLOSED := Channel(MdStopped, false, 1, Some({"stg.s"}))

  const WATCHED := Timers(map[0 := Timer(ReadyWait("md"), Waiting)], map[ReadySlot("md") := 0], 1)
  const UNWATCHED := Timers(map[0 := Timer(ReadyWait("md"), Wait.Cancelled)], map[], 1)

  const L1: seq<Event> := [Spawned(0, MD, Request, None)]
  const L2 := L1 + [Spawned(1, STG, Request, Some(JOINED))]

  lemma Entries()
    ensures FindEntry([MD, STG], "md") == Some(MD) && FindEntry([MD, STG], "s") == Some(STG)
    ensures StrategiesBoundTo([MD, STG], "md") == ["s"]
  {
    assert [MD, STG][1..] == [STG] && [STG][1..] == [];
    assert FindEntry([STG], "s") == Some(STG);
    assert StrategiesBoundTo([STG], "md") == ["s"];
  }

  lemma GatewayStarts()
    ensures Next(Initial([MD, STG]), START_MD) == At([GATEWAY], 1, WATCHED, NO_COUNTS, OPEN, L1)
  {
    Entries();
    var s := Initial([MD, STG]);
    assert s.restartCounts - {"md"} == NO_COUNTS;
    assert CreateMdChannel(s.channels, "md", 1) == map["md" := OPEN];
    assert Arm(s.tm, ReadyWait("md")) == WATCHED;
    hide Drop, Arm, CreateMdChannel, FindEntry, StrategiesBoundTo;
    assert Drop(s.tm, RestartSlot("md")) == s.tm by { Untracked(s.tm, RestartSlot("md")); }
  }

  lemma Untracked(tm: Timers, k: Slot)
    requires k !in tm.slots
    ensures Drop(tm, k) == tm
  {}

  lemma GatewayReady()
    ensures Next(At([GATEWAY], 1, WATCHED, NO_COUNTS, OPEN, L1), MdStartedStep("md", map[])) ==
            At([GATEWAY], 1, UNWATCHED, NO_COUNTS, EMPTY, L1)
  {
    var s := At([GATEWAY], 1, WATCHED, NO_COUNTS, OPEN, L1);
    assert s.channels["md" := OPEN.(ready := true)] == map["md" := EMPTY];
    assert WATCHED.slots - {ReadySlot("md")} == map[];
    assert Drop(WATCHED, ReadySlot("md")) == UNWATCHED;
    hide Drop;
  }

  lemma StrategyStarts()
    ensures Next(At([GATEWAY], 1, UNWATCHED, NO_COUNTS, EMPTY, L1), START_STG) ==
            At([GATEWAY, FIRST], 2, UNWATCHED, NO_COUNTS, JOINED, L2)
  {
    Entries();
    var s := At([GATEWAY], 1, UNWATCHED, NO_COUNTS, EMPTY, L1);
    assert EMPTY.meta.value + {"stg.s"} == JOINED.meta.value && "stg." + "s" == "stg.s";
    assert s.channels["md" := WithReader(EMPTY, "stg.s")] == map["md" := JOINED];
    Untracked(UNWATCHED, RestartSlot("s"));
    assert NO_COUNTS - {"s"} == NO_COUNTS;
    assert [GATEWAY][1..] == [];
    hide Drop, FindEntry, StrategiesBoundTo;
  }

  lemma Prefix()
    ensures Next(Next(Next(Initial([MD, STG]), START_MD), MdStartedStep("md", map[])), START_STG) ==
            At([GATEWAY, FIRST], 2, UNWATCHED, NO_COUNTS, JOINED, L2)
  {
    GatewayStarts();
    GatewayReady();
    StrategyStarts();
    hide Next;
  }

  // ----- the strategy crashes and is restarted ------------------------------------------------

  function Waits(wait: Wait): Timer { Timer(RestartWait("s", STG, 1), wait) }

  const BACKOFF := Timers(map[0 := Timer(ReadyWait("md"), Wait.Cancelled), 1 := Waits(Waiting)], map[RestartSlot("s") := 1], 2)
  const EXPIRED := Timers(map[0 := Timer(ReadyWait("md"), Wait.Cancelled), 1 := Waits(Expired)], map[RestartSlot("s") := 1], 2)
  const RAN := Timers(map[0 := Timer(ReadyWait("md"), Wait.Cancelled)], map[], 2)

  const L3 := L2 + [Exited(1, "s", 1)]
  const L4 := L3 + [Spawned(2, STG, Restart, Some(EMPTY))]

  lemma StrategyLeavesTable()
    ensures RemoveReaderEverywhere(map["md" := JOINED], "stg.s") == map["md" := EMPTY]
  {
    assert JOINED.meta.value - {"stg.s"} == {};
  }

  lemma CrashTimers()
    ensures Drop(UNWATCHED, StopSlot("s")) == UNWATCHED && Arm(UNWATCHED, RestartWait("s", STG, 1)) == BACKOFF
  {
    Untracked(UNWATCHED, StopSlot("s"));
    Untracked(UNWATCHED, RestartSlot("s"));
  }

  lemma CrashChildren()
    ensures RemoveChild([GATEWAY, FIRST], 1) == [GATEWAY] && ChildById([GATEWAY, FIRST], 1) == Some(FIRST)
  {
    assert [GATEWAY, FIRST][1..] == [FIRST] && [FIRST][1..] == [];
    assert RemoveChild([FIRST], 1) == [];
    assert ChildById([FIRST], 1) == Some(FIRST);
  }

  lemma CrashCleanup()
    ensures ExitCleanup(At([GATEWAY, FIRST], 2, UNWATCHED, NO_COUNTS, JOINED, L2), FIRST, 1) ==
            At([GATEWAY], 2, UNWATCHED, NO_COUNTS, EMPTY, L3)
  {
    StrategyLeavesTable();
    CrashTimers();
    CrashChildren();
    assert "stg." + "s" == "stg.s";
    hide Drop, Arm, FindEntry, RemoveChild, ChildById, RemoveReaderEverywhere;
  }

  lemma StrategyCrashes()
    ensures Next(At([GATEWAY, FIRST], 2, UNWATCHED, NO_COUNTS, JOINED, L2), ExitStep(1, 1)) ==
            At([GATEWAY], 2, BACKOFF, map["s" := 1], EMPTY, L3)
  {
    Entries();
    CrashCleanup();
    CrashTimers();
    CrashChildren();
    hide Drop, Arm, FindEntry, ExitCleanup, ChildById, AdvanceBatch;
  }

  lemma RestartExpires()
    ensures Next(At([GATEWAY], 2, BACKOFF, map["s" := 1], EMPTY, L3), ExpireStep(1)) ==
            At([GATEWAY], 2, EXPIRED, map["s" := 1], EMPTY, L3)
  {
    assert BACKOFF.waits[1 := Waits(Expired)] == EXPIRED.waits;
  }

  lemma StrategyRestarts()
    ensures Next(At([GATEWAY], 2, EXPIRED, map["s" := 1], EMPTY, L3), TimerStep(1, Spawns(1))) ==
            At([GATEWAY, SECOND], 3, RAN, map["s" := 1], EMPTY, L4)
  {
    assert Drop(Taken(EXPIRED, 1), RestartSlot("s")) == RAN by {
      assert EXPIRED.waits - {1} == RAN.waits && EXPIRED.slots - {RestartSlot("s")} == map[];
    }
    Untracked(RAN, RestartSlot("s"));
    assert (map["s" := 1] - {"s"})["s" := 1] == map["s" := 1];
    assert [GATEWAY][1..] == [];
    hide Drop;
  }

  /** The strategy is restarted and runs, its source is ready, and no table has its reader. */
  lemma RestartedUnregistered()
    ensures var s := Run(Initial([MD, STG]), [START_MD, MdStartedStep("md", map[]), START_STG]
                                             + [ExitStep(1, 1), ExpireStep(1), TimerStep(1, Spawns(1))]);
      Live(s.children, "s") && SourceReady(s.channels, "md") && NoReader(s.channels, "stg.s")
  {
    Prefix();
    StrategyCrashes();
    RestartExpires();
    StrategyRestarts();
    assert SECOND in [GATEWAY, SECOND];
    hide Next, FindChild;
    RunThree(Initial([MD, STG]), START_MD, MdStartedStep("md", map[]), START_STG,
             [ExitStep(1, 1), ExpireStep(1), TimerStep(1, Spawns(1))]);
    JustThree(At([GATEWAY, FIRST], 2, UNWATCHED, NO_COUNTS, JOINED, L2), ExitStep(1, 1), ExpireStep(1), TimerStep(1, Spawns(1)));
  }

  lemma JustThree(s: State, a: Step, b: Step, c: Step)
    ensures Run(s, [a, b, c]) == Next(Next(Next(s, a), b), c)
  {
    hide Next;
    assert [a, b, c] + [] == [a, b, c];
    RunThree(s, a, b, c, []);
  }

  // ----- the strategy is removed and its source comes back ----------------------------------------

  const L5 := L2 + [Exited(0, "md", 1)]

  lemma GatewayCleanup()
    ensures ExitCleanup(At([GATEWAY, FIRST], 2, UNWATCHED, NO_COUNTS, JOINED, L2), GATEWAY, 1) ==
            At([FIRST], 2, UNWATCHED, NO_COUNTS, CLOSED, L5)
  {
    var s := At([GATEWAY, FIRST], 2, UNWATCHED, NO_COUNTS, JOINED, L2);
    assert [GATEWAY, FIRST][1..] == [FIRST] && [FIRST][1..] == [];
    assert RemoveChild([FIRST], 0) == [FIRST];
    assert RemoveChild(s.children, 0) == [FIRST];
    assert JOINED.meta.value - {"md"} == JOINED.meta.value;
    assert RemoveReaderEverywhere(s.channels, "md") == map["md" := JOINED];
    assert CloseMdChannel(map["md" := JOINED], "md") == map["md" := CLOSED];
    Untracked(UNWATCHED, StopSlot("md"));
    hide Drop, RemoveChild, RemoveReaderEverywhere, CloseMdChannel, FindEntry;
  }

  lemma GatewayExits()
    ensures Next(At([GATEWAY, FIRST], 2, UNWATCHED, NO_COUNTS, JOINED, L2), ExitStep(0, 1)) ==
            At([FIRST], 2, UNWATCHED, NO_COUNTS, CLOSED, L5)
  {
    Entries();
    GatewayCleanup();
    assert ChildById([GATEWAY, FIRST], 0) == Some(GATEWAY);
    assert NO_COUNTS - {"md"} == NO_COUNTS;
    hide Drop, Arm, FindEntry, ChildById, ExitCleanup, AdvanceBatch;
  }

  /** The state after the remove request: the strategy runs, unregistered, and nothing is bound
      to its closed channel. */
  lemma StrategyRemoved()
    ensures var d := Next(At([FIRST], 2, UNWATCHED, NO_COUNTS, CLOSED, L5), RemoveStep("s"));
      && d.registry == [MD] && d.children == [FIRST] && d.channels == map["md" := CLOSED] && !d.shuttingDown
  {
    Entries();
    assert [MD, STG][1..] == [STG] && [STG][1..] == [];
    assert Unregister([STG], "s") == [];
    RemoveOfLive(At([FIRST], 2, UNWATCHED, NO_COUNTS, CLOSED, L5), "s");
    hide RemoveRequest;
  }

  lemma GatewayBackWithTwo(d: State)
    requires d.registry == [MD] && d.children == [FIRST] && d.channels == map["md" := CLOSED] && !d.shuttingDown
    ensures var r := Next(d, StartStep("md", None, Spawns(2)));
      FIRST in r.children && r.channels["md"] == Channel(MdRunning, false, 2, Some({}))
  {
    assert [MD][1..] == [] && [FIRST][1..] == [];
    assert FindEntry([MD], "md") == Some(MD) && StrategiesBoundTo([MD], "md") == [];
    LaunchFrame(d, MD, Spawns(2), Request);
    hide LaunchChild, FindEntry, StrategiesBoundTo;
  }

  /** The strategy still runs with page size 1, and its channel now has page size 2. */
  lemma RemovedLosesPageSize()
    ensures var s := Run(Initial([MD, STG]), [START_MD, MdStartedStep("md", map[]), START_STG]
                                             + [ExitStep(0, 1), RemoveStep("s"), StartStep("md", None, Spawns(2))]);
      && FIRST in s.children && FIRST.layout == Some(1)
      && "md" in s.channels && s.channels["md"] == Channel(MdRunning, false, 2, Some({}))
  {
    Prefix();
    GatewayExits();
    StrategyRemoved();
    var x := At([FIRST], 2, UNWATCHED, NO_COUNTS, CLOSED, L5);
    GatewayBackWithTwo(Next(x, RemoveStep("s")));
    hide Next;
    RunThree(Initial([MD, STG]), START_MD, MdStartedStep("md", map[]), START_STG,
             [ExitStep(0, 1), RemoveStep("s"), StartStep("md", None, Spawns(2))]);
    JustThree(At([GATEWAY, FIRST], 2, UNWATCHED, NO_COUNTS, JOINED, L2), ExitStep(0, 1), RemoveStep("s"), StartStep("md", None, Spawns(2)));
  }
}
