/** The data of the master process: registered processes, live children, market-data
    channels, timers the event loop still owes a callback, and the log of effects. */
module MasterTypes {
  import opened Basics

  type Name = string

  datatype Category = GatewayMd | GatewayTd | Strategy | WebUI | Internal

  datatype RestartPolicy = RestartPolicy(enabled: bool, maxAttempts: int)

  datatype ProcessEntry = ProcessEntry(name: Name, category: Category, restart: RestartPolicy, mdSource: Name)

  /** A child on the supervisor's list is running or stopping: the exit callback marks it
      stopped and takes it off the list without returning to the event loop in between. */
  datatype ChildState = ChildRunning | ChildStopping

  /** layout: the page size of the bound channel at spawn, which the child's reader maps. */
  datatype Child = Child(id: nat, entry: ProcessEntry, state: ChildState, layout: Option<nat>)

  datatype MdStatus = MdRunning | MdStopped | MdTombstone

  /** meta: the reader table of the metadata handle, when the handle is held. */
  datatype Channel = Channel(status: MdStatus, ready: bool, lastPageSize: nat, meta: Option<set<Name>>)

  /** What an expired timer will run. */
  datatype Handler =
    | RestartWait(name: Name, entry: ProcessEntry, count: int)
    | StopWait(childId: nat, name: Name)
    | ReadyWait(source: Name)
    | BatchWait(armedIndex: nat)

  /** Cancelling a timer turns Waiting into Cancelled but leaves Expired alone: a handler
      already queued runs with success although its timer is cancelled afterwards. */
  datatype Wait = Waiting | Expired | Cancelled

  datatype Timer = Timer(handler: Handler, wait: Wait)

  /** Which path asked for a launch. */
  datatype Via = Startup | Request | LateReady | Restart

  datatype Killer = StopTimer | ReadyTimer | BatchTimer(armedIndex: nat) | ForceAll

  datatype Event =
    | Spawned(id: nat, entry: ProcessEntry, via: Via, bound: Option<Channel>)
    | Exited(id: nat, name: Name, code: int)
    | ShutdownSent(name: Name)
    | Terminated(name: Name, killer: Killer)
    | ShutdownBegun(batches: seq<seq<Name>>)
    | Completed

  /** What the environment answers when a launch is tried: the scan for the executable,
      the configured page size (always positive), the outcome of the spawn. */
  type PageSize = n: nat | n > 0 witness 1

  datatype Attempt = ExeMissing | SpawnFails(pageSize: PageSize) | Spawns(pageSize: PageSize)

  datatype Outcome = Launched | NotLaunched | Threw

  /** What a tracked timer is for: the supervisor's maps of restart, stop and readiness
      timers by name, and its one shutdown timer. */
  datatype Slot = RestartSlot(name: Name) | StopSlot(name: Name) | ReadySlot(source: Name) | BatchSlot

  /** waits: every timer whose handler the event loop still has to run. */
  datatype Timers = Timers(waits: map<nat, Timer>, slots: map<Slot, nat>, next: nat)

  datatype State = State(
    registry: seq<ProcessEntry>,
    children: seq<Child>,
    nextChild: nat,
    tm: Timers,
    restartCounts: map<Name, int>,
    removePending: set<Name>,
    forceKilled: set<Name>,
    pending: map<Name, seq<Name>>,
    channels: map<Name, Channel>,
    shuttingDown: bool,
    batches: seq<seq<Name>>,
    batchIndex: nat,
    log: seq<Event>)
}
