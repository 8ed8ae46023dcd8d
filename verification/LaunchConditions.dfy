/** Who is launched: for each way to launch, the processes a step spawns are exactly those the
    request, the frame or start-up asks for, and those it does not launch yet wait. */
module LaunchConditions {
  import opened Basics
  import opened MasterTypes
  import opened MasterSteps
  import opened MasterInvariants

  /** From s to r this entry was spawned on this path. */
  ghost predicate SpawnedNow(s: State, r: State, e: ProcessEntry, via: Via) {
    exists i :: |s.log| <= i < |r.log| && r.log[i].Spawned? && r.log[i].entry == e && r.log[i].via == via
  }

  /** The new children of r are the processes its new events say were spawned, in order, and
      nothing else is new in the log. */
  ghost predicate SpawnsOnly(s: State, r: State, via: Via) {
    && s.children <= r.children && s.log <= r.log
    && |r.log| - |s.log| == |r.children| - |s.children|
    && (forall i :: |s.log| <= i < |r.log| ==>
          && r.log[i].Spawned? && r.log[i].via == via
          && r.children[i - |s.log| + |s.children|].entry == r.log[i].entry)
  }

  /** The environment lets the process spawn, and its channel may be opened. */
  ghost predicate Goes(s: State, e: ProcessEntry, a: Attempt) {
    a.Spawns? && (e.category.GatewayMd? ==> !CreateRejected(s, e.name, a.pageSize))
  }

  // ----- one launch -----------------------------------------------------------------------------

  lemma LaunchSpawns(s: State, e: ProcessEntry, a: Attempt, via: Via, f: ProcessEntry)
    ensures var r := LaunchChild(s, e, a, via).0;
      && (SpawnedNow(s, r, f, via) <==> f == e && !Live(s.children, e.name) && Goes(s, e, a))
      && SpawnsOnly(s, r, via)
      && r.registry == s.registry && r.pending == s.pending
  {
    LaunchFrame(s, e, a, via);
    var (r, o) := LaunchChild(s, e, a, via);
    if o.Launched? { assert r.log[|s.log|].Spawned?; }
    hide LaunchChild, CreateRejected;
  }

  /** Readers do not decide whether a channel may be opened. */
  lemma PreRegisterGoes(s: State, n: Name, source: Name, e: ProcessEntry, a: Attempt)
    ensures Goes(s.(channels := PreRegister(s.channels, n, source)), e, a) <==> Goes(s, e, a)
  {
    hide FindChild, StrategiesBoundTo;
  }

  lemma SameStart(p: State, s: State, r: State, e: ProcessEntry, via: Via)
    requires p.log == s.log && p.children == s.children
    ensures SpawnedNow(p, r, e, via) <==> SpawnedNow(s, r, e, via)
    ensures SpawnsOnly(p, r, via) <==> SpawnsOnly(s, r, via)
  {}

  lemma WithReaderSpawns(s: State, n: Name, source: Name, a: Attempt, via: Via, f: ProcessEntry)
    ensures var r := LaunchWithReader(s, n, source, a, via);
      && (SpawnedNow(s, r, f, via) <==> FindEntry(s.registry, n) == Some(f) && !Live(s.children, f.name) && Goes(s, f, a))
      && SpawnsOnly(s, r, via)
      && r.registry == s.registry && r.pending == s.pending
  {
    var e := FindEntry(s.registry, n);
    if e.Some? {
      var p := s.(channels := PreRegister(s.channels, n, source));
      PreRegisterGoes(s, n, source, e.value, a);
      LaunchSpawns(p, e.value, a, via, f);
      SameStart(p, s, LaunchChild(p, e.value, a, via).0, f, via);
      hide LaunchChild, PreRegister, Goes, FindChild, SpawnedNow, SpawnsOnly;
    }
  }

  lemma SpawnsTrans(s: State, m: State, r: State, via: Via, e: ProcessEntry)
    requires SpawnsOnly(s, m, via) && SpawnsOnly(m, r, via)
    ensures SpawnsOnly(s, r, via)
    ensures SpawnedNow(s, r, e, via) <==> SpawnedNow(s, m, e, via) || SpawnedNow(m, r, e, via)
  {
    assert m.log <= r.log && m.children <= r.children;
    if SpawnedNow(s, m, e, via) {
      var i :| |s.log| <= i < |m.log| && m.log[i].Spawned? && m.log[i].entry == e && m.log[i].via == via;
      assert r.log[i] == m.log[i];
    }
    if SpawnedNow(s, r, e, via) && !SpawnedNow(m, r, e, via) {
      var i :| |s.log| <= i < |r.log| && r.log[i].Spawned? && r.log[i].entry == e && r.log[i].via == via;
      assert i < |m.log| && m.log[i] == r.log[i];
    }
    forall i | |s.log| <= i < |r.log|
      ensures r.log[i].Spawned? && r.log[i].via == via && r.children[i - |s.log| + |s.children|].entry == r.log[i].entry
    {
      if i < |m.log| { assert r.log[i] == m.log[i]; }
    }
  }

  /** Whoever spawned runs, and nobody else is new. */
  lemma SpawnedLive(s: State, r: State, via: Via, n: Name)
    requires SpawnsOnly(s, r, via)
    ensures Live(r.children, n) <==> Live(s.children, n) || exists e: ProcessEntry :: e.name == n && SpawnedNow(s, r, e, via)
  {
    hide FindChild;
    LiveAt(s.children, n);
    LiveAt(r.children, n);
    assert forall j :: 0 <= j < |s.children| ==> r.children[j] == s.children[j];
    if Live(s.children, n) {
      var i :| 0 <= i < |s.children| && s.children[i].entry.name == n;
      assert r.children[i] == s.children[i];
    }
    if Live(r.children, n) && !Live(s.children, n) {
      var i :| 0 <= i < |r.children| && r.children[i].entry.name == n;
      assert i >= |s.children|;
      var k := i - |s.children| + |s.log|;
      assert r.log[k].entry == r.children[i].entry;
      assert SpawnedNow(s, r, r.children[i].entry, via);
    }
    if e: ProcessEntry :| e.name == n && SpawnedNow(s, r, e, via) {
      var i :| |s.log| <= i < |r.log| && r.log[i].Spawned? && r.log[i].entry == e && r.log[i].via == via;
      assert r.children[i - |s.log| + |s.children|].entry == e;
    }
  }

  // ----- a list of launches ---------------------------------------------------------------------

  /** What is launched before the turn of n. */
  function Before(names: seq<Name>, n: Name): seq<Name> {
    if names == [] || names[0] == n then [] else [names[0]] + Before(names[1..], n)
  }

  /** The state when the turn of n comes. */
  function Turn(s: State, names: seq<Name>, source: Name, attempts: map<Name, Attempt>, via: Via, n: Name): State {
    LaunchEach(s, Before(names, n), source, attempts, via)
  }

  function OneOf(s: State, m: Name, source: Name, attempts: map<Name, Attempt>, via: Via): State {
    if via.Startup? && Live(s.children, m) then s else LaunchWithReader(s, m, source, AttemptFor(attempts, m), via)
  }

  lemma OneSpawns(s: State, m: Name, source: Name, attempts: map<Name, Attempt>, via: Via, f: ProcessEntry)
    ensures var r := OneOf(s, m, source, attempts, via);
      && (SpawnedNow(s, r, f, via) <==>
           FindEntry(s.registry, m) == Some(f) && !Live(s.children, f.name) && Goes(s, f, AttemptFor(attempts, m)))
      && SpawnsOnly(s, r, via) && r.registry == s.registry && r.pending == s.pending
      && (f.name != m ==> Live(r.children, f.name) == Live(s.children, f.name))
  {
    WithReaderSpawns(s, m, source, AttemptFor(attempts, m), via, f);
    var r := OneOf(s, m, source, attempts, via);
    if !(via.Startup? && Live(s.children, m)) {
      SpawnedLive(s, r, via, f.name);
      forall e: ProcessEntry | e.name == f.name && SpawnedNow(s, r, e, via) ensures f.name == m {
        WithReaderSpawns(s, m, source, AttemptFor(attempts, m), via, e);
      }
    }
    hide LaunchWithReader, FindChild, FindEntry, Goes, SpawnedNow;
  }

  lemma {:induction false} LaunchEachSpawnsOnly(s: State, names: seq<Name>, source: Name, attempts: map<Name, Attempt>, via: Via)
    ensures var r := LaunchEach(s, names, source, attempts, via);
      SpawnsOnly(s, r, via) && r.registry == s.registry && r.pending == s.pending
    decreases |names|
  {
    if names != [] {
      var l := OneOf(s, names[0], source, attempts, via);
      var any := ProcessEntry("", Internal, RestartPolicy(false, 0), "");
      OneSpawns(s, names[0], source, attempts, via, any);
      hide OneOf;
      LaunchEachSpawnsOnly(l, names[1..], source, attempts, via);
      SpawnsTrans(s, l, LaunchEach(l, names[1..], source, attempts, via), via, any);
      hide SpawnsOnly, LaunchEach;
      EachUnfolds(s, names, source, attempts, via);
    }
  }

  lemma EachUnfolds(s: State, names: seq<Name>, source: Name, attempts: map<Name, Attempt>, via: Via)
    requires names != []
    ensures LaunchEach(s, names, source, attempts, via) ==
            LaunchEach(OneOf(s, names[0], source, attempts, via), names[1..], source, attempts, via)
  {
    hide LaunchWithReader;
  }

  /** A launch of another process leaves a channel's status and page size alone. */
  lemma OtherChannel(s: State, m: Name, source: Name, a: Attempt, via: Via, n: Name)
    requires m != n && n in s.channels
    ensures var r := LaunchWithReader(s, m, source, a, via).channels;
      && n in r && r[n].status == s.channels[n].status && r[n].lastPageSize == s.channels[n].lastPageSize
      && r[n].meta.Some? == s.channels[n].meta.Some?
  {
    var e := FindEntry(s.registry, m);
    if e.Some? { LaunchFrame(s.(channels := PreRegister(s.channels, m, source)), e.value, a, via); }
    hide LaunchChild, FindEntry, FindChild;
  }

  /** A refused channel stays refused while others are launched. */
  lemma OneKeepsRefused(s: State, m: Name, source: Name, attempts: map<Name, Attempt>, via: Via, n: Name, size: nat)
    requires CreateRejected(s, n, size) && m != n
    ensures CreateRejected(OneOf(s, m, source, attempts, via), n, size)
  {
    var r := OneOf(s, m, source, attempts, via);
    var b :| b in StrategiesBoundTo(s.registry, n) && Live(s.children, b);
    OtherChannel(s, m, source, AttemptFor(attempts, m), via, n);
    OneSpawns(s, m, source, attempts, via, ProcessEntry("", Internal, RestartPolicy(false, 0), ""));
    SpawnedLive(s, r, via, b);
    hide LaunchWithReader, FindChild, FindEntry, SpawnsOnly, SpawnedNow, Goes, StrategiesBoundTo;
  }

  lemma {:induction false} EachKeepsRefused(s: State, names: seq<Name>, source: Name, attempts: map<Name, Attempt>, via: Via,
                                            n: Name, size: nat)
    requires CreateRejected(s, n, size) && n !in names
    ensures CreateRejected(LaunchEach(s, names, source, attempts, via), n, size)
    decreases |names|
  {
    if names != [] {
      OneKeepsRefused(s, names[0], source, attempts, via, n, size);
      EachUnfolds(s, names, source, attempts, via);
      hide CreateRejected, OneOf, LaunchEach;
      EachKeepsRefused(OneOf(s, names[0], source, attempts, via), names[1..], source, attempts, via, n, size);
    }
  }

  lemma {:induction false} BeforeLacks(names: seq<Name>, n: Name)
    ensures n !in Before(names, n)
  {
    if names != [] && names[0] != n { BeforeLacks(names[1..], n); }
  }

  /** The turn of n after one launch of another. */
  lemma TurnUnfolds(s: State, names: seq<Name>, source: Name, attempts: map<Name, Attempt>, via: Via, n: Name)
    requires names != []
    ensures names[0] == n ==> Turn(s, names, source, attempts, via, n) == s
    ensures names[0] != n ==>
      Turn(s, names, source, attempts, via, n) == Turn(OneOf(s, names[0], source, attempts, via), names[1..], source, attempts, via, n)
  {
    if names[0] != n {
      var b := Before(names, n);
      assert b[1..] == Before(names[1..], n);
      EachUnfolds(s, b, source, attempts, via);
      hide OneOf, LaunchEach;
    }
  }

  /** Why an entry is launched from a list. */
  ghost predicate Launches(s: State, names: seq<Name>, source: Name, attempts: map<Name, Attempt>, via: Via, e: ProcessEntry) {
    && e.name in names && FindEntry(s.registry, e.name) == Some(e) && !Live(s.children, e.name)
    && Goes(Turn(s, names, source, attempts, via, e.name), e, AttemptFor(attempts, e.name))
  }

  /** Whoever did not spawn when its turn came does not spawn later in the list. */
  lemma NoLaterChance(s: State, names: seq<Name>, source: Name, attempts: map<Name, Attempt>, via: Via, e: ProcessEntry)
    requires names != [] && names[0] == e.name
    ensures !Launches(OneOf(s, names[0], source, attempts, via), names[1..], source, attempts, via, e)
  {
    var l := OneOf(s, names[0], source, attempts, via);
    var a := AttemptFor(attempts, e.name);
    OneSpawns(s, names[0], source, attempts, via, e);
    SpawnedLive(s, l, via, e.name);
    hide FindEntry, LaunchEach, FindChild, OneOf;
    if FindEntry(s.registry, e.name) == Some(e) && a.Spawns? && e.category.GatewayMd? && CreateRejected(s, e.name, a.pageSize) {
      RefusedHere(s, e, source, attempts, via);
      BeforeLacks(names[1..], e.name);
      EachKeepsRefused(l, Before(names[1..], e.name), source, attempts, via, e.name, a.pageSize);
    }
  }

  lemma RefusedHere(s: State, e: ProcessEntry, source: Name, attempts: map<Name, Attempt>, via: Via)
    requires FindEntry(s.registry, e.name) == Some(e) && e.category.GatewayMd? && AttemptFor(attempts, e.name).Spawns?
    requires CreateRejected(s, e.name, AttemptFor(attempts, e.name).pageSize)
    ensures CreateRejected(OneOf(s, e.name, source, attempts, via), e.name, AttemptFor(attempts, e.name).pageSize)
  {
    var p := s.(channels := PreRegister(s.channels, e.name, source));
    LaunchFrame(p, e, AttemptFor(attempts, e.name), via);
    hide LaunchChild, FindChild, FindEntry, StrategiesBoundTo;
  }

  lemma {:induction false} LaunchEachSpawns(s: State, names: seq<Name>, source: Name, attempts: map<Name, Attempt>, via: Via,
                                            e: ProcessEntry)
    ensures SpawnedNow(s, LaunchEach(s, names, source, attempts, via), e, via) <==> Launches(s, names, source, attempts, via, e)
    decreases |names|
  {
    if names != [] {
      var l := OneOf(s, names[0], source, attempts, via);
      OneSpawns(s, names[0], source, attempts, via, e);
      EachUnfolds(s, names, source, attempts, via);
      TurnUnfolds(s, names, source, attempts, via, e.name);
      LaunchEachSpawns(l, names[1..], source, attempts, via, e);
      LaunchEachSpawnsOnly(l, names[1..], source, attempts, via);
      SpawnsTrans(s, l, LaunchEach(s, names, source, attempts, via), via, e);
      if names[0] == e.name { NoLaterChance(s, names, source, attempts, via, e); }
      assert e.name in names <==> e.name == names[0] || e.name in names[1..];
      hide OneOf, LaunchEach, Turn, Goes, FindEntry, FindChild, SpawnsOnly, SpawnedNow;
    }
  }

  /** A readiness timer that is new is that of a process that was launched. */
  lemma OneArms(s: State, m: Name, source: Name, attempts: map<Name, Attempt>, via: Via, c: Name)
    ensures var r := OneOf(s, m, source, attempts, via);
      && (ReadySlot(c) in r.tm.slots ==> ReadySlot(c) in s.tm.slots || (Live(r.children, c) && !Live(s.children, c)))
      && (Live(s.children, c) ==> Live(r.children, c))
  {
    var e, a := FindEntry(s.registry, m), AttemptFor(attempts, m);
    if e.Some? && !(via.Startup? && Live(s.children, m)) {
      var p := s.(channels := PreRegister(s.channels, m, source));
      LaunchArms(p, e.value, a, via, c);
      hide LaunchChild, PreRegister, FindChild;
    }
  }

  lemma LaunchArms(s: State, e: ProcessEntry, a: Attempt, via: Via, c: Name)
    ensures var r := LaunchChild(s, e, a, via).0;
      && (ReadySlot(c) in r.tm.slots ==> ReadySlot(c) in s.tm.slots || (Live(r.children, c) && !Live(s.children, c)))
      && (Live(s.children, c) ==> Live(r.children, c))
  {
    LaunchFrame(s, e, a, via);
    var r := LaunchChild(s, e, a, via).0;
    if r.children != s.children { LiveAppend(s.children, r.children[|s.children|], c); }
    hide FindChild, CreateRejected, CreateMdChannel;
  }

  lemma {:induction false} EachArms(s: State, names: seq<Name>, source: Name, attempts: map<Name, Attempt>, via: Via, c: Name)
    requires ReadySlot(c) !in s.tm.slots || Live(s.children, c)
    ensures var r := LaunchEach(s, names, source, attempts, via);
      && (Live(s.children, c) ==> Live(r.children, c))
      && (ReadySlot(c) in r.tm.slots ==> Live(r.children, c) && (!Live(s.children, c) || ReadySlot(c) in s.tm.slots))
    decreases |names|
  {
    if names != [] {
      OneArms(s, names[0], source, attempts, via, c);
      EachUnfolds(s, names, source, attempts, via);
      hide OneOf, LaunchEach, FindChild;
      EachArms(OneOf(s, names[0], source, attempts, via), names[1..], source, attempts, via, c);
    }
  }

  /** These events are spawns of the members of the list at these positions, in list order. */
  ghost predicate InListOrder(events: seq<Event>, names: seq<Name>, at: seq<nat>) {
    && |at| == |events|
    && (forall i :: 0 <= i < |at| ==> at[i] < |names| && events[i].Spawned? && events[i].entry.name == names[at[i]])
    && (forall i, j :: 0 <= i < j < |at| ==> at[i] < at[j])
  }

  /** What r logged after s. */
  function NewEvents(s: State, r: State): seq<Event> { if s.log <= r.log then r.log[|s.log|..] else [] }

  lemma OneInOrder(s: State, m: Name, source: Name, attempts: map<Name, Attempt>, via: Via)
    ensures var r := OneOf(s, m, source, attempts, via);
      && s.log <= r.log
      && (NewEvents(s, r) == [] || (|NewEvents(s, r)| == 1 && NewEvents(s, r)[0].Spawned? && NewEvents(s, r)[0].entry.name == m))
  {
    var e := FindEntry(s.registry, m);
    if e.Some? { LaunchFrame(s.(channels := PreRegister(s.channels, m, source)), e.value, AttemptFor(attempts, m), via); }
    hide LaunchChild, FindChild;
  }

  lemma Shifted(events: seq<Event>, names: seq<Name>, rest: seq<nat>) returns (at: seq<nat>)
    requires names != [] && InListOrder(events, names[1..], rest)
    ensures InListOrder(events, names, at) && forall i :: 0 <= i < |at| ==> at[i] > 0
  {
    at := seq(|rest|, i requires 0 <= i < |rest| => rest[i] + 1);
    assert forall i :: 0 <= i < |rest| ==> names[1..][rest[i]] == names[rest[i] + 1];
  }

  lemma FirstInOrder(e: Event, events: seq<Event>, names: seq<Name>, at: seq<nat>)
    requires names != [] && e.Spawned? && e.entry.name == names[0]
    requires InListOrder(events, names, at) && forall i :: 0 <= i < |at| ==> at[i] > 0
    ensures InListOrder([e] + events, names, [0] + at)
  {
    var all, ps := [e] + events, [0] + at;
    assert all[0] == e && ps[0] == 0;
    forall i | 0 < i < |ps| ensures ps[i] == at[i - 1] && all[i] == events[i - 1] {}
  }

  lemma {:induction false} EachInOrder(s: State, names: seq<Name>, source: Name, attempts: map<Name, Attempt>, via: Via)
    returns (at: seq<nat>)
    ensures var r := LaunchEach(s, names, source, attempts, via); s.log <= r.log && InListOrder(NewEvents(s, r), names, at)
    decreases |names|
  {
    if names == [] {
      at := [];
    } else {
      var l := OneOf(s, names[0], source, attempts, via);
      OneInOrder(s, names[0], source, attempts, via);
      EachUnfolds(s, names, source, attempts, via);
      hide OneOf, LaunchEach, InListOrder, NewEvents;
      var rest := EachInOrder(l, names[1..], source, attempts, via);
      var r := LaunchEach(s, names, source, attempts, via);
      EventsSplit(s, l, r);
      at := OrderCons(NewEvents(s, l), NewEvents(l, r), names, rest);
    }
  }

  lemma EventsSplit(s: State, l: State, r: State)
    requires s.log <= l.log <= r.log
    ensures s.log <= r.log && NewEvents(s, r) == NewEvents(s, l) + NewEvents(l, r)
  {}

  lemma OrderCons(first: seq<Event>, events: seq<Event>, names: seq<Name>, rest: seq<nat>) returns (at: seq<nat>)
    requires names != [] && InListOrder(events, names[1..], rest)
    requires first == [] || (|first| == 1 && first[0].Spawned? && first[0].entry.name == names[0])
    ensures InListOrder(first + events, names, at)
  {
    at := Shifted(events, names, rest);
    if first == [] {
      assert first + events == events;
    } else {
      assert first == [first[0]];
      FirstInOrder(first[0], events, names, at);
      at := [0] + at;
    }
    hide InListOrder;
  }

  /** The strategies of a source in the order of the registry: these are their positions. */
  lemma {:induction false} BoundInOrder(es: seq<ProcessEntry>, source: Name) returns (at: seq<nat>)
    ensures |at| == |StrategiesBoundTo(es, source)|
    ensures forall i :: 0 <= i < |at| ==> at[i] < |es| && StrategiesBoundTo(es, source)[i] == es[at[i]].name
    ensures forall i, j :: 0 <= i < j < |at| ==> at[i] < at[j]
  {
    if es == [] {
      at := [];
    } else {
      var rest := BoundInOrder(es[1..], source);
      var shifted := seq(|rest|, i requires 0 <= i < |rest| => rest[i] + 1);
      at := if BoundTo(es[0], source) then [0] + shifted else shifted;
      assert forall i :: 0 <= i < |rest| ==> es[1..][rest[i]] == es[rest[i] + 1];
    }
  }

  /** Start-up launches the strategies of a ready source in that order. */
  lemma PromotedInOrder(s: State, c: Name, attempts: map<Name, Attempt>) returns (at: seq<nat>)
    ensures InListOrder(NewEvents(s, Next(s, StartupPromoteStep(c, attempts))), StrategiesBoundTo(s.registry, c), at)
  {
    if s.shuttingDown || c == "" || !SourceReady(s.channels, c) {
      at := [];
    } else {
      at := EachInOrder(s, StrategiesBoundTo(s.registry, c), c, attempts, Startup);
      hide LaunchEach;
    }
  }

  /** Those who waited are launched in the order in which they wait. */
  lemma StartedInOrder(s: State, c: Name, attempts: map<Name, Attempt>) returns (at: seq<nat>)
    ensures InListOrder(NewEvents(s, Next(s, MdStartedStep(c, attempts))), Get(s.pending, c, []), at)
  {
    if Accepted(s, c) {
      var d := s.(channels := s.channels[c := s.channels[c].(ready := true)], tm := Drop(s.tm, ReadySlot(c)),
                  pending := s.pending - {c});
      StartedIs(s, c, attempts);
      at := EachInOrder(d, Get(s.pending, c, []), c, attempts, LateReady);
      hide Next, LaunchEach, Drop;
    } else {
      at := [];
    }
  }

  // ----- the steps that launch ----------------------------------------------------------------------

  /** For a strategy the turn does not matter: its attempt spawns or not. */
  lemma StrategyGoes(s: State, e: ProcessEntry, a: Attempt)
    requires !e.category.GatewayMd?
    ensures Goes(s, e, a) <==> a.Spawns?
  {}

  /** The state of this step when the turn of n comes: the same frame with the list up to n. */
  function StartedTurn(s: State, c: Name, attempts: map<Name, Attempt>, n: Name): State {
    Next(s.(pending := s.pending[c := Before(Get(s.pending, c, []), n)]), MdStartedStep(c, attempts))
  }

  predicate Accepted(s: State, c: Name) {
    c in s.channels && s.channels[c].meta.Some? && s.channels[c].status.MdRunning?
  }

  /** An accepted STARTED of source c launches exactly those who waited for c, are registered, do
      not run and can spawn; nobody waits for c afterwards, and its watchdog is gone. A frame
      that is not accepted changes nothing. */
  lemma StartedLaunchesExactly(s: State, c: Name, attempts: map<Name, Attempt>, e: ProcessEntry)
    ensures var r := Next(s, MdStartedStep(c, attempts));
      if !Accepted(s, c) then r == s
      else
        && (SpawnedNow(s, r, e, LateReady) <==>
             && c in s.pending && e.name in s.pending[c]
             && FindEntry(s.registry, e.name) == Some(e) && !Live(s.children, e.name)
             && Goes(StartedTurn(s, c, attempts, e.name), e, AttemptFor(attempts, e.name)))
        && SpawnsOnly(s, r, LateReady)
        && r.pending == s.pending - {c}
        && (ReadySlot(c) in r.tm.slots ==> Live(r.children, c) && !Live(s.children, c))
  {
    if Accepted(s, c) {
      var d := s.(channels := s.channels[c := s.channels[c].(ready := true)], tm := Drop(s.tm, ReadySlot(c)),
                  pending := s.pending - {c});
      var names := Get(s.pending, c, []);
      StartedIs(s, c, attempts);
      StartedIs(s.(pending := s.pending[c := Before(names, e.name)]), c, attempts);
      assert s.pending[c := Before(names, e.name)] - {c} == s.pending - {c};
      LaunchEachSpawns(d, names, c, attempts, LateReady, e);
      LaunchEachSpawnsOnly(d, names, c, attempts, LateReady);
      assert ReadySlot(c) !in d.tm.slots;
      EachArms(d, names, c, attempts, LateReady, c);
      hide Next, LaunchEach, Goes, FindEntry, FindChild, Drop, Before;
    }
  }

  lemma StartedIs(s: State, c: Name, attempts: map<Name, Attempt>)
    requires Accepted(s, c)
    ensures var d := s.(channels := s.channels[c := s.channels[c].(ready := true)], tm := Drop(s.tm, ReadySlot(c)),
                        pending := s.pending - {c});
      Next(s, MdStartedStep(c, attempts)) == LaunchEach(d, Get(s.pending, c, []), c, attempts, LateReady)
  {
    if c !in s.pending { assert s.pending - {c} == s.pending; }
    hide Drop, LaunchWithReader;
  }

  /** Start-up, finding a source ready, launches exactly the registered strategies bound to it
      that do not run, each as the entry its name finds, if they can spawn. */
  lemma PromoteLaunchesExactly(s: State, c: Name, attempts: map<Name, Attempt>, e: ProcessEntry)
    ensures var r := Next(s, StartupPromoteStep(c, attempts));
      if s.shuttingDown || c == "" || !SourceReady(s.channels, c) then r == s
      else
        && (SpawnedNow(s, r, e, Startup) <==>
             && (exists b :: b in s.registry && b.category.Strategy? && b.mdSource == c && b.name == e.name)
             && FindEntry(s.registry, e.name) == Some(e) && !Live(s.children, e.name)
             && Goes(Turn(s, StrategiesBoundTo(s.registry, c), c, attempts, Startup, e.name), e, AttemptFor(attempts, e.name)))
        && SpawnsOnly(s, r, Startup)
        && r.pending == s.pending
  {
    assert (exists b :: b in s.registry && BoundTo(b, c) && b.name == e.name) <==>
           (exists b :: b in s.registry && b.category.Strategy? && b.mdSource == c && b.name == e.name) by {
      if b :| b in s.registry && b.category.Strategy? && b.mdSource == c && b.name == e.name { assert BoundTo(b, c); }
    }
    LaunchEachSpawns(s, StrategiesBoundTo(s.registry, c), c, attempts, Startup, e);
    LaunchEachSpawnsOnly(s, StrategiesBoundTo(s.registry, c), c, attempts, Startup);
    hide LaunchEach, Goes, FindEntry, FindChild, Turn, SpawnsOnly, SpawnedNow;
  }

  /** Start-up launches an entry on its own unless it is a strategy with a source. */
  lemma StartupLaunchesExactly(s: State, entry: ProcessEntry, a: Attempt, e: ProcessEntry)
    ensures var r := Next(s, StartupLaunchStep(entry, a));
      && (SpawnedNow(s, r, e, Startup) <==>
           && e == entry && !s.shuttingDown && e in s.registry && !(e.category.Strategy? && e.mdSource != "")
           && !Live(s.children, e.name) && Goes(s, e, a))
      && SpawnsOnly(s, r, Startup)
  {
    LaunchSpawns(s, entry, a, Startup, e);
    hide LaunchChild, Goes, FindChild;
  }

  /** What a start request for this name would launch: the entry registered under it, or the
      gateway the scan found. */
  function Asked(s: State, target: Name, scanned: Option<ProcessEntry>): Option<ProcessEntry> {
    if FindEntry(s.registry, target).Some? then FindEntry(s.registry, target)
    else if scanned.Some? && IsGateway(scanned.value) && scanned.value.name == target then scanned
    else None
  }

  /** The list with n behind the others, unless it is there already. */
  function Appended(names: seq<Name>, n: Name): seq<Name> { if n in names then names else names + [n] }

  lemma RegisteredLaunches(s: State, x: ProcessEntry, a: Attempt, e: ProcessEntry)
    ensures var r := LaunchRegistered(s, x, a);
      && (SpawnedNow(s, r, e, Request) <==>
           && e == x && !Live(s.children, x.name) && Goes(s, x, a)
           && (x.category.Strategy? && x.mdSource != "" ==> SourceReady(s.channels, x.mdSource)))
      && SpawnsOnly(s, r, Request)
      && (forall c :: c in s.pending ==> c in r.pending && s.pending[c] <= r.pending[c])
      && (x.category.Strategy? && x.mdSource != "" && !SourceReady(s.channels, x.mdSource)
          ==> r.pending == s.pending[x.mdSource := Appended(Get(s.pending, x.mdSource, []), x.name)])
  {
    var p := s.(channels := PreRegister(s.channels, x.name, x.mdSource));
    LaunchSpawns(s, x, a, Request, e);
    LaunchSpawns(p, x, a, Request, e);
    PreRegisterGoes(s, x.name, x.mdSource, x, a);
    hide LaunchChild, Goes, PreRegister, FindChild, SourceReady;
  }

  /** A start request launches exactly what it asks for, if that does not run and can spawn and,
      for a strategy with a source, the source is ready. */
  lemma RequestLaunchesExactly(s: State, target: Name, scanned: Option<ProcessEntry>, a: Attempt, e: ProcessEntry)
    ensures var r := Next(s, StartStep(target, scanned, a));
      && (SpawnedNow(s, r, e, Request) <==>
           && !s.shuttingDown && Asked(s, target, scanned) == Some(e) && !Live(s.children, e.name)
           && (e.category.Strategy? && e.mdSource != "" ==> SourceReady(s.channels, e.mdSource))
           && Goes(s, e, a))
      && SpawnsOnly(s, r, Request)
  {
    var x := Asked(s, target, scanned);
    StartIs(s, target, scanned, a);
    assert SpawnsOnly(s, s, Request) && !SpawnedNow(s, s, e, Request);
    if x.Some? {
      var r := if FindEntry(s.registry, target).None? then s.(registry := s.registry + [x.value]) else s;
      RegisteredLaunches(r, x.value, a, e);
      RegisteredGoes(s, r, x.value, a);
      SameStart(r, s, r, e, Request);
      SameStart(r, s, LaunchRegistered(r, x.value, a), e, Request);
      assert SpawnsOnly(r, r, Request) && !SpawnedNow(r, r, e, Request);
      hide LaunchRegistered, Goes, FindChild, FindEntry, Next, SourceReady, Asked, SpawnedNow, SpawnsOnly;
    }
  }

  /** If the source of the strategy is not ready, the strategy waits for it behind the others, once;
      who waits already keeps its place. */
  lemma RequestWaits(s: State, target: Name, scanned: Option<ProcessEntry>, a: Attempt, e: ProcessEntry)
    ensures var r := Next(s, StartStep(target, scanned, a));
      && (!s.shuttingDown && Asked(s, target, scanned) == Some(e) && !Live(s.children, e.name)
          && e.category.Strategy? && e.mdSource != "" && !SourceReady(s.channels, e.mdSource)
          ==> r.pending == s.pending[e.mdSource := Appended(Get(s.pending, e.mdSource, []), e.name)])
      && (forall c :: c in s.pending ==> c in r.pending && s.pending[c] <= r.pending[c])
  {
    var x := Asked(s, target, scanned);
    StartIs(s, target, scanned, a);
    if x.Some? {
      var r := if FindEntry(s.registry, target).None? then s.(registry := s.registry + [x.value]) else s;
      RegisteredLaunches(r, x.value, a, e);
      hide LaunchRegistered, Goes, FindChild, FindEntry, Next, SourceReady, Asked, SpawnedNow, SpawnsOnly;
    }
  }

  lemma StartIs(s: State, target: Name, scanned: Option<ProcessEntry>, a: Attempt)
    ensures var x, r := Asked(s, target, scanned), Next(s, StartStep(target, scanned, a));
      if s.shuttingDown || x.None? then r == s
      else
        var d := if FindEntry(s.registry, target).None? then s.(registry := s.registry + [x.value]) else s;
        x.value.name == target && r == if Live(s.children, target) then d else LaunchRegistered(d, x.value, a)
  {
    hide LaunchRegistered, FindEntry, FindChild;
  }

  /** A gateway that is registered now binds no strategy. */
  lemma RegisteredGoes(s: State, r: State, e: ProcessEntry, a: Attempt)
    requires r == s || (r == s.(registry := s.registry + [e]) && !e.category.Strategy?)
    ensures Goes(r, e, a) <==> Goes(s, e, a)
  {
    forall n ensures n in StrategiesBoundTo(r.registry, e.name) <==> n in StrategiesBoundTo(s.registry, e.name) {
      if b :| b in r.registry && BoundTo(b, e.name) && b.name == n { assert b in s.registry; }
    }
    hide FindChild, StrategiesBoundTo;
  }

  /** Start-up, finding a source not ready, leaves no strategy of it behind: each runs or waits. */
  lemma {:induction false} ParkEachWaits(s: State, source: Name, names: seq<Name>, n: Name)
    ensures var r := ParkEach(s, source, names);
      && r.children == s.children
      && (n in Get(r.pending, source, []) <==> n in Get(s.pending, source, []) || (n in names && !Live(s.children, n)))
    decreases |names|
  {
    if names != [] {
      var m := names[0];
      ParkEachWaits(if Live(s.children, m) then s else Park(s, source, m), source, names[1..], n);
      assert n in names <==> n == m || n in names[1..];
      hide FindChild;
    }
  }

  lemma ParkedWait(s: State, c: Name, b: ProcessEntry)
    requires !s.shuttingDown && c != "" && !SourceReady(s.channels, c)
    requires b in s.registry && b.category.Strategy? && b.mdSource == c
    ensures var r := Next(s, StartupParkStep(c));
      Live(r.children, b.name) || (c in r.pending && b.name in r.pending[c])
  {
    assert BoundTo(b, c);
    ParkEachWaits(s, c, StrategiesBoundTo(s.registry, c), b.name);
    hide ParkEach, FindChild;
  }

  /** An expired restart timer, when its handler runs, launches exactly the entry it was armed
      with, outside a shutdown, if that does not run and can spawn; the count it was armed with
      is then the count. */
  lemma RestartLaunchesExactly(s: State, t: nat, a: Attempt, e: ProcessEntry)
    ensures var r := Next(s, TimerStep(t, a));
      && (SpawnedNow(s, r, e, Restart) <==>
           && t in s.tm.waits && s.tm.waits[t].wait.Expired? && s.tm.waits[t].handler.RestartWait?
           && s.tm.waits[t].handler.entry == e && !s.shuttingDown && !Live(s.children, e.name) && Goes(s, e, a))
      && (SpawnedNow(s, r, e, Restart) ==> Get(r.restartCounts, s.tm.waits[t].handler.name, 0) == s.tm.waits[t].handler.count)
  {
    if t in s.tm.waits && s.tm.waits[t].wait.Expired? && s.tm.waits[t].handler.RestartWait? {
      var h := s.tm.waits[t].handler;
      var d := s.(tm := Drop(Taken(s.tm, t), RestartSlot(h.name)));
      LaunchSpawns(d, h.entry, a, Restart, e);
      assert Goes(d, e, a) <==> Goes(s, e, a);
      SameStart(d, s, Next(s, TimerStep(t, a)), e, Restart);
      hide LaunchChild, Goes, Drop, FindChild, OnStopTimer, OnReadyTimer;
    } else {
      OtherTimerSpawnsNone(s, t, a);
      hide RunTimer;
    }
  }

  lemma {:induction false} KillsSpawnNone(s: State, names: seq<Name>, killer: Killer)
    ensures var r := KillEach(s, names, killer); s.log <= r.log && forall i :: |s.log| <= i < |r.log| ==> !r.log[i].Spawned?
    decreases |names|
  {
    if names != [] {
      var c := FindChild(s.children, names[0]);
      KillsSpawnNone(if c.Some? then ForceKill(s, c.value, killer) else s, names[1..], killer);
    }
  }

  ghost predicate SpawnsNone(s: State, r: State) { forall i :: |s.log| <= i < |r.log| ==> !r.log[i].Spawned? }

  lemma HandlersSpawnNone(s: State, h: Handler)
    ensures h.StopWait? ==> SpawnsNone(s, OnStopTimer(s, h))
    ensures h.ReadyWait? ==> SpawnsNone(s, OnReadyTimer(s, h.source))
  {
    hide Drop, MarkStopping, FindChild, ChildById, StrategiesBoundTo, AnyLive;
  }

  lemma OtherTimerSpawnsNone(s: State, t: nat, a: Attempt)
    requires !(t in s.tm.waits && s.tm.waits[t].wait.Expired? && s.tm.waits[t].handler.RestartWait?)
    ensures SpawnsNone(s, RunTimer(s, t, a))
  {
    if t in s.tm.waits {
      var h := s.tm.waits[t].handler;
      var d := s.(tm := Taken(s.tm, t));
      HandlersSpawnNone(d, h);
      if h.BatchWait? && h.armedIndex < |s.batches| { KillsSpawnNone(d, s.batches[h.armedIndex], BatchTimer(h.armedIndex)); }
    }
    hide KillEach, Drop, OnRestartTimer, OnStopTimer, OnReadyTimer;
  }
}
