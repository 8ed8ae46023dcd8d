/** Shutdown over every run: dependents stop first, nothing is launched any more, a batch
    timer kills only its own batch, and the shutdown completes exactly once. */
module ShutdownOrder {
  import opened Basics
  import opened MasterTypes
  import opened MasterSteps
  import opened MasterInvariants
  import opened ShutdownBatches

  // ----- what the log says ---------------------------------------------------------

  ghost predicate Begun(log: seq<Event>) { exists e :: e in log && e.ShutdownBegun? }

  /** The events after shutdown began. */
  function Since(log: seq<Event>): seq<Event> {
    if log == [] then [] else if log[0].ShutdownBegun? then log[1..] else Since(log[1..])
  }

  predicate NotCompleted(log: seq<Event>) { forall e :: e in log ==> !e.Completed? }

  /** Nothing completed before shutdown began. */
  predicate CleanStart(log: seq<Event>) {
    |Since(log)| <= |log| && NotCompleted(log[..|log| - |Since(log)|])
  }

  lemma {:induction false} SinceIsSuffix(log: seq<Event>)
    ensures |Since(log)| <= |log| && log[|log| - |Since(log)|..] == Since(log)
  {
    if log != [] && !log[0].ShutdownBegun? {
      SinceIsSuffix(log[1..]);
    }
  }

  lemma {:induction false} SinceAppend(log: seq<Event>, more: seq<Event>)
    requires Begun(log)
    ensures Begun(log + more) && Since(log + more) == Since(log) + more
    ensures CleanStart(log) ==> CleanStart(log + more)
  {
    assert (log + more)[0] == log[0];
    assert (log + more)[1..] == log[1..] + more;
    if !log[0].ShutdownBegun? { SinceAppend(log[1..], more); }
    assert forall e :: e in log ==> e in log + more;
    SinceIsSuffix(log);
    assert (log + more)[..|log| - |Since(log)|] == log[..|log| - |Since(log)|];
  }

  lemma {:induction false} SinceBegin(log: seq<Event>, batches: seq<seq<Name>>)
    requires !Begun(log)
    ensures var l := log + [ShutdownBegun(batches)];
      Begun(l) && Since(l) == [] && (NotCompleted(log) ==> CleanStart(l))
  {
    var l := log + [ShutdownBegun(batches)];
    assert l[|log|] in l;
    if log != [] {
      assert log[0] in log;
      assert !Begun(log[1..]);
      SinceBegin(log[1..], batches);
      assert l[1..] == log[1..] + [ShutdownBegun(batches)];
    }
    assert l[..|l|] == l;
  }

  ghost predicate HasExited(log: seq<Event>, n: Name) {
    exists i :: 0 <= i < |log| && log[i].Exited? && log[i].name == n
  }

  /** Every member of every batch before k has exited. */
  ghost predicate EarlierExited(batches: seq<seq<Name>>, k: int, log: seq<Event>) {
    forall j, m :: 0 <= j < k && InBatch(batches, j, m) ==> HasExited(log, m)
  }

  /** What an event of a shutdown needs the events before it to be. */
  ghost predicate InOrder(batches: seq<seq<Name>>, before: seq<Event>, e: Event) {
    match e
    case Spawned(_, _, _, _) => false
    case ShutdownBegun(_) => false
    case ShutdownSent(n) => exists k :: InBatch(batches, k, n) && EarlierExited(batches, k, before)
    case Terminated(n, BatchTimer(k)) => InBatch(batches, k, n) && EarlierExited(batches, k, before)
    case Completed => EarlierExited(batches, |batches|, before) && NotCompleted(before)
    case _ => true
  }

  ghost predicate Orderly(batches: seq<seq<Name>>, log: seq<Event>) {
    forall p :: 0 <= p < |log| ==> InOrder(batches, log[..p], log[p])
  }

  lemma ExitedGrows(batches: seq<seq<Name>>, k: int, log: seq<Event>, more: seq<Event>)
    requires EarlierExited(batches, k, log)
    ensures EarlierExited(batches, k, log + more)
  {
    forall j, m | 0 <= j < k && InBatch(batches, j, m) ensures HasExited(log + more, m) {
      var i :| 0 <= i < |log| && log[i].Exited? && log[i].name == m;
      assert (log + more)[i] == log[i];
    }
  }

  lemma OrderlyAppend(batches: seq<seq<Name>>, log: seq<Event>, more: seq<Event>)
    requires Orderly(batches, log)
    requires forall i :: 0 <= i < |more| ==> InOrder(batches, log + more[..i], more[i])
    ensures Orderly(batches, log + more)
  {
    var all := log + more;
    forall p | 0 <= p < |all| ensures InOrder(batches, all[..p], all[p]) {
      if p < |log| {
        assert all[..p] == log[..p];
      } else {
        assert all[..p] == log + more[..p - |log|];
      }
    }
  }

  // ----- the invariant -------------------------------------------------------------

  /** The timer of batch k is still to run, or it ran and every live member of the batch was
      told to terminate. */
  ghost predicate Guarded(tm: Timers, cs: seq<Child>, bs: seq<seq<Name>>, k: nat) {
    && BatchSlot in tm.slots
    && if tm.slots[BatchSlot] in tm.waits then tm.waits[tm.slots[BatchSlot]].handler == BatchWait(k)
       else forall c :: c in cs && InBatch(bs, k, c.entry.name) ==> c.state.ChildStopping?
  }

  predicate HasCompleted(log: seq<Event>) { exists e :: e in log && e.Completed? }

  /** Either the shutdown is over, or the current batch has a live member and is guarded. */
  ghost predicate Progressing(tm: Timers, cs: seq<Child>, bs: seq<seq<Name>>, k: nat, log: seq<Event>) {
    if k == |bs| then cs == [] && HasCompleted(log)
    else k < |bs| && AnyLive(cs, bs[k]) && NotCompleted(log) && Guarded(tm, cs, bs, k)
  }

  ghost predicate Remaining(cs: seq<Child>, bs: seq<seq<Name>>, k: nat) {
    forall c :: c in cs ==> exists j :: k <= j && InBatch(bs, j, c.entry.name)
  }

  ghost predicate Accounted(cs: seq<Child>, bs: seq<seq<Name>>, log: seq<Event>) {
    forall k, n :: InBatch(bs, k, n) ==> Live(cs, n) || HasExited(log, n)
  }

  ghost predicate ShuttingOk(s: State) {
    && Begun(s.log) && CleanStart(s.log)
    && s.batchIndex <= |s.batches|
    && s.pending == map[]
    && Orderly(s.batches, Since(s.log))
    && EarlierExited(s.batches, s.batchIndex, Since(s.log))
    && Remaining(s.children, s.batches, s.batchIndex)
    && Accounted(s.children, s.batches, Since(s.log))
  }

  ghost predicate ShutdownOk(s: State) {
    if s.shuttingDown then ShuttingOk(s) && Progressing(s.tm, s.children, s.batches, s.batchIndex, Since(s.log))
    else !Begun(s.log) && NotCompleted(s.log)
  }

  // ----- steps other than exits ------------------------------------------------------

  /** A kill the shutdown invariant allows in state s. */
  predicate AllowedKill(s: State, e: Event) {
    e.Terminated? && (e.killer.BatchTimer? ==> e.killer.armedIndex == s.batchIndex && InBatch(s.batches, s.batchIndex, e.name))
  }

  /** r differs from s only in kills and in data the shutdown does not depend on. */
  ghost predicate Calm(s: State, r: State) {
    && r.shuttingDown && r.batches == s.batches && r.batchIndex == s.batchIndex && r.pending == s.pending
    && (forall n :: Live(r.children, n) == Live(s.children, n))
    && s.log <= r.log
    && (forall i :: |s.log| <= i < |r.log| ==> AllowedKill(s, r.log[i]))
  }

  ghost predicate GuardedNow(s: State) { Guarded(s.tm, s.children, s.batches, s.batchIndex) }

  ghost predicate StillGuarded(s: State, r: State) {
    s.batchIndex < |s.batches| && GuardedNow(s) ==> GuardedNow(r)
  }

  lemma LiveHead(cs: seq<Child>)
    ensures cs == [] || (cs[0] in cs && Live(cs, cs[0].entry.name))
  {}

  lemma AccountedGrows(cs: seq<Child>, bs: seq<seq<Name>>, log: seq<Event>, more: seq<Event>)
    requires Accounted(cs, bs, log)
    ensures Accounted(cs, bs, log + more)
  {
    forall k, n | InBatch(bs, k, n) ensures Live(cs, n) || HasExited(log + more, n) {
      if !Live(cs, n) {
        var i :| 0 <= i < |log| && log[i].Exited? && log[i].name == n;
        assert (log + more)[i] == log[i];
      }
    }
  }

  /** Orderly events after a shutdown state keep its invariant. */
  lemma AppendOk(s: State, more: seq<Event>)
    requires ShuttingOk(s)
    requires forall i :: 0 <= i < |more| ==> InOrder(s.batches, Since(s.log) + more[..i], more[i])
    ensures ShuttingOk(s.(log := s.log + more)) && Since(s.log + more) == Since(s.log) + more
  {
    hide CleanStart, Since, InOrder;
    SinceAppend(s.log, more);
    OrderlyAppend(s.batches, Since(s.log), more);
    ExitedGrows(s.batches, s.batchIndex, Since(s.log), more);
    AccountedGrows(s.children, s.batches, Since(s.log), more);
  }

  lemma RemainingSub(cs: seq<Child>, ds: seq<Child>, bs: seq<seq<Name>>, k: nat)
    requires Remaining(cs, bs, k) && forall d :: d in ds ==> Live(cs, d.entry.name)
    ensures Remaining(ds, bs, k)
  {
    forall d | d in ds ensures exists j :: k <= j && InBatch(bs, j, d.entry.name) {
      var c := FindChild(cs, d.entry.name).value;
      var j :| k <= j && InBatch(bs, j, c.entry.name);
    }
  }

  lemma ProgressSame(s: State, r: State, log: seq<Event>, more: seq<Event>)
    requires Calm(s, r) && StillGuarded(s, r) && NotCompleted(more)
    requires Progressing(s.tm, s.children, s.batches, s.batchIndex, log)
    ensures Progressing(r.tm, r.children, r.batches, r.batchIndex, log + more)
  {
    if s.batchIndex == |s.batches| {
      LiveHead(r.children);
      var e :| e in log && e.Completed?;
      assert e in log + more;
    } else {
      var n :| n in s.batches[s.batchIndex] && Live(s.children, n);
      assert Live(r.children, n);
    }
  }

  lemma CalmKeeps(s: State, r: State)
    requires s.shuttingDown && ShutdownOk(s) && Calm(s, r) && StillGuarded(s, r)
    ensures ShutdownOk(r)
  {
    var more := r.log[|s.log|..];
    assert r.log == s.log + more;
    forall i | 0 <= i < |more| ensures InOrder(s.batches, Since(s.log) + more[..i], more[i]) {
      assert AllowedKill(s, r.log[|s.log| + i]);
      ExitedGrows(s.batches, s.batchIndex, Since(s.log), more[..i]);
    }
    AppendOk(s, more);
    forall e | e in more ensures !e.Completed? {
      var i :| 0 <= i < |more| && more[i] == e;
      assert AllowedKill(s, r.log[|s.log| + i]);
    }
    ProgressSame(s, r, Since(s.log), more);
    LiveEach(r.children);
    RemainingSub(s.children, r.children, s.batches, s.batchIndex);
    hide Since, CleanStart, Orderly, EarlierExited, Progressing, Remaining;
  }

  lemma LiveEach(cs: seq<Child>)
    ensures forall c :: c in cs ==> Live(cs, c.entry.name)
  {}

  /** ds is cs with some children told to terminate. */
  ghost predicate Milder(cs: seq<Child>, ds: seq<Child>) {
    && |cs| == |ds|
    && forall i :: 0 <= i < |cs| ==> ds[i] == cs[i] || ds[i] == cs[i].(state := ChildStopping)
  }

  lemma {:induction false} MilderLive(cs: seq<Child>, ds: seq<Child>)
    requires Milder(cs, ds)
    ensures forall n :: Live(ds, n) == Live(cs, n)
  {
    if cs != [] {
      assert ds[0].entry == cs[0].entry;
      MilderLive(cs[1..], ds[1..]);
    }
  }

  /** A kill of n by this killer is one the shutdown allows. */
  predicate MayKill(s: State, n: Name, killer: Killer) {
    killer.BatchTimer? ==> killer.armedIndex == s.batchIndex && InBatch(s.batches, s.batchIndex, n)
  }

  /** r differs from s in children told to terminate and in logged kills by one killer. */
  ghost predicate KillFrame(s: State, r: State, killer: Killer) {
    && r == s.(children := r.children, forceKilled := r.forceKilled, log := r.log)
    && Milder(s.children, r.children)
    && s.log <= r.log
    && (forall i :: |s.log| <= i < |r.log| ==>
         r.log[i].Terminated? && r.log[i].killer == killer && MayKill(s, r.log[i].name, killer))
  }

  lemma KillFrameTrans(s: State, m: State, r: State, killer: Killer)
    requires KillFrame(s, m, killer) && KillFrame(m, r, killer)
    ensures KillFrame(s, r, killer)
  {
    forall i | |s.log| <= i < |r.log|
      ensures r.log[i].Terminated? && r.log[i].killer == killer && MayKill(s, r.log[i].name, killer)
    {
      if i < |m.log| { assert r.log[i] == m.log[i]; }
    }
  }

  lemma OneKillFrame(s: State, c: Child, killer: Killer)
    requires MayKill(s, c.entry.name, killer)
    ensures KillFrame(s, Terminate(s, c, killer), killer) && KillFrame(s, ForceKill(s, c, killer), killer)
  {}

  lemma {:induction false} KillEachFrame(s: State, names: seq<Name>, killer: Killer)
    requires forall n :: n in names ==> MayKill(s, n, killer)
    ensures KillFrame(s, KillEach(s, names, killer), killer)
    decreases |names|
  {
    if names != [] {
      var c := FindChild(s.children, names[0]);
      var m := if c.Some? then ForceKill(s, c.value, killer) else s;
      if c.Some? { OneKillFrame(s, c.value, killer); }
      forall n | n in names[1..] ensures MayKill(m, n, killer) { assert MayKill(s, n, killer); }
      KillEachFrame(m, names[1..], killer);
      KillFrameTrans(s, m, KillEach(s, names, killer), killer);
    }
  }

  /** Children of r are those of s, and stopping ones stay so. */
  ghost predicate SameEntries(cs: seq<Child>, ds: seq<Child>) {
    && |cs| == |ds|
    && forall i :: 0 <= i < |cs| ==> ds[i].entry == cs[i].entry && (cs[i].state.ChildStopping? ==> ds[i].state.ChildStopping?)
  }

  ghost predicate StoppingNamed(cs: seq<Child>, n: Name) {
    forall i :: 0 <= i < |cs| && cs[i].entry.name == n ==> cs[i].state.ChildStopping?
  }

  /** Telling the child at index j to terminate leaves every child of its name stopping. */
  lemma MarkStops(cs: seq<Child>, j: nat)
    requires DistinctChildren(cs) && j < |cs|
    ensures var ds := MarkStopping(cs, cs[j].id);
      DistinctChildren(ds) && SameEntries(cs, ds) && StoppingNamed(ds, cs[j].entry.name)
  {
    var ds := MarkStopping(cs, cs[j].id);
    forall i | 0 <= i < |ds| && ds[i].entry.name == cs[j].entry.name ensures i == j {
      assert cs[i].entry.name == cs[j].entry.name;
    }
  }

  lemma OneKillStops(s: State, n: Name, killer: Killer)
    requires DistinctChildren(s.children) && Live(s.children, n)
    ensures var m := ForceKill(s, FindChild(s.children, n).value, killer);
      DistinctChildren(m.children) && SameEntries(s.children, m.children) && StoppingNamed(m.children, n)
  {
    var c := FindChild(s.children, n).value;
    var j :| 0 <= j < |s.children| && s.children[j] == c;
    hide MarkStopping, FindChild, DistinctChildren, SameEntries, StoppingNamed;
    MarkStops(s.children, j);
  }

  /** Killing by name leaves every live child of those names stopping. */
  lemma {:induction false} KillEachStops(s: State, names: seq<Name>, killer: Killer)
    requires DistinctChildren(s.children)
    ensures SameEntries(s.children, KillEach(s, names, killer).children)
    ensures forall n :: n in names ==> StoppingNamed(KillEach(s, names, killer).children, n)
    decreases |names|
  {
    if names != [] {
      var f := FindChild(s.children, names[0]);
      var m := if f.Some? then ForceKill(s, f.value, killer) else s;
      if f.Some? {
        OneKillStops(s, names[0], killer);
      } else {
        assert StoppingNamed(s.children, names[0]) by {
          forall i | 0 <= i < |s.children| ensures s.children[i].entry.name != names[0] { assert s.children[i] in s.children; }
        }
      }
      KillEachStops(m, names[1..], killer);
      assert StoppingNamed(KillEach(m, names[1..], killer).children, names[0]);
    }
  }

  lemma {:induction false} TerminateFromFrame(s: State, i: nat)
    ensures KillFrame(s, TerminateFrom(s, i), ForceAll)
    decreases |s.children| - i
  {
    if i < |s.children| {
      var m := Terminate(s, s.children[i], ForceAll);
      OneKillFrame(s, s.children[i], ForceAll);
      TerminateFromFrame(m, i + 1);
      KillFrameTrans(s, m, TerminateFrom(s, i), ForceAll);
    }
  }

  /** Dropping another slot, or arming nothing, leaves the batch timer guarded. */
  lemma MilderGuarded(s: State, r: State)
    requires r.batches == s.batches && r.batchIndex == s.batchIndex
    requires Milder(s.children, r.children)
    requires BatchSlot in s.tm.slots ==> BatchSlot in r.tm.slots && r.tm.slots[BatchSlot] == s.tm.slots[BatchSlot]
    requires BatchSlot in s.tm.slots ==>
      var t := s.tm.slots[BatchSlot];
      (t in r.tm.waits <==> t in s.tm.waits) && (t in s.tm.waits ==> r.tm.waits[t].handler == s.tm.waits[t].handler)
    ensures StillGuarded(s, r)
  {
    if s.batchIndex < |s.batches| && GuardedNow(s) && s.tm.slots[BatchSlot] !in s.tm.waits {
      forall c | c in r.children && InBatch(r.batches, r.batchIndex, c.entry.name) ensures c.state.ChildStopping? {
        var i :| 0 <= i < |r.children| && r.children[i] == c;
        assert s.children[i] in s.children;
      }
    }
  }

  /** A kill frame is calm. */
  lemma KillIsCalm(s: State, r: State, killer: Killer)
    requires s.shuttingDown && KillFrame(s, r, killer)
    ensures Calm(s, r)
  {
    MilderLive(s.children, r.children);
  }

  lemma CalmBatchTimer(s: State, id: nat)
    requires DistinctChildren(s.children) && s.shuttingDown && s.batchIndex < |s.batches|
    ensures var r := KillEach(s.(tm := Taken(s.tm, id)), s.batches[s.batchIndex], BatchTimer(s.batchIndex));
      Calm(s, r) && StillGuarded(s, r)
  {
    var d := s.(tm := Taken(s.tm, id));
    var names := s.batches[s.batchIndex];
    var r := KillEach(d, names, BatchTimer(s.batchIndex));
    KillEachFrame(d, names, BatchTimer(s.batchIndex));
    KillIsCalm(d, r, BatchTimer(s.batchIndex));
    if BatchSlot in s.tm.slots && id != s.tm.slots[BatchSlot] {
      MilderGuarded(s, r);
    } else {
      KillEachStops(d, names, BatchTimer(s.batchIndex));
      forall c | c in r.children && c.entry.name in names ensures c.state.ChildStopping? {
        var i :| 0 <= i < |r.children| && r.children[i] == c;
        assert StoppingNamed(r.children, c.entry.name);
      }
    }
  }

  lemma CalmTimer(s: State, id: nat, a: Attempt)
    requires Core(s) && s.shuttingDown
    ensures Calm(s, RunTimer(s, id, a)) && StillGuarded(s, RunTimer(s, id, a))
  {
    var r := RunTimer(s, id, a);
    if id !in s.tm.waits || s.tm.waits[id].wait.Waiting? {
      MilderGuarded(s, s);
    } else if !s.tm.waits[id].handler.BatchWait? {
      CalmOther(s, id, a);
    } else if s.tm.waits[id] == Timer(BatchWait(s.batchIndex), Expired) && s.batchIndex < |s.batches| {
      CalmBatchTimer(s, id);
    } else {
      assert r == s.(tm := Taken(s.tm, id));
      assert s.batchIndex < |s.batches| && GuardedNow(s) ==> s.tm.slots[BatchSlot] != id;
      if BatchSlot in s.tm.slots && s.tm.slots[BatchSlot] != id { MilderGuarded(s, r); }
    }
  }

  /** The timers of a single process: during shutdown they kill at most that process. */
  ghost predicate OneKill(d: State, r: State) {
    exists c: Child, killer: Killer :: MayKill(d, c.entry.name, killer) && r == ForceKill(d, c, killer)
  }

  lemma OtherOutcome(s: State, h: Handler, a: Attempt)
    requires s.shuttingDown
    ensures var e := s.(tm := Drop(s.tm, SlotOf(h)));
      && (h.RestartWait? ==> OnRestartTimer(s, h, a) == e)
      && (h.StopWait? ==> OnStopTimer(s, h) == e || OneKill(e, OnStopTimer(s, h)))
      && (h.ReadyWait? ==> OnReadyTimer(s, h.source) == e || OneKill(e, OnReadyTimer(s, h.source)))
  {
    var e := s.(tm := Drop(s.tm, SlotOf(h)));
    if h.StopWait? {
      var c := ChildById(s.children, h.childId);
      assert c.Some? ==> MayKill(e, c.value.entry.name, StopTimer);
    } else if h.ReadyWait? {
      var c := FindChild(s.children, h.source);
      assert c.Some? ==> MayKill(e, c.value.entry.name, ReadyTimer);
    }
  }

  lemma OneKillCalm(s: State, r: State)
    requires s.shuttingDown && OneKill(s, r)
    ensures Calm(s, r) && Milder(s.children, r.children) && r.tm == s.tm
  {
    var c: Child, killer: Killer :| MayKill(s, c.entry.name, killer) && r == ForceKill(s, c, killer);
    OneKillFrame(s, c, killer);
    KillIsCalm(s, r, killer);
  }

  lemma TakenGuarded(s: State, id: nat, r: State)
    requires TimersOk(s.tm) && id in s.tm.waits && !s.tm.waits[id].handler.BatchWait?
    requires r.tm == Taken(s.tm, id) || r.tm == Drop(Taken(s.tm, id), SlotOf(s.tm.waits[id].handler))
    requires r.batches == s.batches && r.batchIndex == s.batchIndex && Milder(s.children, r.children)
    ensures StillGuarded(s, r)
  {
    assert BatchSlot in s.tm.slots ==> s.tm.slots[BatchSlot] != id;
    MilderGuarded(s, r);
  }

  lemma RunOutcome(s: State, id: nat, a: Attempt)
    requires s.shuttingDown
    requires id in s.tm.waits && !s.tm.waits[id].wait.Waiting? && !s.tm.waits[id].handler.BatchWait?
    ensures var d := s.(tm := Taken(s.tm, id));
      var e := d.(tm := Drop(d.tm, SlotOf(s.tm.waits[id].handler)));
      RunTimer(s, id, a) == d || RunTimer(s, id, a) == e || OneKill(e, RunTimer(s, id, a))
  {
    OtherOutcome(s.(tm := Taken(s.tm, id)), s.tm.waits[id].handler, a);
    hide OnRestartTimer, OnStopTimer, OnReadyTimer, OneKill, Drop;
  }

  lemma CalmOther(s: State, id: nat, a: Attempt)
    requires TimersOk(s.tm) && s.shuttingDown
    requires id in s.tm.waits && !s.tm.waits[id].wait.Waiting? && !s.tm.waits[id].handler.BatchWait?
    ensures var r := RunTimer(s, id, a); Calm(s, r) && StillGuarded(s, r)
  {
    hide RunTimer, OneKill, TimersOk, StillGuarded, Drop;
    var d := s.(tm := Taken(s.tm, id));
    var e := d.(tm := Drop(d.tm, SlotOf(s.tm.waits[id].handler)));
    var r := RunTimer(s, id, a);
    RunOutcome(s, id, a);
    if r != d && r != e { OneKillCalm(e, r); }
    TakenGuarded(s, id, r);
  }

  lemma CalmStep(s: State, step: Step)
    requires Core(s) && s.shuttingDown && ShutdownOk(s) && !step.ExitStep?
    ensures Calm(s, Next(s, step)) && StillGuarded(s, Next(s, step))
  {
    if step.TimerStep? {
      CalmTimer(s, step.timer, step.attempt);
    } else if step.ForceAllStep? {
      TerminateFromFrame(s, 0);
      KillIsCalm(s, Next(s, step), ForceAll);
      MilderGuarded(s, Next(s, step));
    } else {
      CalmRequest(s, step);
      MilderGuarded(s, Next(s, step));
    }
  }

  /** Handlers and the shutdown slot are as they were. */
  ghost predicate SameHandlers(a: Timers, b: Timers) {
    && (BatchSlot in a.slots ==> BatchSlot in b.slots && b.slots[BatchSlot] == a.slots[BatchSlot])
    && (forall t :: t in b.waits <==> t in a.waits)
    && (forall t :: t in a.waits ==> b.waits[t].handler == a.waits[t].handler)
  }

  /** Requests and frames change no child and log nothing once shutdown has begun. */
  ghost predicate Quiet(s: State, r: State) {
    && r.children == s.children && r.log == s.log && r.pending == s.pending && r.shuttingDown
    && r.batches == s.batches && r.batchIndex == s.batchIndex
    && SameHandlers(s.tm, r.tm)
  }

  lemma CalmRequest(s: State, step: Step)
    requires s.shuttingDown && s.pending == map[]
    requires !step.ExitStep? && !step.TimerStep? && !step.ForceAllStep?
    ensures Quiet(s, Next(s, step))
  {
    assert SameHandlers(s.tm, s.tm);
    match step
    case MdStartedStep(source, attempts) => assert SameHandlers(s.tm, Drop(s.tm, ReadySlot(source)));
    case StopStep(target) => assert SameHandlers(s.tm, Drop(s.tm, RestartSlot(target)));
    case RemoveStep(target) => assert SameHandlers(s.tm, Drop(s.tm, RestartSlot(target)));
    case _ =>
  }

  // ----- exits and the start of the shutdown -----------------------------------------

  lemma CompleteOk(s: State)
    requires s.shuttingDown && ShuttingOk(s) && NotCompleted(Since(s.log)) && s.batchIndex == |s.batches|
    ensures ShutdownOk(CheckComplete(s))
  {
    var more := [Completed];
    LiveHead(s.children);
    forall i | 0 <= i < 1 ensures InOrder(s.batches, Since(s.log) + more[..i], more[i]) {
      assert Since(s.log) + more[..i] == Since(s.log);
    }
    AppendOk(s, more);
    assert (Since(s.log) + more)[|Since(s.log)|] == Completed;
    hide Since, CleanStart, Orderly, EarlierExited, Accounted;
  }

  lemma FramesInOrder(batches: seq<seq<Name>>, k: nat, log: seq<Event>, frames: seq<Event>)
    requires k < |batches| && EarlierExited(batches, k, log)
    requires forall e :: e in frames ==> e.ShutdownSent? && e.name in batches[k]
    ensures forall i :: 0 <= i < |frames| ==> InOrder(batches, log + frames[..i], frames[i])
  {
    forall i | 0 <= i < |frames| ensures InOrder(batches, log + frames[..i], frames[i]) {
      assert frames[i] in frames;
      ExitedGrows(batches, k, log, frames[..i]);
      assert InBatch(batches, k, frames[i].name);
    }
  }

  lemma FramesOk(s: State)
    requires s.shuttingDown && ShuttingOk(s) && NotCompleted(Since(s.log)) && s.batchIndex < |s.batches|
    requires AnyLive(s.children, s.batches[s.batchIndex])
    ensures ShutdownOk(SendCurrentBatch(s))
  {
    var frames := ShutdownFrames(s.children, s.batches[s.batchIndex]);
    FramesInOrder(s.batches, s.batchIndex, Since(s.log), frames);
    AppendOk(s, frames);
    hide Since, CleanStart, Orderly, EarlierExited, Accounted, ShutdownFrames;
  }

  /** Sending the next batch restores the invariant when no earlier batch is alive. */
  lemma {:induction false} SendOk(s: State)
    requires s.shuttingDown && ShuttingOk(s) && NotCompleted(Since(s.log))
    ensures ShutdownOk(SendCurrentBatch(s))
    decreases |s.batches| - s.batchIndex
  {
    if s.batchIndex >= |s.batches| {
      CompleteOk(s);
    } else if AnyLive(s.children, s.batches[s.batchIndex]) {
      FramesOk(s);
    } else {
      var n := s.(batchIndex := s.batchIndex + 1);
      forall c | c in n.children ensures exists k :: n.batchIndex <= k && InBatch(n.batches, k, c.entry.name) {
        var k :| s.batchIndex <= k && InBatch(s.batches, k, c.entry.name);
        assert Live(s.children, c.entry.name);
      }
      SendOk(n);
    }
  }

  lemma CleanupAccounts(s: State, c: Child, code: int)
    requires Core(s) && c in s.children && ShuttingOk(s)
    ensures var d := ExitCleanup(s, c, code); Accounted(d.children, d.batches, Since(d.log))
  {
    var d := ExitCleanup(s, c, code);
    var ev := [Exited(c.id, c.entry.name, code)];
    SinceAppend(s.log, ev);
    AccountedGrows(s.children, s.batches, Since(s.log), ev);
    forall k, n | InBatch(d.batches, k, n) ensures Live(d.children, n) || HasExited(Since(d.log), n) {
      if n == c.entry.name {
        assert Since(d.log)[|Since(s.log)|] == ev[0];
      } else if Live(s.children, n) {
        var x := FindChild(s.children, n).value;
        FindIsUnique(s.children, x);
        FindIsUnique(s.children, c);
        assert x in d.children;
      }
    }
  }

  lemma CleanupGuarded(s: State, c: Child, code: int)
    requires TimersOk(s.tm) && GuardedNow(s)
    ensures GuardedNow(ExitCleanup(s, c, code))
  {}

  lemma CleanupOk(s: State, c: Child, code: int)
    requires Core(s) && s.shuttingDown && ShutdownOk(s) && c in s.children
    ensures var d := ExitCleanup(s, c, code);
      && d.shuttingDown && ShuttingOk(d) && NotCompleted(Since(d.log)) && d.batchIndex < |d.batches| && GuardedNow(d)
  {
    var d := ExitCleanup(s, c, code);
    var ev := [Exited(c.id, c.entry.name, code)];
    AppendOk(s, ev);
    CleanupAccounts(s, c, code);
    CleanupGuarded(s, c, code);
    LiveEach(s.children);
    RemainingSub(s.children, d.children, s.batches, s.batchIndex);
    hide Since, CleanStart, Orderly, EarlierExited, Accounted, Remaining, Guarded, Core;
    forall e | e in Since(s.log) + ev ensures !e.Completed? { assert e in Since(s.log) || e == ev[0]; }
  }

  lemma ExitOk(s: State, c: Child, code: int)
    requires Core(s) && s.shuttingDown && ShutdownOk(s) && c in s.children
    ensures ShutdownOk(OnChildExit(s, c, code))
  {
    CleanupOk(s, c, code);
    AdvanceOk(ExitCleanup(s, c, code));
  }

  lemma AdvanceOk(d: State)
    requires d.shuttingDown && ShuttingOk(d) && NotCompleted(Since(d.log)) && d.batchIndex < |d.batches| && GuardedNow(d)
    ensures ShutdownOk(AdvanceBatch(d))
  {
    if !AnyLive(d.children, d.batches[d.batchIndex]) {
      var n := d.(tm := Drop(d.tm, BatchSlot), batchIndex := d.batchIndex + 1);
      forall x | x in n.children ensures exists k :: n.batchIndex <= k && InBatch(n.batches, k, x.entry.name) {
        var k :| d.batchIndex <= k && InBatch(d.batches, k, x.entry.name);
        assert Live(d.children, x.entry.name);
      }
      forall j, m | 0 <= j < n.batchIndex && InBatch(n.batches, j, m) ensures HasExited(Since(n.log), m) {
        if j == d.batchIndex { assert !Live(d.children, m); }
      }
      SendOk(n);
    }
  }

  lemma BeginOk(s: State)
    requires Core(s) && !s.shuttingDown && ShutdownOk(s)
    ensures ShutdownOk(Shutdown(s))
  {
    var pairs := RunningPairs(s.children);
    var batches := BuildShutdownBatches(pairs);
    var d := s.(shuttingDown := true, tm := DropNamed(s.tm), restartCounts := map[], pending := map[],
                batches := batches, batchIndex := 0, log := s.log + [ShutdownBegun(batches)]);
    SinceBegin(s.log, batches);
    BatchesPartition(pairs);
    forall c | c in s.children ensures exists k :: 0 <= k && InBatch(batches, k, c.entry.name) {
      var i :| 0 <= i < |s.children| && s.children[i] == c;
      assert pairs[i] in pairs && pairs[i].0 == c.entry.name;
      assert Runs(pairs, c.entry.name);
    }
    forall k, n | InBatch(batches, k, n) ensures Live(s.children, n) {
      assert Batched(batches, n);
      var p :| p in pairs && p.0 == n;
      var i :| 0 <= i < |pairs| && pairs[i] == p;
      assert s.children[i] in s.children;
    }
    SendOk(d);
    assert batches == [] ==> CheckComplete(d) == SendCurrentBatch(d);
  }

  // ----- before the shutdown ---------------------------------------------------------

  /** Neither the beginning nor the end of a shutdown is among the new events. */
  ghost predicate Ordinary(s: State, r: State) {
    && r.shuttingDown == s.shuttingDown
    && s.log <= r.log
    && forall i :: |s.log| <= i < |r.log| ==> !r.log[i].ShutdownBegun? && !r.log[i].Completed?
  }

  lemma OrdinaryTrans(s: State, m: State, r: State)
    requires Ordinary(s, m) && Ordinary(m, r)
    ensures Ordinary(s, r)
  {
    forall i | |s.log| <= i < |r.log| ensures !r.log[i].ShutdownBegun? && !r.log[i].Completed? {
      if i < |m.log| { assert r.log[i] == m.log[i]; }
    }
  }

  lemma OneLaunchOrdinary(s: State, n: Name, source: Name, a: Attempt, via: Via)
    ensures Ordinary(s, LaunchWithReader(s, n, source, a, via))
  {
    var e := FindEntry(s.registry, n);
    if e.Some? {
      hide LaunchChild;
      LaunchFrame(s.(channels := PreRegister(s.channels, n, source)), e.value, a, via);
    }
  }

  lemma {:induction false} LaunchEachOrdinary(s: State, names: seq<Name>, source: Name, attempts: map<Name, Attempt>, via: Via)
    ensures Ordinary(s, LaunchEach(s, names, source, attempts, via))
    decreases |names|
  {
    if names != [] {
      var n := names[0];
      var l := if via.Startup? && Live(s.children, n) then s
               else LaunchWithReader(s, n, source, AttemptFor(attempts, n), via);
      OneLaunchOrdinary(s, n, source, AttemptFor(attempts, n), via);
      LaunchEachOrdinary(l, names[1..], source, attempts, via);
      OrdinaryTrans(s, l, LaunchEach(s, names, source, attempts, via));
    }
  }

  lemma {:induction false} ParkEachOrdinary(s: State, source: Name, names: seq<Name>)
    ensures ParkEach(s, source, names) == s.(pending := ParkEach(s, source, names).pending)
    decreases |names|
  {
    if names != [] {
      ParkEachOrdinary(if Live(s.children, names[0]) then s else Park(s, source, names[0]), source, names[1..]);
    }
  }

  lemma HandlersOrdinary(s: State, h: Handler, a: Attempt)
    requires !s.shuttingDown
    ensures h.RestartWait? ==> Ordinary(s, OnRestartTimer(s, h, a))
    ensures h.StopWait? ==> Ordinary(s, OnStopTimer(s, h))
    ensures h.ReadyWait? ==> Ordinary(s, OnReadyTimer(s, h.source))
  {
    hide LaunchChild, Drop, MarkStopping, FindChild, ChildById, StrategiesBoundTo, AnyLive;
    if h.RestartWait? { LaunchFrame(s.(tm := Drop(s.tm, RestartSlot(h.name))), h.entry, a, Restart); }
  }

  lemma OrdinaryTimer(s: State, id: nat, a: Attempt)
    requires !s.shuttingDown
    ensures Ordinary(s, RunTimer(s, id, a))
  {
    if id in s.tm.waits && !s.tm.waits[id].wait.Waiting? {
      var d := s.(tm := Taken(s.tm, id));
      HandlersOrdinary(d, s.tm.waits[id].handler, a);
      if s.batchIndex < |s.batches| { KillEachFrame(d, s.batches[s.batchIndex], BatchTimer(s.batchIndex)); }
      hide OnRestartTimer, OnStopTimer, OnReadyTimer;
    }
  }

  lemma OrdinaryStart(s: State, target: Name, scanned: Option<ProcessEntry>, a: Attempt)
    ensures Ordinary(s, StartRequest(s, target, scanned, a))
  {
    var known := FindEntry(s.registry, target);
    hide LaunchChild, FindEntry, FindChild, PreRegister, SourceReady;
    if known.Some? || scanned.Some? {
      var r := if known.None? then s.(registry := s.registry + [scanned.value]) else s;
      var e := if known.None? then scanned.value else known.value;
      LaunchFrame(r, e, a, Request);
      LaunchFrame(r.(channels := PreRegister(r.channels, e.name, e.mdSource)), e, a, Request);
    }
  }

  lemma OrdinaryReady(s: State, source: Name, attempts: map<Name, Attempt>)
    ensures Ordinary(s, MdStarted(s, source, attempts))
  {
    if source in s.channels {
      var d := s.(channels := s.channels[source := s.channels[source].(ready := true)], tm := Drop(s.tm, ReadySlot(source)));
      if source in d.pending {
        LaunchEachOrdinary(d.(pending := d.pending - {source}), d.pending[source], source, attempts, LateReady);
      }
    }
  }

  lemma OrdinaryStop(s: State, target: Name)
    ensures Ordinary(s, StopRequest(s, target)) && Ordinary(s, RemoveRequest(s, target))
  {}

  lemma OrdinaryExit(s: State, c: Child, code: int)
    requires !s.shuttingDown
    ensures Ordinary(s, OnChildExit(s, c, code))
  {}

  lemma OrdinaryStep(s: State, step: Step)
    requires !s.shuttingDown && !step.ShutdownStep?
    ensures Ordinary(s, Next(s, step))
  {
    hide StartRequest, MdStarted, RunTimer, LaunchChild, StopRequest, RemoveRequest, OnChildExit;
    match step
    case StartupLaunchStep(e, a) => LaunchFrame(s, e, a, Startup);
    case StartupPromoteStep(source, attempts) =>
      LaunchEachOrdinary(s, StrategiesBoundTo(s.registry, source), source, attempts, Startup);
    case StartupParkStep(source) => ParkEachOrdinary(s, source, StrategiesBoundTo(s.registry, source));
    case StartStep(target, scanned, a) => OrdinaryStart(s, target, scanned, a);
    case MdStartedStep(source, attempts) => OrdinaryReady(s, source, attempts);
    case StopStep(target) => OrdinaryStop(s, target);
    case RemoveStep(target) => OrdinaryStop(s, target);
    case ExitStep(id, code) =>
      var c := ChildById(s.children, id);
      if c.Some? { OrdinaryExit(s, c.value, code); }
    case TimerStep(t, a) => OrdinaryTimer(s, t, a);
    case ForceAllStep => TerminateFromFrame(s, 0);
    case _ =>
  }

  lemma OrdinaryOk(s: State, r: State)
    requires !s.shuttingDown && ShutdownOk(s) && Ordinary(s, r)
    ensures ShutdownOk(r)
  {
    forall e | e in r.log ensures !e.ShutdownBegun? && !e.Completed? {
      var i :| 0 <= i < |r.log| && r.log[i] == e;
      if i < |s.log| { assert s.log[i] == e && e in s.log; }
    }
  }

  // ----- the results -----------------------------------------------------------------

  lemma ShutdownKept(s: State, step: Step)
    requires Core(s) && ShutdownOk(s)
    ensures ShutdownOk(Next(s, step))
  {
    if s.shuttingDown {
      if step.ExitStep? {
        var c := ChildById(s.children, step.id);
        if c.Some? { ExitOk(s, c.value, step.code); }
      } else {
        CalmStep(s, step);
        CalmKeeps(s, Next(s, step));
      }
    } else if step.ShutdownStep? {
      BeginOk(s);
    } else {
      OrdinaryStep(s, step);
      OrdinaryOk(s, Next(s, step));
    }
  }

  lemma {:induction false} ShutdownInvariant(s: State, steps: seq<Step>)
    requires Core(s) && ShutdownOk(s)
    ensures Core(Run(s, steps)) && ShutdownOk(Run(s, steps))
    decreases |steps|
  {
    if steps != [] {
      CoreKept(s, steps[0]);
      ShutdownKept(s, steps[0]);
      ShutdownInvariant(Next(s, steps[0]), steps[1..]);
    }
  }

  lemma InitialOk(registry: seq<ProcessEntry>)
    ensures Core(Initial(registry)) && ShutdownOk(Initial(registry))
  {}

  /** Over every run from start-up: after shutdown began, no process is launched, SHUTDOWN and
      batch kills go to members of a batch only when every member of all earlier batches has
      exited, and completion comes last and once. */
  lemma ShutdownIsOrderly(registry: seq<ProcessEntry>, steps: seq<Step>)
    ensures var s := Run(Initial(registry), steps);
      && (s.shuttingDown <==> Begun(s.log))
      && (s.shuttingDown ==> Orderly(s.batches, Since(s.log)))
  {
    InitialOk(registry);
    ShutdownInvariant(Initial(registry), steps);
  }

  /** The state of a shutdown at any moment of any run: it is over and nothing is left, or the
      current batch has a live member and either a timer that will still fire for this very
      batch or only members already told to terminate. */
  ghost predicate NotStalled(s: State) {
    if HasCompleted(s.log) then s.children == []
    else
      && s.batchIndex < |s.batches| && AnyLive(s.children, s.batches[s.batchIndex])
      && BatchSlot in s.tm.slots
      && var t := s.tm.slots[BatchSlot];
         if t in s.tm.waits then s.tm.waits[t].handler == BatchWait(s.batchIndex) && !s.tm.waits[t].wait.Cancelled?
         else forall c :: c in s.children && InBatch(s.batches, s.batchIndex, c.entry.name) ==> c.state.ChildStopping?
  }

  predicate CompletedOnce(log: seq<Event>) {
    forall i, j :: 0 <= i < j < |log| ==> !(log[i].Completed? && log[j].Completed?)
  }

  lemma ShutdownNeverStalls(registry: seq<ProcessEntry>, steps: seq<Step>)
    requires Run(Initial(registry), steps).shuttingDown
    ensures NotStalled(Run(Initial(registry), steps))
    ensures CompletedOnce(Run(Initial(registry), steps).log)
  {
    InitialOk(registry);
    ShutdownInvariant(Initial(registry), steps);
    var s := Run(Initial(registry), steps);
    SinceIsSuffix(s.log);
    var k := |s.log| - |Since(s.log)|;
    forall i | 0 <= i < k ensures !s.log[i].Completed? {
      assert s.log[..k][i] in s.log[..k];
    }
    forall i | k <= i < |s.log| ensures s.log[i] == Since(s.log)[i - k] {}
    forall i, j | 0 <= i < j < |s.log| ensures !(s.log[i].Completed? && s.log[j].Completed?) {
      if k <= i {
        assert InOrder(s.batches, Since(s.log)[..j - k], Since(s.log)[j - k]);
        assert Since(s.log)[..j - k][i - k] in Since(s.log)[..j - k];
      }
    }
    forall e | e in s.log && e.Completed? ensures e in Since(s.log) {
      var i :| 0 <= i < |s.log| && s.log[i] == e;
      assert Since(s.log)[i - k] == e;
    }
  }

  // ----- how long a shutdown takes -----------------------------------------------------

  function ExitsIn(log: seq<Event>): nat {
    if log == [] then 0 else ExitsIn(log[..|log| - 1]) + (if log[|log| - 1].Exited? then 1 else 0)
  }

  lemma {:induction false} ExitsAppend(log: seq<Event>, more: seq<Event>)
    requires forall e :: e in more ==> !e.Exited?
    ensures ExitsIn(log + more) == ExitsIn(log)
    decreases |more|
  {
    if more == [] {
      assert log + more == log;
    } else {
      var l := log + more;
      assert more[|more| - 1] in more;
      assert l[..|l| - 1] == log + more[..|more| - 1];
      ExitsAppend(log, more[..|more| - 1]);
    }
  }

  lemma {:induction false} RemoveOne(cs: seq<Child>, c: Child)
    requires DistinctChildren(cs) && c in cs
    ensures |RemoveChild(cs, c.id)| == |cs| - 1
  {
    if cs[0] == c {
      assert forall d :: d in cs[1..] ==> d.id != c.id;
      RemoveNone(cs[1..], c.id);
    } else {
      RemoveOne(cs[1..], c);
    }
  }

  lemma {:induction false} RemoveNone(cs: seq<Child>, id: nat)
    requires forall d :: d in cs ==> d.id != id
    ensures RemoveChild(cs, id) == cs
  {
    if cs != [] { RemoveNone(cs[1..], id); }
  }

  lemma {:induction false} SendAfterExits(s: State)
    ensures ExitsIn(SendCurrentBatch(s).log) == ExitsIn(s.log) && SendCurrentBatch(s).children == s.children
    decreases |s.batches| - s.batchIndex
  {
    if s.batchIndex >= |s.batches| {
      ExitsAppend(s.log, [Completed]);
    } else if AnyLive(s.children, s.batches[s.batchIndex]) {
      ExitsAppend(s.log, ShutdownFrames(s.children, s.batches[s.batchIndex]));
    } else {
      SendAfterExits(s.(batchIndex := s.batchIndex + 1));
    }
  }

  lemma OneExit(s: State, c: Child, code: int)
    requires Core(s) && s.shuttingDown && c in s.children
    ensures var r := OnChildExit(s, c, code);
      |r.children| == |s.children| - 1 && ExitsIn(r.log) == ExitsIn(s.log) + 1 && r.shuttingDown
  {
    var d := ExitCleanup(s, c, code);
    RemoveOne(s.children, c);
    assert d.log[..|d.log| - 1] == s.log;
    SendAfterExits(d.(tm := Drop(d.tm, BatchSlot), batchIndex := d.batchIndex + 1));
    SendStays(d.(tm := Drop(d.tm, BatchSlot), batchIndex := d.batchIndex + 1));
  }

  lemma {:induction false} SendStays(s: State)
    ensures SendCurrentBatch(s).shuttingDown == s.shuttingDown
    decreases |s.batches| - s.batchIndex
  {
    if s.batchIndex < |s.batches| && !AnyLive(s.children, s.batches[s.batchIndex]) {
      SendStays(s.(batchIndex := s.batchIndex + 1));
    }
  }

  function NameSet(cs: seq<Child>): set<Name> {
    if cs == [] then {} else {cs[0].entry.name} + NameSet(cs[1..])
  }

  lemma {:induction false} NamesLive(cs: seq<Child>, n: Name)
    ensures n in NameSet(cs) <==> Live(cs, n)
  {
    if cs != [] { NamesLive(cs[1..], n); }
  }

  lemma HeadNotLive(cs: seq<Child>)
    requires DistinctChildren(cs) && cs != []
    ensures DistinctChildren(cs[1..]) && !Live(cs[1..], cs[0].entry.name)
  {
    hide FindChild;
    LiveAt(cs[1..], cs[0].entry.name);
  }

  lemma {:induction false} NameCount(cs: seq<Child>)
    requires DistinctChildren(cs)
    ensures |NameSet(cs)| == |cs|
  {
    if cs != [] {
      HeadNotLive(cs);
      hide DistinctChildren;
      NamesLive(cs[1..], cs[0].entry.name);
      NameCount(cs[1..]);
    }
  }

  lemma SameLength(cs: seq<Child>, ds: seq<Child>)
    requires DistinctChildren(cs) && DistinctChildren(ds)
    requires forall n :: Live(cs, n) == Live(ds, n)
    ensures |cs| == |ds|
  {
    NameCount(cs);
    NameCount(ds);
    hide DistinctChildren, FindChild;
    forall n ensures n in NameSet(cs) <==> n in NameSet(ds) {
      NamesLive(cs, n);
      NamesLive(ds, n);
    }
    assert NameSet(cs) == NameSet(ds);
  }

  lemma StepCounts(s: State, step: Step)
    requires Core(s) && ShutdownOk(s) && s.shuttingDown
    ensures var n := Next(s, step); n.shuttingDown && |n.children| + ExitsIn(n.log) == |s.children| + ExitsIn(s.log)
  {
    hide ShutdownOk;
    var n := Next(s, step);
    CoreKept(s, step);
    if step.ExitStep? {
      var c := ChildById(s.children, step.id);
      if c.Some? { OneExit(s, c.value, step.code); }
    } else {
      hide Next;
      CalmStep(s, step);
      SameLength(s.children, n.children);
      var more := n.log[|s.log|..];
      assert n.log == s.log + more;
      forall e | e in more ensures !e.Exited? {
        var i :| 0 <= i < |more| && more[i] == e;
        assert AllowedKill(s, n.log[|s.log| + i]);
      }
      ExitsAppend(s.log, more);
    }
  }

  /** A shutdown is exactly as long as its children: in every run from a state that is
      shutting down, each exit takes one child off and nothing adds one, so completion is
      logged exactly when as many exits were handled as there were children. */
  lemma {:induction false} ShutdownEndsWithLastExit(s: State, steps: seq<Step>)
    requires Core(s) && ShutdownOk(s) && s.shuttingDown
    ensures var r := Run(s, steps);
      && |r.children| + ExitsIn(r.log) == |s.children| + ExitsIn(s.log)
      && (HasCompleted(Since(r.log)) <==> ExitsIn(r.log) - ExitsIn(s.log) == |s.children|)
    decreases |steps|
  {
    if steps == [] {
      assert HasCompleted(Since(s.log)) <==> s.children == [];
    } else {
      hide Core, ShutdownOk, Next;
      CoreKept(s, steps[0]);
      ShutdownKept(s, steps[0]);
      StepCounts(s, steps[0]);
      ShutdownEndsWithLastExit(Next(s, steps[0]), steps[1..]);
    }
  }
}
