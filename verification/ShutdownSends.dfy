/** What a shutdown sends, over every run: every live child is asked to stop when it is the turn
    of its category, once, and nobody is asked or killed by a batch timer before. */
module ShutdownSends {
  import opened Basics
  import opened MasterTypes
  import opened MasterSteps
  import opened MasterInvariants
  import opened ShutdownBatches
  import opened ShutdownOrder

  // ----- frames -----------------------------------------------------------------------------------

  /** Every live member of the current batch was sent a SHUTDOWN frame. */
  ghost predicate AllSent(s: State) {
    forall n :: InBatch(s.batches, s.batchIndex, n) && Live(s.children, n) ==> ShutdownSent(n) in Since(s.log)
  }

  /** No name was sent two frames. */
  ghost predicate SentOnce(log: seq<Event>) {
    forall i, j :: 0 <= i < j < |log| && log[i].ShutdownSent? && log[j].ShutdownSent? ==> log[i].name != log[j].name
  }

  /** Frames went to members of the batches before k only. */
  ghost predicate SentBelow(bs: seq<seq<Name>>, k: nat, log: seq<Event>) {
    forall n :: ShutdownSent(n) in log ==> exists j :: j < k && InBatch(bs, j, n)
  }

  /** No name is in two batches or twice in one. */
  ghost predicate Apart(bs: seq<seq<Name>>) {
    EachOnce(bs) && forall i, j, n :: InBatch(bs, i, n) && InBatch(bs, j, n) ==> i == j
  }

  /** The batches follow the categories of the children that are left. */
  ghost predicate Ranked(cs: seq<Child>, bs: seq<seq<Name>>) {
    forall c, d, i, j :: c in cs && d in cs && InBatch(bs, i, c.entry.name) && InBatch(bs, j, d.entry.name) ==>
      (i < j <==> Rank(c.entry.category) < Rank(d.entry.category))
  }

  ghost predicate SendsOk(s: State) {
    s.shuttingDown ==>
      && Apart(s.batches) && Ranked(s.children, s.batches)
      && AllSent(s) && SentOnce(Since(s.log)) && SentBelow(s.batches, s.batchIndex + 1, Since(s.log))
  }

  // ----- steps that send nothing ------------------------------------------------------------------

  /** No frame among these events. */
  ghost predicate NoFrames(more: seq<Event>) { forall i :: 0 <= i < |more| ==> !more[i].ShutdownSent? }

  lemma SameFrames(log: seq<Event>, more: seq<Event>)
    requires NoFrames(more)
    ensures forall n :: ShutdownSent(n) in log + more <==> ShutdownSent(n) in log
    ensures SentOnce(log) ==> SentOnce(log + more)
  {
    assert forall e :: e in more ==> !e.ShutdownSent?;
  }

  /** Fewer children, or milder, ask for no more. */
  ghost predicate NoNewChild(cs: seq<Child>, ds: seq<Child>) {
    forall d :: d in ds ==> exists c :: c in cs && c.entry == d.entry
  }

  lemma FewerSent(s: State, r: State, more: seq<Event>)
    requires s.shuttingDown && SendsOk(s) && Begun(s.log) && NoFrames(more)
    requires r.batches == s.batches && r.batchIndex == s.batchIndex && r.log == s.log + more && NoNewChild(s.children, r.children)
    ensures SendsOk(r)
  {
    SinceAppend(s.log, more);
    SameFrames(Since(s.log), more);
    FewerRanked(s.children, r.children, s.batches);
    hide Since, Begun, Apart, Ranked;
    forall n | InBatch(r.batches, r.batchIndex, n) && Live(r.children, n) ensures ShutdownSent(n) in Since(r.log) {
      var d := FindChild(r.children, n).value;
      var c :| c in s.children && c.entry == d.entry;
    }
  }

  lemma FewerRanked(cs: seq<Child>, ds: seq<Child>, bs: seq<seq<Name>>)
    requires Ranked(cs, bs) && NoNewChild(cs, ds)
    ensures Ranked(ds, bs)
  {
    forall c, d, i, j | c in ds && d in ds && InBatch(bs, i, c.entry.name) && InBatch(bs, j, d.entry.name)
      ensures i < j <==> Rank(c.entry.category) < Rank(d.entry.category)
    {
      var x :| x in cs && x.entry == c.entry;
      var y :| y in cs && y.entry == d.entry;
      assert InBatch(bs, i, x.entry.name) && InBatch(bs, j, y.entry.name);
    }
  }

  // ----- sending ------------------------------------------------------------------------------------

  /** The frames to one batch: each live member once. */
  lemma {:induction false} FramesOnce(cs: seq<Child>, names: seq<Name>)
    requires forall i, j :: 0 <= i < j < |names| ==> names[i] != names[j]
    ensures SentOnce(ShutdownFrames(cs, names))
  {
    if names != [] {
      FramesOnce(cs, names[1..]);
      var rest := ShutdownFrames(cs, names[1..]);
      forall i | 0 <= i < |rest| ensures rest[i].ShutdownSent? && rest[i].name != names[0] {
        assert rest[i] in rest && rest[i].name in names[1..];
      }
      assert ShutdownFrames(cs, names) == rest || ShutdownFrames(cs, names) == [ShutdownSent(names[0])] + rest;
    }
  }

  /** No frames yet for the batches from the current one on. */
  ghost predicate BeforeSend(s: State) {
    && s.shuttingDown && Begun(s.log) && Apart(s.batches) && Ranked(s.children, s.batches)
    && SentOnce(Since(s.log)) && SentBelow(s.batches, s.batchIndex, Since(s.log))
  }

  lemma SendOne(s: State)
    requires BeforeSend(s) && s.batchIndex < |s.batches|
    ensures SendsOk(s.(log := s.log + ShutdownFrames(s.children, s.batches[s.batchIndex])))
  {
    var names := s.batches[s.batchIndex];
    var frames := ShutdownFrames(s.children, names);
    var log := Since(s.log);
    SinceAppend(s.log, frames);
    FramesOnce(s.children, names);
    hide Since, Begun, Ranked, ShutdownFrames;
    forall n | InBatch(s.batches, s.batchIndex, n) && Live(s.children, n) ensures ShutdownSent(n) in log + frames {
      assert ShutdownSent(n) in frames;
    }
    forall n | ShutdownSent(n) in log + frames ensures exists j :: j < s.batchIndex + 1 && InBatch(s.batches, j, n) {
      if ShutdownSent(n) in frames { assert InBatch(s.batches, s.batchIndex, n); }
    }
    FramesNew(s, log, frames);
  }

  lemma FramesNew(s: State, log: seq<Event>, frames: seq<Event>)
    requires Apart(s.batches) && SentBelow(s.batches, s.batchIndex, log) && SentOnce(log) && SentOnce(frames)
    requires s.batchIndex < |s.batches| && forall e :: e in frames ==> e.ShutdownSent? && e.name in s.batches[s.batchIndex]
    ensures SentOnce(log + frames)
  {
    var all := log + frames;
    forall i, j | 0 <= i < j < |all| && all[i].ShutdownSent? && all[j].ShutdownSent? ensures all[i].name != all[j].name {
      if i < |log| <= j {
        assert all[i] == log[i] && log[i] in log && all[j] == frames[j - |log|] && frames[j - |log|] in frames;
        assert InBatch(s.batches, s.batchIndex, all[j].name) && ShutdownSent(all[i].name) in log;
      }
    }
  }

  lemma {:induction false} SendSends(s: State)
    requires BeforeSend(s)
    ensures SendsOk(SendCurrentBatch(s))
    decreases |s.batches| - s.batchIndex
  {
    if s.batchIndex >= |s.batches| {
      SinceAppend(s.log, [Completed]);
      SameFrames(Since(s.log), [Completed]);
      hide Since, Begun, Apart, Ranked;
    } else if AnyLive(s.children, s.batches[s.batchIndex]) {
      SendOne(s);
      hide Since, Begun, Apart, Ranked, ShutdownFrames, SentOnce, AllSent, SentBelow;
      SameSends(s.(log := s.log + ShutdownFrames(s.children, s.batches[s.batchIndex])), SendCurrentBatch(s));
    } else {
      assert BeforeSend(s.(batchIndex := s.batchIndex + 1));
      hide BeforeSend;
      SendSends(s.(batchIndex := s.batchIndex + 1));
    }
  }

  /** Timers do not matter here. */
  lemma SameSends(s: State, r: State)
    requires SendsOk(s) && r == s.(tm := r.tm)
    ensures SendsOk(r)
  {}

  // ----- steps --------------------------------------------------------------------------------------

  lemma CalmSends(s: State, r: State)
    requires s.shuttingDown && SendsOk(s) && Begun(s.log) && Calm(s, r) && NoNewChild(s.children, r.children)
    ensures SendsOk(r)
  {
    var more := r.log[|s.log|..];
    assert r.log == s.log + more;
    forall i | 0 <= i < |more| ensures !more[i].ShutdownSent? {
      assert AllowedKill(s, r.log[|s.log| + i]);
    }
    hide SendsOk;
    FewerSent(s, r, more);
  }

  lemma ExitSends(s: State, c: Child, code: int)
    requires s.shuttingDown && SendsOk(s) && Begun(s.log)
    ensures SendsOk(OnChildExit(s, c, code))
  {
    var d := ExitCleanup(s, c, code);
    hide SendsOk, Begun;
    assert SendsOk(d) by {
      assert forall x :: x in d.children ==> x in s.children;
      FewerSent(s, d, [Exited(c.id, c.entry.name, code)]);
    }
    assert Begun(d.log) by { SinceAppend(s.log, [Exited(c.id, c.entry.name, code)]); }
    assert d.shuttingDown;
    var n := d.(tm := Drop(d.tm, BatchSlot), batchIndex := d.batchIndex + 1);
    hide ExitCleanup, Drop;
    assert BeforeSend(n) by { NextTurn(d, n); }
    SendSends(n);
    hide BeforeSend, SendCurrentBatch;
  }

  lemma NextTurn(d: State, n: State)
    requires d.shuttingDown && SendsOk(d) && Begun(d.log)
    requires n == d.(tm := n.tm, batchIndex := d.batchIndex + 1)
    ensures BeforeSend(n)
  {}

  /** Who is in which batch says who stops first. */
  lemma BeginRanked(cs: seq<Child>)
    requires DistinctChildren(cs)
    ensures var bs := BuildShutdownBatches(RunningPairs(cs)); Apart(bs) && Ranked(cs, bs)
  {
    var pairs := RunningPairs(cs);
    var bs := BuildShutdownBatches(pairs);
    BatchesPartition(pairs);
    forall c | c in cs ensures (c.entry.name, c.entry.category) in pairs {
      var i :| 0 <= i < |cs| && cs[i] == c;
      assert pairs[i] in pairs;
    }
    hide BuildShutdownBatches, RunningPairs, DistinctChildren;
    forall c, d, i, j | c in cs && d in cs && InBatch(bs, i, c.entry.name) && InBatch(bs, j, d.entry.name)
      ensures i < j <==> Rank(c.entry.category) < Rank(d.entry.category)
    {
      var p, q := (c.entry.name, c.entry.category), (d.entry.name, d.entry.category);
      assert p in pairs && q in pairs && InBatch(bs, i, p.0) && InBatch(bs, j, q.0);
    }
    forall i, j, n | InBatch(bs, i, n) && InBatch(bs, j, n) ensures i == j {
      assert Batched(bs, n);
      var p :| p in pairs && p.0 == n;
      assert InBatch(bs, i, p.0) && InBatch(bs, j, p.0);
    }
  }

  lemma BeginSends(s: State)
    requires Core(s) && !s.shuttingDown && !Begun(s.log)
    ensures SendsOk(Shutdown(s))
  {
    var batches := BuildShutdownBatches(RunningPairs(s.children));
    var d := s.(shuttingDown := true, tm := DropNamed(s.tm), restartCounts := map[], pending := map[],
                batches := batches, batchIndex := 0, log := s.log + [ShutdownBegun(batches)]);
    SinceBegin(s.log, batches);
    BeginRanked(s.children);
    hide Since, Begun, Apart, Ranked, BuildShutdownBatches, DropNamed, Core;
    assert BeforeSend(d);
    hide BeforeSend;
    SendSends(d);
    hide SendsOk;
    assert batches == [] ==> CheckComplete(d) == SendCurrentBatch(d);
  }

  lemma MilderNames(cs: seq<Child>, ds: seq<Child>)
    requires Milder(cs, ds)
    ensures NoNewChild(cs, ds)
  {
    forall d | d in ds ensures exists c :: c in cs && c.entry == d.entry {
      var i :| 0 <= i < |ds| && ds[i] == d;
      assert cs[i] in cs;
    }
  }

  /** Once shutdown has begun, only exits change the list of children. */
  lemma TimerChildren(s: State, id: nat, a: Attempt)
    requires s.shuttingDown
    ensures Milder(s.children, RunTimer(s, id, a).children)
  {
    if id in s.tm.waits && !s.tm.waits[id].wait.Waiting? {
      var h := s.tm.waits[id].handler;
      var d := s.(tm := Taken(s.tm, id));
      if h.BatchWait? {
        if h.armedIndex == s.batchIndex && h.armedIndex < |s.batches| {
          KillEachFrame(d, s.batches[h.armedIndex], BatchTimer(h.armedIndex));
        }
        hide KillEach;
      } else {
        var e := d.(tm := Drop(d.tm, SlotOf(h)));
        RunOutcome(s, id, a);
        var r := RunTimer(s, id, a);
        hide RunTimer, OneKill, Drop;
        if r != d && r != e { OneKillCalm(e, r); }
      }
    }
  }

  lemma StepChildren(s: State, step: Step)
    requires s.shuttingDown && s.pending == map[] && !step.ExitStep?
    ensures Milder(s.children, Next(s, step).children)
  {
    if step.TimerStep? {
      TimerChildren(s, step.timer, step.attempt);
      hide RunTimer;
    } else if step.ForceAllStep? {
      TerminateFromFrame(s, 0);
      hide TerminateFrom;
    } else {
      CalmRequest(s, step);
      hide Next;
    }
  }

  lemma StepSends(s: State, step: Step)
    requires Core(s) && ShutdownOk(s) && SendsOk(s)
    ensures SendsOk(Next(s, step))
  {
    hide SendsOk, Core, ShuttingOk, Progressing, Orderly;
    if s.shuttingDown {
      assert Begun(s.log) && s.pending == map[] by { ShuttingBegun(s); }
      if step.ExitStep? {
        var c := ChildById(s.children, step.id);
        if c.Some? { ExitSends(s, c.value, step.code); }
        hide OnChildExit;
      } else {
        CalmStep(s, step);
        StepChildren(s, step);
        MilderNames(s.children, Next(s, step).children);
        hide Next;
        CalmSends(s, Next(s, step));
      }
    } else if step.ShutdownStep? {
      BeginSends(s);
      hide Shutdown;
    } else {
      OrdinaryStep(s, step);
      hide Next;
      assert !Next(s, step).shuttingDown;
      NotYet(Next(s, step));
    }
  }

  lemma NotYet(s: State)
    requires !s.shuttingDown
    ensures SendsOk(s)
  {}

  lemma ShuttingBegun(s: State)
    requires s.shuttingDown && ShutdownOk(s)
    ensures Begun(s.log) && s.pending == map[]
  {}

  lemma {:induction false} SendsInvariant(s: State, steps: seq<Step>)
    requires Core(s) && ShutdownOk(s) && SendsOk(s)
    ensures Core(Run(s, steps)) && ShutdownOk(Run(s, steps)) && SendsOk(Run(s, steps))
    decreases |steps|
  {
    hide Core, ShutdownOk, SendsOk, Next;
    if steps != [] {
      CoreKept(s, steps[0]);
      ShutdownKept(s, steps[0]);
      StepSends(s, steps[0]);
      SendsInvariant(Next(s, steps[0]), steps[1..]);
    }
  }

  // ----- the results --------------------------------------------------------------------------------

  /** Nobody who is left stops before this child. */
  ghost predicate FirstToStop(cs: seq<Child>, c: Child) {
    forall d :: d in cs ==> Rank(c.entry.category) <= Rank(d.entry.category)
  }

  lemma MemberIsFirst(cs: seq<Child>, bs: seq<seq<Name>>, k: nat, c: Child)
    requires Ranked(cs, bs) && Remaining(cs, bs, k) && c in cs && InBatch(bs, k, c.entry.name)
    ensures FirstToStop(cs, c)
  {
    forall d | d in cs ensures Rank(c.entry.category) <= Rank(d.entry.category) {
      var j :| k <= j && InBatch(bs, j, d.entry.name);
      assert j < k <==> Rank(d.entry.category) < Rank(c.entry.category);
    }
  }

  lemma FirstIsMember(cs: seq<Child>, bs: seq<seq<Name>>, k: nat, c: Child)
    requires Ranked(cs, bs) && Remaining(cs, bs, k) && k < |bs| && AnyLive(cs, bs[k]) && c in cs && FirstToStop(cs, c)
    ensures InBatch(bs, k, c.entry.name)
  {
    var i :| k <= i && InBatch(bs, i, c.entry.name);
    var n :| n in bs[k] && Live(cs, n);
    var x := FindChild(cs, n).value;
    assert InBatch(bs, k, x.entry.name);
    assert k < i <==> Rank(x.entry.category) < Rank(c.entry.category);
  }

  lemma CurrentIsFirst(s: State, c: Child)
    requires s.shuttingDown && ShutdownOk(s) && SendsOk(s) && c in s.children
    ensures FirstToStop(s.children, c) <==> InBatch(s.batches, s.batchIndex, c.entry.name)
  {
    if FirstToStop(s.children, c) { FirstIsMember(s.children, s.batches, s.batchIndex, c); }
    if InBatch(s.batches, s.batchIndex, c.entry.name) { MemberIsFirst(s.children, s.batches, s.batchIndex, c); }
    hide Ranked, Remaining, AnyLive, FirstToStop, Since, Orderly, EarlierExited, Accounted, CleanStart, FindChild;
  }

  /** Over every run of a shutdown: a live child whose category stops first among those left was
      sent a SHUTDOWN frame, and no name was sent two. */
  lemma ShutdownAsksEveryone(registry: seq<ProcessEntry>, steps: seq<Step>)
    requires Run(Initial(registry), steps).shuttingDown
    ensures var s := Run(Initial(registry), steps);
      && (forall c :: c in s.children && FirstToStop(s.children, c) ==> ShutdownSent(c.entry.name) in Since(s.log))
      && (forall n :: InBatch(s.batches, s.batchIndex, n) && Live(s.children, n) ==> ShutdownSent(n) in Since(s.log))
      && SentOnce(Since(s.log))
  {
    InitialOk(registry);
    NotYet(Initial(registry));
    SendsInvariant(Initial(registry), steps);
    var s := Run(Initial(registry), steps);
    hide Run, Core, Since;
    forall c | c in s.children && FirstToStop(s.children, c) ensures ShutdownSent(c.entry.name) in Since(s.log) {
      CurrentIsFirst(s, c);
      LiveEach(s.children);
    }
  }

  /** These events ask or batch-kill members of batch k only. */
  ghost predicate ToBatch(bs: seq<seq<Name>>, k: int, more: seq<Event>) {
    forall i :: 0 <= i < |more| && (more[i].ShutdownSent? || (more[i].Terminated? && more[i].killer.BatchTimer?)) ==>
      InBatch(bs, k, more[i].name)
  }

  ghost predicate AsksCurrent(s: State, r: State) {
    s.log <= r.log && ToBatch(r.batches, r.batchIndex, r.log[|s.log|..])
  }

  lemma {:induction false} SendAsks(s: State)
    ensures AsksCurrent(s, SendCurrentBatch(s))
    decreases |s.batches| - s.batchIndex
  {
    if s.batchIndex < |s.batches| {
      if AnyLive(s.children, s.batches[s.batchIndex]) {
        var frames := ShutdownFrames(s.children, s.batches[s.batchIndex]);
        assert (s.log + frames)[|s.log|..] == frames;
        forall i | 0 <= i < |frames| ensures InBatch(s.batches, s.batchIndex, frames[i].name) { assert frames[i] in frames; }
      } else {
        SendAsks(s.(batchIndex := s.batchIndex + 1));
      }
    }
  }

  lemma AsksAfter(s: State, m: State, r: State, e: Event)
    requires m.log == s.log + [e] && !e.ShutdownSent? && !e.Terminated? && AsksCurrent(m, r)
    ensures AsksCurrent(s, r)
  {
    var more := r.log[|s.log|..];
    assert more[0] == m.log[|s.log|] == e;
    forall i | 0 <= i < |more| && (more[i].ShutdownSent? || (more[i].Terminated? && more[i].killer.BatchTimer?))
      ensures InBatch(r.batches, r.batchIndex, more[i].name)
    {
      assert more[i] == r.log[|m.log|..][i - 1];
    }
  }

  lemma StepAsks(s: State, step: Step)
    requires Core(s) && ShutdownOk(s) && Next(s, step).shuttingDown
    ensures AsksCurrent(s, Next(s, step))
  {
    var r := Next(s, step);
    hide Core, ShutdownOk, Drop, DropNamed, BuildShutdownBatches, SendCurrentBatch;
    if s.shuttingDown && step.ExitStep? {
      var c := ChildById(s.children, step.id);
      if c.Some? {
        var d := ExitCleanup(s, c.value, step.code);
        SendAsks(d.(tm := Drop(d.tm, BatchSlot), batchIndex := d.batchIndex + 1));
        hide ExitCleanup;
        assert d.log == s.log + [Exited(c.value.id, c.value.entry.name, step.code)] by { CleanupLog(s, c.value, step.code); }
        AsksAfter(s, d, AdvanceBatch(d), Exited(c.value.id, c.value.entry.name, step.code));
        assert d.shuttingDown ==> r == AdvanceBatch(d);
      }
    } else if s.shuttingDown {
      CalmStep(s, step);
      hide Next;
      forall i | 0 <= i < |r.log[|s.log|..]| ensures AllowedKill(s, r.log[|s.log|..][i]) {
        assert AllowedKill(s, r.log[|s.log| + i]);
      }
    } else if step.ShutdownStep? {
      var batches := BuildShutdownBatches(RunningPairs(s.children));
      var d := s.(shuttingDown := true, tm := DropNamed(s.tm), restartCounts := map[], pending := map[],
                  batches := batches, batchIndex := 0, log := s.log + [ShutdownBegun(batches)]);
      SendAsks(d);
      AsksAfter(s, d, SendCurrentBatch(d), ShutdownBegun(batches));
      assert r == SendCurrentBatch(d) by { BeginIs(s); }
    } else {
      OrdinaryStep(s, step);
    }
  }

  lemma CleanupLog(s: State, c: Child, code: int)
    ensures ExitCleanup(s, c, code).log == s.log + [Exited(c.id, c.entry.name, code)]
    ensures ExitCleanup(s, c, code).shuttingDown == s.shuttingDown
  {}

  lemma BeginIs(s: State)
    requires !s.shuttingDown
    ensures var batches := BuildShutdownBatches(RunningPairs(s.children));
      Shutdown(s) == SendCurrentBatch(s.(shuttingDown := true, tm := DropNamed(s.tm), restartCounts := map[], pending := map[],
                                         batches := batches, batchIndex := 0, log := s.log + [ShutdownBegun(batches)]))
  {
    hide DropNamed, BuildShutdownBatches, RunningPairs, CheckComplete;
  }

  /** The event asks n to stop, or kills it because the time of its batch is up. */
  predicate Presses(e: Event, n: Name) {
    e == ShutdownSent(n) || (e.Terminated? && e.killer.BatchTimer? && e.name == n)
  }

  lemma PressesFirst(s: State, r: State)
    requires r.shuttingDown && ShutdownOk(r) && SendsOk(r) && AsksCurrent(s, r)
    ensures forall i, c :: |s.log| <= i < |r.log| && c in r.children && Presses(r.log[i], c.entry.name) ==> FirstToStop(r.children, c)
  {
    hide ShutdownOk, SendsOk, FirstToStop;
    forall i, c | |s.log| <= i < |r.log| && c in r.children && Presses(r.log[i], c.entry.name) ensures FirstToStop(r.children, c) {
      assert r.log[|s.log|..][i - |s.log|] == r.log[i];
      CurrentIsFirst(r, c);
    }
  }

  /** Dependents first, without the batches: whenever a step of a shutdown asks a child to stop,
      or kills it for its batch, no child is left whose category stops earlier. */
  lemma DependentsStopFirst(registry: seq<ProcessEntry>, steps: seq<Step>, step: Step)
    requires Next(Run(Initial(registry), steps), step).shuttingDown
    ensures var s := Run(Initial(registry), steps);
      var r := Next(s, step);
      && s.log <= r.log
      && forall i, c :: |s.log| <= i < |r.log| && c in r.children && Presses(r.log[i], c.entry.name) ==> FirstToStop(r.children, c)
  {
    InitialOk(registry);
    NotYet(Initial(registry));
    hide *;
    SendsInvariant(Initial(registry), steps);
    var s := Run(Initial(registry), steps);
    StepAsks(s, step);
    CoreKept(s, step);
    ShutdownKept(s, step);
    StepSends(s, step);
    PressesFirst(s, Next(s, step));
    assert s.log <= Next(s, step).log by { AsksGrow(s, Next(s, step)); }
  }

  lemma AsksGrow(s: State, r: State)
    requires AsksCurrent(s, r)
    ensures s.log <= r.log
  {}
}
