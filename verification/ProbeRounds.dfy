/** One round of clock probing: what probe, a transport callback and the end of a round do to
    the prober. Readings of the two clocks are the values of one function, in order. */
module ProbeRounds {
  import opened Basics
  import opened NtpCodec
  import opened NtpPacket

  type Host = string

  datatype ProbeError = TimeoutError | KodRateError | KodDenyError | BadEchoError | UnreachableError

  datatype Detail = Detail(host: Host, ok: bool, offsetMs: Option<real>, boundMs: Option<real>, rttMs: Option<real>,
                           stratum: Option<int>, error: Option<ProbeError>)

  datatype Moment = Moment(wall: Int64, steady: int)

  datatype Pending = Pending(t1: Timestamp, steady: int, settled: bool)

  datatype KissEntry = KissEntry(blocked: bool, until: int)

  datatype Exchange = Received(packet: seq<Byte>) | TimedOut | NotReached

  datatype Outcome = Outcome(offsetMs: Option<real>, boundMs: Option<real>, source: Host, sourceStratum: Option<int>,
                             servers: seq<Detail>, finishedMs: int)

  /** What a transport hands back: the slot and round token captured by the request's handler. */
  datatype Callback = Callback(slot: nat, token: nat, result: Exchange)

  datatype Event =
    | Started(token: nat, hosts: seq<Host>)
    | Sent(host: Host, steady: int)
    | Kissed(host: Host, code: KissCode, steady: int)
    | Delivered(token: nat, outcome: Outcome)

  datatype State = State(
    inFlight: bool,
    token: nat,
    issuing: bool,
    finishRequested: bool,
    remaining: nat,
    pending: seq<Pending>,
    details: seq<Detail>,
    kiss: map<Host, KissEntry>,
    done: Option<nat>,
    readings: nat,
    log: seq<Event>)

  const KISS_BACKOFF: int := 3600 * SECOND

  function ToMs(nanos: int): real { nanos as real / 1000000.0 }

  // ----- single servers -----------------------------------------------------------------

  function Failed(d: Detail, e: ProbeError): Detail {
    Detail(d.host, false, None, None, None, None, Some(e))
  }

  function Blank(host: Host): Detail { Detail(host, false, None, None, None, None, None) }

  function SkipReason(kiss: map<Host, KissEntry>, host: Host, steady: int): Option<ProbeError> {
    if host !in kiss then None
    else if kiss[host].blocked then Some(KodDenyError)
    else if steady < kiss[host].until then Some(KodRateError)
    else None
  }

  function NoteKiss(kiss: map<Host, KissEntry>, host: Host, code: KissCode, steady: int): map<Host, KissEntry> {
    match code
    case Rate => kiss[host := KissEntry(false, steady + KISS_BACKOFF)]
    case Deny => kiss[host := KissEntry(true, 0)]
    case Restrict => kiss[host := KissEntry(true, 0)]
    case NoKiss => kiss
    case OtherKiss => kiss
  }

  function KissError(code: KissCode): ProbeError {
    match code
    case Rate => KodRateError
    case Deny => KodDenyError
    case Restrict => KodDenyError
    case NoKiss => BadEchoError
    case OtherKiss => BadEchoError
  }

  /** The kiss code a result carries, NoKiss when it is not a kiss-o'-death. */
  function KissIn(p: Pending, x: Exchange): KissCode {
    if !x.Received? || Parse(x.packet).Err? then NoKiss
    else if Classify(Parse(x.packet).value, p.t1) != KissOfDeath then NoKiss
    else KissOf(Parse(x.packet).value)
  }

  function Measure(d: Detail, p: Pending, r: Response, now: Moment): Detail {
    var ts := Timestamps(p.t1, r.receive, r.transmit, FromUnixNanos(now.wall));
    match DeriveSample(ts, now.steady - p.steady, r.rootDispersion)
    case None => Failed(d, BadEchoError)
    case Some(x) => Detail(d.host, true, Some(ToMs(x.offset)), Some(ToMs(x.bound)), Some(ToMs(x.rtt)), Some(r.stratum), None)
  }

  function Judge(d: Detail, p: Pending, now: Moment, x: Exchange): Detail {
    match x
    case TimedOut => Failed(d, TimeoutError)
    case NotReached => Failed(d, UnreachableError)
    case Received(packet) =>
      match Parse(packet)
      case Err(_) => Failed(d, BadEchoError)
      case Ok(r) =>
        match Classify(r, p.t1)
        case KissOfDeath => Failed(d, KissError(KissOf(r)))
        case Unsynchronised => Failed(d, BadEchoError)
        case BadEcho => Failed(d, BadEchoError)
        case Usable => Measure(d, p, r, now)
  }

  // ----- the aggregate --------------------------------------------------------------------

  predicate Candidate(d: Detail) { d.ok && d.rttMs.Some? && d.boundMs.Some? }

  predicate Better(a: Detail, b: Detail)
    requires Candidate(a) && Candidate(b)
  {
    a.rttMs.value < b.rttMs.value || (a.rttMs.value == b.rttMs.value && a.boundMs.value < b.boundMs.value)
  }

  /** The index the scan of the first k details ends with. */
  function Best(servers: seq<Detail>, k: nat): (r: Option<nat>)
    requires k <= |servers|
    ensures r.Some? ==> r.value < k && Candidate(servers[r.value])
  {
    if k == 0 then None
    else
      var best := Best(servers, k - 1);
      if !Candidate(servers[k - 1]) then best
      else if best.None? || Better(servers[k - 1], servers[best.value]) then Some(k - 1)
      else best
  }

  /** The scan finds the first lexicographic minimum of (rtt, bound), and finds one exactly
      when some server was measured. */
  lemma {:induction false} BestIsFirstMinimum(servers: seq<Detail>, k: nat)
    requires k <= |servers|
    ensures Best(servers, k).None? <==> forall i :: 0 <= i < k ==> !Candidate(servers[i])
    ensures Best(servers, k).Some? ==> var b := Best(servers, k).value;
      && (forall i :: 0 <= i < k && Candidate(servers[i]) ==> !Better(servers[i], servers[b]))
      && (forall i :: 0 <= i < b && Candidate(servers[i]) ==> Better(servers[b], servers[i]))
  {
    if k > 0 { BestIsFirstMinimum(servers, k - 1); }
  }

  function Aggregate(servers: seq<Detail>, finishedMs: int): Outcome {
    match Best(servers, |servers|)
    case None => Outcome(None, None, "", None, servers, finishedMs)
    case Some(b) => Outcome(servers[b].offsetMs, servers[b].boundMs, servers[b].host, servers[b].stratum, servers, finishedMs)
  }

  // ----- the handlers ---------------------------------------------------------------------

  function FinishRound(s: State, clock: nat -> Moment): State {
    var outcome := Aggregate(s.details, TruncDiv(clock(s.readings).wall, 1_000_000));
    s.(readings := s.readings + 1, inFlight := false, pending := [], details := [], done := None,
       log := if s.done.Some? then s.log + [Delivered(s.done.value, outcome)] else s.log)
  }

  predicate Foreign(s: State, c: Callback) {
    || !s.inFlight || c.token != s.token || c.slot >= |s.details| || s.remaining == 0
    || (c.slot < |s.pending| && s.pending[c.slot].settled)
  }

  /** The part of a callback before the count goes down. */
  function Settle(s: State, clock: nat -> Moment, c: Callback): State
    requires c.slot < |s.details| && c.slot < |s.pending|
  {
    var p := s.pending[c.slot];
    var d := s.details[c.slot];
    var now := clock(s.readings);
    var code := KissIn(p, c.result);
    s.(readings := s.readings + 1,
       pending := s.pending[c.slot := p.(settled := true)],
       details := s.details[c.slot := Judge(d, p, now, c.result)],
       kiss := NoteKiss(s.kiss, d.host, code, now.steady),
       log := if code.NoKiss? then s.log else s.log + [Kissed(d.host, code, now.steady)])
  }

  function HandleExchange(s: State, clock: nat -> Moment, c: Callback): State {
    if Foreign(s, c) || c.slot >= |s.pending| then s
    else
      var t := Settle(s, clock, c).(remaining := s.remaining - 1);
      if t.remaining > 0 then t
      else if t.issuing then t.(finishRequested := true)
      else FinishRound(t, clock)
  }

  function HandleAll(s: State, clock: nat -> Moment, cs: seq<Callback>): State
    decreases |cs|
  {
    if cs == [] then s else HandleAll(HandleExchange(s, clock, cs[0]), clock, cs[1..])
  }

  // ----- starting a round -------------------------------------------------------------------

  function Dedup(hosts: seq<Host>): seq<Host> {
    if hosts == [] then []
    else
      var rest := Dedup(hosts[..|hosts| - 1]);
      if hosts[|hosts| - 1] in rest then rest else rest + [hosts[|hosts| - 1]]
  }

  /** Why the server at index i is not contacted now, if it is not. */
  function ReasonAt(s: State, clock: nat -> Moment, hosts: seq<Host>, i: nat): Option<ProbeError>
    requires i < |hosts|
  {
    SkipReason(s.kiss, hosts[i], clock(s.readings).steady)
  }

  /** The first phase for one server: it fails for good or is counted. */
  function Sketch(s: State, clock: nat -> Moment, hosts: seq<Host>, i: nat): (t: State)
    requires i < |hosts| == |s.details|
    ensures |t.details| == |s.details|
  {
    var reason := ReasonAt(s, clock, hosts, i);
    s.(readings := s.readings + 1,
       details := s.details[i := if reason.Some? then Failed(Blank(hosts[i]), reason.value) else Blank(hosts[i])],
       remaining := if reason.Some? then s.remaining else s.remaining + 1)
  }

  /** Settles the servers that are not contacted; the slots are those that are. */
  function Skeleton(s: State, clock: nat -> Moment, hosts: seq<Host>, i: nat): (State, seq<nat>)
    requires i <= |hosts| == |s.details|
    decreases |hosts| - i
  {
    if i == |hosts| then (s, [])
    else
      var (t, slots) := Skeleton(Sketch(s, clock, hosts, i), clock, hosts, i + 1);
      (t, if ReasonAt(s, clock, hosts, i).Some? then slots else [i] + slots)
  }

  /** Sends to one slot; the transport may call back before it returns. */
  function IssueOne(s: State, clock: nat -> Moment, slot: nat): State
    requires slot < |s.details| && slot < |s.pending|
  {
    var now := clock(s.readings);
    s.(readings := s.readings + 1,
       pending := s.pending[slot := Pending(FromUnixNanos(now.wall), now.steady, false)],
       log := s.log + [Sent(s.details[slot].host, now.steady)])
  }

  function Window(during: seq<seq<Callback>>, k: nat): seq<Callback> { if k < |during| then during[k] else [] }

  function Issue(s: State, clock: nat -> Moment, slots: seq<nat>, during: seq<seq<Callback>>, k: nat): State
    decreases |slots|
  {
    if slots == [] || slots[0] >= |s.details| || slots[0] >= |s.pending| then s
    else Issue(HandleAll(IssueOne(s, clock, slots[0]), clock, Window(during, k)), clock, slots[1..], during, k + 1)
  }

  function NewRound(s: State, hosts: seq<Host>): State {
    var n := |Dedup(hosts)|;
    s.(inFlight := true, token := s.token + 1, done := Some(s.token + 1), remaining := 0, finishRequested := false,
       details := seq(n, i => Blank("")), pending := seq(n, i => Pending(Timestamp(0, 0), 0, true)),
       log := s.log + [Started(s.token + 1, hosts)])
  }

  function Probe(s: State, clock: nat -> Moment, hosts: seq<Host>, during: seq<seq<Callback>>): State {
    if s.inFlight then s
    else
      var (t, slots) := Skeleton(NewRound(s, hosts), clock, Dedup(hosts), 0);
      var u := Issue(t.(issuing := true), clock, slots, during, 0).(issuing := false);
      if u.finishRequested || u.remaining == 0 then FinishRound(u, clock) else u
  }

  // ----- runs -------------------------------------------------------------------------------

  datatype Step = ProbeStep(hosts: seq<Host>, during: seq<seq<Callback>>) | CallbackStep(callback: Callback)

  function Next(s: State, clock: nat -> Moment, step: Step): State {
    match step
    case ProbeStep(hosts, during) => Probe(s, clock, hosts, during)
    case CallbackStep(c) => HandleExchange(s, clock, c)
  }

  function Run(s: State, clock: nat -> Moment, steps: seq<Step>): State
    decreases |steps|
  {
    if steps == [] then s else Run(Next(s, clock, steps[0]), clock, steps[1..])
  }

  function Initial(): State { State(false, 0, false, false, 0, [], [], map[], None, 0, []) }
}
