/** Recording windows: what each call of the recorder does, and that the batches handed out are
    exactly the windows the sequence of observations falls into. */
module HistoryWindows {
  import opened Basics
  import opened HistoryAggregates

  datatype Config = Config(interval: int, phase: int, measureMs: int)

  datatype Detail = Text(text: string) | Counts(samples: nat, missed: nat)

  datatype Mark = Mark(ts: int, kind: string, detail: Detail)

  const SAMPLE_GAP := "sample_gap"

  datatype ScalarRecord = ScalarRecord(bucket: int, interval: int, metrics: seq<Aggregate>)

  datatype DimensionRecord = DimensionRecord(bucket: int, slot: Slot)

  datatype Batch = Batch(scalars: seq<ScalarRecord>, dimensions: seq<DimensionRecord>, marks: seq<Mark>)

  datatype State = State(config: Config, bucket: Option<int>, interval: int, samples: nat, window: Window,
                         marks: seq<Mark>, missed: nat)

  datatype Op =
    | Observe(snapshot: Snapshot, now: int)
    | Flush(now: int)
    | Drain
    | AddMark(mark: Mark)
    | NoteMissed(missed: nat)
    | Reconfigure(config: Config)

  // ----- buckets ------------------------------------------------------------------------------------

  function TruncMod(a: int, b: int): int
    requires b > 0
  {
    a - TruncDiv(a, b) * b
  }

  function BucketStart(now: int, interval: int, phase: int): int {
    if interval <= 0 then now
    else
      var wrapped := TruncMod(phase, interval);
      var p := if wrapped < 0 then wrapped + interval else wrapped;
      var shifted := now - p;
      var q := TruncDiv(shifted, interval);
      (if TruncMod(shifted, interval) != 0 && shifted < 0 then q - 1 else q) * interval + p
  }

  lemma TruncIsFloor(a: int, b: int)
    requires b > 0
    ensures var q := TruncDiv(a, b); (if TruncMod(a, b) != 0 && a < 0 then q - 1 else q) == a / b
    ensures (if TruncMod(a, b) < 0 then TruncMod(a, b) + b else TruncMod(a, b)) == a % b
  {
    if a < 0 {
      var q, r := (-a) / b, (-a) % b;
      assert -a == q * b + r;
      assert TruncMod(a, b) == -r;
      if r == 0 { DivideBy(a, -q, 0, b); } else { DivideBy(a, -q - 1, b - r, b); }
    }
  }

  lemma DivideBy(a: int, q: int, r: int, b: int)
    requires b > 0 && a == q * b + r && 0 <= r < b
    ensures a / b == q && a % b == r
  {
    var d := a / b - q;
    assert d * b == r - a % b;
    assert d >= 1 ==> d * b >= b;
    assert d <= -1 ==> d * b <= -b;
  }

  /** Buckets tile the line: for any time, before 1970 too, and any phase, out of range too, the
      bucket starts at most one interval before, on the grid of the phase. */
  lemma BucketTiles(now: int, interval: int, phase: int)
    requires interval > 0
    ensures var b := BucketStart(now, interval, phase);
      && b <= now < b + interval
      && (b - phase) % interval == 0
  {
    var p := phase % interval;
    BucketIsFloor(now, interval, phase);
    FloorOf(now - p, interval);
    FloorOf(phase, interval);
    OnGrid((now - p) / interval, phase / interval, interval);
    hide BucketStart;
  }

  lemma FloorOf(x: int, d: int)
    requires d > 0
    ensures x / d * d <= x < x / d * d + d && x == x / d * d + x % d
  {}

  lemma BucketIsFloor(now: int, interval: int, phase: int)
    requires interval > 0
    ensures var p := phase % interval; BucketStart(now, interval, phase) == (now - p) / interval * interval + p
  {
    TruncIsFloor(phase, interval);
    TruncIsFloor(now - phase % interval, interval);
    hide TruncDiv, TruncMod;
  }

  lemma OnGrid(q: int, k: int, interval: int)
    requires interval > 0
    ensures (q * interval - k * interval) % interval == 0
  {
    DivideBy(q * interval - k * interval, q - k, 0, interval);
  }

  // ----- the recorder ------------------------------------------------------------------------------------

  function Sane(c: Config): Config { if c.interval <= 0 then c.(interval := 60) else c }

  /** An interval that is not positive counts as sixty seconds; nothing else is changed. */
  lemma SaneExactly(c: Config)
    ensures Sane(c).interval == if c.interval > 0 then c.interval else 60
    ensures Sane(c).phase == c.phase && Sane(c).measureMs == c.measureMs
  {}

  function Initial(schema: seq<string>, c: Config): State { State(Sane(c), None, 60, 0, Blank(schema), [], 0) }

  function ExpectedSamples(c: Config): int {
    if c.measureMs <= 0 then 1 else Max(1, TruncDiv(c.interval * 1000, c.measureMs))
  }

  predicate Full(c: Config, samples: int) { samples + 1 >= ExpectedSamples(c) }

  /** The mark a closing window gets when its samples are short or ticks were reported missed. */
  function GapMarks(c: Config, ts: int, samples: nat, missed: nat): seq<Mark> {
    if Full(c, samples) && missed == 0 then [] else [Mark(ts, SAMPLE_GAP, Counts(samples, missed))]
  }

  function DimensionRecords(slots: seq<Slot>, bucket: int): (r: seq<DimensionRecord>)
    ensures |r| == |slots| && forall i :: 0 <= i < |r| ==> r[i] == DimensionRecord(bucket, slots[i])
  {
    seq(|slots|, i requires 0 <= i < |slots| => DimensionRecord(bucket, slots[i]))
  }

  function TakeBatch(schema: seq<string>, s: State, bucket: int): (State, Batch) {
    (s.(window := Blank(schema), samples := 0, missed := 0, marks := []),
     Batch([ScalarRecord(bucket, s.interval, s.window.scalars)], DimensionRecords(s.window.dimensions, bucket), s.marks))
  }

  const NOTHING := Batch([], [], [])

  function Sampled(schema: seq<string>, s: State, snapshot: Snapshot): State
    requires |s.window.scalars| == |schema|
  {
    s.(window := ObserveAll(schema, s.window, snapshot), samples := s.samples + 1)
  }

  function ObserveSnapshot(schema: seq<string>, s: State, snapshot: Snapshot, now: int): (State, Batch)
    requires |s.window.scalars| == |schema|
  {
    var bucket := BucketStart(now, s.config.interval, s.config.phase);
    if s.bucket.None? then (Sampled(schema, s.(bucket := Some(bucket), interval := s.config.interval), snapshot), NOTHING)
    else if s.bucket.value != bucket then
      var (t, batch) := TakeBatch(schema, s, s.bucket.value);
      (Sampled(schema, t.(bucket := Some(bucket), interval := s.config.interval), snapshot),
       batch.(marks := batch.marks + GapMarks(s.config, s.bucket.value, s.samples, s.missed)))
    else (Sampled(schema, s, snapshot), NOTHING)
  }

  function FlushWindow(schema: seq<string>, s: State, now: int): (State, Batch) {
    if s.bucket.None? || s.samples <= 0 then
      (s.(marks := [], missed := 0, bucket := None, samples := 0), Batch([], [], s.marks))
    else
      var (t, batch) := TakeBatch(schema, s, s.bucket.value);
      (t.(bucket := None), batch.(marks := batch.marks + GapMarks(s.config, now, s.samples, s.missed)))
  }

  function Next(schema: seq<string>, s: State, op: Op): (r: (State, Batch))
    requires |s.window.scalars| == |schema|
    ensures |r.0.window.scalars| == |schema|
  {
    match op
    case Observe(snapshot, now) => ObserveSnapshot(schema, s, snapshot, now)
    case Flush(now) => FlushWindow(schema, s, now)
    case Drain => (s.(marks := []), Batch([], [], s.marks))
    case AddMark(mark) => (s.(marks := s.marks + [mark]), NOTHING)
    case NoteMissed(missed) => (s.(missed := s.missed + missed), NOTHING)
    case Reconfigure(c) => (s.(config := Sane(c)), NOTHING)
  }

  /** The state after a run, and the batches of its calls. */
  function Run(schema: seq<string>, c: Config, ops: seq<Op>): (r: (State, seq<Batch>))
    ensures |r.0.window.scalars| == |schema|
  {
    if ops == [] then (Initial(schema, c), [])
    else
      var (s, out) := Run(schema, c, ops[..|ops| - 1]);
      var (t, batch) := Next(schema, s, ops[|ops| - 1]);
      (t, out + [batch])
  }

  // ----- windows, from the calls alone ----------------------------------------------------------------------

  datatype Tick = Tick(snapshot: Snapshot, now: int, config: Config)

  /** A window: its bucket, the configuration it was opened with, and its observations. */
  datatype Opened = Opened(bucket: int, config: Config, ticks: seq<Tick>)

  /** How a window was closed: the configuration then, the ticks reported missed by then, and
      the time a gap mark would bear. */
  datatype Closed = Closed(span: Opened, config: Config, missed: nat, ts: int)

  datatype Tiling = Tiling(closed: seq<Closed>, current: Option<Opened>, config: Config, missed: nat)

  function BucketOf(t: Tick): int { BucketStart(t.now, t.config.interval, t.config.phase) }

  function Tile(t: Tiling, op: Op): Tiling {
    match op
    case Observe(snapshot, now) =>
      var tick := Tick(snapshot, now, t.config);
      var b := BucketOf(tick);
      if t.current.None? then t.(current := Some(Opened(b, t.config, [tick])))
      else if t.current.value.bucket == b then t.(current := Some(t.current.value.(ticks := t.current.value.ticks + [tick])))
      else t.(closed := t.closed + [Closed(t.current.value, t.config, t.missed, t.current.value.bucket)],
              current := Some(Opened(b, t.config, [tick])), missed := 0)
    case Flush(now) =>
      if t.current.None? then t.(missed := 0)
      else t.(closed := t.closed + [Closed(t.current.value, t.config, t.missed, now)], current := None, missed := 0)
    case NoteMissed(missed) => t.(missed := t.missed + missed)
    case Reconfigure(c) => t.(config := Sane(c))
    case Drain => t
    case AddMark(_) => t
  }

  function TileAll(c: Config, ops: seq<Op>): Tiling {
    if ops == [] then Tiling([], None, Sane(c), 0) else Tile(TileAll(c, ops[..|ops| - 1]), ops[|ops| - 1])
  }

  /** The snapshots observed, in order. */
  function Observed(ops: seq<Op>): seq<Snapshot> {
    if ops == [] then []
    else Observed(ops[..|ops| - 1]) + if ops[|ops| - 1].Observe? then [ops[|ops| - 1].snapshot] else []
  }

  function Snapshots(ticks: seq<Tick>): seq<Snapshot> {
    if ticks == [] then [] else Snapshots(ticks[..|ticks| - 1]) + [ticks[|ticks| - 1].snapshot]
  }

  function ClosedSnapshots(ws: seq<Closed>): seq<Snapshot> {
    if ws == [] then [] else ClosedSnapshots(ws[..|ws| - 1]) + Snapshots(ws[|ws| - 1].span.ticks)
  }

  function TiledSnapshots(t: Tiling): seq<Snapshot> {
    ClosedSnapshots(t.closed) + if t.current.Some? then Snapshots(t.current.value.ticks) else []
  }

  /** Not empty, and every observation lies in the window's own bucket. */
  ghost predicate InBucket(w: Opened) {
    w.ticks != [] && forall i :: 0 <= i < |w.ticks| ==> BucketOf(w.ticks[i]) == w.bucket
  }

  lemma TileConserves(t: Tiling, op: Op)
    ensures TiledSnapshots(Tile(t, op)) == TiledSnapshots(t) + if op.Observe? then [op.snapshot] else []
  {
    hide BucketStart;
    if op.Observe? {
      var tick := Tick(op.snapshot, op.now, t.config);
      assert [tick][..0] == [] && Snapshots([tick]) == [op.snapshot];
      if t.current.Some? {
        var w := t.current.value;
        assert (w.ticks + [tick])[..|w.ticks|] == w.ticks;
        assert (t.closed + [Closed(w, t.config, t.missed, w.bucket)])[..|t.closed|] == t.closed;
      }
    } else if op.Flush? && t.current.Some? {
      assert (t.closed + [Closed(t.current.value, t.config, t.missed, op.now)])[..|t.closed|] == t.closed;
    }
  }

  /** Nothing is lost, repeated or moved between windows: the closed windows and the open one
      together are the observed sequence, and each window is not empty and lies in one bucket. */
  lemma {:induction false} WindowsConserve(c: Config, ops: seq<Op>)
    ensures TiledSnapshots(TileAll(c, ops)) == Observed(ops)
    ensures forall i :: 0 <= i < |TileAll(c, ops).closed| ==> InBucket(TileAll(c, ops).closed[i].span)
    ensures TileAll(c, ops).current.Some? ==> InBucket(TileAll(c, ops).current.value)
  {
    if ops != [] {
      WindowsConserve(c, ops[..|ops| - 1]);
      TileConserves(TileAll(c, ops[..|ops| - 1]), ops[|ops| - 1]);
      hide TiledSnapshots, BucketOf;
    }
  }

  // ----- batches are windows ------------------------------------------------------------------------------

  function Flat(snapshots: seq<Snapshot>): seq<Observation> {
    if snapshots == [] then [] else Flat(snapshots[..|snapshots| - 1]) + snapshots[|snapshots| - 1]
  }

  /** The observations of a window, one after the other. */
  function Content(w: Opened): seq<Observation> { Flat(Snapshots(w.ticks)) }

  function Summary(schema: seq<string>, w: Opened): Window { ObserveAll(schema, Blank(schema), Content(w)) }

  /** The data rows of a closed window. */
  function RowsOf(schema: seq<string>, w: Closed): (seq<ScalarRecord>, seq<DimensionRecord>) {
    ([ScalarRecord(w.span.bucket, w.span.config.interval, Summary(schema, w.span).scalars)],
     DimensionRecords(Summary(schema, w.span).dimensions, w.span.bucket))
  }

  function GapOf(w: Closed): seq<Mark> { GapMarks(w.config, w.ts, |w.span.ticks|, w.missed) }

  /** The recorder holds the open window's summary and the facts its closing will need. */
  ghost predicate Holds(schema: seq<string>, s: State, t: Tiling) {
    && s.config == t.config && s.missed == t.missed
    && (if t.current.None? then s.bucket.None? && s.samples == 0 && s.window == Blank(schema)
        else
          var w := t.current.value;
          && s.bucket == Some(w.bucket) && s.interval == w.config.interval
          && s.samples == |w.ticks| > 0 && s.window == Summary(schema, w))
  }

  /** The batch of a call: the rows and the gap mark of the window it closed, if it closed one,
      behind the marks that were queued, if it took them. */
  ghost predicate BatchIs(schema: seq<string>, s: State, op: Op, t: Tiling, batch: Batch) {
    var u := Tile(t, op);
    if |u.closed| > |t.closed| then
      && u.closed == t.closed + [u.closed[|t.closed|]]
      && (batch.scalars, batch.dimensions) == RowsOf(schema, u.closed[|t.closed|])
      && batch.marks == s.marks + GapOf(u.closed[|t.closed|])
    else
      && u.closed == t.closed
      && batch.scalars == [] && batch.dimensions == []
      && batch.marks == if op.Flush? || op.Drain? then s.marks else []
  }

  lemma SummaryGrows(schema: seq<string>, w: Opened, tick: Tick)
    ensures Summary(schema, w.(ticks := w.ticks + [tick])) == ObserveAll(schema, Summary(schema, w), tick.snapshot)
  {
    assert (w.ticks + [tick])[..|w.ticks|] == w.ticks;
    var ss := Snapshots(w.ticks);
    assert (ss + [tick.snapshot])[..|ss|] == ss;
    ObserveConcat(schema, Blank(schema), Content(w), tick.snapshot);
  }

  lemma SummaryOfOne(schema: seq<string>, b: int, c: Config, tick: Tick)
    ensures Summary(schema, Opened(b, c, [tick])) == ObserveAll(schema, Blank(schema), tick.snapshot)
  {
    SummaryGrows(schema, Opened(b, c, []), tick);
    assert [] + [tick] == [tick];
  }

  lemma ObserveHolds(schema: seq<string>, s: State, t: Tiling, snapshot: Snapshot, now: int)
    requires |s.window.scalars| == |schema| && Holds(schema, s, t)
    ensures var (n, batch) := ObserveSnapshot(schema, s, snapshot, now);
      Holds(schema, n, Tile(t, Observe(snapshot, now))) && BatchIs(schema, s, Observe(snapshot, now), t, batch)
  {
    var tick := Tick(snapshot, now, t.config);
    SummaryOfOne(schema, BucketOf(tick), t.config, tick);
    if t.current.Some? { SummaryGrows(schema, t.current.value, tick); }
    hide Summary, ObserveAll, BucketStart, Full, Blank;
  }

  lemma NextHolds(schema: seq<string>, s: State, t: Tiling, op: Op)
    requires |s.window.scalars| == |schema| && Holds(schema, s, t)
    ensures var (n, batch) := Next(schema, s, op); Holds(schema, n, Tile(t, op)) && BatchIs(schema, s, op, t, batch)
  {
    hide Summary, ObserveAll, BucketStart, Full, Blank, ObserveSnapshot;
    if op.Observe? { ObserveHolds(schema, s, t, op.snapshot, op.now); }
  }

  lemma {:induction false} RunHolds(schema: seq<string>, c: Config, ops: seq<Op>)
    ensures Holds(schema, Run(schema, c, ops).0, TileAll(c, ops))
  {
    if ops != [] {
      RunHolds(schema, c, ops[..|ops| - 1]);
      hide Next, Tile, Holds;
      NextHolds(schema, Run(schema, c, ops[..|ops| - 1]).0, TileAll(c, ops[..|ops| - 1]), ops[|ops| - 1]);
    }
  }

  // ----- whole runs ---------------------------------------------------------------------------------------

  function DataOf(out: seq<Batch>): seq<(seq<ScalarRecord>, seq<DimensionRecord>)> {
    if out == [] then []
    else
      var b := out[|out| - 1];
      DataOf(out[..|out| - 1]) + if b.scalars == [] && b.dimensions == [] then [] else [(b.scalars, b.dimensions)]
  }

  function AllRows(schema: seq<string>, ws: seq<Closed>): seq<(seq<ScalarRecord>, seq<DimensionRecord>)> {
    if ws == [] then [] else AllRows(schema, ws[..|ws| - 1]) + [RowsOf(schema, ws[|ws| - 1])]
  }

  /** Over every run of calls, the data handed out is one batch per closed window, in order,
      each with the aggregates of exactly that window's observations. */
  lemma {:induction false} BatchesAreWindows(schema: seq<string>, c: Config, ops: seq<Op>)
    ensures DataOf(Run(schema, c, ops).1) == AllRows(schema, TileAll(c, ops).closed)
  {
    if ops != [] {
      var front, op := ops[..|ops| - 1], ops[|ops| - 1];
      BatchesAreWindows(schema, c, front);
      RunHolds(schema, c, front);
      var (s, out) := Run(schema, c, front);
      var t := TileAll(c, front);
      NextHolds(schema, s, t, op);
      var batch := Next(schema, s, op).1;
      var u := Tile(t, op);
      assert Run(schema, c, ops).1 == out + [batch] && (out + [batch])[..|out|] == out;
      if |u.closed| > |t.closed| { assert u.closed[..|t.closed|] == t.closed; }
      hide Next, Tile, Holds, Summary, GapOf;
    }
  }

  /** What a row says: its scalars and slots fold the values observed in its window, and no key
      has two slots. */
  lemma RowsMean(schema: seq<string>, w: Closed)
    ensures var rows := RowsOf(schema, w);
      && Aggregates(schema, Window(rows.0[0].metrics, Summary(schema, w.span).dimensions), Content(w.span))
      && (forall i :: 0 <= i < |rows.1| ==> rows.1[i] == DimensionRecord(w.span.bucket, Summary(schema, w.span).dimensions[i]))
      && |rows.1| == |Summary(schema, w.span).dimensions|
  {
    WindowAggregates(schema, Content(w.span));
    hide Aggregates, ObserveAll, Content;
  }

  // ----- marks --------------------------------------------------------------------------------------------

  function Added(ops: seq<Op>): seq<Mark> {
    if ops == [] then []
    else Added(ops[..|ops| - 1]) + if ops[|ops| - 1].AddMark? then [ops[|ops| - 1].mark] else []
  }

  /** The gap marks each call added on its own. */
  function GapsIn(c: Config, ops: seq<Op>): seq<seq<Mark>> {
    if ops == [] then []
    else
      var t := TileAll(c, ops[..|ops| - 1]);
      var u := Tile(t, ops[|ops| - 1]);
      GapsIn(c, ops[..|ops| - 1]) + [if |u.closed| > |t.closed| then GapOf(u.closed[|u.closed| - 1]) else []]
  }

  /** Queued marks handed out by the calls, when each call's batch ends with its gap marks. */
  ghost predicate Splits(out: seq<Batch>, queued: seq<seq<Mark>>, gaps: seq<seq<Mark>>) {
    |out| == |queued| == |gaps| && forall i :: 0 <= i < |out| ==> out[i].marks == queued[i] + gaps[i]
  }

  function Concat(ms: seq<seq<Mark>>): seq<Mark> { if ms == [] then [] else Concat(ms[..|ms| - 1]) + ms[|ms| - 1] }

  /** The queued part of each batch of a run. */
  function QueuedIn(schema: seq<string>, c: Config, ops: seq<Op>): seq<seq<Mark>> {
    if ops == [] then []
    else
      var front, op := ops[..|ops| - 1], ops[|ops| - 1];
      var t := TileAll(c, front);
      QueuedIn(schema, c, front)
      + [if |Tile(t, op).closed| > |t.closed| || op.Flush? || op.Drain? then Run(schema, c, front).0.marks else []]
  }

  lemma MarksStep(schema: seq<string>, s: State, t: Tiling, op: Op)
    requires |s.window.scalars| == |schema| && Holds(schema, s, t)
    ensures var taken := |Tile(t, op).closed| > |t.closed| || op.Flush? || op.Drain?;
      Next(schema, s, op).0.marks == (if taken then [] else s.marks) + if op.AddMark? then [op.mark] else []
  {
    hide Summary, ObserveAll, BucketStart, Full, Blank, GapMarks;
  }

  /** Every mark that was added is handed out exactly once and in order, or is still queued. */
  lemma {:induction false} MarksConserve(schema: seq<string>, c: Config, ops: seq<Op>)
    ensures Concat(QueuedIn(schema, c, ops)) + Run(schema, c, ops).0.marks == Added(ops)
  {
    if ops != [] {
      var front, op := ops[..|ops| - 1], ops[|ops| - 1];
      MarksConserve(schema, c, front);
      RunHolds(schema, c, front);
      var s := Run(schema, c, front).0;
      MarksStep(schema, s, TileAll(c, front), op);
      hide Next, Tile, Holds, TileAll;
      var queued := QueuedIn(schema, c, front);
      var last := QueuedIn(schema, c, ops)[|queued|];
      assert QueuedIn(schema, c, ops) == queued + [last] && (queued + [last])[..|queued|] == queued;
    }
  }

  /** And the only other marks handed out are gap marks: each batch is its queued marks followed
      by the gap mark of the window the call closed, if that window has one. */
  lemma {:induction false} MarksAreQueuedOrGaps(schema: seq<string>, c: Config, ops: seq<Op>)
    ensures Splits(Run(schema, c, ops).1, QueuedIn(schema, c, ops), GapsIn(c, ops))
  {
    if ops != [] {
      var front, op := ops[..|ops| - 1], ops[|ops| - 1];
      MarksAreQueuedOrGaps(schema, c, front);
      RunHolds(schema, c, front);
      NextHolds(schema, Run(schema, c, front).0, TileAll(c, front), op);
      hide Next, Tile, Holds, RowsOf, GapOf, TileAll;
    }
  }

  /** A full window holds as many measurements as fit into its interval, and at least one. */
  lemma ExpectedIsWhatFits(c: Config)
    ensures var k := ExpectedSamples(c);
      && k >= 1
      && (c.measureMs <= 0 ==> k == 1)
      && (c.measureMs > 0 ==> (k > 1 ==> k * c.measureMs <= 1000 * c.interval) && 1000 * c.interval < (k + 1) * c.measureMs)
  {
    if c.measureMs > 0 && c.interval > 0 {
      var q := c.interval * 1000 / c.measureMs;
      assert q * c.measureMs <= c.interval * 1000 < q * c.measureMs + c.measureMs;
      assert (q + 1) * c.measureMs == q * c.measureMs + c.measureMs;
    } else if c.measureMs > 0 {
      assert TruncDiv(c.interval * 1000, c.measureMs) <= 0;
    }
  }

  /** When a window's closing is marked as a gap. */
  lemma GapExactly(w: Closed)
    ensures GapOf(w) != [] <==> |w.span.ticks| + 1 < ExpectedSamples(w.config) || w.missed > 0
    ensures GapOf(w) != [] ==> GapOf(w) == [Mark(w.ts, SAMPLE_GAP, Counts(|w.span.ticks|, w.missed))]
  {
    hide ExpectedSamples;
  }

  /** The number in the mark is that of the samples seen. It is the number missing, as the header
      has it, exactly when half of those expected were seen. */
  lemma GapNamesMissingExactly(w: Closed)
    requires GapOf(w) != []
    ensures var mark := GapOf(w)[0];
      && mark.detail.Counts?
      && (mark.detail.samples == ExpectedSamples(w.config) - |w.span.ticks| <==> 2 * |w.span.ticks| == ExpectedSamples(w.config))
  {
    GapExactly(w);
    hide ExpectedSamples;
  }

  /** One sample of sixty: the mark says one, not 59. */
  lemma OneOfSixty(schema: seq<string>)
    ensures var c := Config(60, 0, 1000);
      var out := Run(schema, c, [Observe([], 0), Flush(1)]).1;
      && ExpectedSamples(c) == 60
      && |out| == 2 && out[1].marks == [Mark(1, "sample_gap", Counts(1, 0))]
  {
    var c := Config(60, 0, 1000);
    var a, b := Observe([], 0), Flush(1);
    assert [a, b][..1] == [a] && [a][..0] == [];
    TwoBuckets();
    hide BucketStart, ObserveAll, Blank;
    assert Run(schema, c, []) == (Initial(schema, c), []);
    assert Run(schema, c, [a]).0.samples == 1 && Run(schema, c, [a]).0.bucket == Some(0) && Run(schema, c, [a]).0.marks == [];
  }

  // ----- reconfiguration ------------------------------------------------------------------------------------

  /** A new configuration counts from the very next observation, not from the next window: the
      open window goes on exactly when the new grid puts that observation in a bucket that
      starts where the open one does. */
  lemma ReconfigureCutsExactly(c: Config, ops: seq<Op>, renewed: Config, snapshot: Snapshot, now: int)
    requires TileAll(c, ops).current.Some?
    ensures var t := TileAll(c, ops);
      var u := Tile(Tile(t, Reconfigure(renewed)), Observe(snapshot, now));
      |u.closed| == |t.closed| <==> BucketStart(now, Sane(renewed).interval, Sane(renewed).phase) == t.current.value.bucket
  {
    hide BucketStart;
  }

  /** So halving the interval cuts a minute at 45 seconds, and its row still says 60. */
  lemma HalvingCutsTheMinute(schema: seq<string>)
    ensures var old60, new30 := Config(60, 0, 1000), Config(30, 0, 1000);
      var t := TileAll(old60, [Observe([], 0), Reconfigure(new30), Observe([], 45)]);
      && t.closed == [Closed(Opened(0, old60, [Tick([], 0, old60)]), new30, 0, 0)]
      && t.current == Some(Opened(30, new30, [Tick([], 45, new30)]))
      && RowsOf(schema, t.closed[0]).0[0].interval == 60
  {
    var old60, new30 := Config(60, 0, 1000), Config(30, 0, 1000);
    var a, b, d := Observe([], 0), Reconfigure(new30), Observe([], 45);
    TwoBuckets();
    EmptyTiling(old60);
    TileAllLast(old60, [], a);
    TileAllLast(old60, [a], b);
    TileAllLast(old60, [a, b], d);
    hide TileAll, Summary, BucketStart;
    assert [] + [a] == [a] && [a] + [b] == [a, b] && [a, b] + [d] == [a, b, d];
    TileThree(a, b, d, old60, new30);
  }

  lemma TwoBuckets()
    ensures BucketStart(0, 60, 0) == 0 && BucketStart(45, 30, 0) == 30
  {}

  lemma TileThree(a: Op, b: Op, d: Op, old60: Config, new30: Config)
    requires old60 == Config(60, 0, 1000) && new30 == Config(30, 0, 1000)
    requires a == Observe([], 0) && b == Reconfigure(new30) && d == Observe([], 45)
    ensures Tile(Tile(Tile(Tiling([], None, old60, 0), a), b), d) ==
            Tiling([Closed(Opened(0, old60, [Tick([], 0, old60)]), new30, 0, 0)], Some(Opened(30, new30, [Tick([], 45, new30)])), new30, 0)
  {
    TwoBuckets();
    hide BucketStart;
  }

  lemma EmptyTiling(c: Config)
    ensures TileAll(c, []) == Tiling([], None, Sane(c), 0)
  {}

  lemma TileAllLast(c: Config, ops: seq<Op>, op: Op)
    ensures TileAll(c, ops + [op]) == Tile(TileAll(c, ops), op)
  {
    assert (ops + [op])[..|ops|] == ops;
  }
}
