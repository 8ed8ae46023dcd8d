/** The recorder as an object: a fixed array of scalar aggregates and a growing list of slots,
    updated in place. */
module HistoryRecorder {
  import opened Basics
  import opened HistoryAggregates
  import opened HistoryWindows

  class Recorder {
    const schema: seq<string>
    const scalars: array<Aggregate>
    var config: Config
    var bucket: Option<int>
    var interval: int
    var samples: nat
    var dimensions: seq<Slot>
    var marks: seq<Mark>
    var missed: nat

    ghost predicate Valid()
      reads this, scalars
    {
      scalars.Length == |schema|
    }

    ghost function View(): (s: State)
      reads this, scalars
      requires Valid()
      ensures |s.window.scalars| == |schema|
    {
      State(config, bucket, interval, samples, Window(scalars[..], dimensions), marks, missed)
    }

    constructor (schema: seq<string>, config: Config)
      ensures Valid() && fresh(scalars) && this.schema == schema
      ensures View() == Initial(schema, config)
    {
      this.schema := schema;
      this.scalars := new Aggregate[|schema|](_ => EMPTY);
      this.config := if config.interval <= 0 then config.(interval := 60) else config;
      bucket, interval, samples, missed := None, 60, 0, 0;
      dimensions, marks := [], [];
      new;
      assert scalars[..] == Blank(schema).scalars;
    }

    method FindScalar(name: string) returns (i: Option<nat>)
      ensures i == IndexOf(schema, name)
    {
      for k := 0 to |schema|
        invariant name !in schema[..k]
      {
        if schema[k] == name {
          FirstIndex(schema, name, k);
          return Some(k);
        }
      }
      assert schema[..|schema|] == schema;
      return None;
    }

    method ObserveDimension(key: SlotKey, v: real)
      modifies this`dimensions
      ensures dimensions == AddDimension(old(dimensions), key, v)
    {
      for i := 0 to |dimensions|
        invariant dimensions == old(dimensions)
        invariant forall j :: 0 <= j < i ==> dimensions[j].key != key
      {
        if dimensions[i].key == key {
          dimensions := dimensions[i := dimensions[i].(aggregate := Add(dimensions[i].aggregate, v))];
          return;
        }
      }
      dimensions := dimensions + [Slot(key, Add(EMPTY, v))];
    }

    method ObserveValue(o: Observation)
      requires Valid()
      modifies this`dimensions, scalars
      ensures Valid() && View().window == ObserveOne(schema, old(View()).window, o)
    {
      match o
      case Scalar(name, v) =>
        var i := FindScalar(name);
        if i.Some? { scalars[i.value] := Add(scalars[i.value], v); }
      case Dimension(key, v) => ObserveDimension(key, v);
    }

    method ObserveValues(snapshot: Snapshot)
      requires Valid()
      modifies this`dimensions, scalars
      ensures Valid() && View().window == ObserveAll(schema, old(View()).window, snapshot)
    {
      for k := 0 to |snapshot|
        invariant Valid() && View().window == ObserveAll(schema, old(View()).window, snapshot[..k])
      {
        assert snapshot[..k + 1][..k] == snapshot[..k];
        ObserveValue(snapshot[k]);
      }
      assert snapshot[..|snapshot|] == snapshot;
    }

    method ClearScalars()
      requires Valid()
      modifies scalars
      ensures scalars[..] == Blank(schema).scalars
    {
      for i := 0 to scalars.Length
        invariant forall j :: 0 <= j < i ==> scalars[j] == EMPTY
      {
        scalars[i] := EMPTY;
      }
    }

    method TakeBatch(start: int) returns (batch: Batch)
      requires Valid()
      modifies this, scalars
      ensures Valid() && (View(), batch) == HistoryWindows.TakeBatch(schema, old(View()), start)
    {
      var rows: seq<DimensionRecord> := [];
      for i := 0 to |dimensions|
        invariant rows == DimensionRecords(dimensions[..i], start)
      {
        rows := rows + [DimensionRecord(start, dimensions[i])];
      }
      assert dimensions[..|dimensions|] == dimensions;
      batch := Batch([ScalarRecord(start, interval, scalars[..])], rows, marks);
      marks := [];
      ClearScalars();
      dimensions := [];
      samples, missed := 0, 0;
    }

    method MarkIfIncomplete(batch: Batch, ts: int, samples: nat, missed: nat) returns (r: Batch)
      ensures r == batch.(marks := batch.marks + GapMarks(config, ts, samples, missed))
    {
      if Full(config, samples) && missed == 0 {
        assert batch.marks + [] == batch.marks;
        return batch;
      }
      return batch.(marks := batch.marks + [Mark(ts, SAMPLE_GAP, Counts(samples, missed))]);
    }

    method Observe(snapshot: Snapshot, now: int) returns (batch: Batch)
      requires Valid()
      modifies this, scalars
      ensures Valid() && (View(), batch) == ObserveSnapshot(schema, old(View()), snapshot, now)
    {
      hide ObserveAll, BucketStart, Full;
      var start := BucketStart(now, config.interval, config.phase);
      batch := NOTHING;
      if bucket.None? {
        bucket := Some(start);
        interval := config.interval;
      } else if bucket.value != start {
        var previous, count, skipped := bucket.value, samples, missed;
        batch := TakeBatch(previous);
        batch := MarkIfIncomplete(batch, previous, count, skipped);
        missed := 0;
        bucket := Some(start);
        interval := config.interval;
      }
      ObserveValues(snapshot);
      samples := samples + 1;
    }

    method Flush(now: int) returns (batch: Batch)
      requires Valid()
      modifies this, scalars
      ensures Valid() && (View(), batch) == FlushWindow(schema, old(View()), now)
    {
      if bucket.None? || samples <= 0 {
        batch := Batch([], [], marks);
        marks := [];
        missed, bucket, samples := 0, None, 0;
        return;
      }
      var previous, count, skipped := bucket.value, samples, missed;
      batch := TakeBatch(previous);
      batch := MarkIfIncomplete(batch, now, count, skipped);
      bucket := None;
    }

    method DrainMarks() returns (batch: Batch)
      requires Valid()
      modifies this
      ensures Valid() && (View(), batch) == Next(schema, old(View()), Drain)
    {
      batch := Batch([], [], marks);
      marks := [];
    }

    method AddMark(mark: Mark)
      requires Valid()
      modifies this
      ensures Valid() && (View(), NOTHING) == Next(schema, old(View()), Op.AddMark(mark))
    {
      marks := marks + [mark];
    }

    method NoteMissedTicks(count: nat)
      requires Valid()
      modifies this
      ensures Valid() && (View(), NOTHING) == Next(schema, old(View()), NoteMissed(count))
    {
      missed := missed + count;
    }

    method Reconfigure(c: Config)
      requires Valid()
      modifies this
      ensures Valid() && (View(), NOTHING) == Next(schema, old(View()), Op.Reconfigure(c))
    {
      config := if c.interval <= 0 then c.(interval := 60) else c;
    }
  }

  lemma {:induction false} FirstIndex(schema: seq<string>, name: string, k: nat)
    requires k < |schema| && schema[k] == name && name !in schema[..k]
    ensures IndexOf(schema, name) == Some(k)
  {
    var n := |schema| - 1;
    if k < n {
      assert schema[..n][..k] == schema[..k];
      FirstIndex(schema[..n], name, k);
      assert schema[..n][k] == name;
    }
  }
}
