/** Aggregates of one window: the running minimum, maximum, mean, last value and count of every
    metric, and what they are of. Values are exact reals. */
module HistoryAggregates {
  import opened Basics

  datatype Aggregate = Aggregate(min: real, max: real, avg: real, last: real, count: nat)

  const EMPTY := Aggregate(0.0, 0.0, 0.0, 0.0, 0)

  function Add(a: Aggregate, v: real): Aggregate {
    if a.count == 0 then Aggregate(v, v, v, v, 1)
    else
      var n := a.count as real;
      Aggregate(if v < a.min then v else a.min, if a.max < v then v else a.max, (a.avg * n + v) / (n + 1.0), v, a.count + 1)
  }

  /** One metric's values of a window, in order, folded into its aggregate. */
  function Fold(vs: seq<real>): Aggregate {
    if vs == [] then EMPTY else Add(Fold(vs[..|vs| - 1]), vs[|vs| - 1])
  }

  function Sum(vs: seq<real>): real { if vs == [] then 0.0 else Sum(vs[..|vs| - 1]) + vs[|vs| - 1] }

  lemma {:induction false} FoldExtremes(vs: seq<real>)
    ensures Fold(vs).count == |vs|
    ensures vs == [] ==> var a := Fold(vs); a.min == a.max == a.avg == a.last == 0.0
    ensures vs != [] ==> Fold(vs).last == vs[|vs| - 1]
    ensures vs != [] ==> Fold(vs).min in vs && Fold(vs).max in vs
    ensures forall v :: v in vs ==> Fold(vs).min <= v <= Fold(vs).max
  {
    if vs != [] {
      var front, v := vs[..|vs| - 1], vs[|vs| - 1];
      assert vs == front + [v];
      FoldExtremes(front);
      var a := Fold(front);
      assert Fold(vs) == Add(a, v);
      hide Fold;
    }
  }

  lemma AddMean(a: Aggregate, v: real)
    ensures a.count > 0 ==> Add(a, v).avg * (a.count + 1) as real == a.avg * a.count as real + v
    ensures Add(a, v).count == a.count + 1
  {
    if a.count > 0 { MeanStep(a.avg, a.count as real, v); }
  }

  lemma {:induction false} FoldMean(vs: seq<real>)
    ensures Fold(vs).count == |vs|
    ensures Fold(vs).avg * |vs| as real == Sum(vs)
  {
    if |vs| > 1 {
      var front, v := vs[..|vs| - 1], vs[|vs| - 1];
      FoldMean(front);
      AddMean(Fold(front), v);
      assert Fold(vs) == Add(Fold(front), v);
      hide Fold, Add;
    } else if |vs| == 1 {
      assert vs[..0] == [];
    }
  }

  /** The incremental aggregate is the extremes, the mean, the last and the number of its values. */
  lemma FoldMeaning(vs: seq<real>)
    ensures Fold(vs).count == |vs|
    ensures vs == [] ==> var a := Fold(vs); a.min == a.max == a.avg == a.last == 0.0
    ensures vs != [] ==> var a := Fold(vs);
      && a.min in vs && a.max in vs && (forall v :: v in vs ==> a.min <= v <= a.max)
      && a.avg * |vs| as real == Sum(vs) && a.last == vs[|vs| - 1]
  {
    FoldExtremes(vs);
    FoldMean(vs);
    hide Fold;
  }

  lemma MeanStep(avg: real, n: real, v: real)
    requires n > 0.0
    ensures (avg * n + v) / (n + 1.0) * (n + 1.0) == avg * n + v
  {}

  // ----- metrics of a window ------------------------------------------------------------------------

  datatype SlotKey = SlotKey(domain: string, dimension: string, metric: string)

  datatype Slot = Slot(key: SlotKey, aggregate: Aggregate)

  /** What one snapshot has to say, in the order it is observed. Unavailable values are absent. */
  datatype Observation = Scalar(name: string, value: real) | Dimension(key: SlotKey, value: real)

  type Snapshot = seq<Observation>

  datatype Window = Window(scalars: seq<Aggregate>, dimensions: seq<Slot>)

  function IndexOf(schema: seq<string>, name: string): (r: Option<nat>)
    ensures r.Some? ==> r.value < |schema| && schema[r.value] == name
    ensures r.None? ==> name !in schema
  {
    if schema == [] then None
    else if schema[|schema| - 1] == name && name !in schema[..|schema| - 1] then Some(|schema| - 1)
    else IndexOf(schema[..|schema| - 1], name)
  }

  function FindSlot(slots: seq<Slot>, key: SlotKey): (r: Option<nat>)
    ensures r.Some? ==> r.value < |slots| && slots[r.value].key == key && forall i :: 0 <= i < r.value ==> slots[i].key != key
    ensures r.None? ==> forall i :: 0 <= i < |slots| ==> slots[i].key != key
  {
    if slots == [] then None
    else
      var r := FindSlot(slots[..|slots| - 1], key);
      if r.Some? then r else if slots[|slots| - 1].key == key then Some(|slots| - 1) else None
  }

  function AddDimension(slots: seq<Slot>, key: SlotKey, v: real): seq<Slot> {
    var i := FindSlot(slots, key);
    if i.Some? then slots[i.value := slots[i.value].(aggregate := Add(slots[i.value].aggregate, v))]
    else slots + [Slot(key, Add(EMPTY, v))]
  }

  function Blank(schema: seq<string>): Window { Window(seq(|schema|, _ => EMPTY), []) }

  /** A name the schema does not register is skipped. */
  function ObserveOne(schema: seq<string>, w: Window, o: Observation): (r: Window)
    requires |w.scalars| == |schema|
    ensures |r.scalars| == |schema|
  {
    match o
    case Scalar(name, v) =>
      var i := IndexOf(schema, name);
      if i.Some? then w.(scalars := w.scalars[i.value := Add(w.scalars[i.value], v)]) else w
    case Dimension(key, v) => w.(dimensions := AddDimension(w.dimensions, key, v))
  }

  function ObserveAll(schema: seq<string>, w: Window, os: seq<Observation>): (r: Window)
    requires |w.scalars| == |schema|
    ensures |r.scalars| == |schema|
  {
    if os == [] then w else ObserveOne(schema, ObserveAll(schema, w, os[..|os| - 1]), os[|os| - 1])
  }

  lemma {:induction false} ObserveConcat(schema: seq<string>, w: Window, a: seq<Observation>, b: seq<Observation>)
    requires |w.scalars| == |schema|
    ensures ObserveAll(schema, w, a + b) == ObserveAll(schema, ObserveAll(schema, w, a), b)
  {
    if b == [] {
      assert a + b == a;
    } else {
      assert (a + b)[..|a + b| - 1] == a + b[..|b| - 1];
      ObserveConcat(schema, w, a, b[..|b| - 1]);
    }
  }

  /** The values of one registered scalar among the observations. */
  function ScalarValues(schema: seq<string>, os: seq<Observation>, i: nat): seq<real> {
    if os == [] then []
    else
      var o := os[|os| - 1];
      ScalarValues(schema, os[..|os| - 1], i) + if o.Scalar? && IndexOf(schema, o.name) == Some(i) then [o.value] else []
  }

  function DimensionValues(os: seq<Observation>, key: SlotKey): seq<real> {
    if os == [] then []
    else
      var o := os[|os| - 1];
      DimensionValues(os[..|os| - 1], key) + if o.Dimension? && o.key == key then [o.value] else []
  }

  /** A slot folds exactly the values observed under its key, of which there is at least one. */
  ghost predicate Folds(slot: Slot, os: seq<Observation>) {
    slot.aggregate == Fold(DimensionValues(os, slot.key)) && DimensionValues(os, slot.key) != []
  }

  function Keys(slots: seq<Slot>): seq<SlotKey> { seq(|slots|, i requires 0 <= i < |slots| => slots[i].key) }

  /** Slots have distinct keys, fold their values, and no observed key is without a slot. */
  ghost predicate SlotsOf(slots: seq<Slot>, os: seq<Observation>) {
    && (forall i, j :: 0 <= i < j < |slots| ==> slots[i].key != slots[j].key)
    && (forall i :: 0 <= i < |slots| ==> Folds(slots[i], os))
    && (forall key :: key !in Keys(slots) ==> DimensionValues(os, key) == [])
  }

  ghost predicate Aggregates(schema: seq<string>, w: Window, os: seq<Observation>) {
    && |w.scalars| == |schema|
    && (forall i :: 0 <= i < |schema| ==> w.scalars[i] == Fold(ScalarValues(schema, os, i)))
    && SlotsOf(w.dimensions, os)
  }

  lemma FoldAppend(vs: seq<real>, v: real)
    ensures Fold(vs + [v]) == Add(Fold(vs), v)
  {
    assert (vs + [v])[..|vs|] == vs;
  }

  lemma ValuesLast(schema: seq<string>, os: seq<Observation>, o: Observation)
    ensures forall i: nat :: ScalarValues(schema, os + [o], i) ==
              if o.Scalar? && IndexOf(schema, o.name) == Some(i) then ScalarValues(schema, os, i) + [o.value]
              else ScalarValues(schema, os, i)
    ensures forall key :: DimensionValues(os + [o], key) ==
              if o.Dimension? && o.key == key then DimensionValues(os, key) + [o.value] else DimensionValues(os, key)
  {
    assert (os + [o])[..|os|] == os;
  }

  lemma SlotsUnmoved(slots: seq<Slot>, os: seq<Observation>, o: Observation)
    requires SlotsOf(slots, os) && o.Scalar?
    ensures SlotsOf(slots, os + [o])
  {
    ValuesLast([], os, o);
    hide Fold, ScalarValues, DimensionValues, Keys;
  }

  lemma ScalarStep(schema: seq<string>, w: Window, os: seq<Observation>, o: Observation)
    requires Aggregates(schema, w, os) && o.Scalar?
    ensures Aggregates(schema, ObserveOne(schema, w, o), os + [o])
  {
    ValuesLast(schema, os, o);
    SlotsUnmoved(w.dimensions, os, o);
    hide SlotsOf, DimensionValues, IndexOf;
    var i := IndexOf(schema, o.name);
    if i.Some? { FoldAppend(ScalarValues(schema, os, i.value), o.value); }
    hide Fold, ScalarValues, Add;
  }

  lemma FoldsStep(slot: Slot, os: seq<Observation>, key: SlotKey, v: real)
    requires Folds(slot, os)
    ensures Folds(if slot.key == key then Slot(key, Add(slot.aggregate, v)) else slot, os + [Dimension(key, v)])
  {
    ValuesLast([], os, Dimension(key, v));
    FoldAppend(DimensionValues(os, key), v);
    hide Fold, DimensionValues, Add;
  }

  lemma SlotUpdated(slots: seq<Slot>, os: seq<Observation>, key: SlotKey, v: real, i: nat)
    requires SlotsOf(slots, os) && i < |slots| && slots[i].key == key
    ensures SlotsOf(slots[i := Slot(key, Add(slots[i].aggregate, v))], os + [Dimension(key, v)])
  {
    var after := slots[i := Slot(key, Add(slots[i].aggregate, v))];
    ValuesLast([], os, Dimension(key, v));
    forall j | 0 <= j < |after| ensures Folds(after[j], os + [Dimension(key, v)]) { FoldsStep(slots[j], os, key, v); }
    hide Folds, DimensionValues;
    assert Keys(after) == Keys(slots) && Keys(slots)[i] == key;
    hide Keys;
    assert forall j :: 0 <= j < |after| ==> after[j].key == slots[j].key;
  }

  lemma SlotAppended(slots: seq<Slot>, os: seq<Observation>, key: SlotKey, v: real)
    requires SlotsOf(slots, os) && forall j :: 0 <= j < |slots| ==> slots[j].key != key
    ensures SlotsOf(slots + [Slot(key, Add(EMPTY, v))], os + [Dimension(key, v)])
  {
    var after := slots + [Slot(key, Add(EMPTY, v))];
    ValuesLast([], os, Dimension(key, v));
    assert DimensionValues(os, key) == [];
    FoldAppend([], v);
    assert Folds(after[|slots|], os + [Dimension(key, v)]);
    forall j | 0 <= j < |slots| ensures Folds(slots[j], os + [Dimension(key, v)]) { FoldsStep(slots[j], os, key, v); }
    hide Folds, DimensionValues, Fold;
    assert Keys(after) == Keys(slots) + [key];
    hide Keys;
  }

  lemma DimensionStep(schema: seq<string>, w: Window, os: seq<Observation>, o: Observation)
    requires Aggregates(schema, w, os) && o.Dimension?
    ensures Aggregates(schema, ObserveOne(schema, w, o), os + [o])
  {
    ValuesLast(schema, os, o);
    var i := FindSlot(w.dimensions, o.key);
    if i.Some? { SlotUpdated(w.dimensions, os, o.key, o.value, i.value); } else { SlotAppended(w.dimensions, os, o.key, o.value); }
    hide Fold, ScalarValues, DimensionValues, FindSlot, SlotsOf;
  }

  /** For any observations in any order, duplicates included. */
  lemma {:induction false} WindowAggregates(schema: seq<string>, os: seq<Observation>)
    ensures Aggregates(schema, ObserveAll(schema, Blank(schema), os), os)
  {
    if os != [] {
      var front, o := os[..|os| - 1], os[|os| - 1];
      assert os == front + [o];
      WindowAggregates(schema, front);
      var w := ObserveAll(schema, Blank(schema), front);
      hide Aggregates;
      if o.Scalar? { ScalarStep(schema, w, front, o); } else { DimensionStep(schema, w, front, o); }
    }
  }
}
