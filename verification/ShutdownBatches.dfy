/** build_shutdown_batches: a partition of the running processes by category, dependents
    first, with no empty batch. */
module ShutdownBatches {
  import opened MasterTypes
  import opened MasterSteps

  /** Position of a category in the shutdown order. */
  function Rank(c: Category): nat {
    match c
    case Strategy => 0
    case GatewayTd => 1
    case GatewayMd => 2
    case Internal => 3
    case WebUI => 4
  }

  lemma {:induction false} NamesInAre(running: seq<(Name, Category)>, cat: Category)
    ensures forall n :: n in NamesIn(running, cat) <==> (n, cat) in running
    ensures |NamesIn(running, cat)| <= |running|
  {
    if running != [] {
      NamesInAre(running[1..], cat);
      assert forall p :: p in running <==> p == running[0] || p in running[1..];
    }
  }

  ghost predicate DistinctNames(running: seq<(Name, Category)>) {
    forall i, j :: 0 <= i < j < |running| ==> running[i].0 != running[j].0
  }

  /** The names of one category, in list order, each once. */
  lemma {:induction false} NamesInOnce(running: seq<(Name, Category)>, cat: Category)
    requires DistinctNames(running)
    ensures forall i, j :: 0 <= i < j < |NamesIn(running, cat)| ==> NamesIn(running, cat)[i] != NamesIn(running, cat)[j]
  {
    if running != [] {
      NamesInOnce(running[1..], cat);
      NamesInAre(running[1..], cat);
      var rest := NamesIn(running[1..], cat);
      assert forall n :: n in rest ==> exists j :: 0 < j < |running| && running[j] == (n, cat);
    }
  }

  /** The categories with a running process, in the order given. */
  function Present(running: seq<(Name, Category)>, cats: seq<Category>): seq<Category> {
    if cats == [] then []
    else (if NamesIn(running, cats[0]) == [] then [] else [cats[0]]) + Present(running, cats[1..])
  }

  ghost predicate Ascending(cats: seq<Category>) {
    forall i, j :: 0 <= i < j < |cats| ==> Rank(cats[i]) < Rank(cats[j])
  }

  lemma {:induction false} PresentAre(running: seq<(Name, Category)>, cats: seq<Category>)
    ensures forall c :: c in Present(running, cats) <==> c in cats && NamesIn(running, c) != []
    ensures Ascending(cats) ==> Ascending(Present(running, cats))
  {
    if cats != [] {
      PresentAre(running, cats[1..]);
      assert forall c :: c in cats <==> c == cats[0] || c in cats[1..];
      if Ascending(cats) {
        assert forall c :: c in cats[1..] ==> Rank(cats[0]) < Rank(c);
      }
    }
  }

  /** Batch k is the list of names of the k-th category present. */
  lemma {:induction false} BatchesArePresent(running: seq<(Name, Category)>, cats: seq<Category>)
    ensures |BatchesFor(running, cats)| == |Present(running, cats)|
    ensures forall k :: 0 <= k < |Present(running, cats)| ==>
              BatchesFor(running, cats)[k] == NamesIn(running, Present(running, cats)[k])
  {
    if cats != [] {
      BatchesArePresent(running, cats[1..]);
    }
  }

  lemma SameProcess(running: seq<(Name, Category)>, n: Name, c: Category, d: Category)
    requires DistinctNames(running) && (n, c) in running && (n, d) in running
    ensures c == d
  {}

  predicate InBatch(bs: seq<seq<Name>>, k: int, n: Name) { 0 <= k < |bs| && n in bs[k] }

  ghost predicate Batched(bs: seq<seq<Name>>, n: Name) { exists k :: InBatch(bs, k, n) }

  ghost predicate Runs(running: seq<(Name, Category)>, n: Name) { exists p :: p in running && p.0 == n }

  ghost predicate NoEmptyBatch(bs: seq<seq<Name>>) { forall k :: 0 <= k < |bs| ==> bs[k] != [] }

  ghost predicate EachOnce(bs: seq<seq<Name>>) {
    forall k, i, j :: 0 <= k < |bs| && 0 <= i < j < |bs[k]| ==> bs[k][i] != bs[k][j]
  }

  /** Of two running processes, the one whose category stops earlier is in the earlier batch. */
  ghost predicate InCategoryOrder(bs: seq<seq<Name>>, running: seq<(Name, Category)>) {
    forall i, j, p, q | p in running && q in running && InBatch(bs, i, p.0) && InBatch(bs, j, q.0) ::
      i < j <==> Rank(p.1) < Rank(q.1)
  }

  lemma BatchMembers(running: seq<(Name, Category)>, k: nat, n: Name)
    requires k < |BuildShutdownBatches(running)|
    ensures k < |Present(running, SHUTDOWN_ORDER)|
    ensures n in BuildShutdownBatches(running)[k] <==> (n, Present(running, SHUTDOWN_ORDER)[k]) in running
  {
    BatchesArePresent(running, SHUTDOWN_ORDER);
    NamesInAre(running, Present(running, SHUTDOWN_ORDER)[k]);
  }

  lemma RunningIsBatched(running: seq<(Name, Category)>, p: (Name, Category))
    requires p in running
    ensures Batched(BuildShutdownBatches(running), p.0)
  {
    var cats := Present(running, SHUTDOWN_ORDER);
    PresentAre(running, SHUTDOWN_ORDER);
    BatchesArePresent(running, SHUTDOWN_ORDER);
    NamesInAre(running, p.1);
    assert SHUTDOWN_ORDER[Rank(p.1)] == p.1;
    var k :| 0 <= k < |cats| && cats[k] == p.1;
    assert InBatch(BuildShutdownBatches(running), k, p.0);
  }

  lemma OrderOfTwo(running: seq<(Name, Category)>, i: int, j: int, p: (Name, Category), q: (Name, Category))
    requires DistinctNames(running) && p in running && q in running
    requires InBatch(BuildShutdownBatches(running), i, p.0) && InBatch(BuildShutdownBatches(running), j, q.0)
    ensures i < j <==> Rank(p.1) < Rank(q.1)
  {
    var cats := Present(running, SHUTDOWN_ORDER);
    PresentAre(running, SHUTDOWN_ORDER);
    BatchMembers(running, i, p.0);
    BatchMembers(running, j, q.0);
    SameProcess(running, p.0, p.1, cats[i]);
    SameProcess(running, q.0, q.1, cats[j]);
  }

  /** For every list of running processes the batches partition it in category order. */
  lemma BatchesPartition(running: seq<(Name, Category)>)
    requires DistinctNames(running)
    ensures NoEmptyBatch(BuildShutdownBatches(running)) && EachOnce(BuildShutdownBatches(running))
    ensures forall n :: Batched(BuildShutdownBatches(running), n) <==> Runs(running, n)
    ensures InCategoryOrder(BuildShutdownBatches(running), running)
  {
    var bs := BuildShutdownBatches(running);
    BatchesArePresent(running, SHUTDOWN_ORDER);
    PresentAre(running, SHUTDOWN_ORDER);
    forall k | 0 <= k < |bs| ensures forall i, j :: 0 <= i < j < |bs[k]| ==> bs[k][i] != bs[k][j] {
      NamesInOnce(running, Present(running, SHUTDOWN_ORDER)[k]);
    }
    forall k, n | InBatch(bs, k, n) ensures Runs(running, n) {
      BatchMembers(running, k, n);
    }
    forall p | p in running ensures Batched(bs, p.0) {
      RunningIsBatched(running, p);
    }
    forall i, j, p, q | p in running && q in running && InBatch(bs, i, p.0) && InBatch(bs, j, q.0)
      ensures i < j <==> Rank(p.1) < Rank(q.1)
    {
      OrderOfTwo(running, i, j, p, q);
    }
  }
}
