/**
 The newest version of an id in a stack of layers whose compactions may be in
 the middle: drained records are in the compactor's hands and in no tier. What a
 lookup finds is compared with that version.
 */
module LatestVersions {
  import opened Wrappers
  import opened VectorRecall
  import opened RecallProperties
  import opened LayerRefinement

  /** A compaction between its two halves: what it took from tier 1 of a collection. */
  datatype Job = Job(name: string, drained: seq<VectorRecord>)

  /** A layer and the compaction of its contents that is under way, if any. */
  datatype Level = Level(layer: Layer, job: Option<Job>)

  const EMPTY_LEVEL := Level(EMPTY_LAYER, None)

  /** Newest first, as the layers of a stack. */
  type Levels = s: seq<Level> | s != [] witness [EMPTY_LEVEL]

  function LayersOf(ls: seq<Level>): (st: seq<Layer>)
    ensures |st| == |ls|
  {
    seq(|ls|, k requires 0 <= k < |ls| => ls[k].layer)
  }

  function InFlight(l: Level, name: string): seq<VectorRecord> {
    if l.job.Some? && l.job.value.name == name then l.job.value.drained else []
  }

  /** The newest version of `id` in one layer, wherever it is. */
  function LatestIn(l: Level, name: string, id: string): Option<VectorRecord> {
    var col := CollectionOf(l.layer, name);
    if id in col.tier1 then Some(col.tier1[id]) else LastWithId(col.tier2.records + InFlight(l, name), id)
  }

  /** The newest version that no tombstone of its own or a newer layer hides. */
  function Latest(ls: seq<Level>, name: string, id: string): Option<VectorRecord> {
    if ls == [] || id in ls[0].layer.tombstones then None
    else if LatestIn(ls[0], name, id).Some? then LatestIn(ls[0], name, id)
    else Latest(ls[1..], name, id)
  }

  ghost predicate LatestShows(ls: seq<Level>, name: string, m: map<string, VectorRecord>) {
    forall id :: Latest(ls, name, id) == Lookup(m, id)
  }

  // ---------------------------------------------------------------------
  // Operations
  // ---------------------------------------------------------------------

  function RememberTop(ls: Levels, name: string, r: VectorRecord): Levels {
    [ls[0].(layer := RememberIn(ls[0].layer, name, r))] + ls[1..]
  }

  function ForgetTop(ls: Levels, id: string): Levels {
    [ls[0].(layer := ls[0].layer.(tombstones := ls[0].layer.tombstones + {id}))] + ls[1..]
  }

  function Pushed(ls: Levels): Levels {
    [EMPTY_LEVEL] + ls
  }

  function DrainLevel(l: Level, name: string, drained: seq<VectorRecord>): Level {
    var col := CollectionOf(l.layer, name).(tier1 := map[]);
    Level(l.layer.(collections := l.layer.collections[name := col]),
          if drained == [] then None else Some(Job(name, drained)))
  }

  function Appended(tier2: Tier2Data, drained: seq<VectorRecord>): Tier2Data {
    Tier2Data(tier2.records + drained, tier2.points + VectorsOf(drained), true)
  }

  function SwapLevel(l: Level): Level
    requires l.job.Some?
  {
    var col := CollectionOf(l.layer, l.job.value.name);
    var swapped := col.(tier2 := Appended(col.tier2, l.job.value.drained));
    Level(l.layer.(collections := l.layer.collections[l.job.value.name := swapped]), None)
  }

  lemma RememberKeepsLatest(ls: Levels, name: string, r: VectorRecord, m: map<string, VectorRecord>)
    requires LatestShows(ls, name, m)
    ensures LatestShows(RememberTop(ls, name, r), name, m[r.id := r])
  {
    forall id ensures Latest(RememberTop(ls, name, r), name, id) == Lookup(m[r.id := r], id) {
      assert RememberTop(ls, name, r)[1..] == ls[1..];
      assert Latest(ls, name, id) == Lookup(m, id);
    }
  }

  lemma ForgetKeepsLatest(ls: Levels, name: string, id: string, m: map<string, VectorRecord>)
    requires LatestShows(ls, name, m)
    ensures LatestShows(ForgetTop(ls, id), name, m - {id})
  {
    forall x ensures Latest(ForgetTop(ls, id), name, x) == Lookup(m - {id}, x) {
      assert ForgetTop(ls, id)[1..] == ls[1..];
      assert Latest(ls, name, x) == Lookup(m, x);
    }
  }

  /** `id` is deleted in the newest layer, but a version of it is still stored there or shown by the layers below. */
  predicate Revives(ls: Levels, name: string, id: string) {
    id in ls[0].layer.tombstones && (LatestIn(ls[0], name, id).Some? || Latest(ls[1..], name, id).Some?)
  }

  /** Writing `r` to another collection leaves this one alone exactly when no deleted version of the id is left. */
  lemma ElsewhereKeepsLatestIff(ls: Levels, name: string, other: string, r: VectorRecord)
    requires name != other
    ensures (forall id :: Latest(RememberTop(ls, other, r), name, id) == Latest(ls, name, id))
       <==> !Revives(ls, name, r.id)
  {
    var ls' := RememberTop(ls, other, r);
    assert ls'[1..] == ls[1..];
    forall id ensures LatestIn(ls'[0], name, id) == LatestIn(ls[0], name, id) {
      assert CollectionOf(ls'[0].layer, name) == CollectionOf(ls[0].layer, name);
    }
    forall id ensures Latest(ls', name, id) == Latest(ls, name, id) <==> !(id == r.id && Revives(ls, name, id)) {
    }
    assert Latest(ls', name, r.id) == Latest(ls, name, r.id) <==> !Revives(ls, name, r.id);
  }

  lemma PushKeepsLatest(ls: Levels, name: string, id: string)
    ensures Latest(Pushed(ls), name, id) == Latest(ls, name, id)
  {
    assert Pushed(ls)[1..] == ls;
    assert EMPTY_COLLECTION.tier2.records + [] == [];
  }

  lemma LevelKeepsLatest(ls: seq<Level>, k: nat, l: Level, name: string, id: string)
    requires k < |ls| && l.layer.tombstones == ls[k].layer.tombstones
    requires LatestIn(l, name, id) == LatestIn(ls[k], name, id)
    ensures Latest(ls[k := l], name, id) == Latest(ls, name, id)
    decreases k
  {
    if k == 0 {
      assert ls[k := l][1..] == ls[1..];
    } else {
      assert ls[k := l][1..] == ls[1..][k - 1 := l];
      LevelKeepsLatest(ls[1..], k - 1, l, name, id);
    }
  }

  /** Draining a collection that is not being compacted loses nothing. */
  lemma DrainKeepsLatest(l: Level, other: string, drained: seq<VectorRecord>, name: string, id: string)
    requires l.job.None? && DrainOrder(CollectionOf(l.layer, other).tier1, drained)
    ensures LatestIn(DrainLevel(l, other, drained), name, id) == LatestIn(l, name, id)
  {
    var l' := DrainLevel(l, other, drained);
    var col := CollectionOf(l.layer, name);
    assert col.tier2.records + [] == col.tier2.records;
    if name == other {
      assert InFlight(l', name) == drained;
      LastOfDrained(col.tier2.records, col.tier1, drained, id);
    } else {
      assert CollectionOf(l'.layer, name) == col && InFlight(l', name) == [];
    }
  }

  lemma SwapKeepsLatest(l: Level, name: string, id: string)
    requires l.job.Some?
    ensures LatestIn(SwapLevel(l), name, id) == LatestIn(l, name, id)
  {
    var col, l' := CollectionOf(l.layer, name), SwapLevel(l);
    if name == l.job.value.name {
      assert CollectionOf(l'.layer, name).tier2.records + [] == col.tier2.records + InFlight(l, name);
    } else {
      assert CollectionOf(l'.layer, name) == col && InFlight(l', name) == InFlight(l, name);
    }
  }

  // ---------------------------------------------------------------------
  // When a lookup finds the latest version
  // ---------------------------------------------------------------------

  /** What a lookup finds in one layer. */
  function FirstIn(l: Level, name: string, id: string): Option<VectorRecord> {
    First(RecordsOf(CollectionOf(l.layer, name), id))
  }

  /**
   In the newest layer that knows `id` at all, the record found first is the
   latest one; or the layer shows none, its versions being all in the compactor's
   hands, and the layers below happen to show the same record.
   */
  predicate Settled(ls: seq<Level>, name: string, id: string) {
    if ls == [] || id in ls[0].layer.tombstones then true
    else if LatestIn(ls[0], name, id).None? then Settled(ls[1..], name, id)
    else
      || FirstIn(ls[0], name, id) == LatestIn(ls[0], name, id)
      || (FirstIn(ls[0], name, id).None?
          && Current(LayersOf(ls[1..]), name, id) == LatestIn(ls[0], name, id))
  }

  lemma UnknownHasNoFirst(l: Level, name: string, id: string)
    requires LatestIn(l, name, id).None?
    ensures RecordsOf(CollectionOf(l.layer, name), id) == []
  {
    var records := CollectionOf(l.layer, name).tier2.records;
    LastWithIdFinds(records + InFlight(l, name), id);
    FirstWithIdFinds(records, id);
    FirstOfFilter(records, id);
  }

  lemma {:induction false} SettledIff(ls: seq<Level>, name: string, id: string)
    ensures Current(LayersOf(ls), name, id) == Latest(ls, name, id) <==> Settled(ls, name, id)
  {
    if ls != [] && id !in ls[0].layer.tombstones {
      var here, below := RecordsOf(CollectionOf(ls[0].layer, name), id), VisibleRecords(LayersOf(ls[1..]), name, id);
      assert LayersOf(ls)[1..] == LayersOf(ls[1..]);
      FirstOfConcat(here, below);
      if LatestIn(ls[0], name, id).None? {
        UnknownHasNoFirst(ls[0], name, id);
        SettledIff(ls[1..], name, id);
      }
    }
  }

  lemma OneVersionIsFirst(l: Level, name: string, id: string)
    requires l.job.None? && OneVersionEach(CollectionOf(l.layer, name).tier2.records)
    ensures FirstIn(l, name, id) == LatestIn(l, name, id)
  {
    var records := CollectionOf(l.layer, name).tier2.records;
    assert records + [] == records;
    LastWithIdFinds(records, id);
    FirstWithIdFinds(records, id);
    FirstOfFilter(records, id);
  }

  /** With no compaction under way and one version of each id in every tier 2, every lookup finds the latest version. */
  lemma {:induction false} IdleIsSettled(ls: seq<Level>, name: string, id: string)
    requires forall l <- ls :: l.job.None? && OneVersionEach(CollectionOf(l.layer, name).tier2.records)
    ensures Settled(ls, name, id)
  {
    if ls != [] {
      OneVersionIsFirst(ls[0], name, id);
      IdleIsSettled(ls[1..], name, id);
    }
  }
}
