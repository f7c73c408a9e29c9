/**
 Any schedule of events on any number of stores on the heap. What happens to the
 objects of `VectorStore` is shown to be a run of the world in `SharedStores`,
 whose shared contents are named by the objects themselves.
 */
module HeapSchedules {
  import opened Wrappers
  import opened VectorRecall
  import opened SharedStores
  import opened VectorStore

  // ---------------------------------------------------------------------
  // The world on the heap
  // ---------------------------------------------------------------------

  ghost function MemoryOf(all: set<VectorShards>): map<VectorShards, Shards>
    reads all
  {
    map sh | sh in all :: sh.Value()
  }

  ghost function ValuesOf(stores: seq<VectorVfs>): seq<Store<VectorShards>>
    reads *
  {
    seq(|stores|, i requires 0 <= i < |stores| reads * => stores[i].Value())
  }

  ghost function WorldOf(stores: seq<VectorVfs>, all: set<VectorShards>): World<VectorShards>
    reads *
  {
    World(MemoryOf(all), ValuesOf(stores))
  }

  ghost predicate AllValid(stores: seq<VectorVfs>)
    reads *
  {
    forall v <- stores :: v.Valid()
  }

  // ---------------------------------------------------------------------
  // Who holds what
  // ---------------------------------------------------------------------

  /** The handles of one store. */
  datatype Held = Held(base: seq<VfsLayer>, active: VfsLayer)

  ghost function HeldBy(stores: seq<VectorVfs>): seq<Held>
    reads stores
  {
    seq(|stores|, i requires 0 <= i < |stores| reads stores => Held(stores[i].baseLayers, stores[i].activeLayer))
  }

  ghost predicate Holds(held: Held, h: VfsLayer) {
    h == held.active || h in held.base
  }

  /** No two stores have a handle in common. */
  ghost predicate AllApart(held: seq<Held>) {
    forall i, j :: 0 <= i < |held| && 0 <= j < |held| && i != j ==> Apart(held[i], held[j])
  }

  ghost predicate Apart(a: Held, b: Held) {
    !Holds(b, a.active) && forall h <- a.base :: !Holds(b, h)
  }

  ghost predicate NoStoreTwice(stores: seq<VectorVfs>) {
    forall i, j :: 0 <= i < j < |stores| ==> stores[i] != stores[j]
  }

  ghost predicate Separate(stores: seq<VectorVfs>)
    reads stores
  {
    NoStoreTwice(stores) && AllApart(HeldBy(stores))
  }

  /** The objects, contents and stores apart, that events on one store may change. */
  ghost function Reach(held: Held): set<object> {
    {held.active, held.active.counter} + (set h <- held.base :: h.counter as object)
  }

  ghost function Reached(stores: seq<VectorVfs>, held: seq<Held>, all: set<VectorShards>): set<object> {
    (set v <- stores :: v as object) + (set x <- held, o <- Reach(x) :: o) + (set sh <- all :: sh as object)
  }

  /** Every object that events on these stores may change. */
  ghost function Footprint(stores: seq<VectorVfs>, all: set<VectorShards>): set<object>
    reads stores
  {
    Reached(stores, HeldBy(stores), all)
  }

  lemma ActiveInMemory<S>(w: World<S>, i: nat)
    requires Consistent(w) && i < |w.stores|
    ensures w.stores[i].active.shards in w.memory && w.stores[i].worker in w.memory
  {
    assert StoreOk(w.memory, w.stores[i]) && HandleAt(w.stores[i], 0) == w.stores[i].active;
  }

  lemma ContentsInReach(stores: seq<VectorVfs>, all: set<VectorShards>, i: nat)
    requires i < |stores| && Consistent(WorldOf(stores, all))
    ensures stores[i].activeLayer.shards in all && stores[i].workerShards in all
  {
    ActiveInMemory(WorldOf(stores, all), i);
  }

  lemma StoreInReach(stores: seq<VectorVfs>, all: set<VectorShards>, i: nat)
    requires i < |stores|
    ensures var v, reach := stores[i], Footprint(stores, all);
            v in reach && v.activeLayer in reach && v.activeLayer.counter in reach
            && forall h <- v.baseLayers :: h.counter in reach
  {
    var x := HeldBy(stores)[i];
    assert x in HeldBy(stores) && stores[i] in stores;
    assert x.active in Reach(x) && x.active.counter in Reach(x);
    forall h <- x.base ensures h.counter in Footprint(stores, all) {
      assert h.counter in Reach(x);
    }
  }

  // ---------------------------------------------------------------------
  // One store changes
  // ---------------------------------------------------------------------

  /** Store `i` and the contents `sh` may have changed, and nothing else. */
  lemma OnlyThose(stores: seq<VectorVfs>, all: set<VectorShards>, i: nat, sh: VectorShards,
                  was: World<VectorShards>, held: seq<Held>)
    requires i < |stores| == |was.stores| == |held| && sh in all && was.memory.Keys == all
    requires forall j :: 0 <= j < |stores| && j != i ==> stores[j].Value() == was.stores[j]
    requires forall x <- all | x != sh :: x.Value() == was.memory[x]
    requires forall j :: 0 <= j < |stores| ==> stores[j].Valid()
    requires forall j :: 0 <= j < |stores| ==> Held(stores[j].baseLayers, stores[j].activeLayer) == held[j]
    ensures WorldOf(stores, all) == World(was.memory[sh := sh.Value()], was.stores[i := stores[i].Value()])
    ensures AllValid(stores) && HeldBy(stores) == held
  {
    assert MemoryOf(all) == was.memory[sh := sh.Value()];
    assert ValuesOf(stores) == was.stores[i := stores[i].Value()];
  }

  lemma OneStoreMore(stores: seq<VectorVfs>, child: VectorVfs)
    ensures ValuesOf(stores + [child]) == ValuesOf(stores) + [child.Value()]
    ensures HeldBy(stores + [child]) == HeldBy(stores) + [Held(child.baseLayers, child.activeLayer)]
  {
  }

  lemma ContentsAdded(all: set<VectorShards>, p: VectorShards, c: VectorShards, was: map<VectorShards, Shards>)
    requires p != c && p !in all && c !in all && p.Value() == c.Value() == NO_SHARDS
    requires was.Keys == all && forall x <- all :: x.Value() == was[x]
    ensures MemoryOf(all + {p, c}) == was[p := NO_SHARDS][c := NO_SHARDS]
  {
  }

  /** The active handle of a store is in no other store. */
  lemma ActiveIsPrivate(stores: seq<VectorVfs>, i: nat)
    requires i < |stores| && Separate(stores) && AllValid(stores)
    ensures forall j :: 0 <= j < |stores| && j != i ==>
              && stores[j] != stores[i] && stores[j].Valid()
              && stores[i].activeLayer != stores[j].activeLayer && stores[i].activeLayer !in stores[j].baseLayers
  {
    forall j | 0 <= j < |stores| && j != i
      ensures stores[j] != stores[i] && stores[j].Valid()
      ensures stores[i].activeLayer != stores[j].activeLayer && stores[i].activeLayer !in stores[j].baseLayers
    {
      assert stores[j] in stores && Apart(HeldBy(stores)[i], HeldBy(stores)[j]);
    }
  }

  /** Writes to one store; the others are as they were. */
  method WriteOne(v: VectorVfs, ghost stores: seq<VectorVfs>, ghost i: nat, name: string, r: VectorRecord)
    requires i < |stores| && stores[i] == v && AllValid(stores) && Separate(stores) && v.Valid()
    modifies v`requests, v.activeLayer`tombstones, v.activeLayer.shards
    ensures v.activeLayer.shards.Value() == AfterWrite(old(v.activeLayer.shards.Value()), name, r)
    ensures v.Value()
         == Store(Cleared(old(v.activeLayer.AsHandle()), r.id), old(HandlesOf(v.baseLayers)), v.workerShards,
                  old(v.requests) + AsksFor(old(v.activeLayer.shards.Value()), name))
    ensures v.Valid()
      && forall j :: 0 <= j < |stores| && j != i ==> stores[j].Valid() && stores[j].Value() == old(stores[j].Value())
  {
    ActiveIsPrivate(stores, i);
    v.Remember(name, r);
  }

  method WriteWorld(v: VectorVfs, ghost stores: seq<VectorVfs>, ghost all: set<VectorShards>, ghost i: nat,
                    name: string, r: VectorRecord)
    requires i < |stores| && stores[i] == v && AllValid(stores) && Separate(stores)
    requires v.activeLayer.shards in all && v.Valid()
    modifies v`requests, v.activeLayer`tombstones, v.activeLayer.shards
    ensures AllValid(stores) && HeldBy(stores) == old(HeldBy(stores)) && v.activeLayer == old(v.activeLayer)
    ensures var w, sh := old(WorldOf(stores, all)), old(v.activeLayer.shards.Value());
            WorldOf(stores, all)
            == World(w.memory[v.activeLayer.shards := AfterWrite(sh, name, r)], w.stores[i := v.Value()])
    ensures v.Value()
         == Store(Cleared(old(v.activeLayer.AsHandle()), r.id), old(HandlesOf(v.baseLayers)), v.workerShards,
                  old(v.requests) + AsksFor(old(v.activeLayer.shards.Value()), name))
  {
    ghost var w, held := WorldOf(stores, all), HeldBy(stores);
    WriteOne(v, stores, i, name, r);
    OnlyThose(stores, all, i, v.activeLayer.shards, w, held);
  }

  method ApplyWrite(v: VectorVfs, ghost stores: seq<VectorVfs>, ghost all: set<VectorShards>, ghost i: nat,
                    name: string, r: VectorRecord)
    requires i < |stores| && stores[i] == v && AllValid(stores) && Separate(stores) && Consistent(WorldOf(stores, all))
    modifies Footprint(stores, all)
    ensures AllValid(stores) && HeldBy(stores) == old(HeldBy(stores))
    ensures WorldOf(stores, all) == SharedStores.Step(old(WorldOf(stores, all)), Write(i, name, r))
  {
    ghost var w := WorldOf(stores, all);
    StepIsWrite(w, i, name, r);
    ActiveInMemory(w, i);
    WriteParts(w, i, name, r);
    StoreInReach(stores, all, i);
    ContentsInReach(stores, all, i);
    assert v in stores;
    WriteWorld(v, stores, all, i, name, r);
  }

  method DeleteOne(v: VectorVfs, ghost stores: seq<VectorVfs>, ghost i: nat, id: string)
    requires i < |stores| && stores[i] == v && AllValid(stores) && Separate(stores) && v.Valid()
    modifies v.activeLayer`tombstones
    ensures v.Value() == old(v.Value()).(active := Tombstoned(old(v.activeLayer.AsHandle()), id))
    ensures v.Valid()
      && forall j :: 0 <= j < |stores| && j != i ==> stores[j].Valid() && stores[j].Value() == old(stores[j].Value())
  {
    ActiveIsPrivate(stores, i);
    v.Forget(id);
  }

  method DeleteWorld(v: VectorVfs, ghost stores: seq<VectorVfs>, ghost all: set<VectorShards>, ghost i: nat, id: string)
    requires i < |stores| && stores[i] == v && AllValid(stores) && Separate(stores) && Consistent(WorldOf(stores, all))
    modifies Footprint(stores, all)
    ensures AllValid(stores) && HeldBy(stores) == old(HeldBy(stores))
    ensures WorldOf(stores, all) == DoDelete(old(WorldOf(stores, all)), i, id)
  {
    ghost var w, held := WorldOf(stores, all), HeldBy(stores);
    StoreInReach(stores, all, i);
    ContentsInReach(stores, all, i);
    assert v in stores;
    DeleteOne(v, stores, i, id);
    OnlyThose(stores, all, i, v.activeLayer.shards, w, held);
    assert w.memory[v.activeLayer.shards := w.memory[v.activeLayer.shards]] == w.memory;
  }

  method ApplyDelete(v: VectorVfs, ghost stores: seq<VectorVfs>, ghost all: set<VectorShards>, ghost i: nat, id: string)
    requires i < |stores| && stores[i] == v && AllValid(stores) && Separate(stores) && Consistent(WorldOf(stores, all))
    modifies Footprint(stores, all)
    ensures AllValid(stores) && HeldBy(stores) == old(HeldBy(stores))
    ensures WorldOf(stores, all) == SharedStores.Step(old(WorldOf(stores, all)), Delete(i, id))
  {
    StepIsDelete(WorldOf(stores, all), i, id);
    DeleteWorld(v, stores, all, i, id);
  }

  method AskOne(v: VectorVfs, ghost stores: seq<VectorVfs>, ghost i: nat, name: string)
    requires i < |stores| && stores[i] == v && AllValid(stores) && Separate(stores) && v.Valid()
    modifies v`requests, v.activeLayer.shards`compacting
    ensures v.activeLayer.shards.Value() == Flagged(old(v.activeLayer.shards.Value()), name)
    ensures v.Value() == old(v.Value()).(requests := old(v.requests)
      + if name in old(v.activeLayer.shards.compacting) then [] else [name])
    ensures v.Valid()
      && forall j :: 0 <= j < |stores| && j != i ==> stores[j].Valid() && stores[j].Value() == old(stores[j].Value())
  {
    ActiveIsPrivate(stores, i);
    v.CompactCollection(name);
  }

  method AskWorld(v: VectorVfs, ghost stores: seq<VectorVfs>, ghost all: set<VectorShards>, ghost i: nat, name: string)
    requires i < |stores| && stores[i] == v && AllValid(stores) && Separate(stores) && Consistent(WorldOf(stores, all))
    modifies Footprint(stores, all)
    ensures AllValid(stores) && HeldBy(stores) == old(HeldBy(stores))
    ensures var w, sh := old(WorldOf(stores, all)), old(v.activeLayer.shards.Value());
            WorldOf(stores, all) == World(w.memory[v.activeLayer.shards := Flagged(sh, name)], w.stores[i := v.Value()])
    ensures v.activeLayer == old(v.activeLayer)
    ensures v.Value() == old(v.Value()).(requests := old(v.requests)
      + if name in old(v.activeLayer.shards.compacting) then [] else [name])
  {
    ghost var w, held := WorldOf(stores, all), HeldBy(stores);
    StoreInReach(stores, all, i);
    ContentsInReach(stores, all, i);
    assert v in stores;
    AskOne(v, stores, i, name);
    OnlyThose(stores, all, i, v.activeLayer.shards, w, held);
  }

  method ApplyAsk(v: VectorVfs, ghost stores: seq<VectorVfs>, ghost all: set<VectorShards>, ghost i: nat, name: string)
    requires i < |stores| && stores[i] == v && AllValid(stores) && Separate(stores) && Consistent(WorldOf(stores, all))
    modifies Footprint(stores, all)
    ensures AllValid(stores) && HeldBy(stores) == old(HeldBy(stores))
    ensures WorldOf(stores, all) == SharedStores.Step(old(WorldOf(stores, all)), Ask(i, name))
  {
    ghost var w := WorldOf(stores, all);
    StepIsAsk(w, i, name);
    ActiveInMemory(w, i);
    assert w.stores[i].requests + [] == w.stores[i].requests;
    AskWorld(v, stores, all, i, name);
  }

  method DrainOne(v: VectorVfs, ghost stores: seq<VectorVfs>, ghost i: nat) returns (ghost drained: seq<VectorRecord>)
    requires i < |stores| && stores[i] == v && AllValid(stores) && Separate(stores) && v.Valid()
    requires Keyed(v.workerShards.Value())
    modifies v`requests, v.workerShards
    ensures v.Value() == old(v.Value()).(requests := Rest(old(v.requests), old(v.workerShards.Value())))
    ensures Serves(old(v.requests), old(v.workerShards.Value()), drained, v.workerShards.Value())
    ensures v.Valid()
      && forall j :: 0 <= j < |stores| && j != i ==> stores[j].Valid() && stores[j].Value() == old(stores[j].Value())
  {
    ActiveIsPrivate(stores, i);
    drained := v.TakeRequest();
  }

  method DrainWorld(v: VectorVfs, ghost stores: seq<VectorVfs>, ghost all: set<VectorShards>, ghost i: nat)
    returns (ghost drained: seq<VectorRecord>)
    requires i < |stores| && stores[i] == v && AllValid(stores) && Separate(stores)
    requires v.workerShards in all && Keyed(v.workerShards.Value()) && v.Valid()
    modifies v`requests, v.workerShards
    ensures AllValid(stores) && HeldBy(stores) == old(HeldBy(stores))
    ensures var w, was := old(WorldOf(stores, all)), old(v.workerShards.Value());
            WorldOf(stores, all) == World(w.memory[v.workerShards := v.workerShards.Value()], w.stores[i := v.Value()])
            && v.Value() == w.stores[i].(requests := Rest(w.stores[i].requests, was))
            && Serves(w.stores[i].requests, was, drained, v.workerShards.Value())
  {
    ghost var w, held := WorldOf(stores, all), HeldBy(stores);
    drained := DrainOne(v, stores, i);
    OnlyThose(stores, all, i, v.workerShards, w, held);
  }

  method ApplyDrain(v: VectorVfs, ghost stores: seq<VectorVfs>, ghost all: set<VectorShards>, ghost i: nat)
    returns (ghost drained: seq<VectorRecord>)
    requires i < |stores| && stores[i] == v && AllValid(stores) && Separate(stores) && Consistent(WorldOf(stores, all))
    modifies Footprint(stores, all)
    ensures AllValid(stores) && HeldBy(stores) == old(HeldBy(stores))
    ensures WorldOf(stores, all) == SharedStores.Step(old(WorldOf(stores, all)), Drain(i, drained))
    ensures Answers(old(WorldOf(stores, all)), i, drained)
  {
    ghost var w := WorldOf(stores, all);
    StoreInReach(stores, all, i);
    ContentsInReach(stores, all, i);
    WorkerKeyed(w, i);
    assert v in stores;
    drained := DrainWorld(v, stores, all, i);
    DrainParts(w, i, drained, v.workerShards.Value());
    StepIsDrain(w, i, drained);
  }

  method SwapOne(v: VectorVfs, ghost stores: seq<VectorVfs>, ghost i: nat)
    requires i < |stores| && stores[i] == v && AllValid(stores) && Separate(stores) && v.Valid()
    modifies v.workerShards
    ensures v.Value() == old(v.Value()) && v.workerShards.Value() == Swapped(old(v.workerShards.Value()))
    ensures v.Valid()
      && forall j :: 0 <= j < |stores| && j != i ==> stores[j].Valid() && stores[j].Value() == old(stores[j].Value())
  {
    ActiveIsPrivate(stores, i);
    v.FinishCompaction();
  }

  method SwapWorld(v: VectorVfs, ghost stores: seq<VectorVfs>, ghost all: set<VectorShards>, ghost i: nat)
    requires i < |stores| && stores[i] == v && AllValid(stores) && Separate(stores)
    requires v.workerShards in all && v.Valid()
    modifies v.workerShards
    ensures AllValid(stores) && HeldBy(stores) == old(HeldBy(stores))
    ensures var w := old(WorldOf(stores, all));
            WorldOf(stores, all) == w.(memory := w.memory[v.workerShards := Swapped(w.memory[v.workerShards])])
  {
    ghost var w, held := WorldOf(stores, all), HeldBy(stores);
    SwapOne(v, stores, i);
    OnlyThose(stores, all, i, v.workerShards, w, held);
    assert w.stores[i := w.stores[i]] == w.stores;
  }

  method ApplySwap(v: VectorVfs, ghost stores: seq<VectorVfs>, ghost all: set<VectorShards>, ghost i: nat)
    requires i < |stores| && stores[i] == v && AllValid(stores) && Separate(stores) && Consistent(WorldOf(stores, all))
    modifies Footprint(stores, all)
    ensures AllValid(stores) && HeldBy(stores) == old(HeldBy(stores))
    ensures WorldOf(stores, all) == SharedStores.Step(old(WorldOf(stores, all)), Swap(i))
  {
    ghost var w := WorldOf(stores, all);
    StoreInReach(stores, all, i);
    ContentsInReach(stores, all, i);
    assert v in stores;
    SwapWorld(v, stores, all, i);
    SwapParts(w, i);
    StepIsSwap(w, i);
  }

  // ---------------------------------------------------------------------
  // One store forks
  // ---------------------------------------------------------------------

  /** The handles of every store but one. */
  ghost function OtherHandles(stores: seq<VectorVfs>, v: VectorVfs): set<VfsLayer>
    reads stores
  {
    (set u <- stores | u != v :: u.activeLayer) + (set u <- stores, h <- u.baseLayers | u != v :: h)
  }

  lemma OthersHaveHandles(stores: seq<VectorVfs>, i: nat)
    requires i < |stores| && NoStoreTwice(stores)
    ensures forall j :: 0 <= j < |stores| && j != i ==>
              && stores[j].activeLayer in OtherHandles(stores, stores[i])
              && forall h <- stores[j].baseLayers :: h in OtherHandles(stores, stores[i])
  {
    forall j | 0 <= j < |stores| && j != i
      ensures stores[j].activeLayer in OtherHandles(stores, stores[i])
      ensures forall h <- stores[j].baseLayers :: h in OtherHandles(stores, stores[i])
    {
      assert stores[j] in stores && stores[j] != stores[i];
    }
  }

  lemma OthersAreLive(stores: seq<VectorVfs>, i: nat)
    requires i < |stores| && AllValid(stores) && Separate(stores)
    ensures forall h <- OtherHandles(stores, stores[i]) :: h.Live() && h != stores[i].activeLayer
  {
    forall h <- OtherHandles(stores, stores[i]) ensures h.Live() && h != stores[i].activeLayer {
      var u :| u in stores && u != stores[i] && (h == u.activeLayer || h in u.baseLayers);
      var j :| 0 <= j < |stores| && stores[j] == u;
      assert u.Valid() && Apart(HeldBy(stores)[i], HeldBy(stores)[j]);
    }
  }

  /** A list of handles gains new ones and a second list of new ones appears: all stay apart. */
  lemma StillApart(held: seq<Held>, i: nat, mine: Held, theirs: Held)
    requires i < |held| && AllApart(held) && Apart(theirs, mine) && Apart(mine, theirs)
    requires forall j :: 0 <= j < |held| ==> Apart(theirs, held[j]) && Apart(held[j], theirs)
    requires forall j :: 0 <= j < |held| && j != i ==> Apart(mine, held[j]) && Apart(held[j], mine)
    ensures AllApart(held[i := mine] + [theirs])
  {
    var all := held[i := mine] + [theirs];
    forall j, k | 0 <= j < |all| && 0 <= k < |all| && j != k ensures Apart(all[j], all[k]) {
      if j < |held| && k < |held| && j != i && k != i {
        assert Apart(held[j], held[k]);
      }
    }
  }


  ghost function AllHandles(held: seq<Held>): set<VfsLayer> {
    (set x <- held :: x.active) + (set x <- held, h <- x.base :: h)
  }

  /** Some new handles on top of the old ones of one store, and only new ones in its child. */
  lemma ForkedHandles(held: seq<Held>, known: set<VfsLayer>, i: nat, mine: Held, theirs: Held)
    requires i < |held| && AllApart(held) && known == AllHandles(held)
    requires |mine.base| == |held[i].base| + 1 && mine.base[..|held[i].base|] == held[i].base
    requires mine.active !in known && mine.base[|held[i].base|] !in known && theirs.active !in known
    requires forall h <- theirs.base :: h !in known && h !in mine.base
    requires mine.active !in theirs.base && theirs.active !in mine.base && mine.active != theirs.active
    ensures AllApart(held[i := mine] + [theirs])
  {
    assert forall x, h | x in held && Holds(x, h) :: h in known;
    var n := |held[i].base|;
    forall h <- mine.base ensures h in held[i].base || h == mine.base[n] {
      var k :| 0 <= k <= n && mine.base[k] == h;
      assert k < n ==> held[i].base[k] == h;
    }
    forall j | 0 <= j < |held| ensures Apart(theirs, held[j]) && Apart(held[j], theirs) {
      assert held[j] in held;
    }
    forall j | 0 <= j < |held| && j != i ensures Apart(mine, held[j]) && Apart(held[j], mine) {
      assert held[j] in held && Apart(held[i], held[j]) && Apart(held[j], held[i]);
    }
    StillApart(held, i, mine, theirs);
  }

  /** Forks one store; the others are as they were. */
  method SpawnBeside(v: VectorVfs, ghost stores: seq<VectorVfs>, ghost i: nat, ghost known: set<VfsLayer>)
    returns (child: VectorVfs)
    requires i < |stores| && stores[i] == v && AllValid(stores) && Separate(stores) && v.Valid()
    modifies v`baseLayers, v`activeLayer, v.activeLayer, v.activeLayer.counter, set h <- v.baseLayers :: h.counter
    ensures fresh(child) && fresh(v.activeLayer) && fresh(v.activeLayer.counter) && fresh(v.activeLayer.shards)
    ensures fresh(child.activeLayer) && fresh(child.activeLayer.counter) && fresh(child.activeLayer.shards)
    ensures forall h <- child.baseLayers :: h !in known && h !in v.baseLayers
    ensures CountersOf(v.baseLayers) + CountersOf(child.baseLayers)
         <= old(CountersOf(v.baseLayers) + {v.activeLayer.counter})
    ensures |v.baseLayers| == |old(v.baseLayers)| + 1 && v.baseLayers[..|old(v.baseLayers)|] == old(v.baseLayers)
    ensures v.baseLayers[|old(v.baseLayers)|] !in known && v.activeLayer !in known && child.activeLayer !in known
    ensures v.activeLayer !in child.baseLayers && child.activeLayer !in v.baseLayers
    ensures v.activeLayer != child.activeLayer
    ensures v.Value() == Store(Handle({}, v.activeLayer.shards), old(v.Layered()), v.workerShards, v.requests)
    ensures child.Value() == Store(Handle({}, child.activeLayer.shards), old(v.Layered()), child.activeLayer.shards, [])
    ensures v.activeLayer.shards != child.activeLayer.shards
    ensures v.activeLayer.shards.Value() == child.activeLayer.shards.Value() == NO_SHARDS
    ensures v.Valid() && child.Valid() && forall j :: 0 <= j < |stores| && j != i ==> stores[j].Valid()
  {
    OthersAreLive(stores, i);
    ActiveIsPrivate(stores, i);
    OthersHaveHandles(stores, i);
    child := v.SpawnCowChild(OtherHandles(stores, v));
  }

  /** The same; and no other store changes. */
  method SpawnAmong(v: VectorVfs, ghost stores: seq<VectorVfs>, ghost i: nat, ghost known: set<VfsLayer>)
    returns (child: VectorVfs)
    requires i < |stores| && stores[i] == v && AllValid(stores) && Separate(stores) && v.Valid()
    modifies v`baseLayers, v`activeLayer, v.activeLayer, v.activeLayer.counter, set h <- v.baseLayers :: h.counter
    ensures fresh(child) && fresh(v.activeLayer) && fresh(v.activeLayer.counter) && fresh(v.activeLayer.shards)
    ensures fresh(child.activeLayer) && fresh(child.activeLayer.counter) && fresh(child.activeLayer.shards)
    ensures forall h <- child.baseLayers :: h !in known && h !in v.baseLayers
    ensures CountersOf(v.baseLayers) + CountersOf(child.baseLayers)
         <= old(CountersOf(v.baseLayers) + {v.activeLayer.counter})
    ensures |v.baseLayers| == |old(v.baseLayers)| + 1 && v.baseLayers[..|old(v.baseLayers)|] == old(v.baseLayers)
    ensures v.baseLayers[|old(v.baseLayers)|] !in known && v.activeLayer !in known && child.activeLayer !in known
    ensures v.activeLayer !in child.baseLayers && child.activeLayer !in v.baseLayers
    ensures v.activeLayer != child.activeLayer
    ensures v.Value() == Store(Handle({}, v.activeLayer.shards), old(v.Layered()), v.workerShards, v.requests)
    ensures child.Value() == Store(Handle({}, child.activeLayer.shards), old(v.Layered()), child.activeLayer.shards, [])
    ensures v.activeLayer.shards != child.activeLayer.shards
    ensures v.activeLayer.shards.Value() == child.activeLayer.shards.Value() == NO_SHARDS
    ensures v.Valid() && child.Valid()
      && forall j :: 0 <= j < |stores| && j != i ==> stores[j].Valid() && stores[j].Value() == old(stores[j].Value())
  {
    ActiveIsPrivate(stores, i);
    child := SpawnBeside(v, stores, i, known);
  }

  lemma ForkedStores(stores: seq<VectorVfs>, child: VectorVfs, i: nat, held: seq<Held>)
    requires i < |stores| == |held| && NoStoreTwice(stores) && child !in stores
    requires forall j :: 0 <= j < |stores| && j != i ==> Held(stores[j].baseLayers, stores[j].activeLayer) == held[j]
    requires AllApart(held[i := Held(stores[i].baseLayers, stores[i].activeLayer)]
                      + [Held(child.baseLayers, child.activeLayer)])
    requires child.Valid() && forall j :: 0 <= j < |stores| ==> stores[j].Valid()
    ensures AllValid(stores + [child]) && Separate(stores + [child])
  {
    assert HeldBy(stores) == held[i := Held(stores[i].baseLayers, stores[i].activeLayer)];
    OneStoreMore(stores, child);
  }

  method ForkOne(v: VectorVfs, ghost stores: seq<VectorVfs>, ghost i: nat) returns (child: VectorVfs)
    requires i < |stores| && stores[i] == v && AllValid(stores) && Separate(stores) && v.Valid()
    modifies v`baseLayers, v`activeLayer, v.activeLayer, v.activeLayer.counter, set h <- v.baseLayers :: h.counter
    ensures fresh(child) && fresh(v.activeLayer) && fresh(v.activeLayer.counter) && fresh(v.activeLayer.shards)
    ensures fresh(child.activeLayer) && fresh(child.activeLayer.counter) && fresh(child.activeLayer.shards)
    ensures CountersOf(v.baseLayers) + CountersOf(child.baseLayers)
         <= old(CountersOf(v.baseLayers) + {v.activeLayer.counter})
    ensures AllValid(stores + [child]) && Separate(stores + [child])
    ensures v.Value() == Store(Handle({}, v.activeLayer.shards), old(v.Layered()), v.workerShards, v.requests)
    ensures child.Value() == Store(Handle({}, child.activeLayer.shards), old(v.Layered()), child.activeLayer.shards, [])
    ensures v.activeLayer.shards != child.activeLayer.shards
    ensures v.activeLayer.shards.Value() == child.activeLayer.shards.Value() == NO_SHARDS
    ensures v.Valid() && child.Valid()
      && forall j :: 0 <= j < |stores| && j != i ==> stores[j].Valid() && stores[j].Value() == old(stores[j].Value())
  {
    ghost var held := HeldBy(stores);
    ghost var known := AllHandles(held);
    child := SpawnAmong(v, stores, i, known);
    assert held[i].base == old(v.baseLayers);
    ForkedHandles(held, known, i, Held(v.baseLayers, v.activeLayer), Held(child.baseLayers, child.activeLayer));
    ForkedStores(stores, child, i, held);
  }

  /** The world, once store `i` has forked off `child`. */
  lemma ForkedWorldOf(stores: seq<VectorVfs>, child: VectorVfs, all: set<VectorShards>, i: nat,
                      was: World<VectorShards>, p: VectorShards, c: VectorShards)
    requires i < |stores| == |was.stores| && was.memory.Keys == all && p != c && p !in all && c !in all
    requires forall j :: 0 <= j < |stores| && j != i ==> stores[j].Value() == was.stores[j]
    requires stores[i].Value()
          == was.stores[i].(active := Handle({}, p), base := was.stores[i].base + [was.stores[i].active])
    requires child.Value() == Store(Handle({}, c), was.stores[i].base + [was.stores[i].active], c, [])
    requires p.Value() == c.Value() == NO_SHARDS && forall x <- all :: x.Value() == was.memory[x]
    ensures CanFork(was, p, c) && WorldOf(stores + [child], all + {p, c}) == DoFork(was, i, p, c)
  {
    assert ValuesOf(stores) == DoFork(was, i, p, c).stores[..|stores|];
    OneStoreMore(stores, child);
    ContentsAdded(all, p, c, was.memory);
  }

  /** Nothing is in reach after a fork that was not before, except what is new. */
  lemma ForkedReach(stores: seq<VectorVfs>, child: VectorVfs, all: set<VectorShards>, i: nat, held: seq<Held>,
                    o: object)
    requires i < |stores| == |held|
    requires forall j :: 0 <= j < |stores| && j != i ==> Held(stores[j].baseLayers, stores[j].activeLayer) == held[j]
    requires CountersOf(stores[i].baseLayers) + CountersOf(child.baseLayers)
          <= CountersOf(held[i].base) + {held[i].active.counter}
    requires o in Footprint(stores + [child], all + {stores[i].activeLayer.shards, child.activeLayer.shards})
    ensures o in Reached(stores, held, all)
         || o in {child, stores[i].activeLayer, child.activeLayer}
         || o in {stores[i].activeLayer.counter, child.activeLayer.counter}
         || o in {stores[i].activeLayer.shards, child.activeLayer.shards}
  {
    var now := HeldBy(stores + [child]);
    if x :| x in now && o in Reach(x) {
      var j :| 0 <= j < |now| && now[j] == x;
      if j != i && j < |stores| {
        assert held[j] in held && x == held[j];
      } else {
        assert held[i] in held;
        assert CountersOf(held[i].base) + {held[i].active.counter} <= Reach(held[i]);
        if h :| h in x.base && o == h.counter {
          assert h.counter in CountersOf(x.base);
        }
      }
    }
  }

  method ForkWorld(v: VectorVfs, ghost stores: seq<VectorVfs>, ghost all: set<VectorShards>, ghost i: nat)
    returns (child: VectorVfs)
    requires i < |stores| && stores[i] == v && AllValid(stores) && Separate(stores) && v.Valid()
    modifies v`baseLayers, v`activeLayer, v.activeLayer, v.activeLayer.counter, set h <- v.baseLayers :: h.counter
    ensures fresh(child) && fresh(v.activeLayer) && fresh(v.activeLayer.counter) && fresh(v.activeLayer.shards)
    ensures fresh(child.activeLayer) && fresh(child.activeLayer.counter) && fresh(child.activeLayer.shards)
    ensures CountersOf(v.baseLayers) + CountersOf(child.baseLayers)
         <= old(CountersOf(v.baseLayers) + {v.activeLayer.counter})
    ensures AllValid(stores + [child]) && Separate(stores + [child])
    ensures var p, c := v.activeLayer.shards, child.activeLayer.shards;
            && CanFork(old(WorldOf(stores, all)), p, c)
            && WorldOf(stores + [child], all + {p, c}) == DoFork(old(WorldOf(stores, all)), i, p, c)
  {
    ghost var w := WorldOf(stores, all);
    child := ForkOne(v, stores, i);
    ForkedWorldOf(stores, child, all, i, w, v.activeLayer.shards, child.activeLayer.shards);
  }

  method ApplyFork(v: VectorVfs, ghost stores: seq<VectorVfs>, ghost all: set<VectorShards>, ghost i: nat)
    returns (child: VectorVfs)
    requires i < |stores| && stores[i] == v && AllValid(stores) && Separate(stores)
    modifies Footprint(stores, all)
    ensures forall o <- Footprint(stores + [child], all + {v.activeLayer.shards, child.activeLayer.shards}) ::
              o in old(Footprint(stores, all)) || fresh(o)
    ensures AllValid(stores + [child]) && Separate(stores + [child])
    ensures var p, c := v.activeLayer.shards, child.activeLayer.shards;
            && CanFork(old(WorldOf(stores, all)), p, c)
            && WorldOf(stores + [child], all + {p, c}) == SharedStores.Step(old(WorldOf(stores, all)), Fork(i, p, c))
  {
    ghost var w, held := WorldOf(stores, all), HeldBy(stores);
    StoreInReach(stores, all, i);
    ActiveIsPrivate(stores, i);
    assert v in stores;
    child := ForkWorld(v, stores, all, i);
    ghost var p, c := v.activeLayer.shards, child.activeLayer.shards;
    StepIsFork(w, i, p, c);
    forall o <- Footprint(stores + [child], all + {p, c}) ensures o in Reached(stores, held, all) || fresh(o) {
      ForkedReach(stores, child, all, i, held, o);
    }
  }

  /** A store on the heap is queried through the view its world gives it. */
  lemma LayersAreTheView(stores: seq<VectorVfs>, all: set<VectorShards>, i: nat)
    requires i < |stores| && Consistent(WorldOf(stores, all))
    ensures stores[i].Layers() == ViewOf(WorldOf(stores, all), i) && StackKeyed(stores[i].Layers())
  {
    var w, v := WorldOf(stores, all), stores[i];
    assert StoreOk(w.memory, w.stores[i]);
    forall k | 0 <= k <= |v.baseLayers|
      ensures v.Layers()[k] == ViewOf(w, i)[k] && HandleAt(w.stores[i], k).shards in all
    {
      assert v.Handles()[|v.baseLayers| - k].AsHandle() == HandleAt(w.stores[i], k);
    }
    forall l <- v.Layers(), name <- l.collections ensures KeyedById(l.collections[name].tier1) {
      var k :| 0 <= k <= |v.baseLayers| && v.Layers()[k] == l;
      assert Keyed(w.memory[HandleAt(w.stores[i], k).shards]);
    }
  }

  // ---------------------------------------------------------------------
  // Any schedule of events on any number of stores
  // ---------------------------------------------------------------------

  /** What a driver asks of the stores; the rest of an event is decided as it happens. */
  datatype Action =
    | WriteTo(i: nat, name: string, r: VectorRecord)
    | DeleteFrom(i: nat, id: string)
    | AskFor(i: nat, name: string)
    | ForkOff(i: nat)
    | StartCompaction(i: nat)
    | EndCompaction(i: nat)

  /** The worker of store `i` has nothing to drain, or drains it in this order. */
  ghost predicate Answers<S>(w: World<S>, i: nat, drained: seq<VectorRecord>)
    requires i < |w.stores|
  {
    var sh, requests := ContentsAt(w.memory, w.stores[i].worker), w.stores[i].requests;
    requests == [] || sh.job.Some? || !Exists(sh, requests[0]) || Drains(w, i, drained)
  }

  /** The event is what was asked for, and it happens: a fork forks, and an idle worker with work drains it. */
  ghost predicate Matches<S>(w: World<S>, a: Action, e: Event<S>)
    requires a.i < |w.stores|
  {
    match a
    case WriteTo(i, name, r) => e == Write(i, name, r)
    case DeleteFrom(i, id) => e == Delete(i, id)
    case AskFor(i, name) => e == Ask(i, name)
    case ForkOff(i) => e.Fork? && e.i == i && CanFork(w, e.parentShards, e.childShards)
    case StartCompaction(i) => e.Drain? && e.i == i && Answers(w, i, e.drained)
    case EndCompaction(i) => e == Swap(i)
  }

  /** Every action of the schedule that names a store there is by then happens, in order, and nothing else does. */
  ghost predicate Follows<S>(w: World<S>, schedule: seq<Action>, run: seq<Event<S>>)
    decreases |schedule|
  {
    if schedule == [] then run == []
    else if schedule[0].i >= |w.stores| then Follows(w, schedule[1..], run)
    else run != [] && Matches(w, schedule[0], run[0]) && Follows(SharedStores.Step(w, run[0]), schedule[1..], run[1..])
  }

  /** How many stores there are after a schedule that starts with `n`: one more for each fork of one that is there. */
  function Grown(n: nat, schedule: seq<Action>): nat
    decreases |schedule|
  {
    if schedule == [] then n
    else Grown(if schedule[0].ForkOff? && schedule[0].i < n then n + 1 else n, schedule[1..])
  }

  /** How many actions of the schedule name a store that is there by then. */
  function Heeded(n: nat, schedule: seq<Action>): nat
    decreases |schedule|
  {
    if schedule == [] then 0
    else if schedule[0].i >= n then Heeded(n, schedule[1..])
    else 1 + Heeded(if schedule[0].ForkOff? then n + 1 else n, schedule[1..])
  }

  lemma {:induction false} FollowedGrows<S>(w: World<S>, schedule: seq<Action>, run: seq<Event<S>>)
    requires Follows(w, schedule, run)
    ensures |SharedStores.Run(w, run).stores| == Grown(|w.stores|, schedule)
    ensures |run| == Heeded(|w.stores|, schedule)
    decreases |schedule|
  {
    if schedule != [] {
      if schedule[0].i >= |w.stores| {
        FollowedGrows(w, schedule[1..], run);
      } else {
        FollowedGrows(SharedStores.Step(w, run[0]), schedule[1..], run[1..]);
      }
    }
  }

  lemma {:induction false} FollowsSnoc<S>(w: World<S>, schedule: seq<Action>, run: seq<Event<S>>, a: Action,
                                          e: Event<S>)
    requires Follows(w, schedule, run) && a.i < |SharedStores.Run(w, run).stores|
    requires Matches(SharedStores.Run(w, run), a, e)
    ensures Follows(w, schedule + [a], run + [e])
    decreases |schedule|
  {
    if schedule == [] {
      assert [] + [a] == [a] && [a][1..] == [] && [] + [e] == [e] && [e][1..] == [];
    } else {
      TailOfConcat(schedule, [a]);
      if schedule[0].i >= |w.stores| {
        FollowsSnoc(w, schedule[1..], run, a, e);
      } else {
        TailOfConcat(run, [e]);
        FollowsSnoc(SharedStores.Step(w, run[0]), schedule[1..], run[1..], a, e);
      }
    }
  }

  lemma {:induction false} FollowsSkip<S>(w: World<S>, schedule: seq<Action>, run: seq<Event<S>>, a: Action)
    requires Follows(w, schedule, run) && a.i >= |SharedStores.Run(w, run).stores|
    ensures Follows(w, schedule + [a], run)
    decreases |schedule|
  {
    if schedule == [] {
      assert [] + [a] == [a] && [a][1..] == [];
    } else {
      TailOfConcat(schedule, [a]);
      if schedule[0].i >= |w.stores| {
        FollowsSkip(w, schedule[1..], run, a);
      } else {
        FollowsSkip(SharedStores.Step(w, run[0]), schedule[1..], run[1..], a);
      }
    }
  }

  /** Everything but a fork happens to the stores there are. */
  method ApplyInPlace(stores: seq<VectorVfs>, ghost all: set<VectorShards>, a: Action)
    returns (ghost e: Event<VectorShards>)
    requires a.i < |stores| && !a.ForkOff? && AllValid(stores) && Separate(stores) && Consistent(WorldOf(stores, all))
    modifies Footprint(stores, all)
    ensures AllValid(stores) && HeldBy(stores) == old(HeldBy(stores)) && Matches(old(WorldOf(stores, all)), a, e)
    ensures WorldOf(stores, all) == SharedStores.Step(old(WorldOf(stores, all)), e)
  {
    match a
    case WriteTo(i, name, r) =>
      ApplyWrite(stores[i], stores, all, i, name, r);
      e := Write(i, name, r);
    case DeleteFrom(i, id) =>
      ApplyDelete(stores[i], stores, all, i, id);
      e := Delete(i, id);
    case AskFor(i, name) =>
      ApplyAsk(stores[i], stores, all, i, name);
      e := Ask(i, name);
    case StartCompaction(i) =>
      ghost var drained := ApplyDrain(stores[i], stores, all, i);
      e := Drain(i, drained);
    case EndCompaction(i) =>
      ApplySwap(stores[i], stores, all, i);
      e := Swap(i);
  }

  method Apply(stores: seq<VectorVfs>, ghost all: set<VectorShards>, a: Action)
    returns (next: seq<VectorVfs>, ghost all': set<VectorShards>, ghost e: Event<VectorShards>)
    requires a.i < |stores| && AllValid(stores) && Separate(stores) && Consistent(WorldOf(stores, all))
    modifies Footprint(stores, all)
    ensures AllValid(next) && Separate(next) && Matches(old(WorldOf(stores, all)), a, e)
    ensures WorldOf(next, all') == SharedStores.Step(old(WorldOf(stores, all)), e)
    ensures forall o <- Footprint(next, all') :: o in old(Footprint(stores, all)) || fresh(o)
  {
    next, all' := stores, all;
    if a.ForkOff? {
      var child := ApplyFork(stores[a.i], stores, all, a.i);
      ghost var p, c := stores[a.i].activeLayer.shards, child.activeLayer.shards;
      e := Fork(a.i, p, c);
      next, all' := stores + [child], all + {p, c};
    } else {
      e := ApplyInPlace(stores, all, a);
    }
  }

  /**
   Any schedule of writes, deletes, compaction requests, forks (of forks) and
   half compactions, on any number of stores: every action on a store that is
   there by then happens, children included, and the heap ends as the world of
   `SharedStores` does, so what is proved of its runs holds of these objects.
   */
  method Interleave(stores: seq<VectorVfs>, ghost all: set<VectorShards>, schedule: seq<Action>)
    returns (now: seq<VectorVfs>, ghost all': set<VectorShards>, ghost run: seq<Event<VectorShards>>)
    requires AllValid(stores) && Separate(stores) && Consistent(WorldOf(stores, all))
    modifies Footprint(stores, all)
    ensures AllValid(now) && Separate(now) && Consistent(WorldOf(now, all'))
    ensures WorldOf(now, all') == SharedStores.Run(old(WorldOf(stores, all)), run)
    ensures Follows(old(WorldOf(stores, all)), schedule, run)
    ensures |now| == Grown(|stores|, schedule) && |run| == Heeded(|stores|, schedule)
  {
    now, all', run := stores, all, [];
    ghost var w, reach := WorldOf(stores, all), Footprint(stores, all);
    for k := 0 to |schedule|
      invariant AllValid(now) && Separate(now) && Consistent(WorldOf(now, all'))
      invariant WorldOf(now, all') == SharedStores.Run(w, run) && Follows(w, schedule[..k], run)
      invariant forall o <- Footprint(now, all') :: o in reach || fresh(o)
    {
      assert schedule[..k + 1] == schedule[..k] + [schedule[k]];
      if schedule[k].i < |now| {
        ghost var before := WorldOf(now, all');
        ghost var e;
        now, all', e := Apply(now, all', schedule[k]);
        StepOk(before, e);
        RunSnoc(w, run, e);
        FollowsSnoc(w, schedule[..k], run, schedule[k], e);
        run := run + [e];
      } else {
        FollowsSkip(w, schedule[..k], run, schedule[k]);
      }
    }
    assert schedule[..|schedule|] == schedule;
    FollowedGrows(w, schedule, run);
  }

  /** At every moment, the file of every layer that some store holds is there. */
  lemma HeldFilesStay(stores: seq<VectorVfs>, v: VectorVfs, h: VfsLayer)
    requires AllValid(stores) && v in stores && h in v.Handles()
    ensures !h.counter.removed && h.counter.count > 0
  {
    assert v.Valid();
    LiveHasFile(h);
  }
}
