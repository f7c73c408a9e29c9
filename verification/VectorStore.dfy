/**
 The vector store on the heap (src/memory.rs, src/shards.rs): layer handles own
 their tombstones and share their shards and reference counter with their
 copies; a store owns its handles. The stores on a heap are a world of
 `SharedStores` whose shared contents are named by the objects themselves.
 */
module VectorStore {
  import opened Wrappers
  import opened VectorRecall
  import opened RecallProperties
  import opened LayerRefinement
  import opened LatestVersions
  import opened LayerCounting
  import opened SharedStores

  /** The in-memory contents of a layer, shared by all its handles, and what the compactor has in hand of them. */
  class VectorShards {
    var collections: map<string, VectorCollection>
    var compacting: set<string>
    var job: Option<Job>

    function Value(): Shards
      reads this
    {
      Shards(collections, compacting, job)
    }

    constructor ()
      ensures Value() == NO_SHARDS
    {
      collections, compacting, job := map[], {}, None;
    }

    /**
     First half of a compaction: empties tier 1 in whatever order the hash map
     yields it. If there was nothing, the compaction is over.
     */
    method Drain(name: string) returns (drained: seq<VectorRecord>)
      requires KeyedById(CollectionIn(Value(), name).tier1) && job.None?
      modifies this
      ensures DrainOrder(old(CollectionIn(Value(), name).tier1), drained)
      ensures Value() == Drained(old(Value()), name, drained)
    {
      var col := CollectionIn(Value(), name);
      drained := DrainTier1(col.tier1);
      collections := collections[name := col.(tier1 := map[])];
      if drained == [] {
        compacting := compacting - {name};
      } else {
        job := Some(Job(name, drained));
      }
    }

    /** Second half: swaps in a tier 2 that ends with the drained records, and clears the request. */
    method SwapTier2()
      modifies this
      ensures Value() == Swapped(old(Value()))
    {
      if job.None? {
        return;
      }
      var name := job.value.name;
      var col := CollectionIn(Value(), name);
      var tier2 := Extended(col.tier2, job.value.drained);
      collections := collections[name := col.(tier2 := tier2)];
      compacting := compacting - {name};
      job := None;
    }

    static method Extended(tier2: Tier2Data, drained: seq<VectorRecord>) returns (r: Tier2Data)
      ensures r == Tier2Data(tier2.records + drained, tier2.points + VectorsOf(drained), true)
    {
      var points, records := tier2.points, tier2.records;
      for i := 0 to |drained|
        invariant records == tier2.records + drained[..i]
        invariant points == tier2.points + VectorsOf(drained[..i])
      {
        points := points + [drained[i].vector];
        records := records + [drained[i]];
        assert drained[..i + 1] == drained[..i] + [drained[i]];
        assert VectorsOf(drained[..i + 1]) == VectorsOf(drained[..i]) + [drained[i].vector];
      }
      assert drained[..|drained|] == drained;
      r := Tier2Data(records, points, true);
    }

    /** Both halves with nothing in between. */
    method DoCompaction(name: string) returns (drained: seq<VectorRecord>)
      requires KeyedById(CollectionIn(Value(), name).tier1) && job.None?
      modifies this
      ensures DrainOrder(old(CollectionIn(Value(), name).tier1), drained)
      ensures collections == old(collections)[name := Compacted(old(CollectionIn(Value(), name)), drained)]
      ensures compacting == old(compacting) - {name} && job.None?
    {
      drained := Drain(name);
      SwapTier2();
    }

    /** Flags a collection; the answer says whether it was flagged before. */
    method Flag(name: string) returns (already: bool)
      modifies `compacting
      ensures Value() == Flagged(old(Value()), name) && already == (name in old(compacting))
    {
      already := name in compacting;
      compacting := compacting + {name};
    }
  }

  method DrainTier1(tier1: map<string, VectorRecord>) returns (drained: seq<VectorRecord>)
    requires KeyedById(tier1)
    ensures DrainOrder(tier1, drained)
  {
    drained := [];
    var rest := tier1.Keys;
    while rest != {}
      invariant rest <= tier1.Keys && DistinctRecords(drained)
      invariant forall r <- drained :: r.id in tier1 && r.id !in rest && tier1[r.id] == r
      invariant forall id <- tier1 :: id in rest || tier1[id] in drained
      decreases rest
    {
      var id :| id in rest;
      drained := drained + [tier1[id]];
      rest := rest - {id};
    }
  }

  /** The atomic counter of a layer, and whether the layer's file was removed. */
  class LayerCounter {
    var count: nat
    var removed: bool
    ghost var live: map<VfsLayer, bool>
    ghost var lost: nat

    ghost function State(): LayerState<VfsLayer>
      reads this
    {
      LayerState(count, live, lost, removed)
    }

    constructor ()
      ensures count == 1 && !removed && live == map[] && lost == 0
    {
      count, removed, live, lost := 1, false, map[], 0;
    }
  }

  class VfsLayer {
    const shards: VectorShards
    const counter: LayerCounter
    var isReadonly: bool
    var tombstones: set<string>

    /** This handle is counted. */
    ghost predicate Live()
      reads this, counter
    {
      && this in counter.live && counter.live[this] == isReadonly
      && Sound(counter.State())
    }

    function AsHandle(): Handle<VectorShards>
      reads this
    {
      Handle(tombstones, shards)
    }

    function Contents(): Layer
      reads this, shards
    {
      Layer(tombstones, shards.collections)
    }

    constructor (isReadonly: bool, shards: VectorShards)
      ensures this.shards == shards && this.isReadonly == isReadonly && tombstones == {}
      ensures fresh(counter) && counter.State() == NewLayer(this, isReadonly) && Live()
    {
      this.shards := shards;
      this.isReadonly := isReadonly;
      tombstones := {};
      counter := new LayerCounter();
      new;
      counter.live := map[this := isReadonly];
    }

    /** A handle on the same layer; the caller accounts for it. */
    constructor Share(from: VfsLayer)
      ensures shards == from.shards && counter == from.counter
      ensures isReadonly == from.isReadonly && tombstones == from.tombstones
    {
      shards, counter := from.shards, from.counter;
      isReadonly, tombstones := from.isReadonly, from.tombstones;
    }

    method PutRecord(name: string, r: VectorRecord)
      modifies `tombstones, shards`collections
      ensures AsHandle() == Cleared(old(AsHandle()), r.id)
      ensures shards.Value() == Put(old(shards.Value()), name, r)
    {
      var col := CollectionIn(shards.Value(), name);
      tombstones := tombstones - {r.id};
      shards.collections := shards.collections[name := col.(tier1 := col.tier1[r.id := r])];
    }

    /** `others` are handles whose owners go on counting on them. */
    method Clone(ghost others: set<VfsLayer>) returns (copy: VfsLayer)
      requires Live() && forall h <- others :: h.Live()
      modifies counter
      ensures fresh(copy) && copy.shards == shards && copy.counter == counter
      ensures copy.isReadonly == isReadonly && copy.tombstones == tombstones
      ensures counter.State() == LayerCounting.Step(old(counter.State()), CloneOp(this, copy))
      ensures copy !in old(counter.live) && Live() && copy.Live()
      ensures forall h <- others :: h.Live()
    {
      counter.count := counter.count + 1;
      copy := new VfsLayer.Share(this);
      StepKeepsSound(old(counter.State()), CloneOp(this, copy));
      counter.live := counter.live[copy := isReadonly];
    }

    method Freeze(ghost others: set<VfsLayer>)
      requires Live() && forall h <- others :: h.Live() && h != this
      modifies this, counter
      ensures isReadonly && tombstones == old(tombstones)
      ensures counter.State() == LayerCounting.Step(old(counter.State()), FreezeOp(this))
      ensures Live()
      ensures forall h <- others :: h.Live()
    {
      StepKeepsSound(counter.State(), FreezeOp(this));
      isReadonly := true;
      counter.live := counter.live[this := true];
    }

    /** Runs when the handle goes out of scope. */
    method Drop(ghost others: set<VfsLayer>)
      requires Live() && forall h <- others :: h.Live() && h != this
      modifies counter
      ensures counter.State() == LayerCounting.Step(old(counter.State()), DropOp(this))
      ensures forall h <- others :: h.Live()
    {
      StepKeepsSound(counter.State(), DropOp(this));
      if isReadonly {
        var previous := counter.count;
        assert previous > 0;  // a live handle is counted, so the subtraction never wraps
        counter.count := previous - 1;
        if previous - 1 == 0 {
          counter.removed := true;
        }
      } else {
        counter.lost := counter.lost + 1;
      }
      counter.live := counter.live - {this};
    }
  }

  /** As long as a handle is counted, the file of its layer is there. */
  lemma LiveHasFile(h: VfsLayer)
    requires h.Live()
    ensures !h.counter.removed && h.counter.count > 0
  {
    assert |h.counter.live| > 0;
  }

  // ---------------------------------------------------------------------
  // Handles of a fork
  // ---------------------------------------------------------------------

  /** Adds a copy of one more handle to the copies made so far. */
  method CloneOne(layer: VfsLayer, copies: seq<VfsLayer>, ghost others: set<VfsLayer>) returns (more: seq<VfsLayer>)
    requires layer.Live() && NoTwice(copies) && forall h <- copies :: h.Live()
    requires forall h <- others :: h.Live()
    modifies layer.counter
    ensures |more| == |copies| + 1 && more[..|copies|] == copies && fresh(more[|copies|]) && NoTwice(more)
    ensures more[|copies|].AsHandle() == layer.AsHandle() && more[|copies|].counter == layer.counter
    ensures forall h <- more :: h.Live()
    ensures forall h <- others :: h.Live()
  {
    var copy := layer.Clone(others + (set h <- copies));
    NoTwiceSnoc(copies, copy);
    more := copies + [copy];
  }

  /** Copies every handle of a list, as cloning the vector of base layers does. */
  method CloneAll(layers: seq<VfsLayer>, ghost others: set<VfsLayer>) returns (copies: seq<VfsLayer>)
    requires forall h <- others :: h.Live()
    requires forall h <- layers :: h in others
    modifies set h <- layers :: h.counter
    ensures forall h <- others :: h.Live()
    ensures forall h <- copies :: h.Live() && fresh(h) && h.counter in CountersOf(layers)
    ensures HandlesOf(copies) == old(HandlesOf(layers)) && NoTwice(copies)
  {
    copies := [];
    for k := 0 to |layers|
      invariant |copies| == k && NoTwice(copies)
      invariant forall h <- others :: h.Live()
      invariant forall h <- copies :: h.Live()
      invariant forall i :: 0 <= i < k ==> fresh(copies[i]) && copies[i].AsHandle() == layers[i].AsHandle()
      invariant forall h <- copies :: h.counter in CountersOf(layers)
    {
      copies := CloneOne(layers[k], copies, others);
    }
  }

  ghost function CountersOf(layers: seq<VfsLayer>): set<LayerCounter> {
    set h <- layers :: h.counter
  }

  ghost predicate NoTwice(layers: seq<VfsLayer>) {
    forall i, j :: 0 <= i < j < |layers| ==> layers[i] != layers[j]
  }

  ghost function HandlesOf(layers: seq<VfsLayer>): seq<Handle<VectorShards>>
    reads layers
  {
    seq(|layers|, i requires 0 <= i < |layers| reads layers => layers[i].AsHandle())
  }

  method FreezeAndCopy(active: VfsLayer, ghost others: set<VfsLayer>) returns (frozen: VfsLayer, pushed: VfsLayer)
    requires active.Live() && forall h <- others :: h.Live() && h != active
    modifies active, active.counter
    ensures fresh(frozen) && fresh(pushed) && frozen != pushed
    ensures active.Live() && frozen.Live() && pushed.Live() && forall h <- others :: h.Live()
    ensures active.isReadonly && frozen.isReadonly && pushed.isReadonly
    ensures frozen.counter == pushed.counter == active.counter
    ensures frozen.AsHandle() == pushed.AsHandle() == active.AsHandle() == old(active.AsHandle())
    ensures active.counter.count == old(active.counter.count) + 2
  {
    active.Freeze(others);
    frozen := active.Clone(others + {active});
    pushed := frozen.Clone(others + {active, frozen});
  }

  /** The child's base handle, and the handle that stands in for its active layer. */
  method CopyTwice(active: VfsLayer, pushed: VfsLayer, ghost frozen: VfsLayer, ghost others: set<VfsLayer>)
    returns (copied: VfsLayer, placeholder: VfsLayer)
    requires active.Live() && pushed.Live() && frozen.Live() && active.isReadonly && pushed.isReadonly
    requires active.counter == pushed.counter == frozen.counter && forall h <- others :: h.Live()
    modifies active.counter
    ensures fresh(copied) && fresh(placeholder) && copied != placeholder
    ensures active.Live() && pushed.Live() && frozen.Live() && copied.Live() && placeholder.Live()
    ensures copied.isReadonly && placeholder.isReadonly && copied.AsHandle() == pushed.AsHandle()
    ensures copied.counter == placeholder.counter == active.counter
    ensures active.counter.count == old(active.counter.count) + 2 && forall h <- others :: h.Live()
  {
    copied := pushed.Clone(others + {active, pushed, frozen});
    placeholder := active.Clone(others + {active, pushed, frozen, copied});
  }

  /** Drops three read-only handles of one layer that has others. */
  method DropThree(a: VfsLayer, b: VfsLayer, c: VfsLayer, ghost others: set<VfsLayer>)
    requires a.Live() && b.Live() && c.Live() && a != b && b != c && a != c
    requires a.counter == b.counter == c.counter && a.isReadonly && b.isReadonly && c.isReadonly
    requires forall h <- others :: h.Live() && h !in {a, b, c}
    modifies a.counter
    ensures a.counter.count == old(a.counter.count) - 3
    ensures forall h <- others :: h.Live()
  {
    a.Drop(others + {b, c});
    b.Drop(others + {c});
    c.Drop(others);
  }

  /**
   Freezes the active layer and turns its handle into one base handle for the
   parent and one for the child, dropping every other handle made on the way.
   */
  method ShareFrozen(active: VfsLayer, ghost others: set<VfsLayer>) returns (mine: VfsLayer, theirs: VfsLayer)
    requires active.Live() && forall h <- others :: h.Live() && h != active
    modifies active, active.counter
    ensures fresh(mine) && fresh(theirs) && mine != theirs && mine.Live() && theirs.Live()
    ensures mine.AsHandle() == theirs.AsHandle() == old(active.AsHandle())
    ensures mine.counter == theirs.counter == active.counter
    ensures active.counter.count == old(active.counter.count) + 1 && forall h <- others :: h.Live()
  {
    var frozen, pushed := FreezeAndCopy(active, others);
    var copied, placeholder := CopyTwice(active, pushed, frozen, others);
    assert forall h <- others :: h !in {frozen, pushed, copied, placeholder};
    DropThree(active, placeholder, frozen, others + {pushed, copied});
    mine, theirs := pushed, copied;
  }

  lemma NoTwiceSnoc(layers: seq<VfsLayer>, last: VfsLayer)
    ensures NoTwice(layers + [last]) <==> NoTwice(layers) && last !in layers
  {
    var all := layers + [last];
    assert forall i :: 0 <= i < |layers| ==> all[i] == layers[i];
    assert all[|layers|] == last;
  }

  lemma HandlesOfSnoc(layers: seq<VfsLayer>, last: VfsLayer)
    ensures HandlesOf(layers + [last]) == HandlesOf(layers) + [last.AsHandle()]
  {
  }

  /** The base layers of a parent and of its new child, from the parent's layers. */
  method ForkHandles(active: VfsLayer, base: seq<VfsLayer>, ghost others: set<VfsLayer>)
    returns (mine: seq<VfsLayer>, theirs: seq<VfsLayer>)
    requires NoTwice(base) && active !in base && active.Live()
    requires forall h <- base :: h.Live() && h.counter != active.counter
    requires forall h <- others :: h.Live() && h != active
    modifies active, active.counter, set h <- base :: h.counter
    ensures |mine| == |base| + 1 && mine[..|base|] == base && fresh(mine[|base|])
    ensures NoTwice(mine) && NoTwice(theirs) && forall h <- theirs :: fresh(h) && h !in mine
    ensures forall h <- others :: h.Live()
    ensures forall h <- mine :: h.Live()
    ensures forall h <- theirs :: h.Live()
    ensures HandlesOf(mine) == HandlesOf(theirs) == old(HandlesOf(base)) + [old(active.AsHandle())]
    ensures CountersOf(mine) + CountersOf(theirs) <= CountersOf(base) + {active.counter}
    ensures active.counter.count == old(active.counter.count) + 1
  {
    ghost var kept, was := (set h <- base), HandlesOf(base);
    var pushed, copied := ShareFrozen(active, others + kept);
    assert HandlesOf(base) == was;
    var copies := CopyBase(base, pushed, copied, others);
    mine, theirs := base + [pushed], copies + [copied];
    NoTwiceSnoc(base, pushed);
    NoTwiceSnoc(copies, copied);
    HandlesOfSnoc(base, pushed);
    HandlesOfSnoc(copies, copied);
  }

  method CopyBase(base: seq<VfsLayer>, ghost pushed: VfsLayer, ghost copied: VfsLayer, ghost others: set<VfsLayer>)
    returns (copies: seq<VfsLayer>)
    requires pushed.Live() && copied.Live() && forall h <- base :: h.Live()
    requires forall h <- others :: h.Live()
    modifies set h <- base :: h.counter
    ensures pushed.Live() && copied.Live() && forall h <- base :: h.Live()
    ensures forall h <- others :: h.Live()
    ensures forall h <- copies :: h.Live() && fresh(h)
    ensures CountersOf(copies) <= CountersOf(base)
    ensures NoTwice(copies) && HandlesOf(copies) == HandlesOf(base) == old(HandlesOf(base))
  {
    copies := CloneAll(base, others + (set h <- base) + {pushed, copied});
  }

  // ---------------------------------------------------------------------
  // Stores
  // ---------------------------------------------------------------------

  /** One agent's store: frozen base layers, oldest first, under one active layer. */
  class VectorVfs {
    var baseLayers: seq<VfsLayer>
    var activeLayer: VfsLayer
    /** Collections queued for the compaction worker, and the contents it took hold of when it started. */
    var requests: seq<string>
    const workerShards: VectorShards

    ghost function Value(): Store<VectorShards>
      reads this, activeLayer, baseLayers
    {
      Store(activeLayer.AsHandle(), HandlesOf(baseLayers), workerShards, requests)
    }

    /** What the layers are, oldest first. */
    ghost function Layered(): seq<Handle<VectorShards>>
      reads this, activeLayer, baseLayers
    {
      HandlesOf(baseLayers) + [activeLayer.AsHandle()]
    }

    ghost function Handles(): seq<VfsLayer>
      reads this
    {
      baseLayers + [activeLayer]
    }

    /** No handle serves twice, every handle is counted, and the active one by a counter of its own layer. */
    ghost predicate Valid()
      reads this, activeLayer, activeLayer.counter, baseLayers, set h <- baseLayers :: h.counter
    {
      && NoTwice(baseLayers) && activeLayer !in baseLayers && activeLayer.Live()
      && forall h <- baseLayers :: h.Live() && h.counter != activeLayer.counter
    }

    /** The layers a query walks, newest first. */
    ghost function Layers(): (st: Stack)
      reads this, Handles(), set h <- Handles() :: h.shards
    {
      seq(|baseLayers| + 1, k requires 0 <= k <= |baseLayers| reads this, Handles(), set h <- Handles() :: h.shards =>
        Handles()[|baseLayers| - k].Contents())
    }

    constructor ()
      ensures Valid() && requests == [] && workerShards == activeLayer.shards && baseLayers == []
      ensures fresh(activeLayer) && fresh(activeLayer.counter) && fresh(activeLayer.shards)
      ensures activeLayer.tombstones == {} && activeLayer.shards.Value() == NO_SHARDS
    {
      var shards := new VectorShards();
      activeLayer := new VfsLayer(false, shards);
      baseLayers, requests, workerShards := [], [], shards;
    }

    method Forget(id: string)
      requires Valid()
      modifies activeLayer`tombstones
      ensures Valid() && Value() == old(Value()).(active := Tombstoned(old(activeLayer.AsHandle()), id))
    {
      activeLayer.tombstones := activeLayer.tombstones + {id};
    }

    /** Queues a collection for the worker, unless it is queued already. */
    method CompactCollection(name: string)
      requires Valid()
      modifies `requests, activeLayer.shards`compacting
      ensures Valid() && activeLayer.shards.Value() == Flagged(old(activeLayer.shards.Value()), name)
      ensures Value() == old(Value()).(requests := old(requests)
        + if name in old(activeLayer.shards.compacting) then [] else [name])
    {
      var already := activeLayer.shards.Flag(name);
      if !already {
        requests := requests + [name];
      }
    }

    /** A full buffer asks for compaction first. */
    method Remember(name: string, r: VectorRecord)
      requires Valid()
      modifies `requests, activeLayer`tombstones, activeLayer.shards
      ensures Valid() && activeLayer.shards.Value() == AfterWrite(old(activeLayer.shards.Value()), name, r)
      ensures Value() == Store(Cleared(old(activeLayer.AsHandle()), r.id), old(HandlesOf(baseLayers)), workerShards,
                               old(requests) + AsksFor(old(activeLayer.shards.Value()), name))
    {
      if |CollectionIn(activeLayer.shards.Value(), name).tier1| >= TIER1_CAP {
        CompactCollection(name);
      }
      activeLayer.PutRecord(name, r);
    }

    /** The worker, if idle, takes one request and drains that collection, if its contents have it. */
    method TakeRequest() returns (ghost drained: seq<VectorRecord>)
      requires Keyed(workerShards.Value())
      modifies `requests, workerShards
      ensures requests == Rest(old(requests), old(workerShards.Value()))
      ensures Serves(old(requests), old(workerShards.Value()), drained, workerShards.Value())
    {
      drained := [];
      if requests == [] || workerShards.job.Some? {
        return;
      }
      var name := requests[0];
      requests := requests[1..];
      if name in workerShards.collections || name in workerShards.compacting {
        drained := workerShards.Drain(name);
      }
    }

    /** The worker ends the compaction it has begun. */
    method FinishCompaction()
      modifies workerShards
      ensures workerShards.Value() == Swapped(old(workerShards.Value()))
    {
      workerShards.SwapTier2();
    }

    method Recall(q: SearchQuery, answers: seq<seq<IndexHit>>) returns (results: seq<SearchResult>)
      requires StackKeyed(Layers()) && |answers| == |Layers()|
      ensures IsTop(q, ProbeStack(q, Layers(), answers), results)
    {
      var layers := [activeLayer.Contents()];
      for k := 0 to |baseLayers|
        invariant layers == Layers()[..k + 1]
      {
        layers := layers + [baseLayers[|baseLayers| - 1 - k].Contents()];
      }
      assert Layers()[..|Layers()|] == Layers();
      results := VectorRecall.Recall(q, layers, answers);
    }

    /** A child over the given base layers, with a fresh active layer and a worker on it. */
    constructor Child(base: seq<VfsLayer>)
      requires NoTwice(base) && forall h <- base :: h.Live()
      ensures Valid() && baseLayers == base
      ensures fresh(activeLayer) && fresh(activeLayer.counter) && fresh(activeLayer.shards)
      ensures Value() == Store(Handle({}, activeLayer.shards), HandlesOf(base), activeLayer.shards, [])
      ensures activeLayer.shards.Value() == NO_SHARDS
    {
      var shards := new VectorShards();
      activeLayer := new VfsLayer(false, shards);
      baseLayers, requests, workerShards := base, [], shards;
    }

    /** Puts a fresh active layer above new base layers; the child just made and the other stores do not notice. */
    method Refresh(base: seq<VfsLayer>, ghost child: VectorVfs, ghost others: set<VfsLayer>)
      requires NoTwice(base) && forall h <- base :: h.Live()
      requires child != this && child.Valid() && forall h <- others :: h.Live()
      modifies `baseLayers, `activeLayer
      ensures Valid() && baseLayers == base && child.Valid() && child.Value() == old(child.Value())
      ensures forall h <- others :: h.Live()
      ensures fresh(activeLayer) && fresh(activeLayer.counter) && fresh(activeLayer.shards)
      ensures Value() == Store(Handle({}, activeLayer.shards), HandlesOf(base), workerShards, requests)
      ensures activeLayer.shards.Value() == NO_SHARDS && HandlesOf(base) == old(HandlesOf(base))
    {
      var shards := new VectorShards();
      var active := new VfsLayer(false, shards);
      baseLayers, activeLayer := base, active;
    }

    static method ChildOver(theirs: seq<VfsLayer>, ghost mine: seq<VfsLayer>, ghost others: set<VfsLayer>)
      returns (child: VectorVfs)
      requires NoTwice(theirs) && forall h <- theirs :: h.Live()
      requires forall h <- mine :: h.Live()
      requires forall h <- others :: h.Live()
      ensures child.Valid() && fresh(child) && child.baseLayers == theirs
      ensures fresh(child.activeLayer) && fresh(child.activeLayer.counter) && fresh(child.activeLayer.shards)
      ensures child.Value()
           == Store(Handle({}, child.activeLayer.shards), HandlesOf(theirs), child.activeLayer.shards, [])
      ensures child.activeLayer.shards.Value() == NO_SHARDS
      ensures forall h <- mine :: h.Live()
      ensures forall h <- others :: h.Live()
      ensures HandlesOf(mine) == old(HandlesOf(mine)) && HandlesOf(theirs) == old(HandlesOf(theirs))
    {
      child := new VectorVfs.Child(theirs);
    }

    /**
     Freezes the active layer, and gives this store and a new child each a fresh
     one above it. No contents change. `others` are the handles of other stores.
     */
    method SpawnCowChild(ghost others: set<VfsLayer>) returns (child: VectorVfs)
      requires Valid() && forall h <- others :: h.Live() && h != activeLayer
      modifies `baseLayers, `activeLayer, activeLayer, activeLayer.counter, set h <- baseLayers :: h.counter
      ensures Valid() && child.Valid() && forall h <- others :: h.Live()
      ensures fresh(child) && fresh(activeLayer) && fresh(activeLayer.counter) && fresh(activeLayer.shards)
      ensures fresh(child.activeLayer) && fresh(child.activeLayer.shards) && forall h <- child.baseLayers :: fresh(h)
      ensures fresh(child.activeLayer.counter)
      ensures CountersOf(baseLayers) + CountersOf(child.baseLayers)
           <= old(CountersOf(baseLayers) + {activeLayer.counter})
      ensures |baseLayers| == |old(baseLayers)| + 1 && baseLayers[..|old(baseLayers)|] == old(baseLayers)
      ensures fresh(baseLayers[|old(baseLayers)|]) && forall h <- child.baseLayers :: h !in baseLayers
      ensures activeLayer !in child.baseLayers && child.activeLayer !in baseLayers && activeLayer != child.activeLayer
      ensures Value() == Store(Handle({}, activeLayer.shards), old(Layered()), workerShards, requests)
      ensures child.Value() == Store(Handle({}, child.activeLayer.shards), old(Layered()), child.activeLayer.shards, [])
      ensures activeLayer.shards != child.activeLayer.shards
      ensures activeLayer.shards.Value() == child.activeLayer.shards.Value() == NO_SHARDS
      ensures old(activeLayer).counter.count == old(activeLayer.counter.count) + 1
    {
      var mine, theirs := ForkHandles(activeLayer, baseLayers, others);
      child := ChildOver(theirs, mine, others);
      Refresh(mine, child, others);
    }

    /** Drops every handle. The layers that other stores hold keep their files. */
    method Discard(ghost others: set<VfsLayer>)
      requires Valid() && forall h <- others :: h.Live() && h !in baseLayers && h != activeLayer
      modifies activeLayer.counter, set h <- baseLayers :: h.counter
      ensures forall h <- others :: h.Live() && !h.counter.removed
    {
      activeLayer.Drop(others + (set h <- baseLayers));
      for k := 0 to |baseLayers|
        invariant forall h <- others :: h.Live()
        invariant forall i :: k <= i < |baseLayers| ==> baseLayers[i].Live()
      {
        ghost var rest := baseLayers[k + 1..];
        baseLayers[k].Drop(others + (set h <- rest));
      }
      forall h <- others ensures !h.counter.removed {
        LiveHasFile(h);
      }
    }
  }
}
