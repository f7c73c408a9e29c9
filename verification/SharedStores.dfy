/**
 Many stores over one memory (src/memory.rs, src/shards.rs).

 Forked stores share the contents of their frozen layers, and every store has a
 compaction worker that keeps the contents it took hold of when the store was
 made. A world is that memory with all its stores; its runs interleave writes,
 compaction requests, forks and the two halves of the workers' compactions in any
 order. `S` names shared contents: numbers here, heap objects in `VectorStore`.
 */
module SharedStores {
  import opened Wrappers
  import opened VectorRecall
  import opened LayerRefinement
  import opened LatestVersions

  /** A store's own handle on shared contents, with its own tombstones. */
  datatype Handle<S> = Handle(tombstones: set<string>, shards: S)

  /**
   Shared contents, the collections with a compaction request pending, and the
   compaction that is between its two halves, if any. A collection that was only
   asked for exists, empty, by its request alone.
   */
  datatype Shards = Shards(collections: map<string, VectorCollection>, compacting: set<string>, job: Option<Job>)

  /** Base layers are listed oldest first. */
  datatype Store<S> = Store(active: Handle<S>, base: seq<Handle<S>>, worker: S, requests: seq<string>)

  datatype World<!S> = World(memory: map<S, Shards>, stores: seq<Store<S>>)

  const NO_SHARDS := Shards(map[], {}, None)
  const TIER1_CAP: nat := 2048

  // ---------------------------------------------------------------------
  // Views
  // ---------------------------------------------------------------------

  /** The handle of layer `k`, newest first. */
  ghost function HandleAt<S>(s: Store<S>, k: nat): Handle<S>
    requires k <= |s.base|
  {
    if k == 0 then s.active else s.base[|s.base| - k]
  }

  ghost function ContentsAt<S>(memory: map<S, Shards>, shards: S): Shards {
    if shards in memory then memory[shards] else NO_SHARDS
  }

  ghost function LevelAt<S>(memory: map<S, Shards>, h: Handle<S>): Level {
    Level(Layer(h.tombstones, ContentsAt(memory, h.shards).collections), ContentsAt(memory, h.shards).job)
  }

  /** The layers a query on store `s` walks, with what compactors have taken out of them. */
  ghost function LevelsIn<S>(memory: map<S, Shards>, s: Store<S>): Levels {
    seq(|s.base| + 1, k requires 0 <= k <= |s.base| => LevelAt(memory, HandleAt(s, k)))
  }

  // ---------------------------------------------------------------------
  // Events
  // ---------------------------------------------------------------------

  /** `drained` is the order in which the hash map yields tier 1 to the worker; a swap ends what a drain began. */
  datatype Event<S> =
    | Write(i: nat, name: string, r: VectorRecord)
    | Delete(i: nat, id: string)
    | Ask(i: nat, name: string)
    | Fork(i: nat, parentShards: S, childShards: S)
    | Drain(i: nat, drained: seq<VectorRecord>)
    | Swap(i: nat)

  function CollectionIn(sh: Shards, name: string): VectorCollection {
    CollectionOf(Layer({}, sh.collections), name)
  }

  function Flagged(sh: Shards, name: string): Shards {
    sh.(compacting := sh.compacting + {name})
  }

  /** Puts `name` on the store's queue, unless its active contents are flagged already. */
  ghost function Requested<S>(w: World<S>, i: nat, name: string): World<S>
    requires i < |w.stores|
  {
    var s := w.stores[i];
    var sh := ContentsAt(w.memory, s.active.shards);
    World(w.memory[s.active.shards := Flagged(sh, name)],
          w.stores[i := s.(requests := if name in sh.compacting then s.requests else s.requests + [name])])
  }

  predicate Full(sh: Shards, name: string) {
    |CollectionIn(sh, name).tier1| >= TIER1_CAP
  }

  function Put(sh: Shards, name: string, r: VectorRecord): Shards {
    var col := CollectionIn(sh, name);
    sh.(collections := sh.collections[name := col.(tier1 := col.tier1[r.id := r])])
  }

  function Cleared<S>(h: Handle<S>, id: string): Handle<S> {
    h.(tombstones := h.tombstones - {id})
  }

  function Tombstoned<S>(h: Handle<S>, id: string): Handle<S> {
    h.(tombstones := h.tombstones + {id})
  }

  ghost function Written<S>(w: World<S>, i: nat, name: string, r: VectorRecord): World<S>
    requires i < |w.stores|
  {
    var s := w.stores[i];
    var sh := ContentsAt(w.memory, s.active.shards);
    World(w.memory[s.active.shards := Put(sh, name, r)],
          w.stores[i := s.(active := Cleared(s.active, r.id))])
  }

  /** A full buffer asks for compaction first. */
  ghost function DoWrite<S>(w: World<S>, i: nat, name: string, r: VectorRecord): World<S>
    requires i < |w.stores|
  {
    var full := Full(ContentsAt(w.memory, w.stores[i].active.shards), name);
    Written(if full then Requested(w, i, name) else w, i, name, r)
  }

  function AfterWrite(sh: Shards, name: string, r: VectorRecord): Shards {
    Put(if Full(sh, name) then Flagged(sh, name) else sh, name, r)
  }

  /** What a write adds to the queue. */
  function AsksFor(sh: Shards, name: string): seq<string> {
    if Full(sh, name) && name !in sh.compacting then [name] else []
  }

  /** The two halves of a write, put together. */
  lemma WriteParts<S>(w: World<S>, i: nat, name: string, r: VectorRecord)
    requires i < |w.stores| && w.stores[i].active.shards in w.memory
    ensures var s, sh := w.stores[i], w.memory[w.stores[i].active.shards];
            DoWrite(w, i, name, r) ==
            World(w.memory[s.active.shards := AfterWrite(sh, name, r)],
                  w.stores[i := Store(Cleared(s.active, r.id), s.base, s.worker, s.requests + AsksFor(sh, name))])
  {
    var s := w.stores[i];
    assert s.requests + [] == s.requests;
    var w' := Requested(w, i, name);
    assert w'.memory[s.active.shards := Put(w'.memory[s.active.shards], name, r)]
        == w.memory[s.active.shards := Put(w'.memory[s.active.shards], name, r)];
  }

  ghost function DoDelete<S>(w: World<S>, i: nat, id: string): World<S>
    requires i < |w.stores|
  {
    var s := w.stores[i];
    w.(stores := w.stores[i := s.(active := Tombstoned(s.active, id))])
  }

  /** The two new active layers have contents nobody has seen yet. */
  ghost predicate CanFork<S>(w: World<S>, p: S, c: S) {
    p != c && p !in w.memory && c !in w.memory
  }

  ghost function DoFork<S>(w: World<S>, i: nat, p: S, c: S): World<S>
    requires i < |w.stores|
  {
    var s := w.stores[i];
    var frozen := s.base + [s.active];
    World(w.memory[p := NO_SHARDS][c := NO_SHARDS],
          w.stores[i := s.(active := Handle({}, p), base := frozen)] + [Store(Handle({}, c), frozen, c, [])])
  }

  predicate Exists(sh: Shards, name: string) {
    name in sh.collections || name in sh.compacting
  }

  /** The worker of store `i` is idle and about to drain a collection, in the order given. */
  ghost predicate Drains<S>(w: World<S>, i: nat, drained: seq<VectorRecord>) {
    && i < |w.stores| && w.stores[i].requests != []
    && var sh := ContentsAt(w.memory, w.stores[i].worker);
       && sh.job.None? && Exists(sh, w.stores[i].requests[0])
       && DrainOrder(CollectionIn(sh, w.stores[i].requests[0]).tier1, drained)
  }

  /** Tier 1 is in the compactor's hands; if it was empty the compaction is over. */
  function Drained(sh: Shards, name: string, drained: seq<VectorRecord>): Shards {
    var collections := sh.collections[name := CollectionIn(sh, name).(tier1 := map[])];
    if drained == [] then Shards(collections, sh.compacting - {name}, None)
    else Shards(collections, sh.compacting, Some(Job(name, drained)))
  }

  /** What was drained is at the end of tier 2, and the collection may be asked for again. */
  function Swapped(sh: Shards): Shards {
    if sh.job.None? then sh
    else
      var name, drained := sh.job.value.name, sh.job.value.drained;
      var col := CollectionIn(sh, name);
      Shards(sh.collections[name := col.(tier2 := Appended(col.tier2, drained))], sh.compacting - {name}, None)
  }

  /** An idle worker takes a request from its queue; if its contents have that collection, it is drained there. */
  ghost function DoDrain<S>(w: World<S>, i: nat, drained: seq<VectorRecord>): World<S>
    requires i < |w.stores|
  {
    var s := w.stores[i];
    var sh := ContentsAt(w.memory, s.worker);
    if s.requests == [] || sh.job.Some? then w
    else
      var popped := w.stores[i := s.(requests := s.requests[1..])];
      if !Exists(sh, s.requests[0]) then w.(stores := popped)
      else if !Drains(w, i, drained) then w
      else World(w.memory[s.worker := Drained(sh, s.requests[0], drained)], popped)
  }

  ghost function DoSwap<S>(w: World<S>, i: nat): World<S>
    requires i < |w.stores|
  {
    var sh := ContentsAt(w.memory, w.stores[i].worker);
    if sh.job.None? then w else w.(memory := w.memory[w.stores[i].worker := Swapped(sh)])
  }

  /** An event of a store that does not exist, or that cannot happen, changes nothing. */
  ghost function Step<S>(w: World<S>, e: Event<S>): World<S> {
    if e.i >= |w.stores| then w
    else match e
      case Write(i, name, r) => DoWrite(w, i, name, r)
      case Delete(i, id) => DoDelete(w, i, id)
      case Ask(i, name) => Requested(w, i, name)
      case Fork(i, p, c) => if CanFork(w, p, c) then DoFork(w, i, p, c) else w
      case Drain(i, drained) => DoDrain(w, i, drained)
      case Swap(i) => DoSwap(w, i)
  }

  /** `sh` is what the worker leaves of its contents `was` when it looks at this queue. */
  ghost predicate Serves(requests: seq<string>, was: Shards, drained: seq<VectorRecord>, sh: Shards) {
    if requests == [] || was.job.Some? || !Exists(was, requests[0]) then sh == was
    else DrainOrder(CollectionIn(was, requests[0]).tier1, drained) && sh == Drained(was, requests[0], drained)
  }

  /** What it leaves of the queue. */
  function Rest(requests: seq<string>, was: Shards): seq<string> {
    if requests == [] || was.job.Some? then requests else requests[1..]
  }

  lemma DrainParts<S>(w: World<S>, i: nat, drained: seq<VectorRecord>, sh: Shards)
    requires i < |w.stores| && w.stores[i].worker in w.memory
    requires Serves(w.stores[i].requests, w.memory[w.stores[i].worker], drained, sh)
    ensures var s := w.stores[i];
            DoDrain(w, i, drained)
            == World(w.memory[s.worker := sh], w.stores[i := s.(requests := Rest(s.requests, w.memory[s.worker]))])
  {
    assert w.memory[w.stores[i].worker := w.memory[w.stores[i].worker]] == w.memory;
    assert w.stores[i := w.stores[i]] == w.stores;
  }

  lemma SwapParts<S>(w: World<S>, i: nat)
    requires i < |w.stores| && w.stores[i].worker in w.memory
    ensures DoSwap(w, i) == w.(memory := w.memory[w.stores[i].worker := Swapped(w.memory[w.stores[i].worker])])
  {
    assert w.memory[w.stores[i].worker := w.memory[w.stores[i].worker]] == w.memory;
  }

  lemma StepIsDelete<S>(w: World<S>, i: nat, id: string)
    requires i < |w.stores|
    ensures Step(w, Delete(i, id)) == DoDelete(w, i, id)
  {
  }

  lemma StepIsAsk<S>(w: World<S>, i: nat, name: string)
    requires i < |w.stores|
    ensures Step(w, Ask(i, name)) == Requested(w, i, name)
  {
  }

  lemma StepIsWrite<S>(w: World<S>, i: nat, name: string, r: VectorRecord)
    requires i < |w.stores|
    ensures Step(w, Write(i, name, r)) == DoWrite(w, i, name, r)
  {
  }

  lemma StepIsDrain<S>(w: World<S>, i: nat, drained: seq<VectorRecord>)
    requires i < |w.stores|
    ensures Step(w, Drain(i, drained)) == DoDrain(w, i, drained)
  {
  }

  lemma StepIsSwap<S>(w: World<S>, i: nat)
    requires i < |w.stores|
    ensures Step(w, Swap(i)) == DoSwap(w, i)
  {
  }

  lemma StepIsFork<S>(w: World<S>, i: nat, p: S, c: S)
    requires i < |w.stores| && CanFork(w, p, c)
    ensures Step(w, Fork(i, p, c)) == DoFork(w, i, p, c)
  {
  }

  ghost function Run<S>(w: World<S>, es: seq<Event<S>>): World<S>
    decreases |es|
  {
    if es == [] then w else Run(Step(w, es[0]), es[1..])
  }

  lemma {:induction false} RunSnoc<S>(w: World<S>, es: seq<Event<S>>, e: Event<S>)
    ensures Run(w, es + [e]) == Step(Run(w, es), e)
    decreases |es|
  {
    if es == [] {
      assert [] + [e] == [e] && [e][1..] == [];
    } else {
      assert (es + [e])[0] == es[0] && (es + [e])[1..] == es[1..] + [e];
      RunSnoc(Step(w, es[0]), es[1..], e);
    }
  }

  ghost function New<S>(shards: S): World<S> {
    World(map[shards := NO_SHARDS], [Store(Handle({}, shards), [], shards, [])])
  }

  // ---------------------------------------------------------------------
  // What every run keeps
  // ---------------------------------------------------------------------

  ghost predicate Keyed(sh: Shards) {
    forall name <- sh.collections :: KeyedById(sh.collections[name].tier1)
  }

  /** One store's layers have different contents, all in memory, and its worker holds one of them. */
  ghost predicate StoreOk<S>(memory: map<S, Shards>, s: Store<S>) {
    && (forall k :: 0 <= k <= |s.base| ==> HandleAt(s, k).shards in memory)
    && (forall j, k :: 0 <= j < k <= |s.base| ==> HandleAt(s, j).shards != HandleAt(s, k).shards)
    && (exists k :: 0 <= k <= |s.base| && HandleAt(s, k).shards == s.worker)
  }

  /** The contents of an active layer are in no other store. */
  ghost predicate Private<S>(s: Store<S>, t: Store<S>) {
    forall k :: 0 <= k <= |t.base| ==> HandleAt(t, k).shards != s.active.shards
  }

  /** No two workers have the same contents, so a compaction has one compactor. */
  ghost predicate WorkersApart<S>(stores: seq<Store<S>>) {
    forall i, j :: 0 <= i < j < |stores| ==> stores[i].worker != stores[j].worker
  }

  ghost predicate Consistent<S>(w: World<S>) {
    && WorkersApart(w.stores)
    && (forall sh <- w.memory :: Keyed(w.memory[sh]))
    && (forall i :: 0 <= i < |w.stores| ==> StoreOk(w.memory, w.stores[i]))
    && (forall i, j :: 0 <= i < |w.stores| && 0 <= j < |w.stores| && i != j ==> Private(w.stores[i], w.stores[j]))
  }

  // ---------------------------------------------------------------------
  // What one event does to every view
  // ---------------------------------------------------------------------

  ghost function LevelsOf<S>(w: World<S>, i: nat): Levels
    requires i < |w.stores|
  {
    LevelsIn(w.memory, w.stores[i])
  }

  /** What a query on store `i` sees. */
  ghost function ViewOf<S>(w: World<S>, i: nat): Stack
    requires i < |w.stores|
  {
    LayersOf(LevelsOf(w, i))
  }

  lemma LayersApart<S>(w: World<S>, i: nat, j: nat, k: nat)
    requires Consistent(w) && i < |w.stores| && j < |w.stores| && k <= |w.stores[j].base| && (i != j || k > 0)
    ensures HandleAt(w.stores[j], k).shards != w.stores[i].active.shards
  {
    if i == j {
      assert StoreOk(w.memory, w.stores[i]);
      assert HandleAt(w.stores[i], 0).shards != HandleAt(w.stores[i], k).shards;
    } else {
      assert Private(w.stores[i], w.stores[j]);
    }
  }

  lemma RequestedViews<S>(w: World<S>, i: nat, name: string, j: nat)
    requires i < |w.stores| && j < |w.stores|
    ensures LevelsOf(Requested(w, i, name), j) == LevelsOf(w, j)
  {
    var v, v' := LevelsOf(w, j), LevelsOf(Requested(w, i, name), j);
    assert forall k :: 0 <= k < |v| ==> v'[k] == v[k];
  }

  lemma RequestedOk<S>(w: World<S>, i: nat, name: string)
    requires Consistent(w) && i < |w.stores|
    ensures Consistent(Requested(w, i, name))
  {
    var w' := Requested(w, i, name);
    assert StoreOk(w.memory, w.stores[i]);
    assert HandleAt(w.stores[i], 0).shards in w.memory;
    forall j | 0 <= j < |w'.stores| ensures StoreOk(w'.memory, w'.stores[j]) {
      StoreStaysOk(w.memory, w'.memory, w.stores[j], w'.stores[j]);
    }
    forall j, k | 0 <= j < |w'.stores| && 0 <= k < |w'.stores| && j != k ensures Private(w'.stores[j], w'.stores[k]) {
      SamePrivacy(w.stores[j], w.stores[k], w'.stores[j], w'.stores[k]);
    }
  }

  /** Only tombstones and queues differ, and memory still has everything. */
  lemma StoreStaysOk<S>(memory: map<S, Shards>, memory': map<S, Shards>, s: Store<S>, s': Store<S>)
    requires StoreOk(memory, s) && memory.Keys <= memory'.Keys
    requires s'.base == s.base && s'.active.shards == s.active.shards && s'.worker == s.worker
    ensures StoreOk(memory', s')
  {
    assert forall k :: 0 <= k <= |s.base| ==> HandleAt(s', k).shards == HandleAt(s, k).shards;
    var k :| 0 <= k <= |s.base| && HandleAt(s, k).shards == s.worker;
    assert HandleAt(s', k).shards == s'.worker;
  }

  lemma WrittenViews<S>(w: World<S>, i: nat, name: string, r: VectorRecord, j: nat)
    requires Consistent(w) && i < |w.stores| && j < |w.stores|
    ensures LevelsOf(Written(w, i, name, r), j)
         == if i == j then RememberTop(LevelsOf(w, j), name, r) else LevelsOf(w, j)
  {
    var v, v' := LevelsOf(w, j), LevelsOf(Written(w, i, name, r), j);
    forall k | 0 <= k < |v| && (i != j || k > 0) ensures v'[k] == v[k] {
      LayersApart(w, i, j, k);
    }
  }

  lemma PutKeyed(sh: Shards, name: string, r: VectorRecord)
    requires Keyed(sh)
    ensures Keyed(Put(sh, name, r))
  {
  }

  lemma WrittenOk<S>(w: World<S>, i: nat, name: string, r: VectorRecord)
    requires Consistent(w) && i < |w.stores|
    ensures Consistent(Written(w, i, name, r))
  {
    var w' := Written(w, i, name, r);
    assert StoreOk(w.memory, w.stores[i]);
    assert HandleAt(w.stores[i], 0).shards in w.memory;
    PutKeyed(w.memory[w.stores[i].active.shards], name, r);
    forall j | 0 <= j < |w'.stores| ensures StoreOk(w'.memory, w'.stores[j]) {
      StoreStaysOk(w.memory, w'.memory, w.stores[j], w'.stores[j]);
    }
    forall j, k | 0 <= j < |w'.stores| && 0 <= k < |w'.stores| && j != k ensures Private(w'.stores[j], w'.stores[k]) {
      SamePrivacy(w.stores[j], w.stores[k], w'.stores[j], w'.stores[k]);
    }
  }

  lemma SamePrivacy<S>(s: Store<S>, t: Store<S>, s': Store<S>, t': Store<S>)
    requires Private(s, t) && s'.active.shards == s.active.shards
    requires t'.active.shards == t.active.shards && t'.base == t.base
    ensures Private(s', t')
  {
    assert forall k :: 0 <= k <= |t.base| ==> HandleAt(t', k).shards == HandleAt(t, k).shards;
  }

  lemma DeletedViews<S>(w: World<S>, i: nat, id: string, j: nat)
    requires i < |w.stores| && j < |w.stores|
    ensures LevelsOf(DoDelete(w, i, id), j) == if i == j then ForgetTop(LevelsOf(w, j), id) else LevelsOf(w, j)
  {
    var v, v' := LevelsOf(w, j), LevelsOf(DoDelete(w, i, id), j);
    assert |v'| == |v| && forall k :: 0 < k < |v| ==> v'[k] == v[k];
    assert i != j ==> v'[0] == v[0];
  }

  lemma DeletedOk<S>(w: World<S>, i: nat, id: string)
    requires Consistent(w) && i < |w.stores|
    ensures Consistent(DoDelete(w, i, id))
  {
    var w' := DoDelete(w, i, id);
    forall j | 0 <= j < |w'.stores| ensures StoreOk(w'.memory, w'.stores[j]) {
      StoreStaysOk(w.memory, w'.memory, w.stores[j], w'.stores[j]);
    }
    forall j, k | 0 <= j < |w'.stores| && 0 <= k < |w'.stores| && j != k ensures Private(w'.stores[j], w'.stores[k]) {
      SamePrivacy(w.stores[j], w.stores[k], w'.stores[j], w'.stores[k]);
    }
  }

  lemma OldLayersStay<S>(w: World<S>, p: S, c: S, j: nat, k: nat)
    requires Consistent(w) && CanFork(w, p, c) && j < |w.stores| && k <= |w.stores[j].base|
    ensures HandleAt(w.stores[j], k).shards in w.memory && HandleAt(w.stores[j], k).shards !in {p, c}
    ensures LevelAt(w.memory[p := NO_SHARDS][c := NO_SHARDS], HandleAt(w.stores[j], k))
         == LevelAt(w.memory, HandleAt(w.stores[j], k))
  {
    assert StoreOk(w.memory, w.stores[j]);
  }

  /** The layers below a new active one are the old layers, one further down. */
  lemma PushedHandle<S>(s: Store<S>, t: Store<S>, k: nat)
    requires t.base == s.base + [s.active] && k <= |s.base|
    ensures HandleAt(t, k + 1) == HandleAt(s, k)
  {
  }

  lemma ForkedView<S>(w: World<S>, p: S, c: S, i: nat, t: Store<S>)
    requires Consistent(w) && CanFork(w, p, c) && i < |w.stores| && t.base == w.stores[i].base + [w.stores[i].active]
    requires t.active.tombstones == {} && t.active.shards in {p, c}
    ensures LevelsIn(w.memory[p := NO_SHARDS][c := NO_SHARDS], t) == Pushed(LevelsOf(w, i))
  {
    var memory := w.memory[p := NO_SHARDS][c := NO_SHARDS];
    var v, v' := LevelsOf(w, i), LevelsIn(memory, t);
    forall k | 0 <= k < |v| ensures v'[k + 1] == v[k] {
      PushedHandle(w.stores[i], t, k);
      OldLayersStay(w, p, c, i, k);
    }
  }

  lemma ForkedViews<S>(w: World<S>, i: nat, p: S, c: S, j: nat)
    requires Consistent(w) && CanFork(w, p, c) && i < |w.stores| && j < |DoFork(w, i, p, c).stores|
    ensures LevelsOf(DoFork(w, i, p, c), j)
         == if j == i || j == |w.stores| then Pushed(LevelsOf(w, i)) else LevelsOf(w, j)
  {
    var w' := DoFork(w, i, p, c);
    if j == i || j == |w.stores| {
      ForkedView(w, p, c, i, w'.stores[j]);
    } else {
      var v, v' := LevelsOf(w, j), LevelsOf(w', j);
      forall k | 0 <= k < |v| ensures v'[k] == v[k] {
        OldLayersStay(w, p, c, j, k);
      }
    }
  }

  lemma ForkedStoreOk<S>(w: World<S>, p: S, c: S, i: nat, t: Store<S>)
    requires Consistent(w) && CanFork(w, p, c) && i < |w.stores| && t.base == w.stores[i].base + [w.stores[i].active]
    requires t.active.shards in {p, c} && t.worker in {t.active.shards, w.stores[i].worker}
    ensures StoreOk(w.memory[p := NO_SHARDS][c := NO_SHARDS], t)
  {
    var s := w.stores[i];
    assert StoreOk(w.memory, s);
    forall k | 0 <= k <= |s.base|
      ensures HandleAt(t, k + 1) == HandleAt(s, k) && HandleAt(t, k + 1).shards in w.memory
      ensures HandleAt(t, k + 1).shards != t.active.shards
    {
      PushedHandle(s, t, k);
      OldLayersStay(w, p, c, i, k);
    }
    forall k | 0 <= k <= |t.base| ensures HandleAt(t, k).shards in w.memory[p := NO_SHARDS][c := NO_SHARDS] {
      assert k > 0 ==> HandleAt(t, k) == HandleAt(s, k - 1);
    }
    forall j, k | 0 <= j < k <= |t.base| ensures HandleAt(t, j).shards != HandleAt(t, k).shards {
      assert HandleAt(t, k) == HandleAt(s, k - 1);
      assert j > 0 ==> HandleAt(t, j) == HandleAt(s, j - 1);
    }
    if t.worker == t.active.shards {
      assert HandleAt(t, 0).shards == t.worker;
    } else {
      var k :| 0 <= k <= |s.base| && HandleAt(s, k).shards == s.worker;
      assert HandleAt(t, k + 1).shards == t.worker;
    }
  }

  lemma ForkedPrivacy<S>(w: World<S>, i: nat, p: S, c: S, j: nat, k: nat)
    requires Consistent(w) && CanFork(w, p, c) && i < |w.stores|
    requires j < |w.stores| + 1 && k < |w.stores| + 1 && j != k
    ensures Private(DoFork(w, i, p, c).stores[j], DoFork(w, i, p, c).stores[k])
  {
    var w' := DoFork(w, i, p, c);
    var s, t := w'.stores[j], w'.stores[k];
    var from := if k == |w.stores| then i else k;
    forall l | 0 <= l <= |t.base| ensures HandleAt(t, l).shards != s.active.shards {
      if j != i && j != |w.stores| {
        OldLayersStay(w, p, c, j, 0);
      }
      if from == i && l > 0 {
        PushedHandle(w.stores[i], t, l - 1);
        OldLayersStay(w, p, c, i, l - 1);
        if j != i && j != |w.stores| {
          LayersApart(w, j, i, l - 1);
        }
      } else if from != i {
        OldLayersStay(w, p, c, k, l);
        if j != i && j != |w.stores| {
          LayersApart(w, j, k, l);
        }
      }
    }
  }

  lemma ForkedOk<S>(w: World<S>, i: nat, p: S, c: S)
    requires Consistent(w) && CanFork(w, p, c) && i < |w.stores|
    ensures Consistent(DoFork(w, i, p, c))
  {
    var w' := DoFork(w, i, p, c);
    forall j | 0 <= j < |w'.stores| ensures StoreOk(w'.memory, w'.stores[j]) {
      if j == i || j == |w.stores| {
        ForkedStoreOk(w, p, c, i, w'.stores[j]);
      } else {
        StoreStaysOk(w.memory, w'.memory, w.stores[j], w'.stores[j]);
      }
    }
    forall j, k | 0 <= j < |w'.stores| && 0 <= k < |w'.stores| && j != k ensures Private(w'.stores[j], w'.stores[k]) {
      ForkedPrivacy(w, i, p, c, j, k);
    }
  }

  ghost predicate HasAt<S>(s: Store<S>, k: nat, shards: S) {
    k <= |s.base| && HandleAt(s, k).shards == shards
  }

  /** A drain reaches a store exactly at the layer that has the worker's contents. */
  lemma DrainedViews<S>(w: World<S>, i: nat, drained: seq<VectorRecord>, j: nat, k: nat)
    requires Consistent(w) && Drains(w, i, drained) && j < |w.stores| && HasAt(w.stores[j], k, w.stores[i].worker)
    ensures var ls := LevelsOf(w, j);
            LevelsOf(DoDrain(w, i, drained), j) == ls[k := DrainLevel(ls[k], w.stores[i].requests[0], drained)]
    ensures LevelsOf(w, j)[k].job.None?
    ensures CollectionOf(LevelsOf(w, j)[k].layer, w.stores[i].requests[0])
         == CollectionIn(ContentsAt(w.memory, w.stores[i].worker), w.stores[i].requests[0])
  {
    var v, v' := LevelsOf(w, j), LevelsOf(DoDrain(w, i, drained), j);
    assert StoreOk(w.memory, w.stores[j]);
    forall l | 0 <= l < |v| && l != k ensures v'[l] == v[l] {
      assert HandleAt(w.stores[j], l).shards != HandleAt(w.stores[j], k).shards;
    }
  }

  lemma SwappedViews<S>(w: World<S>, i: nat, j: nat, k: nat)
    requires Consistent(w) && i < |w.stores| && ContentsAt(w.memory, w.stores[i].worker).job.Some?
    requires j < |w.stores| && HasAt(w.stores[j], k, w.stores[i].worker)
    ensures LevelsOf(w, j)[k].job.Some?
    ensures LevelsOf(DoSwap(w, i), j) == LevelsOf(w, j)[k := SwapLevel(LevelsOf(w, j)[k])]
  {
    var v, v' := LevelsOf(w, j), LevelsOf(DoSwap(w, i), j);
    assert StoreOk(w.memory, w.stores[j]);
    forall l | 0 <= l < |v| && l != k ensures v'[l] == v[l] {
      assert HandleAt(w.stores[j], l).shards != HandleAt(w.stores[j], k).shards;
    }
  }

  /** Event `e` is half a compaction, and it happens. */
  ghost predicate Compacts<S>(w: World<S>, e: Event<S>) {
    match e
    case Drain(i, drained) => Drains(w, i, drained)
    case Swap(i) => i < |w.stores| && ContentsAt(w.memory, w.stores[i].worker).job.Some?
    case _ => false
  }

  lemma UncompactedViews<S>(w: World<S>, e: Event<S>, j: nat)
    requires (e.Drain? || e.Swap?) && e.i < |w.stores| && j < |w.stores|
    requires Compacts(w, e) ==> forall k: nat :: !HasAt(w.stores[j], k, w.stores[e.i].worker)
    ensures LevelsOf(Step(w, e), j) == LevelsOf(w, j)
  {
    var v, v' := LevelsOf(w, j), LevelsOf(Step(w, e), j);
    forall k: nat | k < |v| ensures v'[k] == v[k] {
      assert Compacts(w, e) ==> !HasAt(w.stores[j], k, w.stores[e.i].worker);
    }
  }

  /** Contents of a store's own layer change to other keyed contents; queues may change. */
  lemma ReworkedOk<S>(w: World<S>, i: nat, sh: Shards, requests: seq<string>)
    requires Consistent(w) && i < |w.stores| && Keyed(sh)
    ensures Consistent(World(w.memory[w.stores[i].worker := sh], w.stores[i := w.stores[i].(requests := requests)]))
  {
    var w' := World(w.memory[w.stores[i].worker := sh], w.stores[i := w.stores[i].(requests := requests)]);
    assert StoreOk(w.memory, w.stores[i]);
    forall j | 0 <= j < |w'.stores| ensures StoreOk(w'.memory, w'.stores[j]) {
      StoreStaysOk(w.memory, w'.memory, w.stores[j], w'.stores[j]);
    }
    forall j, k | 0 <= j < |w'.stores| && 0 <= k < |w'.stores| && j != k ensures Private(w'.stores[j], w'.stores[k]) {
      SamePrivacy(w.stores[j], w.stores[k], w'.stores[j], w'.stores[k]);
    }
  }

  lemma WorkerKeyed<S>(w: World<S>, i: nat)
    requires Consistent(w) && i < |w.stores|
    ensures w.stores[i].worker in w.memory && Keyed(w.memory[w.stores[i].worker])
  {
    assert StoreOk(w.memory, w.stores[i]);
  }

  lemma DrainedOk<S>(w: World<S>, i: nat, drained: seq<VectorRecord>)
    requires Consistent(w) && i < |w.stores|
    ensures Consistent(DoDrain(w, i, drained))
  {
    var s := w.stores[i];
    WorkerKeyed(w, i);
    var sh := w.memory[s.worker];
    if s.requests != [] && sh.job.None? {
      if Drains(w, i, drained) {
        ReworkedOk(w, i, Drained(sh, s.requests[0], drained), s.requests[1..]);
      } else if !Exists(sh, s.requests[0]) {
        ReworkedOk(w, i, sh, s.requests[1..]);
        assert w.memory[s.worker := sh] == w.memory;
      }
    }
  }

  lemma SwappedOk<S>(w: World<S>, i: nat)
    requires Consistent(w) && i < |w.stores|
    ensures Consistent(DoSwap(w, i))
  {
    WorkerKeyed(w, i);
    SwapParts(w, i);
    ReworkedOk(w, i, Swapped(w.memory[w.stores[i].worker]), w.stores[i].requests);
    assert w.stores[i := w.stores[i].(requests := w.stores[i].requests)] == w.stores;
  }

  lemma StepOk<S>(w: World<S>, e: Event<S>)
    requires Consistent(w)
    ensures Consistent(Step(w, e)) && |w.stores| <= |Step(w, e).stores|
  {
    if e.i < |w.stores| {
      match e
      case Write(i, name, r) =>
        RequestedOk(w, i, name);
        var full := Full(ContentsAt(w.memory, w.stores[i].active.shards), name);
        WrittenOk(if full then Requested(w, i, name) else w, i, name, r);
      case Delete(i, id) => DeletedOk(w, i, id);
      case Ask(i, name) => RequestedOk(w, i, name);
      case Fork(i, p, c) => if CanFork(w, p, c) { ForkedOk(w, i, p, c); }
      case Drain(i, drained) => DrainedOk(w, i, drained);
      case Swap(i) => SwappedOk(w, i);
    }
  }

  /** A fresh store of its own memory. */
  lemma NewOk<S>(shards: S)
    ensures Consistent(New(shards))
  {
    assert HandleAt(New(shards).stores[0], 0).shards == shards;
  }
}
