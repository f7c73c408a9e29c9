/**
 Runs of many stores over one memory: when every store shows exactly its own
 writes, and what becomes of a store's compaction worker once it has forked.
 The two halves of a compaction are separate events, and anything may happen
 between them.
 */
module StoreRuns {
  import opened Wrappers
  import opened VectorRecall
  import opened RecallProperties
  import opened LayerRefinement
  import opened LatestVersions
  import opened IndexedRecall
  import opened SharedStores

  // ---------------------------------------------------------------------
  // Stores that nothing touches
  // ---------------------------------------------------------------------

  /** `e` is an event of store `j`, or half a compaction of contents that store `j` shares. */
  ghost predicate Touches<S>(w: World<S>, e: Event<S>, j: nat)
    requires j < |w.stores|
  {
    if e.Drain? || e.Swap? then Compacts(w, e) && exists k: nat :: HasAt(w.stores[j], k, w.stores[e.i].worker)
    else e.i == j
  }

  ghost predicate EverTouches<S>(w: World<S>, es: seq<Event<S>>, j: nat)
    requires j < |w.stores|
    decreases |es|
  {
    es != [] && (Touches(w, es[0], j) || (j < |Step(w, es[0]).stores| && EverTouches(Step(w, es[0]), es[1..], j)))
  }

  lemma StepUntouched<S>(w: World<S>, e: Event<S>, j: nat)
    requires Consistent(w) && j < |w.stores| && !Touches(w, e, j)
    ensures j < |Step(w, e).stores| && LevelsOf(Step(w, e), j) == LevelsOf(w, j)
  {
    StepOk(w, e);
    if e.i < |w.stores| {
      match e
      case Write(i, name, r) =>
        RequestedViews(w, i, name, j);
        RequestedOk(w, i, name);
        var full := Full(ContentsAt(w.memory, w.stores[i].active.shards), name);
        WrittenViews(if full then Requested(w, i, name) else w, i, name, r, j);
      case Delete(i, id) => DeletedViews(w, i, id, j);
      case Ask(i, name) => RequestedViews(w, i, name, j);
      case Fork(i, p, c) => if CanFork(w, p, c) { ForkedViews(w, i, p, c, j); }
      case Drain(_, _) => UncompactedViews(w, e, j);
      case Swap(_) => UncompactedViews(w, e, j);
    }
  }

  /**
   Copy-on-write isolation: a store's view, and so its answer to every query,
   changes only by its own events or half a compaction of contents it shares.
   */
  lemma {:induction false} UntouchedStoresKeepTheirView<S>(w: World<S>, es: seq<Event<S>>, j: nat)
    requires Consistent(w) && j < |w.stores| && !EverTouches(w, es, j)
    ensures j < |Run(w, es).stores| && LevelsOf(Run(w, es), j) == LevelsOf(w, j)
    ensures ViewOf(Run(w, es), j) == ViewOf(w, j)
    decreases |es|
  {
    if es != [] {
      StepUntouched(w, es[0], j);
      StepOk(w, es[0]);
      UntouchedStoresKeepTheirView(Step(w, es[0]), es[1..], j);
    }
  }

  // ---------------------------------------------------------------------
  // Plain maps
  // ---------------------------------------------------------------------

  /** What the same event does to the plain maps of collection `name`, one per store. */
  ghost function StepMaps<S>(w: World<S>, name: string, ms: seq<map<string, VectorRecord>>, e: Event<S>)
    : seq<map<string, VectorRecord>>
  {
    if e.i >= |ms| then ms
    else match e
      case Write(i, other, r) => if other == name then ms[i := ms[i][r.id := r]] else ms
      case Delete(i, id) => ms[i := ms[i] - {id}]
      case Fork(i, p, c) => if CanFork(w, p, c) then ms + [ms[i]] else ms
      case _ => ms
  }

  ghost function RunMaps<S>(w: World<S>, name: string, ms: seq<map<string, VectorRecord>>, es: seq<Event<S>>)
    : seq<map<string, VectorRecord>>
    decreases |es|
  {
    if es == [] then ms else RunMaps(Step(w, es[0]), name, StepMaps(w, name, ms, es[0]), es[1..])
  }

  /** The newest versions that every store holds, wherever they are, are its own plain map. */
  ghost predicate HoldMaps<S>(w: World<S>, name: string, ms: seq<map<string, VectorRecord>>) {
    |w.stores| == |ms| && forall i :: 0 <= i < |ms| ==> LatestShows(LevelsOf(w, i), name, ms[i]) && KeyedById(ms[i])
  }

  /** The event writes an id to another collection, and a deleted version of it is left in this one. */
  ghost predicate RevivesNow<S>(w: World<S>, name: string, e: Event<S>) {
    e.Write? && e.name != name && e.i < |w.stores| && Revives(LevelsOf(w, e.i), name, e.r.id)
  }

  lemma SameLatest(ls: seq<Level>, ls': seq<Level>, name: string, m: map<string, VectorRecord>)
    requires forall id :: Latest(ls', name, id) == Latest(ls, name, id)
    ensures LatestShows(ls', name, m) <==> LatestShows(ls, name, m)
  {
    assert LatestShows(ls, name, m) <==> forall id :: Latest(ls, name, id) == Lookup(m, id);
    assert LatestShows(ls', name, m) <==> forall id :: Latest(ls', name, id) == Lookup(m, id);
  }

  lemma WriteHolds<S>(w: World<S>, name: string, ms: seq<map<string, VectorRecord>>, i: nat, r: VectorRecord)
    requires Consistent(w) && HoldMaps(w, name, ms) && i < |w.stores|
    ensures HoldMaps(DoWrite(w, i, name, r), name, ms[i := ms[i][r.id := r]])
  {
    var full := Full(ContentsAt(w.memory, w.stores[i].active.shards), name);
    RequestedOk(w, i, name);
    forall j | 0 <= j < |ms|
      ensures LatestShows(LevelsOf(DoWrite(w, i, name, r), j), name, ms[i := ms[i][r.id := r]][j])
    {
      RequestedViews(w, i, name, j);
      WrittenViews(if full then Requested(w, i, name) else w, i, name, r, j);
      assert LatestShows(LevelsOf(w, j), name, ms[j]);
      RememberKeepsLatest(LevelsOf(w, i), name, r, ms[i]);
    }
  }

  lemma WriteElsewhereHoldsIff<S>(w: World<S>, name: string, ms: seq<map<string, VectorRecord>>, i: nat, other: string,
                                  r: VectorRecord)
    requires Consistent(w) && HoldMaps(w, name, ms) && i < |w.stores| && other != name
    ensures HoldMaps(DoWrite(w, i, other, r), name, ms) <==> !Revives(LevelsOf(w, i), name, r.id)
  {
    var full := Full(ContentsAt(w.memory, w.stores[i].active.shards), other);
    var w' := DoWrite(w, i, other, r);
    RequestedOk(w, i, other);
    forall j: nat | j < |ms|
      ensures LevelsOf(w', j) == if i == j then RememberTop(LevelsOf(w, j), other, r) else LevelsOf(w, j)
    {
      RequestedViews(w, i, other, j);
      WrittenViews(if full then Requested(w, i, other) else w, i, other, r, j);
    }
    assert LatestShows(LevelsOf(w, i), name, ms[i]);
    ElsewhereShowsIff(LevelsOf(w, i), name, other, r, ms[i]);
    assert forall j: nat | j < |ms| && j != i :: LatestShows(LevelsOf(w', j), name, ms[j]);
  }

  lemma ElsewhereShowsIff(ls: Levels, name: string, other: string, r: VectorRecord, m: map<string, VectorRecord>)
    requires name != other && LatestShows(ls, name, m)
    ensures LatestShows(RememberTop(ls, other, r), name, m) <==> !Revives(ls, name, r.id)
  {
    ElsewhereKeepsLatestIff(ls, name, other, r);
    assert forall id :: Latest(ls, name, id) == Lookup(m, id);
  }

  lemma DeleteHolds<S>(w: World<S>, name: string, ms: seq<map<string, VectorRecord>>, i: nat, id: string)
    requires HoldMaps(w, name, ms) && i < |w.stores|
    ensures HoldMaps(DoDelete(w, i, id), name, ms[i := ms[i] - {id}])
  {
    forall j | 0 <= j < |ms| ensures LatestShows(LevelsOf(DoDelete(w, i, id), j), name, ms[i := ms[i] - {id}][j]) {
      DeletedViews(w, i, id, j);
      assert LatestShows(LevelsOf(w, j), name, ms[j]);
      ForgetKeepsLatest(LevelsOf(w, i), name, id, ms[i]);
    }
  }

  lemma ForkHolds<S>(w: World<S>, name: string, ms: seq<map<string, VectorRecord>>, i: nat, p: S, c: S)
    requires Consistent(w) && HoldMaps(w, name, ms) && i < |w.stores| && CanFork(w, p, c)
    ensures HoldMaps(DoFork(w, i, p, c), name, ms + [ms[i]])
  {
    var w' := DoFork(w, i, p, c);
    forall j | 0 <= j < |w'.stores| ensures LatestShows(LevelsOf(w', j), name, (ms + [ms[i]])[j]) {
      ForkedViews(w, i, p, c, j);
      if j == i || j == |w.stores| {
        assert LatestShows(LevelsOf(w, i), name, ms[i]);
        forall id { PushKeepsLatest(LevelsOf(w, i), name, id); }
        SameLatest(LevelsOf(w, i), LevelsOf(w', j), name, ms[i]);
      } else {
        assert LatestShows(LevelsOf(w, j), name, ms[j]);
      }
    }
  }

  /** Neither half of a compaction changes the newest version of anything. */
  lemma CompactionHolds<S>(w: World<S>, e: Event<S>, j: nat, name: string, id: string)
    requires Consistent(w) && (e.Drain? || e.Swap?) && e.i < |w.stores| && j < |w.stores|
    ensures Latest(LevelsOf(Step(w, e), j), name, id) == Latest(LevelsOf(w, j), name, id)
  {
    var ls := LevelsOf(w, j);
    if k: nat :| Compacts(w, e) && HasAt(w.stores[j], k, w.stores[e.i].worker) {
      match e
      case Drain(i, drained) =>
        DrainedViews(w, i, drained, j, k);
        var other := w.stores[i].requests[0];
        DrainKeepsLatest(ls[k], other, drained, name, id);
        LevelKeepsLatest(ls, k, DrainLevel(ls[k], other, drained), name, id);
      case Swap(i) =>
        SwappedViews(w, i, j, k);
        SwapKeepsLatest(ls[k], name, id);
        LevelKeepsLatest(ls, k, SwapLevel(ls[k]), name, id);
    } else {
      UncompactedViews(w, e, j);
    }
  }

  /** One event keeps every store's newest versions its own plain map exactly unless it revives a deleted record. */
  lemma StepHoldsIff<S>(w: World<S>, name: string, ms: seq<map<string, VectorRecord>>, e: Event<S>)
    requires Consistent(w) && HoldMaps(w, name, ms)
    ensures HoldMaps(Step(w, e), name, StepMaps(w, name, ms, e)) <==> !RevivesNow(w, name, e)
  {
    if e.i < |w.stores| {
      match e
      case Write(i, other, r) =>
        if other == name { WriteHolds(w, name, ms, i, r); } else { WriteElsewhereHoldsIff(w, name, ms, i, other, r); }
      case Delete(i, id) => DeleteHolds(w, name, ms, i, id);
      case Ask(i, other) =>
        forall j | 0 <= j < |ms| ensures LatestShows(LevelsOf(Requested(w, i, other), j), name, ms[j]) {
          RequestedViews(w, i, other, j);
          assert LatestShows(LevelsOf(w, j), name, ms[j]);
        }
      case Fork(i, p, c) => if CanFork(w, p, c) { ForkHolds(w, name, ms, i, p, c); }
      case Drain(_, _) => HalfHolds(w, name, ms, e);
      case Swap(_) => HalfHolds(w, name, ms, e);
    }
  }

  lemma HalfHolds<S>(w: World<S>, name: string, ms: seq<map<string, VectorRecord>>, e: Event<S>)
    requires Consistent(w) && HoldMaps(w, name, ms) && (e.Drain? || e.Swap?) && e.i < |w.stores|
    ensures HoldMaps(Step(w, e), name, ms)
  {
    forall j | 0 <= j < |ms| ensures LatestShows(LevelsOf(Step(w, e), j), name, ms[j]) {
      forall id { CompactionHolds(w, e, j, name, id); }
      assert LatestShows(LevelsOf(w, j), name, ms[j]);
      SameLatest(LevelsOf(w, j), LevelsOf(Step(w, e), j), name, ms[j]);
    }
  }

  /** At every moment of the run every store's newest versions are its own plain map. */
  ghost predicate AlwaysHoldMaps<S>(w: World<S>, name: string, ms: seq<map<string, VectorRecord>>, es: seq<Event<S>>)
    decreases |es|
  {
    && HoldMaps(w, name, ms)
    && (es != [] ==> AlwaysHoldMaps(Step(w, es[0]), name, StepMaps(w, name, ms, es[0]), es[1..]))
  }

  ghost predicate NeverRevives<S>(w: World<S>, name: string, es: seq<Event<S>>)
    decreases |es|
  {
    es != [] ==> !RevivesNow(w, name, es[0]) && NeverRevives(Step(w, es[0]), name, es[1..])
  }

  /**
   Nothing is lost, over every schedule of writes to any collections, deletes,
   requests, nested forks and half compactions: the newest versions that a store
   holds are its own plain map at every moment, if and only if no write to
   another collection ever revives a deleted record of this one.
   */
  lemma {:induction false} OwnWritesHeldIff<S>(w: World<S>, name: string, ms: seq<map<string, VectorRecord>>,
                                               es: seq<Event<S>>)
    requires Consistent(w) && HoldMaps(w, name, ms)
    ensures AlwaysHoldMaps(w, name, ms, es) <==> NeverRevives(w, name, es)
    decreases |es|
  {
    if es != [] {
      StepHoldsIff(w, name, ms, es[0]);
      StepOk(w, es[0]);
      if !RevivesNow(w, name, es[0]) {
        OwnWritesHeldIff(Step(w, es[0]), name, StepMaps(w, name, ms, es[0]), es[1..]);
      }
    }
  }

  lemma {:induction false} RunHoldsMaps<S>(w: World<S>, name: string, ms: seq<map<string, VectorRecord>>,
                                           es: seq<Event<S>>)
    requires Consistent(w) && HoldMaps(w, name, ms) && NeverRevives(w, name, es)
    ensures Consistent(Run(w, es)) && HoldMaps(Run(w, es), name, RunMaps(w, name, ms, es))
    decreases |es|
  {
    if es != [] {
      StepHoldsIff(w, name, ms, es[0]);
      StepOk(w, es[0]);
      RunHoldsMaps(Step(w, es[0]), name, StepMaps(w, name, ms, es[0]), es[1..]);
    }
  }

  /** Every id is settled in the store's layers. */
  ghost predicate AllSettled(ls: seq<Level>, name: string) {
    forall id :: Settled(ls, name, id)
  }

  lemma ShownIffSettled(ls: Levels, name: string, m: map<string, VectorRecord>)
    requires LatestShows(ls, name, m)
    ensures Shows(LayersOf(ls), name, m) <==> AllSettled(ls, name)
  {
    forall id ensures Current(LayersOf(ls), name, id) == Lookup(m, id) <==> Settled(ls, name, id) {
      SettledIff(ls, name, id);
      assert Latest(ls, name, id) == Lookup(m, id);
    }
  }

  /**
   At every moment of every schedule in which no write revives a deleted record,
   each store shows exactly its own writes if and only if, for every id, the
   newest undeleted layer that knows it finds its latest version first, or has
   all of them in its compactor's hands over layers that show the same record.
   */
  lemma OwnWritesShownIff<S>(w: World<S>, name: string, ms: seq<map<string, VectorRecord>>, es: seq<Event<S>>, j: nat)
    requires Consistent(w) && HoldMaps(w, name, ms) && NeverRevives(w, name, es) && j < |Run(w, es).stores|
    ensures j < |RunMaps(w, name, ms, es)|
    ensures Shows(ViewOf(Run(w, es), j), name, RunMaps(w, name, ms, es)[j])
       <==> AllSettled(LevelsOf(Run(w, es), j), name)
  {
    RunHoldsMaps(w, name, ms, es);
    ShownIffSettled(LevelsOf(Run(w, es), j), name, RunMaps(w, name, ms, es)[j]);
  }

  lemma NewHoldsMaps<S>(shards: S, name: string)
    ensures Consistent(New(shards)) && HoldMaps(New(shards), name, [map[]])
  {
    NewOk(shards);
    var ls := LevelsOf(New(shards), 0);
    assert ls == [EMPTY_LEVEL] && ls[1..] == [];
    assert EMPTY_COLLECTION.tier2.records + [] == [];
    assert LatestShows(ls, name, map[]);
  }

  // ---------------------------------------------------------------------
  // Compactions of fresh ids
  // ---------------------------------------------------------------------

  /** No drain of the run takes an id of which tier 2 has another version. */
  ghost predicate DrainsFreshIds<S>(w: World<S>, es: seq<Event<S>>)
    decreases |es|
  {
    es != [] ==>
      && (es[0].Drain? && Drains(w, es[0].i, es[0].drained) ==> FreshIds(Victim(w, es[0].i)))
      && DrainsFreshIds(Step(w, es[0]), es[1..])
  }

  /** The worker's collection that the next drain takes. */
  ghost function Victim<S>(w: World<S>, i: nat): VectorCollection
    requires i < |w.stores| && w.stores[i].requests != []
  {
    CollectionIn(ContentsAt(w.memory, w.stores[i].worker), w.stores[i].requests[0])
  }

  function Handed(sh: Shards, name: string): seq<VectorRecord> {
    InFlight(Level(Layer({}, sh.collections), sh.job), name)
  }

  /** Tier 2 and the compactor's hands have one version of each id, and a tier 2 with records is indexed. */
  ghost predicate Uniform(sh: Shards) {
    forall name :: OneVersionEach(CollectionIn(sh, name).tier2.records + Handed(sh, name))
  }

  ghost predicate Indexed(sh: Shards) {
    forall name :: HasIndex(CollectionIn(sh, name))
  }

  ghost predicate AllUniform<S>(w: World<S>) {
    forall sh <- w.memory :: Uniform(w.memory[sh])
  }

  ghost predicate AllIndexed<S>(w: World<S>) {
    forall sh <- w.memory :: Indexed(w.memory[sh])
  }

  lemma DrainUniform(sh: Shards, name: string, drained: seq<VectorRecord>)
    requires Uniform(sh) && sh.job.None? && DrainOrder(CollectionIn(sh, name).tier1, drained)
    requires FreshIds(CollectionIn(sh, name))
    ensures Uniform(Drained(sh, name, drained))
  {
    var sh', col := Drained(sh, name, drained), CollectionIn(sh, name);
    forall other ensures OneVersionEach(CollectionIn(sh', other).tier2.records + Handed(sh', other)) {
      assert OneVersionEach(CollectionIn(sh, other).tier2.records + Handed(sh, other));
      assert CollectionIn(sh, other).tier2.records + [] == CollectionIn(sh, other).tier2.records;
      if other == name {
        assert Handed(sh', name) == drained;
        forall r, s | r in col.tier2.records + drained && s in col.tier2.records + drained && r.id == s.id
          ensures r == s
        {
          assert r in drained ==> r.id in col.tier1 && col.tier1[r.id] == r;
          assert s in drained ==> s.id in col.tier1 && col.tier1[s.id] == s;
        }
      } else {
        assert CollectionIn(sh', other) == CollectionIn(sh, other) && Handed(sh', other) == [];
      }
    }
  }

  lemma SwapUniform(sh: Shards)
    requires Uniform(sh)
    ensures Uniform(Swapped(sh))
  {
    var sh' := Swapped(sh);
    forall other ensures OneVersionEach(CollectionIn(sh', other).tier2.records + Handed(sh', other)) {
      assert OneVersionEach(CollectionIn(sh, other).tier2.records + Handed(sh, other));
      if sh.job.Some? {
        assert CollectionIn(sh', other).tier2.records + Handed(sh', other)
            == CollectionIn(sh, other).tier2.records + Handed(sh, other);
      }
    }
  }

  lemma PutUniform(sh: Shards, name: string, r: VectorRecord)
    ensures Uniform(sh) ==> Uniform(Put(sh, name, r))
    ensures Indexed(sh) ==> Indexed(Put(sh, name, r))
  {
    forall other
      ensures CollectionIn(Put(sh, name, r), other).tier2 == CollectionIn(sh, other).tier2
      ensures Handed(Put(sh, name, r), other) == Handed(sh, other)
    {
    }
    assert Uniform(sh) ==> forall other :: OneVersionEach(CollectionIn(sh, other).tier2.records + Handed(sh, other));
    assert Indexed(sh) ==> forall other :: HasIndex(CollectionIn(sh, other));
  }

  /** Only tier-1 writes, requests and compactions change contents. */
  lemma StepContents<S>(w: World<S>, e: Event<S>, sh: S)
    requires Consistent(w) && sh in Step(w, e).memory
    ensures sh !in w.memory ==> Step(w, e).memory[sh] == NO_SHARDS
    ensures sh in w.memory ==>
              var was, now := w.memory[sh], Step(w, e).memory[sh];
              || now == was
              || (e.Ask? && now == Flagged(was, e.name))
              || (e.Write? && now == AfterWrite(was, e.name, e.r))
              || (e.Drain? && Drains(w, e.i, e.drained) && sh == w.stores[e.i].worker
                  && now == Drained(was, w.stores[e.i].requests[0], e.drained))
              || (e.Swap? && now == Swapped(was))
  {
    if e.i < |w.stores| {
      WorkerKeyed(w, e.i);
      assert StoreOk(w.memory, w.stores[e.i]);
      assert HandleAt(w.stores[e.i], 0).shards in w.memory;
      if e.Write? {
        WriteParts(w, e.i, e.name, e.r);
      }
    }
  }

  lemma FlagUniform(sh: Shards, name: string)
    ensures Uniform(sh) ==> Uniform(Flagged(sh, name))
    ensures Indexed(sh) ==> Indexed(Flagged(sh, name))
  {
    assert forall other :: CollectionIn(Flagged(sh, name), other) == CollectionIn(sh, other)
                        && Handed(Flagged(sh, name), other) == Handed(sh, other);
  }

  lemma StepUniform<S>(w: World<S>, e: Event<S>)
    requires Consistent(w) && AllUniform(w)
    requires e.Drain? && Drains(w, e.i, e.drained) ==> FreshIds(Victim(w, e.i))
    ensures AllUniform(Step(w, e))
  {
    forall sh <- Step(w, e).memory ensures Uniform(Step(w, e).memory[sh]) {
      StepContents(w, e, sh);
      if sh in w.memory {
        var was := w.memory[sh];
        assert Uniform(was);
        match e
        case Ask(_, name) => FlagUniform(was, name);
        case Write(_, name, r) =>
          FlagUniform(was, name);
          PutUniform(if Full(was, name) then Flagged(was, name) else was, name, r);
        case Drain(i, drained) =>
          if Drains(w, i, drained) && sh == w.stores[i].worker {
            DrainUniform(was, w.stores[i].requests[0], drained);
          }
        case Swap(_) => SwapUniform(was);
        case _ =>
      }
    }
  }

  lemma CompactedIsIndexed(sh: Shards, name: string, drained: seq<VectorRecord>)
    requires Indexed(sh)
    ensures Indexed(Drained(sh, name, drained)) && Indexed(Swapped(sh))
  {
    forall other
      ensures HasIndex(CollectionIn(Drained(sh, name, drained), other)) && HasIndex(CollectionIn(Swapped(sh), other))
    {
      assert HasIndex(CollectionIn(sh, other));
    }
  }

  lemma StepIndexed<S>(w: World<S>, e: Event<S>)
    requires Consistent(w) && AllIndexed(w)
    ensures AllIndexed(Step(w, e))
  {
    forall sh <- Step(w, e).memory ensures Indexed(Step(w, e).memory[sh]) {
      StepContents(w, e, sh);
      if sh in w.memory {
        var was := w.memory[sh];
        assert Indexed(was);
        match e
        case Ask(_, name) => FlagUniform(was, name);
        case Write(_, name, r) =>
          FlagUniform(was, name);
          PutUniform(if Full(was, name) then Flagged(was, name) else was, name, r);
        case Drain(i, drained) =>
          if Drains(w, i, drained) && sh == w.stores[i].worker {
            CompactedIsIndexed(was, w.stores[i].requests[0], drained);
          }
        case Swap(_) => CompactedIsIndexed(was, "", []);
        case _ =>
      }
    }
  }

  /** A compaction always leaves an index. */
  lemma {:induction false} RunIndexed<S>(w: World<S>, es: seq<Event<S>>)
    requires Consistent(w) && AllIndexed(w)
    ensures Consistent(Run(w, es)) && AllIndexed(Run(w, es))
    decreases |es|
  {
    if es != [] {
      StepIndexed(w, es[0]);
      StepOk(w, es[0]);
      RunIndexed(Step(w, es[0]), es[1..]);
    }
  }

  lemma {:induction false} RunUniform<S>(w: World<S>, es: seq<Event<S>>)
    requires Consistent(w) && AllUniform(w) && DrainsFreshIds(w, es)
    ensures Consistent(Run(w, es)) && AllUniform(Run(w, es))
    decreases |es|
  {
    if es != [] {
      StepUniform(w, es[0]);
      StepOk(w, es[0]);
      RunUniform(Step(w, es[0]), es[1..]);
    }
  }

  lemma NewUniform<S>(shards: S)
    ensures AllUniform(New(shards)) && AllIndexed(New(shards))
  {
  }

  /** No compaction of contents that the store shares is between its two halves. */
  ghost predicate Idle<S>(w: World<S>, j: nat)
    requires j < |w.stores|
  {
    forall l <- LevelsOf(w, j) :: l.job.None?
  }

  lemma UniformLevels<S>(w: World<S>, j: nat, name: string)
    requires Consistent(w) && AllUniform(w) && j < |w.stores| && Idle(w, j)
    ensures forall l <- LevelsOf(w, j) :: OneVersionEach(CollectionOf(l.layer, name).tier2.records)
  {
    var ls := LevelsOf(w, j);
    assert StoreOk(w.memory, w.stores[j]);
    forall k | 0 <= k < |ls| ensures OneVersionEach(CollectionOf(ls[k].layer, name).tier2.records) {
      var sh := w.memory[HandleAt(w.stores[j], k).shards];
      assert ls[k] in ls && OneVersionEach(CollectionIn(sh, name).tier2.records + Handed(sh, name));
      assert CollectionIn(sh, name).tier2.records + [] == CollectionIn(sh, name).tier2.records;
    }
  }

  /** If only fresh ids are drained, a store is unsettled only while a compaction of contents it shares is under way. */
  lemma FreshDrainsSettle<S>(shards: S, es: seq<Event<S>>, j: nat, name: string)
    requires DrainsFreshIds(New(shards), es) && j < |Run(New(shards), es).stores| && Idle(Run(New(shards), es), j)
    ensures AllSettled(LevelsOf(Run(New(shards), es), j), name)
  {
    NewOk(shards);
    NewUniform(shards);
    RunUniform(New(shards), es);
    UniformLevels(Run(New(shards), es), j, name);
    forall id { IdleIsSettled(LevelsOf(Run(New(shards), es), j), name, id); }
  }

  // ---------------------------------------------------------------------
  // Recall after a run
  // ---------------------------------------------------------------------

  /** Each index of the view answers the query exactly and is asked for enough. */
  ghost predicate ViewAnswersExactly(q: SearchQuery, st: seq<Layer>, answers: seq<seq<IndexHit>>) {
    |answers| == |st| && forall k :: 0 <= k < |st| ==> AnswersExactly(q, CollectionOf(st[k], q.collection), answers[k])
  }

  lemma IndexedView<S>(w: World<S>, j: nat, q: SearchQuery, answers: seq<seq<IndexHit>>)
    requires Consistent(w) && AllIndexed(w) && j < |w.stores| && ViewAnswersExactly(q, ViewOf(w, j), answers)
    ensures ExactStack(q, ViewOf(w, j), answers)
  {
    var st := ViewOf(w, j);
    assert StoreOk(w.memory, w.stores[j]);
    forall k | 0 <= k < |st| ensures HasIndex(CollectionOf(st[k], q.collection)) {
      var sh := w.memory[HandleAt(w.stores[j], k).shards];
      assert Indexed(sh) && CollectionOf(st[k], q.collection) == CollectionIn(sh, q.collection);
    }
  }

  /**
   After any run from a new store that revives nothing and drains only fresh
   ids, a recall that admits every version and has room for all, on any store no
   compaction of whose layers is under way, returns through exact indexes
   exactly that store's plain map.
   */
  lemma RunThenRecall<S>(shards: S, es: seq<Event<S>>, q: SearchQuery, j: nat, answers: seq<seq<IndexHit>>,
                         out: seq<SearchResult>)
    requires NeverRevives(New(shards), q.collection, es) && DrainsFreshIds(New(shards), es)
    requires j < |Run(New(shards), es).stores| && Idle(Run(New(shards), es), j)
    requires var st := ViewOf(Run(New(shards), es), j);
             && ViewAnswersExactly(q, st, answers)
             && AllPass(q, ProbeStack(q, st, answers)) && IsTop(q, ProbeStack(q, st, answers), out)
    ensures j < |RunMaps(New(shards), q.collection, [map[]], es)|
    ensures var m := RunMaps(New(shards), q.collection, [map[]], es)[j];
            |m| <= q.limit ==>
              && |out| == |m| && ResultIds(out) == m.Keys
              && forall r <- out ::
                   r.id in m && r.metadata == m[r.id].metadata && r.score == q.similarity(m[r.id].vector)
  {
    var w, name := Run(New(shards), es), q.collection;
    NewHoldsMaps(shards, name);
    NewUniform(shards);
    RunUniform(New(shards), es);
    RunIndexed(New(shards), es);
    RunHoldsMaps(New(shards), name, [map[]], es);
    OwnWritesShownIff(New(shards), name, [map[]], es, j);
    FreshDrainsSettle(shards, es, j, name);
    IndexedView(w, j, q, answers);
    UniformLevels(w, j, name);
    var m := RunMaps(New(shards), name, [map[]], es)[j];
    if |m| <= q.limit {
      assert forall l <- ViewOf(w, j) :: OneVersionEach(CollectionOf(l, name).tier2.records);
      ExactRecallReturnsTheMap(q, ViewOf(w, j), answers, m, out);
    }
  }

  // ---------------------------------------------------------------------
  // A parent that changes what its child sees
  // ---------------------------------------------------------------------

  /** One store, forked when its collection "c" was `col`; the worker of store 0 has those contents. */
  function ForkedWorld(col: VectorCollection): World<int> {
    World(map[0 := Shards(map["c" := col], {}, None), 1 := NO_SHARDS, 2 := NO_SHARDS],
          [Store(Handle({}, 1), [Handle({}, 0)], 0, []), Store(Handle({}, 2), [Handle({}, 0)], 2, [])])
  }

  /** One store that has not forked. */
  function OneStore(sh: Shards, requests: seq<string>): World<int> {
    World(map[0 := sh], [Store(Handle({}, 0), [], 0, requests)])
  }

  /** Contents with collection "c" alone. */
  function OnlyC(col: VectorCollection): Shards {
    Shards(map["c" := col], {}, None)
  }

  lemma OneStoreWrites(sh: Shards, requests: seq<string>, name: string, r: VectorRecord)
    requires |CollectionIn(sh, name).tier1| < 2048
    ensures Step(OneStore(sh, requests), Write(0, name, r)) == OneStore(Put(sh, name, r), requests)
  {
    assert map[0 := sh][0 := Put(sh, name, r)] == map[0 := Put(sh, name, r)];
    assert {} - {r.id} == {};
  }

  lemma OneStoreAsks(sh: Shards, requests: seq<string>, name: string)
    requires name !in sh.compacting
    ensures Step(OneStore(sh, requests), Ask(0, name)) == OneStore(Flagged(sh, name), requests + [name])
  {
    assert map[0 := sh][0 := Flagged(sh, name)] == map[0 := Flagged(sh, name)];
  }

  lemma OneStoreDrains(sh: Shards, name: string, drained: seq<VectorRecord>)
    requires name in sh.collections && sh.job.None? && DrainOrder(CollectionIn(sh, name).tier1, drained)
    ensures Step(OneStore(sh, [name]), Drain(0, drained)) == OneStore(Drained(sh, name, drained), [])
  {
    assert Drains(OneStore(sh, [name]), 0, drained) && [name][1..] == [];
    assert map[0 := sh][0 := Drained(sh, name, drained)] == map[0 := Drained(sh, name, drained)];
  }

  lemma OneStoreSwaps(sh: Shards, requests: seq<string>)
    requires sh.job.Some?
    ensures Step(OneStore(sh, requests), Swap(0)) == OneStore(Swapped(sh), requests)
  {
    assert map[0 := sh][0 := Swapped(sh)] == map[0 := Swapped(sh)];
  }

  lemma OneStoreForks(col: VectorCollection)
    ensures Step(OneStore(OnlyC(col), []), Fork(0, 1, 2)) == ForkedWorld(col)
  {
    var sh := OnlyC(col);
    assert map[0 := sh][1 := NO_SHARDS][2 := NO_SHARDS] == map[0 := sh, 1 := NO_SHARDS, 2 := NO_SHARDS];
    assert [] + [Handle({}, 0)] == [Handle({}, 0)];
  }

  lemma PutSingle(col: VectorCollection, r: VectorRecord)
    requires col.tier1 == map[] && r.id == "a"
    ensures Put(OnlyC(col), "c", r) == OnlyC(col.(tier1 := map["a" := r]))
  {
    assert map[]["a" := r] == map["a" := r];
    assert map["c" := col]["c" := col.(tier1 := map["a" := r])] == map["c" := col.(tier1 := map["a" := r])];
  }

  lemma FirstWrite(r: VectorRecord)
    requires r.id == "a"
    ensures Step(New(0), Write(0, "c", r)) == OneStore(OnlyC(VectorCollection(map["a" := r], EMPTY_TIER2)), [])
  {
    OneStoreWrites(NO_SHARDS, [], "c", r);
    assert Put(NO_SHARDS, "c", r) == OnlyC(VectorCollection(map["a" := r], EMPTY_TIER2));
  }

  /** What a drain and a swap make of a collection with one record in tier 1. */
  function InHand(col: VectorCollection, r: VectorRecord): Shards {
    Shards(map["c" := col.(tier1 := map[])], {"c"}, Some(Job("c", [r])))
  }

  lemma DrainedSingle(col: VectorCollection, r: VectorRecord)
    requires r.id == "a" && col.tier1 == map["a" := r]
    ensures DrainOrder(col.tier1, [r]) && Drained(Flagged(OnlyC(col), "c"), "c", [r]) == InHand(col, r)
    ensures Swapped(InHand(col, r))
         == OnlyC(VectorCollection(map[], Tier2Data(col.tier2.records + [r], col.tier2.points + [r.vector], true)))
  {
    var empty := col.(tier1 := map[]);
    var done := VectorCollection(map[], Tier2Data(col.tier2.records + [r], col.tier2.points + [r.vector], true));
    assert VectorsOf([r]) == [r.vector];
    assert map["c" := col]["c" := empty] == map["c" := empty] && map["c" := empty]["c" := done] == map["c" := done];
    assert {} + {"c"} == {"c"} && {"c"} - {"c"} == {};
  }

  lemma CompactedOnce(older: VectorRecord)
    requires older.id == "a"
    ensures Step(Step(Step(Step(New(0), Write(0, "c", older)), Ask(0, "c")), Drain(0, [older])), Swap(0))
         == OneStore(OnlyC(VectorCollection(map[], Tier2Data([older], [older.vector], true))), [])
  {
    var one := VectorCollection(map["a" := older], EMPTY_TIER2);
    FirstWrite(older);
    OneStoreAsks(OnlyC(one), [], "c");
    assert [] + ["c"] == ["c"] && [] + [older] == [older] && [] + [older.vector] == [older.vector];
    DrainedSingle(one, older);
    OneStoreDrains(Flagged(OnlyC(one), "c"), "c", [older]);
    OneStoreSwaps(InHand(one, older), []);
  }

  /** An old version of "a" in tier 2, a new one in tier 1. */
  function TwoVersions(older: VectorRecord, newer: VectorRecord): VectorCollection {
    VectorCollection(map["a" := newer], Tier2Data([older], [older.vector], true))
  }

  lemma RunOne<S>(w: World<S>, e: Event<S>)
    ensures Run(w, [e]) == Step(w, e)
  {
    assert [e][1..] == [];
  }

  lemma RunTwo<S>(w: World<S>, a: Event<S>, b: Event<S>)
    ensures Run(w, [a, b]) == Step(Step(w, a), b)
  {
    assert [a, b][1..] == [b];
    RunOne(Step(w, a), b);
  }

  lemma RunThree<S>(w: World<S>, a: Event<S>, b: Event<S>, c: Event<S>)
    ensures Run(w, [a, b, c]) == Step(Step(Step(w, a), b), c)
  {
    assert [a, b, c][1..] == [b, c];
    RunTwo(Step(w, a), b, c);
  }

  /** The world of `ParentFlipsChild` is reached from a new store. */
  lemma ForkedWorldReached(older: VectorRecord, newer: VectorRecord)
    requires older.id == newer.id == "a"
    ensures var mid := Run(New(0), [Write(0, "c", older), Ask(0, "c"), Drain(0, [older])]);
            Run(mid, [Swap(0), Write(0, "c", newer), Fork(0, 1, 2)]) == ForkedWorld(TwoVersions(older, newer))
  {
    var two := VectorCollection(map[], Tier2Data([older], [older.vector], true));
    CompactedOnce(older);
    OneStoreWrites(OnlyC(two), [], "c", newer);
    PutSingle(two, newer);
    OneStoreForks(TwoVersions(older, newer));
    RunThree(New(0), Write(0, "c", older), Ask(0, "c"), Drain(0, [older]));
    var mid := Run(New(0), [Write(0, "c", older), Ask(0, "c"), Drain(0, [older])]);
    RunThree(mid, Swap(0), Write(0, "c", newer), Fork(0, 1, 2));
  }

  /** The child shows what collection "c" of the shared contents shows. */
  lemma ChildLooksBelow(w: World<int>, col: VectorCollection)
    requires |w.stores| == 2 && w.stores[1] == Store(Handle({}, 2), [Handle({}, 0)], 2, [])
    requires 0 in w.memory && 2 in w.memory && w.memory[2] == NO_SHARDS
    requires "c" in w.memory[0].collections && w.memory[0].collections["c"] == col
    ensures Current(ViewOf(w, 1), "c", "a") == First(RecordsOf(col, "a"))
  {
    var v := ViewOf(w, 1);
    assert v == [EMPTY_LAYER, Layer({}, w.memory[0].collections)];
    assert v[1..] == [Layer({}, w.memory[0].collections)] && v[1..][1..] == [];
    assert VisibleRecords(v[1..], "c", "a") == RecordsOf(col, "a") + [];
    assert VisibleRecords(v, "c", "a") == [] + VisibleRecords(v[1..], "c", "a");
  }

  /** The parent asks, and its worker drains the contents that the child shares. */
  lemma ParentDrains(col: VectorCollection, r: VectorRecord)
    requires r.id == "a" && col.tier1 == map["a" := r]
    ensures var w := Run(ForkedWorld(col), [Ask(0, "c"), Drain(0, [r])]);
            && w == Step(Step(ForkedWorld(col), Ask(0, "c")), Drain(0, [r]))
            && w.stores == ForkedWorld(col).stores && w.memory.Keys == {0, 1, 2}
            && w.memory[2] == NO_SHARDS && w.memory[0].collections == map["c" := col.(tier1 := map[])]
            && w.memory[0].job == Some(Job("c", [r]))
  {
    var w0 := ForkedWorld(col);
    var asked := Step(w0, Ask(0, "c"));
    DrainedSingle(col, r);
    assert asked.stores[0].requests == [] + ["c"] == ["c"] && asked.memory[0] == w0.memory[0];
    assert Drains(asked, 0, [r]) && ["c"][1..] == [];
    RunTwo(w0, Ask(0, "c"), Drain(0, [r]));
    assert map["c" := col]["c" := col.(tier1 := map[])] == map["c" := col.(tier1 := map[])];
    assert asked.stores[0 := asked.stores[0].(requests := [])] == w0.stores;
  }

  lemma ParentSwaps(w: World<int>, col: VectorCollection, r: VectorRecord)
    requires |w.stores| == 2 && w.stores[0].worker == 0 && w.memory.Keys == {0, 1, 2}
    requires w.memory[0].collections == map["c" := col] && w.memory[0].job == Some(Job("c", [r]))
    ensures var w' := Run(w, [Swap(0)]);
            && w' == Step(w, Swap(0)) && w'.stores == w.stores && w'.memory.Keys == {0, 1, 2}
            && w'.memory[2] == w.memory[2]
            && w'.memory[0].collections == map["c" := col.(tier2 := Appended(col.tier2, [r]))]
  {
    RunOne(w, Swap(0));
    var done := col.(tier2 := Appended(col.tier2, [r]));
    assert map["c" := col]["c" := done] == map["c" := done];
  }

  /** Before, in the middle of and after a compaction by the parent, the child shows what the shared contents show. */
  lemma ChildFollows(col: VectorCollection, r: VectorRecord)
    requires r.id == "a" && col.tier1 == map["a" := r]
    ensures var w := ForkedWorld(col);
            var mid := Run(w, [Ask(0, "c"), Drain(0, [r])]);
            var end := Run(mid, [Swap(0)]);
            && |mid.stores| == |end.stores| == 2
            && Current(ViewOf(w, 1), "c", "a") == First(RecordsOf(col, "a"))
            && Current(ViewOf(mid, 1), "c", "a") == First(RecordsOf(col.(tier1 := map[]), "a"))
            && Current(ViewOf(end, 1), "c", "a")
               == First(RecordsOf(VectorCollection(map[], Appended(col.tier2, [r])), "a"))
  {
    var mid := Run(ForkedWorld(col), [Ask(0, "c"), Drain(0, [r])]);
    ParentDrains(col, r);
    ParentSwaps(mid, col.(tier1 := map[]), r);
    ChildLooksBelow(ForkedWorld(col), col);
    ChildLooksBelow(mid, col.(tier1 := map[]));
    ChildLooksBelow(Run(mid, [Swap(0)]), VectorCollection(map[], Appended(col.tier2, [r])));
  }

  /**
   The parent asks for a compaction, its worker compacts the frozen contents,
   and the child, which did nothing, shows the old version instead of the new.
   */
  lemma ParentFlipsChild()
    ensures var older, newer := VectorRecord("a", [0.0], map[]), VectorRecord("a", [1.0], map[]);
            var w := ForkedWorld(TwoVersions(older, newer));
            var end := Run(Run(w, [Ask(0, "c"), Drain(0, [newer])]), [Swap(0)]);
            |end.stores| == 2 && Current(ViewOf(w, 1), "c", "a") == Some(newer)
            && Current(ViewOf(end, 1), "c", "a") == Some(older)
  {
    var older, newer := VectorRecord("a", [0.0], map[]), VectorRecord("a", [1.0], map[]);
    var col := TwoVersions(older, newer);
    ChildFollows(col, newer);
    var done := VectorCollection(map[], Appended(col.tier2, [newer]));
    assert RecordsOf(col, "a")[0] == newer;
    assert done.tier2.records == [older, newer] && RecordsOf(done, "a")[0] == older;
  }

  lemma WriteThenFork(r: VectorRecord)
    requires r.id == "a"
    ensures Run(New(0), [Write(0, "c", r), Fork(0, 1, 2)])
         == ForkedWorld(VectorCollection(map["a" := r], EMPTY_TIER2))
  {
    FirstWrite(r);
    OneStoreForks(VectorCollection(map["a" := r], EMPTY_TIER2));
    RunTwo(New(0), Write(0, "c", r), Fork(0, 1, 2));
  }

  /**
   A compaction that is safe in every way, of an id that tier 2 has never had:
   until the swap, the child that shares the contents does not find the record.
   */
  lemma ParentHidesFromChild()
    ensures var r := VectorRecord("a", [0.0], map[]);
            var col := VectorCollection(map["a" := r], EMPTY_TIER2);
            var w := ForkedWorld(col);
            var mid := Run(w, [Ask(0, "c"), Drain(0, [r])]);
            var end := Run(mid, [Swap(0)]);
            && Run(New(0), [Write(0, "c", r), Fork(0, 1, 2)]) == w && FreshIds(col)
            && |mid.stores| == |end.stores| == 2 && Current(ViewOf(w, 1), "c", "a") == Some(r)
            && Current(ViewOf(mid, 1), "c", "a") == None && Current(ViewOf(end, 1), "c", "a") == Some(r)
  {
    var r := VectorRecord("a", [0.0], map[]);
    var col := VectorCollection(map["a" := r], EMPTY_TIER2);
    WriteThenFork(r);
    ChildFollows(col, r);
    var done := VectorCollection(map[], Appended(EMPTY_TIER2, [r]));
    assert done.tier2.records == [r] && RecordsOf(done, "a")[0] == r && RecordsOf(col, "a")[0] == r;
  }

  // ---------------------------------------------------------------------
  // The worker of a store that has forked
  // ---------------------------------------------------------------------

  ghost predicate Forks<S>(w: World<S>, e: Event<S>, j: nat) {
    e.Fork? && e.i == j && j < |w.stores| && CanFork(w, e.parentShards, e.childShards)
  }

  ghost predicate EverForks<S>(w: World<S>, es: seq<Event<S>>, j: nat)
    decreases |es|
  {
    es != [] && (Forks(w, es[0], j) || EverForks(Step(w, es[0]), es[1..], j))
  }

  ghost predicate WorkerAtActive<S>(w: World<S>, j: nat)
    requires j < |w.stores|
  {
    w.stores[j].worker == w.stores[j].active.shards
  }

  lemma WorkerStep<S>(w: World<S>, e: Event<S>, j: nat)
    requires Consistent(w) && j < |Step(w, e).stores|
    ensures WorkerAtActive(Step(w, e), j) <==> (j < |w.stores| ==> WorkerAtActive(w, j)) && !Forks(w, e, j)
  {
    if j < |w.stores| {
      assert StoreOk(w.memory, w.stores[j]);
    }
  }

  /** A worker holds the active contents of its store exactly as long as the store has not forked. */
  lemma {:induction false} WorkerAtActiveIff<S>(w: World<S>, es: seq<Event<S>>, j: nat)
    requires Consistent(w) && j < |Run(w, es).stores|
    ensures WorkerAtActive(Run(w, es), j) <==> (j < |w.stores| ==> WorkerAtActive(w, j)) && !EverForks(w, es, j)
    decreases |es|
  {
    if es != [] {
      StepOk(w, es[0]);
      WorkerAtActiveIff(Step(w, es[0]), es[1..], j);
      if j < |Step(w, es[0]).stores| {
        WorkerStep(w, es[0], j);
      }
    }
  }

  /** In every run from one new store, for every store there is by then. */
  lemma WorkerAtActiveUnlessForked<S>(shards: S, es: seq<Event<S>>, j: nat)
    requires j < |Run(New(shards), es).stores|
    ensures WorkerAtActive(Run(New(shards), es), j) <==> !EverForks(New(shards), es, j)
  {
    NewOk(shards);
    WorkerAtActiveIff(New(shards), es, j);
  }

  /** The contents store `j` writes to. */
  ghost function ActiveContents<S>(w: World<S>, j: nat): Shards
    requires j < |w.stores|
  {
    ContentsAt(w.memory, w.stores[j].active.shards)
  }

  /** The event queues collection `name` for the worker of store `j`. */
  ghost predicate Queues<S>(w: World<S>, e: Event<S>, j: nat, name: string)
    requires j < |w.stores|
  {
    && e.i == j && name !in ActiveContents(w, j).compacting
    && (e == Ask(j, name) || (e.Write? && e.name == name && |CollectionIn(ActiveContents(w, j), name).tier1| >= 2048))
  }

  /** What the event adds to the queue of store `j`. */
  ghost function AddedBy<S>(w: World<S>, e: Event<S>, j: nat): seq<string>
    requires j < |w.stores|
  {
    if (e.Ask? || e.Write?) && Queues(w, e, j, e.name) then [e.name] else []
  }

  /** The worker of store `j`, idle, takes a request: of a collection it drains, or one its contents do not have. */
  ghost predicate TakesOne<S>(w: World<S>, e: Event<S>, j: nat)
    requires j < |w.stores|
  {
    && e.Drain? && e.i == j && w.stores[j].requests != []
    && var sh := ContentsAt(w.memory, w.stores[j].worker);
       sh.job.None? && (Exists(sh, w.stores[j].requests[0]) ==> Drains(w, j, e.drained))
  }

  lemma QueueStep<S>(w: World<S>, e: Event<S>, j: nat)
    requires j < |w.stores|
    ensures j < |Step(w, e).stores|
    ensures Step(w, e).stores[j].requests
         == (w.stores[j].requests + AddedBy(w, e, j))[if TakesOne(w, e, j) then 1 else 0..]
  {
    var requests := w.stores[j].requests;
    assert requests + [] == requests;
    assert (requests + AddedBy(w, e, j))[0..] == requests + AddedBy(w, e, j);
  }

  ghost function AllAdded<S>(w: World<S>, es: seq<Event<S>>, j: nat): seq<string>
    requires j < |w.stores|
    decreases |es|
  {
    if es == [] || j >= |Step(w, es[0]).stores| then []
    else AddedBy(w, es[0], j) + AllAdded(Step(w, es[0]), es[1..], j)
  }

  ghost function AllTaken<S>(w: World<S>, es: seq<Event<S>>, j: nat): nat
    requires j < |w.stores|
    decreases |es|
  {
    if es == [] || j >= |Step(w, es[0]).stores| then 0
    else (if TakesOne(w, es[0], j) then 1 else 0) + AllTaken(Step(w, es[0]), es[1..], j)
  }

  /** Over every run a worker takes the requests of its store in the order they were made, each once and none else. */
  lemma {:induction false} RequestsAreServedInOrder<S>(w: World<S>, es: seq<Event<S>>, j: nat)
    requires j < |w.stores|
    ensures j < |Run(w, es).stores|
    ensures AllTaken(w, es, j) <= |w.stores[j].requests + AllAdded(w, es, j)|
    ensures Run(w, es).stores[j].requests == (w.stores[j].requests + AllAdded(w, es, j))[AllTaken(w, es, j)..]
    decreases |es|
  {
    if es == [] {
      assert (w.stores[j].requests + [])[0..] == w.stores[j].requests;
    } else {
      QueueStep(w, es[0], j);
      RequestsAreServedInOrder(Step(w, es[0]), es[1..], j);
      DropThenAppend(w.stores[j].requests + AddedBy(w, es[0], j), AllAdded(Step(w, es[0]), es[1..], j),
                     if TakesOne(w, es[0], j) then 1 else 0, AllTaken(Step(w, es[0]), es[1..], j));
      ConcatAssociates(w.stores[j].requests, AddedBy(w, es[0], j), AllAdded(Step(w, es[0]), es[1..], j));
    }
  }

  lemma DropThenAppend(a: seq<string>, b: seq<string>, t: nat, n: nat)
    requires t <= |a| && n <= |a[t..] + b|
    ensures (a[t..] + b)[n..] == (a + b)[t + n..]
  {
  }

  ghost function TimesQueued<S>(w: World<S>, es: seq<Event<S>>, j: nat, name: string): nat
    requires j < |w.stores|
    decreases |es|
  {
    if es == [] || j >= |Step(w, es[0]).stores| then 0
    else (if Queues(w, es[0], j, name) then 1 else 0) + TimesQueued(Step(w, es[0]), es[1..], j, name)
  }

  function Tier1Put(col: VectorCollection, r: VectorRecord): VectorCollection {
    col.(tier1 := col.tier1[r.id := r])
  }

  /** `col` after the writes of store `j` to it, and nothing else. */
  function OnlyWritten<S>(col: VectorCollection, es: seq<Event<S>>, j: nat, name: string): VectorCollection
    decreases |es|
  {
    if es == [] then col
    else
      var next := if es[0].Write? && es[0].i == j && es[0].name == name then Tier1Put(col, es[0].r) else col;
      OnlyWritten(next, es[1..], j, name)
  }

  /** No worker holds the active contents of such a store. */
  lemma NobodyWorksThere<S>(w: World<S>, i: nat, j: nat)
    requires Consistent(w) && i < |w.stores| && j < |w.stores| && !WorkerAtActive(w, j)
    ensures w.stores[i].worker != w.stores[j].active.shards
  {
    assert StoreOk(w.memory, w.stores[i]);
    var k :| 0 <= k <= |w.stores[i].base| && HandleAt(w.stores[i], k).shards == w.stores[i].worker;
    if i != j || k > 0 {
      LayersApart(w, j, i, k);
    }
  }

  lemma DetachedWork<S>(w: World<S>, e: Event<S>, j: nat)
    requires Consistent(w) && (e.Drain? || e.Swap?) && e.i < |w.stores| && j < |w.stores| && !WorkerAtActive(w, j)
    ensures ActiveContents(Step(w, e), j) == ActiveContents(w, j)
  {
    NobodyWorksThere(w, e.i, j);
  }

  lemma DetachedStep<S>(w: World<S>, e: Event<S>, j: nat, name: string)
    requires Consistent(w) && j < |w.stores| && !WorkerAtActive(w, j) && !Forks(w, e, j)
    ensures j < |Step(w, e).stores| && !WorkerAtActive(Step(w, e), j)
    ensures CollectionIn(ActiveContents(Step(w, e), j), name)
         == if e.Write? && e.i == j && e.name == name then Tier1Put(CollectionIn(ActiveContents(w, j), name), e.r)
            else CollectionIn(ActiveContents(w, j), name)
    ensures ActiveContents(w, j).compacting <= ActiveContents(Step(w, e), j).compacting
    ensures Queues(w, e, j, name) ==> name in ActiveContents(Step(w, e), j).compacting
  {
    StepOk(w, e);
    WorkerStep(w, e, j);
    if e.i < |w.stores| {
      if e.Drain? || e.Swap? {
        DetachedWork(w, e, j);
      } else if e.Fork? {
        OldLayersStayUnless(w, e, j);
      } else if e.i != j {
        LayersApart(w, j, e.i, 0);
      }
    }
  }

  lemma OldLayersStayUnless<S>(w: World<S>, e: Event<S>, j: nat)
    requires Consistent(w) && j < |w.stores|
    ensures e.Fork? && CanFork(w, e.parentShards, e.childShards) ==>
              w.stores[j].active.shards !in {e.parentShards, e.childShards}
  {
    if e.Fork? && CanFork(w, e.parentShards, e.childShards) {
      OldLayersStay(w, e.parentShards, e.childShards, j, 0);
    }
  }

  /**
   After its first fork and until the next, a store's active layer is out of
   every worker's reach: its collections hold just what is written to them, each
   is queued at most once, and never again once it is flagged.
   */
  lemma {:induction false} DetachedStoreIsNeverDrained<S>(w: World<S>, es: seq<Event<S>>, j: nat, name: string)
    requires Consistent(w) && j < |w.stores| && !WorkerAtActive(w, j) && !EverForks(w, es, j)
    ensures j < |Run(w, es).stores|
    ensures CollectionIn(ActiveContents(Run(w, es), j), name)
         == OnlyWritten(CollectionIn(ActiveContents(w, j), name), es, j, name)
    ensures ActiveContents(w, j).compacting <= ActiveContents(Run(w, es), j).compacting
    ensures TimesQueued(w, es, j, name) <= if name in ActiveContents(w, j).compacting then 0 else 1
    ensures TimesQueued(w, es, j, name) > 0 ==> name in ActiveContents(Run(w, es), j).compacting
    decreases |es|
  {
    if es != [] {
      DetachedStep(w, es[0], j, name);
      StepOk(w, es[0]);
      DetachedStoreIsNeverDrained(Step(w, es[0]), es[1..], j, name);
    }
  }

  ghost function WrittenIds<S>(es: seq<Event<S>>, j: nat, name: string): set<string> {
    set e <- es | e.Write? && e.i == j && e.name == name :: e.r.id
  }

  lemma {:induction false} OnlyWrittenIds<S>(col: VectorCollection, es: seq<Event<S>>, j: nat, name: string)
    ensures OnlyWritten(col, es, j, name).tier1.Keys == col.tier1.Keys + WrittenIds(es, j, name)
    ensures OnlyWritten(col, es, j, name).tier2 == col.tier2
    decreases |es|
  {
    if es != [] {
      var next := if es[0].Write? && es[0].i == j && es[0].name == name then Tier1Put(col, es[0].r) else col;
      OnlyWrittenIds(next, es[1..], j, name);
      assert forall e :: e in es <==> e == es[0] || e in es[1..];
    }
  }

  /** The cap of 2048 does not bind such a store: tier 1 holds every id written since the fork, however many. */
  lemma CapDoesNotBind<S>(w: World<S>, es: seq<Event<S>>, j: nat, name: string)
    requires Consistent(w) && j < |w.stores| && !WorkerAtActive(w, j) && !EverForks(w, es, j)
    ensures j < |Run(w, es).stores|
    ensures var col := CollectionIn(ActiveContents(Run(w, es), j), name);
            WrittenIds(es, j, name) <= col.tier1.Keys && |col.tier1| >= |WrittenIds(es, j, name)|
  {
    DetachedStoreIsNeverDrained(w, es, j, name);
    var col := CollectionIn(ActiveContents(w, j), name);
    OnlyWrittenIds(col, es, j, name);
    SmallerSet(WrittenIds(es, j, name), OnlyWritten(col, es, j, name).tier1.Keys);
  }
}
