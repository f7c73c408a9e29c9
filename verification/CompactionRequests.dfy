/**
 When a store asks its compaction worker for work (src/memory.rs:244-257 and
 339-348): what its queue holds and what a write adds to it, over every run.
 */
module CompactionRequests {
  import opened VectorRecall
  import opened SharedStores
  import opened StoreRuns

  ghost predicate BeingCompacted(sh: Shards, name: string) {
    sh.job.Some? && sh.job.value.name == name
  }

  ghost predicate NoRepeats(names: seq<string>) {
    forall i, k :: 0 <= i < k < |names| ==> names[i] != names[k]
  }

  /** A collection is flagged exactly when it waits in the queue, once, or is in the worker's hands. */
  ghost predicate QueueIsFlags(sh: Shards, requests: seq<string>) {
    && NoRepeats(requests)
    && (forall name :: name in sh.compacting <==> name in requests || BeingCompacted(sh, name))
    && (forall name <- requests :: !BeingCompacted(sh, name))
  }

  ghost predicate Tracks<S>(w: World<S>, j: nat)
    requires j < |w.stores|
  {
    WorkerAtActive(w, j) ==> QueueIsFlags(ActiveContents(w, j), w.stores[j].requests)
  }

  ghost predicate AllTrack<S>(w: World<S>) {
    forall j: nat :: j < |w.stores| ==> Tracks(w, j)
  }

  // ---------------------------------------------------------------------
  // One event
  // ---------------------------------------------------------------------

  lemma RequestTracks(sh: Shards, requests: seq<string>, name: string)
    requires QueueIsFlags(sh, requests)
    ensures QueueIsFlags(Flagged(sh, name), if name in sh.compacting then requests else requests + [name])
  {
  }

  lemma DrainTracks(sh: Shards, requests: seq<string>, drained: seq<VectorRecord>)
    requires QueueIsFlags(sh, requests) && requests != [] && sh.job.None?
    ensures QueueIsFlags(Drained(sh, requests[0], drained), requests[1..])
  {
    forall name ensures name in requests <==> name == requests[0] || name in requests[1..] {
    }
  }

  lemma SwapTracks(sh: Shards, requests: seq<string>)
    requires QueueIsFlags(sh, requests)
    ensures QueueIsFlags(Swapped(sh), requests)
  {
  }

  /** The contents of a store that nobody else holds change only by the store's own events. */
  lemma OthersLeaveIt<S>(w: World<S>, e: Event<S>, j: nat)
    requires Consistent(w) && j < |w.stores| && WorkerAtActive(w, j) && e.i != j
    ensures j < |Step(w, e).stores| && Step(w, e).stores[j] == w.stores[j]
    ensures ActiveContents(Step(w, e), j) == ActiveContents(w, j)
  {
    if e.i < |w.stores| {
      if e.Fork? {
        OldLayersStayUnless(w, e, j);
      } else {
        LayersApart(w, j, e.i, 0);
        WorkerIsElsewhere(w, e.i, j);
      }
    }
  }

  lemma WorkerIsElsewhere<S>(w: World<S>, i: nat, j: nat)
    requires Consistent(w) && i < |w.stores| && j < |w.stores| && i != j
    ensures w.stores[i].worker != w.stores[j].active.shards
  {
    assert StoreOk(w.memory, w.stores[i]);
    var k :| 0 <= k <= |w.stores[i].base| && HandleAt(w.stores[i], k).shards == w.stores[i].worker;
    LayersApart(w, j, i, k);
  }

  lemma OwnDrainTracks<S>(w: World<S>, e: Event<S>, j: nat)
    requires Consistent(w) && j < |w.stores| && WorkerAtActive(w, j) && Tracks(w, j) && e.i == j && e.Drain?
    ensures j < |Step(w, e).stores| && Tracks(Step(w, e), j)
  {
    var s, sh := w.stores[j], ActiveContents(w, j);
    if s.requests != [] && sh.job.None? {
      assert s.requests[0] in sh.compacting;
      DrainTracks(sh, s.requests, e.drained);
    }
  }

  lemma OwnWriteTracks<S>(w: World<S>, e: Event<S>, j: nat)
    requires Consistent(w) && j < |w.stores| && WorkerAtActive(w, j) && Tracks(w, j) && e.i == j && e.Write?
    ensures j < |Step(w, e).stores| && Tracks(Step(w, e), j)
  {
    var s, sh := w.stores[j], ActiveContents(w, j);
    assert StoreOk(w.memory, s) && HandleAt(s, 0) == s.active;
    WriteParts(w, j, e.name, e.r);
    RequestTracks(sh, s.requests, e.name);
  }

  lemma OwnStepTracks<S>(w: World<S>, e: Event<S>, j: nat)
    requires Consistent(w) && j < |w.stores| && WorkerAtActive(w, j) && Tracks(w, j) && e.i == j && !Forks(w, e, j)
    ensures j < |Step(w, e).stores| && Tracks(Step(w, e), j)
  {
    match e
    case Write(_, _, _) => OwnWriteTracks(w, e, j);
    case Delete(_, _) =>
    case Ask(_, name) => RequestTracks(ActiveContents(w, j), w.stores[j].requests, name);
    case Fork(_, _, _) =>
    case Drain(_, _) => OwnDrainTracks(w, e, j);
    case Swap(_) => SwapTracks(ActiveContents(w, j), w.stores[j].requests);
  }

  lemma StepTracks<S>(w: World<S>, e: Event<S>)
    requires Consistent(w) && AllTrack(w)
    ensures AllTrack(Step(w, e))
  {
    forall j: nat | j < |Step(w, e).stores| && WorkerAtActive(Step(w, e), j) ensures Tracks(Step(w, e), j) {
      WorkerStep(w, e, j);
      if j < |w.stores| {
        assert Tracks(w, j);
        if e.i == j {
          OwnStepTracks(w, e, j);
        } else {
          OthersLeaveIt(w, e, j);
        }
      }
    }
  }

  lemma {:induction false} RunTracks<S>(w: World<S>, es: seq<Event<S>>)
    requires Consistent(w) && AllTrack(w)
    ensures AllTrack(Run(w, es))
    decreases |es|
  {
    if es != [] {
      StepOk(w, es[0]);
      StepTracks(w, es[0]);
      RunTracks(Step(w, es[0]), es[1..]);
    }
  }

  // ---------------------------------------------------------------------
  // Every run
  // ---------------------------------------------------------------------

  /**
   Over every run from a new store: until a store forks, a collection of it is
   flagged exactly while it waits in the queue, where it stands once, or is
   being compacted. So every flag is taken back, and a collection that was
   compacted can be asked for again.
   */
  lemma FlaggedIff<S>(shards: S, es: seq<Event<S>>, j: nat, name: string)
    requires j < |Run(New(shards), es).stores| && !EverForks(New(shards), es, j)
    ensures var w := Run(New(shards), es);
            && NoRepeats(w.stores[j].requests)
            && (name in ActiveContents(w, j).compacting
                <==> name in w.stores[j].requests || BeingCompacted(ActiveContents(w, j), name))
  {
    NewOk(shards);
    WorkerAtActiveUnlessForked(shards, es, j);
    RunTracks(New(shards), es);
    assert Tracks(Run(New(shards), es), j);
  }

  /**
   At every moment of every run, a write asks for a compaction of its collection
   exactly when tier 1 of the contents it goes to holds 2048 records or more and
   none is pending; it asks once, behind what is queued already.
   */
  lemma WriteAsksIff<S>(shards: S, es: seq<Event<S>>, j: nat, name: string, r: VectorRecord)
    requires j < |Run(New(shards), es).stores| && !EverForks(New(shards), es, j)
    ensures var w := Run(New(shards), es);
            var sh, queue := ActiveContents(w, j), w.stores[j].requests;
            && j < |Step(w, Write(j, name, r)).stores|
            && Step(w, Write(j, name, r)).stores[j].requests
               == queue + if |CollectionIn(sh, name).tier1| >= 2048 && name !in queue && !BeingCompacted(sh, name)
                          then [name] else []
  {
    var w := Run(New(shards), es);
    FlaggedIff(shards, es, j, name);
    QueueStep(w, Write(j, name, r), j);
    assert w.stores[j].requests + [] == w.stores[j].requests;
  }

  // ---------------------------------------------------------------------
  // The cap
  // ---------------------------------------------------------------------

  function Filler(k: nat): VectorRecord {
    VectorRecord(seq(k, _ => 'a'), [0.0], map[])
  }

  /** Writes of `k` different ids to "c". */
  function Writes(k: nat): seq<Event<int>> {
    if k == 0 then [] else Writes(k - 1) + [Write(0, "c", Filler(k - 1))]
  }

  function Filled(k: nat): map<string, VectorRecord> {
    if k == 0 then map[] else Filled(k - 1)[Filler(k - 1).id := Filler(k - 1)]
  }

  lemma {:induction false} FilledSize(k: nat)
    ensures |Filled(k)| == k && forall id <- Filled(k) :: |id| < k
  {
    if k > 0 {
      FilledSize(k - 1);
      assert Filler(k - 1).id !in Filled(k - 1);
      assert Filled(k).Keys == Filled(k - 1).Keys + {Filler(k - 1).id};
      assert |Filled(k)| == |Filled(k).Keys| && |Filled(k - 1)| == |Filled(k - 1).Keys|;
    }
  }

  lemma OneMoreWrite(k: nat)
    ensures Run(New(0), Writes(k + 1)) == Step(Run(New(0), Writes(k)), Write(0, "c", Filler(k)))
  {
    RunSnoc(New(0), Writes(k), Write(0, "c", Filler(k)));
  }

  /** One store with an empty queue, whose collection "c" has these records in tier 1, and nothing else. */
  ghost predicate HoldsInTier1(w: World<int>, tier1: map<string, VectorRecord>) {
    && w.stores == New(0).stores && 0 in w.memory
    && CollectionIn(w.memory[0], "c") == VectorCollection(tier1, EMPTY_TIER2)
    && w.memory[0].compacting == {}
  }

  lemma WriteFills(w: World<int>, tier1: map<string, VectorRecord>, r: VectorRecord)
    requires HoldsInTier1(w, tier1) && |tier1| < 2048
    ensures HoldsInTier1(Step(w, Write(0, "c", r)), tier1[r.id := r])
  {
    WriteParts(w, 0, "c", r);
    assert {} - {r.id} == {};
  }

  lemma OneMoreFills(w: World<int>, k: nat)
    requires HoldsInTier1(w, Filled(k)) && k < 2048
    ensures HoldsInTier1(Step(w, Write(0, "c", Filler(k))), Filled(k + 1))
  {
    FilledSize(k);
    WriteFills(w, Filled(k), Filler(k));
  }

  lemma NewHoldsNothing()
    ensures HoldsInTier1(Run(New(0), Writes(0)), Filled(0))
  {
  }

  lemma {:induction false} FirstWritesFill(k: nat)
    requires k <= 2048
    ensures HoldsInTier1(Run(New(0), Writes(k)), Filled(k))
  {
    if k == 0 {
      NewHoldsNothing();
    } else {
      FirstWritesFill(k - 1);
      OneMoreWrite(k - 1);
      OneMoreFills(Run(New(0), Writes(k - 1)), k - 1);
    }
  }

  /** A new store queues a collection at the write that would bring it to 2049 records, and not before. */
  lemma CapIsReached(k: nat)
    requires k <= 2049
    ensures |Run(New(0), Writes(k)).stores| == 1
    ensures Run(New(0), Writes(k)).stores[0].requests == if k <= 2048 then [] else ["c"]
  {
    if k <= 2048 {
      FirstWritesFill(k);
    } else {
      FirstWritesFill(k - 1);
      FilledSize(k - 1);
      OneMoreWrite(k - 1);
      QueueStep(Run(New(0), Writes(k - 1)), Write(0, "c", Filler(k - 1)), 0);
    }
  }
}
