/**
 Compaction interleaved with remember (src/memory.rs).

 The compactor drains tier 1 record by record, then swaps in a new tier 2;
 writers keep running in between. `latest` remembers, outside the store, the
 last record written for each id.
 */
module Compaction {
  import opened Wrappers
  import opened VectorRecall
  import opened RecallProperties
  import opened LayerRefinement

  datatype Compactor = Compactor(tier1: map<string, VectorRecord>, buffer: seq<VectorRecord>, tier2: Tier2Data,
                                 latest: map<string, VectorRecord>)

  datatype CompactStep = WriteStep(r: VectorRecord) | DrainStep(id: string) | SwapStep

  const IDLE := Compactor(map[], [], EMPTY_TIER2, map[])

  function Step(c: Compactor, e: CompactStep): Compactor {
    match e
    case WriteStep(r) => c.(tier1 := c.tier1[r.id := r], latest := c.latest[r.id := r])
    case DrainStep(id) =>
      if id in c.tier1 then c.(tier1 := c.tier1 - {id}, buffer := c.buffer + [c.tier1[id]]) else c
    case SwapStep =>
      if c.buffer == [] then c
      else c.(buffer := [], tier2 := Tier2Data(c.tier2.records + c.buffer, c.tier2.points + VectorsOf(c.buffer), true))
  }

  function Run(c: Compactor, es: seq<CompactStep>): Compactor
    decreases |es|
  {
    if es == [] then c else Run(Step(c, es[0]), es[1..])
  }

  ghost predicate Sound(c: Compactor) {
    && c.tier2.points == VectorsOf(c.tier2.records)
    && KeyedById(c.tier1)
    && c.tier1.Keys <= c.latest.Keys
    && (forall r <- c.tier2.records + c.buffer :: r.id in c.latest)
    && forall id <- c.latest ::
         if id in c.tier1 then c.tier1[id] == c.latest[id]
         else LastWithId(c.tier2.records + c.buffer, id) == Some(c.latest[id])
  }

  lemma DrainKeepsSound(c: Compactor, id: string)
    requires Sound(c) && id in c.tier1
    ensures Sound(Step(c, DrainStep(id)))
  {
    var r, all, c' := c.tier1[id], c.tier2.records + c.buffer, Step(c, DrainStep(id));
    assert c'.tier2.records + c'.buffer == all + [r];
    forall x <- c.latest ensures if x in c'.tier1 then c'.tier1[x] == c.latest[x]
                                 else LastWithId(all + [r], x) == Some(c.latest[x])
    {
      LastWithIdSnoc(all, r, x);
    }
  }

  lemma SwapKeepsSound(c: Compactor)
    requires Sound(c) && c.buffer != []
    ensures Sound(Step(c, SwapStep))
  {
    var records, c' := c.tier2.records + c.buffer, Step(c, SwapStep);
    assert c'.tier2.records + c'.buffer == records;
    assert VectorsOf(records) == VectorsOf(c.tier2.records) + VectorsOf(c.buffer);
  }

  lemma StepKeepsSound(c: Compactor, e: CompactStep)
    requires Sound(c)
    ensures Sound(Step(c, e))
  {
    match e
    case WriteStep(r) =>
    case DrainStep(id) => if id in c.tier1 { DrainKeepsSound(c, id); }
    case SwapStep => if c.buffer != [] { SwapKeepsSound(c); }
  }

  lemma {:induction false} RunKeepsSound(c: Compactor, es: seq<CompactStep>)
    requires Sound(c)
    ensures Sound(Run(c, es))
    decreases |es|
  {
    if es != [] {
      StepKeepsSound(c, es[0]);
      RunKeepsSound(Step(c, es[0]), es[1..]);
    }
  }

  /**
   Whatever the interleaving, the last record written for an id is in tier 1,
   or else is the newest one of that id in the buffer or tier 2; and every
   indexed point is the vector of its record.
   */
  lemma NothingIsLost(es: seq<CompactStep>, id: string)
    ensures var c := Run(IDLE, es);
            c.tier2.points == VectorsOf(c.tier2.records)
            && (id in c.latest ==>
                  if id in c.tier1 then c.tier1[id] == c.latest[id]
                  else LastWithId(c.tier2.records + c.buffer, id) == Some(c.latest[id]))
  {
    RunKeepsSound(IDLE, es);
  }

  ghost predicate ShowsLatest(c: Compactor) {
    forall id :: First(RecordsOf(VectorCollection(c.tier1, c.tier2), id)) == Lookup(c.latest, id)
  }

  /** Of the records that left tier 1, the newest one of `id` is the one tier 2 is asked for. */
  predicate FirstIsNewest(c: Compactor, id: string) {
    FirstWithId(c.tier2.records, id) == LastWithId(c.tier2.records + c.buffer, id)
  }

  /**
   At any moment, in the middle of a compaction too, a lookup finds the last
   record written for every id exactly when for each id outside tier 1 the
   first record of tier 2 is the newest one that left tier 1. A drained record
   that tier 2 lacks, and one that tier 2 holds an older version of, both break it.
   */
  lemma LookupIsLatestIff(es: seq<CompactStep>)
    ensures var c := Run(IDLE, es); ShowsLatest(c) <==> forall id :: id !in c.tier1 ==> FirstIsNewest(c, id)
  {
    var c := Run(IDLE, es);
    RunKeepsSound(IDLE, es);
    forall id ensures First(RecordsOf(VectorCollection(c.tier1, c.tier2), id)) == Lookup(c.latest, id)
                 <==> (id !in c.tier1 ==> FirstIsNewest(c, id))
    {
      LookupIsLatestFor(c, id);
    }
  }

  lemma LookupIsLatestFor(c: Compactor, id: string)
    requires Sound(c)
    ensures First(RecordsOf(VectorCollection(c.tier1, c.tier2), id)) == Lookup(c.latest, id)
       <==> (id !in c.tier1 ==> FirstIsNewest(c, id))
  {
    FirstOfFilter(c.tier2.records, id);
    if id !in c.latest {
      FirstWithIdFinds(c.tier2.records, id);
      LastWithIdFinds(c.tier2.records + c.buffer, id);
    }
  }

  /** Between drain and swap, a record whose write was acknowledged is found by no lookup. */
  lemma DrainedRecordIsInvisible()
    ensures var r := VectorRecord("a", [0.0], map[]);
            var c := Run(IDLE, [WriteStep(r), DrainStep("a")]);
            c.latest == map["a" := r] && First(RecordsOf(VectorCollection(c.tier1, c.tier2), "a")) == None
            && First(RecordsOf(VectorCollection(Step(c, SwapStep).tier1, Step(c, SwapStep).tier2), "a")) == Some(r)
  {
    var r := VectorRecord("a", [0.0], map[]);
    var written := Compactor(map["a" := r], [], EMPTY_TIER2, map["a" := r]);
    var c := Compactor(map[], [r], EMPTY_TIER2, map["a" := r]);
    assert Step(IDLE, WriteStep(r)) == written && Step(written, DrainStep("a")) == c;
    var es := [WriteStep(r), DrainStep("a")];
    assert es[1..] == [DrainStep("a")] && es[1..][1..] == [];
    assert Run(IDLE, es) == Run(written, es[1..]) == Run(c, []);
    assert Step(c, SwapStep).tier2.records == [r] && [r][1..] == [];
  }

  // ---------------------------------------------------------------------
  // A compaction nobody interrupts
  // ---------------------------------------------------------------------

  function DrainSteps(drained: seq<VectorRecord>): seq<CompactStep> {
    seq(|drained|, i requires 0 <= i < |drained| => DrainStep(drained[i].id))
  }

  lemma {:induction false} RunConcat(c: Compactor, a: seq<CompactStep>, b: seq<CompactStep>)
    ensures Run(c, a + b) == Run(Run(c, a), b)
    decreases |a|
  {
    if a == [] {
      assert a + b == b;
    } else {
      TailOfConcat(a, b);
      RunConcat(Step(c, a[0]), a[1..], b);
    }
  }

  lemma DrainOrderTail(tier1: map<string, VectorRecord>, drained: seq<VectorRecord>)
    requires DrainOrder(tier1, drained) && drained != []
    ensures drained[0].id in tier1 && tier1[drained[0].id] == drained[0]
    ensures DrainOrder(tier1 - {drained[0].id}, drained[1..])
  {
    assert drained[0] in drained;
    forall id <- tier1 | id != drained[0].id ensures tier1[id] in drained[1..] {
      var i :| 0 <= i < |drained| && drained[i] == tier1[id];
      assert drained[1..][i - 1] == drained[i];
    }
  }

  lemma DrainStepsTail(drained: seq<VectorRecord>)
    requires drained != []
    ensures DrainSteps(drained)[0] == DrainStep(drained[0].id)
    ensures DrainSteps(drained)[1..] == DrainSteps(drained[1..])
  {
  }

  lemma {:induction false} DrainRun(c: Compactor, drained: seq<VectorRecord>)
    requires DrainOrder(c.tier1, drained)
    ensures Run(c, DrainSteps(drained)) == c.(tier1 := map[], buffer := c.buffer + drained)
    decreases |drained|
  {
    if drained == [] {
      assert c.tier1 == map[] && c.buffer + drained == c.buffer;
    } else {
      DrainOrderTail(c.tier1, drained);
      DrainStepsTail(drained);
      DrainRun(Step(c, DrainStep(drained[0].id)), drained[1..]);
      assert c.buffer + [drained[0]] + drained[1..] == c.buffer + drained;
    }
  }

  /** Draining everything and swapping is the atomic compaction of the collection. */
  lemma UninterruptedCompaction(c: Compactor, drained: seq<VectorRecord>)
    requires c.buffer == [] && DrainOrder(c.tier1, drained)
    ensures var done := Run(c, DrainSteps(drained) + [SwapStep]);
            done.buffer == []
            && VectorCollection(done.tier1, done.tier2) == Compacted(VectorCollection(c.tier1, c.tier2), drained)
  {
    RunConcat(c, DrainSteps(drained), [SwapStep]);
    DrainRun(c, drained);
    var mid := Run(c, DrainSteps(drained));
    assert [SwapStep][1..] == [];
    assert Run(mid, [SwapStep]) == Step(mid, SwapStep);
    assert [] + drained == drained;
  }
}
