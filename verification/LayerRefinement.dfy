/**
 The layered store as a plain map.

 `remember`, `forget`, `spawn_cow_child` and compaction (src/memory.rs) are
 given as functions on stacks of layers, and compared with a plain map of the
 records a collection should show.
 */
module LayerRefinement {
  import opened Wrappers
  import opened VectorRecall
  import opened RecallProperties

  type Stack = s: seq<Layer> | s != [] witness [EMPTY_LAYER]

  // ---------------------------------------------------------------------
  // Operations
  // ---------------------------------------------------------------------

  function RememberIn(l: Layer, name: string, r: VectorRecord): Layer {
    var col := CollectionOf(l, name);
    Layer(l.tombstones - {r.id}, l.collections[name := col.(tier1 := col.tier1[r.id := r])])
  }

  function Remember(st: Stack, name: string, r: VectorRecord): Stack {
    [RememberIn(st[0], name, r)] + st[1..]
  }

  function Forget(st: Stack, id: string): Stack {
    [st[0].(tombstones := st[0].tombstones + {id})] + st[1..]
  }

  /** Freezing the active layer leaves parent and child with a fresh one above it. */
  function Spawn(st: Stack): Stack {
    [EMPTY_LAYER] + st
  }

  /** Tier 1 emptied into tier 2, in the order `drained`. */
  function Compacted(col: VectorCollection, drained: seq<VectorRecord>): VectorCollection {
    if drained == [] then col.(tier1 := map[])
    else VectorCollection(map[], Tier2Data(col.tier2.records + drained,
                                           col.tier2.points + VectorsOf(drained), true))
  }

  function VectorsOf(records: seq<VectorRecord>): seq<Vector> {
    seq(|records|, i requires 0 <= i < |records| => records[i].vector)
  }

  /** `drained` lists the tier-1 records, each once. */
  ghost predicate DrainOrder(tier1: map<string, VectorRecord>, drained: seq<VectorRecord>) {
    && KeyedById(tier1)
    && DistinctRecords(drained)
    && (forall r <- drained :: r.id in tier1 && tier1[r.id] == r)
    && (forall id <- tier1 :: tier1[id] in drained)
  }

  function CompactLayer(st: seq<Layer>, k: nat, name: string, drained: seq<VectorRecord>): (r: seq<Layer>)
    requires k < |st|
    ensures |r| == |st|
  {
    st[k := st[k].(collections := st[k].collections[name := Compacted(CollectionOf(st[k], name), drained)])]
  }

  // ---------------------------------------------------------------------
  // The records a stack shows
  // ---------------------------------------------------------------------

  function FilterId(records: seq<VectorRecord>, id: string): seq<VectorRecord> {
    if records == [] then []
    else (if records[0].id == id then [records[0]] else []) + FilterId(records[1..], id)
  }

  function RecordsOf(col: VectorCollection, id: string): seq<VectorRecord> {
    (if id in col.tier1 then [col.tier1[id]] else []) + FilterId(col.tier2.records, id)
  }

  /** Every stored version of `id` that no tombstone hides, newest first. */
  function VisibleRecords(st: seq<Layer>, name: string, id: string): seq<VectorRecord> {
    if st == [] || id in st[0].tombstones then []
    else RecordsOf(CollectionOf(st[0], name), id) + VisibleRecords(st[1..], name, id)
  }

  function First<T>(s: seq<T>): Option<T> {
    if s == [] then None else Some(s[0])
  }

  /** The version of `id` the store holds now. */
  function Current(st: seq<Layer>, name: string, id: string): Option<VectorRecord> {
    First(VisibleRecords(st, name, id))
  }

  function Lookup(m: map<string, VectorRecord>, id: string): Option<VectorRecord> {
    if id in m then Some(m[id]) else None
  }

  // ---------------------------------------------------------------------
  // Compaction
  // ---------------------------------------------------------------------

  /** The newest compacted version of an id: the last one appended. */
  function LastWithId(records: seq<VectorRecord>, id: string): Option<VectorRecord> {
    if records == [] then None
    else if records[|records| - 1].id == id then Some(records[|records| - 1])
    else LastWithId(records[..|records| - 1], id)
  }

  lemma LastWithIdSnoc(records: seq<VectorRecord>, r: VectorRecord, id: string)
    ensures LastWithId(records + [r], id) == if r.id == id then Some(r) else LastWithId(records, id)
  {
    assert (records + [r])[..|records|] == records;
  }

  lemma {:induction false} LastWithIdFinds(records: seq<VectorRecord>, id: string)
    ensures var r := LastWithId(records, id);
            if r.Some? then r.value in records && r.value.id == id else forall x <- records :: x.id != id
  {
    if records != [] {
      var init := records[..|records| - 1];
      LastWithIdFinds(init, id);
      assert forall x <- records :: x == records[|records| - 1] || x in init;
    }
  }

  lemma {:induction false} LastWithIdConcat(a: seq<VectorRecord>, b: seq<VectorRecord>, id: string)
    ensures LastWithId(a + b, id) == if LastWithId(b, id).Some? then LastWithId(b, id) else LastWithId(a, id)
  {
    if b == [] {
      assert a + b == a;
    } else {
      var init, last := b[..|b| - 1], b[|b| - 1];
      LastWithIdConcat(a, init, id);
      LastWithIdSnoc(a + init, last, id);
      assert a + b == a + init + [last];
    }
  }

  /** Draining puts the tier-1 version of an id, if there is one, last. */
  lemma LastOfDrained(records: seq<VectorRecord>, tier1: map<string, VectorRecord>, drained: seq<VectorRecord>,
                      id: string)
    requires DrainOrder(tier1, drained)
    ensures LastWithId(records + drained, id) == if id in tier1 then Some(tier1[id]) else LastWithId(records, id)
  {
    LastWithIdConcat(records, drained, id);
    LastWithIdFinds(drained, id);
  }

  /** One version of each id, though perhaps several times. */
  ghost predicate OneVersionEach(records: seq<VectorRecord>) {
    forall r <- records, s <- records :: r.id == s.id ==> r == s
  }

  /** Tier 2 has no other version of a tier-1 id. */
  ghost predicate FreshIds(col: VectorCollection) {
    forall r <- col.tier2.records :: r.id in col.tier1 ==> r == col.tier1[r.id]
  }

  /** The tier-1 version of `id` would end up behind a different one. */
  predicate Stale(col: VectorCollection, id: string) {
    id in col.tier1 && FirstWithId(col.tier2.records, id) !in {None, Some(col.tier1[id])}
  }

  /** No tier-1 id has an older version in tier 2 that a lookup would find first. */
  ghost predicate CompactionSafe(col: VectorCollection) {
    forall id <- col.tier1 :: !Stale(col, id)
  }

  lemma {:induction false} FilterIdConcat(a: seq<VectorRecord>, b: seq<VectorRecord>, id: string)
    ensures FilterId(a + b, id) == FilterId(a, id) + FilterId(b, id)
  {
    if a == [] {
      assert a + b == b;
    } else {
      TailOfConcat(a, b);
      FilterIdConcat(a[1..], b, id);
      ConcatAssociates(if a[0].id == id then [a[0]] else [], FilterId(a[1..], id), FilterId(b, id));
    }
  }

  lemma {:induction false} FirstOfFilter(records: seq<VectorRecord>, id: string)
    ensures First(FilterId(records, id)) == FirstWithId(records, id)
  {
    if records != [] {
      FirstOfFilter(records[1..], id);
    }
  }

  lemma {:induction false} FilterDistinct(drained: seq<VectorRecord>, id: string)
    requires DistinctRecords(drained)
    ensures forall r <- drained :: r.id == id ==> FilterId(drained, id) == [r]
    ensures (forall r <- drained :: r.id != id) ==> FilterId(drained, id) == []
  {
    if drained != [] {
      assert drained[0] in drained;
      FilterDistinct(drained[1..], id);
      assert forall r <- drained[1..] :: r.id != drained[0].id;
      assert forall r <- drained :: r == drained[0] || r in drained[1..];
    }
  }

  lemma CompactedRecords(col: VectorCollection, drained: seq<VectorRecord>, id: string)
    requires DrainOrder(col.tier1, drained)
    ensures RecordsOf(Compacted(col, drained), id)
         == FilterId(col.tier2.records, id) + (if id in col.tier1 then [col.tier1[id]] else [])
  {
    FilterIdConcat(col.tier2.records, drained, id);
    FilterDistinct(drained, id);
    if id in col.tier1 {
      assert col.tier1[id] in drained;
    }
  }

  /** Two compactions of one id leave the older record in front: recall then returns the stale one. */
  lemma StaleAfterSecondCompaction()
    ensures var older, newer := VectorRecord("a", [0.0], map[]), VectorRecord("a", [1.0], map[]);
            var once := Compacted(VectorCollection(map["a" := older], EMPTY_TIER2), [older]);
            var again := once.(tier1 := map["a" := newer]);
            First(RecordsOf(again, "a")) == Some(newer)
            && First(RecordsOf(Compacted(again, [newer]), "a")) == Some(older)
  {
    var older, newer := VectorRecord("a", [0.0], map[]), VectorRecord("a", [1.0], map[]);
    var once := Compacted(VectorCollection(map["a" := older], EMPTY_TIER2), [older]);
    assert once.tier2.records == [older];
    assert FilterId([older, newer], "a")[0] == older;
    assert Compacted(once.(tier1 := map["a" := newer]), [newer]).tier2.records == [older, newer];
  }

  lemma FirstOfConcat<T>(a: seq<T>, b: seq<T>)
    ensures First(a + b) == if a == [] then First(b) else First(a)
  {
  }

  /** Layer `k` deletes `id`, or a newer layer deletes or holds it. */
  predicate Masked(st: seq<Layer>, k: nat, name: string, id: string)
    requires k < |st|
  {
    id in st[0].tombstones
    || (k > 0 && (RecordsOf(CollectionOf(st[0], name), id) != [] || Masked(st[1..], k - 1, name, id)))
  }

  lemma CompactedFirst(col: VectorCollection, drained: seq<VectorRecord>, id: string)
    requires DrainOrder(col.tier1, drained)
    ensures First(RecordsOf(Compacted(col, drained), id)) == First(RecordsOf(col, id)) <==> !Stale(col, id)
    ensures RecordsOf(Compacted(col, drained), id) == [] <==> RecordsOf(col, id) == []
  {
    CompactedRecords(col, drained, id);
    FirstOfFilter(col.tier2.records, id);
  }

  /** Compaction keeps what every lookup by id finds exactly when it is safe. */
  lemma CompactionKeepsCurrentIff(col: VectorCollection, drained: seq<VectorRecord>)
    requires DrainOrder(col.tier1, drained)
    ensures (forall id :: First(RecordsOf(Compacted(col, drained), id)) == First(RecordsOf(col, id)))
       <==> CompactionSafe(col)
  {
    forall id ensures First(RecordsOf(Compacted(col, drained), id)) == First(RecordsOf(col, id)) <==> !Stale(col, id) {
      CompactedFirst(col, drained, id);
    }
  }

  /** Compacting any layer changes what the stack shows of `id` exactly when `id` is stale there and unmasked. */
  lemma {:induction false} CompactionKeepsStackViewIff(st: seq<Layer>, k: nat, name: string, drained: seq<VectorRecord>,
                                                       id: string)
    requires k < |st| && DrainOrder(CollectionOf(st[k], name).tier1, drained)
    ensures Current(CompactLayer(st, k, name, drained), name, id) == Current(st, name, id)
       <==> (Stale(CollectionOf(st[k], name), id) ==> Masked(st, k, name, id))
  {
    var st' := CompactLayer(st, k, name, drained);
    var col := CollectionOf(st[0], name);
    FirstOfConcat(RecordsOf(col, id), VisibleRecords(st[1..], name, id));
    FirstOfConcat(RecordsOf(CollectionOf(st'[0], name), id), VisibleRecords(st'[1..], name, id));
    if k == 0 {
      assert st'[1..] == st[1..];
      CompactedFirst(col, drained, id);
    } else {
      assert st'[1..] == CompactLayer(st[1..], k - 1, name, drained);
      CompactionKeepsStackViewIff(st[1..], k - 1, name, drained, id);
    }
  }

  // ---------------------------------------------------------------------
  // A plain map as reference
  // ---------------------------------------------------------------------

  ghost predicate Shows(st: seq<Layer>, name: string, m: map<string, VectorRecord>) {
    forall id :: Current(st, name, id) == Lookup(m, id)
  }

  /** Just after a fork, parent and child both show what the parent showed. */
  lemma SpawnShows(st: Stack, name: string, id: string)
    ensures VisibleRecords(Spawn(st), name, id) == VisibleRecords(st, name, id)
  {
    assert Spawn(st)[1..] == st;
    assert RecordsOf(EMPTY_COLLECTION, id) == [];
  }

  // ---------------------------------------------------------------------
  // Recall on the refined store
  // ---------------------------------------------------------------------

  /** Where tier 2 has an index, its answer gives each id the version a scan would. */
  ghost predicate IndexesAgree(q: SearchQuery, st: seq<Layer>, answers: seq<seq<IndexHit>>)
    requires |answers| == |st|
  {
    forall k :: 0 <= k < |st| ==>
      var t2 := CollectionOf(st[k], q.collection).tier2;
      forall id :: First(WithId(Tier2Candidates(q, t2, answers[k]), id))
                == First(ScanCandidates(q, FilterId(t2.records, id)))
  }

  /** The minimum score admits every version the store can show. */
  ghost predicate AllPass(q: SearchQuery, ps: seq<Probe>) {
    forall id :: forall s <- Visible(q, ps, id) :: s.score >= q.minScore
  }

  lemma IndexesAgreeBelow(q: SearchQuery, st: seq<Layer>, answers: seq<seq<IndexHit>>)
    requires |answers| == |st| && st != [] && IndexesAgree(q, st, answers)
    ensures IndexesAgree(q, st[1..], answers[1..])
  {
    forall k | 0 <= k < |st| - 1
      ensures var t2 := CollectionOf(st[1..][k], q.collection).tier2;
              forall x :: First(WithId(Tier2Candidates(q, t2, answers[1..][k]), x))
                       == First(ScanCandidates(q, FilterId(t2.records, x)))
    {
      assert st[1..][k] == st[k + 1] && answers[1..][k] == answers[k + 1];
    }
  }

  /** One layer offers a query the version of `id` that a lookup finds in it. */
  lemma LayerOffersCurrent(q: SearchQuery, l: Layer, answer: seq<IndexHit>, id: string)
    requires IndexesAgree(q, [l], [answer])
    ensures First(Versions(q, ProbeLayer(q, l, answer), id))
         == match First(RecordsOf(CollectionOf(l, q.collection), id))
            case Some(r) => Some(ScoreOf(q, r))
            case None => None
  {
    var col := CollectionOf([l][0], q.collection);
    assert First(WithId(Tier2Candidates(q, col.tier2, [answer][0]), id))
        == First(ScanCandidates(q, FilterId(col.tier2.records, id)));
  }

  lemma {:induction false} WinnerIsCurrent(q: SearchQuery, st: seq<Layer>, answers: seq<seq<IndexHit>>, id: string)
    requires |answers| == |st| && IndexesAgree(q, st, answers)
    ensures First(Visible(q, ProbeStack(q, st, answers), id))
         == match Current(st, q.collection, id) case Some(r) => Some(ScoreOf(q, r)) case None => None
  {
    if st != [] && id !in st[0].tombstones {
      var ps := ProbeStack(q, st, answers);
      assert ps[1..] == ProbeStack(q, st[1..], answers[1..]);
      IndexesAgreeBelow(q, st, answers);
      WinnerIsCurrent(q, st[1..], answers[1..], id);
      LayerOffersCurrent(q, st[0], answers[0], id);
      FirstOfConcat(Versions(q, ps[0], id), Visible(q, ps[1..], id));
      FirstOfConcat(RecordsOf(CollectionOf(st[0], q.collection), id), VisibleRecords(st[1..], q.collection, id));
    }
  }

  lemma WinnersAreTheMap(q: SearchQuery, st: seq<Layer>, answers: seq<seq<IndexHit>>, m: map<string, VectorRecord>,
                         id: string)
    requires |answers| == |st| && IndexesAgree(q, st, answers) && Shows(st, q.collection, m)
    requires AllPass(q, ProbeStack(q, st, answers))
    ensures Winner(q, ProbeStack(q, st, answers), id) == if id in m then Some(ScoreOf(q, m[id])) else None
  {
    WinnerIsCurrent(q, st, answers, id);
    assert Current(st, q.collection, id) == Lookup(m, id);
  }

  /**
   A recall that admits every version and has room for every id returns the
   plain map: each of its entries once, and nothing else.
   */
  lemma RecallReturnsTheMap(q: SearchQuery, st: seq<Layer>, answers: seq<seq<IndexHit>>,
                            m: map<string, VectorRecord>, out: seq<SearchResult>)
    requires |answers| == |st| && IndexesAgree(q, st, answers) && Shows(st, q.collection, m) && KeyedById(m)
    requires AllPass(q, ProbeStack(q, st, answers)) && |m| <= q.limit
    requires IsTop(q, ProbeStack(q, st, answers), out)
    ensures |out| == |m| && ResultIds(out) == m.Keys
    ensures forall r <- out ::
              r.id in m && r.metadata == m[r.id].metadata && r.score == q.similarity(m[r.id].vector)
  {
    forall id { WinnersAreTheMap(q, st, answers, m, id); }
    ResultsCoverTheMap(q, ProbeStack(q, st, answers), m, out);
  }

  lemma ResultsCoverTheMap(q: SearchQuery, ps: seq<Probe>, m: map<string, VectorRecord>, out: seq<SearchResult>)
    requires forall id :: Winner(q, ps, id) == if id in m then Some(ScoreOf(q, m[id])) else None
    requires KeyedById(m) && |m| <= q.limit && IsTop(q, ps, out)
    ensures |out| == |m| && ResultIds(out) == m.Keys
    ensures forall r <- out ::
              r.id in m && r.metadata == m[r.id].metadata && r.score == q.similarity(m[r.id].vector)
  {
    assert |m| == |m.Keys|;
    forall r <- out ensures r.id in m {
      assert Winner(q, ps, r.id).Some?;
    }
    assert ResultIds(out) <= m.Keys;
    FullOrComplete(q, ps, m, out);
    DistinctResultCount(out);
    SmallerSet(ResultIds(out), m.Keys);
    assert m.Keys <= ResultIds(out) ==> ResultIds(out) == m.Keys;
  }

  lemma FullOrComplete(q: SearchQuery, ps: seq<Probe>, m: map<string, VectorRecord>, out: seq<SearchResult>)
    requires forall id <- m :: Winner(q, ps, id).Some?
    requires |m| <= q.limit && IsTop(q, ps, out)
    ensures m.Keys <= ResultIds(out) || |out| >= |m|
  {
    forall id <- m ensures id in ResultIds(out) || |out| == q.limit {
      assert Winner(q, ps, id).Some?;
    }
  }

  /** The record is stored under that id in layer `k`, and neither that layer nor a newer one deletes the id. */
  ghost predicate StoredAt(st: seq<Layer>, name: string, id: string, k: nat, r: VectorRecord) {
    && k < |st| && r in RecordsOf(CollectionOf(st[k], name), id)
    && forall j :: 0 <= j <= k ==> id !in st[j].tombstones
  }

  lemma {:induction false} IndexedRecords(records: seq<VectorRecord>, hits: seq<IndexHit>)
    ensures forall s <- IndexCandidates(records, hits) :: s.record in FilterId(records, s.record.id)
  {
    if hits != [] {
      IndexedRecords(records, hits[1..]);
      FirstOfFilter(records, hits[0].id);
      FirstWithIdFinds(records, hits[0].id);
    }
  }

  lemma {:induction false} FilterIdHas(records: seq<VectorRecord>, r: VectorRecord)
    ensures r in FilterId(records, r.id) <==> r in records
  {
    if records != [] {
      FilterIdHas(records[1..], r);
    }
  }

  lemma VersionIsStored(q: SearchQuery, l: Layer, hits: seq<IndexHit>, id: string, s: Scored)
    requires s in Versions(q, ProbeLayer(q, l, hits), id)
    ensures s.record in RecordsOf(CollectionOf(l, q.collection), id)
    ensures s.score == q.similarity(s.record.vector) || CollectionOf(l, q.collection).tier2.indexed
  {
    var col := CollectionOf(l, q.collection);
    if id !in col.tier1 || s != ScoreOf(q, col.tier1[id]) {
      WithIdKeepsId(Tier2Candidates(q, col.tier2, hits), id);
      if col.tier2.indexed {
        IndexedRecords(col.tier2.records, Fetched(q, hits));
      } else {
        FilterIdHas(col.tier2.records, s.record);
      }
    }
  }

  /**
   A result tells of a record that some layer stores under that id, undeleted
   there and above: it has that record's metadata and, unless an index gave the
   score, that record's similarity.
   */
  lemma ResultsAreStored(q: SearchQuery, st: seq<Layer>, answers: seq<seq<IndexHit>>, out: seq<SearchResult>,
                         r: SearchResult)
    requires |answers| == |st| && IsTop(q, ProbeStack(q, st, answers), out) && r in out
    ensures r.score >= q.minScore
    ensures exists k: nat, rec: VectorRecord ::
              && StoredAt(st, q.collection, r.id, k, rec) && r.metadata == rec.metadata
              && (r.score == q.similarity(rec.vector) || CollectionOf(st[k], q.collection).tier2.indexed)
  {
    var ps := ProbeStack(q, st, answers);
    ResultsAreAdmissible(q, ps, out, r);
    var k: nat, s: Scored :| WonAt(q, ps, r.id, k, s) && s in Versions(q, ps[k], r.id)
      && r.score == s.score && r.metadata == s.record.metadata;
    VersionIsStored(q, st[k], answers[k], r.id, s);
    forall j | 0 <= j <= k ensures r.id !in st[j].tombstones {
      assert r.id !in ps[j].tombstones;
    }
    assert StoredAt(st, q.collection, r.id, k, s.record);
  }

  // ---------------------------------------------------------------------
  // Where the code departs from the plain map
  // ---------------------------------------------------------------------

  function IsOne(v: Vector): real {
    if v == [1.0] then 1.0 else 0.0
  }

  /**
   Tombstones name ids, not collections. Remembering `r` in another collection
   leaves what `name` shows alone exactly when no deleted record comes back.
   */
  lemma RememberElsewhereIff(st: Stack, name: string, other: string, r: VectorRecord)
    requires name != other
    ensures (forall id :: Current(Remember(st, other, r), name, id) == Current(st, name, id))
       <==> (r.id in st[0].tombstones ==>
               RecordsOf(CollectionOf(st[0], name), r.id) == [] && Current(st[1..], name, r.id).None?)
  {
    var st' := Remember(st, other, r);
    assert st'[1..] == st[1..];
    forall id ensures Current(st', name, id) == Current(st, name, id)
                 <==> (id == r.id && id in st[0].tombstones ==>
                         RecordsOf(CollectionOf(st[0], name), id) == [] && Current(st[1..], name, id).None?)
    {
      assert CollectionOf(st'[0], name) == CollectionOf(st[0], name);
      FirstOfConcat(RecordsOf(CollectionOf(st[0], name), id), VisibleRecords(st[1..], name, id));
    }
  }

  /** Deleted from one collection, written to another: the deleted record is back. */
  lemma RevivedThroughAnotherCollection()
    ensures var r := VectorRecord("a", [0.0], map[]);
            var deleted := Forget(Remember([EMPTY_LAYER], "c", r), "a");
            Current(deleted, "c", "a") == None && Current(Remember(deleted, "d", r), "c", "a") == Some(r)
  {
    var r := VectorRecord("a", [0.0], map[]);
    var deleted := Forget(Remember([EMPTY_LAYER], "c", r), "a");
    var l := Remember(deleted, "d", r)[0];
    assert l.tombstones == {} && CollectionOf(l, "c").tier1 == map["a" := r];
    assert RecordsOf(CollectionOf(l, "c"), "a")[0] == r;
  }
}
