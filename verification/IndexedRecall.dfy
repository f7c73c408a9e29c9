/**
 What a query gets through the indexes (src/memory.rs). A compaction always
 leaves an index, so a tier 2 with records in it is never scanned. An index hit
 has the score of any stored version of an id but is answered with the record of
 the first one, so the two can differ.
 */
module IndexedRecall {
  import opened Wrappers
  import opened VectorRecall
  import opened RecallProperties
  import opened LayerRefinement

  // ---------------------------------------------------------------------
  // An exact index
  // ---------------------------------------------------------------------

  function HitOf(q: SearchQuery, r: VectorRecord): IndexHit {
    IndexHit(r.id, q.similarity(r.vector))
  }

  function AllHits(q: SearchQuery, records: seq<VectorRecord>): seq<IndexHit> {
    seq(|records|, i requires 0 <= i < |records| => HitOf(q, records[i]))
  }

  /** Every point once, nearest first; an id may occur several times. */
  ghost predicate ExactIndex(q: SearchQuery, records: seq<VectorRecord>, hits: seq<IndexHit>) {
    && (forall i, j :: 0 <= i < j < |hits| ==> hits[i].score >= hits[j].score)
    && multiset(hits) == multiset(AllHits(q, records))
  }

  function HitsOf(hits: seq<IndexHit>, id: string): seq<IndexHit> {
    if hits == [] then []
    else (if hits[0].id == id then [hits[0]] else []) + HitsOf(hits[1..], id)
  }

  lemma {:induction false} HitsOfIs(hits: seq<IndexHit>, id: string)
    ensures forall h :: h in HitsOf(hits, id) <==> h in hits && h.id == id
    ensures (forall i, j :: 0 <= i < j < |hits| ==> hits[i].score >= hits[j].score) ==>
              forall h <- HitsOf(hits, id) :: h.score <= HitsOf(hits, id)[0].score
  {
    if hits != [] {
      HitsOfIs(hits[1..], id);
      assert forall h :: h in hits <==> h == hits[0] || h in hits[1..];
      if HitsOf(hits, id) != [] && hits[0].id != id {
        assert HitsOf(hits, id) == HitsOf(hits[1..], id);
      }
    }
  }

  /** The hits of an id, answered with one record. */
  function Answered(hits: seq<IndexHit>, r: VectorRecord): seq<Scored> {
    seq(|hits|, i requires 0 <= i < |hits| => Scored(hits[i].score, r))
  }

  lemma WithIdCons(s: Scored, vs: seq<Scored>, id: string)
    ensures WithId([s] + vs, id) == (if s.record.id == id then [s] else []) + WithId(vs, id)
  {
    assert ([s] + vs)[1..] == vs;
  }

  lemma AnsweredCons(h: IndexHit, hits: seq<IndexHit>, r: VectorRecord)
    ensures Answered([h] + hits, r) == [Scored(h.score, r)] + Answered(hits, r)
  {
  }

  lemma {:induction false} CandidatesOfId(records: seq<VectorRecord>, hits: seq<IndexHit>, id: string)
    ensures WithId(IndexCandidates(records, hits), id)
         == match FirstWithId(records, id) case Some(r) => Answered(HitsOf(hits, id), r) case None => []
  {
    if hits != [] {
      CandidatesOfId(records, hits[1..], id);
      FirstWithIdFinds(records, hits[0].id);
      match FirstWithId(records, hits[0].id)
      case Some(r) =>
        WithIdCons(Scored(hits[0].score, r), IndexCandidates(records, hits[1..]), id);
        AnsweredCons(hits[0], HitsOf(hits[1..], id), r);
      case None =>
    }
  }

  /** The best score among versions. */
  function Best(q: SearchQuery, vs: seq<VectorRecord>): real
    requires vs != []
  {
    var first := q.similarity(vs[0].vector);
    if |vs| == 1 || first >= Best(q, vs[1..]) then first else Best(q, vs[1..])
  }

  lemma {:induction false} BestIs(q: SearchQuery, vs: seq<VectorRecord>)
    requires vs != []
    ensures exists r <- vs :: q.similarity(r.vector) == Best(q, vs)
    ensures forall r <- vs :: q.similarity(r.vector) <= Best(q, vs)
  {
    if |vs| > 1 {
      BestIs(q, vs[1..]);
      var r :| r in vs[1..] && q.similarity(r.vector) == Best(q, vs[1..]);
      assert vs[0] in vs && r in vs;
      assert forall x <- vs :: x == vs[0] || x in vs[1..];
    } else {
      assert vs[0] in vs;
    }
  }

  /** The best score of the id's versions, with the record of the first one. */
  function IndexOffer(q: SearchQuery, records: seq<VectorRecord>, id: string): Option<Scored> {
    var vs := FilterId(records, id);
    if vs == [] || Best(q, vs) < q.minScore then None else Some(Scored(Best(q, vs), vs[0]))
  }

  lemma {:induction false} FilterIdIs(records: seq<VectorRecord>, id: string)
    ensures forall r :: r in FilterId(records, id) <==> r in records && r.id == id
  {
    if records != [] {
      FilterIdIs(records[1..], id);
      assert forall r :: r in records <==> r == records[0] || r in records[1..];
    }
  }

  lemma FirstHitIsBest(q: SearchQuery, records: seq<VectorRecord>, hits: seq<IndexHit>, id: string)
    requires ExactIndex(q, records, hits) && FilterId(records, id) != []
    ensures HitsOf(hits, id) != [] && HitsOf(hits, id)[0].score == Best(q, FilterId(records, id))
  {
    var vs, xs, all := FilterId(records, id), HitsOf(hits, id), AllHits(q, records);
    HitsOfIs(hits, id);
    FilterIdIs(records, id);
    BestIs(q, vs);
    var r :| r in vs && q.similarity(r.vector) == Best(q, vs);
    var k :| 0 <= k < |records| && records[k] == r;
    assert all[k] == HitOf(q, r) && HitOf(q, r) in multiset(all);
    assert HitOf(q, r) in xs;
    assert xs[0] in multiset(hits);
    assert xs[0] in all;
    var l :| 0 <= l < |all| && all[l] == xs[0];
    assert records[l] in vs;
  }

  /** Through an exact index, tier 2 offers an id at its best version's score, with its first version's record. */
  lemma IndexOffers(q: SearchQuery, records: seq<VectorRecord>, hits: seq<IndexHit>, id: string)
    requires ExactIndex(q, records, hits)
    ensures FirstPassing(q, WithId(IndexCandidates(records, hits), id)) == IndexOffer(q, records, id)
  {
    CandidatesOfId(records, hits, id);
    FirstOfFilter(records, id);
    if FilterId(records, id) != [] {
      FirstHitIsBest(q, records, hits, id);
      HitsOfIs(hits, id);
      var out := Answered(HitsOf(hits, id), FilterId(records, id)[0]);
      FirstPassingIn(q, out);
      assert forall s <- out :: s.score <= out[0].score;
      assert out[0] in out;
    }
  }

  // ---------------------------------------------------------------------
  // A stack whose tier 2s are indexed
  // ---------------------------------------------------------------------

  /** A tier 2 that holds records has an index, as every compaction leaves it. */
  predicate HasIndex(col: VectorCollection) {
    col.tier2.records != [] ==> col.tier2.indexed
  }

  /** The layer's index, if any, answers exactly and is asked for enough. */
  ghost predicate AnswersExactly(q: SearchQuery, col: VectorCollection, answer: seq<IndexHit>) {
    col.tier2.indexed ==> ExactIndex(q, col.tier2.records, answer) && |col.tier2.records| <= FetchCount(q.limit)
  }

  ghost predicate ExactLayer(q: SearchQuery, col: VectorCollection, answer: seq<IndexHit>) {
    HasIndex(col) && AnswersExactly(q, col, answer)
  }

  ghost predicate ExactStack(q: SearchQuery, st: seq<Layer>, answers: seq<seq<IndexHit>>) {
    |answers| == |st| && forall k :: 0 <= k < |st| ==> ExactLayer(q, CollectionOf(st[k], q.collection), answers[k])
  }

  /** What one layer offers a query of an id. */
  function Offer(q: SearchQuery, col: VectorCollection, id: string): Option<Scored> {
    if id in col.tier1 && Passes(q, ScoreOf(q, col.tier1[id])) then Some(ScoreOf(q, col.tier1[id]))
    else IndexOffer(q, col.tier2.records, id)
  }

  function StackOffer(q: SearchQuery, st: seq<Layer>, id: string): Option<Scored> {
    if st == [] || id in st[0].tombstones then None
    else
      var here := Offer(q, CollectionOf(st[0], q.collection), id);
      if here.Some? then here else StackOffer(q, st[1..], id)
  }

  lemma LayerOffers(q: SearchQuery, l: Layer, answer: seq<IndexHit>, id: string)
    requires ExactLayer(q, CollectionOf(l, q.collection), answer)
    ensures FirstPassing(q, Versions(q, ProbeLayer(q, l, answer), id)) == Offer(q, CollectionOf(l, q.collection), id)
  {
    var col := CollectionOf(l, q.collection);
    var candidates := Tier2Candidates(q, col.tier2, answer);
    FirstPassingConcat(q, if id in col.tier1 then [ScoreOf(q, col.tier1[id])] else [], WithId(candidates, id));
    if col.tier2.indexed {
      assert |answer| == |multiset(answer)| == |AllHits(q, col.tier2.records)|;
      IndexOffers(q, col.tier2.records, answer, id);
    } else {
      assert WithId(candidates, id) == [];
    }
    assert id in col.tier1 ==> [ScoreOf(q, col.tier1[id])][1..] == [];
  }

  /** The answer to a query depends on the stack alone, not on what the exact indexes list first. */
  lemma {:induction false} WinnerIsOffer(q: SearchQuery, st: seq<Layer>, answers: seq<seq<IndexHit>>, id: string)
    requires ExactStack(q, st, answers)
    ensures Winner(q, ProbeStack(q, st, answers), id) == StackOffer(q, st, id)
  {
    if st != [] && id !in st[0].tombstones {
      var ps := ProbeStack(q, st, answers);
      assert ps[1..] == ProbeStack(q, st[1..], answers[1..]);
      ExactBelow(q, st, answers);
      WinnerIsOffer(q, st[1..], answers[1..], id);
      LayerOffers(q, st[0], answers[0], id);
      FirstPassingConcat(q, Versions(q, ps[0], id), Visible(q, ps[1..], id));
    }
  }

  lemma ExactBelow(q: SearchQuery, st: seq<Layer>, answers: seq<seq<IndexHit>>)
    requires ExactStack(q, st, answers) && st != []
    ensures ExactLayer(q, CollectionOf(st[0], q.collection), answers[0]) && ExactStack(q, st[1..], answers[1..])
  {
    assert forall k :: 0 <= k < |st| - 1 ==> st[1..][k] == st[k + 1] && answers[1..][k] == answers[k + 1];
  }

  // ---------------------------------------------------------------------
  // The current version of an id, and the one a query gets
  // ---------------------------------------------------------------------

  /** The layer where the current version of an id is found. */
  function CurrentLayer(st: seq<Layer>, name: string, id: string): VectorCollection {
    if st == [] || id in st[0].tombstones then EMPTY_COLLECTION
    else if RecordsOf(CollectionOf(st[0], name), id) != [] then CollectionOf(st[0], name)
    else CurrentLayer(st[1..], name, id)
  }

  /** Another version of the id, indexed with the current one, scores higher. */
  ghost predicate Outscored(q: SearchQuery, st: seq<Layer>, id: string) {
    var col, current := CurrentLayer(st, q.collection, id), Current(st, q.collection, id);
    && current.Some? && id !in col.tier1
    && exists r <- FilterId(col.tier2.records, id) :: q.similarity(r.vector) > q.similarity(current.value.vector)
  }

  /** What a query should get of an id: its current version with that version's score, if it passes. */
  function Wanted(q: SearchQuery, st: seq<Layer>, id: string): Option<Scored> {
    var current := Current(st, q.collection, id);
    if current.Some? && Passes(q, ScoreOf(q, current.value)) then Some(ScoreOf(q, current.value)) else None
  }

  /** Nothing visible of the id passes. */
  ghost predicate AllRejected(q: SearchQuery, st: seq<Layer>, id: string) {
    forall r <- VisibleRecords(st, q.collection, id) :: !Passes(q, ScoreOf(q, r))
  }

  /** The current version passes but is outscored, or is rejected while another stored, undeleted version passes. */
  ghost predicate Misled(q: SearchQuery, st: seq<Layer>, id: string) {
    && Current(st, q.collection, id).Some?
    && if Passes(q, ScoreOf(q, Current(st, q.collection, id).value)) then Outscored(q, st, id)
       else !AllRejected(q, st, id)
  }

  lemma OfferNoneIff(q: SearchQuery, col: VectorCollection, id: string)
    ensures Offer(q, col, id).None? <==> forall r <- RecordsOf(col, id) :: !Passes(q, ScoreOf(q, r))
  {
    var vs := FilterId(col.tier2.records, id);
    if vs != [] {
      BestIs(q, vs);
    }
    assert forall r :: r in RecordsOf(col, id) <==> (id in col.tier1 && r == col.tier1[id]) || r in vs;
  }

  lemma {:induction false} StackOfferNoneIff(q: SearchQuery, st: seq<Layer>, id: string)
    ensures StackOffer(q, st, id).None? <==> AllRejected(q, st, id)
  {
    if st != [] && id !in st[0].tombstones {
      OfferNoneIff(q, CollectionOf(st[0], q.collection), id);
      StackOfferNoneIff(q, st[1..], id);
      var here, below := RecordsOf(CollectionOf(st[0], q.collection), id), VisibleRecords(st[1..], q.collection, id);
      assert forall r :: r in here + below <==> r in here || r in below;
    }
  }

  /** In the layer that holds the current version, that version is offered, with its score, unless it is outscored. */
  lemma OfferIsCurrentIff(q: SearchQuery, col: VectorCollection, id: string)
    requires RecordsOf(col, id) != [] && Passes(q, ScoreOf(q, RecordsOf(col, id)[0]))
    ensures Offer(q, col, id).Some?
    ensures Offer(q, col, id) == Some(ScoreOf(q, RecordsOf(col, id)[0])) <==>
              id in col.tier1 || forall r <- FilterId(col.tier2.records, id) ::
                q.similarity(r.vector) <= q.similarity(RecordsOf(col, id)[0].vector)
  {
    if id !in col.tier1 {
      assert RecordsOf(col, id) == FilterId(col.tier2.records, id);
      BestIs(q, FilterId(col.tier2.records, id));
    }
  }

  lemma {:induction false} OfferIsWantedIff(q: SearchQuery, st: seq<Layer>, id: string)
    ensures StackOffer(q, st, id) == Wanted(q, st, id) <==> !Misled(q, st, id)
  {
    if st != [] && id !in st[0].tombstones {
      var col := CollectionOf(st[0], q.collection);
      var here := RecordsOf(col, id);
      FirstOfConcat(here, VisibleRecords(st[1..], q.collection, id));
      if here == [] {
        OfferNoneIff(q, col, id);
        assert VisibleRecords(st, q.collection, id) == [] + VisibleRecords(st[1..], q.collection, id);
        OfferIsWantedIff(q, st[1..], id);
      } else if Passes(q, ScoreOf(q, here[0])) {
        OfferIsCurrentIff(q, col, id);
      } else {
        StackOfferNoneIff(q, st, id);
      }
    }
  }

  /**
   A query gets an id by its current version, with that version's own score, or
   not at all when it rejects that version, exactly unless it rejects the current
   version but not another one that is stored and undeleted, or the current
   version is in a tier 2 where another version of the id scores higher.
   */
  lemma RecallIsCurrentIff(q: SearchQuery, st: seq<Layer>, answers: seq<seq<IndexHit>>, id: string)
    requires ExactStack(q, st, answers)
    ensures Winner(q, ProbeStack(q, st, answers), id) == Wanted(q, st, id) <==> !Misled(q, st, id)
  {
    WinnerIsOffer(q, st, answers, id);
    OfferIsWantedIff(q, st, id);
  }

  /** Two versions of "a", which score 1 and 0 with `IsOne`. */
  const NEAR := VectorRecord("a", [1.0], map[])
  const FAR := VectorRecord("a", [0.0], map[])

  /** The near one in tier 1, the far one in tier 2. */
  const APART := VectorCollection(map["a" := NEAR], Tier2Data([FAR], [[0.0]], true))

  /** A query near the first of two versions gets that one, although the second is current. */
  lemma OlderVersionReturned(answers: seq<seq<IndexHit>>)
    requires |answers| == 2
    ensures var st := Remember(Spawn(Remember([EMPTY_LAYER], "c", NEAR)), "c", FAR);
            var q := SearchQuery("c", IsOne, 10, 0.5);
            && Current(st, "c", "a") == Some(FAR)
            && Winner(q, ProbeStack(q, st, answers), "a") == Some(Scored(1.0, NEAR))
  {
    var first := Remember([EMPTY_LAYER], "c", NEAR);
    var st := Remember(Spawn(first), "c", FAR);
    var q := SearchQuery("c", IsOne, 10, 0.5);
    assert st[1..] == first && first[1..] == [];
    assert CollectionOf(st[0], "c") == VectorCollection(map["a" := FAR], EMPTY_TIER2);
    assert CollectionOf(first[0], "c") == VectorCollection(map["a" := NEAR], EMPTY_TIER2);
    assert [0.0][0] != [1.0][0];
    assert StackOffer(q, first, "a") == Some(Scored(1.0, NEAR));
    assert RecordsOf(CollectionOf(st[0], "c"), "a")[0] == FAR;
    WinnerIsOffer(q, st, answers, "a");
  }

  // ---------------------------------------------------------------------
  // Compaction below a query
  // ---------------------------------------------------------------------

  /**
   Once compacted, the tier-1 version of `id` that passes would lose its record
   to an earlier version, or its score to a better one.
   */
  ghost predicate Overtaken(q: SearchQuery, col: VectorCollection, id: string) {
    var vs := FilterId(col.tier2.records, id);
    && id in col.tier1 && Passes(q, ScoreOf(q, col.tier1[id])) && vs != []
    && (vs[0] != col.tier1[id] || exists r <- vs :: q.similarity(r.vector) > q.similarity(col.tier1[id].vector))
  }

  /** Layer `k` has no say in what `q` gets of `id`: it or a newer one deletes the id, or a newer one offers it. */
  predicate Decided(q: SearchQuery, st: seq<Layer>, k: nat, id: string)
    requires k < |st|
  {
    id in st[0].tombstones
    || (k > 0 && (Offer(q, CollectionOf(st[0], q.collection), id).Some? || Decided(q, st[1..], k - 1, id)))
  }

  lemma {:induction false} BestOfSnoc(q: SearchQuery, vs: seq<VectorRecord>, r: VectorRecord)
    ensures Best(q, vs + [r])
         == if vs == [] || q.similarity(r.vector) > Best(q, vs) then q.similarity(r.vector) else Best(q, vs)
  {
    if vs != [] {
      assert (vs + [r])[1..] == vs[1..] + [r];
      BestOfSnoc(q, vs[1..], r);
    }
  }

  lemma CompactedOffer(q: SearchQuery, col: VectorCollection, drained: seq<VectorRecord>, id: string)
    requires DrainOrder(col.tier1, drained)
    ensures Offer(q, Compacted(col, drained), id) == Offer(q, col, id) <==> !Overtaken(q, col, id)
    ensures Offer(q, Compacted(col, drained), id).Some? <==> Offer(q, col, id).Some?
  {
    var vs, col' := FilterId(col.tier2.records, id), Compacted(col, drained);
    CompactedRecords(col, drained, id);
    assert RecordsOf(col', id) == FilterId(col'.tier2.records, id);
    if id in col.tier1 {
      var r := col.tier1[id];
      BestOfSnoc(q, vs, r);
      if vs != [] {
        BestIs(q, vs);
        assert (vs + [r])[0] == vs[0];
      }
    } else {
      assert vs + [] == vs;
    }
  }

  /** Compacting a layer changes the offer exactly when the tier-1 version is overtaken and the layer has a say. */
  lemma {:induction false} CompactedStackOffer(q: SearchQuery, st: seq<Layer>, k: nat, drained: seq<VectorRecord>,
                                               id: string)
    requires k < |st| && DrainOrder(CollectionOf(st[k], q.collection).tier1, drained)
    ensures StackOffer(q, CompactLayer(st, k, q.collection, drained), id) == StackOffer(q, st, id)
       <==> (Overtaken(q, CollectionOf(st[k], q.collection), id) ==> Decided(q, st, k, id))
  {
    var st' := CompactLayer(st, k, q.collection, drained);
    if k == 0 {
      assert st'[1..] == st[1..];
      CompactedOffer(q, CollectionOf(st[0], q.collection), drained, id);
    } else {
      assert st'[1..] == CompactLayer(st[1..], k - 1, q.collection, drained);
      CompactedStackOffer(q, st[1..], k - 1, drained, id);
    }
  }

  /**
   Compacting any layer of a stack leaves a query with the same record and the
   same score for `id`, before and after through exact indexes, exactly when the
   tier-1 version there is not overtaken, or the layer had no say.
   */
  lemma CompactionKeepsWinnersIff(q: SearchQuery, st: seq<Layer>, k: nat, drained: seq<VectorRecord>,
                                  before: seq<seq<IndexHit>>, after: seq<seq<IndexHit>>, id: string)
    requires k < |st| && DrainOrder(CollectionOf(st[k], q.collection).tier1, drained)
    requires ExactStack(q, st, before) && ExactStack(q, CompactLayer(st, k, q.collection, drained), after)
    ensures Winner(q, ProbeStack(q, CompactLayer(st, k, q.collection, drained), after), id)
         == Winner(q, ProbeStack(q, st, before), id)
       <==> (Overtaken(q, CollectionOf(st[k], q.collection), id) ==> Decided(q, st, k, id))
  {
    WinnerIsOffer(q, st, before, id);
    WinnerIsOffer(q, CompactLayer(st, k, q.collection, drained), after, id);
    CompactedStackOffer(q, st, k, drained, id);
  }

  /** A compaction of fresh ids, of any layer, gives every query the same version of every id, with the same score. */
  lemma CompactionKeepsWinners(q: SearchQuery, st: seq<Layer>, k: nat, drained: seq<VectorRecord>,
                               before: seq<seq<IndexHit>>, after: seq<seq<IndexHit>>, id: string)
    requires k < |st| && DrainOrder(CollectionOf(st[k], q.collection).tier1, drained)
    requires ExactStack(q, st, before) && ExactStack(q, CompactLayer(st, k, q.collection, drained), after)
    requires FreshIds(CollectionOf(st[k], q.collection))
    ensures Winner(q, ProbeStack(q, CompactLayer(st, k, q.collection, drained), after), id)
         == Winner(q, ProbeStack(q, st, before), id)
  {
    FilterIdIs(CollectionOf(st[k], q.collection).tier2.records, id);
    CompactionKeepsWinnersIff(q, st, k, drained, before, after, id);
  }

  lemma VersionsOfA()
    ensures FilterId([FAR], "a") == [FAR] && FilterId([FAR, NEAR], "a") == [FAR, NEAR]
  {
    assert [FAR, NEAR][1..] == [NEAR] && [NEAR][1..] == [] && [FAR][1..] == [];
    assert FilterId([NEAR], "a") == [NEAR] + FilterId([], "a");
    assert FilterId([FAR, NEAR], "a") == [FAR] + FilterId([NEAR], "a");
  }

  lemma ScoresOfA(q: SearchQuery)
    requires q == SearchQuery("c", IsOne, 10, 0.5)
    ensures Best(q, [FAR, NEAR]) == 1.0 && Best(q, [FAR]) == 0.0
    ensures ExactIndex(q, [FAR], [HitOf(q, FAR)])
    ensures ExactIndex(q, [FAR, NEAR], [HitOf(q, NEAR), HitOf(q, FAR)])
  {
    assert [0.0][0] != [1.0][0] && [FAR, NEAR][1..] == [NEAR];
    assert AllHits(q, [FAR]) == [HitOf(q, FAR)];
    assert AllHits(q, [FAR, NEAR]) == [HitOf(q, FAR), HitOf(q, NEAR)];
  }

  /** Compacting gives the query the old record with the score of the new one. */
  lemma ScoreOfAnotherVersion()
    ensures var q := SearchQuery("c", IsOne, 10, 0.5);
            var st := [Layer({}, map["c" := APART])];
            var st' := CompactLayer(st, 0, "c", [NEAR]);
            var before, after := [[HitOf(q, FAR)]], [[HitOf(q, NEAR), HitOf(q, FAR)]];
            && ExactStack(q, st, before) && ExactStack(q, st', after)
            && Winner(q, ProbeStack(q, st, before), "a") == Some(Scored(1.0, NEAR))
            && Winner(q, ProbeStack(q, st', after), "a") == Some(Scored(1.0, FAR))
  {
    var q := SearchQuery("c", IsOne, 10, 0.5);
    var st := [Layer({}, map["c" := APART])];
    var st' := CompactLayer(st, 0, "c", [NEAR]);
    VersionsOfA();
    ScoresOfA(q);
    assert CollectionOf(st'[0], "c") == VectorCollection(map[], Tier2Data([FAR, NEAR], [[0.0], [1.0]], true)) by {
      assert VectorsOf([NEAR]) == [[1.0]];
    }
    WinnerIsOffer(q, st, [[HitOf(q, FAR)]], "a");
    WinnerIsOffer(q, st', [[HitOf(q, NEAR), HitOf(q, FAR)]], "a");
  }

  // ---------------------------------------------------------------------
  // The whole answer
  // ---------------------------------------------------------------------

  lemma ExactLayerAgrees(q: SearchQuery, col: VectorCollection, answer: seq<IndexHit>, id: string)
    requires ExactLayer(q, col, answer) && OneVersionEach(col.tier2.records)
    ensures First(WithId(Tier2Candidates(q, col.tier2, answer), id))
         == First(ScanCandidates(q, FilterId(col.tier2.records, id)))
  {
    var vs := FilterId(col.tier2.records, id);
    FilterIdIs(col.tier2.records, id);
    FirstOfFilter(col.tier2.records, id);
    if col.tier2.indexed {
      assert |answer| == |multiset(answer)| == |AllHits(q, col.tier2.records)|;
      CandidatesOfId(col.tier2.records, answer, id);
      if vs != [] {
        FirstHitIsBest(q, col.tier2.records, answer, id);
        BestIs(q, vs);
        assert vs[0] in vs;
      }
    }
  }

  /** Exact indexes over one version of each id give a lookup what a scan would. */
  lemma ExactIndexesAgree(q: SearchQuery, st: seq<Layer>, answers: seq<seq<IndexHit>>)
    requires ExactStack(q, st, answers)
    requires forall l <- st :: OneVersionEach(CollectionOf(l, q.collection).tier2.records)
    ensures IndexesAgree(q, st, answers)
  {
    forall k, id | 0 <= k < |st|
      ensures First(WithId(Tier2Candidates(q, CollectionOf(st[k], q.collection).tier2, answers[k]), id))
           == First(ScanCandidates(q, FilterId(CollectionOf(st[k], q.collection).tier2.records, id)))
    {
      assert st[k] in st;
      ExactLayerAgrees(q, CollectionOf(st[k], q.collection), answers[k], id);
    }
  }

  /**
   Through exact indexes over one version of each id, a recall that admits every
   version and has room for every id returns the plain map the stack shows.
   */
  lemma ExactRecallReturnsTheMap(q: SearchQuery, st: seq<Layer>, answers: seq<seq<IndexHit>>,
                                 m: map<string, VectorRecord>, out: seq<SearchResult>)
    requires ExactStack(q, st, answers) && Shows(st, q.collection, m) && KeyedById(m)
    requires forall l <- st :: OneVersionEach(CollectionOf(l, q.collection).tier2.records)
    requires AllPass(q, ProbeStack(q, st, answers)) && |m| <= q.limit
    requires IsTop(q, ProbeStack(q, st, answers), out)
    ensures |out| == |m| && ResultIds(out) == m.Keys
    ensures forall r <- out ::
              r.id in m && r.metadata == m[r.id].metadata && r.score == q.similarity(m[r.id].vector)
  {
    ExactIndexesAgree(q, st, answers);
    RecallReturnsTheMap(q, st, answers, m, out);
  }
}
