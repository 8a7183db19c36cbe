/** memory/vector/local-vector-store.ts: an insertion-ordered index of vectors with cached norms,
    one dimension for all, and a filter applied before the best hits are chosen. */
module VectorStore {
  import opened Seqs
  import opened OrderedMaps
  import Ranking
  import Similarity = Scoring

  type Metadata = map<string, string>

  datatype VectorRecord = VectorRecord(id: string, vector: seq<real>, metadata: Option<Metadata>)
  datatype Stored = Stored(record: VectorRecord, norm: real)
  datatype Hit = Hit(id: string, score: real, metadata: Option<Metadata>)
  datatype FilterValue = One(value: string) | Many(values: seq<string>)
  type Filters = map<string, FilterValue>

  datatype Store = Store(records: Entries<Stored>, dimension: Option<nat>)

  const EMPTY := Store([], None)

  /** validateVector and setDimension let a vector of this length through. */
  predicate Accepts(st: Store, length: nat) {
    length > 0 && (st.dimension.Some? ==> st.dimension.value == length)
  }

  function UpsertOne(norm: seq<real> -> real, st: Store, rec: VectorRecord): Store {
    Store(Put(st.records, rec.id, Stored(rec, norm(rec.vector))), Some(|rec.vector|))
  }

  /** Records go in one by one; false where the source throws, with the earlier ones kept. */
  function Upsert(norm: seq<real> -> real, st: Store, recs: seq<VectorRecord>): (Store, bool)
    decreases |recs|
  {
    if recs == [] then (st, true)
    else if !Accepts(st, |recs[0].vector|) then (st, false)
    else Upsert(norm, UpsertOne(norm, st, recs[0]), recs[1..])
  }

  lemma UpsertSingle(norm: seq<real> -> real, st: Store, rec: VectorRecord)
    ensures Upsert(norm, st, [rec]) == if Accepts(st, |rec.vector|) then (UpsertOne(norm, st, rec), true) else (st, false)
  {
    assert [rec][1..] == [];
  }

  function Delete(st: Store, id: string): Store {
    st.(records := Remove(st.records, id))
  }

  predicate Matches(metadata: Option<Metadata>, filters: Filters) {
    metadata.Some? &&
    forall key :: key in filters ==>
      && key in metadata.value
      && match filters[key]
         case One(v) => metadata.value[key] == v
         case Many(vs) => metadata.value[key] in vs
  }

  predicate Selected(st: Stored, filters: Option<Filters>) {
    filters.Some? ==> Matches(st.record.metadata, filters.value)
  }

  /** cosineSimilarity; records and accepted queries always have the same length (see Sized). */
  function Score(vector: seq<real>, norm: real, st: Stored): real {
    if |vector| == |st.record.vector| then Similarity.Cosine(vector, st.record.vector, norm, st.norm) else 0.0
  }

  function HitOf(vector: seq<real>, norm: real, st: Stored): Hit {
    Hit(st.record.id, Score(vector, norm, st), st.record.metadata)
  }

  function Hits(records: Entries<Stored>, vector: seq<real>, norm: real, filters: Option<Filters>): seq<Hit> {
    if records == [] then []
    else
      var rest := Hits(records[1..], vector, norm, filters);
      if Selected(records[0].1, filters) then [HitOf(vector, norm, records[0].1)] + rest else rest
  }

  /** The hits so far, when the scan moves past record i. */
  lemma HitsStep(records: Entries<Stored>, i: nat, vector: seq<real>, norm: real, filters: Option<Filters>, hits: seq<Hit>)
    requires i < |records| && hits + Hits(records[i..], vector, norm, filters) == Hits(records, vector, norm, filters)
    ensures
      var hits' := if Selected(records[i].1, filters) then hits + [HitOf(vector, norm, records[i].1)] else hits;
      hits' + Hits(records[i + 1..], vector, norm, filters) == Hits(records, vector, norm, filters)
  {
    assert records[i..][0] == records[i] && records[i..][1..] == records[i + 1..];
  }

  function ByScore(): Hit -> real {
    (h: Hit) => h.score
  }

  /** A query may fix the dimension; None where the source throws. */
  function Query(norm: seq<real> -> real, st: Store, vector: seq<real>, topK: nat, filters: Option<Filters>)
    : (Store, Option<seq<Hit>>)
  {
    if !Accepts(st, |vector|) then (st, None)
    else
      (st.(dimension := Some(|vector|)),
       Some(Ranking.Take(Ranking.SortDescending(Hits(st.records, vector, norm(vector), filters), ByScore()), topK)))
  }

  // ---------------------------------------------------------------- invariant

  /** Keys are the record ids, all vectors have the store's dimension, and norms are those of the vectors. */
  predicate StoredWell(norm: seq<real> -> real, key: string, s: Stored, dimension: Option<nat>) {
    && s.record.id == key
    && s.norm == norm(s.record.vector)
    && dimension == Some(|s.record.vector|)
  }

  ghost predicate Sized(norm: seq<real> -> real, st: Store) {
    && Distinct(st.records)
    && forall i :: 0 <= i < |st.records| ==> StoredWell(norm, st.records[i].0, st.records[i].1, st.dimension)
  }

  lemma UpsertOneKeepsSized(norm: seq<real> -> real, st: Store, rec: VectorRecord)
    requires Sized(norm, st) && Accepts(st, |rec.vector|)
    ensures Sized(norm, UpsertOne(norm, st, rec))
  {
    PutKeys(st.records, rec.id, Stored(rec, norm(rec.vector)));
  }

  lemma DeleteKeepsSized(norm: seq<real> -> real, st: Store, id: string)
    requires Sized(norm, st)
    ensures Sized(norm, Delete(st, id))
  {
    RemoveKeys(st.records, id);
  }

  // ---------------------------------------------------------------- the class

  class LocalVectorStore {
    const norm: seq<real> -> real
    var records: Entries<Stored>
    var dimension: Option<nat>

    ghost function View(): Store
      reads this
    {
      Store(records, dimension)
    }

    ghost predicate Valid()
      reads this
    {
      Sized(norm, View())
    }

    constructor (norm: seq<real> -> real)
      ensures this.norm == norm && View() == EMPTY && Valid()
    {
      this.norm := norm;
      records, dimension := [], None;
    }

    /** False where the source throws. */
    method SetDimension(length: nat) returns (ok: bool)
      modifies this
      ensures ok == (old(dimension).Some? ==> old(dimension).value == length)
      ensures View() == if ok then old(View()).(dimension := Some(length)) else old(View())
    {
      if dimension == None {
        dimension := Some(length);
        return true;
      }
      return dimension.value == length;
    }

    method UpsertAll(recs: seq<VectorRecord>) returns (ok: bool)
      requires Valid()
      modifies this
      ensures Valid()
      ensures (View(), ok) == Upsert(norm, old(View()), recs)
    {
      for i := 0 to |recs|
        invariant Valid()
        invariant Upsert(norm, old(View()), recs) == Upsert(norm, View(), recs[i..])
      {
        var rec := recs[i];
        ghost var before := View();
        assert recs[i..][0] == rec && recs[i..][1..] == recs[i + 1..];
        if |rec.vector| == 0 {
          return false;
        }
        var sameDimension := SetDimension(|rec.vector|);
        if !sameDimension {
          return false;
        }
        records := Put(records, rec.id, Stored(rec, norm(rec.vector)));
        assert View() == UpsertOne(norm, before, rec);
        UpsertOneKeepsSized(norm, before, rec);
      }
      return true;
    }

    method Search(vector: seq<real>, topK: nat, filters: Option<Filters>) returns (r: Option<seq<Hit>>)
      requires Valid()
      modifies this
      ensures Valid()
      ensures (View(), r) == Query(norm, old(View()), vector, topK, filters)
    {
      if |vector| == 0 {
        return None;
      }
      var sameDimension := SetDimension(|vector|);
      if !sameDimension {
        return None;
      }
      var queryNorm := norm(vector);
      var results: seq<Hit> := [];
      for i := 0 to |records|
        invariant records == old(records) && dimension == Some(|vector|)
        invariant results + Hits(records[i..], vector, queryNorm, filters) == Hits(records, vector, queryNorm, filters)
      {
        var stored := records[i].1;
        HitsStep(records, i, vector, queryNorm, filters, results);
        if filters.Some? && !Matches(stored.record.metadata, filters.value) {
          continue;
        }
        assert |stored.record.vector| == |vector| by {
          assert StoredWell(norm, records[i].0, records[i].1, old(dimension));
        }
        var score := Similarity.CosineSimilarity(vector, stored.record.vector, queryNorm, stored.norm);
        assert score == Some(Score(vector, queryNorm, stored));
        results := results + [Hit(stored.record.id, score.value, stored.record.metadata)];
      }
      assert results == Hits(records, vector, queryNorm, filters);
      return Some(Ranking.Take(Ranking.SortDescending(results, ByScore()), topK));
    }

    method Drop(id: string)
      requires Valid()
      modifies this
      ensures Valid() && View() == Delete(old(View()), id)
    {
      DeleteKeepsSized(norm, View(), id);
      records := Remove(records, id);
    }
  }
}
