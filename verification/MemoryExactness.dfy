/** Uninterrupted calls: index and repository agree, queries are exact, scores are bounded. */
module MemoryExactness {
  import opened Seqs
  import opened OrderedMaps
  import opened Ranking
  import S = Scoring
  import opened Repository
  import V = VectorStore
  import opened MemoryManager

  // ---------------------------------------------------------------- index and repository agree

  /** What the index holds under a key is the current metadata of the memory stored under it. */
  predicate Backed(repo: Memories, key: string, s: V.Stored) {
    Has(repo, key) && s.record.metadata == Some(MetadataOf(Get(repo, key).value))
  }

  ghost predicate Agree(env: Env, st: State) {
    && V.Sized(env.norm, st.index)
    && Keyed(st.repo)
    && forall i :: 0 <= i < |st.index.records| ==> Backed(st.repo, st.index.records[i].0, st.index.records[i].1)
  }

  /** A store succeeds exactly if the memory has content that is let through, the embedding is accepted and
      the save succeeds; then index and repository have the memory under its id, and else the repository
      is as it was. */
  lemma StoreIsExact(env: Env, st: State, m: Memory, embedding: Option<seq<real>>, saveOk: bool, key: string)
    ensures
      var (st', ok) := StoreMemory(env, st, m, embedding, saveOk);
      && (ok <==>
            && m.content != "" && env.allowed(m.content) && saveOk
            && embedding.Some? && |embedding.value| > 0
            && (st.index.dimension.Some? ==> st.index.dimension.value == |embedding.value|))
      && Get(st'.repo, key) == (if ok && key == m.id then Some(m) else Get(st.repo, key))
      && (ok ==>
            && st'.index.dimension == Some(|embedding.value|)
            && Get(st'.index.records, key) ==
               if key == m.id
               then Some(V.Stored(V.VectorRecord(m.id, embedding.value, Some(MetadataOf(m))), env.norm(embedding.value)))
               else Get(st.index.records, key))
  {
    if Storable(env, m) && embedding.Some? {
      var rec := RecordOf(m, embedding.value);
      V.UpsertSingle(env.norm, st.index, rec);
      GetPut(st.index.records, m.id, V.Stored(rec, env.norm(rec.vector)), key);
      GetPut(st.repo, m.id, m, key);
    }
  }

  /** Whatever fails, an uninterrupted store keeps index and repository in agreement. */
  lemma StoreKeepsAgreement(env: Env, st: State, m: Memory, embedding: Option<seq<real>>, saveOk: bool)
    requires Agree(env, st)
    ensures Agree(env, StoreMemory(env, st, m, embedding, saveOk).0)
  {
    if Storable(env, m) && embedding.Some? && V.Accepts(st.index, |embedding.value|) {
      var rec := RecordOf(m, embedding.value);
      var index := V.UpsertOne(env.norm, st.index, rec);
      V.UpsertSingle(env.norm, st.index, rec);
      V.UpsertOneKeepsSized(env.norm, st.index, rec);
      PutKeys(st.index.records, m.id, V.Stored(rec, env.norm(rec.vector)));
      if saveOk {
        SaveKeepsKeyed(st.repo, m);
        forall i | 0 <= i < |index.records|
          ensures Backed(Save(st.repo, m), index.records[i].0, index.records[i].1)
        {
          GetPut(st.repo, m.id, m, index.records[i].0);
          PutAt(st.index.records, m.id, V.Stored(rec, env.norm(rec.vector)), i);
        }
      } else {
        V.DeleteKeepsSized(env.norm, index, m.id);
        RemoveKeys(index.records, m.id);
        var kept := Remove(index.records, m.id);
        forall i | 0 <= i < |kept|
          ensures Backed(st.repo, kept[i].0, kept[i].1)
        {
        }
      }
    }
  }

  lemma TouchKeepsAgreement(env: Env, st: State, id: string, now: real)
    requires Agree(env, st)
    ensures Agree(env, st.(repo := UpdateAccess(st.repo, id, now)))
  {
    UpdateAccessKeepsKeyed(st.repo, id, now);
    forall i | 0 <= i < |st.index.records|
      ensures Backed(UpdateAccess(st.repo, id, now), st.index.records[i].0, st.index.records[i].1)
    {
      assert Backed(st.repo, st.index.records[i].0, st.index.records[i].1);
      GetUpdateAccess(st.repo, id, now, st.index.records[i].0);
    }
  }

  lemma {:induction false} TouchAllKeepsAgreement(env: Env, st: State, results: seq<SearchResult>, now: real)
    requires Agree(env, st)
    ensures Agree(env, st.(repo := TouchAll(st.repo, results, now)))
  {
    if results != [] {
      var rest := results[..|results| - 1];
      TouchAllKeepsAgreement(env, st, rest, now);
      TouchKeepsAgreement(env, st.(repo := TouchAll(st.repo, rest, now)), results[|results| - 1].memory.id, now);
    }
  }

  lemma QueryKeepsAgreement(env: Env, st: State, q: MemoryQuery, embedding: Option<seq<real>>, now: real)
    requires Agree(env, st)
    ensures Agree(env, QueryMemories(env, st, q, embedding, now).0)
  {
    if q.text != "" && embedding.Some? && V.Accepts(st.index, |embedding.value|) {
      var (index, found) := V.Query(env.norm, st.index, embedding.value, ClampLimit(q.limit), FiltersOf(q));
      assert Agree(env, State(index, st.repo));
      var results := ResultsOf(env, q, found.value, now, GetByIds(st.repo, HitIds(found.value)));
      if results.Some? {
        TouchAllKeepsAgreement(env, State(index, st.repo), results.value, now);
      }
    }
  }

  /** A failed save of a new version of a memory drops the old version from the index, while the
      repository keeps it: from then on no query finds it. */
  lemma FailedOverwriteHidesOldVersion(env: Env, st: State, m: Memory, embedding: seq<real>)
    requires Agree(env, st) && Has(st.index.records, m.id)
    requires Storable(env, m) && V.Accepts(st.index, |embedding|)
    ensures
      var (st', ok) := StoreMemory(env, st, m, Some(embedding), false);
      !ok && Get(st'.repo, m.id) == Get(st.repo, m.id) && Has(st'.repo, m.id) && !Has(st'.index.records, m.id)
  {
    var rec := RecordOf(m, embedding);
    var index := V.UpsertOne(env.norm, st.index, rec);
    V.UpsertSingle(env.norm, st.index, rec);
    V.UpsertOneKeepsSized(env.norm, st.index, rec);
    GetRemove(index.records, m.id, m.id);
    HasIsAt(st.index.records, m.id);
    var i :| 0 <= i < |st.index.records| && st.index.records[i].0 == m.id;
    assert Backed(st.repo, st.index.records[i].0, st.index.records[i].1);
  }

  /** A failed save leaves the index records as they were exactly if the id was not indexed before;
      otherwise one record is lost. The repository is untouched, and the dimension of the index stays
      fixed to that of the embedding even if nothing else has been stored. */
  lemma FailedStoreLeavesIndexIff(env: Env, st: State, m: Memory, embedding: seq<real>)
    requires Agree(env, st) && Storable(env, m) && V.Accepts(st.index, |embedding|)
    ensures
      var (st', ok) := StoreMemory(env, st, m, Some(embedding), false);
      && !ok && st'.repo == st.repo
      && (st'.index.records == st.index.records <==> !Has(st.index.records, m.id))
      && (forall key :: Get(st'.index.records, key) == if key == m.id then None else Get(st.index.records, key))
      && st'.index.dimension == Some(|embedding|)
  {
    var rec := RecordOf(m, embedding);
    var stored := V.Stored(rec, env.norm(rec.vector));
    var index := V.UpsertOne(env.norm, st.index, rec);
    V.UpsertSingle(env.norm, st.index, rec);
    V.UpsertOneKeepsSized(env.norm, st.index, rec);
    forall key
      ensures Get(Remove(index.records, m.id), key) == if key == m.id then None else Get(st.index.records, key)
    {
      GetPut(st.index.records, m.id, stored, key);
      GetRemove(index.records, m.id, key);
    }
    if !Has(st.index.records, m.id) {
      RemovePut(st.index.records, m.id, stored);
    }
  }

  // ---------------------------------------------------------------- what a query matches

  /** The records a query is about, in index order. */
  function Matching(records: Entries<V.Stored>, filters: Option<V.Filters>): Entries<V.Stored> {
    if records == [] then []
    else
      var rest := Matching(records[1..], filters);
      if V.Selected(records[0].1, filters) then [records[0]] + rest else rest
  }

  lemma {:induction false} HitsAreMatching(records: Entries<V.Stored>, vector: seq<real>, n: real, filters: Option<V.Filters>)
    ensures
      var hits, matching := V.Hits(records, vector, n, filters), Matching(records, filters);
      && |hits| == |matching|
      && forall i :: 0 <= i < |hits| ==> hits[i] == V.HitOf(vector, n, matching[i].1)
  {
    if records != [] {
      HitsAreMatching(records[1..], vector, n, filters);
    }
  }

  lemma {:induction false} MatchingIsSelection(records: Entries<V.Stored>, filters: Option<V.Filters>)
    ensures forall e :: e in Matching(records, filters) <==> e in records && V.Selected(e.1, filters)
    ensures Distinct(records) ==> Distinct(Matching(records, filters))
  {
    if records != [] {
      var rest := Matching(records[1..], filters);
      MatchingIsSelection(records[1..], filters);
      assert records == [records[0]] + records[1..];
      if Distinct(records) {
        forall i | 0 <= i < |rest|
          ensures rest[i].0 != records[0].0
        {
          assert rest[i] in records[1..];
        }
      }
    }
  }

  // ---------------------------------------------------------------- from hits to results

  function HitId(): V.Hit -> string {
    (h: V.Hit) => h.id
  }

  function ResultId(): SearchResult -> string {
    (r: SearchResult) => r.memory.id
  }

  predicate DistinctHits(hits: seq<V.Hit>) {
    DistinctBy(hits, HitId())
  }

  lemma {:induction false} SimilarityOfHit(hits: seq<V.Hit>, i: nat)
    requires DistinctHits(hits) && i < |hits|
    ensures SimilarityOf(hits, hits[i].id) == hits[i].score
  {
    if i > 0 {
      assert HitId()(hits[0]) != HitId()(hits[i]);
      SimilarityOfHit(hits[1..], i - 1);
    }
  }

  lemma {:induction false} AllFound(repo: Memories, ids: seq<string>)
    requires forall i :: 0 <= i < |ids| ==> Has(repo, ids[i])
    ensures |GetByIds(repo, ids)| == |ids|
    ensures forall i :: 0 <= i < |ids| ==> Get(repo, ids[i]) == Some(GetByIds(repo, ids)[i])
  {
    if ids != [] {
      AllFound(repo, ids[1..]);
    }
  }

  lemma KeyedGet(repo: Memories, id: string)
    requires Keyed(repo) && Has(repo, id)
    ensures Get(repo, id).value.id == id
  {
    HasIsAt(repo, id);
  }

  // ---------------------------------------------------------------- query exactness

  /** The hits an accepted query works with. */
  function Candidates(env: Env, st: State, q: MemoryQuery, vector: seq<real>): seq<V.Hit> {
    Take(SortDescending(V.Hits(st.index.records, vector, env.norm(vector), FiltersOf(q)), V.ByScore()), ClampLimit(q.limit))
  }

  /** Hit h is the similarity score of a matching record, which is backed by a stored memory. */
  ghost predicate GenuineHit(env: Env, st: State, q: MemoryQuery, vector: seq<real>, h: V.Hit) {
    exists e :: e in Matching(st.index.records, FiltersOf(q))
                && e.0 == h.id && h == V.HitOf(vector, env.norm(vector), e.1) && Backed(st.repo, e.0, e.1)
  }

  lemma HitsAreGenuine(env: Env, st: State, q: MemoryQuery, vector: seq<real>)
    requires Agree(env, st)
    ensures
      var hits := V.Hits(st.index.records, vector, env.norm(vector), FiltersOf(q));
      && DistinctHits(hits)
      && |hits| == |Matching(st.index.records, FiltersOf(q))|
      && forall h :: h in hits ==> GenuineHit(env, st, q, vector, h)
  {
    var hits := V.Hits(st.index.records, vector, env.norm(vector), FiltersOf(q));
    var matching := Matching(st.index.records, FiltersOf(q));
    HitsAreMatching(st.index.records, vector, env.norm(vector), FiltersOf(q));
    MatchingIsSelection(st.index.records, FiltersOf(q));
    forall i | 0 <= i < |hits|
      ensures hits[i].id == matching[i].0 && GenuineHit(env, st, q, vector, hits[i])
    {
      assert matching[i] in matching;
      var j :| 0 <= j < |st.index.records| && st.index.records[j] == matching[i];
      assert V.StoredWell(env.norm, st.index.records[j].0, st.index.records[j].1, st.index.dimension);
      assert Backed(st.repo, st.index.records[j].0, st.index.records[j].1);
    }
  }

  lemma CandidatesAreTop(env: Env, st: State, q: MemoryQuery, vector: seq<real>)
    requires Agree(env, st)
    ensures
      var c, n := Candidates(env, st, q, vector), |Matching(st.index.records, FiltersOf(q))|;
      && DistinctHits(c)
      && |c| == (if ClampLimit(q.limit) <= n then ClampLimit(q.limit) else n)
      && (forall h :: h in c ==> GenuineHit(env, st, q, vector, h))
      && (forall h, e :: h in c && e in Matching(st.index.records, FiltersOf(q)) ==>
            (exists h' :: h' in c && h'.id == e.0) || h.score >= V.Score(vector, env.norm(vector), e.1))
  {
    var hits := V.Hits(st.index.records, vector, env.norm(vector), FiltersOf(q));
    var matching := Matching(st.index.records, FiltersOf(q));
    var c := Candidates(env, st, q, vector);
    HitsAreGenuine(env, st, q, vector);
    SortKeepsDistinct(hits, V.ByScore(), HitId());
    SortSorts(hits, V.ByScore());
    SortKeepsMembers(hits, V.ByScore());
    TakeIsTop(hits, V.ByScore(), ClampLimit(q.limit));
    HitsAreMatching(st.index.records, vector, env.norm(vector), FiltersOf(q));
    forall h, e | h in c && e in matching
      ensures (exists h' :: h' in c && h'.id == e.0) || h.score >= V.Score(vector, env.norm(vector), e.1)
    {
      var i :| 0 <= i < |matching| && matching[i] == e;
      var other := hits[i];
      MatchedUnderOwnId(env, st, q, e);
      assert other in hits && other.id == e.0;
      assert other in c || V.ByScore()(h) >= V.ByScore()(other);
    }
  }

  lemma MatchedUnderOwnId(env: Env, st: State, q: MemoryQuery, e: (string, V.Stored))
    requires Agree(env, st) && e in Matching(st.index.records, FiltersOf(q))
    ensures e.1.record.id == e.0 && Backed(st.repo, e.0, e.1)
  {
    MatchingIsSelection(st.index.records, FiltersOf(q));
    var j :| 0 <= j < |st.index.records| && st.index.records[j] == e;
    assert V.StoredWell(env.norm, st.index.records[j].0, st.index.records[j].1, st.index.dimension);
    assert Backed(st.repo, st.index.records[j].0, st.index.records[j].1);
  }

  /** Result r stands for hit h: the stored memory of that id, with the hit's similarity. */
  predicate StandsFor(st: State, r: SearchResult, h: V.Hit) {
    r.memory.id == h.id && Get(st.repo, h.id) == Some(r.memory) && r.similarity == h.score
  }

  lemma ResultsStandForHits(env: Env, st: State, q: MemoryQuery, vector: seq<real>, now: real)
    requires Agree(env, st)
    ensures
      var c := Candidates(env, st, q, vector);
      var results := ResultsOf(env, q, c, now, GetByIds(st.repo, HitIds(c)));
      && (results.None? <==> c != [] && env.halfLifeMs <= 0.0)
      && (results.Some? ==>
            && |results.value| == |c|
            && forall i :: 0 <= i < |c| ==> StandsFor(st, results.value[i], c[i]))
  {
    var c := Candidates(env, st, q, vector);
    CandidatesAreTop(env, st, q, vector);
    forall i | 0 <= i < |c|
      ensures Has(st.repo, HitIds(c)[i])
    {
      assert c[i] in c;
      assert GenuineHit(env, st, q, vector, c[i]);
    }
    AllFound(st.repo, HitIds(c));
    forall i | 0 <= i < |c|
      ensures SimilarityOf(c, c[i].id) == c[i].score && GetByIds(st.repo, HitIds(c))[i].id == c[i].id
    {
      SimilarityOfHit(c, i);
      KeyedGet(st.repo, c[i].id);
    }
  }

  /** r is a stored memory that the query asks for, with its similarity to the query. */
  ghost predicate Relevant(env: Env, st: State, q: MemoryQuery, vector: seq<real>, r: SearchResult) {
    && Get(st.repo, r.memory.id) == Some(r.memory)
    && (q.types != [] ==> r.memory.kind in q.types)
    && (q.scope.GetOr("") != "" ==> ScopeOf(r.memory.id) == q.scope)
    && exists e :: e in Matching(st.index.records, FiltersOf(q))
                   && e.0 == r.memory.id && r.similarity == V.Score(vector, env.norm(vector), e.1)
  }

  lemma TypeNamesDiffer(a: MemoryType, b: MemoryType)
    ensures TypeName(a) == TypeName(b) ==> a == b
  {
    assert |TypeName(Episodic)| == 8 && |TypeName(Semantic)| == 8 && |TypeName(Procedural)| == 10;
    assert TypeName(Episodic)[0] != TypeName(Semantic)[0];
  }

  /** Nothing filters after the index, and nothing needs to. */
  lemma GenuineHitsAreRelevant(env: Env, st: State, q: MemoryQuery, vector: seq<real>, h: V.Hit, r: SearchResult)
    requires GenuineHit(env, st, q, vector, h) && StandsFor(st, r, h)
    ensures Relevant(env, st, q, vector, r)
  {
    var e :| e in Matching(st.index.records, FiltersOf(q))
             && e.0 == h.id && h == V.HitOf(vector, env.norm(vector), e.1) && Backed(st.repo, e.0, e.1);
    MatchingIsSelection(st.index.records, FiltersOf(q));
    FiltersMention(q);
    OnlyScopedIdsHaveScope(r.memory);
    if q.types != [] {
      TypeFilterSelects(q.types, r.memory.kind, FiltersOf(q).value["type"]);
    }
  }

  lemma TypeFilterSelects(types: seq<MemoryType>, kind: MemoryType, f: V.FilterValue)
    requires types != []
    requires f == if |types| == 1 then V.One(TypeName(types[0])) else V.Many(TypeNames(types))
    requires match f case One(v) => TypeName(kind) == v case Many(vs) => TypeName(kind) in vs
    ensures kind in types
  {
    var i :| 0 <= i < |types| && TypeName(types[i]) == TypeName(kind);
    TypeNamesDiffer(types[i], kind);
  }

  /** The answer lists the stored memories of the candidates, each once, by descending score. */
  ghost predicate Resorted(st: State, answer: seq<SearchResult>, c: seq<V.Hit>) {
    && |answer| == |c|
    && Descending(answer, ByAggregate())
    && DistinctBy(answer, ResultId())
    && (forall r {:trigger FromHit(st, r, c)} :: r in answer ==> FromHit(st, r, c))
    && (forall h {:trigger InAnswer(st, answer, h)} :: h in c ==> InAnswer(st, answer, h))
  }

  ghost predicate FromHit(st: State, r: SearchResult, c: seq<V.Hit>) {
    exists h :: h in c && StandsFor(st, r, h)
  }

  ghost predicate InAnswer(st: State, answer: seq<SearchResult>, h: V.Hit) {
    exists r :: r in answer && StandsFor(st, r, h)
  }

  lemma SortedResultsAreResorted(st: State, results: seq<SearchResult>, c: seq<V.Hit>)
    requires DistinctHits(c) && |results| == |c|
    requires forall i :: 0 <= i < |c| ==> StandsFor(st, results[i], c[i])
    ensures Resorted(st, SortDescending(results, ByAggregate()), c)
  {
    var answer := SortDescending(results, ByAggregate());
    SortSorts(results, ByAggregate());
    SortKeepsMembers(results, ByAggregate());
    forall i, j | 0 <= i < j < |c|
      ensures ResultId()(results[i]) != ResultId()(results[j])
    {
      assert HitId()(c[i]) != HitId()(c[j]);
      assert StandsFor(st, results[i], c[i]) && StandsFor(st, results[j], c[j]);
    }
    SortKeepsDistinct(results, ByAggregate(), ResultId());
    forall r | r in answer
      ensures FromHit(st, r, c)
    {
      var i :| 0 <= i < |c| && results[i] == r;
      assert StandsFor(st, r, c[i]) && c[i] in c;
    }
    forall h | h in c
      ensures InAnswer(st, answer, h)
    {
      var i :| 0 <= i < |c| && c[i] == h;
      assert StandsFor(st, results[i], h) && results[i] in answer;
    }
  }

  /** The answer to an accepted query whose scores can be computed: its candidates, re-sorted. */
  lemma AnswerIsCandidates(env: Env, st: State, q: MemoryQuery, vector: seq<real>, now: real)
    requires Agree(env, st) && q.text != "" && V.Accepts(st.index, |vector|)
    ensures
      var answer := QueryMemories(env, st, q, Some(vector), now).1;
      var c := Candidates(env, st, q, vector);
      && (answer.None? <==> c != [] && env.halfLifeMs <= 0.0)
      && (answer.Some? ==> Resorted(st, answer.value, c))
  {
    var c := Candidates(env, st, q, vector);
    CandidatesAreTop(env, st, q, vector);
    ResultsStandForHits(env, st, q, vector, now);
    var results := ResultsOf(env, q, c, now, GetByIds(st.repo, HitIds(c)));
    if results.Some? {
      SortedResultsAreResorted(st, results.value, c);
      assert Answer(q, results.value) == SortDescending(results.value, ByAggregate());
    }
  }

  /** Whatever the index matches is in the answer, or no more similar than anything in it. */
  ghost predicate IsTop(env: Env, answer: seq<SearchResult>, matching: Entries<V.Stored>, vector: seq<real>) {
    forall r, e :: r in answer && e in matching ==>
      Answered(answer, e.0) || r.similarity >= V.Score(vector, env.norm(vector), e.1)
  }

  predicate Answered(answer: seq<SearchResult>, id: string) {
    exists r :: r in answer && r.memory.id == id
  }

  lemma ResortedIsTop(env: Env, st: State, q: MemoryQuery, vector: seq<real>, answer: seq<SearchResult>)
    requires Agree(env, st) && Resorted(st, answer, Candidates(env, st, q, vector))
    ensures IsTop(env, answer, Matching(st.index.records, FiltersOf(q)), vector)
  {
    var c := Candidates(env, st, q, vector);
    CandidatesAreTop(env, st, q, vector);
    forall r, e | r in answer && e in Matching(st.index.records, FiltersOf(q))
      ensures Answered(answer, e.0) || r.similarity >= V.Score(vector, env.norm(vector), e.1)
    {
      assert FromHit(st, r, c);
      var h :| h in c && StandsFor(st, r, h);
      if h' :| h' in c && h'.id == e.0 {
        assert InAnswer(st, answer, h');
      }
    }
  }

  /** A query answers with exactly the similarity top-k of the matching records, each once,
      re-sorted by descending aggregate score; k is the clamped limit, and every memory has a
      requested type and scope although only the index filters. */
  lemma QueryIsExact(env: Env, st: State, q: MemoryQuery, vector: seq<real>, now: real)
    requires Agree(env, st) && q.text != "" && V.Accepts(st.index, |vector|)
    ensures
      var answer := QueryMemories(env, st, q, Some(vector), now).1;
      var matching, k := Matching(st.index.records, FiltersOf(q)), ClampLimit(q.limit);
      && (answer.None? <==> matching != [] && env.halfLifeMs <= 0.0)
      && (answer.Some? ==>
            && |answer.value| == (if k <= |matching| then k else |matching|)
            && Descending(answer.value, ByAggregate())
            && DistinctBy(answer.value, ResultId())
            && (forall r :: r in answer.value ==> Relevant(env, st, q, vector, r))
            && IsTop(env, answer.value, matching, vector))
  {
    var c := Candidates(env, st, q, vector);
    CandidatesAreTop(env, st, q, vector);
    AnswerIsCandidates(env, st, q, vector, now);
    var answer := QueryMemories(env, st, q, Some(vector), now).1;
    if answer.Some? {
      ResortedIsTop(env, st, q, vector, answer.value);
      forall r | r in answer.value
        ensures Relevant(env, st, q, vector, r)
      {
        assert FromHit(st, r, c);
        var h :| h in c && StandsFor(st, r, h);
        GenuineHitsAreRelevant(env, st, q, vector, h, r);
      }
    }
  }

  /** x, or the end of [0, 1] that is nearer to it. */
  predicate IsClamped(r: real, x: real) {
    if x < 0.0 then r == 0.0 else if x > 1.0 then r == 1.0 else r == x
  }

  /** The tokens of the goal's title and description. */
  predicate TokensOf(env: Env, goal: Goal, tokens: set<string>) {
    tokens == env.tokenize(goal.title + " " + if goal.description.Some? then goal.description.value else "")
  }

  /** The best share of a goal's tokens in the content; 0 without content or goals. */
  ghost predicate IsRelevance(env: Env, content: string, goals: seq<Goal>, x: real) {
    if content == "" || goals == [] then x == 0.0
    else
      exists tokens: seq<set<string>> ::
        && |tokens| == |goals| && (forall i :: 0 <= i < |goals| ==> TokensOf(env, goals[i], tokens[i]))
        && S.IsBestShare(x, env.tokenize(content), tokens)
  }

  /** The exponential of the age in half-lives, between 0 and 1. */
  predicate IsDecay(env: Env, createdAt: real, now: real, x: real) {
    var age := if now > createdAt then now - createdAt else 0.0;
    env.halfLifeMs > 0.0 ==> IsClamped(x, env.exp(-(age / env.halfLifeMs)))
  }

  /** The score weighs 60 : 20 : 20. */
  predicate IsWeighed(x: real, similarity: real, decay: real, relevance: real) {
    x == 0.6 * similarity + 0.2 * decay + 0.2 * relevance
  }

  ghost predicate Scored(env: Env, q: MemoryQuery, now: real, r: SearchResult) {
    && IsDecay(env, r.memory.createdAt, now, r.timeDecay)
    && IsRelevance(env, r.memory.content, q.goals, r.goalRelevance)
    && IsWeighed(r.score, r.similarity, r.timeDecay, r.goalRelevance)
  }

  lemma DecayIsDecay(env: Env, createdAt: real, now: real)
    ensures IsDecay(env, createdAt, now, Decay(env, createdAt, now))
  {
  }

  lemma AggregateIsWeighed(similarity: real, decay: real, relevance: real)
    ensures IsWeighed(S.Aggregate(similarity, decay, relevance), similarity, decay, relevance)
  {
  }

  lemma GoalIsTokenized(env: Env, goal: Goal)
    ensures TokensOf(env, goal, env.tokenize(goal.title + " " + goal.description.GetOr("")))
  {
    match goal.description
    case Some(d) => assert goal.description.GetOr("") == d;
    case None =>
  }

  lemma GoalsAreTokenized(env: Env, goals: seq<Goal>)
    ensures |GoalTokens(env, goals)| == |goals|
    ensures forall i :: 0 <= i < |goals| ==> TokensOf(env, goals[i], GoalTokens(env, goals)[i])
  {
    forall i | 0 <= i < |goals|
      ensures TokensOf(env, goals[i], GoalTokens(env, goals)[i])
    {
      GoalIsTokenized(env, goals[i]);
    }
  }

  lemma RelevanceIsRelevance(env: Env, content: string, goals: seq<Goal>)
    ensures IsRelevance(env, content, goals, S.Relevance(content, env.tokenize(content), GoalTokens(env, goals)))
  {
    if content != "" && goals != [] {
      GoalsAreTokenized(env, goals);
      S.RelevanceIsBestShare(content, env.tokenize(content), GoalTokens(env, goals));
    }
  }

  lemma ResultIsScored(env: Env, q: MemoryQuery, hits: seq<V.Hit>, now: real, m: Memory)
    ensures Scored(env, q, now, ResultOf(env, q, hits, now, m))
  {
    var r := ResultOf(env, q, hits, now, m);
    DecayIsDecay(env, m.createdAt, now);
    RelevanceIsRelevance(env, m.content, q.goals);
    AggregateIsWeighed(r.similarity, r.timeDecay, r.goalRelevance);
  }

  lemma AnswersAreScored(env: Env, st: State, q: MemoryQuery, embedding: Option<seq<real>>, now: real)
    ensures
      var answer := QueryMemories(env, st, q, embedding, now).1;
      answer.Some? ==> forall r :: r in answer.value ==> Scored(env, q, now, r)
  {
    var answer := QueryMemories(env, st, q, embedding, now).1;
    if answer.Some? {
      var hits := V.Query(env.norm, st.index, embedding.value, ClampLimit(q.limit), FiltersOf(q)).1.value;
      var memories := GetByIds(st.repo, HitIds(hits));
      var results := ResultsOf(env, q, hits, now, memories).value;
      SortKeepsMembers(results, ByAggregate());
      forall r | r in answer.value
        ensures Scored(env, q, now, r)
      {
        assert r in SortDescending(results, ByAggregate());
        var i :| 0 <= i < |results| && results[i] == r;
        ResultIsScored(env, q, hits, now, memories[i]);
      }
    }
  }

  /** With a monotone exponential, of two memories that are equally similar and relevant the newer
      one never scores lower. */
  lemma NewerScoresNoLower(env: Env, q: MemoryQuery, now: real, older: SearchResult, newer: SearchResult)
    requires Scored(env, q, now, older) && Scored(env, q, now, newer)
    requires older.similarity == newer.similarity && older.goalRelevance == newer.goalRelevance
    requires older.memory.createdAt <= newer.memory.createdAt && env.halfLifeMs > 0.0
    requires forall x, y :: x <= y ==> env.exp(x) <= env.exp(y)
    ensures newer.score >= older.score
  {
    var a := if now - older.memory.createdAt > 0.0 then now - older.memory.createdAt else 0.0;
    var b := if now - newer.memory.createdAt > 0.0 then now - newer.memory.createdAt else 0.0;
    QuotientIsMonotone(b, a, env.halfLifeMs);
    var x, y := env.exp(-(a / env.halfLifeMs)), env.exp(-(b / env.halfLifeMs));
    assert x <= y;
    ClampIsMonotone(older.timeDecay, x, newer.timeDecay, y);
  }

  lemma ClampIsMonotone(r: real, x: real, r': real, x': real)
    requires IsClamped(r, x) && IsClamped(r', x') && x <= x'
    ensures r <= r'
  {
  }

  lemma QuotientIsMonotone(a: real, b: real, d: real)
    requires a <= b && d > 0.0
    ensures a / d <= b / d
  {
  }

  // ---------------------------------------------------------------- access marks

  lemma {:induction false} TouchAllMarks(repo: Memories, results: seq<SearchResult>, now: real, key: string)
    ensures Get(TouchAll(repo, results, now), key) ==
            if Answered(results, key) && Has(repo, key) then Some(Get(repo, key).value.(lastAccessedAt := Some(now)))
            else Get(repo, key)
  {
    if results != [] {
      var n := |results| - 1;
      TouchAllMarks(repo, results[..n], now, key);
      GetUpdateAccess(TouchAll(repo, results[..n], now), results[n].memory.id, now, key);
      assert results == results[..n] + [results[n]];
      assert Answered(results, key) <==> Answered(results[..n], key) || results[n].memory.id == key by {
        if Answered(results, key) {
          var r :| r in results && r.memory.id == key;
          assert r in results[..n] || r == results[n];
        }
      }
    }
  }

  lemma AnsweredIsStored(st: State, results: seq<SearchResult>, c: seq<V.Hit>, key: string)
    requires |results| == |c| && (forall i :: 0 <= i < |c| ==> StandsFor(st, results[i], c[i])) && Answered(results, key)
    ensures Has(st.repo, key)
  {
    var i :| 0 <= i < |results| && results[i].memory.id == key;
    assert StandsFor(st, results[i], c[i]);
  }

  /** A query marks exactly the memories it returns as accessed, and changes nothing else. */
  lemma QueryMarksAnswers(env: Env, st: State, q: MemoryQuery, vector: seq<real>, now: real, key: string)
    requires Agree(env, st) && q.text != "" && V.Accepts(st.index, |vector|)
    ensures
      var (st', answer) := QueryMemories(env, st, q, Some(vector), now);
      && st'.index.records == st.index.records
      && if answer.Some? && Answered(answer.value, key)
         then Has(st.repo, key) && Get(st'.repo, key) == Some(Get(st.repo, key).value.(lastAccessedAt := Some(now)))
         else Get(st'.repo, key) == Get(st.repo, key)
  {
    var answer := QueryMemories(env, st, q, Some(vector), now).1;
    if answer.Some? {
      var c := Candidates(env, st, q, vector);
      var results := ResultsOf(env, q, c, now, GetByIds(st.repo, HitIds(c))).value;
      ResultsStandForHits(env, st, q, vector, now);
      CandidatesAreTop(env, st, q, vector);
      AnswerHasAllResults(q, results);
      TouchAllMarks(st.repo, results, now, key);
      if Answered(results, key) {
        AnsweredIsStored(st, results, c, key);
      }
    }
  }

  /** Few enough results are all answered. */
  lemma AnswerOfFew(q: MemoryQuery, results: seq<SearchResult>)
    requires |results| <= ClampLimit(q.limit)
    ensures Answer(q, results) == SortDescending(results, ByAggregate())
  {
    SortSorts(results, ByAggregate());
  }

  lemma AnswerHasAllResults(q: MemoryQuery, results: seq<SearchResult>)
    requires |results| <= ClampLimit(q.limit)
    ensures forall id :: Answered(Answer(q, results), id) <==> Answered(results, id)
  {
    AnswerOfFew(q, results);
    SortKeepsMembers(results, ByAggregate());
  }

  // ---------------------------------------------------------------- ties

  /** The results of an accepted query before re-sorting: one for each candidate, in their order. */
  function Results(env: Env, st: State, q: MemoryQuery, vector: seq<real>, now: real): Option<seq<SearchResult>> {
    var c := Candidates(env, st, q, vector);
    ResultsOf(env, q, c, now, GetByIds(st.repo, HitIds(c)))
  }

  lemma AnswerIsSorted(env: Env, st: State, q: MemoryQuery, vector: seq<real>, now: real)
    requires Agree(env, st) && q.text != "" && V.Accepts(st.index, |vector|)
    ensures
      var answer, results := QueryMemories(env, st, q, Some(vector), now).1, Results(env, st, q, vector, now);
      && (answer.Some? <==> results.Some?)
      && (answer.Some? ==> answer.value == SortDescending(results.value, ByAggregate()))
  {
    CandidatesAreTop(env, st, q, vector);
    ResultsStandForHits(env, st, q, vector, now);
    var results := Results(env, st, q, vector, now);
    if results.Some? {
      AnswerOfFew(q, results.value);
    }
  }

  /** Ties are broken by position: hits of equal similarity are taken in index order, and answers of
      equal aggregate score come in the order of their candidates. With the two orders by score this
      determines the answer. */
  lemma TiesKeepOrder(env: Env, st: State, q: MemoryQuery, vector: seq<real>, now: real, v: real)
    requires Agree(env, st) && q.text != "" && V.Accepts(st.index, |vector|)
    ensures
      var hits := V.Hits(st.index.records, vector, env.norm(vector), FiltersOf(q));
      Filter(SortDescending(hits, V.ByScore()), Scoring(v, V.ByScore())) == Filter(hits, Scoring(v, V.ByScore()))
    ensures
      var answer, results := QueryMemories(env, st, q, Some(vector), now).1, Results(env, st, q, vector, now);
      answer.Some? ==>
        results.Some? && Filter(answer.value, Scoring(v, ByAggregate())) == Filter(results.value, Scoring(v, ByAggregate()))
  {
    SortIsStable(V.Hits(st.index.records, vector, env.norm(vector), FiltersOf(q)), V.ByScore(), v);
    AnswerIsSorted(env, st, q, vector, now);
    var results := Results(env, st, q, vector, now);
    if results.Some? {
      SortIsStable(results.value, ByAggregate(), v);
    }
  }

  // ---------------------------------------------------------------- score bounds

  ghost predicate Norms(norm: seq<real> -> real) {
    forall v :: S.IsNorm(norm(v), v)
  }

  /** With true norms every reported similarity is in [-1, 1], every decay and relevance in [0, 1],
      and so every aggregate score in [-0.6, 1]. */
  lemma ScoresAreBounded(env: Env, st: State, q: MemoryQuery, vector: seq<real>, now: real)
    requires Agree(env, st) && Norms(env.norm) && q.text != "" && V.Accepts(st.index, |vector|)
    ensures
      var answer := QueryMemories(env, st, q, Some(vector), now).1;
      answer.Some? ==> forall r :: r in answer.value ==>
        -1.0 <= r.similarity <= 1.0 && 0.0 <= r.timeDecay <= 1.0 && 0.0 <= r.goalRelevance <= 1.0 && -0.6 <= r.score <= 1.0
  {
    QueryIsExact(env, st, q, vector, now);
    var answer := QueryMemories(env, st, q, Some(vector), now).1;
    if answer.Some? {
      var c := Candidates(env, st, q, vector);
      var memories := GetByIds(st.repo, HitIds(c));
      var results := ResultsOf(env, q, c, now, memories).value;
      SortKeepsMembers(results, ByAggregate());
      forall r | r in answer.value
        ensures -1.0 <= r.similarity <= 1.0 && 0.0 <= r.timeDecay <= 1.0 && 0.0 <= r.goalRelevance <= 1.0
        ensures -0.6 <= r.score <= 1.0
      {
        assert Relevant(env, st, q, vector, r);
        var e :| e in Matching(st.index.records, FiltersOf(q))
                 && e.0 == r.memory.id && r.similarity == V.Score(vector, env.norm(vector), e.1);
        ScoreIsBounded(env, st, q, vector, e);
        assert r in results;
        var i :| 0 <= i < |results| && results[i] == r;
        S.RelevanceIsBounded(memories[i].content, env.tokenize(memories[i].content), GoalTokens(env, q.goals));
      }
    }
  }

  lemma EntryScoreIsCosine(env: Env, st: State, q: MemoryQuery, vector: seq<real>, e: (string, V.Stored))
    requires Agree(env, st) && V.Accepts(st.index, |vector|) && e in Matching(st.index.records, FiltersOf(q))
    ensures S.IsCosine(V.Score(vector, env.norm(vector), e.1), vector, e.1.record.vector,
                       env.norm(vector), env.norm(e.1.record.vector))
  {
    MatchingIsSelection(st.index.records, FiltersOf(q));
    var j :| 0 <= j < |st.index.records| && st.index.records[j] == e;
    assert V.StoredWell(env.norm, st.index.records[j].0, st.index.records[j].1, st.index.dimension);
    S.CosineIsCosine(vector, e.1.record.vector, env.norm(vector), e.1.norm);
  }

  ghost predicate HasCosine(env: Env, st: State, q: MemoryQuery, vector: seq<real>, r: SearchResult) {
    exists e :: e in Matching(st.index.records, FiltersOf(q)) && e.0 == r.memory.id
                && S.IsCosine(r.similarity, vector, e.1.record.vector, env.norm(vector), env.norm(e.1.record.vector))
  }

  /** The similarity of every answer is the cosine of the query's vector and that of its own record. */
  lemma SimilaritiesAreCosines(env: Env, st: State, q: MemoryQuery, vector: seq<real>, now: real)
    requires Agree(env, st) && q.text != "" && V.Accepts(st.index, |vector|)
    ensures
      var answer := QueryMemories(env, st, q, Some(vector), now).1;
      answer.Some? ==> forall r :: r in answer.value ==> HasCosine(env, st, q, vector, r)
  {
    QueryIsExact(env, st, q, vector, now);
    var answer := QueryMemories(env, st, q, Some(vector), now).1;
    if answer.Some? {
      forall r | r in answer.value
        ensures HasCosine(env, st, q, vector, r)
      {
        RelevantHasCosine(env, st, q, vector, r);
      }
    }
  }

  lemma RelevantHasCosine(env: Env, st: State, q: MemoryQuery, vector: seq<real>, r: SearchResult)
    requires Agree(env, st) && V.Accepts(st.index, |vector|) && Relevant(env, st, q, vector, r)
    ensures HasCosine(env, st, q, vector, r)
  {
    var e :| e in Matching(st.index.records, FiltersOf(q))
             && e.0 == r.memory.id && r.similarity == V.Score(vector, env.norm(vector), e.1);
    EntryScoreIsCosine(env, st, q, vector, e);
  }

  lemma ScoreIsBounded(env: Env, st: State, q: MemoryQuery, vector: seq<real>, e: (string, V.Stored))
    requires Agree(env, st) && Norms(env.norm) && e in Matching(st.index.records, FiltersOf(q))
    ensures -1.0 <= V.Score(vector, env.norm(vector), e.1) <= 1.0
  {
    MatchingIsSelection(st.index.records, FiltersOf(q));
    var j :| 0 <= j < |st.index.records| && st.index.records[j] == e;
    assert V.StoredWell(env.norm, st.index.records[j].0, st.index.records[j].1, st.index.dimension);
    if |vector| == |e.1.record.vector| {
      S.CosineIsBounded(vector, e.1.record.vector, env.norm(vector), e.1.norm);
    }
  }

  /** A matching record that points in the direction of the query has similarity 1, and whatever is in
      the answer instead of it points there too; no similarity in an answer is greater. */
  lemma SameDirectionIsBest(env: Env, st: State, q: MemoryQuery, vector: seq<real>, now: real, e: (string, V.Stored), k: real)
    requires Agree(env, st) && Norms(env.norm) && q.text != "" && V.Accepts(st.index, |vector|)
    requires e in Matching(st.index.records, FiltersOf(q))
    requires env.norm(vector) > 0.0 && k > 0.0 && e.1.record.vector == S.Scaled(k, vector)
    ensures V.Score(vector, env.norm(vector), e.1) == 1.0
    ensures
      var answer := QueryMemories(env, st, q, Some(vector), now).1;
      answer.Some? ==>
        && (forall r :: r in answer.value ==> r.similarity <= 1.0)
        && (forall r :: r in answer.value && r.memory.id == e.0 ==> r.similarity == 1.0)
        && (!Answered(answer.value, e.0) ==> forall r :: r in answer.value ==> r.similarity == 1.0)
  {
    var (records, filters) := (st.index.records, FiltersOf(q));
    MatchingIsSelection(records, filters);
    var j :| 0 <= j < |records| && records[j] == e;
    assert V.StoredWell(env.norm, records[j].0, records[j].1, st.index.dimension);
    S.DirectionDecides(vector, env.norm(vector), k, e.1.norm);
    QueryIsExact(env, st, q, vector, now);
    ScoresAreBounded(env, st, q, vector, now);
    var answer := QueryMemories(env, st, q, Some(vector), now).1;
    if answer.Some? {
      forall r | r in answer.value && r.memory.id == e.0
        ensures r.similarity == 1.0
      {
        assert Relevant(env, st, q, vector, r);
        var e' :| e' in Matching(records, filters) && e'.0 == r.memory.id && r.similarity == V.Score(vector, env.norm(vector), e'.1);
        SameKeySameEntry(st.index.records, filters, e, e');
      }
    }
  }

  lemma SameKeySameEntry(records: Entries<V.Stored>, filters: Option<V.Filters>, a: (string, V.Stored), b: (string, V.Stored))
    requires Distinct(records) && a in Matching(records, filters) && b in Matching(records, filters) && a.0 == b.0
    ensures a == b
  {
    MatchingIsSelection(records, filters);
    var i :| 0 <= i < |records| && records[i] == a;
    var j :| 0 <= j < |records| && records[j] == b;
    GetIsAt(records, i);
    GetIsAt(records, j);
  }
}
