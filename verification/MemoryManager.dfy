/** memory/memory-manager.ts: an index of embeddings over a repository of memories. The awaits
    of `store` and `query` separate the functions below; the class runs them without interleaving. */
module MemoryManager {
  import opened Seqs
  import opened OrderedMaps
  import Ranking
  import S = Scoring
  import opened Repository
  import V = VectorStore

  /** What the manager is given: norms, the exponential, tokenisation and the content guard. */
  datatype Env = Env(
    norm: seq<real> -> real,
    exp: real -> real,
    tokenize: string -> set<string>,
    allowed: string -> bool,
    halfLifeMs: real)

  datatype Goal = Goal(title: string, description: Option<string>)

  /** A JavaScript number, as far as the limit is concerned. */
  datatype Limit = NotFinite | Finite(value: real)

  datatype MemoryQuery = MemoryQuery(
    text: string,
    limit: Option<Limit>,
    types: seq<MemoryType>,
    goals: seq<Goal>,
    scope: Option<string>)

  datatype SearchResult = SearchResult(
    memory: Memory, score: real, similarity: real, timeDecay: real, goalRelevance: real)

  // ---------------------------------------------------------------- ids and scopes

  predicate IsLineTerminator(c: char) {
    c == '\n' || c == '\r' || c == '\U{2028}' || c == '\U{2029}'
  }

  function FirstColon(s: string): nat
    ensures FirstColon(s) <= |s|
  {
    if s == "" || s[0] == ':' then 0 else 1 + FirstColon(s[1..])
  }

  /** `id.match(/^([^:]+):(.+)$/)?.[1]` */
  function ScopeOf(id: string): Option<string> {
    var i := FirstColon(id);
    if 0 < i && i + 1 < |id| && (forall c | c in id[i + 1..] :: !IsLineTerminator(c)) then Some(id[..i]) else None
  }

  function MetadataOf(m: Memory): V.Metadata {
    var base := map["type" := TypeName(m.kind), "goalId" := m.goalId.GetOr("")];
    match ScopeOf(m.id)
    case Some(scope) => base["scope" := scope]
    case None => base
  }

  lemma OnlyScopedIdsHaveScope(m: Memory)
    ensures "scope" in MetadataOf(m) <==> ScopeOf(m.id).Some?
    ensures ScopeOf(m.id).Some? ==> MetadataOf(m)["scope"] == ScopeOf(m.id).value
    ensures MetadataOf(m)["type"] == TypeName(m.kind)
  {
    assert |"scope"| == 5 && |"type"| == 4 && |"goalId"| == 6;
  }

  function RecordOf(m: Memory, embedding: seq<real>): V.VectorRecord {
    V.VectorRecord(m.id, embedding, Some(MetadataOf(m)))
  }

  // ---------------------------------------------------------------- the parts of a query

  const MAX_QUERY_LIMIT := 1000

  function ClampLimit(limit: Option<Limit>): (k: nat)
    ensures 1 <= k <= MAX_QUERY_LIMIT
    ensures limit.Some? && limit.value.Finite? && 1.0 <= limit.value.value <= 1000.0 ==>
              k as real <= limit.value.value < k as real + 1.0
    ensures limit.Some? && limit.value.Finite? && 0.0 < limit.value.value < 1.0 ==> k == 1
    ensures limit.Some? && limit.value.Finite? && limit.value.value > 1000.0 ==> k == 1000
    ensures limit.None? || limit.value.NotFinite? || limit.value.value <= 0.0 ==> k == 5
  {
    match limit
    case None => 5
    case Some(NotFinite) => 5
    case Some(Finite(x)) =>
      if x <= 0.0 then 5
      else if x > MAX_QUERY_LIMIT as real then MAX_QUERY_LIMIT
      else if x.Floor >= 1 then x.Floor
      else 1
  }

  function TypeNames(types: seq<MemoryType>): seq<string> {
    seq(|types|, i requires 0 <= i < |types| => TypeName(types[i]))
  }

  function FiltersOf(q: MemoryQuery): Option<V.Filters> {
    var scoped: V.Filters := if q.scope.GetOr("") != "" then map["scope" := V.One(q.scope.value)] else map[];
    var filters :=
      if q.types == [] then scoped
      else if |q.types| == 1 then scoped["type" := V.One(TypeName(q.types[0]))]
      else scoped["type" := V.Many(TypeNames(q.types))];
    if filters == map[] then None else Some(filters)
  }

  /** A scope and a list of types each leave their key in the filter. */
  lemma FiltersMention(q: MemoryQuery)
    ensures q.scope.GetOr("") != "" ==>
              FiltersOf(q).Some? && "scope" in FiltersOf(q).value && FiltersOf(q).value["scope"] == V.One(q.scope.value)
    ensures q.types != [] ==>
              && FiltersOf(q).Some? && "type" in FiltersOf(q).value
              && FiltersOf(q).value["type"] == if |q.types| == 1 then V.One(TypeName(q.types[0])) else V.Many(TypeNames(q.types))
  {
    assert |"scope"| == 5 && |"type"| == 4;
    var scoped: V.Filters := if q.scope.GetOr("") != "" then map["scope" := V.One(q.scope.value)] else map[];
    if q.types != [] {
      assert "type" in scoped["type" := if |q.types| == 1 then V.One(TypeName(q.types[0])) else V.Many(TypeNames(q.types))];
    } else if q.scope.GetOr("") != "" {
      assert "scope" in scoped;
    }
  }

  function HitIds(hits: seq<V.Hit>): seq<string> {
    seq(|hits|, i requires 0 <= i < |hits| => hits[i].id)
  }

  /** `candidates.find(item => item.id === id)?.score ?? 0` */
  function SimilarityOf(hits: seq<V.Hit>, id: string): real {
    if hits == [] then 0.0 else if hits[0].id == id then hits[0].score else SimilarityOf(hits[1..], id)
  }

  function GoalTokens(env: Env, goals: seq<Goal>): seq<set<string>> {
    seq(|goals|, i requires 0 <= i < |goals| => env.tokenize(goals[i].title + " " + goals[i].description.GetOr("")))
  }

  function Decay(env: Env, createdAt: real, now: real): real {
    var age := if now - createdAt > 0.0 then now - createdAt else 0.0;
    S.ClampDecay(env.exp(if env.halfLifeMs > 0.0 then -(age / env.halfLifeMs) else 0.0))
  }

  function ResultOf(env: Env, q: MemoryQuery, hits: seq<V.Hit>, now: real, m: Memory): SearchResult {
    var similarity := SimilarityOf(hits, m.id);
    var decay := Decay(env, m.createdAt, now);
    var relevance := S.Relevance(m.content, env.tokenize(m.content), GoalTokens(env, q.goals));
    SearchResult(m, S.Aggregate(similarity, decay, relevance), similarity, decay, relevance)
  }

  /** None where timeDecayScore throws for some memory. */
  function ResultsOf(env: Env, q: MemoryQuery, hits: seq<V.Hit>, now: real, memories: seq<Memory>)
    : Option<seq<SearchResult>>
  {
    if memories != [] && env.halfLifeMs <= 0.0 then None
    else Some(seq(|memories|, i requires 0 <= i < |memories| => ResultOf(env, q, hits, now, memories[i])))
  }

  function ByAggregate(): SearchResult -> real {
    (r: SearchResult) => r.score
  }

  function Answer(q: MemoryQuery, results: seq<SearchResult>): seq<SearchResult> {
    Ranking.Take(Ranking.SortDescending(results, ByAggregate()), ClampLimit(q.limit))
  }

  /** updateAccess for each result in turn. */
  function TouchAll(repo: Memories, results: seq<SearchResult>, now: real): Memories {
    if results == [] then repo
    else UpdateAccess(TouchAll(repo, results[..|results| - 1], now), results[|results| - 1].memory.id, now)
  }

  // ---------------------------------------------------------------- store and query, uninterrupted

  datatype State = State(index: V.Store, repo: Memories)

  predicate Storable(env: Env, m: Memory) {
    m.content != "" && env.allowed(m.content)
  }

  /** False where the source throws. The embedding is None, and saveOk false, if that call rejects. */
  function StoreMemory(env: Env, st: State, m: Memory, embedding: Option<seq<real>>, saveOk: bool): (State, bool) {
    if !Storable(env, m) || embedding.None? then (st, false)
    else
      var (index, indexed) := V.Upsert(env.norm, st.index, [RecordOf(m, embedding.value)]);
      if !indexed then (State(index, st.repo), false)
      else if saveOk then (State(index, Save(st.repo, m)), true)
      else (State(V.Delete(index, m.id), st.repo), false)
  }

  function QueryMemories(env: Env, st: State, q: MemoryQuery, embedding: Option<seq<real>>, now: real)
    : (State, Option<seq<SearchResult>>)
  {
    if q.text == "" || embedding.None? then (st, None)
    else
      var (index, found) := V.Query(env.norm, st.index, embedding.value, ClampLimit(q.limit), FiltersOf(q));
      if found.None? then (State(index, st.repo), None)
      else
        match ResultsOf(env, q, found.value, now, GetByIds(st.repo, HitIds(found.value)))
        case None => (State(index, st.repo), None)
        case Some(results) => (State(index, TouchAll(st.repo, results, now)), Some(Answer(q, results)))
  }

  // ---------------------------------------------------------------- the class

  class MemoryManager {
    const env: Env
    const vectorStore: V.LocalVectorStore
    const repository: InMemoryMemoryRepository

    ghost function View(): State
      reads this, vectorStore, repository
    {
      State(vectorStore.View(), repository.memories)
    }

    ghost predicate Valid()
      reads this, vectorStore, repository
    {
      vectorStore.norm == env.norm && vectorStore.Valid() && repository.Valid()
    }

    constructor (env: Env, vectorStore: V.LocalVectorStore, repository: InMemoryMemoryRepository)
      ensures this.env == env && this.vectorStore == vectorStore && this.repository == repository
    {
      this.env := env;
      this.vectorStore := vectorStore;
      this.repository := repository;
    }

    method Store(m: Memory, embedding: Option<seq<real>>, saveOk: bool) returns (ok: bool)
      requires Valid()
      modifies vectorStore, repository
      ensures Valid()
      ensures (View(), ok) == StoreMemory(env, old(View()), m, embedding, saveOk)
    {
      if m.content == "" || !env.allowed(m.content) || embedding.None? {
        return false;
      }
      var indexed := vectorStore.UpsertAll([RecordOf(m, embedding.value)]);
      if !indexed {
        return false;
      }
      if saveOk {
        repository.SaveMemory(m);
      } else {
        vectorStore.Drop(m.id);
      }
      return saveOk;
    }

    method Query(q: MemoryQuery, embedding: Option<seq<real>>, now: real) returns (answer: Option<seq<SearchResult>>)
      requires Valid()
      modifies vectorStore, repository
      ensures Valid()
      ensures (View(), answer) == QueryMemories(env, old(View()), q, embedding, now)
    {
      if q.text == "" || embedding.None? {
        return None;
      }
      var requestedLimit := ClampLimit(q.limit);
      var candidates := vectorStore.Search(embedding.value, requestedLimit, FiltersOf(q));
      if candidates.None? {
        return None;
      }
      var memories := repository.FindByIds(HitIds(candidates.value));
      var results := ResultsOf(env, q, candidates.value, now, memories);
      if results.None? {
        return None;
      }
      ghost var repo := repository.memories;
      for i := 0 to |results.value|
        invariant Valid() && vectorStore.View() == V.Query(env.norm, old(View()).index, embedding.value, requestedLimit, FiltersOf(q)).0
        invariant repository.memories == TouchAll(repo, results.value[..i], now)
      {
        assert results.value[..i + 1][..i] == results.value[..i];
        repository.Access(results.value[i].memory.id, now);
      }
      assert results.value[..|results.value|] == results.value;
      return Some(Ranking.Take(Ranking.SortDescending(results.value, ByAggregate()), requestedLimit));
    }
  }
}
