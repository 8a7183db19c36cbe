/** Which memories an interleaved query can return: only ids whose scope can be recovered, and only
    requested types exactly if memories that share an id share a type. */
module ScopedTypes {
  import opened Seqs
  import opened OrderedMaps
  import Ranking
  import opened Repository
  import V = VectorStore
  import opened MemoryManager
  import opened MemoryExactness
  import opened ScopedMemory
  import opened ScopedAgreement

  // ---------------------------------------------------------------- where memories come from

  /** All stored memories are taken from the given ones. */
  predicate StoresFrom(ls: seq<Label>, memories: set<Memory>) {
    forall l | l in ls :: l.act.Add? ==> l.act.memory in memories
  }

  /** Of the memories that pass the content checks and can be found at all, those with one id have one type. */
  predicate KindsAgree(env: Env, memories: set<Memory>) {
    forall a, b | a in memories && b in memories ::
      Storable(env, a) && Storable(env, b) && Reachable(a.id) && a.id == b.id ==> a.kind == b.kind
  }

  /** Some scope stores a memory of this type and goal under this key. */
  ghost predicate From(env: Env, memories: set<Memory>, key: string, m: Memory) {
    exists s, n :: StoredAs(env, memories, s, n, key) && n.kind == m.kind && n.goalId == m.goalId
  }

  predicate StoredAs(env: Env, memories: set<Memory>, s: string, m: Memory, key: string) {
    ValidScope(s) && m in memories && Storable(env, m) && key == ScopedId(s, m.id)
  }

  lemma KeyHasOneKind(env: Env, memories: set<Memory>, key: string, a: Memory, b: Memory)
    requires KindsAgree(env, memories) && From(env, memories, key, a) && From(env, memories, key, b)
    requires ScopeOf(key).Some?
    ensures a.kind == b.kind
  {
    var s, m :| StoredAs(env, memories, s, m, key) && m.kind == a.kind && m.goalId == a.goalId;
    var t, n :| StoredAs(env, memories, t, n, key) && n.kind == b.kind && n.goalId == b.goalId;
    ScopedIdIsInjective(s, t, m.id, n.id);
    ScopeIsRecovered(s, m.id);
  }

  // ---------------------------------------------------------------- the invariant

  /** A record describes some memory stored under its key. */
  ghost predicate TypedEntry(env: Env, memories: set<Memory>, key: string, stored: V.Stored) {
    && stored.record.id == key
    && exists m: Memory :: Describes(m, key, stored) && From(env, memories, key, m)
  }

  predicate Describes(m: Memory, key: string, stored: V.Stored) {
    m.id == key && stored.record.metadata == Some(MetadataOf(m))
  }

  ghost predicate TypedState(env: Env, memories: set<Memory>, st: State) {
    && Distinct(st.index.records) && Keyed(st.repo)
    && (forall i :: 0 <= i < |st.index.records| ==>
          TypedEntry(env, memories, st.index.records[i].0, st.index.records[i].1))
    && (forall i :: 0 <= i < |st.repo| ==> From(env, memories, st.repo[i].0, st.repo[i].1))
  }

  predicate Requested(q: MemoryQuery, kind: MemoryType) {
    q.types != [] ==> kind in q.types
  }

  /** The hit is in scope, and at the time of the lookup described a memory of a requested type. */
  ghost predicate TypedHit(env: Env, memories: set<Memory>, q: MemoryQuery, h: V.Hit) {
    ScopeOf(h.id) == q.scope && exists m: Memory :: From(env, memories, h.id, m) && Requested(q, m.kind)
  }

  /** The memory is in scope and, if kinds agree, of a requested type. */
  predicate TypedMemory(env: Env, memories: set<Memory>, q: MemoryQuery, m: Memory) {
    ScopeOf(m.id) == q.scope && (KindsAgree(env, memories) ==> Requested(q, m.kind))
  }

  predicate TypedMemories(env: Env, memories: set<Memory>, q: MemoryQuery, ms: seq<Memory>) {
    forall i :: 0 <= i < |ms| ==> TypedMemory(env, memories, q, ms[i])
  }

  predicate TypedResults(env: Env, memories: set<Memory>, q: MemoryQuery, rs: seq<SearchResult>) {
    forall i :: 0 <= i < |rs| ==> TypedMemory(env, memories, q, rs[i].memory)
  }

  /** All results are of requested types. */
  predicate OnlyRequested(p: Phase) {
    p.QueryDone? && p.outcome.Found? ==> forall r | r in p.outcome.results :: Requested(p.q, r.memory.kind)
  }

  /** All results have ids from which the scope can be recovered. */
  predicate OnlyReachable(p: Phase) {
    p.QueryDone? && p.outcome.Found? ==> forall r | r in p.outcome.results :: Reachable(r.memory.id)
  }

  ghost predicate TypedPhase(env: Env, memories: set<Memory>, s: string, p: Phase) {
    match p
    case StoreEmbedding(m) => From(env, memories, m.id, m)
    case StoreSaving(m) => From(env, memories, m.id, m)
    case StoreDone(_) => true
    case QueryEmbedding(q) => q.scope == Some(s)
    case QueryFetching(q, hits) => q.scope == Some(s) && forall i :: 0 <= i < |hits| ==> TypedHit(env, memories, q, hits[i])
    case QueryRanking(q, _, ms) => q.scope == Some(s) && TypedMemories(env, memories, q, ms)
    case QueryTouching(q, rs, _, _) => q.scope == Some(s) && TypedResults(env, memories, q, rs)
    case QueryDone(_, _) => OnlyReachable(p) && (KindsAgree(env, memories) ==> OnlyRequested(p))
  }

  ghost predicate TypedOption(env: Env, memories: set<Memory>, s: string, p: Option<Phase>) {
    p.Some? ==> TypedPhase(env, memories, s, p.value)
  }

  // ---------------------------------------------------------------- the shared state

  lemma ActKeepsTypedState(env: Env, memories: set<Memory>, st: State, s: string, p: Option<Phase>, act: Action)
    requires TypedState(env, memories, st) && TypedOption(env, memories, s, p)
    ensures TypedState(env, memories, Act(env, st, s, p, act).0)
  {
    ActMoves(env, st, s, p, act);
    match MoveOf(env, st, p, act)
    case Indexed(m, stored) =>
      assert Describes(m, m.id, stored);
      assert TypedEntry(env, memories, m.id, stored);
      PutKeys(st.index.records, m.id, stored);
    case Recorded(m) =>
      PutKeys(st.repo, m.id, m);
      SaveKeepsKeyed(st.repo, m);
    case RolledBack(m) => RemoveKeys(st.index.records, m.id);
    case Accessed(id, now) => AccessKeepsFrom(env, memories, st.repo, id, now);
    case Still =>
  }

  lemma AccessKeepsFrom(env: Env, memories: set<Memory>, repo: Memories, id: string, now: real)
    requires Keyed(repo) && forall i :: 0 <= i < |repo| ==> From(env, memories, repo[i].0, repo[i].1)
    ensures Keyed(UpdateAccess(repo, id, now))
    ensures forall i :: 0 <= i < |UpdateAccess(repo, id, now)| ==>
              From(env, memories, UpdateAccess(repo, id, now)[i].0, UpdateAccess(repo, id, now)[i].1)
  {
    UpdateAccessKeepsKeyed(repo, id, now);
    if Has(repo, id) {
      HasIsAt(repo, id);
      PutKeys(repo, id, Get(repo, id).value.(lastAccessedAt := Some(now)));
    }
  }

  // ---------------------------------------------------------------- hits and memories

  /** A record is selected by a scoped query only if its key is in the scope, and then exactly if the
      memory it describes has a requested type. */
  lemma SelectedIff(q: MemoryQuery, s: string, m: Memory, stored: V.Stored)
    requires q.scope == Some(s) && ValidScope(s) && Describes(m, stored.record.id, stored)
    ensures V.Selected(stored, FiltersOf(q)) <==> ScopeOf(m.id) == Some(s) && Requested(q, m.kind)
  {
    FiltersMention(q);
    OnlyScopedIdsHaveScope(m);
    var filters := FiltersOf(q).value;
    if q.types != [] {
      TypeSelectsIff(q.types, m.kind, filters["type"]);
    }
    FiltersHaveTwoKeys(q);
  }

  lemma FiltersHaveTwoKeys(q: MemoryQuery)
    ensures FiltersOf(q).Some? ==> forall key :: key in FiltersOf(q).value ==> key == "scope" || (key == "type" && q.types != [])
  {
    assert |"scope"| == 5 && |"type"| == 4;
  }

  lemma TypeSelectsIff(types: seq<MemoryType>, kind: MemoryType, f: V.FilterValue)
    requires types != []
    requires f == if |types| == 1 then V.One(TypeName(types[0])) else V.Many(TypeNames(types))
    ensures (match f case One(v) => TypeName(kind) == v case Many(vs) => TypeName(kind) in vs) <==> kind in types
  {
    if kind in types {
      var i :| 0 <= i < |types| && types[i] == kind;
      assert TypeNames(types)[i] == TypeName(kind);
    }
    if match f case One(v) => TypeName(kind) == v case Many(vs) => TypeName(kind) in vs {
      TypeFilterSelects(types, kind, f);
    }
  }

  lemma {:induction false} HitsAreTyped(env: Env, memories: set<Memory>, records: Entries<V.Stored>, s: string, vector: seq<real>, n: real, q: MemoryQuery)
    requires q.scope == Some(s) && ValidScope(s)
    requires forall i :: 0 <= i < |records| ==> TypedEntry(env, memories, records[i].0, records[i].1)
    ensures forall h :: h in V.Hits(records, vector, n, FiltersOf(q)) ==> TypedHit(env, memories, q, h)
  {
    if records != [] {
      HitsAreTyped(env, memories, records[1..], s, vector, n, q);
      var (key, stored) := records[0];
      assert TypedEntry(env, memories, records[0].0, records[0].1);
      if V.Selected(stored, FiltersOf(q)) {
        var m: Memory :| Describes(m, key, stored) && From(env, memories, key, m);
        SelectedIff(q, s, m, stored);
        assert TypedHit(env, memories, q, V.HitOf(vector, n, stored));
      }
    }
  }

  lemma QueryIsTyped(env: Env, memories: set<Memory>, st: State, s: string, q: MemoryQuery, vector: seq<real>)
    requires ValidScope(s) && q.scope == Some(s) && TypedState(env, memories, st)
    ensures
      var found := V.Query(env.norm, st.index, vector, ClampLimit(q.limit), FiltersOf(q)).1;
      found.Some? ==> forall i :: 0 <= i < |found.value| ==> TypedHit(env, memories, q, found.value[i])
  {
    var hits := V.Hits(st.index.records, vector, env.norm(vector), FiltersOf(q));
    HitsAreTyped(env, memories, st.index.records, s, vector, env.norm(vector), q);
    Ranking.SortKeepsMembers(hits, V.ByScore());
    var found := Ranking.Take(Ranking.SortDescending(hits, V.ByScore()), ClampLimit(q.limit));
    forall i | 0 <= i < |found|
      ensures TypedHit(env, memories, q, found[i])
    {
      assert found[i] in Ranking.SortDescending(hits, V.ByScore());
    }
  }

  lemma {:induction false} FetchedAreTyped(env: Env, memories: set<Memory>, repo: Memories, q: MemoryQuery, hits: seq<V.Hit>)
    requires Keyed(repo) && forall i :: 0 <= i < |repo| ==> From(env, memories, repo[i].0, repo[i].1)
    requires q.scope.Some? && forall i :: 0 <= i < |hits| ==> TypedHit(env, memories, q, hits[i])
    ensures TypedMemories(env, memories, q, GetByIds(repo, HitIds(hits)))
  {
    if hits != [] {
      var rest := GetByIds(repo, HitIds(hits[1..]));
      assert HitIds(hits)[0] == hits[0].id && HitIds(hits)[1..] == HitIds(hits[1..]);
      FetchedAreTyped(env, memories, repo, q, hits[1..]);
      if Has(repo, hits[0].id) {
        FetchedIsTyped(env, memories, repo, q, hits[0]);
        assert GetByIds(repo, HitIds(hits)) == [Get(repo, hits[0].id).value] + rest;
      }
    }
  }

  lemma FetchedIsTyped(env: Env, memories: set<Memory>, repo: Memories, q: MemoryQuery, h: V.Hit)
    requires Keyed(repo) && forall i :: 0 <= i < |repo| ==> From(env, memories, repo[i].0, repo[i].1)
    requires q.scope.Some? && TypedHit(env, memories, q, h) && Has(repo, h.id)
    ensures TypedMemory(env, memories, q, Get(repo, h.id).value)
  {
    HasIsAt(repo, h.id);
    var m := Get(repo, h.id).value;
    var n: Memory :| From(env, memories, h.id, n) && Requested(q, n.kind);
    assert From(env, memories, h.id, m);
    if KindsAgree(env, memories) {
      KeyHasOneKind(env, memories, h.id, m, n);
    }
  }

  lemma AnswerIsTyped(env: Env, memories: set<Memory>, s: string, q: MemoryQuery, results: seq<SearchResult>)
    requires ValidScope(s) && q.scope == Some(s)
    requires TypedResults(env, memories, q, results)
    ensures TypedPhase(env, memories, s, QueryDone(q, Unscope(s, Answer(q, results))))
  {
    var answer := Answer(q, results);
    Ranking.SortKeepsMembers(results, ByAggregate());
    forall i | 0 <= i < |answer|
      ensures TypedMemory(env, memories, q, answer[i].memory)
      ensures Reachable(UnscopedId(s, answer[i].memory.id).GetOr("x"))
    {
      assert answer[i] in Ranking.SortDescending(results, ByAggregate());
      var j :| 0 <= j < |results| && results[j] == answer[i];
      var key := answer[i].memory.id;
      RecoveredScopeOwnsId(key);
      var id := UnscopedId(s, key).value;
      assert key == ScopedId(s, id);
      ScopeIsRecovered(s, id);
    }
  }

  lemma ProceedIsTyped(env: Env, memories: set<Memory>, st: State, s: string, q: MemoryQuery, results: seq<SearchResult>, touched: nat, now: real)
    requires ValidScope(s) && q.scope == Some(s)
    requires TypedResults(env, memories, q, results)
    ensures TypedOption(env, memories, s, Proceed(st, s, q, results, touched, now).1)
  {
    if touched >= |results| {
      AnswerIsTyped(env, memories, s, q, results);
    }
  }

  lemma ActKeepsTypedPhase(env: Env, memories: set<Memory>, st: State, s: string, p: Option<Phase>, act: Action)
    requires ValidScope(s) && TypedState(env, memories, st) && TypedOption(env, memories, s, p)
    requires act.Add? ==> act.memory in memories
    ensures TypedOption(env, memories, s, Act(env, st, s, p, act).1)
  {
    match (act, p)
    case (Add(kind, m, persist), None) =>
      if Storable(env, m) {
        assert StoredAs(env, memories, s, m, ScopedId(s, m.id));
        assert From(env, memories, ScopedId(s, m.id), m.(id := ScopedId(s, m.id)));
      }
    case (Embedded(Some(vector)), Some(QueryEmbedding(q))) => QueryIsTyped(env, memories, st, s, q, vector);
    case (Fetched, Some(QueryFetching(q, hits))) => FetchedAreTyped(env, memories, st.repo, q, hits);
    case (Ranked(now), Some(QueryRanking(q, hits, ms))) =>
      var results := ResultsOf(env, q, hits, now, ms);
      if results.Some? {
        ProceedIsTyped(env, memories, st, s, q, results.value, 0, now);
      }
    case (Touched, Some(QueryTouching(q, results, touched, now))) =>
      ProceedIsTyped(env, memories, st, s, q, results, touched, now);
    case _ =>
  }

  ghost predicate TypedWorld(env: Env, memories: set<Memory>, w: World) {
    TypedState(env, memories, w.st) && forall c :: c in w.calls ==> TypedPhase(env, memories, c.0, w.calls[c])
  }

  lemma {:induction false} RunIsTyped(env: Env, memories: set<Memory>, ls: seq<Label>)
    requires ValidScopes(ls) && StoresFrom(ls, memories)
    ensures TypedWorld(env, memories, Run(env, EMPTY, ls))
  {
    if ls != [] {
      var before, l := ls[..|ls| - 1], ls[|ls| - 1];
      RunIsTyped(env, memories, before);
      var w := Run(env, EMPTY, before);
      ActKeepsTypedState(env, memories, w.st, l.scope, w.Call(l.scope, l.id), l.act);
      ActKeepsTypedPhase(env, memories, w.st, l.scope, w.Call(l.scope, l.id), l.act);
    }
  }

  // ---------------------------------------------------------------- reachable memories

  function Added(ls: seq<Label>): set<Memory> {
    set l | l in ls && l.act.Add? :: l.act.memory
  }

  /** The tag that a record carries. */
  predicate Tagged(stored: V.Stored, kind: MemoryType) {
    && stored.record.metadata.Some? && "type" in stored.record.metadata.value
    && stored.record.metadata.value["type"] == TypeName(kind)
  }

  ghost predicate TagRequested(q: MemoryQuery, stored: V.Stored) {
    exists kind :: Tagged(stored, kind) && Requested(q, kind)
  }

  /** In every run, a query of scope s considers an indexed record exactly if the scope recovered from
      its id is s and its tag is a requested type; and no answer contains an id from which the scope
      cannot be recovered. */
  lemma OnlyReachableAreFound(env: Env, ls: seq<Label>, s: string, q: MemoryQuery, i: nat)
    requires ValidScopes(ls) && ValidScope(s) && q.scope == Some(s)
    ensures
      var w := Run(env, EMPTY, ls);
      && (forall key, stored :: Filed(w, key, stored) ==>
            (V.Selected(stored, FiltersOf(q)) <==> ScopeOf(key) == Some(s) && TagRequested(q, stored)))
      && (w.Call(s, i).Some? ==> OnlyReachable(w.Call(s, i).value))
  {
    var w := Run(env, EMPTY, ls);
    RunIsTyped(env, Added(ls), ls);
    forall key, stored | Filed(w, key, stored)
      ensures V.Selected(stored, FiltersOf(q)) <==> ScopeOf(key) == Some(s) && TagRequested(q, stored)
    {
      var j :| 0 <= j < |w.st.index.records| && w.st.index.records[j] == (key, stored);
      assert TypedEntry(env, Added(ls), w.st.index.records[j].0, w.st.index.records[j].1);
      var m: Memory :| Describes(m, key, stored) && From(env, Added(ls), key, m);
      SelectedIff(q, s, m, stored);
      TagIsKind(q, m, key, stored);
    }
  }

  lemma TagIsKind(q: MemoryQuery, m: Memory, key: string, stored: V.Stored)
    requires Describes(m, key, stored)
    ensures TagRequested(q, stored) <==> Requested(q, m.kind)
  {
    OnlyScopedIdsHaveScope(m);
    assert Tagged(stored, m.kind);
    if TagRequested(q, stored) {
      var kind :| Tagged(stored, kind) && Requested(q, kind);
      TypeNamesDiffer(m.kind, kind);
    }
  }
}
