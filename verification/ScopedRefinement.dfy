/** One shared index and repository serve every scope as if it had its own. */
module ScopedRefinement {
  import opened Seqs
  import opened OrderedMaps
  import Ranking
  import opened Repository
  import V = VectorStore
  import opened MemoryManager
  import opened ScopedMemory

  // ---------------------------------------------------------------- invariants of the shared state

  /** A scope tag is the scope of the key it is filed under. */
  predicate WellTagged(key: string, s: V.Stored) {
    && s.record.id == key
    && s.record.metadata.Some?
    && ("scope" in s.record.metadata.value ==> ScopeOf(key) == Some(s.record.metadata.value["scope"]))
  }

  ghost predicate Tagged(records: Entries<V.Stored>) {
    forall i :: 0 <= i < |records| ==> WellTagged(records[i].0, records[i].1)
  }

  /** Accepted vectors, if any, have length d. */
  predicate Dimensioned(index: V.Store, d: nat) {
    index.dimension.Some? ==> index.dimension.value == d
  }

  ghost predicate StateInv(st: State, d: nat) {
    Distinct(st.index.records) && Tagged(st.index.records) && Keyed(st.repo) && Dimensioned(st.index, d)
  }

  /** A call holds ids of its own scope only. */
  ghost predicate OwnPhase(scope: string, p: Phase) {
    match p
    case StoreEmbedding(m) => InScope(scope)(m.id)
    case StoreSaving(m) => InScope(scope)(m.id)
    case StoreDone(_) => true
    case QueryEmbedding(q) => q.scope == Some(scope)
    case QueryFetching(_, hits) => OwnHits(scope, hits)
    case QueryRanking(_, _, memories) => OwnMemories(scope, memories)
    case QueryTouching(_, results, _, _) => OwnResults(scope, results)
    case QueryDone(_, outcome) => !outcome.Foreign?
  }

  ghost predicate OwnHits(scope: string, hits: seq<V.Hit>) {
    forall i :: 0 <= i < |hits| ==> InScope(scope)(hits[i].id)
  }

  ghost predicate OwnMemories(scope: string, memories: seq<Memory>) {
    forall i :: 0 <= i < |memories| ==> InScope(scope)(memories[i].id)
  }

  ghost predicate OwnResults(scope: string, results: seq<SearchResult>) {
    forall i :: 0 <= i < |results| ==> InScope(scope)(results[i].memory.id)
  }

  ghost predicate OwnPhaseOption(scope: string, p: Option<Phase>) {
    p.Some? ==> OwnPhase(scope, p.value)
  }

  // ---------------------------------------------------------------- the same for one scope

  function Alike(s: string, st: State): (Entries<V.Stored>, Memories) {
    (Part(st.index.records, InScope(s)), Part(st.repo, InScope(s)))
  }

  /** An embedding of the fixed length d, or an empty one, which the index rejects. */
  predicate Embeds(act: Action, d: nat) {
    act.Embedded? && act.embedding.Some? ==> |act.embedding.value| == 0 || |act.embedding.value| == d
  }

  lemma {:induction false} HitsAreLocal(records: Entries<V.Stored>, s: string, vector: seq<real>, n: real, filters: V.Filters)
    requires Tagged(records)
    requires "scope" in filters && filters["scope"] == V.One(s)
    ensures V.Hits(records, vector, n, Some(filters)) == V.Hits(Part(records, InScope(s)), vector, n, Some(filters))
    ensures OwnHits(s, V.Hits(records, vector, n, Some(filters)))
  {
    if records != [] {
      HitsAreLocal(records[1..], s, vector, n, filters);
      assert WellTagged(records[0].0, records[0].1);
      if V.Selected(records[0].1, Some(filters)) {
        assert records[0].1.record.metadata.value["scope"] == s;
        RecoveredScopeOwnsId(records[0].0);
      }
    }
  }

  lemma {:induction false} GetByIdsIsLocal(repo: Memories, ids: seq<string>, s: string)
    requires Keyed(repo)
    requires forall i :: 0 <= i < |ids| ==> InScope(s)(ids[i])
    ensures GetByIds(repo, ids) == GetByIds(Part(repo, InScope(s)), ids)
    ensures OwnMemories(s, GetByIds(repo, ids))
  {
    if ids != [] {
      GetByIdsIsLocal(repo, ids[1..], s);
      PartGet(repo, ids[0], InScope(s));
      HasIsAt(repo, ids[0]);
    }
  }

  lemma UpdateAccessIsLocal(repo: Memories, id: string, now: real, s: string)
    ensures Part(UpdateAccess(repo, id, now), InScope(s)) ==
            if InScope(s)(id) then UpdateAccess(Part(repo, InScope(s)), id, now) else Part(repo, InScope(s))
  {
    if Has(repo, id) {
      PartPut(repo, id, Get(repo, id).value.(lastAccessedAt := Some(now)), InScope(s));
    }
    if InScope(s)(id) {
      PartGet(repo, id, InScope(s));
    }
  }

  lemma AnswerIsOwn(s: string, q: MemoryQuery, results: seq<SearchResult>)
    requires OwnResults(s, results)
    ensures Unscope(s, Answer(q, results)).Found?
  {
    Ranking.SortKeepsMembers(results, ByAggregate());
    forall r | r in Answer(q, results)
      ensures UnscopedId(s, r.memory.id).Some?
    {
      assert r in Ranking.SortDescending(results, ByAggregate());
      var i :| 0 <= i < |results| && results[i] == r;
      assert InScope(s)(results[i].memory.id);
    }
  }

  // ---------------------------------------------------------------- steps of a call

  lemma ProceedIsOwn(st: State, d: nat, s: string, q: MemoryQuery, results: seq<SearchResult>, touched: nat, now: real)
    requires StateInv(st, d) && OwnResults(s, results)
    ensures
      var (st', p) := Proceed(st, s, q, results, touched, now);
      StateInv(st', d) && OwnPhaseOption(s, p)
  {
    if touched < |results| {
      UpdateAccessKeepsKeyed(st.repo, results[touched].memory.id, now);
    } else {
      AnswerIsOwn(s, q, results);
    }
  }

  lemma UpsertedTagged(env: Env, st: State, m: Memory, vector: seq<real>, d: nat)
    requires StateInv(st, d) && (|vector| == 0 || |vector| == d)
    ensures StateInv(State(V.Upsert(env.norm, st.index, [RecordOf(m, vector)]).0, st.repo), d)
  {
    var rec := RecordOf(m, vector);
    if V.Accepts(st.index, |vector|) {
      V.UpsertSingle(env.norm, st.index, rec);
      PutKeys(st.index.records, m.id, V.Stored(rec, env.norm(vector)));
      OnlyScopedIdsHaveScope(m);
    }
  }

  lemma QueriedIsOwn(env: Env, st: State, d: nat, s: string, q: MemoryQuery, vector: seq<real>)
    requires StateInv(st, d) && (|vector| == 0 || |vector| == d)
    requires q.scope == Some(s) && s != ""
    ensures
      var (index, found) := V.Query(env.norm, st.index, vector, ClampLimit(q.limit), FiltersOf(q));
      StateInv(State(index, st.repo), d) && (found.Some? ==> OwnHits(s, found.value))
  {
    FiltersMention(q);
    var hits := V.Hits(st.index.records, vector, env.norm(vector), FiltersOf(q));
    HitsAreLocal(st.index.records, s, vector, env.norm(vector), FiltersOf(q).value);
    Ranking.SortKeepsMembers(hits, V.ByScore());
    forall h | h in Ranking.SortDescending(hits, V.ByScore())
      ensures InScope(s)(h.id)
    {
      assert h in hits;
    }
  }

  /** An action keeps the invariants: in particular no answer ever contains a foreign memory. */
  lemma ActKeepsOwn(env: Env, st: State, d: nat, s: string, p: Option<Phase>, act: Action)
    requires ValidScope(s) && StateInv(st, d) && OwnPhaseOption(s, p) && Embeds(act, d)
    ensures
      var (st', p') := Act(env, st, s, p, act);
      StateInv(st', d) && OwnPhaseOption(s, p')
  {
    match (act, p)
    case (Add(_, m, _), None) => UnscopedIdInverts(s, m.id);
    case (Embedded(Some(vector)), Some(StoreEmbedding(m))) => UpsertedTagged(env, st, m, vector, d);
    case (Embedded(Some(vector)), Some(QueryEmbedding(q))) => QueriedIsOwn(env, st, d, s, q, vector);
    case (Saved(ok), Some(StoreSaving(m))) =>
      SaveKeepsKeyed(st.repo, m);
      RemoveKeys(st.index.records, m.id);
    case (Fetched, Some(QueryFetching(_, hits))) => GetByIdsIsLocal(st.repo, HitIds(hits), s);
    case (Ranked(now), Some(QueryRanking(q, hits, memories))) =>
      var results := ResultsOf(env, q, hits, now, memories);
      if results.Some? {
        ProceedIsOwn(st, d, s, q, results.value, 0, now);
      }
    case (Touched, Some(QueryTouching(q, results, touched, now))) => ProceedIsOwn(st, d, s, q, results, touched, now);
    case _ =>
  }

  /** An action of scope t leaves the part of another scope s as it was. */
  lemma ForeignActIsInvisible(env: Env, st: State, d: nat, s: string, t: string, p: Option<Phase>, act: Action)
    requires ValidScope(s) && ValidScope(t) && s != t
    requires StateInv(st, d) && OwnPhaseOption(t, p)
    ensures Alike(s, Act(env, st, t, p, act).0) == Alike(s, st)
  {
    match (act, p)
    case (Embedded(Some(vector)), Some(StoreEmbedding(m))) =>
      NotInOther(s, t, m.id);
      UpsertIsLocal(env, st.index, m, vector, s);
    case (Saved(ok), Some(StoreSaving(m))) =>
      NotInOther(s, t, m.id);
      PartPut(st.repo, m.id, m, InScope(s));
      PartRemove(st.index.records, m.id, InScope(s));
    case (Ranked(now), Some(QueryRanking(q, hits, memories))) =>
      var results := ResultsOf(env, q, hits, now, memories);
      if results.Some? && results.value != [] {
        NotInOther(s, t, results.value[0].memory.id);
        UpdateAccessIsLocal(st.repo, results.value[0].memory.id, now, s);
      }
    case (Touched, Some(QueryTouching(q, results, touched, now))) =>
      if touched < |results| {
        NotInOther(s, t, results[touched].memory.id);
        UpdateAccessIsLocal(st.repo, results[touched].memory.id, now, s);
      }
    case _ =>
  }

  lemma NotInOther(s: string, t: string, key: string)
    requires ValidScope(s) && ValidScope(t) && s != t && InScope(t)(key)
    ensures !InScope(s)(key)
  {
    if InScope(s)(key) {
      ScopesAreDisjoint(s, t, key);
    }
  }

  lemma UpsertIsLocal(env: Env, index: V.Store, m: Memory, vector: seq<real>, s: string)
    ensures
      var rec := RecordOf(m, vector);
      Part(V.Upsert(env.norm, index, [rec]).0.records, InScope(s)) ==
      if V.Accepts(index, |vector|) && InScope(s)(m.id)
      then Put(Part(index.records, InScope(s)), m.id, V.Stored(rec, env.norm(vector)))
      else Part(index.records, InScope(s))
  {
    var rec := RecordOf(m, vector);
    if V.Accepts(index, |vector|) {
      V.UpsertSingle(env.norm, index, rec);
      PartPut(index.records, m.id, V.Stored(rec, env.norm(vector)), InScope(s));
    }
  }

  lemma ProceedIsDetermined(st: State, st': State, s: string, q: MemoryQuery, results: seq<SearchResult>, touched: nat, now: real)
    requires Alike(s, st) == Alike(s, st')
    ensures Alike(s, Proceed(st, s, q, results, touched, now).0) == Alike(s, Proceed(st', s, q, results, touched, now).0)
  {
    if touched < |results| {
      UpdateAccessIsLocal(st.repo, results[touched].memory.id, now, s);
      UpdateAccessIsLocal(st'.repo, results[touched].memory.id, now, s);
    }
  }

  lemma SaveIsDetermined(st: State, st': State, s: string, m: Memory)
    requires Alike(s, st) == Alike(s, st')
    ensures Alike(s, State(st.index, Save(st.repo, m))) == Alike(s, State(st'.index, Save(st'.repo, m)))
    ensures Alike(s, State(V.Delete(st.index, m.id), st.repo)) == Alike(s, State(V.Delete(st'.index, m.id), st'.repo))
  {
    PartPut(st.repo, m.id, m, InScope(s));
    PartPut(st'.repo, m.id, m, InScope(s));
    PartRemove(st.index.records, m.id, InScope(s));
    PartRemove(st'.index.records, m.id, InScope(s));
  }

  lemma OwnUpsertIsDetermined(env: Env, st: State, st': State, d: nat, s: string, m: Memory, vector: seq<real>)
    requires ValidScope(s) && StateInv(st, d) && StateInv(st', d)
    requires OwnPhase(s, StoreEmbedding(m)) && Embeds(Embedded(Some(vector)), d)
    requires Alike(s, st) == Alike(s, st')
    ensures
      var (r, p) := OnEmbedded(env, st, StoreEmbedding(m), vector);
      var (r', p') := OnEmbedded(env, st', StoreEmbedding(m), vector);
      Alike(s, r) == Alike(s, r') && p == p'
  {
    UpsertIsLocal(env, st.index, m, vector, s);
    UpsertIsLocal(env, st'.index, m, vector, s);
    V.UpsertSingle(env.norm, st.index, RecordOf(m, vector));
    V.UpsertSingle(env.norm, st'.index, RecordOf(m, vector));
  }

  lemma OwnLookupIsDetermined(env: Env, st: State, st': State, d: nat, s: string, q: MemoryQuery, vector: seq<real>)
    requires ValidScope(s) && StateInv(st, d) && StateInv(st', d)
    requires OwnPhase(s, QueryEmbedding(q)) && Embeds(Embedded(Some(vector)), d)
    requires Alike(s, st) == Alike(s, st')
    ensures
      var (r, p) := OnEmbedded(env, st, QueryEmbedding(q), vector);
      var (r', p') := OnEmbedded(env, st', QueryEmbedding(q), vector);
      Alike(s, r) == Alike(s, r') && p == p'
  {
    FiltersMention(q);
    HitsAreLocal(st.index.records, s, vector, env.norm(vector), FiltersOf(q).value);
    HitsAreLocal(st'.index.records, s, vector, env.norm(vector), FiltersOf(q).value);
  }

  lemma OwnFetchIsDetermined(st: State, st': State, d: nat, s: string, hits: seq<V.Hit>)
    requires ValidScope(s) && StateInv(st, d) && StateInv(st', d)
    requires OwnHits(s, hits)
    requires Alike(s, st) == Alike(s, st')
    ensures GetByIds(st.repo, HitIds(hits)) == GetByIds(st'.repo, HitIds(hits))
  {
    GetByIdsIsLocal(st.repo, HitIds(hits), s);
    GetByIdsIsLocal(st'.repo, HitIds(hits), s);
  }

  /** In two states that look alike to scope s, its calls take the same steps. */
  lemma OwnActIsDetermined(env: Env, st: State, st': State, d: nat, s: string, p: Option<Phase>, act: Action)
    requires ValidScope(s) && StateInv(st, d) && StateInv(st', d) && OwnPhaseOption(s, p) && Embeds(act, d)
    requires Alike(s, st) == Alike(s, st')
    ensures Alike(s, Act(env, st, s, p, act).0) == Alike(s, Act(env, st', s, p, act).0)
    ensures Act(env, st, s, p, act).1 == Act(env, st', s, p, act).1
  {
    match (act, p)
    case (Embedded(Some(vector)), Some(StoreEmbedding(m))) => OwnUpsertIsDetermined(env, st, st', d, s, m, vector);
    case (Embedded(Some(vector)), Some(QueryEmbedding(q))) => OwnLookupIsDetermined(env, st, st', d, s, q, vector);
    case (Saved(ok), Some(StoreSaving(m))) => SaveIsDetermined(st, st', s, m);
    case (Fetched, Some(QueryFetching(_, hits))) => OwnFetchIsDetermined(st, st', d, s, hits);
    case (Ranked(now), Some(QueryRanking(q, hits, memories))) =>
      var results := ResultsOf(env, q, hits, now, memories);
      if results.Some? {
        ProceedIsDetermined(st, st', s, q, results.value, 0, now);
      }
    case (Touched, Some(QueryTouching(q, results, touched, now))) =>
      ProceedIsDetermined(st, st', s, q, results, touched, now);
    case _ =>
  }

  // ---------------------------------------------------------------- whole runs

  ghost predicate WorldInv(w: World, d: nat) {
    StateInv(w.st, d) && forall c :: c in w.calls ==> OwnPhase(c.0, w.calls[c])
  }

  predicate FixedDimension(ls: seq<Label>, d: nat) {
    forall l | l in ls :: Embeds(l.act, d)
  }

  lemma {:induction false} RunKeepsWorldInv(env: Env, ls: seq<Label>, d: nat)
    requires ValidScopes(ls) && FixedDimension(ls, d)
    ensures WorldInv(Run(env, EMPTY, ls), d)
  {
    if ls != [] {
      var before, l := ls[..|ls| - 1], ls[|ls| - 1];
      RunKeepsWorldInv(env, before, d);
      var w := Run(env, EMPTY, before);
      ActKeepsOwn(env, w.st, d, l.scope, w.Call(l.scope, l.id), l.act);
    }
  }

  /** Two worlds that scope s cannot tell apart. */
  ghost predicate SameFor(s: string, w: World, w': World) {
    Alike(s, w.st) == Alike(s, w'.st) && forall i :: w.Call(s, i) == w'.Call(s, i)
  }

  lemma OwnStepIsDetermined(env: Env, s: string, w: World, w': World, l: Label, d: nat)
    requires ValidScope(s) && l.scope == s && Embeds(l.act, d)
    requires WorldInv(w, d) && WorldInv(w', d) && SameFor(s, w, w')
    ensures SameFor(s, Step(env, w, l), Step(env, w', l))
  {
    OwnActIsDetermined(env, w.st, w'.st, d, s, w.Call(s, l.id), l.act);
    forall i
      ensures Step(env, w, l).Call(s, i) == Step(env, w', l).Call(s, i)
    {
      assert w.Call(s, i) == w'.Call(s, i) && w.Call(s, l.id) == w'.Call(s, l.id);
    }
  }

  lemma ForeignStepIsInvisible(env: Env, s: string, w: World, l: Label, d: nat)
    requires ValidScope(s) && ValidScope(l.scope) && l.scope != s && WorldInv(w, d)
    ensures SameFor(s, Step(env, w, l), w)
  {
    ForeignActIsInvisible(env, w.st, d, s, l.scope, w.Call(l.scope, l.id), l.act);
  }

  /** One shared, filtered store refines a store per scope: whatever other scopes do in between,
      every call of scope s is at every point where it would be had only the calls of s run,
      and so every query of s returns the same list. */
  lemma {:induction false} SharedStoreRefinesOwnStore(env: Env, s: string, ls: seq<Label>, d: nat)
    requires ValidScope(s) && ValidScopes(ls) && FixedDimension(ls, d)
    ensures SameFor(s, Run(env, EMPTY, ls), Run(env, EMPTY, Only(s, ls)))
  {
    if ls != [] {
      var before, l := ls[..|ls| - 1], ls[|ls| - 1];
      SharedStoreRefinesOwnStore(env, s, before, d);
      RunKeepsWorldInv(env, before, d);
      var own := Only(s, before);
      var w, w' := Run(env, EMPTY, before), Run(env, EMPTY, own);
      if l.scope == s {
        assert (own + [l])[..|own|] == own;
        RunKeepsWorldInv(env, own, d);
        OwnStepIsDetermined(env, s, w, w', l, d);
        assert Run(env, EMPTY, Only(s, ls)) == Step(env, w', l);
      } else {
        ForeignStepIsInvisible(env, s, w, l, d);
        assert Run(env, EMPTY, Only(s, ls)) == w';
      }
    }
  }

  /** Non-interference: runs that agree on the labels of s agree on all that s can see. */
  lemma ScopesDoNotInterfere(env: Env, s: string, ls: seq<Label>, ls': seq<Label>, d: nat)
    requires ValidScope(s) && ValidScopes(ls) && ValidScopes(ls') && FixedDimension(ls, d) && FixedDimension(ls', d)
    requires Only(s, ls) == Only(s, ls')
    ensures SameFor(s, Run(env, EMPTY, ls), Run(env, EMPTY, ls'))
  {
    SharedStoreRefinesOwnStore(env, s, ls, d);
    SharedStoreRefinesOwnStore(env, s, ls', d);
  }

  /** unscopedId never throws. */
  lemma AnswersAreNeverForeign(env: Env, s: string, i: nat, ls: seq<Label>, d: nat)
    requires ValidScopes(ls) && FixedDimension(ls, d)
    ensures
      var p := Run(env, EMPTY, ls).Call(s, i);
      p.Some? && p.value.QueryDone? ==> !p.value.outcome.Foreign?
  {
    RunKeepsWorldInv(env, ls, d);
  }

  // ---------------------------------------------------------------- exactly one dimension

  /** The lengths of embeddings are in lengths. */
  predicate Lengths(ls: seq<Label>, lengths: set<nat>) {
    forall l | l in ls :: l.act.Embedded? && l.act.embedding.Some? ==> |l.act.embedding.value| in lengths
  }

  ghost predicate Isolates(env: Env, lengths: set<nat>) {
    forall s, ls :: ValidScope(s) && ValidScopes(ls) && Lengths(ls, lengths) ==>
      SameFor(s, Run(env, EMPTY, ls), Run(env, EMPTY, Only(s, ls)))
  }

  predicate OneDimension(lengths: set<nat>) {
    forall a, b | a in lengths && b in lengths :: a > 0 && b > 0 ==> a == b
  }

  function Zeros(n: nat): seq<real> {
    seq(n, _ => 0.0)
  }

  const PLAIN := MemoryQuery("q", None, [], [], None)

  /** Scope "b" asks, and its embedding of length m fixes the dimension before scope "a"'s embedding
      of length n arrives. */
  function Race(m: nat, n: nat): seq<Label> {
    [Label("b", 0, Ask(PLAIN)), Label("a", 0, Ask(PLAIN)), Label("b", 0, Embedded(Some(Zeros(m)))), Label("a", 0, Embedded(Some(Zeros(n))))]
  }

  lemma RunsOfRace(env: Env, a0: Label, a1: Label, a2: Label, a3: Label)
    ensures Run(env, EMPTY, [a0, a1]) == Step(env, Step(env, EMPTY, a0), a1)
    ensures Run(env, EMPTY, [a0, a1, a2, a3]) == Step(env, Step(env, Run(env, EMPTY, [a0, a1]), a2), a3)
  {
    assert [a0, a1, a2, a3][..3] == [a0, a1, a2] && [a0, a1, a2][..2] == [a0, a1] && [a0, a1][..1] == [a0] && [a0][..0] == [];
    assert Run(env, EMPTY, [a0]) == Step(env, EMPTY, a0);
    assert Run(env, EMPTY, [a0, a1, a2]) == Step(env, Run(env, EMPTY, [a0, a1]), a2);
  }

  lemma OnlyRace(m: nat, n: nat)
    ensures Only("a", Race(m, n)) == [Race(m, n)[1], Race(m, n)[3]]
  {
    var ls, p := Race(m, n), (l: Label) => l.scope == "a";
    assert ls[..3] == [ls[0], ls[1], ls[2]] && ls[..3][..2] == [ls[0], ls[1]] && ls[..3][..2][..1] == [ls[0]];
    assert Filter([ls[0]], p) == [] by { assert [ls[0]][..0] == []; }
    assert Filter(ls[..3][..2], p) == [ls[1]];
    assert Filter(ls[..3], p) == [ls[1]];
  }

  /** Two dimensions break isolation: the query of "a" throws, though alone it would not. */
  lemma TwoDimensionsInterfere(env: Env, m: nat, n: nat)
    requires m > 0 && n > 0 && m != n
    ensures Run(env, EMPTY, Race(m, n)).Call("a", 0) == Some(QueryDone(PLAIN.(scope := Some("a")), Threw))
    ensures Run(env, EMPTY, Only("a", Race(m, n))).Call("a", 0) != Some(QueryDone(PLAIN.(scope := Some("a")), Threw))
  {
    var ls := Race(m, n);
    var askA, askB := PLAIN.(scope := Some("a")), PLAIN.(scope := Some("b"));
    RunsOfRace(env, ls[0], ls[1], ls[2], ls[3]);
    var w2 := Run(env, EMPTY, [ls[0], ls[1]]);
    assert w2.Call("b", 0) == Some(QueryEmbedding(askB)) && w2.Call("a", 0) == Some(QueryEmbedding(askA));
    assert Step(env, w2, ls[2]).st.index.dimension == Some(m);
    OnlyRace(m, n);
    RunsOfRace(env, ls[1], ls[3], ls[0], ls[0]);
  }

  lemma OneDimensionIsolates(env: Env, lengths: set<nat>, s: string, ls: seq<Label>)
    requires OneDimension(lengths) && ValidScope(s) && ValidScopes(ls) && Lengths(ls, lengths)
    ensures SameFor(s, Run(env, EMPTY, ls), Run(env, EMPTY, Only(s, ls)))
  {
    var d: nat := if n :| n in lengths && n > 0 then n else 0;
    SharedStoreRefinesOwnStore(env, s, ls, d);
  }

  lemma RaceIsAllowed(m: nat, n: nat, lengths: set<nat>)
    requires m in lengths && n in lengths
    ensures ValidScope("a") && ValidScopes(Race(m, n)) && Lengths(Race(m, n), lengths)
  {
  }

  /** The shared store isolates scopes exactly if all accepted embeddings have one dimension. */
  lemma IsolationIffOneDimension(env: Env, lengths: set<nat>)
    ensures Isolates(env, lengths) <==> OneDimension(lengths)
  {
    if OneDimension(lengths) {
      forall s, ls | ValidScope(s) && ValidScopes(ls) && Lengths(ls, lengths)
        ensures SameFor(s, Run(env, EMPTY, ls), Run(env, EMPTY, Only(s, ls)))
      {
        OneDimensionIsolates(env, lengths, s, ls);
      }
    } else {
      var m, n :| m in lengths && n in lengths && m > 0 && n > 0 && m != n;
      RaceIsAllowed(m, n, lengths);
      TwoDimensionsInterfere(env, m, n);
      assert !SameFor("a", Run(env, EMPTY, Race(m, n)), Run(env, EMPTY, Only("a", Race(m, n))));
    }
  }
}
