/** memory/scoped-memory-manager.ts over one shared memory manager. Managers for many scopes run
    at once; each stretch of code between two awaits is one action on the shared index and repository. */
module ScopedMemory {
  import opened Seqs
  import opened OrderedMaps
  import opened Repository
  import V = VectorStore
  import opened MemoryManager

  // ---------------------------------------------------------------- ids

  predicate ValidScope(scope: string) {
    scope != "" && ':' !in scope
  }

  function ScopedId(scope: string, id: string): string {
    scope + ":" + id
  }

  /** None where the source throws. */
  function UnscopedId(scope: string, scopedId: string): Option<string> {
    if scope + ":" <= scopedId then Some(scopedId[|scope| + 1..]) else None
  }

  function InScope(scope: string): string -> bool {
    (key: string) => UnscopedId(scope, key).Some?
  }

  lemma UnscopedIdInverts(scope: string, id: string)
    ensures UnscopedId(scope, ScopedId(scope, id)) == Some(id)
  {
    assert ScopedId(scope, id)[|scope| + 1..] == id;
  }

  lemma {:induction false} FirstColonIsFirst(s: string)
    ensures FirstColon(s) < |s| ==> s[FirstColon(s)] == ':'
    ensures ':' !in s[..FirstColon(s)]
  {
    if s != "" && s[0] != ':' {
      FirstColonIsFirst(s[1..]);
      assert s[..FirstColon(s)] == [s[0]] + s[1..][..FirstColon(s[1..])];
    }
  }

  lemma {:induction false} FirstColonAt(s: string, i: nat)
    requires i < |s| && s[i] == ':' && ':' !in s[..i]
    ensures FirstColon(s) == i
  {
    if i > 0 {
      assert s[0] == s[..i][0];
      assert s[1..][..i - 1] == s[..i][1..];
      FirstColonAt(s[1..], i - 1);
    }
  }

  /** No id is in two scopes, so tenants never share a key. */
  lemma ScopesAreDisjoint(s: string, t: string, key: string)
    requires ValidScope(s) && ValidScope(t) && InScope(s)(key) && InScope(t)(key)
    ensures s == t
  {
    ColonAfterScope(s, key);
    ColonAfterScope(t, key);
  }

  lemma ColonAfterScope(s: string, key: string)
    requires ValidScope(s) && InScope(s)(key)
    ensures FirstColon(key) == |s| && s == key[..|s|]
  {
    assert key[..|s|] == (s + ":")[..|s|] == s;
    assert key[|s|] == (s + ":")[|s|] == ':';
    FirstColonAt(key, |s|);
  }

  lemma ScopedIdIsInjective(s: string, t: string, id: string, jd: string)
    requires ValidScope(s) && ValidScope(t)
    ensures ScopedId(s, id) == ScopedId(t, jd) <==> s == t && id == jd
  {
    UnscopedIdInverts(s, id);
    UnscopedIdInverts(t, jd);
    if ScopedId(s, id) == ScopedId(t, jd) {
      ScopesAreDisjoint(s, t, ScopedId(s, id));
    }
  }

  /** The ids whose memories a scoped query can reach. */
  predicate Reachable(id: string) {
    id != "" && forall c | c in id :: !IsLineTerminator(c)
  }

  /** The manager recovers the scope from a scoped id, unless the id is empty or spans lines:
      such memories are stored without a scope tag. */
  lemma ScopeIsRecovered(scope: string, id: string)
    requires ValidScope(scope)
    ensures ScopeOf(ScopedId(scope, id)) == if Reachable(id) then Some(scope) else None
  {
    var key := ScopedId(scope, id);
    UnscopedIdInverts(scope, id);
    ColonAfterScope(scope, key);
    assert key[|scope| + 1..] == id;
  }

  /** A recovered scope is a valid one, and the id belongs to it. */
  lemma RecoveredScopeOwnsId(key: string)
    requires ScopeOf(key).Some?
    ensures ValidScope(ScopeOf(key).value) && InScope(ScopeOf(key).value)(key)
  {
    FirstColonIsFirst(key);
    var i := FirstColon(key);
    assert key == key[..i] + ":" + key[i + 1..];
  }

  // ---------------------------------------------------------------- actions

  datatype Outcome =
    | Threw
    | Foreign // unscopedId threw: an answer from outside the scope
    | Found(results: seq<SearchResult>)

  /** Where a call stands: what it is waiting for and what it holds. */
  datatype Phase =
    | StoreEmbedding(m: Memory)
    | StoreSaving(m: Memory)
    | StoreDone(ok: bool)
    | QueryEmbedding(q: MemoryQuery)
    | QueryFetching(q: MemoryQuery, hits: seq<V.Hit>)
    | QueryRanking(q: MemoryQuery, hits: seq<V.Hit>, memories: seq<Memory>)
    | QueryTouching(q: MemoryQuery, results: seq<SearchResult>, touched: nat, now: real)
    | QueryDone(q: MemoryQuery, outcome: Outcome)

  datatype Action =
    | Add(kind: MemoryType, memory: Memory, persist: bool)
    | Ask(query: MemoryQuery)
    | Embedded(embedding: Option<seq<real>>)
    | Saved(ok: bool)
    | Fetched
    | Ranked(now: real)
    | Touched

  function Unscope(scope: string, results: seq<SearchResult>): Outcome {
    if exists r | r in results :: UnscopedId(scope, r.memory.id).None? then Foreign
    else Found(seq(|results|, i requires 0 <= i < |results| =>
      results[i].(memory := results[i].memory.(id := UnscopedId(scope, results[i].memory.id).GetOr("")))))
  }

  /** What unscoping makes of a result: the same result, with the scope taken off the id. */
  predicate IsUnscoped(scope: string, r: SearchResult, u: SearchResult) {
    && r.memory.id == scope + ":" + u.memory.id
    && u == r.(memory := r.memory.(id := u.memory.id))
  }

  /** Unscoping gives back the results one by one under their own ids, unless one is not in the scope. */
  lemma UnscopeIsExact(scope: string, results: seq<SearchResult>)
    ensures
      match Unscope(scope, results)
      case Threw => false
      case Foreign => exists r :: r in results && !(scope + ":" <= r.memory.id)
      case Found(answer) =>
        |answer| == |results| && forall i :: 0 <= i < |results| ==> IsUnscoped(scope, results[i], answer[i])
  {
    if Unscope(scope, results).Found? {
      var answer := Unscope(scope, results).results;
      forall i | 0 <= i < |results|
        ensures IsUnscoped(scope, results[i], answer[i])
      {
        var id := results[i].memory.id;
        assert results[i] in results;
        assert id == scope + ":" + id[|scope| + 1..];
      }
    }
  }

  /** Mark the next result as accessed, or answer when all are. */
  function Proceed(st: State, scope: string, q: MemoryQuery, results: seq<SearchResult>, touched: nat, now: real)
    : (State, Option<Phase>)
  {
    if touched < |results| then
      (st.(repo := UpdateAccess(st.repo, results[touched].memory.id, now)), Some(QueryTouching(q, results, touched + 1, now)))
    else
      (st, Some(QueryDone(q, Unscope(scope, Answer(q, results)))))
  }

  function OnEmbedded(env: Env, st: State, phase: Phase, vector: seq<real>): (State, Option<Phase>) {
    match phase
    case StoreEmbedding(m) =>
      var (index, ok) := V.Upsert(env.norm, st.index, [RecordOf(m, vector)]);
      (State(index, st.repo), Some(if ok then StoreSaving(m) else StoreDone(false)))
    case QueryEmbedding(q) =>
      var (index, found) := V.Query(env.norm, st.index, vector, ClampLimit(q.limit), FiltersOf(q));
      (State(index, st.repo), Some(if found.Some? then QueryFetching(q, found.value) else QueryDone(q, Threw)))
    case _ => (st, Some(phase))
  }

  /** One action of one call; an action the call is not waiting for changes nothing. */
  function Act(env: Env, st: State, scope: string, phase: Option<Phase>, act: Action): (State, Option<Phase>) {
    match (act, phase)
    case (Add(kind, m, persist), None) =>
      if !persist then (st, Some(StoreDone(true)))
      else if m.kind != kind || !Storable(env, m) then (st, Some(StoreDone(false)))
      else (st, Some(StoreEmbedding(m.(id := ScopedId(scope, m.id)))))
    case (Ask(q), None) =>
      var scoped := q.(scope := Some(scope));
      (st, Some(if q.text == "" then QueryDone(scoped, Threw) else QueryEmbedding(scoped)))
    case (Embedded(None), Some(StoreEmbedding(_))) => (st, Some(StoreDone(false)))
    case (Embedded(None), Some(QueryEmbedding(q))) => (st, Some(QueryDone(q, Threw)))
    case (Embedded(Some(vector)), Some(p)) => OnEmbedded(env, st, p, vector)
    case (Saved(ok), Some(StoreSaving(m))) =>
      if ok then (State(st.index, Save(st.repo, m)), Some(StoreDone(true)))
      else (State(V.Delete(st.index, m.id), st.repo), Some(StoreDone(false)))
    case (Fetched, Some(QueryFetching(q, hits))) =>
      (st, Some(QueryRanking(q, hits, GetByIds(st.repo, HitIds(hits)))))
    case (Ranked(now), Some(QueryRanking(q, hits, memories))) =>
      (match ResultsOf(env, q, hits, now, memories)
       case None => (st, Some(QueryDone(q, Threw)))
       case Some(results) => Proceed(st, scope, q, results, 0, now))
    case (Touched, Some(QueryTouching(q, results, touched, now))) => Proceed(st, scope, q, results, touched, now)
    case _ => (st, phase)
  }

  // ---------------------------------------------------------------- worlds

  /** The shared state, and the calls of all scopes. */
  datatype World = World(st: State, calls: map<(string, nat), Phase>) {
    function Call(scope: string, id: nat): Option<Phase> {
      if (scope, id) in calls then Some(calls[(scope, id)]) else None
    }
  }

  datatype Label = Label(scope: string, id: nat, act: Action)

  const EMPTY := World(State(V.EMPTY, []), map[])

  function Step(env: Env, w: World, l: Label): World {
    var (st, phase) := Act(env, w.st, l.scope, w.Call(l.scope, l.id), l.act);
    World(st, if phase.Some? then w.calls[(l.scope, l.id) := phase.value] else w.calls)
  }

  function Run(env: Env, w: World, ls: seq<Label>): World {
    if ls == [] then w else Step(env, Run(env, w, ls[..|ls| - 1]), ls[|ls| - 1])
  }

  /** The labels of one scope. */
  function Only(scope: string, ls: seq<Label>): seq<Label> {
    Filter(ls, (l: Label) => l.scope == scope)
  }

  /** The manager's constructor has accepted every scope. */
  predicate ValidScopes(ls: seq<Label>) {
    forall l | l in ls :: ValidScope(l.scope)
  }
}
