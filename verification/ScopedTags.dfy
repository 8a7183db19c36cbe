/** When the tags of the index can be trusted while stores and queries interleave: exactly if memories
    that share an id share what the tags tell. */
module ScopedTags {
  import opened Seqs
  import opened OrderedMaps
  import Ranking
  import opened Repository
  import V = VectorStore
  import opened MemoryManager
  import opened MemoryExactness
  import opened ScopedMemory
  import opened ScopedAgreement
  import opened ScopedTypes

  // ---------------------------------------------------------------- the two properties

  /** In every interleaving of queries and stores of these memories, answers have only requested types. */
  ghost predicate TypeFilterHolds(env: Env, memories: set<Memory>) {
    forall ls, s, i {:trigger Run(env, EMPTY, ls).Call(s, i)} ::
      ValidScopes(ls) && StoresFrom(ls, memories) && Run(env, EMPTY, ls).Call(s, i).Some? ==>
        OnlyRequested(Run(env, EMPTY, ls).Call(s, i).value)
  }

  /** An entry of which no save is pending tells the type and goal of the stored memory. */
  ghost predicate TagsTrue(w: World) {
    forall key, stored :: Filed(w, key, stored) && !Pending(w, key) ==> Backed(w.st.repo, key, stored)
  }

  ghost predicate TagsHold(env: Env, memories: set<Memory>) {
    forall ls {:trigger Run(env, EMPTY, ls)} ::
      ValidScopes(ls) && StoresFrom(ls, memories) ==> TagsTrue(Run(env, EMPTY, ls))
  }

  /** Of the memories that pass the content checks, those with one id have one type and goal. */
  predicate TagsAgree(env: Env, memories: set<Memory>) {
    forall a, b | a in memories && b in memories ::
      Storable(env, a) && Storable(env, b) && a.id == b.id ==>
        a.kind == b.kind && a.goalId.GetOr("") == b.goalId.GetOr("")
  }

  // ---------------------------------------------------------------- a call's actions in a run

  function Of(s: string, i: nat, acts: seq<Action>): seq<Label> {
    seq(|acts|, k requires 0 <= k < |acts| => Label(s, i, acts[k]))
  }

  lemma {:induction false} RunConcat(env: Env, w: World, a: seq<Label>, b: seq<Label>)
    ensures Run(env, w, a + b) == Run(env, Run(env, w, a), b)
  {
    if b == [] {
      assert a + b == a;
    } else {
      assert (a + b)[..|a + b| - 1] == a + b[..|b| - 1];
      RunConcat(env, w, a, b[..|b| - 1]);
    }
  }

  /** The call stands at p', the others where they stood. */
  ghost predicate Moved(w: World, w': World, s: string, i: nat, p': Option<Phase>) {
    w'.Call(s, i) == p' && forall t: string, j: nat :: (t, j) != (s, i) ==> w'.Call(t, j) == w.Call(t, j)
  }

  lemma {:induction false} RunOf(env: Env, w: World, s: string, i: nat, acts: seq<Action>)
    ensures
      var (st', p') := Acts(env, w.st, s, w.Call(s, i), acts);
      Run(env, w, Of(s, i, acts)).st == st' && Moved(w, Run(env, w, Of(s, i, acts)), s, i, p')
    decreases |acts|
  {
    if acts != [] {
      var l := Label(s, i, acts[0]);
      assert Of(s, i, acts) == [l] + Of(s, i, acts[1..]);
      RunConcat(env, w, [l], Of(s, i, acts[1..]));
      RunSingle(env, w, l);
      RunOf(env, Step(env, w, l), s, i, acts[1..]);
    }
  }

  lemma RunSingle(env: Env, w: World, l: Label)
    ensures Run(env, w, [l]) == Step(env, w, l)
    ensures Act(env, w.st, l.scope, w.Call(l.scope, l.id), l.act).0 == Step(env, w, l).st
    ensures Moved(w, Step(env, w, l), l.scope, l.id, Act(env, w.st, l.scope, w.Call(l.scope, l.id), l.act).1)
  {
    assert [l][..0] == [];
  }

  // ---------------------------------------------------------------- stores and a query of one id

  const VECTOR: seq<real> := [1.0]

  function StoreActs(m: Memory): seq<Action> {
    [Add(m.kind, m, true), Embedded(Some(VECTOR)), Saved(true)]
  }

  function FiledAs(env: Env, m: Memory): V.Stored {
    V.Stored(RecordOf(m, VECTOR), env.norm(VECTOR))
  }

  /** One memory, indexed as tagged and stored as held. */
  function Single(env: Env, tagged: Memory, held: Memory): State {
    State(V.Store([(tagged.id, FiledAs(env, tagged))], Some(1)), [(held.id, held)])
  }

  lemma StoreIntoEmpty(env: Env, m: Memory)
    requires Storable(env, m)
    ensures StoreMemory(env, EMPTY.st, m, Some(VECTOR), true) == (Single(env, m, m), true)
  {
    V.UpsertSingle(env.norm, V.EMPTY, RecordOf(m, VECTOR));
  }

  lemma PutSingle<T>(k: string, v: T, v': T)
    ensures Put([(k, v)], k, v') == [(k, v')]
  {
    assert [(k, v)][1..] == [];
  }

  lemma StoreOver(env: Env, a: Memory, m: Memory)
    requires Storable(env, m) && a.id == m.id
    ensures StoreMemory(env, Single(env, a, a), m, Some(VECTOR), true) == (Single(env, m, m), true)
  {
    V.UpsertSingle(env.norm, Single(env, a, a).index, RecordOf(m, VECTOR));
    PutSingle(m.id, FiledAs(env, a), FiledAs(env, m));
    PutSingle(m.id, a, m);
  }

  lemma SortSingle<T>(x: T, score: T -> real)
    ensures Ranking.SortDescending([x], score) == [x]
  {
    assert [x][..0] == [];
    assert Ranking.SortDescending([x][..0], score) == [];
  }

  function AskFor(kind: MemoryType): MemoryQuery {
    MemoryQuery("q", None, [kind], [], None)
  }

  function ScopedAsk(kind: MemoryType): MemoryQuery {
    AskFor(kind).(scope := Some("s"))
  }

  /** The lookup finds a memory of the requested type. */
  lemma LookupFinds(env: Env, a: Memory)
    requires ScopeOf(a.id) == Some("s")
    ensures
      V.Query(env.norm, Single(env, a, a).index, VECTOR, ClampLimit(None), FiltersOf(ScopedAsk(a.kind))) ==
      (Single(env, a, a).index, Some([V.HitOf(VECTOR, env.norm(VECTOR), FiledAs(env, a))]))
  {
    var records, filters := Single(env, a, a).index.records, FiltersOf(ScopedAsk(a.kind));
    var hit := V.HitOf(VECTOR, env.norm(VECTOR), FiledAs(env, a));
    SelectedIff(ScopedAsk(a.kind), "s", a, FiledAs(env, a));
    assert V.Hits(records, VECTOR, env.norm(VECTOR), filters) == [hit] by {
      assert records[1..] == [];
      assert V.Hits(records[1..], VECTOR, env.norm(VECTOR), filters) == [];
    }
    SortSingle(hit, V.ByScore());
  }

  lemma QueryStart(env: Env, a: Memory)
    requires ScopeOf(a.id) == Some("s")
    ensures
      Acts(env, Single(env, a, a), "s", None, [Ask(AskFor(a.kind)), Embedded(Some(VECTOR))]) ==
      (Single(env, a, a), Some(QueryFetching(ScopedAsk(a.kind), [V.HitOf(VECTOR, env.norm(VECTOR), FiledAs(env, a))])))
  {
    var acts := [Ask(AskFor(a.kind)), Embedded(Some(VECTOR))];
    var st := Single(env, a, a);
    LookupFinds(env, a);
    var (st1, p1) := Act(env, st, "s", None, acts[0]);
    var (st2, p2) := Act(env, st1, "s", p1, acts[1]);
    assert acts[1..] == [acts[1]] && acts[1..][1..] == [];
    assert Acts(env, st1, "s", p1, acts[1..]) == Acts(env, st2, "s", p2, []) == (st2, p2);
  }

  /** The query goes on after its hit has been replaced by another memory, and returns that. */
  lemma QueryEnd(env: Env, st: State, q: MemoryQuery, hit: V.Hit, id: string, b: Memory)
    requires env.halfLifeMs > 0.0 && q.limit == None
    requires b.id == hit.id == ScopedId("s", id) && st.repo == [(b.id, b)]
    ensures
      var (_, p) := Acts(env, st, "s", Some(QueryFetching(q, [hit])), [Fetched, Ranked(0.0), Touched]);
      && p.Some? && p.value.QueryDone? && p.value.q == q && p.value.outcome.Found?
      && |p.value.outcome.results| == 1 && p.value.outcome.results[0].memory.kind == b.kind
  {
    var acts := [Fetched, Ranked(0.0), Touched];
    var p0: Option<Phase> := Some(QueryFetching(q, [hit]));
    FetchSingle(st.repo, hit, b);
    var r := ResultOf(env, q, [hit], 0.0, b);
    RankSingle(env, q, [hit], b);
    var (st1, p1) := Act(env, st, "s", p0, acts[0]);
    var (st2, p2) := Act(env, st1, "s", p1, acts[1]);
    var (st3, p3) := Act(env, st2, "s", p2, acts[2]);
    assert p1 == Some(QueryRanking(q, [hit], [b]));
    assert p2 == Some(QueryTouching(q, [r], 1, 0.0));
    SortSingle(r, ByAggregate());
    assert Answer(q, [r]) == [r];
    UnscopedIdInverts("s", id);
    assert acts[1..] == [acts[1], acts[2]] && acts[1..][1..] == [acts[2]] && acts[1..][1..][1..] == [];
    assert Acts(env, st2, "s", p2, acts[1..][1..]) == Acts(env, st3, "s", p3, []) == (st3, p3);
    assert Acts(env, st1, "s", p1, acts[1..]) == (st3, p3);
  }

  lemma FetchSingle(repo: Memories, hit: V.Hit, b: Memory)
    requires hit.id == b.id && repo == [(b.id, b)]
    ensures GetByIds(repo, HitIds([hit])) == [b]
  {
    assert HitIds([hit]) == [b.id];
    assert [b.id][1..] == [] && GetByIds(repo, []) == [];
  }

  lemma RankSingle(env: Env, q: MemoryQuery, hits: seq<V.Hit>, b: Memory)
    requires env.halfLifeMs > 0.0
    ensures ResultsOf(env, q, hits, 0.0, [b]) == Some([ResultOf(env, q, hits, 0.0, b)])
  {
    var results := ResultsOf(env, q, hits, 0.0, [b]).value;
    assert results == [ResultOf(env, q, hits, 0.0, b)];
  }

  // ---------------------------------------------------------------- a store overlaps a query

  /** A query has looked up a; before it fetches, b is stored under the same id. */
  function Overtaken(a: Memory, b: Memory): seq<Label> {
    Of("s", 0, StoreActs(a)) +
    Of("s", 1, [Ask(AskFor(a.kind)), Embedded(Some(VECTOR))]) +
    Of("s", 2, StoreActs(b)) +
    Of("s", 1, [Fetched, Ranked(0.0), Touched])
  }

  lemma OvertakenFoolsTypeFilter(env: Env, a: Memory, b: Memory)
    requires env.halfLifeMs > 0.0 && Storable(env, a) && Storable(env, b)
    requires Reachable(a.id) && a.id == b.id && a.kind != b.kind
    ensures FoolsTypeFilter(Run(env, EMPTY, Overtaken(a, b)).Call("s", 1))
  {
    var one, two, three, four :=
      Of("s", 0, StoreActs(a)), Of("s", 1, [Ask(AskFor(a.kind)), Embedded(Some(VECTOR))]),
      Of("s", 2, StoreActs(b)), Of("s", 1, [Fetched, Ranked(0.0), Touched]);
    RunConcat(env, EMPTY, one + two + three, four);
    RunConcat(env, EMPTY, one + two, three);
    RunConcat(env, EMPTY, one, two);
    var w1 := Run(env, EMPTY, one);
    var w2 := Run(env, w1, two);
    StoreIntoEmpty(env, InS(a));
    RunOfStore(env, EMPTY, 0, a, Single(env, InS(a), InS(a)));
    LookupBefore(env, w1, a);
    StoreOver(env, InS(a), InS(b));
    RunOfStore(env, w2, 2, b, Single(env, InS(b), InS(b)));
    AnswerAfter(env, Run(env, w2, three), a, b);
  }

  ghost predicate FoolsTypeFilter(p: Option<Phase>) {
    p.Some? && !OnlyRequested(p.value)
  }

  function InS(m: Memory): Memory {
    m.(id := ScopedId("s", m.id))
  }

  function HitFor(env: Env, a: Memory): V.Hit {
    V.HitOf(VECTOR, env.norm(VECTOR), FiledAs(env, InS(a)))
  }

  lemma RunOfStore(env: Env, w: World, i: nat, m: Memory, st': State)
    requires w.Call("s", i) == None && StoreMemory(env, w.st, InS(m), Some(VECTOR), true) == (st', true)
    ensures
      var w' := Run(env, w, Of("s", i, StoreActs(m)));
      w'.st == st' && Moved(w, w', "s", i, Some(StoreDone(true)))
  {
    RunOf(env, w, "s", i, StoreActs(m));
    UninterruptedStore(env, w.st, "s", m, Some(VECTOR), true);
  }

  lemma LookupBefore(env: Env, w: World, a: Memory)
    requires w.Call("s", 1) == None && w.st == Single(env, InS(a), InS(a)) && Reachable(a.id)
    ensures
      var w' := Run(env, w, Of("s", 1, [Ask(AskFor(a.kind)), Embedded(Some(VECTOR))]));
      w'.st == w.st && Moved(w, w', "s", 1, Some(QueryFetching(ScopedAsk(a.kind), [HitFor(env, a)])))
  {
    ScopeIsRecovered("s", a.id);
    RunOf(env, w, "s", 1, [Ask(AskFor(a.kind)), Embedded(Some(VECTOR))]);
    QueryStart(env, InS(a));
  }

  lemma AnswerAfter(env: Env, w: World, a: Memory, b: Memory)
    requires w.Call("s", 1) == Some(QueryFetching(ScopedAsk(a.kind), [HitFor(env, a)]))
    requires w.st == Single(env, InS(b), InS(b)) && env.halfLifeMs > 0.0 && a.id == b.id && a.kind != b.kind
    ensures FoolsTypeFilter(Run(env, w, Of("s", 1, [Fetched, Ranked(0.0), Touched])).Call("s", 1))
  {
    RunOf(env, w, "s", 1, [Fetched, Ranked(0.0), Touched]);
    QueryEnd(env, w.st, ScopedAsk(a.kind), HitFor(env, a), a.id, InS(b));
  }

  // ---------------------------------------------------------------- the type filter

  /** Nothing is found if no memory can be ranked. */
  predicate Empty(p: Phase) {
    match p
    case QueryTouching(_, results, _, _) => results == []
    case QueryDone(_, Found(results)) => results == []
    case _ => true
  }

  lemma ActKeepsEmpty(env: Env, st: State, s: string, p: Option<Phase>, act: Action)
    requires env.halfLifeMs <= 0.0 && (p.Some? ==> Empty(p.value))
    ensures var p' := Act(env, st, s, p, act).1; p'.Some? ==> Empty(p'.value)
  {
    assert forall q: MemoryQuery :: Answer(q, []) == [];
  }

  lemma {:induction false} NothingIsFound(env: Env, ls: seq<Label>, s: string, i: nat)
    requires env.halfLifeMs <= 0.0
    ensures var p := Run(env, EMPTY, ls).Call(s, i); p.Some? ==> Empty(p.value)
  {
    if ls != [] {
      var w, l := Run(env, EMPTY, ls[..|ls| - 1]), ls[|ls| - 1];
      NothingIsFound(env, ls[..|ls| - 1], s, i);
      if (l.scope, l.id) == (s, i) {
        ActKeepsEmpty(env, w.st, s, w.Call(s, i), l.act);
      }
    }
  }

  lemma AnswersAreRequested(env: Env, memories: set<Memory>, ls: seq<Label>, s: string, i: nat)
    requires KindsAgree(env, memories) || env.halfLifeMs <= 0.0
    requires ValidScopes(ls) && StoresFrom(ls, memories) && Run(env, EMPTY, ls).Call(s, i).Some?
    ensures OnlyRequested(Run(env, EMPTY, ls).Call(s, i).value)
  {
    if KindsAgree(env, memories) {
      RunIsTyped(env, memories, ls);
    } else {
      NothingIsFound(env, ls, s, i);
    }
  }

  lemma OvertakenIsAllowed(a: Memory, b: Memory, memories: set<Memory>)
    requires a in memories && b in memories
    ensures ValidScopes(Overtaken(a, b)) && StoresFrom(Overtaken(a, b), memories)
  {
  }

  /** In all interleavings of queries and stores of the given memories answers have only requested
      types, exactly if memories that share a reachable id share a type (or none can be ranked at all). */
  lemma TypeFilterHoldsIff(env: Env, memories: set<Memory>)
    ensures TypeFilterHolds(env, memories) <==> KindsAgree(env, memories) || env.halfLifeMs <= 0.0
  {
    if KindsAgree(env, memories) || env.halfLifeMs <= 0.0 {
      forall ls, s, i | ValidScopes(ls) && StoresFrom(ls, memories) && Run(env, EMPTY, ls).Call(s, i).Some?
        ensures OnlyRequested(Run(env, EMPTY, ls).Call(s, i).value)
      {
        AnswersAreRequested(env, memories, ls, s, i);
      }
    } else {
      var a, b :| a in memories && b in memories && Storable(env, a) && Storable(env, b)
                  && Reachable(a.id) && a.id == b.id && a.kind != b.kind;
      OvertakenIsAllowed(a, b, memories);
      OvertakenFoolsTypeFilter(env, a, b);
    }
  }

  // ---------------------------------------------------------------- the tags

  lemma KeyHasOneTag(env: Env, memories: set<Memory>, key: string, m: Memory, n: Memory)
    requires TagsAgree(env, memories) && From(env, memories, key, m) && From(env, memories, key, n)
    requires m.id == n.id
    ensures MetadataOf(m) == MetadataOf(n)
  {
    var s, a :| StoredAs(env, memories, s, a, key) && a.kind == m.kind && a.goalId == m.goalId;
    var t, b :| StoredAs(env, memories, t, b, key) && b.kind == n.kind && b.goalId == n.goalId;
    ScopedIdIsInjective(s, t, a.id, b.id);
  }

  lemma TypedEntriesAreTrue(env: Env, memories: set<Memory>, w: World, key: string, stored: V.Stored)
    requires TagsAgree(env, memories) && TypedWorld(env, memories, w) && Covered(w)
    requires Filed(w, key, stored) && !Pending(w, key)
    ensures Backed(w.st.repo, key, stored)
  {
    var i :| 0 <= i < |w.st.index.records| && w.st.index.records[i] == (key, stored);
    assert TypedEntry(env, memories, w.st.index.records[i].0, w.st.index.records[i].1);
    var m: Memory :| Describes(m, key, stored) && From(env, memories, key, m);
    HasIsAt(w.st.repo, key);
    var j :| 0 <= j < |w.st.repo| && w.st.repo[j] == (key, Get(w.st.repo, key).value);
    var held := w.st.repo[j].1;
    assert From(env, memories, key, held);
    KeyHasOneTag(env, memories, key, m, held);
  }

  /** Two stores of one id overlap, and the one indexed first is saved last. */
  function Crossed(a: Memory, b: Memory): seq<Label> {
    Of("s", 0, [Add(a.kind, a, true), Embedded(Some(VECTOR))]) +
    Of("s", 1, StoreActs(b)) +
    Of("s", 0, [Saved(true)])
  }

  lemma CrossedLeavesWrongTag(env: Env, a: Memory, b: Memory)
    requires Storable(env, a) && Storable(env, b) && a.id == b.id
    ensures
      var w := Run(env, EMPTY, Crossed(a, b));
      && w.st == Single(env, InS(b), InS(a))
      && forall c :: c in w.calls ==> w.calls[c].StoreDone?
  {
    var front, back := [Add(a.kind, a, true), Embedded(Some(VECTOR))], [Saved(true)];
    var one, two, three := Of("s", 0, front), Of("s", 1, StoreActs(b)), Of("s", 0, back);
    RunConcat(env, EMPTY, one + two, three);
    RunConcat(env, EMPTY, one, two);
    var w1 := Run(env, EMPTY, one);
    var w2 := Run(env, w1, two);
    var w3 := Run(env, w2, three);
    RunOf(env, EMPTY, "s", 0, front);
    StoreHalf(env, a);
    StoreOverIndexed(env, InS(a), InS(b));
    RunOfStore(env, w1, 1, b, Single(env, InS(b), InS(b)));
    RunOf(env, w2, "s", 0, back);
    SaveHalf(env, w2.st, InS(a));
    PutSingle(InS(a).id, InS(b), InS(a));
    forall c | c in w3.calls
      ensures w3.calls[c].StoreDone?
    {
      assert w3.Call(c.0, c.1) == Some(w3.calls[c]);
    }
  }

  lemma StoreHalf(env: Env, a: Memory)
    requires Storable(env, a)
    ensures
      var A := InS(a);
      Acts(env, EMPTY.st, "s", None, [Add(a.kind, a, true), Embedded(Some(VECTOR))]) ==
      (State(Single(env, A, A).index, []), Some(StoreSaving(A)))
  {
    var A := InS(a);
    var acts := [Add(a.kind, a, true), Embedded(Some(VECTOR))];
    V.UpsertSingle(env.norm, V.EMPTY, RecordOf(A, VECTOR));
    var (st1, p1) := Act(env, EMPTY.st, "s", None, acts[0]);
    var (st2, p2) := Act(env, st1, "s", p1, acts[1]);
    assert acts[1..] == [acts[1]] && acts[1..][1..] == [];
    assert Acts(env, st1, "s", p1, acts[1..]) == Acts(env, st2, "s", p2, []) == (st2, p2);
  }

  lemma StoreOverIndexed(env: Env, a: Memory, b: Memory)
    requires Storable(env, b) && a.id == b.id
    ensures StoreMemory(env, State(Single(env, a, a).index, []), b, Some(VECTOR), true) == (Single(env, b, b), true)
  {
    V.UpsertSingle(env.norm, Single(env, a, a).index, RecordOf(b, VECTOR));
    PutSingle(b.id, FiledAs(env, a), FiledAs(env, b));
  }

  lemma SaveHalf(env: Env, st: State, m: Memory)
    ensures Acts(env, st, "s", Some(StoreSaving(m)), [Saved(true)]) == (State(st.index, Save(st.repo, m)), Some(StoreDone(true)))
  {
    assert [Saved(true)][1..] == [];
  }

  /** Without a pending save the index tells the types and goals of the stored memories, in all
      interleavings and whichever saves fail, exactly if memories that share an id share both. */
  lemma TagsHoldIff(env: Env, memories: set<Memory>)
    ensures TagsHold(env, memories) <==> TagsAgree(env, memories)
  {
    if TagsAgree(env, memories) {
      forall ls | ValidScopes(ls) && StoresFrom(ls, memories)
        ensures TagsTrue(Run(env, EMPTY, ls))
      {
        TagsStayTrue(env, memories, ls);
      }
    } else {
      var a, b :| a in memories && b in memories && Storable(env, a) && Storable(env, b) && a.id == b.id
                  && !(a.kind == b.kind && a.goalId.GetOr("") == b.goalId.GetOr(""));
      CrossedBreaksTags(env, a, b);
      assert StoresFrom(Crossed(a, b), memories);
    }
  }

  lemma TagsStayTrue(env: Env, memories: set<Memory>, ls: seq<Label>)
    requires TagsAgree(env, memories) && ValidScopes(ls) && StoresFrom(ls, memories)
    ensures TagsTrue(Run(env, EMPTY, ls))
  {
    var w := Run(env, EMPTY, ls);
    RunIsTyped(env, memories, ls);
    IndexIsCovered(env, ls);
    forall key, stored | Filed(w, key, stored) && !Pending(w, key)
      ensures Backed(w.st.repo, key, stored)
    {
      TypedEntriesAreTrue(env, memories, w, key, stored);
    }
  }

  lemma CrossedBreaksTags(env: Env, a: Memory, b: Memory)
    requires Storable(env, a) && Storable(env, b) && a.id == b.id
    requires !(a.kind == b.kind && a.goalId.GetOr("") == b.goalId.GetOr(""))
    ensures !TagsTrue(Run(env, EMPTY, Crossed(a, b)))
  {
    var A, B := InS(a), InS(b);
    var w := Run(env, EMPTY, Crossed(a, b));
    CrossedLeavesWrongTag(env, a, b);
    assert w.st.index.records[0] == (B.id, FiledAs(env, B));
    assert Filed(w, B.id, FiledAs(env, B)) && !Pending(w, B.id);
    assert Get(w.st.repo, B.id) == Some(A);
    if TagsTrue(w) {
      assert Backed(w.st.repo, B.id, FiledAs(env, B));
      MetadataTells(A, B);
    }
  }

  lemma MetadataTells(a: Memory, b: Memory)
    requires MetadataOf(a) == MetadataOf(b)
    ensures a.kind == b.kind && a.goalId.GetOr("") == b.goalId.GetOr("")
  {
    OnlyScopedIdsHaveScope(a);
    OnlyScopedIdsHaveScope(b);
    TypeNamesDiffer(a.kind, b.kind);
    assert |"scope"| == 5 && |"goalId"| == 6;
    assert MetadataOf(a)["goalId"] == a.goalId.GetOr("") && MetadataOf(b)["goalId"] == b.goalId.GetOr("");
  }
}
