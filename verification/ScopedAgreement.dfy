/** What holds between index and repository while stores and queries interleave, and where
    isolation and agreement end. */
module ScopedAgreement {
  import opened Seqs
  import opened OrderedMaps
  import Ranking
  import opened Repository
  import V = VectorStore
  import opened MemoryManager
  import opened MemoryExactness
  import opened ScopedMemory
  import opened ScopedRefinement

  // ---------------------------------------------------------------- how an action moves the shared state

  datatype Move =
    | Indexed(m: Memory, stored: V.Stored)
    | Recorded(m: Memory)
    | RolledBack(m: Memory)
    | Accessed(id: string, now: real)
    | Still

  function MoveOf(env: Env, st: State, p: Option<Phase>, act: Action): Move {
    match (act, p)
    case (Embedded(Some(vector)), Some(StoreEmbedding(m))) =>
      if V.Accepts(st.index, |vector|) then Indexed(m, V.Stored(RecordOf(m, vector), env.norm(vector))) else Still
    case (Saved(ok), Some(StoreSaving(m))) => if ok then Recorded(m) else RolledBack(m)
    case (Ranked(now), Some(QueryRanking(q, hits, memories))) =>
      var results := ResultsOf(env, q, hits, now, memories);
      if results.Some? && results.value != [] then Accessed(results.value[0].memory.id, now) else Still
    case (Touched, Some(QueryTouching(_, results, touched, now))) =>
      if touched < |results| then Accessed(results[touched].memory.id, now) else Still
    case _ => Still
  }

  predicate Saving(p: Option<Phase>, m: Memory) {
    p == Some(StoreSaving(m))
  }

  predicate NotSaving(p: Option<Phase>) {
    p.Some? ==> !p.value.StoreSaving?
  }

  lemma ActMoves(env: Env, st: State, s: string, p: Option<Phase>, act: Action)
    ensures
      var (st', p') := Act(env, st, s, p, act);
      var (records, repo, records', repo') := (st.index.records, st.repo, st'.index.records, st'.repo);
      match MoveOf(env, st, p, act)
      case Indexed(m, stored) =>
        && stored.record.metadata == Some(MetadataOf(m))
        && records' == Put(records, m.id, stored) && repo' == repo && NotSaving(p) && Saving(p', m)
      case Recorded(m) => records' == records && repo' == Save(repo, m) && Saving(p, m) && NotSaving(p')
      case RolledBack(m) => records' == Remove(records, m.id) && repo' == repo && Saving(p, m) && NotSaving(p')
      case Accessed(id, now) =>
        records' == records && repo' == UpdateAccess(repo, id, now) && NotSaving(p) && NotSaving(p')
      case Still => records' == records && repo' == repo && (p' == p || (NotSaving(p) && NotSaving(p')))
  {
    match (act, p)
    case (Embedded(Some(vector)), Some(StoreEmbedding(m))) =>
      var rec := RecordOf(m, vector);
      if V.Accepts(st.index, |vector|) {
        V.UpsertSingle(env.norm, st.index, rec);
      }
    case _ =>
  }

  // ---------------------------------------------------------------- the index never runs ahead

  /** Call c has indexed its memory under this key and waits for the save. */
  predicate IsSaving(w: World, c: (string, nat), key: string) {
    c in w.calls && w.calls[c].StoreSaving? && w.calls[c].m.id == key
  }

  ghost predicate Pending(w: World, key: string) {
    exists c :: IsSaving(w, c, key)
  }

  predicate Filed(w: World, key: string, stored: V.Stored) {
    exists i :: 0 <= i < |w.st.index.records| && w.st.index.records[i] == (key, stored)
  }

  /** Whatever is in the index is in the repository or being saved. */
  ghost predicate Covered(w: World) {
    && Distinct(w.st.index.records)
    && forall key, stored :: Filed(w, key, stored) ==> Has(w.st.repo, key) || Pending(w, key)
  }

  /** An entry that a step leaves or puts in the index. */
  lemma FiledAfter(env: Env, w: World, l: Label, key: string, stored: V.Stored)
    requires Distinct(w.st.index.records) && Filed(Step(env, w, l), key, stored)
    ensures
      var move := MoveOf(env, w.st, w.Call(l.scope, l.id), l.act);
      && (Filed(w, key, stored) || (move.Indexed? && move.m.id == key && stored == move.stored))
      && (move.Indexed? && move.m.id == key ==> stored == move.stored)
      && (move.RolledBack? ==> key != move.m.id)
  {
    ActMoves(env, w.st, l.scope, w.Call(l.scope, l.id), l.act);
    var records := w.st.index.records;
    match MoveOf(env, w.st, w.Call(l.scope, l.id), l.act)
    case Indexed(m, put) =>
      var i :| 0 <= i < |Put(records, m.id, put)| && Put(records, m.id, put)[i] == (key, stored);
      PutKeys(records, m.id, put);
      PutAt(records, m.id, put, i);
    case RolledBack(m) => RemoveKeys(records, m.id);
    case _ =>
  }

  lemma StepKeepsDistinct(env: Env, w: World, l: Label)
    requires Distinct(w.st.index.records)
    ensures Distinct(Step(env, w, l).st.index.records)
  {
    ActMoves(env, w.st, l.scope, w.Call(l.scope, l.id), l.act);
    match MoveOf(env, w.st, w.Call(l.scope, l.id), l.act)
    case Indexed(m, stored) => PutKeys(w.st.index.records, m.id, stored);
    case RolledBack(m) => RemoveKeys(w.st.index.records, m.id);
    case _ =>
  }

  /** A step starts, ends or keeps the pending save of its own call only. */
  lemma PendingAfter(env: Env, w: World, l: Label, c: (string, nat), key: string)
    ensures c != (l.scope, l.id) ==> (IsSaving(Step(env, w, l), c, key) <==> IsSaving(w, c, key))
    ensures
      match MoveOf(env, w.st, w.Call(l.scope, l.id), l.act)
      case Indexed(m, _) =>
        && !IsSaving(w, (l.scope, l.id), key)
        && (IsSaving(Step(env, w, l), (l.scope, l.id), key) <==> key == m.id)
        && Step(env, w, l).Call(l.scope, l.id) == Some(StoreSaving(m))
      case Recorded(m) => w.Call(l.scope, l.id) == Some(StoreSaving(m)) && !IsSaving(Step(env, w, l), (l.scope, l.id), key)
      case RolledBack(m) => w.Call(l.scope, l.id) == Some(StoreSaving(m)) && !IsSaving(Step(env, w, l), (l.scope, l.id), key)
      case _ => IsSaving(Step(env, w, l), (l.scope, l.id), key) <==> IsSaving(w, (l.scope, l.id), key)
  {
    ActMoves(env, w.st, l.scope, w.Call(l.scope, l.id), l.act);
  }

  /** What the repository holds under a key after a step, up to access times. */
  lemma RepositoryAfter(env: Env, w: World, l: Label, key: string, stored: V.Stored)
    ensures
      var move, repo' := MoveOf(env, w.st, w.Call(l.scope, l.id), l.act), Step(env, w, l).st.repo;
      && (Has(w.st.repo, key) ==> Has(repo', key))
      && (move.Recorded? && move.m.id == key ==> Get(repo', key) == Some(move.m))
      && (Backed(w.st.repo, key, stored) && !(move.Recorded? && move.m.id == key) ==> Backed(repo', key, stored))
  {
    ActMoves(env, w.st, l.scope, w.Call(l.scope, l.id), l.act);
    match MoveOf(env, w.st, w.Call(l.scope, l.id), l.act)
    case Recorded(m) => GetPut(w.st.repo, m.id, m, key);
    case Accessed(id, now) => GetUpdateAccess(w.st.repo, id, now, key);
    case _ =>
  }

  lemma StepKeepsCovered(env: Env, w: World, l: Label)
    requires Covered(w)
    ensures Covered(Step(env, w, l))
  {
    var w', own := Step(env, w, l), (l.scope, l.id);
    StepKeepsDistinct(env, w, l);
    forall key, stored | Filed(w', key, stored)
      ensures Has(w'.st.repo, key) || Pending(w', key)
    {
      FiledAfter(env, w, l, key, stored);
      RepositoryAfter(env, w, l, key, stored);
      PendingAfter(env, w, l, own, key);
      if Filed(w, key, stored) && !Has(w.st.repo, key) {
        var c :| IsSaving(w, c, key);
        PendingAfter(env, w, l, c, key);
      }
    }
  }

  /** However stores and queries interleave and whichever saves fail, every indexed id is in
      the repository or belongs to a store that is still running. */
  lemma {:induction false} IndexIsCovered(env: Env, ls: seq<Label>)
    ensures Covered(Run(env, EMPTY, ls))
  {
    if ls != [] {
      IndexIsCovered(env, ls[..|ls| - 1]);
      StepKeepsCovered(env, Run(env, EMPTY, ls[..|ls| - 1]), ls[|ls| - 1]);
    }
  }

  // ---------------------------------------------------------------- the tags are right, if stores do not overlap

  /** No two stores are between upsert and save on one id. */
  ghost predicate Exclusive(w: World) {
    forall c, c', key :: IsSaving(w, c, key) && IsSaving(w, c', key) ==> c == c'
  }

  ghost predicate AlwaysExclusive(env: Env, ls: seq<Label>) {
    forall n :: 0 <= n <= |ls| ==> Exclusive(Run(env, EMPTY, ls[..n]))
  }

  ghost predicate EntryTrue(w: World, key: string, stored: V.Stored) {
    && (forall c :: IsSaving(w, c, key) ==> stored.record.metadata == Some(MetadataOf(w.calls[c].m)))
    && (Pending(w, key) || Backed(w.st.repo, key, stored))
  }

  /** Entries tell the type and scope of the memory being saved, or else of the stored one. */
  ghost predicate Truthful(w: World) {
    Distinct(w.st.index.records) && forall key, stored :: Filed(w, key, stored) ==> EntryTrue(w, key, stored)
  }

  lemma StepKeepsTruthful(env: Env, w: World, l: Label)
    requires Truthful(w) && Exclusive(w) && Exclusive(Step(env, w, l))
    ensures Truthful(Step(env, w, l))
  {
    var w' := Step(env, w, l);
    StepKeepsDistinct(env, w, l);
    forall key, stored | Filed(w', key, stored)
      ensures EntryTrue(w', key, stored)
    {
      EntryStaysTrue(env, w, l, key, stored);
    }
  }

  lemma EntryStaysTrue(env: Env, w: World, l: Label, key: string, stored: V.Stored)
    requires Truthful(w) && Exclusive(w) && Exclusive(Step(env, w, l))
    requires Filed(Step(env, w, l), key, stored)
    ensures EntryTrue(Step(env, w, l), key, stored)
  {
    var w', own := Step(env, w, l), (l.scope, l.id);
    ActMoves(env, w.st, l.scope, w.Call(l.scope, l.id), l.act);
    FiledAfter(env, w, l, key, stored);
    RepositoryAfter(env, w, l, key, stored);
    PendingAfter(env, w, l, own, key);
    forall c | IsSaving(w', c, key)
      ensures stored.record.metadata == Some(MetadataOf(w'.calls[c].m))
    {
      PendingAfter(env, w, l, c, key);
      if c == own {
        assert w'.Call(l.scope, l.id) == Some(w'.calls[c]);
      }
    }
    if Filed(w, key, stored) {
      assert EntryTrue(w, key, stored);
      if Pending(w, key) {
        var c :| IsSaving(w, c, key);
        PendingAfter(env, w, l, c, key);
      }
    }
  }

  /** If no two stores of one id overlap, then whenever nothing is being saved the index and the
      repository agree, whatever else was interleaved and whichever saves failed. */
  lemma {:induction false} ExclusiveStoresStayTruthful(env: Env, ls: seq<Label>)
    requires AlwaysExclusive(env, ls)
    ensures Truthful(Run(env, EMPTY, ls))
  {
    if ls != [] {
      var before := ls[..|ls| - 1];
      assert forall n :: 0 <= n <= |before| ==> before[..n] == ls[..n];
      assert ls[..|ls|] == ls;
      ExclusiveStoresStayTruthful(env, before);
      StepKeepsTruthful(env, Run(env, EMPTY, before), ls[|ls| - 1]);
    }
  }

  // ---------------------------------------------------------------- overlapping stores

  /** Two stores of one id overlap, and the one indexed first is saved last. */
  function Overlap(vector: seq<real>): seq<Label> {
    [Label("s", 0, Add(Episodic, OVERLAPPING, true)),
     Label("s", 1, Add(Semantic, OVERLAPPING.(kind := Semantic), true)),
     Label("s", 0, Embedded(Some(vector))),
     Label("s", 1, Embedded(Some(vector))),
     Label("s", 1, Saved(true)),
     Label("s", 0, Saved(true))]
  }

  const OVERLAPPING := Memory("x", Episodic, "c", 0.0, None, None, "")
  const EARLIER := OVERLAPPING.(id := "s:x")
  const LATER := EARLIER.(kind := Semantic)
  const SEMANTIC_ONLY := MemoryQuery("q", None, [Semantic], [], Some("s"))

  /** What the overlap leaves behind: an entry tagged semantic over an episodic memory. */
  lemma OverlapLeavesWrongTag(env: Env, vector: seq<real>)
    requires vector != [] && env.allowed("c")
    ensures
      var st := Run(env, EMPTY, Overlap(vector)).st;
      && st.index.records == [("s:x", V.Stored(RecordOf(LATER, vector), env.norm(vector)))]
      && st.index.dimension == Some(|vector|)
      && st.repo == [("s:x", EARLIER)]
  {
    var ls := Overlap(vector);
    var w2 := Step(env, Step(env, EMPTY, ls[0]), ls[1]);
    var w4 := Step(env, Step(env, w2, ls[2]), ls[3]);
    assert "s" + ":" + "x" == "s:x";
    assert w2.st == EMPTY.st && w2.Call("s", 0) == Some(StoreEmbedding(EARLIER)) && w2.Call("s", 1) == Some(StoreEmbedding(LATER));
    V.UpsertSingle(env.norm, w2.st.index, RecordOf(EARLIER, vector));
    V.UpsertSingle(env.norm, Step(env, w2, ls[2]).st.index, RecordOf(LATER, vector));
    assert w4.Call("s", 0) == Some(StoreSaving(EARLIER)) && w4.Call("s", 1) == Some(StoreSaving(LATER));
    OverlapRun(env, vector);
  }

  lemma OverlapRun(env: Env, vector: seq<real>)
    ensures
      var ls := Overlap(vector);
      var w2 := Step(env, Step(env, EMPTY, ls[0]), ls[1]);
      var w4 := Step(env, Step(env, w2, ls[2]), ls[3]);
      Run(env, EMPTY, ls) == Step(env, Step(env, w4, ls[4]), ls[5])
  {
    var ls := Overlap(vector);
    forall i | 0 <= i < 6
      ensures Run(env, EMPTY, ls[..i + 1]) == Step(env, Run(env, EMPTY, ls[..i]), ls[i])
    {
      assert ls[..i + 1][..i] == ls[..i];
    }
    assert ls[..6] == ls && ls[..0] == [];
    assert Run(env, EMPTY, ls[..0 + 1]) == Step(env, EMPTY, ls[0]);
    assert Run(env, EMPTY, ls[..1 + 1]) == Step(env, Run(env, EMPTY, ls[..1]), ls[1]);
    assert Run(env, EMPTY, ls[..2 + 1]) == Step(env, Run(env, EMPTY, ls[..2]), ls[2]);
    assert Run(env, EMPTY, ls[..3 + 1]) == Step(env, Run(env, EMPTY, ls[..3]), ls[3]);
    assert Run(env, EMPTY, ls[..4 + 1]) == Step(env, Run(env, EMPTY, ls[..4]), ls[4]);
    assert Run(env, EMPTY, ls[..5 + 1]) == Step(env, Run(env, EMPTY, ls[..5]), ls[5]);
  }

  /** So a query for semantic memories can return an episodic one. */
  lemma OverlapFoolsTypeFilter(env: Env, vector: seq<real>, now: real)
    requires vector != [] && env.allowed("c") && env.halfLifeMs > 0.0
    ensures
      var answer := QueryMemories(env, Run(env, EMPTY, Overlap(vector)).st, SEMANTIC_ONLY, Some(vector), now).1;
      answer.Some? && |answer.value| == 1 && answer.value[0].memory.kind == Episodic
  {
    OverlapLeavesWrongTag(env, vector);
    var st := Run(env, EMPTY, Overlap(vector)).st;
    var filters, hit := FiltersOf(SEMANTIC_ONLY), V.HitOf(vector, env.norm(vector), st.index.records[0].1);
    OverlapIsSelected(env, vector);
    var hits := V.Hits(st.index.records, vector, env.norm(vector), filters);
    assert hits == [hit] by {
      assert V.Hits(st.index.records[1..], vector, env.norm(vector), filters) == [];
    }
    var sorted := Ranking.SortDescending(hits, V.ByScore());
    assert sorted == [hit] by {
      assert hits[..0] == [] && hits[0] == hit;
      assert Ranking.SortDescending(hits[..0], V.ByScore()) == [];
    }
    assert Ranking.Take(sorted, ClampLimit(None)) == [hit];
    assert HitIds([hit]) == ["s:x"];
    assert GetByIds(st.repo, ["s:x"]) == [EARLIER] by { assert ["s:x"][1..] == []; }
    var results := ResultsOf(env, SEMANTIC_ONLY, [hit], now, [EARLIER]).value;
    assert Ranking.SortDescending(results, ByAggregate()) == results by { assert results[..0] == []; assert results == [results[0]]; }
  }

  lemma OverlapIsSelected(env: Env, vector: seq<real>)
    ensures V.Selected(V.Stored(RecordOf(LATER, vector), env.norm(vector)), FiltersOf(SEMANTIC_ONLY))
  {
    ScopeIsRecovered("s", "x");
    assert ScopedId("s", "x") == "s:x";
    OnlyScopedIdsHaveScope(LATER);
    FiltersMention(SEMANTIC_ONLY);
    forall key | key in FiltersOf(SEMANTIC_ONLY).value
      ensures key == "scope" || key == "type"
    {
    }
  }

  // ---------------------------------------------------------------- calls that are not interleaved

  /** A call's actions taken in a row. */
  function Acts(env: Env, st: State, s: string, p: Option<Phase>, acts: seq<Action>): (State, Option<Phase>)
    decreases |acts|
  {
    if acts == [] then (st, p)
    else var (st', p') := Act(env, st, s, p, acts[0]); Acts(env, st', s, p', acts[1..])
  }

  lemma UninterruptedStore(env: Env, st: State, s: string, m: Memory, embedding: Option<seq<real>>, saveOk: bool)
    ensures
      var (st', ok) := StoreMemory(env, st, m.(id := ScopedId(s, m.id)), embedding, saveOk);
      Acts(env, st, s, None, [Add(m.kind, m, true), Embedded(embedding), Saved(saveOk)]) == (st', Some(StoreDone(ok)))
  {
    var acts := [Add(m.kind, m, true), Embedded(embedding), Saved(saveOk)];
    assert acts[1..] == [Embedded(embedding), Saved(saveOk)] && acts[1..][1..] == [Saved(saveOk)];
    assert acts[1..][1..][1..] == [];
    var (st1, p1) := Act(env, st, s, None, acts[0]);
    var (st2, p2) := Act(env, st1, s, p1, acts[1]);
    var (st3, p3) := Act(env, st2, s, p2, acts[2]);
    assert Acts(env, st2, s, p2, acts[1..][1..]) == Acts(env, st3, s, p3, []) == (st3, p3);
    assert Acts(env, st1, s, p1, acts[1..]) == (st3, p3);
  }

  /** A manager that does not persist accepts and does nothing; a memory of another type than the method's
      is refused and nothing changes; any other memory is stored under its scoped id. */
  lemma AddIsChecked(env: Env, st: State, s: string, kind: MemoryType, m: Memory, persist: bool, embedding: Option<seq<real>>, saveOk: bool)
    ensures
      Acts(env, st, s, None, [Add(kind, m, persist), Embedded(embedding), Saved(saveOk)]) ==
      if !persist then (st, Some(StoreDone(true)))
      else if kind != m.kind then (st, Some(StoreDone(false)))
      else
        var (st', ok) := StoreMemory(env, st, m.(id := s + ":" + m.id), embedding, saveOk);
        (st', Some(StoreDone(ok)))
  {
    if persist && kind == m.kind {
      UninterruptedStore(env, st, s, m, embedding, saveOk);
    } else {
      var acts := [Add(kind, m, persist), Embedded(embedding), Saved(saveOk)];
      assert acts[1..] == [Embedded(embedding), Saved(saveOk)] && acts[1..][1..] == [Saved(saveOk)];
      assert acts[1..][1..][1..] == [];
      var (st1, p1) := Act(env, st, s, None, acts[0]);
      assert Acts(env, st1, s, p1, acts[1..][1..]) == Acts(env, st1, s, p1, []) == (st1, p1);
      assert Acts(env, st1, s, p1, acts[1..]) == (st1, p1);
    }
  }

  function Touches(n: nat): seq<Action> {
    seq(n, _ => Touched)
  }

  lemma {:induction false} UninterruptedTouches(env: Env, st: State, s: string, q: MemoryQuery, results: seq<SearchResult>, touched: nat, now: real)
    requires touched <= |results|
    ensures
      var (st', p) := Proceed(State(st.index, TouchAll(st.repo, results[..touched], now)), s, q, results, touched, now);
      Acts(env, st', s, p, Touches(|results| - touched)) ==
      (State(st.index, TouchAll(st.repo, results, now)), Some(QueryDone(q, Unscope(s, Answer(q, results)))))
    decreases |results| - touched
  {
    if touched == |results| {
      assert results[..touched] == results;
    } else {
      assert results[..touched + 1][..touched] == results[..touched];
      assert Touches(|results| - touched)[1..] == Touches(|results| - touched - 1);
      UninterruptedTouches(env, st, s, q, results, touched + 1, now);
    }
  }

  lemma {:induction false} DoneStays(env: Env, st: State, s: string, q: MemoryQuery, outcome: Outcome, n: nat)
    ensures Acts(env, st, s, Some(QueryDone(q, outcome)), Touches(n)) == (st, Some(QueryDone(q, outcome)))
  {
    if n > 0 {
      assert Touches(n)[1..] == Touches(n - 1);
      DoneStays(env, st, s, q, outcome, n - 1);
    }
  }

  lemma {:induction false} ActsSplit(env: Env, st: State, s: string, p: Option<Phase>, a: seq<Action>, b: seq<Action>)
    ensures
      var (st', p') := Acts(env, st, s, p, a);
      Acts(env, st, s, p, a + b) == Acts(env, st', s, p', b)
    decreases |a|
  {
    if a == [] {
      assert a + b == b;
    } else {
      var (st1, p1) := Act(env, st, s, p, a[0]);
      assert (a + b)[1..] == a[1..] + b;
      ActsSplit(env, st1, s, p1, a[1..], b);
    }
  }

  lemma {:induction false} FoundAtMost(repo: Memories, ids: seq<string>)
    ensures |GetByIds(repo, ids)| <= |ids|
  {
    if ids != [] {
      FoundAtMost(repo, ids[1..]);
    }
  }

  /** The actions of a query up to the first access mark. */
  lemma QueryUpToRanking(env: Env, st: State, s: string, q: MemoryQuery, embedding: Option<seq<real>>, now: real)
    ensures
      var scoped := q.(scope := Some(s));
      var (st', p) := Acts(env, st, s, None, [Ask(q), Embedded(embedding), Fetched, Ranked(now)]);
      if q.text == "" || embedding.None? then (st', p) == (st, Some(QueryDone(scoped, Threw)))
      else
        var (index, found) := V.Query(env.norm, st.index, embedding.value, ClampLimit(q.limit), FiltersOf(scoped));
        if found.None? then (st', p) == (State(index, st.repo), Some(QueryDone(scoped, Threw)))
        else
          match ResultsOf(env, scoped, found.value, now, GetByIds(st.repo, HitIds(found.value)))
          case None => (st', p) == (State(index, st.repo), Some(QueryDone(scoped, Threw)))
          case Some(results) => (st', p) == Proceed(State(index, st.repo), s, scoped, results, 0, now)
  {
    var acts := [Ask(q), Embedded(embedding), Fetched, Ranked(now)];
    var (st1, p1) := Act(env, st, s, None, acts[0]);
    var (st2, p2) := Act(env, st1, s, p1, acts[1]);
    var (st3, p3) := Act(env, st2, s, p2, acts[2]);
    var (st4, p4) := Act(env, st3, s, p3, acts[3]);
    assert acts[1..] == [acts[1], acts[2], acts[3]] && acts[2..] == [acts[2], acts[3]] && acts[3..] == [acts[3]];
    assert acts[1..][1..] == acts[2..] && acts[2..][1..] == acts[3..] && acts[3..][1..] == [];
    assert Acts(env, st3, s, p3, acts[3..]) == Acts(env, st4, s, p4, []) == (st4, p4);
    assert Acts(env, st2, s, p2, acts[2..]) == (st4, p4);
    assert Acts(env, st1, s, p1, acts[1..]) == (st4, p4);
  }

  /** The actions of a query in a row are the uninterrupted query, with the scope taken off the ids. */
  lemma UninterruptedQuery(env: Env, st: State, s: string, q: MemoryQuery, embedding: Option<seq<real>>, now: real, n: nat)
    requires n >= ClampLimit(q.limit)
    ensures
      var (st', answer) := QueryMemories(env, st, q.(scope := Some(s)), embedding, now);
      Acts(env, st, s, None, [Ask(q), Embedded(embedding), Fetched, Ranked(now)] + Touches(n)) ==
      (st', Some(QueryDone(q.(scope := Some(s)), if answer.Some? then Unscope(s, answer.value) else Threw)))
  {
    var scoped := q.(scope := Some(s));
    var front := [Ask(q), Embedded(embedding), Fetched, Ranked(now)];
    QueryUpToRanking(env, st, s, q, embedding, now);
    ActsSplit(env, st, s, None, front, Touches(n));
    var (st', p) := Acts(env, st, s, None, front);
    if q.text == "" || embedding.None? {
      DoneStays(env, st', s, scoped, Threw, n);
    } else {
      var (index, found) := V.Query(env.norm, st.index, embedding.value, ClampLimit(q.limit), FiltersOf(scoped));
      if found.None? || ResultsOf(env, scoped, found.value, now, GetByIds(st.repo, HitIds(found.value))).None? {
        DoneStays(env, st', s, scoped, Threw, n);
      } else {
        var results := ResultsOf(env, scoped, found.value, now, GetByIds(st.repo, HitIds(found.value))).value;
        FoundAtMost(st.repo, HitIds(found.value));
        TouchesAreEnough(env, State(index, st.repo), s, scoped, results, now, n);
      }
    }
  }

  lemma TouchesAreEnough(env: Env, st: State, s: string, q: MemoryQuery, results: seq<SearchResult>, now: real, n: nat)
    requires |results| <= n
    ensures
      var (st', p) := Proceed(st, s, q, results, 0, now);
      Acts(env, st', s, p, Touches(n)) ==
      (State(st.index, TouchAll(st.repo, results, now)), Some(QueryDone(q, Unscope(s, Answer(q, results)))))
  {
    var (st', p) := Proceed(st, s, q, results, 0, now);
    assert State(st.index, TouchAll(st.repo, results[..0], now)) == st;
    assert Touches(n) == Touches(|results|) + Touches(n - |results|);
    ActsSplit(env, st', s, p, Touches(|results|), Touches(n - |results|));
    UninterruptedTouches(env, st, s, q, results, 0, now);
    DoneStays(env, State(st.index, TouchAll(st.repo, results, now)), s, q, Unscope(s, Answer(q, results)), n - |results|);
  }
}
