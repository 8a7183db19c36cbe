/** server/container.ts: what the start-up rebuild of the index restores, for whatever order the stored
    memories are listed in. */
module Restart {
  import opened Seqs
  import opened OrderedMaps
  import Ranking
  import opened Repository
  import V = VectorStore
  import opened MemoryManager
  import X = MemoryExactness
  import opened Reindex

  // ---------------------------------------------------------------- the same map in another order

  ghost predicate SameMap<T>(m: Entries<T>, m': Entries<T>) {
    forall k :: Get(m, k) == Get(m', k)
  }

  lemma {:induction false} CountOnce<T>(m: Entries<T>, e: (string, T))
    requires Distinct(m)
    ensures multiset(m)[e] == if e in m then 1 else 0
  {
    if m != [] {
      assert m == [m[0]] + m[1..];
      CountOnce(m[1..], e);
      forall j | 0 <= j < |m[1..]|
        ensures m[1..][j] != m[0]
      {
        assert m[0].0 != m[j + 1].0;
      }
    }
  }

  lemma EntryIffGet<T>(m: Entries<T>, e: (string, T))
    requires Distinct(m)
    ensures e in m <==> Get(m, e.0) == Some(e.1)
  {
    HasIsAt(m, e.0);
    if e in m {
      var i :| 0 <= i < |m| && m[i] == e;
      GetIsAt(m, i);
    }
  }

  lemma SameMapPermutes<T>(m: Entries<T>, m': Entries<T>)
    requires Distinct(m) && Distinct(m') && SameMap(m, m')
    ensures multiset(m) == multiset(m')
  {
    forall e: (string, T)
      ensures multiset(m)[e] == multiset(m')[e]
    {
      CountOnce(m, e);
      CountOnce(m', e);
      EntryIffGet(m, e);
      EntryIffGet(m', e);
      assert Get(m, e.0) == Get(m', e.0);
    }
  }

  // ---------------------------------------------------------------- listings

  /** The listing has every stored memory once, in some order. */
  ghost predicate Lists(listing: seq<Memory>, repo: Memories) {
    multiset(listing) == multiset(Values(repo))
  }

  predicate NewestFirst(listing: seq<Memory>) {
    Ranking.Descending(listing, CreatedAt())
  }

  function CreatedAt(): Memory -> real {
    (m: Memory) => m.createdAt
  }

  /** The listing as a map, ids being keys. */
  function ById(listing: seq<Memory>): (m: Memories)
    ensures |m| == |listing| && forall i :: 0 <= i < |listing| ==> m[i] == (listing[i].id, listing[i])
  {
    seq(|listing|, i requires 0 <= i < |listing| => (listing[i].id, listing[i]))
  }

  lemma SplitAt<T>(s: seq<T>, i: nat)
    requires i < |s|
    ensures s == s[..i] + [s[i]] + s[i + 1..]
    ensures multiset(s) == multiset(s[..i]) + multiset{s[i]} + multiset(s[i + 1..])
  {
    assert s == s[..i] + [s[i]] + s[i + 1..];
  }

  lemma TwoPlaces<T>(s: seq<T>, i: nat, j: nat)
    requires i < j < |s| && s[i] == s[j]
    ensures multiset(s)[s[i]] >= 2
  {
    SplitAt(s, j);
    assert s[i] in s[..j];
  }

  lemma {:induction false} NoTwoPlaces<T>(s: seq<T>, x: T, key: T -> string)
    requires Ranking.DistinctBy(s, key)
    ensures multiset(s)[x] <= 1
  {
    if s != [] {
      assert s == [s[0]] + s[1..];
      NoTwoPlaces(s[1..], x, key);
      forall j | 0 <= j < |s[1..]|
        ensures s[1..][j] != s[0]
      {
        assert key(s[0]) != key(s[j + 1]);
      }
    }
  }

  lemma DistinctIsKept<T>(s: seq<T>, r: seq<T>, key: T -> string)
    requires multiset(s) == multiset(r) && Ranking.DistinctBy(r, key)
    ensures Ranking.DistinctBy(s, key)
  {
    forall i, j | 0 <= i < j < |s|
      ensures key(s[i]) != key(s[j])
    {
      assert s[i] in multiset(s) && s[j] in multiset(s);
      var k :| 0 <= k < |r| && r[k] == s[i];
      var l :| 0 <= l < |r| && r[l] == s[j];
      if k == l {
        TwoPlaces(s, i, j);
        NoTwoPlaces(r, s[i], key);
      }
    }
  }

  function Id(): Memory -> string {
    (m: Memory) => m.id
  }

  /** A listing of the repository is the repository as a map. */
  lemma ListingIsMap(listing: seq<Memory>, repo: Memories)
    requires Keyed(repo) && Lists(listing, repo)
    ensures |listing| == |repo| && Keyed(ById(listing)) && SameMap(ById(listing), repo)
  {
    assert |multiset(listing)| == |multiset(Values(repo))|;
    DistinctIsKept(listing, Values(repo), Id());
    forall i, j | 0 <= i < j < |listing|
      ensures ById(listing)[i].0 != ById(listing)[j].0
    {
      assert Id()(listing[i]) != Id()(listing[j]);
    }
    forall k
      ensures Get(ById(listing), k) == Get(repo, k)
    {
      SameEntry(listing, repo, k);
    }
  }

  lemma ListedIsStored(listing: seq<Memory>, repo: Memories, j: nat)
    requires Keyed(repo) && Lists(listing, repo) && j < |listing|
    ensures Get(repo, listing[j].id) == Some(listing[j])
  {
    assert listing[j] in multiset(Values(repo));
    var i :| 0 <= i < |repo| && Values(repo)[i] == listing[j];
    GetIsAt(repo, i);
  }

  lemma StoredIsListed(listing: seq<Memory>, repo: Memories, i: nat)
    requires Keyed(repo) && Lists(listing, repo) && Keyed(ById(listing)) && i < |repo|
    ensures Has(ById(listing), repo[i].0)
  {
    assert Values(repo)[i] in multiset(listing);
    var j :| 0 <= j < |listing| && listing[j] == repo[i].1;
    GetIsAt(ById(listing), j);
  }

  lemma SameEntry(listing: seq<Memory>, repo: Memories, k: string)
    requires Keyed(repo) && Lists(listing, repo) && Keyed(ById(listing))
    ensures Get(ById(listing), k) == Get(repo, k)
  {
    HasIsAt(repo, k);
    HasIsAt(ById(listing), k);
    if Has(ById(listing), k) {
      var j :| 0 <= j < |listing| && ById(listing)[j] == (k, Get(ById(listing), k).value);
      ListedIsStored(listing, repo, j);
    } else {
      forall i | 0 <= i < |repo|
        ensures repo[i].0 != k
      {
        StoredIsListed(listing, repo, i);
      }
    }
  }

  // ---------------------------------------------------------------- the rebuilt index

  /** What Reindex makes of an empty index (see its contract). */
  function Rebuilt(env: Env, listing: seq<Memory>, embed: string -> Option<seq<real>>): (V.Store, bool) {
    V.Upsert(env.norm, V.EMPTY, Records(listing, embed))
  }

  lemma RebuiltIsIndex(env: Env, st: State, listing: seq<Memory>, embed: string -> Option<seq<real>>)
    requires Maintained(env, st, embed) && Lists(listing, st.repo)
    ensures Rebuilt(env, listing, embed) ==
            (V.Store(IndexOf(env, ById(listing), embed), if st.repo == [] then None else st.index.dimension), true)
    ensures Keyed(ById(listing)) && SameMap(ById(listing), st.repo) && |listing| == |st.repo|
  {
    ListingIsMap(listing, st.repo);
    var rows := ById(listing);
    assert Values(rows) == listing;
    var d := if st.repo == [] then 1 else st.index.dimension.value;
    forall i | 0 <= i < |rows|
      ensures embed(rows[i].1.content).Some? && |embed(rows[i].1.content).value| == d
    {
      GetIsAt(rows, i);
      assert Get(st.repo, rows[i].0) == Some(rows[i].1);
      HasIsAt(st.repo, rows[i].0);
    }
    UpsertBuildsIndex(env, rows, embed, d);
  }

  /** The entry of a stored memory. */
  function EntryFor(env: Env, m: Option<Memory>, embed: string -> Option<seq<real>>): Option<V.Stored> {
    match m
    case Some(memory) => Some(StoredFor(env, memory, embed))
    case None => None
  }

  /** In whatever order the memories of an operation history are listed, re-indexing succeeds and
      visits each memory once, and every entry of the maintained index is rebuilt as it was. With no
      failed save the two indexes are the same map, and the same sequence exactly if the listing is
      in the order of first stores. */
  lemma ReindexRebuildsIndex(env: Env, embed: string -> Option<seq<real>>, ops: seq<Operation>, listing: seq<Memory>)
    requires Lists(listing, After(env, embed, ops).repo)
    ensures
      var st := After(env, embed, ops);
      var (rebuilt, ok) := Rebuilt(env, listing, embed);
      && ok
      && |rebuilt.records| == |st.repo|
      && (forall key :: Get(rebuilt.records, key) == EntryFor(env, Get(st.repo, key), embed))
      && (forall key :: Has(st.index.records, key) ==> Get(rebuilt.records, key) == Get(st.index.records, key))
      && rebuilt.dimension == (if st.repo == [] then None else st.index.dimension)
      && (NoSaveFailed(ops) ==> SameMap(rebuilt.records, st.index.records))
      && (NoSaveFailed(ops) ==> (rebuilt.records == st.index.records <==> listing == Values(st.repo)))
  {
    var st := After(env, embed, ops);
    StaysMaintained(env, embed, ops);
    RebuiltIsIndex(env, st, listing, embed);
    IndexOfKeys(env, ById(listing), embed);
    forall key
      ensures Get(IndexOf(env, ById(listing), embed), key) == EntryFor(env, Get(st.repo, key), embed)
      ensures Has(st.index.records, key) ==> Get(st.index.records, key) == EntryFor(env, Get(st.repo, key), embed)
    {
      IndexOfGet(env, ById(listing), key, embed);
      if Has(st.index.records, key) {
        MaintainedEntry(env, st, key, embed);
      }
    }
    if NoSaveFailed(ops) {
      IndexInStep(env, embed, ops);
      InStepIsSameMap(env, st, listing, embed);
      OrderKeptIff(env, st, listing, embed);
    }
  }

  lemma MaintainedEntry(env: Env, st: State, key: string, embed: string -> Option<seq<real>>)
    requires Maintained(env, st, embed) && Has(st.index.records, key)
    ensures Get(st.index.records, key) == EntryFor(env, Get(st.repo, key), embed)
  {
    HasIsAt(st.index.records, key);
    var i :| 0 <= i < |st.index.records| && st.index.records[i] == (key, Get(st.index.records, key).value);
    assert Filed(env, st.repo, embed, st.index.records[i].0, st.index.records[i].1);
  }

  lemma InStepIsSameMap(env: Env, st: State, listing: seq<Memory>, embed: string -> Option<seq<real>>)
    requires SameMap(ById(listing), st.repo)
    ensures SameMap(IndexOf(env, ById(listing), embed), IndexOf(env, st.repo, embed))
  {
    forall k
      ensures Get(IndexOf(env, ById(listing), embed), k) == Get(IndexOf(env, st.repo, embed), k)
    {
      IndexOfGet(env, ById(listing), k, embed);
      IndexOfGet(env, st.repo, k, embed);
      assert Get(ById(listing), k) == Get(st.repo, k);
    }
  }

  lemma OrderKeptIff(env: Env, st: State, listing: seq<Memory>, embed: string -> Option<seq<real>>)
    requires Keyed(st.repo) && Keyed(ById(listing)) && SameMap(ById(listing), st.repo)
    ensures IndexOf(env, ById(listing), embed) == IndexOf(env, st.repo, embed) <==> listing == Values(st.repo)
  {
    var rows := ById(listing);
    IndexOfKeys(env, rows, embed);
    IndexOfKeys(env, st.repo, embed);
    if IndexOf(env, rows, embed) == IndexOf(env, st.repo, embed) {
      forall i | 0 <= i < |listing|
        ensures listing[i] == Values(st.repo)[i]
      {
        assert IndexOf(env, rows, embed)[i] == IndexOf(env, st.repo, embed)[i];
        GetIsAt(rows, i);
        GetIsAt(st.repo, i);
      }
      assert listing == Values(st.repo);
    }
    assert ById(Values(st.repo)) == st.repo;
  }

  // ---------------------------------------------------------------- descending sequences of the same elements

  function Map<T, U>(s: seq<T>, f: T -> U): (r: seq<U>)
    ensures |r| == |s| && forall i :: 0 <= i < |s| ==> r[i] == f(s[i])
  {
    seq(|s|, i requires 0 <= i < |s| => f(s[i]))
  }

  lemma {:induction false} MapPermutes<T, U>(s: seq<T>, r: seq<T>, f: T -> U)
    requires multiset(s) == multiset(r)
    ensures multiset(Map(s, f)) == multiset(Map(r, f))
  {
    if s == [] {
      assert |multiset(r)| == 0;
    } else {
      var j := PlaceOf(s, r);
      assert Map(s, f) == [f(s[0])] + Map(s[1..], f);
      assert Map(r, f) == Map(r[..j], f) + [f(r[j])] + Map(r[j + 1..], f);
      assert Map(r[..j] + r[j + 1..], f) == Map(r[..j], f) + Map(r[j + 1..], f);
      MapPermutes(s[1..], r[..j] + r[j + 1..], f);
    }
  }

  /** Where the first element of s is in r. */
  lemma PlaceOf<T>(s: seq<T>, r: seq<T>) returns (j: nat)
    requires multiset(s) == multiset(r) && s != []
    ensures j < |r| && r[j] == s[0] && multiset(s[1..]) == multiset(r[..j] + r[j + 1..])
  {
    assert s[0] in multiset(r);
    j :| 0 <= j < |r| && r[j] == s[0];
    FirstApart(s);
    WithoutPlace(r, j);
  }

  lemma WithoutPlace<T>(s: seq<T>, i: nat)
    requires i < |s|
    ensures multiset(s[..i] + s[i + 1..]) == multiset(s) - multiset{s[i]}
  {
    SplitAt(s, i);
  }

  predicate DescendingReals(s: seq<real>) {
    forall i, j :: 0 <= i < j < |s| ==> s[i] >= s[j]
  }

  lemma {:induction false} DescendingRealsAreEqual(s: seq<real>, r: seq<real>)
    requires multiset(s) == multiset(r) && DescendingReals(s) && DescendingReals(r)
    ensures s == r
  {
    assert |multiset(s)| == |multiset(r)|;
    if s != [] {
      assert s[0] in multiset(r) && r[0] in multiset(s);
      assert s[0] == r[0];
      RestsPermute(s, r);
      DescendingRealsAreEqual(s[1..], r[1..]);
      assert s == [s[0]] + s[1..] && r == [r[0]] + r[1..];
    }
  }

  lemma RestsPermute<T>(s: seq<T>, r: seq<T>)
    requires multiset(s) == multiset(r) && s != [] && r != [] && s[0] == r[0]
    ensures multiset(s[1..]) == multiset(r[1..])
  {
    FirstApart(s);
    FirstApart(r);
  }

  lemma SameScores<T>(s: seq<T>, r: seq<T>, score: T -> real)
    requires multiset(s) == multiset(r) && Ranking.Descending(s, score) && Ranking.Descending(r, score)
    ensures |s| == |r| && forall i :: 0 <= i < |s| ==> score(s[i]) == score(r[i])
  {
    MapPermutes(s, r, score);
    DescendingRealsAreEqual(Map(s, score), Map(r, score));
    assert |s| == |Map(s, score)| && |r| == |Map(r, score)|;
  }

  predicate NoTies<T>(s: seq<T>, score: T -> real) {
    forall i, j :: 0 <= i < j < |s| ==> score(s[i]) != score(s[j])
  }

  lemma DescendingAreEqual<T>(s: seq<T>, r: seq<T>, score: T -> real)
    requires multiset(s) == multiset(r) && Ranking.Descending(s, score) && Ranking.Descending(r, score)
    requires NoTies(s, score)
    ensures s == r
  {
    SameScores(s, r, score);
    forall i | 0 <= i < |s|
      ensures s[i] == r[i]
    {
      assert r[i] in multiset(s);
      var j :| 0 <= j < |s| && s[j] == r[i];
      assert score(s[j]) == score(s[i]);
    }
  }

  // ---------------------------------------------------------------- the same map gives the same hits

  lemma {:induction false} HitsAppend(a: Entries<V.Stored>, b: Entries<V.Stored>, vector: seq<real>, n: real, filters: Option<V.Filters>)
    ensures V.Hits(a + b, vector, n, filters) == V.Hits(a, vector, n, filters) + V.Hits(b, vector, n, filters)
  {
    if a == [] {
      assert a + b == b;
    } else {
      assert (a + b)[1..] == a[1..] + b;
      HitsAppend(a[1..], b, vector, n, filters);
    }
  }

  lemma {:induction false} HitsPermute(s: Entries<V.Stored>, r: Entries<V.Stored>, vector: seq<real>, n: real, filters: Option<V.Filters>)
    requires multiset(s) == multiset(r)
    ensures multiset(V.Hits(s, vector, n, filters)) == multiset(V.Hits(r, vector, n, filters))
  {
    if s == [] {
      assert |multiset(r)| == 0;
    } else {
      var j := PlaceOf(s, r);
      assert r == r[..j] + ([s[0]] + r[j + 1..]);
      HitsAppend(r[..j], [s[0]] + r[j + 1..], vector, n, filters);
      HitsAppend([s[0]], r[j + 1..], vector, n, filters);
      HitsAppend(r[..j], r[j + 1..], vector, n, filters);
      assert s == [s[0]] + s[1..];
      HitsAppend([s[0]], s[1..], vector, n, filters);
      HitsPermute(s[1..], r[..j] + r[j + 1..], vector, n, filters);
    }
  }

  /** The states differ at most in the order of the index. */
  ghost predicate SameState(st: State, st': State) {
    && st.repo == st'.repo && st.index.dimension == st'.index.dimension
    && Distinct(st.index.records) && Distinct(st'.index.records) && SameMap(st.index.records, st'.index.records)
  }

  function HitsFor(env: Env, st: State, q: MemoryQuery, vector: seq<real>): seq<V.Hit> {
    V.Hits(st.index.records, vector, env.norm(vector), FiltersOf(q))
  }

  /** Equally long, and equal scores in equal places. */
  predicate EqualScores(hits: seq<V.Hit>, hits': seq<V.Hit>) {
    |hits| == |hits'| && forall i :: 0 <= i < |hits| ==> hits[i].score == hits'[i].score
  }

  /** What only the first has ties with its last. */
  predicate OthersTie(hits: seq<V.Hit>, hits': seq<V.Hit>) {
    forall i :: 0 <= i < |hits| && hits[i] !in hits' ==> hits[i].score == hits[|hits| - 1].score
  }

  predicate SameUpToTies(hits: seq<V.Hit>, hits': seq<V.Hit>) {
    EqualScores(hits, hits') && OthersTie(hits, hits')
  }

  /** Two indexes that are the same map find the same hits, up to ties. */
  lemma SameStateSameHits(env: Env, st: State, st': State, q: MemoryQuery, vector: seq<real>)
    requires SameState(st, st')
    ensures multiset(HitsFor(env, st, q, vector)) == multiset(HitsFor(env, st', q, vector))
    ensures SameUpToTies(X.Candidates(env, st, q, vector), X.Candidates(env, st', q, vector))
    ensures NoTies(HitsFor(env, st, q, vector), V.ByScore()) ==> X.Candidates(env, st, q, vector) == X.Candidates(env, st', q, vector)
  {
    var hits, hits' := HitsFor(env, st, q, vector), HitsFor(env, st', q, vector);
    SameMapPermutes(st.index.records, st'.index.records);
    HitsPermute(st.index.records, st'.index.records, vector, env.norm(vector), FiltersOf(q));
    Ranking.SortSorts(hits, V.ByScore());
    Ranking.SortSorts(hits', V.ByScore());
    var s, s' := Ranking.SortDescending(hits, V.ByScore()), Ranking.SortDescending(hits', V.ByScore());
    var n := if ClampLimit(q.limit) <= |s| then ClampLimit(q.limit) else |s|;
    SortedScores(s, s', n);
    TopsTie(s, s', n);
    assert s[..|s|] == s && s'[..|s'|] == s';
    if NoTies(hits, V.ByScore()) {
      SortKeepsNoTies(hits, V.ByScore());
      DescendingAreEqual(s, s', V.ByScore());
    }
  }

  /** A hit among the first n of one ranking only scores like the last of them. */
  lemma TiesWithLast(s: seq<V.Hit>, s': seq<V.Hit>, n: nat, i: nat)
    requires multiset(s) == multiset(s') && i < n <= |s| == |s'| && s[i] !in s'[..n]
    requires Ranking.Descending(s, V.ByScore()) && Ranking.Descending(s', V.ByScore())
    requires s[n - 1].score == s'[n - 1].score
    ensures s[i].score == s[n - 1].score
  {
    assert s[i] in multiset(s');
    var j :| 0 <= j < |s'| && s'[j] == s[i];
    assert j >= n by {
      assert forall l :: 0 <= l < n ==> s'[..n][l] == s'[l];
    }
    assert V.ByScore()(s'[n - 1]) >= V.ByScore()(s'[j]);
    if i < n - 1 {
      assert V.ByScore()(s[i]) >= V.ByScore()(s[n - 1]);
    }
  }

  lemma SortedScores(s: seq<V.Hit>, s': seq<V.Hit>, n: nat)
    requires multiset(s) == multiset(s') && n <= |s|
    requires Ranking.Descending(s, V.ByScore()) && Ranking.Descending(s', V.ByScore())
    ensures |s| == |s'| && EqualScores(s[..n], s'[..n])
    ensures n > 0 ==> s[n - 1].score == s'[n - 1].score
  {
    SameScores(s, s', V.ByScore());
    forall i | 0 <= i < n
      ensures s[i].score == s'[i].score
    {
      assert V.ByScore()(s[i]) == V.ByScore()(s'[i]);
    }
  }

  lemma TopsTie(s: seq<V.Hit>, s': seq<V.Hit>, n: nat)
    requires multiset(s) == multiset(s') && n <= |s| == |s'|
    requires Ranking.Descending(s, V.ByScore()) && Ranking.Descending(s', V.ByScore())
    requires n > 0 ==> s[n - 1].score == s'[n - 1].score
    ensures OthersTie(s[..n], s'[..n])
  {
    forall i | 0 <= i < n && s[..n][i] !in s'[..n]
      ensures s[..n][i].score == s[..n][n - 1].score
    {
      TiesWithLast(s, s', n, i);
    }
  }

  lemma SortKeepsNoTies<T>(s: seq<T>, score: T -> real)
    requires NoTies(s, score)
    ensures NoTies(Ranking.SortDescending(s, score), score)
  {
    var r := Ranking.SortDescending(s, score);
    Ranking.SortSorts(s, score);
    forall i, j | 0 <= i < j < |r|
      ensures score(r[i]) != score(r[j])
    {
      assert r[i] in multiset(s) && r[j] in multiset(s);
      var k :| 0 <= k < |s| && s[k] == r[i];
      var l :| 0 <= l < |s| && s[l] == r[j];
      if k == l {
        TwoPlaces(r, i, j);
        OnePlace(s, k, score);
      }
    }
  }

  lemma OnePlace<T>(s: seq<T>, k: nat, score: T -> real)
    requires NoTies(s, score) && k < |s|
    ensures multiset(s)[s[k]] == 1
  {
    SplitAt(s, k);
    assert s[k] !in s[..k] && s[k] !in s[k + 1..];
  }

  // ---------------------------------------------------------------- operations after a restart

  function Operate(env: Env, embed: string -> Option<seq<real>>, st: State, op: Operation): State {
    match op
    case Storing(m, saveOk) => StoreMemory(env, st, m, embed(m.content), saveOk).0
    case Querying(q, now) => QueryMemories(env, st, q, embed(q.text), now).0
  }

  /** Further operations on a given state. */
  function Resume(env: Env, embed: string -> Option<seq<real>>, st: State, ops: seq<Operation>): State {
    if ops == [] then st else Operate(env, embed, Resume(env, embed, st, ops[..|ops| - 1]), ops[|ops| - 1])
  }

  /** No two records match a query equally well. */
  predicate Untied(env: Env, embed: string -> Option<seq<real>>, st: State, op: Operation) {
    op.Querying? && embed(op.q.text).Some? ==> NoTies(HitsFor(env, st, op.q, embed(op.q.text).value), V.ByScore())
  }

  predicate AlwaysUntied(env: Env, embed: string -> Option<seq<real>>, st: State, ops: seq<Operation>) {
    forall n :: 0 <= n < |ops| ==> Untied(env, embed, Resume(env, embed, st, ops[..n]), ops[n])
  }

  lemma PutKeepsSame(m: Entries<V.Stored>, m': Entries<V.Stored>, k: string, v: V.Stored)
    requires Distinct(m) && Distinct(m') && SameMap(m, m')
    ensures Distinct(Put(m, k, v)) && Distinct(Put(m', k, v)) && SameMap(Put(m, k, v), Put(m', k, v))
  {
    PutKeys(m, k, v);
    PutKeys(m', k, v);
    forall key
      ensures Get(Put(m, k, v), key) == Get(Put(m', k, v), key)
    {
      GetPut(m, k, v, key);
      GetPut(m', k, v, key);
      assert Get(m, key) == Get(m', key);
    }
  }

  lemma RemoveKeepsSame(m: Entries<V.Stored>, m': Entries<V.Stored>, k: string)
    requires Distinct(m) && Distinct(m') && SameMap(m, m')
    ensures Distinct(Remove(m, k)) && Distinct(Remove(m', k)) && SameMap(Remove(m, k), Remove(m', k))
  {
    RemoveKeys(m, k);
    RemoveKeys(m', k);
    forall key
      ensures Get(Remove(m, k), key) == Get(Remove(m', k), key)
    {
      GetRemove(m, k, key);
      GetRemove(m', k, key);
      assert Get(m, key) == Get(m', key);
    }
  }

  lemma StoreKeepsSame(env: Env, st: State, st': State, m: Memory, embedding: Option<seq<real>>, saveOk: bool)
    requires SameState(st, st')
    ensures SameState(StoreMemory(env, st, m, embedding, saveOk).0, StoreMemory(env, st', m, embedding, saveOk).0)
    ensures StoreMemory(env, st, m, embedding, saveOk).1 == StoreMemory(env, st', m, embedding, saveOk).1
  {
    if embedding.Some? {
      var rec := RecordOf(m, embedding.value);
      var stored := V.Stored(rec, env.norm(rec.vector));
      V.UpsertSingle(env.norm, st.index, rec);
      V.UpsertSingle(env.norm, st'.index, rec);
      PutKeepsSame(st.index.records, st'.index.records, m.id, stored);
      RemoveKeepsSame(Put(st.index.records, m.id, stored), Put(st'.index.records, m.id, stored), m.id);
    }
  }

  lemma QueryKeepsSame(env: Env, st: State, st': State, q: MemoryQuery, embedding: Option<seq<real>>, now: real)
    requires SameState(st, st')
    requires embedding.Some? ==> NoTies(HitsFor(env, st, q, embedding.value), V.ByScore())
    ensures SameState(QueryMemories(env, st, q, embedding, now).0, QueryMemories(env, st', q, embedding, now).0)
    ensures QueryMemories(env, st, q, embedding, now).1 == QueryMemories(env, st', q, embedding, now).1
  {
    if embedding.Some? {
      SameStateSameHits(env, st, st', q, embedding.value);
    }
  }

  lemma {:induction false} RunsKeepSame(env: Env, embed: string -> Option<seq<real>>, st: State, st': State, later: seq<Operation>)
    requires SameState(st, st') && AlwaysUntied(env, embed, st, later)
    ensures SameState(Resume(env, embed, st, later), Resume(env, embed, st', later))
  {
    if later != [] {
      var before, op := later[..|later| - 1], later[|later| - 1];
      assert forall n :: 0 <= n < |before| ==> before[..n] == later[..n] && before[n] == later[n];
      RunsKeepSame(env, embed, st, st', before);
      var mid, mid' := Resume(env, embed, st, before), Resume(env, embed, st', before);
      assert Untied(env, embed, mid, op);
      match op
      case Storing(m, saveOk) => StoreKeepsSame(env, mid, mid', m, embed(m.content), saveOk);
      case Querying(q, now) => QueryKeepsSame(env, mid, mid', q, embed(q.text), now);
    }
  }

  // ---------------------------------------------------------------- restarts

  /** The repository survives; the index is rebuilt from the listing. */
  function Restarted(env: Env, repo: Memories, listing: seq<Memory>, embed: string -> Option<seq<real>>): State {
    State(Rebuilt(env, listing, embed).0, repo)
  }

  /** With no failed save, a restart changes at most the order of the index (and, when nothing is
      stored, forgets a dimension that a query fixed). */
  lemma RestartKeepsMap(env: Env, embed: string -> Option<seq<real>>, ops: seq<Operation>, listing: seq<Memory>)
    requires NoSaveFailed(ops) && Lists(listing, After(env, embed, ops).repo) && After(env, embed, ops).repo != []
    ensures
      var st := After(env, embed, ops);
      SameState(st, Restarted(env, st.repo, listing, embed))
  {
    var st := After(env, embed, ops);
    StaysMaintained(env, embed, ops);
    RebuiltIsIndex(env, st, listing, embed);
    IndexOfKeys(env, ById(listing), embed);
    ReindexRebuildsIndex(env, embed, ops, listing);
  }

  /** So in whatever order the database lists, the first query after a restart finds the same hits up
      to ties; and as long as no two records match a query equally well, nothing that is stored or
      asked later can tell that there was a restart. */
  lemma RestartIsInvisible(env: Env, embed: string -> Option<seq<real>>, ops: seq<Operation>, listing: seq<Memory>,
                           q: MemoryQuery, vector: seq<real>, later: seq<Operation>, now: real)
    requires NoSaveFailed(ops) && Lists(listing, After(env, embed, ops).repo) && After(env, embed, ops).repo != []
    ensures
      var st := After(env, embed, ops);
      var st' := Restarted(env, st.repo, listing, embed);
      && SameUpToTies(X.Candidates(env, st, q, vector), X.Candidates(env, st', q, vector))
      && (AlwaysUntied(env, embed, st, later + [Querying(q, now)]) ==>
            QueryMemories(env, Resume(env, embed, st, later), q, embed(q.text), now).1 ==
            QueryMemories(env, Resume(env, embed, st', later), q, embed(q.text), now).1)
  {
    var st := After(env, embed, ops);
    var st' := Restarted(env, st.repo, listing, embed);
    RestartKeepsMap(env, embed, ops, listing);
    SameStateSameHits(env, st, st', q, vector);
    if AlwaysUntied(env, embed, st, later + [Querying(q, now)]) {
      UntiedPrefix(env, embed, st, later, Querying(q, now));
      RunsKeepSame(env, embed, st, st', later);
      QueryKeepsSame(env, Resume(env, embed, st, later), Resume(env, embed, st', later), q, embed(q.text), now);
    }
  }

  lemma UntiedPrefix(env: Env, embed: string -> Option<seq<real>>, st: State, later: seq<Operation>, op: Operation)
    requires AlwaysUntied(env, embed, st, later + [op])
    ensures AlwaysUntied(env, embed, st, later) && Untied(env, embed, Resume(env, embed, st, later), op)
  {
    var all := later + [op];
    assert all[..|later|] == later && all[|later|] == op;
    forall n | 0 <= n < |later|
      ensures Untied(env, embed, Resume(env, embed, st, later[..n]), later[n])
    {
      assert all[..n] == later[..n] && all[n] == later[n];
    }
  }

  /** The database lists the newest memories first, so (unless creation times tie) a restart keeps the
      order of the index exactly if memories were first stored in that order. */
  lemma NewestFirstKeepsOrderIff(env: Env, embed: string -> Option<seq<real>>, ops: seq<Operation>, listing: seq<Memory>)
    requires NoSaveFailed(ops) && Lists(listing, After(env, embed, ops).repo)
    requires NewestFirst(listing) && NoTies(listing, CreatedAt())
    ensures
      var st := After(env, embed, ops);
      Rebuilt(env, listing, embed).0.records == st.index.records <==> NewestFirst(Values(st.repo))
  {
    var st := After(env, embed, ops);
    ReindexRebuildsIndex(env, embed, ops, listing);
    if NewestFirst(Values(st.repo)) {
      DescendingAreEqual(listing, Values(st.repo), CreatedAt());
    }
  }
}
