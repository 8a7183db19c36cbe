/** server/container.ts: at start-up the index is rebuilt from the stored memories, page by page
    and batch by batch. */
module Reindex {
  import opened Seqs
  import opened OrderedMaps
  import opened Repository
  import V = VectorStore
  import opened MemoryManager

  const PAGE_SIZE := 1000
  const MAX_RETRIES := 3

  /** What each attempt to embed a text yields. */
  type Attempts = (string, nat) -> Option<seq<real>>

  /** The first attempt that succeeds. */
  function FirstSuccess(attempts: Attempts, text: string, from: nat): Option<seq<real>>
    decreases MAX_RETRIES - from
  {
    if from >= MAX_RETRIES then None
    else if attempts(text, from).Some? then attempts(text, from)
    else FirstSuccess(attempts, text, from + 1)
  }

  function Embedding(attempts: Attempts): string -> Option<seq<real>> {
    (text: string) => FirstSuccess(attempts, text, 0)
  }

  function RecordFor(m: Memory, embed: string -> Option<seq<real>>): Option<V.VectorRecord> {
    match embed(m.content)
    case Some(vector) => Some(RecordOf(m, vector))
    case None => None
  }

  /** The records of the memories whose embedding succeeds, in order. */
  function Records(memories: seq<Memory>, embed: string -> Option<seq<real>>): seq<V.VectorRecord> {
    if memories == [] then []
    else
      var n := |memories| - 1;
      match RecordFor(memories[n], embed)
      case Some(rec) => Records(memories[..n], embed) + [rec]
      case None => Records(memories[..n], embed)
  }

  /** The configured concurrency; None where the source throws. */
  function Concurrency(raw: Limit, production: bool): (c: Option<nat>)
    ensures c.Some? ==> c.value >= 1
    ensures raw.Finite? && raw.value >= 1.0 ==> c.Some? && c.value as real <= raw.value < c.value as real + 1.0
    ensures raw.Finite? && 0.0 < raw.value < 1.0 ==> c == Some(1)
    ensures raw.NotFinite? || raw.value <= 0.0 ==> c == if production then None else Some(10)
  {
    match raw
    case NotFinite => if production then None else Some(10)
    case Finite(x) =>
      if x <= 0.0 then (if production then None else Some(10))
      else if x.Floor >= 1 then Some(x.Floor)
      else Some(1)
  }

  function Values<T>(m: Entries<T>): seq<T> {
    seq(|m|, i requires 0 <= i < |m| => m[i].1)
  }

  // ---------------------------------------------------------------- the loops

  method EmbedWithRetry(attempts: Attempts, text: string) returns (vector: Option<seq<real>>)
    ensures vector == Embedding(attempts)(text)
    ensures vector ==
            if attempts(text, 0).Some? then attempts(text, 0)
            else if attempts(text, 1).Some? then attempts(text, 1)
            else attempts(text, 2)
  {
    for attempt := 0 to MAX_RETRIES
      invariant FirstSuccess(attempts, text, attempt) == Embedding(attempts)(text)
    {
      vector := attempts(text, attempt);
      if vector.Some? {
        return;
      }
    }
    return None;
  }

  /** The results of a batch, all of which are waited for. */
  method SettleBatch(attempts: Attempts, batch: seq<Memory>) returns (batchResults: seq<Option<V.VectorRecord>>)
    ensures |batchResults| == |batch|
    ensures forall i :: 0 <= i < |batch| ==> batchResults[i] == RecordFor(batch[i], Embedding(attempts))
  {
    batchResults := [];
    for j := 0 to |batch|
      invariant |batchResults| == j
      invariant forall i :: 0 <= i < j ==> batchResults[i] == RecordFor(batch[i], Embedding(attempts))
    {
      var vector := EmbedWithRetry(attempts, batch[j].content);
      var settled := if vector.Some? then Some(RecordOf(batch[j], vector.value)) else None;
      assert settled == RecordFor(batch[j], Embedding(attempts));
      batchResults := batchResults + [settled];
    }
  }

  method EmbedBatch(attempts: Attempts, batch: seq<Memory>) returns (vectorRecords: seq<V.VectorRecord>)
    ensures vectorRecords == Records(batch, Embedding(attempts))
  {
    var batchResults := SettleBatch(attempts, batch);
    vectorRecords := [];
    for j := 0 to |batch|
      invariant vectorRecords == Records(batch[..j], Embedding(attempts))
    {
      RecordsSnoc(batch, j, Embedding(attempts));
      if batchResults[j].Some? {
        vectorRecords := vectorRecords + [batchResults[j].value];
      }
    }
    assert batch[..|batch|] == batch;
  }

  method EmbedPage(attempts: Attempts, memories: seq<Memory>, maxConcurrency: nat) returns (vectorRecords: seq<V.VectorRecord>)
    requires maxConcurrency >= 1
    ensures vectorRecords == Records(memories, Embedding(attempts))
  {
    vectorRecords := [];
    var i := 0;
    ghost var done: seq<Memory> := [];
    while i < |memories|
      invariant done == Slice(memories, 0, i)
      invariant vectorRecords == Records(done, Embedding(attempts))
    {
      var batch := Slice(memories, i, i + maxConcurrency);
      var records := EmbedBatch(attempts, batch);
      RecordsAppend(done, batch, Embedding(attempts));
      vectorRecords := vectorRecords + records;
      done := done + batch;
      i := i + maxConcurrency;
    }
    assert done == memories;
  }

  lemma RecordsSnoc(memories: seq<Memory>, n: nat, embed: string -> Option<seq<real>>)
    requires n < |memories|
    ensures Records(memories[..n + 1], embed) ==
            match RecordFor(memories[n], embed)
            case Some(rec) => Records(memories[..n], embed) + [rec]
            case None => Records(memories[..n], embed)
  {
    assert memories[..n + 1][..n] == memories[..n];
  }

  /** One page; false where the upsert throws, with the earlier records of the page kept. */
  method ReindexPage(store: V.LocalVectorStore, attempts: Attempts, memories: seq<Memory>, maxConcurrency: nat)
    returns (ok: bool, reindexed: nat)
    requires store.Valid() && maxConcurrency >= 1
    modifies store
    ensures store.Valid()
    ensures (store.View(), ok) == V.Upsert(store.norm, old(store.View()), Records(memories, Embedding(attempts)))
    ensures reindexed == |Records(memories, Embedding(attempts))|
  {
    var vectorRecords := EmbedPage(attempts, memories, maxConcurrency);
    ok := true;
    if |vectorRecords| > 0 {
      ok := store.UpsertAll(vectorRecords);
    }
    reindexed := |vectorRecords|;
  }

  /** Exactly the memories done are indexed. */
  ghost predicate Indexed(norm: seq<real> -> real, before: V.Store, now: V.Store, done: seq<Memory>, total: nat, embed: string -> Option<seq<real>>) {
    V.Upsert(norm, before, Records(done, embed)) == (now, true) && total == |Records(done, embed)|
  }

  /** Every listed memory is embedded and upserted once, in listing order; false where the source throws.
      The listing is whatever order the repository pages through: the database lists the newest first. */
  method Reindex(listing: seq<Memory>, store: V.LocalVectorStore, attempts: Attempts, raw: Limit, production: bool)
    returns (ok: bool, totalReindexed: nat)
    requires store.Valid()
    modifies store
    ensures store.Valid()
    ensures Concurrency(raw, production).Some? ==>
              var records := Records(listing, Embedding(attempts));
              (store.View(), ok) == V.Upsert(store.norm, old(store.View()), records) && (ok ==> totalReindexed == |records|)
    ensures Concurrency(raw, production).None? ==> store.View() == old(store.View()) && (ok <==> listing == [])
  {
    var offset := 0;
    totalReindexed := 0;
    var hasMore := true;
    ghost var before, now := store.View(), store.View();
    ghost var embed := Embedding(attempts);
    ghost var done: seq<Memory> := [];
    while hasMore
      invariant store.Valid() && now == store.View()
      invariant done <= listing && (if hasMore then |done| == offset else done == listing)
      invariant Concurrency(raw, production).None? ==> done == [] && now == before
      invariant Indexed(store.norm, before, now, done, totalReindexed, embed)
      decreases |listing| - |done|, hasMore
    {
      var memories := Slice(listing, offset, offset + PAGE_SIZE);
      PageGrowsPrefix(listing, done, memories, PAGE_SIZE);
      if |memories| == 0 {
        hasMore := false;
        break;
      }
      var maxConcurrency := Concurrency(raw, production);
      if maxConcurrency.None? {
        return false, totalReindexed;
      }
      var indexed, reindexed := ReindexPage(store, attempts, memories, maxConcurrency.value);
      PageExtends(store.norm, before, now, store.View(), indexed, done, memories, totalReindexed, embed);
      now, done := store.View(), done + memories;
      if !indexed {
        RestIsSkipped(store.norm, before, done, listing, embed);
        return false, totalReindexed;
      }
      totalReindexed := totalReindexed + reindexed;
      if |memories| < PAGE_SIZE {
        hasMore := false;
      } else {
        offset := offset + PAGE_SIZE;
      }
    }
    return true, totalReindexed;
  }

  // ---------------------------------------------------------------- pages cover the listing

  lemma {:induction false} IdsAreKeys(m: Memories)
    requires Keyed(m)
    ensures |ListedIds(m, None)| == |m|
    ensures forall i :: 0 <= i < |m| ==> ListedIds(m, None)[i] == m[i].0
  {
    if m != [] {
      IdsAreKeys(m[1..]);
    }
  }

  lemma {:induction false} FetchKeys(m: Memories, ids: seq<string>, from: nat)
    requires Keyed(m) && from + |ids| <= |m|
    requires forall i :: 0 <= i < |ids| ==> ids[i] == m[from + i].0
    ensures GetByIds(m, ids) == Values(m)[from..from + |ids|]
  {
    if ids != [] {
      GetIsAt(m, from);
      assert ids[0] == m[from].0;
      FetchKeys(m, ids[1..], from + 1);
      assert Values(m)[from..from + |ids|] == [m[from].1] + Values(m)[from + 1..from + |ids|];
    }
  }

  /** The pages of the in-memory repository are those of its values in insertion order. */
  lemma ListingIsSlice(m: Memories, limit: nat, offset: nat)
    requires Keyed(m)
    ensures ListByType(m, None, limit, offset) == Slice(Values(m), offset, offset + limit)
  {
    IdsAreKeys(m);
    var ids := Slice(ListedIds(m, None), offset, offset + limit);
    if offset < |m| {
      FetchKeys(m, ids, offset);
    }
  }

  lemma {:induction false} RecordsAppend(a: seq<Memory>, b: seq<Memory>, embed: string -> Option<seq<real>>)
    ensures Records(a + b, embed) == Records(a, embed) + Records(b, embed)
  {
    if b == [] {
      assert a + b == a;
    } else {
      assert (a + b)[..|a + b| - 1] == a + b[..|b| - 1];
      RecordsAppend(a, b[..|b| - 1], embed);
    }
  }

  lemma {:induction false} UpsertAppend(norm: seq<real> -> real, st: V.Store, a: seq<V.VectorRecord>, b: seq<V.VectorRecord>)
    ensures
      var (mid, ok) := V.Upsert(norm, st, a);
      V.Upsert(norm, st, a + b) == if ok then V.Upsert(norm, mid, b) else (mid, false)
    decreases |a|
  {
    if a == [] {
      assert a + b == b;
    } else {
      assert (a + b)[1..] == a[1..] + b;
      if V.Accepts(st, |a[0].vector|) {
        UpsertAppend(norm, V.UpsertOne(norm, st, a[0]), a[1..], b);
      }
    }
  }

  lemma PageGrowsPrefix(all: seq<Memory>, done: seq<Memory>, page: seq<Memory>, size: nat)
    requires done <= all && page == Slice(all, |done|, |done| + size)
    ensures done + page <= all
    ensures |page| < size ==> done + page == all
    ensures |page| == 0 && size > 0 ==> done == all
  {
  }

  /** Another page extends what is indexed, unless it fails. */
  lemma PageExtends(norm: seq<real> -> real, before: V.Store, now: V.Store, after: V.Store, ok: bool,
                    done: seq<Memory>, page: seq<Memory>, total: nat,
                    embed: string -> Option<seq<real>>)
    requires Indexed(norm, before, now, done, total, embed)
    requires (after, ok) == V.Upsert(norm, now, Records(page, embed))
    ensures ok ==> Indexed(norm, before, after, done + page, total + |Records(page, embed)|, embed)
    ensures !ok ==> V.Upsert(norm, before, Records(done + page, embed)) == (after, false)
  {
    RecordsAppend(done, page, embed);
    UpsertAppend(norm, before, Records(done, embed), Records(page, embed));
  }

  lemma RestIsSkipped(norm: seq<real> -> real, before: V.Store, done: seq<Memory>, all: seq<Memory>, embed: string -> Option<seq<real>>)
    requires done <= all && !V.Upsert(norm, before, Records(done, embed)).1
    ensures V.Upsert(norm, before, Records(all, embed)) == V.Upsert(norm, before, Records(done, embed))
  {
    assert all == done + all[|done|..];
    RecordsAppend(done, all[|done|..], embed);
    UpsertAppend(norm, before, Records(done, embed), Records(all[|done|..], embed));
  }

  // ---------------------------------------------------------------- the index as a function of the repository

  function StoredFor(env: Env, m: Memory, embed: string -> Option<seq<real>>): V.Stored {
    var vector := embed(m.content).GetOr([]);
    V.Stored(RecordOf(m, vector), env.norm(vector))
  }

  /** The index entries of all stored memories, in repository order. */
  function IndexOf(env: Env, repo: Memories, embed: string -> Option<seq<real>>): Entries<V.Stored> {
    if repo == [] then []
    else [(repo[0].0, StoredFor(env, repo[0].1, embed))] + IndexOf(env, repo[1..], embed)
  }

  /** Every stored content embeds to a vector of length d. */
  ghost predicate Embeddable(repo: Memories, embed: string -> Option<seq<real>>, d: nat) {
    forall i :: 0 <= i < |repo| ==> embed(repo[i].1.content).Some? && |embed(repo[i].1.content).value| == d
  }

  lemma {:induction false} IndexOfAppend(env: Env, a: Memories, b: Memories, embed: string -> Option<seq<real>>)
    ensures IndexOf(env, a + b, embed) == IndexOf(env, a, embed) + IndexOf(env, b, embed)
  {
    if a == [] {
      assert a + b == b;
    } else {
      assert (a + b)[1..] == a[1..] + b;
      IndexOfAppend(env, a[1..], b, embed);
    }
  }

  lemma {:induction false} IndexOfKeys(env: Env, repo: Memories, embed: string -> Option<seq<real>>)
    ensures |IndexOf(env, repo, embed)| == |repo|
    ensures forall i :: 0 <= i < |repo| ==> IndexOf(env, repo, embed)[i] == (repo[i].0, StoredFor(env, repo[i].1, embed))
  {
    if repo != [] {
      IndexOfKeys(env, repo[1..], embed);
    }
  }

  lemma IndexOfSnoc(env: Env, repo: Memories, embed: string -> Option<seq<real>>)
    requires repo != []
    ensures
      var n := |repo| - 1;
      IndexOf(env, repo, embed) == IndexOf(env, repo[..n], embed) + [(repo[n].0, StoredFor(env, repo[n].1, embed))]
  {
    var n := |repo| - 1;
    assert repo == repo[..n] + [repo[n]];
    IndexOfAppend(env, repo[..n], [repo[n]], embed);
    assert [repo[n]][1..] == [];
  }

  lemma RecordsOfSnoc(repo: Memories, embed: string -> Option<seq<real>>)
    requires repo != [] && embed(repo[|repo| - 1].1.content).Some?
    ensures
      var n := |repo| - 1;
      Records(Values(repo), embed) == Records(Values(repo[..n]), embed) + [RecordOf(repo[n].1, embed(repo[n].1.content).value)]
  {
    assert Values(repo)[..|repo| - 1] == Values(repo[..|repo| - 1]);
  }

  /** Upserting the records of a listing into an empty index yields exactly its index. */
  lemma {:induction false} UpsertBuildsIndex(env: Env, repo: Memories, embed: string -> Option<seq<real>>, d: nat)
    requires Keyed(repo) && Embeddable(repo, embed, d) && d > 0
    ensures V.Upsert(env.norm, V.EMPTY, Records(Values(repo), embed)) ==
            (V.Store(IndexOf(env, repo, embed), if repo == [] then None else Some(d)), true)
  {
    if repo != [] {
      var n := |repo| - 1;
      var m, before := repo[n].1, Records(Values(repo[..n]), embed);
      UpsertBuildsIndex(env, repo[..n], embed, d);
      RecordsOfSnoc(repo, embed);
      var rec := RecordOf(m, embed(m.content).value);
      UpsertAppend(env.norm, V.EMPTY, before, [rec]);
      V.UpsertSingle(env.norm, V.Upsert(env.norm, V.EMPTY, before).0, rec);
      IndexOfKeys(env, repo[..n], embed);
      PutNew(IndexOf(env, repo[..n], embed), m.id, StoredFor(env, m, embed));
      IndexOfSnoc(env, repo, embed);
    }
  }

  // ---------------------------------------------------------------- the maintained index

  datatype Operation = Storing(m: Memory, saveOk: bool) | Querying(q: MemoryQuery, now: real)

  /** Uninterrupted operations on an initially empty system whose embeddings are deterministic. */
  function After(env: Env, embed: string -> Option<seq<real>>, ops: seq<Operation>): State {
    if ops == [] then State(V.EMPTY, [])
    else
      var st := After(env, embed, ops[..|ops| - 1]);
      match ops[|ops| - 1]
      case Storing(m, saveOk) => StoreMemory(env, st, m, embed(m.content), saveOk).0
      case Querying(q, now) => QueryMemories(env, st, q, embed(q.text), now).0
  }

  predicate NoSaveFailed(ops: seq<Operation>) {
    forall i :: 0 <= i < |ops| && ops[i].Storing? ==> ops[i].saveOk
  }

  predicate Filed(env: Env, repo: Memories, embed: string -> Option<seq<real>>, key: string, s: V.Stored) {
    Has(repo, key) && s == StoredFor(env, Get(repo, key).value, embed)
  }

  /** The index is a part of the index of the repository, and all contents have its dimension. */
  ghost predicate Maintained(env: Env, st: State, embed: string -> Option<seq<real>>) {
    && Distinct(st.index.records)
    && Keyed(st.repo)
    && (forall i :: 0 <= i < |st.index.records| ==> Filed(env, st.repo, embed, st.index.records[i].0, st.index.records[i].1))
    && (st.repo != [] ==> st.index.dimension.Some? && st.index.dimension.value > 0 && Embeddable(st.repo, embed, st.index.dimension.value))
  }

  lemma StoreKeepsMaintained(env: Env, st: State, m: Memory, embed: string -> Option<seq<real>>, saveOk: bool)
    requires Maintained(env, st, embed)
    ensures Maintained(env, StoreMemory(env, st, m, embed(m.content), saveOk).0, embed)
  {
    if Storable(env, m) && embed(m.content).Some? && V.Accepts(st.index, |embed(m.content).value|) {
      var records, stored := st.index.records, StoredFor(env, m, embed);
      V.UpsertSingle(env.norm, st.index, stored.record);
      PutKeys(records, m.id, stored);
      if saveOk {
        SaveKeepsKeyed(st.repo, m);
        PutKeys(st.repo, m.id, m);
        forall i | 0 <= i < |Put(records, m.id, stored)|
          ensures Filed(env, Save(st.repo, m), embed, Put(records, m.id, stored)[i].0, Put(records, m.id, stored)[i].1)
        {
          GetPut(st.repo, m.id, m, Put(records, m.id, stored)[i].0);
          PutAt(records, m.id, stored, i);
        }
      } else {
        RemoveKeys(Put(records, m.id, stored), m.id);
      }
    }
  }

  lemma AccessKeepsMaintained(env: Env, st: State, id: string, now: real, embed: string -> Option<seq<real>>)
    requires Maintained(env, st, embed)
    ensures Maintained(env, State(st.index, UpdateAccess(st.repo, id, now)), embed)
  {
    if Has(st.repo, id) {
      var records, m := st.index.records, Get(st.repo, id).value.(lastAccessedAt := Some(now));
      HasIsAt(st.repo, id);
      UpdateAccessKeepsKeyed(st.repo, id, now);
      PutKeys(st.repo, id, m);
      forall i | 0 <= i < |records|
        ensures Filed(env, Put(st.repo, id, m), embed, records[i].0, records[i].1)
      {
        GetPut(st.repo, id, m, records[i].0);
      }
    }
  }

  lemma {:induction false} AccessesKeepMaintained(env: Env, st: State, results: seq<SearchResult>, now: real, embed: string -> Option<seq<real>>)
    requires Maintained(env, st, embed)
    ensures Maintained(env, State(st.index, TouchAll(st.repo, results, now)), embed)
  {
    if results != [] {
      var rest := results[..|results| - 1];
      AccessesKeepMaintained(env, st, rest, now, embed);
      AccessKeepsMaintained(env, State(st.index, TouchAll(st.repo, rest, now)), results[|results| - 1].memory.id, now, embed);
    }
  }

  lemma QueryKeepsMaintained(env: Env, st: State, q: MemoryQuery, now: real, embed: string -> Option<seq<real>>)
    requires Maintained(env, st, embed)
    ensures Maintained(env, QueryMemories(env, st, q, embed(q.text), now).0, embed)
  {
    if q.text != "" && embed(q.text).Some? {
      var (index, found) := V.Query(env.norm, st.index, embed(q.text).value, ClampLimit(q.limit), FiltersOf(q));
      assert Maintained(env, State(index, st.repo), embed);
      if found.Some? {
        var results := ResultsOf(env, q, found.value, now, GetByIds(st.repo, HitIds(found.value)));
        if results.Some? {
          AccessesKeepMaintained(env, State(index, st.repo), results.value, now, embed);
        }
      }
    }
  }

  lemma {:induction false} StaysMaintained(env: Env, embed: string -> Option<seq<real>>, ops: seq<Operation>)
    ensures Maintained(env, After(env, embed, ops), embed)
  {
    if ops != [] {
      var st := After(env, embed, ops[..|ops| - 1]);
      StaysMaintained(env, embed, ops[..|ops| - 1]);
      match ops[|ops| - 1]
      case Storing(m, saveOk) => StoreKeepsMaintained(env, st, m, embed, saveOk);
      case Querying(q, now) => QueryKeepsMaintained(env, st, q, now, embed);
    }
  }

  // ---------------------------------------------------------------- without failed saves, index and repository run in step

  lemma {:induction false} IndexOfPut(env: Env, repo: Memories, k: string, m: Memory, embed: string -> Option<seq<real>>)
    ensures IndexOf(env, Put(repo, k, m), embed) == Put(IndexOf(env, repo, embed), k, StoredFor(env, m, embed))
  {
    if repo != [] && repo[0].0 != k {
      IndexOfPut(env, repo[1..], k, m, embed);
    }
  }

  lemma {:induction false} IndexOfGet(env: Env, repo: Memories, k: string, embed: string -> Option<seq<real>>)
    ensures Get(IndexOf(env, repo, embed), k) ==
            match Get(repo, k) case Some(m) => Some(StoredFor(env, m, embed)) case None => None
  {
    if repo != [] && repo[0].0 != k {
      IndexOfGet(env, repo[1..], k, embed);
    }
  }

  lemma IndexIgnoresAccess(env: Env, repo: Memories, id: string, now: real, embed: string -> Option<seq<real>>)
    ensures IndexOf(env, UpdateAccess(repo, id, now), embed) == IndexOf(env, repo, embed)
  {
    if Has(repo, id) {
      var m := Get(repo, id).value;
      IndexOfPut(env, repo, id, m.(lastAccessedAt := Some(now)), embed);
      IndexOfGet(env, repo, id, embed);
      PutSame(IndexOf(env, repo, embed), id, StoredFor(env, m, embed));
    }
  }

  lemma {:induction false} IndexIgnoresAccesses(env: Env, repo: Memories, results: seq<SearchResult>, now: real, embed: string -> Option<seq<real>>)
    ensures IndexOf(env, TouchAll(repo, results, now), embed) == IndexOf(env, repo, embed)
  {
    if results != [] {
      var rest := results[..|results| - 1];
      IndexIgnoresAccesses(env, repo, rest, now, embed);
      IndexIgnoresAccess(env, TouchAll(repo, rest, now), results[|results| - 1].memory.id, now, embed);
    }
  }

  lemma {:induction false} IndexInStep(env: Env, embed: string -> Option<seq<real>>, ops: seq<Operation>)
    requires NoSaveFailed(ops)
    ensures After(env, embed, ops).index.records == IndexOf(env, After(env, embed, ops).repo, embed)
  {
    if ops != [] {
      var st := After(env, embed, ops[..|ops| - 1]);
      IndexInStep(env, embed, ops[..|ops| - 1]);
      match ops[|ops| - 1]
      case Storing(m, saveOk) =>
        if embed(m.content).Some? {
          V.UpsertSingle(env.norm, st.index, RecordOf(m, embed(m.content).value));
          IndexOfPut(env, st.repo, m.id, m, embed);
        }
      case Querying(q, now) =>
        if q.text != "" && embed(q.text).Some? {
          var found := V.Query(env.norm, st.index, embed(q.text).value, ClampLimit(q.limit), FiltersOf(q)).1;
          if found.Some? {
            var results := ResultsOf(env, q, found.value, now, GetByIds(st.repo, HitIds(found.value)));
            if results.Some? {
              IndexIgnoresAccesses(env, st.repo, results.value, now, embed);
            }
          }
        }
    }
  }
}
