/** memory/repositories/in-memory-memory-repository.ts: memories by id, in insertion order. */
module Repository {
  import opened Seqs
  import opened OrderedMaps

  datatype MemoryType = Episodic | Semantic | Procedural

  function TypeName(t: MemoryType): string {
    match t
    case Episodic => "episodic"
    case Semantic => "semantic"
    case Procedural => "procedural"
  }

  /** details stands for the fields that only one memory type has. */
  datatype Memory = Memory(
    id: string,
    kind: MemoryType,
    content: string,
    createdAt: real,
    lastAccessedAt: Option<real>,
    goalId: Option<string>,
    details: string)

  type Memories = Entries<Memory>

  function Save(m: Memories, memory: Memory): Memories {
    Put(m, memory.id, memory)
  }

  function GetByIds(m: Memories, ids: seq<string>): seq<Memory> {
    if ids == [] then []
    else
      var rest := GetByIds(m, ids[1..]);
      match Get(m, ids[0])
      case Some(memory) => [memory] + rest
      case None => rest
  }

  function UpdateAccess(m: Memories, id: string, at: real): Memories {
    match Get(m, id)
    case Some(memory) => Put(m, id, memory.(lastAccessedAt := Some(at)))
    case None => m
  }

  predicate OfTypes(memory: Memory, types: Option<seq<MemoryType>>) {
    types.Some? ==> memory.kind in types.value
  }

  /** The ids listByType snapshots: those of the listed types, in insertion order. */
  function ListedIds(m: Memories, types: Option<seq<MemoryType>>): seq<string> {
    if m == [] then []
    else if OfTypes(m[0].1, types) then [m[0].1.id] + ListedIds(m[1..], types)
    else ListedIds(m[1..], types)
  }

  /** `slice(from, to)` for a from that is not negative. */
  function Slice<T>(s: seq<T>, from: nat, to: nat): seq<T> {
    if from >= |s| || to <= from then [] else if to <= |s| then s[from..to] else s[from..]
  }

  function ListByType(m: Memories, types: Option<seq<MemoryType>>, limit: nat, offset: nat): seq<Memory> {
    GetByIds(m, Slice(ListedIds(m, types), offset, offset + limit))
  }

  /** Keys are the ids of the memories. */
  ghost predicate Keyed(m: Memories) {
    Distinct(m) && forall i :: 0 <= i < |m| ==> m[i].1.id == m[i].0
  }

  lemma SaveKeepsKeyed(m: Memories, memory: Memory)
    requires Keyed(m)
    ensures Keyed(Save(m, memory))
  {
    PutKeys(m, memory.id, memory);
  }

  lemma UpdateAccessKeepsKeyed(m: Memories, id: string, at: real)
    requires Keyed(m)
    ensures Keyed(UpdateAccess(m, id, at))
  {
    if Has(m, id) {
      HasIsAt(m, id);
      SaveKeepsKeyed(m, Get(m, id).value.(lastAccessedAt := Some(at)));
    }
  }

  /** An access changes nothing but the access time of that memory. */
  lemma GetUpdateAccess(m: Memories, id: string, at: real, k: string)
    ensures Get(UpdateAccess(m, id, at), k) ==
            if k == id && Has(m, id) then Some(Get(m, id).value.(lastAccessedAt := Some(at))) else Get(m, k)
  {
    if Has(m, id) {
      GetPut(m, id, Get(m, id).value.(lastAccessedAt := Some(at)), k);
    }
  }

  lemma {:induction false} ListedIdsSelect(m: Memories, types: Option<seq<MemoryType>>, id: string)
    requires forall i :: 0 <= i < |m| ==> m[i].1.id == m[i].0
    ensures id in ListedIds(m, types) <==>
            exists i :: 0 <= i < |m| && m[i].0 == id && (types.Some? ==> m[i].1.kind in types.value)
  {
    if m != [] {
      ListedIdsSelect(m[1..], types, id);
      if i :| 0 <= i < |m[1..]| && m[1..][i].0 == id && (types.Some? ==> m[1..][i].1.kind in types.value) {
        assert m[i + 1] == m[1..][i];
      }
      if i :| 0 <= i < |m| && m[i].0 == id && (types.Some? ==> m[i].1.kind in types.value) {
        assert i > 0 ==> m[1..][i - 1] == m[i];
      }
    }
  }

  lemma {:induction false} FetchedAre(m: Memories, ids: seq<string>, memory: Memory)
    requires Keyed(m)
    ensures memory in GetByIds(m, ids) <==> memory.id in ids && Get(m, memory.id) == Some(memory)
  {
    if ids != [] {
      FetchedAre(m, ids[1..], memory);
      HasIsAt(m, ids[0]);
      assert memory.id in ids <==> memory.id == ids[0] || memory.id in ids[1..];
    }
  }

  /** A listing long enough has exactly the memories of the requested types. */
  lemma ListsTheTypes(m: Memories, types: Option<seq<MemoryType>>, limit: nat, memory: Memory)
    requires Keyed(m) && limit >= |ListedIds(m, types)|
    ensures memory in ListByType(m, types, limit, 0) <==>
            Get(m, memory.id) == Some(memory) && (types.Some? ==> memory.kind in types.value)
  {
    var ids := ListedIds(m, types);
    assert Slice(ids, 0, limit) == ids;
    FetchedAre(m, ids, memory);
    ListedIdsSelect(m, types, memory.id);
    if Get(m, memory.id) == Some(memory) {
      HasIsAt(m, memory.id);
    }
    if i :| 0 <= i < |m| && m[i].0 == memory.id {
      GetIsAt(m, i);
    }
  }

  class InMemoryMemoryRepository {
    var memories: Memories

    ghost predicate Valid()
      reads this
    {
      Keyed(memories)
    }

    constructor ()
      ensures Valid() && memories == []
    {
      memories := [];
    }

    method SaveMemory(memory: Memory)
      requires Valid()
      modifies this
      ensures Valid() && memories == Save(old(memories), memory)
    {
      SaveKeepsKeyed(memories, memory);
      memories := Put(memories, memory.id, memory);
    }

    method FindByIds(ids: seq<string>) returns (found: seq<Memory>)
      ensures found == GetByIds(memories, ids)
    {
      found := [];
      for i := 0 to |ids|
        invariant found + GetByIds(memories, ids[i..]) == GetByIds(memories, ids)
      {
        assert ids[i..][0] == ids[i] && ids[i..][1..] == ids[i + 1..];
        var memory := Get(memories, ids[i]);
        if memory.Some? {
          found := found + [memory.value];
        }
      }
    }

    method Access(id: string, at: real)
      requires Valid()
      modifies this
      ensures Valid() && memories == UpdateAccess(old(memories), id, at)
    {
      var memory := Get(memories, id);
      UpdateAccessKeepsKeyed(memories, id, at);
      if memory.None? {
        return;
      }
      memories := Put(memories, id, memory.value.(lastAccessedAt := Some(at)));
    }

    method List(types: Option<seq<MemoryType>>, limit: nat, offset: nat) returns (page: seq<Memory>)
      ensures page == ListByType(memories, types, limit, offset)
    {
      var snapshotIds: seq<string> := [];
      for i := 0 to |memories|
        invariant snapshotIds + ListedIds(memories[i..], types) == ListedIds(memories, types)
      {
        assert memories[i..][0] == memories[i] && memories[i..][1..] == memories[i + 1..];
        if OfTypes(memories[i].1, types) {
          snapshotIds := snapshotIds + [memories[i].1.id];
        }
      }
      assert snapshotIds == ListedIds(memories, types);
      page := FindByIds(Slice(snapshotIds, offset, offset + limit));
    }
  }
}
