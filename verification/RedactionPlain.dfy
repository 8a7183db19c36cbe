/** When the visited set makes no difference: redaction is the plain recursion over the value
    exactly if that recursion never comes to an object twice. */
module RedactionPlain {
  import opened Redaction

  /** A value with its objects laid out; possible only where the recursion meets no cycle. */
  datatype Doc = PrimDoc(text: string) | ItemsDoc(id: Id, items: seq<Doc>) | FieldsDoc(id: Id, fields: seq<DocField>)

  datatype DocField = DocField(key: string, doc: Doc)

  /** The recursion goes into this field: it is neither dropped nor redacted. */
  predicate Entered(o: Options, key: string) {
    Allowed(o, key) && !Sensitive(o, key)
  }

  /** d is v laid out, as far as the recursion goes. */
  ghost predicate Unfolds(o: Options, heap: Heap, v: Value, d: Doc)
    decreases d
  {
    match d
    case PrimDoc(text) => v == Prim(text)
    case ItemsDoc(id, items) => v == Ref(id) && id in heap && heap[id].Items? && ItemsUnfold(o, heap, heap[id].items, items)
    case FieldsDoc(id, fields) => v == Ref(id) && id in heap && heap[id].Fields? && FieldsUnfold(o, heap, heap[id].fields, fields)
  }

  ghost predicate ItemsUnfold(o: Options, heap: Heap, vs: seq<Value>, ds: seq<Doc>)
    decreases ds
  {
    if ds == [] then vs == [] else vs != [] && Unfolds(o, heap, vs[0], ds[0]) && ItemsUnfold(o, heap, vs[1..], ds[1..])
  }

  ghost predicate FieldsUnfold(o: Options, heap: Heap, fs: seq<(string, Value)>, ds: seq<DocField>)
    decreases ds
  {
    if ds == [] then fs == []
    else
      && fs != [] && fs[0].0 == ds[0].key
      && (Entered(o, ds[0].key) ==> Unfolds(o, heap, fs[0].1, ds[0].doc))
      && FieldsUnfold(o, heap, fs[1..], ds[1..])
  }

  // ---------------------------------------------------------------- the plain recursion

  function Plain(o: Options, d: Doc): Tree {
    match d
    case PrimDoc(text) => Leaf(text)
    case ItemsDoc(_, items) => ArrayTree(PlainItems(o, items))
    case FieldsDoc(_, fields) => RecordTree(PlainFields(o, fields))
  }

  function PlainItems(o: Options, ds: seq<Doc>): seq<Tree> {
    if ds == [] then [] else [Plain(o, ds[0])] + PlainItems(o, ds[1..])
  }

  function PlainFields(o: Options, ds: seq<DocField>): seq<Field> {
    if ds == [] then []
    else if !Allowed(o, ds[0].key) then PlainFields(o, ds[1..])
    else [Field(ds[0].key, if Sensitive(o, ds[0].key) then Redacted else Plain(o, ds[0].doc))] + PlainFields(o, ds[1..])
  }

  /** The objects the plain recursion comes to, in order. */
  function Reached(o: Options, d: Doc): seq<Id> {
    match d
    case PrimDoc(_) => []
    case ItemsDoc(id, items) => [id] + ReachedItems(o, items)
    case FieldsDoc(id, fields) => [id] + ReachedFields(o, fields)
  }

  function ReachedItems(o: Options, ds: seq<Doc>): seq<Id> {
    if ds == [] then [] else Reached(o, ds[0]) + ReachedItems(o, ds[1..])
  }

  function ReachedFields(o: Options, ds: seq<DocField>): seq<Id> {
    if ds == [] then []
    else if !Entered(o, ds[0].key) then ReachedFields(o, ds[1..])
    else Reached(o, ds[0].doc) + ReachedFields(o, ds[1..])
  }

  lemma {:induction false} PlainExpandsReached(o: Options, d: Doc)
    ensures Expansions(Plain(o, d)) == |Reached(o, d)|
    decreases d
  {
    match d
    case PrimDoc(_) =>
    case ItemsDoc(_, items) => PlainItemsExpandReached(o, items);
    case FieldsDoc(_, fields) => PlainFieldsExpandReached(o, fields);
  }

  lemma {:induction false} PlainItemsExpandReached(o: Options, ds: seq<Doc>)
    ensures ItemExpansions(PlainItems(o, ds)) == |ReachedItems(o, ds)|
    decreases ds
  {
    if ds != [] {
      PlainExpandsReached(o, ds[0]);
      PlainItemsExpandReached(o, ds[1..]);
      assert PlainItems(o, ds)[1..] == PlainItems(o, ds[1..]);
    }
  }

  lemma {:induction false} PlainFieldsExpandReached(o: Options, ds: seq<DocField>)
    ensures FieldExpansions(PlainFields(o, ds)) == |ReachedFields(o, ds)|
    decreases ds
  {
    if ds != [] {
      PlainExpandsReached(o, ds[0].doc);
      PlainFieldsExpandReached(o, ds[1..]);
      if Allowed(o, ds[0].key) {
        assert PlainFields(o, ds)[1..] == PlainFields(o, ds[1..]);
      }
    }
  }

  // ---------------------------------------------------------------- no object twice

  lemma DistinctParts(a: seq<Id>, b: seq<Id>, c: seq<Id>)
    requires DistinctIds(a + (b + c))
    ensures DistinctIds(a + b) && a + b + c == a + (b + c)
  {
    assert a + b == (a + (b + c))[..|a + b|];
  }

  lemma {:induction false} PlainIfDistinct(o: Options, heap: Heap, v: Value, d: Doc, visited: seq<Id>)
    requires Closed(heap) && Valid(heap, v) && Unfolds(o, heap, v, d) && DistinctIds(visited + Reached(o, d))
    ensures Redact(o, heap, v, visited) == (Plain(o, d), visited + Reached(o, d))
    decreases d
  {
    match d
    case PrimDoc(_) => assert visited + [] == visited;
    case ItemsDoc(id, items) =>
      NotVisited(visited, id, ReachedItems(o, items));
      PlainItemsIfDistinct(o, heap, heap[id].items, items, visited + [id]);
    case FieldsDoc(id, fields) =>
      NotVisited(visited, id, ReachedFields(o, fields));
      PlainFieldsIfDistinct(o, heap, heap[id].fields, fields, visited + [id]);
  }

  lemma NotVisited(visited: seq<Id>, id: Id, rest: seq<Id>)
    requires DistinctIds(visited + ([id] + rest))
    ensures id !in visited && visited + ([id] + rest) == visited + [id] + rest
  {
    assert (visited + ([id] + rest))[|visited|] == id;
    forall i | 0 <= i < |visited|
      ensures visited[i] != id
    {
      assert (visited + ([id] + rest))[i] == visited[i];
    }
  }

  lemma {:induction false} PlainItemsIfDistinct(o: Options, heap: Heap, vs: seq<Value>, ds: seq<Doc>, visited: seq<Id>)
    requires Closed(heap) && ValidContent(heap, Items(vs)) && ItemsUnfold(o, heap, vs, ds) && DistinctIds(visited + ReachedItems(o, ds))
    ensures RedactItems(o, heap, vs, visited) == (PlainItems(o, ds), visited + ReachedItems(o, ds))
    decreases ds
  {
    if ds != [] {
      DistinctParts(visited, Reached(o, ds[0]), ReachedItems(o, ds[1..]));
      PlainIfDistinct(o, heap, vs[0], ds[0], visited);
      PlainItemsIfDistinct(o, heap, vs[1..], ds[1..], visited + Reached(o, ds[0]));
    } else {
      assert visited + [] == visited;
    }
  }

  lemma {:induction false} PlainFieldsIfDistinct(o: Options, heap: Heap, fs: seq<(string, Value)>, ds: seq<DocField>, visited: seq<Id>)
    requires Closed(heap) && ValidContent(heap, Fields(fs)) && FieldsUnfold(o, heap, fs, ds) && DistinctIds(visited + ReachedFields(o, ds))
    ensures RedactFields(o, heap, fs, visited) == (PlainFields(o, ds), visited + ReachedFields(o, ds))
    decreases ds
  {
    if ds != [] {
      assert Valid(heap, fs[0].1);
      if Entered(o, ds[0].key) {
        DistinctParts(visited, Reached(o, ds[0].doc), ReachedFields(o, ds[1..]));
        PlainIfDistinct(o, heap, fs[0].1, ds[0].doc, visited);
        PlainFieldsIfDistinct(o, heap, fs[1..], ds[1..], visited + Reached(o, ds[0].doc));
      } else {
        PlainFieldsIfDistinct(o, heap, fs[1..], ds[1..], visited);
      }
    } else {
      assert visited + [] == visited;
    }
  }

  // ---------------------------------------------------------------- an object twice

  predicate Among(a: seq<Id>, b: seq<Id>) {
    forall id | id in a :: id in b
  }

  lemma {:induction false} VisitsAreReached(o: Options, heap: Heap, v: Value, d: Doc, visited: seq<Id>)
    requires Closed(heap) && Valid(heap, v) && Unfolds(o, heap, v, d)
    ensures Among(Redact(o, heap, v, visited).1, visited + Reached(o, d))
    decreases d
  {
    match d
    case PrimDoc(_) =>
    case ItemsDoc(id, items) =>
      if id !in visited {
        ItemVisitsAreReached(o, heap, heap[id].items, items, visited + [id]);
      }
    case FieldsDoc(id, fields) =>
      if id !in visited {
        FieldVisitsAreReached(o, heap, heap[id].fields, fields, visited + [id]);
      }
  }

  lemma {:induction false} ItemVisitsAreReached(o: Options, heap: Heap, vs: seq<Value>, ds: seq<Doc>, visited: seq<Id>)
    requires Closed(heap) && ValidContent(heap, Items(vs)) && ItemsUnfold(o, heap, vs, ds)
    ensures Among(RedactItems(o, heap, vs, visited).1, visited + ReachedItems(o, ds))
    decreases ds
  {
    if ds != [] {
      VisitsAreReached(o, heap, vs[0], ds[0], visited);
      ItemVisitsAreReached(o, heap, vs[1..], ds[1..], Redact(o, heap, vs[0], visited).1);
    }
  }

  lemma {:induction false} FieldVisitsAreReached(o: Options, heap: Heap, fs: seq<(string, Value)>, ds: seq<DocField>, visited: seq<Id>)
    requires Closed(heap) && ValidContent(heap, Fields(fs)) && FieldsUnfold(o, heap, fs, ds)
    ensures Among(RedactFields(o, heap, fs, visited).1, visited + ReachedFields(o, ds))
    decreases ds
  {
    if ds != [] {
      assert Valid(heap, fs[0].1);
      if Entered(o, ds[0].key) {
        VisitsAreReached(o, heap, fs[0].1, ds[0].doc, visited);
        FieldVisitsAreReached(o, heap, fs[1..], ds[1..], Redact(o, heap, fs[0].1, visited).1);
      } else {
        FieldVisitsAreReached(o, heap, fs[1..], ds[1..], visited);
      }
    }
  }

  /** Distinct elements of b are at most as many as b is long. */
  lemma {:induction false} Pigeonhole(a: seq<Id>, b: seq<Id>)
    requires DistinctIds(a) && Among(a, b)
    ensures |a| <= |b|
  {
    if a != [] {
      var n := |a| - 1;
      assert a[n] in a;
      var k :| 0 <= k < |b| && b[k] == a[n];
      var b' := b[..k] + b[k + 1..];
      forall id | id in a[..n]
        ensures id in b'
      {
        var i :| 0 <= i < n && a[i] == id;
        assert a[i] in a && id != a[n];
        var j :| 0 <= j < |b| && b[j] == id;
        assert b'[if j < k then j else j - 1] == id;
      }
      Pigeonhole(a[..n], b');
    }
  }

  lemma FullIsDistinct(a: seq<Id>, b: seq<Id>)
    requires DistinctIds(a) && Among(a, b) && |a| == |b|
    ensures DistinctIds(b)
  {
    forall i, j | 0 <= i < j < |b|
      ensures b[i] != b[j]
    {
      if b[i] == b[j] {
        var b' := b[..j] + b[j + 1..];
        forall id | id in a
          ensures id in b'
        {
          var k :| 0 <= k < |b| && b[k] == id;
          assert b'[if k < j then k else if k == j then i else k - 1] == id;
        }
        Pigeonhole(a, b');
      }
    }
  }

  /** The result is that of the plain recursion exactly if no object is reached twice; otherwise
      some object that the recursion would lay out again is replaced by the circular marker. */
  lemma RedactionIsPlainIff(o: Options, heap: Heap, v: Value, d: Doc)
    requires Closed(heap) && Valid(heap, v) && Unfolds(o, heap, v, d)
    ensures Redact(o, heap, v, []).0 == Plain(o, d) <==> DistinctIds(Reached(o, d))
  {
    assert [] + Reached(o, d) == Reached(o, d);
    if DistinctIds(Reached(o, d)) {
      PlainIfDistinct(o, heap, v, d, []);
    } else if Redact(o, heap, v, []).0 == Plain(o, d) {
      EachObjectExpandsOnce(o, heap, v, []);
      PlainExpandsReached(o, d);
      VisitsAreReached(o, heap, v, d, []);
      FullIsDistinct(Redact(o, heap, v, []).1, Reached(o, d));
    }
  }

  // ---------------------------------------------------------------- without markers

  /** No circular marker in the tree. */
  predicate Unmarked(t: Tree) {
    match t
    case Circular => false
    case ArrayTree(items) => ItemsUnmarked(items)
    case RecordTree(fields) => FieldsUnmarked(fields)
    case _ => true
  }

  predicate ItemsUnmarked(ts: seq<Tree>) {
    if ts == [] then true else Unmarked(ts[0]) && ItemsUnmarked(ts[1..])
  }

  predicate FieldsUnmarked(fs: seq<Field>) {
    if fs == [] then true else Unmarked(fs[0].tree) && FieldsUnmarked(fs[1..])
  }

  lemma {:induction false} PlainIsUnmarked(o: Options, d: Doc)
    ensures Unmarked(Plain(o, d))
    decreases d
  {
    match d
    case PrimDoc(_) =>
    case ItemsDoc(_, items) => PlainItemsAreUnmarked(o, items);
    case FieldsDoc(_, fields) => PlainFieldsAreUnmarked(o, fields);
  }

  lemma {:induction false} PlainItemsAreUnmarked(o: Options, ds: seq<Doc>)
    ensures ItemsUnmarked(PlainItems(o, ds))
    decreases ds
  {
    if ds != [] {
      PlainIsUnmarked(o, ds[0]);
      PlainItemsAreUnmarked(o, ds[1..]);
      assert PlainItems(o, ds)[1..] == PlainItems(o, ds[1..]);
    }
  }

  lemma {:induction false} PlainFieldsAreUnmarked(o: Options, ds: seq<DocField>)
    ensures FieldsUnmarked(PlainFields(o, ds))
    decreases ds
  {
    if ds != [] {
      PlainIsUnmarked(o, ds[0].doc);
      PlainFieldsAreUnmarked(o, ds[1..]);
      if Allowed(o, ds[0].key) {
        assert PlainFields(o, ds)[1..] == PlainFields(o, ds[1..]);
      }
    }
  }

  /** A traversal that leaves no marker has laid the value out. */
  lemma {:induction false} UnmarkedUnfolds(o: Options, heap: Heap, v: Value, visited: seq<Id>) returns (d: Doc)
    requires Closed(heap) && Valid(heap, v) && Unmarked(Redact(o, heap, v, visited).0)
    ensures Unfolds(o, heap, v, d) && Redact(o, heap, v, visited).1 == visited + Reached(o, d)
    decreases Unvisited(heap, visited), 0
  {
    match v
    case Prim(text) =>
      d := PrimDoc(text);
      assert visited + [] == visited;
    case Ref(id) =>
      assert id in Unvisited(heap, visited) && id !in Unvisited(heap, visited + [id]);
      match heap[id]
      case Items(items) =>
        var ds := UnmarkedItemsUnfold(o, heap, items, visited + [id]);
        d := ItemsDoc(id, ds);
        assert visited + [id] + ReachedItems(o, ds) == visited + ([id] + ReachedItems(o, ds));
      case Fields(fields) =>
        var ds := UnmarkedFieldsUnfold(o, heap, fields, visited + [id]);
        d := FieldsDoc(id, ds);
        assert visited + [id] + ReachedFields(o, ds) == visited + ([id] + ReachedFields(o, ds));
  }

  lemma {:induction false} UnmarkedItemsUnfold(o: Options, heap: Heap, items: seq<Value>, visited: seq<Id>) returns (ds: seq<Doc>)
    requires Closed(heap) && ValidContent(heap, Items(items)) && ItemsUnmarked(RedactItems(o, heap, items, visited).0)
    ensures ItemsUnfold(o, heap, items, ds) && RedactItems(o, heap, items, visited).1 == visited + ReachedItems(o, ds)
    decreases Unvisited(heap, visited), 1 + |items|
  {
    ds := [];
    if items == [] {
      assert visited + [] == visited;
    } else {
      var (t, visited1) := Redact(o, heap, items[0], visited);
      var ts := RedactItems(o, heap, items[1..], visited1).0;
      assert ([t] + ts)[1..] == ts;
      assert Unvisited(heap, visited1) <= Unvisited(heap, visited);
      var d := UnmarkedUnfolds(o, heap, items[0], visited);
      var rest := UnmarkedItemsUnfold(o, heap, items[1..], visited1);
      ds := [d] + rest;
      assert ds[1..] == rest;
      assert visited + Reached(o, d) + ReachedItems(o, rest) == visited + (Reached(o, d) + ReachedItems(o, rest));
    }
  }

  lemma {:induction false} UnmarkedFieldsUnfold(o: Options, heap: Heap, fields: seq<(string, Value)>, visited: seq<Id>)
    returns (ds: seq<DocField>)
    requires Closed(heap) && ValidContent(heap, Fields(fields)) && FieldsUnmarked(RedactFields(o, heap, fields, visited).0)
    ensures FieldsUnfold(o, heap, fields, ds) && RedactFields(o, heap, fields, visited).1 == visited + ReachedFields(o, ds)
    decreases Unvisited(heap, visited), 1 + |fields|
  {
    ds := [];
    if fields == [] {
      assert visited + [] == visited;
    } else {
      var (key, value) := fields[0];
      assert Valid(heap, fields[0].1);
      var d, visited1 := PrimDoc(""), visited;
      if Entered(o, key) {
        visited1 := Redact(o, heap, value, visited).1;
        d := UnmarkedUnfolds(o, heap, value, visited);
      }
      assert Unvisited(heap, visited1) <= Unvisited(heap, visited);
      if Allowed(o, key) {
        var fs := RedactFields(o, heap, fields[1..], visited1).0;
        assert RedactFields(o, heap, fields, visited).0[1..] == fs;
      }
      var rest := UnmarkedFieldsUnfold(o, heap, fields[1..], visited1);
      ds := [DocField(key, d)] + rest;
      assert ds[1..] == rest;
      assert visited + Reached(o, d) + ReachedFields(o, rest) == visited + (Reached(o, d) + ReachedFields(o, rest));
    }
  }

  /** The result has no circular marker exactly if the plain recursion ends and reaches no object twice. */
  lemma UnmarkedIff(o: Options, heap: Heap, v: Value)
    requires Closed(heap) && Valid(heap, v)
    ensures Unmarked(Redact(o, heap, v, []).0) <==> exists d :: Unfolds(o, heap, v, d) && DistinctIds(Reached(o, d))
  {
    if d :| Unfolds(o, heap, v, d) && DistinctIds(Reached(o, d)) {
      assert [] + Reached(o, d) == Reached(o, d);
      PlainIfDistinct(o, heap, v, d, []);
      PlainIsUnmarked(o, d);
    }
    if Unmarked(Redact(o, heap, v, []).0) {
      var d := UnmarkedUnfolds(o, heap, v, []);
      assert [] + Reached(o, d) == Reached(o, d);
      EachObjectExpandsOnce(o, heap, v, []);
    }
  }
}
