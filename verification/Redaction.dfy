/** redactObject in security/audit-logger.ts, without a custom redaction function: a traversal of an
    object graph that may share objects and contain cycles. */
module Redaction {
  type Id = nat

  /** Prim stands for everything that is not an object: strings, numbers, null, functions. */
  datatype Value = Prim(text: string) | Ref(id: Id)

  datatype Content = Items(items: seq<Value>) | Fields(fields: seq<(string, Value)>)

  type Heap = map<Id, Content>

  datatype Tree =
    | Leaf(text: string)
    | Redacted
    | Circular
    | ArrayTree(items: seq<Tree>)
    | RecordTree(fields: seq<Field>)

  datatype Field = Field(key: string, tree: Tree)

  /** lower is toLowerCase. */
  datatype Options = Options(lower: string -> string, sensitiveFields: seq<string>, allowlist: seq<string>)

  const DEFAULT_SENSITIVE_FIELDS := [
    "password", "secret", "apikey", "api_key", "token", "access_token", "refresh_token", "key",
    "credential", "auth", "authorization", "bearer", "session", "cookie", "ssn", "social_security",
    "credit_card", "card_number", "pin", "pii"
  ]

  predicate OccursAt(s: string, part: string, i: nat) {
    i + |part| <= |s| && s[i..i + |part|] == part
  }

  predicate Includes(s: string, part: string) {
    exists i | 0 <= i <= |s| :: OccursAt(s, part, i)
  }

  /** An empty allowlist allows everything. */
  predicate Allowed(o: Options, key: string) {
    o.allowlist == [] || exists allowed | allowed in o.allowlist :: o.lower(key) == o.lower(allowed)
  }

  predicate Sensitive(o: Options, key: string) {
    exists pattern | pattern in DEFAULT_SENSITIVE_FIELDS + o.sensitiveFields :: Includes(o.lower(key), o.lower(pattern))
  }

  predicate Valid(heap: Heap, v: Value) {
    v.Ref? ==> v.id in heap
  }

  predicate ValidContent(heap: Heap, c: Content) {
    match c
    case Items(items) => forall v | v in items :: Valid(heap, v)
    case Fields(fields) => forall f | f in fields :: Valid(heap, f.1)
  }

  predicate Closed(heap: Heap) {
    forall id | id in heap :: ValidContent(heap, heap[id])
  }

  function Unvisited(heap: Heap, visited: seq<Id>): set<Id> {
    set id | id in heap && id !in visited
  }

  // ---------------------------------------------------------------- the traversal as a function

  /** The redacted value, and the objects visited so far in the order of the visits. */
  function Redact(o: Options, heap: Heap, v: Value, visited: seq<Id>): (r: (Tree, seq<Id>))
    requires Closed(heap) && Valid(heap, v)
    ensures visited <= r.1
    decreases Unvisited(heap, visited), 0
  {
    match v
    case Prim(text) => (Leaf(text), visited)
    case Ref(id) =>
      if id in visited then (Circular, visited)
      else
        assert id in Unvisited(heap, visited) && id !in Unvisited(heap, visited + [id]);
        match heap[id]
        case Items(items) => var (ts, visited') := RedactItems(o, heap, items, visited + [id]); (ArrayTree(ts), visited')
        case Fields(fields) => var (fs, visited') := RedactFields(o, heap, fields, visited + [id]); (RecordTree(fs), visited')
  }

  function RedactItems(o: Options, heap: Heap, items: seq<Value>, visited: seq<Id>): (r: (seq<Tree>, seq<Id>))
    requires Closed(heap) && ValidContent(heap, Items(items))
    ensures visited <= r.1
    decreases Unvisited(heap, visited), 1 + |items|
  {
    if items == [] then ([], visited)
    else
      var (t, visited1) := Redact(o, heap, items[0], visited);
      assert Unvisited(heap, visited1) <= Unvisited(heap, visited);
      var (ts, visited2) := RedactItems(o, heap, items[1..], visited1);
      ([t] + ts, visited2)
  }

  function RedactFields(o: Options, heap: Heap, fields: seq<(string, Value)>, visited: seq<Id>): (r: (seq<Field>, seq<Id>))
    requires Closed(heap) && ValidContent(heap, Fields(fields))
    ensures visited <= r.1
    decreases Unvisited(heap, visited), 1 + |fields|
  {
    if fields == [] then ([], visited)
    else
      var (key, value) := fields[0];
      assert Valid(heap, fields[0].1);
      if !Allowed(o, key) then RedactFields(o, heap, fields[1..], visited)
      else
        var (t, visited1) := if Sensitive(o, key) then (Redacted, visited) else Redact(o, heap, value, visited);
        assert Unvisited(heap, visited1) <= Unvisited(heap, visited);
        var (fs, visited2) := RedactFields(o, heap, fields[1..], visited1);
        ([Field(key, t)] + fs, visited2)
  }

  // ---------------------------------------------------------------- the traversal as the source runs it

  /** The shared set that the source passes down; it remembers the order of the additions. */
  class VisitedSet {
    var added: seq<Id>

    constructor ()
      ensures added == []
    {
      added := [];
    }

    method Add(id: Id)
      modifies this
      ensures added == old(added) + [id]
    {
      added := added + [id];
    }
  }

  method RedactObject(o: Options, heap: Heap, v: Value, visited: VisitedSet) returns (t: Tree)
    requires Closed(heap) && Valid(heap, v)
    modifies visited
    ensures (t, visited.added) == Redact(o, heap, v, old(visited.added))
    decreases Unvisited(heap, visited.added)
  {
    if v.Prim? {
      return Leaf(v.text);
    }
    if v.id in visited.added {
      return Circular;
    }
    ghost var before := visited.added;
    assert v.id in Unvisited(heap, before);
    visited.Add(v.id);
    ghost var entered := visited.added;
    assert Unvisited(heap, entered) < Unvisited(heap, before) by {
      assert v.id !in Unvisited(heap, entered);
    }
    match heap[v.id]
    case Items(items) =>
      var mapped: seq<Tree> := [];
      ItemsStart(o, heap, items, entered);
      for i := 0 to |items|
        invariant entered <= visited.added
        invariant ItemsLeft(o, heap, items, entered, i, mapped, visited.added)
      {
        assert items[i] in items;
        assert Unvisited(heap, visited.added) <= Unvisited(heap, entered);
        ItemsStep(o, heap, items, entered, i, mapped, visited.added);
        var item := RedactObject(o, heap, items[i], visited);
        mapped := mapped + [item];
      }
      assert items[|items|..] == [] && mapped + [] == mapped;
      return ArrayTree(mapped);
    case Fields(fields) =>
      var result: seq<Field> := [];
      FieldsStart(o, heap, fields, entered);
      for i := 0 to |fields|
        invariant entered <= visited.added
        invariant FieldsLeft(o, heap, fields, entered, i, result, visited.added)
      {
        var (key, value) := fields[i];
        assert fields[i] in fields;
        assert Unvisited(heap, visited.added) <= Unvisited(heap, entered);
        FieldsStep(o, heap, fields, entered, i, result, visited.added);
        if !Allowed(o, key) {
          continue;
        }
        if Sensitive(o, key) {
          result := result + [Field(key, Redacted)];
        } else if value.Ref? {
          var nested := RedactObject(o, heap, value, visited);
          result := result + [Field(key, nested)];
        } else {
          result := result + [Field(key, Leaf(value.text))];
        }
      }
      assert fields[|fields|..] == [] && result + [] == result;
      return RecordTree(result);
  }

  // The loops build the result of the recursion from the front.

  ghost predicate ItemsLeft(o: Options, heap: Heap, items: seq<Value>, entered: seq<Id>, i: nat, mapped: seq<Tree>, visited: seq<Id>)
    requires Closed(heap) && ValidContent(heap, Items(items)) && i <= |items|
  {
    var rest := RedactItems(o, heap, items[i..], visited);
    (mapped + rest.0, rest.1) == RedactItems(o, heap, items, entered)
  }

  lemma ItemsStart(o: Options, heap: Heap, items: seq<Value>, entered: seq<Id>)
    requires Closed(heap) && ValidContent(heap, Items(items))
    ensures ItemsLeft(o, heap, items, entered, 0, [], entered)
  {
    assert items[0..] == items;
    assert [] + RedactItems(o, heap, items, entered).0 == RedactItems(o, heap, items, entered).0;
  }

  lemma ItemsStep(o: Options, heap: Heap, items: seq<Value>, entered: seq<Id>, i: nat, mapped: seq<Tree>, visited: seq<Id>)
    requires Closed(heap) && ValidContent(heap, Items(items)) && i < |items|
    requires ItemsLeft(o, heap, items, entered, i, mapped, visited)
    ensures
      var (t, visited') := Redact(o, heap, items[i], visited);
      ItemsLeft(o, heap, items, entered, i + 1, mapped + [t], visited')
  {
    var (t, visited') := Redact(o, heap, items[i], visited);
    assert items[i..][0] == items[i] && items[i..][1..] == items[i + 1..];
    var rest := RedactItems(o, heap, items[i + 1..], visited').0;
    assert mapped + ([t] + rest) == mapped + [t] + rest;
  }

  ghost predicate FieldsLeft(o: Options, heap: Heap, fields: seq<(string, Value)>, entered: seq<Id>, i: nat, result: seq<Field>, visited: seq<Id>)
    requires Closed(heap) && ValidContent(heap, Fields(fields)) && i <= |fields|
  {
    var rest := RedactFields(o, heap, fields[i..], visited);
    (result + rest.0, rest.1) == RedactFields(o, heap, fields, entered)
  }

  lemma FieldsStart(o: Options, heap: Heap, fields: seq<(string, Value)>, entered: seq<Id>)
    requires Closed(heap) && ValidContent(heap, Fields(fields))
    ensures FieldsLeft(o, heap, fields, entered, 0, [], entered)
  {
    assert fields[0..] == fields;
    assert [] + RedactFields(o, heap, fields, entered).0 == RedactFields(o, heap, fields, entered).0;
  }

  lemma FieldsStep(o: Options, heap: Heap, fields: seq<(string, Value)>, entered: seq<Id>, i: nat, result: seq<Field>, visited: seq<Id>)
    requires Closed(heap) && ValidContent(heap, Fields(fields)) && i < |fields|
    requires FieldsLeft(o, heap, fields, entered, i, result, visited)
    ensures !Allowed(o, fields[i].0) ==> FieldsLeft(o, heap, fields, entered, i + 1, result, visited)
    ensures Allowed(o, fields[i].0) ==>
              var (t, visited') := if Sensitive(o, fields[i].0) then (Redacted, visited) else Redact(o, heap, fields[i].1, visited);
              FieldsLeft(o, heap, fields, entered, i + 1, result + [Field(fields[i].0, t)], visited')
  {
    assert fields[i..][0] == fields[i] && fields[i..][1..] == fields[i + 1..];
    if Allowed(o, fields[i].0) {
      var (t, visited') := if Sensitive(o, fields[i].0) then (Redacted, visited) else Redact(o, heap, fields[i].1, visited);
      var rest := RedactFields(o, heap, fields[i + 1..], visited').0;
      assert result + ([Field(fields[i].0, t)] + rest) == result + [Field(fields[i].0, t)] + rest;
    }
  }

  // ---------------------------------------------------------------- what the traversal guarantees

  predicate DistinctIds(ids: seq<Id>) {
    forall i, j :: 0 <= i < j < |ids| ==> ids[i] != ids[j]
  }

  /** How many objects the result lays out. */
  function Expansions(t: Tree): nat {
    match t
    case ArrayTree(items) => 1 + ItemExpansions(items)
    case RecordTree(fields) => 1 + FieldExpansions(fields)
    case _ => 0
  }

  function ItemExpansions(items: seq<Tree>): nat {
    if items == [] then 0 else Expansions(items[0]) + ItemExpansions(items[1..])
  }

  function FieldExpansions(fields: seq<Field>): nat {
    if fields == [] then 0 else Expansions(fields[0].tree) + FieldExpansions(fields[1..])
  }

  /** Each visit lays out one object, and no object is visited twice. */
  lemma {:induction false} EachObjectExpandsOnce(o: Options, heap: Heap, v: Value, visited: seq<Id>)
    requires Closed(heap) && Valid(heap, v) && DistinctIds(visited)
    ensures
      var (t, visited') := Redact(o, heap, v, visited);
      && visited <= visited'
      && DistinctIds(visited')
      && Expansions(t) == |visited'| - |visited|
    decreases Unvisited(heap, visited), 0
  {
    if v.Ref? && v.id !in visited {
      assert v.id in Unvisited(heap, visited) && v.id !in Unvisited(heap, visited + [v.id]);
      match heap[v.id]
      case Items(items) => ItemsExpandOnce(o, heap, items, visited + [v.id]);
      case Fields(fields) => FieldsExpandOnce(o, heap, fields, visited + [v.id]);
    }
  }

  lemma {:induction false} ItemsExpandOnce(o: Options, heap: Heap, items: seq<Value>, visited: seq<Id>)
    requires Closed(heap) && ValidContent(heap, Items(items)) && DistinctIds(visited)
    ensures
      var (ts, visited') := RedactItems(o, heap, items, visited);
      && visited <= visited'
      && DistinctIds(visited')
      && ItemExpansions(ts) == |visited'| - |visited|
    decreases Unvisited(heap, visited), 1 + |items|
  {
    if items != [] {
      EachObjectExpandsOnce(o, heap, items[0], visited);
      var (t, visited1) := Redact(o, heap, items[0], visited);
      assert Unvisited(heap, visited1) <= Unvisited(heap, visited);
      ItemsExpandOnce(o, heap, items[1..], visited1);
      var ts := RedactItems(o, heap, items[1..], visited1).0;
      assert ([t] + ts)[1..] == ts;
    }
  }

  lemma {:induction false} FieldsExpandOnce(o: Options, heap: Heap, fields: seq<(string, Value)>, visited: seq<Id>)
    requires Closed(heap) && ValidContent(heap, Fields(fields)) && DistinctIds(visited)
    ensures
      var (fs, visited') := RedactFields(o, heap, fields, visited);
      && visited <= visited'
      && DistinctIds(visited')
      && FieldExpansions(fs) == |visited'| - |visited|
    decreases Unvisited(heap, visited), 1 + |fields|
  {
    if fields != [] {
      var (key, value) := fields[0];
      if !Allowed(o, key) {
        FieldsExpandOnce(o, heap, fields[1..], visited);
      } else {
        assert Valid(heap, fields[0].1);
        var (t, visited1) := if Sensitive(o, key) then (Redacted, visited) else Redact(o, heap, value, visited);
        if !Sensitive(o, key) {
          EachObjectExpandsOnce(o, heap, value, visited);
        }
        assert Unvisited(heap, visited1) <= Unvisited(heap, visited);
        FieldsExpandOnce(o, heap, fields[1..], visited1);
        var fs := RedactFields(o, heap, fields[1..], visited1).0;
        assert ([Field(key, t)] + fs)[1..] == fs;
      }
    }
  }

  /** Every record in the tree keeps only allowed fields, and of a sensitive one only its name. */
  predicate Safe(o: Options, t: Tree) {
    match t
    case ArrayTree(items) => forall i | 0 <= i < |items| :: Safe(o, items[i])
    case RecordTree(fields) =>
      forall i | 0 <= i < |fields| ::
        Allowed(o, fields[i].key) && if Sensitive(o, fields[i].key) then fields[i].tree == Redacted else Safe(o, fields[i].tree)
    case _ => true
  }

  lemma {:induction false} RedactionIsSafe(o: Options, heap: Heap, v: Value, visited: seq<Id>)
    requires Closed(heap) && Valid(heap, v)
    ensures Safe(o, Redact(o, heap, v, visited).0)
    decreases Unvisited(heap, visited), 0
  {
    if v.Ref? && v.id !in visited {
      assert v.id in Unvisited(heap, visited) && v.id !in Unvisited(heap, visited + [v.id]);
      match heap[v.id]
      case Items(items) => ItemsAreSafe(o, heap, items, visited + [v.id]);
      case Fields(fields) => FieldsAreSafe(o, heap, fields, visited + [v.id]);
    }
  }

  lemma {:induction false} ItemsAreSafe(o: Options, heap: Heap, items: seq<Value>, visited: seq<Id>)
    requires Closed(heap) && ValidContent(heap, Items(items))
    ensures Safe(o, ArrayTree(RedactItems(o, heap, items, visited).0))
    decreases Unvisited(heap, visited), 1 + |items|
  {
    if items != [] {
      RedactionIsSafe(o, heap, items[0], visited);
      var visited1 := Redact(o, heap, items[0], visited).1;
      assert Unvisited(heap, visited1) <= Unvisited(heap, visited);
      ItemsAreSafe(o, heap, items[1..], visited1);
    }
  }

  lemma {:induction false} FieldsAreSafe(o: Options, heap: Heap, fields: seq<(string, Value)>, visited: seq<Id>)
    requires Closed(heap) && ValidContent(heap, Fields(fields))
    ensures Safe(o, RecordTree(RedactFields(o, heap, fields, visited).0))
    decreases Unvisited(heap, visited), 1 + |fields|
  {
    if fields != [] {
      var (key, value) := fields[0];
      assert Valid(heap, fields[0].1);
      if Allowed(o, key) && !Sensitive(o, key) {
        RedactionIsSafe(o, heap, value, visited);
        var visited1 := Redact(o, heap, value, visited).1;
        assert Unvisited(heap, visited1) <= Unvisited(heap, visited);
        FieldsAreSafe(o, heap, fields[1..], visited1);
      } else {
        FieldsAreSafe(o, heap, fields[1..], visited);
      }
    }
  }

  // ---------------------------------------------------------------- the names

  /** The names that are sensitive without being configured. */
  predicate SensitiveByDefault(name: string) {
    name in {
      "password", "secret", "apikey", "api_key", "token", "access_token", "refresh_token", "key",
      "credential", "auth", "authorization", "bearer", "session", "cookie", "ssn", "social_security",
      "credit_card", "card_number", "pin", "pii"
    }
  }

  /** The field's name contains a sensitive one, whatever the case. */
  ghost predicate HasSecretName(o: Options, key: string) {
    exists before, name, after :: SecretPart(o, key, before, name, after)
  }

  predicate SecretPart(o: Options, key: string, before: string, name: string, after: string) {
    (SensitiveByDefault(name) || name in o.sensitiveFields) && o.lower(key) == before + o.lower(name) + after
  }

  lemma IncludesIff(s: string, part: string)
    ensures Includes(s, part) <==> exists before, after :: s == before + part + after
  {
    if Includes(s, part) {
      var i :| 0 <= i <= |s| && OccursAt(s, part, i);
      assert s == s[..i] + part + s[i + |part|..];
    }
    if before, after :| s == before + part + after {
      assert OccursAt(before + part + after, part, |before|);
    }
  }

  lemma DefaultsAreListed(name: string)
    ensures name in DEFAULT_SENSITIVE_FIELDS <==> SensitiveByDefault(name)
  {
    if name in DEFAULT_SENSITIVE_FIELDS {
      ListedIsDefault(name);
    }
    if SensitiveByDefault(name) {
      DefaultIsListed(name);
    }
  }

  lemma ListedIsDefault(name: string)
    requires name in DEFAULT_SENSITIVE_FIELDS
    ensures SensitiveByDefault(name)
  {
    assert forall i :: 0 <= i < |DEFAULT_SENSITIVE_FIELDS| ==> SensitiveByDefault(DEFAULT_SENSITIVE_FIELDS[i]);
  }

  lemma DefaultIsListed(name: string)
    requires SensitiveByDefault(name)
    ensures name in DEFAULT_SENSITIVE_FIELDS
  {
    var d := DEFAULT_SENSITIVE_FIELDS;
    assert d[0] in d && d[1] in d && d[2] in d && d[3] in d && d[4] in d && d[5] in d && d[6] in d && d[7] in d && d[8] in d && d[9] in d;
    assert d[10] in d && d[11] in d && d[12] in d && d[13] in d && d[14] in d && d[15] in d && d[16] in d && d[17] in d && d[18] in d && d[19] in d;
  }

  lemma SensitiveIff(o: Options, key: string)
    ensures Sensitive(o, key) <==> HasSecretName(o, key)
  {
    if Sensitive(o, key) {
      var name :| name in DEFAULT_SENSITIVE_FIELDS + o.sensitiveFields && Includes(o.lower(key), o.lower(name));
      DefaultsAreListed(name);
      IncludesIff(o.lower(key), o.lower(name));
      var before, after :| o.lower(key) == before + o.lower(name) + after;
      assert SecretPart(o, key, before, name, after);
    }
    if HasSecretName(o, key) {
      var before, name, after :| SecretPart(o, key, before, name, after);
      DefaultsAreListed(name);
      IncludesIff(o.lower(key), o.lower(name));
      assert name in DEFAULT_SENSITIVE_FIELDS + o.sensitiveFields;
    }
  }

  /** The field is in the tree, at any depth. */
  predicate Shows(t: Tree, f: Field) {
    match t
    case ArrayTree(items) => exists i | 0 <= i < |items| :: Shows(items[i], f)
    case RecordTree(fields) => exists i | 0 <= i < |fields| :: fields[i] == f || Shows(fields[i].tree, f)
    case _ => false
  }

  lemma {:induction false} ShownIsSafe(o: Options, t: Tree, f: Field)
    requires Safe(o, t) && Shows(t, f)
    ensures Allowed(o, f.key) && (Sensitive(o, f.key) ==> f.tree == Redacted)
  {
    match t
    case ArrayTree(items) =>
      var i :| 0 <= i < |items| && Shows(items[i], f);
      ShownIsSafe(o, items[i], f);
    case RecordTree(fields) =>
      var i :| 0 <= i < |fields| && (fields[i] == f || Shows(fields[i].tree, f));
      if fields[i] != f {
        ShownIsSafe(o, fields[i].tree, f);
      }
  }

  /** Nothing that the redacted value shows, at any depth, is outside a given allowlist, up to case, or is
      the value of a field whose name contains a sensitive name, up to case. */
  lemma NoSecretIsShown(o: Options, heap: Heap, v: Value, f: Field)
    requires Closed(heap) && Valid(heap, v) && Shows(Redact(o, heap, v, []).0, f)
    ensures o.allowlist != [] ==> exists i :: 0 <= i < |o.allowlist| && o.lower(o.allowlist[i]) == o.lower(f.key)
    ensures HasSecretName(o, f.key) ==> f.tree == Redacted
  {
    RedactionIsSafe(o, heap, v, []);
    ShownIsSafe(o, Redact(o, heap, v, []).0, f);
    SensitiveIff(o, f.key);
    if o.allowlist != [] {
      var allowed :| allowed in o.allowlist && o.lower(f.key) == o.lower(allowed);
      var i :| 0 <= i < |o.allowlist| && o.allowlist[i] == allowed;
    }
  }

  predicate Keeps(o: Options, key: string) {
    o.allowlist == [] || exists i | 0 <= i < |o.allowlist| :: o.lower(o.allowlist[i]) == o.lower(key)
  }

  /** And nothing else is taken away: a record keeps its allowed fields, in order, and only the values of
      fields with a sensitive name. */
  lemma {:induction false} OnlySecretsAreTaken(o: Options, heap: Heap, fields: seq<(string, Value)>, visited: seq<Id>)
    requires Closed(heap) && ValidContent(heap, Fields(fields))
    ensures Keys(RedactFields(o, heap, fields, visited).0) == KeptKeys(o, fields)
    ensures forall f | f in RedactFields(o, heap, fields, visited).0 :: f.tree.Redacted? ==> HasSecretName(o, f.key)
    decreases Unvisited(heap, visited), 1 + |fields|
  {
    if fields != [] {
      var (key, value) := fields[0];
      assert Valid(heap, fields[0].1);
      SensitiveIff(o, key);
      KeepsIff(o, key);
      var visited1 := if !Allowed(o, key) || Sensitive(o, key) then visited else Redact(o, heap, value, visited).1;
      assert Unvisited(heap, visited1) <= Unvisited(heap, visited);
      OnlySecretsAreTaken(o, heap, fields[1..], visited1);
      if Allowed(o, key) {
        var rest := RedactFields(o, heap, fields[1..], visited1).0;
        assert RedactFields(o, heap, fields, visited).0[1..] == rest;
      }
    }
  }

  lemma KeepsIff(o: Options, key: string)
    ensures Keeps(o, key) <==> Allowed(o, key)
  {
    if allowed :| allowed in o.allowlist && o.lower(key) == o.lower(allowed) {
      var i :| 0 <= i < |o.allowlist| && o.allowlist[i] == allowed;
    }
  }

  function Keys(fields: seq<Field>): seq<string> {
    if fields == [] then [] else [fields[0].key] + Keys(fields[1..])
  }

  /** The names that an allowlist, if there is one, leaves. */
  function KeptKeys(o: Options, fields: seq<(string, Value)>): seq<string> {
    if fields == [] then []
    else if Keeps(o, fields[0].0) then [fields[0].0] + KeptKeys(o, fields[1..])
    else KeptKeys(o, fields[1..])
  }
}
