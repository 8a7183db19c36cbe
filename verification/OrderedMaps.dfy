/** The insertion-ordered string maps of the source: overwriting a key keeps its place,
    and iteration visits keys in the order they were first set. */
module OrderedMaps {
  import opened Seqs

  type Entries<V> = seq<(string, V)>

  function Get<V>(m: Entries<V>, k: string): Option<V> {
    if m == [] then None else if m[0].0 == k then Some(m[0].1) else Get(m[1..], k)
  }

  predicate Has<V>(m: Entries<V>, k: string) {
    Get(m, k).Some?
  }

  function Put<V>(m: Entries<V>, k: string, v: V): Entries<V> {
    if m == [] then [(k, v)]
    else if m[0].0 == k then [(k, v)] + m[1..]
    else [m[0]] + Put(m[1..], k, v)
  }

  function Remove<V>(m: Entries<V>, k: string): Entries<V> {
    if m == [] then []
    else if m[0].0 == k then m[1..]
    else [m[0]] + Remove(m[1..], k)
  }

  /** The part of m whose keys satisfy p, in order. */
  function Part<V>(m: Entries<V>, p: string -> bool): Entries<V> {
    if m == [] then []
    else if p(m[0].0) then [m[0]] + Part(m[1..], p)
    else Part(m[1..], p)
  }

  predicate Distinct<V>(m: Entries<V>) {
    forall i, j :: 0 <= i < j < |m| ==> m[i].0 != m[j].0
  }

  lemma {:induction false} GetIsAt<V>(m: Entries<V>, i: nat)
    requires Distinct(m) && i < |m|
    ensures Get(m, m[i].0) == Some(m[i].1)
  {
    if i > 0 {
      assert m[0].0 != m[i].0;
      assert m[1..][i - 1] == m[i];
      GetIsAt(m[1..], i - 1);
    }
  }

  lemma {:induction false} HasIsAt<V>(m: Entries<V>, k: string)
    ensures Has(m, k) <==> exists i :: 0 <= i < |m| && m[i].0 == k
    ensures Has(m, k) ==> exists i :: 0 <= i < |m| && m[i] == (k, Get(m, k).value)
  {
    if m != [] && m[0].0 != k {
      HasIsAt(m[1..], k);
      if i :| 0 <= i < |m[1..]| && m[1..][i].0 == k && m[1..][i] == (k, Get(m[1..], k).value) {
        assert m[i + 1] == m[1..][i];
      }
      if i :| 0 <= i < |m| && m[i].0 == k {
        assert m[1..][i - 1] == m[i];
      }
    } else if m != [] {
      assert m[0] == (k, Get(m, k).value);
    }
  }

  lemma {:induction false} GetPut<V>(m: Entries<V>, k: string, v: V, k': string)
    ensures Get(Put(m, k, v), k') == if k' == k then Some(v) else Get(m, k')
  {
    if m != [] && m[0].0 != k {
      GetPut(m[1..], k, v, k');
    }
  }

  lemma {:induction false} PutKeys<V>(m: Entries<V>, k: string, v: V)
    ensures forall i :: 0 <= i < |Put(m, k, v)| ==> Put(m, k, v)[i] == (k, v) || Put(m, k, v)[i] in m
    ensures Distinct(m) ==> Distinct(Put(m, k, v))
    ensures |Put(m, k, v)| == |m| + if Has(m, k) then 0 else 1
  {
    if m != [] && m[0].0 != k {
      var rest := Put(m[1..], k, v);
      PutKeys(m[1..], k, v);
      forall i | 0 <= i < |rest|
        ensures rest[i] == (k, v) || rest[i] in m
        ensures Distinct(m) ==> rest[i].0 != m[0].0
      {
        if rest[i] != (k, v) {
          var j :| 0 <= j < |m[1..]| && m[1..][j] == rest[i];
        }
      }
    } else if m != [] {
      assert forall i :: 1 <= i < |m| ==> Put(m, k, v)[i] == m[i];
    }
  }

  lemma {:induction false} PutSame<V>(m: Entries<V>, k: string, v: V)
    requires Get(m, k) == Some(v)
    ensures Put(m, k, v) == m
  {
    if m[0].0 != k {
      PutSame(m[1..], k, v);
    }
  }

  lemma {:induction false} PutTwice<V>(m: Entries<V>, k: string, v: V, v': V)
    ensures Put(Put(m, k, v), k, v') == Put(m, k, v')
  {
    if m != [] && m[0].0 != k {
      PutTwice(m[1..], k, v, v');
    }
  }

  lemma {:induction false} PutNew<V>(m: Entries<V>, k: string, v: V)
    requires forall i :: 0 <= i < |m| ==> m[i].0 != k
    ensures Put(m, k, v) == m + [(k, v)]
  {
    if m != [] {
      PutNew(m[1..], k, v);
    }
  }

  /** In a distinct map, the entry under k after Put(k, v) is v. */
  lemma PutAt<V>(m: Entries<V>, k: string, v: V, i: nat)
    requires Distinct(m) && i < |Put(m, k, v)|
    ensures Put(m, k, v)[i].0 == k ==> Put(m, k, v)[i].1 == v
  {
    PutKeys(m, k, v);
    GetIsAt(Put(m, k, v), i);
    GetPut(m, k, v, k);
  }

  lemma {:induction false} RemoveKeys<V>(m: Entries<V>, k: string)
    requires Distinct(m)
    ensures forall i :: 0 <= i < |Remove(m, k)| ==> Remove(m, k)[i].0 != k && Remove(m, k)[i] in m
    ensures Distinct(Remove(m, k))
    ensures |Remove(m, k)| == |m| - if Has(m, k) then 1 else 0
  {
    if m != [] && m[0].0 != k {
      var rest := Remove(m[1..], k);
      RemoveKeys(m[1..], k);
      forall i | 0 <= i < |rest|
        ensures rest[i] in m && rest[i].0 != m[0].0
      {
        var j :| 0 <= j < |m[1..]| && m[1..][j] == rest[i];
      }
    } else if m != [] {
      assert forall i :: 0 <= i < |m| - 1 ==> Remove(m, k)[i] == m[i + 1];
    }
  }

  lemma {:induction false} GetRemove<V>(m: Entries<V>, k: string, k': string)
    requires Distinct(m)
    ensures Get(Remove(m, k), k') == if k' == k then None else Get(m, k')
  {
    if m != [] {
      if m[0].0 != k {
        GetRemove(m[1..], k, k');
      } else {
        HasIsAt(m[1..], k);
      }
    }
  }

  lemma {:induction false} RemovePut<V>(m: Entries<V>, k: string, v: V)
    requires !Has(m, k)
    ensures Remove(Put(m, k, v), k) == m
  {
    if m != [] {
      RemovePut(m[1..], k, v);
    }
  }

  // ---------------------------------------------------------------- parts of a map evolve on their own

  lemma {:induction false} PartPut<V>(m: Entries<V>, k: string, v: V, p: string -> bool)
    ensures Part(Put(m, k, v), p) == if p(k) then Put(Part(m, p), k, v) else Part(m, p)
  {
    if m != [] && m[0].0 != k {
      PartPut(m[1..], k, v, p);
    }
  }

  lemma {:induction false} PartRemove<V>(m: Entries<V>, k: string, p: string -> bool)
    ensures Part(Remove(m, k), p) == if p(k) then Remove(Part(m, p), k) else Part(m, p)
  {
    if m != [] && m[0].0 != k {
      PartRemove(m[1..], k, p);
    }
  }

  lemma {:induction false} PartGet<V>(m: Entries<V>, k: string, p: string -> bool)
    requires p(k)
    ensures Get(Part(m, p), k) == Get(m, k)
  {
    if m != [] && m[0].0 != k {
      PartGet(m[1..], k, p);
    }
  }
}
