/** The bounded event queue is a truncated move-to-back list. */
module RuntimeQueue {
  import opened Seqs
  import opened RuntimeState

  predicate NoDuplicates(q: seq<Tenant>) {
    forall i, j :: 0 <= i < j < |q| ==> q[i] != q[j]
  }

  /** The queue as it would be without a bound: each emit moves its tenant to the back. */
  function Coalesce(q: seq<Tenant>, t: Tenant): seq<Tenant> {
    Filter(q, NotTenant(t)) + [t]
  }

  function EmitAll(q: seq<Tenant>, ts: seq<Tenant>, max: int): seq<Tenant>
    requires max >= 1
  {
    if ts == [] then q else Enqueue(EmitAll(q, ts[..|ts| - 1], max), ts[|ts| - 1], max)
  }

  function CoalesceAll(q: seq<Tenant>, ts: seq<Tenant>): seq<Tenant> {
    if ts == [] then q else Coalesce(CoalesceAll(q, ts[..|ts| - 1]), ts[|ts| - 1])
  }

  /** The worker's next event: entry k is the first that names a tenant. */
  predicate Next(q: seq<Tenant>, k: nat) {
    k < |q| && q[k] != "" && forall i :: 0 <= i < k ==> q[i] == ""
  }

  lemma NextIsUnique(q: seq<Tenant>, k: nat)
    requires Next(q, k)
    ensures forall j: nat :: Next(q, j) ==> j == k
  {
    forall j: nat | Next(q, j)
      ensures j == k
    {
      assert q[j] != "" && q[k] != "";
    }
  }

  predicate NamesNone(q: seq<Tenant>) {
    forall i :: 0 <= i < |q| ==> q[i] == ""
  }

  function LastOf(q: seq<Tenant>, n: int): seq<Tenant>
    requires n >= 0
  {
    if |q| <= n then q else q[|q| - n..]
  }

  /** The bounded queue is the end of the unbounded one. */
  lemma EnqueueIsLastOf(q: seq<Tenant>, t: Tenant, max: int)
    requires max >= 1
    ensures Enqueue(q, t, max) == LastOf(Coalesce(q, t), max)
  {
    var others := Filter(q, NotTenant(t));
    if |others| >= max {
      assert (others + [t])[|others| + 1 - max..] == others[|others| + 1 - max..] + [t];
    }
  }

  /** Dropping from the front until there is room enqueues. */
  lemma DroppedIsEnqueued(q: seq<Tenant>, t: Tenant, max: int, dropped: nat)
    requires max >= 1 && dropped <= |Filter(q, NotTenant(t))|
    requires |Filter(q, NotTenant(t))| - dropped < max && (dropped == 0 || |Filter(q, NotTenant(t))| - dropped == max - 1)
    ensures Filter(q, NotTenant(t))[dropped..] + [t] == Enqueue(q, t, max)
    ensures Enqueue(q, t, max) == LastOf(Coalesce(q, t), max)
    ensures q == [] ==> Enqueue(q, t, max) == [t]
  {
    EnqueueIsLastOf(q, t, max);
    var others := Filter(q, NotTenant(t));
    assert dropped == 0 ==> others[dropped..] == others;
  }

  lemma {:induction false} FilterOfOthers(q: seq<Tenant>, t: Tenant)
    requires t !in q
    ensures Filter(q, NotTenant(t)) == q
  {
    if q != [] {
      FilterOfOthers(q[..|q| - 1], t);
      FrontAndLast(q);
    }
  }

  /** An emitted event leaves its place, if it has one, and goes to the back; the others keep their order,
      and if there are too many the oldest go. */
  lemma EmitMovesToBack(q: seq<Tenant>, t: Tenant, max: int, before: seq<Tenant>, after: seq<Tenant>)
    requires max >= 1 && t !in before && t !in after && (q == before + after || q == before + [t] + after)
    ensures exists dropped :: before + after + [t] == dropped + Enqueue(q, t, max)
                              && (dropped == [] || |Enqueue(q, t, max)| == max)
  {
    var all := before + after + [t];
    assert Coalesce(q, t) == all by {
      FilterOfOthers(before, t);
      FilterOfOthers(after, t);
      FilterConcat(before, after, NotTenant(t));
      FilterConcat(before, [t], NotTenant(t));
      FilterConcat(before + [t], after, NotTenant(t));
      FilterAlone(t);
    }
    EnqueueIsLastOf(q, t, max);
    var n := if |all| <= max then 0 else |all| - max;
    assert all == all[..n] + all[n..];
    assert |all| <= max ==> all[n..] == all;
  }

  lemma FilterAlone(t: Tenant)
    ensures Filter([t], NotTenant(t)) == []
  {
    assert [t][..0] == [];
  }

  lemma {:induction false} FilterConcat(a: seq<Tenant>, b: seq<Tenant>, p: Tenant -> bool)
    ensures Filter(a + b, p) == Filter(a, p) + Filter(b, p)
  {
    if b == [] {
      assert a + b == a;
    } else {
      var n := |b| - 1;
      assert (a + b)[..|a + b| - 1] == a + b[..n];
      FilterConcat(a, b[..n], p);
    }
  }

  lemma {:induction false} WithoutTenant(q: seq<Tenant>, t: Tenant)
    requires NoDuplicates(q)
    ensures NoDuplicates(Filter(q, NotTenant(t)))
    ensures |Filter(q, NotTenant(t))| == if t in q then |q| - 1 else |q|
    ensures t !in q ==> Filter(q, NotTenant(t)) == q
  {
    if q != [] {
      var n := |q| - 1;
      var rest := Filter(q[..n], NotTenant(t));
      WithoutTenant(q[..n], t);
      assert (t in q) == (t in q[..n] || q[n] == t);
      if q[n] == t {
        assert t !in q[..n];
      } else {
        forall i | 0 <= i < |rest|
          ensures rest[i] != q[n]
        {
          assert rest[i] in q[..n];
        }
        assert q[..n] + [q[n]] == q;
      }
    }
  }

  lemma EnqueueKeepsNoDuplicates(q: seq<Tenant>, t: Tenant, max: int)
    requires NoDuplicates(q) && max >= 1
    ensures NoDuplicates(Enqueue(q, t, max))
  {
    WithoutTenant(q, t);
    var others := Filter(q, NotTenant(t));
    assert forall i :: 0 <= i < |others| ==> others[i] in others;
  }

  lemma LastOfConcat(a: seq<Tenant>, b: seq<Tenant>, t: Tenant, max: int)
    requires max >= 1 && max - 1 <= |b| <= max
    ensures LastOf(a + b + [t], max) == b[|b| - (max - 1)..] + [t]
  {
  }

  lemma EnqueueIsLast(q: seq<Tenant>, t: Tenant, max: int)
    requires NoDuplicates(q) && max >= 1 && |q| == max
    ensures var b := Filter(q, NotTenant(t));
            max - 1 <= |b| <= max && Enqueue(q, t, max) == b[|b| - (max - 1)..] + [t]
  {
    WithoutTenant(q, t);
  }

  lemma Halves(q: seq<Tenant>, k: nat)
    requires k <= |q| && NoDuplicates(q)
    ensures q == q[..k] + q[k..] && NoDuplicates(q[k..])
  {
  }

  lemma EnqueueTruncates(q: seq<Tenant>, t: Tenant, max: int)
    requires NoDuplicates(q) && max >= 1
    ensures Enqueue(LastOf(q, max), t, max) == LastOf(Coalesce(q, t), max)
  {
    if |q| >= max {
      var k := |q| - max;
      var a, b := Filter(q[..k], NotTenant(t)), Filter(q[k..], NotTenant(t));
      Halves(q, k);
      FilterConcat(q[..k], q[k..], NotTenant(t));
      EnqueueIsLast(q[k..], t, max);
      LastOfConcat(a, b, t, max);
    }
  }

  lemma CoalesceKeepsNoDuplicates(q: seq<Tenant>, t: Tenant)
    requires NoDuplicates(q)
    ensures NoDuplicates(Coalesce(q, t))
  {
    EnqueueKeepsNoDuplicates(q, t, |q| + 1);
    WithoutTenant(q, t);
  }

  /** Between dequeues, whatever is emitted, the queue holds exactly the last entries of the
      unbounded coalescing queue, each tenant once. */
  lemma {:induction false} QueueIsTruncatedMoveToBack(q: seq<Tenant>, ts: seq<Tenant>, max: int)
    requires NoDuplicates(q) && |q| <= max && max >= 1
    ensures EmitAll(q, ts, max) == LastOf(CoalesceAll(q, ts), max)
    ensures NoDuplicates(CoalesceAll(q, ts)) && NoDuplicates(EmitAll(q, ts, max))
  {
    if ts != [] {
      QueueIsTruncatedMoveToBack(q, ts[..|ts| - 1], max);
      EnqueueTruncates(CoalesceAll(q, ts[..|ts| - 1]), ts[|ts| - 1], max);
      CoalesceKeepsNoDuplicates(CoalesceAll(q, ts[..|ts| - 1]), ts[|ts| - 1]);
      EnqueueKeepsNoDuplicates(EmitAll(q, ts[..|ts| - 1], max), ts[|ts| - 1], max);
    }
  }
}
