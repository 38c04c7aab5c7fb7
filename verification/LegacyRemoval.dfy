/** How the legacy-removal job cuts the stale parent edges of all tenants into batches. */
module LegacyRemoval {
  import opened Prelude
  import opened TupleLog

  const BATCH_SIZE := 500

  /** A tenant, with the id of its root workspace; a tenant without an org id has no resource id. */
  datatype Tenant = Tenant(rootId: string, resourceId: Option<string>)

  function Edge(t: Tenant): Tuple
    requires t.resourceId.Some?
  {
    Tuple("rbac/workspace:" + t.rootId, "parent", "rbac/tenant:" + t.resourceId.value)
  }

  /** `e` says: the tenant is the parent of its root workspace. */
  predicate IsEdgeOf(e: Tuple, t: Tenant) {
    && t.resourceId.Some?
    && e.resource == "rbac/workspace:" + t.rootId
    && e.relation == "parent"
    && e.subject == "rbac/tenant:" + t.resourceId.value
  }

  /** The stale edges of the tenants, in their order. */
  function Edges(tenants: seq<Tenant>): seq<Tuple> {
    if tenants == [] then []
    else
      var rest := Edges(tenants[..|tenants| - 1]);
      var last := tenants[|tenants| - 1];
      if last.resourceId.None? then rest else rest + [Edge(last)]
  }

  function Concat(batches: seq<seq<Tuple>>): seq<Tuple> {
    if batches == [] then [] else Concat(batches[..|batches| - 1]) + batches[|batches| - 1]
  }

  lemma {:induction false} EdgesGrow(tenants: seq<Tenant>, n: nat)
    requires n < |tenants|
    ensures Edges(tenants[..n + 1])
         == Edges(tenants[..n]) + if tenants[n].resourceId.Some? then [Edge(tenants[n])] else []
  {
    assert tenants[..n + 1][..n] == tenants[..n];
  }

  lemma {:induction false} BatchGrows(flushed: seq<seq<Tuple>>, batch: seq<Tuple>, e: Tuple)
    ensures Concat(flushed) + (batch + [e]) == Concat(flushed) + batch + [e]
  {
  }

  lemma {:induction false} BatchFlushed(flushed: seq<seq<Tuple>>, batch: seq<Tuple>)
    ensures Concat(flushed + [batch]) == Concat(flushed) + batch
  {
    assert (flushed + [batch])[..|flushed|] == flushed;
  }

  /** The edges are the parent relations from root workspace to tenant, of the tenants that have a resource id. */
  lemma {:induction false} EdgesAre(tenants: seq<Tenant>, e: Tuple)
    ensures e in Edges(tenants) <==> exists i :: 0 <= i < |tenants| && IsEdgeOf(e, tenants[i])
    ensures |Edges(tenants)| <= |tenants|
  {
    if tenants != [] {
      var n := |tenants| - 1;
      EdgesAre(tenants[..n], e);
      assert tenants[..n] + [tenants[n]] == tenants;
    }
  }

  /** After `n` tenants: the edges are in full batches and in the one being filled. */
  ghost predicate Progress(tenants: seq<Tenant>, n: nat, flushed: seq<seq<Tuple>>, batch: seq<Tuple>)
    requires n <= |tenants|
  {
    && Concat(flushed) + batch == Edges(tenants[..n])
    && |batch| <= BATCH_SIZE
    && forall i :: 0 <= i < |flushed| ==> |flushed[i]| == BATCH_SIZE
  }

  lemma {:induction false} OneTenant(tenants: seq<Tenant>, n: nat, flushed: seq<seq<Tuple>>, batch: seq<Tuple>)
    requires n < |tenants| && Progress(tenants, n, flushed, batch) && |batch| < BATCH_SIZE
    ensures tenants[n].resourceId.None? ==> Progress(tenants, n + 1, flushed, batch)
    ensures tenants[n].resourceId.Some? ==> Progress(tenants, n + 1, flushed, batch + [Edge(tenants[n])])
  {
    EdgesGrow(tenants, n);
    if tenants[n].resourceId.Some? {
      BatchGrows(flushed, batch, Edge(tenants[n]));
    }
  }

  lemma {:induction false} OneFlush(tenants: seq<Tenant>, n: nat, flushed: seq<seq<Tuple>>, batch: seq<Tuple>)
    requires n <= |tenants| && Progress(tenants, n, flushed, batch) && |batch| == BATCH_SIZE
    ensures Progress(tenants, n, flushed + [batch], [])
  {
    BatchFlushed(flushed, batch);
  }

  /**
   Every stale edge is enqueued exactly once and in order; no batch is empty, every batch but the
   last is full, and none is over-full.
   */
  method EnqueueRemovals(tenants: seq<Tenant>) returns (flushed: seq<seq<Tuple>>, processed: nat)
    ensures Concat(flushed) == Edges(tenants)
    ensures processed == |tenants|
    ensures forall i :: 0 <= i < |flushed| ==> 0 < |flushed[i]| <= 500
    ensures forall i :: 0 <= i < |flushed| - 1 ==> |flushed[i]| == 500
  {
    flushed, processed := [], 0;
    var batch: seq<Tuple> := [];
    while processed < |tenants|
      invariant 0 <= processed <= |tenants|
      invariant Progress(tenants, processed, flushed, batch) && |batch| < BATCH_SIZE
    {
      var tenant := tenants[processed];
      OneTenant(tenants, processed, flushed, batch);
      processed := processed + 1;
      if tenant.resourceId.Some? {
        batch := batch + [Edge(tenant)];
        if |batch| >= BATCH_SIZE {
          OneFlush(tenants, processed, flushed, batch);
          flushed, batch := flushed + [batch], [];
        }
      }
    }
    assert tenants[..processed] == tenants;
    if batch != [] {
      BatchFlushed(flushed, batch);
      flushed := flushed + [batch];
    }
  }
}
