/** Deleting all workspaces of a tenant, children before parents, in chunks. */
module LeafPeeling {
  import opened Prelude
  import opened Forest
  import opened Queries

  const CHUNK_SIZE := 10000

  predicate HasChild(rows: map<Id, Row>, x: Id) {
    exists c :: c in rows && rows[c].parent == Some(x)
  }

  predicate Owned(rows: map<Id, Row>, tenant: nat, x: Id) {
    x in rows && rows[x].tenant == tenant
  }

  function AllLinks(rows: map<Id, Row>): Links {
    map x | x in rows :: rows[x].parent
  }

  /** The database's foreign key: a parent is a row of the table. */
  predicate ParentsExist(rows: map<Id, Row>) {
    forall x :: x in rows && rows[x].parent.Some? ==> rows[x].parent.value in rows
  }

  ghost predicate AboveForeign(rows: map<Id, Row>, tenant: nat, x: Id) {
    exists f, n: nat :: f in rows && rows[f].tenant != tenant && Ancestor(AllLinks(rows), f, n) == Some(x)
  }

  /** `x` lies on a parent cycle, or above a workspace of another tenant. */
  ghost predicate Stuck(rows: map<Id, Row>, tenant: nat, x: Id) {
    && Owned(rows, tenant, x)
    && (OnCycle(AllLinks(rows), x) || AboveForeign(rows, tenant, x))
  }

  /** What is left over is part of the table, keeps the other tenants, and keeps what is stuck. */
  ghost predicate Leftover(before: map<Id, Row>, after: map<Id, Row>, tenant: nat) {
    && (forall x :: x in after ==> x in before && after[x] == before[x])
    && (forall x :: x in before && before[x].tenant != tenant ==> x in after)
    && (forall x :: Stuck(before, tenant, x) ==> x in after)
  }

  /** A stuck workspace has a child that never goes away. */
  lemma {:induction false} StuckHasChild(rows: map<Id, Row>, tenant: nat, x: Id) returns (c: Id)
    requires Stuck(rows, tenant, x)
    ensures c in rows && rows[c].parent == Some(x)
    ensures rows[c].tenant != tenant || Stuck(rows, tenant, c)
  {
    var l := AllLinks(rows);
    if OnCycle(l, x) {
      var n: nat :| n > 0 && Ancestor(l, x, n) == Some(x);
      c := Ancestor(l, x, n - 1).value;
      CycleGoesUp(l, x, n - 1);
    } else {
      var f, n: nat :| f in rows && rows[f].tenant != tenant && Ancestor(l, f, n) == Some(x);
      assert n > 0;
      c := Ancestor(l, f, n - 1).value;
      assert Ancestor(l, f, n - 1) == Some(c);
    }
  }

  /** Removing leaves of the tenant keeps a leftover a leftover. */
  lemma {:induction false} RemovingLeaves(before: map<Id, Row>, rows: map<Id, Row>, tenant: nat, chunk: set<Id>)
    requires Leftover(before, rows, tenant)
    requires forall x :: x in chunk ==> Owned(rows, tenant, x) && !HasChild(rows, x)
    ensures Leftover(before, rows - chunk, tenant)
  {
    forall x: Id | Stuck(before, tenant, x) ensures x in rows - chunk {
      var c := StuckHasChild(before, tenant, x);
      assert c in rows && rows[c].parent == Some(x);
    }
  }

  /** A child of a workspace `n - 1` steps below `x` is `n` steps below it. */
  lemma {:induction false} OneDown(rows: map<Id, Row>, x: Id, d: Id, c: Id, n: nat)
    requires n > 0 && c in rows && rows[c].parent == Some(d) && d in rows
    requires Ancestor(AllLinks(rows), d, n - 1) == Some(x)
    ensures Ancestor(AllLinks(rows), c, n) == Some(x)
  {
    var l := AllLinks(rows);
    assert Ancestor(l, c, 0) == Some(c);
    assert Ancestor(l, c, 1) == Some(d);
    AncestorAdds(l, c, 1, n - 1);
  }

  /** A child left over of a workspace left over. */
  lemma {:induction false} ChildLeft(before: map<Id, Row>, after: map<Id, Row>, tenant: nat, d: Id) returns (c: Id)
    requires Leftover(before, after, tenant) && d in after && HasChild(after, d)
    ensures c in after && c in before && before[c].parent == Some(d)
  {
    c :| c in after && after[c].parent == Some(d);
  }

  /** Going down `n` steps from a leftover workspace without leaving the tenant, or meeting another tenant. */
  lemma {:induction false} Descend(before: map<Id, Row>, after: map<Id, Row>, tenant: nat, x: Id, n: nat)
    returns (c: Id)
    requires Leftover(before, after, tenant) && Owned(after, tenant, x)
    requires forall y :: Owned(after, tenant, y) ==> HasChild(after, y)
    ensures AboveForeign(before, tenant, x)
         || (Owned(after, tenant, c) && Ancestor(AllLinks(before), c, n) == Some(x))
  {
    if n == 0 {
      c := x;
    } else {
      var d := Descend(before, after, tenant, x, n - 1);
      c := d;
      if !AboveForeign(before, tenant, x) {
        c := ChildLeft(before, after, tenant, d);
        OneDown(before, x, d, c, n);
      }
    }
  }

  /** When no leaf of the tenant is left, everything left of it is stuck. */
  lemma {:induction false} OnlyStuckIsLeft(before: map<Id, Row>, after: map<Id, Row>, tenant: nat, x: Id)
    requires Leftover(before, after, tenant) && Owned(after, tenant, x)
    requires forall y :: Owned(after, tenant, y) ==> HasChild(after, y)
    ensures Stuck(before, tenant, x)
  {
    var l := AllLinks(before);
    var c := Descend(before, after, tenant, x, |l|);
    if !AboveForeign(before, tenant, x) {
      DeepIsOnCycle(l, c);
    }
  }

  /** Some non-empty chunk of at most the chunk size. */
  method PickChunk(ids: set<Id>) returns (chunk: set<Id>)
    requires ids != {}
    ensures chunk != {} && chunk <= ids && |chunk| <= 10000
    ensures |ids| <= 10000 ==> chunk == ids
  {
    chunk := {};
    while chunk < ids && |chunk| < CHUNK_SIZE
      invariant chunk <= ids && |chunk| <= CHUNK_SIZE
      decreases ids - chunk
    {
      var x :| x in ids - chunk;
      chunk := chunk + {x};
    }
    assert ids == chunk + (ids - chunk);
  }

  class WorkspaceTable {
    var rows: map<Id, Row>

    /** The database refuses to delete a workspace that still has a child. */
    method Delete(chunk: set<Id>) returns (ok: bool)
      modifies this
      ensures ok <==> forall x :: x in chunk ==> !HasChild(old(rows), x)
      ensures rows == if ok then old(rows) - chunk else old(rows)
    {
      ok := forall x :: x in chunk ==> !HasChild(rows, x);
      if ok {
        rows := rows - chunk;
      }
    }

    /** The leaf-only pass: the query is evaluated again before every chunk. */
    method DeleteLeaves(tenant: nat) returns (ok: bool)
      modifies this
      ensures ok
      ensures Leftover(old(rows), rows, tenant)
      ensures forall x :: Owned(rows, tenant, x) <==> Stuck(old(rows), tenant, x)
    {
      ok := true;
      var leaves := set x | x in rows && rows[x].tenant == tenant && !HasChild(rows, x);
      while leaves != {}
        invariant ok
        invariant leaves == set x | x in rows && rows[x].tenant == tenant && !HasChild(rows, x)
        invariant Leftover(old(rows), rows, tenant)
        decreases rows.Keys
      {
        var chunk := PickChunk(leaves);
        RemovingLeaves(old(rows), rows, tenant, chunk);
        ok := Delete(chunk);
        leaves := set x | x in rows && rows[x].tenant == tenant && !HasChild(rows, x);
      }
      forall x | Owned(rows, tenant, x) ensures Stuck(old(rows), tenant, x) {
        forall y | Owned(rows, tenant, y) ensures HasChild(rows, y) {
          assert y !in leaves;
        }
        OnlyStuckIsLeft(old(rows), rows, tenant, x);
      }
    }

    /** The second pass over whatever is left of the tenant; where every workspace has a child it changes nothing. */
    method DeleteRest(tenant: nat) returns (ok: bool)
      modifies this
      ensures ok ==> forall x :: !Owned(rows, tenant, x)
      ensures (forall x :: Owned(old(rows), tenant, x) ==> HasChild(old(rows), x)) ==>
        rows == old(rows) && (ok <==> forall x :: !Owned(old(rows), tenant, x))
    {
      ok := true;
      var rest := set x | x in rows && rows[x].tenant == tenant;
      while rest != {} && ok
        invariant rest == set x | x in rows && rows[x].tenant == tenant
        invariant (forall x :: Owned(old(rows), tenant, x) ==> HasChild(old(rows), x)) ==> rows == old(rows)
        invariant !ok ==> rest != {}
        decreases ok, rows.Keys
      {
        var chunk := PickChunk(rest);
        var y :| y in chunk;
        assert Owned(rows, tenant, y);
        ok := Delete(chunk);
        rest := set x | x in rows && rows[x].tenant == tenant;
        assert !ok ==> y in rest;
      }
      assert forall x :: Owned(rows, tenant, x) <==> x in rest;
    }

    /**
     Both passes. The tenant's workspaces all go, and nobody else's, exactly when none of them lies on a
     parent cycle or above another tenant's workspace; otherwise those are left and the deletion fails.
     */
    method DeleteTenantWorkspaces(tenant: nat) returns (ok: bool)
      modifies this
      ensures ok <==> forall x :: !Stuck(old(rows), tenant, x)
      ensures forall x :: Owned(rows, tenant, x) <==> Stuck(old(rows), tenant, x)
      ensures forall x :: x in rows ==> x in old(rows) && rows[x] == old(rows)[x]
      ensures forall x :: x in old(rows) && old(rows)[x].tenant != tenant ==> x in rows
    {
      var _ := DeleteLeaves(tenant);
      ghost var middle := rows;
      forall x: Id | Owned(middle, tenant, x) ensures HasChild(middle, x) {
        var c := StuckHasChild(old(rows), tenant, x);
        assert c in middle && middle[c].parent == Some(x);
      }
      ok := DeleteRest(tenant);
      assert rows == middle;
    }
  }

  lemma {:induction false} ForeignStaysForeign(rows: map<Id, Row>, tenant: nat, f: Id, n: nat)
    requires ParentsExist(rows)
    requires forall c :: c in rows && rows[c].parent.Some? && rows[rows[c].parent.value].tenant == tenant ==>
      rows[c].tenant == tenant
    requires f in rows && rows[f].tenant != tenant && Ancestor(AllLinks(rows), f, n).Some?
    ensures rows[Ancestor(AllLinks(rows), f, n).value].tenant != tenant
  {
    if n > 0 {
      AncestorsBelow(AllLinks(rows), f, n - 1, n);
      ForeignStaysForeign(rows, tenant, f, n - 1);
    }
  }

  /** On a forest whose links stay inside the tenant nothing is stuck. */
  lemma {:induction false} ForestIsNotStuck(rows: map<Id, Row>, tenant: nat, x: Id)
    requires ParentsExist(rows)
    requires forall y :: y in rows ==> !OnCycle(AllLinks(rows), y)
    requires forall c :: c in rows && rows[c].parent.Some? && rows[rows[c].parent.value].tenant == tenant ==>
      rows[c].tenant == tenant
    ensures !Stuck(rows, tenant, x)
  {
    if AboveForeign(rows, tenant, x) && Owned(rows, tenant, x) {
      var f, n: nat :| f in rows && rows[f].tenant != tenant && Ancestor(AllLinks(rows), f, n) == Some(x);
      ForeignStaysForeign(rows, tenant, f, n);
      assert false;
    }
  }
}
