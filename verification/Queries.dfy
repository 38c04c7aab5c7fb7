/** The two recursive workspace queries, evaluated as PostgreSQL evaluates WITH RECURSIVE (section 7.8.2). */
module Queries {
  import opened Prelude
  import opened Forest

  datatype Row = Row(tenant: nat, parent: Option<Id>)

  /** The parent links among the workspaces of one tenant. */
  function LinksOf(t: map<Id, Row>, tenant: nat): Links {
    map x | x in t && t[x].tenant == tenant :: t[x].parent
  }

  /** Rows of the tenant, each the parent of the one before. */
  ghost predicate IsPath(t: map<Id, Row>, tenant: nat, path: seq<Id>) {
    && path != []
    && (forall i :: 0 <= i < |path| ==> path[i] in t && t[path[i]].tenant == tenant)
    && (forall i :: 0 <= i < |path| - 1 ==> t[path[i]].parent == Some(path[i + 1]))
  }

  /** Parents lead from `x` to `a` over rows of the tenant. */
  ghost predicate LeadsTo(t: map<Id, Row>, tenant: nat, x: Id, a: Id) {
    exists path :: IsPath(t, tenant, path) && path[0] == x && path[|path| - 1] == a
  }

  lemma {:induction false} PathIsAncestor(t: map<Id, Row>, tenant: nat, path: seq<Id>)
    requires IsPath(t, tenant, path)
    ensures Ancestor(LinksOf(t, tenant), path[0], |path| - 1) == Some(path[|path| - 1])
  {
    var n := |path| - 1;
    if n > 0 {
      assert IsPath(t, tenant, path[..n]);
      PathIsAncestor(t, tenant, path[..n]);
      assert t[path[n - 1]].parent == Some(path[n - 1 + 1]);
    }
  }

  lemma {:induction false} AncestorHasPath(t: map<Id, Row>, tenant: nat, x: Id, n: nat) returns (path: seq<Id>)
    requires Ancestor(LinksOf(t, tenant), x, n).Some?
    ensures IsPath(t, tenant, path) && path[0] == x
    ensures path[|path| - 1] == Ancestor(LinksOf(t, tenant), x, n).value && |path| == n + 1
  {
    if n == 0 {
      path := [x];
    } else {
      var before := AncestorHasPath(t, tenant, x, n - 1);
      path := before + [Ancestor(LinksOf(t, tenant), x, n).value];
    }
  }

  /** `n` parents can be followed from `x` over rows of the tenant. */
  ghost predicate Reaches(t: map<Id, Row>, tenant: nat, x: Id, n: nat) {
    exists path :: IsPath(t, tenant, path) && path[0] == x && |path| == n + 1
  }

  /** The parents of `x` come to an end. */
  ghost predicate RunsOut(t: map<Id, Row>, tenant: nat, x: Id) {
    exists n: nat :: !Reaches(t, tenant, x, n)
  }

  lemma {:induction false} RunsOutIff(t: map<Id, Row>, tenant: nat, x: Id)
    ensures RunsOut(t, tenant, x) <==> !ReachesCycle(LinksOf(t, tenant), x)
  {
    var l := LinksOf(t, tenant);
    EndsIff(l, x);
    forall n: nat ensures Reaches(t, tenant, x, n) <==> Ancestor(l, x, n).Some? {
      if Ancestor(l, x, n).Some? {
        var path := AncestorHasPath(t, tenant, x, n);
      }
      if Reaches(t, tenant, x, n) {
        var path :| IsPath(t, tenant, path) && path[0] == x && |path| == n + 1;
        PathIsAncestor(t, tenant, path);
      }
    }
  }

  lemma {:induction false} AncestorLeads(t: map<Id, Row>, tenant: nat, x: Id, n: nat, a: Id)
    requires Ancestor(LinksOf(t, tenant), x, n) == Some(a)
    ensures LeadsTo(t, tenant, x, a)
  {
    var path := AncestorHasPath(t, tenant, x, n);
  }

  lemma {:induction false} DepthOf(t: map<Id, Row>, tenant: nat, x: Id, a: Id) returns (n: nat)
    requires LeadsTo(t, tenant, x, a)
    ensures Ancestor(LinksOf(t, tenant), x, n) == Some(a)
  {
    var path :| IsPath(t, tenant, path) && path[0] == x && path[|path| - 1] == a;
    PathIsAncestor(t, tenant, path);
    n := |path| - 1;
  }

  /** `x` is one of `ids` or lies below one of them. */
  ghost predicate Below(l: Links, x: Id, ids: set<Id>) {
    exists n: nat :: Ancestor(l, x, n).Some? && Ancestor(l, x, n).value in ids
  }

  /** `a` is one of `ids` or lies above one of them. */
  ghost predicate Above(l: Links, a: Id, ids: set<Id>) {
    exists x, n: nat :: x in ids && Ancestor(l, x, n) == Some(a)
  }

  lemma {:induction false} ChildIsBelow(l: Links, x: Id, ids: set<Id>)
    requires x in l && ParentIn(l, x).Some? && Below(l, ParentIn(l, x).value, ids)
    ensures Below(l, x, ids)
  {
    var p := ParentIn(l, x).value;
    var n: nat :| Ancestor(l, p, n).Some? && Ancestor(l, p, n).value in ids;
    assert Ancestor(l, x, 0) == Some(x);
    assert Ancestor(l, x, 1) == Some(p);
    AncestorAdds(l, x, 1, n);
    assert Ancestor(l, x, 1 + n).value in ids;
  }

  /** A set that holds `ids` and the children of its members holds everything below `ids`. */
  lemma {:induction false} ClosedHoldsBelow(l: Links, found: set<Id>, ids: set<Id>, x: Id, n: nat)
    requires forall y :: y in l && y in ids ==> y in found
    requires forall y :: y in l && ParentIn(l, y).Some? && ParentIn(l, y).value in found ==> y in found
    requires Ancestor(l, x, n).Some? && Ancestor(l, x, n).value in ids
    ensures x in found
    decreases n
  {
    AncestorsBelow(l, x, 0, n);
    if n > 0 {
      assert Ancestor(l, x, 0) == Some(x);
      AncestorsBelow(l, x, 1, n);
      AncestorAdds(l, x, 1, n - 1);
      ClosedHoldsBelow(l, found, ids, ParentIn(l, x).value, n - 1);
    }
  }

  lemma {:induction false} BelowIff(t: map<Id, Row>, tenant: nat, x: Id, ids: set<Id>)
    ensures Below(LinksOf(t, tenant), x, ids) <==> exists a :: a in ids && LeadsTo(t, tenant, x, a)
  {
    var l := LinksOf(t, tenant);
    if Below(l, x, ids) {
      var n: nat :| Ancestor(l, x, n).Some? && Ancestor(l, x, n).value in ids;
      AncestorLeads(t, tenant, x, n, Ancestor(l, x, n).value);
    }
    if a :| a in ids && LeadsTo(t, tenant, x, a) {
      var n := DepthOf(t, tenant, x, a);
      assert Ancestor(l, x, n).Some? && Ancestor(l, x, n).value in ids;
    }
  }

  /** The set that the UNION form computes, over the parent links. */
  method Descendants(l: Links, ids: set<Id>) returns (found: set<Id>)
    ensures forall x :: x in found <==> Below(l, x, ids)
  {
    var working := set x | x in l && x in ids;
    found := working;
    forall x | x in found ensures Below(l, x, ids) {
      assert Ancestor(l, x, 0) == Some(x);
    }
    while working != {}
      invariant working <= found <= l.Keys
      invariant forall x :: x in l && x in ids ==> x in found
      invariant forall x :: x in found ==> Below(l, x, ids)
      invariant forall y :: y in l && ParentIn(l, y).Some? && ParentIn(l, y).value in found - working ==> y in found
      decreases l.Keys - found, working
    {
      var joined := set w | w in l && ParentIn(l, w).Some? && ParentIn(l, w).value in working;
      forall x | x in joined ensures Below(l, x, ids) {
        ChildIsBelow(l, x, ids);
      }
      working := joined - found;
      found := found + working;
    }
    forall x | Below(l, x, ids) ensures x in found {
      var n: nat :| Ancestor(l, x, n).Some? && Ancestor(l, x, n).value in ids;
      ClosedHoldsBelow(l, found, ids, x, n);
    }
  }

  /**
   The UNION form, on any table: exactly the workspaces from which parents lead to a given one over rows
   of the tenant. All of them are rows of the tenant.
   */
  method DescendantIds(t: map<Id, Row>, ids: set<Id>, tenant: nat) returns (found: set<Id>)
    ensures forall x :: x in found <==> exists a :: a in ids && LeadsTo(t, tenant, x, a)
    ensures forall x :: x in found ==> x in t && t[x].tenant == tenant
  {
    found := Descendants(LinksOf(t, tenant), ids);
    forall x: Id ensures x in found <==> exists a :: a in ids && LeadsTo(t, tenant, x, a) {
      BelowIff(t, tenant, x, ids);
    }
  }

  /** The rows of round `n` of the UNION ALL form: the `n`-th ancestor of each given workspace that has one. */
  function Round(l: Links, ids: set<Id>, n: nat): map<Id, Id> {
    map x | x in ids && Ancestor(l, x, n).Some? :: Ancestor(l, x, n).value
  }

  /** The UNION ALL form comes to an empty round exactly when no given workspace leads into a parent cycle. */
  lemma {:induction false} UnionAllEndsIff(l: Links, ids: set<Id>)
    ensures (exists n: nat :: Round(l, ids, n) == map[]) <==> forall x :: x in ids ==> !ReachesCycle(l, x)
    ensures (forall x :: x in ids ==> !ReachesCycle(l, x)) ==> Round(l, ids, |l|) == map[]
  {
    if forall x :: x in ids ==> !ReachesCycle(l, x) {
      var r := Round(l, ids, |l|);
      forall x | x in r ensures false {
        EndsIff(l, x);
      }
      assert r == map[];
    } else {
      var x :| x in ids && ReachesCycle(l, x);
      EndsIff(l, x);
      forall n: nat ensures Round(l, ids, n) != map[] {
        assert Ancestor(l, x, n).Some?;
        assert x in Round(l, ids, n);
      }
    }
  }

  /** The rows of all rounds up to `n`. */
  ghost function UpTo(l: Links, ids: set<Id>, n: nat): set<Id> {
    if n == 0 then Round(l, ids, 0).Values else UpTo(l, ids, n - 1) + Round(l, ids, n).Values
  }

  /** `a` is `x` or one of the first `n` workspaces above some `x` of `ids`. */
  ghost predicate AboveWithin(l: Links, a: Id, ids: set<Id>, n: nat) {
    exists x, i: nat :: x in ids && i <= n && Ancestor(l, x, i) == Some(a)
  }

  lemma {:induction false} UpToMembers(l: Links, ids: set<Id>, n: nat, a: Id)
    ensures a in UpTo(l, ids, n) <==> AboveWithin(l, a, ids, n)
  {
    if n > 0 {
      UpToMembers(l, ids, n - 1, a);
    }
    if a in Round(l, ids, n).Values {
      var x :| x in Round(l, ids, n) && Round(l, ids, n)[x] == a;
      assert x in ids && Ancestor(l, x, n) == Some(a);
      assert AboveWithin(l, a, ids, n);
    }
    if n > 0 && AboveWithin(l, a, ids, n - 1) {
      var x, i: nat :| x in ids && i <= n - 1 && Ancestor(l, x, i) == Some(a);
      assert AboveWithin(l, a, ids, n);
    }
    if AboveWithin(l, a, ids, n) {
      var x, i: nat :| x in ids && i <= n && Ancestor(l, x, i) == Some(a);
      if i == n {
        assert x in Round(l, ids, n) && Round(l, ids, n)[x] == a;
      } else {
        assert AboveWithin(l, a, ids, n - 1);
      }
    }
  }

  lemma {:induction false} EmptyRoundIsLast(l: Links, ids: set<Id>, n: nat, a: Id)
    requires Round(l, ids, n) == map[]
    ensures a in UpTo(l, ids, n) <==> Above(l, a, ids)
  {
    UpToMembers(l, ids, n, a);
    if Above(l, a, ids) {
      var x, i: nat :| x in ids && Ancestor(l, x, i) == Some(a);
      assert x !in Round(l, ids, n);
      if i > n {
        AncestorsBelow(l, x, n, i);
        assert false;
      }
      assert AboveWithin(l, a, ids, n);
    }
  }

  lemma {:induction false} NextRound(l: Links, ids: set<Id>, n: nat)
    requires n > 0
    ensures forall x :: x in Round(l, ids, n) <==>
      x in Round(l, ids, n - 1) && ParentIn(l, Round(l, ids, n - 1)[x]).Some?
    ensures forall x :: x in Round(l, ids, n) ==>
      Round(l, ids, n)[x] == ParentIn(l, Round(l, ids, n - 1)[x]).value
  {
  }

  lemma {:induction false} AboveIff(t: map<Id, Row>, tenant: nat, a: Id, ids: set<Id>)
    ensures Above(LinksOf(t, tenant), a, ids) <==> exists x :: x in ids && LeadsTo(t, tenant, x, a)
  {
    var l := LinksOf(t, tenant);
    if Above(l, a, ids) {
      var x, n: nat :| x in ids && Ancestor(l, x, n) == Some(a);
      AncestorLeads(t, tenant, x, n, a);
    }
    if x :| x in ids && LeadsTo(t, tenant, x, a) {
      var n := DepthOf(t, tenant, x, a);
      assert x in ids && Ancestor(l, x, n) == Some(a);
    }
  }

  /** The set that the UNION ALL form computes, over the parent links. */
  method Ancestors(l: Links, ids: set<Id>) returns (rows: set<Id>)
    requires forall x :: x in ids ==> !ReachesCycle(l, x)
    ensures forall a :: a in rows <==> Above(l, a, ids)
  {
    var working := map x | x in ids && x in l :: x;
    rows := working.Values;
    ghost var n := 0;
    UnionAllEndsIff(l, ids);
    assert working == Round(l, ids, 0);
    while working != map[]
      invariant working == Round(l, ids, n)
      invariant rows == UpTo(l, ids, n)
      invariant n <= |l|
      decreases |l| - n
    {
      working := map x | x in working && ParentIn(l, working[x]).Some? :: ParentIn(l, working[x]).value;
      n := n + 1;
      NextRound(l, ids, n);
      assert working == Round(l, ids, n);
      rows := rows + working.Values;
    }
    forall a: Id ensures a in rows <==> Above(l, a, ids) {
      EmptyRoundIsLast(l, ids, n, a);
    }
  }

  /**
   The UNION ALL form: exactly the workspaces to which parents lead from a given one over rows of the
   tenant, without the given ones. The query comes to an end only where no parent cycle is reached, and
   then within as many rounds as the tenant has workspaces; a database error is answered with nothing.
   */
  method AncestorIds(t: map<Id, Row>, ids: set<Id>, tenant: nat, dbError: bool) returns (found: set<Id>)
    requires !dbError ==> forall x :: x in ids ==> RunsOut(t, tenant, x)
    ensures dbError ==> found == {}
    ensures !dbError ==> forall a :: a in found <==> a !in ids && exists x :: x in ids && LeadsTo(t, tenant, x, a)
    ensures forall a :: a in found ==> a in t && t[a].tenant == tenant
  {
    if ids == {} || dbError {
      return {};
    }
    forall x | x in ids ensures !ReachesCycle(LinksOf(t, tenant), x) {
      RunsOutIff(t, tenant, x);
    }
    var rows := Ancestors(LinksOf(t, tenant), ids);
    found := rows - ids;
    forall a: Id ensures a in rows <==> exists x :: x in ids && LeadsTo(t, tenant, x, a) {
      AboveIff(t, tenant, a, ids);
    }
  }

  /** On single workspaces the two queries are each other's mirror image. */
  lemma {:induction false} DescendantsMirrorAncestors(l: Links, x: Id, y: Id)
    ensures Below(l, y, {x}) <==> Above(l, x, {y})
    ensures Below(l, y, {x}) && y !in {x} <==> Above(l, x, {y}) && x !in {y}
  {
    if Below(l, y, {x}) {
      var n: nat :| Ancestor(l, y, n).Some? && Ancestor(l, y, n).value in {x};
      assert y in {y} && Ancestor(l, y, n) == Some(x);
    }
    if Above(l, x, {y}) {
      var z, n: nat :| z in {y} && Ancestor(l, z, n) == Some(x);
      assert Ancestor(l, y, n).Some? && Ancestor(l, y, n).value in {x};
    }
  }
}
