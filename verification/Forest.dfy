/** Parent links between workspaces: each workspace has at most one parent. */
module Forest {
  import opened Prelude

  type Id = nat

  /** The parent of every workspace in a table. A parent outside the table counts as none. */
  type Links = map<Id, Option<Id>>

  function ParentIn(l: Links, x: Id): Option<Id>
    requires x in l
  {
    if l[x].Some? && l[x].value in l then l[x] else None
  }

  /** The workspace `n` steps above `x`, if the links lead that far. */
  function Ancestor(l: Links, x: Id, n: nat): (r: Option<Id>)
    ensures r.Some? ==> r.value in l
  {
    if n == 0 then if x in l then Some(x) else None
    else
      var below := Ancestor(l, x, n - 1);
      if below.None? then None else ParentIn(l, below.value)
  }

  ghost predicate OnCycle(l: Links, x: Id) {
    exists n: nat :: n > 0 && Ancestor(l, x, n) == Some(x)
  }

  /** Following the parents of `x` leads into a cycle. */
  ghost predicate ReachesCycle(l: Links, x: Id) {
    exists n: nat :: Ancestor(l, x, n).Some? && OnCycle(l, Ancestor(l, x, n).value)
  }

  lemma {:induction false} AncestorAdds(l: Links, x: Id, m: nat, n: nat)
    requires Ancestor(l, x, m).Some?
    ensures Ancestor(l, x, m + n) == Ancestor(l, Ancestor(l, x, m).value, n)
  {
    if n > 0 {
      AncestorAdds(l, x, m, n - 1);
    }
  }

  lemma {:induction false} AncestorsBelow(l: Links, x: Id, m: nat, n: nat)
    requires m <= n && Ancestor(l, x, n).Some?
    ensures Ancestor(l, x, m).Some?
  {
    if m < n {
      AncestorsBelow(l, x, m, n - 1);
    }
  }

  /** Everything above a workspace on a cycle is on a cycle too. */
  lemma {:induction false} CycleGoesUp(l: Links, x: Id, m: nat)
    requires OnCycle(l, x) && Ancestor(l, x, m).Some?
    ensures OnCycle(l, Ancestor(l, x, m).value)
  {
    var n: nat :| n > 0 && Ancestor(l, x, n) == Some(x);
    AncestorAdds(l, x, n, m);
    AncestorAdds(l, x, m, n);
    assert Ancestor(l, Ancestor(l, x, m).value, n) == Ancestor(l, x, m);
  }

  /** The first `n` workspaces met going up from `x`. */
  ghost function Path(l: Links, x: Id, n: nat): set<Id> {
    if n == 0 then {}
    else if Ancestor(l, x, n - 1).None? then Path(l, x, n - 1)
    else Path(l, x, n - 1) + {Ancestor(l, x, n - 1).value}
  }

  lemma {:induction false} PathWitness(l: Links, x: Id, n: nat, a: Id) returns (i: nat)
    requires a in Path(l, x, n)
    ensures i < n && Ancestor(l, x, i) == Some(a)
  {
    if Ancestor(l, x, n - 1) == Some(a) {
      i := n - 1;
    } else {
      i := PathWitness(l, x, n - 1, a);
    }
  }

  lemma {:induction false} PathInTable(l: Links, x: Id, n: nat)
    ensures Path(l, x, n) <= l.Keys
  {
    if n > 0 {
      PathInTable(l, x, n - 1);
    }
  }

  ghost predicate Repeats(l: Links, x: Id, n: nat) {
    exists i: nat, j: nat :: i < j < n && Ancestor(l, x, i).Some? && Ancestor(l, x, i) == Ancestor(l, x, j)
  }

  lemma {:induction false} PathSize(l: Links, x: Id, n: nat)
    requires n > 0 ==> Ancestor(l, x, n - 1).Some?
    requires !Repeats(l, x, n)
    ensures |Path(l, x, n)| == n
  {
    if n > 0 {
      if n > 1 {
        AncestorsBelow(l, x, n - 2, n - 1);
      }
      assert !Repeats(l, x, n - 1);
      PathSize(l, x, n - 1);
      if Ancestor(l, x, n - 1).value in Path(l, x, n - 1) {
        var i := PathWitness(l, x, n - 1, Ancestor(l, x, n - 1).value);
        assert false;
      }
    }
  }

  lemma {:induction false} SubsetSize<T>(a: set<T>, b: set<T>)
    requires a <= b
    ensures |a| <= |b|
  {
    assert b == a + (b - a);
  }

  /** A path with more workspaces than the table has meets one of them twice. */
  lemma {:induction false} LongPathRepeats(l: Links, x: Id)
    requires Ancestor(l, x, |l|).Some?
    ensures Repeats(l, x, |l| + 1)
  {
    if !Repeats(l, x, |l| + 1) {
      PathSize(l, x, |l| + 1);
      PathInTable(l, x, |l| + 1);
      SubsetSize(Path(l, x, |l| + 1), l.Keys);
      assert false;
    }
  }

  /** The workspace that many steps up is on a cycle. */
  lemma {:induction false} DeepIsOnCycle(l: Links, x: Id)
    requires Ancestor(l, x, |l|).Some?
    ensures OnCycle(l, Ancestor(l, x, |l|).value)
  {
    LongPathRepeats(l, x);
    var i: nat, j: nat :| i < j < |l| + 1 && Ancestor(l, x, i).Some? && Ancestor(l, x, i) == Ancestor(l, x, j);
    var a := Ancestor(l, x, i).value;
    AncestorAdds(l, x, i, j - i);
    assert Ancestor(l, a, j - i) == Some(a);
    AncestorAdds(l, x, i, |l| - i);
    CycleGoesUp(l, a, |l| - i);
  }

  lemma {:induction false} CycleNeverEnds(l: Links, x: Id, n: nat, m: nat)
    requires n > 0 && Ancestor(l, x, n) == Some(x)
    ensures Ancestor(l, x, m).Some?
  {
    if m <= n {
      AncestorsBelow(l, x, m, n);
    } else {
      CycleNeverEnds(l, x, n, m - n);
      AncestorAdds(l, x, n, m - n);
    }
  }

  ghost predicate NeverEnds(l: Links, x: Id) {
    forall n: nat :: Ancestor(l, x, n).Some?
  }

  /** The parents of `x` run out exactly when they do not lead into a cycle, and then within the table's size. */
  lemma {:induction false} EndsIff(l: Links, x: Id)
    ensures ReachesCycle(l, x) <==> NeverEnds(l, x)
    ensures !ReachesCycle(l, x) ==> Ancestor(l, x, |l|).None?
  {
    var deep: nat := |l|;
    if Ancestor(l, x, deep).Some? {
      DeepIsOnCycle(l, x);
      assert ReachesCycle(l, x);
    } else {
      assert !NeverEnds(l, x);
    }
    if ReachesCycle(l, x) {
      var k: nat :| Ancestor(l, x, k).Some? && OnCycle(l, Ancestor(l, x, k).value);
      var a := Ancestor(l, x, k).value;
      var p: nat :| p > 0 && Ancestor(l, a, p) == Some(a);
      forall n: nat ensures Ancestor(l, x, n).Some? {
        CycleNeverEnds(l, a, p, n);
        AncestorAdds(l, x, k, n);
        AncestorsBelow(l, x, n, k + n);
      }
    }
  }
}
