/** Rebuilding the parent relations of a tenant's workspaces, breadth first, without a visited set. */
module Rebuild {
  import opened Prelude
  import opened Forest

  datatype Node = Node(id: Id, parent: Option<Id>)

  /** A parent relation as the tuple store holds it. */
  datatype Edge = Edge(child: Id, parent: Id)

  ghost predicate DistinctIds(nodes: seq<Node>) {
    forall i, j :: 0 <= i < j < |nodes| ==> nodes[i].id != nodes[j].id
  }

  ghost predicate NoRepeats(s: seq<Id>) {
    forall i, j :: 0 <= i < j < |s| ==> s[i] != s[j]
  }

  ghost function Members(s: seq<Id>): set<Id> {
    set x | x in s
  }

  lemma {:induction false} MembersAppend(s: seq<Id>, x: Id)
    ensures Members(s + [x]) == Members(s) + {x}
  {
  }

  /** The links of the snapshot that the job starts from. */
  ghost function LinksOf(nodes: seq<Node>): Links {
    if nodes == [] then map[]
    else LinksOf(nodes[..|nodes| - 1])[nodes[|nodes| - 1].id := nodes[|nodes| - 1].parent]
  }

  lemma {:induction false} LinksMembers(nodes: seq<Node>, x: Id)
    requires DistinctIds(nodes)
    ensures x in LinksOf(nodes) <==> exists i :: 0 <= i < |nodes| && nodes[i].id == x
    ensures forall i :: 0 <= i < |nodes| && nodes[i].id == x ==>
      x in LinksOf(nodes) && LinksOf(nodes)[x] == nodes[i].parent
  {
    if nodes != [] {
      var n := |nodes| - 1;
      LinksMembers(nodes[..n], x);
      if x in LinksOf(nodes) && nodes[n].id != x {
        var i :| 0 <= i < n && nodes[..n][i].id == x;
        assert nodes[i].id == x;
      }
      forall i | 0 <= i < |nodes| && nodes[i].id == x
        ensures x in LinksOf(nodes) && LinksOf(nodes)[x] == nodes[i].parent
      {
        if i < n {
          assert nodes[..n][i].id == x;
        }
      }
    }
  }

  /** `roots` are the workspaces without a parent; `children` lists every other one under its parent. */
  ghost predicate IsGraph(l: Links, roots: seq<Id>, children: map<Id, seq<Id>>) {
    && NoRepeats(roots)
    && (forall x :: x in roots <==> x in l && l[x].None?)
    && (forall p :: p in children ==> NoRepeats(children[p]))
    && (forall c :: c in l && l[c].Some? ==> l[c].value in children && c in children[l[c].value])
    && (forall p, c :: p in children && c in children[p] ==> c in l && l[c] == Some(p))
  }

  lemma {:induction false} GraphGrows(l: Links, roots: seq<Id>, children: map<Id, seq<Id>>, node: Node)
    requires IsGraph(l, roots, children) && node.id !in l
    ensures node.parent.None? ==> IsGraph(l[node.id := None], roots + [node.id], children)
    ensures node.parent.Some? ==>
      var p := node.parent.value;
      var siblings := if p in children then children[p] else [];
      IsGraph(l[node.id := node.parent], roots, children[p := siblings + [node.id]])
  {
  }

  method BuildGraph(nodes: seq<Node>) returns (roots: seq<Id>, children: map<Id, seq<Id>>)
    requires DistinctIds(nodes)
    ensures IsGraph(LinksOf(nodes), roots, children)
  {
    roots, children := [], map[];
    var i := 0;
    while i < |nodes|
      invariant 0 <= i <= |nodes|
      invariant IsGraph(LinksOf(nodes[..i]), roots, children)
    {
      var node := nodes[i];
      assert nodes[..i + 1][..i] == nodes[..i];
      LinksMembers(nodes[..i], node.id);
      GraphGrows(LinksOf(nodes[..i]), roots, children, node);
      if node.parent.None? {
        roots := roots + [node.id];
      } else {
        var p := node.parent.value;
        var siblings := if p in children then children[p] else [];
        children := children[p := siblings + [node.id]];
      }
      i := i + 1;
    }
    assert nodes[..i] == nodes;
  }

  /** `x` is not a root, and its parents lead to one. */
  ghost predicate BelowRoot(l: Links, x: Id) {
    exists n: nat :: n > 0 && Ancestor(l, x, n).Some? && l[Ancestor(l, x, n).value].None?
  }

  lemma {:induction false} ChildIsBelowRoot(l: Links, x: Id, p: Id)
    requires x in l && l[x] == Some(p) && p in l && (l[p].None? || BelowRoot(l, p))
    ensures BelowRoot(l, x)
  {
    assert Ancestor(l, x, 0) == Some(x);
    assert Ancestor(l, x, 1) == Some(p);
    if l[p].Some? {
      var n: nat :| n > 0 && Ancestor(l, p, n).Some? && l[Ancestor(l, p, n).value].None?;
      AncestorAdds(l, x, 1, n);
      assert Ancestor(l, x, 1 + n).Some?;
    }
  }

  /** Whatever is closed under children of roots and of its own members holds everything below a root. */
  lemma {:induction false} ClosedHoldsAll(l: Links, found: set<Id>, x: Id, n: nat)
    requires forall c ::
      c in l && l[c].Some? && l[c].value in l && (l[l[c].value].None? || l[c].value in found) ==> c in found
    requires n > 0 && Ancestor(l, x, n).Some? && l[Ancestor(l, x, n).value].None?
    ensures x in found
    decreases n
  {
    AncestorsBelow(l, x, 1, n);
    AncestorsBelow(l, x, 0, n);
    assert Ancestor(l, x, 0) == Some(x);
    var p := Ancestor(l, x, 1).value;
    if n > 1 {
      AncestorAdds(l, x, 1, n - 1);
      ClosedHoldsAll(l, found, p, n - 1);
    }
  }

  /** What one transaction does; `emitted` is the relation handed to the replicator. */
  datatype Report = Report(checked: nat, added: nat, toAdd: nat, missing: nat, emitted: Option<Edge>)

  /** The transaction for one workspace, on the database and the tuples it sees. */
  function Process(db: Links, tuples: set<Edge>, x: Id, expected: Id, dryRun: bool): Report {
    if expected !in db || x !in db then Report(0, 0, 0, 0, None)
    else if db[x] != Some(expected) then Report(1, 0, 0, 0, None)
    else if Edge(x, expected) in tuples then Report(1, 0, 0, 0, None)
    else if dryRun then Report(1, 0, 1, 1, None)
    else Report(1, 1, 0, 1, Some(Edge(x, expected)))
  }

  /**
   What one transaction reports, whatever the database has become: a workspace is checked if it and its
   expected parent are there; its relation is missing if the parent is still that one and the store lacks
   it; and then it is emitted, or only counted in a dry run.
   */
  lemma {:induction false} ReportIff(db: Links, tuples: set<Edge>, x: Id, expected: Id, dryRun: bool)
    ensures var r := Process(db, tuples, x, expected, dryRun);
      && r.checked <= 1 && r.missing <= 1 && r.added <= 1 && r.toAdd <= 1
      && (r.checked == 1 <==> x in db && expected in db)
      && (r.missing == 1 <==> r.checked == 1 && db[x] == Some(expected) && Edge(x, expected) !in tuples)
      && (r.added == 1 <==> r.missing == 1 && !dryRun)
      && (r.toAdd == 1 <==> r.missing == 1 && dryRun)
      && r.emitted == (if r.added == 1 then Some(Edge(x, expected)) else None)
  {
  }

  /** Whatever the database has become: an emitted relation is true in it and was missing; a dry run emits none. */
  ghost predicate EmitsTruth(reports: seq<Report>, dbAt: nat -> Links, tuplesAt: nat -> set<Edge>, dryRun: bool) {
    forall i :: 0 <= i < |reports| && reports[i].emitted.Some? ==>
      var e := reports[i].emitted.value;
      !dryRun && e.child in dbAt(i) && dbAt(i)[e.child] == Some(e.parent) && e.parent in dbAt(i) && e !in tuplesAt(i)
  }

  /** The queue entries for the children of `p`. */
  function Entries(children: map<Id, seq<Id>>, p: Id): (r: seq<Edge>)
    ensures p !in children ==> r == []
    ensures p in children ==> |r| == |children[p]| && forall i :: 0 <= i < |r| ==> r[i] == Edge(children[p][i], p)
  {
    if p in children then seq(|children[p]|, i requires 0 <= i < |children[p]| => Edge(children[p][i], p)) else []
  }

  function Ids(entries: seq<Edge>): (r: seq<Id>)
    ensures |r| == |entries|
    ensures forall i :: 0 <= i < |r| ==> r[i] == entries[i].child
  {
    seq(|entries|, i requires 0 <= i < |entries| => entries[i].child)
  }

  /**
   The breadth-first invariant: nothing is handled or queued twice, and a workspace is handled or
   queued exactly when its parent is a root or was handled.
   */
  ghost predicate Frontier(l: Links, expanded: set<Id>, handled: seq<Id>, queue: seq<Edge>) {
    && NoRepeats(handled + Ids(queue))
    && (forall i :: 0 <= i < |queue| ==> queue[i].child in l && l[queue[i].child] == Some(queue[i].parent))
    && (forall x :: x in handled ==> x in l)
    && (forall c :: c in handled + Ids(queue) <==> c in l && l[c].Some? && l[c].value in expanded)
  }

  lemma {:induction false} FrontierPops(l: Links, expanded: set<Id>, handled: seq<Id>, queue: seq<Edge>)
    requires Frontier(l, expanded, handled, queue) && queue != []
    ensures Frontier(l, expanded, handled + [queue[0].child], queue[1..])
  {
    assert handled + Ids(queue) == handled + [queue[0].child] + Ids(queue[1..]);
  }

  lemma {:induction false} NewEntriesAreNew(
      l: Links, roots: seq<Id>, children: map<Id, seq<Id>>, expanded: set<Id>, known: seq<Id>, p: Id)
    requires IsGraph(l, roots, children) && NoRepeats(known) && p !in expanded
    requires forall c :: c in known ==> c in l && l[c].Some? && l[c].value in expanded
    ensures NoRepeats(known + Ids(Entries(children, p)))
    ensures forall c :: c in Ids(Entries(children, p)) <==> c in l && l[c] == Some(p)
  {
    var added := Ids(Entries(children, p));
    if p in children {
      assert added == children[p];
    }
    var all := known + added;
    forall i, j | 0 <= i < j < |all| ensures all[i] != all[j] {
      if i < |known| <= j {
        assert all[i] in known;
        assert all[j] in added;
      }
    }
  }

  lemma {:induction false} FrontierExpands(
      l: Links, roots: seq<Id>, children: map<Id, seq<Id>>, expanded: set<Id>, handled: seq<Id>, queue: seq<Edge>,
      p: Id)
    requires IsGraph(l, roots, children) && Frontier(l, expanded, handled, queue) && p !in expanded
    ensures Frontier(l, expanded + {p}, handled, queue + Entries(children, p))
  {
    NewEntriesAreNew(l, roots, children, expanded, handled + Ids(queue), p);
    var more := Entries(children, p);
    assert handled + Ids(queue + more) == handled + Ids(queue) + Ids(more);
    forall i | 0 <= i < |queue + more|
      ensures var e := (queue + more)[i]; e.child in l && l[e.child] == Some(e.parent)
    {
      if i >= |queue| {
        assert Ids(more)[i - |queue|] in Ids(more);
      }
    }
  }

  function Plus(t: Report, r: Report): Report {
    Report(t.checked + r.checked, t.added + r.added, t.toAdd + r.toAdd, t.missing + r.missing, None)
  }

  function Total(reports: seq<Report>): Report {
    if reports == [] then Report(0, 0, 0, 0, None) else Plus(Total(reports[..|reports| - 1]), reports[|reports| - 1])
  }

  lemma {:induction false} TotalAppend(reports: seq<Report>, r: Report)
    ensures Total(reports + [r]) == Plus(Total(reports), r)
  {
    assert (reports + [r])[..|reports|] == reports;
  }

  /** Everything expanded so far: the roots, and what was handled. */
  ghost predicate Expanded(l: Links, roots: seq<Id>, handled: seq<Id>, expanded: set<Id>) {
    && expanded == Members(roots) + Members(handled)
    && forall p :: p in expanded ==> p in l && (l[p].None? || BelowRoot(l, p))
  }

  /** The queue as the roots leave it. */
  method StartQueue(ghost l: Links, roots: seq<Id>, children: map<Id, seq<Id>>) returns (queue: seq<Edge>)
    requires IsGraph(l, roots, children)
    ensures Frontier(l, Members(roots), [], queue)
  {
    queue := [];
    var i := 0;
    while i < |roots|
      invariant 0 <= i <= |roots|
      invariant Frontier(l, Members(roots[..i]), [], queue)
    {
      FrontierExpands(l, roots, children, Members(roots[..i]), [], queue, roots[i]);
      queue := queue + Entries(children, roots[i]);
      MembersAppend(roots[..i], roots[i]);
      assert roots[..i] + [roots[i]] == roots[..i + 1];
      i := i + 1;
    }
    assert roots[..i] == roots;
  }

  /** The workspace taken from the queue was not handled before, and its parent was expanded. */
  lemma {:induction false} FirstIsNew(l: Links, expanded: set<Id>, handled: seq<Id>, queue: seq<Edge>)
    requires Frontier(l, expanded, handled, queue) && queue != []
    ensures queue[0].child in l && l[queue[0].child] == Some(queue[0].parent) && queue[0].parent in expanded
    ensures queue[0].child !in handled
  {
    var all := handled + Ids(queue);
    assert all[|handled|] == queue[0].child;
    assert queue[0].child in all;
    assert forall i :: 0 <= i < |handled| ==> handled[i] == all[i];
  }

  /** Taking one workspace from the queue and putting its children in. */
  lemma {:induction false} OneRound(
      l: Links, roots: seq<Id>, children: map<Id, seq<Id>>, expanded: set<Id>, handled: seq<Id>, queue: seq<Edge>)
    requires IsGraph(l, roots, children)
    requires Frontier(l, expanded, handled, queue) && Expanded(l, roots, handled, expanded) && queue != []
    ensures
      var x := queue[0].child;
      && x in l && l[x] == Some(queue[0].parent) && x !in handled
      && Frontier(l, expanded + {x}, handled + [x], queue[1..] + Entries(children, x))
      && Expanded(l, roots, handled + [x], expanded + {x})
  {
    var x := queue[0].child;
    FirstIsNew(l, expanded, handled, queue);
    FrontierPops(l, expanded, handled, queue);
    MembersAppend(handled, x);
    ChildIsBelowRoot(l, x, queue[0].parent);
    FrontierExpands(l, roots, children, expanded, handled + [x], queue[1..], x);
  }

  /** Every handled workspace has its report: that of its transaction. */
  ghost predicate Reported(
      l: Links, handled: seq<Id>, reports: seq<Report>, dbAt: nat -> Links, tuplesAt: nat -> set<Edge>, dryRun: bool)
  {
    && |reports| == |handled|
    && forall i :: 0 <= i < |handled| ==>
         && handled[i] in l && l[handled[i]].Some?
         && reports[i] == Process(dbAt(i), tuplesAt(i), handled[i], l[handled[i]].value, dryRun)
  }

  lemma {:induction false} ReportedAppend(
      l: Links, handled: seq<Id>, reports: seq<Report>, dbAt: nat -> Links, tuplesAt: nat -> set<Edge>, dryRun: bool,
      x: Id)
    requires Reported(l, handled, reports, dbAt, tuplesAt, dryRun) && x in l && l[x].Some?
    ensures
      var r := Process(dbAt(|handled|), tuplesAt(|handled|), x, l[x].value, dryRun);
      Reported(l, handled + [x], reports + [r], dbAt, tuplesAt, dryRun)
  {
  }

  lemma {:induction false} RunEmitsTruth(
      l: Links, handled: seq<Id>, reports: seq<Report>, dbAt: nat -> Links, tuplesAt: nat -> set<Edge>, dryRun: bool)
    requires Reported(l, handled, reports, dbAt, tuplesAt, dryRun)
    ensures EmitsTruth(reports, dbAt, tuplesAt, dryRun)
  {
  }

  lemma {:induction false} HandledIsAll(l: Links, roots: seq<Id>, handled: seq<Id>, expanded: set<Id>)
    requires Frontier(l, expanded, handled, []) && Expanded(l, roots, handled, expanded)
    requires forall x :: x in roots <==> x in l && l[x].None?
    ensures NoRepeats(handled)
    ensures forall x :: x in handled <==> BelowRoot(l, x)
  {
    assert handled + Ids([]) == handled;
    forall x: Id | BelowRoot(l, x) ensures x in handled {
      var n: nat :| n > 0 && Ancestor(l, x, n).Some? && l[Ancestor(l, x, n).value].None?;
      ClosedHoldsAll(l, Members(handled), x, n);
    }
    forall x | x in handled ensures BelowRoot(l, x) {
      ChildIsBelowRoot(l, x, l[x].value);
    }
  }

  /**
   The traversal over any database history: transaction `i` sees `dbAt(i)` and `tuplesAt(i)`. It ends on
   every snapshot, cycles included, handles exactly the workspaces below a root, each once, and emits only
   relations that are true at that moment.
   */
  method RebuildRelations(nodes: seq<Node>, dbAt: nat -> Links, tuplesAt: nat -> set<Edge>, dryRun: bool)
    returns (handled: seq<Id>, reports: seq<Report>, total: Report)
    requires DistinctIds(nodes)
    ensures NoRepeats(handled)
    ensures forall x :: x in handled <==> BelowRoot(LinksOf(nodes), x)
    ensures Reported(LinksOf(nodes), handled, reports, dbAt, tuplesAt, dryRun)
    ensures EmitsTruth(reports, dbAt, tuplesAt, dryRun)
    ensures total == Total(reports)
  {
    ghost var l := LinksOf(nodes);
    var roots, children := BuildGraph(nodes);
    var queue := StartQueue(l, roots, children);
    ghost var expanded := Members(roots);
    handled, reports, total := [], [], Report(0, 0, 0, 0, None);
    while queue != []
      invariant Frontier(l, expanded, handled, queue)
      invariant Expanded(l, roots, handled, expanded)
      invariant Reported(l, handled, reports, dbAt, tuplesAt, dryRun)
      invariant total == Total(reports)
      decreases l.Keys - Members(handled)
    {
      var entry := queue[0];
      OneRound(l, roots, children, expanded, handled, queue);
      MembersAppend(handled, entry.child);
      var report := Process(dbAt(|handled|), tuplesAt(|handled|), entry.child, entry.parent, dryRun);
      TotalAppend(reports, report);
      total := Plus(total, report);
      ReportedAppend(l, handled, reports, dbAt, tuplesAt, dryRun, entry.child);
      handled, reports := handled + [entry.child], reports + [report];
      queue := queue[1..] + Entries(children, entry.child);
      expanded := expanded + {entry.child};
    }
    HandledIsAll(l, roots, handled, expanded);
    RunEmitsTruth(l, handled, reports, dbAt, tuplesAt, dryRun);
  }

  /** The workspaces whose parent relation the tuple store lacks. */
  ghost function Lacking(l: Links, handled: seq<Id>, tuples: set<Edge>): set<Id> {
    set x | x in handled && x in l && l[x].Some? && Edge(x, l[x].value) !in tuples
  }

  ghost function Emitted(reports: seq<Report>): set<Edge> {
    set r | r in reports && r.emitted.Some? :: r.emitted.value
  }

  lemma {:induction false} LackingAppend(l: Links, handled: seq<Id>, tuples: set<Edge>, x: Id)
    requires NoRepeats(handled + [x]) && x in l && l[x].Some?
    ensures var more := Lacking(l, handled + [x], tuples);
      if Edge(x, l[x].value) in tuples then more == Lacking(l, handled, tuples)
      else more == Lacking(l, handled, tuples) + {x} && x !in Lacking(l, handled, tuples)
  {
    var all := handled + [x];
    assert all[|handled|] == x;
    assert forall i :: 0 <= i < |handled| ==> handled[i] == all[i];
  }

  /** The reports of a run during which neither the database nor the tuple store changed. */
  ghost predicate StableReports(l: Links, handled: seq<Id>, reports: seq<Report>, tuples: set<Edge>, dryRun: bool) {
    && |reports| == |handled|
    && forall i :: 0 <= i < |handled| ==>
         && handled[i] in l && l[handled[i]].Some? && l[handled[i]].value in l
         && reports[i] == Process(l, tuples, handled[i], l[handled[i]].value, dryRun)
  }

  /** A traversal during which neither the database nor the tuple store changed. */
  ghost predicate StableTraversal(l: Links, handled: seq<Id>, reports: seq<Report>, tuples: set<Edge>, dryRun: bool) {
    && NoRepeats(handled)
    && (forall x :: x in handled <==> BelowRoot(l, x))
    && StableReports(l, handled, reports, tuples, dryRun)
  }

  /** What the traversal yields over an unchanging world. */
  lemma {:induction false} StableRun(
      l: Links, handled: seq<Id>, reports: seq<Report>, dbAt: nat -> Links, tuplesAt: nat -> set<Edge>,
      tuples: set<Edge>, dryRun: bool)
    requires NoRepeats(handled) && forall x :: x in handled <==> BelowRoot(l, x)
    requires Reported(l, handled, reports, dbAt, tuplesAt, dryRun)
    requires forall i: nat :: dbAt(i) == l && tuplesAt(i) == tuples
    ensures StableTraversal(l, handled, reports, tuples, dryRun)
  {
    forall i | 0 <= i < |handled| ensures l[handled[i]].value in l {
      var x := handled[i];
      assert BelowRoot(l, x);
      var n: nat :| n > 0 && Ancestor(l, x, n).Some? && l[Ancestor(l, x, n).value].None?;
      AncestorsBelow(l, x, 1, n);
      assert Ancestor(l, x, 0) == Some(x);
    }
  }

  /** The counts for the lacking relations of the handled workspaces. */
  ghost function CountsFor(l: Links, handled: seq<Id>, tuples: set<Edge>, dryRun: bool): Report {
    var n := |Lacking(l, handled, tuples)|;
    Report(|handled|, if dryRun then 0 else n, if dryRun then n else 0, n, None)
  }

  lemma {:induction false} CountOneMore(l: Links, handled: seq<Id>, tuples: set<Edge>, dryRun: bool, x: Id)
    requires NoRepeats(handled + [x]) && x in l && l[x].Some? && l[x].value in l
    ensures Plus(CountsFor(l, handled, tuples, dryRun), Process(l, tuples, x, l[x].value, dryRun))
         == CountsFor(l, handled + [x], tuples, dryRun)
  {
    LackingAppend(l, handled, tuples, x);
  }

  lemma {:induction false} StablePrefix(
      l: Links, handled: seq<Id>, reports: seq<Report>, tuples: set<Edge>, dryRun: bool, x: Id, r: Report)
    requires NoRepeats(handled + [x]) && StableReports(l, handled + [x], reports + [r], tuples, dryRun)
    ensures NoRepeats(handled) && StableReports(l, handled, reports, tuples, dryRun)
    ensures x in l && l[x].Some? && l[x].value in l && r == Process(l, tuples, x, l[x].value, dryRun)
  {
    var all := handled + [x];
    assert all[|handled|] == x && (reports + [r])[|handled|] == r;
    assert forall i :: 0 <= i < |handled| ==> all[i] == handled[i] && (reports + [r])[i] == reports[i];
  }

  /** With nothing changing meanwhile, the counts are those of the lacking relations, in a dry and in a real run. */
  lemma {:induction false} StableCounts(
      l: Links, handled: seq<Id>, reports: seq<Report>, tuples: set<Edge>, dryRun: bool)
    requires NoRepeats(handled) && StableReports(l, handled, reports, tuples, dryRun)
    ensures Total(reports) == CountsFor(l, handled, tuples, dryRun)
  {
    if handled == [] {
      assert Lacking(l, handled, tuples) == {};
    } else {
      var n := |handled| - 1;
      var before, done := handled[..n], reports[..n];
      assert handled == before + [handled[n]] && reports == done + [reports[n]];
      StablePrefix(l, before, done, tuples, dryRun, handled[n], reports[n]);
      StableCounts(l, before, done, tuples, dryRun);
      CountOneMore(l, before, tuples, dryRun, handled[n]);
      TotalAppend(done, reports[n]);
    }
  }

  /** With nothing changing meanwhile, a real run emits exactly the lacking relations. */
  lemma {:induction false} StableEmits(l: Links, handled: seq<Id>, reports: seq<Report>, tuples: set<Edge>, e: Edge)
    requires StableReports(l, handled, reports, tuples, false)
    ensures e in Emitted(reports) <==> e.child in Lacking(l, handled, tuples) && l[e.child] == Some(e.parent)
  {
    if e in Emitted(reports) {
      var r :| r in reports && r.emitted == Some(e);
      var i :| 0 <= i < |reports| && reports[i] == r;
      assert handled[i] in handled;
    }
    if e.child in Lacking(l, handled, tuples) && l[e.child] == Some(e.parent) {
      var i :| 0 <= i < |handled| && handled[i] == e.child;
      assert reports[i].emitted == Some(e);
      assert reports[i] in reports;
    }
  }

  /** A run after the emitted relations were replicated finds nothing lacking. */
  lemma {:induction false} SecondRunAddsNothing(l: Links, handled: seq<Id>, reports: seq<Report>, tuples: set<Edge>)
    requires StableReports(l, handled, reports, tuples, false)
    ensures Lacking(l, handled, tuples + Emitted(reports)) == {}
  {
    forall x | x in handled ensures Edge(x, l[x].value) in tuples + Emitted(reports) {
      StableEmits(l, handled, reports, tuples, Edge(x, l[x].value));
    }
  }

  lemma {:induction false} SameLacking(l: Links, handled: seq<Id>, other: seq<Id>, tuples: set<Edge>)
    requires forall x :: x in handled <==> x in other
    ensures Lacking(l, handled, tuples) == Lacking(l, other, tuples)
  {
  }

  /** What a traversal counts, in terms of another one over the same snapshot. */
  lemma {:induction false} CountsOf(
      l: Links, handled: seq<Id>, reports: seq<Report>, tuples: set<Edge>, dryRun: bool, other: seq<Id>)
    requires StableTraversal(l, handled, reports, tuples, dryRun)
    requires forall x :: x in other <==> BelowRoot(l, x)
    ensures
      var n := |Lacking(l, other, tuples)|;
      && Total(reports).missing == n
      && Total(reports).added == (if dryRun then 0 else n)
      && Total(reports).toAdd == (if dryRun then n else 0)
  {
    StableCounts(l, handled, reports, tuples, dryRun);
    SameLacking(l, handled, other, tuples);
  }

  /**
   A dry run, a real run, and another one after the emitted relations were replicated, with no changes by
   others: the dry run predicts what the real one adds, and the second real one adds nothing.
   */
  lemma {:induction false} DryRunThenTwoRuns(
      l: Links, tuples: set<Edge>, handled0: seq<Id>, dry: seq<Report>, handled1: seq<Id>, first: seq<Report>,
      handled2: seq<Id>, second: seq<Report>)
    requires StableTraversal(l, handled0, dry, tuples, true)
    requires StableTraversal(l, handled1, first, tuples, false)
    requires StableTraversal(l, handled2, second, tuples + Emitted(first), false)
    ensures Total(dry).toAdd == Total(first).added == Total(first).missing
    ensures Total(second).added == Total(second).missing == 0
  {
    CountsOf(l, handled0, dry, tuples, true, handled1);
    CountsOf(l, handled1, first, tuples, false, handled1);
    SecondRunAddsNothing(l, handled1, first, tuples);
    CountsOf(l, handled2, second, tuples + Emitted(first), false, handled1);
  }
}
