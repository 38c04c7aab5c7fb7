/** Giving tenants their organisation ids from an account mapping. */
module OrgIds {
  import opened Prelude

  datatype Tenant = Tenant(account: Option<string>, org: Option<string>)

  type Table = map<nat, Tenant>

  datatype Result =
    | OrgIdsPresent
    | Stats(updated: nat, deletedNoMapping: nat, deletedDuplicate: nat, errors: nat)

  ghost predicate OrgsUnique(rows: Table) {
    forall i, j :: i in rows && j in rows && rows[i].org.Some? && rows[i].org == rows[j].org ==> i == j
  }

  predicate Taken(rows: Table, org: string) {
    exists i :: i in rows && rows[i].org == Some(org)
  }

  predicate HasAccount(t: Tenant) {
    t.account.Some? && t.account.value != ""
  }

  /** The non-empty account ids of the given tenants. */
  ghost function Accounts(rows: Table, ids: seq<nat>): set<string>
    requires forall i :: 0 <= i < |ids| ==> ids[i] in rows
  {
    set i | 0 <= i < |ids| && HasAccount(rows[ids[i]]) :: rows[ids[i]].account.value
  }

  /** The last of the given tenants with account `a`: the one that the index keeps. */
  function LastWith(rows: Table, ids: seq<nat>, a: string): (r: Option<nat>)
    requires forall i :: 0 <= i < |ids| ==> ids[i] in rows
    ensures r.Some? ==> r.value in ids && r.value in rows && rows[r.value].account == Some(a)
  {
    if ids == [] then None
    else if rows[ids[|ids| - 1]].account == Some(a) then Some(ids[|ids| - 1])
    else LastWith(rows, ids[..|ids| - 1], a)
  }

  /** The tenant is the one processed for its account. */
  predicate IsChosen(rows: Table, ids: seq<nat>, id: nat)
    requires forall i :: 0 <= i < |ids| ==> ids[i] in rows
  {
    id in rows && HasAccount(rows[id]) && LastWith(rows, ids, rows[id].account.value) == Some(id)
  }

  /** Each account once, in the order of its first tenant, with its last tenant. */
  ghost predicate IsIndex(rows: Table, ids: seq<nat>, order: seq<string>, byAccount: map<string, nat>)
    requires forall i :: 0 <= i < |ids| ==> ids[i] in rows
  {
    && (forall i, j :: 0 <= i < j < |order| ==> order[i] != order[j])
    && (forall a :: a in order <==> a in byAccount)
    && byAccount.Keys == Accounts(rows, ids)
    && (forall a :: a in byAccount ==> a != "" && LastWith(rows, ids, a) == Some(byAccount[a]))
  }

  lemma {:induction false} AccountsGrow(rows: Table, ids: seq<nat>, id: nat)
    requires id in rows && forall i :: 0 <= i < |ids| ==> ids[i] in rows
    ensures Accounts(rows, ids + [id])
         == Accounts(rows, ids) + if HasAccount(rows[id]) then {rows[id].account.value} else {}
  {
    var more := ids + [id];
    assert more[|ids|] == id;
    forall a | a in Accounts(rows, ids) ensures a in Accounts(rows, more) {
      var i :| 0 <= i < |ids| && HasAccount(rows[ids[i]]) && rows[ids[i]].account.value == a;
      assert more[i] == ids[i];
    }
  }

  lemma {:induction false} LastWithGrows(rows: Table, ids: seq<nat>, id: nat, a: string)
    requires id in rows && forall i :: 0 <= i < |ids| ==> ids[i] in rows
    ensures LastWith(rows, ids + [id], a) == if rows[id].account == Some(a) then Some(id) else LastWith(rows, ids, a)
  {
    assert (ids + [id])[..|ids|] == ids;
  }

  lemma {:induction false} IndexGrows(
      rows: Table, ids: seq<nat>, id: nat, order: seq<string>, byAccount: map<string, nat>)
    requires id in rows && forall i :: 0 <= i < |ids| ==> ids[i] in rows
    requires IsIndex(rows, ids, order, byAccount)
    ensures !HasAccount(rows[id]) ==> IsIndex(rows, ids + [id], order, byAccount)
    ensures HasAccount(rows[id]) ==>
      var a := rows[id].account.value;
      IsIndex(rows, ids + [id], if a in byAccount then order else order + [a], byAccount[a := id])
  {
    AccountsGrow(rows, ids, id);
    forall a ensures LastWith(rows, ids + [id], a)
      == if rows[id].account == Some(a) then Some(id) else LastWith(rows, ids, a)
    {
      LastWithGrows(rows, ids, id, a);
    }
  }

  method IndexByAccount(rows: Table, ids: seq<nat>) returns (order: seq<string>, byAccount: map<string, nat>)
    requires forall i :: 0 <= i < |ids| ==> ids[i] in rows
    ensures IsIndex(rows, ids, order, byAccount)
  {
    order, byAccount := [], map[];
    var n := 0;
    while n < |ids|
      invariant 0 <= n <= |ids|
      invariant IsIndex(rows, ids[..n], order, byAccount)
    {
      var t := rows[ids[n]];
      assert ids[..n + 1] == ids[..n] + [ids[n]];
      IndexGrows(rows, ids[..n], ids[n], order, byAccount);
      if HasAccount(t) {
        if t.account.value !in byAccount {
          order := order + [t.account.value];
        }
        byAccount := byAccount[t.account.value := ids[n]];
      }
      n := n + 1;
    }
    assert ids[..n] == ids;
  }

  /** What the processing of one tenant leaves, unless it fails: the mapped organisation id or no row. */
  ghost predicate Settled(was: Tenant, rows: Table, id: nat, a: string, mapping: map<string, string>) {
    if a !in mapping then id !in rows
    else (id in rows ==> rows[id] == was.(org := Some(mapping[a]))) && Taken(rows, mapping[a])
  }

  /** What becomes of the tenant of an account. */
  datatype Fate = Failed | Unmapped | Duplicate | Updated

  /** A tenant that is mapped and did not fail is updated if its row is still there, and was a duplicate if not. */
  function FateOf(rows: Table, id: nat, a: string, mapping: map<string, string>, failing: set<nat>): Fate {
    if id in failing then Failed
    else if a !in mapping then Unmapped
    else if id in rows then Updated
    else Duplicate
  }

  /** The counter for each fate. */
  function CountOf(r: Result, f: Fate): nat
    requires r.Stats?
  {
    match f
    case Failed => r.errors
    case Unmapped => r.deletedNoMapping
    case Duplicate => r.deletedDuplicate
    case Updated => r.updated
  }

  /** The loop's state: the rows so far, the organisation ids known to be taken, the counters. */
  datatype Work = Work(rows: Table, existing: set<string>, stats: Result)

  ghost predicate WorkOk(before: Table, w: Work, mapping: map<string, string>) {
    && w.stats.Stats?
    && (OrgsUnique(before) ==> OrgsUnique(w.rows))
    && (forall o :: o in mapping.Values ==> (o in w.existing <==> Taken(w.rows, o)))
    && (forall i :: i in w.rows ==> i in before)
  }

  function Sum(r: Result): nat
    requires r.Stats?
  {
    r.updated + r.deletedNoMapping + r.deletedDuplicate + r.errors
  }

  /** One tenant: its row is deleted, given its organisation id, or left alone after an error. */
  function ProcessTenant(w: Work, id: nat, a: string, mapping: map<string, string>, fails: bool): Work
    requires w.stats.Stats? && id in w.rows
  {
    if fails then w.(stats := w.stats.(errors := w.stats.errors + 1))
    else if a !in mapping then
      Work(w.rows - {id}, w.existing, w.stats.(deletedNoMapping := w.stats.deletedNoMapping + 1))
    else if mapping[a] in w.existing then
      Work(w.rows - {id}, w.existing, w.stats.(deletedDuplicate := w.stats.deletedDuplicate + 1))
    else
      Work(w.rows[id := w.rows[id].(org := Some(mapping[a]))], w.existing + {mapping[a]},
           w.stats.(updated := w.stats.updated + 1))
  }

  lemma {:induction false} OneTenant(
      before: Table, w: Work, id: nat, a: string, mapping: map<string, string>, fails: bool)
    requires WorkOk(before, w, mapping) && id in w.rows && w.rows[id].org.None?
    ensures
      var w' := ProcessTenant(w, id, a, mapping, fails);
      && WorkOk(before, w', mapping)
      && Sum(w'.stats) == Sum(w.stats) + 1
      && (forall i :: i != id ==> (i in w'.rows <==> i in w.rows))
      && (forall i :: i != id && i in w.rows ==> w'.rows[i] == w.rows[i])
      && (!fails ==> Settled(w.rows[id], w'.rows, id, a, mapping))
      && (fails ==> w'.rows == w.rows)
      && (forall f :: CountOf(w'.stats, f) == CountOf(w.stats, f)
            + if FateOf(w'.rows, id, a, mapping, if fails then {id} else {}) == f then 1 else 0)
      && (forall o :: Taken(w.rows, o) ==> Taken(w'.rows, o))
  {
    var w' := ProcessTenant(w, id, a, mapping, fails);
    forall o | Taken(w.rows, o) ensures Taken(w'.rows, o) {
      var i :| i in w.rows && w.rows[i].org == Some(o);
      assert i != id && i in w'.rows && w'.rows[i].org == Some(o);
    }
    if !fails && a in mapping {
      assert mapping[a] in mapping.Values;
      if mapping[a] !in w.existing {
        assert id in w'.rows && w'.rows[id].org == Some(mapping[a]);
      }
    }
    forall o | o in mapping.Values ensures o in w'.existing <==> Taken(w'.rows, o) {
      if Taken(w'.rows, o) && !(a in mapping && o == mapping[a]) {
        var i :| i in w'.rows && w'.rows[i].org == Some(o);
        assert i in w.rows && w.rows[i].org == Some(o);
      }
    }
  }

  /** The tenant is settled, or it failed and its row is as before. */
  ghost predicate Done(
      before: Table, rows: Table, id: nat, a: string, mapping: map<string, string>, failing: set<nat>)
  {
    && id in before
    && if id in failing then id in rows && rows[id] == before[id] else Settled(before[id], rows, id, a, mapping)
  }

  /** After the first `n` accounts: they are settled or failed, the others and all other tenants are untouched. */
  ghost predicate LoopOk(
      before: Table, w: Work, ids: seq<nat>, order: seq<string>, byAccount: map<string, nat>, n: nat,
      mapping: map<string, string>, failing: set<nat>)
    requires n <= |order| && forall a :: a in order ==> a in byAccount
    requires forall i :: 0 <= i < |ids| ==> ids[i] in before
  {
    && WorkOk(before, w, mapping)
    && Sum(w.stats) == n
    && (forall i :: i in before && !IsChosen(before, ids, i) ==> i in w.rows && w.rows[i] == before[i])
    && (forall k :: n <= k < |order| ==>
          var id := byAccount[order[k]]; id in before && id in w.rows && w.rows[id] == before[id])
    && (forall k :: 0 <= k < n ==>
          Done(before, w.rows, byAccount[order[k]], order[k], mapping, failing))
  }

  lemma {:induction false} DoneStays(
      before: Table, w: Work, w': Work, id: nat, other: nat, a: string, mapping: map<string, string>, failing: set<nat>)
    requires Done(before, w.rows, id, a, mapping, failing) && id != other
    requires forall i :: i != other ==> (i in w'.rows <==> i in w.rows)
    requires forall i :: i != other && i in w.rows ==> w'.rows[i] == w.rows[i]
    requires forall o :: Taken(w.rows, o) ==> Taken(w'.rows, o)
    ensures Done(before, w'.rows, id, a, mapping, failing)
  {
  }

  lemma {:induction false} LoopStep(
      before: Table, w: Work, ids: seq<nat>, order: seq<string>, byAccount: map<string, nat>, n: nat,
      mapping: map<string, string>, failing: set<nat>)
    requires n < |order| && (forall i :: 0 <= i < |ids| ==> ids[i] in before && before[ids[i]].org.None?)
    requires IsIndex(before, ids, order, byAccount) && LoopOk(before, w, ids, order, byAccount, n, mapping, failing)
    ensures
      var id := byAccount[order[n]];
      id in w.rows
      && LoopOk(before, ProcessTenant(w, id, order[n], mapping, id in failing),
                ids, order, byAccount, n + 1, mapping, failing)
  {
    var id := byAccount[order[n]];
    assert order[n] in byAccount;
    OneTenant(before, w, id, order[n], mapping, id in failing);
    var w' := ProcessTenant(w, id, order[n], mapping, id in failing);
    forall k | 0 <= k < |order| && k != n ensures byAccount[order[k]] != id {
      assert order[k] in byAccount && order[k] != order[n];
    }
    forall k | 0 <= k < n ensures Done(before, w'.rows, byAccount[order[k]], order[k], mapping, failing) {
      DoneStays(before, w, w', byAccount[order[k]], id, order[k], mapping, failing);
    }
  }

  /** The processed accounts with a given fate. */
  ghost function Fated(
      rows: Table, order: seq<string>, byAccount: map<string, nat>, n: nat, mapping: map<string, string>,
      failing: set<nat>, f: Fate): set<string>
    requires n <= |order| && forall k :: 0 <= k < |order| ==> order[k] in byAccount
  {
    if n == 0 then {}
    else
      var before := Fated(rows, order, byAccount, n - 1, mapping, failing, f);
      var a := order[n - 1];
      if FateOf(rows, byAccount[a], a, mapping, failing) == f then before + {a} else before
  }

  lemma {:induction false} FatedMembers(
      rows: Table, order: seq<string>, byAccount: map<string, nat>, n: nat, mapping: map<string, string>,
      failing: set<nat>, f: Fate, a: string)
    requires n <= |order| && forall k :: 0 <= k < |order| ==> order[k] in byAccount
    ensures a in Fated(rows, order, byAccount, n, mapping, failing, f)
       <==> a in order[..n] && FateOf(rows, byAccount[a], a, mapping, failing) == f
  {
    if n > 0 {
      FatedMembers(rows, order, byAccount, n - 1, mapping, failing, f, a);
      assert order[..n] == order[..n - 1] + [order[n - 1]];
    }
  }

  lemma {:induction false} FatedStays(
      rows: Table, rows': Table, order: seq<string>, byAccount: map<string, nat>, n: nat,
      mapping: map<string, string>, failing: set<nat>, f: Fate)
    requires n <= |order| && forall k :: 0 <= k < |order| ==> order[k] in byAccount
    requires forall k :: 0 <= k < n ==> (byAccount[order[k]] in rows' <==> byAccount[order[k]] in rows)
    ensures Fated(rows', order, byAccount, n, mapping, failing, f)
         == Fated(rows, order, byAccount, n, mapping, failing, f)
  {
    if n > 0 {
      FatedStays(rows, rows', order, byAccount, n - 1, mapping, failing, f);
    }
  }

  ghost predicate CountsOk(
      w: Work, order: seq<string>, byAccount: map<string, nat>, n: nat, mapping: map<string, string>,
      failing: set<nat>)
    requires n <= |order| && forall k :: 0 <= k < |order| ==> order[k] in byAccount
  {
    w.stats.Stats? && forall f :: CountOf(w.stats, f) == |Fated(w.rows, order, byAccount, n, mapping, failing, f)|
  }

  lemma {:induction false} FatedGrows(
      rows: Table, rows': Table, order: seq<string>, byAccount: map<string, nat>, n: nat,
      mapping: map<string, string>, failing: set<nat>, f: Fate)
    requires n < |order| && forall k :: 0 <= k < |order| ==> order[k] in byAccount
    requires forall i, j :: 0 <= i < j < |order| ==> order[i] != order[j]
    requires forall k :: 0 <= k < n ==> (byAccount[order[k]] in rows' <==> byAccount[order[k]] in rows)
    ensures |Fated(rows', order, byAccount, n + 1, mapping, failing, f)|
         == |Fated(rows, order, byAccount, n, mapping, failing, f)|
          + if FateOf(rows', byAccount[order[n]], order[n], mapping, failing) == f then 1 else 0
  {
    FatedStays(rows, rows', order, byAccount, n, mapping, failing, f);
    FatedMembers(rows, order, byAccount, n, mapping, failing, f, order[n]);
    assert order[n] !in order[..n];
  }

  lemma {:induction false} CountsStep(
      before: Table, w: Work, ids: seq<nat>, order: seq<string>, byAccount: map<string, nat>, n: nat,
      mapping: map<string, string>, failing: set<nat>)
    requires n < |order| && (forall i :: 0 <= i < |ids| ==> ids[i] in before && before[ids[i]].org.None?)
    requires IsIndex(before, ids, order, byAccount) && LoopOk(before, w, ids, order, byAccount, n, mapping, failing)
    requires CountsOk(w, order, byAccount, n, mapping, failing)
    ensures
      var id := byAccount[order[n]];
      id in w.rows
      && CountsOk(ProcessTenant(w, id, order[n], mapping, id in failing), order, byAccount, n + 1, mapping, failing)
  {
    var id := byAccount[order[n]];
    assert order[n] in byAccount;
    OneTenant(before, w, id, order[n], mapping, id in failing);
    var w' := ProcessTenant(w, id, order[n], mapping, id in failing);
    forall k | 0 <= k < |order| && k != n ensures byAccount[order[k]] != id {
      assert order[k] in byAccount && order[k] != order[n];
    }
    forall f ensures CountOf(w'.stats, f) == |Fated(w'.rows, order, byAccount, n + 1, mapping, failing, f)| {
      FatedGrows(w.rows, w'.rows, order, byAccount, n, mapping, failing, f);
    }
  }

  /** The accounts of the given tenants with a given fate. */
  ghost function AccountsFated(
      before: Table, rows: Table, ids: seq<nat>, mapping: map<string, string>, failing: set<nat>, f: Fate): set<string>
    requires forall i :: 0 <= i < |ids| ==> ids[i] in before
  {
    set a | a in Accounts(before, ids) && LastWith(before, ids, a).Some?
            && FateOf(rows, LastWith(before, ids, a).value, a, mapping, failing) == f
  }

  lemma {:induction false} CountsDone(
      before: Table, w: Work, ids: seq<nat>, order: seq<string>, byAccount: map<string, nat>,
      mapping: map<string, string>, failing: set<nat>, f: Fate)
    requires forall i :: 0 <= i < |ids| ==> ids[i] in before
    requires IsIndex(before, ids, order, byAccount) && forall k :: 0 <= k < |order| ==> order[k] in byAccount
    requires CountsOk(w, order, byAccount, |order|, mapping, failing)
    ensures CountOf(w.stats, f) == |AccountsFated(before, w.rows, ids, mapping, failing, f)|
  {
    var fated := Fated(w.rows, order, byAccount, |order|, mapping, failing, f);
    forall a ensures a in fated <==> a in AccountsFated(before, w.rows, ids, mapping, failing, f) {
      FatedMembers(w.rows, order, byAccount, |order|, mapping, failing, f, a);
      assert order[..|order|] == order;
    }
    assert fated == AccountsFated(before, w.rows, ids, mapping, failing, f);
  }

  /** The tenant chosen for account `a` is settled, unless it failed and is as before. */
  ghost predicate Outcome(
      before: Table, rows: Table, ids: seq<nat>, a: string, mapping: map<string, string>, failing: set<nat>)
    requires forall i :: 0 <= i < |ids| ==> ids[i] in before
  {
    var chosen := LastWith(before, ids, a);
    chosen.Some? && Done(before, rows, chosen.value, a, mapping, failing)
  }

  lemma {:induction false} OrderSize(order: seq<string>, keys: set<string>)
    requires forall i, j :: 0 <= i < j < |order| ==> order[i] != order[j]
    requires forall a :: a in order <==> a in keys
    ensures |order| == |keys|
  {
    if order == [] {
      assert keys == {};
    } else {
      var last := order[|order| - 1];
      assert forall a :: a in order[..|order| - 1] <==> a in keys - {last};
      OrderSize(order[..|order| - 1], keys - {last});
    }
  }

  lemma {:induction false} LoopDone(
      before: Table, w: Work, ids: seq<nat>, order: seq<string>, byAccount: map<string, nat>,
      mapping: map<string, string>, failing: set<nat>)
    requires forall i :: 0 <= i < |ids| ==> ids[i] in before
    requires IsIndex(before, ids, order, byAccount)
    requires LoopOk(before, w, ids, order, byAccount, |order|, mapping, failing)
    ensures Sum(w.stats) == |Accounts(before, ids)|
    ensures forall a :: a in Accounts(before, ids) ==> Outcome(before, w.rows, ids, a, mapping, failing)
  {
    OrderSize(order, byAccount.Keys);
    forall a | a in Accounts(before, ids) ensures Outcome(before, w.rows, ids, a, mapping, failing) {
      assert a in order;
      var k :| 0 <= k < |order| && order[k] == a;
    }
  }

  /** Before the first account: nothing is done, and the organisation ids known to be taken are those that are. */
  lemma {:induction false} KnownIsTaken(rows: Table, mapping: map<string, string>, known: set<string>, o: string)
    requires known ==
      set i | i in rows && rows[i].org.Some? && rows[i].org.value in mapping.Values :: rows[i].org.value
    requires o in mapping.Values
    ensures o in known <==> Taken(rows, o)
  {
    if Taken(rows, o) {
      var i :| i in rows && rows[i].org == Some(o);
      assert rows[i].org.value in known;
    }
  }

  lemma {:induction false} IndexInRows(rows: Table, ids: seq<nat>, order: seq<string>, byAccount: map<string, nat>)
    requires forall i :: 0 <= i < |ids| ==> ids[i] in rows
    requires IsIndex(rows, ids, order, byAccount)
    ensures forall a :: a in order ==> a in byAccount && byAccount[a] in rows
  {
  }

  lemma {:induction false} WorkStarts(rows: Table, mapping: map<string, string>, known: set<string>)
    requires forall o :: o in mapping.Values ==> (o in known <==> Taken(rows, o))
    ensures WorkOk(rows, Work(rows, known, Stats(0, 0, 0, 0)), mapping)
  {
  }

  lemma {:induction false} LoopStarts(
      rows: Table, w: Work, ids: seq<nat>, order: seq<string>, byAccount: map<string, nat>,
      mapping: map<string, string>, failing: set<nat>)
    requires forall i :: 0 <= i < |ids| ==> ids[i] in rows
    requires forall a :: a in order ==> a in byAccount && byAccount[a] in rows
    requires WorkOk(rows, w, mapping) && w.rows == rows && Sum(w.stats) == 0
    ensures LoopOk(rows, w, ids, order, byAccount, 0, mapping, failing)
  {
    forall k | 0 <= k < |order| ensures byAccount[order[k]] in rows {
      assert order[k] in order;
    }
  }

  lemma {:induction false} CountsStart(
      w: Work, order: seq<string>, byAccount: map<string, nat>, mapping: map<string, string>, failing: set<nat>)
    requires forall k :: 0 <= k < |order| ==> order[k] in byAccount
    requires w.stats == Stats(0, 0, 0, 0)
    ensures CountsOk(w, order, byAccount, 0, mapping, failing)
  {
  }

  /** One account more. */
  lemma {:induction false} OneRound(
      before: Table, w: Work, ids: seq<nat>, order: seq<string>, byAccount: map<string, nat>, n: nat,
      mapping: map<string, string>, failing: set<nat>)
    requires n < |order| && (forall i :: 0 <= i < |ids| ==> ids[i] in before && before[ids[i]].org.None?)
    requires IsIndex(before, ids, order, byAccount) && LoopOk(before, w, ids, order, byAccount, n, mapping, failing)
    requires CountsOk(w, order, byAccount, n, mapping, failing)
    ensures
      var id := byAccount[order[n]];
      && id in w.rows
      && var w' := ProcessTenant(w, id, order[n], mapping, id in failing);
         && LoopOk(before, w', ids, order, byAccount, n + 1, mapping, failing)
         && CountsOk(w', order, byAccount, n + 1, mapping, failing)
  {
    LoopStep(before, w, ids, order, byAccount, n, mapping, failing);
    CountsStep(before, w, ids, order, byAccount, n, mapping, failing);
  }

  class TenantTable {
    var rows: Table

    /** The body of the loop for one tenant; an error is counted and changes no row. */
    method ProcessOne(
        id: nat, a: string, mapping: map<string, string>, fails: bool, existing: set<string>, stats: Result)
      returns (existing': set<string>, stats': Result)
      requires stats.Stats? && id in rows
      modifies this
      ensures Work(rows, existing', stats') == ProcessTenant(Work(old(rows), existing, stats), id, a, mapping, fails)
    {
      existing', stats' := existing, stats;
      if fails {
        stats' := stats.(errors := stats.errors + 1);
      } else if a !in mapping {
        rows := rows - {id};
        stats' := stats.(deletedNoMapping := stats.deletedNoMapping + 1);
      } else if mapping[a] in existing {
        rows := rows - {id};
        stats' := stats.(deletedDuplicate := stats.deletedDuplicate + 1);
      } else {
        rows := rows[id := rows[id].(org := Some(mapping[a]))];
        stats' := stats.(updated := stats.updated + 1);
        existing' := existing + {mapping[a]};
      }
    }

    /** The loop over the index. */
    method ProcessAll(
        ids: seq<nat>, order: seq<string>, byAccount: map<string, nat>, mapping: map<string, string>,
        failing: set<nat>)
      returns (r: Result, ghost existing: set<string>)
      requires forall i :: 0 <= i < |ids| ==> ids[i] in rows && rows[ids[i]].org.None?
      requires IsIndex(rows, ids, order, byAccount) && forall k :: 0 <= k < |order| ==> order[k] in byAccount
      modifies this
      ensures LoopOk(old(rows), Work(rows, existing, r), ids, order, byAccount, |order|, mapping, failing)
      ensures CountsOk(Work(rows, existing, r), order, byAccount, |order|, mapping, failing)
    {
      var known :=
        set i | i in rows && rows[i].org.Some? && rows[i].org.value in mapping.Values :: rows[i].org.value;
      r := Stats(0, 0, 0, 0);
      forall o | o in mapping.Values ensures o in known <==> Taken(rows, o) {
        KnownIsTaken(rows, mapping, known, o);
      }
      IndexInRows(rows, ids, order, byAccount);
      WorkStarts(rows, mapping, known);
      LoopStarts(rows, Work(rows, known, r), ids, order, byAccount, mapping, failing);
      CountsStart(Work(rows, known, r), order, byAccount, mapping, failing);
      var n := 0;
      while n < |order|
        invariant 0 <= n <= |order|
        invariant LoopOk(old(rows), Work(rows, known, r), ids, order, byAccount, n, mapping, failing)
        invariant CountsOk(Work(rows, known, r), order, byAccount, n, mapping, failing)
      {
        var id := byAccount[order[n]];
        OneRound(old(rows), Work(rows, known, r), ids, order, byAccount, n, mapping, failing);
        known, r := ProcessOne(id, order[n], mapping, id in failing, known, r);
        n := n + 1;
      }
      existing := known;
    }

    /**
     Refuses tenants that already have an organisation id. Otherwise one tenant per distinct account is
     processed; `failing` are the tenants whose update or deletion raises.
     */
    method PopulateOrgIds(ids: seq<nat>, mapping: map<string, string>, failing: set<nat>) returns (r: Result)
      requires forall i :: 0 <= i < |ids| ==> ids[i] in rows
      modifies this
      ensures r.OrgIdsPresent? <==> exists i :: 0 <= i < |ids| && old(rows)[ids[i]].org.Some?
      ensures r.OrgIdsPresent? ==> rows == old(rows)
      ensures r.Stats? ==> Sum(r) == |Accounts(old(rows), ids)|
      ensures OrgsUnique(old(rows)) ==> OrgsUnique(rows)
      ensures forall i :: i in rows ==> i in old(rows)
      ensures forall i :: i in old(rows) && !IsChosen(old(rows), ids, i) ==> i in rows && rows[i] == old(rows)[i]
      ensures r.Stats? ==>
        forall a :: a in Accounts(old(rows), ids) ==> Outcome(old(rows), rows, ids, a, mapping, failing)
      ensures r.Stats? ==>
        forall f :: CountOf(r, f) == |AccountsFated(old(rows), rows, ids, mapping, failing, f)|
    {
      if exists i :: 0 <= i < |ids| && rows[ids[i]].org.Some? {
        return OrgIdsPresent;
      }
      var order, byAccount := IndexByAccount(rows, ids);
      ghost var existing;
      assert forall k :: 0 <= k < |order| ==> order[k] in byAccount;
      r, existing := ProcessAll(ids, order, byAccount, mapping, failing);
      LoopDone(old(rows), Work(rows, existing, r), ids, order, byAccount, mapping, failing);
      forall f ensures CountOf(r, f) == |AccountsFated(old(rows), rows, ids, mapping, failing, f)| {
        CountsDone(old(rows), Work(rows, existing, r), ids, order, byAccount, mapping, failing, f);
      }
    }
  }
}
