/**
 The cached lookup of the root and default workspaces against the database, over every run of lookups,
 late fills, expiries, failed cache reads and writes, and of everything that changes the rows: tenants
 come and go, with or without invalidation, get their organisation late, and their built-in workspaces
 are created and deleted at any time.

 A workspace is never changed and never created twice. Tenant objects outlive their rows.
 */
module CachedLookup {
  import opened Prelude
  import opened WorkspaceCache

  datatype Workspace = Workspace(id: string, kind: WsType)

  datatype Tenant = Tenant(org: Option<string>, builtIn: map<WsType, Workspace>)

  type Database = map<nat, Tenant>
  type Cache = map<string, Workspace>

  /** The uncached lookup; none when the database has no such row. */
  function FromDatabase(db: Database, id: nat, t: WsType): Option<Workspace> {
    if id in db && t in db[id].builtIn then Some(db[id].builtIn[t]) else None
  }

  predicate HasOrg(org: Option<string>) {
    org.Some? && org.value != ""
  }

  function Filled(cache: Cache, org: Option<string>, w: Option<Workspace>, writable: bool): Cache {
    if HasOrg(org) && w.Some? && writable then cache[KeyFor(org.value, w.value.kind) := w.value] else cache
  }

  predicate Hit(cache: Cache, org: Option<string>, t: WsType, readable: bool) {
    HasOrg(org) && readable && KeyFor(org.value, t) in cache
  }

  /** The lookup through the cache. */
  function Answer(
      db: Database, cache: Cache, id: nat, org: Option<string>, t: WsType, readable: bool): Option<Workspace>
  {
    if Hit(cache, org, t, readable) then Some(cache[KeyFor(org.value, t)]) else FromDatabase(db, id, t)
  }

  /** The manager's lookup over the shared cache; a cache that cannot be read or written is passed over. */
  method GetBuiltInWorkspace(
      store: Store<Workspace>, db: Database, id: nat, org: Option<string>, t: WsType, readable: bool, writable: bool)
    returns (r: Option<Workspace>)
    modifies store
    ensures r == Answer(db, old(store.data), id, org, t, readable)
    ensures store.data ==
      if Hit(old(store.data), org, t, readable) then old(store.data)
      else Filled(old(store.data), org, r, writable)
  {
    if HasOrg(org) && readable && KeyFor(org.value, t) in store.data {
      return Some(store.data[KeyFor(org.value, t)]);
    }
    r := FromDatabase(db, id, t);
    if r.Some? && HasOrg(org) && writable {
      store.data := store.data[KeyFor(org.value, r.value.kind) := r.value];
    }
  }

  /** A cache entry, or one that a process has read from the database and may still write. */
  datatype Entry = Entry(key: string, w: Workspace)

  /** `underWay` are the entries under way to the cache; `deleted` is history: the workspaces deleted so far. */
  datatype State = State(db: Database, cache: Cache, underWay: set<Entry>, deleted: set<Workspace>)

  /**
   - `Lookup` is a whole lookup; `Read` and `Fill` are the two halves of one that others come between.
   - `DeleteTenant` may be followed by its invalidation at once, or later, or never.
   - `DeleteWorkspace` takes one built-in workspace and leaves the tenant and the cache.
   */
  datatype Step =
    | Lookup(id: nat, org: Option<string>, t: WsType, readable: bool, writable: bool)
    | Read(id: nat, org: Option<string>, t: WsType)
    | Fill(entry: Entry)
    | Expire(key: string)
    | Invalidate(name: string)
    | Create(id: nat, tenant: Tenant)
    | SetOrg(id: nat, name: string)
    | AddWorkspace(id: nat, w: Workspace)
    | DeleteWorkspace(id: nat, t: WsType)
    | DeleteTenant(id: nat, invalidated: bool)

  predicate ProperOrg(org: Option<string>) {
    org.Some? ==> Plain(org.value) && NoColon(org.value)
  }

  predicate ProperTenant(tenant: Tenant) {
    ProperOrg(tenant.org) && forall t :: t in tenant.builtIn ==> tenant.builtIn[t].kind == t
  }

  /** A tenant object that has an organisation has that of its row, for as long as the row is there. */
  predicate Refers(db: Database, id: nat, org: Option<string>) {
    id in db && HasOrg(org) ==> db[id].org == org
  }

  /** Nobody has the organisation. */
  predicate Unused(db: Database, org: Option<string>) {
    org.Some? ==> forall i :: i in db ==> db[i].org != org
  }

  predicate Has(db: Database, i: nat, w: Workspace) {
    i in db && w.kind in db[i].builtIn && db[i].builtIn[w.kind] == w
  }

  predicate Live(db: Database, w: Workspace) {
    exists i :: i in db && Has(db, i, w)
  }

  /** The workspace was never there before. */
  predicate IsNew(s: State, w: Workspace) {
    w !in s.deleted && !Live(s.db, w)
  }

  predicate Enabled(s: State, step: Step) {
    match step
    case Lookup(id, org, _, _, _) => Refers(s.db, id, org)
    case Read(id, org, _) => Refers(s.db, id, org)
    case Fill(entry) => entry in s.underWay
    case Expire(_) => true
    case Invalidate(_) => true
    case Create(id, tenant) =>
      && id !in s.db
      && ProperTenant(tenant)
      && Unused(s.db, tenant.org)
      && forall t :: t in tenant.builtIn ==> IsNew(s, tenant.builtIn[t])
    case SetOrg(id, org) => id in s.db && s.db[id].org.None? && ProperOrg(Some(org)) && Unused(s.db, Some(org))
    case AddWorkspace(id, w) => id in s.db && w.kind !in s.db[id].builtIn && IsNew(s, w)
    case DeleteWorkspace(id, t) => id in s.db && t in s.db[id].builtIn
    case DeleteTenant(id, _) => id in s.db
  }

  function Invalidated(cache: Cache, org: Option<string>): Cache {
    if HasOrg(org) then map k | k in cache && !Invalidates(org.value, k) :: cache[k] else cache
  }

  /** What a miss makes of the entries under way. */
  function ReadOf(db: Database, id: nat, org: Option<string>, t: WsType): set<Entry> {
    var w := FromDatabase(db, id, t);
    if HasOrg(org) && w.Some? then {Entry(KeyFor(org.value, w.value.kind), w.value)} else {}
  }

  function Next(s: State, step: Step): State
    requires Enabled(s, step)
  {
    match step
    case Lookup(id, org, t, readable, writable) =>
      if Hit(s.cache, org, t, readable) then s
      else s.(cache := Filled(s.cache, org, FromDatabase(s.db, id, t), writable))
    case Read(id, org, t) => s.(underWay := s.underWay + ReadOf(s.db, id, org, t))
    case Fill(entry) => s.(cache := s.cache[entry.key := entry.w])
    case Expire(key) => s.(cache := s.cache - {key})
    case Invalidate(org) => s.(cache := Invalidated(s.cache, Some(org)))
    case Create(id, tenant) => s.(db := s.db[id := tenant])
    case SetOrg(id, org) => s.(db := s.db[id := s.db[id].(org := Some(org))])
    case AddWorkspace(id, w) => s.(db := s.db[id := s.db[id].(builtIn := s.db[id].builtIn[w.kind := w])])
    case DeleteWorkspace(id, t) =>
      s.(db := s.db[id := s.db[id].(builtIn := s.db[id].builtIn - {t})],
         deleted := s.deleted + {s.db[id].builtIn[t]})
    case DeleteTenant(id, invalidated) =>
      s.(db := s.db - {id},
         deleted := s.deleted + s.db[id].builtIn.Values,
         cache := if invalidated then Invalidated(s.cache, s.db[id].org) else s.cache)
  }

  const EMPTY := State(map[], map[], {}, {})

  ghost predicate IsRun(states: seq<State>, steps: seq<Step>) {
    && |states| == |steps| + 1
    && states[0] == EMPTY
    && forall i :: 0 <= i < |steps| ==> Enabled(states[i], steps[i]) && states[i + 1] == Next(states[i], steps[i])
  }

  /** The entry is what the row `id` would be cached as. */
  predicate BackedBy(db: Database, e: Entry, id: nat) {
    && Has(db, id, e.w)
    && HasOrg(db[id].org)
    && e.key == KeyFor(db[id].org.value, e.w.kind)
  }

  /** The workspace was deleted, or it is that of a tenant that is there. */
  ghost predicate Accounted(s: State, e: Entry) {
    e.w in s.deleted || exists id :: BackedBy(s.db, e, id)
  }

  ghost predicate TenantsOk(db: Database) {
    && (forall i :: i in db ==> ProperTenant(db[i]))
    && (forall i, j :: i in db && j in db && db[i].org.Some? && db[i].org == db[j].org ==> i == j)
  }

  /** No workspace is that of two rows, and none that is there was deleted. */
  ghost predicate WorkspacesOk(s: State) {
    && (forall i, w :: Has(s.db, i, w) ==> w !in s.deleted)
    && (forall i, j, w :: Has(s.db, i, w) && Has(s.db, j, w) ==> i == j)
  }

  ghost predicate RowsOk(s: State) {
    TenantsOk(s.db) && WorkspacesOk(s)
  }

  ghost predicate Inv(s: State) {
    && RowsOk(s)
    && (forall k :: k in s.cache ==> Accounted(s, Entry(k, s.cache[k])))
    && (forall e :: e in s.underWay ==> Accounted(s, e))
  }

  lemma {:induction false} RowChangeOk(db: Database, id: nat, tenant: Tenant)
    requires TenantsOk(db) && ProperTenant(tenant)
    requires tenant.org.Some? ==> forall i :: i in db && i != id ==> db[i].org != tenant.org
    ensures TenantsOk(db[id := tenant])
  {
  }

  lemma {:induction false} TenantsStayOk(s: State, step: Step)
    requires RowsOk(s) && Enabled(s, step)
    ensures TenantsOk(Next(s, step).db)
  {
    if step.Create? || step.SetOrg? || step.AddWorkspace? || step.DeleteWorkspace? {
      if !step.Create? {
        assert ProperTenant(s.db[step.id]);
      }
      RowChangeOk(s.db, step.id, Next(s, step).db[step.id]);
    }
  }

  /** The rows that have a workspace after a step are those that had it, or it is new. */
  lemma {:induction false} WorkspaceComesFrom(s: State, step: Step, i: nat, w: Workspace)
    requires RowsOk(s) && Enabled(s, step) && Has(Next(s, step).db, i, w)
    ensures Has(s.db, i, w) || ((step.Create? || step.AddWorkspace?) && step.id == i && IsNew(s, w))
    ensures step.DeleteTenant? ==> step.id != i
    ensures step.DeleteWorkspace? ==> step.id != i || w.kind != step.t
  {
  }

  /** A step deletes only what is no longer there. */
  lemma {:induction false} DeletedIsGone(s: State, step: Step, i: nat, w: Workspace)
    requires RowsOk(s) && Enabled(s, step) && Has(Next(s, step).db, i, w)
    ensures w !in Next(s, step).deleted
  {
    WorkspaceComesFrom(s, step, i, w);
    if step.DeleteWorkspace? && w == s.db[step.id].builtIn[step.t] {
      assert ProperTenant(s.db[step.id]);
      assert Has(s.db, step.id, w);
    }
    if step.DeleteTenant? && w in s.db[step.id].builtIn.Values {
      assert ProperTenant(s.db[step.id]);
      assert Has(s.db, step.id, w);
    }
  }

  lemma {:induction false} RowsStayOk(s: State, step: Step)
    requires RowsOk(s) && Enabled(s, step)
    ensures RowsOk(Next(s, step))
  {
    var s' := Next(s, step);
    TenantsStayOk(s, step);
    forall i, w | Has(s'.db, i, w) ensures w !in s'.deleted {
      DeletedIsGone(s, step, i, w);
    }
    forall i, j, w | Has(s'.db, i, w) && Has(s'.db, j, w) ensures i == j {
      WorkspaceComesFrom(s, step, i, w);
      WorkspaceComesFrom(s, step, j, w);
    }
  }

  /** Whatever a step changes, an entry stays accounted for. */
  lemma {:induction false} AccountedStays(s: State, step: Step, e: Entry)
    requires RowsOk(s) && Enabled(s, step) && Accounted(s, e)
    ensures Accounted(Next(s, step), e)
  {
    var s' := Next(s, step);
    if e.w !in s'.deleted {
      var id :| BackedBy(s.db, e, id);
      assert e.w in s.db[id].builtIn.Values;
      assert BackedBy(s'.db, e, id);
    }
  }

  /** What a lookup reads from the database is accounted for. */
  lemma {:induction false} ReadIsAccounted(s: State, id: nat, org: Option<string>, t: WsType, e: Entry)
    requires RowsOk(s) && Refers(s.db, id, org) && e in ReadOf(s.db, id, org, t)
    ensures Accounted(s, e)
  {
    assert ProperTenant(s.db[id]);
    assert BackedBy(s.db, e, id);
  }

  /** Where the entries after a step come from. */
  lemma {:induction false} EntryComesFrom(s: State, step: Step, k: string)
    requires Enabled(s, step) && k in Next(s, step).cache
    ensures
      var w := Next(s, step).cache[k];
      || (k in s.cache && s.cache[k] == w)
      || (step.Fill? && step.entry == Entry(k, w))
      || (step.Lookup? && Entry(k, w) in ReadOf(s.db, step.id, step.org, step.t))
  {
  }

  lemma {:induction false} StepKeepsInv(s: State, step: Step)
    requires Inv(s) && Enabled(s, step)
    ensures Inv(Next(s, step))
  {
    var s' := Next(s, step);
    RowsStayOk(s, step);
    forall k | k in s'.cache ensures Accounted(s', Entry(k, s'.cache[k])) {
      var e := Entry(k, s'.cache[k]);
      EntryComesFrom(s, step, k);
      if step.Lookup? && e in ReadOf(s.db, step.id, step.org, step.t) {
        ReadIsAccounted(s, step.id, step.org, step.t, e);
      }
      AccountedStays(s, step, e);
    }
    forall e | e in s'.underWay ensures Accounted(s', e) {
      if step.Read? && e in ReadOf(s.db, step.id, step.org, step.t) {
        ReadIsAccounted(s, step.id, step.org, step.t, e);
      }
      AccountedStays(s, step, e);
    }
  }

  lemma {:induction false} InvOverRuns(states: seq<State>, steps: seq<Step>, i: nat)
    requires IsRun(states, steps) && i < |states|
    ensures Inv(states[i])
  {
    if i > 0 {
      InvOverRuns(states, steps, i - 1);
      StepKeepsInv(states[i - 1], steps[i - 1]);
    }
  }

  /** What the database answers was not deleted. */
  lemma {:induction false} DatabaseIsLive(s: State, id: nat, t: WsType)
    requires RowsOk(s) && FromDatabase(s.db, id, t).Some?
    ensures FromDatabase(s.db, id, t).value.kind == t && FromDatabase(s.db, id, t).value !in s.deleted
  {
    assert ProperTenant(s.db[id]);
    assert Has(s.db, id, FromDatabase(s.db, id, t).value);
  }

  /** The row behind a hit whose workspace was not deleted. */
  lemma {:induction false} HitComesFrom(s: State, org: Option<string>, t: WsType) returns (id: nat)
    requires Inv(s) && Hit(s.cache, org, t, true) && s.cache[KeyFor(org.value, t)] !in s.deleted
    ensures id in s.db && s.db[id].org == org
    ensures FromDatabase(s.db, id, t) == Some(s.cache[KeyFor(org.value, t)])
  {
    var e := Entry(KeyFor(org.value, t), s.cache[KeyFor(org.value, t)]);
    assert Accounted(s, e);
    id :| BackedBy(s.db, e, id);
    KeysAreDistinct(org.value, t, s.db[id].org.value, e.w.kind);
  }

  /** The lookup is answered from the cache with a workspace that was deleted. */
  predicate ServesDeleted(s: State, org: Option<string>, t: WsType, readable: bool) {
    Hit(s.cache, org, t, readable) && s.cache[KeyFor(org.value, t)] in s.deleted
  }

  /**
   While the invariant holds, the cached lookup and the uncached one give the same answer, except for a
   hit on behalf of a tenant object whose row is gone, or on a workspace that was deleted.
   */
  lemma {:induction false} LookupAgreesIff(s: State, step: Step)
    requires Inv(s) && step.Lookup? && Enabled(s, step)
    ensures Answer(s.db, s.cache, step.id, step.org, step.t, step.readable) == FromDatabase(s.db, step.id, step.t)
       <==> (Hit(s.cache, step.org, step.t, step.readable) ==>
               step.id in s.db && !ServesDeleted(s, step.org, step.t, step.readable))
  {
    if Hit(s.cache, step.org, step.t, step.readable) && !ServesDeleted(s, step.org, step.t, step.readable) {
      var id := HitComesFrom(s, step.org, step.t);
    } else if FromDatabase(s.db, step.id, step.t).Some? {
      DatabaseIsLive(s, step.id, step.t);
    }
  }

  /** Over every run: exactly which lookups answer what the database would. */
  lemma {:induction false} CacheRefinesDatabaseIff(states: seq<State>, steps: seq<Step>, i: nat)
    requires IsRun(states, steps) && i < |steps| && steps[i].Lookup?
    ensures
      var s, step := states[i], steps[i];
      Answer(s.db, s.cache, step.id, step.org, step.t, step.readable) == FromDatabase(s.db, step.id, step.t)
      <==> (Hit(s.cache, step.org, step.t, step.readable) ==>
              step.id in s.db && !ServesDeleted(s, step.org, step.t, step.readable))
  {
    InvOverRuns(states, steps, i);
    LookupAgreesIff(states[i], steps[i]);
  }

  /** Over every run, a hit on a workspace that was not deleted answers for the row that has the organisation. */
  lemma {:induction false} ServedByTheRow(states: seq<State>, steps: seq<Step>, i: nat) returns (id: nat)
    requires IsRun(states, steps) && i < |steps| && steps[i].Lookup?
    requires Hit(states[i].cache, steps[i].org, steps[i].t, steps[i].readable)
    requires !ServesDeleted(states[i], steps[i].org, steps[i].t, steps[i].readable)
    ensures
      var s, step := states[i], steps[i];
      && id in s.db && s.db[id].org == step.org
      && Answer(s.db, s.cache, step.id, step.org, step.t, step.readable) == FromDatabase(s.db, id, step.t)
  {
    InvOverRuns(states, steps, i);
    id := HitComesFrom(states[i], steps[i].org, steps[i].t);
  }

  /** No workspace is deleted without its invalidation, and no fill comes late. */
  predicate Tidy(step: Step) {
    !step.Fill? && !step.DeleteWorkspace? && (step.DeleteTenant? ==> step.invalidated)
  }

  /** No cached workspace was deleted. */
  ghost predicate CacheIsLive(s: State) {
    forall k :: k in s.cache ==> s.cache[k] !in s.deleted
  }

  /** An invalidation takes everything that is cached of the deleted tenant. */
  lemma {:induction false} SurvivorIsLive(s: State, id: nat, k: string)
    requires Inv(s) && CacheIsLive(s) && id in s.db && k in Next(s, DeleteTenant(id, true)).cache
    ensures s.cache[k] !in s.db[id].builtIn.Values
  {
    var e := Entry(k, s.cache[k]);
    assert Accounted(s, e);
    var i :| BackedBy(s.db, e, i);
    if i == id {
      assert ProperTenant(s.db[id]);
      ModelKeyGoesIff(s.db[id].org.value, s.db[id].org.value, e.w.kind);
      assert false;
    }
    forall t | t in s.db[id].builtIn ensures s.db[id].builtIn[t] != e.w {
      assert ProperTenant(s.db[id]);
      assert Has(s.db, id, s.db[id].builtIn[t]);
    }
  }

  lemma {:induction false} TidyStepKeepsLive(s: State, step: Step)
    requires Inv(s) && CacheIsLive(s) && Enabled(s, step) && Tidy(step)
    ensures CacheIsLive(Next(s, step))
  {
    var s' := Next(s, step);
    forall k | k in s'.cache ensures s'.cache[k] !in s'.deleted {
      EntryComesFrom(s, step, k);
      if step.DeleteTenant? {
        SurvivorIsLive(s, step.id, k);
      } else if step.Lookup? && FromDatabase(s.db, step.id, step.t).Some? {
        DatabaseIsLive(s, step.id, step.t);
      }
    }
  }

  lemma {:induction false} TidyCacheIsLive(states: seq<State>, steps: seq<Step>, i: nat)
    requires IsRun(states, steps) && i < |states| && forall j :: 0 <= j < i ==> Tidy(steps[j])
    ensures CacheIsLive(states[i])
  {
    if i > 0 {
      TidyCacheIsLive(states, steps, i - 1);
      InvOverRuns(states, steps, i - 1);
      TidyStepKeepsLive(states[i - 1], steps[i - 1]);
    }
  }

  /** In a tidy run, only a hit for an object whose row is gone answers anything else than the database. */
  lemma {:induction false} TidyRunAgreesIff(states: seq<State>, steps: seq<Step>, i: nat)
    requires IsRun(states, steps) && i < |steps| && steps[i].Lookup? && forall j :: 0 <= j < i ==> Tidy(steps[j])
    ensures
      var s, step := states[i], steps[i];
      Answer(s.db, s.cache, step.id, step.org, step.t, step.readable) == FromDatabase(s.db, step.id, step.t)
      <==> (Hit(s.cache, step.org, step.t, step.readable) ==> step.id in s.db)
  {
    TidyCacheIsLive(states, steps, i);
    CacheRefinesDatabaseIff(states, steps, i);
  }

  /** What the uncached lookup answers after a step that changes rows, and that nothing else changes it. */
  lemma {:induction false} DatabaseAfter(s: State, step: Step, i: nat, t: WsType)
    requires RowsOk(s) && Enabled(s, step)
    ensures
      var db' := Next(s, step).db;
      var was, now := FromDatabase(s.db, i, t), FromDatabase(db', i, t);
      && (step.Create? && i == step.id ==>
            now == if t in step.tenant.builtIn then Some(step.tenant.builtIn[t]) else None)
      && (step.Create? && i != step.id ==> now == was)
      && (step.AddWorkspace? ==> now == if i == step.id && t == step.w.kind then Some(step.w) else was)
      && (step.DeleteWorkspace? ==> now == if i == step.id && t == step.t then None else was)
      && (step.DeleteTenant? ==> now == if i == step.id then None else was)
      && (step.SetOrg? ==> now == was && step.id in db' && db'[step.id].org == Some(step.name))
      && (step.Lookup? || step.Read? || step.Fill? || step.Expire? || step.Invalidate? ==> db' == s.db)
  {
  }

  /** A deleted workspace is on record as deleted, and only a deleted one. */
  lemma {:induction false} DeletedAfter(s: State, step: Step, w: Workspace)
    requires RowsOk(s) && Enabled(s, step)
    ensures w in Next(s, step).deleted <==> w in s.deleted || (Live(s.db, w) && !Live(Next(s, step).db, w))
  {
    if w in Next(s, step).deleted && w !in s.deleted {
      assert ProperTenant(s.db[step.id]);
      assert Has(s.db, step.id, w);
      if Live(Next(s, step).db, w) {
        var i :| i in Next(s, step).db && Has(Next(s, step).db, i, w);
        DeletedIsGone(s, step, i, w);
        assert false;
      }
    }
    if Live(s.db, w) && !Live(Next(s, step).db, w) {
      var i :| i in s.db && Has(s.db, i, w);
      assert !Has(Next(s, step).db, i, w);
      assert w in s.db[i].builtIn.Values;
    }
  }

  /** What the steps on the cache do: an expired or invalidated key is gone, a filled one is there, others stay. */
  lemma {:induction false} CacheAfter(s: State, step: Step, k: string)
    requires Enabled(s, step)
    ensures
      var cache' := Next(s, step).cache;
      var same := k in cache' <==> k in s.cache;
      && (step.Fill? ==> if k == step.entry.key then k in cache' && cache'[k] == step.entry.w else same)
      && (step.Expire? ==> if k == step.key then k !in cache' else same)
      && (step.Invalidate? ==>
            (k in cache' <==> k in s.cache && (step.name == "" || !Invalidates(step.name, k))))
      && (step.DeleteTenant? ==>
            (k in cache' <==>
               k in s.cache
               && (step.invalidated && HasOrg(s.db[step.id].org) ==> !Invalidates(s.db[step.id].org.value, k))))
      && (step.Lookup? ==> k in s.cache ==> k in cache')
      && (step.Read? || step.Create? || step.SetOrg? || step.AddWorkspace? || step.DeleteWorkspace? ==>
            cache' == s.cache)
    ensures k in s.cache && k in Next(s, step).cache && !step.Fill? && !step.Lookup? ==>
      Next(s, step).cache[k] == s.cache[k]
  {
  }

  /** A lookup that had to ask the database and could write the cache is answered from it the next time. */
  lemma {:induction false} LookupThenHit(s: State, id: nat, org: Option<string>, t: WsType, readable: bool)
    requires RowsOk(s) && Enabled(s, Lookup(id, org, t, readable, true)) && HasOrg(org)
    requires !Hit(s.cache, org, t, readable) && FromDatabase(s.db, id, t).Some?
    ensures var s' := Next(s, Lookup(id, org, t, readable, true));
      Hit(s'.cache, org, t, true) && Answer(s'.db, s'.cache, id, org, t, true) == FromDatabase(s.db, id, t)
  {
    DatabaseIsLive(s, id, t);
  }

  const ACME := Some("acme")
  const ROOT := Workspace("w", Root)
  const FIRST := Tenant(ACME, map[Root := ROOT])
  const LOOKUP := Lookup(1, ACME, Root, true, true)

  /** The last step is a lookup for row 1 that the cache answers and the database would not. */
  ghost predicate EndsInDisagreement(states: seq<State>, steps: seq<Step>, w: Workspace) {
    && IsRun(states, steps) && steps != [] && steps[|steps| - 1] == LOOKUP
    && Answer(states[|steps| - 1].db, states[|steps| - 1].cache, 1, ACME, Root, true) == Some(w)
    && FromDatabase(states[|steps| - 1].db, 1, Root) == None
  }

  lemma {:induction false} Extended(states: seq<State>, steps: seq<Step>, step: Step)
    requires IsRun(states, steps) && Enabled(states[|steps|], step)
    ensures IsRun(states + [Next(states[|steps|], step)], steps + [step])
  {
  }

  /** Row 1 comes and goes. */
  lemma {:induction false} FirstRowGone() returns (states: seq<State>, steps: seq<Step>)
    ensures IsRun(states, steps) && steps == [Create(1, FIRST), DeleteTenant(1, true)]
    ensures states[2] == EMPTY.(deleted := {ROOT})
  {
    steps := [Create(1, FIRST), DeleteTenant(1, true)];
    var s1 := Next(EMPTY, Create(1, FIRST));
    states := [EMPTY, s1, Next(s1, DeleteTenant(1, true))];
    assert FIRST.builtIn[Root] == ROOT;
  }

  /** A tidy run to a stale object: row 1 is deleted, row 2 gets its organisation and fills the cache. */
  lemma {:induction false} StaleObjectDisagrees() returns (states: seq<State>, steps: seq<Step>)
    ensures EndsInDisagreement(states, steps, Workspace("v", Root))
    ensures forall i :: 0 <= i < |steps| ==> Tidy(steps[i])
  {
    var w := Workspace("v", Root);
    var second := Tenant(ACME, map[Root := w]);
    assert "w"[0] != "v"[0];
    states, steps := FirstRowGone();
    var s3 := Next(states[2], Create(2, second));
    Extended(states, steps, Create(2, second));
    states, steps := states + [s3], steps + [Create(2, second)];
    var fill := Lookup(2, ACME, Root, true, true);
    Extended(states, steps, fill);
    states, steps := states + [Next(s3, fill)], steps + [fill];
    Extended(states, steps, LOOKUP);
    states, steps := states + [Next(states[4], LOOKUP)], steps + [LOOKUP];
  }

  /** A run to a deleted workspace: the tenant stays, its workspace goes, and nobody invalidates the cache. */
  lemma {:induction false} DeletedWorkspaceIsServed() returns (states: seq<State>, steps: seq<Step>)
    ensures EndsInDisagreement(states, steps, ROOT) && 1 in states[|steps| - 1].db
  {
    steps := [Create(1, FIRST), LOOKUP, DeleteWorkspace(1, Root), LOOKUP];
    var s1 := Next(EMPTY, Create(1, FIRST));
    var s2 := Next(s1, LOOKUP);
    var s3 := Next(s2, DeleteWorkspace(1, Root));
    assert s3.db[1].builtIn == map[];
    states := [EMPTY, s1, s2, s3, Next(s3, LOOKUP)];
  }

  /** A run to a late fill: invalidating after the deletion does not stop a reader that read before it. */
  lemma {:induction false} LateFillIsServed() returns (states: seq<State>, steps: seq<Step>)
    ensures EndsInDisagreement(states, steps, ROOT)
    ensures forall i :: 0 <= i < |steps| && steps[i].DeleteTenant? ==> steps[i].invalidated
  {
    var entry := Entry(KeyFor("acme", Root), ROOT);
    steps := [Create(1, FIRST), Read(1, ACME, Root), DeleteTenant(1, true), Fill(entry), LOOKUP];
    var s1 := Next(EMPTY, Create(1, FIRST));
    var s2 := Next(s1, Read(1, ACME, Root));
    var s3 := Next(s2, DeleteTenant(1, true));
    var s4 := Next(s3, Fill(entry));
    states := [EMPTY, s1, s2, s3, s4, Next(s4, LOOKUP)];
  }
}
