/** Emitting the owner tuple of every custom role, in batches by primary key, while the table changes. */
module Keyset {
  import opened Prelude

  const CHUNK_SIZE := 500

  /** A custom role; its tenant has a resource id if it has an organisation. */
  datatype Role = Role(owner: Option<string>)

  type Table = map<nat, Role>

  datatype OwnerTuple = OwnerTuple(pk: nat, owner: string)

  /** `Unfinished` means that the batches given were not enough. */
  datatype Result = Finished | MissingOwner(pk: nat) | Unfinished

  predicate Ascending(s: seq<nat>) {
    forall i, j :: 0 <= i < j < |s| ==> s[i] < s[j]
  }

  function After(t: Table, last: nat): set<nat> {
    set k | k in t && k > last
  }

  method Smallest(s: set<nat>) returns (m: nat)
    requires s != {}
    ensures m in s && forall x :: x in s ==> m <= x
  {
    var rest := s;
    m :| m in rest;
    rest := rest - {m};
    while rest != {}
      invariant rest <= s && m in s
      invariant forall x :: x in s ==> x in rest || m <= x
    {
      var x :| x in rest;
      rest := rest - {x};
      if x < m {
        m := x;
      }
    }
  }

  /** The first keys after `last`, in order and without a gap, and all of them if the chunk is not full. */
  method TakeChunk(t: Table, last: nat) returns (chunk: seq<nat>)
    ensures Ascending(chunk) && |chunk| <= 500
    ensures forall i :: 0 <= i < |chunk| ==> chunk[i] in After(t, last)
    ensures chunk == [] ==> After(t, last) == {}
    ensures chunk != [] ==> forall k :: k in After(t, last) && k <= chunk[|chunk| - 1] ==> k in chunk
    ensures |chunk| < 500 ==> forall k :: k in After(t, last) ==> k in chunk
  {
    chunk := [];
    var rest := After(t, last);
    while |chunk| < CHUNK_SIZE && rest != {}
      invariant Ascending(chunk) && |chunk| <= CHUNK_SIZE
      invariant rest <= After(t, last)
      invariant forall i :: 0 <= i < |chunk| ==> chunk[i] in After(t, last)
      invariant forall i, k :: 0 <= i < |chunk| && k in rest ==> chunk[i] < k
      invariant forall k :: k in After(t, last) ==> k in rest || k in chunk
      invariant chunk == [] ==> rest == After(t, last)
      decreases rest
    {
      var m := Smallest(rest);
      rest := rest - {m};
      chunk := chunk + [m];
    }
  }

  function Pks(emitted: seq<OwnerTuple>): seq<nat> {
    seq(|emitted|, i requires 0 <= i < |emitted| => emitted[i].pk)
  }

  /** `k` was there in every one of the first `n` batches. */
  ghost predicate ThereThroughout(tables: seq<Table>, n: nat, k: nat)
    requires n <= |tables|
  {
    forall b :: 0 <= b < n ==> k in tables[b]
  }

  /** An emitted tuple states the owner that its role had in some batch. */
  ghost predicate TrueOnce(tables: seq<Table>, n: nat, e: OwnerTuple)
    requires n <= |tables|
  {
    exists b :: 0 <= b < n && e.pk in tables[b] && tables[b][e.pk].owner == Some(e.owner)
  }

  method EmitChunk(t: Table, chunk: seq<nat>) returns (out: seq<OwnerTuple>, missing: Option<nat>)
    requires forall i :: 0 <= i < |chunk| ==> chunk[i] in t
    ensures missing.None? ==> Pks(out) == chunk && forall e :: e in out ==> e.pk in t && t[e.pk].owner == Some(e.owner)
    ensures missing.Some? ==> missing.value in chunk && t[missing.value].owner.None?
    ensures (forall i :: 0 <= i < |chunk| ==> t[chunk[i]].owner.Some?) ==> missing.None?
  {
    out := [];
    for i := 0 to |chunk|
      invariant |out| == i
      invariant forall j :: 0 <= j < i ==> out[j].pk == chunk[j] && t[chunk[j]].owner == Some(out[j].owner)
    {
      if t[chunk[i]].owner.None? {
        return out, Some(chunk[i]);
      }
      out := out + [OwnerTuple(chunk[i], t[chunk[i]].owner.value)];
    }
    missing := None;
  }

  /** The batches so far have emitted, once each and in order, every key up to `last` that was there throughout. */
  ghost predicate Progress(tables: seq<Table>, n: nat, last: nat, emitted: seq<OwnerTuple>)
    requires n <= |tables|
  {
    && Ascending(Pks(emitted))
    && (forall i :: 0 <= i < |emitted| ==> emitted[i].pk <= last && TrueOnce(tables, n, emitted[i]))
    && (forall k :: 0 < k <= last && ThereThroughout(tables, n, k) ==> k in Pks(emitted))
  }

  lemma {:induction false} OneMoreBatch(
      tables: seq<Table>, n: nat, last: nat, emitted: seq<OwnerTuple>, chunk: seq<nat>, out: seq<OwnerTuple>)
    requires n < |tables| && Progress(tables, n, last, emitted)
    requires chunk != [] && Ascending(chunk) && Pks(out) == chunk
    requires forall i :: 0 <= i < |chunk| ==> chunk[i] in After(tables[n], last)
    requires forall k :: k in After(tables[n], last) && k <= chunk[|chunk| - 1] ==> k in chunk
    requires forall e :: e in out ==> e.pk in tables[n] && tables[n][e.pk].owner == Some(e.owner)
    ensures Progress(tables, n + 1, chunk[|chunk| - 1], emitted + out)
  {
    var more := emitted + out;
    assert Pks(more) == Pks(emitted) + chunk;
    assert chunk[0] > last && forall i :: 0 <= i < |chunk| ==> chunk[i] <= chunk[|chunk| - 1];
    forall i | 0 <= i < |more| ensures more[i].pk <= chunk[|chunk| - 1] && TrueOnce(tables, n + 1, more[i]) {
      if i < |emitted| {
        assert more[i] == emitted[i] && TrueOnce(tables, n, emitted[i]);
        var b :| 0 <= b < n && more[i].pk in tables[b] && tables[b][more[i].pk].owner == Some(more[i].owner);
      } else {
        assert more[i] in out;
        assert more[i].pk == chunk[i - |emitted|];
      }
    }
    forall k | 0 < k <= chunk[|chunk| - 1] && ThereThroughout(tables, n + 1, k) ensures k in Pks(more) {
      assert k in tables[n];
      assert ThereThroughout(tables, n, k);
    }
  }

  lemma {:induction false} SeenStaysSeen(tables: seq<Table>, n: nat, emitted: seq<OwnerTuple>)
    requires n < |tables| && forall i :: 0 <= i < |emitted| ==> TrueOnce(tables, n, emitted[i])
    ensures forall i :: 0 <= i < |emitted| ==> TrueOnce(tables, n + 1, emitted[i])
  {
    forall i | 0 <= i < |emitted| ensures TrueOnce(tables, n + 1, emitted[i]) {
      var e := emitted[i];
      assert TrueOnce(tables, n, e);
      var b :| 0 <= b < n && e.pk in tables[b] && tables[b][e.pk].owner == Some(e.owner);
    }
  }

  lemma {:induction false} CountDistinct(emitted: seq<OwnerTuple>, n: nat)
    requires n <= |emitted| && Ascending(Pks(emitted))
    ensures |set i | 0 <= i < n :: emitted[i].pk| == n
  {
    if n > 0 {
      CountDistinct(emitted, n - 1);
      var before := set i | 0 <= i < n - 1 :: emitted[i].pk;
      assert (set i | 0 <= i < n :: emitted[i].pk) == before + {emitted[n - 1].pk};
      forall i | 0 <= i < n - 1 ensures emitted[i].pk < emitted[n - 1].pk {
        assert Pks(emitted)[i] < Pks(emitted)[n - 1];
      }
    }
  }

  lemma {:induction false} NoMoreThanKeys(t: Table, emitted: seq<OwnerTuple>)
    requires Ascending(Pks(emitted)) && forall i :: 0 <= i < |emitted| ==> emitted[i].pk in t
    ensures |emitted| <= |t|
  {
    var keys := set i | 0 <= i < |emitted| :: emitted[i].pk;
    CountDistinct(emitted, |emitted|);
    assert t.Keys == keys + (t.Keys - keys);
  }

  /** On a table that does not change, no more tuples are emitted than it has roles. */
  lemma {:induction false} FixedTableBounds(t: Table, tables: seq<Table>, emitted: seq<OwnerTuple>)
    requires forall b :: 0 <= b < |tables| ==> tables[b] == t
    requires Ascending(Pks(emitted)) && forall i :: 0 <= i < |emitted| ==> TrueOnce(tables, |tables|, emitted[i])
    ensures |emitted| <= |t|
  {
    forall i | 0 <= i < |emitted| ensures emitted[i].pk in t {
      assert TrueOnce(tables, |tables|, emitted[i]);
    }
    NoMoreThanKeys(t, emitted);
  }

  /**
   The batch loop, batch `n` on table `tables[n]`. No role is emitted twice. If the loop finishes, every
   role that was there in all batches was emitted. On a table that does not change it finishes.
   */
  method ReplicateOwners(tables: seq<Table>) returns (result: Result, emitted: seq<OwnerTuple>, used: nat, count: nat)
    ensures used <= |tables| && count == |emitted|
    ensures Ascending(Pks(emitted))
    ensures forall i :: 0 <= i < |emitted| ==> TrueOnce(tables, used, emitted[i])
    ensures result.Finished? ==> forall k :: k > 0 && ThereThroughout(tables, used, k) ==> k in Pks(emitted)
    ensures result.MissingOwner? ==>
      used > 0 && result.pk in tables[used - 1] && tables[used - 1][result.pk].owner.None?
    ensures tables != [] && |tables| > |tables[0]| && (forall b :: 0 <= b < |tables| ==> tables[b] == tables[0]) ==>
      !result.Unfinished?
  {
    emitted, used, count := [], 0, 0;
    var last := 0;
    while used < |tables|
      invariant used <= |tables| && count == |emitted| && used <= |emitted|
      invariant Progress(tables, used, last, emitted)
    {
      var t := tables[used];
      var chunk := TakeChunk(t, last);
      used := used + 1;
      if chunk == [] {
        forall k | k > 0 && ThereThroughout(tables, used, k) ensures k in Pks(emitted) {
          assert k in tables[used - 1];
          assert k !in After(t, last);
          assert ThereThroughout(tables, used - 1, k);
        }
        SeenStaysSeen(tables, used - 1, emitted);
        return Finished, emitted, used, count;
      }
      var out, missing := EmitChunk(t, chunk);
      if missing.Some? {
        SeenStaysSeen(tables, used - 1, emitted);
        return MissingOwner(missing.value), emitted, used, count;
      }
      OneMoreBatch(tables, used - 1, last, emitted, chunk, out);
      emitted, count := emitted + out, count + |out|;
      last := chunk[|chunk| - 1];
      assert |out| == |Pks(out)| == |chunk|;
    }
    if tables != [] && forall b :: 0 <= b < |tables| ==> tables[b] == tables[0] {
      FixedTableBounds(tables[0], tables, emitted);
    }
    result := Unfinished;
  }
}
