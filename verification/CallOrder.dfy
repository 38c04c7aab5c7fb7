/**
 Which sequences of delete and write calls leave a store that redelivery repairs, whatever the messages
 carry: exactly those whose last calls for the messages already left behind came in the order of the log.
 */
module CallOrder {
  import opened Prelude
  import opened TupleLog
  import opened Replication

  /** A call that took effect. */
  datatype Effect = Effect(kind: CallKind, offset: nat)

  function EffectsOf(events: seq<Event>): seq<Effect> {
    if events == [] then []
    else
      var before := EffectsOf(events[..|events| - 1]);
      var e := events[|events| - 1];
      if e.Call? && e.applied then before + [Effect(e.kind, e.offset)] else before
  }

  /** The message is one that the consumer sends calls for. */
  predicate Callable(m: Message) {
    m.Batch? && (m.remove != {} || m.add != {})
  }

  ghost predicate Fits(w: seq<Effect>, log: seq<Message>) {
    forall k :: 0 <= k < |w| ==> w[k].offset < |log| && Callable(log[w[k].offset])
  }

  function Effected(s: set<Tuple>, m: Message, kind: CallKind): set<Tuple>
    requires m.Batch?
  {
    if kind.Delete? then s - m.remove else s + m.add
  }

  /** The store after the calls. */
  ghost function Outcome(base: set<Tuple>, log: seq<Message>, w: seq<Effect>): set<Tuple>
    requires Fits(w, log)
  {
    if w == [] then base
    else Effected(Outcome(base, log, w[..|w| - 1]), log[w[|w| - 1].offset], w[|w| - 1].kind)
  }

  /** Where `e` happened last; -1 if it never did. */
  function Last(w: seq<Effect>, e: Effect): (r: int)
    ensures -1 <= r < |w|
    ensures r >= 0 ==> w[r] == e
    ensures forall k :: r < k < |w| ==> w[k] != e
  {
    if w == [] then -1 else if w[|w| - 1] == e then |w| - 1 else Last(w[..|w| - 1], e)
  }

  predicate DeletedThenWritten(w: seq<Effect>, p: nat) {
    0 <= Last(w, Effect(Delete, p)) < Last(w, Effect(Write, p))
  }

  predicate WrittenBefore(w: seq<Effect>, p: nat, q: nat) {
    Last(w, Effect(Write, p)) < Last(w, Effect(Delete, q))
  }

  /** The last delete and the last write of the messages below `v` came in log order: D0 W0 D1 W1 and so on. */
  ghost predicate InOrder(w: seq<Effect>, log: seq<Message>, v: nat)
    requires v <= |log|
  {
    && (forall p: nat :: p < v && Callable(log[p]) ==> DeletedThenWritten(w, p))
    && (forall p: nat, q: nat :: p < q < v && Callable(log[p]) && Callable(log[q]) ==> WrittenBefore(w, p, q))
  }

  predicate Adds(log: seq<Message>, e: Effect, t: Tuple)
    requires e.offset < |log| && log[e.offset].Batch?
  {
    e.kind.Write? && t in log[e.offset].add
  }

  predicate Removes(log: seq<Message>, e: Effect, t: Tuple)
    requires e.offset < |log| && log[e.offset].Batch?
  {
    e.kind.Delete? && t in log[e.offset].remove
  }

  lemma {:induction false} StaysAbsent(base: set<Tuple>, log: seq<Message>, w: seq<Effect>, k: nat, t: Tuple)
    requires Fits(w, log) && k <= |w| && t !in Outcome(base, log, w[..k])
    requires forall j :: k <= j < |w| ==> !Adds(log, w[j], t)
    ensures t !in Outcome(base, log, w)
  {
    if k == |w| {
      assert w[..k] == w;
    } else {
      assert w[..|w| - 1][..k] == w[..k];
      StaysAbsent(base, log, w[..|w| - 1], k, t);
    }
  }

  lemma {:induction false} StaysPresent(base: set<Tuple>, log: seq<Message>, w: seq<Effect>, k: nat, t: Tuple)
    requires Fits(w, log) && k <= |w| && t in Outcome(base, log, w[..k])
    requires forall j :: k <= j < |w| ==> !Removes(log, w[j], t)
    ensures t in Outcome(base, log, w)
  {
    if k == |w| {
      assert w[..k] == w;
    } else {
      assert w[..|w| - 1][..k] == w[..k];
      StaysPresent(base, log, w[..|w| - 1], k, t);
    }
  }

  /** What the call at `k` does to `t`. */
  lemma {:induction false} OneCall(base: set<Tuple>, log: seq<Message>, w: seq<Effect>, k: nat, t: Tuple)
    requires Fits(w, log) && k < |w|
    ensures Adds(log, w[k], t) ==> t in Outcome(base, log, w[..k + 1])
    ensures Removes(log, w[k], t) ==> t !in Outcome(base, log, w[..k + 1])
  {
    assert w[..k + 1][..k] == w[..k];
  }

  /** The last message below `v` that touches `t`; -1 if there is none. */
  function LastTouching(log: seq<Message>, v: nat, t: Tuple): (r: int)
    requires v <= |log|
    ensures -1 <= r < v
    ensures r >= 0 ==> Touches(log[r], t)
    ensures forall k :: r < k < v ==> !Touches(log[k], t)
  {
    if v == 0 then -1 else if Touches(log[v - 1], t) then v - 1 else LastTouching(log, v - 1, t)
  }

  /** In-order application gives `t` what the last touching message says. */
  lemma {:induction false} ReplayDecided(base: set<Tuple>, log: seq<Message>, v: nat, t: Tuple)
    requires v <= |log|
    ensures
      var q := LastTouching(log, v, t);
      t in Replay(base, log[..v]) <==> if q < 0 then t in base else t in log[q].add
  {
    if v > 0 {
      assert log[..v][..v - 1] == log[..v - 1];
      ReplayDecided(base, log, v - 1, t);
    }
  }

  lemma {:induction false} UntouchedByCalls(base: set<Tuple>, log: seq<Message>, w: seq<Effect>, t: Tuple)
    requires Fits(w, log) && forall p :: 0 <= p < |log| ==> !Touches(log[p], t)
    ensures t in Outcome(base, log, w) <==> t in base
  {
    if t in base {
      StaysPresent(base, log, w, 0, t);
    } else {
      StaysAbsent(base, log, w, 0, t);
    }
  }

  /** `q` is the last message that touches `t`, and redelivery leaves it behind. */
  ghost predicate Decides(log: seq<Message>, v: nat, q: nat, t: Tuple) {
    q < v <= |log| && Touches(log[q], t) && forall p :: q < p < |log| ==> !Touches(log[p], t)
  }

  /** After the last write of the deciding message no call removes the tuple. */
  lemma {:induction false} NoLaterRemoval(log: seq<Message>, w: seq<Effect>, v: nat, q: nat, t: Tuple, j: nat)
    requires Fits(w, log) && Decides(log, v, q, t) && InOrder(w, log, v) && Last(w, Effect(Write, q)) < j < |w|
    ensures !Removes(log, w[j], t)
  {
    var e := w[j];
    assert DeletedThenWritten(w, q);
    assert e.offset < q ==> DeletedThenWritten(w, e.offset) && WrittenBefore(w, e.offset, q);
    assert e == Effect(e.kind, e.offset);
  }

  /** After the last delete of the deciding message no earlier one is written. */
  lemma {:induction false} NoLaterAddition(log: seq<Message>, w: seq<Effect>, v: nat, q: nat, t: Tuple, j: nat)
    requires Fits(w, log) && Decides(log, v, q, t) && InOrder(w, log, v) && Last(w, Effect(Delete, q)) < j < |w|
    requires t !in log[q].add
    ensures !Adds(log, w[j], t)
  {
    var e := w[j];
    assert e.offset < q ==> WrittenBefore(w, e.offset, q);
    assert e == Effect(e.kind, e.offset);
  }

  lemma {:induction false} AddedLast(base: set<Tuple>, log: seq<Message>, w: seq<Effect>, v: nat, q: nat, t: Tuple)
    requires Fits(w, log) && Decides(log, v, q, t) && InOrder(w, log, v) && t in log[q].add
    ensures t in Outcome(base, log, w)
  {
    var k := Last(w, Effect(Write, q));
    assert DeletedThenWritten(w, q);
    OneCall(base, log, w, k, t);
    forall j | k + 1 <= j < |w| ensures !Removes(log, w[j], t) {
      NoLaterRemoval(log, w, v, q, t, j);
    }
    StaysPresent(base, log, w, k + 1, t);
  }

  lemma {:induction false} RemovedLast(base: set<Tuple>, log: seq<Message>, w: seq<Effect>, v: nat, q: nat, t: Tuple)
    requires Fits(w, log) && Decides(log, v, q, t) && InOrder(w, log, v) && t !in log[q].add
    ensures t !in Outcome(base, log, w)
  {
    var k := Last(w, Effect(Delete, q));
    assert DeletedThenWritten(w, q);
    OneCall(base, log, w, k, t);
    forall j | k + 1 <= j < |w| ensures !Adds(log, w[j], t) {
      NoLaterAddition(log, w, v, q, t, j);
    }
    StaysAbsent(base, log, w, k + 1, t);
  }

  /** Calls that end in log order leave a store that redelivery from `v` repairs. */
  lemma {:induction false} InOrderIsRecoverable(base: set<Tuple>, log: seq<Message>, w: seq<Effect>, v: nat)
    requires Fits(w, log) && v <= |log| && InOrder(w, log, v)
    ensures Recoverable(base, Outcome(base, log, w), log, v, |log|)
  {
    forall t | !Touched(log, v, |log|, t)
      ensures t in Outcome(base, log, w) <==> t in Replay(base, log[..v])
    {
      ReplayDecided(base, log, v, t);
      var q := LastTouching(log, v, t);
      assert forall p :: q < p < |log| ==> !Touches(log[p], t);
      assert q >= 0 ==> Decides(log, v, q, t);
      if q < 0 {
        UntouchedByCalls(base, log, w, t);
      } else if t in log[q].add {
        AddedLast(base, log, w, v, q, t);
      } else {
        RemovedLast(base, log, w, v, q, t);
      }
    }
  }

  /** The same kind of message at every offset, with the same notice: only the tuples may differ. */
  ghost predicate SameShape(log: seq<Message>, other: seq<Message>) {
    && |log| == |other|
    && forall i :: 0 <= i < |log| ==>
         if Callable(log[i]) then Callable(other[i]) && other[i].notice == log[i].notice else other[i] == log[i]
  }

  const LOST := Tuple("rbac/workspace:w", "parent", "rbac/workspace:p")
  const OTHER := Tuple("rbac/workspace:v", "parent", "rbac/workspace:p")

  function WitnessAt(m: Message, removes: bool, adds: bool): Message {
    if !Callable(m) then m
    else Batch(if removes then {LOST} else {}, if adds then {LOST, OTHER} else {OTHER}, m.notice)
  }

  /** A log of the same shape in which only the messages `remove` and `add` concern the lost tuple. */
  ghost function Witness(log: seq<Message>, remove: set<nat>, add: set<nat>): (r: seq<Message>)
    ensures |r| == |log|
    ensures forall i :: 0 <= i < |log| ==> r[i] == WitnessAt(log[i], i in remove, i in add)
  {
    seq(|log|, i requires 0 <= i < |log| => WitnessAt(log[i], i in remove, i in add))
  }

  /** The calls `w` with the messages `log` lose a tuple for good if redelivery starts from `v`. */
  ghost predicate Loses(base: set<Tuple>, log: seq<Message>, w: seq<Effect>, v: nat)
    requires v <= |log|
  {
    Fits(w, log) && !Recoverable(base, Outcome(base, log, w), log, v, |log|)
  }

  /** In the witness, the last message that concerns the lost tuple decides what it should be. */
  lemma {:induction false} WitnessDecided(
      base: set<Tuple>, log: seq<Message>, remove: set<nat>, add: set<nat>, v: nat, q: nat)
    requires q < v <= |log| && Callable(log[q]) && q in remove + add
    requires forall i :: i in remove + add ==> i <= q
    ensures LOST in Replay(base, Witness(log, remove, add)[..v]) <==> q in add
    ensures !Touched(Witness(log, remove, add), v, |log|, LOST)
  {
    var other := Witness(log, remove, add);
    assert Touches(other[q], LOST);
    assert forall k :: q < k < |log| ==> !Touches(other[k], LOST);
    ReplayDecided(base, other, v, LOST);
  }

  lemma {:induction false} DeleteMissing(log: seq<Message>, w: seq<Effect>, v: nat, p: nat)
    requires Fits(w, log) && p < v <= |log| && Callable(log[p]) && Last(w, Effect(Delete, p)) < 0
    ensures Loses({LOST}, Witness(log, {p}, {}), w, v)
  {
    var other := Witness(log, {p}, {});
    forall j | 0 <= j < |w| ensures !Removes(other, w[j], LOST) {
      assert w[j] == Effect(w[j].kind, w[j].offset);
    }
    StaysPresent({LOST}, other, w, 0, LOST);
    WitnessDecided({LOST}, log, {p}, {}, v, p);
  }

  lemma {:induction false} DeleteAfterWrite(log: seq<Message>, w: seq<Effect>, v: nat, p: nat)
    requires Fits(w, log) && p < v <= |log| && Callable(log[p])
    requires Last(w, Effect(Delete, p)) >= 0 && Last(w, Effect(Write, p)) <= Last(w, Effect(Delete, p))
    ensures Loses({}, Witness(log, {p}, {p}), w, v)
  {
    var other := Witness(log, {p}, {p});
    var k := Last(w, Effect(Delete, p));
    OneCall({}, other, w, k, LOST);
    forall j | k + 1 <= j < |w| ensures !Adds(other, w[j], LOST) {
      assert w[j] == Effect(w[j].kind, w[j].offset);
    }
    StaysAbsent({}, other, w, k + 1, LOST);
    WitnessDecided({}, log, {p}, {p}, v, p);
  }

  lemma {:induction false} WriteTooLate(log: seq<Message>, w: seq<Effect>, v: nat, p: nat, q: nat)
    requires Fits(w, log) && p < q < v <= |log| && Callable(log[p]) && Callable(log[q])
    requires Last(w, Effect(Write, p)) > Last(w, Effect(Delete, q))
    ensures Loses({}, Witness(log, {q}, {p}), w, v)
  {
    var other := Witness(log, {q}, {p});
    var k := Last(w, Effect(Write, p));
    OneCall({}, other, w, k, LOST);
    forall j | k + 1 <= j < |w| ensures !Removes(other, w[j], LOST) {
      assert w[j] == Effect(w[j].kind, w[j].offset);
    }
    StaysPresent({}, other, w, k + 1, LOST);
    WitnessDecided({}, log, {q}, {p}, v, q);
  }

  lemma {:induction false} WitnessHasShape(log: seq<Message>, remove: set<nat>, add: set<nat>)
    ensures SameShape(log, Witness(log, remove, add))
  {
  }

  lemma {:induction false} UnfinishedLoses(log: seq<Message>, w: seq<Effect>, v: nat, p: nat)
    returns (base: set<Tuple>, remove: set<nat>, add: set<nat>)
    requires Fits(w, log) && p < v <= |log| && Callable(log[p]) && !DeletedThenWritten(w, p)
    ensures Loses(base, Witness(log, remove, add), w, v)
  {
    if Last(w, Effect(Delete, p)) < 0 {
      base, remove, add := {LOST}, {p}, {};
      DeleteMissing(log, w, v, p);
    } else {
      base, remove, add := {}, {p}, {p};
      DeleteAfterWrite(log, w, v, p);
    }
  }

  lemma {:induction false} SwappedLoses(log: seq<Message>, w: seq<Effect>, v: nat, p: nat, q: nat)
    requires Fits(w, log) && p < q < v <= |log| && Callable(log[p]) && Callable(log[q])
    requires DeletedThenWritten(w, q) && !WrittenBefore(w, p, q)
    ensures Loses({}, Witness(log, {q}, {p}), w, v)
  {
    assert w[Last(w, Effect(Delete, q))] != Effect(Write, p);
    WriteTooLate(log, w, v, p, q);
  }

  /** Calls that end in any other order lose a tuple for some messages of the same shape. */
  lemma {:induction false} OutOfOrderLoses(log: seq<Message>, w: seq<Effect>, v: nat)
    returns (base: set<Tuple>, other: seq<Message>)
    requires Fits(w, log) && v <= |log| && !InOrder(w, log, v)
    ensures SameShape(log, other) && Loses(base, other, w, v)
  {
    var remove, add;
    if p: nat :| p < v && Callable(log[p]) && !DeletedThenWritten(w, p) {
      base, remove, add := UnfinishedLoses(log, w, v, p);
    } else {
      var p: nat, q: nat :| p < q < v && Callable(log[p]) && Callable(log[q]) && !WrittenBefore(w, p, q);
      base, remove, add := {}, {q}, {p};
      SwappedLoses(log, w, v, p, q);
    }
    other := Witness(log, remove, add);
    WitnessHasShape(log, remove, add);
  }

  /**
   Whatever the messages carry, redelivery from `v` repairs what the calls `w` left: exactly when the
   last calls for the messages below `v` came in log order.
   */
  lemma {:induction false} RepairableIff(log: seq<Message>, w: seq<Effect>, v: nat)
    requires Fits(w, log) && v <= |log|
    ensures (forall base, other :: SameShape(log, other) ==> !Loses(base, other, w, v)) <==> InOrder(w, log, v)
  {
    if InOrder(w, log, v) {
      forall base, other | SameShape(log, other) ensures !Loses(base, other, w, v) {
        assert InOrder(w, other, v);
        InOrderIsRecoverable(base, other, w, v);
      }
    } else {
      var base, other := OutOfOrderLoses(log, w, v);
    }
  }

  /** No message after `p` below `v` is one that calls are sent for. */
  ghost predicate IsLast(log: seq<Message>, p: nat, v: nat)
    requires v <= |log|
  {
    forall q: nat :: p < q < v ==> !Callable(log[q])
  }

  /** The call is for a message at or past `v`, or it writes the last message below `v` again. */
  ghost predicate MayFollow(e: Effect, log: seq<Message>, v: nat)
    requires v <= |log|
  {
    e.offset >= v || (e.kind.Write? && IsLast(log, e.offset, v))
  }

  lemma {:induction false} LastAppend(w: seq<Effect>, e: Effect, f: Effect)
    ensures Last(w + [e], f) == if e == f then |w| else Last(w, f)
  {
    assert (w + [e])[..|w|] == w;
  }

  lemma {:induction false} FollowsInOrder(w: seq<Effect>, e: Effect, log: seq<Message>, v: nat)
    requires v <= |log| && InOrder(w, log, v) && MayFollow(e, log, v)
    ensures InOrder(w + [e], log, v)
  {
    forall p: nat | p < v && Callable(log[p]) ensures DeletedThenWritten(w + [e], p) {
      assert DeletedThenWritten(w, p);
      LastAppend(w, e, Effect(Delete, p));
      LastAppend(w, e, Effect(Write, p));
    }
    forall p: nat, q: nat | p < q < v && Callable(log[p]) && Callable(log[q]) ensures WrittenBefore(w + [e], p, q) {
      assert WrittenBefore(w, p, q);
      LastAppend(w, e, Effect(Write, p));
      LastAppend(w, e, Effect(Delete, q));
    }
  }

  /** One call more keeps the order exactly when it may follow. */
  lemma {:induction false} MayFollowIff(w: seq<Effect>, e: Effect, log: seq<Message>, v: nat)
    requires v <= |log| && InOrder(w, log, v) && e.offset < |log| && Callable(log[e.offset])
    ensures InOrder(w + [e], log, v) <==> MayFollow(e, log, v)
  {
    if MayFollow(e, log, v) {
      FollowsInOrder(w, e, log, v);
    } else if e.kind.Delete? {
      LastAppend(w, e, Effect(Delete, e.offset));
      LastAppend(w, e, Effect(Write, e.offset));
      assert !DeletedThenWritten(w + [e], e.offset);
    } else {
      var q: nat :| e.offset < q < v && Callable(log[q]);
      LastAppend(w, e, Effect(Write, e.offset));
      LastAppend(w, e, Effect(Delete, q));
      assert !WrittenBefore(w + [e], e.offset, q);
    }
  }
}
