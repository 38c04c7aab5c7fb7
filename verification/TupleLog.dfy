/**
 The log of replication messages and what applying it to the tuple store means.

 A message carries the relations to remove and the relations to add; the consumer sends the
 removals first and the additions second. Tuple writes and deletes are idempotent set operations.
 */
module TupleLog {
  import opened Prelude

  datatype Tuple = Tuple(resource: string, relation: string, subject: string)

  /** A completion notice: the channel and the payload the consumer sends after applying a batch. */
  datatype Notice = Notice(channel: string, payload: string)

  /**
   - `Tombstone` is a record without a value.
   - `Malformed` is a record that the validator rejects before any remote call.
   - `Batch` is a valid replication message; `notice` is its completion notice, if it asks for one.
   */
  datatype Message =
    | Tombstone
    | Malformed
    | Batch(remove: set<Tuple>, add: set<Tuple>, notice: Option<Notice>)

  function Apply(s: set<Tuple>, m: Message): set<Tuple> {
    if m.Batch? then (s - m.remove) + m.add else s
  }

  /** The messages of `log` applied to `s` once each, in order. */
  function Replay(s: set<Tuple>, log: seq<Message>): set<Tuple> {
    if log == [] then s else Apply(Replay(s, log[..|log| - 1]), log[|log| - 1])
  }

  predicate Touches(m: Message, t: Tuple) {
    m.Batch? && (t in m.remove || t in m.add)
  }

  ghost predicate Touched(log: seq<Message>, lo: nat, hi: nat, t: Tuple)
    requires hi <= |log|
  {
    exists i :: lo <= i < hi && Touches(log[i], t)
  }

  /**
   `s` can be brought back to the state after `log[..hi]` by redelivering from `lo`: outside the
   tuples that the redelivered messages touch, `s` is already what `log[..lo]` makes it.
   */
  ghost predicate Recoverable(base: set<Tuple>, s: set<Tuple>, log: seq<Message>, lo: nat, hi: nat)
    requires lo <= |log| && hi <= |log|
  {
    forall t :: !Touched(log, lo, hi, t) ==> (t in s <==> t in Replay(base, log[..lo]))
  }

  lemma {:induction false} ReplayAppend(s: set<Tuple>, log: seq<Message>, mid: nat, hi: nat)
    requires mid <= hi <= |log|
    ensures Replay(s, log[..hi]) == Replay(Replay(s, log[..mid]), log[mid..hi])
  {
    if mid < hi {
      ReplayAppend(s, log, mid, hi - 1);
      assert log[..hi][..hi - 1] == log[..hi - 1];
      assert log[mid..hi][..hi - mid - 1] == log[mid..hi - 1];
    }
  }

  /** After one touching message, where the replay started from no longer matters for `t`. */
  lemma {:induction false} LastTouchDecides(
      s: set<Tuple>, s': set<Tuple>, log: seq<Message>, lo: nat, hi: nat, t: Tuple)
    requires lo <= hi <= |log|
    requires Touched(log, lo, hi, t) || (t in s <==> t in s')
    ensures t in Replay(s, log[lo..hi]) <==> t in Replay(s', log[lo..hi])
  {
    if lo < hi {
      assert log[lo..hi][..hi - lo - 1] == log[lo..hi - 1];
      if !Touches(log[hi - 1], t) {
        LastTouchDecides(s, s', log, lo, hi - 1, t);
      }
    }
  }

  lemma {:induction false} UntouchedStays(s: set<Tuple>, log: seq<Message>, lo: nat, hi: nat, t: Tuple)
    requires lo <= hi <= |log|
    requires !Touched(log, lo, hi, t)
    ensures t in Replay(s, log[lo..hi]) <==> t in s
  {
    if lo < hi {
      assert log[lo..hi][..hi - lo - 1] == log[lo..hi - 1];
      assert !Touches(log[hi - 1], t);
      UntouchedStays(s, log, lo, hi - 1, t);
    }
  }

  /**
   Redelivery from `lo` converges to one in-order application of `log[..hi]` exactly when the
   store is recoverable from `lo`.
   */
  lemma {:induction false} RecoverableIff(base: set<Tuple>, s: set<Tuple>, log: seq<Message>, lo: nat, hi: nat)
    requires lo <= hi <= |log|
    ensures Recoverable(base, s, log, lo, hi)
       <==> Replay(s, log[lo..hi]) == Replay(base, log[..hi])
  {
    var from := Replay(base, log[..lo]);
    ReplayAppend(base, log, lo, hi);
    if Recoverable(base, s, log, lo, hi) {
      forall t ensures t in Replay(s, log[lo..hi]) <==> t in Replay(from, log[lo..hi]) {
        LastTouchDecides(s, from, log, lo, hi, t);
      }
    }
    if Replay(s, log[lo..hi]) == Replay(base, log[..hi]) {
      forall t | !Touched(log, lo, hi, t) ensures t in s <==> t in from {
        UntouchedStays(s, log, lo, hi, t);
        UntouchedStays(from, log, lo, hi, t);
      }
    }
  }

  /** Rewinding further back never loses recoverability. */
  lemma {:induction false} RecoverableFromEarlier(
      base: set<Tuple>, s: set<Tuple>, log: seq<Message>, lo: nat, mid: nat, hi: nat)
    requires lo <= mid <= hi <= |log|
    requires Recoverable(base, s, log, mid, hi)
    ensures Recoverable(base, s, log, lo, hi)
  {
    ReplayAppend(base, log, lo, mid);
    forall t | !Touched(log, lo, hi, t) ensures t in s <==> t in Replay(base, log[..lo]) {
      assert !Touched(log, mid, hi, t);
      assert !Touched(log, lo, mid, t);
      UntouchedStays(Replay(base, log[..lo]), log, lo, mid, t);
    }
  }

  lemma {:induction false} RecoverableLogGrows(
      base: set<Tuple>, s: set<Tuple>, log: seq<Message>, more: seq<Message>, lo: nat, hi: nat)
    requires lo <= |log| && hi <= |log| && log <= more
    requires Recoverable(base, s, log, lo, hi)
    ensures Recoverable(base, s, more, lo, hi)
  {
    assert more[..lo] == log[..lo];
    forall t | !Touched(more, lo, hi, t) ensures !Touched(log, lo, hi, t) {
      forall i | lo <= i < hi ensures !Touches(log[i], t) {
        assert log[i] == more[i];
      }
    }
  }

  /** A call for the message at `lo` disturbs only tuples that redelivery from `lo` settles again. */
  lemma {:induction false} RecoverableAfterCall(
      base: set<Tuple>, s: set<Tuple>, s': set<Tuple>, log: seq<Message>, lo: nat, hi: nat, hi': nat)
    requires lo <= hi <= hi' <= |log| && lo < hi'
    requires Recoverable(base, s, log, lo, hi)
    requires forall t :: !Touches(log[lo], t) ==> (t in s' <==> t in s)
    ensures Recoverable(base, s', log, lo, hi')
  {
    forall t | !Touched(log, lo, hi', t) ensures t in s' <==> t in Replay(base, log[..lo]) {
      assert !Touches(log[lo], t);
      assert !Touched(log, lo, hi, t);
    }
  }

  /** Once the message at `lo` is in force, redelivery may start after it. */
  lemma {:induction false} RecoverableAfterMessage(base: set<Tuple>, s: set<Tuple>, log: seq<Message>, lo: nat, hi: nat)
    requires lo < hi <= |log|
    requires Recoverable(base, s, log, lo, hi)
    requires forall t :: Touches(log[lo], t) ==> (t in s <==> t in log[lo].add)
    ensures Recoverable(base, s, log, lo + 1, hi)
  {
    assert log[..lo + 1][..lo] == log[..lo];
    forall t | !Touched(log, lo + 1, hi, t) ensures t in s <==> t in Replay(base, log[..lo + 1]) {
      if !Touches(log[lo], t) {
        assert !Touched(log, lo, hi, t);
      }
    }
  }
}
