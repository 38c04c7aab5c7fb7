/** Offset storage and batch commits of the consumer. */
module Offsets {
  import opened Prelude

  datatype Partition = Partition(topic: string, number: nat)

  /** A stored offset with the leader epoch it was read under. */
  datatype Entry = Entry(offset: nat, epoch: Option<int>)

  /** What a failed commit leaves stored: its own copy, unless a later offset was stored meanwhile. */
  function Restored(stored: Option<nat>, copy: nat): (r: nat)
    ensures copy <= r
    ensures stored.Some? ==> stored.value <= r
    ensures r == copy || stored == Some(r)
  {
    if stored.None? || stored.value <= copy then copy else stored.value
  }

  function Get(m: map<Partition, Entry>, tp: Partition): Option<nat> {
    if tp in m then Some(m[tp].offset) else None
  }

  /** All partitions of a failed commit's copy put back. */
  function RestoredAll(stored: map<Partition, Entry>, copy: map<Partition, Entry>): map<Partition, Entry> {
    map tp | tp in stored.Keys + copy.Keys ::
      if tp in copy && Restored(Get(stored, tp), copy[tp].offset) == copy[tp].offset then copy[tp] else stored[tp]
  }

  /** Of two entries for a partition the later one is left; at the same offset the copy's. */
  lemma {:induction false} LaterIsLeft(stored: map<Partition, Entry>, copy: map<Partition, Entry>, tp: Partition)
    ensures tp in RestoredAll(stored, copy) <==> tp in stored || tp in copy
    ensures tp in stored && (tp !in copy || copy[tp].offset < stored[tp].offset) ==>
      RestoredAll(stored, copy)[tp] == stored[tp]
    ensures tp in copy && (tp !in stored || stored[tp].offset <= copy[tp].offset) ==>
      RestoredAll(stored, copy)[tp] == copy[tp]
  {
  }

  lemma {:induction false} RestoringItself(copy: map<Partition, Entry>)
    ensures RestoredAll(copy, copy) == copy
  {
  }

  /** What the broker does with a commit request; a failed request may still have been applied. */
  datatype Answer = Ok | Error(applied: bool)

  /** The offsets that the broker keeps for the group. */
  class Broker {
    var committed: map<Partition, nat>
  }

  /** The commit request: one past the stored offset of every assigned partition. */
  function Request(copy: map<Partition, Entry>, assignment: set<Partition>): (r: map<Partition, nat>)
    ensures r.Keys == copy.Keys * assignment
    ensures forall tp :: tp in r ==> r[tp] == copy[tp].offset + 1
  {
    map tp | tp in copy && tp in assignment :: copy[tp].offset + 1
  }

  /** What a commit that nobody disturbs leaves in the store and at the broker. */
  function AfterCommit(
      stored: map<Partition, Entry>, committed: map<Partition, nat>, assignment: set<Partition>, answer: Answer)
    : (map<Partition, Entry>, map<Partition, nat>)
  {
    if stored.Keys * assignment == {} then (stored, committed)
    else
      (if answer.Ok? then map[] else stored,
       if answer == Error(false) then committed else committed + Request(stored, assignment))
  }

  class OffsetManager {
    const modulo: int
    var stored: map<Partition, Entry>

    constructor (modulo: int)
      ensures this.modulo == modulo && stored == map[]
    {
      this.modulo := modulo;
      stored := map[];
    }

    method Store(tp: Partition, offset: nat, epoch: Option<int>)
      modifies this
      ensures stored == old(stored)[tp := Entry(offset, epoch)]
    {
      stored := stored[tp := Entry(offset, epoch)];
    }

    predicate ShouldCommit(offset: nat) {
      modulo > 0 && (offset + 1) % modulo == 0
    }

    /** The failure branch of a commit: no offset stored meanwhile is lost, and none of the copy either. */
    method Restore(copy: map<Partition, Entry>)
      modifies this
      ensures stored == RestoredAll(old(stored), copy)
      ensures forall tp :: tp in copy ==> tp in stored && copy[tp].offset <= stored[tp].offset
      ensures forall tp :: tp in old(stored) ==> tp in stored && old(stored)[tp].offset <= stored[tp].offset
    {
      var todo := copy.Keys;
      while todo != {}
        invariant todo <= copy.Keys
        invariant stored == RestoredAll(old(stored), copy - todo)
      {
        var tp :| tp in todo;
        if tp !in stored || stored[tp].offset <= copy[tp].offset {
          stored := stored[tp := copy[tp]];
        }
        todo := todo - {tp};
      }
      assert copy - {} == copy;
    }

    /**
     A commit that no other thread disturbs. It succeeds with nothing to do, gives up when no stored
     partition is assigned, and otherwise asks the broker: on success the store is emptied, on failure
     it is what it was.
     */
    method Commit(broker: Broker, assignment: set<Partition>, answer: Answer) returns (success: bool, count: nat)
      modifies this, broker
      ensures old(stored) == map[] ==>
        success && count == 0 && stored == map[] && broker.committed == old(broker.committed)
      ensures old(stored) != map[] && old(stored).Keys * assignment == {} ==>
        !success && stored == old(stored) && broker.committed == old(broker.committed)
      ensures old(stored).Keys * assignment != {} ==>
        && success == answer.Ok?
        && stored == (if success then map[] else old(stored))
        && broker.committed ==
           (if answer == Error(false) then old(broker.committed)
            else old(broker.committed) + Request(old(stored), assignment))
        && count == if success then |old(stored).Keys * assignment| else 0
      ensures (stored, broker.committed) == AfterCommit(old(stored), old(broker.committed), assignment, answer)
    {
      if stored == map[] {
        return true, 0;
      }
      var copy := stored;
      var requested := Request(copy, assignment);
      if requested == map[] {
        return false, 0;
      }
      match answer {
        case Ok =>
          broker.committed := broker.committed + requested;
          stored := map[];
          return true, |requested|;
        case Error(applied) =>
          if applied {
            broker.committed := broker.committed + requested;
          }
          Restore(copy);
          RestoringItself(copy);
          return false, 0;
      }
    }
  }

  /** How many batch commits in a row have failed by the end, when message `i` is at offset `start + i`. */
  function FailuresInARow(start: nat, m: int, answers: seq<Answer>): nat
    requires m > 0
  {
    if answers == [] then 0
    else
      var before := FailuresInARow(start, m, answers[..|answers| - 1]);
      if (start + |answers|) % m != 0 then before
      else if answers[|answers| - 1].Ok? then 0 else before + 1
  }

  lemma {:induction false} RemainderOf(q: int, m: int, r: int)
    requires m > 0 && 0 <= r < m
    ensures (q * m + r) % m == r
  {
    var n := q * m + r;
    var q', r' := n / m, n % m;
    assert n == q' * m + r';
    assert (q - q') * m == r' - r;
    assert q - q' >= 1 ==> (q - q') * m >= m;
    assert q - q' <= -1 ==> (q - q') * m <= -m;
  }

  lemma {:induction false} MultipleHasNoRemainder(q: int, m: int)
    requires m > 0
    ensures (q * m) % m == 0
  {
    RemainderOf(q, m, 0);
  }

  lemma {:induction false} NextRemainder(n: nat, m: int)
    requires m > 0
    ensures (n + 1) % m == if n % m == m - 1 then 0 else n % m + 1
  {
    var q, r := n / m, n % m;
    assert n == q * m + r;
    if r == m - 1 {
      assert n + 1 == (q + 1) * m;
      MultipleHasNoRemainder(q + 1, m);
    } else {
      RemainderOf(q, m, r + 1);
    }
  }

  lemma {:induction false} QuotientOf(q: int, m: int, r: int)
    requires m > 0 && 0 <= r < m
    ensures (q * m + r) / m == q
  {
    var n := q * m + r;
    var q', r' := n / m, n % m;
    assert n == q' * m + r';
    assert (q - q') * m == r' - r;
    assert q - q' >= 1 ==> (q - q') * m >= m;
    assert q - q' <= -1 ==> (q - q') * m <= -m;
  }

  lemma {:induction false} NextQuotient(n: nat, m: int)
    requires m > 0
    ensures (n + 1) / m == n / m + if (n + 1) % m == 0 then 1 else 0
  {
    var q, r := n / m, n % m;
    assert n == q * m + r;
    NextRemainder(n, m);
    if r == m - 1 {
      assert n + 1 == (q + 1) * m + 0;
      QuotientOf(q + 1, m, 0);
    } else {
      QuotientOf(q, m, r + 1);
    }
  }

  lemma {:induction false} NotNegative(k: int, m: int)
    requires m > 0 && k * m > 0
    ensures k > 0
  {
  }

  /** A batch commit is due exactly at every multiple of the modulus, and never with a modulus that is not positive. */
  lemma {:induction false} ShouldCommitIff(om: OffsetManager, offset: nat)
    ensures om.ShouldCommit(offset) <==> om.modulo > 0 && exists k: nat :: k * om.modulo == offset + 1
  {
    if om.modulo > 0 {
      if om.ShouldCommit(offset) {
        var k := (offset + 1) / om.modulo;
        assert k * om.modulo == offset + 1;
        NotNegative(k, om.modulo);
      }
      if k: nat :| k * om.modulo == offset + 1 {
        MultipleHasNoRemainder(k, om.modulo);
      }
    }
  }

  /** The batch commits due between two offsets. */
  function DueBetween(from: nat, to: nat, m: int): int
    requires m > 0
  {
    to / m - from / m
  }

  /** The failures in a row are the batch commits due since the last one that succeeded, or since the start. */
  lemma {:induction false} FailuresAreDueSince(start: nat, m: int, answers: seq<Answer>, j: nat)
    requires m > 0 && j <= |answers|
    requires j == 0 || ((start + j) % m == 0 && answers[j - 1].Ok?)
    requires forall i :: j <= i < |answers| && (start + i + 1) % m == 0 ==> !answers[i].Ok?
    ensures FailuresInARow(start, m, answers) == DueBetween(start + j, start + |answers|, m)
    decreases |answers|
  {
    var n := |answers|;
    if j < n {
      FailuresAreDueSince(start, m, answers[..n - 1], j);
      NextQuotient(start + n - 1, m);
    }
  }

  /** What follows a message that needs no more work: its offset is stored, and committed if a batch is full. */
  method FinishMessage(om: OffsetManager, broker: Broker, tp: Partition, offset: nat, answer: Answer)
    requires om.stored.Keys <= {tp} && broker.committed.Keys == {tp}
    modifies om, broker
    ensures om.stored == if om.ShouldCommit(offset) && answer.Ok? then map[] else map[tp := Entry(offset, None)]
    ensures broker.committed ==
      if om.ShouldCommit(offset) && answer != Error(false) then map[tp := offset + 1] else old(broker.committed)
  {
    om.Store(tp, offset, None);
    assert om.stored == map[tp := Entry(offset, None)];
    if om.ShouldCommit(offset) {
      var _, _ := om.Commit(broker, {tp}, answer);
    }
  }

  /** The bound on the gap, carried over one message. */
  lemma {:induction false} GapStep(gap: int, k: nat, m: int, next: nat)
    requires m > 0 && gap <= k * m + next % m
    ensures (next + 1) % m != 0 ==> gap + 1 <= k * m + (next + 1) % m
    ensures (next + 1) % m == 0 ==> gap + 1 <= (k + 1) * m
    ensures gap < (k + 1) * m
  {
    NextRemainder(next, m);
    assert (k + 1) * m == k * m + m;
  }

  /**
   The message loop over contiguous offsets of one partition, with a batch commit at every multiple of
   the modulus. After k failed batch commits in a row the broker is behind by less than (k + 1) times
   the modulus.
   */
  method ConsumeAll(om: OffsetManager, broker: Broker, tp: Partition, start: nat, answers: seq<Answer>)
    returns (next: nat)
    requires om.modulo > 0 && om.stored == map[] && broker.committed == map[tp := start]
    modifies om, broker
    ensures next == start + |answers|
    ensures tp in broker.committed && broker.committed[tp] <= next
    ensures next - broker.committed[tp] < (FailuresInARow(start, om.modulo, answers) + 1) * om.modulo
    ensures Get(om.stored, tp).None? ==> broker.committed[tp] == next
    ensures Get(om.stored, tp).Some? ==> Get(om.stored, tp).value + 1 == next
  {
    next := start;
    ghost var m := om.modulo;
    ghost var k := 0;
    while next < start + |answers|
      invariant start <= next <= start + |answers|
      invariant broker.committed.Keys == {tp} && om.stored.Keys <= {tp}
      invariant k == FailuresInARow(start, m, answers[..next - start])
      invariant 0 <= next - broker.committed[tp] <= k * m + next % m
      invariant tp !in om.stored ==> broker.committed[tp] == next
      invariant tp in om.stored ==> om.stored[tp].offset + 1 == next
    {
      var i := next - start;
      assert answers[..i + 1][..i] == answers[..i];
      GapStep(next - broker.committed[tp], k, m, next);
      FinishMessage(om, broker, tp, next, answers[i]);
      k := FailuresInARow(start, m, answers[..i + 1]);
      next := next + 1;
    }
    assert answers[..next - start] == answers;
    GapStep(next - broker.committed[tp], k, m, next);
  }
}
