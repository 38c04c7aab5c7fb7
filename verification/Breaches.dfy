/**
 None of the three clauses can be dropped: for each of them a run of the protocol that keeps the other
 two, commits only messages that were processed, and still loses a tuple for good.
 */
module Breaches {
  import opened Prelude
  import opened TupleLog
  import opened Replication
  import opened Convergence
  import opened CallOrder
  import AtLeastOnce
  import Variants

  /** The step keeps every clause but `c`; unless that is `HasPassed`, assignments are clean as well. */
  ghost predicate KeepsOthers(c: Clause, s: State, step: Step)
    requires Enabled(s, step)
  {
    (forall d :: d != c ==> Meets(d, s, step)) && (c != HasPassed ==> Clean(s, step))
  }

  ghost predicate IsRunWithout(c: Clause, states: seq<State>, steps: seq<Step>) {
    IsRun({}, states, steps) && forall i :: 0 <= i < |steps| ==> KeepsOthers(c, states[i], steps[i])
  }

  ghost predicate Reachable(c: Clause, s: State) {
    exists states, steps :: IsRunWithout(c, states, steps) && states[|steps|] == s
  }

  lemma {:induction false} StepIsReachable(c: Clause, s: State, step: Step)
    requires Reachable(c, s) && Enabled(s, step) && KeepsOthers(c, s, step)
    ensures Reachable(c, Next(s, step))
  {
    var states, steps :| IsRunWithout(c, states, steps) && states[|steps|] == s;
    assert IsRunWithout(c, states + [Next(s, step)], steps + [step]);
  }

  /** No clause is about such a step. */
  predicate IsFree(step: Step) {
    !Issues(step) && !Commits(step) && !step.Assign?
  }

  lemma {:induction false} FreeStep(c: Clause, s: State, step: Step) returns (s': State)
    requires Reachable(c, s) && Enabled(s, step) && IsFree(step)
    ensures s' == Next(s, step) && Reachable(c, s')
  {
    StepIsReachable(c, s, step);
    s' := Next(s, step);
  }

  /** Everything that a step of `x` leaves as it was. */
  ghost predicate Elsewhere(s: State, s': State, x: ProcessId) {
    && s'.log == s.log && s'.base == s.base && s'.assignee == s.assignee
    && s'.lock == s.lock && s'.holder == s.holder
    && x in s'.processes && s'.processes == s.processes[x := s'.processes[x]]
  }

  /** The partition is assigned to `x`. */
  lemma {:induction false} Assigned(c: Clause, s: State, x: ProcessId) returns (s': State)
    requires Reachable(c, s) && Running(s, x) && s.processes[x].call.Idle?
    requires c == HasPassed || (s.processes[x].stored.None? && s.processes[x].commits == map[])
    ensures Reachable(c, s')
    ensures s' == s.(assignee := Some(x), processes := s.processes[x := s.processes[x].(position := None)])
  {
    StepIsReachable(c, s, Assign(x));
    s' := Next(s, Assign(x));
  }

  /** `x` takes the lock. */
  lemma {:induction false} Locked(c: Clause, s: State, x: ProcessId) returns (s': State)
    requires Reachable(c, s) && Running(s, x) && (c == LocksAfresh || s.processes[x].position.None?)
    ensures Reachable(c, s')
    ensures s' == s.(lock := s.lock + 1, holder := Some(x), events := s'.events, processes := s'.processes)
    ensures s'.processes == s.processes[x := s.processes[x].(
      lockId := Some(LOCK_ID), lockToken := Some(s'.lock), lockFailed := false)]
  {
    StepIsReachable(c, s, Acquire(x));
    s' := Next(s, Acquire(x));
  }

  /** `x` starts from the committed offset. */
  lemma {:induction false} Fetched(c: Clause, s: State, x: ProcessId) returns (s': State)
    requires Reachable(c, s) && Running(s, x) && s.processes[x].position.None?
    ensures Reachable(c, s')
    ensures s' == s.(processes := s.processes[x := s.processes[x].(position := Some(s.committed))])
  {
    s' := FreeStep(c, s, Fetch(x));
  }

  /** `x` is assigned the partition, takes the lock and fetches from the committed offset. */
  lemma {:induction false} TakenOver(c: Clause, s: State, x: ProcessId) returns (s': State)
    requires Reachable(c, s) && Running(s, x) && s.processes[x].call.Idle?
    requires c == HasPassed || (s.processes[x].stored.None? && s.processes[x].commits == map[])
    ensures Reachable(c, s')
    ensures s'.log == s.log && s'.store == s.store && s'.committed == s.committed
    ensures s'.assignee == s'.holder == Some(x)
    ensures s'.processes == s.processes[x := s.processes[x].(
      lockId := Some(LOCK_ID), lockToken := Some(s'.lock), lockFailed := false, position := Some(s.committed))]
  {
    var s1 := Assigned(c, s, x);
    var s2 := Locked(c, s1, x);
    s' := Fetched(c, s2, x);
  }

  /** `x` reads the lock and its delete call for the message at its position succeeds. */
  lemma {:induction false} DeletedOne(c: Clause, s: State, x: ProcessId) returns (s': State)
    requires Reachable(c, s) && Enabled(s, ReadLock(x)) && s.processes[x].lockToken == Some(s.lock)
    ensures Reachable(c, s') && Elsewhere(s, s', x) && s'.committed == s.committed
    ensures s'.store == s.store - Current(s, x).remove
    ensures s'.processes[x] == s.processes[x].(call := Deleted(s.lock))
  {
    var s1 := FreeStep(c, s, ReadLock(x));
    s' := FreeStep(c, s1, Send(x, true, true));
  }

  /** The write succeeds. */
  lemma {:induction false} WrittenOne(c: Clause, s: State, x: ProcessId) returns (s': State)
    requires Reachable(c, s) && Enabled(s, Send(x, true, true)) && s.processes[x].call.Deleted?
    ensures Reachable(c, s') && Elsewhere(s, s', x) && s'.committed == s.committed
    ensures s'.store == s.store + Current(s, x).add
    ensures s'.processes[x] == s.processes[x].(call := Written(s.processes[x].call.token))
  {
    s' := FreeStep(c, s, Send(x, true, true));
  }

  /** The notice, if any, is not sent, and the offset is stored. */
  lemma {:induction false} StoredOne(c: Clause, s: State, x: ProcessId) returns (s': State)
    requires Reachable(c, s) && Enabled(s, Notify(x, false))
    ensures Reachable(c, s') && Elsewhere(s, s', x) && s'.committed == s.committed && s'.store == s.store
    ensures s'.processes[x] == s.processes[x].(
      call := Idle, stored := s.processes[x].position, position := Some(s.processes[x].position.value + 1))
  {
    var s1 := FreeStep(c, s, Notify(x, false));
    s' := FreeStep(c, s1, StoreOffset(x));
  }

  /** `x` works through the message at its position. */
  lemma {:induction false} WorkedThrough(c: Clause, s: State, x: ProcessId) returns (s': State)
    requires Reachable(c, s) && Enabled(s, ReadLock(x)) && s.processes[x].lockToken == Some(s.lock)
    ensures Reachable(c, s') && Elsewhere(s, s', x) && s'.committed == s.committed
    ensures s'.store == (s.store - Current(s, x).remove) + Current(s, x).add
    ensures s'.processes[x] == s.processes[x].(
      stored := s.processes[x].position, position := Some(s.processes[x].position.value + 1))
  {
    var s1 := DeletedOne(c, s, x);
    var s2 := WrittenOne(c, s1, x);
    s' := StoredOne(c, s2, x);
  }

  /** The rebalance listener copies the stored offset, finds the partition assigned and turns to the broker. */
  lemma {:induction false} CommitReachesBroker(c: Clause, s: State, x: ProcessId) returns (s': State)
    requires Reachable(c, s) && Running(s, x) && CommitEnabled(s.processes[x], Rebalance, Copy)
    requires s.processes[x].commits == map[]
    ensures Reachable(c, s')
    ensures s' == s.(processes := s.processes[x := s.processes[x].(
      commits := map[Rebalance := Filtered(s.processes[x].stored.value)])])
  {
    var s1 := FreeStep(c, s, Commit(x, Rebalance, Copy));
    s' := FreeStep(c, s1, Commit(x, Rebalance, Filter(true)));
    assert s'.processes[x].commits == map[Rebalance := Filtered(s.processes[x].stored.value)];
    assert s'.processes == s.processes[x := s'.processes[x]];
  }

  /** The commit fails at the broker and puts its copy back. */
  lemma {:induction false} CommitFailed(c: Clause, s: State, x: ProcessId) returns (s': State)
    requires Reachable(c, s) && Running(s, x) && CommitEnabled(s.processes[x], Rebalance, Copy)
    requires s.processes[x].commits == map[]
    ensures Reachable(c, s') && Elsewhere(s, s', x) && s'.committed == s.committed && s'.store == s.store
    ensures s'.processes[x] == s.processes[x]
  {
    var s2 := CommitReachesBroker(c, s, x);
    var s3 := FreeStep(c, s2, Commit(x, Rebalance, Submit(false, false)));
    s' := FreeStep(c, s3, Commit(x, Rebalance, Restore));
    assert s'.processes[x].commits == map[];
  }

  /** The commit succeeds at the broker. */
  lemma {:induction false} CommitSucceeded(c: Clause, s: State, x: ProcessId) returns (s': State)
    requires Reachable(c, s) && Running(s, x) && CommitEnabled(s.processes[x], Rebalance, Copy)
    requires s.processes[x].commits == map[] && s.assignee == Some(x)
    requires c == HoldsLock || s.holder == Some(x)
    requires c == HasPassed || s.processes[x].position == Some(s.processes[x].stored.value + 1)
    ensures Reachable(c, s') && Elsewhere(s, s', x) && s'.store == s.store
    ensures s'.committed == s.processes[x].stored.value + 1
  {
    var s1 := CommitReachesBroker(c, s, x);
    StepIsReachable(c, s1, Commit(x, Rebalance, Submit(true, true)));
    s' := Next(s1, Commit(x, Rebalance, Submit(true, true)));
  }

  /** The first message removes the tuple, the second adds it. */
  const FIRST := Batch({LOST}, {}, None)
  const SECOND := Batch({}, {LOST}, None)

  lemma {:induction false} Produced(c: Clause) returns (s: State)
    ensures Reachable(c, s) && s == Initial({}).(log := [FIRST, SECOND])
  {
    var s0 := Initial({});
    assert IsRunWithout(c, [s0], []);
    var s1 := FreeStep(c, s0, Produce(FIRST));
    s := FreeStep(c, s1, Produce(SECOND));
  }

  /** The two messages are in the log, two processes are there, and the first is assigned the partition. */
  lemma {:induction false} Opening(c: Clause) returns (s: State)
    ensures Reachable(c, s)
    ensures s.log == [FIRST, SECOND] && s.store == {} && s.committed == 0 && s.assignee == Some(1)
    ensures s.processes == map[1 := FRESH_PROCESS, 2 := FRESH_PROCESS]
  {
    var s0 := Produced(c);
    var s1 := FreeStep(c, s0, Start(1));
    var s2 := FreeStep(c, s1, Start(2));
    s := Assigned(c, s2, 1);
  }

  /** A process that has taken over and has worked through the messages below `n`. */
  function HavingDone(lock: Token, n: nat): Process {
    FRESH_PROCESS.(lockId := Some(LOCK_ID), lockToken := Some(lock), position := Some(n),
      stored := if n == 0 then None else Some(n - 1))
  }

  lemma {:induction false} OneDone(c: Clause, s: State, x: ProcessId, n: nat) returns (s': State)
    requires Reachable(c, s) && s.log == [FIRST, SECOND] && n < 2
    requires x in s.processes && s.processes[x] == HavingDone(s.lock, n)
    ensures Reachable(c, s') && Elsewhere(s, s', x) && s'.committed == s.committed
    ensures s'.store == if n == 0 then s.store - {LOST} else s.store + {LOST}
    ensures s'.processes[x] == HavingDone(s.lock, n + 1)
  {
    s' := WorkedThrough(c, s, x);
  }

  /** Process `x` takes over and works through both messages. */
  lemma {:induction false} BothDone(c: Clause, s: State, x: ProcessId) returns (s': State)
    requires Reachable(c, s) && s.log == [FIRST, SECOND] && s.store == {} && s.committed == 0
    requires x in s.processes && s.processes[x] == FRESH_PROCESS
    ensures Reachable(c, s') && s'.log == s.log && s'.store == {LOST} && s'.committed == 0
    ensures s'.assignee == s'.holder == Some(x)
    ensures s'.processes == s.processes[x := HavingDone(s'.lock, 2)]
  {
    var s1 := TakenOver(c, s, x);
    var s2 := OneDone(c, s1, x, 0);
    s' := OneDone(c, s2, x, 1);
  }

  /** The tuple is lost: all is committed, all was processed, and no redelivery will bring the tuple back. */
  ghost predicate Broken(s: State) {
    && s.committed == |s.log| == 2
    && AtLeastOnce.HandledBelow(s, s.committed)
    && !Variants.Converges(s)
    && !InOrder(EffectsOf(s.events), s.log, s.committed)
  }

  lemma {:induction false} EmptyIsBroken(c: Clause, s: State)
    requires Reachable(c, s) && s.log == [FIRST, SECOND] && s.committed == 2 && s.store == {}
    ensures Broken(s)
  {
    var states, steps :| IsRunWithout(c, states, steps) && states[|steps|] == s;
    AtLeastOnce.CommittedIsHandled({}, states, steps, |steps|);
    Variants.IsOwnVariant({}, states, steps, |steps|);
    Variants.ConvergesIff({}, states, steps);
    assert s.log[..1] == [FIRST] && s.log[2..] == [];
    assert LOST in Replay({}, s.log);
    assert SameShape(s.log, s.log);
    assert !Variants.VariantConverges(s, {}, s.log);
  }

  /** A process takes the lock late, with a fetch position that others have long passed. */
  lemma {:induction false} LateLock() returns (s: State)
    ensures Reachable(LocksAfresh, s) && Broken(s)
  {
    s := Opening(LocksAfresh);
    s := Fetched(LocksAfresh, s, 1);
    s := BothDone(LocksAfresh, s, 2);
    s := CommitSucceeded(LocksAfresh, s, 2);
    s := Locked(LocksAfresh, s, 1);
    s := DeletedOne(LocksAfresh, s, 1);
    EmptyIsBroken(LocksAfresh, s);
  }

  /** A process commits after another one has taken the lock and begun to redeliver. */
  lemma {:induction false} CommitWithoutLock() returns (s: State)
    ensures Reachable(HoldsLock, s) && Broken(s)
  {
    s := Opening(HoldsLock);
    s := BothDone(HoldsLock, s, 2);
    s := Locked(HoldsLock, s, 1);
    s := Fetched(HoldsLock, s, 1);
    s := DeletedOne(HoldsLock, s, 1);
    s := CommitSucceeded(HoldsLock, s, 2);
    EmptyIsBroken(HoldsLock, s);
  }

  /**
   A process is assigned the partition again with the offset of a failed commit still stored, and commits
   it when it loses the partition once more, although another one has begun to redeliver.
   */
  lemma {:induction false} StaleOffset() returns (s: State)
    ensures Reachable(HasPassed, s) && Broken(s)
  {
    s := Opening(HasPassed);
    s := BothDone(HasPassed, s, 1);
    s := CommitFailed(HasPassed, s, 1);
    s := TakenOver(HasPassed, s, 2);
    s := DeletedOne(HasPassed, s, 2);
    s := TakenOver(HasPassed, s, 1);
    s := CommitSucceeded(HasPassed, s, 1);
    EmptyIsBroken(HasPassed, s);
  }

  /** Whichever clause is dropped, keeping the other two is not enough. */
  lemma {:induction false} EveryClauseIsNeeded(c: Clause) returns (s: State)
    ensures Reachable(c, s) && Broken(s)
  {
    match c {
      case LocksAfresh => s := LateLock();
      case HoldsLock => s := CommitWithoutLock();
      case HasPassed => s := StaleOffset();
    }
  }
}
