/**
 Convergence: redelivery, crashes between the delete and the write, lost answers and competing
 processes still leave the tuple store equal to one in-order application of the log, provided that
 processes keep three clauses when they take the lock and when they commit.
 */
module Convergence {
  import opened Prelude
  import opened TupleLog
  import opened Replication
  import Fencing

  /** A token is issued, although the process may not get to know it. */
  predicate Issues(step: Step) {
    step.Acquire? || (step.AcquireFails? && step.issued)
  }

  /** The broker moves the committed offset. */
  predicate Commits(step: Step) {
    step.Commit? && step.action.Submit? && step.action.accepted
  }

  /** What convergence needs beyond the guards of the protocol. */
  datatype Clause = LocksAfresh | HoldsLock | HasPassed

  /**
   - `LocksAfresh`: a process takes the lock with no fetch position, or between messages with its
     fetch position at the committed offset.
   - `HoldsLock`: the broker takes offsets only from the process with the newest token.
   - `HasPassed`: the broker takes only offsets below the fetch position of the process.
   */
  predicate Meets(c: Clause, s: State, step: Step)
    requires Enabled(s, step)
  {
    match c
    case LocksAfresh =>
      Issues(step) ==>
        || s.processes[step.x].position.None?
        || (s.processes[step.x].position == Some(s.committed) && s.processes[step.x].call.Idle?)
    case HoldsLock => Commits(step) ==> s.holder == Some(step.x)
    case HasPassed =>
      Commits(step) ==>
        && s.processes[step.x].position.Some?
        && s.processes[step.x].commits[step.w].offset < s.processes[step.x].position.value
  }

  ghost predicate Orderly(s: State, step: Step)
    requires Enabled(s, step)
  {
    forall c :: Meets(c, s, step)
  }

  ghost predicate IsOrderlyRun(base: set<Tuple>, states: seq<State>, steps: seq<Step>) {
    IsRun(base, states, steps) && forall i :: 0 <= i < |steps| ==> Orderly(states[i], steps[i])
  }

  ghost predicate FrontOk(s: State) {
    && s.committed <= s.front <= s.reached <= |s.log|
    && Recoverable(s.base, s.store, s.log, s.front, s.reached)
  }

  /** One past the message that `p` has fully written, or its position. */
  function Past(p: Process): nat
    requires p.position.Some?
  {
    p.position.value + if p.call.Written? || p.call.Notified? then 1 else 0
  }

  predicate Pinned(p: Process) {
    p.call.Idle? || p.position.Some?
  }

  /** The removals of the message at the position of `p` are in force. */
  predicate DeleteInForce(s: State, p: Process) {
    && p.position.Some?
    && p.position.value < |s.log|
    && s.log[p.position.value].Batch?
    && s.store !! s.log[p.position.value].remove
  }

  predicate HolderOk(s: State, p: Process) {
    && (p.position.Some? ==> s.committed <= p.position.value && Past(p) <= s.front)
    && (p.call.Deleted? && p.call.token == s.lock ==> DeleteInForce(s, p))
  }

  ghost predicate Inv(s: State) {
    && Fencing.Inv(s)
    && FrontOk(s)
    && (forall x :: x in s.processes ==> Pinned(s.processes[x]))
    && (s.holder.Some? ==> s.holder.value in s.processes && HolderOk(s, s.processes[s.holder.value]))
  }

  predicate Effective(step: Step) {
    step.Send? && step.applied
  }

  /** A call that takes effect comes from the holder. */
  lemma {:induction false} EffectiveIsHolder(s: State, step: Step)
    requires Enabled(s, step) && Inv(s) && Effective(step)
    ensures s.holder == Some(step.x)
  {
    assert Carries(s.processes[step.x], s.processes[step.x].call.token);
  }

  /** A commit comes from the holder and stays at or below its position. */
  lemma {:induction false} CommitStaysBelow(s: State, step: Step)
    requires Enabled(s, step) && Orderly(s, step) && Commits(step)
    ensures s.holder == Some(step.x) && s.processes[step.x].position.Some?
    ensures Shared(s, step).committed <= s.processes[step.x].position.value
  {
    assert Meets(HoldsLock, s, step) && Meets(HasPassed, s, step);
  }

  lemma {:induction false} CallKeepsFront(s: State, step: Step)
    requires Enabled(s, step) && Inv(s) && Effective(step)
    ensures FrontOk(Shared(s, step))
  {
    EffectiveIsHolder(s, step);
    var s' := Shared(s, step);
    var p := s.processes[step.x];
    var at := p.position.value;
    RecoverableFromEarlier(s.base, s.store, s.log, at, s.front, s.reached);
    RecoverableAfterCall(s.base, s.store, s'.store, s.log, at, s.reached, s'.reached);
    if p.call.Deleted? && step.ok {
      RecoverableAfterMessage(s.base, s'.store, s.log, at, s'.reached);
    }
  }

  lemma {:induction false} StepKeepsFront(s: State, step: Step)
    requires Enabled(s, step) && Orderly(s, step) && Inv(s)
    ensures FrontOk(Shared(s, step))
  {
    var s' := Shared(s, step);
    match step {
      case Produce(m) => RecoverableLogGrows(s.base, s.store, s.log, s'.log, s.front, s.reached);
      case Send(_, applied, _) => if applied { CallKeepsFront(s, step); }
      case SkipTombstone(x) =>
        if s.processes[x].position.value == s.front {
          RecoverableAfterCall(s.base, s.store, s.store, s.log, s.front, s.reached, s'.reached);
          RecoverableAfterMessage(s.base, s.store, s.log, s.front, s'.reached);
        }
      case Commit(_, _, _) => if Commits(step) { CommitStaysBelow(s, step); }
      case _ =>
    }
  }

  lemma {:induction false} MovedStaysPinned(s: State, step: Step)
    requires Enabled(s, step) && Actor(step).Some?
    requires step.Start? || Pinned(s.processes[step.x])
    ensures Pinned(Moved(s, step))
  {
    if !Moved(s, step).call.Idle? {
      CallComesFrom(s, step);
    }
  }

  /** The holder while another process, or none, moves. */
  lemma {:induction false} HolderUndisturbed(s: State, step: Step, y: ProcessId)
    requires Enabled(s, step) && Orderly(s, step) && Inv(s)
    requires s.holder == Some(y) == Shared(s, step).holder && Shared(s, step).lock == s.lock && Actor(step) != Some(y)
    ensures HolderOk(Shared(s, step), s.processes[y])
  {
    if Effective(step) {
      EffectiveIsHolder(s, step);
    }
    if Commits(step) {
      CommitStaysBelow(s, step);
    }
  }

  /** The holder's own steps, other than taking the lock again. */
  lemma {:induction false} HolderMoves(s: State, step: Step)
    requires Enabled(s, step) && Orderly(s, step) && Inv(s)
    requires Actor(step) == s.holder && s.holder.Some? && Shared(s, step).lock == s.lock
    ensures HolderOk(Shared(s, step), Moved(s, step))
  {
    var p, p' := s.processes[step.x], Moved(s, step);
    if p'.position.Some? {
      PositionComesFrom(s, step, p'.position.value);
    }
    if !p'.call.Idle? {
      CallComesFrom(s, step);
    }
    if Commits(step) {
      CommitStaysBelow(s, step);
    }
  }

  /** A process that takes the lock is a good holder. */
  lemma {:induction false} NewHolder(s: State, step: Step)
    requires Enabled(s, step) && Orderly(s, step) && Inv(s) && Issues(step)
    ensures HolderOk(Shared(s, step), Moved(s, step))
  {
    assert Meets(LocksAfresh, s, step);
    assert Pinned(s.processes[step.x]);
  }

  lemma {:induction false} LockStays(s: State, step: Step)
    requires Enabled(s, step) && !Issues(step)
    ensures Shared(s, step).lock == s.lock && Shared(s, step).holder == s.holder
  {
  }

  lemma {:induction false} StepKeepsHolder(s: State, step: Step)
    requires Enabled(s, step) && Orderly(s, step) && Inv(s)
    ensures var s' := Next(s, step);
      s'.holder.Some? ==> s'.holder.value in s'.processes && HolderOk(s', s'.processes[s'.holder.value])
  {
    var s' := Next(s, step);
    if s'.holder.Some? {
      if Issues(step) {
        NewHolder(s, step);
      } else {
        LockStays(s, step);
        if Actor(step) == s.holder {
          HolderMoves(s, step);
        } else {
          HolderUndisturbed(s, step, s.holder.value);
        }
      }
    }
  }

  lemma {:induction false} StepKeepsInv(s: State, step: Step)
    requires Enabled(s, step) && Orderly(s, step) && Inv(s)
    ensures Inv(Next(s, step))
  {
    var s' := Next(s, step);
    Fencing.StepKeepsInv(s, step);
    StepKeepsFront(s, step);
    forall x | x in s'.processes ensures Pinned(s'.processes[x]) {
      if Actor(step) == Some(x) {
        MovedStaysPinned(s, step);
      } else {
        OthersUnchanged(s, step, x);
      }
    }
    StepKeepsHolder(s, step);
  }

  lemma {:induction false} InvOverRuns(base: set<Tuple>, states: seq<State>, steps: seq<Step>, i: nat)
    requires IsOrderlyRun(base, states, steps) && i < |states|
    ensures Inv(states[i]) && states[i].base == base
  {
    if i > 0 {
      InvOverRuns(base, states, steps, i - 1);
      StepKeepsInv(states[i - 1], steps[i - 1]);
    } else {
      assert forall t :: t in base <==> t in Replay(base, []);
    }
  }

  /**
   In every state of every orderly run, redelivering from the committed offset what was ever started
   gives exactly the state of one in-order application of the log.
   */
  lemma {:induction false} RedeliveryConverges(base: set<Tuple>, states: seq<State>, steps: seq<Step>, i: nat)
    requires IsOrderlyRun(base, states, steps) && i < |states|
    ensures states[i].committed <= states[i].reached <= |states[i].log|
    ensures var s := states[i];
      Replay(s.store, s.log[s.committed..s.reached]) == Replay(base, s.log[..s.reached])
  {
    InvOverRuns(base, states, steps, i);
    var s := states[i];
    RecoverableFromEarlier(base, s.store, s.log, s.committed, s.front, s.reached);
    RecoverableIff(base, s.store, s.log, s.committed, s.reached);
  }

  /**
   Once the holder of the newest token has worked through every message that was ever started, the
   store is the log applied once, in order.
   */
  lemma {:induction false} WorkedThroughIsApplied(
      base: set<Tuple>, states: seq<State>, steps: seq<Step>, i: nat, x: ProcessId)
    requires IsOrderlyRun(base, states, steps) && i < |states| && x in states[i].processes
    requires states[i].holder == Some(x)
    requires states[i].processes[x].position.Some? && states[i].processes[x].position.value >= states[i].reached
    ensures states[i].processes[x].position.value <= |states[i].log|
    ensures states[i].store == Replay(base, states[i].log[..states[i].processes[x].position.value])
  {
    InvOverRuns(base, states, steps, i);
    var s := states[i];
    assert s.log[s.front..s.reached] == [];
    RecoverableIff(base, s.store, s.log, s.front, s.reached);
  }

  /** During a redelivery by the holder, every tuple that no started message ahead touches is already right. */
  lemma {:induction false} RedeliveryInProgress(
      base: set<Tuple>, states: seq<State>, steps: seq<Step>, i: nat, x: ProcessId, t: Tuple)
    requires IsOrderlyRun(base, states, steps) && i < |states| && x in states[i].processes
    requires states[i].holder == Some(x) && states[i].processes[x].position.Some?
    ensures states[i].processes[x].position.value <= states[i].reached <= |states[i].log|
    ensures
      var s := states[i];
      var p := s.processes[x].position.value;
      !Touched(s.log, p, s.reached, t) ==> (t in s.store <==> t in Replay(base, s.log[..p]))
  {
    InvOverRuns(base, states, steps, i);
    var s := states[i];
    RecoverableFromEarlier(base, s.store, s.log, s.processes[x].position.value, s.front, s.reached);
  }

  /** Nothing is left in the offset store, nor in a running commit, when the partition is assigned. */
  predicate Clean(s: State, step: Step)
    requires Enabled(s, step)
  {
    step.Assign? ==> s.processes[step.x].stored.None? && s.processes[step.x].commits == map[]
  }

  ghost predicate IsCleanRun(base: set<Tuple>, states: seq<State>, steps: seq<Step>) {
    IsRun(base, states, steps) && forall i :: 0 <= i < |steps| ==> Clean(states[i], steps[i])
  }

  ghost predicate TracksBelow(p: Process, q: nat) {
    forall v: nat :: Tracks(p, v) ==> v < q
  }

  /** The offsets that the assignee tracks are below its position; without one there are none. */
  function TrackLimit(p: Process): nat {
    if p.position.Some? then p.position.value else 0
  }

  ghost predicate TracksOk(s: State) {
    s.assignee.Some? ==>
      && s.assignee.value in s.processes
      && TracksBelow(s.processes[s.assignee.value], TrackLimit(s.processes[s.assignee.value]))
  }

  lemma {:induction false} AssigneeTracks(s: State, step: Step)
    requires Enabled(s, step) && TracksOk(s)
    requires s.assignee.Some? && Actor(step) == s.assignee && !step.Assign?
    ensures TracksBelow(Moved(s, step), TrackLimit(Moved(s, step)))
  {
    var p, p' := s.processes[step.x], Moved(s, step);
    forall v: nat | Tracks(p', v) ensures v < TrackLimit(p') {
      TrackedComesFrom(s, step, v);
    }
  }

  lemma {:induction false} TracksOverRuns(base: set<Tuple>, states: seq<State>, steps: seq<Step>, i: nat)
    requires IsCleanRun(base, states, steps) && i < |states|
    ensures TracksOk(states[i])
  {
    if i > 0 {
      var s, step := states[i - 1], steps[i - 1];
      TracksOverRuns(base, states, steps, i - 1);
      if s.assignee.Some? && Actor(step) == s.assignee && !step.Assign? {
        AssigneeTracks(s, step);
      }
    }
  }

  /**
   If every assignment finds the offset store empty and no commit running, the broker takes only offsets
   that the process has passed: the third clause comes for free.
   */
  lemma {:induction false} CleanRunHasPassed(base: set<Tuple>, states: seq<State>, steps: seq<Step>, i: nat)
    requires IsCleanRun(base, states, steps) && i < |steps|
    ensures Meets(HasPassed, states[i], steps[i])
  {
    var s, step := states[i], steps[i];
    TracksOverRuns(base, states, steps, i);
    if Commits(step) {
      assert Tracks(s.processes[step.x], s.processes[step.x].commits[step.w].offset);
    }
  }
}
