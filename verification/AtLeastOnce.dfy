/**
 At-least-once delivery: whatever the interleaving of processing, stores, copies, commits, clears
 and restores, the committed offset never passes a message that was not processed.
 */
module AtLeastOnce {
  import opened Prelude
  import opened TupleLog
  import opened Replication

  predicate CompletedBy(first: Event, second: Event, p: nat) {
    && second.Call? && second.kind.Write? && second.offset == p && second.applied && second.ok
    && first == second.(kind := Delete)
  }

  /** Some process completed a delete and then a write for the message at `p`, under one token. */
  ghost predicate Processed(events: seq<Event>, p: nat) {
    exists i, j :: 0 <= i < j < |events| && CompletedBy(events[i], events[j], p)
  }

  ghost predicate Handled(s: State, p: nat) {
    p < |s.log| && (s.log[p].Tombstone? || Processed(s.events, p))
  }

  /** Every message below `n` is a tombstone or was processed. */
  ghost predicate HandledBelow(s: State, n: nat) {
    forall p: nat :: p < n ==> Handled(s, p)
  }

  ghost predicate CallInOrder(s: State, x: ProcessId, c: CallStage, at: Option<nat>) {
    match c
    case Idle => true
    case Checked(_) => true
    case Deleted(t) => at.Some? && Event.Call(x, Delete, at.value, t, true, true) in s.events
    case Written(_) => at.Some? && Handled(s, at.value)
    case Notified(_) => at.Some? && Handled(s, at.value)
  }

  ghost predicate ProcessOk(s: State, x: ProcessId, p: Process) {
    && (p.position.Some? ==> HandledBelow(s, p.position.value))
    && (forall v: nat :: Tracks(p, v) ==> HandledBelow(s, v + 1))
    && CallInOrder(s, x, p.call, p.position)
  }

  ghost predicate Inv(s: State) {
    && HandledBelow(s, s.committed)
    && forall x :: x in s.processes ==> ProcessOk(s, x, s.processes[x])
  }

  lemma {:induction false} HandledGrows(s: State, s': State, p: nat)
    requires s.log <= s'.log && s.events <= s'.events
    requires Handled(s, p)
    ensures Handled(s', p)
  {
    if !s.log[p].Tombstone? {
      var i, j :| 0 <= i < j < |s.events| && CompletedBy(s.events[i], s.events[j], p);
      assert CompletedBy(s'.events[i], s'.events[j], p);
    }
  }

  lemma {:induction false} ProcessOkGrows(s: State, s': State, x: ProcessId, p: Process)
    requires s.log <= s'.log && s.events <= s'.events
    requires ProcessOk(s, x, p)
    ensures ProcessOk(s', x, p)
    ensures forall n: nat :: HandledBelow(s, n) ==> HandledBelow(s', n)
  {
    forall q: nat | Handled(s, q) ensures Handled(s', q) {
      HandledGrows(s, s', q);
    }
  }

  /** A step only appends to the log and to the history. */
  lemma {:induction false} HistoryGrows(s: State, step: Step)
    requires Enabled(s, step)
    ensures s.log <= Next(s, step).log && s.events <= Next(s, step).events
  {
  }

  lemma {:induction false} WriteCompletes(s: State, step: Step)
    requires Enabled(s, step) && step.Send? && step.ok
    requires s.processes[step.x].call.Deleted?
    requires ProcessOk(s, step.x, s.processes[step.x])
    ensures Handled(Next(s, step), s.processes[step.x].position.value)
  {
    var p := s.processes[step.x];
    var s' := Next(s, step);
    var first := Event.Call(step.x, Delete, p.position.value, p.call.token, true, true);
    var i :| 0 <= i < |s.events| && s.events[i] == first;
    assert s'.events[i] == first;
    assert CompletedBy(s'.events[i], s'.events[|s.events|], p.position.value);
  }

  /** Passing one handled message keeps everything below the position handled. */
  lemma {:induction false} HandledOneMore(s: State, at: nat)
    requires HandledBelow(s, at) && Handled(s, at)
    ensures HandledBelow(s, at + 1)
  {
  }

  /** A message that a process has just passed is handled. */
  lemma {:induction false} PassedIsHandled(s: State, step: Step)
    requires Enabled(s, step) && Inv(s) && (step.StoreOffset? || step.SkipTombstone?)
    ensures HandledBelow(Next(s, step), s.processes[step.x].position.value + 1)
  {
    var s' := Next(s, step);
    var p := s.processes[step.x];
    assert ProcessOk(s, step.x, p);
    HistoryGrows(s, step);
    ProcessOkGrows(s, s', step.x, p);
    HandledGrows(s, s', p.position.value);
    HandledOneMore(s', p.position.value);
  }

  lemma {:induction false} TrackedIsHandled(s: State, step: Step, x: ProcessId, v: nat)
    requires Enabled(s, step) && Inv(s) && Actor(step) == Some(x)
    requires Tracks(Next(s, step).processes[x], v)
    ensures HandledBelow(Next(s, step), v + 1)
  {
    TrackedComesFrom(s, step, v);
    HistoryGrows(s, step);
    if Tracks(s.processes[x], v) {
      ProcessOkGrows(s, Next(s, step), x, s.processes[x]);
    } else {
      PassedIsHandled(s, step);
    }
  }

  lemma {:induction false} CommittedStaysHandled(s: State, step: Step)
    requires Enabled(s, step) && Inv(s)
    ensures HandledBelow(Next(s, step), Next(s, step).committed)
  {
    var s' := Next(s, step);
    HistoryGrows(s, step);
    if step.Commit? && step.action.Submit? {
      assert Tracks(s.processes[step.x], s.processes[step.x].commits[step.w].offset);
    }
    forall q: nat | q < s'.committed ensures Handled(s', q) {
      assert Handled(s, q);
      HandledGrows(s, s', q);
    }
  }

  lemma {:induction false} PositionIsHandled(s: State, step: Step, x: ProcessId, q: nat)
    requires Enabled(s, step) && Inv(s) && Actor(step) == Some(x)
    requires Next(s, step).processes[x].position == Some(q)
    ensures HandledBelow(Next(s, step), q)
  {
    PositionComesFrom(s, step, q);
    HistoryGrows(s, step);
    if step.StoreOffset? || step.SkipTombstone? {
      PassedIsHandled(s, step);
    } else if step.Fetch? {
      CommittedStaysHandled(s, step);
    } else {
      ProcessOkGrows(s, Next(s, step), x, s.processes[x]);
    }
  }

  lemma {:induction false} CallStaysInOrder(s: State, step: Step, x: ProcessId)
    requires Enabled(s, step) && Inv(s) && Actor(step) == Some(x)
    ensures var p := Next(s, step).processes[x]; CallInOrder(Next(s, step), x, p.call, p.position)
  {
    var s' := Next(s, step);
    HistoryGrows(s, step);
    if !s'.processes[x].call.Idle? {
      CallComesFrom(s, step);
      var p := s.processes[x];
      ProcessOkGrows(s, s', x, p);
      if step.Send? && p.call.Checked? {
        assert s'.events[|s.events|] == Event.Call(x, Delete, p.position.value, p.call.token, true, true);
      } else if step.Send? {
        WriteCompletes(s, step);
      }
    }
  }

  lemma {:induction false} StepKeepsInv(s: State, step: Step)
    requires Enabled(s, step) && Inv(s)
    ensures Inv(Next(s, step))
  {
    var s' := Next(s, step);
    HistoryGrows(s, step);
    forall x | x in s'.processes ensures ProcessOk(s', x, s'.processes[x]) {
      if Actor(step) == Some(x) {
        forall v: nat | Tracks(s'.processes[x], v) ensures HandledBelow(s', v + 1) {
          TrackedIsHandled(s, step, x, v);
        }
        if s'.processes[x].position.Some? {
          PositionIsHandled(s, step, x, s'.processes[x].position.value);
        }
        CallStaysInOrder(s, step, x);
      } else {
        OthersUnchanged(s, step, x);
        ProcessOkGrows(s, s', x, s.processes[x]);
      }
    }
    CommittedStaysHandled(s, step);
  }

  /** In every state of every run, every message below the committed offset was processed or is a tombstone. */
  lemma {:induction false} CommittedIsHandled(base: set<Tuple>, states: seq<State>, steps: seq<Step>, i: nat)
    requires IsRun(base, states, steps) && i < |states|
    ensures HandledBelow(states[i], states[i].committed)
    ensures Inv(states[i])
  {
    if i > 0 {
      CommittedIsHandled(base, states, steps, i - 1);
      StepKeepsInv(states[i - 1], steps[i - 1]);
    }
  }
}
