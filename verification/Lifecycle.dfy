/**
 What the consumer gets done, over the steps of the state machine: a commit does to the offsets what the
 offset manager promises, a message goes through or is left for a retry, and a lock, a pause, a stop and a
 death have their consequences.
 */
module Lifecycle {
  import opened Prelude
  import opened TupleLog
  import opened Replication
  import Offsets

  /** The steps, taken one after the other, lead from `s` to `s'`. */
  ghost predicate Leads(s: State, steps: seq<Step>, s': State)
    decreases |steps|
  {
    if steps == [] then s == s' else Enabled(s, steps[0]) && Leads(Next(s, steps[0]), steps[1..], s')
  }

  lemma {:induction false} LeadsBy(s: State, step: Step, rest: seq<Step>, s': State)
    requires Enabled(s, step) && Leads(Next(s, step), rest, s')
    ensures Leads(s, [step] + rest, s')
  {
    assert ([step] + rest)[1..] == rest;
  }

  lemma {:induction false} LeadsOne(s: State, step: Step)
    requires Enabled(s, step)
    ensures Leads(s, [step], Next(s, step))
  {
    assert Leads(Next(s, step), [], Next(s, step));
    assert [step][1..] == [];
  }

  lemma {:induction false} LeadsOnward(s: State, a: seq<Step>, s1: State, b: seq<Step>, s': State)
    requires Leads(s, a, s1) && Leads(s1, b, s')
    ensures Leads(s, a + b, s')
    decreases |a|
  {
    if a == [] {
      assert a + b == b;
    } else {
      LeadsOnward(Next(s, a[0]), a[1..], s1, b, s');
      assert (a + b)[1..] == a[1..] + b;
    }
  }

  /** The state with one process replaced. */
  function With(s: State, x: ProcessId, p: Process): State {
    s.(processes := s.processes[x := p])
  }

  /** The one partition's stored offset as the offset manager keeps it. */
  function Kept(tp: Offsets.Partition, stored: Option<nat>): map<Offsets.Partition, Offsets.Entry> {
    if stored.Some? then map[tp := Offsets.Entry(stored.value, None)] else map[]
  }

  /** The parts of a commit that nobody disturbs. */
  function CommitSteps(x: ProcessId, w: Worker, owned: bool, answer: Offsets.Answer): seq<Step> {
    if !owned then [Commit(x, w, Copy), Commit(x, w, Filter(false))]
    else [Commit(x, w, Copy), Commit(x, w, Filter(true)),
          Commit(x, w, Submit(answer != Offsets.Error(false), answer.Ok?)),
          Commit(x, w, if answer.Ok? then Clear else Restore)]
  }

  /** What is left of a worker's commit when it is over. */
  lemma {:induction false} CommitIsOver(commits: map<Worker, CommitStage>, w: Worker, stage: CommitStage)
    requires w !in commits
    ensures commits[w := stage] - {w} == commits
  {
  }

  lemma {:induction false} Submitted(s: State, x: ProcessId, w: Worker, answer: Offsets.Answer) returns (s': State)
    requires Running(s, x) && w in s.processes[x].commits && s.processes[x].commits[w].Filtered?
    requires answer != Offsets.Error(false) ==> s.assignee == Some(x)
    ensures Enabled(s, Commit(x, w, Submit(answer != Offsets.Error(false), answer.Ok?)))
    ensures s' == Next(s, Commit(x, w, Submit(answer != Offsets.Error(false), answer.Ok?)))
    ensures
      var p, v := s.processes[x], s.processes[x].commits[w].offset;
      s' == With(
        s.(committed := if answer == Offsets.Error(false) then s.committed else v + 1), x,
        p.(commits := p.commits[w := if answer.Ok? then Accepted(v) else Failed(v)]))
  {
    s' := Next(s, Commit(x, w, Submit(answer != Offsets.Error(false), answer.Ok?)));
  }

  /** The last part: the store is emptied after a success, and after a failure it has the copy back. */
  lemma {:induction false} Concluded(s: State, x: ProcessId, w: Worker, ok: bool) returns (s': State)
    requires Running(s, x) && w in s.processes[x].commits
    requires if ok then s.processes[x].commits[w].Accepted? else s.processes[x].commits[w].Failed?
    ensures Enabled(s, Commit(x, w, if ok then Clear else Restore))
    ensures s' == Next(s, Commit(x, w, if ok then Clear else Restore))
    ensures
      var p, p' := s.processes[x], s'.processes[x];
      && s' == With(s, x, p.(commits := p.commits - {w}, stored := p'.stored))
      && (ok ==> p'.stored == None)
      && (!ok ==> p'.stored.Some? && p.commits[w].offset <= p'.stored.value)
      && (!ok && p.stored.Some? ==> p.stored.value <= p'.stored.value)
      && (!ok ==> p'.stored == Some(p.commits[w].offset) || p'.stored == p.stored)
  {
    s' := Next(s, Commit(x, w, if ok then Clear else Restore));
  }

  /** From the broker's answer to the end. */
  lemma {:induction false} Answered(s: State, x: ProcessId, w: Worker, answer: Offsets.Answer) returns (s': State)
    requires Running(s, x) && w in s.processes[x].commits && s.processes[x].commits[w].Filtered?
    requires s.processes[x].stored == Some(s.processes[x].commits[w].offset)
    requires answer != Offsets.Error(false) ==> s.assignee == Some(x)
    ensures
      var steps := CommitSteps(x, w, true, answer);
      Leads(s, steps[2..], s')
    ensures
      var p, v := s.processes[x], s.processes[x].commits[w].offset;
      s' == With(
        s.(committed := if answer == Offsets.Error(false) then s.committed else v + 1), x,
        p.(commits := p.commits - {w}, stored := if answer.Ok? then None else p.stored))
  {
    var steps := CommitSteps(x, w, true, answer);
    var s1 := Submitted(s, x, w, answer);
    s' := Concluded(s1, x, w, answer.Ok?);
    assert s1.processes[x].commits - {w} == s.processes[x].commits - {w};
    assert s'.processes == s.processes[x := s'.processes[x]];
    LeadsOne(s1, steps[3]);
    LeadsBy(s, steps[2], [steps[3]], s');
    assert steps[2..] == [steps[2]] + [steps[3]];
  }

  /** Copy and filter: the partition is found assigned. */
  lemma {:induction false} FoundAssigned(s: State, x: ProcessId, w: Worker) returns (s': State)
    requires Running(s, x) && CommitEnabled(s.processes[x], w, Copy)
    ensures Leads(s, [Commit(x, w, Copy), Commit(x, w, Filter(true))], s')
    ensures
      var p := s.processes[x];
      s' == With(s, x, p.(commits := p.commits[w := Filtered(p.stored.value)]))
  {
    var s1 := Next(s, Commit(x, w, Copy));
    s' := Next(s1, Commit(x, w, Filter(true)));
    assert s'.processes[x].commits == s.processes[x].commits[w := Filtered(s.processes[x].stored.value)];
    assert s'.processes == s.processes[x := s'.processes[x]];
    LeadsOne(s1, Commit(x, w, Filter(true)));
    LeadsBy(s, Commit(x, w, Copy), [Commit(x, w, Filter(true))], s');
    assert [Commit(x, w, Copy)] + [Commit(x, w, Filter(true))] == [Commit(x, w, Copy), Commit(x, w, Filter(true))];
  }

  /** A commit of any worker that nobody disturbs, from its first part to its last. */
  lemma {:induction false} CommitGoesThrough(s: State, x: ProcessId, w: Worker, answer: Offsets.Answer)
    returns (s': State)
    requires Running(s, x) && CommitEnabled(s.processes[x], w, Copy)
    requires answer != Offsets.Error(false) ==> s.assignee == Some(x)
    ensures Leads(s, CommitSteps(x, w, true, answer), s')
    ensures s' == With(
      s.(committed := if answer == Offsets.Error(false) then s.committed else s.processes[x].stored.value + 1), x,
      s.processes[x].(stored := if answer.Ok? then None else s.processes[x].stored))
  {
    var steps, p := CommitSteps(x, w, true, answer), s.processes[x];
    var s2 := FoundAssigned(s, x, w);
    s' := Answered(s2, x, w, answer);
    var stage := s2.processes[x].commits[w];
    CommitIsOver(p.commits, w, stage);
    assert s'.processes[x].commits == p.commits;
    assert s'.processes == s.processes[x := s'.processes[x]];
    LeadsOnward(s, [steps[0], steps[1]], s2, steps[2..], s');
    assert steps == [steps[0], steps[1]] + steps[2..];
  }

  /** A commit that finds the partition unassigned gives up and changes nothing. */
  lemma {:induction false} CommitGivesUp(s: State, x: ProcessId, w: Worker, answer: Offsets.Answer)
    requires Running(s, x) && CommitEnabled(s.processes[x], w, Copy)
    ensures Leads(s, CommitSteps(x, w, false, answer), s)
  {
    var steps, p := CommitSteps(x, w, false, answer), s.processes[x];
    var s1 := Next(s, steps[0]);
    CommitIsOver(p.commits, w, Copied(p.stored.value));
    assert Next(s1, steps[1]).processes == s.processes;
    LeadsOne(s1, steps[1]);
    LeadsBy(s, steps[0], [steps[1]], s);
    assert steps == [steps[0]] + [steps[1]];
  }

  /**
   The commit of the state machine, in one partition, is the commit of the offset manager: the same offsets
   stored, the same at the broker, whether the partition is found assigned and whatever the broker answers.
   */
  lemma {:induction false} CommitAgrees(
      s: State, x: ProcessId, w: Worker, tp: Offsets.Partition, owned: bool, answer: Offsets.Answer) returns (s': State)
    requires Running(s, x) && CommitEnabled(s.processes[x], w, Copy)
    requires owned && answer != Offsets.Error(false) ==> s.assignee == Some(x)
    ensures Leads(s, CommitSteps(x, w, owned, answer), s') && x in s'.processes
    ensures (Kept(tp, s'.processes[x].stored), map[tp := s'.committed])
         == Offsets.AfterCommit(
              Kept(tp, s.processes[x].stored), map[tp := s.committed], if owned then {tp} else {}, answer)
  {
    var kept := Kept(tp, s.processes[x].stored);
    assert kept.Keys == {tp};
    if owned {
      s' := CommitGoesThrough(s, x, w, answer);
      assert tp in kept.Keys * {tp};
      assert map[tp := s.committed] + Offsets.Request(kept, {tp})
          == map[tp := s.processes[x].stored.value + 1];
    } else {
      CommitGivesUp(s, x, w, answer);
      s' := s;
      assert kept.Keys * {} == {};
    }
  }

  function CallSteps(x: ProcessId): seq<Step> {
    [ReadLock(x), Send(x, true, true), Send(x, true, true)]
  }

  function FinishingSteps(x: ProcessId, sent: bool): seq<Step> {
    [Notify(x, sent), StoreOffset(x)]
  }

  /** The steps of a message that goes through at the first attempt. */
  function MessageSteps(x: ProcessId, sent: bool): seq<Step> {
    CallSteps(x) + FinishingSteps(x, sent)
  }

  /** The delete and the write of a message, under the newest token. */
  lemma {:induction false} BothCallsGoThrough(s: State, x: ProcessId) returns (s': State)
    requires Enabled(s, ReadLock(x)) && s.processes[x].lockToken == Some(s.lock)
    ensures Leads(s, CallSteps(x), s')
    ensures x in s'.processes && s'.processes == s.processes[x := s.processes[x].(call := Written(s.lock))]
    ensures s'.store == Apply(s.store, Current(s, x))
    ensures s'.log == s.log && s'.committed == s.committed && s'.assignee == s.assignee && s'.lock == s.lock
    ensures
      var at := s.processes[x].position.value;
      s'.events == s.events
        + [Event.Call(x, Delete, at, s.lock, true, true), Event.Call(x, Write, at, s.lock, true, true)]
  {
    var s1 := Next(s, ReadLock(x));
    var s2 := Next(s1, Send(x, true, true));
    s' := Next(s2, Send(x, true, true));
    LeadsOne(s2, Send(x, true, true));
    LeadsBy(s1, Send(x, true, true), [Send(x, true, true)], s');
    LeadsBy(s, ReadLock(x), [Send(x, true, true)] + [Send(x, true, true)], s');
    assert [ReadLock(x)] + ([Send(x, true, true)] + [Send(x, true, true)]) == CallSteps(x);
  }

  /** The notice and the offset of a message that was written. */
  lemma {:induction false} MessageIsFinished(s: State, x: ProcessId, sent: bool) returns (s': State)
    requires Enabled(s, Notify(x, sent))
    ensures Leads(s, FinishingSteps(x, sent), s')
    ensures s'.events == s.events + if sent then [Event.Notice(Current(s, x).notice.value)] else []
    ensures s' == With(s, x, s.processes[x].(
      call := Idle, stored := s.processes[x].position,
      position := Some(s.processes[x].position.value + 1))).(events := s'.events)
  {
    var s1 := Next(s, Notify(x, sent));
    s' := Next(s1, StoreOffset(x));
    LeadsOne(s1, StoreOffset(x));
    LeadsBy(s, Notify(x, sent), [StoreOffset(x)], s');
    assert [Notify(x, sent)] + [StoreOffset(x)] == FinishingSteps(x, sent);
  }

  /**
   A process with the newest token works through a message: the tuple store is the message applied, one
   delete and one write are sent for it in that order, its notice may be sent, its offset is stored, and
   the process goes on with the next message.
   */
  lemma {:induction false} MessageGoesThrough(s: State, x: ProcessId, sent: bool) returns (s': State)
    requires Enabled(s, ReadLock(x)) && s.processes[x].lockToken == Some(s.lock)
    requires sent ==> Current(s, x).notice.Some?
    ensures Leads(s, MessageSteps(x, sent), s')
    ensures s'.store == Apply(s.store, Current(s, x)) && s'.committed == s.committed && s'.log == s.log
    ensures x in s'.processes && s'.processes == s.processes[x := s.processes[x].(
      stored := s.processes[x].position, position := Some(s.processes[x].position.value + 1))]
    ensures
      var at := s.processes[x].position.value;
      s'.events == s.events
        + [Event.Call(x, Delete, at, s.lock, true, true), Event.Call(x, Write, at, s.lock, true, true)]
        + if sent then [Event.Notice(Current(s, x).notice.value)] else []
  {
    var s1 := BothCallsGoThrough(s, x);
    s' := MessageIsFinished(s1, x, sent);
    LeadsOnward(s, CallSteps(x), s1, FinishingSteps(x, sent), s');
  }

  /** A call that fails leaves the message to be retried: nothing is stored and the position stays. */
  lemma {:induction false} FailedCallIsRetried(s: State, x: ProcessId, applied: bool)
    requires Enabled(s, Send(x, applied, false))
    ensures var s' := Next(s, Send(x, applied, false));
      && s'.processes == s.processes[x := s.processes[x].(call := Idle)]
      && s'.committed == s.committed
      && (!applied ==> s'.store == s.store)
      && ((s.processes[x].lockId.Some? && s.processes[x].lockToken.Some?
           && (Current(s, x).remove != {} || Current(s, x).add != {})) ==> Enabled(s', ReadLock(x)))
  {
  }

  /** A tombstone is passed without a call, and its offset is stored like any other. */
  lemma {:induction false} TombstoneIsPassed(s: State, x: ProcessId)
    requires AtMessage(s, x) && s.processes[x].call.Idle? && Current(s, x).Tombstone?
    ensures Enabled(s, SkipTombstone(x))
    ensures var s' := Next(s, SkipTombstone(x));
      && s'.store == s.store && s'.events == s.events && s'.committed == s.committed
      && s'.processes == s.processes[x := s.processes[x].(
           stored := s.processes[x].position, position := Some(s.processes[x].position.value + 1))]
  {
  }

  /** A message that the validator rejects, or that has nothing to do, is never passed. */
  lemma {:induction false} RejectedIsNeverPassed(s: State, step: Step, x: ProcessId)
    requires Enabled(s, step) && AtMessage(s, x) && s.processes[x].call.Idle? && !Current(s, x).Tombstone?
    requires !(Current(s, x).Batch? && (Current(s, x).remove != {} || Current(s, x).add != {}))
    ensures Next(s, step).processes[x].call.Idle?
    ensures step == Assign(x) || Next(s, step).processes[x].position == s.processes[x].position
  {
    if step.Commit? && step.x == x {
      assert Moved(s, step) == CommitProgress(s.processes[x], step.w, step.action);
    }
  }

  /** Taking the lock gives the process the newest token, and makes every older one stale. */
  lemma {:induction false} LockIsTaken(s: State, x: ProcessId)
    requires Running(s, x)
    ensures Enabled(s, Acquire(x))
    ensures var s' := Next(s, Acquire(x));
      && s'.lock > s.lock && s'.holder == Some(x)
      && s'.processes[x].lockId.Some? && s'.processes[x].lockToken == Some(s'.lock) && !s'.processes[x].lockFailed
      && forall y, applied, ok ::
           (y in s.processes && !s.processes[y].call.Idle? && s.processes[y].call.token <= s.lock
            && Enabled(s', Send(y, applied, ok))) ==> !applied && !ok
  {
  }

  /** Without the lock, because it was dropped or could not be taken, no message is started. */
  lemma {:induction false} NoLockNoMessage(s: State, x: ProcessId, step: Step)
    requires step == DropLock(x) || step == AcquireFails(x, true) || step == AcquireFails(x, false)
    requires Enabled(s, step) && (s.processes[x].lockId.Some? <==> s.processes[x].lockToken.Some?)
    ensures var s' := Next(s, step);
      && s'.processes[x].lockId.None? && s'.processes[x].lockToken.None?
      && !Enabled(s', ReadLock(x))
      && (step.AcquireFails? ==> !Enabled(s', SkipTombstone(x)) && s'.processes[x].lockFailed)
  {
  }

  /** A new process has nothing; an assigned one starts from the committed offset. */
  lemma {:induction false} StartsFromCommitted(s: State, x: ProcessId)
    requires x !in s.processes
    ensures Enabled(s, Start(x)) && Enabled(Next(s, Start(x)), Assign(x))
    ensures Enabled(Next(Next(s, Start(x)), Assign(x)), Fetch(x))
    ensures
      var s' := Next(Next(Next(s, Start(x)), Assign(x)), Fetch(x));
      var p := s'.processes[x];
      && s'.assignee == Some(x) && p.position == Some(s.committed)
      && p.live && p.lockId.None? && p.lockToken.None? && p.stored.None? && p.commits == map[]
      && p.call.Idle? && !p.paused && !p.stopping && !p.lockFailed
  {
  }

  predicate WorksOn(step: Step, x: ProcessId) {
    (step.ReadLock? || step.Send? || step.Notify? || step.StoreOffset? || step.SkipTombstone?) && step.x == x
  }

  /** What a paused, a stopping and a dead process no longer does, and that there is no way back. */
  lemma {:induction false} NoWayBack(s: State, step: Step, x: ProcessId)
    requires Enabled(s, step) && x in s.processes
    ensures x in Next(s, step).processes
    ensures !s.processes[x].live ==> Actor(step) != Some(x) && !Next(s, step).processes[x].live
    ensures s.processes[x].paused ==> !WorksOn(step, x) && Next(s, step).processes[x].paused
    ensures s.processes[x].paused ==> step != Commit(x, Shutdown, Copy)
    ensures s.processes[x].stopping ==> Next(s, step).processes[x].stopping
    ensures s.processes[x].stopping ==> step != Commit(x, Rebalance, Copy) && step != DropLock(x)
    ensures !s.processes[x].stopping ==> step != Commit(x, Shutdown, Copy)
  {
    if step.Commit? && step.x == x {
      assert Moved(s, step) == CommitProgress(s.processes[x], step.w, step.action);
    }
  }

  /** Pausing, stopping and dying take effect at once. */
  lemma {:induction false} TakesEffect(s: State, x: ProcessId)
    requires Running(s, x)
    ensures Enabled(s, Die(x)) && !Running(Next(s, Die(x)), x)
    ensures Enabled(s, Stop(x)) && Next(s, Stop(x)).processes[x].stopping
    ensures s.processes[x].call.Idle? ==> Enabled(s, Pause(x)) && Next(s, Pause(x)).processes[x].paused
    ensures s.processes[x].stored.Some? && Shutdown !in s.processes[x].commits && !s.processes[x].paused ==>
      Enabled(Next(s, Stop(x)), Commit(x, Shutdown, Copy))
  {
  }

  /** While the partition is assigned to nobody, the broker takes no offset from anybody. */
  lemma {:induction false} UnassignedCommitsNothing(s: State, x: ProcessId, w: Worker, ok: bool)
    ensures Enabled(s, Unassign) && Next(s, Unassign).assignee.None?
    ensures !Enabled(Next(s, Unassign), Commit(x, w, Submit(true, ok)))
  {
  }

  /** A message is started only with both halves of the lock. */
  lemma {:induction false} HalfALockIsNone(s: State, x: ProcessId)
    requires x in s.processes && (s.processes[x].lockId.None? || s.processes[x].lockToken.None?)
    ensures !Enabled(s, ReadLock(x))
  {
  }

  /** An acquisition whose answer is lost has made every older token stale nevertheless. */
  lemma {:induction false} LostTokenCounts(s: State, x: ProcessId)
    requires Running(s, x)
    ensures Enabled(s, AcquireFails(x, true)) && Next(s, AcquireFails(x, true)).lock > s.lock
    ensures Next(s, AcquireFails(x, true)).holder == Some(x)
    ensures Enabled(s, AcquireFails(x, false)) && Next(s, AcquireFails(x, false)).lock == s.lock
  {
  }
}
