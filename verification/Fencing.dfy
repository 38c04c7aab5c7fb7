/**
 Fencing over whole runs with any number of processes: a delete or write that takes effect always
 comes from the process that took the lock last.
 */
module Fencing {
  import opened Prelude
  import opened TupleLog
  import opened Replication

  /** `events[i]` is the last lock acquisition before `j`. */
  ghost predicate NewestAt(events: seq<Event>, i: nat, j: nat) {
    && i < j <= |events|
    && events[i].Acquired?
    && forall k :: i < k < j ==> !events[k].Acquired?
  }

  /** The newest token issued before `j` is `t`, and it went to `x`. */
  ghost predicate NewestIs(events: seq<Event>, j: nat, x: ProcessId, t: Token) {
    exists i: nat :: NewestAt(events, i, j) && events[i] == Acquired(x, t)
  }

  /** The call at `j` carries a token that was issued to its sender, the newest one if the call took effect. */
  ghost predicate CallIsFenced(events: seq<Event>, j: nat)
    requires j < |events|
  {
    var e := events[j];
    e.Call? ==>
      && Acquired(e.process, e.token) in events[..j]
      && (e.applied ==> NewestIs(events, j, e.process, e.token))
  }

  ghost predicate AllFenced(events: seq<Event>) {
    forall j :: 0 <= j < |events| ==> CallIsFenced(events, j)
  }

  ghost predicate TokenOk(s: State, x: ProcessId, t: Token) {
    Acquired(x, t) in s.events && t <= s.lock && (t == s.lock ==> s.holder == Some(x))
  }

  predicate PairOk(p: Process) {
    p.lockId.Some? <==> p.lockToken.Some?
  }

  ghost predicate ProcessOk(s: State, x: ProcessId, p: Process) {
    && PairOk(p)
    && forall t: Token :: Carries(p, t) ==> TokenOk(s, x, t)
  }

  ghost predicate HolderOk(s: State) {
    s.holder.Some? ==> NewestIs(s.events, |s.events|, s.holder.value, s.lock)
  }

  ghost predicate Inv(s: State) {
    && AllFenced(s.events)
    && HolderOk(s)
    && forall x :: x in s.processes ==> ProcessOk(s, x, s.processes[x])
  }

  lemma {:induction false} NewestGrows(events: seq<Event>, more: seq<Event>, j: nat, x: ProcessId, t: Token)
    requires events <= more && j <= |events| && NewestIs(events, j, x, t)
    ensures NewestIs(more, j, x, t)
  {
    var i: nat :| NewestAt(events, i, j) && events[i] == Acquired(x, t);
    assert NewestAt(more, i, j) && more[i] == Acquired(x, t);
  }

  lemma {:induction false} NewestAfter(events: seq<Event>, e: Event, x: ProcessId, t: Token)
    requires if e.Acquired? then e == Acquired(x, t) else NewestIs(events, |events|, x, t)
    ensures NewestIs(events + [e], |events| + 1, x, t)
  {
    var more := events + [e];
    if e.Acquired? {
      assert NewestAt(more, |events|, |events| + 1);
    } else {
      var i: nat :| NewestAt(events, i, |events|) && events[i] == Acquired(x, t);
      assert NewestAt(more, i, |events| + 1) && more[i] == Acquired(x, t);
    }
  }

  lemma {:induction false} FencedAfter(events: seq<Event>, e: Event)
    requires AllFenced(events)
    requires e.Call? ==>
      Acquired(e.process, e.token) in events && (e.applied ==> NewestIs(events, |events|, e.process, e.token))
    ensures AllFenced(events + [e])
  {
    var more := events + [e];
    forall j | 0 <= j < |more| ensures CallIsFenced(more, j) {
      if j < |events| {
        assert CallIsFenced(events, j);
        assert more[..j] == events[..j];
        if more[j].Call? && more[j].applied {
          NewestGrows(events, more, j, more[j].process, more[j].token);
        }
      } else {
        assert more[..j] == events;
        if e.Call? && e.applied {
          NewestGrows(events, more, j, e.process, e.token);
        }
      }
    }
  }

  lemma {:induction false} SharedKeepsFenced(s: State, step: Step)
    requires Enabled(s, step) && Inv(s)
    ensures AllFenced(Shared(s, step).events) && HolderOk(Shared(s, step))
  {
    var s' := Shared(s, step);
    if s'.events != s.events {
      var e := s'.events[|s.events|];
      assert s'.events == s.events + [e];
      if step.Send? {
        assert Carries(s.processes[step.x], s.processes[step.x].call.token);
      }
      FencedAfter(s.events, e);
      if s'.holder.Some? {
        NewestAfter(s.events, e, s'.holder.value, s'.lock);
      }
    }
  }

  /** A token stays good: issuing another one only makes it older. */
  lemma {:induction false} TokenStaysOk(s: State, step: Step, y: ProcessId, t: Token)
    requires Enabled(s, step) && TokenOk(s, y, t)
    ensures TokenOk(Shared(s, step), y, t)
  {
    var i :| 0 <= i < |s.events| && s.events[i] == Acquired(y, t);
    assert Shared(s, step).events[i] == Acquired(y, t);
  }

  lemma {:induction false} PairStaysWhole(s: State, step: Step)
    requires Enabled(s, step) && Actor(step).Some?
    requires step.Start? || PairOk(s.processes[step.x])
    ensures PairOk(Moved(s, step))
  {
    if step.Commit? {
      assert Moved(s, step) == CommitProgress(s.processes[step.x], step.w, step.action);
    }
  }

  lemma {:induction false} MovedStaysOk(s: State, step: Step)
    requires Enabled(s, step) && Inv(s) && Actor(step).Some?
    ensures ProcessOk(Shared(s, step), step.x, Moved(s, step))
  {
    var s' := Shared(s, step);
    PairStaysWhole(s, step);
    forall t: Token | Carries(Moved(s, step), t) ensures TokenOk(s', step.x, t) {
      TokenComesFrom(s, step, t);
      if Carries(s.processes[step.x], t) {
        TokenStaysOk(s, step, step.x, t);
      } else {
        assert s'.events[|s.events|] == Acquired(step.x, t);
      }
    }
  }

  lemma {:induction false} StepKeepsInv(s: State, step: Step)
    requires Enabled(s, step) && Inv(s)
    ensures Inv(Next(s, step))
  {
    var s', sh := Next(s, step), Shared(s, step);
    SharedKeepsFenced(s, step);
    forall x | x in s'.processes ensures ProcessOk(s', x, s'.processes[x]) {
      if Actor(step) == Some(x) {
        MovedStaysOk(s, step);
      } else {
        OthersUnchanged(s, step, x);
        forall t: Token | Carries(s.processes[x], t) ensures TokenOk(sh, x, t) {
          TokenStaysOk(s, step, x, t);
        }
      }
    }
  }

  lemma {:induction false} InvOverRuns(base: set<Tuple>, states: seq<State>, steps: seq<Step>, i: nat)
    requires IsRun(base, states, steps) && i < |states|
    ensures Inv(states[i])
  {
    if i > 0 {
      InvOverRuns(base, states, steps, i - 1);
      StepKeepsInv(states[i - 1], steps[i - 1]);
    }
  }

  /** In every state of every run, each process has both halves of the lock pair or neither. */
  lemma {:induction false} LockPairIsWhole(base: set<Tuple>, states: seq<State>, steps: seq<Step>, i: nat, x: ProcessId)
    requires IsRun(base, states, steps) && i < |states| && x in states[i].processes
    ensures PairOk(states[i].processes[x])
  {
    InvOverRuns(base, states, steps, i);
  }

  /** No call is sent without a token issued to its sender before. */
  lemma {:induction false} EveryCallIsFenced(base: set<Tuple>, states: seq<State>, steps: seq<Step>, i: nat, j: nat)
    requires IsRun(base, states, steps) && i < |states|
    requires j < |states[i].events| && states[i].events[j].Call?
    ensures var e := states[i].events[j]; Acquired(e.process, e.token) in states[i].events[..j]
  {
    InvOverRuns(base, states, steps, i);
    assert CallIsFenced(states[i].events, j);
  }

  /** Every call that takes effect between one acquisition and the next comes from the process that made the first. */
  lemma {:induction false} EffectsComeFromTheHolder(
      base: set<Tuple>, states: seq<State>, steps: seq<Step>, n: nat, i: nat, j: nat)
    requires IsRun(base, states, steps) && n < |states|
    requires NewestAt(states[n].events, i, j) && j < |states[n].events|
    requires states[n].events[j].Call? && states[n].events[j].applied
    ensures states[n].events[i] == Acquired(states[n].events[j].process, states[n].events[j].token)
  {
    var events := states[n].events;
    InvOverRuns(base, states, steps, n);
    assert CallIsFenced(events, j);
    var k: nat :| NewestAt(events, k, j) && events[k] == Acquired(events[j].process, events[j].token);
    assert k == i;
  }
}
