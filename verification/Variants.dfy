/**
 Runs that differ only in the tuples that the messages carry, and the exact condition for convergence
 over all runs: the last calls for the messages below the committed offset came in log order.
 */
module Variants {
  import opened Prelude
  import opened TupleLog
  import opened Replication
  import opened CallOrder
  import AtLeastOnce
  import Convergence

  /** What a process works on is a message that calls are sent for. */
  predicate BusyOk(s: State, p: Process) {
    p.call.Idle? || (p.position.Some? && p.position.value < |s.log| && Callable(s.log[p.position.value]))
  }

  ghost predicate Inv(s: State) {
    Fits(EffectsOf(s.events), s.log) && forall x :: x in s.processes ==> BusyOk(s, s.processes[x])
  }

  /** The effect of a step on the tuple store, if it has one. */
  function EffectOf(s: State, step: Step): Option<Effect>
    requires Enabled(s, step)
  {
    if step.Send? && step.applied then
      Some(Effect(if s.processes[step.x].call.Checked? then Delete else Write, s.processes[step.x].position.value))
    else None
  }

  lemma {:induction false} EffectsAppend(events: seq<Event>, e: Event)
    ensures EffectsOf(events + [e]) ==
      EffectsOf(events) + if e.Call? && e.applied then [Effect(e.kind, e.offset)] else []
  {
    assert (events + [e])[..|events|] == events;
  }

  lemma {:induction false} EffectsGrow(s: State, step: Step)
    requires Enabled(s, step)
    ensures EffectsOf(Next(s, step).events) ==
      EffectsOf(s.events) + if EffectOf(s, step).Some? then [EffectOf(s, step).value] else []
  {
    var s' := Next(s, step);
    if s'.events != s.events {
      EffectsAppend(s.events, s'.events[|s.events|]);
      assert s'.events == s.events + [s'.events[|s.events|]];
    }
  }

  lemma {:induction false} BusyStaysOk(s: State, step: Step, x: ProcessId)
    requires Enabled(s, step) && Inv(s) && x in Next(s, step).processes
    ensures BusyOk(Next(s, step), Next(s, step).processes[x])
  {
    AtLeastOnce.HistoryGrows(s, step);
    if Actor(step) == Some(x) {
      if !Moved(s, step).call.Idle? {
        CallComesFrom(s, step);
        assert BusyOk(s, s.processes[x]);
      }
    } else {
      OthersUnchanged(s, step, x);
      assert BusyOk(s, s.processes[x]);
    }
  }

  lemma {:induction false} StepKeepsInv(s: State, step: Step)
    requires Enabled(s, step) && Inv(s)
    ensures Inv(Next(s, step))
  {
    var s' := Next(s, step);
    EffectsGrow(s, step);
    AtLeastOnce.HistoryGrows(s, step);
    if EffectOf(s, step).Some? {
      assert BusyOk(s, s.processes[step.x]);
    }
    forall x | x in s'.processes ensures BusyOk(s', s'.processes[x]) {
      BusyStaysOk(s, step, x);
    }
  }

  lemma {:induction false} InvOverRuns(base: set<Tuple>, states: seq<State>, steps: seq<Step>, i: nat)
    requires IsRun(base, states, steps) && i < |states|
    ensures Inv(states[i])
  {
    if i > 0 {
      InvOverRuns(base, states, steps, i - 1);
      StepKeepsInv(states[i - 1], steps[i - 1]);
    }
  }

  /** `log` continues a log of the same shape as that of `s`. */
  ghost predicate Suits(s: State, log: seq<Message>) {
    |s.log| <= |log| && SameShape(s.log, log[..|s.log|])
  }

  lemma {:induction false} SuitsFits(s: State, log: seq<Message>)
    requires Inv(s) && Suits(s, log)
    ensures Fits(EffectsOf(s.events), log)
  {
    var w := EffectsOf(s.events);
    forall k | 0 <= k < |w| ensures w[k].offset < |log| && Callable(log[w[k].offset]) {
      assert log[..|s.log|][w[k].offset] == log[w[k].offset];
    }
  }

  /** The state after the same steps from another store with other tuples in the messages. */
  ghost function Variant(s: State, base: set<Tuple>, log: seq<Message>): State
    requires |s.log| <= |log| && Fits(EffectsOf(s.events), log)
  {
    s.(base := base, log := log[..|s.log|], store := Outcome(base, log, EffectsOf(s.events)))
  }

  function VariantStep(s: State, step: Step, log: seq<Message>): Step
    requires step.Produce? ==> |s.log| < |log|
  {
    if step.Produce? then Produce(log[|s.log|]) else step
  }

  lemma {:induction false} SuitedBefore(s: State, step: Step, log: seq<Message>)
    requires Enabled(s, step) && Suits(Next(s, step), log)
    ensures Suits(s, log) && (step.Produce? ==> |s.log| < |log|)
  {
    var s' := Next(s, step);
    AtLeastOnce.HistoryGrows(s, step);
    assert s.log == s'.log[..|s.log|];
    assert log[..|s'.log|][..|s.log|] == log[..|s.log|];
  }

  /** No guard looks at the tuples. */
  lemma {:induction false} VariantIsEnabled(s: State, step: Step, base: set<Tuple>, log: seq<Message>)
    requires Enabled(s, step) && Inv(s) && Suits(s, log) && Fits(EffectsOf(s.events), log)
    requires step.Produce? ==> |s.log| < |log|
    ensures Enabled(Variant(s, base, log), VariantStep(s, step, log))
  {
    if Actor(step).Some? && !step.Start? {
      assert BusyOk(s, s.processes[step.x]);
    }
  }

  ghost predicate Ready(s: State, step: Step, log: seq<Message>) {
    && Enabled(s, step)
    && Inv(s)
    && Suits(s, log)
    && Suits(Next(s, step), log)
    && Fits(EffectsOf(s.events), log)
    && Fits(EffectsOf(Next(s, step).events), log)
    && (step.Produce? ==> |s.log| < |log|)
  }

  lemma {:induction false} VariantMoves(s: State, step: Step, base: set<Tuple>, log: seq<Message>)
    requires Ready(s, step, log) && Actor(step).Some?
    ensures Enabled(Variant(s, base, log), step)
    ensures Moved(Variant(s, base, log), step) == Moved(s, step)
  {
    VariantIsEnabled(s, step, base, log);
  }

  lemma {:induction false} VariantSendsInVain(s: State, step: Step, base: set<Tuple>, log: seq<Message>)
    requires Ready(s, step, log) && step.Send? && !step.applied
    ensures Enabled(Variant(s, base, log), step)
    ensures Shared(Variant(s, base, log), step) == Variant(Shared(s, step), base, log)
  {
    VariantIsEnabled(s, step, base, log);
    EffectsGrow(s, step);
  }

  lemma {:induction false} OutcomeAppend(base: set<Tuple>, log: seq<Message>, w: seq<Effect>, e: Effect)
    requires Fits(w, log) && e.offset < |log| && Callable(log[e.offset])
    ensures Fits(w + [e], log)
    ensures Outcome(base, log, w + [e]) == Effected(Outcome(base, log, w), log[e.offset], e.kind)
  {
    assert (w + [e])[..|w|] == w && (w + [e])[|w|] == e;
  }

  /** A call that takes effect, as a change of the shared state. */
  lemma {:induction false} SendIs(s: State, step: Step)
    requires Enabled(s, step) && step.Send? && step.applied
    ensures
      var e, s' := EffectOf(s, step).value, Shared(s, step);
      && e.offset < |s.log| && s.log[e.offset].Batch?
      && s' == s.(events := s'.events, store := s'.store, reached := s'.reached, front := s'.front)
      && s'.store == Effected(s.store, s.log[e.offset], e.kind)
      && s'.reached == Max(s.reached, e.offset + 1)
      && s'.front == (if e.kind.Write? && step.ok then e.offset + 1 else e.offset)
      && s'.events == s.events + [Event.Call(step.x, e.kind, e.offset, s.processes[step.x].call.token, true, step.ok)]
  {
  }

  lemma {:induction false} VariantSends(s: State, step: Step, base: set<Tuple>, log: seq<Message>)
    requires Ready(s, step, log) && step.Send? && step.applied
    ensures Enabled(Variant(s, base, log), step)
    ensures Shared(Variant(s, base, log), step) == Variant(Shared(s, step), base, log)
  {
    var e, v := EffectOf(s, step).value, Variant(s, base, log);
    VariantIsEnabled(s, step, base, log);
    EffectsGrow(s, step);
    assert BusyOk(s, s.processes[step.x]);
    assert e.offset < |s.log| && Callable(log[..|s.log|][e.offset]);
    assert v.log[e.offset] == log[e.offset];
    OutcomeAppend(base, log, EffectsOf(s.events), e);
    SendIs(s, step);
    SendIs(v, step);
  }

  lemma {:induction false} VariantNotifies(s: State, step: Step, base: set<Tuple>, log: seq<Message>)
    requires Ready(s, step, log) && step.Notify?
    ensures Enabled(Variant(s, base, log), step)
    ensures Shared(Variant(s, base, log), step) == Variant(Shared(s, step), base, log)
  {
    VariantIsEnabled(s, step, base, log);
    EffectsGrow(s, step);
    assert BusyOk(s, s.processes[step.x]);
    assert Current(Variant(s, base, log), step.x).notice == Current(s, step.x).notice;
  }

  lemma {:induction false} VariantProduces(s: State, step: Step, base: set<Tuple>, log: seq<Message>)
    requires Ready(s, step, log) && step.Produce?
    ensures Shared(Variant(s, base, log), VariantStep(s, step, log)) == Variant(Shared(s, step), base, log)
  {
    assert log[..|s.log|] + [log[|s.log|]] == log[..|s.log| + 1];
  }

  lemma {:induction false} VariantIssues(s: State, step: Step, base: set<Tuple>, log: seq<Message>)
    requires Ready(s, step, log) && Convergence.Issues(step)
    ensures Enabled(Variant(s, base, log), step)
    ensures Shared(Variant(s, base, log), step) == Variant(Shared(s, step), base, log)
  {
    VariantIsEnabled(s, step, base, log);
    EffectsGrow(s, step);
  }

  /** The steps that leave the log, the tuple store and the history alone. */
  predicate Quiet(step: Step) {
    !step.Send? && !step.Notify? && !step.Produce? && !Convergence.Issues(step)
  }

  lemma {:induction false} VariantShares(s: State, step: Step, base: set<Tuple>, log: seq<Message>)
    requires Ready(s, step, log) && Quiet(step)
    ensures Enabled(Variant(s, base, log), step)
    ensures Shared(Variant(s, base, log), step) == Variant(Shared(s, step), base, log)
  {
    VariantIsEnabled(s, step, base, log);
    assert Shared(s, step).events == s.events;
  }

  /** A step of the variant is the variant of the step. */
  lemma {:induction false} VariantSteps(s: State, step: Step, base: set<Tuple>, log: seq<Message>)
    requires Ready(s, step, log)
    ensures Enabled(Variant(s, base, log), VariantStep(s, step, log))
    ensures Next(Variant(s, base, log), VariantStep(s, step, log)) == Variant(Next(s, step), base, log)
  {
    if step.Send? && step.applied {
      VariantSends(s, step, base, log);
    } else if step.Send? {
      VariantSendsInVain(s, step, base, log);
    } else if step.Notify? {
      VariantNotifies(s, step, base, log);
    } else if step.Produce? {
      VariantProduces(s, step, base, log);
    } else if Convergence.Issues(step) {
      VariantIssues(s, step, base, log);
    } else {
      VariantShares(s, step, base, log);
    }
    if Actor(step).Some? {
      VariantMoves(s, step, base, log);
    }
  }

  lemma {:induction false} SuitsAll(base: set<Tuple>, states: seq<State>, steps: seq<Step>, log: seq<Message>, i: nat)
    requires IsRun(base, states, steps) && i < |states| && Suits(states[|steps|], log)
    ensures Suits(states[i], log) && Inv(states[i]) && Fits(EffectsOf(states[i].events), log)
    ensures i < |steps| ==> Ready(states[i], steps[i], log)
    decreases |steps| - i
  {
    if i < |steps| {
      SuitsAll(base, states, steps, log, i + 1);
      SuitedBefore(states[i], steps[i], log);
    }
    InvOverRuns(base, states, steps, i);
    SuitsFits(states[i], log);
  }

  ghost predicate AllSuited(states: seq<State>, steps: seq<Step>, log: seq<Message>) {
    && |states| == |steps| + 1
    && (forall i :: 0 <= i < |states| ==> |states[i].log| <= |log| && Fits(EffectsOf(states[i].events), log))
    && (forall i :: 0 <= i < |steps| && steps[i].Produce? ==> |states[i].log| < |log|)
  }

  ghost function VariantStates(states: seq<State>, steps: seq<Step>, base: set<Tuple>, log: seq<Message>): seq<State>
    requires AllSuited(states, steps, log)
  {
    seq(|states|, i requires 0 <= i < |states| => Variant(states[i], base, log))
  }

  ghost function VariantRun(states: seq<State>, steps: seq<Step>, log: seq<Message>): seq<Step>
    requires AllSuited(states, steps, log)
  {
    seq(|steps|, i requires 0 <= i < |steps| => VariantStep(states[i], steps[i], log))
  }

  lemma {:induction false} RunIsSuited(base: set<Tuple>, states: seq<State>, steps: seq<Step>, log: seq<Message>)
    requires IsRun(base, states, steps) && Suits(states[|steps|], log)
    ensures AllSuited(states, steps, log)
  {
    forall i | 0 <= i < |states|
      ensures |states[i].log| <= |log| && Fits(EffectsOf(states[i].events), log)
      ensures i < |steps| && steps[i].Produce? ==> |states[i].log| < |log|
    {
      SuitsAll(base, states, steps, log, i);
    }
  }

  /** Other tuples in the messages give another run of the same steps. */
  lemma {:induction false} VariantIsRun(
      was: set<Tuple>, states: seq<State>, steps: seq<Step>, base: set<Tuple>, log: seq<Message>)
    requires IsRun(was, states, steps) && Suits(states[|steps|], log) && AllSuited(states, steps, log)
    ensures IsRun(base, VariantStates(states, steps, base, log), VariantRun(states, steps, log))
  {
    var others, otherSteps := VariantStates(states, steps, base, log), VariantRun(states, steps, log);
    assert log[..0] == [];
    forall i | 0 <= i < |steps|
      ensures Enabled(others[i], otherSteps[i]) && others[i + 1] == Next(others[i], otherSteps[i])
    {
      SuitsAll(was, states, steps, log, i);
      VariantSteps(states[i], steps[i], base, log);
    }
  }

  lemma {:induction false} LogIsPrefix(base: set<Tuple>, states: seq<State>, steps: seq<Step>, i: nat)
    requires IsRun(base, states, steps) && i < |states|
    ensures states[i].log <= states[|steps|].log
    decreases |steps| - i
  {
    if i < |steps| {
      LogIsPrefix(base, states, steps, i + 1);
      AtLeastOnce.HistoryGrows(states[i], steps[i]);
    }
  }

  lemma {:induction false} SuitsItself(s: State)
    ensures Suits(s, s.log)
  {
    assert s.log[..|s.log|] == s.log;
  }

  /** If a state is its own variant, so is the next. */
  lemma {:induction false} OwnVariantStep(s: State, step: Step, base: set<Tuple>, log: seq<Message>)
    requires Ready(s, step, log) && s == Variant(s, base, log) && Next(s, step).log <= log
    ensures Next(s, step) == Variant(Next(s, step), base, log)
  {
    VariantSteps(s, step, base, log);
    if step.Produce? {
      assert Next(s, step).log[|s.log|] == step.m;
    }
    assert VariantStep(s, step, log) == step;
  }

  /** A run is a variant of itself: the tuple store is what the calls made of it. */
  lemma {:induction false} IsOwnVariant(base: set<Tuple>, states: seq<State>, steps: seq<Step>, i: nat)
    requires IsRun(base, states, steps) && i < |states|
    ensures var log := states[|steps|].log;
      && |states[i].log| <= |log|
      && Fits(EffectsOf(states[i].events), log)
      && states[i] == Variant(states[i], base, log)
  {
    var log := states[|steps|].log;
    SuitsItself(states[|steps|]);
    if i == 0 {
      SuitsAll(base, states, steps, log, 0);
      assert log[..0] == [];
    } else {
      SuitsAll(base, states, steps, log, i - 1);
      IsOwnVariant(base, states, steps, i - 1);
      LogIsPrefix(base, states, steps, i);
      OwnVariantStep(states[i - 1], steps[i - 1], base, log);
    }
  }

  /** Redelivering the rest of the log from the committed offset gives one in-order application of the log. */
  ghost predicate Converges(s: State) {
    s.committed <= |s.log| && Replay(s.store, s.log[s.committed..]) == Replay(s.base, s.log)
  }

  ghost predicate VariantConverges(s: State, base: set<Tuple>, log: seq<Message>) {
    |s.log| <= |log| && Fits(EffectsOf(s.events), log) && Converges(Variant(s, base, log))
  }

  lemma {:induction false} CommittedInLog(base: set<Tuple>, states: seq<State>, steps: seq<Step>)
    requires IsRun(base, states, steps)
    ensures states[|steps|].committed <= |states[|steps|].log|
  {
    var s := states[|steps|];
    AtLeastOnce.CommittedIsHandled(base, states, steps, |steps|);
    if s.committed > 0 {
      assert AtLeastOnce.Handled(s, s.committed - 1);
    }
  }

  lemma {:induction false} LosesIff(s: State, base: set<Tuple>, log: seq<Message>)
    requires Inv(s) && s.committed <= |s.log| && SameShape(s.log, log)
    ensures VariantConverges(s, base, log) <==> !Loses(base, log, EffectsOf(s.events), s.committed)
  {
    assert log[..|s.log|] == log && log[s.committed..] == log[s.committed..|log|];
    SuitsFits(s, log);
    RecoverableIff(base, Outcome(base, log, EffectsOf(s.events)), log, s.committed, |log|);
  }

  /**
   Of every run of the protocol: it converges whatever tuples its messages carry, exactly when the last
   calls that took effect for the messages below the committed offset came in log order.
   */
  lemma {:induction false} ConvergesIff(base: set<Tuple>, states: seq<State>, steps: seq<Step>)
    requires IsRun(base, states, steps)
    ensures var s := states[|steps|];
      && s.committed <= |s.log|
      && ((forall other, log :: SameShape(s.log, log) ==> VariantConverges(s, other, log))
          <==> InOrder(EffectsOf(s.events), s.log, s.committed))
  {
    var s := states[|steps|];
    CommittedInLog(base, states, steps);
    InvOverRuns(base, states, steps, |steps|);
    RepairableIff(s.log, EffectsOf(s.events), s.committed);
    forall other, log | SameShape(s.log, log)
      ensures VariantConverges(s, other, log) <==> !Loses(other, log, EffectsOf(s.events), s.committed)
    {
      LosesIff(s, other, log);
    }
  }

  lemma {:induction false} VariantIsOrderly(s: State, step: Step, base: set<Tuple>, log: seq<Message>)
    requires Enabled(s, step) && Convergence.Orderly(s, step)
    requires |s.log| <= |log| && Fits(EffectsOf(s.events), log) && (step.Produce? ==> |s.log| < |log|)
    requires Enabled(Variant(s, base, log), VariantStep(s, step, log))
    ensures Convergence.Orderly(Variant(s, base, log), VariantStep(s, step, log))
  {
    forall c ensures Convergence.Meets(c, Variant(s, base, log), VariantStep(s, step, log)) {
      assert Convergence.Meets(c, s, step);
    }
  }

  /** Converging up to the furthest started message is converging to the end of the log. */
  lemma {:induction false} ConvergesOnward(s: State)
    requires s.committed <= s.reached <= |s.log|
    requires Replay(s.store, s.log[s.committed..s.reached]) == Replay(s.base, s.log[..s.reached])
    ensures Converges(s)
  {
    RecoverableIff(s.base, s.store, s.log, s.committed, s.reached);
    assert Recoverable(s.base, s.store, s.log, s.committed, |s.log|) by {
      forall t | !Touched(s.log, s.committed, |s.log|, t) ensures !Touched(s.log, s.committed, s.reached, t) {
      }
    }
    RecoverableIff(s.base, s.store, s.log, s.committed, |s.log|);
    assert s.log[s.committed..|s.log|] == s.log[s.committed..] && s.log[..|s.log|] == s.log;
  }

  lemma {:induction false} OrderlyVariantConverges(
      was: set<Tuple>, states: seq<State>, steps: seq<Step>, base: set<Tuple>, log: seq<Message>)
    requires Convergence.IsOrderlyRun(was, states, steps) && SameShape(states[|steps|].log, log)
    ensures VariantConverges(states[|steps|], base, log)
  {
    var s := states[|steps|];
    assert log[..|s.log|] == log;
    RunIsSuited(was, states, steps, log);
    VariantIsRun(was, states, steps, base, log);
    var others, otherSteps := VariantStates(states, steps, base, log), VariantRun(states, steps, log);
    forall i | 0 <= i < |steps| ensures Convergence.Orderly(others[i], otherSteps[i]) {
      VariantIsOrderly(states[i], steps[i], base, log);
    }
    Convergence.RedeliveryConverges(base, others, otherSteps, |steps|);
    ConvergesOnward(others[|steps|]);
  }

  /** In every orderly run the last calls for the messages below the committed offset are in log order. */
  lemma {:induction false} OrderlyCallsInOrder(base: set<Tuple>, states: seq<State>, steps: seq<Step>)
    requires Convergence.IsOrderlyRun(base, states, steps)
    ensures var s := states[|steps|];
      s.committed <= |s.log| && InOrder(EffectsOf(s.events), s.log, s.committed)
  {
    var s := states[|steps|];
    forall other, log | SameShape(s.log, log) ensures VariantConverges(s, other, log) {
      OrderlyVariantConverges(base, states, steps, other, log);
    }
    ConvergesIff(base, states, steps);
  }

  /** What keeps the order of calls, told from the state before the step. */
  ghost predicate KeepsOrder(s: State, step: Step)
    requires Enabled(s, step) && s.committed <= |s.log|
  {
    var w := EffectsOf(s.events);
    if EffectOf(s, step).Some? then MayFollow(EffectOf(s, step).value, s.log, s.committed)
    else if Convergence.Commits(step) then
      var v := s.processes[step.x].commits[step.w].offset + 1;
      v <= |s.log| && InOrder(w, s.log, v)
    else true
  }

  lemma {:induction false} SameOrder(w: seq<Effect>, log: seq<Message>, more: seq<Message>, v: nat)
    requires log <= more && v <= |more|
    ensures v <= |log| ==> (InOrder(w, log, v) <==> InOrder(w, more, v))
  {
  }

  /**
   One step further, from any state whose calls are in order: they are in order after the step exactly
   when a call that takes effect is for a message at or past the committed offset, or writes the last one
   below it again, and when the calls are in order up to the offset that the broker takes.
   */
  lemma {:induction false} StepKeepsOrderIff(s: State, step: Step)
    requires Enabled(s, step) && Inv(s) && s.committed <= |s.log| && Next(s, step).committed <= |Next(s, step).log|
    requires InOrder(EffectsOf(s.events), s.log, s.committed)
    ensures var s' := Next(s, step);
      InOrder(EffectsOf(s'.events), s'.log, s'.committed) <==> KeepsOrder(s, step)
  {
    var s' := Next(s, step);
    EffectsGrow(s, step);
    AtLeastOnce.HistoryGrows(s, step);
    if EffectOf(s, step).Some? {
      var e := EffectOf(s, step).value;
      assert BusyOk(s, s.processes[step.x]);
      assert e.offset < |s.log| && Callable(s.log[e.offset]);
      MayFollowIff(EffectsOf(s.events), e, s.log, s.committed);
    } else {
      SameOrder(EffectsOf(s.events), s.log, s'.log, s'.committed);
    }
  }
}
