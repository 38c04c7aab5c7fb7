/**
 The handshake between a migration job and the replication consumer: the job enqueues a batch under a
 fresh token and goes on only after a notice with that token.

 The consumer side is the whole replication state machine; other producers append to the same log.
 Writing the outbox row and its record in the log are one step.
 */
module Handshake {
  import opened Prelude
  import opened TupleLog
  import R = Replication
  import AtLeastOnce
  import opened Text
  import Coordination

  /**
   `batches` are the log offsets of the batches enqueued so far, and `flushed` what they are to remove;
   `listenFrom` is where LISTEN took effect.
   */
  datatype Job = Job(
    batches: seq<nat>, flushed: seq<set<Tuple>>, waiting: Option<string>, listenFrom: Option<nat>, ended: bool)

  datatype State = State(rep: R.State, job: Job)

  datatype Step =
    | Consume(step: R.Step)
    | Enqueue(m: Message)
    | Flush(batch: set<Tuple>, token: string)
    | Listen
    | Return(at: nat)
    | TimeOut

  const CHANNEL := Coordination.REMOVE_ROOT_PARENT_CHANNEL

  function Initial(base: set<Tuple>): State {
    State(R.Initial(base), Job([], [], None, None, false))
  }

  /** No message of the log asks for a notice with this payload. */
  ghost predicate FreshIn(log: seq<Message>, payload: string) {
    forall i :: 0 <= i < |log| && log[i].Batch? && log[i].notice.Some? ==>
      Strip(log[i].notice.value.payload) != Strip(payload)
  }

  ghost predicate Enabled(s: State, step: Step) {
    match step
    case Consume(rs) => !rs.Produce? && R.Enabled(s.rep, rs)
    case Enqueue(m) => m.Batch? && m.notice.Some? ==> FreshIn(s.rep.log, m.notice.value.payload)
    case Flush(batch, token) =>
      batch != {} && token != "" && !s.job.ended && s.job.waiting.None? && FreshIn(s.rep.log, token)
    case Listen => s.job.waiting.Some? && s.job.listenFrom.None? && !s.job.ended
    case Return(at) =>
      && s.job.waiting.Some? && s.job.listenFrom.Some? && !s.job.ended
      && s.job.listenFrom.value <= at < |s.rep.events|
      && s.rep.events[at].Notice?
      && Coordination.Accepts(CHANNEL, s.job.waiting.value, s.rep.events[at].notice)
    case TimeOut => s.job.waiting.Some? && !s.job.ended
  }

  /** The record of a batch: the token travels in its context and decides the notice the consumer sends. */
  function BatchMessage(batch: set<Tuple>, token: string): Message {
    var eventType := Coordination.REMOVE_ROOT_PARENT;
    var context := Coordination.BuildContext(
      eventType, map["notify_token" := token], Coordination.ConfigFor(eventType).value, 0);
    Batch(batch, {}, Coordination.NoticeFor(context))
  }

  lemma {:induction false} BatchAsksForItsToken(batch: set<Tuple>, token: string)
    requires token != ""
    ensures BatchMessage(batch, token).notice.Some?
    ensures Coordination.Accepts(CHANNEL, token, BatchMessage(batch, token).notice.value)
  {
    Coordination.TokenComesBack(Coordination.REMOVE_ROOT_PARENT, map[], token, 0);
    assert map[]["notify_token" := token] == map["notify_token" := token];
  }

  ghost function Next(s: State, step: Step): State
    requires Enabled(s, step)
  {
    match step
    case Consume(rs) => s.(rep := R.Next(s.rep, rs))
    case Enqueue(m) => s.(rep := R.Next(s.rep, R.Produce(m)))
    case Flush(batch, token) =>
      State(R.Next(s.rep, R.Produce(BatchMessage(batch, token))),
            s.job.(batches := s.job.batches + [|s.rep.log|], flushed := s.job.flushed + [batch],
                   waiting := Some(token), listenFrom := None))
    case Listen => s.(job := s.job.(listenFrom := Some(|s.rep.events|)))
    case Return(_) => s.(job := s.job.(waiting := None, listenFrom := None))
    case TimeOut => s.(job := s.job.(ended := true))
  }

  ghost predicate IsRun(base: set<Tuple>, states: seq<State>, steps: seq<Step>) {
    && |states| == |steps| + 1
    && states[0] == Initial(base)
    && forall i :: 0 <= i < |steps| ==> Enabled(states[i], steps[i]) && states[i + 1] == Next(states[i], steps[i])
  }

  /** The message at `p` asks for a notice that a wait for `token` would take for its own. */
  ghost predicate AsksFor(log: seq<Message>, p: nat, token: string) {
    && p < |log| && log[p].Batch? && log[p].notice.Some?
    && Strip(log[p].notice.value.payload) == Strip(token)
  }

  ghost predicate TokensDistinct(log: seq<Message>) {
    forall p: nat, q: nat, token ::
      AsksFor(log, p, token) && AsksFor(log, q, token) ==> p == q
  }

  /** The notice was sent for a message both of whose calls had gone through. */
  ghost predicate NoticeEarned(s: R.State, n: TupleLog.Notice) {
    exists p: nat :: AsksFor(s.log, p, n.payload) && AtLeastOnce.Processed(s.events, p)
  }

  ghost predicate JobOk(s: State) {
    && (forall i :: 0 <= i < |s.job.batches| ==>
          (i == |s.job.batches| - 1 && s.job.waiting.Some?) || AtLeastOnce.Processed(s.rep.events, s.job.batches[i]))
    && (s.job.waiting.Some? ==>
          s.job.batches != [] && AsksFor(s.rep.log, s.job.batches[|s.job.batches| - 1], s.job.waiting.value))
  }

  ghost predicate Inv(s: State) {
    && AtLeastOnce.Inv(s.rep)
    && TokensDistinct(s.rep.log)
    && (forall i :: 0 <= i < |s.rep.events| && s.rep.events[i].Notice? ==> NoticeEarned(s.rep, s.rep.events[i].notice))
    && JobOk(s)
  }

  /** The consumer's part of a step. */
  function RepStep(step: Step): Option<R.Step> {
    match step
    case Consume(rs) => Some(rs)
    case Enqueue(m) => Some(R.Produce(m))
    case Flush(batch, token) => Some(R.Produce(BatchMessage(batch, token)))
    case _ => None
  }

  lemma {:induction false} ProcessedGrows(events: seq<R.Event>, more: seq<R.Event>, p: nat)
    requires events <= more && AtLeastOnce.Processed(events, p)
    ensures AtLeastOnce.Processed(more, p)
  {
    var i, j :| 0 <= i < j < |events| && AtLeastOnce.CompletedBy(events[i], events[j], p);
    assert AtLeastOnce.CompletedBy(more[i], more[j], p);
  }

  lemma {:induction false} EarnedGrows(s: R.State, s': R.State, n: TupleLog.Notice)
    requires s.log <= s'.log && s.events <= s'.events && NoticeEarned(s, n)
    ensures NoticeEarned(s', n)
  {
    var p: nat :| AsksFor(s.log, p, n.payload) && AtLeastOnce.Processed(s.events, p);
    ProcessedGrows(s.events, s'.events, p);
    assert AsksFor(s'.log, p, n.payload);
  }

  /** A notice is sent only for a message whose delete and write both went through. */
  lemma {:induction false} SentNoticeIsEarned(s: R.State, step: R.Step)
    requires R.Enabled(s, step) && AtLeastOnce.Inv(s) && step.Notify? && step.sent
    ensures NoticeEarned(R.Next(s, step), R.Current(s, step.x).notice.value)
  {
    var p := s.processes[step.x];
    assert AtLeastOnce.ProcessOk(s, step.x, p);
    var at := p.position.value;
    assert AtLeastOnce.Processed(s.events, at);
    ProcessedGrows(s.events, R.Next(s, step).events, at);
    assert AsksFor(R.Next(s, step).log, at, R.Current(s, step.x).notice.value.payload);
  }

  lemma {:induction false} NoticesStayEarned(s: R.State, step: R.Step)
    requires R.Enabled(s, step) && AtLeastOnce.Inv(s)
    requires forall i :: 0 <= i < |s.events| && s.events[i].Notice? ==> NoticeEarned(s, s.events[i].notice)
    ensures
      var s' := R.Next(s, step);
      forall i :: 0 <= i < |s'.events| && s'.events[i].Notice? ==> NoticeEarned(s', s'.events[i].notice)
  {
    var s' := R.Next(s, step);
    AtLeastOnce.HistoryGrows(s, step);
    forall i | 0 <= i < |s'.events| && s'.events[i].Notice? ensures NoticeEarned(s', s'.events[i].notice) {
      if i < |s.events| {
        assert s'.events[i] == s.events[i];
        EarnedGrows(s, s', s.events[i].notice);
      } else {
        SentNoticeIsEarned(s, step);
      }
    }
  }

  lemma {:induction false} TokensStayDistinct(log: seq<Message>, m: Message)
    requires TokensDistinct(log)
    requires m.Batch? && m.notice.Some? ==> FreshIn(log, m.notice.value.payload)
    ensures TokensDistinct(log + [m])
  {
    var more := log + [m];
    forall p: nat, q: nat, token | AsksFor(more, p, token) && AsksFor(more, q, token) ensures p == q {
      if p < |log| && q < |log| {
        assert AsksFor(log, p, token) && AsksFor(log, q, token);
      }
    }
  }

  /** The wait returns only for the job's own batch, and only after both of its calls went through. */
  lemma {:induction false} ReturnMeansProcessed(s: State, at: nat)
    requires Inv(s) && Enabled(s, Return(at))
    ensures s.job.batches != []
    ensures AtLeastOnce.Processed(s.rep.events, s.job.batches[|s.job.batches| - 1])
  {
    var n := s.rep.events[at].notice;
    assert NoticeEarned(s.rep, n);
    var p: nat :| AsksFor(s.rep.log, p, n.payload) && AtLeastOnce.Processed(s.rep.events, p);
    assert AsksFor(s.rep.log, p, s.job.waiting.value);
  }

  lemma {:induction false} LogStays(s: R.State, step: R.Step)
    requires R.Enabled(s, step) && !step.Produce?
    ensures R.Next(s, step).log == s.log
  {
  }

  lemma {:induction false} JobStaysOk(s: State, step: Step)
    requires Inv(s) && Enabled(s, step) && RepStep(step).Some?
    ensures JobOk(Next(s, step))
  {
    var s' := Next(s, step);
    AtLeastOnce.HistoryGrows(s.rep, RepStep(step).value);
    forall i | 0 <= i < |s'.job.batches|
      ensures (i == |s'.job.batches| - 1 && s'.job.waiting.Some?)
           || AtLeastOnce.Processed(s'.rep.events, s'.job.batches[i])
    {
      if i < |s.job.batches| && (i < |s.job.batches| - 1 || s.job.waiting.None?) {
        ProcessedGrows(s.rep.events, s'.rep.events, s.job.batches[i]);
      }
    }
    if step.Flush? {
      BatchAsksForItsToken(step.batch, step.token);
    } else if s.job.waiting.Some? {
      var last := s.job.batches[|s.job.batches| - 1];
      assert s'.rep.log[last] == s.rep.log[last];
    }
  }

  lemma {:induction false} RepStepKeepsInv(s: State, step: Step)
    requires Inv(s) && Enabled(s, step) && RepStep(step).Some?
    ensures Inv(Next(s, step))
  {
    var rs := RepStep(step).value;
    var s' := Next(s, step);
    AtLeastOnce.StepKeepsInv(s.rep, rs);
    AtLeastOnce.HistoryGrows(s.rep, rs);
    NoticesStayEarned(s.rep, rs);
    if rs.Produce? {
      if step.Flush? {
        BatchAsksForItsToken(step.batch, step.token);
      }
      TokensStayDistinct(s.rep.log, rs.m);
    } else {
      LogStays(s.rep, rs);
    }
    JobStaysOk(s, step);
  }

  lemma {:induction false} StepKeepsInv(s: State, step: Step)
    requires Inv(s) && Enabled(s, step)
    ensures Inv(Next(s, step))
  {
    if RepStep(step).Some? {
      RepStepKeepsInv(s, step);
    } else if step.Return? {
      ReturnMeansProcessed(s, step.at);
    }
  }

  lemma {:induction false} InvOverRuns(base: set<Tuple>, states: seq<State>, steps: seq<Step>, i: nat)
    requires IsRun(base, states, steps) && i < |states|
    ensures Inv(states[i])
  {
    if i > 0 {
      InvOverRuns(base, states, steps, i - 1);
      StepKeepsInv(states[i - 1], steps[i - 1]);
    }
  }

  /** Over every run, a wait that returns normally means both calls for that very batch went through. */
  lemma {:induction false} WaitIsSound(base: set<Tuple>, states: seq<State>, steps: seq<Step>, i: nat)
    requires IsRun(base, states, steps) && i < |steps| && steps[i].Return?
    ensures var job := states[i].job;
      && job.batches != []
      && AsksFor(states[i].rep.log, job.batches[|job.batches| - 1], job.waiting.value)
      && AtLeastOnce.Processed(states[i].rep.events, job.batches[|job.batches| - 1])
  {
    InvOverRuns(base, states, steps, i);
    ReturnMeansProcessed(states[i], steps[i].at);
  }

  /** Over every run, at most the last batch of the job is unapplied. */
  lemma {:induction false} AtMostOneUnapplied(base: set<Tuple>, states: seq<State>, steps: seq<Step>, i: nat, k: nat)
    requires IsRun(base, states, steps) && i < |states|
    requires k < |states[i].job.batches| && !AtLeastOnce.Processed(states[i].rep.events, states[i].job.batches[k])
    ensures k == |states[i].job.batches| - 1 && states[i].job.waiting.Some?
  {
    InvOverRuns(base, states, steps, i);
  }

  /** The record takes exactly the batch out of any store. */
  ghost predicate TakesOut(m: Message, batch: set<Tuple>) {
    forall store :: Apply(store, m) == store - batch
  }

  lemma {:induction false} BatchIsTakenOut(batch: set<Tuple>, token: string)
    ensures BatchMessage(batch, token).Batch? && BatchMessage(batch, token).remove == batch
    ensures TakesOut(BatchMessage(batch, token), batch)
  {
  }

  /** Every record of the job takes out what was flushed for it. */
  ghost predicate RecordsOk(s: State) {
    && |s.job.flushed| == |s.job.batches|
    && forall k :: 0 <= k < |s.job.batches| ==>
         && s.job.batches[k] < |s.rep.log|
         && s.rep.log[s.job.batches[k]].Batch?
         && s.rep.log[s.job.batches[k]].remove == s.job.flushed[k]
         && TakesOut(s.rep.log[s.job.batches[k]], s.job.flushed[k])
  }

  lemma {:induction false} LogGrows(s: State, step: Step)
    requires Enabled(s, step)
    ensures s.rep.log <= Next(s, step).rep.log && s.rep.events <= Next(s, step).rep.events
  {
    if RepStep(step).Some? {
      AtLeastOnce.HistoryGrows(s.rep, RepStep(step).value);
    }
  }

  lemma {:induction false} RecordsStayOk(s: State, step: Step)
    requires RecordsOk(s) && Enabled(s, step)
    ensures RecordsOk(Next(s, step))
  {
    var s' := Next(s, step);
    LogGrows(s, step);
    if step.Flush? {
      BatchIsTakenOut(step.batch, step.token);
    }
    forall k | 0 <= k < |s'.job.batches|
      ensures
        && s'.job.batches[k] < |s'.rep.log|
        && s'.rep.log[s'.job.batches[k]].Batch?
        && s'.rep.log[s'.job.batches[k]].remove == s'.job.flushed[k]
        && TakesOut(s'.rep.log[s'.job.batches[k]], s'.job.flushed[k])
    {
      if k < |s.job.batches| {
        assert s'.rep.log[s.job.batches[k]] == s.rep.log[s.job.batches[k]];
      }
    }
  }

  /** Over every run: each batch's record takes exactly the tuples flushed for it out of any store. */
  lemma {:induction false} RecordsOverRuns(base: set<Tuple>, states: seq<State>, steps: seq<Step>, i: nat)
    requires IsRun(base, states, steps) && i < |states|
    ensures RecordsOk(states[i])
  {
    if i > 0 {
      RecordsOverRuns(base, states, steps, i - 1);
      RecordsStayOk(states[i - 1], steps[i - 1]);
    }
  }

  /** The step that a delete that took effect stems from, and what it did to the store. */
  lemma {:induction false} DeleteComesFrom(
      base: set<Tuple>, states: seq<State>, steps: seq<Step>, i: nat, j: nat) returns (m: nat)
    requires IsRun(base, states, steps) && i < |states| && j < |states[i].rep.events|
    requires states[i].rep.events[j].Call? && states[i].rep.events[j].kind.Delete? && states[i].rep.events[j].applied
    ensures m < i && states[m].rep.log <= states[i].rep.log
    ensures
      var p := states[i].rep.events[j].offset;
      && p < |states[m].rep.log| && states[m].rep.log[p].Batch?
      && states[m + 1].rep.store == states[m].rep.store - states[m].rep.log[p].remove
  {
    LogGrows(states[i - 1], steps[i - 1]);
    if j < |states[i - 1].rep.events| {
      m := DeleteComesFrom(base, states, steps, i - 1, j);
    } else {
      m := i - 1;
    }
  }

  /** Over every run, before a wait returns normally, a delete of exactly the flushed tuples has taken effect. */
  lemma {:induction false} WaitMeansRemoved(base: set<Tuple>, states: seq<State>, steps: seq<Step>, i: nat)
    returns (m: nat)
    requires IsRun(base, states, steps) && i < |steps| && steps[i].Return?
    ensures m < i && states[i].job.flushed != []
    ensures states[m + 1].rep.store == states[m].rep.store - states[i].job.flushed[|states[i].job.flushed| - 1]
  {
    WaitIsSound(base, states, steps, i);
    RecordsOverRuns(base, states, steps, i);
    var events, p := states[i].rep.events, states[i].job.batches[|states[i].job.batches| - 1];
    var a, b :| 0 <= a < b < |events| && AtLeastOnce.CompletedBy(events[a], events[b], p);
    m := DeleteComesFrom(base, states, steps, i, a);
    assert states[m].rep.log[p] == states[i].rep.log[p];
  }

  /** A wait that timed out ends the job: it neither returns nor flushes any more. */
  lemma {:induction false} TimeoutEndsTheJob(s: State, step: Step)
    requires s.job.ended && Enabled(s, step)
    ensures !step.Flush? && !step.Listen? && !step.Return? && !step.TimeOut?
    ensures Next(s, step).job == s.job
  {
  }

  /** What the steps of the job do to it: it waits after a flush, listens, and goes on or ends. */
  lemma {:induction false} JobGoesOn(s: State, batch: set<Tuple>, token: string)
    ensures Enabled(s, Flush(batch, token)) ==>
      var s' := Next(s, Flush(batch, token));
      && s'.job.waiting == Some(token) && s'.job.batches == s.job.batches + [|s.rep.log|]
      && Enabled(s', Listen) && Enabled(s', TimeOut) && !Enabled(s', Flush(batch, token))
    ensures Enabled(s, TimeOut) ==> Next(s, TimeOut).job.ended
    ensures forall at: nat :: Enabled(s, Return(at)) ==>
      var s' := Next(s, Return(at));
      && s'.job.waiting.None?
      && (batch != {} && token != "" && FreshIn(s.rep.log, token) ==> Enabled(s', Flush(batch, token)))
  {
  }

  /** A notice sent before LISTEN took effect is lost. */
  lemma {:induction false} EarlierNoticeIsLost(s: State, at: nat)
    requires Enabled(s, Listen) && at < |s.rep.events|
    ensures !Enabled(Next(s, Listen), Return(at))
  {
  }
}
