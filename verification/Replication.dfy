/**
 The replication consumer as a state machine: any number of consumer processes of one group share
 one partition, one lock, one committed offset and one remote tuple store.

 Environment:
 - a failed remote call may or may not have been applied; a call whose token is not the newest one
   issued is rejected and not applied;
 - the broker accepts an offset commit only from the process the partition is assigned to, and a
   commit whose answer is lost may or may not have been accepted;
 - a partition assignment takes effect between two messages of a process and forgets its fetch
   position; a process that lost the partition may go on taking the lock, fetching and calling.
 */
module Replication {
  import opened Prelude
  import opened TupleLog
  import Offsets

  type ProcessId = nat
  type Token = nat

  /** The threads that run an offset commit: the message loop, the rebalance listener, shutdown. */
  datatype Worker = Loop | Rebalance | Shutdown

  /** Where a running commit stands; `offset` is its copy of the stored offset. */
  datatype CommitStage =
    | Copied(offset: nat)
    | Filtered(offset: nat)
    | Accepted(offset: nat)
    | Failed(offset: nat)

  /** Where the processing of the message at `position` stands; `token` is the fencing check read. */
  datatype CallStage =
    | Idle
    | Checked(token: Token)
    | Deleted(token: Token)
    | Written(token: Token)
    | Notified(token: Token)

  datatype Process = Process(
    live: bool,
    lockId: Option<string>,
    lockToken: Option<Token>,
    lockFailed: bool,
    position: Option<nat>,
    call: CallStage,
    stored: Option<nat>,
    commits: map<Worker, CommitStage>,
    paused: bool,                       // stopped because the retries of a message ran out
    stopping: bool)

  datatype CallKind = Delete | Write

  datatype Event =
    | Acquired(process: ProcessId, token: Token)
    | Call(process: ProcessId, kind: CallKind, offset: nat, token: Token, applied: bool, ok: bool)
    | Notice(notice: TupleLog.Notice)

  /**
   `holder` is the process the newest token was issued to. `events`, `reached` and `front` are
   history: what happened on the lock and tuple services, one past the furthest message that was
   ever started, and the furthest offset from which redelivery is known to converge.
   */
  datatype State = State(
    base: set<Tuple>,
    log: seq<Message>,
    committed: nat,
    assignee: Option<ProcessId>,
    lock: Token,
    holder: Option<ProcessId>,
    store: set<Tuple>,
    processes: map<ProcessId, Process>,
    events: seq<Event>,
    reached: nat,
    front: nat)

  /** The atomic parts of a commit: copy the stored offset, drop it if unassigned, ask the broker, clear or restore. */
  datatype CommitAction =
    | Copy
    | Filter(owned: bool)
    | Submit(accepted: bool, ok: bool)
    | Clear
    | Restore

  datatype Step =
    | Produce(m: Message)
    | Start(x: ProcessId)
    | Assign(x: ProcessId)
    | Unassign
    | Acquire(x: ProcessId)
    | AcquireFails(x: ProcessId, issued: bool)
    | DropLock(x: ProcessId)
    | Fetch(x: ProcessId)
    | ReadLock(x: ProcessId)
    | Send(x: ProcessId, applied: bool, ok: bool)
    | Notify(x: ProcessId, sent: bool)
    | StoreOffset(x: ProcessId)
    | SkipTombstone(x: ProcessId)
    | Commit(x: ProcessId, w: Worker, action: CommitAction)
    | Pause(x: ProcessId)
    | Stop(x: ProcessId)
    | Die(x: ProcessId)

  const LOCK_ID := "rbac-consumer-group/0"

  const FRESH_PROCESS := Process(true, None, None, false, None, Idle, None, map[], false, false)

  function Initial(base: set<Tuple>): State {
    State(base, [], 0, None, 0, None, base, map[], [], 0, 0)
  }

  predicate Running(s: State, x: ProcessId) {
    x in s.processes && s.processes[x].live
  }

  /** `x` is about to handle the message at its position. */
  predicate AtMessage(s: State, x: ProcessId) {
    && Running(s, x)
    && s.processes[x].position.Some?
    && s.processes[x].position.value < |s.log|
    && !s.processes[x].lockFailed
    && !s.processes[x].paused
  }

  /** The message that `x` is processing. */
  function Current(s: State, x: ProcessId): Message
    requires x in s.processes && s.processes[x].position.Some? && s.processes[x].position.value < |s.log|
  {
    s.log[s.processes[x].position.value]
  }

  predicate CommitEnabled(p: Process, w: Worker, action: CommitAction) {
    match action
    case Copy =>
      && w !in p.commits
      && p.stored.Some?
      && (w.Rebalance? ==> !p.stopping)
      && (w.Shutdown? ==> p.stopping && !p.paused)
    case Filter(_) => w in p.commits && p.commits[w].Copied?
    case Submit(accepted, ok) => w in p.commits && p.commits[w].Filtered? && (ok ==> accepted)
    case Clear => w in p.commits && p.commits[w].Accepted?
    case Restore => w in p.commits && p.commits[w].Failed?
  }

  function CommitProgress(p: Process, w: Worker, action: CommitAction): Process
    requires CommitEnabled(p, w, action)
  {
    match action
    case Copy => p.(commits := p.commits[w := Copied(p.stored.value)])
    case Filter(owned) =>
      if owned then p.(commits := p.commits[w := Filtered(p.commits[w].offset)])
      else p.(commits := p.commits - {w})
    case Submit(_, ok) =>
      var v := p.commits[w].offset;
      p.(commits := p.commits[w := if ok then Accepted(v) else Failed(v)])
    case Clear => p.(commits := p.commits - {w}, stored := None)
    case Restore =>
      p.(commits := p.commits - {w}, stored := Some(Offsets.Restored(p.stored, p.commits[w].offset)))
  }

  /** `p` has `v` stored, or a commit of `p` carries a copy of it. */
  ghost predicate Tracks(p: Process, v: nat) {
    p.stored == Some(v) || exists w :: w in p.commits && p.commits[w].offset == v
  }

  /** No part of a commit makes up an offset. */
  lemma {:induction false} CommitInventsNothing(p: Process, w: Worker, action: CommitAction, v: nat)
    requires CommitEnabled(p, w, action) && Tracks(CommitProgress(p, w, action), v)
    ensures Tracks(p, v)
  {
    var p' := CommitProgress(p, w, action);
    if p'.stored == Some(v) {
      if action.Restore? && p.stored != Some(v) {
        assert p.commits[w].offset == v;
      }
    } else {
      var u :| u in p'.commits && p'.commits[u].offset == v;
      if u != w {
        assert u in p.commits && p.commits[u].offset == v;
      } else if !action.Copy? {
        assert p.commits[w].offset == v;
      }
    }
  }

  predicate Enabled(s: State, step: Step) {
    match step
    case Produce(_) => true
    case Start(x) => x !in s.processes
    case Assign(x) => Running(s, x) && s.processes[x].call.Idle?
    case Unassign => true
    case Acquire(x) => Running(s, x)
    case AcquireFails(x, _) => Running(s, x)
    case DropLock(x) => Running(s, x) && !s.processes[x].stopping
    case Fetch(x) => Running(s, x) && s.processes[x].position.None?
    case ReadLock(x) =>
      && AtMessage(s, x)
      && s.processes[x].call.Idle?
      && Current(s, x).Batch?
      && (Current(s, x).remove != {} || Current(s, x).add != {})
      && s.processes[x].lockId.Some?
      && s.processes[x].lockToken.Some?
    case Send(x, applied, ok) =>
      && AtMessage(s, x)
      && Current(s, x).Batch?
      && (s.processes[x].call.Checked? || s.processes[x].call.Deleted?)
      && (ok ==> applied)
      && (applied ==> s.processes[x].call.token == s.lock)
    case Notify(x, sent) =>
      && AtMessage(s, x)
      && Current(s, x).Batch?
      && s.processes[x].call.Written?
      && (sent ==> Current(s, x).notice.Some?)
    case StoreOffset(x) => AtMessage(s, x) && s.processes[x].call.Notified?
    case SkipTombstone(x) => AtMessage(s, x) && s.processes[x].call.Idle? && Current(s, x).Tombstone?
    case Commit(x, w, action) =>
      && Running(s, x)
      && CommitEnabled(s.processes[x], w, action)
      && (action.Submit? && action.accepted ==> s.assignee == Some(x))
    case Pause(x) => Running(s, x) && s.processes[x].call.Idle?
    case Stop(x) => Running(s, x)
    case Die(x) => Running(s, x)
  }

  /** The process a step belongs to. */
  function Actor(step: Step): Option<ProcessId> {
    match step
    case Produce(_) => None
    case Unassign => None
    case _ => Some(step.x)
  }

  /** What a step makes of the process it belongs to. */
  function Moved(s: State, step: Step): Process
    requires Enabled(s, step) && Actor(step).Some?
  {
    if step.Start? then FRESH_PROCESS
    else
      var p := s.processes[step.x];
      match step
      case Assign(_) => p.(position := None)
      case Acquire(_) =>
        p.(lockId := Some(LOCK_ID), lockToken := Some(s.lock + 1), lockFailed := false)
      case AcquireFails(_, _) => p.(lockId := None, lockToken := None, lockFailed := true)
      case DropLock(_) => if p.lockToken.Some? then p.(lockId := None, lockToken := None) else p
      case Fetch(_) => p.(position := Some(s.committed))
      case ReadLock(_) => p.(call := Checked(p.lockToken.value))
      case Send(_, _, ok) =>
        p.(call := if !ok then Idle else if p.call.Checked? then Deleted(p.call.token) else Written(p.call.token))
      case Notify(_, _) => p.(call := Notified(p.call.token))
      case StoreOffset(_) => p.(call := Idle, stored := p.position, position := Some(p.position.value + 1))
      case SkipTombstone(_) => p.(stored := p.position, position := Some(p.position.value + 1))
      case Commit(_, w, action) => CommitProgress(p, w, action)
      case Pause(_) => p.(paused := true)
      case Stop(_) => p.(stopping := true)
      case Die(_) => p.(live := false)
  }

  function Max(a: nat, b: nat): nat {
    if a < b then b else a
  }

  function Issue(s: State, x: ProcessId): State {
    s.(lock := s.lock + 1, holder := Some(x), events := s.events + [Acquired(x, s.lock + 1)])
  }

  /** The effect of the delete or the write call of `x` for the message at its position. */
  function Sent(s: State, x: ProcessId, applied: bool, ok: bool): State
    requires Enabled(s, Send(x, applied, ok))
  {
    var p := s.processes[x];
    var at := p.position.value;
    var kind := if p.call.Checked? then Delete else Write;
    var s1 := s.(events := s.events + [Call(x, kind, at, p.call.token, applied, ok)]);
    if applied then
      s1.(store := if kind.Delete? then s.store - s.log[at].remove else s.store + s.log[at].add,
      reached := Max(s.reached, at + 1),
      front := if kind.Write? && ok then at + 1 else at)
    else s1
  }

  /** What a step makes of everything that the processes share. */
  function Shared(s: State, step: Step): State
    requires Enabled(s, step)
  {
    match step
    case Produce(m) => s.(log := s.log + [m])
    case Assign(x) => s.(assignee := Some(x))
    case Unassign => s.(assignee := None)
    case Acquire(x) => Issue(s, x)
    case AcquireFails(x, issued) => if issued then Issue(s, x) else s
    case Send(x, applied, ok) => Sent(s, x, applied, ok)
    case Notify(x, sent) =>
      if sent then s.(events := s.events + [Event.Notice(Current(s, x).notice.value)]) else s
    case SkipTombstone(x) =>
      if s.processes[x].position.value == s.front then
        s.(front := s.front + 1, reached := Max(s.reached, s.front + 1))
      else s
    case Commit(x, w, Submit(accepted, _)) =>
      if accepted then s.(committed := s.processes[x].commits[w].offset + 1) else s
    case _ => s
  }

  function Next(s: State, step: Step): State
    requires Enabled(s, step)
  {
    var s' := Shared(s, step);
    if Actor(step).None? then s' else s'.(processes := s.processes[step.x := Moved(s, step)])
  }

  /** A run of the system: the states it goes through and the step taken from each to the next. */
  ghost predicate IsRun(base: set<Tuple>, states: seq<State>, steps: seq<Step>) {
    && |states| == |steps| + 1
    && states[0] == Initial(base)
    && forall i :: 0 <= i < |steps| ==> Enabled(states[i], steps[i]) && states[i + 1] == Next(states[i], steps[i])
  }

  /** A step changes no process but its own. */
  lemma {:induction false} OthersUnchanged(s: State, step: Step, y: ProcessId)
    requires Enabled(s, step) && Actor(step) != Some(y)
    ensures y in Next(s, step).processes <==> y in s.processes
    ensures y in s.processes ==> Next(s, step).processes[y] == s.processes[y]
  {
  }

  /** Only finishing a message makes a process track an offset it did not track before. */
  lemma {:induction false} TrackedComesFrom(s: State, step: Step, v: nat)
    requires Enabled(s, step) && Actor(step).Some? && Tracks(Moved(s, step), v)
    ensures !step.Start?
    ensures Tracks(s.processes[step.x], v)
         || ((step.StoreOffset? || step.SkipTombstone?) && s.processes[step.x].position == Some(v))
  {
    var p' := Moved(s, step);
    if step.Commit? {
      CommitInventsNothing(s.processes[step.x], step.w, step.action, v);
    } else if p'.stored != Some(v) {
      var u :| u in p'.commits && p'.commits[u].offset == v;
      assert p'.commits == s.processes[step.x].commits;
    }
  }

  /** A fetch position comes from the committed offset, or moves past the message just finished. */
  lemma {:induction false} PositionComesFrom(s: State, step: Step, q: nat)
    requires Enabled(s, step) && Actor(step).Some? && Moved(s, step).position == Some(q)
    ensures !step.Start?
    ensures
      || (s.processes[step.x].position == Some(q) && !step.StoreOffset? && !step.SkipTombstone? && !step.Fetch?)
      || (step.Fetch? && q == s.committed)
      || ((step.StoreOffset? || step.SkipTombstone?) && q > 0 && s.processes[step.x].position == Some(q - 1))
  {
  }

  /** The stage of a message moves only with the steps of its processing, and pins the fetch position. */
  lemma {:induction false} CallComesFrom(s: State, step: Step)
    requires Enabled(s, step) && Actor(step).Some? && !Moved(s, step).call.Idle?
    ensures !step.Start?
    ensures step.Fetch? || Moved(s, step).position == s.processes[step.x].position
    ensures step.ReadLock? || step.Send? || step.Notify? || Moved(s, step).call == s.processes[step.x].call
  {
  }

  /** `p` holds the token `t`, as its lock or as the fencing check of the message it processes. */
  predicate Carries(p: Process, t: Token) {
    p.lockToken == Some(t) || (!p.call.Idle? && p.call.token == t)
  }

  /** A process gets a token from the lock service and from nowhere else. */
  lemma {:induction false} TokenComesFrom(s: State, step: Step, t: Token)
    requires Enabled(s, step) && Actor(step).Some? && Carries(Moved(s, step), t)
    ensures !step.Start?
    ensures Carries(s.processes[step.x], t) || (step.Acquire? && t == s.lock + 1)
  {
  }
}
