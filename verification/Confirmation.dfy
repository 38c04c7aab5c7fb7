/** Single-use confirmation tokens in front of the write tools. */
module Confirmation {
  import opened Prelude

  /** Tool arguments; two calls with the same arguments in another order have the same map. */
  type Arguments = map<string, string>

  /** The digest of tool name and arguments. */
  type Digest = (string, Arguments) -> int

  ghost predicate CollisionFree(hash: Digest) {
    forall t, a, t', a' :: hash(t, a) == hash(t', a') ==> t == t' && a == a'
  }

  datatype Entry = Entry(tool: string, digest: int, org: string)

  function OrgKey(org: Option<string>): string {
    if org.Some? then org.value else ""
  }

  const TOKEN_KEY := "confirmation_token"

  /** A tool call; `admitted` says that every check before the confirmation lets it through. */
  datatype Request = Request(tool: string, write: bool, arguments: Arguments, org: Option<string>, admitted: bool)

  /** The call as the caller means it: without the token. */
  function Proper(r: Request): Arguments {
    r.arguments - {TOKEN_KEY}
  }

  /** An absent or empty token asks for confirmation. */
  function TokenOf(r: Request): Option<string> {
    if TOKEN_KEY in r.arguments && r.arguments[TOKEN_KEY] != "" then Some(r.arguments[TOKEN_KEY]) else None
  }

  datatype Outcome = Rejected | Refused | Pending(token: string) | Executed

  predicate Matches(cache: map<string, Entry>, token: string, tool: string, args: Arguments, org: string, hash: Digest)
  {
    && token in cache
    && cache[token].tool == tool
    && cache[token].digest == hash(tool, args)
    && cache[token].org == org
  }

  /** What a request does with confirmation switched on; `spare` is the random token that an issuance would use. */
  function Handled(cache: map<string, Entry>, r: Request, spare: string, hash: Digest): (map<string, Entry>, Outcome) {
    if !r.admitted then (cache, Rejected)
    else if !r.write then (cache, Executed)
    else if TokenOf(r).None? then
      (cache[spare := Entry(r.tool, hash(r.tool, Proper(r)), OrgKey(r.org))], Pending(spare))
    else if Matches(cache, TokenOf(r).value, r.tool, Proper(r), OrgKey(r.org), hash) then
      (cache - {TokenOf(r).value}, Executed)
    else (cache, Refused)
  }

  /** The handler over the shared cache. */
  class ConfirmationCache {
    var entries: map<string, Entry>

    method Generate(token: string, tool: string, args: Arguments, org: Option<string>, hash: Digest)
      modifies this
      ensures entries == old(entries)[token := Entry(tool, hash(tool, args), OrgKey(org))]
    {
      entries := entries[token := Entry(tool, hash(tool, args), OrgKey(org))];
    }

    /** A failed check consumes nothing; a passed one consumes the token. */
    method Validate(token: string, tool: string, args: Arguments, org: Option<string>, hash: Digest)
      returns (valid: bool)
      modifies this
      ensures valid <==> Matches(old(entries), token, tool, args, OrgKey(org), hash)
      ensures entries == if valid then old(entries) - {token} else old(entries)
    {
      if token !in entries {
        return false;
      }
      var stored := entries[token];
      if stored.tool != tool || stored.digest != hash(tool, args) || stored.org != OrgKey(org) {
        return false;
      }
      entries := entries - {token};
      return true;
    }

    method HandleCall(r: Request, spare: string, hash: Digest) returns (outcome: Outcome)
      modifies this
      ensures (entries, outcome) == Handled(old(entries), r, spare, hash)
      ensures outcome.Rejected? <==> !r.admitted
      ensures outcome.Rejected? || outcome.Refused? || !r.write ==> entries == old(entries)
      ensures r.admitted && !r.write ==> outcome.Executed?
    {
      if !r.admitted {
        return Rejected;
      }
      var token := TokenOf(r);
      var arguments := r.arguments - {TOKEN_KEY};
      if r.write {
        if token.Some? {
          var valid := Validate(token.value, r.tool, arguments, r.org, hash);
          if !valid {
            return Refused;
          }
        } else {
          Generate(spare, r.tool, arguments, r.org, hash);
          return Pending(spare);
        }
      }
      return Executed;
    }
  }

  /** What the history records: a token issued for a call, a write executed under a token. */
  datatype Event =
    | Issued(token: string, tool: string, args: Arguments, org: string)
    | Ran(token: string, tool: string, args: Arguments, org: string)

  datatype Step = Serve(r: Request, spare: string) | Expire(token: string)

  datatype State = State(cache: map<string, Entry>, history: seq<Event>)

  /** A spare token was never issued before. */
  ghost predicate Enabled(s: State, step: Step) {
    step.Serve? ==> forall i :: 0 <= i < |s.history| ==> s.history[i].token != step.spare
  }

  function EventOf(r: Request, o: Outcome): Option<Event> {
    if o.Pending? then Some(Issued(o.token, r.tool, Proper(r), OrgKey(r.org)))
    else if o.Executed? && r.write && TokenOf(r).Some? then
      Some(Ran(TokenOf(r).value, r.tool, Proper(r), OrgKey(r.org)))
    else None
  }

  function Next(s: State, step: Step, hash: Digest): State {
    match step
    case Expire(t) => s.(cache := s.cache - {t})
    case Serve(r, spare) =>
      var (cache, outcome) := Handled(s.cache, r, spare, hash);
      var e := EventOf(r, outcome);
      State(cache, if e.Some? then s.history + [e.value] else s.history)
  }

  ghost predicate IsRun(states: seq<State>, steps: seq<Step>, hash: Digest) {
    && |states| == |steps| + 1
    && states[0] == State(map[], [])
    && forall i :: 0 <= i < |steps| ==> Enabled(states[i], steps[i]) && states[i + 1] == Next(states[i], steps[i], hash)
  }

  /** The issuance at `i` covers the execution at `j`. */
  predicate Covers(history: seq<Event>, i: nat, j: nat) {
    && i < j < |history|
    && history[j].Ran?
    && history[i] == Issued(history[j].token, history[j].tool, history[j].args, history[j].org)
  }

  /** Tokens are issued once and used at most once, and every use was issued before. */
  ghost predicate HistoryOk(history: seq<Event>) {
    && (forall i, j :: 0 <= i < j < |history| && history[i].Issued? && history[j].Issued? ==>
          history[i].token != history[j].token)
    && (forall i, j :: 0 <= i < j < |history| && history[i].Ran? && history[j].Ran? ==>
          history[i].token != history[j].token)
    && (forall j: nat :: j < |history| && history[j].Ran? ==> exists i: nat :: Covers(history, i, j))
  }

  /** A token in the cache was issued for its call and has not been used. */
  ghost predicate EntryOk(history: seq<Event>, token: string, e: Entry, hash: Digest) {
    && (exists i, args :: 0 <= i < |history|
          && history[i] == Issued(token, e.tool, args, e.org) && e.digest == hash(e.tool, args))
    && forall j :: 0 <= j < |history| && history[j].Ran? ==> history[j].token != token
  }

  ghost predicate Inv(s: State, hash: Digest) {
    HistoryOk(s.history) && forall t :: t in s.cache ==> EntryOk(s.history, t, s.cache[t], hash)
  }

  lemma {:induction false} EntryStaysOk(history: seq<Event>, e: Event, t: string, entry: Entry, hash: Digest)
    requires EntryOk(history, t, entry, hash) && (e.Ran? ==> e.token != t)
    ensures EntryOk(history + [e], t, entry, hash)
  {
    var i, args :| 0 <= i < |history| && history[i] == Issued(t, entry.tool, args, entry.org)
      && entry.digest == hash(entry.tool, args);
    assert (history + [e])[i] == Issued(t, entry.tool, args, entry.org);
  }

  lemma {:induction false} IssueKeepsInv(s: State, r: Request, spare: string, hash: Digest)
    requires Inv(s, hash) && Enabled(s, Serve(r, spare)) && Handled(s.cache, r, spare, hash).1.Pending?
    ensures Inv(Next(s, Serve(r, spare), hash), hash)
  {
    var s' := Next(s, Serve(r, spare), hash);
    var more := s'.history;
    assert more[|s.history|] == Issued(spare, r.tool, Proper(r), OrgKey(r.org));
    forall j: nat | j < |more| && more[j].Ran? ensures exists i: nat :: Covers(more, i, j) {
      assert s.history[j].Ran?;
      var i: nat :| Covers(s.history, i, j);
      assert Covers(more, i, j);
    }
    forall t | t in s'.cache ensures EntryOk(more, t, s'.cache[t], hash) {
      if t != spare {
        EntryStaysOk(s.history, more[|s.history|], t, s.cache[t], hash);
      }
    }
  }

  /** An execution that an issuance covers, under a token not used before, may follow. */
  lemma {:induction false} UseFollows(history: seq<Event>, e: Event, k: nat)
    requires HistoryOk(history) && e.Ran? && Covers(history + [e], k, |history|)
    requires forall j :: 0 <= j < |history| && history[j].Ran? ==> history[j].token != e.token
    ensures HistoryOk(history + [e])
  {
    var more := history + [e];
    forall j: nat | j < |more| && more[j].Ran? ensures exists i: nat :: Covers(more, i, j) {
      if j < |history| {
        var i: nat :| Covers(history, i, j);
        assert Covers(more, i, j);
      }
    }
  }

  lemma {:induction false} UseKeepsInv(s: State, r: Request, spare: string, hash: Digest)
    requires CollisionFree(hash) && Inv(s, hash) && Enabled(s, Serve(r, spare))
    requires r.write && Handled(s.cache, r, spare, hash).1.Executed?
    ensures Inv(Next(s, Serve(r, spare), hash), hash)
  {
    var token := TokenOf(r).value;
    var s' := Next(s, Serve(r, spare), hash);
    var more := s'.history;
    var n := |s.history|;
    assert more[n] == Ran(token, r.tool, Proper(r), OrgKey(r.org));
    assert EntryOk(s.history, token, s.cache[token], hash);
    var k, args :| 0 <= k < n && s.history[k] == Issued(token, r.tool, args, OrgKey(r.org))
      && hash(r.tool, Proper(r)) == hash(r.tool, args);
    assert Covers(more, k, n);
    UseFollows(s.history, more[n], k);
    forall t | t in s'.cache ensures EntryOk(more, t, s'.cache[t], hash) {
      EntryStaysOk(s.history, more[n], t, s.cache[t], hash);
    }
  }

  lemma {:induction false} StepKeepsInv(s: State, step: Step, hash: Digest)
    requires CollisionFree(hash) && Inv(s, hash) && Enabled(s, step)
    ensures Inv(Next(s, step, hash), hash)
  {
    if step.Serve? {
      var outcome := Handled(s.cache, step.r, step.spare, hash).1;
      if outcome.Pending? {
        IssueKeepsInv(s, step.r, step.spare, hash);
      } else if outcome.Executed? && step.r.write {
        UseKeepsInv(s, step.r, step.spare, hash);
      }
    }
  }

  lemma {:induction false} InvOverRuns(states: seq<State>, steps: seq<Step>, hash: Digest, n: nat)
    requires CollisionFree(hash) && IsRun(states, steps, hash) && n < |states|
    ensures Inv(states[n], hash)
  {
    if n > 0 {
      InvOverRuns(states, steps, hash, n - 1);
      StepKeepsInv(states[n - 1], steps[n - 1], hash);
    }
  }

  /** A write tool is executed only under a token, whatever the request. */
  lemma {:induction false} NoWriteWithoutToken(s: State, r: Request, spare: string, hash: Digest)
    requires r.write && Handled(s.cache, r, spare, hash).1.Executed?
    ensures TokenOf(r).Some? && EventOf(r, Handled(s.cache, r, spare, hash).1).Some?
    ensures TokenOf(r).value in s.cache && TokenOf(r).value !in Handled(s.cache, r, spare, hash).0
  {
  }

  /** Over every run, each write execution has an earlier issuance for the same tool, arguments and organisation. */
  lemma {:induction false} EveryWriteWasIssued(states: seq<State>, steps: seq<Step>, hash: Digest, n: nat, j: nat)
    returns (i: nat)
    requires CollisionFree(hash) && IsRun(states, steps, hash) && n < |states|
    requires j < |states[n].history| && states[n].history[j].Ran?
    ensures Covers(states[n].history, i, j)
  {
    InvOverRuns(states, steps, hash, n);
    i :| Covers(states[n].history, i, j);
  }

  /** Over every run, each write that is executed enters the history under its token, after its issuance. */
  lemma {:induction false} EveryExecutionWasIssued(states: seq<State>, steps: seq<Step>, hash: Digest, n: nat)
    returns (i: nat)
    requires CollisionFree(hash) && IsRun(states, steps, hash) && n < |steps| && steps[n].Serve? && steps[n].r.write
    requires Handled(states[n].cache, steps[n].r, steps[n].spare, hash).1.Executed?
    ensures
      var r, history := steps[n].r, states[n + 1].history;
      && TokenOf(r).Some?
      && history == states[n].history + [Ran(TokenOf(r).value, r.tool, Proper(r), OrgKey(r.org))]
      && Covers(history, i, |states[n].history|)
  {
    NoWriteWithoutToken(states[n], steps[n].r, steps[n].spare, hash);
    assert states[n + 1].history == states[n].history
      + [EventOf(steps[n].r, Handled(states[n].cache, steps[n].r, steps[n].spare, hash).1).value];
    i := EveryWriteWasIssued(states, steps, hash, n + 1, |states[n].history|);
  }

  /** Over every run, no issuance covers two write executions. */
  lemma {:induction false} IssuedOnceUsedOnce(
      states: seq<State>, steps: seq<Step>, hash: Digest, n: nat, i: nat, j: nat, k: nat)
    requires CollisionFree(hash) && IsRun(states, steps, hash) && n < |states|
    requires Covers(states[n].history, i, j) && Covers(states[n].history, i, k)
    ensures j == k
  {
    InvOverRuns(states, steps, hash, n);
  }

  /** Over every run, only an issuance, a write execution and an expiry change the cache: a failed check does not. */
  lemma {:induction false} NothingElseConsumes(states: seq<State>, steps: seq<Step>, hash: Digest, n: nat)
    requires IsRun(states, steps, hash) && n < |steps| && steps[n].Serve?
    requires
      var outcome := Handled(states[n].cache, steps[n].r, steps[n].spare, hash).1;
      !outcome.Pending? && !(outcome.Executed? && steps[n].r.write)
    ensures states[n + 1] == states[n]
  {
  }

  /** A call that was admitted to a read tool is executed, and one that was not admitted is rejected. */
  lemma {:induction false} ReadsAreExecuted(s: State, r: Request, spare: string, hash: Digest)
    ensures r.admitted && !r.write ==> Handled(s.cache, r, spare, hash) == (s.cache, Executed)
    ensures !r.admitted ==> Handled(s.cache, r, spare, hash) == (s.cache, Rejected)
    ensures r.admitted && r.write && TokenOf(r).None? ==> Handled(s.cache, r, spare, hash).1 == Pending(spare)
  {
  }

  /** From `n` on, the token neither expires nor is used. */
  ghost predicate Untouched(states: seq<State>, steps: seq<Step>, token: string, n: nat, m: nat)
    requires |states| == |steps| + 1 && n <= m <= |steps|
  {
    && (forall k :: n <= k < m ==> steps[k] != Expire(token))
    && (forall j :: 0 <= j < |states[m].history| && states[m].history[j].Ran? ==> states[m].history[j].token != token)
  }

  lemma {:induction false} HistoryGrows(s: State, step: Step, hash: Digest)
    ensures s.history <= Next(s, step, hash).history
    ensures |Next(s, step, hash).history| <= |s.history| + 1
  {
  }

  /** One step of a token's life: it stays cached unless it expires or is used. */
  lemma {:induction false} TokenStays(s: State, step: Step, hash: Digest, token: string)
    requires Enabled(s, step) && token in s.cache && step != Expire(token)
    requires exists j :: 0 <= j < |s.history| && s.history[j].token == token
    requires forall j ::
      0 <= j < |Next(s, step, hash).history| && Next(s, step, hash).history[j].Ran? ==>
        Next(s, step, hash).history[j].token != token
    ensures token in Next(s, step, hash).cache && Next(s, step, hash).cache[token] == s.cache[token]
  {
    var s' := Next(s, step, hash);
    if step.Serve? {
      var outcome := Handled(s.cache, step.r, step.spare, hash).1;
      var e := EventOf(step.r, outcome);
      if e.Some? {
        assert s'.history[|s.history|] == e.value;
      }
    }
  }

  /** Over every run, a token that was issued and neither expired nor was used since is in the cache for its call. */
  lemma {:induction false} IssuedStaysCached(
      states: seq<State>, steps: seq<Step>, hash: Digest, n: nat, m: nat, r: Request, token: string)
    requires IsRun(states, steps, hash) && n < m <= |steps| && steps[n] == Serve(r, token)
    requires Handled(states[n].cache, r, token, hash).1.Pending? && Untouched(states, steps, token, n + 1, m)
    ensures token in states[m].cache
    ensures states[m].cache[token] == Entry(r.tool, hash(r.tool, Proper(r)), OrgKey(r.org))
    ensures exists j :: 0 <= j < |states[m].history| && states[m].history[j].token == token
    decreases m
  {
    if m == n + 1 {
      assert states[m].history[|states[n].history|].token == token;
    } else {
      var s, step := states[m - 1], steps[m - 1];
      HistoryGrows(s, step, hash);
      assert states[m] == Next(s, step, hash);
      assert forall j :: 0 <= j < |s.history| ==> s.history[j] == states[m].history[j];
      IssuedStaysCached(states, steps, hash, n, m - 1, r, token);
      TokenStays(s, step, hash, token);
      var j :| 0 <= j < |s.history| && s.history[j].token == token;
      assert states[m].history[j].token == token;
    }
  }

  /**
   Over every run, the confirmed call goes through: with a token that was issued for it and neither expired
   nor was used since, the same tool, arguments and organisation are executed, whatever came in between.
   */
  lemma {:induction false} ConfirmedIsExecuted(
      states: seq<State>, steps: seq<Step>, hash: Digest, n: nat, m: nat, r: Request, token: string, again: Request,
      spare: string)
    requires IsRun(states, steps, hash) && n < m <= |steps| && steps[n] == Serve(r, token)
    requires Handled(states[n].cache, r, token, hash).1.Pending? && Untouched(states, steps, token, n + 1, m)
    requires again.admitted && again.write && TokenOf(again) == Some(token)
    requires again.tool == r.tool && Proper(again) == Proper(r) && OrgKey(again.org) == OrgKey(r.org)
    ensures Handled(states[m].cache, again, spare, hash) == (states[m].cache - {token}, Executed)
  {
    IssuedStaysCached(states, steps, hash, n, m, r, token);
  }

  /** Over every run, what one organisation was asked to confirm no other organisation can confirm. */
  lemma {:induction false} OtherOrganisationIsRefused(
      states: seq<State>, steps: seq<Step>, hash: Digest, n: nat, m: nat, r: Request, token: string, again: Request,
      spare: string)
    requires IsRun(states, steps, hash) && n < m <= |steps| && steps[n] == Serve(r, token)
    requires Handled(states[n].cache, r, token, hash).1.Pending? && Untouched(states, steps, token, n + 1, m)
    requires r.org.Some? && r.org.value != "" && again.org != r.org
    requires again.admitted && again.write && TokenOf(again) == Some(token)
    ensures Handled(states[m].cache, again, spare, hash) == (states[m].cache, Refused)
  {
    IssuedStaysCached(states, steps, hash, n, m, r, token);
  }

  /** An empty token asks for confirmation as a missing one does, and the token is no part of the call it confirms. */
  lemma {:induction false} EmptyTokenAsks(
      cache: map<string, Entry>, r: Request, token: string, spare: string, hash: Digest)
    requires token != "" && r.admitted && r.write && "confirmation_token" !in r.arguments
    ensures Handled(cache, r, spare, hash) ==
            (cache[spare := Entry(r.tool, hash(r.tool, r.arguments), OrgKey(r.org))], Pending(spare))
    ensures
      var empty := r.(arguments := r.arguments["confirmation_token" := ""]);
      Handled(cache, empty, spare, hash) == Handled(cache, r, spare, hash)
    ensures
      var with := r.(arguments := r.arguments["confirmation_token" := token]);
      TokenOf(with) == Some(token) && Proper(with) == r.arguments
  {
    assert r.arguments - {"confirmation_token"} == r.arguments;
    assert r.arguments["confirmation_token" := ""] - {"confirmation_token"} == r.arguments;
    assert r.arguments["confirmation_token" := token] - {"confirmation_token"} == r.arguments;
  }

  /** An expired token confirms nothing, nor does one for another tool, other arguments or another organisation. */
  lemma {:induction false} ExpiredIsRefused(s: State, r: Request, spare: string, hash: Digest)
    requires r.admitted && r.write && TokenOf(r).Some?
    ensures Handled(Next(s, Expire(TokenOf(r).value), hash).cache, r, spare, hash).1.Refused?
    ensures CollisionFree(hash) && TokenOf(r).value in s.cache
      && (exists args ::
            s.cache[TokenOf(r).value].digest == hash(s.cache[TokenOf(r).value].tool, args) && args != Proper(r))
      ==> Handled(s.cache, r, spare, hash).1.Refused?
    ensures TokenOf(r).value in s.cache
      && (s.cache[TokenOf(r).value].tool != r.tool || s.cache[TokenOf(r).value].org != OrgKey(r.org))
      ==> Handled(s.cache, r, spare, hash).1.Refused?
  {
  }
}
