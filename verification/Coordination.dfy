/**
 The completion notice of a migration batch: how its token travels from the producer through the
 outbox context to the consumer and back, and how the producer waits for it.
 */
module Coordination {
  import opened Prelude
  import opened TupleLog
  import opened Text

  datatype Config = Config(channel: string, timeoutSeconds: nat, includeOrgId: bool, requireToken: bool)

  const REMOVE_ROOT_PARENT := "remove_root_parent_tenant_relationships"
  const MIGRATE_BINDING_SCOPE := "migrate_binding_scope"
  const REMOVE_ROOT_PARENT_CHANNEL := "remove_legacy_root_workspace_parent_batch"
  const MIGRATE_BINDING_SCOPE_CHANNEL := "migrate_binding_scope_batch"
  const TIMEOUT_SECONDS := 600

  function ConfigFor(eventType: string): Option<Config> {
    if eventType == REMOVE_ROOT_PARENT then
      Some(Config(REMOVE_ROOT_PARENT_CHANNEL, TIMEOUT_SECONDS, false, true))
    else if eventType == MIGRATE_BINDING_SCOPE then
      Some(Config(MIGRATE_BINDING_SCOPE_CHANNEL, TIMEOUT_SECONDS, true, false))
    else None
  }

  /** The `resource_context` of an outbox row. */
  datatype Context = Context(orgId: string, eventType: string, createdAt: int, token: string)

  function Lookup(info: map<string, string>, key: string): string {
    if key in info then info[key] else ""
  }

  /** The context that the producer writes; none when the event carries no token. */
  function BuildContext(eventType: string, info: map<string, string>, config: Config, now: int): Option<Context> {
    var token := Lookup(info, "notify_token");
    if token == "" then None
    else Some(Context(if config.includeOrgId then Lookup(info, "org_id") else "", eventType, now, token))
  }

  /** The notice that the consumer sends after applying a batch with this context. */
  function NoticeFor(context: Option<Context>): Option<Notice> {
    if context.None? || context.value.eventType == "" || context.value.token == "" then None
    else
      var config := ConfigFor(context.value.eventType);
      if config.None? then None else Some(Notice(config.value.channel, Strip(context.value.token)))
  }

  /** What the waiting producer accepts. */
  predicate Accepts(channel: string, expected: string, n: Notice) {
    n.channel == channel && Strip(n.payload) == Strip(expected)
  }

  /** The two coordinated migrations and nothing else; only one of them tells the organisation. */
  lemma {:induction false} Coordinated(eventType: string)
    ensures ConfigFor(eventType).Some? <==> eventType in {REMOVE_ROOT_PARENT, MIGRATE_BINDING_SCOPE}
    ensures ConfigFor(REMOVE_ROOT_PARENT) ==
      Some(Config("remove_legacy_root_workspace_parent_batch", 600, false, true))
    ensures ConfigFor(MIGRATE_BINDING_SCOPE) == Some(Config("migrate_binding_scope_batch", 600, true, false))
  {
    assert REMOVE_ROOT_PARENT[0] != MIGRATE_BINDING_SCOPE[0];
  }

  /** What travels: the token as it is, the event type, and the organisation where the migration tells it. */
  lemma {:induction false} ContextIs(eventType: string, info: map<string, string>, config: Config, now: int)
    ensures BuildContext(eventType, info, config, now).None? <==>
      "notify_token" !in info || info["notify_token"] == ""
    ensures
      var context := BuildContext(eventType, info, config, now);
      context.Some? ==>
        && context.value.token == info["notify_token"]
        && context.value.eventType == eventType
        && context.value.createdAt == now
        && (config.includeOrgId && "org_id" in info ==> context.value.orgId == info["org_id"])
        && (!config.includeOrgId || "org_id" !in info ==> context.value.orgId == "")
  {
  }

  /** When the consumer sends a notice: for a coordinated migration with a token, and never otherwise. */
  lemma {:induction false} NoticeIff(context: Option<Context>)
    ensures NoticeFor(context).Some? <==>
      context.Some? && context.value.token != "" && ConfigFor(context.value.eventType).Some?
    ensures NoticeFor(context).Some? ==>
      && NoticeFor(context).value.channel == ConfigFor(context.value.eventType).value.channel
      && NoticeFor(context).value.payload == Strip(context.value.token)
  {
    assert ConfigFor("").None? by {
      assert |REMOVE_ROOT_PARENT| > 0 && |MIGRATE_BINDING_SCOPE| > 0;
    }
  }

  /** The producer's wait accepts the notice that the consumer sends for its event, whatever the token. */
  lemma {:induction false} TokenComesBack(eventType: string, info: map<string, string>, token: string, now: int)
    requires ConfigFor(eventType).Some? && token != ""
    ensures
      var config := ConfigFor(eventType).value;
      var notice := NoticeFor(BuildContext(eventType, info["notify_token" := token], config, now));
      notice.Some? && Accepts(config.channel, token, notice.value)
  {
    StripTwice(token);
  }

  /** It accepts no notice sent for an event of another type or with another token. */
  lemma {:induction false} NoOtherNoticeAccepted(
      eventType: string, otherType: string, info: map<string, string>, token: string, now: int)
    requires ConfigFor(eventType).Some? && ConfigFor(otherType).Some?
    ensures
      var config, other := ConfigFor(eventType).value, ConfigFor(otherType).value;
      var notice := NoticeFor(BuildContext(otherType, info, other, now));
      notice.Some? && Accepts(config.channel, token, notice.value)
      ==> otherType == eventType && Strip(Lookup(info, "notify_token")) == Strip(token)
  {
    StripTwice(Lookup(info, "notify_token"));
    assert REMOVE_ROOT_PARENT_CHANNEL[0] != MIGRATE_BINDING_SCOPE_CHANNEL[0];
  }

  /** One turn of the wait: the clock, whether the connection became readable, and what was drained from it. */
  datatype Poll = Poll(now: real, readable: bool, notices: seq<Notice>)

  datatype WaitResult = NotWaited | Received | TimedOut

  ghost predicate Delivers(poll: Poll, channel: string, expected: string) {
    poll.readable && exists k :: 0 <= k < |poll.notices| && Accepts(channel, expected, poll.notices[k])
  }

  /** A matching notice is drained before the deadline. */
  ghost predicate InTime(polls: seq<Poll>, deadline: real, channel: string, expected: string) {
    exists i :: 0 <= i < |polls| && Delivers(polls[i], channel, expected)
      && forall j :: 0 <= j <= i ==> polls[j].now < deadline
  }

  /** LISTEN until a matching notice arrives; the clock eventually passes the deadline. */
  method WaitForNotice(channel: string, expected: string, timeout: real, started: real, polls: seq<Poll>)
    returns (r: WaitResult)
    requires timeout > 0.0 ==> polls != [] && polls[|polls| - 1].now >= started + timeout
    ensures timeout <= 0.0 <==> r.NotWaited?
    ensures timeout > 0.0 ==> (r.Received? <==> InTime(polls, started + timeout, channel, expected))
  {
    if timeout <= 0.0 {
      return NotWaited;
    }
    var deadline := started + timeout;
    var i := 0;
    while true
      invariant 0 <= i < |polls|
      invariant forall j :: 0 <= j < i ==> polls[j].now < deadline
      invariant forall j :: 0 <= j < i ==> !Delivers(polls[j], channel, expected)
      decreases |polls| - i
    {
      if deadline - polls[i].now <= 0.0 {
        return TimedOut;
      }
      if polls[i].readable {
        var q := polls[i].notices;
        ghost var seen := 0;
        while q != []
          invariant 0 <= seen <= |polls[i].notices|
          invariant q == polls[i].notices[seen..]
          invariant forall k :: 0 <= k < seen ==> !Accepts(channel, expected, polls[i].notices[k])
        {
          if Accepts(channel, expected, q[0]) {
            assert Delivers(polls[i], channel, expected);
            return Received;
          }
          q := q[1..];
          seen := seen + 1;
        }
      }
      i := i + 1;
    }
  }
}
