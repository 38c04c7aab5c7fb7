/** The cache in front of the lookup of the built-in workspaces: its keys and its invalidation. */
module WorkspaceCache {
  import opened Prelude

  const PREFIX := "rbac::workspace::"
  const RESPONSE := "response"
  const BATCH_DELETE_SIZE := 1000

  datatype WsType = Root | Default

  function TypeName(t: WsType): string {
    match t case Root => "root" case Default => "default"
  }

  function KeyFor(org: string, t: WsType): string {
    PREFIX + (org + "::" + TypeName(t))
  }

  function ResponseKeyFor(org: string, suffix: string): string {
    PREFIX + (RESPONSE + "::" + (org + "::" + suffix))
  }

  /** The keys, spelled out. */
  lemma {:induction false} KeysAre(org: string, suffix: string)
    ensures KeyFor(org, Root) == "rbac::workspace::" + org + "::root"
    ensures KeyFor(org, Default) == "rbac::workspace::" + org + "::default"
    ensures ResponseKeyFor(org, suffix) == "rbac::workspace::response::" + org + "::" + suffix
  {
    assert "::" + "root" == "::root" && "::" + "default" == "::default";
    assert PREFIX + (RESPONSE + "::") == "rbac::workspace::response::";
  }

  predicate NoColon(s: string) {
    forall i :: 0 <= i < |s| ==> s[i] != ':'
  }

  /** No character that has a meaning in a match pattern. */
  predicate Plain(s: string) {
    forall i :: 0 <= i < |s| ==> s[i] !in {'*', '?', '[', ']', '\\'}
  }

  /** The server's glob match, for patterns of literals, `?` and `*`. */
  predicate Glob(pattern: string, s: string)
    decreases |pattern|, |s|
  {
    if pattern == "" then s == ""
    else if pattern[0] == '*' then Glob(pattern[1..], s) || (s != "" && Glob(pattern, s[1..]))
    else s != "" && (pattern[0] == '?' || pattern[0] == s[0]) && Glob(pattern[1..], s[1..])
  }

  function ModelPattern(org: string): string {
    PREFIX + (org + "::") + "*"
  }

  function ResponsePattern(org: string): string {
    PREFIX + (RESPONSE + "::" + (org + "::")) + "*"
  }

  /** The keys that an invalidation of `org` deletes. */
  predicate Invalidates(org: string, key: string) {
    Glob(ModelPattern(org), key) || Glob(ResponsePattern(org), key)
  }

  lemma {:induction false} StarMatchesAll(s: string)
    ensures Glob("*", s)
    decreases |s|
  {
    if s != "" {
      StarMatchesAll(s[1..]);
    }
  }

  /** Question marks match exactly as many characters, whatever they are. */
  lemma {:induction false} GlobQuestions(n: nat, s: string)
    ensures Glob(seq(n, _ => '?'), s) <==> |s| == n
  {
    if n > 0 && s != "" {
      GlobQuestions(n - 1, s[1..]);
      assert seq(n, _ => '?')[1..] == seq(n - 1, _ => '?');
    }
  }

  /** A literal followed by a star matches exactly what starts with the literal. */
  lemma {:induction false} GlobPrefix(literal: string, s: string)
    requires Plain(literal)
    ensures Glob(literal + "*", s) <==> literal <= s
  {
    var pattern := literal + "*";
    if literal == "" {
      assert pattern == "*";
      StarMatchesAll(s);
    } else if s != "" {
      assert pattern[0] == literal[0];
      assert pattern[1..] == literal[1..] + "*";
      GlobPrefix(literal[1..], s[1..]);
      assert literal <= s <==> literal[0] == s[0] && literal[1..] <= s[1..];
    }
  }

  /** Two colon-free fields before a separator are the same field. */
  lemma {:induction false} SameField(a: string, b: string, rest: string)
    requires NoColon(a) && NoColon(b)
    ensures a + "::" <= b + "::" + rest <==> a == b
  {
    var whole := b + "::" + rest;
    if a + "::" <= whole {
      assert (a + "::")[|a|] == ':' == whole[|a|];
      assert whole[|b|] == ':';
      assert |a| == |b|;
      assert a == whole[..|a|] == b;
    }
  }

  lemma {:induction false} DropCommon(p: string, a: string, b: string)
    ensures p + a <= p + b <==> a <= b
  {
    if p + a <= p + b {
      assert (p + b)[..|p + a|] == p + a;
      assert forall i :: 0 <= i < |a| ==> a[i] == (p + a)[|p| + i] == (p + b)[|p| + i] == b[i];
    }
    if a <= b {
      assert p + b == (p + a) + b[|a|..];
    }
  }

  lemma {:induction false} PlainParts(a: string, b: string)
    requires Plain(a) && Plain(b)
    ensures Plain(a + b)
  {
  }

  lemma {:induction false} PatternsArePrefixes(org: string, key: string)
    requires Plain(org)
    ensures Glob(ModelPattern(org), key) <==> PREFIX + (org + "::") <= key
    ensures Glob(ResponsePattern(org), key) <==> PREFIX + (RESPONSE + "::" + (org + "::")) <= key
  {
    PlainParts(org, "::");
    PlainParts(PREFIX, org + "::");
    GlobPrefix(PREFIX + (org + "::"), key);
    PlainParts(RESPONSE, "::");
    PlainParts(RESPONSE + "::", org + "::");
    PlainParts(PREFIX, RESPONSE + "::" + (org + "::"));
    GlobPrefix(PREFIX + (RESPONSE + "::" + (org + "::")), key);
  }

  /** The model key of an organisation goes exactly when that organisation is invalidated. */
  lemma {:induction false} ModelKeyGoesIff(org: string, other: string, t: WsType)
    requires Plain(org) && NoColon(org) && NoColon(other)
    ensures Invalidates(org, KeyFor(other, t)) <==> org == other
  {
    var key := KeyFor(other, t);
    PatternsArePrefixes(org, key);
    DropCommon(PREFIX, org + "::", other + "::" + TypeName(t));
    SameField(org, other, TypeName(t));
    DropCommon(PREFIX, RESPONSE + "::" + (org + "::"), other + "::" + TypeName(t));
    assert (org + "::")[|org|] == ':';
    if RESPONSE + "::" + (org + "::") <= other + "::" + TypeName(t) {
      var whole := other + "::" + TypeName(t);
      assert RESPONSE + "::" <= RESPONSE + "::" + (org + "::");
      SameField(RESPONSE, other, TypeName(t));
      assert other == RESPONSE;
      DropCommon(RESPONSE + "::", org + "::", TypeName(t));
      assert false;
    }
  }

  /** A response key goes exactly when its organisation is invalidated, or the one called "response". */
  lemma {:induction false} ResponseKeyGoesIff(org: string, other: string, suffix: string)
    requires Plain(org) && NoColon(org) && NoColon(other)
    ensures Invalidates(org, ResponseKeyFor(other, suffix)) <==> org == other || org == RESPONSE
  {
    var key := ResponseKeyFor(other, suffix);
    PatternsArePrefixes(org, key);
    var tail := other + "::" + suffix;
    DropCommon(PREFIX, org + "::", RESPONSE + "::" + tail);
    SameField(org, RESPONSE, tail);
    DropCommon(PREFIX, RESPONSE + "::" + (org + "::"), RESPONSE + "::" + tail);
    DropCommon(RESPONSE + "::", org + "::", tail);
    SameField(org, other, suffix);
  }

  /** No two built-in workspaces share a key, whatever the organisation ids. */
  lemma {:induction false} KeysAreDistinct(org: string, t: WsType, org': string, t': WsType)
    requires KeyFor(org, t) == KeyFor(org', t')
    ensures org == org' && t == t'
  {
    var a, b := org + "::" + TypeName(t), org' + "::" + TypeName(t');
    assert a == KeyFor(org, t)[|PREFIX|..] == b;
    assert a[|a| - 2] == TypeName(t)[|TypeName(t)| - 2];
    assert b[|b| - 2] == TypeName(t')[|TypeName(t')| - 2];
    assert t == t';
    assert org == a[..|a| - 2 - |TypeName(t)|] == org';
  }

  lemma {:induction false} RemoveOneMore<V>(m: map<string, V>, keys: set<string>, k: string)
    ensures m - (keys + {k}) == (m - keys) - {k}
  {
  }

  /** The cache server. */
  class Store<V> {
    var data: map<string, V>

    /** Queues the deletion of every scanned key and executes the pipeline whenever a batch is full. */
    method DeleteScanned(scan: seq<string>, queued: set<string>, start: nat) returns (pipeline: set<string>, count: nat)
      modifies this
      ensures data - pipeline == old(data) - queued - (set k | k in scan)
      ensures count == start + |scan|
    {
      pipeline, count := queued, start;
      var i := 0;
      ghost var seen: set<string> := {};
      while i < |scan|
        invariant 0 <= i <= |scan| && count == start + i
        invariant seen == set k | k in scan[..i]
        invariant data - pipeline == old(data) - queued - seen
      {
        assert scan[..i + 1] == scan[..i] + [scan[i]];
        RemoveOneMore(data, pipeline, scan[i]);
        RemoveOneMore(old(data) - queued, seen, scan[i]);
        seen := seen + {scan[i]};
        pipeline := pipeline + {scan[i]};
        count := count + 1;
        if count % BATCH_DELETE_SIZE == 0 {
          data := data - pipeline;
          pipeline := {};
          assert data - pipeline == data;
        }
        i := i + 1;
      }
      assert scan[..i] == scan;
    }

    /**
     Invalidation of one organisation, across pipeline batches. A scan returns every matching key that is
     there throughout, possibly more than once. Exactly the matching keys go.
     */
    method DeleteWorkspacesForTenant(org: string, models: seq<string>, responses: seq<string>) returns (count: nat)
      requires forall k :: k in models ==> Glob(ModelPattern(org), k)
      requires forall k :: k in responses ==> Glob(ResponsePattern(org), k)
      requires forall k :: k in data && Glob(ModelPattern(org), k) ==> k in models
      requires forall k :: k in data && Glob(ResponsePattern(org), k) ==> k in responses
      modifies this
      ensures data == map k | k in old(data) && !Invalidates(org, k) :: old(data)[k]
      ensures count == |models| + |responses|
    {
      var pipeline, n := DeleteScanned(models, {}, 0);
      ghost var middle := data - pipeline;
      pipeline, count := DeleteScanned(responses, pipeline, n);
      data := data - pipeline;
    }
  }
}
