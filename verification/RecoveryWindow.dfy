/** Reading the events of a time window from all partitions of a topic for disaster recovery. */
module RecoveryWindow {
  import opened Prelude

  /** `payload` is the unwrapped value if it is an object that the event filter accepts. */
  datatype Record = Record(partition: nat, offset: nat, stamp: int, payload: Option<string>)

  predicate Keep(r: Record, from: int) {
    r.stamp >= from && r.payload.Some?
  }

  /** The kept records, in order. */
  function Kept(recs: seq<Record>, from: int): seq<Record> {
    if recs == [] then [] else (if Keep(recs[0], from) then [recs[0]] else []) + Kept(recs[1..], from)
  }

  /** The record that ends its partition: at its end offset, or past the end of the window if it has none. */
  predicate Ends(r: Record, end: Option<nat>, until: int) {
    if end.Some? then r.offset >= end.value else r.stamp > until
  }

  /** What one partition contributes, read record by record. */
  function Collected(recs: seq<Record>, end: Option<nat>, from: int, until: int): seq<Record> {
    if recs == [] || Ends(recs[0], end, until) then []
    else
      (if Keep(recs[0], from) && recs[0].stamp <= until then [recs[0]] else []) + Collected(recs[1..], end, from, until)
  }

  /** The records of one partition. */
  function Of(recs: seq<Record>, p: nat): seq<Record> {
    if recs == [] then [] else (if recs[0].partition == p then [recs[0]] else []) + Of(recs[1..], p)
  }

  lemma {:induction false} OfAppend(recs: seq<Record>, r: Record, p: nat)
    ensures Of(recs + [r], p) == Of(recs, p) + if r.partition == p then [r] else []
  {
    if recs != [] {
      assert (recs + [r])[1..] == recs[1..] + [r];
      OfAppend(recs[1..], r, p);
    }
  }

  function EndOf(ends: map<nat, nat>, p: nat): Option<nat> {
    if p in ends then Some(ends[p]) else None
  }

  /** Partition `p` has contributed all it will, or exactly what precedes `rest`. */
  ghost predicate PartOk(
      stream: seq<Record>, rest: seq<Record>, ends: map<nat, nat>, from: int, until: int,
      finished: set<nat>, events: seq<Record>, p: nat)
  {
    var all := Collected(Of(stream, p), EndOf(ends, p), from, until);
    if p in finished then Of(events, p) == all
    else all == Of(events, p) + Collected(Of(rest, p), EndOf(ends, p), from, until)
  }

  lemma {:induction false} OfHead(rest: seq<Record>, p: nat)
    requires rest != []
    ensures Of(rest, p) == (if rest[0].partition == p then [rest[0]] + Of(rest[1..], p) else Of(rest[1..], p))
  {
  }

  function Taken(events: seq<Record>, r: Record, from: int, until: int): seq<Record> {
    if Keep(r, from) && r.stamp <= until then events + [r] else events
  }

  lemma {:induction false} OfTaken(events: seq<Record>, r: Record, from: int, until: int, p: nat)
    ensures Of(Taken(events, r, from, until), p)
         == if r.partition == p then Taken(Of(events, p), r, from, until) else Of(events, p)
  {
    OfAppend(events, r, p);
  }

  lemma {:induction false} CollectedHead(
      r: Record, recs: seq<Record>, sofar: seq<Record>, end: Option<nat>, from: int, until: int)
    requires !Ends(r, end, until)
    ensures sofar + Collected([r] + recs, end, from, until)
         == Taken(sofar, r, from, until) + Collected(recs, end, from, until)
  {
    assert ([r] + recs)[1..] == recs;
  }

  /** A record of a running partition that does not end it: it is collected if it is kept. */
  lemma {:induction false} RecordTaken(
      stream: seq<Record>, rest: seq<Record>, ends: map<nat, nat>, from: int, until: int,
      finished: set<nat>, events: seq<Record>, p: nat)
    requires rest != [] && PartOk(stream, rest, ends, from, until, finished, events, p)
    requires rest[0].partition !in finished && !Ends(rest[0], EndOf(ends, rest[0].partition), until)
    ensures PartOk(stream, rest[1..], ends, from, until, finished, Taken(events, rest[0], from, until), p)
  {
    var r := rest[0];
    OfTaken(events, r, from, until, p);
    OfHead(rest, p);
    if r.partition == p {
      CollectedHead(r, Of(rest[1..], p), Of(events, p), EndOf(ends, p), from, until);
    } else {
      assert Of(rest, p) == Of(rest[1..], p);
      assert Of(Taken(events, r, from, until), p) == Of(events, p);
    }
  }

  /** A record of a finished partition, or one that finishes it, contributes nothing. */
  lemma {:induction false} RecordEnds(
      stream: seq<Record>, rest: seq<Record>, ends: map<nat, nat>, from: int, until: int,
      finished: set<nat>, events: seq<Record>, p: nat)
    requires rest != [] && PartOk(stream, rest, ends, from, until, finished, events, p)
    requires rest[0].partition !in finished ==> Ends(rest[0], EndOf(ends, rest[0].partition), until)
    ensures PartOk(stream, rest[1..], ends, from, until, finished + {rest[0].partition}, events, p)
  {
    OfHead(rest, p);
  }

  ghost predicate AllPartsOk(
      stream: seq<Record>, i: nat, active: set<nat>, ends: map<nat, nat>, from: int, until: int,
      finished: set<nat>, events: seq<Record>)
    requires i <= |stream|
  {
    forall p :: p in active ==> PartOk(stream, stream[i..], ends, from, until, finished, events, p)
  }

  /** One turn of the loop. */
  lemma {:induction false} OneRecord(
      stream: seq<Record>, i: nat, active: set<nat>, ends: map<nat, nat>, from: int, until: int,
      finished: set<nat>, events: seq<Record>)
    requires i < |stream| && AllPartsOk(stream, i, active, ends, from, until, finished, events)
    ensures
      var r := stream[i];
      if r.partition in finished || Ends(r, EndOf(ends, r.partition), until) then
        AllPartsOk(stream, i + 1, active, ends, from, until, finished + {r.partition}, events)
      else
        AllPartsOk(stream, i + 1, active, ends, from, until, finished, Taken(events, r, from, until))
  {
    var rest := stream[i..];
    assert rest[1..] == stream[i + 1..];
    forall p | p in active ensures
      var r := stream[i];
      if r.partition in finished || Ends(r, EndOf(ends, r.partition), until) then
        PartOk(stream, stream[i + 1..], ends, from, until, finished + {r.partition}, events, p)
      else
        PartOk(stream, stream[i + 1..], ends, from, until, finished, Taken(events, r, from, until), p)
    {
      if rest[0].partition in finished || Ends(rest[0], EndOf(ends, rest[0].partition), until) {
        RecordEnds(stream, rest, ends, from, until, finished, events, p);
      } else {
        RecordTaken(stream, rest, ends, from, until, finished, events, p);
      }
    }
  }

  /** The body of the loop: `stop` is the early break, taken once every partition is finished. */
  method TakeRecord(
      r: Record, active: set<nat>, ends: map<nat, nat>, from: int, until: int, finished: set<nat>, events: seq<Record>)
    returns (finished': set<nat>, events': seq<Record>, stop: bool)
    requires finished <= active && r.partition in active
    ensures finished' <= active && (stop ==> |finished'| == |active|)
    ensures
      if r.partition in finished || Ends(r, EndOf(ends, r.partition), until) then
        finished' == finished + {r.partition} && events' == events
      else
        finished' == finished && events' == Taken(events, r, from, until)
  {
    finished', events', stop := finished, events, false;
    var tp := r.partition;
    if tp in finished {
      return;
    }
    if tp in ends && r.offset >= ends[tp] {
      finished' := finished + {tp};
      stop := |finished'| == |active|;
      return;
    }
    if r.stamp > until {
      if tp !in ends {
        finished' := finished + {tp};
        stop := |finished'| == |active|;
      }
      return;
    }
    if r.stamp < from || r.payload.None? {
      return;
    }
    events' := events + [r];
  }

  lemma {:induction false} SameSize(a: set<nat>, b: set<nat>)
    requires a <= b && |a| == |b|
    ensures a == b
  {
    assert b == a + (b - a);
  }

  lemma {:induction false} AllContributed(
      stream: seq<Record>, i: nat, active: set<nat>, ends: map<nat, nat>, from: int, until: int,
      finished: set<nat>, events: seq<Record>)
    requires i <= |stream| && AllPartsOk(stream, i, active, ends, from, until, finished, events)
    requires i == |stream| || (finished <= active && |finished| == |active|)
    ensures forall p :: p in active ==> Of(events, p) == Collected(Of(stream, p), EndOf(ends, p), from, until)
  {
    if i < |stream| {
      SameSize(finished, active);
    }
    forall p | p in active ensures Of(events, p) == Collected(Of(stream, p), EndOf(ends, p), from, until) {
      assert PartOk(stream, stream[i..], ends, from, until, finished, events, p);
    }
  }

  /**
   The loop over all partitions. Whatever the interleaving, every active partition contributes what it
   would contribute alone; stopping once all of them are finished cuts none of them short.
   */
  method ReadEvents(stream: seq<Record>, active: set<nat>, ends: map<nat, nat>, from: int, until: int)
    returns (events: seq<Record>)
    requires forall i :: 0 <= i < |stream| ==> stream[i].partition in active
    ensures forall p :: p in active ==> Of(events, p) == Collected(Of(stream, p), EndOf(ends, p), from, until)
  {
    events := [];
    var finished: set<nat> := {};
    var i, stop := 0, false;
    assert stream[0..] == stream;
    while i < |stream| && !stop
      invariant 0 <= i <= |stream|
      invariant finished <= active && (stop ==> |finished| == |active|)
      invariant AllPartsOk(stream, i, active, ends, from, until, finished, events)
      decreases |stream| - i
    {
      OneRecord(stream, i, active, ends, from, until, finished, events);
      finished, events, stop := TakeRecord(stream[i], active, ends, from, until, finished, events);
      i := i + 1;
    }
    AllContributed(stream, i, active, ends, from, until, finished, events);
  }

  /** The retained records of a partition, by offset; the head may have expired and offsets may be missing. */
  ghost predicate ByOffset(log: seq<Record>) {
    forall j, k :: 0 <= j < k < |log| ==> log[j].offset < log[k].offset
  }

  /** The broker's lookup: the place of the earliest record stamped at or after `t`. */
  function PlaceForTime(log: seq<Record>, t: int): (r: Option<nat>)
    ensures r.Some? ==> r.value < |log| && log[r.value].stamp >= t
    ensures forall k :: 0 <= k < (if r.Some? then r.value else |log|) ==> log[k].stamp < t
  {
    if log == [] then None
    else
      var before := PlaceForTime(log[..|log| - 1], t);
      if before.Some? then before else if log[|log| - 1].stamp >= t then Some(|log| - 1) else None
  }

  /** The broker's answer: the offset of that record. */
  function OffsetForTime(log: seq<Record>, t: int): (r: Option<nat>)
    ensures r.Some? <==> PlaceForTime(log, t).Some?
    ensures r.Some? ==> exists k :: 0 <= k < |log| && log[k].offset == r.value && log[k].stamp >= t
  {
    var place := PlaceForTime(log, t);
    if place.Some? then Some(log[place.value].offset) else None
  }

  /** The first place at or after `s` stamped past the window. */
  function FirstPast(log: seq<Record>, s: nat, until: int): (r: nat)
    requires s <= |log|
    ensures s <= r <= |log|
    ensures r < |log| ==> log[r].stamp > until
    ensures forall k :: s <= k < r ==> log[k].stamp <= until
    decreases |log| - s
  {
    if s == |log| || log[s].stamp > until then s else FirstPast(log, s + 1, until)
  }

  /** Where reading a partition from `s` stops. */
  function StopAt(log: seq<Record>, s: nat, end: Option<nat>, until: int): (r: nat)
    requires s <= |log| && (end.Some? ==> end.value <= |log|)
    ensures s <= r <= |log|
  {
    if end.None? then FirstPast(log, s, until) else if end.value < s then s else end.value
  }

  lemma {:induction false} CollectedUpTo(
      log: seq<Record>, i: nat, stop: nat, end: Option<nat>, from: int, until: int)
    requires i <= stop <= |log|
    requires forall k :: i <= k < stop ==> !Ends(log[k], end, until) && log[k].stamp <= until
    requires stop < |log| ==> Ends(log[stop], end, until)
    ensures Collected(log[i..], end, from, until) == Kept(log[i..stop], from)
    decreases stop - i
  {
    if i < stop {
      CollectedUpTo(log, i + 1, stop, end, from, until);
      assert log[i..][1..] == log[i + 1..];
      assert log[i..stop][1..] == log[i + 1..stop];
    }
  }

  /** Where reading a partition from its start stops, when the end was looked up among `seen` records. */
  function StopFor(log: seq<Record>, seen: nat, s: nat, until: int): (r: nat)
    requires seen <= |log| && s <= |log|
    ensures s <= r <= |log|
  {
    StopAt(log, s, PlaceForTime(log[..seen], until), until)
  }

  /** Before that place every record is stamped inside the window and does not end the partition. */
  lemma {:induction false} BeforeStop(log: seq<Record>, seen: nat, s: nat, until: int, k: nat)
    requires ByOffset(log) && seen <= |log| && s <= |log| && s <= k < StopFor(log, seen, s, until)
    ensures log[k].stamp <= until && !Ends(log[k], OffsetForTime(log[..seen], until), until)
  {
    var place := PlaceForTime(log[..seen], until);
    if place.Some? {
      assert log[..seen][k] == log[k] && log[..seen][place.value] == log[place.value];
    }
  }

  lemma {:induction false} AtStop(log: seq<Record>, seen: nat, s: nat, until: int)
    requires ByOffset(log) && seen <= |log| && s <= |log| && StopFor(log, seen, s, until) < |log|
    ensures Ends(log[StopFor(log, seen, s, until)], OffsetForTime(log[..seen], until), until)
  {
    var place := PlaceForTime(log[..seen], until);
    if place.Some? {
      assert log[..seen][place.value] == log[place.value];
    }
  }

  /**
   A partition read from the record at place `s`, with its end looked up when `seen` records were there,
   contributes exactly its accepted records from `s`, stamped at or after the start, up to but excluding
   its end offset, or the first record stamped past the end if it has none.
   */
  lemma {:induction false} WindowOfPartition(log: seq<Record>, seen: nat, from: int, until: int, s: nat)
    requires ByOffset(log) && seen <= |log| && s <= |log|
    ensures Collected(log[s..], OffsetForTime(log[..seen], until), from, until)
         == Kept(log[s..StopFor(log, seen, s, until)], from)
  {
    var end, stop := OffsetForTime(log[..seen], until), StopFor(log, seen, s, until);
    forall k: nat | s <= k < stop ensures !Ends(log[k], end, until) && log[k].stamp <= until {
      BeforeStop(log, seen, s, until, k);
    }
    if stop < |log| {
      AtStop(log, seen, s, until);
    }
    CollectedUpTo(log, s, stop, end, from, until);
  }

  /** Kept records are the accepted ones, and stay in offset order. */
  lemma {:induction false} KeptIsOrdered(log: seq<Record>, i: nat, stop: nat, from: int)
    requires ByOffset(log) && i <= stop <= |log|
    ensures forall r :: r in Kept(log[i..stop], from) <==> r in log[i..stop] && Keep(r, from)
    ensures ByOffset(Kept(log[i..stop], from))
    decreases stop - i
  {
    if i < stop {
      KeptIsOrdered(log, i + 1, stop, from);
      assert log[i..stop] == [log[i]] + log[i + 1..stop];
      var rest := Kept(log[i + 1..stop], from);
      forall r | r in rest ensures log[i].offset < r.offset {
        var k :| 0 <= k < |log[i + 1..stop]| && log[i + 1..stop][k] == r;
      }
    }
  }

  function DocumentedHead(r: Record, from: int, until: int): seq<Record> {
    if Keep(r, from) && r.stamp <= until then [r] else []
  }

  /** What the documentation calls the window: both ends included. */
  function Documented(recs: seq<Record>, from: int, until: int): seq<Record> {
    if recs == [] then []
    else DocumentedHead(recs[0], from, until) + Documented(recs[1..], from, until)
  }

  lemma {:induction false} DocumentedStep(r: Record, recs: seq<Record>, from: int, until: int)
    ensures Documented([r] + recs, from, until) == DocumentedHead(r, from, until) + Documented(recs, from, until)
  {
    assert ([r] + recs)[1..] == recs;
  }

  lemma {:induction false} Associative(a: seq<Record>, b: seq<Record>, c: seq<Record>)
    ensures (a + b) + c == a + (b + c)
  {
  }

  lemma {:induction false} DocumentedSplit(a: seq<Record>, b: seq<Record>, from: int, until: int)
    ensures Documented(a + b, from, until) == Documented(a, from, until) + Documented(b, from, until)
  {
    if a == [] {
      assert a + b == b;
    } else {
      var r, rest := a[0], a[1..];
      DocumentedSplit(rest, b, from, until);
      assert a == [r] + rest;
      calc {
        Documented(a + b, from, until);
        { Associative([r], rest, b); DocumentedStep(r, rest + b, from, until); }
        DocumentedHead(r, from, until) + (Documented(rest, from, until) + Documented(b, from, until));
        { Associative(DocumentedHead(r, from, until), Documented(rest, from, until), Documented(b, from, until)); }
        (DocumentedHead(r, from, until) + Documented(rest, from, until)) + Documented(b, from, until);
        { DocumentedStep(r, rest, from, until); }
        Documented(a, from, until) + Documented(b, from, until);
      }
    }
  }

  predicate NoneWithin(recs: seq<Record>, from: int, until: int) {
    forall k :: 0 <= k < |recs| ==> !(Keep(recs[k], from) && recs[k].stamp <= until)
  }

  lemma {:induction false} DocumentedEmptyIff(recs: seq<Record>, from: int, until: int)
    ensures Documented(recs, from, until) == [] <==> NoneWithin(recs, from, until)
  {
    if recs != [] {
      DocumentedEmptyIff(recs[1..], from, until);
      if NoneWithin(recs[1..], from, until) {
        forall k | 1 <= k < |recs| ensures !(Keep(recs[k], from) && recs[k].stamp <= until) {
          assert recs[k] == recs[1..][k - 1];
        }
      }
    }
  }

  lemma {:induction false} DocumentedIsKept(recs: seq<Record>, from: int, until: int)
    requires forall k :: 0 <= k < |recs| ==> recs[k].stamp <= until
    ensures Documented(recs, from, until) == Kept(recs, from)
  {
    if recs != [] {
      DocumentedIsKept(recs[1..], from, until);
    }
  }

  lemma {:induction false} SameWithTail(a: seq<Record>, b: seq<Record>)
    ensures a == a + b <==> b == []
  {
    assert |a + b| == |a| + |b|;
  }

  lemma {:induction false} DocumentedParts(log: seq<Record>, from: int, until: int, s: nat, stop: nat)
    requires s <= stop <= |log|
    requires forall k :: 0 <= k < s ==> log[k].stamp < from
    requires forall k :: s <= k < stop ==> log[k].stamp <= until
    ensures Documented(log, from, until) == Kept(log[s..stop], from) + Documented(log[stop..], from, until)
  {
    assert log == log[..s] + (log[s..stop] + log[stop..]);
    DocumentedSplit(log[..s], log[s..stop] + log[stop..], from, until);
    DocumentedSplit(log[s..stop], log[stop..], from, until);
    DocumentedEmptyIff(log[..s], from, until);
    DocumentedIsKept(log[s..stop], from, until);
  }

  /**
   The documentation includes the end of the window; the code does not. The two agree exactly when no
   accepted record stamped inside the window lies at or beyond the place where reading stops. The start was
   looked up when `early` records were there, the end when `seen` were.
   */
  lemma {:induction false} InclusiveEndIff(log: seq<Record>, early: nat, seen: nat, from: int, until: int, s: nat)
    requires ByOffset(log) && early <= |log| && seen <= |log| && PlaceForTime(log[..early], from) == Some(s)
    ensures Collected(log[s..], OffsetForTime(log[..seen], until), from, until) == Documented(log, from, until)
       <==> NoneWithin(log[StopFor(log, seen, s, until)..], from, until)
  {
    var stop := StopFor(log, seen, s, until);
    WindowOfPartition(log, seen, from, until, s);
    forall k: nat | k < s ensures log[k].stamp < from {
      assert log[..early][k] == log[k];
    }
    forall k: nat | s <= k < stop ensures log[k].stamp <= until {
      BeforeStop(log, seen, s, until, k);
    }
    DocumentedParts(log, from, until, s, stop);
    SameWithTail(Kept(log[s..stop], from), Documented(log[stop..], from, until));
    DocumentedEmptyIff(log[stop..], from, until);
  }

  /** A record stamped at the very end: documented to be in the window, and not collected. */
  lemma {:induction false} EndIsLeftOut(r: Record)
    requires r.payload.Some?
    ensures PlaceForTime([r], r.stamp) == Some(0)
    ensures Documented([r], r.stamp, r.stamp) == [r]
    ensures Collected([r], OffsetForTime([r], r.stamp), r.stamp, r.stamp) == []
  {
    assert PlaceForTime([r][..0], r.stamp) == None;
  }

  lemma {:induction false} EndStamps(log: seq<Record>, from: int, until: int, stop: nat)
    requires stop <= |log| && from <= until
    requires forall k :: 0 <= k < stop ==> log[k].stamp < until
    requires forall k :: stop <= k < |log| ==> log[k].stamp >= until
    ensures NoneWithin(log[stop..], from, until)
       <==> forall k :: 0 <= k < |log| && log[k].stamp == until ==> log[k].payload.None?
  {
    forall k | stop <= k < |log| ensures log[k] == log[stop..][k - stop] {
    }
  }

  ghost predicate InTimeOrder(log: seq<Record>) {
    forall j, k :: 0 <= j < k < |log| ==> log[j].stamp <= log[k].stamp
  }

  /** Around the place where reading stops, with the end looked up at rest. */
  lemma {:induction false} StampsAtStop(log: seq<Record>, from: int, until: int, s: nat)
    requires from <= until && PlaceForTime(log, from) == Some(s)
    ensures forall k :: 0 <= k < StopFor(log, |log|, s, until) ==> log[k].stamp < until
    ensures StopFor(log, |log|, s, until) < |log| ==> log[StopFor(log, |log|, s, until)].stamp >= until
  {
    assert log[..|log|] == log;
  }

  lemma {:induction false} StampsAfter(log: seq<Record>, until: int, stop: nat)
    requires InTimeOrder(log) && (stop < |log| ==> log[stop].stamp >= until)
    ensures forall k :: stop <= k < |log| ==> log[k].stamp >= until
  {
  }

  /** On a partition in time order, looked up at rest: exactly when no accepted record is stamped at the very end. */
  lemma {:induction false} InclusiveEndInOrder(log: seq<Record>, from: int, until: int, s: nat)
    requires ByOffset(log) && InTimeOrder(log) && from <= until && PlaceForTime(log, from) == Some(s)
    ensures Collected(log[s..], OffsetForTime(log, until), from, until) == Documented(log, from, until)
       <==> forall k :: 0 <= k < |log| && log[k].stamp == until ==> log[k].payload.None?
  {
    var stop := StopFor(log, |log|, s, until);
    assert log[..|log|] == log;
    InclusiveEndIff(log, |log|, |log|, from, until, s);
    StampsAtStop(log, from, until, s);
    StampsAfter(log, until, stop);
    EndStamps(log, from, until, stop);
  }

  /** A partition: its retained records, and how many were there when its start and its end were looked up. */
  datatype Retained = Retained(log: seq<Record>, early: nat, seen: nat)

  type Partition = p: Retained | p.early <= |p.log| && p.seen <= |p.log| witness Retained([], 0, 0)

  /** The place of the start offset. */
  function Start(p: Partition, from: int): Option<nat> {
    PlaceForTime(p.log[..p.early], from)
  }

  function End(p: Partition, until: int): Option<nat> {
    OffsetForTime(p.log[..p.seen], until)
  }

  /** The records from the start offset on. */
  function FromStart(p: Partition, from: int): seq<Record> {
    if Start(p, from).Some? then p.log[Start(p, from).value..] else []
  }

  /** The accepted records from the start offset up to where reading stops. */
  function Window(p: Partition, from: int, until: int): seq<Record> {
    if Start(p, from).None? then []
    else Kept(p.log[Start(p, from).value..StopFor(p.log, p.seen, Start(p, from).value, until)], from)
  }

  lemma {:induction false} CollectedIsWindow(p: Partition, from: int, until: int)
    requires ByOffset(p.log)
    ensures Collected(FromStart(p, from), End(p, until), from, until) == Window(p, from, until)
  {
    if Start(p, from).Some? {
      WindowOfPartition(p.log, p.seen, from, until, Start(p, from).value);
    }
  }

  /** The active partitions are those with a start offset; some of them have an end offset. */
  method LookUpOffsets(parts: map<nat, Partition>, from: int, until: int)
    returns (active: set<nat>, ends: map<nat, nat>)
    ensures forall p :: p in active <==> p in parts && Start(parts[p], from).Some?
    ensures forall p :: p in active ==> EndOf(ends, p) == End(parts[p], until)
  {
    active, ends := {}, map[];
    var todo := parts.Keys;
    while todo != {}
      invariant todo <= parts.Keys && ends.Keys <= active
      invariant forall p :: p in active <==> p in parts && p !in todo && Start(parts[p], from).Some?
      invariant forall p :: p in active ==> EndOf(ends, p) == End(parts[p], until)
    {
      var p :| p in todo;
      todo := todo - {p};
      if Start(parts[p], from).Some? {
        active := active + {p};
        if End(parts[p], until).Some? {
          ends := ends[p := End(parts[p], until).value];
        }
      }
    }
  }

  lemma {:induction false} OfIsNotEmpty(stream: seq<Record>, i: nat)
    requires i < |stream|
    ensures Of(stream, stream[i].partition) != []
  {
    if i > 0 {
      OfIsNotEmpty(stream[1..], i - 1);
    }
  }

  /**
   The whole reader: every partition with a start offset contributes exactly its accepted records from
   there up to where it stops, whatever the interleaving.
   */
  method ReadWindow(stream: seq<Record>, parts: map<nat, Partition>, from: int, until: int)
    returns (events: seq<Record>)
    requires forall p :: p in parts ==> ByOffset(parts[p].log) && Of(stream, p) == FromStart(parts[p], from)
    requires forall i :: 0 <= i < |stream| ==> stream[i].partition in parts
    ensures forall p :: p in parts && Start(parts[p], from).Some? ==> Of(events, p) == Window(parts[p], from, until)
  {
    var active, ends := LookUpOffsets(parts, from, until);
    forall i | 0 <= i < |stream| ensures stream[i].partition in active {
      OfIsNotEmpty(stream, i);
    }
    events := ReadEvents(stream, active, ends, from, until);
    forall p | p in active ensures Of(events, p) == Window(parts[p], from, until) {
      CollectedIsWindow(parts[p], from, until);
    }
  }
}
