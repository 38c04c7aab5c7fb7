/** Nested transactions: the flag that tells decorated calls to use a savepoint, and retries inside a transaction. */
module Nesting {
  import opened Prelude

  /**
   A program over the two constructs: `Block` is a `with atomic_block()`, `Call` a call of an `@atomic`
   function. `Write` changes the database, `Raise` raises, `Catch` handles what its body raises.
   */
  datatype Program =
    | Write(n: int)
    | Raise
    | Then(first: Program, second: Program)
    | Catch(body: Program, handler: Program)
    | Block(body: Program)
    | Call(body: Program)

  datatype Construct = ABlock | ACall

  /** A plain `transaction.atomic()`, or one that sets the isolation level. */
  datatype Kind = Savepoint | Serializable

  /** A transaction is opened inside `blocks` live blocks, with `open` transactions open. */
  datatype Event = Opened(construct: Construct, kind: Kind, blocks: nat, open: nat)

  datatype Trace = Trace(raised: bool, db: seq<int>, events: seq<Event>)

  /** The isolation level is set while a transaction is already open. */
  predicate SetsTwice(e: Event) {
    e.kind.Serializable? && e.open > 0
  }

  /** Whether the database rejects such a second setting, given what was written before. */
  type Rejects = (seq<int>, Event) -> bool

  function Enclosed(e: Event, inside: Trace, db: seq<int>, rejects: Rejects): Trace {
    if SetsTwice(e) && rejects(db, e) then Trace(true, db, [e])
    else Trace(inside.raised, if inside.raised then db else inside.db, [e] + inside.events)
  }

  /**
   What a program does, judged by its nesting alone: in a block, a decorated call uses a savepoint; a
   construct that raises leaves the database as it found it.
   */
  function Meaning(p: Program, db: seq<int>, blocks: nat, open: nat, rejects: Rejects): Trace {
    match p
    case Write(n) => Trace(false, db + [n], [])
    case Raise => Trace(true, db, [])
    case Then(a, b) =>
      var x := Meaning(a, db, blocks, open, rejects);
      if x.raised then x
      else var y := Meaning(b, x.db, blocks, open, rejects); Trace(y.raised, y.db, x.events + y.events)
    case Catch(a, h) =>
      var x := Meaning(a, db, blocks, open, rejects);
      if !x.raised then x
      else var y := Meaning(h, x.db, blocks, open, rejects); Trace(y.raised, y.db, x.events + y.events)
    case Block(a) =>
      Enclosed(Opened(ABlock, Serializable, blocks, open), Meaning(a, db, blocks + 1, open + 1, rejects), db, rejects)
    case Call(a) =>
      var kind := if blocks > 0 then Savepoint else Serializable;
      Enclosed(Opened(ACall, kind, blocks, open), Meaning(a, db, blocks, open + 1, rejects), db, rejects)
  }

  /** The interpreter with the source's mechanism: one flag, set on entry of a block and reset on every way out. */
  class Context {
    var inSerializableBlock: bool
    var db: seq<int>
    var events: seq<Event>

    constructor ()
      ensures !inSerializableBlock && db == [] && events == []
    {
      inSerializableBlock, db, events := false, [], [];
    }

    /**
     The flag is true exactly inside a live block, also after exceptions; so the program does what its
     nesting says. `blocks` and `open` count the live blocks and open transactions around the call.
     */
    method Run(p: Program, blocks: nat, open: nat, rejects: Rejects) returns (raised: bool)
      requires inSerializableBlock <==> blocks > 0
      modifies this
      ensures inSerializableBlock == old(inSerializableBlock)
      ensures raised == Meaning(p, old(db), blocks, open, rejects).raised
      ensures db == Meaning(p, old(db), blocks, open, rejects).db
      ensures events == old(events) + Meaning(p, old(db), blocks, open, rejects).events
      decreases p, 0
    {
      match p {
        case Write(n) =>
          db := db + [n];
          raised := false;
        case Raise => raised := true;
        case Then(a, b) =>
          raised := Run(a, blocks, open, rejects);
          if !raised {
            raised := Run(b, blocks, open, rejects);
          }
        case Catch(a, h) =>
          raised := Run(a, blocks, open, rejects);
          if raised {
            raised := Run(h, blocks, open, rejects);
          }
        case Block(a) => raised := RunBlock(a, blocks, open, rejects);
        case Call(a) => raised := RunCall(a, blocks, open, rejects);
      }
    }

    method RunBlock(body: Program, blocks: nat, open: nat, rejects: Rejects) returns (raised: bool)
      requires inSerializableBlock <==> blocks > 0
      modifies this
      ensures inSerializableBlock == old(inSerializableBlock)
      ensures
        var m := Meaning(Block(body), old(db), blocks, open, rejects);
        raised == m.raised && db == m.db && events == old(events) + m.events
      decreases body, 1
    {
      var token, before := inSerializableBlock, db;
      inSerializableBlock := true;
      var e := Opened(ABlock, Serializable, blocks, open);
      events := events + [e];
      if SetsTwice(e) && rejects(db, e) {
        raised := true;
      } else {
        raised := Run(body, blocks + 1, open + 1, rejects);
      }
      if raised {
        db := before;
      }
      inSerializableBlock := token;
    }

    method RunCall(body: Program, blocks: nat, open: nat, rejects: Rejects) returns (raised: bool)
      requires inSerializableBlock <==> blocks > 0
      modifies this
      ensures inSerializableBlock == old(inSerializableBlock)
      ensures
        var m := Meaning(Call(body), old(db), blocks, open, rejects);
        raised == m.raised && db == m.db && events == old(events) + m.events
      decreases body, 1
    {
      var before := db;
      var e := Opened(ACall, if inSerializableBlock then Savepoint else Serializable, blocks, open);
      events := events + [e];
      if SetsTwice(e) && rejects(db, e) {
        return true;
      }
      raised := Run(body, blocks, open + 1, rejects);
      if raised {
        db := before;
      }
    }
  }

  /** In every program, a decorated call uses a savepoint exactly inside a live block. */
  lemma {:induction false} CallsInBlocksUseSavepoints(
      p: Program, db: seq<int>, blocks: nat, open: nat, rejects: Rejects)
    ensures forall e :: e in Meaning(p, db, blocks, open, rejects).events && e.construct.ACall? ==>
      (e.kind.Savepoint? <==> e.blocks > 0)
  {
    match p {
      case Write(_) =>
      case Raise =>
      case Then(a, b) =>
        CallsInBlocksUseSavepoints(a, db, blocks, open, rejects);
        CallsInBlocksUseSavepoints(b, Meaning(a, db, blocks, open, rejects).db, blocks, open, rejects);
      case Catch(a, h) =>
        CallsInBlocksUseSavepoints(a, db, blocks, open, rejects);
        CallsInBlocksUseSavepoints(h, Meaning(a, db, blocks, open, rejects).db, blocks, open, rejects);
      case Block(a) => CallsInBlocksUseSavepoints(a, db, blocks + 1, open + 1, rejects);
      case Call(a) => CallsInBlocksUseSavepoints(a, db, blocks, open + 1, rejects);
    }
  }

  /** A block or a decorated call that raises leaves the database as it found it; one that does not keeps all. */
  lemma {:induction false} AllOrNothing(p: Program, db: seq<int>, blocks: nat, open: nat, rejects: Rejects)
    requires p.Block? || p.Call?
    ensures var t := Meaning(p, db, blocks, open, rejects);
      && (t.raised ==> t.db == db)
      && (!t.raised ==>
            var inside := Meaning(p.body, db, if p.Block? then blocks + 1 else blocks, open + 1, rejects);
            !inside.raised && t.db == inside.db)
  {
  }

  /** Nothing that was there before the program is ever lost. */
  lemma {:induction false} OnlyAppends(p: Program, db: seq<int>, blocks: nat, open: nat, rejects: Rejects)
    ensures db <= Meaning(p, db, blocks, open, rejects).db
  {
    match p {
      case Write(_) =>
      case Raise =>
      case Then(a, b) =>
        OnlyAppends(a, db, blocks, open, rejects);
        OnlyAppends(b, Meaning(a, db, blocks, open, rejects).db, blocks, open, rejects);
      case Catch(a, h) =>
        OnlyAppends(a, db, blocks, open, rejects);
        OnlyAppends(h, Meaning(a, db, blocks, open, rejects).db, blocks, open, rejects);
      case Block(a) => OnlyAppends(a, db, blocks + 1, open + 1, rejects);
      case Call(a) => OnlyAppends(a, db, blocks, open + 1, rejects);
    }
  }

  /** All writes of a program, in the order of its text. */
  function Writes(p: Program): seq<int> {
    match p
    case Write(n) => [n]
    case Raise => []
    case Then(a, b) => Writes(a) + Writes(b)
    case Catch(a, _) => Writes(a)
    case Block(a) => Writes(a)
    case Call(a) => Writes(a)
  }

  predicate HasRaise(p: Program) {
    match p
    case Write(_) => false
    case Raise => true
    case Then(a, b) => HasRaise(a) || HasRaise(b)
    case Catch(a, _) => HasRaise(a)
    case Block(a) => HasRaise(a)
    case Call(a) => HasRaise(a)
  }

  /** A program in which nothing raises makes all its writes, in order, in whatever blocks and calls they are. */
  lemma {:induction false} WritesAll(p: Program, db: seq<int>, blocks: nat, open: nat)
    requires !HasRaise(p)
    ensures var t := Meaning(p, db, blocks, open, (_, _) => false); !t.raised && t.db == db + Writes(p)
  {
    match p {
      case Write(_) =>
      case Then(a, b) =>
        WritesAll(a, db, blocks, open);
        WritesAll(b, db + Writes(a), blocks, open);
        assert db + Writes(a) + Writes(b) == db + (Writes(a) + Writes(b));
      case Catch(a, _) => WritesAll(a, db, blocks, open);
      case Block(a) => WritesAll(a, db, blocks + 1, open + 1);
      case Call(a) => WritesAll(a, db, blocks, open + 1);
    }
  }

  /** A handled exception: what the body wrote outside blocks and calls stays, and the handler goes on from there. */
  lemma {:induction false} HandlerGoesOn(
      a: Program, h: Program, db: seq<int>, blocks: nat, open: nat, rejects: Rejects)
    requires Meaning(a, db, blocks, open, rejects).raised
    ensures
      var x := Meaning(a, db, blocks, open, rejects);
      var y := Meaning(h, x.db, blocks, open, rejects);
      var t := Meaning(Catch(a, h), db, blocks, open, rejects);
      t.raised == y.raised && t.db == y.db && t.events == x.events + y.events
  {
  }

  /** The program raises, as far as its own `Raise` statements go. */
  predicate Raises(p: Program) {
    match p
    case Write(_) => false
    case Raise => true
    case Then(a, b) => Raises(a) || Raises(b)
    case Catch(a, h) => Raises(a) && Raises(h)
    case Block(a) => Raises(a)
    case Call(a) => Raises(a)
  }

  /**
   In the parts of the program that are reached: no block inside any transaction, and no decorated call
   inside another one outside a block.
   */
  predicate WellNested(p: Program, blocks: nat, open: nat) {
    match p
    case Write(_) => true
    case Raise => true
    case Then(a, b) => WellNested(a, blocks, open) && (!Raises(a) ==> WellNested(b, blocks, open))
    case Catch(a, h) => WellNested(a, blocks, open) && (Raises(a) ==> WellNested(h, blocks, open))
    case Block(a) => open == 0 && WellNested(a, blocks + 1, open + 1)
    case Call(a) => (blocks > 0 || open == 0) && WellNested(a, blocks, open + 1)
  }

  /** While nothing is set twice, the database adds no exceptions of its own. */
  lemma {:induction false} RaisesAsWritten(p: Program, db: seq<int>, blocks: nat, open: nat, rejects: Rejects)
    requires WellNested(p, blocks, open)
    ensures Meaning(p, db, blocks, open, rejects).raised <==> Raises(p)
  {
    match p {
      case Write(_) =>
      case Raise =>
      case Then(a, b) =>
        RaisesAsWritten(a, db, blocks, open, rejects);
        if !Raises(a) {
          RaisesAsWritten(b, Meaning(a, db, blocks, open, rejects).db, blocks, open, rejects);
        }
      case Catch(a, h) =>
        RaisesAsWritten(a, db, blocks, open, rejects);
        if Raises(a) {
          RaisesAsWritten(h, Meaning(a, db, blocks, open, rejects).db, blocks, open, rejects);
        }
      case Block(a) => RaisesAsWritten(a, db, blocks + 1, open + 1, rejects);
      case Call(a) => RaisesAsWritten(a, db, blocks, open + 1, rejects);
    }
  }

  ghost predicate NoSecondSet(events: seq<Event>) {
    forall e :: e in events ==> !SetsTwice(e)
  }

  lemma {:induction false} NoSecondSetParts(a: seq<Event>, b: seq<Event>)
    ensures NoSecondSet(a + b) <==> NoSecondSet(a) && NoSecondSet(b)
  {
    if NoSecondSet(a + b) {
      assert forall e :: e in a ==> e in a + b;
      assert forall e :: e in b ==> e in a + b;
    }
  }

  lemma {:induction false} EnclosedSecondSet(e: Event, inside: Trace, db: seq<int>, rejects: Rejects)
    ensures NoSecondSet(Enclosed(e, inside, db, rejects).events) <==> !SetsTwice(e) && NoSecondSet(inside.events)
  {
    assert e in [e];
    NoSecondSetParts([e], inside.events);
  }

  lemma {:induction false} SecondSetInBoth(
      p: Program, a: Program, b: Program, db: seq<int>, blocks: nat, open: nat, rejects: Rejects)
    requires p == Then(a, b) || p == Catch(a, b)
    ensures
      var x := Meaning(a, db, blocks, open, rejects);
      var y := Meaning(b, x.db, blocks, open, rejects);
      && (NoSecondSet(x.events) <==> WellNested(a, blocks, open))
      && (NoSecondSet(y.events) <==> WellNested(b, blocks, open))
      && (NoSecondSet(x.events + y.events) <==> NoSecondSet(x.events) && NoSecondSet(y.events))
      && (WellNested(a, blocks, open) ==> (x.raised <==> Raises(a)))
    decreases p, 0
  {
    var x := Meaning(a, db, blocks, open, rejects);
    var y := Meaning(b, x.db, blocks, open, rejects);
    SecondSetIff(a, db, blocks, open, rejects);
    SecondSetIff(b, x.db, blocks, open, rejects);
    NoSecondSetParts(x.events, y.events);
    if WellNested(a, blocks, open) {
      RaisesAsWritten(a, db, blocks, open, rejects);
    }
  }

  /**
   For every program, with exceptions anywhere and whatever the database rejects: the isolation level is
   never set inside an open transaction exactly when the program is well nested where it is reached.
   */
  lemma {:induction false} SecondSetIff(p: Program, db: seq<int>, blocks: nat, open: nat, rejects: Rejects)
    ensures NoSecondSet(Meaning(p, db, blocks, open, rejects).events) <==> WellNested(p, blocks, open)
    decreases p, 1
  {
    match p {
      case Write(_) =>
      case Raise =>
      case Then(a, b) => SecondSetInBoth(p, a, b, db, blocks, open, rejects);
      case Catch(a, h) => SecondSetInBoth(p, a, h, db, blocks, open, rejects);
      case Block(a) =>
        SecondSetIff(a, db, blocks + 1, open + 1, rejects);
        var inside := Meaning(a, db, blocks + 1, open + 1, rejects);
        EnclosedSecondSet(Opened(ABlock, Serializable, blocks, open), inside, db, rejects);
      case Call(a) =>
        SecondSetIff(a, db, blocks, open + 1, rejects);
        var kind := if blocks > 0 then Savepoint else Serializable;
        EnclosedSecondSet(Opened(ACall, kind, blocks, open), Meaning(a, db, blocks, open + 1, rejects), db, rejects);
    }
  }

  /** A decorated call inside another one, outside any block: the level is set a second time. */
  lemma {:induction false} NestedCallsSetTwice(n: int, rejects: Rejects)
    ensures
      var events := Meaning(Call(Call(Write(n))), [], 0, 0, rejects).events;
      |events| == 2 && SetsTwice(events[1]) && !NoSecondSet(events)
  {
    var outer, inner := Opened(ACall, Serializable, 0, 0), Opened(ACall, Serializable, 0, 1);
    assert [inner] + Meaning(Write(n), [], 0, 2, rejects).events == [inner];
    assert Meaning(Call(Write(n)), [], 0, 1, rejects).events == [inner];
    assert ([outer] + [inner])[1] == inner;
  }

  /** What a database error was caused by: its class, and its PostgreSQL error code if it has one. */
  datatype Cause = Cause(conflictClass: bool, code: Option<string>)

  /** How one attempt of a retried callable ends. */
  datatype Ending = Returns(v: int) | OperationalError(cause: Option<Cause>) | OtherError

  /** A serialization failure or a deadlock. */
  predicate IsConflict(e: Ending) {
    && e.OperationalError?
    && e.cause.Some?
    && (e.cause.value.conflictClass || e.cause.value.code in {Some("40001"), Some("40P01")})
  }

  /** A conflict is known by its class or by one of two error codes, and an error without a cause is none. */
  lemma {:induction false} Conflicts(code: string)
    ensures IsConflict(OperationalError(Some(Cause(true, None))))
    ensures IsConflict(OperationalError(Some(Cause(false, Some(code))))) <==> code == "40001" || code == "40P01"
    ensures !IsConflict(OperationalError(None)) && !IsConflict(OtherError)
    ensures !IsConflict(OperationalError(Some(Cause(false, None))))
  {
  }

  /** An attempt: what it writes, and how it ends. */
  datatype Attempt = Attempt(writes: seq<int>, ending: Ending)

  datatype Retried = Returned(v: int) | Failed(ending: Ending) | TooFewAttempts

  /**
   Retries in savepoints. The effects afterwards are those of the one attempt that returned, or none;
   only conflicts are retried, and never beyond the given number of attempts.
   */
  method RunNestedRetries(retries: int, attempt: nat -> Attempt, db: seq<int>)
    returns (result: Retried, db': seq<int>, calls: nat)
    ensures result.TooFewAttempts? <==> retries < 1
    ensures result.TooFewAttempts? ==> calls == 0 && db' == db
    ensures retries >= 1 ==> 0 < calls <= retries
    ensures retries >= 1 ==> forall k: nat :: k < calls - 1 ==> IsConflict(attempt(k).ending)
    ensures retries >= 1 ==>
      var last := attempt(calls - 1);
      if last.ending.Returns? then result == Returned(last.ending.v) && db' == db + last.writes
      else result == Failed(last.ending) && db' == db && (IsConflict(last.ending) ==> calls == retries)
  {
    if retries < 1 {
      return TooFewAttempts, db, 0;
    }
    db', calls, result := db, 0, TooFewAttempts;
    while calls < retries
      invariant 0 <= calls <= retries && db' == db
      invariant forall k: nat :: k < calls ==> IsConflict(attempt(k).ending)
      invariant calls > 0 ==> result == Failed(attempt(calls - 1).ending)
    {
      var a := attempt(calls);
      var savepoint := db';
      db' := db' + a.writes;
      calls := calls + 1;
      if a.ending.Returns? {
        return Returned(a.ending.v), db', calls;
      }
      db' := savepoint;
      result := Failed(a.ending);
      if !IsConflict(a.ending) {
        return;
      }
    }
  }
}
