/** Correcting the attribute filters of resource definitions in four passes over the table. */
module Normaliser {
  import opened Prelude
  import opened Text

  datatype Json =
    | JNull
    | JBool(b: bool)
    | JInt(n: int)
    | JFloat(r: real)
    | JString(s: string)
    | JList(items: seq<Json>)
    | JObject(fields: map<string, Json>)

  /** An attribute filter whose operation and value are present. */
  datatype Filter = Filter(key: Option<string>, operation: string, value: Json)

  datatype Phase = ListPhase | StringPhase | GroupPhase | OperationPhase

  const GROUP_KEY := "group.id"

  predicate Selects(phase: Phase, f: Filter) {
    match phase
    case ListPhase => f.operation == "equal" && f.value.JList?
    case StringPhase => f.operation == "in" && f.value.JString?
    case GroupPhase => (f.operation != "in" || !f.value.JList?) && f.key == Some(GROUP_KEY)
    case OperationPhase => f.operation != "in" && f.operation != "equal"
  }

  function StripAll(parts: seq<string>): seq<Json> {
    seq(|parts|, i requires 0 <= i < |parts| => JString(Strip(parts[i])))
  }

  function NormalizeAttribute(f: Filter): Filter {
    if f.operation == "equal" && f.value.JList? then f.(operation := "in")
    else if f.operation == "in" && f.value.JString? then
      if Contains(f.value.s, ',') then f.(value := JList(StripAll(Split(f.value.s, ',')))) else f.(operation := "equal")
    else f
  }

  function NormalizeGroup(f: Filter): Filter {
    var value :=
      if f.value.JList? then f.value
      else if f.value.JObject? then
        JList([if "id" in f.value.fields then f.value.fields["id"] else JNull])
      else JList([f.value]);
    f.(operation := "in", value := value)
  }

  /** The values for which an unknown operation can be corrected; a boolean counts as an integer. */
  predicate Correctable(v: Json) {
    v.JString? || v.JInt? || v.JBool? || v.JList?
  }

  function NormalizeOperation(f: Filter): Filter {
    if f.operation != "equal" && (f.value.JString? || f.value.JInt? || f.value.JBool?) then f.(operation := "equal")
    else if f.operation != "in" && f.value.JList? then f.(operation := "in")
    else f
  }

  function Normalize(phase: Phase, f: Filter): Filter {
    match phase
    case ListPhase => NormalizeAttribute(f)
    case StringPhase => NormalizeAttribute(f)
    case GroupPhase => NormalizeGroup(f)
    case OperationPhase => NormalizeOperation(f)
  }

  /** What a phase makes of one filter. */
  function Through(phase: Phase, f: Filter): Filter {
    if Selects(phase, f) then Normalize(phase, f) else f
  }

  /** What the full pass makes of one filter. */
  function Corrected(f: Filter): Filter {
    Through(OperationPhase, Through(GroupPhase, Through(StringPhase, Through(ListPhase, f))))
  }

  type Table = map<nat, Filter>

  function Selected(phase: Phase, rows: Table): set<nat> {
    set id | id in rows && Selects(phase, rows[id])
  }

  function PhaseResult(phase: Phase, rows: Table): Table {
    map id | id in rows :: Through(phase, rows[id])
  }

  function CorrectedTable(rows: Table): Table {
    map id | id in rows :: Corrected(rows[id])
  }

  /** The table in the middle of a phase: the rows in `todo` are still as they were. */
  function Partly(phase: Phase, rows: Table, todo: set<nat>): Table {
    map id | id in rows :: if id in todo then rows[id] else Through(phase, rows[id])
  }

  lemma {:induction false} OneMoreRow(phase: Phase, rows: Table, todo: set<nat>, id: nat)
    requires todo <= Selected(phase, rows) && id in todo
    ensures Partly(phase, rows, todo)[id] == rows[id]
    ensures Partly(phase, rows, todo)[id := Normalize(phase, rows[id])] == Partly(phase, rows, todo - {id})
  {
  }

  lemma {:induction false} PhaseEnds(phase: Phase, rows: Table)
    ensures Partly(phase, rows, Selected(phase, rows)) == rows
    ensures Partly(phase, rows, {}) == PhaseResult(phase, rows)
  {
  }

  class ResourceDefinitions {
    var rows: Table

    /** One query and the update of each row it returned. */
    method RunPhase(phase: Phase) returns (count: nat)
      modifies this
      ensures rows == PhaseResult(phase, old(rows))
      ensures count == |Selected(phase, old(rows))|
    {
      var todo := Selected(phase, rows);
      count := 0;
      PhaseEnds(phase, rows);
      while todo != {}
        invariant todo <= Selected(phase, old(rows))
        invariant rows == Partly(phase, old(rows), todo)
        invariant count + |todo| == |Selected(phase, old(rows))|
      {
        var id :| id in todo;
        OneMoreRow(phase, old(rows), todo, id);
        rows := rows[id := Normalize(phase, rows[id])];
        todo := todo - {id};
        count := count + 1;
      }
    }

    /** The full pass corrects every row on its own. */
    method Patch() returns (count: nat)
      modifies this
      ensures rows == CorrectedTable(old(rows))
      ensures
        var a := PhaseResult(ListPhase, old(rows));
        var b := PhaseResult(StringPhase, a);
        var c := PhaseResult(GroupPhase, b);
        count == |Selected(ListPhase, old(rows))| + |Selected(StringPhase, a)| + |Selected(GroupPhase, b)|
               + |Selected(OperationPhase, c)|
    {
      count := RunPhase(ListPhase);
      var n := RunPhase(StringPhase);
      count := count + n;
      n := RunPhase(GroupPhase);
      count := count + n;
      n := RunPhase(OperationPhase);
      count := count + n;
    }
  }

  /** After the full pass no filter is selected by the list, string or group query, whatever it was before. */
  lemma {:induction false} NothingLeft(f: Filter)
    ensures !Selects(ListPhase, Corrected(f))
    ensures !Selects(StringPhase, Corrected(f))
    ensures !Selects(GroupPhase, Corrected(f))
  {
  }

  /** The operation query still selects exactly the filters with an unknown operation on a value nobody can correct. */
  lemma {:induction false} UncorrectableIff(f: Filter)
    ensures Selects(OperationPhase, Corrected(f)) <==>
      Selects(OperationPhase, f) && !Correctable(f.value) && f.key != Some(GROUP_KEY)
  {
  }

  /** A second pass changes nothing. */
  lemma {:induction false} SecondPassIsIdle(f: Filter)
    ensures Corrected(Corrected(f)) == Corrected(f)
  {
  }

  /** The pass keeps the key, and outside the group filters it changes no value but a comma-separated string. */
  lemma {:induction false} MeaningKept(f: Filter)
    ensures Corrected(f).key == f.key
    ensures f.key != Some(GROUP_KEY) && !(f.operation == "in" && f.value.JString? && Contains(f.value.s, ',')) ==>
      Corrected(f).value == f.value
    ensures f.key != Some(GROUP_KEY) && f.operation == "in" && f.value.JString? && Contains(f.value.s, ',') ==>
      Corrected(f) == Filter(f.key, "in", JList(StripAll(Split(f.value.s, ','))))
  {
  }

  /** What the four queries select. */
  lemma {:induction false} QueriesAre(f: Filter)
    ensures Selects(ListPhase, f) <==> f.operation == "equal" && f.value.JList?
    ensures Selects(StringPhase, f) <==> f.operation == "in" && f.value.JString?
    ensures Selects(GroupPhase, f) <==> f.key == Some("group.id") && !(f.operation == "in" && f.value.JList?)
    ensures Selects(OperationPhase, f) <==> f.operation !in {"in", "equal"}
  {
  }

  /** The list of the trimmed parts of a comma-separated string. */
  ghost predicate IsListOfParts(v: Json, s: string) {
    && v.JList?
    && |v.items| == |Split(s, ',')|
    && forall i :: 0 <= i < |v.items| ==> v.items[i] == JString(Strip(Split(s, ',')[i]))
  }

  /** The filters on the key `group.id`: always a list under "in", and nothing of the value is lost. */
  lemma {:induction false} GroupFilters(f: Filter)
    requires f.key == Some("group.id")
    ensures Corrected(f).key == f.key && Corrected(f).operation == "in" && Corrected(f).value.JList?
    ensures f.value.JList? ==> Corrected(f).value == f.value
    ensures f.value.JObject? && "id" in f.value.fields ==> Corrected(f).value == JList([f.value.fields["id"]])
    ensures f.value.JObject? && "id" !in f.value.fields ==> Corrected(f).value == JList([JNull])
    ensures f.operation == "in" && f.value.JString? && Contains(f.value.s, ',') ==>
      IsListOfParts(Corrected(f).value, f.value.s)
    ensures
      var splits := f.operation == "in" && f.value.JString? && Contains(f.value.s, ',');
      !f.value.JList? && !f.value.JObject? && !splits ==> Corrected(f).value == JList([f.value])
  {
  }

  /** The other filters: which operation they end up with, by their operation and their value. */
  lemma {:induction false} OtherFilters(f: Filter)
    requires f.key != Some("group.id")
    ensures f.value.JList? ==> Corrected(f) == f.(operation := "in")
    ensures f.value.JString? && f.operation != "in" ==> Corrected(f) == f.(operation := "equal")
    ensures f.value.JString? && f.operation == "in" && !Contains(f.value.s, ',') ==>
      Corrected(f) == f.(operation := "equal")
    ensures f.value.JString? && f.operation == "in" && Contains(f.value.s, ',') ==>
      Corrected(f).operation == "in" && Corrected(f).key == f.key && IsListOfParts(Corrected(f).value, f.value.s)
    ensures (f.value.JInt? || f.value.JBool?) && f.operation != "in" ==> Corrected(f) == f.(operation := "equal")
    ensures (f.value.JInt? || f.value.JBool?) && f.operation == "in" ==> Corrected(f) == f
    ensures f.value.JNull? || f.value.JFloat? || f.value.JObject? ==> Corrected(f) == f
  {
  }

  /**
   The full pass over a table: the list, string and group queries then return nothing, the operation
   query returns exactly the rows that nobody can correct, and another full pass changes nothing.
   */
  lemma {:induction false} FullPass(rows: Table)
    ensures forall phase :: phase in {ListPhase, StringPhase, GroupPhase} ==>
      Selected(phase, CorrectedTable(rows)) == {}
    ensures Selected(OperationPhase, CorrectedTable(rows)) ==
      set id | id in rows && Selects(OperationPhase, rows[id]) && !Correctable(rows[id].value)
               && rows[id].key != Some(GROUP_KEY)
    ensures CorrectedTable(CorrectedTable(rows)) == CorrectedTable(rows)
  {
    forall id | id in rows
      ensures Corrected(Corrected(rows[id])) == Corrected(rows[id])
      ensures forall phase :: phase in {ListPhase, StringPhase, GroupPhase} ==> !Selects(phase, Corrected(rows[id]))
      ensures Selects(OperationPhase, Corrected(rows[id])) <==>
        Selects(OperationPhase, rows[id]) && !Correctable(rows[id].value) && rows[id].key != Some(GROUP_KEY)
    {
      NothingLeft(rows[id]);
      UncorrectableIff(rows[id]);
      SecondPassIsIdle(rows[id]);
    }
  }
}
