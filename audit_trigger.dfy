/**
  The PL/pgSQL trigger `log_credit_application_changes`, which writes one
  `credit_application_events` row for every INSERT, UPDATE and DELETE on
  `credit_applications`. Rows are seen as their `to_jsonb` rendering.
*/
module AuditTrigger {
  import opened Wrappers
  import opened JsonValues

  /** `to_jsonb(record)`: column name to value. */
  type Row = map<string, Json>

  /**
    `record->>key`: the text of a field. A missing key and a JSON null both give
    SQL NULL. Within one column the JSON type never varies, so comparing the
    values stands for comparing their texts.
  */
  function TextAt(row: Row, key: string): Option<Json>
  {
    if key in row && row[key] != JNull then Some(row[key]) else None
  }

  /** `record->key`: JSON null for a missing key. */
  function ValueAt(row: Row, key: string): Json
  {
    if key in row then row[key] else JNull
  }

  /** `old->>key IS DISTINCT FROM new->>key`. */
  predicate IsDistinct(oldRow: Row, newRow: Row, key: string)
  {
    TextAt(oldRow, key) != TextAt(newRow, key)
  }

  datatype FieldChange = FieldChange(oldValue: Json, newValue: Json)

  /** The `changed_fields` object of an UPDATE: every key of NEW whose text changed. */
  function Diff(oldRow: Row, newRow: Row): (d: map<string, FieldChange>)
    ensures forall k :: k in d ==> k in newRow && d[k].newValue == newRow[k]
    ensures forall k :: k in d ==> d[k].oldValue != d[k].newValue
  {
    map k | k in newRow.Keys && IsDistinct(oldRow, newRow, k) :: FieldChange(ValueAt(oldRow, k), ValueAt(newRow, k))
  }

  /** The `FOR key IN SELECT jsonb_object_keys(new_record)` loop. */
  method CollectChangedFields(oldRow: Row, newRow: Row) returns (changed: map<string, FieldChange>)
    ensures changed == Diff(oldRow, newRow)
  {
    changed := map[];
    var keys := newRow.Keys;
    ghost var seen: set<string> := {};
    while keys != {}
      invariant keys + seen == newRow.Keys && keys !! seen
      invariant changed.Keys == set k | k in seen && IsDistinct(oldRow, newRow, k)
      invariant forall k :: k in changed ==> changed[k] == FieldChange(ValueAt(oldRow, k), ValueAt(newRow, k))
      decreases keys
    {
      var key :| key in keys;
      if TextAt(oldRow, key) != TextAt(newRow, key) {
        changed := changed[key := FieldChange(ValueAt(oldRow, key), ValueAt(newRow, key))];
      }
      keys := keys - {key};
      seen := seen + {key};
    }
  }

  /** The old row with the recorded new values written over it. */
  function Apply(oldRow: Row, d: map<string, FieldChange>): Row
  {
    map k | k in oldRow.Keys + d.Keys :: if k in d then d[k].newValue else oldRow[k]
  }

  /** Over a fixed set of columns the changed fields carry exactly what is needed to rebuild NEW from OLD. */
  lemma DiffReplay(oldRow: Row, newRow: Row)
    requires oldRow.Keys == newRow.Keys
    ensures Apply(oldRow, Diff(oldRow, newRow)) == newRow
  {
    var d := Diff(oldRow, newRow);
    var r := Apply(oldRow, d);
    forall k | k in newRow
      ensures r[k] == newRow[k]
    {
      if k !in d {
        assert !IsDistinct(oldRow, newRow, k);
      }
    }
  }

  /** An UPDATE logs no field exactly when no column's text changed. */
  lemma DiffEmptyIff(oldRow: Row, newRow: Row)
    ensures Diff(oldRow, newRow) == map[] <==> forall k :: k in newRow ==> TextAt(oldRow, k) == TextAt(newRow, k)
  {
    if Diff(oldRow, newRow) == map[] {
      forall k | k in newRow
        ensures TextAt(oldRow, k) == TextAt(newRow, k)
      {
        assert k !in Diff(oldRow, newRow);
      }
    }
  }

  datatype Metadata =
    | NewValues(newValues: Row)
    | ChangedFields(changedFields: map<string, FieldChange>)
    | OldValues(oldValues: Row)

  /** One row of `credit_application_events`; timestamps are not modelled. */
  datatype Event = Event(creditApplicationId: int, eventType: string, metadata: Metadata)

  /** A row of the table together with its `id` column. */
  datatype Tuple = Tuple(id: int, row: Row)

  /** What fired the trigger: `TG_OP` with the NEW and OLD records it supplies. */
  datatype RowChange = Insert(newTuple: Tuple) | Update(oldTuple: Tuple, newTuple: Tuple) | Delete(oldTuple: Tuple)

  /** The event the trigger writes for one row change. */
  function EventFor(c: RowChange): Event
  {
    match c
    case Insert(n) => Event(n.id, "created", NewValues(n.row))
    case Update(o, n) => Event(n.id, "updated", ChangedFields(Diff(o.row, n.row)))
    case Delete(o) => Event(o.id, "deleted", OldValues(o.row))
  }

  /** `log_credit_application_changes()`; `COALESCE(NEW.id, OLD.id)` picks NEW's id unless the row was deleted. */
  method LogChange(c: RowChange) returns (e: Event)
    ensures e == EventFor(c)
    ensures e.creditApplicationId == (if c.Delete? then c.oldTuple.id else c.newTuple.id)
  {
    match c
    case Insert(n) =>
      e := Event(n.id, "created", NewValues(n.row));
    case Update(o, n) =>
      var changed := CollectChangedFields(o.row, n.row);
      e := Event(n.id, "updated", ChangedFields(changed));
    case Delete(o) =>
      e := Event(o.id, "deleted", OldValues(o.row));
  }
}
