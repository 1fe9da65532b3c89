/** Soft deletion: deleting a record only marks it (`is_deleted`, with the
    time in `deleted_at`) and saves it; restoring clears both marks. The
    `active_objects` manager sees only unmarked rows and
    `all_including_deleted_objects` sees every row. */
module SoftDelete {
  import opened Http

  /** A stored row of the example concrete model. */
  datatype Row = Row(isDeleted: bool, deletedAt: Option<int>, name: string, description: string)

  /** A row as soft deletion leaves it and as restoring leaves it. */
  function SoftDeleted(row: Row, now: int): (r: Row)
    ensures r.isDeleted && r.deletedAt == Some(now)
    ensures r.name == row.name && r.description == row.description
  {
    row.(isDeleted := true, deletedAt := Some(now))
  }

  function Restored(row: Row): (r: Row)
    ensures !r.isDeleted && r.deletedAt == None
    ensures r.name == row.name && r.description == row.description
  {
    row.(isDeleted := false, deletedAt := None)
  }

  /** The marks agree: a row is deleted exactly when it has a deletion time. */
  predicate Consistent(row: Row)
  {
    row.isDeleted <==> row.deletedAt.Some?
  }

  /** A query over the table: every row, or a query narrowed by
      `filter(is_deleted=b)`. */
  datatype QuerySet = AllRows | Where(isDeleted: bool, base: QuerySet)

  /** The rows a query yields. */
  function Eval(rows: map<int, Row>, qs: QuerySet): (r: map<int, Row>)
    ensures forall id :: id in r ==> id in rows && r[id] == rows[id]
    ensures qs.Where? ==> forall id :: id in r <==> id in Eval(rows, qs.base) && rows[id].isDeleted == qs.isDeleted
    ensures qs.AllRows? ==> r == rows
  {
    match qs
    case AllRows => rows
    case Where(b, base) =>
      var inner := Eval(rows, base);
      map id | id in inner && inner[id].isDeleted == b :: inner[id]
  }

  /** `SoftDeleteManager.get_queryset`, the query behind `active_objects`. */
  function ActiveObjects(): (q: QuerySet)
    ensures forall rows: map<int, Row>, id :: id in Eval(rows, q) <==> id in rows && !rows[id].isDeleted
  {
    Where(false, AllRows)
  }

  /** The plain manager behind `all_including_deleted_objects`. */
  function AllIncludingDeleted(): (q: QuerySet)
    ensures forall rows: map<int, Row> :: Eval(rows, q) == rows
  {
    AllRows
  }

  /** `SoftDeleteQuerySet.deleted`. */
  function Deleted(qs: QuerySet): (q: QuerySet)
    ensures forall rows: map<int, Row>, id :: id in Eval(rows, q) <==> id in Eval(rows, qs) && id in rows && rows[id].isDeleted
  {
    Where(true, qs)
  }

  /** The table after `update(is_deleted=False, deleted_at=None)` on the rows
      `ids`. */
  function RestoredRows(rows: map<int, Row>, ids: set<int>): (r: map<int, Row>)
    ensures r.Keys == rows.Keys
    ensures forall id :: id in rows && id in ids ==> r[id] == Restored(rows[id])
    ensures forall id :: id in rows && id !in ids ==> r[id] == rows[id]
  {
    map id | id in rows :: if id in ids then Restored(rows[id]) else rows[id]
  }

  class Table {
    var rows: map<int, Row>
    var nextId: int

    /** Every stored id was handed out before `nextId`. */
    ghost predicate Valid()
      reads this
    {
      forall id :: id in rows ==> id < nextId
    }

    constructor ()
      ensures rows == map[] && Valid()
    {
      rows := map[];
      nextId := 1;
    }

    /** An INSERT under a fresh primary key. */
    method Insert(row: Row) returns (id: int)
      requires Valid()
      modifies this
      ensures Valid() && id < nextId
      ensures id !in old(rows) && rows == old(rows)[id := row]
    {
      id := nextId;
      rows := rows[id := row];
      nextId := nextId + 1;
    }

    /** An UPDATE (or INSERT under a given key) of one row. */
    method Put(id: int, row: Row)
      requires Valid() && id < nextId
      modifies this
      ensures Valid() && nextId == old(nextId)
      ensures rows == old(rows)[id := row]
    {
      rows := rows[id := row];
    }

    /** `SoftDeleteQuerySet.restore_all`: one bulk update of the rows `qs`
        yields, returning how many rows it matched. */
    method RestoreAll(qs: QuerySet) returns (count: nat)
      modifies this
      ensures count == |Eval(old(rows), qs)|
      ensures rows == RestoredRows(old(rows), Eval(old(rows), qs).Keys)
      ensures nextId == old(nextId)
    {
      var matched := Eval(rows, qs);
      count := |matched|;
      rows := RestoredRows(rows, matched.Keys);
    }
  }

  /** A model instance: its fields, its primary key once saved, and the
      table it is saved to. */
  class MyModel {
    var pk: Option<int>
    var isDeleted: bool
    var deletedAt: Option<int>
    var name: string
    var description: string
    const table: Table

    function Fields(): Row
      reads this
    {
      Row(isDeleted, deletedAt, name, description)
    }

    /** A new instance has the field defaults `is_deleted=False`,
        `deleted_at=None` and no primary key. */
    constructor (table: Table, name: string, description: string)
      ensures this.table == table && pk == None
      ensures Fields() == Row(false, None, name, description)
    {
      this.table := table;
      pk := None;
      isDeleted := false;
      deletedAt := None;
      this.name := name;
      this.description := description;
    }

    /** The framework's `save`: an INSERT that assigns the key for a new
        instance, an UPDATE of its own row otherwise. */
    method Save()
      requires table.Valid() && (pk.Some? ==> pk.value < table.nextId)
      modifies this, table
      ensures table.Valid() && pk.Some? && pk.value < table.nextId
      ensures old(pk).Some? ==> pk == old(pk)
      ensures old(pk).None? ==> pk.value !in old(table.rows)
      ensures Fields() == old(Fields())
      ensures table.rows == old(table.rows)[pk.value := Fields()]
    {
      if pk.None? {
        var id := table.Insert(Fields());
        pk := Some(id);
      } else {
        table.Put(pk.value, Fields());
      }
    }

    /** The soft `delete`: `using` and `keep_parents` are accepted and
        ignored; the row stays in the table, marked. */
    method Delete(now: int, using: Option<string>, keepParents: bool)
      requires table.Valid() && (pk.Some? ==> pk.value < table.nextId)
      modifies this, table
      ensures table.Valid() && pk.Some? && pk.value < table.nextId
      ensures old(pk).Some? ==> pk == old(pk)
      ensures Fields() == SoftDeleted(old(Fields()), now)
      ensures table.rows == old(table.rows)[pk.value := Fields()]
      ensures table.rows.Keys == old(table.rows).Keys + {pk.value}
    {
      isDeleted := true;
      deletedAt := Some(now);
      Save();
    }

    method Restore()
      requires table.Valid() && (pk.Some? ==> pk.value < table.nextId)
      modifies this, table
      ensures table.Valid() && pk.Some? && pk.value < table.nextId
      ensures old(pk).Some? ==> pk == old(pk)
      ensures Fields() == Restored(old(Fields()))
      ensures table.rows == old(table.rows)[pk.value := Fields()]
    {
      isDeleted := false;
      deletedAt := None;
      Save();
    }
  }

  /** `active_objects` yields exactly the unmarked rows and
      `all_including_deleted_objects` every row. */
  lemma ManagersSplitTheTable(rows: map<int, Row>)
    ensures forall id :: id in Eval(rows, ActiveObjects()) <==> id in rows && !rows[id].isDeleted
    ensures Eval(rows, AllIncludingDeleted()) == rows
    ensures forall id :: id in Eval(rows, Deleted(AllIncludingDeleted())) <==> id in rows && rows[id].isDeleted
  {
  }

  /** The only soft-delete query set the models expose is the one behind
      `active_objects`, already narrowed to unmarked rows, so its `deleted()`
      is always empty. */
  lemma DeletedOfActiveIsEmpty(rows: map<int, Row>)
    ensures Eval(rows, Deleted(ActiveObjects())) == map[]
  {
    var r := Eval(rows, Deleted(ActiveObjects()));
    assert r.Keys == {};
  }

  /** For the same reason `restore_all()` through `active_objects` brings no
      marked row back, and on a table whose marks agree it changes nothing. */
  lemma RestoreAllOfActiveRestoresNothing(rows: map<int, Row>)
    ensures forall id :: id in rows && rows[id].isDeleted ==>
      RestoredRows(rows, Eval(rows, ActiveObjects()).Keys)[id] == rows[id]
    ensures (forall id :: id in rows ==> Consistent(rows[id])) ==>
      RestoredRows(rows, Eval(rows, ActiveObjects()).Keys) == rows
  {
    var active := Eval(rows, ActiveObjects()).Keys;
    assert forall id :: id in active <==> id in rows && !rows[id].isDeleted;
    var r := RestoredRows(rows, active);
    if forall id :: id in rows ==> Consistent(rows[id]) {
      forall id | id in rows ensures r[id] == rows[id] {
        assert Consistent(rows[id]);
      }
    }
  }

  /** On the query over every row, `restore_all` leaves no row marked and
      counts every row. */
  lemma RestoreAllOfEveryRow(rows: map<int, Row>)
    ensures forall id :: id in rows ==> !RestoredRows(rows, Eval(rows, AllRows).Keys)[id].isDeleted
    ensures |Eval(rows, AllRows)| == |rows|
  {
  }

  /** Delete then restore: both marks back at their defaults and nothing
      else changed, so a record never deleted before comes back exactly as
      it was; both operations keep the marks in agreement. */
  lemma DeleteThenRestore(row: Row, now: int)
    ensures Restored(SoftDeleted(row, now)) == row.(isDeleted := false, deletedAt := None)
    ensures !row.isDeleted && row.deletedAt.None? ==> Restored(SoftDeleted(row, now)) == row
    ensures Consistent(SoftDeleted(row, now)) && Consistent(Restored(row))
  {
  }
}
