/** Version counting on save: a record starts at version 1 and every save of
    an instance whose primary key is truthy raises its version by exactly one
    before the row is written; the framework stamps `created_at` on the first
    write and `updated_at` on every write. */
module Versioned {
  import opened Http

  /** A stored row of the example concrete model. */
  datatype Row = Row(version: int, createdAt: int, updatedAt: int, name: string, description: string)

  const InitialVersion: int := 1

  /** Python truthiness of the primary key: present and not zero. */
  predicate PkTruthy(pk: Option<int>)
  {
    pk.Some? && pk.value != 0
  }

  /** The version the override leaves before handing over to the framework. */
  function BumpedVersion(version: int, pk: Option<int>): (v: int)
    ensures PkTruthy(pk) ==> v == version + 1
    ensures !PkTruthy(pk) ==> v == version
  {
    if PkTruthy(pk) then version + 1 else version
  }

  class Table {
    var rows: map<int, Row>
    var nextId: int

    ghost predicate Valid()
      reads this
    {
      0 < nextId && forall id :: id in rows ==> id < nextId
    }

    constructor ()
      ensures rows == map[] && Valid()
    {
      rows := map[];
      nextId := 1;
    }

    /** An INSERT under a fresh, positive primary key. */
    method Insert(row: Row) returns (id: int)
      requires Valid()
      modifies this
      ensures Valid()
      ensures 0 < id && id !in old(rows) && rows == old(rows)[id := row]
    {
      id := nextId;
      rows := rows[id := row];
      nextId := nextId + 1;
    }

    /** A write of one row under a given key. */
    method Put(id: int, row: Row)
      requires Valid()
      modifies this
      ensures Valid()
      ensures rows == old(rows)[id := row]
    {
      rows := rows[id := row];
      if id >= nextId {
        nextId := id + 1;
      }
    }
  }

  /** The row the framework's save writes for an instance: its version and
      fields, `created_at` as stamped (the write time when never stamped) and
      `updated_at` the write time. */
  function WrittenRow(m: MyModel, now: int): (r: Row)
    reads m
    ensures r.version == m.version && r.updatedAt == now
    ensures r.name == m.name && r.description == m.description
    ensures m.createdAt.Some? ==> r.createdAt == m.createdAt.value
  {
    Row(m.version, if m.createdAt.Some? then m.createdAt.value else now, now, m.name, m.description)
  }

  class MyModel {
    var pk: Option<int>
    /** The framework's `_state.adding`: not yet written to the table. */
    var adding: bool
    var version: int
    var createdAt: Option<int>
    var updatedAt: Option<int>
    var name: string
    var description: string
    const table: Table

    constructor (table: Table, name: string, description: string)
      ensures this.table == table && pk == None && adding
      ensures version == InitialVersion && createdAt == None && updatedAt == None
      ensures this.name == name && this.description == description
    {
      this.table := table;
      pk := None;
      adding := true;
      version := InitialVersion;
      createdAt := None;
      updatedAt := None;
      this.name := name;
      this.description := description;
    }

    /** The framework's `save`: stamps the times, then INSERTs a new instance
        under a fresh key or writes the row of its key. */
    method BaseSave(now: int)
      requires table.Valid()
      modifies this, table
      ensures table.Valid() && pk.Some? && !adding
      ensures old(pk).Some? ==> pk == old(pk)
      ensures old(pk).None? ==> 0 < pk.value && pk.value !in old(table.rows)
      ensures updatedAt == Some(now) && createdAt == (if old(adding) then Some(now) else old(createdAt))
      ensures version == old(version) && name == old(name) && description == old(description)
      ensures table.rows == old(table.rows)[pk.value := WrittenRow(this, now)]
    {
      updatedAt := Some(now);
      if adding {
        createdAt := Some(now);
      }
      var row := WrittenRow(this, now);
      if pk.None? {
        var id := table.Insert(row);
        pk := Some(id);
      } else {
        table.Put(pk.value, row);
      }
      adding := false;
    }

    /** The override: the version goes up by one when the key is truthy, and
        nothing else is touched before the framework's save. */
    method Save(now: int)
      requires table.Valid()
      modifies this, table
      ensures table.Valid() && pk.Some? && !adding
      ensures version == BumpedVersion(old(version), old(pk))
      ensures State(pk, version) == SaveStep(State(old(pk), old(version)), pk.value)
      ensures old(pk).Some? ==> pk == old(pk)
      ensures old(pk).None? ==> PkTruthy(pk) && pk.value !in old(table.rows)
      ensures name == old(name) && description == old(description)
      ensures updatedAt == Some(now) && createdAt == (if old(adding) then Some(now) else old(createdAt))
      ensures table.rows == old(table.rows)[pk.value := WrittenRow(this, now)]
      ensures table.rows[pk.value].version == BumpedVersion(old(version), old(pk))
    {
      if pk.Some? && pk.value != 0 {
        version := version + 1;
      }
      BaseSave(now);
    }
  }

  /** A new record saved at time 5 and again at time 9: the first write
      stores version 1 stamped 5/5, the second version 2 created at 5 and
      updated at 9, under the same key. */
  method SaveTwice(name: string, description: string) returns (first: Row, second: Row)
    ensures first == Row(1, 5, 5, name, description)
    ensures second == Row(2, 5, 9, name, description)
  {
    var table := new Table();
    var m := new MyModel(table, name, description);
    m.Save(5);
    first := table.rows[m.pk.value];
    m.Save(9);
    second := table.rows[m.pk.value];
  }

  /** The key and version of an instance, which is all the override reads and
      writes. */
  datatype State = State(pk: Option<int>, version: int)

  /** One save: a new instance gets the key `freshId` handed out by the
      table, and the version is bumped by the key it had before. */
  function SaveStep(s: State, freshId: int): State
  {
    State(if s.pk.None? then Some(freshId) else s.pk, BumpedVersion(s.version, s.pk))
  }

  /** Saves in a row, the i-th save of a new instance getting `freshIds[i]`. */
  function Saves(s: State, freshIds: seq<int>): State
    decreases |freshIds|
  {
    if freshIds == [] then s else Saves(SaveStep(s, freshIds[0]), freshIds[1..])
  }

  /** k saves of a persisted record add exactly k to its version and keep
      its key. */
  lemma {:induction false} SavesOfPersisted(s: State, freshIds: seq<int>)
    requires PkTruthy(s.pk)
    ensures Saves(s, freshIds) == State(s.pk, s.version + |freshIds|)
    decreases |freshIds|
  {
    if freshIds != [] {
      SavesOfPersisted(SaveStep(s, freshIds[0]), freshIds[1..]);
    }
  }

  /** A new record keeps version 1 on its first save, which assigns a
      positive key, so after k saves its version is k. */
  lemma NewRecordCountsSaves(freshIds: seq<int>)
    requires |freshIds| > 0 && freshIds[0] > 0
    ensures Saves(State(None, InitialVersion), freshIds).version == |freshIds|
  {
    var s1 := SaveStep(State(None, InitialVersion), freshIds[0]);
    assert s1 == State(Some(freshIds[0]), 1);
    SavesOfPersisted(s1, freshIds[1..]);
  }

  /** The version never goes down, whatever the keys. */
  lemma {:induction false} VersionNeverDecreases(s: State, freshIds: seq<int>)
    ensures Saves(s, freshIds).version >= s.version
    decreases |freshIds|
  {
    if freshIds != [] {
      VersionNeverDecreases(SaveStep(s, freshIds[0]), freshIds[1..]);
    }
  }

  /** An instance whose key was set to 0 by hand is falsy, so its version
      stays put however often it is saved. */
  lemma {:induction false} ZeroKeyNeverBumps(version: int, freshIds: seq<int>)
    ensures Saves(State(Some(0), version), freshIds) == State(Some(0), version)
    decreases |freshIds|
  {
    if freshIds != [] {
      ZeroKeyNeverBumps(version, freshIds[1..]);
    }
  }
}
