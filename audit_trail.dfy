/** The audit trail: every save of the example model appends a `create`
    entry carrying the row's id, written after the row, and every delete
    appends a `delete` entry before the row goes. Entries are never edited
    or removed, and the trail reads newest first. */
module AuditTrail {
  import opened Http

  datatype Row = Row(name: string, description: string)

  /** An audit row: action, model name, object id and the creation time. */
  datatype AuditEntry = AuditEntry(action: string, modelName: string, objectId: int, timestamp: int)

  /** Writing an audit row without an object id breaks its NOT NULL column. */
  datatype DbError = IntegrityError

  /** `self.__class__.__name__` of the example model. */
  const ModelName: string := "MyModel"

  class Database {
    var rows: map<int, Row>
    var nextId: int
    var audit: seq<AuditEntry>

    ghost predicate Valid()
      reads this
    {
      0 < nextId && forall id :: id in rows ==> id < nextId
    }

    constructor ()
      ensures rows == map[] && audit == [] && Valid()
    {
      rows := map[];
      nextId := 1;
      audit := [];
    }

    /** `AuditTrail.objects.create(...)`: appends one entry, or fails on a
        missing object id and writes nothing. */
    method CreateAudit(action: string, modelName: string, objectId: Option<int>, now: int) returns (error: Option<DbError>)
      modifies this
      ensures objectId.None? ==> error == Some(IntegrityError) && audit == old(audit)
      ensures objectId.Some? ==> error == None && audit == old(audit) + [AuditEntry(action, modelName, objectId.value, now)]
      ensures rows == old(rows) && nextId == old(nextId)
    {
      if objectId.None? {
        return Some(IntegrityError);
      }
      audit := audit + [AuditEntry(action, modelName, objectId.value, now)];
      error := None;
    }
  }

  class MyModel {
    var pk: Option<int>
    var name: string
    var description: string
    const db: Database

    constructor (db: Database, name: string, description: string)
      ensures this.db == db && pk == None && this.name == name && this.description == description
    {
      this.db := db;
      pk := None;
      this.name := name;
      this.description := description;
    }

    /** The framework's `save`, then a `create` entry for the id it left,
        whether the row was new or not. */
    method Save(now: int)
      requires db.Valid()
      modifies this, db
      ensures db.Valid() && pk.Some?
      ensures old(pk).Some? ==> pk == old(pk)
      ensures old(pk).None? ==> pk.value !in old(db.rows)
      ensures name == old(name) && description == old(description)
      ensures db.rows == old(db.rows)[pk.value := Row(name, description)]
      ensures db.audit == old(db.audit) + [AuditEntry("create", ModelName, pk.value, now)]
    {
      if pk.None? {
        var id := db.nextId;
        db.rows := db.rows[id := Row(name, description)];
        db.nextId := db.nextId + 1;
        pk := Some(id);
      } else {
        if pk.value >= db.nextId {
          db.nextId := pk.value + 1;
        }
        db.rows := db.rows[pk.value := Row(name, description)];
      }
      var error := db.CreateAudit("create", ModelName, pk, now);
    }

    /** A `delete` entry first, then the framework's `delete`, which removes
        the row and clears the key. An unsaved instance fails at the entry
        and nothing changes. */
    method Delete(now: int) returns (error: Option<DbError>)
      requires db.Valid()
      modifies this, db
      ensures db.Valid()
      ensures old(pk).None? ==> error == Some(IntegrityError) && db.rows == old(db.rows) && db.audit == old(db.audit) && pk == None
      ensures old(pk).Some? ==>
        && error == None && pk == None
        && db.audit == old(db.audit) + [AuditEntry("delete", ModelName, old(pk).value, now)]
        && db.rows == old(db.rows) - {old(pk).value}
    {
      error := db.CreateAudit("delete", ModelName, pk, now);
      if error.Some? {
        return;
      }
      db.rows := db.rows - {pk.value};
      pk := None;
    }
  }

  /** The order `Meta.ordering = ['-timestamp']` asks for. */
  predicate NewestFirst(log: seq<AuditEntry>)
  {
    forall i, j :: 0 <= i < j < |log| ==> log[i].timestamp >= log[j].timestamp
  }

  /** Places an entry before the first entry that is not newer than it. */
  function InsertByTime(e: AuditEntry, log: seq<AuditEntry>): (r: seq<AuditEntry>)
    ensures |r| == |log| + 1
    ensures multiset(r) == multiset(log) + multiset{e}
  {
    if log == [] then [e]
    else if e.timestamp >= log[0].timestamp then [e] + log
    else
      assert log == [log[0]] + log[1..];
      [log[0]] + InsertByTime(e, log[1..])
  }

  /** Inserting into a newest-first log keeps it newest first; the result
      starts with the new entry or with the log's old first entry. */
  lemma {:induction false} InsertKeepsNewestFirst(e: AuditEntry, log: seq<AuditEntry>)
    requires NewestFirst(log)
    ensures NewestFirst(InsertByTime(e, log))
    ensures InsertByTime(e, log)[0] == e || (log != [] && InsertByTime(e, log)[0] == log[0])
  {
    if log == [] {
    } else if e.timestamp >= log[0].timestamp {
      var r := [e] + log;
      assert InsertByTime(e, log) == r;
      forall i, j | 0 <= i < j < |r| ensures r[i].timestamp >= r[j].timestamp {
        if i == 0 {
          assert r[j] == log[j - 1];
        } else {
          assert r[i] == log[i - 1] && r[j] == log[j - 1];
        }
      }
    } else {
      var rest := InsertByTime(e, log[1..]);
      assert NewestFirst(log[1..]);
      InsertKeepsNewestFirst(e, log[1..]);
      assert rest[0].timestamp <= log[0].timestamp;
      var r := [log[0]] + rest;
      assert InsertByTime(e, log) == r;
      forall i, j | 0 <= i < j < |r| ensures r[i].timestamp >= r[j].timestamp {
        if i == 0 {
          assert r[j] == rest[j - 1];
        } else {
          assert r[i] == rest[i - 1] && r[j] == rest[j - 1];
        }
      }
    }
  }

  /** The entries of a log in the default query order: the same entries,
      newest first. */
  function Ordered(log: seq<AuditEntry>): (r: seq<AuditEntry>)
    ensures NewestFirst(r)
    ensures multiset(r) == multiset(log)
  {
    if log == [] then []
    else
      var rest := Ordered(log[1..]);
      assert log == [log[0]] + log[1..];
      InsertKeepsNewestFirst(log[0], rest);
      InsertByTime(log[0], rest)
  }

  /** A log already newest first is left as it is. */
  lemma {:induction false} OrderedIsIdentityOnOrdered(log: seq<AuditEntry>)
    requires NewestFirst(log)
    ensures Ordered(log) == log
  {
    if log != [] {
      assert NewestFirst(log[1..]);
      OrderedIsIdentityOnOrdered(log[1..]);
    }
  }
}
