/**
 * The database as a mutable object: the four tables and the sequences are fields
 * that each statement updates in place, a transaction is a snapshot of the tables
 * taken at BEGIN, and `checkedOut` counts the clients taken from the pool.
 */
module Postgres {
  import opened Schema

  class Database {
    var services: map<ServiceKey, ServiceRow>
    var projects: map<string, nat>
    var teams: map<string, nat>
    var costs: seq<CostRow>
    var serials: Serials
    const costKeyUnique: bool
    /** Some(t) while a transaction is open: the tables as they stood at BEGIN. */
    var snapshot: Option<Tables>
    /** Clients acquired with `pool.connect()` and not yet released. */
    var checkedOut: nat

    function Value(): Db
      reads this
    {
      Db(Tables(services, projects, teams, costs), serials, costKeyUnique)
    }

    ghost predicate Valid()
      reads this
    {
      && Schema.Valid(Value())
      && (snapshot.Some? ==> Schema.Valid(Db(snapshot.value, serials, costKeyUnique)))
    }

    /** An empty schema; PostgreSQL serials start at 1. */
    constructor (costKeyUnique: bool)
      ensures Valid() && snapshot.None? && checkedOut == 0
      ensures Value() == Db(Tables(map[], map[], map[], []), Serials(1, 1, 1, 1), costKeyUnique)
    {
      services, projects, teams, costs := map[], map[], map[], [];
      serials := Serials(1, 1, 1, 1);
      this.costKeyUnique := costKeyUnique;
      snapshot := None;
      checkedOut := 0;
    }

    /** `pool.connect()`: one more client is held. */
    method Connect()
      modifies this
      ensures checkedOut == old(checkedOut) + 1
      ensures Value() == old(Value()) && snapshot == old(snapshot)
    {
      checkedOut := checkedOut + 1;
    }

    /** `client.release()`: the client goes back to the pool. */
    method Release()
      requires checkedOut > 0
      modifies this
      ensures checkedOut == old(checkedOut) - 1
      ensures Value() == old(Value()) && snapshot == old(snapshot)
    {
      checkedOut := checkedOut - 1;
    }

    /** BEGIN: remember the tables. Inside an open transaction PostgreSQL only warns. */
    method Begin()
      requires Valid()
      modifies this
      ensures Valid() && Value() == old(Value()) && checkedOut == old(checkedOut)
      ensures snapshot == if old(snapshot).None? then Some(old(Value()).tables) else old(snapshot)
    {
      if snapshot.None? {
        snapshot := Some(Tables(services, projects, teams, costs));
      }
    }

    /** COMMIT: the tables stay as they are and the transaction ends. */
    method Commit()
      requires Valid()
      modifies this
      ensures Valid() && Value() == old(Value()) && checkedOut == old(checkedOut)
      ensures snapshot.None?
    {
      snapshot := None;
    }

    /** ROLLBACK: the tables return to their state at BEGIN; the sequences do not. */
    method Rollback()
      requires Valid()
      modifies this
      ensures Valid() && checkedOut == old(checkedOut) && snapshot.None?
      ensures Value() == if old(snapshot).Some? then old(Value()).(tables := old(snapshot).value) else old(Value())
    {
      if snapshot.Some? {
        var t := snapshot.value;
        services, projects, teams, costs := t.services, t.projects, t.teams, t.costs;
      }
      snapshot := None;
    }

    /** Executes `Schema.InsertService` on the tables and returns `rows[0]?.id`. */
    method InsertService(key: ServiceKey, cost: int, date: Timestamp, onConflict: OnConflict) returns (id: Option<nat>)
      requires Valid()
      modifies this
      ensures Valid() && snapshot == old(snapshot) && checkedOut == old(checkedOut)
      ensures Returning(Value(), id) == Schema.InsertService(old(Value()), key, cost, date, onConflict)
    {
      ghost var before := Value();
      var proposed := serials.service;
      serials := serials.(service := proposed + 1);
      if key in services {
        if onConflict == DoUpdateCost {
          services := services[key := services[key].(cost := cost)];
          id := Some(services[key].id);
        } else {
          id := None;
        }
      } else {
        services := services[key := ServiceRow(proposed, cost, date)];
        id := Some(proposed);
      }
      assert Value() == Schema.InsertService(before, key, cost, date, onConflict).db;
      if snapshot.Some? {
        ValidUnderLaterSerials(snapshot.value, before.serials, serials, costKeyUnique);
      }
    }

    /** Executes `Schema.InsertName` on `projects` or `teams` and returns `rows[0]?.id`. */
    method InsertName(table: NameTable, name: string) returns (id: Option<nat>)
      requires Valid()
      modifies this
      ensures Valid() && snapshot == old(snapshot) && checkedOut == old(checkedOut)
      ensures Returning(Value(), id) == Schema.InsertName(old(Value()), table, name)
    {
      ghost var before := Value();
      if table == Projects {
        var proposed := serials.project;
        serials := serials.(project := proposed + 1);
        if name in projects {
          id := None;
        } else {
          projects := projects[name := proposed];
          id := Some(proposed);
        }
      } else {
        var proposed := serials.team;
        serials := serials.(team := proposed + 1);
        if name in teams {
          id := None;
        } else {
          teams := teams[name := proposed];
          id := Some(proposed);
        }
      }
      assert Value() == Schema.InsertName(before, table, name).db;
      if snapshot.Some? {
        ValidUnderLaterSerials(snapshot.value, before.serials, serials, costKeyUnique);
      }
    }

    /** Executes `Schema.InsertCost` on `costs` and returns the error it raised, if any. */
    method InsertCost(serviceId: Option<nat>, projectId: Option<nat>, teamId: Option<nat>,
                      cost: int, date: string, clause: CostClause) returns (error: Option<SqlError>)
      requires Valid()
      modifies this
      ensures Valid() && snapshot == old(snapshot) && checkedOut == old(checkedOut)
      ensures Written(Value(), error) == Schema.InsertCost(old(Value()), serviceId, projectId, teamId, cost, date, clause)
    {
      var before := Value();
      var proposed := serials.cost;
      serials := serials.(cost := proposed + 1);
      var row := CostRow(proposed, serviceId, projectId, teamId, cost, date);
      if NaturalKeyTaken(before, row) {
        error := if clause == SkipOnConflict then None else Some(UniqueViolation);
      } else if !ReferencesExist(before.tables, row) {
        error := Some(ForeignKeyViolation);
      } else {
        costs := costs + [row];
        error := None;
      }
      assert Value() == Schema.InsertCost(before, serviceId, projectId, teamId, cost, date, clause).db;
      if snapshot.Some? {
        ValidUnderLaterSerials(snapshot.value, before.serials, serials, costKeyUnique);
      }
    }
  }
}
