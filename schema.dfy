/**
 * The relational store the reconciliation writes into: the four tables
 * `services`, `projects`, `teams` and `costs`, the serial sequences that hand
 * out their ids, and the meaning of each INSERT statement the backend issues,
 * following PostgreSQL's INSERT ... ON CONFLICT semantics.
 */
module Schema {

  datatype Option<T> = None | Some(value: T)

  /** A JavaScript value read from a billing record's `usage_start_time`. `Other` is
      any non-string value; `asDate` is the ISO-8601 text `new Date(value)` gives it,
      None when that date is invalid. */
  datatype Timestamp = Undefined | Null | Text(text: string) | Other(asDate: Option<string>)

  /** The identity of a `services` row: UNIQUE(service_name, provider_name). */
  datatype ServiceKey = ServiceKey(serviceName: string, providerName: string)

  /** The non-key columns of a `services` row. `date` holds the value the statement passed. */
  datatype ServiceRow = ServiceRow(id: nat, cost: int, date: Timestamp)

  /** A `costs` row; a None id is SQL NULL (the JavaScript `undefined` parameter). */
  datatype CostRow = CostRow(id: nat, serviceId: Option<nat>, projectId: Option<nat>,
                             teamId: Option<nat>, cost: int, date: string)

  /** `services` keyed by its unique key, `projects` and `teams` mapping each unique
      name to its id, and `costs` in insertion order. */
  datatype Tables = Tables(services: map<ServiceKey, ServiceRow>,
                           projects: map<string, nat>,
                           teams: map<string, nat>,
                           costs: seq<CostRow>)

  /** The next value of each table's serial sequence. Sequences are not transactional:
      a ROLLBACK does not give their values back. */
  datatype Serials = Serials(service: nat, project: nat, team: nat, cost: nat)

  /** The whole database. `costKeyUnique` says whether `costs` carries a unique constraint
      on (service_id, project_id, team_id, date). */
  datatype Db = Db(tables: Tables, serials: Serials, costKeyUnique: bool)

  datatype NameTable = Projects | Teams

  function Names(t: Tables, table: NameTable): map<string, nat> {
    if table == Projects then t.projects else t.teams
  }

  function WithNames(t: Tables, table: NameTable, m: map<string, nat>): Tables {
    if table == Projects then t.(projects := m) else t.(teams := m)
  }

  function NextNameId(s: Serials, table: NameTable): nat {
    if table == Projects then s.project else s.team
  }

  function WithNextNameId(s: Serials, table: NameTable, n: nat): Serials {
    if table == Projects then s.(project := n) else s.(team := n)
  }

  function ServiceIds(t: Tables): set<nat> {
    set k | k in t.services :: t.services[k].id
  }

  predicate Refers(id: Option<nat>, ids: set<nat>) {
    id.Some? ==> id.value in ids
  }

  /** The foreign keys of a `costs` row: every non-NULL id names an existing row. */
  predicate ReferencesExist(t: Tables, row: CostRow) {
    && Refers(row.serviceId, ServiceIds(t))
    && Refers(row.projectId, t.projects.Values)
    && Refers(row.teamId, t.teams.Values)
  }

  predicate ServiceIdsInjective(m: map<ServiceKey, ServiceRow>) {
    forall a, b :: a in m && b in m && m[a].id == m[b].id ==> a == b
  }

  predicate NameIdsInjective(m: map<string, nat>) {
    forall a, b :: a in m && b in m && m[a] == m[b] ==> a == b
  }

  predicate NameIdsBelow(m: map<string, nat>, next: nat) {
    forall n :: n in m ==> m[n] < next
  }

  /** The integrity the schema promises: primary keys are distinct and were drawn from
      their sequence, and every foreign key of `costs` resolves. */
  predicate Valid(db: Db) {
    var t := db.tables;
    && (forall k :: k in t.services ==> t.services[k].id < db.serials.service)
    && ServiceIdsInjective(t.services)
    && NameIdsBelow(t.projects, db.serials.project) && NameIdsInjective(t.projects)
    && NameIdsBelow(t.teams, db.serials.team) && NameIdsInjective(t.teams)
    && (forall i :: 0 <= i < |t.costs| ==> t.costs[i].id < db.serials.cost)
    && (forall i, j :: 0 <= i < j < |t.costs| ==> t.costs[i].id < t.costs[j].id)
    && (forall i :: 0 <= i < |t.costs| ==> ReferencesExist(t, t.costs[i]))
  }

  /** `a` is `b` with possibly more rows: no row of `b` was removed or re-keyed,
      and `b.costs` is a prefix of `a.costs`. Service costs may have been overwritten. */
  predicate Extends(a: Tables, b: Tables) {
    && (forall k :: k in b.services ==>
          k in a.services && a.services[k].id == b.services[k].id && a.services[k].date == b.services[k].date)
    && (forall n :: n in b.projects ==> n in a.projects && a.projects[n] == b.projects[n])
    && (forall n :: n in b.teams ==> n in a.teams && a.teams[n] == b.teams[n])
    && b.costs <= a.costs
  }

  predicate SerialsAtLeast(a: Serials, b: Serials) {
    a.service >= b.service && a.project >= b.project && a.team >= b.team && a.cost >= b.cost
  }

  lemma ExtendsTransitive(a: Tables, b: Tables, c: Tables)
    requires Extends(a, b) && Extends(b, c)
    ensures Extends(a, c)
  {
  }

  lemma ExtendsReflexive(a: Tables)
    ensures Extends(a, a)
  {
  }

  /** `b` is a state a statement may leave behind `a`: integrity kept, no row removed,
      no sequence wound back. */
  predicate Grows(a: Db, b: Db) {
    && b.costKeyUnique == a.costKeyUnique
    && (Valid(a) ==> Valid(b) && Extends(b.tables, a.tables) && SerialsAtLeast(b.serials, a.serials))
  }

  lemma GrowsTransitive(a: Db, b: Db, c: Db)
    requires Grows(a, b) && Grows(b, c)
    ensures Grows(a, c)
  {
    if Valid(a) {
      ExtendsTransitive(c.tables, b.tables, a.tables);
    }
  }

  /** The four statements of one record, one after another. */
  lemma GrowsAlongFour(a: Db, b: Db, c: Db, d: Db, e: Db)
    requires Grows(a, b) && Grows(b, c) && Grows(c, d) && Grows(d, e)
    ensures Grows(a, e)
  {
    GrowsTransitive(a, b, c);
    GrowsTransitive(a, c, d);
    GrowsTransitive(a, d, e);
  }

  /** Tables valid under some sequence values stay valid once the sequences have moved on. */
  lemma ValidUnderLaterSerials(t: Tables, s: Serials, s': Serials, unique: bool)
    requires SerialsAtLeast(s', s)
    ensures Valid(Db(t, s, unique)) ==> Valid(Db(t, s', unique))
  {
  }

  lemma ServiceIdsAfterAdd(t: Tables, key: ServiceKey, row: ServiceRow)
    requires key !in t.services
    ensures ServiceIds(t.(services := t.services[key := row])) == ServiceIds(t) + {row.id}
  {
    var t' := t.(services := t.services[key := row]);
    forall id | id in ServiceIds(t')
      ensures id in ServiceIds(t) + {row.id}
    {
      var k :| k in t'.services && t'.services[k].id == id;
      if k != key {
        assert t.services[k].id == id;
      }
    }
    forall id | id in ServiceIds(t)
      ensures id in ServiceIds(t')
    {
      var k :| k in t.services && t.services[k].id == id;
      assert t'.services[k].id == id;
    }
    assert t'.services[key].id == row.id;
  }

  lemma NameIdsAfterAdd(m: map<string, nat>, name: string, id: nat)
    requires name !in m
    ensures m[name := id].Values == m.Values + {id}
  {
    var m' := m[name := id];
    forall v | v in m'.Values
      ensures v in m.Values + {id}
    {
      var n :| n in m' && m'[n] == v;
      if n != name {
        assert m[n] == v;
      }
    }
    forall v | v in m.Values
      ensures v in m'.Values
    {
      var n :| n in m && m[n] == v;
      assert m'[n] == v;
    }
    assert m'[name] == id;
  }

  /** What a statement leaves behind: the new state, and `rows[0]?.id`, the id that
      RETURNING id handed back (None when it returned no row). */
  datatype Returning = Returning(db: Db, id: Option<nat>)

  datatype OnConflict = DoUpdateCost | DoNothing

  /** INSERT INTO services (service_name, provider_name, cost, date) VALUES (...)
      ON CONFLICT (service_name, provider_name) DO UPDATE SET cost = EXCLUDED.cost
      (or DO NOTHING) RETURNING id. The id default draws from the sequence before
      the conflict is detected, so the sequence advances either way. */
  function InsertService(db: Db, key: ServiceKey, cost: int, date: Timestamp, onConflict: OnConflict): (r: Returning)
    ensures r.db.costKeyUnique == db.costKeyUnique
    ensures r.db.serials == db.serials.(service := db.serials.service + 1)
    ensures r.db.tables.projects == db.tables.projects && r.db.tables.teams == db.tables.teams
    ensures r.db.tables.costs == db.tables.costs
    ensures r.db.tables.services.Keys == db.tables.services.Keys + {key}
    ensures forall k :: k in db.tables.services && k != key ==> r.db.tables.services[k] == db.tables.services[k]
    // an existing row keeps its id and date; only DO UPDATE replaces its cost
    ensures key in db.tables.services ==>
      var was := db.tables.services[key];
      r.db.tables.services[key] == (if onConflict == DoUpdateCost then was.(cost := cost) else was)
    // a new row takes the next id and the statement's values
    ensures key !in db.tables.services ==> r.db.tables.services[key] == ServiceRow(db.serials.service, cost, date)
    // RETURNING yields a row exactly when one was inserted or updated, and it is that row's id
    ensures r.id.None? <==> key in db.tables.services && onConflict == DoNothing
    ensures r.id.Some? ==> r.id.value == r.db.tables.services[key].id
    ensures Valid(db) ==> Valid(r.db) && Extends(r.db.tables, db.tables)
  {
    var t := db.tables;
    var proposed := db.serials.service;
    var serials := db.serials.(service := proposed + 1);
    if key in t.services then
      var was := t.services[key];
      if onConflict == DoUpdateCost then
        var services := t.services[key := was.(cost := cost)];
        ServiceRowReplaced(db, key, was.(cost := cost), serials);
        Returning(Db(t.(services := services), serials, db.costKeyUnique), Some(was.id))
      else
        ValidUnderLaterSerials(t, db.serials, serials, db.costKeyUnique);
        Returning(db.(serials := serials), None)
    else
      var services := t.services[key := ServiceRow(proposed, cost, date)];
      ServiceRowAdded(db, key, ServiceRow(proposed, cost, date), serials);
      Returning(Db(t.(services := services), serials, db.costKeyUnique), Some(proposed))
  }

  /** Overwriting an existing service row's cost keeps the schema's integrity. */
  lemma ServiceRowReplaced(db: Db, key: ServiceKey, row: ServiceRow, serials: Serials)
    requires key in db.tables.services && row.id == db.tables.services[key].id
    requires row.date == db.tables.services[key].date
    requires SerialsAtLeast(serials, db.serials)
    ensures var t := db.tables.(services := db.tables.services[key := row]);
      Valid(db) ==> Valid(Db(t, serials, db.costKeyUnique)) && Extends(t, db.tables)
  {
    var t := db.tables.(services := db.tables.services[key := row]);
    forall id | id in ServiceIds(t)
      ensures id in ServiceIds(db.tables)
    {
      var k :| k in t.services && t.services[k].id == id;
      assert db.tables.services[k].id == id;
    }
    forall id | id in ServiceIds(db.tables)
      ensures id in ServiceIds(t)
    {
      var k :| k in db.tables.services && db.tables.services[k].id == id;
      assert t.services[k].id == id;
    }
    if Valid(db) {
      assert Valid(Db(t, db.serials, db.costKeyUnique));
      ValidUnderLaterSerials(t, db.serials, serials, db.costKeyUnique);
    }
  }

  /** A new service row numbered by the sequence keeps the schema's integrity. */
  lemma ServiceRowAdded(db: Db, key: ServiceKey, row: ServiceRow, serials: Serials)
    requires key !in db.tables.services && row.id == db.serials.service
    requires serials == db.serials.(service := db.serials.service + 1)
    ensures var t := db.tables.(services := db.tables.services[key := row]);
      Valid(db) ==> Valid(Db(t, serials, db.costKeyUnique)) && Extends(t, db.tables)
  {
    ServiceIdsAfterAdd(db.tables, key, row);
  }

  /** INSERT INTO projects (project_name) / teams (team_name) VALUES ($1)
      ON CONFLICT (...) DO NOTHING RETURNING id. */
  function InsertName(db: Db, table: NameTable, name: string): (r: Returning)
    ensures r.db.costKeyUnique == db.costKeyUnique
    ensures r.db.serials == WithNextNameId(db.serials, table, NextNameId(db.serials, table) + 1)
    ensures r.db.tables.services == db.tables.services && r.db.tables.costs == db.tables.costs
    ensures Names(r.db.tables, if table == Projects then Teams else Projects)
         == Names(db.tables, if table == Projects then Teams else Projects)
    ensures Names(r.db.tables, table).Keys == Names(db.tables, table).Keys + {name}
    ensures forall n :: n in Names(db.tables, table) ==> Names(r.db.tables, table)[n] == Names(db.tables, table)[n]
    // no second row for an existing name, and then RETURNING gives nothing back
    ensures r.id.None? <==> name in Names(db.tables, table)
    ensures r.id.Some? ==> r.id.value == Names(r.db.tables, table)[name] == NextNameId(db.serials, table)
    ensures Valid(db) ==> Valid(r.db) && Extends(r.db.tables, db.tables)
  {
    var t := db.tables;
    var m := Names(t, table);
    var proposed := NextNameId(db.serials, table);
    var serials := WithNextNameId(db.serials, table, proposed + 1);
    if name in m then
      ValidUnderLaterSerials(t, db.serials, serials, db.costKeyUnique);
      Returning(db.(serials := serials), None)
    else
      var m' := m[name := proposed];
      NameAdded(db, table, name, serials);
      Returning(Db(WithNames(t, table, m'), serials, db.costKeyUnique), Some(proposed))
  }

  /** A new name row numbered by its table's sequence keeps the schema's integrity. */
  lemma NameAdded(db: Db, table: NameTable, name: string, serials: Serials)
    requires name !in Names(db.tables, table)
    requires serials == WithNextNameId(db.serials, table, NextNameId(db.serials, table) + 1)
    ensures var t := WithNames(db.tables, table, Names(db.tables, table)[name := NextNameId(db.serials, table)]);
      Valid(db) ==> Valid(Db(t, serials, db.costKeyUnique)) && Extends(t, db.tables)
  {
    NameIdsAfterAdd(Names(db.tables, table), name, NextNameId(db.serials, table));
  }

  datatype SqlError = UniqueViolation | ForeignKeyViolation

  /** Whether the `costs` statement carries ON CONFLICT DO NOTHING. */
  datatype CostClause = SkipOnConflict | NoConflictClause

  /** The unique constraint of `costs` rejects `row`: NULLs never compare equal, so a row
      with a NULL id never conflicts. */
  predicate NaturalKeyTaken(db: Db, row: CostRow) {
    && db.costKeyUnique
    && row.serviceId.Some? && row.projectId.Some? && row.teamId.Some?
    && exists i | 0 <= i < |db.tables.costs| ::
         var c := db.tables.costs[i];
         c.serviceId == row.serviceId && c.projectId == row.projectId
         && c.teamId == row.teamId && c.date == row.date
  }

  /** Under the schema's integrity every project id a stored cost row carries names a
      project row, and so lies below the sequence: a row whose project id is the next
      one the sequence hands out never meets the unique key, in any later state that
      still holds the same cost rows. */
  lemma UnissuedProjectIdTakesNoKey(db: Db, later: Db, row: CostRow)
    requires Valid(db) && later.tables.costs == db.tables.costs
    requires row.projectId == Some(db.serials.project)
    ensures !NaturalKeyTaken(later, row)
  {
    forall i | 0 <= i < |db.tables.costs|
      ensures db.tables.costs[i].projectId != row.projectId
    {
      assert ReferencesExist(db.tables, db.tables.costs[i]);
      var p := db.tables.costs[i].projectId;
      if p.Some? {
        var n :| n in db.tables.projects && db.tables.projects[n] == p.value;
        assert p.value < db.serials.project;
      }
    }
  }

  /** What a statement without RETURNING leaves behind: the new state and the error it raised. */
  datatype Written = Written(db: Db, error: Option<SqlError>)

  /** INSERT INTO costs (service_id, project_id, team_id, cost, date) VALUES (...),
      with or without ON CONFLICT DO NOTHING. */
  function InsertCost(db: Db, serviceId: Option<nat>, projectId: Option<nat>, teamId: Option<nat>,
                      cost: int, date: string, clause: CostClause): (r: Written)
    ensures r.db.costKeyUnique == db.costKeyUnique
    ensures r.db.serials == db.serials.(cost := db.serials.cost + 1)
    ensures r.db.tables.services == db.tables.services
    ensures r.db.tables.projects == db.tables.projects && r.db.tables.teams == db.tables.teams
    // at most one row is added, and it carries exactly the statement's values
    ensures r.db.tables.costs == db.tables.costs
         || r.db.tables.costs == db.tables.costs + [CostRow(db.serials.cost, serviceId, projectId, teamId, cost, date)]
    ensures r.error.Some? ==> r.db.tables.costs == db.tables.costs
    // the row is added exactly when it breaks neither constraint
    ensures |r.db.tables.costs| == |db.tables.costs| + 1 <==>
      var row := CostRow(db.serials.cost, serviceId, projectId, teamId, cost, date);
      !NaturalKeyTaken(db, row) && ReferencesExist(db.tables, row)
    // an error is raised by a foreign key, or by the unique key when nothing skips conflicts
    ensures r.error == Some(ForeignKeyViolation) ==>
      !ReferencesExist(db.tables, CostRow(db.serials.cost, serviceId, projectId, teamId, cost, date))
    ensures r.error.None? && clause == NoConflictClause ==> |r.db.tables.costs| == |db.tables.costs| + 1
    // a conflict is skipped silently under DO NOTHING, and a dangling id always raises
    ensures clause == SkipOnConflict
            && NaturalKeyTaken(db, CostRow(db.serials.cost, serviceId, projectId, teamId, cost, date))
            ==> r.error.None?
    ensures var row := CostRow(db.serials.cost, serviceId, projectId, teamId, cost, date);
      !NaturalKeyTaken(db, row) && !ReferencesExist(db.tables, row) ==> r.error == Some(ForeignKeyViolation)
    ensures Valid(db) ==> Valid(r.db) && Extends(r.db.tables, db.tables)
  {
    var proposed := db.serials.cost;
    var serials := db.serials.(cost := proposed + 1);
    var row := CostRow(proposed, serviceId, projectId, teamId, cost, date);
    if NaturalKeyTaken(db, row) then
      Written(db.(serials := serials), if clause == SkipOnConflict then None else Some(UniqueViolation))
    else if !ReferencesExist(db.tables, row) then
      Written(db.(serials := serials), Some(ForeignKeyViolation))
    else
      Written(db.(tables := db.tables.(costs := db.tables.costs + [row]), serials := serials), None)
  }

  /** The service row a join on `services.id = id` finds: none for NULL or a dangling id,
      and at most one since ids are distinct. */
  function ServiceWithId(t: Tables, id: Option<nat>): (key: Option<ServiceKey>)
    requires ServiceIdsInjective(t.services)
    ensures key.None? <==> id.None? || id.value !in ServiceIds(t)
    ensures key.Some? ==> key.value in t.services && t.services[key.value].id == id.value
  {
    if id.Some? && id.value in ServiceIds(t) then
      var k :| k in t.services && t.services[k].id == id.value;
      Some(k)
    else
      None
  }

  /** The name a join on `projects.id = id` or `teams.id = id` finds. */
  function NameWithId(m: map<string, nat>, id: Option<nat>): (name: Option<string>)
    requires NameIdsInjective(m)
    ensures name.None? <==> id.None? || id.value !in m.Values
    ensures name.Some? ==> name.value in m && m[name.value] == id.value
  {
    if id.Some? && id.value in m.Values then
      var n :| n in m && m[n] == id.value;
      Some(n)
    else
      None
  }

  /** Each statement keeps the schema's integrity, loses no row and moves no sequence back. */
  lemma InsertServiceGrows(db: Db, key: ServiceKey, cost: int, date: Timestamp, onConflict: OnConflict)
    ensures Grows(db, InsertService(db, key, cost, date, onConflict).db)
  {
  }

  lemma InsertNameGrows(db: Db, table: NameTable, name: string)
    ensures Grows(db, InsertName(db, table, name).db)
  {
  }

  lemma InsertCostGrows(db: Db, serviceId: Option<nat>, projectId: Option<nat>, teamId: Option<nat>,
                        cost: int, date: string, clause: CostClause)
    ensures Grows(db, InsertCost(db, serviceId, projectId, teamId, cost, date, clause).db)
  {
  }
}
