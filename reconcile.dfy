/**
 * insertDataToDB: the transactional reconciliation of a fetched billing batch into
 * `services`, `projects`, `teams` and `costs`.
 */
module Reconcile {
  import opened Schema
  import opened Dates
  import opened Labels
  import opened Batches
  import opened Postgres
  import opened Server

  /** A row of the warehouse query, whose columns are aliased flat. `labels` is None
      when the record has no `labels` array. */
  datatype BillingRow = BillingRow(serviceName: string, providerName: string, projectName: string,
                                   cost: int, usageStartTime: Timestamp, labels: Option<seq<Label>>)

  /** What a run reads from outside the database: date parsing, the current time as
      ISO text, and the random draw made for record `i` when it has no owner label. */
  datatype Env = Env(toIso: string -> Option<string>, nowIso: string, roll: nat -> Pick)

  function KeyOf(r: BillingRow): ServiceKey {
    ServiceKey(r.serviceName, r.providerName)
  }

  function DayOf(r: BillingRow, env: Env): string {
    FormattedDate(r.usageStartTime, env.toIso, env.nowIso)
  }

  function TeamOf(r: BillingRow, env: Env, i: nat): string
    requires r.labels.Some?
  {
    OwnerTeam(r.labels.value, env.roll(i))
  }

  /** One pass of the loop body for record `i`, statement by statement. A record without
      labels throws before its cost insert; every cost insert sent draws one id from the
      `costs` sequence, whether or not a row is added. */
  function RecordStep(db: Db, r: BillingRow, env: Env, i: nat): (res: StepResult)
    ensures r.labels.None? ==> res.StepFailed? && res.db.tables.costs == db.tables.costs
    ensures res.db.serials.cost == db.serials.cost + (if r.labels.Some? then 1 else 0)
    ensures res.db.costKeyUnique == db.costKeyUnique
  {
    var day := DayOf(r, env);
    var service := InsertService(db, KeyOf(r), r.cost, Text(day), DoUpdateCost);
    var project := InsertName(service.db, Projects, r.projectName);
    if r.labels.None? then
      StepFailed(project.db)
    else
      var team := InsertName(project.db, Teams, TeamOf(r, env, i));
      var written := InsertCost(team.db, service.id, project.id, team.id, r.cost, day, SkipOnConflict);
      if written.error.Some? then StepFailed(written.db) else StepOk(written.db)
  }

  /** The only step that throws is `labels.find` on a record without labels: the ids
      handed to the cost insert always name existing rows, and a conflict is skipped. */
  lemma RecordStepFailsOnlyWithoutLabels(db: Db, r: BillingRow, env: Env, i: nat)
    ensures RecordStep(db, r, env, i).StepFailed? <==> r.labels.None?
  {
    if r.labels.Some? {
      var day := DayOf(r, env);
      var service := InsertService(db, KeyOf(r), r.cost, Text(day), DoUpdateCost);
      var project := InsertName(service.db, Projects, r.projectName);
      var team := InsertName(project.db, Teams, TeamOf(r, env, i));
      assert team.db.tables.services[KeyOf(r)].id == service.id.value;
      var row := CostRow(team.db.serials.cost, service.id, project.id, team.id, r.cost, day);
      assert ReferencesExist(team.db.tables, row);
    }
  }

  lemma RecordStepKeepsValid(db: Db, r: BillingRow, env: Env, i: nat)
    ensures Grows(db, RecordStep(db, r, env, i).db)
  {
    var day := DayOf(r, env);
    var service := InsertService(db, KeyOf(r), r.cost, Text(day), DoUpdateCost);
    var project := InsertName(service.db, Projects, r.projectName);
    InsertServiceGrows(db, KeyOf(r), r.cost, Text(day), DoUpdateCost);
    InsertNameGrows(service.db, Projects, r.projectName);
    if r.labels.Some? {
      var team := InsertName(project.db, Teams, TeamOf(r, env, i));
      var written := InsertCost(team.db, service.id, project.id, team.id, r.cost, day, SkipOnConflict);
      InsertNameGrows(project.db, Teams, TeamOf(r, env, i));
      InsertCostGrows(team.db, service.id, project.id, team.id, r.cost, day, SkipOnConflict);
      GrowsAlongFour(db, service.db, project.db, team.db, written.db);
    } else {
      GrowsTransitive(db, service.db, project.db);
    }
  }

  /** After record `r`: its service row exists with its cost while every other service
      row is as it was, and its project row exists. */
  lemma RecordStepUpserts(db: Db, r: BillingRow, env: Env, i: nat)
    ensures var t := RecordStep(db, r, env, i).db.tables;
      && KeyOf(r) in t.services && t.services[KeyOf(r)].cost == r.cost
      && (KeyOf(r) in db.tables.services ==>
            t.services[KeyOf(r)] == db.tables.services[KeyOf(r)].(cost := r.cost))
      && (forall k :: k in db.tables.services && k != KeyOf(r) ==> k in t.services && t.services[k] == db.tables.services[k])
      && r.projectName in t.projects
  {
  }

  /** A record that went through leaves its team row, and `costs` gained at most one
      row, which holds the service row's id, the project and team ids only where those
      rows were new (RETURNING yields nothing for an existing name), its cost and its day. */
  lemma RecordStepWritesCost(db: Db, r: BillingRow, env: Env, i: nat)
    requires RecordStep(db, r, env, i).StepOk?
    ensures r.labels.Some?
    ensures var t := RecordStep(db, r, env, i).db.tables;
      && KeyOf(r) in t.services && r.projectName in t.projects && TeamOf(r, env, i) in t.teams
      && (t.costs == db.tables.costs
          || t.costs == db.tables.costs + [CostRow(db.serials.cost,
               Some(t.services[KeyOf(r)].id),
               if r.projectName in db.tables.projects then None else Some(t.projects[r.projectName]),
               if TeamOf(r, env, i) in db.tables.teams then None else Some(t.teams[TeamOf(r, env, i)]),
               r.cost, DayOf(r, env))])
  {
    var day := DayOf(r, env);
    var service := InsertService(db, KeyOf(r), r.cost, Text(day), DoUpdateCost);
    var project := InsertName(service.db, Projects, r.projectName);
    var team := InsertName(project.db, Teams, TeamOf(r, env, i));
    var written := InsertCost(team.db, service.id, project.id, team.id, r.cost, day, SkipOnConflict);
    if written.db.tables.costs != db.tables.costs {
      assert written.db.tables.costs == db.tables.costs + [CostRow(db.serials.cost, service.id, project.id, team.id, r.cost, day)];
    }
  }

  /** The project upsert's DO NOTHING returns no id for a project name already stored,
      so a cost row written for such a record carries a NULL project id and `/api/costs`
      shows its project as 'Unknown'. */
  lemma RepeatedProjectReadsUnknown(db: Db, r: BillingRow, env: Env, i: nat)
    requires Valid(db) && RecordStep(db, r, env, i).StepOk? && r.projectName in db.tables.projects
    requires |RecordStep(db, r, env, i).db.tables.costs| > |db.tables.costs|
    ensures var t := RecordStep(db, r, env, i).db.tables;
      Valid(RecordStep(db, r, env, i).db) && ApiCosts(t)[|db.tables.costs|].projectName == "Unknown"
  {
    RecordStepWritesCost(db, r, env, i);
    RecordStepKeepsValid(db, r, env, i);
    var d := RecordStep(db, r, env, i).db;
    ApiCostsUnknownOnlyForNull(d, |db.tables.costs|);
  }

  /** From a state with the schema's integrity every labelled record adds one cost row,
      so ON CONFLICT DO NOTHING never skips one: the project upsert returns no id for a
      stored project name, and a NULL id never meets the unique key, while a new project
      gets the value its sequence just handed out, which no stored cost row carries. */
  lemma RecordStepAlwaysWrites(db: Db, r: BillingRow, env: Env, i: nat)
    requires Valid(db) && r.labels.Some?
    ensures RecordStep(db, r, env, i).StepOk?
    ensures |RecordStep(db, r, env, i).db.tables.costs| == |db.tables.costs| + 1
  {
    RecordStepFailsOnlyWithoutLabels(db, r, env, i);
    var day := DayOf(r, env);
    var service := InsertService(db, KeyOf(r), r.cost, Text(day), DoUpdateCost);
    var project := InsertName(service.db, Projects, r.projectName);
    var team := InsertName(project.db, Teams, TeamOf(r, env, i));
    assert team.db.tables.services[KeyOf(r)].id == service.id.value;
    var row := CostRow(team.db.serials.cost, service.id, project.id, team.id, r.cost, day);
    assert ReferencesExist(team.db.tables, row);
    if project.id.Some? {
      UnissuedProjectIdTakesNoKey(service.db, team.db, row);
    }
  }

  function StepOf(env: Env): (Db, BillingRow, nat) -> StepResult {
    (d: Db, r: BillingRow, i: nat) => RecordStep(d, r, env, i)
  }

  lemma StepOfKeepsValid(env: Env)
    ensures StepKeepsValid(StepOf(env))
    ensures Keeps(StepOf(env), Valid)
  {
    forall d: Db, r: BillingRow, i: nat {
      RecordStepKeepsValid(d, r, env, i);
    }
  }

  /** `i` is the first record without labels. */
  predicate FirstMissingLabels(data: seq<BillingRow>, i: nat) {
    i < |data| && data[i].labels.None? && forall j :: 0 <= j < i ==> data[j].labels.Some?
  }

  /** The loop stops exactly at the first record without labels. */
  lemma RunStopsAtMissingLabels(db: Db, data: seq<BillingRow>, env: Env)
    ensures RunBatch(db, data, StepOf(env)).Done? <==> forall i :: 0 <= i < |data| ==> data[i].labels.Some?
    ensures RunBatch(db, data, StepOf(env)).Failed? ==> FirstMissingLabels(data, RunBatch(db, data, StepOf(env)).at)
  {
    var step := StepOf(env);
    var fails := (r: BillingRow) => r.labels.None?;
    forall d: Db, r: BillingRow, i: nat
      ensures step(d, r, i).StepFailed? <==> fails(r)
    {
      RecordStepFailsOnlyWithoutLabels(d, r, env, i);
    }
    var anyState := (d: Db) => true;
    assert Keeps(step, anyState);
    RunStopsAtFirstFailing(db, data, step, fails, anyState);
  }

  datatype Outcome = NoData | Committed | RolledBack(failedAt: nat)

  datatype Reconciliation = Reconciliation(outcome: Outcome, db: Db)

  /** insertDataToDB: an empty batch returns before anything is touched; otherwise the
      loop runs inside one transaction and is committed when every record went through,
      or rolled back, tables and all, at the first record that threw. */
  function Reconcile(db: Db, data: seq<BillingRow>, env: Env): (r: Reconciliation)
    ensures data == [] ==> r == Reconciliation(NoData, db)
    ensures r.outcome.Committed? <==> data != [] && forall i :: 0 <= i < |data| ==> data[i].labels.Some?
    ensures r.outcome.RolledBack? ==> FirstMissingLabels(data, r.outcome.failedAt) && r.db.tables == db.tables
    ensures Valid(db) ==> (Valid(r.db) && Extends(r.db.tables, db.tables)
                           && r.db.costKeyUnique == db.costKeyUnique && SerialsAtLeast(r.db.serials, db.serials))
  {
    if data == [] then
      Reconciliation(NoData, db)
    else
      var b := RunBatch(db, data, StepOf(env));
      RunStopsAtMissingLabels(db, data, env);
      RunKeepsValid(db, data, env);
      match b
      case Done(d) => Reconciliation(Committed, d)
      case Failed(k, d) => Reconciliation(RolledBack(k), d.(tables := db.tables))
  }

  /** Unfolds `Reconcile` for a non-empty batch, so that the method below can be tied to
      it; a helper whose ensures repeats the function's body on purpose. */
  lemma ReconcileOfRun(db: Db, data: seq<BillingRow>, env: Env)
    requires data != []
    ensures Reconcile(db, data, env) ==
      match RunBatch(db, data, StepOf(env))
      case Done(d) => Reconciliation(Committed, d)
      case Failed(k, d) => Reconciliation(RolledBack(k), d.(tables := db.tables))
  {
  }

  /** A one-record batch with labels commits exactly what its record's statements wrote. */
  lemma ReconcileOne(db: Db, r: BillingRow, env: Env)
    requires r.labels.Some?
    ensures RecordStep(db, r, env, 0).StepOk?
    ensures Reconcile(db, [r], env) == Reconciliation(Committed, RecordStep(db, r, env, 0).db)
  {
    RecordStepFailsOnlyWithoutLabels(db, r, env, 0);
    var data := [r];
    assert data[..0] == [] && data[..1] == data;
    assert RunBatch(db, data[..0], StepOf(env)) == Done(db);
    RunBatchNext(db, data, StepOf(env), 0);
    assert StepOf(env)(db, r, 0) == RecordStep(db, r, env, 0);
    ReconcileOfRun(db, data, env);
  }

  /** Running the same batch twice stores its cost again: the second run finds the project
      name stored, so its cost row carries a NULL project id, which the unique key of
      `costs` never matches, whether or not that key exists. */
  lemma RerunDuplicatesCosts(db: Db, r: BillingRow, env: Env)
    requires Valid(db) && r.labels.Some?
    ensures var first := Reconcile(db, [r], env); var second := Reconcile(first.db, [r], env);
      && first.outcome.Committed? && second.outcome.Committed?
      && |second.db.tables.costs| == |first.db.tables.costs| + 1
  {
    ReconcileOne(db, r, env);
    var first := Reconcile(db, [r], env);
    RecordStepUpserts(db, r, env, 0);
    ReconcileOne(first.db, r, env);
    RecordStepAlwaysWrites(first.db, r, env, 0);
  }

  /** From a state with the schema's integrity a committed batch adds exactly one cost row
      per record after the rows already stored, and a rolled-back batch adds none. */
  lemma ReconcileWritesEveryRecord(db: Db, data: seq<BillingRow>, env: Env)
    requires Valid(db)
    ensures var r := Reconcile(db, data, env);
      r.outcome.Committed? ==> |r.db.tables.costs| == |db.tables.costs| + |data| && db.tables.costs <= r.db.tables.costs
    ensures var r := Reconcile(db, data, env);
      !r.outcome.Committed? ==> r.db.tables.costs == db.tables.costs
  {
    if data != [] {
      var step := StepOf(env);
      forall d: Db, r: BillingRow, i: nat
        ensures Valid(d) ==> var d' := step(d, r, i).db;
          if step(d, r, i).StepOk? then |d'.tables.costs| == |d.tables.costs| + 1 else d'.tables.costs == d.tables.costs
      {
        if Valid(d) && r.labels.Some? {
          RecordStepAlwaysWrites(d, r, env, i);
        }
      }
      StepOfKeepsValid(env);
      RunBatchCountsCosts(db, data, step, Valid);
      ReconcileOfRun(db, data, env);
    }
  }

  lemma RunKeepsValid(db: Db, data: seq<BillingRow>, env: Env)
    ensures Grows(db, RunBatch(db, data, StepOf(env)).db)
    ensures Valid(db) ==> Valid(RunBatch(db, data, StepOf(env)).db.(tables := db.tables))
  {
    StepOfKeepsValid(env);
    RunBatchKeepsValid(db, data, StepOf(env));
    if Valid(db) {
      var d := RunBatch(db, data, StepOf(env)).db;
      ValidUnderLaterSerials(db.tables, db.serials, d.serials, db.costKeyUnique);
    }
  }

  /** The body of the loop for record `i`: false when one of its steps threw. */
  method ProcessRecord(db: Database, r: BillingRow, env: Env, i: nat) returns (ok: bool)
    requires db.Valid()
    modifies db
    ensures db.Valid() && db.snapshot == old(db.snapshot) && db.checkedOut == old(db.checkedOut)
    ensures RecordStep(old(db.Value()), r, env, i) == if ok then StepOk(db.Value()) else StepFailed(db.Value())
  {
    var day := FormattedDate(r.usageStartTime, env.toIso, env.nowIso);
    var serviceId := db.InsertService(ServiceKey(r.serviceName, r.providerName), r.cost, Text(day), DoUpdateCost);
    var projectId := db.InsertName(Projects, r.projectName);
    if r.labels.None? {
      return false;
    }
    var teamName := OwnerTeam(r.labels.value, env.roll(i));
    var teamId := db.InsertName(Teams, teamName);
    var error := db.InsertCost(serviceId, projectId, teamId, r.cost, day, SkipOnConflict);
    ok := error.None?;
  }

  /** One turn of the loop below: record `i` either extends the completed prefix or ends
      the whole run at `i`. */
  lemma RunRecordsNext(start: Db, data: seq<BillingRow>, env: Env, i: nat, before: Db, after: Db, ok: bool)
    requires i < |data| && RunBatch(start, data[..i], StepOf(env)) == Done(before)
    requires RecordStep(before, data[i], env, i) == if ok then StepOk(after) else StepFailed(after)
    ensures ok ==> RunBatch(start, data[..i + 1], StepOf(env)) == Done(after)
    ensures !ok ==> RunBatch(start, data, StepOf(env)) == Failed(i, after)
  {
    RunBatchNext(start, data, StepOf(env), i);
    assert StepOf(env)(before, data[i], i) == RecordStep(before, data[i], env, i);
    if !ok {
      FailureIsFinal(start, data, StepOf(env), i + 1);
    }
  }

  /** The `for` loop of insertDataToDB inside the open transaction: it stops at the
      first record that throws and returns its index. */
  method RunRecords(db: Database, data: seq<BillingRow>, env: Env) returns (failedAt: Option<nat>)
    requires db.Valid()
    modifies db
    ensures db.Valid() && db.snapshot == old(db.snapshot) && db.checkedOut == old(db.checkedOut)
    ensures failedAt.Some? ==> RunBatch(old(db.Value()), data, StepOf(env)) == Failed(failedAt.value, db.Value())
    ensures failedAt.None? ==> RunBatch(old(db.Value()), data, StepOf(env)) == Done(db.Value())
  {
    ghost var start := db.Value();
    var i := 0;
    failedAt := None;
    while i < |data| && failedAt.None?
      invariant 0 <= i <= |data|
      invariant db.Valid() && db.snapshot == old(db.snapshot) && db.checkedOut == old(db.checkedOut)
      invariant failedAt.None? ==> RunBatch(start, data[..i], StepOf(env)) == Done(db.Value())
      invariant failedAt.Some? ==> RunBatch(start, data, StepOf(env)) == Failed(failedAt.value, db.Value())
    {
      ghost var before := db.Value();
      var ok := ProcessRecord(db, data[i], env, i);
      RunRecordsNext(start, data, env, i, before, db.Value(), ok);
      if !ok {
        failedAt := Some(i);
      }
      i := i + 1;
    }
    if failedAt.None? {
      assert data[..i] == data;
    }
  }

  /** insertDataToDB run against the database object: one client is taken from the pool
      and released again on every path, the loop runs between BEGIN and COMMIT, and the
      first record that throws sends the whole batch to ROLLBACK. */
  method InsertDataToDB(db: Database, data: seq<BillingRow>, env: Env) returns (outcome: Outcome)
    requires db.Valid() && db.snapshot.None?
    modifies db
    ensures db.Valid() && db.snapshot.None? && db.checkedOut == old(db.checkedOut)
    ensures Reconciliation(outcome, db.Value()) == Reconcile(old(db.Value()), data, env)
  {
    if |data| == 0 {
      return NoData;
    }
    db.Connect();
    db.Begin();
    var failedAt := RunRecords(db, data, env);
    ReconcileOfRun(old(db.Value()), data, env);
    if failedAt.Some? {
      db.Rollback();
      outcome := RolledBack(failedAt.value);
    } else {
      db.Commit();
      outcome := Committed;
    }
    db.Release();
  }
}
