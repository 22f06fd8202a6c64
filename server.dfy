/**
 * The two database handlers of the backend server: `/load-mock-data`, which loads the
 * mock billing table record by record with no transaction, and `/api/costs`, which
 * reads every cost row back with its service, project and team names.
 */
module Server {
  import opened Schema
  import opened Dates
  import opened Labels
  import opened Batches
  import opened Postgres

  /** A row of the mock billing table. `service` and `project` are the descriptions of
      the nested `service` and `project` objects, None when that object is missing;
      `labels` is None when the record has no `labels` array. */
  datatype MockRecord = MockRecord(service: Option<string>, sellerName: Option<string>, project: Option<string>,
                                   cost: int, usageStartTime: Timestamp, labels: Option<seq<Label>>)

  function MockKey(r: MockRecord): ServiceKey
    requires r.service.Some?
  {
    ServiceKey(r.service.value, MockProvider(r.sellerName))
  }

  /** The record reaches the cost insert: both nested objects and `labels` are there and
      its start time makes a valid date. */
  predicate WellFormed(r: MockRecord, toIso: string -> Option<string>) {
    r.service.Some? && r.project.Some? && r.labels.Some? && MockDay(r.usageStartTime, toIso).Some?
  }

  /** One pass of the loop body for a mock record, statement by statement. Reading a
      field of a missing object throws before the statement that needs it, and the
      cost row's date is computed, and may throw, before its INSERT is sent. */
  function MockStep(db: Db, r: MockRecord, toIso: string -> Option<string>): (res: StepResult)
    ensures !WellFormed(r, toIso) ==> res.StepFailed? && res.db.tables.costs == db.tables.costs
    ensures res.db.serials.cost == db.serials.cost + (if WellFormed(r, toIso) then 1 else 0)
    ensures res.db.costKeyUnique == db.costKeyUnique
  {
    if r.service.None? then StepFailed(db)
    else
      var service := InsertService(db, MockKey(r), r.cost, AsParameter(r.usageStartTime), DoNothing);
      if r.project.None? then StepFailed(service.db)
      else
        var project := InsertName(service.db, Projects, r.project.value);
        if r.labels.None? then StepFailed(project.db)
        else
          var team := InsertName(project.db, Teams, MockTeam(r.labels.value));
          match MockDay(r.usageStartTime, toIso)
          case None => StepFailed(team.db)
          case Some(day) =>
            var written := InsertCost(team.db, service.id, project.id, team.id, r.cost, day, NoConflictClause);
            if written.error.Some? then StepFailed(written.db) else StepOk(written.db)
  }

  /** A malformed record always throws. Since the ids a well-formed record passes always
      name existing rows, only the optional unique key of `costs` could stop one, and
      from a state with the schema's integrity even that never happens
      (`WellFormedStepGoesThrough`). */
  lemma MockStepFails(db: Db, r: MockRecord, toIso: string -> Option<string>)
    ensures !WellFormed(r, toIso) ==> MockStep(db, r, toIso).StepFailed?
    ensures WellFormed(r, toIso) && MockStep(db, r, toIso).StepFailed? ==> db.costKeyUnique
  {
    if WellFormed(r, toIso) {
      var day := MockDay(r.usageStartTime, toIso).value;
      var service := InsertService(db, MockKey(r), r.cost, AsParameter(r.usageStartTime), DoNothing);
      var project := InsertName(service.db, Projects, r.project.value);
      var team := InsertName(project.db, Teams, MockTeam(r.labels.value));
      var row := CostRow(team.db.serials.cost, service.id, project.id, team.id, r.cost, day);
      assert ReferencesExist(team.db.tables, row);
    }
  }

  /** From a state with the schema's integrity a well-formed record always goes through
      and adds one cost row: its project id is NULL when the project row was already
      there, and otherwise the value the project sequence just handed out, which no
      stored cost row carries, so the unique key of `costs` never matches it. */
  lemma WellFormedStepGoesThrough(db: Db, r: MockRecord, toIso: string -> Option<string>)
    requires Valid(db) && WellFormed(r, toIso)
    ensures MockStep(db, r, toIso).StepOk?
    ensures |MockStep(db, r, toIso).db.tables.costs| == |db.tables.costs| + 1
  {
    var day := MockDay(r.usageStartTime, toIso).value;
    var service := InsertService(db, MockKey(r), r.cost, AsParameter(r.usageStartTime), DoNothing);
    var project := InsertName(service.db, Projects, r.project.value);
    var team := InsertName(project.db, Teams, MockTeam(r.labels.value));
    var row := CostRow(team.db.serials.cost, service.id, project.id, team.id, r.cost, day);
    assert ReferencesExist(team.db.tables, row);
    if project.id.Some? {
      UnissuedProjectIdTakesNoKey(service.db, team.db, row);
    }
  }

  /** The DO NOTHING service insert never touches an existing service row; a new key
      gets a row with the next id, the record's cost and its raw start time. */
  lemma MockStepKeepsServices(db: Db, r: MockRecord, toIso: string -> Option<string>)
    ensures var t := MockStep(db, r, toIso).db.tables;
      && (forall k :: k in db.tables.services ==> k in t.services && t.services[k] == db.tables.services[k])
      && (r.service.Some? && MockKey(r) !in db.tables.services ==>
            MockKey(r) in t.services && t.services[MockKey(r)] == ServiceRow(db.serials.service, r.cost, AsParameter(r.usageStartTime)))
  {
    if r.service.Some? && r.project.Some? {
      var service := InsertService(db, MockKey(r), r.cost, AsParameter(r.usageStartTime), DoNothing);
      var project := InsertName(service.db, Projects, r.project.value);
      assert project.db.tables.services == service.db.tables.services;
      if r.labels.Some? {
        var team := InsertName(project.db, Teams, MockTeam(r.labels.value));
        assert team.db.tables.services == service.db.tables.services;
        if MockDay(r.usageStartTime, toIso).Some? {
          var day := MockDay(r.usageStartTime, toIso).value;
          var written := InsertCost(team.db, service.id, project.id, team.id, r.cost, day, NoConflictClause);
          assert written.db.tables.services == service.db.tables.services;
        }
      }
    }
  }

  /** A record that went through appended exactly one cost row: the service id only when
      the service row is new (DO NOTHING returns nothing otherwise), likewise the project
      and team ids, the record's cost and the day part of its start time. */
  lemma MockStepWritesCost(db: Db, r: MockRecord, toIso: string -> Option<string>)
    requires MockStep(db, r, toIso).StepOk?
    ensures WellFormed(r, toIso)
    ensures var t := MockStep(db, r, toIso).db.tables;
      var team := MockTeam(r.labels.value);
      && MockKey(r) in t.services && r.project.value in t.projects && team in t.teams
      && t.costs == db.tables.costs + [CostRow(db.serials.cost,
           if MockKey(r) in db.tables.services then None else Some(t.services[MockKey(r)].id),
           if r.project.value in db.tables.projects then None else Some(t.projects[r.project.value]),
           if team in db.tables.teams then None else Some(t.teams[team]),
           r.cost, MockDay(r.usageStartTime, toIso).value)]
  {
    var day := MockDay(r.usageStartTime, toIso).value;
    var service := InsertService(db, MockKey(r), r.cost, AsParameter(r.usageStartTime), DoNothing);
    var project := InsertName(service.db, Projects, r.project.value);
    var team := InsertName(project.db, Teams, MockTeam(r.labels.value));
    var written := InsertCost(team.db, service.id, project.id, team.id, r.cost, day, NoConflictClause);
    assert written.db.tables.costs == db.tables.costs + [CostRow(db.serials.cost, service.id, project.id, team.id, r.cost, day)];
  }

  lemma MockStepKeepsValid(db: Db, r: MockRecord, toIso: string -> Option<string>)
    ensures Grows(db, MockStep(db, r, toIso).db)
  {
    if WellFormed(r, toIso) {
      WellFormedStepGrows(db, r, toIso);
    } else {
      MalformedStepGrows(db, r, toIso);
    }
  }

  lemma WellFormedStepGrows(db: Db, r: MockRecord, toIso: string -> Option<string>)
    requires WellFormed(r, toIso)
    ensures Grows(db, MockStep(db, r, toIso).db)
  {
    var service := InsertService(db, MockKey(r), r.cost, AsParameter(r.usageStartTime), DoNothing);
    var project := InsertName(service.db, Projects, r.project.value);
    var team := InsertName(project.db, Teams, MockTeam(r.labels.value));
    var day := MockDay(r.usageStartTime, toIso).value;
    var written := InsertCost(team.db, service.id, project.id, team.id, r.cost, day, NoConflictClause);
    InsertServiceGrows(db, MockKey(r), r.cost, AsParameter(r.usageStartTime), DoNothing);
    InsertNameGrows(service.db, Projects, r.project.value);
    InsertNameGrows(project.db, Teams, MockTeam(r.labels.value));
    InsertCostGrows(team.db, service.id, project.id, team.id, r.cost, day, NoConflictClause);
    GrowsAlongFour(db, service.db, project.db, team.db, written.db);
  }

  lemma MalformedStepGrows(db: Db, r: MockRecord, toIso: string -> Option<string>)
    requires !WellFormed(r, toIso)
    ensures Grows(db, MockStep(db, r, toIso).db)
  {
    if r.service.None? {
      ExtendsReflexive(db.tables);
    } else {
      var service := InsertService(db, MockKey(r), r.cost, AsParameter(r.usageStartTime), DoNothing);
      InsertServiceGrows(db, MockKey(r), r.cost, AsParameter(r.usageStartTime), DoNothing);
      if r.project.Some? {
        var project := InsertName(service.db, Projects, r.project.value);
        InsertNameGrows(service.db, Projects, r.project.value);
        GrowsTransitive(db, service.db, project.db);
        if r.labels.Some? {
          var team := InsertName(project.db, Teams, MockTeam(r.labels.value));
          InsertNameGrows(project.db, Teams, MockTeam(r.labels.value));
          GrowsTransitive(db, project.db, team.db);
        }
      }
    }
  }

  function MockStepOf(toIso: string -> Option<string>): (Db, MockRecord, nat) -> StepResult {
    (d: Db, r: MockRecord, i: nat) => MockStep(d, r, toIso)
  }

  lemma MockStepOfKeepsValid(toIso: string -> Option<string>)
    ensures StepKeepsValid(MockStepOf(toIso))
    ensures Keeps(MockStepOf(toIso), Valid)
  {
    var step := MockStepOf(toIso);
    forall d: Db, r: MockRecord, i: nat
      ensures Grows(d, step(d, r, i).db)
    {
      MockStepKeepsValid(d, r, toIso);
    }
  }

  lemma MockStepOfAppendsOne(toIso: string -> Option<string>, P: Db -> bool)
    ensures StepAppendsOne(MockStepOf(toIso), P)
  {
    var step := MockStepOf(toIso);
    forall d: Db, r: MockRecord, i: nat
      ensures P(d) ==> var d' := step(d, r, i).db;
        if step(d, r, i).StepOk? then |d'.tables.costs| == |d.tables.costs| + 1 else d'.tables.costs == d.tables.costs
    {
      if MockStep(d, r, toIso).StepOk? {
        MockStepWritesCost(d, r, toIso);
      }
    }
  }

  /** The handler's answer: the "loaded" message, or status 500 after record `failedAt`
      threw. */
  datatype Response = Loaded | ServerError(failedAt: nat)

  datatype MockLoad = MockLoad(response: Response, db: Db)

  /** `/load-mock-data`: the records are inserted in order with every statement committed
      on its own; the first record that throws ends the loop with a 500. A run answers 200
      only if every record was well-formed, and never gets past a malformed record. */
  function LoadMockData(db: Db, data: seq<MockRecord>, toIso: string -> Option<string>): (r: MockLoad)
    ensures r.response.Loaded? ==> forall i :: 0 <= i < |data| ==> WellFormed(data[i], toIso)
    ensures r.response.ServerError? ==>
      && r.response.failedAt < |data|
      && forall j :: 0 <= j < |data| && !WellFormed(data[j], toIso) ==> r.response.failedAt <= j
  {
    var b := RunBatch(db, data, MockStepOf(toIso));
    MockLoadStopsAtMalformed(db, data, toIso);
    match b
    case Done(d) => MockLoad(Loaded, d)
    case Failed(k, d) => MockLoad(ServerError(k), d)
  }

  lemma MockLoadStopsAtMalformed(db: Db, data: seq<MockRecord>, toIso: string -> Option<string>)
    ensures var b := RunBatch(db, data, MockStepOf(toIso));
      && (b.Done? ==> forall i :: 0 <= i < |data| ==> WellFormed(data[i], toIso))
      && (b.Failed? ==> forall j :: 0 <= j < |data| && !WellFormed(data[j], toIso) ==> b.at <= j)
  {
    var step := MockStepOf(toIso);
    var fails := (r: MockRecord) => !WellFormed(r, toIso);
    forall d: Db, r: MockRecord, i: nat
      ensures fails(r) ==> step(d, r, i).StepFailed?
    {
      MockStepFails(d, r, toIso);
    }
    RunStopsNoLaterThan(db, data, step, fails);
  }

  /** Without a unique key on `costs`, the run can only stop at a malformed record,
      whatever state it starts from. With the key, the same holds from a state with the
      schema's integrity (`LoadMockDataFromValid`). */
  lemma LoadMockDataFailsOnlyOnMalformed(db: Db, data: seq<MockRecord>, toIso: string -> Option<string>)
    ensures var r := LoadMockData(db, data, toIso);
      r.response.ServerError? && WellFormed(data[r.response.failedAt], toIso) ==> db.costKeyUnique
  {
    var step := MockStepOf(toIso);
    var b := RunBatch(db, data, step);
    if b.Failed? {
      FailedAtFirstFailingStep(db, data, step);
      var before := RunBatch(db, data[..b.at], step).db;
      MockStepOfKeepsValid(toIso);
      RunBatchKeepsValid(db, data[..b.at], step);
      MockStepFails(before, data[b.at], toIso);
    }
  }

  /** From a state with the schema's integrity the handler answers 200 exactly when every
      record is well-formed, and a 500 names the first malformed record: no well-formed
      record is ever refused, whether or not `costs` has its unique key. */
  lemma LoadMockDataFromValid(db: Db, data: seq<MockRecord>, toIso: string -> Option<string>)
    requires Valid(db)
    ensures var r := LoadMockData(db, data, toIso);
      r.response.Loaded? <==> forall i :: 0 <= i < |data| ==> WellFormed(data[i], toIso)
    ensures var r := LoadMockData(db, data, toIso);
      r.response.ServerError? ==>
        var k := r.response.failedAt;
        !WellFormed(data[k], toIso) && forall j :: 0 <= j < k ==> WellFormed(data[j], toIso)
  {
    var step := MockStepOf(toIso);
    var fails := (r: MockRecord) => !WellFormed(r, toIso);
    forall d: Db, r: MockRecord, i: nat
      ensures Valid(d) ==> (step(d, r, i).StepFailed? <==> fails(r))
    {
      MockStepFails(d, r, toIso);
      if Valid(d) && WellFormed(r, toIso) {
        WellFormedStepGoesThrough(d, r, toIso);
      }
    }
    MockStepOfKeepsValid(toIso);
    RunStopsAtFirstFailing(db, data, step, fails, Valid);
  }

  /** No transaction: after a 500 at record `k`, every row written for the records before
      `k` is still there, and so is what record `k`'s own earlier statements wrote. */
  lemma LoadMockDataKeepsPartialWrites(db: Db, data: seq<MockRecord>, toIso: string -> Option<string>)
    requires Valid(db)
    ensures var r := LoadMockData(db, data, toIso);
      r.response.ServerError? ==>
        var k := r.response.failedAt;
        && RunBatch(db, data[..k], MockStepOf(toIso)).Done?
        && r.db == MockStep(RunBatch(db, data[..k], MockStepOf(toIso)).db, data[k], toIso).db
        && Extends(r.db.tables, RunBatch(db, data[..k], MockStepOf(toIso)).db.tables)
  {
    var step := MockStepOf(toIso);
    var b := RunBatch(db, data, step);
    if b.Failed? {
      FailedAtFirstFailingStep(db, data, step);
      var before := RunBatch(db, data[..b.at], step).db;
      MockStepOfKeepsValid(toIso);
      RunBatchKeepsValid(db, data[..b.at], step);
      MockStepKeepsValid(before, data[b.at], toIso);
    }
  }

  /** Each record that got through added exactly one cost row, so a 200 adds one row per
      record and a 500 at record `k` adds `k` rows; all earlier rows are kept, and the
      schema's integrity holds throughout. */
  lemma LoadMockDataAppends(db: Db, data: seq<MockRecord>, toIso: string -> Option<string>)
    ensures var r := LoadMockData(db, data, toIso);
      |r.db.tables.costs| == |db.tables.costs| + (if r.response.ServerError? then r.response.failedAt else |data|)
    ensures var r := LoadMockData(db, data, toIso);
      Valid(db) ==> Valid(r.db) && Extends(r.db.tables, db.tables)
  {
    var anyState := (d: Db) => true;
    MockStepOfAppendsOne(toIso, anyState);
    assert Keeps(MockStepOf(toIso), anyState);
    RunBatchCountsCosts(db, data, MockStepOf(toIso), anyState);
    MockStepOfKeepsValid(toIso);
    RunBatchKeepsValid(db, data, MockStepOf(toIso));
  }

  /** The loop body for one mock record: false when one of its steps threw. */
  method ProcessMockRecord(db: Database, r: MockRecord, toIso: string -> Option<string>) returns (ok: bool)
    requires db.Valid()
    modifies db
    ensures db.Valid() && db.snapshot == old(db.snapshot) && db.checkedOut == old(db.checkedOut)
    ensures MockStep(old(db.Value()), r, toIso) == if ok then StepOk(db.Value()) else StepFailed(db.Value())
  {
    if r.service.None? {
      return false;
    }
    var serviceId := db.InsertService(ServiceKey(r.service.value, MockProvider(r.sellerName)), r.cost,
                                      AsParameter(r.usageStartTime), DoNothing);
    if r.project.None? {
      return false;
    }
    var projectId := db.InsertName(Projects, r.project.value);
    if r.labels.None? {
      return false;
    }
    var teamId := db.InsertName(Teams, MockTeam(r.labels.value));
    var day := MockDay(r.usageStartTime, toIso);
    if day.None? {
      return false;
    }
    var error := db.InsertCost(serviceId, projectId, teamId, r.cost, day.value, NoConflictClause);
    ok := error.None?;
  }

  /** The `/load-mock-data` handler run against the database object, each statement on
      its own outside any transaction. */
  method HandleLoadMockData(db: Database, data: seq<MockRecord>, toIso: string -> Option<string>) returns (response: Response)
    requires db.Valid()
    modifies db
    ensures db.Valid() && db.snapshot == old(db.snapshot) && db.checkedOut == old(db.checkedOut)
    ensures MockLoad(response, db.Value()) == LoadMockData(old(db.Value()), data, toIso)
  {
    ghost var start := db.Value();
    var i := 0;
    var failedAt: Option<nat> := None;
    while i < |data| && failedAt.None?
      invariant 0 <= i <= |data|
      invariant db.Valid() && db.snapshot == old(db.snapshot) && db.checkedOut == old(db.checkedOut)
      invariant failedAt.None? ==> RunBatch(start, data[..i], MockStepOf(toIso)) == Done(db.Value())
      invariant failedAt.Some? ==> RunBatch(start, data, MockStepOf(toIso)) == Failed(failedAt.value, db.Value())
    {
      ghost var before := db.Value();
      var ok := ProcessMockRecord(db, data[i], toIso);
      RunBatchNext(start, data, MockStepOf(toIso), i);
      assert MockStepOf(toIso)(before, data[i], i) == MockStep(before, data[i], toIso);
      if !ok {
        failedAt := Some(i);
        FailureIsFinal(start, data, MockStepOf(toIso), i + 1);
      }
      i := i + 1;
    }
    if failedAt.Some? {
      response := ServerError(failedAt.value);
    } else {
      assert data[..i] == data;
      response := Loaded;
    }
  }

  /** A row of `/api/costs`. */
  datatype CostView = CostView(serviceName: string, projectName: string, teamName: string,
                               cost: int, date: string, providerName: string)

  /** COALESCE(x, 'Unknown'). */
  function OrUnknown(name: Option<string>): (s: string)
    ensures name.Some? ==> s == name.value
    ensures name.None? ==> s == "Unknown"
  {
    if name.Some? then name.value else "Unknown"
  }

  /** A cost row LEFT JOINed with its service, project and team. */
  function View(t: Tables, c: CostRow): (v: CostView)
    requires ServiceIdsInjective(t.services) && NameIdsInjective(t.projects) && NameIdsInjective(t.teams)
    ensures v.cost == c.cost && v.date == c.date
    ensures var s := ServiceWithId(t, c.serviceId);
      && v.serviceName == OrUnknown(if s.Some? then Some(s.value.serviceName) else None)
      && v.providerName == OrUnknown(if s.Some? then Some(s.value.providerName) else None)
    ensures v.projectName == OrUnknown(NameWithId(t.projects, c.projectId))
    ensures v.teamName == OrUnknown(NameWithId(t.teams, c.teamId))
  {
    var s := ServiceWithId(t, c.serviceId);
    CostView(OrUnknown(if s.Some? then Some(s.value.serviceName) else None),
             OrUnknown(NameWithId(t.projects, c.projectId)),
             OrUnknown(NameWithId(t.teams, c.teamId)),
             c.cost, c.date,
             OrUnknown(if s.Some? then Some(s.value.providerName) else None))
  }

  /** `/api/costs`: one row per cost row, in table order, the LEFT JOINs never dropping one. */
  function ApiCosts(t: Tables): (rows: seq<CostView>)
    requires ServiceIdsInjective(t.services) && NameIdsInjective(t.projects) && NameIdsInjective(t.teams)
    ensures |rows| == |t.costs|
    ensures forall i :: 0 <= i < |t.costs| ==> rows[i] == View(t, t.costs[i])
  {
    seq(|t.costs|, i requires 0 <= i < |t.costs| => View(t, t.costs[i]))
  }

  /** In a consistent database a row shows 'Unknown' for its service, project or team
      exactly when that id is NULL (or the name really is 'Unknown'); a non-NULL id
      always shows the name of the row it refers to. */
  lemma ApiCostsUnknownOnlyForNull(db: Db, i: nat)
    requires Valid(db) && i < |db.tables.costs|
    ensures var t := db.tables; var c := t.costs[i]; var v := ApiCosts(t)[i];
      && (c.serviceId.None? ==> v.serviceName == "Unknown" && v.providerName == "Unknown")
      && (c.serviceId.Some? ==> exists k :: k in t.services && t.services[k].id == c.serviceId.value
                                  && v.serviceName == k.serviceName && v.providerName == k.providerName)
      && (c.projectId.None? <==> NameWithId(t.projects, c.projectId).None?)
      && (c.projectId.Some? ==> v.projectName in t.projects && t.projects[v.projectName] == c.projectId.value)
      && (c.teamId.None? <==> NameWithId(t.teams, c.teamId).None?)
      && (c.teamId.Some? ==> v.teamName in t.teams && t.teams[v.teamName] == c.teamId.value)
  {
    var t := db.tables;
    assert ReferencesExist(t, t.costs[i]);
  }

  /** The mock load's DO NOTHING returns no id for a service it already knows, so every
      later record of that service is stored with a NULL service id and `/api/costs`
      shows it with service and provider 'Unknown'. */
  lemma MockRepeatedServiceReadsUnknown(db: Db, r: MockRecord, toIso: string -> Option<string>)
    requires Valid(db) && MockStep(db, r, toIso).StepOk?
    requires r.service.Some? && MockKey(r) in db.tables.services
    ensures var t := MockStep(db, r, toIso).db.tables;
      && Valid(MockStep(db, r, toIso).db)
      && |t.costs| == |db.tables.costs| + 1
      && ApiCosts(t)[|db.tables.costs|].serviceName == "Unknown"
      && ApiCosts(t)[|db.tables.costs|].providerName == "Unknown"
  {
    MockStepWritesCost(db, r, toIso);
    MockStepKeepsValid(db, r, toIso);
    var d := MockStep(db, r, toIso).db;
    ApiCostsUnknownOnlyForNull(d, |db.tables.costs|);
  }
}
