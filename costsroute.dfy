/**
 * The GET handler of the costs router: it assembles a parameterised query from the
 * request's `provider`, `sort` and `order`, and the database answers it with the cost
 * rows whose service, project and team all exist.
 */
module CostsRoute {
  import opened Schema
  import opened Server

  /** A query-string value is truthy when it is present and not the empty string. */
  predicate Truthy(v: Option<string>) {
    v.Some? && v.value != ""
  }

  /** The fixed SELECT over `costs` inner-joined with `services`, `projects` and `teams`. */
  const BaseQuery: string :=
    "SELECT s.provider_name, s.service_name, p.project_name, t.team_name, c.cost, c.date"
    + " FROM costs c JOIN services s ON c.service_id = s.id"
    + " JOIN projects p ON c.project_id = p.id JOIN teams t ON c.team_id = t.id"

  const WhereClause: string := " WHERE s.provider_name = $1"

  /** The whitelist of sortable fields, looked up among its own two entries only. */
  function SortField(sort: string): (column: Option<string>)
    ensures column.Some? <==> sort == "cost" || sort == "project"
    ensures sort == "cost" ==> column == Some("c.cost")
    ensures sort == "project" ==> column == Some("p.project_name")
  {
    if sort == "cost" then Some("c.cost")
    else if sort == "project" then Some("p.project_name")
    else None
  }

  /** `order === "desc" ? "DESC" : "ASC"`. */
  function Direction(order: Option<string>): (dir: string)
    ensures dir == "DESC" <==> order == Some("desc")
    ensures dir == "ASC" <==> order != Some("desc")
  {
    if order == Some("desc") then "DESC" else "ASC"
  }

  /** What the sort step appends: an ORDER BY on a whitelisted column, or nothing. */
  function OrderClause(sort: Option<string>, order: Option<string>): (clause: string)
    ensures clause == "" <==> !(sort == Some("cost") || sort == Some("project"))
    ensures clause != "" ==> clause == " ORDER BY " + SortField(sort.value).value + " " + Direction(order)
  {
    if Truthy(sort) && SortField(sort.value).Some? then
      " ORDER BY " + SortField(sort.value).value + " " + Direction(order)
    else
      ""
  }

  /** The query the handler would send with the whitelist looked up among its own
      entries only. */
  function QueryText(provider: Option<string>, sort: Option<string>, order: Option<string>): (query: string)
    ensures BaseQuery <= query
  {
    BaseQuery + (if Truthy(provider) then WhereClause else "") + OrderClause(sort, order)
  }

  function QueryParams(provider: Option<string>): (params: seq<string>)
    ensures !Truthy(provider) ==> params == []
    ensures Truthy(provider) ==> params == [provider.value]
  {
    if Truthy(provider) then [provider.value] else []
  }

  /** What the sort step appends as written: an ORDER BY on whatever `validSortFields[sort]`
      finds, inherited members included. It differs from OrderClause only for those. */
  function OrderClauseAsWritten(sort: Option<string>, order: Option<string>): (clause: string)
    ensures clause == "" <==> !(sort.Some? && (sort.value == "cost" || sort.value == "project" || sort.value in InheritedMembers))
    ensures clause != "" ==> clause == " ORDER BY " + SortFieldAsWritten(sort.value).value + " " + Direction(order)
    ensures sort.None? || sort.value !in InheritedMembers ==> clause == OrderClause(sort, order)
  {
    if Truthy(sort) && SortFieldAsWritten(sort.value).Some? then
      " ORDER BY " + SortFieldAsWritten(sort.value).value + " " + Direction(order)
    else
      ""
  }

  /** The query the handler sends. It is QueryText except for a `sort` naming an inherited
      member. */
  function QueryTextAsWritten(provider: Option<string>, sort: Option<string>, order: Option<string>): (query: string)
    ensures BaseQuery <= query
    ensures sort.None? || sort.value !in InheritedMembers ==> query == QueryText(provider, sort, order)
  {
    BaseQuery + (if Truthy(provider) then WhereClause else "") + OrderClauseAsWritten(sort, order)
  }

  /** The handler's query assembly: `query` grows by `+=` and `params` by `push`. */
  method BuildQuery(provider: Option<string>, sort: Option<string>, order: Option<string>)
    returns (query: string, params: seq<string>)
    ensures query == QueryTextAsWritten(provider, sort, order) && params == QueryParams(provider)
    ensures sort.None? || sort.value !in InheritedMembers ==> query == QueryText(provider, sort, order)
  {
    query := BaseQuery;
    params := [];
    if Truthy(provider) {
      query := query + WhereClause;
      params := params + [provider.value];
    }
    ghost var filtered := query;
    assert filtered == BaseQuery + (if Truthy(provider) then WhereClause else "");
    if Truthy(sort) {
      var column := SortFieldAsWritten(sort.value);
      if column.Some? {
        query := query + (" ORDER BY " + column.value + " " + Direction(order));
      }
    }
    assert query == filtered + OrderClauseAsWritten(sort, order);
  }

  const Filters: set<string> := {"", WhereClause}

  const Columns: set<string> := {"c.cost", "p.project_name"}

  const Orderings: set<string> :=
    {""} + set column, dir | column in Columns && dir in {"ASC", "DESC"} :: " ORDER BY " + column + " " + dir

  /** The texts the handler can send: the SELECT, optionally filtered by provider,
      optionally ordered on one of the two columns in one of the two directions. */
  predicate IsFixedQuery(query: string) {
    exists w, o | w in Filters && o in Orderings :: query == BaseQuery + w + o
  }

  /** With the corrected whitelist the query text is one of those ten whatever the request
      says: nothing the client sends is spliced into the SQL, and the provider reaches the
      database as `$1` only. */
  lemma QueryIsFixedText(provider: Option<string>, sort: Option<string>, order: Option<string>)
    ensures IsFixedQuery(QueryText(provider, sort, order))
  {
    var w := if Truthy(provider) then WhereClause else "";
    var o := OrderClause(sort, order);
    if o != "" {
      var column, dir := SortField(sort.value).value, Direction(order);
      assert column in Columns && dir in {"ASC", "DESC"};
      assert o == " ORDER BY " + column + " " + dir;
    }
    assert o in Orderings;
  }

  /** Two requests that differ only in the provider's value send the same text, with the
      whitelist as written and as corrected. */
  lemma QueryIgnoresProviderValue(p: Option<string>, p': Option<string>, sort: Option<string>, order: Option<string>)
    requires Truthy(p) == Truthy(p')
    ensures QueryTextAsWritten(p, sort, order) == QueryTextAsWritten(p', sort, order)
    ensures QueryText(p, sort, order) == QueryText(p', sort, order)
  {
  }

  /** With a provider the filter comes straight after the SELECT and before any ORDER BY,
      with the whitelist as written and as corrected. */
  lemma WhereBeforeOrderBy(provider: Option<string>, sort: Option<string>, order: Option<string>)
    requires Truthy(provider)
    ensures QueryTextAsWritten(provider, sort, order)[..|BaseQuery| + |WhereClause|] == BaseQuery + WhereClause
    ensures QueryText(provider, sort, order)[..|BaseQuery| + |WhereClause|] == BaseQuery + WhereClause
  {
  }

  /** A whitelisted column is one of the two the SELECT can be ordered on. */
  lemma SortFieldIsColumn(sort: string)
    ensures SortField(sort).Some? ==> SortField(sort).value in Columns
  {
  }

  /** The names every plain JavaScript object inherits from `Object.prototype`. */
  const InheritedMembers: set<string> :=
    {"constructor", "hasOwnProperty", "isPrototypeOf", "propertyIsEnumerable", "toLocaleString",
     "toString", "valueOf", "__defineGetter__", "__defineSetter__", "__lookupGetter__",
     "__lookupSetter__", "__proto__"}

  /** How an inherited member reads when interpolated into a template string. */
  function InheritedText(name: string): (text: string)
    ensures name != "__proto__" ==> |text| > 0 && text[0] == 'f'
  {
    if name == "__proto__" then "[object Object]"
    else if name == "constructor" then "function Object() { [native code] }"
    else "function " + name + "() { [native code] }"
  }

  /** `validSortFields[sort]` as the handler evaluates it: a property lookup on an object
      literal, which also finds the members the literal inherits. */
  function SortFieldAsWritten(sort: string): (column: Option<string>)
    ensures SortField(sort).Some? ==> column == SortField(sort)
    ensures column.Some? <==> SortField(sort).Some? || sort in InheritedMembers
  {
    if SortField(sort).Some? then SortField(sort)
    else if sort in InheritedMembers then Some(InheritedText(sort))
    else None
  }

  /** `?sort=toString` passes the whitelist check as written and puts the text of a
      function into the ORDER BY, which is no column of the SELECT, where the corrected
      whitelist appends no ORDER BY at all. What the database then answers is not part
      of this model: the SELECT text as written already carries `//` comments PostgreSQL
      does not accept, and no server mounts this router, so the defect is the whitelist
      check itself rather than a response anyone observes. */
  lemma InheritedSortNamePassesWhitelist()
    ensures SortFieldAsWritten("toString") == Some("function toString() { [native code] }")
    ensures SortFieldAsWritten("toString").value !in Columns
    ensures SortField("toString").None?
  {
    assert "toString" in InheritedMembers;
    assert "function " + "toString" + "() { [native code] }" == "function toString() { [native code] }";
  }

  /** As written, `?sort=toString` appends an ORDER BY on the text of a function, whose
      first character is 'f' where every fixed ORDER BY names a table. */
  lemma ToStringOrderClause()
    ensures var tail := OrderClauseAsWritten(Some("toString"), None);
      |tail| > 10 && tail[1] == 'O' && tail[10] == 'f'
  {
    assert "toString" in InheritedMembers && SortField("toString").None?;
    var column := InheritedText("toString");
    var head := " ORDER BY ";
    assert |head| == 10 && head[1] == 'O';
    assert (head + (column + " ASC"))[10] == column[0];
    assert head + column + " ASC" == head + (column + " ASC");
  }

  /** Characters of a clause keep their place, shifted by the SELECT, in the query. */
  lemma AfterBaseQuery(tail: string, i: nat)
    requires i < |tail|
    ensures |BaseQuery + tail| > |BaseQuery| + i && (BaseQuery + tail)[|BaseQuery| + i] == tail[i]
  {
  }

  lemma ToStringQueryShape()
    ensures var q, n := QueryTextAsWritten(None, Some("toString"), None), |BaseQuery|;
      |q| > n + 10 && q[n + 1] == 'O' && q[n + 10] == 'f'
  {
    ToStringOrderClause();
    var tail := OrderClauseAsWritten(Some("toString"), None);
    assert QueryTextAsWritten(None, Some("toString"), None) == BaseQuery + tail by {
      assert BaseQuery + "" == BaseQuery;
    }
    AfterBaseQuery(tail, 1);
    AfterBaseQuery(tail, 10);
  }

  /** As written, `?sort=toString` sends a text outside the ten fixed ones. */
  lemma InheritedSortNameLeavesFixedTexts()
    ensures !IsFixedQuery(QueryTextAsWritten(None, Some("toString"), None))
  {
    ToStringQueryShape();
    var q := QueryTextAsWritten(None, Some("toString"), None);
    forall w, o | w in Filters && o in Orderings
      ensures q != BaseQuery + w + o
    {
      OtherTextsAt(w, o);
    }
  }

  /** Where the fixed texts differ from an ORDER BY on a function's text. */
  lemma OtherTextsAt(w: string, o: string)
    requires w in Filters && o in Orderings
    ensures var p, n := BaseQuery + w + o, |BaseQuery|;
      (w == WhereClause && p[n + 1] == 'W') || (w == "" && o == "" && |p| == n)
      || (w == "" && |p| > n + 10 && p[n + 10] in {'c', 'p'})
  {
    var p, n := BaseQuery + w + o, |BaseQuery|;
    if w == WhereClause {
      assert p[n + 1] == WhereClause[1];
    } else if o != "" {
      var column, dir :| column in Columns && dir in {"ASC", "DESC"} && o == " ORDER BY " + column + " " + dir;
      assert p[n + 10] == o[10] == column[0];
    }
  }

  /** A cost row survives the three inner joins when its service, project and team ids
      all name existing rows. */
  predicate Joins(t: Tables, c: CostRow)
    requires ServiceIdsInjective(t.services) && NameIdsInjective(t.projects) && NameIdsInjective(t.teams)
  {
    ServiceWithId(t, c.serviceId).Some? && NameWithId(t.projects, c.projectId).Some?
    && NameWithId(t.teams, c.teamId).Some?
  }

  /** A joined row passes the WHERE clause, when there is one. */
  predicate Selected(t: Tables, c: CostRow, provider: Option<string>)
    requires ServiceIdsInjective(t.services) && NameIdsInjective(t.projects) && NameIdsInjective(t.teams)
  {
    Joins(t, c) && (Truthy(provider) ==> ServiceWithId(t, c.serviceId).value.providerName == provider.value)
  }

  /** The columns the SELECT reads from a joined row. */
  function JoinedView(t: Tables, c: CostRow): (v: CostView)
    requires ServiceIdsInjective(t.services) && NameIdsInjective(t.projects) && NameIdsInjective(t.teams)
    requires Joins(t, c)
  {
    var s := ServiceWithId(t, c.serviceId).value;
    CostView(s.serviceName, NameWithId(t.projects, c.projectId).value, NameWithId(t.teams, c.teamId).value,
             c.cost, c.date, s.providerName)
  }

  /** The positions of the cost rows the query returns. */
  ghost function SelectedIndices(t: Tables, costs: seq<CostRow>, provider: Option<string>): set<int>
    requires ServiceIdsInjective(t.services) && NameIdsInjective(t.projects) && NameIdsInjective(t.teams)
  {
    set i | 0 <= i < |costs| && Selected(t, costs[i], provider)
  }

  /** The positions of the cost rows the query returns as `v`. */
  ghost function ViewIndices(t: Tables, costs: seq<CostRow>, provider: Option<string>, v: CostView): set<int>
    requires ServiceIdsInjective(t.services) && NameIdsInjective(t.projects) && NameIdsInjective(t.teams)
  {
    set i | 0 <= i < |costs| && Selected(t, costs[i], provider) && JoinedView(t, costs[i]) == v
  }

  /** One more cost row adds its own position to the selected positions, when it is
      selected. */
  lemma SelectedIndicesOfLonger(t: Tables, costs: seq<CostRow>, provider: Option<string>)
    requires ServiceIdsInjective(t.services) && NameIdsInjective(t.projects) && NameIdsInjective(t.teams)
    requires costs != []
    ensures var n := |costs| - 1;
      SelectedIndices(t, costs, provider)
        == SelectedIndices(t, costs[..n], provider) + (if Selected(t, costs[n], provider) then {n} else {})
  {
    var n := |costs| - 1;
    assert forall i :: 0 <= i < n ==> costs[..n][i] == costs[i];
  }

  /** One more cost row adds its own position to the positions shown as `v`, when it is
      selected and shown as `v`. */
  lemma ViewIndicesOfLonger(t: Tables, costs: seq<CostRow>, provider: Option<string>, v: CostView)
    requires ServiceIdsInjective(t.services) && NameIdsInjective(t.projects) && NameIdsInjective(t.teams)
    requires costs != []
    ensures var n := |costs| - 1;
      ViewIndices(t, costs, provider, v) == ViewIndices(t, costs[..n], provider, v)
        + (if Selected(t, costs[n], provider) && JoinedView(t, costs[n]) == v then {n} else {})
  {
    var n := |costs| - 1;
    assert forall i :: 0 <= i < n ==> costs[..n][i] == costs[i];
  }

  /** The row the last cost row adds to the result, if any. */
  function LastRow(t: Tables, costs: seq<CostRow>, provider: Option<string>): seq<CostView>
    requires ServiceIdsInjective(t.services) && NameIdsInjective(t.projects) && NameIdsInjective(t.teams)
    requires costs != []
  {
    var c := costs[|costs| - 1];
    if Selected(t, c, provider) then [JoinedView(t, c)] else []
  }

  /** Counting carries over from the shorter table to the longer one. */
  lemma CountsOfLonger(t: Tables, costs: seq<CostRow>, provider: Option<string>, rest: seq<CostView>)
    requires ServiceIdsInjective(t.services) && NameIdsInjective(t.projects) && NameIdsInjective(t.teams)
    requires costs != []
    requires |rest| == |SelectedIndices(t, costs[..|costs| - 1], provider)|
    requires forall v :: multiset(rest)[v] == |ViewIndices(t, costs[..|costs| - 1], provider, v)|
    ensures |rest + LastRow(t, costs, provider)| == |SelectedIndices(t, costs, provider)|
    ensures forall v :: multiset(rest + LastRow(t, costs, provider))[v] == |ViewIndices(t, costs, provider, v)|
  {
    var n := |costs| - 1;
    SelectedIndicesOfLonger(t, costs, provider);
    assert n !in SelectedIndices(t, costs[..n], provider);
    forall v
      ensures multiset(rest + LastRow(t, costs, provider))[v] == |ViewIndices(t, costs, provider, v)|
    {
      MultiplicityOfLonger(t, costs, provider, rest, v);
    }
  }

  lemma MultiplicityOfLonger(t: Tables, costs: seq<CostRow>, provider: Option<string>, rest: seq<CostView>, v: CostView)
    requires ServiceIdsInjective(t.services) && NameIdsInjective(t.projects) && NameIdsInjective(t.teams)
    requires costs != []
    requires multiset(rest)[v] == |ViewIndices(t, costs[..|costs| - 1], provider, v)|
    ensures multiset(rest + LastRow(t, costs, provider))[v] == |ViewIndices(t, costs, provider, v)|
  {
    var n := |costs| - 1;
    ViewIndicesOfLonger(t, costs, provider, v);
    assert n !in ViewIndices(t, costs[..n], provider, v);
    assert multiset(rest + LastRow(t, costs, provider)) == multiset(rest) + multiset(LastRow(t, costs, provider));
  }

  /** Membership carries over from the shorter table to the longer one. */
  lemma MembersOfLonger(t: Tables, costs: seq<CostRow>, provider: Option<string>, rest: seq<CostView>)
    requires ServiceIdsInjective(t.services) && NameIdsInjective(t.projects) && NameIdsInjective(t.teams)
    requires costs != []
    requires forall c :: c in costs[..|costs| - 1] && Selected(t, c, provider) ==> JoinedView(t, c) in rest
    requires forall v :: v in rest ==> exists c :: c in costs[..|costs| - 1] && Selected(t, c, provider) && v == JoinedView(t, c)
    ensures var rows := rest + LastRow(t, costs, provider);
      && (forall c :: c in costs && Selected(t, c, provider) ==> JoinedView(t, c) in rows)
      && (forall v :: v in rows ==> exists c :: c in costs && Selected(t, c, provider) && v == JoinedView(t, c))
  {
    var n := |costs| - 1;
    assert forall c :: c in costs ==> c in costs[..n] || c == costs[n];
    assert forall c :: c in costs[..n] ==> c in costs;
  }

  /** The rows the query returns before its ORDER BY: each selected cost row once, in
      table order. */
  function Select(t: Tables, costs: seq<CostRow>, provider: Option<string>): (rows: seq<CostView>)
    requires ServiceIdsInjective(t.services) && NameIdsInjective(t.projects) && NameIdsInjective(t.teams)
    ensures |rows| == |SelectedIndices(t, costs, provider)|
    ensures forall v :: multiset(rows)[v] == |ViewIndices(t, costs, provider, v)|
    ensures forall c :: c in costs && Selected(t, c, provider) ==> JoinedView(t, c) in rows
    ensures forall v :: v in rows ==> exists c :: c in costs && Selected(t, c, provider) && v == JoinedView(t, c)
    decreases |costs|
  {
    if costs == [] then
      assert SelectedIndices(t, costs, provider) == {};
      assert forall v :: ViewIndices(t, costs, provider, v) == {};
      []
    else
      var rest := Select(t, costs[..|costs| - 1], provider);
      CountsOfLonger(t, costs, provider, rest);
      MembersOfLonger(t, costs, provider, rest);
      rest + LastRow(t, costs, provider)
  }

  /** In a consistent database a cost row survives the inner joins exactly when none of
      its three ids is NULL, so a row `/api/costs` shows with 'Unknown' is never returned
      here. */
  lemma NullIdRowsAreDropped(db: Db, provider: Option<string>)
    requires Valid(db)
    ensures var t := db.tables;
      forall c :: c in t.costs ==>
        (Selected(t, c, provider) <==>
           c.serviceId.Some? && c.projectId.Some? && c.teamId.Some?
           && (Truthy(provider) ==> ServiceWithId(t, c.serviceId).value.providerName == provider.value))
  {
    var t := db.tables;
    forall c | c in t.costs
      ensures ReferencesExist(t, c)
    {
      var i :| 0 <= i < |t.costs| && t.costs[i] == c;
    }
  }
}
