/** The Express router of routes/transactions.js, mounted at `/transactions`.
    Each handler runs one statement against the database and picks the status
    and JSON body of the reply.  The handlers that change the table are methods
    on the shared database; the three read-only ones are functions of it. */
module Router {
  import opened Table
  import opened Store
  import opened PathId

  /** The JSON bodies the handlers send. */
  datatype Body =
    | Message(message: string)   // `{ message }`
    | Error(error: string)       // `{ error }`
    | Rows(rows: seq<Row>)       // the array of all rows
    | Found(row: Row)            // one row
    /** `{ total_income, total_expense, balance }`. */
    | Summary(totalIncome: Option<real>, totalExpense: Option<real>, balance: real)
    /** Express's own reply when no route matches. */
    | CannotGet

  datatype Response = Response(status: int, body: Body)

  // ---------------------------------------------------------------- status selection

  /** POST `/`: 201 when the INSERT succeeded, 500 otherwise. */
  function CreatedReply(r: Result<int>): Response {
    match r
    case Ok(_) => Response(201, Message("Transaction added successfully"))
    case Failure => Response(500, Error("Failed to add transaction"))
  }

  /** PUT `/:id`: 200 whenever the UPDATE ran, whatever count it reported. */
  function UpdatedReply(r: Result<nat>): Response {
    match r
    case Ok(_) => Response(200, Message("Transaction updated successfully"))
    case Failure => Response(500, Error("Failed to update transaction"))
  }

  /** DELETE `/:id`: 200 whenever the DELETE ran, whatever count it reported. */
  function DeletedReply(r: Result<nat>): Response {
    match r
    case Ok(_) => Response(200, Message("Transaction deleted successfully"))
    case Failure => Response(500, Error("Failed to delete transaction"))
  }

  /** PUT and DELETE reply alike whether or not a row matched. */
  lemma RepliesIgnoreCount(n: nat, m: nat)
    ensures UpdatedReply(Ok(n)) == UpdatedReply(Ok(m)) == Response(200, Message("Transaction updated successfully"))
    ensures DeletedReply(Ok(n)) == DeletedReply(Ok(m)) == Response(200, Message("Transaction deleted successfully"))
  {
  }

  // ---------------------------------------------------------------- handlers

  /** POST `/`: inserts the body's five fields. */
  method PostRoot(db: Database, body: Payload) returns (resp: Response)
    requires db.Valid()
    modifies db
    ensures db.Valid()
    ensures resp == CreatedReply(Table.Insert(old(db.State()), body).result)
    ensures db.State() == Table.Insert(old(db.State()), body).state
    ensures resp.status == 201 <==> old(db.hasTable) && SatisfiesNotNull(body) && old(db.nextId) <= MaxRowId
    ensures resp.status == 201 ==>
              && resp.body == Message("Transaction added successfully")
              && old(db.nextId) !in old(db.rows)
              && (forall id :: id in old(db.rows) ==> id < old(db.nextId))
              && db.rows == old(db.rows)[old(db.nextId) := Stored(body)]
    ensures resp.status != 201 ==>
              resp == Response(500, Error("Failed to add transaction")) && db.State() == old(db.State())
  {
    var r := db.Insert(body);
    resp := CreatedReply(r);
  }

  /** GET `/`: every row of the table. */
  function GetRoot(db: Database): (resp: Response)
    reads db
    ensures db.hasTable ==> resp.status == 200 && resp.body.Rows?
    ensures db.hasTable ==> |resp.body.rows| == |db.rows|
    ensures db.hasTable ==>
              forall row :: row in resp.body.rows <==> row.id in db.rows && db.rows[row.id] == row.entry
    ensures !db.hasTable ==> resp == Response(500, Error("Failed to retrieve transactions"))
  {
    match SelectAll(db.State())
    case Ok(rows) => Response(200, Rows(rows))
    case Failure => Response(500, Error("Failed to retrieve transactions"))
  }

  /** GET `/:id`: the row the segment selects, or 404. */
  function GetById(db: Database, idText: string): (resp: Response)
    reads db
    ensures resp.status == 200 <==> db.hasTable && Hit(db.State(), ParseId(idText))
    ensures resp.status == 200 ==>
              var id := ParseId(idText).value; resp.body == Found(Row(id, db.rows[id]))
    ensures resp.status == 404 <==> db.hasTable && !Hit(db.State(), ParseId(idText))
    ensures resp.status == 404 ==> resp.body == Error("Transaction not found")
    ensures !db.hasTable ==> resp == Response(500, Error("Failed to retrieve transaction"))
  {
    match SelectById(db.State(), ParseId(idText))
    case Ok(Some(row)) => Response(200, Found(row))
    case Ok(None) => Response(404, Error("Transaction not found"))
    case Failure => Response(500, Error("Failed to retrieve transaction"))
  }

  /** PUT `/:id`: overwrites the selected row with the body's five fields. */
  method PutById(db: Database, idText: string, body: Payload) returns (resp: Response)
    requires db.Valid()
    modifies db
    ensures db.Valid()
    ensures resp == UpdatedReply(Table.Update(old(db.State()), ParseId(idText), body).result)
    ensures db.State() == Table.Update(old(db.State()), ParseId(idText), body).state
    ensures resp.status == 500 <==>
              !old(db.hasTable) || (Hit(old(db.State()), ParseId(idText)) && !SatisfiesNotNull(body))
    ensures resp.status == 200 && Hit(old(db.State()), ParseId(idText)) ==>
              && SatisfiesNotNull(body)
              && db.rows == old(db.rows)[ParseId(idText).value := Stored(body)]
              && db.nextId == old(db.nextId)
    ensures !Hit(old(db.State()), ParseId(idText)) || resp.status == 500 ==> db.State() == old(db.State())
  {
    var r := db.Update(ParseId(idText), body);
    resp := UpdatedReply(r);
  }

  /** DELETE `/:id`: removes the selected row, if there is one. */
  method DeleteById(db: Database, idText: string) returns (resp: Response)
    requires db.Valid()
    modifies db
    ensures db.Valid()
    ensures resp == DeletedReply(Table.Delete(old(db.State()), ParseId(idText)).result)
    ensures db.State() == Table.Delete(old(db.State()), ParseId(idText)).state
    ensures resp.status == 200 <==> old(db.hasTable)
    ensures Hit(old(db.State()), ParseId(idText)) ==>
              db.rows == old(db.rows) - {ParseId(idText).value} && db.nextId == old(db.nextId)
    ensures !Hit(old(db.State()), ParseId(idText)) ==> db.State() == old(db.State())
    ensures old(db.hasTable) ==> GetById(db, idText).status == 404
  {
    var r := db.Delete(ParseId(idText));
    resp := DeletedReply(r);
  }

  /** GET `/summary`: the two totals and `balance = total_income -
      total_expense`, computed in JavaScript, where a NULL total counts as 0. */
  function GetSummary(db: Database): (resp: Response)
    reads db
    ensures db.hasTable ==> resp.status == 200 && resp.body.Summary?
    ensures db.hasTable ==>
              && resp.body.totalIncome == SumCase(db.rows, Income)
              && resp.body.totalExpense == SumCase(db.rows, Expense)
              && resp.body.balance == OrZero(resp.body.totalIncome) - OrZero(resp.body.totalExpense)
    ensures db.hasTable && |db.rows| == 0 ==> resp.body == Summary(None, None, 0.0)
    ensures !db.hasTable ==> resp == Response(500, Error("Failed to retrieve summary"))
  {
    match SelectTotals(db.State())
    case Ok(t) => Response(200, Summary(t.income, t.expenses, OrZero(t.income) - OrZero(t.expenses)))
    case Failure => Response(500, Error("Failed to retrieve summary"))
  }

  // ---------------------------------------------------------------- routing

  datatype Verb = GET | POST | PUT | DELETE

  /** A route path below the mount point: `/`, `/:id`, or a fixed segment. */
  datatype Pattern = Root | IdParam | Literal(segment: string)

  datatype Handler = CreateRoute | ListRoute | ShowRoute | UpdateRoute | RemoveRoute | SummaryRoute

  datatype Route = Route(verb: Verb, pattern: Pattern, handler: Handler)

  /** The routes in the order the file registers them. */
  const Registered: seq<Route> := [
    Route(POST, Root, CreateRoute),
    Route(GET, Root, ListRoute),
    Route(GET, IdParam, ShowRoute),
    Route(PUT, IdParam, UpdateRoute),
    Route(DELETE, IdParam, RemoveRoute),
    Route(GET, Literal("summary"), SummaryRoute)
  ]

  /** The same routes with `/summary` registered ahead of `/:id`. */
  const Intended: seq<Route> := [
    Route(POST, Root, CreateRoute),
    Route(GET, Root, ListRoute),
    Route(GET, Literal("summary"), SummaryRoute),
    Route(GET, IdParam, ShowRoute),
    Route(PUT, IdParam, UpdateRoute),
    Route(DELETE, IdParam, RemoveRoute)
  ]

  /** Whether a route takes a request; `path` is the request path below
      `/transactions`, split into its (decoded) segments. */
  predicate Matches(route: Route, verb: Verb, path: seq<string>) {
    && route.verb == verb
    && match route.pattern
       case Root => path == []
       case IdParam => |path| == 1 && path[0] != ""
       case Literal(s) => path == [s]
  }

  /** Express tries routes in registration order and the first that matches
      handles the request (none of these handlers passes it on). */
  function FirstMatch(routes: seq<Route>, verb: Verb, path: seq<string>): (r: Option<nat>)
    ensures r.Some? ==> r.value < |routes| && Matches(routes[r.value], verb, path)
    ensures r.Some? ==> forall j :: 0 <= j < r.value ==> !Matches(routes[j], verb, path)
    ensures r.None? ==> forall j :: 0 <= j < |routes| ==> !Matches(routes[j], verb, path)
  {
    if routes == [] then None
    else if Matches(routes[0], verb, path) then Some(0)
    else
      match FirstMatch(routes[1..], verb, path)
      case Some(i) => Some(i + 1)
      case None => None
  }

  /** The handler a request reaches, if any. */
  function HandlerFor(routes: seq<Route>, verb: Verb, path: seq<string>): Option<Handler> {
    match FirstMatch(routes, verb, path)
    case Some(i) => Some(routes[i].handler)
    case None => None
  }

  /** The `:id` segment of a request path. */
  function IdSegment(path: seq<string>): string {
    if |path| == 1 then path[0] else ""
  }

  /** One request through a route table. */
  method Serve(db: Database, routes: seq<Route>, verb: Verb, path: seq<string>, body: Payload)
    returns (resp: Response)
    requires db.Valid()
    modifies db
    ensures db.Valid()
    ensures HandlerFor(routes, verb, path).None? ==>
              resp == Response(404, CannotGet) && db.State() == old(db.State())
    ensures HandlerFor(routes, verb, path) == Some(ListRoute) ==>
              resp == old(GetRoot(db)) && db.State() == old(db.State())
    ensures HandlerFor(routes, verb, path) == Some(ShowRoute) ==>
              resp == old(GetById(db, IdSegment(path))) && db.State() == old(db.State())
    ensures HandlerFor(routes, verb, path) == Some(SummaryRoute) ==>
              resp == old(GetSummary(db)) && db.State() == old(db.State())
    ensures HandlerFor(routes, verb, path) == Some(CreateRoute) ==>
              var step := Table.Insert(old(db.State()), body);
              resp == CreatedReply(step.result) && db.State() == step.state
    ensures HandlerFor(routes, verb, path) == Some(UpdateRoute) ==>
              var step := Table.Update(old(db.State()), ParseId(IdSegment(path)), body);
              resp == UpdatedReply(step.result) && db.State() == step.state
    ensures HandlerFor(routes, verb, path) == Some(RemoveRoute) ==>
              var step := Table.Delete(old(db.State()), ParseId(IdSegment(path)));
              resp == DeletedReply(step.result) && db.State() == step.state
  {
    match HandlerFor(routes, verb, path)
    case None => resp := Response(404, CannotGet);
    case Some(CreateRoute) => resp := PostRoot(db, body);
    case Some(ListRoute) => resp := GetRoot(db);
    case Some(ShowRoute) => resp := GetById(db, IdSegment(path));
    case Some(UpdateRoute) => resp := PutById(db, IdSegment(path), body);
    case Some(RemoveRoute) => resp := DeleteById(db, IdSegment(path));
    case Some(SummaryRoute) => resp := GetSummary(db);
  }

  // ---------------------------------------------------------------- route order

  /** As registered, `GET /transactions/summary` is taken by `/:id`. */
  lemma SummaryShadowed()
    ensures HandlerFor(Registered, GET, ["summary"]) == Some(ShowRoute)
  {
    assert Matches(Registered[2], GET, ["summary"]);
  }

  /** As registered, no request at all reaches the summary handler. */
  lemma SummaryUnreachable(verb: Verb, path: seq<string>)
    ensures HandlerFor(Registered, verb, path) != Some(SummaryRoute)
  {
    if Matches(Registered[5], verb, path) {
      assert Matches(Registered[2], verb, path);
    }
  }

  /** ... and the id handler answers it with 404 (or 500 without the table). */
  lemma SummaryRequestNotFound(db: Database)
    ensures db.hasTable ==> GetById(db, "summary") == Response(404, Error("Transaction not found"))
    ensures !db.hasTable ==> GetById(db, "summary").status == 500
  {
    SummaryIsNoId();
  }

  /** The first route a request matches is the one dispatch picks. */
  lemma FirstMatchAt(routes: seq<Route>, verb: Verb, path: seq<string>, i: nat)
    requires i < |routes| && Matches(routes[i], verb, path)
    requires forall j :: 0 <= j < i ==> !Matches(routes[j], verb, path)
    ensures HandlerFor(routes, verb, path) == Some(routes[i].handler)
  {
    var r := FirstMatch(routes, verb, path);
    assert r.Some?;
    assert r.value <= i;
  }

  /** With `/summary` registered first, the summary request reaches its
      handler ... */
  lemma IntendedServesSummary()
    ensures HandlerFor(Intended, GET, ["summary"]) == Some(SummaryRoute)
  {
    FirstMatchAt(Intended, GET, ["summary"], 2);
  }

  /** ... and every other request reaches the same handler as before. */
  lemma IntendedKeepsOtherRoutes(verb: Verb, path: seq<string>)
    requires !(verb == GET && path == ["summary"])
    ensures HandlerFor(Intended, verb, path) == HandlerFor(Registered, verb, path)
  {
    if path == [] && verb == POST {
      FirstMatchAt(Intended, verb, path, 0);
      FirstMatchAt(Registered, verb, path, 0);
    } else if path == [] && verb == GET {
      FirstMatchAt(Intended, verb, path, 1);
      FirstMatchAt(Registered, verb, path, 1);
    } else if |path| == 1 && path[0] != "" && verb == GET {
      FirstMatchAt(Intended, verb, path, 3);
      FirstMatchAt(Registered, verb, path, 2);
    } else if |path| == 1 && path[0] != "" && verb == PUT {
      FirstMatchAt(Intended, verb, path, 4);
      FirstMatchAt(Registered, verb, path, 3);
    } else if |path| == 1 && path[0] != "" && verb == DELETE {
      FirstMatchAt(Intended, verb, path, 5);
      FirstMatchAt(Registered, verb, path, 4);
    } else {
      assert forall j :: 0 <= j < 6 ==> !Matches(Intended[j], verb, path);
      assert forall j :: 0 <= j < 6 ==> !Matches(Registered[j], verb, path);
    }
  }

  /** A row's id written into the URL selects that row. */
  lemma GetByIdOfStoredRow(db: Database, id: int)
    requires db.hasTable && id in db.rows
    ensures GetById(db, IdText(id)) == Response(200, Found(Row(id, db.rows[id])))
  {
    IdTextRoundTrip(id);
  }
}
