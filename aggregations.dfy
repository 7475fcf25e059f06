/**
 * `GET /api/v1/aggregations[.:format]`: validate the request, run one parameterised
 * rollup query, rename the ordinal columns back to field names, and answer with CSV
 * or with JSON carrying `prev`/`next` links.
 */
module Aggregations {
  import opened Wrappers
  import opened JsStrings
  import opened JsObjects
  import opened Validation
  import opened QueryBuilder
  import opened Renaming
  import opened Csv
  import opened Pagination

  /**
   * What the controller calls but this model does not define: the range check, the
   * database (None when the query's promise rejects), the ISO 8601 formatter of
   * `toISOString`, and `util.resolveQuery`, which writes a link URL for the request
   * with `from` and `before` replaced.
   */
  datatype Env = Env(
    validRange: RangeCheck,
    db: SqlQuery -> Option<seq<Object>>,
    iso: int -> string,
    resolveQuery: (Request, LinkRange) -> string)

  datatype Response =
    | BadRequest(error: ApiError)                                     // 400 {name, message}
    | InternalError                                                   // 500
    | CsvBody(headers: seq<string>, lines: seq<seq<Option<Value>>>)  // 200 text/csv
    | JsonBody(prev: string, next: string, data: seq<Object>)         // 200 {links, data}

  /** The queries sent to the database, in order, and the response. */
  datatype Outcome = Outcome(queries: seq<SqlQuery>, response: Response)

  /** The CSV answer for the renamed rows. */
  function CsvResponse(chained: seq<Object>, fields: seq<string>, iso: int -> string): Response {
    var keys := if chained == [] then [] else OwnKeys(chained[0]);
    var headers := CsvHeaders(keys, fields);
    match StampAll(chained, iso)
    case None => InternalError
    case Some(rows) => CsvBody(headers, Lines(headers, rows))
  }

  /** The JSON answer for the renamed rows. */
  function JsonResponse(req: Request, p: Params, chained: seq<Object>, env: Env): Response {
    match Links(Window(p.from, p.before), env.iso)
    case None => InternalError
    case Some((prev, next)) => JsonBody(env.resolveQuery(req, prev), env.resolveQuery(req, next), chained)
  }

  /** What the handler does with a request. */
  function Handle(req: Request, env: Env): Outcome {
    match Validate(req, env.validRange)
    case Failure(e) => Outcome([], BadRequest(e))
    case Success(p) =>
      match BuildQuery(p)
      case None => Outcome([], InternalError)
      case Some(q) =>
        match env.db(q)
        case None => Outcome([q], InternalError)
        case Some(results) =>
          var chained := RenamedRows(p.fields, results);
          Outcome([q], if p.csv then CsvResponse(chained, p.fields, env.iso) else JsonResponse(req, p, chained, env))
  }

  /** `exports.get`, step by step as the controller runs it. */
  method Get(req: Request, env: Env) returns (outcome: Outcome)
    ensures outcome == Handle(req, env)
  {
    var checked := Validate(req, env.validRange);
    if checked.Failure? {
      return Outcome([], BadRequest(checked.error));
    }
    var p := checked.value;
    var fieldNames, fieldSelectors, fieldMap, subs := MapFields(p.fields, BaseSubs(p));
    var query: SqlQuery;
    if p.sources.Some? {
      subs := subs[Sources := BList(p.sources.value)];
      query := SqlQuery(Head(SourcesBranch) + JoinSelectors(fieldSelectors) + Tail(SourcesBranch), subs);
    } else if Truthy(p.city) {
      subs := subs[City := BText(p.city.value)];
      query := SqlQuery(Head(CityBranch) + JoinSelectors(fieldSelectors) + Tail(CityBranch), subs);
    } else {
      return Outcome([], InternalError);
    }
    assert BuildQuery(p) == Some(query);
    var results := env.db(query);
    if results.None? {
      return Outcome([query], InternalError);
    }
    var chained := RenameRows(fieldMap, results.value);
    if p.csv {
      var keys := if |chained| > 0 then OwnKeys(chained[0]) else [];
      var headers := CsvHeaders(keys, p.fields);
      var writer := new CsvWriter(headers);
      var ok := EmitCsv(writer, chained, env.iso);
      if !ok {
        return Outcome([query], InternalError);
      }
      return Outcome([query], CsvBody(headers, writer.lines));
    } else {
      var links := Links(Window(p.from, p.before), env.iso);
      if links.None? {
        return Outcome([query], InternalError);
      }
      var (prev, next) := links.value;
      return Outcome([query], JsonBody(env.resolveQuery(req, prev), env.resolveQuery(req, next), chained));
    }
  }

  // ---------------------------------------------------------------------------
  // Properties of the handler

  /** A request that fails a check gets its 400 and sends no query. */
  lemma RejectedRequestSendsNoQuery(req: Request, env: Env)
    requires Validate(req, env.validRange).Failure?
    ensures Handle(req, env) == Outcome([], BadRequest(Validate(req, env.validRange).error))
  {
  }

  /**
   * The response is a 400 exactly when a check fails; a request that passes sends
   * exactly one query, the one its parameters build, and the code's 500 for "neither
   * sources nor city" cannot be reached.
   */
  lemma AcceptedRequestSendsOneQuery(req: Request, env: Env)
    ensures Handle(req, env).response.BadRequest? <==> Validate(req, env.validRange).Failure?
    ensures Validate(req, env.validRange).Success? ==>
            var p := Validate(req, env.validRange).value;
            BuildQuery(p).Some? && Handle(req, env).queries == [BuildQuery(p).value]
  {
    if Validate(req, env.validRange).Success? {
      SourcesBranchWins(req, env.validRange);
    }
  }

  /**
   * A JSON answer carries the renamed rows, one per result row in order, and links
   * resolved for the windows before and after the request.
   */
  lemma JsonAnswer(req: Request, env: Env, p: Params, results: seq<Object>)
    requires Validate(req, env.validRange) == Success(p)
    requires !p.csv && BuildQuery(p).Some? && env.db(BuildQuery(p).value) == Some(results)
    requires Links(Window(req.from, req.before), env.iso).Some?
    ensures Handle(req, env).response ==
              JsonBody(env.resolveQuery(req, LinkRange(env.iso(Prev(Window(req.from, req.before)).from.ms), env.iso(req.from.ms))),
                       env.resolveQuery(req, LinkRange(env.iso(req.before.ms), env.iso(Next(Window(req.from, req.before)).before.ms))),
                       RenamedRows(p.fields, results))
    ensures |Handle(req, env).response.data| == |results|
  {
    ValidatedParams(req, env.validRange);
    LinksDefined(Window(req.from, req.before), env.iso);
  }

  /**
   * A CSV answer has the header row "timestamp", the other columns, the fields, and
   * one line per result row, the row with its timestamp written as an ISO string; when
   * a row's timestamp cannot be written the answer is a 500.
   */
  lemma CsvAnswer(req: Request, env: Env, p: Params, results: seq<Object>)
    requires Validate(req, env.validRange) == Success(p)
    requires p.csv && BuildQuery(p).Some? && env.db(BuildQuery(p).value) == Some(results)
    ensures Handle(req, env).response.CsvBody? <==>
            forall i :: 0 <= i < |results| ==> StampRow(RenamedRows(p.fields, results)[i], env.iso).Some?
    ensures Handle(req, env).response.InternalError? <==> !Handle(req, env).response.CsvBody?
    ensures Handle(req, env).response.CsvBody? ==>
            var r := Handle(req, env).response;
            && r.headers[0] == "timestamp"
            && r.headers[|r.headers| - |p.fields|..] == p.fields
            && |r.lines| == |results|
            && forall i :: 0 <= i < |results| ==>
                 r.lines[i] == Line(r.headers, StampRow(RenamedRows(p.fields, results)[i], env.iso).value)
  {
    StampAllSpec(RenamedRows(p.fields, results), env.iso);
  }

  /** An empty result: CSV answers with the header row alone, JSON with no rows. */
  lemma EmptyResultAnswer(req: Request, env: Env, p: Params)
    requires Validate(req, env.validRange) == Success(p)
    requires BuildQuery(p).Some? && env.db(BuildQuery(p).value) == Some([])
    ensures p.csv ==> Handle(req, env).response == CsvBody(["timestamp"] + p.fields, [])
    ensures !p.csv && Handle(req, env).response.JsonBody? ==> Handle(req, env).response.data == []
  {
    EmptyResultHeaders(p.fields);
  }

  /** A rejected query is a 500, after the one query was sent. */
  lemma DatabaseFailureAnswer(req: Request, env: Env, p: Params)
    requires Validate(req, env.validRange) == Success(p)
    requires BuildQuery(p).Some? && env.db(BuildQuery(p).value).None?
    ensures Handle(req, env) == Outcome([BuildQuery(p).value], InternalError)
  {
  }
}
