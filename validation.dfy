/**
 * The request parameters of `GET /api/v1/aggregations[.:format]` and the ladder of
 * checks the controller runs on them before it builds a query. The checks run in a
 * fixed order and the first failure is reported as HTTP 400 with a name and a message.
 */
module Validation {
  import opened Wrappers
  import opened JsStrings
  import opened JsObjects
  import opened Resolution

  /** The most rows one response may hold. */
  const MaxResponseCount: nat := 1000

  /**
   * The parameters the controller reads. A query parameter is None when it is
   * undefined. `from` and `before` are the Dates `new Date(...)` made of the
   * `from` and `before` parameters.
   */
  datatype Request = Request(
    format: Option<string>,      // req.params.format (the `.csv` route suffix)
    op: Option<string>,          // op
    resolution: Option<string>,  // resolution
    from: Date,                  // from
    before: Date,                // before
    sources: Option<string>,     // each.sources, comma-separated
    city: Option<string>,        // over.city
    fields: Option<string>)      // fields, comma-separated

  /** JavaScript truthiness of a string parameter: defined and not "". */
  predicate Truthy(p: Option<string>) {
    p.Some? && p.value != ""
  }

  /** The values a request carries once it has passed every check. */
  datatype Params = Params(
    csv: bool,                       // format === 'csv'
    op: string,                      // op, or 'mean'
    resolution: int,                 // seconds, never 0
    from: Date,
    before: Date,
    sources: Option<seq<string>>,    // each.sources split on ','
    city: Option<string>,            // over.city as given
    fields: seq<string>)             // fields split on ','

  datatype ErrorName = SyntaxError | RangeError

  /** The body of a 400 response. */
  datatype ApiError = ApiError(name: ErrorName, message: string)

  const MissingSelection: ApiError := ApiError(SyntaxError, "Must specify each.sources or over.city")
  const MissingFields: ApiError := ApiError(SyntaxError, "Must specify fields parameter")
  const MissingResolution: ApiError := ApiError(SyntaxError, "Must specify resolution parameter")
  const TooManyResults: ApiError :=
    ApiError(RangeError, "Time range represents more than the maximum " + Decimal(MaxResponseCount) + " possible results per query")

  /**
   * `util.validTimeRangeLength({from, before, resolution}, max)`: whether the window
   * holds at most `max` buckets. Its body lies outside this model, so it is a parameter.
   */
  type RangeCheck = (Date, Date, int, nat) -> bool

  predicate SelectionGiven(req: Request) {
    Truthy(req.sources) || Truthy(req.city)
  }

  predicate FieldsGiven(req: Request) {
    Truthy(req.fields)
  }

  /** `resolution` is truthy: parsed, and not 0. */
  predicate ResolutionGiven(req: Request) {
    var r := ParseResolution(req.resolution);
    r.Some? && r.value != 0
  }

  predicate RangeAccepted(req: Request, validRange: RangeCheck)
    requires ResolutionGiven(req)
  {
    validRange(req.from, req.before, ParseResolution(req.resolution).value, MaxResponseCount)
  }

  /**
   * The validation ladder. Each check is reached only when the ones before it pass,
   * and the first that fails decides the error; a request passes when all four do.
   */
  function Validate(req: Request, validRange: RangeCheck): (r: Result<Params, ApiError>)
    ensures r == Failure(MissingSelection) <==> !SelectionGiven(req)
    ensures r == Failure(MissingFields) <==> SelectionGiven(req) && !FieldsGiven(req)
    ensures r == Failure(MissingResolution) <==>
            SelectionGiven(req) && FieldsGiven(req) && !ResolutionGiven(req)
    ensures r == Failure(TooManyResults) <==>
            SelectionGiven(req) && FieldsGiven(req) && ResolutionGiven(req) && !RangeAccepted(req, validRange)
    ensures r.Success? <==>
            SelectionGiven(req) && FieldsGiven(req) && ResolutionGiven(req) && RangeAccepted(req, validRange)
  {
    var format := if Truthy(req.format) then req.format.value else "json";
    var op := if Truthy(req.op) then req.op.value else "mean";
    var resolution := ParseResolution(req.resolution);
    var sources := if Truthy(req.sources) then Some(Split(req.sources.value, ',')) else None;
    if sources.None? && !Truthy(req.city) then Failure(MissingSelection)
    else if !Truthy(req.fields) then Failure(MissingFields)
    else
      var fields := Split(req.fields.value, ',');
      if resolution.None? || resolution.value == 0 then Failure(MissingResolution)
      else if !validRange(req.from, req.before, resolution.value, MaxResponseCount) then Failure(TooManyResults)
      else Success(Params(format == "csv", op, resolution.value, req.from, req.before, sources, req.city, fields))
  }

  /**
   * The maximum of 1000 results is what the range check is asked about, and it is
   * written out in decimal in the RangeError message.
   */
  lemma MaximumResponseCount(req: Request, validRange: RangeCheck)
    ensures TooManyResults ==
            ApiError(RangeError, "Time range represents more than the maximum " + "1000" + " possible results per query")
    ensures ResolutionGiven(req) ==>
            (RangeAccepted(req, validRange) <==>
             validRange(req.from, req.before, ParseResolution(req.resolution).value, 1000))
  {
    assert Decimal(1000) == "1000" by {
      assert Decimal(1) == "1" && Decimal(10) == "10" && Decimal(100) == "100";
    }
  }

  /**
   * What a request that passes carries: at least one field, in request order; a
   * non-zero resolution (a negative one is not refused); the split source list when
   * `each.sources` is given; the `over.city` value as given, which is truthy when no
   * sources are given; `mean` when no operator is given.
   */
  lemma ValidatedParams(req: Request, validRange: RangeCheck)
    requires Validate(req, validRange).Success?
    ensures var p := Validate(req, validRange).value;
      && p.fields == Split(req.fields.value, ',') && |p.fields| >= 1
      && Join(p.fields, ',') == req.fields.value
      && p.resolution == ParseResolution(req.resolution).value && p.resolution != 0
      && (p.sources.Some? <==> Truthy(req.sources))
      && (p.sources.Some? ==> p.sources.value == Split(req.sources.value, ','))
      && p.city == req.city
      && (p.sources.None? ==> Truthy(p.city))
      && p.op == (if Truthy(req.op) then req.op.value else "mean")
      && p.csv == (req.format == Some("csv"))
      && p.from == req.from && p.before == req.before
  {
    JoinSplit(req.fields.value, ',');
  }

  /**
   * The ladder short-circuits: once a check fails, the parameters the later checks
   * read (and the range check itself) cannot change the answer.
   */
  lemma LaterParametersIgnored(req: Request, req': Request, validRange: RangeCheck, validRange': RangeCheck)
    ensures !SelectionGiven(req) && req'.sources == req.sources && req'.city == req.city ==>
            Validate(req', validRange') == Failure(MissingSelection)
    ensures SelectionGiven(req) && !FieldsGiven(req) &&
            req'.sources == req.sources && req'.city == req.city && req'.fields == req.fields ==>
            Validate(req', validRange') == Failure(MissingFields)
    ensures SelectionGiven(req) && FieldsGiven(req) && !ResolutionGiven(req) &&
            req'.sources == req.sources && req'.city == req.city && req'.fields == req.fields &&
            req'.resolution == req.resolution ==>
            Validate(req', validRange') == Failure(MissingResolution)
  {
  }

  /** A request that names both sources and a city is accepted. */
  lemma BothSelectionsAccepted(req: Request, validRange: RangeCheck)
    requires Truthy(req.sources) && Truthy(req.city)
    requires FieldsGiven(req) && ResolutionGiven(req) && RangeAccepted(req, validRange)
    ensures Validate(req, validRange).Success?
  {
  }
}
