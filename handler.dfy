/** The `/analyze` request handler: validate the two fields, rank the stored complaints, look
    up news, ask for a summary, and turn any exception into a 500 response. */
module Handler {
  import opened PyText
  import opened PyValues
  import opened Ranking
  import opened News

  /** The JSON body's two fields, each absent or present with some value. */
  datatype Request = Request(location: Option<Value>, problem: Option<Value>)

  /** The handler's response: 200 with the analysis, 400 with the validation message, or 500
      with the text of the exception that escaped. */
  datatype Outcome =
    | Analysis(location: string, problem: string, complaints: seq<Record>, news: seq<NewsItem>, summary: string)
    | BadRequest(error: string)
    | ServerError(error: string)

  function StatusCode(o: Outcome): int {
    match o
    case Analysis(_, _, _, _, _) => 200
    case BadRequest(_) => 400
    case ServerError(_) => 500
  }

  const MissingFields := "Both 'location' and 'problem' fields are required!"

  /** The outcome of the validation step. */
  datatype Checked = Accepted(location: string, problem: string) | Rejected | Raised(error: PyError)

  /** A field present with a value that has no `strip` method. */
  predicate NotText(v: Option<Value>) {
    v.Some? && !v.value.Str?
  }

  /** A field absent, or a string of whitespace only. */
  predicate Blank(v: Option<Value>) {
    v.None? || (v.value.Str? && AllSpace(v.value.s))
  }

  /** `data.get(key, "")`, ready for `.strip()`. */
  function FieldText(v: Option<Value>): Result<string, PyError> {
    match v
    case None => Success("")
    case Some(x) => AsString(x, "strip")
  }

  /** The validation step of `analyze`: the location is stripped and title-cased, the problem stripped
      (location first, so its error wins), and either one empty is a bad request. */
  function Validate(req: Request): (c: Checked)
    ensures c.Raised? <==> NotText(req.location) || NotText(req.problem)
    ensures c.Raised? && NotText(req.location) ==> c.error == AttributeError(TypeName(req.location.value), "strip")
    ensures c.Raised? && !NotText(req.location) ==> c.error == AttributeError(TypeName(req.problem.value), "strip")
    ensures c.Rejected? <==> !c.Raised? && (Blank(req.location) || Blank(req.problem))
    ensures c.Accepted? ==>
      && req.location.Some? && req.problem.Some?
      && c.location == NormalizeLocation(req.location.value.s)
      && c.problem == Strip(req.problem.value.s)
      && c.location != [] && c.problem != []
      && NormalizeLocation(c.location) == c.location
      && IsStripped(c.problem)
  {
    match FieldText(req.location)
    case Failure(e) => Raised(e)
    case Success(rawLocation) =>
      match FieldText(req.problem)
      case Failure(e) => Raised(e)
      case Success(rawProblem) =>
        var location := NormalizeLocation(rawLocation);
        var problem := Strip(rawProblem);
        NormalizeEmptyIff(rawLocation);
        StripEmptyIff(rawProblem);
        NormalizeIdempotent(rawLocation);
        if location == [] || problem == [] then Rejected else Accepted(location, problem)
  }

  /** `analyze()` after the body is read: the store is `query`, the similarity `score`, the
      search service `search` and the summary model `generate`. */
  method Analyze(req: Request, query: string -> seq<Record>, score: Scorer,
                 search: string -> SearchResponse, generate: Generator)
    returns (o: Outcome)
    ensures StatusCode(o) == 400 <==> Validate(req).Rejected?
    ensures Validate(req).Raised? ==> o == ServerError(ErrorString(Validate(req).error))
    ensures Validate(req).Rejected? <==> o == BadRequest(MissingFields)
    ensures Validate(req).Accepted? ==>
      var location, problem := Validate(req).location, Validate(req).problem;
      match Filter(problem, query(location), DefaultThreshold, score)
      case Failure(e) => o == ServerError(ErrorString(e))
      case Success(matched) =>
        var news := SearchOnline(location, problem, search);
        && (o.Analysis? || o.ServerError?)
        && (o.Analysis? ==>
              && o.location == location && o.problem == problem
              && IsStableSortDesc(o.complaints, matched)
              && o.news == news
              && GenerateSummary(location, problem, o.complaints, news, generate) == Success(o.summary))
        && (o.ServerError? ==>
              exists complaints :: IsStableSortDesc(complaints, matched)
                && GenerateSummary(location, problem, complaints, news, generate) == Failure(o.error))
  {
    match Validate(req)
    case Raised(e) =>
      o := ServerError(ErrorString(e));
    case Rejected =>
      o := BadRequest(MissingFields);
    case Accepted(location, problem) =>
      var complaints := SearchFirebase(location, problem, DefaultThreshold, query, score);
      if complaints.Failure? {
        return ServerError(ErrorString(complaints.error));
      }
      var news := SearchOnline(location, problem, search);
      match GenerateSummary(location, problem, complaints.value, news, generate)
      case Failure(e) =>
        o := ServerError(e);
      case Success(summary) =>
        o := Analysis(location, problem, complaints.value, news, summary);
  }
}
