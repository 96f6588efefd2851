/**
 * The request validator, `extract_query_params`: three stages, each of which can
 * reject the event. The source returns `None` on every rejection and writes a
 * different log line for each; the model returns the stage that rejected, so
 * that the log line is observable.
 */
module QueryValidation {
  import opened Wrappers
  import PyInt

  /** The part of an invocation event the handler reads: the optional query-string map. */
  datatype Event = Event(queryStringParameters: Option<map<string, string>>)

  /** A validated region query. Neither `start <= end` nor non-negativity is checked. */
  datatype QueryParams = QueryParams(chromosome: string, start: int, end: int)

  /** Which stage rejected the event. */
  datatype ValidationError =
    | NoQueryParameters          // the map is absent or empty
    | IncompleteParameters       // a field is missing or the empty string
    | InvalidParameterFormat     // `start` or `end` is not an integer

  /** The text written to the error log for each rejection. */
  function LogLine(e: ValidationError): string {
    match e
    case NoQueryParameters => "No query string parameters provided."
    case IncompleteParameters => "Incomplete query string parameters."
    case InvalidParameterFormat => "Invalid query parameter format."
  }

  /** `m.get(key)`. */
  function Get(m: map<string, string>, key: string): Option<string> {
    if key in m then Some(m[key]) else None
  }

  /** Python truthiness of an optional string: `None` and `""` are falsy. */
  predicate Truthy(v: Option<string>) {
    v.Some? && v.value != ""
  }

  /** `m.get(key)` is truthy: the field is present and not the empty string. */
  predicate Supplied(m: map<string, string>, key: string) {
    Truthy(Get(m, key))
  }

  function ExtractQueryParams(event: Event): (r: Result<QueryParams, ValidationError>)
    // stage 1: an absent or empty map is rejected first
    ensures r == Failure(NoQueryParameters)
      <==> event.queryStringParameters.None? || event.queryStringParameters.value == map[]
    // stage 2: any missing or empty field is rejected, whatever the other two hold
    ensures r == Failure(IncompleteParameters)
      <==> && event.queryStringParameters.Some?
           && var m := event.queryStringParameters.value;
           && m != map[]
           && !(Supplied(m, "chromosome") && Supplied(m, "start") && Supplied(m, "end"))
    // stage 3: both bounds must be integers
    ensures r == Failure(InvalidParameterFormat)
      <==> && event.queryStringParameters.Some?
           && var m := event.queryStringParameters.value;
           && Supplied(m, "chromosome") && Supplied(m, "start") && Supplied(m, "end")
           && (PyInt.ParseInt(m["start"]).None? || PyInt.ParseInt(m["end"]).None?)
    // on success the chromosome is passed through and the bounds are the parsed integers
    ensures r.Success? ==>
      && event.queryStringParameters.Some?
      && var m := event.queryStringParameters.value;
      && "chromosome" in m && m["chromosome"] == r.value.chromosome && r.value.chromosome != ""
      && "start" in m && PyInt.ParseInt(m["start"]) == Some(r.value.start)
      && "end" in m && PyInt.ParseInt(m["end"]) == Some(r.value.end)
  {
    match event.queryStringParameters
    case None => Failure(NoQueryParameters)
    case Some(m) =>
      if m == map[] then Failure(NoQueryParameters)
      else
        var chromosome := Get(m, "chromosome");
        var start := Get(m, "start");
        var end := Get(m, "end");
        if !(Truthy(chromosome) && Truthy(start) && Truthy(end)) then Failure(IncompleteParameters)
        else
          match (PyInt.ParseInt(start.value), PyInt.ParseInt(end.value))
          case (Some(s), Some(e)) => Success(QueryParams(chromosome.value, s, e))
          case _ => Failure(InvalidParameterFormat)
  }

  /** The event a client sends for a region, with the bounds spelled as `str()` spells them. */
  function RegionEvent(chromosome: string, start: int, end: int): Event {
    Event(Some(map["chromosome" := chromosome, "start" := PyInt.Show(start), "end" := PyInt.Show(end)]))
  }

  /**
   * Every region with a non-empty chromosome name is accepted and read back
   * exactly, including inverted (`start > end`) and negative ones.
   */
  lemma ExtractRegionEvent(chromosome: string, start: int, end: int)
    requires chromosome != ""
    ensures ExtractQueryParams(RegionEvent(chromosome, start, end)) == Success(QueryParams(chromosome, start, end))
  {
    var m := map["chromosome" := chromosome, "start" := PyInt.Show(start), "end" := PyInt.Show(end)];
    assert m != map[] by { assert "chromosome" in m; }
    assert Get(m, "chromosome") == Some(chromosome);
    assert Get(m, "start") == Some(PyInt.Show(start));
    assert Get(m, "end") == Some(PyInt.Show(end));
    PyInt.ParseShow(start);
    PyInt.ParseShow(end);
  }
}
