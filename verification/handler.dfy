/**
 * The entry point, `lambda_handler`: validate, look up, respond, with an
 * early error response after each of the first two steps.
 */
module Handler {
  import opened Wrappers
  import opened QueryValidation
  import opened VariantLookup
  import opened ResponseBuilder
  import PyInt

  /** The one variant file every request reads. */
  const VcfFilePath := "/data/GATK_variants.vcf.gz"

  const InvalidParametersMessage := "Invalid or missing query parameters"
  const ProcessingErrorMessage := "Error processing your request"
  const VariantsFoundMessage := "Variants found"
  const NoVariantsFoundMessage := "No variants found"

  /** The `query` echoed on success: the chromosome as given and the parsed bounds. */
  function QueryEcho(p: QueryParams): map<string, JsonScalar> {
    map["chromosome" := JStr(p.chromosome), "start" := JInt(p.start), "end" := JInt(p.end)]
  }

  /** The one envelope every rejected event gets, whichever stage rejected it. */
  const InvalidParametersResponse := Response(StatusError, Body(InvalidParametersMessage, [], map[]))

  /** The envelope for a failed open, fetch or record mapping. */
  const ProcessingErrorResponse := Response(StatusError, Body(ProcessingErrorMessage, [], map[]))

  /** All records of a fetch can be flattened. */
  predicate AllHaveAlts(records: seq<VcfRecord>) {
    forall i :: 0 <= i < |records| ==> records[i].alts.Some?
  }

  function LambdaHandler(event: Event, fetch: Fetcher): (r: Response)
    // every rejected event gets the same envelope, and the library is not consulted
    ensures ExtractQueryParams(event).Failure? ==> r == InvalidParametersResponse
    // the library is asked for exactly the validated region of the fixed file
    ensures ExtractQueryParams(event).Success? ==>
      var p := ExtractQueryParams(event).value;
      var outcome := fetch(VcfFilePath, p.chromosome, p.start, p.end);
      && (outcome.OpenOrFetchError? ==> r == ProcessingErrorResponse)
      && (outcome.Fetched? && !AllHaveAlts(outcome.records) ==> r == ProcessingErrorResponse)
      && (outcome.Fetched? && AllHaveAlts(outcome.records) ==>
            && r.statusCode == StatusOk
            && |r.body.variants| == |outcome.records|
            && (forall i :: 0 <= i < |outcome.records| ==> ToVariant(outcome.records[i]) == Some(r.body.variants[i]))
            && r.body.query == QueryEcho(p)
            && (r.body.message == VariantsFoundMessage <==> |outcome.records| > 0)
            && (r.body.message == NoVariantsFoundMessage <==> |outcome.records| == 0))
  {
    match ExtractQueryParams(event)
    case Failure(_) => GenerateResponse(InvalidParametersMessage, None, None)
    case Success(p) =>
      var found := ProcessVcfFile(fetch, VcfFilePath, p.chromosome, p.start, p.end);
      if found.None? then GenerateResponse(ProcessingErrorMessage, None, None)
      else
        var message := if |found.value| > 0 then VariantsFoundMessage else NoVariantsFoundMessage;
        GenerateResponse(message, found, Some(QueryEcho(p)))
  }

  /** A success status is given exactly when the event validates and the lookup yields only flattenable records. */
  lemma SuccessExactly(event: Event, fetch: Fetcher)
    ensures LambdaHandler(event, fetch).statusCode == StatusOk
      <==> && ExtractQueryParams(event).Success?
           && var p := ExtractQueryParams(event).value;
           && fetch(VcfFilePath, p.chromosome, p.start, p.end).Fetched?
           && AllHaveAlts(fetch(VcfFilePath, p.chromosome, p.start, p.end).records)
  {
  }

  /**
   * No event is answered with status 400, and the text "Invalid query parameter
   * format" never reaches a response; it is only written to the log.
   */
  lemma NeverBadRequest(event: Event, fetch: Fetcher)
    ensures LambdaHandler(event, fetch).statusCode != 400
    ensures LambdaHandler(event, fetch).body.message != "Invalid query parameter format"
  {
  }

  /** A client that spells the bounds as `str()` does always reaches the lookup, for any region. */
  lemma RegionRequestEchoed(chromosome: string, start: int, end: int, fetch: Fetcher)
    requires chromosome != ""
    requires fetch(VcfFilePath, chromosome, start, end).Fetched?
    requires AllHaveAlts(fetch(VcfFilePath, chromosome, start, end).records)
    ensures LambdaHandler(RegionEvent(chromosome, start, end), fetch).statusCode == StatusOk
    ensures LambdaHandler(RegionEvent(chromosome, start, end), fetch).body.query
      == map["chromosome" := JStr(chromosome), "start" := JInt(start), "end" := JInt(end)]
  {
    ExtractRegionEvent(chromosome, start, end);
  }

  /** The event of the successful test: chr1 from 100000 to 101000. */
  const TestValidEvent := Event(Some(map["chromosome" := "chr1", "start" := "100000", "end" := "101000"]))

  /** The event of the missing-parameters test: an empty map. */
  const TestMissingEvent := Event(Some(map[]))

  /** The event of the bad-parameters test: bounds spelled out in words. */
  const TestBadEvent := Event(Some(map["chromosome" := "chr1", "start" := "one hundred thousand",
                                      "end" := "one hundred and one thousand"]))

  /** The library answer in the successful test: one record at chr1:100010, A to C. */
  const MockRecord := VcfRecord("chr1", 100010, "A", Some(["C"]))

  /** The successful test's event is what a client spelling the bounds with `str()` sends. */
  lemma TestEventIsRegionEvent()
    ensures TestValidEvent == RegionEvent("chr1", 100000, 101000)
  {
    assert PyInt.ShowNat(1) == "1";
    assert PyInt.ShowNat(10) == "10";
    assert PyInt.ShowNat(100) == "100";
    assert PyInt.ShowNat(1000) == "1000";
    assert PyInt.ShowNat(10000) == "10000";
    assert PyInt.ShowNat(100000) == "100000";
    assert PyInt.ShowNat(101) == "101";
    assert PyInt.ShowNat(1010) == "1010";
    assert PyInt.ShowNat(10100) == "10100";
    assert PyInt.ShowNat(101000) == "101000";
  }

  /**
   * The successful test request: with the library answering the one mock
   * record for chr1:100000-101000, the response is 200 with "Variants found",
   * the record flattened, and the query echoed with integer bounds.
   */
  lemma ValidRequestWithVariants(fetch: Fetcher)
    requires fetch(VcfFilePath, "chr1", 100000, 101000) == Fetched([MockRecord])
    ensures LambdaHandler(TestValidEvent, fetch)
      == Response(200, Body("Variants found", [Variant("chr1", 100010, "A", "C")],
                            map["chromosome" := JStr("chr1"), "start" := JInt(100000), "end" := JInt(101000)]))
  {
    TestEventIsRegionEvent();
    ExtractRegionEvent("chr1", 100000, 101000);
    var p := QueryParams("chr1", 100000, 101000);
    assert ExtractQueryParams(TestValidEvent) == Success(p);
    var records := [MockRecord];
    assert AllHaveAlts(records);
    var r := LambdaHandler(TestValidEvent, fetch);
    var v := Variant("chr1", 100010, "A", "C");
    assert ToVariant(MockRecord) == Some(v);
    assert |r.body.variants| == 1 && ToVariant(records[0]) == Some(r.body.variants[0]);
    assert r.body.variants == [v];
  }

  /** An empty parameter map is answered with 500, not the 400 the tests expect. */
  lemma MissingParametersGive500(fetch: Fetcher)
    ensures ExtractQueryParams(TestMissingEvent) == Failure(NoQueryParameters)
    ensures LambdaHandler(TestMissingEvent, fetch).statusCode == 500
    ensures LambdaHandler(TestMissingEvent, fetch).body.message == "Invalid or missing query parameters"
  {
  }

  /**
   * Bounds with a character outside the model's `int()` alphabet (ASCII
   * digits, signs, `_` and stripped whitespace) are rejected at the third
   * stage, whose log line is "Invalid query parameter format."; the response
   * is the generic invalid-parameters envelope.
   */
  lemma RejectsNonNumericBound(event: Event, fetch: Fetcher)
    requires event.queryStringParameters.Some?
    requires var m := event.queryStringParameters.value;
      && Supplied(m, "chromosome") && Supplied(m, "start") && Supplied(m, "end")
      && (PyInt.HasForeignChar(m["start"]) || PyInt.HasForeignChar(m["end"]))
    ensures ExtractQueryParams(event) == Failure(InvalidParameterFormat)
    ensures LogLine(ExtractQueryParams(event).error) == "Invalid query parameter format."
    ensures LambdaHandler(event, fetch) == InvalidParametersResponse
  {
    var m := event.queryStringParameters.value;
    PyInt.ParseIntAlphabet(m["start"]);
    PyInt.ParseIntAlphabet(m["end"]);
    assert PyInt.ParseInt(m["start"]).None? || PyInt.ParseInt(m["end"]).None?;
    assert ExtractQueryParams(event) == Failure(InvalidParameterFormat);
  }

  /**
   * The bad-parameters test event gets status 500 and the generic message,
   * not the 400 and "Invalid query parameter format" the tests expect.
   */
  lemma BadParametersGive500(fetch: Fetcher)
    ensures LambdaHandler(TestBadEvent, fetch).statusCode == 500
    ensures LambdaHandler(TestBadEvent, fetch).body.message == "Invalid or missing query parameters"
  {
    var m := TestBadEvent.queryStringParameters.value;
    assert m["start"][0] == 'o' && !PyInt.IsIntLiteralChar(m["start"][0]);
    RejectsNonNumericBound(TestBadEvent, fetch);
  }
}
