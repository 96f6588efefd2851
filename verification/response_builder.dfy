/**
 * The response builder, `generate_response`. The body is kept as a structured
 * value; its JSON serialisation is not modelled.
 */
module ResponseBuilder {
  import opened Wrappers
  import opened VariantLookup

  /** A JSON value as it appears in the echoed query. */
  datatype JsonScalar = JStr(s: string) | JInt(i: int)

  datatype Body = Body(message: string, variants: seq<Variant>, query: map<string, JsonScalar>)

  datatype Response = Response(statusCode: int, body: Body)

  const StatusOk := 200
  const StatusError := 500

  /**
   * The status is decided by whether a variant list was given at all, not by
   * its length; a missing list or query is shown as empty.
   */
  function GenerateResponse(message: string, variants: Option<seq<Variant>>, query: Option<map<string, JsonScalar>>): (r: Response)
    ensures r.statusCode == StatusOk <==> variants.Some?
    ensures r.statusCode == StatusError <==> variants.None?
    ensures r.body.message == message
    ensures variants.Some? ==> r.body.variants == variants.value
    ensures variants.None? ==> r.body.variants == []
    ensures query.Some? ==> r.body.query == query.value
    ensures query.None? ==> r.body.query == map[]
  {
    Response(if variants.Some? then StatusOk else StatusError,
             Body(message, variants.Otherwise([]), query.Otherwise(map[])))
  }

  /** What a client can conclude from a response: the variant list when the status is a success, otherwise none. */
  function ReceivedVariants(r: Response): Option<seq<Variant>> {
    if r.statusCode == StatusOk then Some(r.body.variants) else None
  }

  /**
   * Status and body together keep the variant argument exactly: an empty list
   * (success, nothing found) and no list (failure) stay apart even though both
   * are shown as `[]`.
   */
  lemma VariantsRecoverable(message: string, variants: Option<seq<Variant>>, query: Option<map<string, JsonScalar>>)
    ensures ReceivedVariants(GenerateResponse(message, variants, query)) == variants
  {
  }

  /** The query, unlike the variants, is not recoverable: no query and an empty one give the same response. */
  lemma QueryDefaultIndistinguishable(message: string, variants: Option<seq<Variant>>)
    ensures GenerateResponse(message, variants, None) == GenerateResponse(message, variants, Some(map[]))
  {
  }
}
