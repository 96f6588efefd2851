# HAP1 variant-region service, modelled in Dafny

The service is one AWS Lambda handler (`lambda_function.py`). It answers a
region query: a chromosome name plus `start` and `end` bounds, sent as URL
query-string parameters. It looks the region up in one bgzip-compressed,
tabix-indexed VCF file, `/data/GATK_variants.vcf.gz`, and returns the
overlapping variants inside a JSON envelope that carries a status code. The
request path has four steps, and this project models each of them as pure
functions over immutable datatypes:

- **Validation** (`extract_query_params`) → module `QueryValidation`. It works
  in three stages. It rejects an absent or empty parameter map, then a missing
  or empty `chromosome`, `start` or `end`, then a `start` or `end` that
  Python's `int()` cannot read. On success it returns the chromosome unchanged
  and the two integers. It does not check that `start <= end` or that either
  bound is non-negative. The source returns `None` for every rejection and
  writes a different log line for each. The model returns *which* stage
  rejected (`ValidationError`), and `LogLine` gives the text written to the log.
- **Python `int()` on a `str`** → module `PyInt`. The model strips from both
  ends the ASCII characters `\t\n\v\f\r` and space and the non-ASCII
  characters for which `str.isspace()` holds; the ASCII information separators
  U+001C..U+001F are not stripped and make `int()` fail, even though
  `str.isspace()` holds for them. It accepts an optional sign, and
  reads ASCII digits in which single underscores may stand between two
  digits. `Show` (Python's `str()`) is its partner for the round trip.
- **Lookup** (`process_vcf_file`) → module `VariantLookup`. The pysam library
  is an oracle, `Fetcher`. It maps a path and a region either to the records
  the library yields, in its order, or to `OpenOrFetchError`, which stands for
  any exception raised while opening the file or fetching. Each record becomes
  a `Variant` that copies chrom, pos and ref and joins the alternates with
  `","` (module `PyStr`). A record whose `alts` is `None` makes `join` raise,
  so the whole result is then `None`, like an open failure.
- **Response** (`generate_response`) → module `ResponseBuilder`. The status is
  200 exactly when a variant list is given, even an empty one, and 500
  otherwise. A missing list or query is shown as empty.
- **Handler** (`lambda_handler`) → module `Handler`. It chains the steps and
  has two early exits. Every validation failure gets the same envelope: 500,
  "Invalid or missing query parameters", `[]`, `{}`. A lookup failure gets 500
  and "Error processing your request". A success gets 200, with "Variants
  found" or "No variants found", and echoes the query with integer bounds.

The unit tests (`test_lambda.py`) expect status 400 for the two invalid events.
For the malformed one they also expect the body to contain "Invalid query
parameter format". The code does neither. The handler answers every
validation failure through `generate_response` without a variant list, and
that call yields 500. The "Invalid query parameter format" text is only ever
written to the log. The model follows the code, and the lemmas
`Handler.MissingParametersGive500`, `Handler.BadParametersGive500` and
`Handler.NeverBadRequest` state the difference. The test module also imports a
module named `your_lambda_file`, not this file. Its assertions are therefore
read as statements of intent.

## Model

| member | source | states |
|---|---|---|
| `QueryValidation.ExtractQueryParams` | lambda_function.py:9-32 | Stage 1 rejects an absent or empty map, and only such maps. Stage 2 rejects exactly when some field is missing or `""`, whatever the other fields hold. Stage 3 rejects exactly when `start` or `end` is not an `int()` literal. On success the chromosome is the given non-empty string and both bounds are the values `int()` reads. |
| `QueryValidation.ExtractRegionEvent` | lambda_function.py:25-32 | Any non-empty chromosome and any two integers, spelled as `str()` spells them, are accepted and read back exactly. This includes `start > end` and negative bounds, so there is no range check. |
| `PyInt.ParseShow` | lambda_function.py:26 | `int(str(n)) == n` for every integer `n`. |
| `PyInt.ParseIntAlphabet` | lambda_function.py:25-30 | A string that holds a character other than one `int()` strips, an ASCII digit, a sign or `_` raises `ValueError`, e.g. "one hundred thousand". |
| `PyInt.ParseIgnoresPadding` | lambda_function.py:26 | A character `int()` strips (ASCII `\t\n\v\f\r`, space, or non-ASCII whitespace) added at either end does not change what `int()` returns. |
| `PyInt.ParseRejectsInformationSeparator` | lambda_function.py:25-30 | A bound that starts with U+001C..U+001F raises `ValueError`, whatever follows: these characters are not stripped. |
| `PyInt.ParseSignedGroup` | lambda_function.py:26 | A leading `+` or `-` before a digit group gives the group's value or its negation. |
| `PyInt.ParseUnderscoreSeparator` | lambda_function.py:26 | `a_b` is accepted and read as `ab` when `a` and `b` are digit groups. |
| `PyInt.ParseRejectsMisplacedUnderscores` | lambda_function.py:26-30 | A doubled underscore or a trailing underscore raises `ValueError`. |
| `PyStr.SplitJoin` | lambda_function.py:44 | `','.join` loses nothing: splitting the joined text on `,` gives back the parts, when there is at least one part and no part contains a comma. |
| `VariantLookup.ToVariant` | lambda_function.py:40-45 | A record can be flattened exactly when its `alts` is not `None`. The result copies chrom, pos and ref. |
| `VariantLookup.MapRecords` | lambda_function.py:39-47 | The comprehension succeeds exactly when every record has alternates. Its result then has one variant per record, in the same order, each the flattening of its record. |
| `VariantLookup.ProcessVcfFile` | lambda_function.py:34-54 | An open or fetch failure gives `None`. Otherwise the result is a list as long as the fetched records and in their order, or `None` when any record has no alternates. It never fails in any other way. |
| `VariantLookup.AltsRecoverable` | lambda_function.py:44 | Splitting a variant's `alt` text on `,` gives back the record's alternates, when there is at least one alternate and none contains a comma. |
| `VariantLookup.SingleAltUnchanged` | lambda_function.py:44 | A single alternate is copied unchanged: `['C']` gives `"C"`. |
| `VariantLookup.MapRecordsAppend` | lambda_function.py:39-54 | Flattening commutes with concatenating the fetched stream. One bad record in either part discards the whole result. |
| `ResponseBuilder.GenerateResponse` | lambda_function.py:56-66 | Status 200 exactly when a variant list is given, even an empty one. Status 500 exactly when none is given. The message is passed through. A missing variant list or query is shown as empty. |
| `ResponseBuilder.VariantsRecoverable` | lambda_function.py:59-64 | From the status and the body a client recovers the variant argument exactly, so "found nothing" and "failed" stay distinct. |
| `ResponseBuilder.QueryDefaultIndistinguishable` | lambda_function.py:60 | No query and an empty query give identical responses. |
| `Handler.LambdaHandler` | lambda_function.py:68-84 | Every rejected event gets the one invalid-parameters envelope. Otherwise the library is asked for the validated region of the fixed file. A failure, or a record without alternates, gives the processing-error envelope. A success gives 200 with one flattened variant per record, the message "Variants found" exactly when at least one record came back and "No variants found" exactly when none did, and the query echo. |
| `Handler.SuccessExactly` | lambda_function.py:68-84 | Status 200 exactly when the event validates, the fetch succeeds and every fetched record has alternates. |
| `Handler.NeverBadRequest` | lambda_function.py:63-71 | No event is answered with status 400, and no response message is "Invalid query parameter format". |
| `Handler.RegionRequestEchoed` | lambda_function.py:69-84 | A request for any region, with the bounds spelled by `str()`, reaches the lookup. When that lookup succeeds, the response is 200 and echoes the region with integer bounds. |
| `Handler.RejectsNonNumericBound` | lambda_function.py:25-30 | A bound holding a character other than an ASCII digit, a sign, `_` or a character `int()` strips is rejected at stage 3, whose log line is "Invalid query parameter format.". The response is the generic invalid-parameters envelope. |
| `Handler.TestEventIsRegionEvent` | test_lambda.py:7-13 | The tests' valid event is the region event for chr1, 100000 to 101000. |
| `Handler.ValidRequestWithVariants` | test_lambda.py:23-33 | With the library answering the one mocked record, the tests' valid event gets 200, "Variants found", the variant chr1/100010/A/C, and the query echo. |
| `Handler.MissingParametersGive500` | test_lambda.py:35-38 | The tests' empty-map event is rejected at stage 1 and gets status 500 with "Invalid or missing query parameters". The test expects 400. |
| `Handler.BadParametersGive500` | test_lambda.py:40-43 | The tests' spelled-out-numbers event gets status 500 with "Invalid or missing query parameters". The test expects 400 and "Invalid query parameter format". |

## Left out

- The pysam library (`pysam.VariantFile`, `vcf.fetch`): the BGZF index, the overlap search and its coordinate conventions stay inside the `Fetcher` oracle. What the library does with inverted or negative ranges is therefore not modelled. Any exception it raises is `OpenOrFetchError`.
- `json.dumps`: the body stays a structured `Body` value. The tests' substring checks on the serialised body become checks on the `message` field.
- Logging (module logger and every `logger` call): logging is a side effect only. The one log line that matters, the text of each validation failure, is given by `QueryValidation.LogLine`.
- `os.listdir('/data')` in the handler: it sits outside any `try`, so a missing directory would raise out of the handler. The model assumes the call succeeds.
- The file system: the fixed path is passed to the oracle as a value and nothing else is done with it. The handler's unused `context` argument is dropped.
- The event's shape beyond `queryStringParameters`: the model assumes a map of strings, as the API gateway sends it. Non-string values sent by direct invocation are not modelled.
- PyInt.ParseInt: non-ASCII decimal digits, which Python's `int()` also accepts (fullwidth "１００" reads as 100), are not modelled: the model rejects them. `PyInt.ParseIntAlphabet`, `QueryValidation.ExtractQueryParams` and `Handler.RejectsNonNumericBound` therefore treat such a bound as invalid, where the service would go on to the lookup. The interpreter's limit on the number of digits (4300 by default in recent Python versions, above which `int()` raises `ValueError`) is not modelled either. The model reads integers of any length, so `PyInt.ParseShow`, `QueryValidation.ExtractRegionEvent` and `Handler.RegionRequestEchoed` hold only for bounds below that limit in such interpreters.
- PyStr.SplitJoin: the split is a reference definition. It is not code from the service.
