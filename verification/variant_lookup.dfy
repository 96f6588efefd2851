/**
 * The variant lookup, `process_vcf_file`: open the indexed file, fetch the
 * records overlapping the region and flatten each into a variant. The
 * file-format library is an oracle: `Fetcher` answers, for a path and a
 * region, either the records in the order the library yields them or a failure.
 */
module VariantLookup {
  import opened Wrappers
  import PyStr

  /** A fetched record: contig, 1-based position, reference allele and alternate alleles (`None` when there are none). */
  datatype VcfRecord = VcfRecord(chrom: string, pos: int, ref: string, alts: Option<seq<string>>)

  /** What the library does for one open-and-fetch: every exception it can raise is `OpenOrFetchError`. */
  datatype FetchOutcome = OpenOrFetchError | Fetched(records: seq<VcfRecord>)

  /** The library as an oracle: `(path, contig, start, stop)` to the outcome of opening the file and fetching the region. */
  type Fetcher = (string, string, int, int) -> FetchOutcome

  /** One entry of the response: the record flattened, with the alternates comma-joined. */
  datatype Variant = Variant(chrom: string, pos: int, ref: string, alt: string)

  const AltSeparator: char := ','

  /** The dictionary built for one record; `None` where `','.join(rec.alts)` raises because `alts` is `None`. */
  function ToVariant(rec: VcfRecord): (r: Option<Variant>)
    ensures r.Some? <==> rec.alts.Some?
    ensures r.Some? ==> r.value.chrom == rec.chrom && r.value.pos == rec.pos && r.value.ref == rec.ref
  {
    match rec.alts
    case None => None
    case Some(alts) => Some(Variant(rec.chrom, rec.pos, rec.ref, PyStr.Join(AltSeparator, alts)))
  }

  /**
   * The list comprehension over the fetched records: one variant per record,
   * in order, or `None` as soon as one record cannot be flattened.
   */
  function MapRecords(records: seq<VcfRecord>): (r: Option<seq<Variant>>)
    ensures r.Some? <==> forall i :: 0 <= i < |records| ==> records[i].alts.Some?
    ensures r.Some? ==> |r.value| == |records|
    ensures r.Some? ==> forall i :: 0 <= i < |records| ==> ToVariant(records[i]) == Some(r.value[i])
    decreases |records|
  {
    if |records| == 0 then Some([])
    else
      match (ToVariant(records[0]), MapRecords(records[1..]))
      case (Some(v), Some(rest)) => Some([v] + rest)
      case _ => None
  }

  /** `process_vcf_file`: never fails outright; every failure is `None`. */
  function ProcessVcfFile(fetch: Fetcher, path: string, chromosome: string, start: int, end: int): (r: Option<seq<Variant>>)
    ensures fetch(path, chromosome, start, end).OpenOrFetchError? ==> r.None?
    ensures fetch(path, chromosome, start, end).Fetched? ==>
      var records := fetch(path, chromosome, start, end).records;
      && (r.Some? <==> forall i :: 0 <= i < |records| ==> records[i].alts.Some?)
      && (r.Some? ==> |r.value| == |records|
                      && forall i :: 0 <= i < |records| ==> ToVariant(records[i]) == Some(r.value[i]))
  {
    match fetch(path, chromosome, start, end)
    case OpenOrFetchError => None
    case Fetched(records) => MapRecords(records)
  }

  /** The comma-joined `alt` field gives back the alternates, as long as none of them contains a comma. */
  lemma AltsRecoverable(rec: VcfRecord)
    requires rec.alts.Some? && |rec.alts.value| >= 1
    requires forall i :: 0 <= i < |rec.alts.value| ==> AltSeparator !in rec.alts.value[i]
    ensures ToVariant(rec).Some?
    ensures PyStr.Split(ToVariant(rec).value.alt, AltSeparator) == rec.alts.value
  {
    PyStr.SplitJoin(rec.alts.value, AltSeparator);
  }

  /** A single alternate is copied as it is: `['C']` gives `"C"`. */
  lemma SingleAltUnchanged(rec: VcfRecord, alt: string)
    requires rec.alts == Some([alt])
    ensures ToVariant(rec) == Some(Variant(rec.chrom, rec.pos, rec.ref, alt))
  {
  }

  /**
   * Flattening splits over concatenation of the fetched stream: one record
   * without alternates anywhere discards the whole result, and otherwise the
   * variants of the two parts are concatenated.
   */
  lemma MapRecordsAppend(a: seq<VcfRecord>, b: seq<VcfRecord>)
    ensures MapRecords(a + b).Some? <==> MapRecords(a).Some? && MapRecords(b).Some?
    ensures MapRecords(a + b).Some? ==> MapRecords(a + b).value == MapRecords(a).value + MapRecords(b).value
  {
    var ab := a + b;
    assert forall i :: 0 <= i < |a| ==> ab[i] == a[i];
    assert forall i :: 0 <= i < |b| ==> ab[|a| + i] == b[i];
    if MapRecords(ab).Some? {
      var v, x, y := MapRecords(ab).value, MapRecords(a).value, MapRecords(b).value;
      forall i | 0 <= i < |ab|
        ensures v[i] == (x + y)[i]
      {
        if i < |a| {
          assert ToVariant(ab[i]) == Some(v[i]) && ToVariant(a[i]) == Some(x[i]);
        } else {
          assert ToVariant(ab[i]) == Some(v[i]) && ToVariant(b[i - |a|]) == Some(y[i - |a|]);
        }
      }
    }
  }
}
