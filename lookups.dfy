/** The two remote lookups, reduced to what the row classifier sees of them.
    The HTTP requests and the JSON/XML parsing are oracle functions supplied by
    the caller; this module keeps only the decisions the source takes on the
    parsed responses. */
module Lookups {
  /** A parsed JSON object from the metadata service; member values are kept as
      their serialised text, since the pipeline writes the record verbatim. */
  type JsonObject = map<string, string>

  /** The parsed `OA` element of the PDF-location response: either it carries
      an `error` member, or it names the href of its record's link. */
  datatype OaResponse = OaError | OaLink(href: string)

  /** The metadata service, from (doi, email) to the parsed response body. */
  type MetadataService = (string, string) -> JsonObject

  /** The PDF-location service, from a PMC id to the parsed `OA` element. */
  type PdfService = string -> OaResponse

  /** One network request, as the row classifier issues it. */
  datatype Lookup = MetadataLookup(doi: string, email: string) | PdfLookup(pmcId: string)

  /** `upw_request` after parsing: a body with an `error` member becomes the
      empty record, any other body is returned unchanged. */
  function UpwRequest(body: JsonObject): (record: JsonObject)
    ensures record != map[] <==> body != map[] && "error" !in body
    ensures record != map[] ==> record == body
    ensures "error" !in record
  {
    if "error" in body then map[] else body
  }
}
