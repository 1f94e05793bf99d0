/**
 * Responses as the server writes them: a status, the header map passed to
 * `res.writeHead`, and the body, kept as the value that is serialised.
 */
module Http {
  import opened Records
  import opened Tables

  datatype Payload =
    | OkTrue                                          // { ok: true }
    | ErrorMessage(error: string)                     // { error: ... }
    | ProductBody(id: int, product: ProductFields)    // { id, name, models, image }
    | ProductList(products: seq<Record<ProductFields>>)
    | BranchBody(id: int, branch: BranchFields)       // { id, name, address, phone, coordinates }
    | BranchList(branches: seq<Record<BranchFields>>)
    | SettingsBody(settings: Settings)
    | UploadedUrl(url: string)                        // { url }
    | FileContents(path: string)                      // the bytes of the file read from `path`
    | NotFoundPage                                    // the fixed 404 HTML document
    | NoBody

  datatype Response = Response(status: int, headers: map<string, string>, payload: Payload)

  /** The headers of every JSON response: the content type and the permissive CORS policy. */
  const JsonHeaders: map<string, string> := map[
    "Content-Type" := "application/json",
    "Access-Control-Allow-Origin" := "*",
    "Access-Control-Allow-Methods" := "GET,POST,PUT,DELETE,OPTIONS",
    "Access-Control-Allow-Headers" := "Content-Type"
  ]

  /** `sendJSON(status, obj)`; no caller passes extra headers. */
  function SendJson(status: int, payload: Payload): (r: Response)
    ensures r.status == status && r.payload == payload
    ensures r.headers == JsonHeaders
  {
    Response(status, JsonHeaders, payload)
  }

  /** The response every unmatched API path and every missing id gets. */
  const JsonNotFound: Response := SendJson(404, ErrorMessage("Not found"))
}
