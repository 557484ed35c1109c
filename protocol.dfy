/**
 * Values exchanged with the rendering service (ComfyUI) and the ways a job
 * can fail. JSON documents are taken as already parsed.
 */
module Protocol {
  import opened Wrappers

  /** Raw bytes: image payloads, decoded input images. */
  type Bytes = seq<bv8>

  /** A parsed JSON value; objects are dictionaries keyed by string. */
  datatype Json =
    | JNull
    | JBool(b: bool)
    | JNumber(n: int)
    | JString(s: string)
    | JArray(items: seq<Json>)
    | JObject(fields: map<string, Json>)

  /** `j[key]` on a parsed document: absent when `j` is not an object or has no such key. */
  function Field(j: Json, key: string): (r: Option<Json>)
    ensures r.Some? <==> j.JObject? && key in j.fields
    ensures r.Some? ==> r.value == j.fields[key]
  {
    match j
    case JObject(fields) => if key in fields then Some(fields[key]) else None
    case _ => None
  }

  /** Whether Python's `len` accepts the value: strings, lists and dictionaries; null, booleans and numbers raise TypeError. */
  predicate HasLength(j: Json) {
    j.JString? || j.JArray? || j.JObject?
  }

  /** An image reference in a history record: the three coordinates of the `/view` endpoint. */
  datatype ImageRef = ImageRef(filename: string, subfolder: string, folderType: string)

  /**
   * Why a job ends without a result. Each one is an exception that the handler
   * lets escape.
   */
  datatype Failure =
    | UnsizedWorkflow                 // `len(workflow)` raised: the workflow is null, a boolean or a number
    | UndecodableImage(name: string)  // base64 decoding of an input image raised
    | ServiceUnavailable(message: string)  // all readiness probes failed
    | SubmissionFailed                // POST /prompt failed or its reply carries no prompt id
    | ChannelClosed                   // the websocket ended before the completion signal
    | HistoryUnavailable              // GET /history failed
    | HistoryNotFound                 // the reply has no entry for the prompt id
    | MalformedHistory                // the entry has no "outputs" key
    | FetchFailed(image: ImageRef)    // GET /view failed for this image
}
