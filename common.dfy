/** Values shared by every stage of the scraping pipeline: optional values,
    results, the JSON values the transformation service's reply parses to,
    the errors the pipeline raises, and what a scraper's promise settles to. */
module Common {

  datatype Option<+T> = None | Some(value: T)

  /** The JavaScript truthiness of a value that is either `undefined` (None)
      or a string: only a non-empty string is truthy. */
  predicate Truthy(s: Option<string>) {
    s.Some? && s.value != ""
  }

  /** A value produced by `JSON.parse`. Numbers are kept as integers; the
      entries of an object are its own properties in insertion order. */
  datatype Json =
    | JNull
    | JBool(b: bool)
    | JNum(n: int)
    | JStr(s: string)
    | JArr(items: seq<Json>)
    | JObj(entries: seq<(string, Json)>)

  /** The causes of a rejected promise or a thrown exception. */
  datatype Error =
    | FetchFailed                          // a listing or page fetch rejected
    | TypeError                            // e.g. a method called on undefined or null
    | InvalidUrl(url: string)              // `new URL(...)` on a string that is not a URL
    | AgentFailed(msg: string)             // the transformation service call rejected
    | InvalidJson(text: string)            // `JSON.parse` rejected the cleaned reply
    | WriteFailed                          // `fs.writeFile` rejected
    | Exhausted(prefix: string, cause: Error)  // `new Error(prefix + cause.message)`

  datatype Result<+T> = Ok(value: T) | Err(error: Error)

  /** What an awaited scraper call settles to. */
  datatype JsResult = Undefined | Returned(value: Json) | Threw(error: Error)
}
