/**
 * What the converters take from the browser without looking inside: the
 * `Date` conversions, the floating-point yard conversion, and the outcome of
 * each `fetch`.
 */
module Runtime {
  import opened JsValue
  import opened DateUtils

  /** The uninterpreted host functions, passed in as values. */
  datatype Env = Env(
    /** The local-time getters of `new Date(v)`; None for an Invalid Date. */
    localDate: Value -> Option<DateParts>,
    /** `new Date(v).toISOString()`; None where it throws a RangeError. */
    isoString: Value -> Option<string>,
    /** `new Date(parseInt(v)).toISOString()`; None where it throws a RangeError. */
    isoOfParsedInt: Value -> Option<string>,
    /** `(v * 1.09361).toFixed(1)` */
    yards: Value -> string)

  /** `formatDate(new Date(v))` */
  function FormatDateOf(env: Env, v: Value): string {
    FormatDateOrNaN(env.localDate(v))
  }

  /**
   * `new Date(v).toISOString()`: `new Date(undefined)` is always an Invalid
   * Date, so that case throws whatever the host does with other values.
   */
  function IsoOf(env: Env, v: Value): Result<string> {
    if v.Undef? then Throw(RangeError)
    else match env.isoString(v)
      case Some(t) => Ok(t)
      case None => Throw(RangeError)
  }

  /** The settled outcome of one `fetch`: a response with its `ok` flag and parsed JSON body, or a rejection. */
  datatype Response = Reply(ok: bool, body: Value) | Rejected

  /** `fetch` then `response.json()`, ignoring `ok` as the services do; a rejected fetch throws a TypeError. */
  function BodyOf(r: Response): Result<Value> {
    match r
    case Reply(_, body) => Ok(body)
    case Rejected => Throw(TypeError)
  }

  /** A finished export: the CSV text and the file name handed to the download. */
  datatype Export = Export(content: string, filename: string)
}
