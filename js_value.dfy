/** The JavaScript values that reach the query builders, the error they throw,
    and how a template literal (`${v}`) turns a value into text. */
module JsValue {

  import opened Text

  /** A value a caller can supply for a field or a filter: a string, an integral
      number, a boolean or `null`. */
  datatype Value = Str(s: string) | Num(n: int) | Bool(b: bool) | Null

  /** `BadRequestError(message)`; its HTTP status is always 400. */
  datatype Error = BadRequest(message: string) {
    function Status(): nat {
      400
    }
  }

  /** The text `${v}` produces inside a template literal. */
  function TemplateText(v: Value): string
  {
    match v
    case Str(s) => s
    case Num(n) => if n >= 0 then Decimal(n) else "-" + Decimal(-n)
    case Bool(b) => if b then "true" else "false"
    case Null => "null"
  }
}
