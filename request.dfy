/** A field read from a request's JSON body with `request.json.get(name)`:
    either absent (Python's None) or a string. */
module Request {

  datatype Field = Missing | Str(value: string)

  /** The text Python substitutes for the field in an f-string: `str(None)` is "None". */
  function Render(f: Field): string
  {
    match f
    case Missing => "None"
    case Str(s) => s
  }
}
