/** The HTTP vocabulary shared by the authorization server and the client:
    form values, the request methods the handlers compare against, and what a
    handler leaves in its response writer. */
module Http {

  /** Go's `url.Values`: each key maps to the list of its values. */
  type Values = map<string, seq<string>>

  /** `url.Values.Get`: the first value for the key, or "" when there is none. */
  function FormGet(v: Values, key: string): string {
    if key in v && |v[key]| > 0 then v[key][0] else ""
  }

  const Options: string := "OPTIONS"
  const Post: string := "POST"

  const StatusBadRequest: int := 400
  const StatusInternalServerError: int := 500

  /** What a handler has written when it returns. `Nothing` is the empty
      answer to a preflight request: only the CORS headers are set. */
  datatype Response =
    | Nothing
    | Redirect(location: string)             // 302 Found to the location the handler names
    | Error(status: int, message: string)    // http.Error(w, message, status)
    | Page(template: string)                 // a file served from templates/
    | Body(text: string)                     // bytes written with w.Write or a JSON encoder
    | Panic                                  // a run-time panic: nothing is written
}
