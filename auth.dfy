/**
 * The decision of `TokenAuthMiddleware` in pkg/middleware/auth.go: a request to a skipped
 * route goes on unchecked; otherwise the token is read from the query (GET, and POST that
 * is not multipart) or the form (multipart POST), must be present and must parse, and the
 * request goes on with the token and the user id in its context. Parsing the JWT is a
 * parameter.
 */
module Auth {
  import opened Errs
  import opened GoText

  datatype Request = Request(fullPath: string, httpMethod: string, contentType: string,
                             query: map<string, string>, form: map<string, string>)

  /** What `jwt.ParseToken` returns: the claims' id, or the error whose message is sent. */
  datatype Parsed = ValidToken(id: I64) | InvalidToken(message: string)

  /** `c.Next(ctx)`, with the "Token" and "Id" the middleware set (None where it set
      nothing), or `responseWithError` with a status and a message, which aborts. */
  datatype Decision =
    | Proceed(token: Option<string>, id: Option<I64>)
    | Abort(status: int, message: string)

  const StatusBadRequest: int := 400
  const StatusUnauthorized: int := 401

  /** `c.Query(k)` / `c.PostForm(k)`: the empty string when the key is absent. */
  function Param(m: map<string, string>, k: string): string
  {
    if k in m then m[k] else ""
  }

  /** Where the token is read from, for the two methods the middleware serves. */
  function TokenOf(req: Request): (token: Option<string>)
    ensures token.Some? <==> req.httpMethod == "GET" || req.httpMethod == "POST"
    ensures req.httpMethod == "GET" ==> token == Some(Param(req.query, "token"))
    ensures (req.httpMethod == "POST" && Contains(req.contentType, "multipart/form-data"))
              ==> token == Some(Param(req.form, "token"))
    ensures (req.httpMethod == "POST" && !Contains(req.contentType, "multipart/form-data"))
              ==> token == Some(Param(req.query, "token"))
  {
    if req.httpMethod == "GET" then Some(Param(req.query, "token"))
    else if req.httpMethod == "POST" then
      if Contains(req.contentType, "multipart/form-data") then Some(Param(req.form, "token"))
      else Some(Param(req.query, "token"))
    else None
  }

  function TokenAuth(skipRoutes: seq<string>, parse: string -> Parsed, req: Request): (d: Decision)
    ensures req.fullPath in skipRoutes ==> d == Proceed(None, None)
    ensures req.fullPath !in skipRoutes && TokenOf(req).None? ==> d == Abort(StatusBadRequest, "bad request")
    ensures req.fullPath !in skipRoutes && TokenOf(req) == Some("") ==> d == Abort(StatusUnauthorized, "token required")
    ensures d.Abort? ==> d.status in {StatusBadRequest, StatusUnauthorized}
  {
    if req.fullPath in skipRoutes then Proceed(None, None)
    else match TokenOf(req)
      case None => Abort(StatusBadRequest, "bad request")
      case Some(token) =>
        if token == "" then Abort(StatusUnauthorized, "token required")
        else match parse(token)
          case InvalidToken(message) => Abort(StatusUnauthorized, message)
          case ValidToken(id) => Proceed(Some(token), Some(id))
  }

  /** The middleware lets a request through to the handlers exactly when its route is
      skipped or it carries a token that parses; in the second case the context holds that
      token and the id parsed from it. */
  lemma ProceedsIffSkippedOrValid(skipRoutes: seq<string>, parse: string -> Parsed, req: Request)
    ensures TokenAuth(skipRoutes, parse, req).Proceed? <==>
              req.fullPath in skipRoutes
              || (TokenOf(req).Some? && TokenOf(req).value != "" && parse(TokenOf(req).value).ValidToken?)
    ensures req.fullPath !in skipRoutes && TokenAuth(skipRoutes, parse, req).Proceed? ==>
              var token := TokenOf(req).value;
              TokenAuth(skipRoutes, parse, req) == Proceed(Some(token), Some(parse(token).id))
  {
  }

  /** A token that does not parse is refused with 401 and the parser's message. */
  lemma InvalidTokenRefused(skipRoutes: seq<string>, parse: string -> Parsed, req: Request)
    requires req.fullPath !in skipRoutes && TokenOf(req).Some? && TokenOf(req).value != ""
    requires parse(TokenOf(req).value).InvalidToken?
    ensures TokenAuth(skipRoutes, parse, req) == Abort(StatusUnauthorized, parse(TokenOf(req).value).message)
  {
  }

  /** A multipart POST reads the form only: a token in its query string is not looked at. */
  lemma MultipartIgnoresQuery(skipRoutes: seq<string>, parse: string -> Parsed, req: Request, q: map<string, string>)
    requires req.httpMethod == "POST" && Contains(req.contentType, "multipart/form-data")
    ensures TokenAuth(skipRoutes, parse, req.(query := q)) == TokenAuth(skipRoutes, parse, req)
  {
  }

  /** Any content type that contains the multipart marker, wherever and whatever surrounds
      it (a `boundary` parameter, say), makes a POST read its token from the form. */
  lemma MultipartMatchedBySubstring(req: Request, before: string, after: string)
    requires req.httpMethod == "POST" && req.contentType == before + "multipart/form-data" + after
    ensures TokenOf(req) == Some(Param(req.form, "token"))
  {
    var m := "multipart/form-data";
    ContainsIffOccurs(req.contentType, m);
    assert req.contentType[|before|..|before| + |m|] == m;
    assert OccursAt(req.contentType, m, |before|);
  }
}
