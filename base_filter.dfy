// BaseSecurityFilter: the common part of the three security filters. It skips
// the requests whose path matches one of its public patterns, and it turns every
// exception of the concrete filter's stage into a response of the filter error
// handler, so that no exception leaves the filter.

module BaseSecurityFilter {
  import opened Wrappers
  import opened JavaText
  import opened Exceptions
  import opened FilterErrorHandler
  import opened AntPath

  /** How the concrete filter's stage ended. */
  datatype StageOutcome =
    | ChainContinued          // it called `filterChain.doFilter`
    | Responded(w: Written)   // it wrote the response itself
    | Threw(e: Exception)     // it threw

  /** How the request leaves the filter. */
  datatype FilterResult = Continued | Wrote(w: Written)

  /** `shouldNotFilter`: some public pattern matches the request URI. */
  function AnyMatch(patterns: seq<Pat>, uri: string): (r: bool)
    ensures r <==> exists i :: 0 <= i < |patterns| && Matches(patterns[i], uri)
  {
    if patterns == [] then false
    else Matches(patterns[0], uri) || AnyMatch(patterns[1..], uri)
  }

  /** The bypass list both token filters are built with: `/api/auth/login`,
      `/swagger-ui.html` and everything under `/v3/api-docs` and `/swagger-ui`. */
  const TokenFilterPublicPaths: seq<Pat> := [
    Lit("api", Lit("auth", Lit("login", End))),
    Lit("swagger-ui.html", End),
    Lit("v3", Lit("api-docs", AnySegs(End))),
    Lit("swagger-ui", AnySegs(End))
  ]

  /** The additional information the funnel hands to the error handler, by the
      class of the caught exception; a null message is written as "null". */
  function FunnelInfo(e: Exception): string
  {
    if e.IllegalArgument? then ConcatNullable("Argumento inválido: ", Message(e))
    else if e.Servlet? then ConcatNullable("Error de servlet: ", Message(e))
    else ConcatNullable("Error inesperado: ", Message(e))
  }

  /** `doFilterInternal(request, response, chain)`: the stage's own ending, or the
      handler's response for the exception it threw. */
  method DoFilter(inner: StageOutcome, now: string) returns (r: FilterResult)
    ensures inner.ChainContinued? ==> r == Continued
    ensures inner.Responded? ==> r == Wrote(inner.w)
    ensures inner.Threw? ==>
      r.Wrote? && r.w.httpStatus == r.w.body.status == Classify(inner.e).status
      && r.w.body.code == Classify(inner.e).code && r.w.body.message == Classify(inner.e).message
      && r.w.body.details == ErrorDetails(inner.e, Some(FunnelInfo(inner.e))) && r.w.body.timestamp == now
  {
    match inner
    case ChainContinued => r := Continued;
    case Responded(w) => r := Wrote(w);
    case Threw(e) =>
      var info: string;
      if e.IllegalArgument? {
        info := ConcatNullable("Argumento inválido: ", Message(e));
      } else if e.Servlet? {
        info := ConcatNullable("Error de servlet: ", Message(e));
      } else {
        info := ConcatNullable("Error inesperado: ", Message(e));
      }
      var w := HandleException(e, Some(info), now);
      r := Wrote(w);
  }

  // Properties

  /** Without public patterns every request is filtered. */
  lemma NoPatternsFilterAll(uri: string)
    ensures !AnyMatch([], uri)
  {
  }

  /** The funnel's additional information is never empty, so the handler always
      records it under "additional_info". */
  lemma FunnelInfoRecorded(e: Exception)
    ensures "additional_info" in ErrorDetails(e, Some(FunnelInfo(e)))
    ensures ErrorDetails(e, Some(FunnelInfo(e)))["additional_info"] == Some(FunnelInfo(e))
  {
    ErrorDetailsShape(e, Some(FunnelInfo(e)));
  }

  /** A JwtAuthenticationException thrown by the stage ends as a 500 whose
      additional information is "Error inesperado: " and its message. */
  lemma JwtFailureIsUnexpected(msg: string)
    ensures Classify(JwtAuthenticationException(msg)).status == InternalServerError
    ensures FunnelInfo(JwtAuthenticationException(msg)) == "Error inesperado: " + msg
  {
  }
}
