// ErrorResponse and its builder: chained setters, a details map that absorbs
// `details(..)` and `path(..)`, and validation of the required fields on `build()`.

module ErrorResponses {
  import opened Wrappers
  import opened JavaText
  import opened Exceptions

  /** A details map; Java's HashMap admits null values. */
  type Details = map<string, Option<string>>

  datatype ErrorResponse = ErrorResponse(status: int, code: string, message: string, timestamp: string, details: Details)

  /** The fields of an ErrorResponseBuilder, as a value. */
  datatype BuilderState = BuilderState(status: Option<int>, code: Option<string>, message: Option<string>,
                                       timestamp: string, details: Details)

  /** `ErrorResponse.builder()`: nothing set, the timestamp taken at creation. */
  function NewBuilder(now: string): BuilderState
  {
    BuilderState(None, None, None, now, map[])
  }

  function WithStatus(b: BuilderState, status: Option<int>): BuilderState { b.(status := status) }
  function WithCode(b: BuilderState, code: Option<string>): BuilderState { b.(code := code) }
  function WithMessage(b: BuilderState, message: Option<string>): BuilderState { b.(message := message) }
  function WithTimestamp(b: BuilderState, timestamp: string): BuilderState { b.(timestamp := timestamp) }

  /** `details(m)`: a null map is ignored; otherwise `putAll`. */
  function WithDetails(b: BuilderState, m: Option<Details>): BuilderState
  {
    if m.None? then b else b.(details := b.details + m.value)
  }

  /** `path(p)`: `details.put("path", p)`. */
  function WithPath(b: BuilderState, path: Option<string>): BuilderState
  {
    b.(details := b.details["path" := path])
  }

  /** Null, or nothing left after `trim()`. */
  predicate Blank(x: Option<string>)
  {
    x.None? || Trim(x.value) == []
  }

  /** `build()`: `validateRequiredFields` checks the status, then the code, then the
      message. */
  function BuildResponse(b: BuilderState): Result<ErrorResponse, Exception>
  {
    if b.status.None? then Err(IllegalState("El estado HTTP es obligatorio"))
    else if Blank(b.code) then Err(IllegalState("El código de error es obligatorio"))
    else if Blank(b.message) then Err(IllegalState("El mensaje es obligatorio"))
    else Ok(ErrorResponse(b.status.value, b.code.value, b.message.value, b.timestamp, b.details))
  }

  /** The builder object. */
  class ResponseBuilder {
    var status: Option<int>
    var code: Option<string>
    var message: Option<string>
    var timestamp: string
    var details: Details

    function State(): BuilderState
      reads this
    {
      BuilderState(status, code, message, timestamp, details)
    }

    constructor (now: string)
      ensures State() == NewBuilder(now)
    {
      status, code, message := None, None, None;
      timestamp := now;
      details := map[];
    }

    method SetStatus(s: Option<int>)
      modifies this`status
      ensures State() == WithStatus(old(State()), s)
    {
      status := s;
    }

    method SetCode(c: Option<string>)
      modifies this`code
      ensures State() == WithCode(old(State()), c)
    {
      code := c;
    }

    method SetMessage(m: Option<string>)
      modifies this`message
      ensures State() == WithMessage(old(State()), m)
    {
      message := m;
    }

    method SetTimestamp(t: string)
      modifies this`timestamp
      ensures State() == WithTimestamp(old(State()), t)
    {
      timestamp := t;
    }

    method AddDetails(m: Option<Details>)
      modifies this`details
      ensures State() == WithDetails(old(State()), m)
    {
      if m.Some? {
        details := details + m.value;
      }
    }

    method SetPath(p: Option<string>)
      modifies this`details
      ensures State() == WithPath(old(State()), p)
    {
      details := details["path" := p];
    }

    method Build() returns (r: Result<ErrorResponse, Exception>)
      ensures r == BuildResponse(State())
    {
      if status.None? {
        return Err(IllegalState("El estado HTTP es obligatorio"));
      }
      if code.None? || Trim(code.value) == [] {
        return Err(IllegalState("El código de error es obligatorio"));
      }
      if message.None? || Trim(message.value) == [] {
        return Err(IllegalState("El mensaje es obligatorio"));
      }
      return Ok(ErrorResponse(status.value, code.value, message.value, timestamp, details));
    }
  }

  // ---------------------------------------------------------------------------
  // Properties

  /** `build` succeeds exactly when a status is set and code and message are neither
      null nor blank, and the response then carries the builder's fields; otherwise
      it fails with IllegalStateException. */
  lemma BuildSucceedsIff(b: BuilderState)
    ensures BuildResponse(b).Ok? <==> b.status.Some? && !Blank(b.code) && !Blank(b.message)
    ensures BuildResponse(b).Ok? ==>
      var r := BuildResponse(b).value;
      Some(r.status) == b.status && Some(r.code) == b.code && Some(r.message) == b.message
      && r.timestamp == b.timestamp && r.details == b.details
    ensures BuildResponse(b).Err? ==> BuildResponse(b).error.IllegalState?
  {
  }

  /** A null status fails before anything else is examined. */
  lemma MissingStatusFailsFirst(b: BuilderState)
    requires b.status.None?
    ensures BuildResponse(b) == Err(IllegalState("El estado HTTP es obligatorio"))
  {
  }

  /** A code made only of characters trim strips counts as missing. */
  lemma BlankCodeRejected(b: BuilderState)
    requires b.status.Some? && b.code.Some? && AllTrimChars(b.code.value)
    ensures BuildResponse(b) == Err(IllegalState("El código de error es obligatorio"))
  {
    TrimEmptyIffAllTrimChars(b.code.value);
  }

  /** `details(null)` changes nothing; otherwise the given entries win over earlier
      ones and every other key keeps its value. */
  lemma DetailsMerge(b: BuilderState, m: Option<Details>, k: string)
    ensures m.None? ==> WithDetails(b, m) == b
    ensures m.Some? ==> WithDetails(b, m).details.Keys == b.details.Keys + m.value.Keys
    ensures m.Some? && k in m.value ==> WithDetails(b, m).details[k] == m.value[k]
    ensures m.Some? && k !in m.value && k in b.details ==> WithDetails(b, m).details[k] == b.details[k]
    ensures WithDetails(b, m).status == b.status && WithDetails(b, m).code == b.code
            && WithDetails(b, m).message == b.message && WithDetails(b, m).timestamp == b.timestamp
  {
  }

  /** `path(p)` sets exactly the "path" entry. */
  lemma PathSetsOnlyPath(b: BuilderState, p: Option<string>)
    ensures WithPath(b, p).details["path"] == p
    ensures forall k :: k in b.details && k != "path" ==> WithPath(b, p).details[k] == b.details[k]
    ensures WithPath(b, p).details.Keys == b.details.Keys + {"path"}
  {
  }

  /** Every setter is last-write-wins. */
  lemma SettersLastWriteWins(b: BuilderState, s1: Option<int>, s2: Option<int>, c1: Option<string>, c2: Option<string>,
                             m1: Option<string>, m2: Option<string>, t1: string, t2: string)
    ensures WithStatus(WithStatus(b, s1), s2) == WithStatus(b, s2)
    ensures WithCode(WithCode(b, c1), c2) == WithCode(b, c2)
    ensures WithMessage(WithMessage(b, m1), m2) == WithMessage(b, m2)
    ensures WithTimestamp(WithTimestamp(b, t1), t2) == WithTimestamp(b, t2)
  {
  }

  /** The timestamp of a builder whose timestamp setter is never called is the one
      taken when it was created. */
  lemma TimestampDefaultsAtCreation(now: string, s: Option<int>, c: Option<string>, m: Option<string>, d: Option<Details>, p: Option<string>)
    ensures WithPath(WithDetails(WithMessage(WithCode(WithStatus(NewBuilder(now), s), c), m), d), p).timestamp == now
  {
  }
}
