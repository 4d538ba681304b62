/** The error taxonomy of appbiotic-code-error: sixteen error kinds, each
    wrapping an `ErrorStatus` (message and ordered detail records), with
    their fixed numeric, HTTP and display-name tables, the conversions to
    and from an RPC status, the copy-on-write builders and the `Field`
    locator used inside bad-request details. */
module Errors {
  import opened Wrappers
  import opened Strings

  // ---------------------------------------------------------------------
  // Numeric codes (the `code` module, google.rpc.Code numbering)
  // ---------------------------------------------------------------------

  const OK: int := 0
  const CANCELLED: int := 1
  const UNKNOWN: int := 2
  const INVALID_ARGUMENT: int := 3
  const DEADLINE_EXCEEDED: int := 4
  const NOT_FOUND: int := 5
  const ALREADY_EXISTS: int := 6
  const PERMISSION_DENIED: int := 7
  const UNAUTHENTICATED: int := 16
  const RESOURCE_EXHAUSTED: int := 8
  const FAILED_PRECONDITION: int := 9
  const ABORTED: int := 10
  const OUT_OF_RANGE: int := 11
  const UNIMPLEMENTED: int := 12
  const INTERNAL: int := 13
  const UNAVAILABLE: int := 14
  const DATA_LOSS: int := 15

  // ---------------------------------------------------------------------
  // Data model
  // ---------------------------------------------------------------------

  /** Which of the sixteen variants of `Error` a value is. */
  datatype Kind =
    | Cancelled
    | Unknown
    | InvalidArgument
    | DeadlineExceeded
    | NotFound
    | AlreadyExists
    | PermissionDenied
    | Unauthenticated
    | ResourceExhausted
    | FailedPrecondition
    | Aborted
    | OutOfRange
    | Unimplemented
    | Internal
    | Unavailable
    | DataLoss

  /** An error: its kind and the status it wraps. `inner()` and
      `From<Error> for ErrorStatus` both give `status`. */
  datatype Error = Error(kind: Kind, status: ErrorStatus)

  /** A developer-facing message and an optional, ordered list of details. */
  datatype ErrorStatus = ErrorStatus(message: Option<string>, details: Option<seq<ErrorDetails>>)
  {
    /** `with_message`: replaces the message and keeps the details. */
    function WithMessage(m: Option<string>): (r: ErrorStatus)
      ensures r.message == m
      ensures r.details == details
    {
      ErrorStatus(m, details)
    }

    /** `with_details`: appends one detail record after the existing ones,
        turning an absent list into a one-element list. */
    function WithDetails(d: ErrorDetails): (r: ErrorStatus)
      ensures r.message == message
      ensures r.details.Some?
      ensures |r.details.value| == |DetailList(this)| + 1
      ensures r.details.value[..|DetailList(this)|] == DetailList(this)
      ensures r.details.value[|DetailList(this)|] == d
      ensures details.None? ==> r.details == Some([d])
    {
      ErrorStatus(message, Some(details.GetOr([]) + [d]))
    }

    /** `with_error`: appends a debug-info record holding the display text
        of the source error and no stack entries. */
    function WithError(text: string): (r: ErrorStatus)
      ensures r.message == message
      ensures r.details.Some?
      ensures DetailList(r) == DetailList(this) + [DebugInfo(None, Some(text))]
    {
      WithDetails(DebugInfo(None, Some(text)))
    }
  }

  /** `ErrorStatus::default()`. */
  const DefaultStatus: ErrorStatus := ErrorStatus(None, None)

  /** The detail records of a status, an absent list read as empty. */
  function DetailList(s: ErrorStatus): seq<ErrorDetails>
  {
    s.details.GetOr([])
  }

  /** The three kinds of structured detail record. */
  datatype ErrorDetails =
    | BadRequest(fieldViolations: seq<FieldViolation>)
    | DebugInfo(stackEntries: Option<seq<string>>, detail: Option<string>)
    | LocalizedMessage(locale: string, message: string)
  {
    /** `Display`: the variant's name in SCREAMING_SNAKE_CASE. */
    function Name(): (r: string)
      ensures r == "BAD_REQUEST" <==> BadRequest?
      ensures r == "DEBUG_INFO" <==> DebugInfo?
      ensures r == "LOCALIZED_MESSAGE" <==> LocalizedMessage?
    {
      match this
      case BadRequest(_) => "BAD_REQUEST"
      case DebugInfo(_, _) => "DEBUG_INFO"
      case LocalizedMessage(_, _) => "LOCALIZED_MESSAGE"
    }
  }

  /** `ErrorDetails::bad_request`: a bad-request record with exactly one violation. */
  function BadRequestOf(v: FieldViolation): (r: ErrorDetails)
    ensures r.BadRequest? && r.fieldViolations == [v]
  {
    BadRequest([v])
  }

  /** `ErrorDetails::debug_info`: the given detail text and no stack entries. */
  function DebugInfoOf(detail: string): (r: ErrorDetails)
    ensures r.DebugInfo? && r.stackEntries.None? && r.detail == Some(detail)
    ensures r.Name() == "DEBUG_INFO"
  {
    DebugInfo(None, Some(detail))
  }

  /** `ErrorDetails::localized_message`. */
  function LocalizedMessageOf(locale: string, message: string): (r: ErrorDetails)
    ensures r.LocalizedMessage? && r.locale == locale && r.message == message
    ensures r.Name() == "LOCALIZED_MESSAGE"
  {
    LocalizedMessage(locale, message)
  }

  /** One offending field of a request and why it is bad. */
  datatype FieldViolation = FieldViolation(field: Field, description: Option<string>)

  /** `FieldViolation::for_member`: a violation on a single top-level member. */
  function ForMember(name: string, description: Option<string>): (v: FieldViolation)
    ensures v.field.pathReversed == [Member(name)]
    ensures v.field.ToString() == name
    ensures v.description == description
  {
    FieldViolation(Field.New(Member(name)), description)
  }

  /** One step of a path into a structured value. */
  datatype Property =
    | Member(name: string)
    | MapMember(name: string, key: string)
    | ArrayMember(name: string, index: nat)
  {
    /** `Display`: `name`, `name["key"]` or `name[index]`. */
    function ToString(): (r: string)
    {
      match this
      case Member(n) => n
      case MapMember(n, k) => n + "[\"" + k + "\"]"
      case ArrayMember(n, i) => n + "[" + NatToString(i) + "]"
    }
  }

  /** Every property renders starting with its name: a member is just the
      name, a map member adds the quoted key in brackets, and an array
      member adds decimal digits in brackets that read back as the index. */
  lemma PropertyRendering(p: Property)
    ensures var r := p.ToString();
      && |r| >= |p.name| && r[..|p.name|] == p.name
      && (p.Member? ==> r == p.name)
      && (p.MapMember? ==> r[|p.name|..] == "[\"" + p.key + "\"]")
      && (p.ArrayMember? ==> |r| >= |p.name| + 3 && r[|p.name|] == '[' && r[|r| - 1] == ']')
    ensures p.ArrayMember? ==>
      var r := p.ToString();
      var digits := r[|p.name| + 1..|r| - 1];
      && (forall i :: 0 <= i < |digits| ==> IsDigit(digits[i]))
      && DecimalValue(digits) == p.index
      && (|digits| > 1 ==> digits[0] != '0')
  {
    if p.ArrayMember? {
      DecimalRoundTrip(p.index);
      var r := p.ToString();
      assert r[|p.name| + 1..|r| - 1] == NatToString(p.index);
    }
  }

  /** A path into a structured value, kept as a stack whose last element is
      the outermost context. */
  datatype Field = Field(pathReversed: seq<Property>)
  {
    /** `Field::new`: a path of one property. */
    static function New(p: Property): (f: Field)
      ensures f.pathReversed == [p]
      ensures f.ToString() == p.ToString()
    {
      PathTextPrepend([p], [], p);
      Field([p])
    }

    /** `Field::member`. */
    static function OfMember(name: string): (f: Field)
      ensures f.ToString() == name
    {
      New(Member(name))
    }

    /** `Field::array_member`. */
    static function OfArrayMember(name: string, index: nat): (f: Field)
      ensures f.ToString() == name + "[" + NatToString(index) + "]"
    {
      New(ArrayMember(name, index))
    }

    /** `with_context`: wraps the path in one more, outer, property. */
    function WithContext(p: Property): (f: Field)
      ensures f.pathReversed == pathReversed + [p]
    {
      Field(pathReversed + [p])
    }

    /** `within_member`. */
    function WithinMember(name: string): (f: Field)
      ensures |pathReversed| > 0 ==> f.ToString() == name + "." + ToString()
    {
      if |pathReversed| > 0 then
        WithContextRendersFirst(this, Member(name));
        WithContext(Member(name))
      else
        WithContext(Member(name))
    }

    /** `within_array_member`. */
    function WithinArrayMember(name: string, index: nat): (f: Field)
      ensures |pathReversed| > 0 ==>
        f.ToString() == name + "[" + NatToString(index) + "]" + "." + ToString()
    {
      if |pathReversed| > 0 then
        WithContextRendersFirst(this, ArrayMember(name, index));
        WithContext(ArrayMember(name, index))
      else
        WithContext(ArrayMember(name, index))
    }

    /** `Field::invalid_argument`: an invalid-argument error whose only detail
        is a bad request naming this field. */
    function InvalidArgument(message: string, description: string): (e: Error)
      ensures e.kind == Kind.InvalidArgument
      ensures e.status.message == Some(message)
      ensures e.status.details == Some([BadRequest([FieldViolation(this, Some(description))])])
    {
      Error(Kind.InvalidArgument, ErrorStatus(Some(message), Some([BadRequestOf(FieldViolation(this, Some(description)))])))
    }

    /** `Display`: the properties outermost first, joined with `.`. */
    function ToString(): (r: string)
    {
      PathText(pathReversed)
    }
  }

  /** The rendering of a reversed path: its properties in reading order,
      each rendered, with `.` between neighbours. */
  function PathText(pathReversed: seq<Property>): (r: string)
  {
    Join(Texts(Reverse(pathReversed)), ".")
  }

  /** The rendered properties, element by element. */
  function Texts(ps: seq<Property>): (r: seq<string>)
    ensures |r| == |ps|
    ensures forall i :: 0 <= i < |ps| ==> r[i] == ps[i].ToString()
  {
    seq(|ps|, i requires 0 <= i < |ps| => ps[i].ToString())
  }

  /** The outermost property added by `with_context` is rendered first, then
      a dot, then the path it wraps. */
  lemma WithContextRendersFirst(f: Field, p: Property)
    requires |f.pathReversed| > 0
    ensures f.WithContext(p).ToString() == p.ToString() + "." + f.ToString()
  {
    var rev := Reverse(f.pathReversed);
    ReverseSnoc(f.pathReversed, p);
    ReverseLength(f.pathReversed);
    assert Texts([p] + rev) == [p.ToString()] + Texts(rev);
    assert ([p.ToString()] + Texts(rev))[1..] == Texts(rev);
  }

  /** `impl Display for Field`: walks the stack from its last element to its
      first, writing each property and a dot before every element but the last. */
  method FormatField(f: Field) returns (s: string)
    ensures s == f.ToString()
  {
    var path := f.pathReversed;
    var n := |path|;
    s := "";
    var i := n;
    while i > 0
      invariant 0 <= i <= n
      invariant i == n ==> s == ""
      invariant i < n ==> s == PathText(path[i..]) + (if i > 0 then "." else "")
    {
      i := i - 1;
      ghost var before := s;
      s := s + path[i].ToString();
      if i > 0 {
        s := s + ".";
      }
      PathTextPrepend(path[i..], path[i + 1..], path[i]);
      if i + 1 < n {
        assert before == PathText(path[i + 1..]) + ".";
      }
    }
    assert path[0..] == path;
  }

  /** Rendering a path one element further in: that element comes last. */
  lemma PathTextPrepend(whole: seq<Property>, tail: seq<Property>, p: Property)
    requires whole == [p] + tail
    ensures |tail| == 0 ==> PathText(whole) == p.ToString()
    ensures |tail| > 0 ==> PathText(whole) == PathText(tail) + "." + p.ToString()
  {
    ReverseLength(tail);
    assert whole[1..] == tail;
    assert Reverse(whole) == Reverse(tail) + [p];
    assert Texts(Reverse(tail) + [p]) == Texts(Reverse(tail)) + [p.ToString()];
    if |tail| > 0 {
      JoinSnoc(Texts(Reverse(tail)), p.ToString(), ".");
    }
  }

  // ---------------------------------------------------------------------
  // Tables
  // ---------------------------------------------------------------------

  /** `Error::code`: the google.rpc.Code value of a kind. */
  function Code(k: Kind): (c: int)
    ensures CANCELLED <= c <= UNAUTHENTICATED
    ensures c != OK
  {
    match k
    case Cancelled => CANCELLED
    case Unknown => UNKNOWN
    case InvalidArgument => INVALID_ARGUMENT
    case DeadlineExceeded => DEADLINE_EXCEEDED
    case NotFound => NOT_FOUND
    case AlreadyExists => ALREADY_EXISTS
    case PermissionDenied => PERMISSION_DENIED
    case Unauthenticated => UNAUTHENTICATED
    case ResourceExhausted => RESOURCE_EXHAUSTED
    case FailedPrecondition => FAILED_PRECONDITION
    case Aborted => ABORTED
    case OutOfRange => OUT_OF_RANGE
    case Unimplemented => UNIMPLEMENTED
    case Internal => INTERNAL
    case Unavailable => UNAVAILABLE
    case DataLoss => DATA_LOSS
  }

  /** The values of the C enumeration `AppbioticErrorCode` exported to the
      foreign side, in its declaration order (Ok = 0 is not a kind). */
  function AbiCode(k: Kind): int
  {
    match k
    case Cancelled => 1
    case Unknown => 2
    case InvalidArgument => 3
    case DeadlineExceeded => 4
    case NotFound => 5
    case AlreadyExists => 6
    case PermissionDenied => 7
    case ResourceExhausted => 8
    case FailedPrecondition => 9
    case Aborted => 10
    case OutOfRange => 11
    case Unimplemented => 12
    case Internal => 13
    case Unavailable => 14
    case DataLoss => 15
    case Unauthenticated => 16
  }

  /** The code table agrees with the exported C enumeration. */
  lemma CodeMatchesAbi(k: Kind)
    ensures Code(k) == AbiCode(k)
  {
  }

  /** The kind an RPC status code denotes, as `TryFrom<tonic::Status>` selects
      it; `None` for code 0 (Ok), which is no error. */
  function KindOfCode(c: RpcCode): (r: Option<Kind>)
    ensures r.None? <==> c == OK
  {
    if c == 0 then None
    else if c == 1 then Some(Cancelled)
    else if c == 2 then Some(Unknown)
    else if c == 3 then Some(InvalidArgument)
    else if c == 4 then Some(DeadlineExceeded)
    else if c == 5 then Some(NotFound)
    else if c == 6 then Some(AlreadyExists)
    else if c == 7 then Some(PermissionDenied)
    else if c == 8 then Some(ResourceExhausted)
    else if c == 9 then Some(FailedPrecondition)
    else if c == 10 then Some(Aborted)
    else if c == 11 then Some(OutOfRange)
    else if c == 12 then Some(Unimplemented)
    else if c == 13 then Some(Internal)
    else if c == 14 then Some(Unavailable)
    else if c == 15 then Some(DataLoss)
    else Some(Unauthenticated)
  }

  /** Every kind's code leads back to that kind. */
  lemma CodeRoundTrip(k: Kind)
    ensures KindOfCode(Code(k)) == Some(k)
  {
  }

  /** Every non-zero RPC code is the code of the kind it denotes: `Code`
      maps the sixteen kinds onto 1..16. */
  lemma CodeOnto(c: RpcCode)
    requires c != OK
    ensures KindOfCode(c).Some? && Code(KindOfCode(c).value) == c
  {
  }

  /** `Code` is one-to-one. */
  lemma CodeInjective(a: Kind, b: Kind)
    ensures Code(a) == Code(b) ==> a == b
  {
    CodeRoundTrip(a);
    CodeRoundTrip(b);
  }

  /** `Display for Error` (strum, SCREAMING_SNAKE_CASE): the kind's name. */
  function Name(k: Kind): (r: string)
    ensures |r| > 0
    ensures '\0' !in r
  {
    match k
    case Cancelled => "CANCELLED"
    case Unknown => "UNKNOWN"
    case InvalidArgument => "INVALID_ARGUMENT"
    case DeadlineExceeded => "DEADLINE_EXCEEDED"
    case NotFound => "NOT_FOUND"
    case AlreadyExists => "ALREADY_EXISTS"
    case PermissionDenied => "PERMISSION_DENIED"
    case Unauthenticated => "UNAUTHENTICATED"
    case ResourceExhausted => "RESOURCE_EXHAUSTED"
    case FailedPrecondition => "FAILED_PRECONDITION"
    case Aborted => "ABORTED"
    case OutOfRange => "OUT_OF_RANGE"
    case Unimplemented => "UNIMPLEMENTED"
    case Internal => "INTERNAL"
    case Unavailable => "UNAVAILABLE"
    case DataLoss => "DATA_LOSS"
  }

  /** The kind whose display name a text is, if any. */
  function KindOfName(s: string): (k: Option<Kind>)
  {
    if s == "CANCELLED" then Some(Cancelled)
    else if s == "UNKNOWN" then Some(Unknown)
    else if s == "INVALID_ARGUMENT" then Some(InvalidArgument)
    else if s == "DEADLINE_EXCEEDED" then Some(DeadlineExceeded)
    else if s == "NOT_FOUND" then Some(NotFound)
    else if s == "ALREADY_EXISTS" then Some(AlreadyExists)
    else if s == "PERMISSION_DENIED" then Some(PermissionDenied)
    else if s == "UNAUTHENTICATED" then Some(Unauthenticated)
    else if s == "RESOURCE_EXHAUSTED" then Some(ResourceExhausted)
    else if s == "FAILED_PRECONDITION" then Some(FailedPrecondition)
    else if s == "ABORTED" then Some(Aborted)
    else if s == "OUT_OF_RANGE" then Some(OutOfRange)
    else if s == "UNIMPLEMENTED" then Some(Unimplemented)
    else if s == "INTERNAL" then Some(Internal)
    else if s == "UNAVAILABLE" then Some(Unavailable)
    else if s == "DATA_LOSS" then Some(DataLoss)
    else None
  }

  /** The display name identifies the kind, so different kinds display differently. */
  lemma NameRoundTrip(k: Kind)
    ensures KindOfName(Name(k)) == Some(k)
  {
  }

  /** `Display for Error`: only the kind is written; message and details never are. */
  function Display(e: Error): (r: string)
    ensures KindOfName(r) == Some(e.kind)
  {
    NameRoundTrip(e.kind);
    Name(e.kind)
  }

  /** Two errors of the same kind display the same, whatever their status. */
  lemma DisplayIgnoresStatus(e: Error, s: ErrorStatus)
    ensures Display(Error(e.kind, s)) == Display(e)
  {
  }

  /** `http::StatusCode::from_u16`: a status code exists for 100..=999. */
  function StatusCodeFromU16(n: int): (r: Option<int>)
    ensures r.Some? <==> 100 <= n < 1000
    ensures r.Some? ==> r.value == n
  {
    if 100 <= n < 1000 then Some(n) else None
  }

  /** The non-standard "Client Closed Request" status and the fallback used
      should it not be constructible. */
  const CLIENT_CLOSED_REQUEST: int := 499
  const IM_A_TEAPOT: int := 418

  /** `From<Error> for http::StatusCode`. */
  function HttpStatus(k: Kind): (r: int)
    ensures r == 499 <==> k == Cancelled
    ensures r == 500 <==> k in {Unknown, Internal, DataLoss}
    ensures r == 400 <==> k in {InvalidArgument, FailedPrecondition, OutOfRange}
    ensures r == 504 <==> k == DeadlineExceeded
    ensures r == 404 <==> k == NotFound
    ensures r == 409 <==> k in {AlreadyExists, Aborted}
    ensures r == 403 <==> k == PermissionDenied
    ensures r == 401 <==> k == Unauthenticated
    ensures r == 429 <==> k == ResourceExhausted
    ensures r == 501 <==> k == Unimplemented
    ensures r == 503 <==> k == Unavailable
    ensures 400 <= r < 600
  {
    match k
    case Cancelled => StatusCodeFromU16(CLIENT_CLOSED_REQUEST).GetOr(IM_A_TEAPOT)
    case Unknown => 500
    case InvalidArgument => 400
    case DeadlineExceeded => 504
    case NotFound => 404
    case AlreadyExists => 409
    case PermissionDenied => 403
    case Unauthenticated => 401
    case ResourceExhausted => 429
    case FailedPrecondition => 400
    case Aborted => 409
    case OutOfRange => 400
    case Unimplemented => 501
    case Internal => 500
    case Unavailable => 503
    case DataLoss => 500
  }

  // ---------------------------------------------------------------------
  // Constructors and builders
  // ---------------------------------------------------------------------

  /** `Error::cancelled`, `Error::unknown`, … `Error::data_loss`: the given
      kind wrapping the given message and no details. */
  function New(k: Kind, message: Option<string>): (e: Error)
    ensures e.kind == k
    ensures e.status.message == message
    ensures e.status.details.None?
  {
    Error(k, DefaultStatus.WithMessage(message))
  }

  /** `Error::invalid_argument_field`: an invalid-argument error with one
      bad-request detail naming a top-level member. */
  function InvalidArgumentField(message: Option<string>, name: string, description: Option<string>): (e: Error)
    ensures e.kind == InvalidArgument
    ensures e.status.message == message
    ensures |DetailList(e.status)| == 1 && e.status.details.Some?
    ensures var d := e.status.details.value[0];
      d.BadRequest? && |d.fieldViolations| == 1
      && d.fieldViolations[0].field.ToString() == name
      && d.fieldViolations[0].field.pathReversed == [Member(name)]
      && d.fieldViolations[0].description == description
  {
    Error(InvalidArgument, DefaultStatus.WithMessage(message).WithDetails(BadRequestOf(ForMember(name, description))))
  }

  /** `Error::invalid_argument_field_name`: as `invalid_argument_field`
      with no message and a present description. */
  function InvalidArgumentFieldName(name: string, description: string): (e: Error)
    ensures e.kind == InvalidArgument
    ensures e.status.message.None?
    ensures e.status.details.Some? && |e.status.details.value| == 1
    ensures var d := e.status.details.value[0];
      d.BadRequest? && |d.fieldViolations| == 1
      && d.fieldViolations[0].field.pathReversed == [Member(name)]
      && d.fieldViolations[0].field.ToString() == name
      && d.fieldViolations[0].description == Some(description)
  {
    Error(InvalidArgument, DefaultStatus.WithDetails(BadRequestOf(ForMember(name, Some(description)))))
  }

  /** `Error::with_error`: same kind and message, one debug-info record with
      the source's display text appended to the details. */
  function WithError(e: Error, text: string): (r: Error)
    ensures r.kind == e.kind
    ensures r.status.message == e.status.message
    ensures DetailList(r.status) == DetailList(e.status) + [DebugInfoOf(text)]
    ensures Display(r) == Display(e)
  {
    Error(e.kind, e.status.WithError(text))
  }

  // ---------------------------------------------------------------------
  // RPC status conversions
  // ---------------------------------------------------------------------

  /** A `tonic::Code`: the google.rpc.Code values, Ok (0) through Unauthenticated (16). */
  type RpcCode = c: int | OK <= c <= UNAUTHENTICATED

  /** A `tonic::Status`, as far as these conversions use it. */
  datatype RpcStatus = RpcStatus(code: RpcCode, message: string)

  /** `From<Error> for tonic::Status`: the kind's code and the message, an
      absent message sent as empty; details are not carried. */
  function ToRpc(e: Error): (s: RpcStatus)
    ensures s.code != OK
    ensures KindOfCode(s.code) == Some(e.kind)
    ensures s.message == e.status.message.GetOr("")
  {
    CodeRoundTrip(e.kind);
    RpcStatus(Code(e.kind), e.status.message.GetOr(""))
  }

  /** The message `TryFrom<tonic::Status>` gives when asked to convert Ok. */
  const OK_NOT_AN_ERROR: string := "Cannot convert OK status to Error"

  /** `TryFrom<tonic::Status> for Error`: an Ok status is rejected with an
      invalid-argument error; any other code gives the kind it denotes, with
      the status message and no details. */
  function FromRpc(s: RpcStatus): (r: Result<Error, Error>)
    ensures r.Failure? <==> s.code == OK
    ensures r.Failure? ==> r.error == New(InvalidArgument, Some(OK_NOT_AN_ERROR))
    ensures r.Success? ==> Code(r.value.kind) == s.code
    ensures r.Success? ==> r.value.status == ErrorStatus(Some(s.message), None)
  {
    match KindOfCode(s.code)
    case None => Failure(New(InvalidArgument, Some(OK_NOT_AN_ERROR)))
    case Some(k) =>
      CodeOnto(s.code);
      Success(New(k, Some(s.message)))
  }

  /** Error to RPC status and back keeps the kind and the message (an absent
      message comes back empty) and drops the details. */
  lemma RpcRoundTrip(e: Error)
    ensures FromRpc(ToRpc(e)) == Success(Error(e.kind, ErrorStatus(Some(e.status.message.GetOr("")), None)))
  {
    CodeRoundTrip(e.kind);
  }

  /** Every non-Ok RPC status survives the trip through `Error` unchanged. */
  lemma RpcStatusRoundTrip(s: RpcStatus)
    requires s.code != OK
    ensures FromRpc(s).Success? && ToRpc(FromRpc(s).value) == s
  {
    CodeOnto(s.code);
  }

  // ---------------------------------------------------------------------
  // The behaviour the unit tests pin down
  // ---------------------------------------------------------------------

  /** `error_display`: an internal error with an attached source displays as
      "INTERNAL" and carries a debug-info record. */
  lemma InternalWithErrorDisplay(message: string, source: string)
    ensures var e := WithError(New(Internal, Some(message)), source);
      Display(e) == "INTERNAL"
      && e.status.details.Some?
      && exists i :: 0 <= i < |e.status.details.value| && e.status.details.value[i].Name() == "DEBUG_INFO"
  {
    var e := WithError(New(Internal, Some(message)), source);
    assert e.status.details.value[0].Name() == "DEBUG_INFO";
  }

  /** `property_*_display`: the three property renderings. */
  lemma PropertyDisplayExamples()
    ensures Member("nickname").ToString() == "nickname"
    ensures MapMember("children", "son").ToString() == "children[\"son\"]"
    ensures ArrayMember("children", 3).ToString() == "children[3]"
  {
    assert NatToString(3) == "3";
  }

  /** A map member within an array member within a member renders in
      reading order, outermost first. */
  lemma ThreeSegmentFieldDisplay(outer: string, list: string, index: nat, dict: string, key: string)
    ensures Field.New(MapMember(dict, key))
              .WithContext(ArrayMember(list, index))
              .WithContext(Member(outer))
              .ToString() == outer + "." + list + "[" + NatToString(index) + "]" + "." + dict + "[\"" + key + "\"]"
  {
    var inner := Field.New(MapMember(dict, key));
    var middle := inner.WithContext(ArrayMember(list, index));
    var a, m := ArrayMember(list, index).ToString(), MapMember(dict, key).ToString();
    assert a == list + "[" + NatToString(index) + "]";
    assert m == dict + "[\"" + key + "\"]";
    WithContextRendersFirst(inner, ArrayMember(list, index));
    WithContextRendersFirst(middle, Member(outer));
    assert middle.ToString() == a + "." + m;
    assert middle.WithContext(Member(outer)).ToString() == outer + "." + (a + "." + m);
    ThreeSegmentText(outer, list, NatToString(index), dict, key);
  }

  /** Regrouping the three renderings into the reading-order text. */
  lemma ThreeSegmentText(outer: string, list: string, digits: string, dict: string, key: string)
    ensures outer + "." + ((list + "[" + digits + "]") + "." + (dict + "[\"" + key + "\"]"))
         == outer + "." + list + "[" + digits + "]" + "." + dict + "[\"" + key + "\"]"
  {
  }

  /** `property_display`: the test's three-segment field. */
  lemma NestedFieldDisplayExample()
    ensures Field.New(MapMember("nicknames", "joe"))
              .WithContext(ArrayMember("children", 3))
              .WithContext(Member("family"))
              .ToString() == "family.children[3].nicknames[\"joe\"]"
  {
    ThreeSegmentFieldDisplay("family", "children", 3, "nicknames", "joe");
    NestedFieldText();
  }

  lemma NestedFieldText()
    ensures "family" + "." + "children" + "[" + NatToString(3) + "]" + "." + "nicknames" + "[\"" + "joe" + "\"]"
      == "family.children[3].nicknames[\"joe\"]"
  {
    assert NatToString(3) == "3";
  }

  /** `field_serialize_json`: a member within a member. */
  lemma MemberFieldDisplayExample()
    ensures Field.OfMember("config").WithContext(Member("server")).ToString() == "server.config"
  {
    WithContextRendersFirst(Field.OfMember("config"), Member("server"));
  }
}
