/** The pure parts of the client: the base URL it keeps, the rule that turns
    a service response envelope into a result, and the query string of the
    SVG rendering request. */
module Client {
  import opened Wrappers
  import opened Types
  import Decimal
  import Text

  // ---------------------------------------------------------------------
  // Construction: the base URL loses its trailing slashes.

  /** A client: its base URL and, when it holds a signing identity, that
      identity's uuid. The HTTP connection is not modelled. */
  datatype CovenantClient = CovenantClient(baseUrl: string, identity: Option<string>)

  predicate EndsWithSlash(s: string) {
    |s| > 0 && s[|s| - 1] == '/'
  }

  /** Rust's `trim_end_matches('/')`: the longest prefix of `s` that does not
      end with a slash; everything cut off is slashes. */
  function TrimTrailingSlashes(s: string): (r: string)
    ensures |r| <= |s| && s[..|r|] == r
    ensures !EndsWithSlash(r)
    ensures forall i :: |r| <= i < |s| ==> s[i] == '/'
    decreases |s|
  {
    if EndsWithSlash(s) then TrimTrailingSlashes(s[..|s| - 1]) else s
  }

  /** The three properties of `TrimTrailingSlashes` pin its result down:
      any prefix that does not end with a slash and leaves only slashes
      behind is that result. */
  lemma TrimTrailingSlashesUnique(s: string, r: string)
    requires |r| <= |s| && s[..|r|] == r
    requires !EndsWithSlash(r)
    requires forall i :: |r| <= i < |s| ==> s[i] == '/'
    ensures r == TrimTrailingSlashes(s)
  {
  }

  /** The base URL `new` keeps: trimmed when it ends with a slash, as given
      otherwise. */
  function NormalizeBaseUrl(baseUrl: string): (r: string)
    ensures |r| <= |baseUrl| && baseUrl[..|r|] == r
    ensures !EndsWithSlash(r)
    ensures forall i :: |r| <= i < |baseUrl| ==> baseUrl[i] == '/'
    ensures !EndsWithSlash(baseUrl) ==> r == baseUrl
  {
    if EndsWithSlash(baseUrl) then TrimTrailingSlashes(baseUrl) else baseUrl
  }

  /** The `ends_with` guard in `new` changes nothing: normalising is
      trimming. Normalising twice is normalising once. */
  lemma NormalizeBaseUrlIsTrim(baseUrl: string)
    ensures NormalizeBaseUrl(baseUrl) == TrimTrailingSlashes(baseUrl)
    ensures NormalizeBaseUrl(NormalizeBaseUrl(baseUrl)) == NormalizeBaseUrl(baseUrl)
  {
  }

  /** `CovenantClient::new`: never fails; keeps the normalised URL and the
      identity. */
  function New(baseUrl: string, identity: Option<string>): (r: Result<CovenantClient, CovenantError>)
    ensures r.Success?
    ensures r.value.identity == identity
    ensures !EndsWithSlash(r.value.baseUrl)
    ensures r.value.baseUrl == TrimTrailingSlashes(baseUrl)
  {
    Success(CovenantClient(NormalizeBaseUrl(baseUrl), identity))
  }

  // ---------------------------------------------------------------------
  // The response envelope.

  /** The `{success, data, error}` envelope every service reply comes in. */
  datatype ServiceResponse<T> = ServiceResponse(success: bool, data: Option<T>, error: Option<string>)

  /** The request methods that unwrap an envelope carrying data. */
  datatype Endpoint = CreateContract | GetContract | UpdateContract | SignStep | ListContracts

  /** The message used when a failed envelope carries no error text. */
  function FailureDefault(endpoint: Endpoint): string {
    match endpoint
    case CreateContract => "Unknown error"
    case GetContract => "Contract not found"
    case UpdateContract => "Update failed"
    case SignStep => "Sign step failed"
    case ListContracts => "List contracts failed"
  }

  /** The message used when a successful envelope carries no data. */
  function MissingData(endpoint: Endpoint): string {
    match endpoint
    case CreateContract | GetContract | UpdateContract => "No contract data returned"
    case SignStep => "No sign response data returned"
    case ListContracts => "No contracts data returned"
  }

  /** A failure flag gives the service's error (or the endpoint's default);
      success without data is an error too; otherwise the data is the
      result. The error text of a successful envelope is ignored. */
  function Unwrap<T>(endpoint: Endpoint, response: ServiceResponse<T>): (r: Result<T, CovenantError>)
    ensures !response.success ==> r == Failure(ServiceError(response.error.GetOr(FailureDefault(endpoint))))
    ensures response.success && response.data.None? ==> r == Failure(ServiceError(MissingData(endpoint)))
    ensures r.Success? <==> response.success && response.data.Some?
    ensures r.Success? ==> r.value == response.data.value
  {
    if !response.success then Failure(ServiceError(response.error.GetOr(FailureDefault(endpoint))))
    else if response.data.None? then Failure(ServiceError(MissingData(endpoint)))
    else Success(response.data.value)
  }

  /** The envelope a well-behaved service sends for an outcome. */
  function Respond<T>(outcome: Result<T, string>): ServiceResponse<T> {
    match outcome
    case Success(v) => ServiceResponse(true, Some(v), None)
    case Failure(m) => ServiceResponse(false, None, Some(m))
  }

  /** Unwrapping a well-behaved envelope recovers the outcome, with the
      service's message as a service error. */
  lemma UnwrapRespond<T>(endpoint: Endpoint, outcome: Result<T, string>)
    ensures outcome.Success? ==> Unwrap(endpoint, Respond(outcome)) == Success(outcome.value)
    ensures outcome.Failure? ==> Unwrap(endpoint, Respond(outcome)) == Failure(ServiceError(outcome.error))
  {
  }

  /** `delete_contract`: only the flag matters; on success the result is the
      uuid that was asked for, whatever data came back. */
  function UnwrapDelete<T>(response: ServiceResponse<T>, uuid: string): (r: Result<string, CovenantError>)
    ensures !response.success ==> r == Failure(ServiceError(response.error.GetOr("Delete failed")))
    ensures response.success ==> r == Success(uuid)
  {
    if !response.success then Failure(ServiceError(response.error.GetOr("Delete failed"))) else Success(uuid)
  }

  /** Delete is the one endpoint without the missing-data rule: a successful
      envelope without data is a success for delete and an error for every
      other endpoint. On a failure flag carrying error text, delete reports
      the same service error as the others. */
  lemma DeleteSkipsMissingDataRule<T>(endpoint: Endpoint, response: ServiceResponse<T>, uuid: string)
    ensures response.success && response.data.None? ==>
              UnwrapDelete(response, uuid) == Success(uuid) && Unwrap(endpoint, response).Failure?
    ensures UnwrapDelete(response, uuid).Success? <==> response.success
    ensures !response.success && response.error.Some? ==>
              && Unwrap(endpoint, response).Failure?
              && UnwrapDelete(response, uuid) == Failure(Unwrap(endpoint, response).error)
  {
  }

  /** `get_contract_svg` after the request. With a successful HTTP status
      the body is read as text; otherwise it is read as an envelope, whose
      error text (or a default) is reported. Either reading is done by the
      HTTP library and can fail; `Failure(reason)` stands for that failure,
      which becomes a request error. */
  function SvgOutcome(statusSuccess: bool, text: Result<string, string>, errorEnvelope: Result<Option<string>, string>)
    : (r: Result<string, CovenantError>)
    ensures statusSuccess && text.Success? ==> r == Success(text.value)
    ensures statusSuccess && text.Failure? ==> r == Failure(RequestError(text.error))
    ensures !statusSuccess && errorEnvelope.Failure? ==> r == Failure(RequestError(errorEnvelope.error))
    ensures !statusSuccess && errorEnvelope.Success? ==>
              r == Failure(ServiceError(errorEnvelope.value.GetOr("SVG generation failed")))
  {
    if statusSuccess then
      match text
      case Success(body) => Success(body)
      case Failure(reason) => Failure(RequestError(reason))
    else
      match errorEnvelope
      case Failure(reason) => Failure(RequestError(reason))
      case Success(error) => Failure(ServiceError(error.GetOr("SVG generation failed")))
  }

  /** An SVG error reply carrying error text is reported exactly as `Unwrap`
      reports a failed envelope with that text, whatever the endpoint. */
  lemma SvgErrorFollowsUnwrap(endpoint: Endpoint, text: Result<string, string>, message: string, data: Option<string>)
    ensures SvgOutcome(false, text, Success(Some(message))) == Unwrap(endpoint, ServiceResponse(false, data, Some(message)))
  {
  }

  // ---------------------------------------------------------------------
  // The SVG query string.

  /** A `u32` display dimension. */
  type U32 = n: nat | n < 0x1_0000_0000

  /** The display parameters of an SVG request. */
  datatype SvgParams = SvgParams(theme: Option<string>, width: Option<nat>, height: Option<nat>)

  function ThemeParam(theme: string): string { "theme=" + theme }
  function WidthParam(width: nat): string { "width=" + Decimal.NatToString(width) }
  function HeightParam(height: nat): string { "height=" + Decimal.NatToString(height) }

  /** The `key=value` pairs, theme then width then height, each only when
      given. Read back pair by pair, they give the parameters again. */
  function SvgParamList(theme: Option<string>, width: Option<U32>, height: Option<U32>): (ps: seq<string>)
    ensures |ps| == (if theme.Some? then 1 else 0) + (if width.Some? then 1 else 0) + (if height.Some? then 1 else 0)
    ensures theme.Some? ==> ps[0] == ThemeParam(theme.value)
    ensures height.Some? ==> ps[|ps| - 1] == HeightParam(height.value)
    ensures width.Some? ==> ps[if theme.Some? then 1 else 0] == WidthParam(width.value)
    ensures ReadParams(ps, SvgParams(None, None, None)) == SvgParams(theme, width, height)
  {
    var t := if theme.Some? then [ThemeParam(theme.value)] else [];
    var w := if width.Some? then [WidthParam(width.value)] else [];
    var h := if height.Some? then [HeightParam(height.value)] else [];
    var empty := SvgParams(None, None, None);
    ReadParamsAppend(t + w, h, empty);
    ReadParamsAppend(t, w, empty);
    ReadEachParam(theme.GetOr(""), 0, empty);
    var a0 := ReadParams(t, empty);
    ReadEachParam("", width.GetOr(0), a0);
    var a1 := ReadParams(w, a0);
    ReadEachParam("", height.GetOr(0), a1);
    t + w + h
  }

  /** The query appended to the SVG URL: empty when no parameter is given,
      otherwise `?` and the pairs joined by `&`. The theme is not escaped. */
  function SvgQuery(theme: Option<string>, width: Option<U32>, height: Option<U32>): (q: string)
    ensures q == "" <==> theme.None? && width.None? && height.None?
    ensures q != "" ==> q[0] == '?'
  {
    var ps := SvgParamList(theme, width, height);
    if |ps| == 0 then "" else "?" + Text.Join(ps, '&')
  }

  /** Reads one `key=value` pair into the parameters; a later pair for the
      same key wins, unknown keys are skipped. */
  function ReadParam(segment: string, acc: SvgParams): SvgParams {
    if Text.HasPrefix(segment, "theme=") then acc.(theme := Some(segment[6..]))
    else if Text.HasPrefix(segment, "width=") then acc.(width := Decimal.ParseNat(segment[6..]))
    else if Text.HasPrefix(segment, "height=") then acc.(height := Decimal.ParseNat(segment[7..]))
    else acc
  }

  function ReadParams(segments: seq<string>, acc: SvgParams): SvgParams
    decreases |segments|
  {
    if |segments| == 0 then acc else ReadParams(segments[1..], ReadParam(segments[0], acc))
  }

  /** How the service reads the query back. */
  function ParseSvgQuery(q: string): SvgParams {
    if |q| >= 1 && q[0] == '?' then ReadParams(Text.Split(q[1..], '&'), SvgParams(None, None, None))
    else SvgParams(None, None, None)
  }

  lemma {:induction false} ReadParamsAppend(a: seq<string>, b: seq<string>, acc: SvgParams)
    ensures ReadParams(a + b, acc) == ReadParams(b, ReadParams(a, acc))
    decreases |a|
  {
    if |a| > 0 {
      assert (a + b)[1..] == a[1..] + b;
      ReadParamsAppend(a[1..], b, ReadParam(a[0], acc));
    } else {
      assert a + b == b;
    }
  }

  lemma NoAmpersandInNumeral(n: nat)
    ensures '&' !in Decimal.NatToString(n)
  {
  }

  lemma ReadEachParam(theme: string, n: nat, acc: SvgParams)
    ensures ReadParam(ThemeParam(theme), acc) == acc.(theme := Some(theme))
    ensures ReadParam(WidthParam(n), acc) == acc.(width := Some(n))
    ensures ReadParam(HeightParam(n), acc) == acc.(height := Some(n))
  {
    Decimal.ParseNatToString(n);
    assert ThemeParam(theme)[..6] == "theme=" && ThemeParam(theme)[6..] == theme;
    var w := WidthParam(n);
    assert w[..6] == "width=" && w[6..] == Decimal.NatToString(n);
    assert w[..6] != "theme=" by { assert w[0] != "theme="[0]; }
    var h := HeightParam(n);
    assert h[..7] == "height=" && h[7..] == Decimal.NatToString(n);
    assert h[..6] != "theme=" by { assert h[0] != "theme="[0]; }
    assert h[..6] != "width=" by { assert h[0] != "width="[0]; }
  }

  /** The query reads back as the parameters it was built from, provided the
      theme holds none of the characters a URL or form decoder treats
      specially: `&` separates pairs, `#` starts a fragment, and `%` and `+`
      are decoded. */
  lemma ParseSvgQueryRoundTrip(theme: Option<string>, width: Option<U32>, height: Option<U32>)
    requires theme.Some? ==> '&' !in theme.value && '#' !in theme.value && '%' !in theme.value && '+' !in theme.value
    ensures ParseSvgQuery(SvgQuery(theme, width, height)) == SvgParams(theme, width, height)
  {
    var ps := SvgParamList(theme, width, height);
    if |ps| > 0 {
      var t := if theme.Some? then [ThemeParam(theme.value)] else [];
      var w := if width.Some? then [WidthParam(width.value)] else [];
      var h := if height.Some? then [HeightParam(height.value)] else [];
      assert ps == t + w + h;
      if width.Some? { NoAmpersandInNumeral(width.value); }
      if height.Some? { NoAmpersandInNumeral(height.value); }
      forall i | 0 <= i < |ps| ensures '&' !in ps[i] {
        if theme.Some? && i == 0 {
          assert ps[i] == "theme=" + theme.value;
        }
      }
      Text.SplitJoin(ps, '&');
      var q := SvgQuery(theme, width, height);
      assert q[1..] == Text.Join(ps, '&');
    }
  }

  /** Without escaping, a theme containing `&` can smuggle in another
      parameter: two different requests produce the same query. */
  lemma UnescapedThemeCollides()
    ensures SvgQuery(Some("dark&width=5"), None, None) == SvgQuery(Some("dark"), Some(5), None)
    ensures SvgParams(Some("dark&width=5"), None, None) != SvgParams(Some("dark"), Some(5), None)
  {
  }
}
