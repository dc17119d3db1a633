/** lib/api.ts: the URL, headers and method every backend request uses, and
    the error text of a failed response. */
module Api {
  import opened Wrappers
  import opened Text

  /** The fallback when `NEXT_PUBLIC_API_URL` is unset or empty. */
  const DefaultApiBaseUrl: string := "https://bc67fde3e514.ngrok-free.app"

  /** `process.env.NEXT_PUBLIC_API_URL || DefaultApiBaseUrl` */
  function ApiBaseUrl(env: Option<string>): (base: string)
    ensures env.Some? && env.value != "" ==> base == env.value
    ensures env.None? || env.value == "" ==> base == DefaultApiBaseUrl
  {
    if env.Some? && env.value != "" then env.value else DefaultApiBaseUrl
  }

  /** `getApiUrl`: the base followed by the endpoint, with a '/' put in
      front of an endpoint that lacks one. */
  function ApiUrl(base: string, endpoint: string): (url: string)
    ensures |url| > |base| && url[..|base|] == base && url[|base|] == '/'
    ensures StartsWith(endpoint, "/") ==> url[|base|..] == endpoint
    ensures !StartsWith(endpoint, "/") ==> url[|base| + 1..] == endpoint
  {
    base + (if StartsWith(endpoint, "/") then endpoint else "/" + endpoint)
  }

  /** The leading '/' is optional: `x` and `/x` give the same URL, and a
      URL built from the same base only from the same endpoint path. */
  lemma ApiUrlSlashOptional(base: string, endpoint: string)
    requires !StartsWith(endpoint, "/")
    ensures ApiUrl(base, "/" + endpoint) == ApiUrl(base, endpoint)
  {
    assert StartsWith("/" + endpoint, "/");
  }

  lemma ApiUrlInjective(base: string, a: string, b: string)
    requires StartsWith(a, "/") && StartsWith(b, "/")
    ensures ApiUrl(base, a) == ApiUrl(base, b) ==> a == b
  {
    if ApiUrl(base, a) == ApiUrl(base, b) {
      assert a == ApiUrl(base, a)[|base|..];
    }
  }

  datatype HttpMethod = GET | POST | PUT | DELETE

  /** The options a page passes: each may be absent. */
  datatype RequestOptions = RequestOptions(
    verb: Option<HttpMethod>,
    headers: Option<map<string, string>>,
    body: Option<string>)

  /** What `fetch` is called with. */
  datatype RequestConfig = RequestConfig(verb: HttpMethod, headers: map<string, string>, body: Option<string>)

  /** The headers every request starts from. */
  const BaseHeaders: map<string, string> :=
    map["Content-Type" := "application/json", "ngrok-skip-browser-warning" := "true"]

  /** `{ ...defaultHeaders, ...options.headers }`: every name of either map,
      the caller's value winning. */
  function MergeHeaders(defaults: map<string, string>, caller: map<string, string>): (merged: map<string, string>)
    ensures merged.Keys == defaults.Keys + caller.Keys
    ensures forall name | name in caller :: merged[name] == caller[name]
    ensures forall name | name in defaults && name !in caller :: merged[name] == defaults[name]
  {
    defaults + caller
  }

  /** `apiRequest` before the `fetch`: the URL, the default headers with an
      `Authorization` header added in place when there is an access token,
      then merged with the caller's headers, and `GET` unless the options
      name a method. */
  method BuildRequest(base: string, endpoint: string, options: RequestOptions, accessToken: Option<string>)
    returns (url: string, config: RequestConfig)
    ensures url == ApiUrl(base, endpoint)
    ensures config.verb == options.verb.GetOr(GET)
    ensures config.body == options.body
    ensures var caller := options.headers.GetOr(map[]);
      config.headers == MergeHeaders(
        if accessToken.Some? && accessToken.value != "" then BaseHeaders["Authorization" := "Bearer " + accessToken.value]
        else BaseHeaders,
        caller)
  {
    url := base + (if StartsWith(endpoint, "/") then endpoint else "/" + endpoint);
    var defaultHeaders := BaseHeaders;
    if accessToken.Some? && accessToken.value != "" {
      defaultHeaders := defaultHeaders["Authorization" := "Bearer " + accessToken.value];
    }
    var verb := GET;
    if options.verb.Some? {
      verb := options.verb.value;
    }
    var callerHeaders := if options.headers.Some? then options.headers.value else map[];
    config := RequestConfig(verb, defaultHeaders + callerHeaders, options.body);
  }

  /** The request's headers: a bearer token header exactly when there is a
      non-empty access token or the caller sets one, the caller's value
      winning; the JSON and ngrok headers unless the caller replaces them. */
  lemma RequestHeaders(options: RequestOptions, accessToken: Option<string>)
    ensures var caller := options.headers.GetOr(map[]);
      var defaults := if accessToken.Some? && accessToken.value != "" then
        BaseHeaders["Authorization" := "Bearer " + accessToken.value] else BaseHeaders;
      var merged := MergeHeaders(defaults, caller);
      ("Authorization" in merged <==> (accessToken.Some? && accessToken.value != "") || "Authorization" in caller)
      && ("Authorization" !in caller && accessToken.Some? && accessToken.value != "" ==>
            merged["Authorization"] == "Bearer " + accessToken.value)
      && ("Content-Type" !in caller ==> merged["Content-Type"] == "application/json")
      && ("ngrok-skip-browser-warning" !in caller ==> merged["ngrok-skip-browser-warning"] == "true")
  {
    assert "Authorization" !in BaseHeaders by {
      assert |"Authorization"| != |"Content-Type"| && |"Authorization"| != |"ngrok-skip-browser-warning"|;
    }
  }

  const ErrorPrefix: string := "API request failed: ["

  /** The text of the error thrown on a non-ok response:
      `API request failed: [status] message`. */
  function ErrorMessage(status: nat, message: string): (text: string)
    ensures StartsWith(text, ErrorPrefix)
    ensures |text| >= |message| && text[|text| - |message|..] == message
  {
    ErrorPrefix + NatToString(status) + "] " + message
  }

  /** The status and the message can be read back from the error text: the
      digits between the brackets spell the status and the rest after "] "
      is the message. */
  lemma ErrorMessageReadBack(status: nat, message: string)
    ensures var text, digits := ErrorMessage(status, message), NatToString(status);
      var close := |ErrorPrefix| + |digits|;
      |text| == close + 2 + |message|
      && text[|ErrorPrefix|..close] == digits && DigitsValue(digits) == status
      && text[close..close + 2] == "] " && text[close + 2..] == message
  {
    var digits := NatToString(status);
    var text := ErrorMessage(status, message);
    assert text == ErrorPrefix + digits + "] " + message;
    NatToStringRoundTrip(status);
  }
}
