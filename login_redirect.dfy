/** app/page.tsx: the landing page's `handleRedirect`, which forwards a LINE
    login callback to the page the user meant to open, carrying the login
    parameters, and sends any other visit to the card list. */
module LoginRedirect {
  import opened Wrappers
  import opened Text
  import opened Query

  const DefaultPath: string := "/admin/scratch-cards"
  const AdminPrefix: string := "/admin"
  const ScratchCardPrefix: string := "/scratch-cards/"

  /** Where the page goes: a full-page load of `path` with a query, or a
      client-side `router.replace`. */
  datatype Navigation = AssignLocation(path: string, query: seq<Param>) | RouterReplace(path: string)

  /** A JavaScript string test: present and not empty. */
  predicate Truthy(v: Option<string>) {
    v.Some? && v.value != ""
  }

  /** A login callback carries a non-empty `code`, `state` and `liffClientId`. */
  predicate IsCallback(searchParams: seq<Param>) {
    Truthy(Get(searchParams, "code")) && Truthy(Get(searchParams, "state"))
    && Truthy(Get(searchParams, "liffClientId"))
  }

  /** The page a callback goes to: the stored path when it starts with
      `/admin` or `/scratch-cards/`, the card list otherwise. */
  function TargetPath(intendedPath: Option<string>): (path: string)
    ensures Truthy(intendedPath) && StartsWith(intendedPath.value, AdminPrefix) ==> path == intendedPath.value
    ensures Truthy(intendedPath) && StartsWith(intendedPath.value, ScratchCardPrefix) ==> path == intendedPath.value
    ensures (!Truthy(intendedPath)
             || !(StartsWith(intendedPath.value, AdminPrefix) || StartsWith(intendedPath.value, ScratchCardPrefix)))
            ==> path == DefaultPath
    ensures StartsWith(path, AdminPrefix) || StartsWith(path, ScratchCardPrefix)
  {
    assert StartsWith(DefaultPath, AdminPrefix);
    if Truthy(intendedPath) && StartsWith(intendedPath.value, AdminPrefix) then intendedPath.value
    else if Truthy(intendedPath) && StartsWith(intendedPath.value, ScratchCardPrefix) then intendedPath.value
    else DefaultPath
  }

  /** The query of the callback redirect: the five `set` calls, in order. */
  function CallbackQuery(code: string, state: string, liffClientId: string, liffRedirectUri: Option<string>)
    : seq<Param>
  {
    var q1 := Set([], "code", code);
    var q2 := Set(q1, "state", state);
    var q3 := Set(q2, "liffClientId", liffClientId);
    var q4 := Set(q3, "liffRedirectUri", liffRedirectUri.GetOr(""));
    Set(q4, "liff_login", "true")
  }

  /** Starting from an empty query, the five `set` calls append the five
      login parameters in order: the callback's code, state and client id,
      its redirect URI or the empty string, and `liff_login=true`. */
  lemma CallbackQueryParams(code: string, state: string, liffClientId: string, liffRedirectUri: Option<string>)
    ensures CallbackQuery(code, state, liffClientId, liffRedirectUri)
      == [Param("code", code), Param("state", state), Param("liffClientId", liffClientId),
          Param("liffRedirectUri", liffRedirectUri.GetOr("")), Param("liff_login", "true")]
  {
    var q1 := [Param("code", code)];
    var q2 := q1 + [Param("state", state)];
    var q3 := q2 + [Param("liffClientId", liffClientId)];
    var q4 := q3 + [Param("liffRedirectUri", liffRedirectUri.GetOr(""))];
    assert !HasKey([], "code");
    assert Set([], "code", code) == q1;
    assert !HasKey(q1, "state") by { assert |"code"| != |"state"|; }
    assert !HasKey(q2, "liffClientId") by {
      assert |"code"| != |"liffClientId"| && |"state"| != |"liffClientId"|;
    }
    assert !HasKey(q3, "liffRedirectUri") by {
      assert |"code"| != |"liffRedirectUri"| && |"state"| != |"liffRedirectUri"|;
      assert |"liffClientId"| != |"liffRedirectUri"|;
    }
    assert !HasKey(q4, "liff_login") by {
      assert |"code"| != |"liff_login"| && |"state"| != |"liff_login"|;
      assert |"liffClientId"| != |"liff_login"| && |"liffRedirectUri"| != |"liff_login"|;
    }
  }

  /** `handleRedirect`'s decision for the page's query and the stored path. */
  function Redirect(searchParams: seq<Param>, intendedPath: Option<string>): Navigation {
    if IsCallback(searchParams) then
      AssignLocation(TargetPath(intendedPath),
        CallbackQuery(Get(searchParams, "code").value, Get(searchParams, "state").value,
                      Get(searchParams, "liffClientId").value, Get(searchParams, "liffRedirectUri")))
    else RouterReplace(DefaultPath)
  }

  /** A callback is forwarded by a full-page load to an admin or card page
      with the five login parameters; anything else is replaced by the card
      list. */
  lemma RedirectOutcome(searchParams: seq<Param>, intendedPath: Option<string>)
    ensures var nav := Redirect(searchParams, intendedPath);
      (nav.RouterReplace? <==> !IsCallback(searchParams))
      && (nav.RouterReplace? ==> nav.path == DefaultPath)
      && (nav.AssignLocation? ==>
            (StartsWith(nav.path, AdminPrefix) || StartsWith(nav.path, ScratchCardPrefix))
            && Get(nav.query, "code") == Get(searchParams, "code")
            && Get(nav.query, "state") == Get(searchParams, "state")
            && Get(nav.query, "liffClientId") == Get(searchParams, "liffClientId")
            && Get(nav.query, "liffRedirectUri") == Some(Get(searchParams, "liffRedirectUri").GetOr(""))
            && Get(nav.query, "liff_login") == Some("true"))
  {
    if IsCallback(searchParams) {
      var code, state, clientId := Get(searchParams, "code").value, Get(searchParams, "state").value,
        Get(searchParams, "liffClientId").value;
      var uri := Get(searchParams, "liffRedirectUri");
      CallbackQueryParams(code, state, clientId, uri);
      var q := CallbackQuery(code, state, clientId, uri);
      assert q[1..][1..] == q[2..] && q[2..][1..] == q[3..] && q[3..][1..] == q[4..];
      assert |"code"| != |"state"| && |"code"| != |"liffClientId"| && |"state"| != |"liffClientId"|;
      assert |"code"| != |"liffRedirectUri"| && |"state"| != |"liffRedirectUri"|;
      assert |"liffClientId"| != |"liffRedirectUri"|;
      assert |"code"| != |"liff_login"| && |"state"| != |"liff_login"|;
      assert |"liffClientId"| != |"liff_login"| && |"liffRedirectUri"| != |"liff_login"|;
      var uriValue := uri.GetOr("");
      assert Get(q[4..], "liff_login") == Some("true");
      assert Get(q[3..], "liffRedirectUri") == Some(uriValue) && Get(q[3..], "liff_login") == Some("true");
      assert Get(q[2..], "liffClientId") == Some(clientId);
      assert Get(q[2..], "liffRedirectUri") == Some(uriValue) && Get(q[2..], "liff_login") == Some("true");
      assert Get(q[1..], "liffClientId") == Some(clientId);
      assert Get(q[1..], "liffRedirectUri") == Some(uriValue) && Get(q[1..], "liff_login") == Some("true");
    }
  }

  /** The landing page with the `liff-intended-path` entry of session storage. */
  class HomePage {
    var intendedPath: Option<string>

    constructor(stored: Option<string>)
      ensures intendedPath == stored
    {
      intendedPath := stored;
    }

    /** The callback redirect: the target URL's query built by successive
        `set` calls, and the stored path removed. */
    method AssignWithLogin(path: string, code: string, state: string, liffClientId: string,
                           liffRedirectUri: Option<string>) returns (nav: Navigation)
      modifies this
      ensures nav == AssignLocation(path, CallbackQuery(code, state, liffClientId, liffRedirectUri))
      ensures intendedPath.None?
    {
      var query := [];
      query := Set(query, "code", code);
      query := Set(query, "state", state);
      query := Set(query, "liffClientId", liffClientId);
      query := Set(query, "liffRedirectUri", liffRedirectUri.GetOr(""));
      query := Set(query, "liff_login", "true");
      intendedPath := None;
      nav := AssignLocation(path, query);
    }

    /** `handleRedirect`: every callback branch clears the stored path; a
        visit that is not a callback leaves it. */
    method HandleRedirect(searchParams: seq<Param>) returns (nav: Navigation)
      modifies this
      ensures nav == Redirect(searchParams, old(intendedPath))
      ensures IsCallback(searchParams) ==> intendedPath.None?
      ensures !IsCallback(searchParams) ==> intendedPath == old(intendedPath)
    {
      var code, state := Get(searchParams, "code"), Get(searchParams, "state");
      var liffClientId, liffRedirectUri := Get(searchParams, "liffClientId"), Get(searchParams, "liffRedirectUri");
      if code.Some? && code.value != "" && state.Some? && state.value != ""
         && liffClientId.Some? && liffClientId.value != "" {
        var stored := intendedPath;
        if stored.Some? && stored.value != "" {
          if StartsWith(stored.value, AdminPrefix) {
            nav := AssignWithLogin(stored.value, code.value, state.value, liffClientId.value, liffRedirectUri);
            return;
          } else if StartsWith(stored.value, ScratchCardPrefix) {
            nav := AssignWithLogin(stored.value, code.value, state.value, liffClientId.value, liffRedirectUri);
            return;
          }
        }
        nav := AssignWithLogin(DefaultPath, code.value, state.value, liffClientId.value, liffRedirectUri);
        return;
      }
      nav := RouterReplace(DefaultPath);
    }
  }
}
