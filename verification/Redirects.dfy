/** Which responses are followed, with which method, body and headers. */
module Redirects {
  import opened Wrappers
  import opened Text

  /** `text` is `None` for a value that is not visible ASCII. */
  datatype HeaderValue = HeaderValue(text: Option<string>, sensitive: bool)

  /** Header names are lower case; a name may carry several values. */
  type Headers = map<string, seq<HeaderValue>>

  datatype Action = Action(verb: string, uri: string, dropsBody: bool, sameOrigin: bool)

  datatype Refusal = LimitExceeded | BodyNotReplayable | MissingLocation | InvalidLocation

  /** The URI functions the code delegates to. */
  datatype Uris = Uris(resolve: (string, string) -> Option<string>, sameOrigin: (string, string) -> bool)

  predicate IsRedirect(status: int) {
    status in {301, 302, 303, 307, 308}
  }

  function VerbAfter(verb: string, status: int): string {
    if status == 303 && verb != "HEAD" then "GET"
    else if status in {301, 302} && verb == "POST" then "GET"
    else verb
  }

  predicate DropsBody(verb: string, status: int) {
    status == 303 || (status in {301, 302} && verb == "POST")
  }

  function NextAction(uris: Uris, maxRedirects: nat, followed: nat, verb: string, uri: string, replayable: bool,
                      status: int, location: Option<string>): Result<Option<Action>, Refusal> {
    if maxRedirects == 0 || !IsRedirect(status) then Ok(None)
    else if followed >= maxRedirects then Err(LimitExceeded)
    else if !replayable && !DropsBody(verb, status) then Err(BodyNotReplayable)
    else if location.None? then Err(MissingLocation)
    else
      var next := uris.resolve(uri, location.value);
      if next.None? then Err(InvalidLocation)
      else Ok(Some(Action(VerbAfter(verb, status), next.value, DropsBody(verb, status),
                          uris.sameOrigin(uri, next.value))))
  }

  /** Sections 15.4.2 to 15.4.4, 15.4.8 and 15.4.9 of RFC 9110, whatever the location says. */
  lemma FollowsTheStandard(uris: Uris, maxRedirects: nat, followed: nat, verb: string, uri: string, replayable: bool,
                           status: int, location: Option<string>)
    ensures var next := NextAction(uris, maxRedirects, followed, verb, uri, replayable, status, location);
            next.Ok? && next.value.Some? ==>
              var action := next.value.value;
              && followed < maxRedirects
              && (status in {307, 308} ==> action.verb == verb && !action.dropsBody)
              && (status == 303 ==> action.verb in {"GET", "HEAD"} && action.dropsBody)
              && (status in {301, 302} ==> action.verb == verb || (verb == "POST" && action.verb == "GET"))
              && (action.verb != verb ==> action.dropsBody)
              && (!action.dropsBody ==> replayable)
  {
  }

  /** When a redirect is followed, where it leads, and how every other answer to one ends. */
  lemma FollowedExactly(uris: Uris, maxRedirects: nat, followed: nat, verb: string, uri: string, replayable: bool,
                        status: int, location: Option<string>)
    ensures var next := NextAction(uris, maxRedirects, followed, verb, uri, replayable, status, location);
            var redirects := maxRedirects > 0 && status in {301, 302, 303, 307, 308};
            var drops := status == 303 || (status in {301, 302} && verb == "POST");
            && (next == Ok(None) <==> !redirects)
            && (next == Err(LimitExceeded) <==> redirects && followed >= maxRedirects)
            && (next == Err(BodyNotReplayable) <==> redirects && followed < maxRedirects && !replayable && !drops)
            && (next.Ok? && next.value.Some? <==>
                  && redirects && followed < maxRedirects && (replayable || drops)
                  && location.Some? && uris.resolve(uri, location.value).Some?)
            && (next.Ok? && next.value.Some? ==>
                  var action := next.value.value;
                  && action.uri == uris.resolve(uri, location.value).value
                  && action.sameOrigin == uris.sameOrigin(uri, action.uri)
                  && action.dropsBody == drops
                  && action.verb == if drops && verb != "HEAD" then "GET" else verb)
  {
  }

  // ---------------------------------------------------------- headers

  const HOP_BY_HOP := {"connection", "keep-alive", "proxy-connection", "te", "trailer", "transfer-encoding", "upgrade"}
  const CONTENT := {"content-encoding", "content-length", "content-type", "content-digest", "content-md5", "digest", "expect"}
  const CREDENTIALS := {"authorization", "cookie"}

  /** The names a Connection field lists. */
  function ConnectionScoped(headers: Headers): set<string> {
    if "connection" !in headers then {}
    else
      set v, token | v in headers["connection"] && v.text.Some? && token in Split(v.text.value, ',') && Trim(token) != ""
        :: AsciiLower(Trim(token))
  }

  function Sensitive(headers: Headers): set<string> {
    set name | name in headers && exists v :: v in headers[name] && v.sensitive
  }

  function Sanitized(headers: Headers, dropsBody: bool, sameOrigin: bool): Headers {
    var hop := headers - ConnectionScoped(headers) - HOP_BY_HOP - {"host"};
    var framed := if dropsBody then hop - CONTENT else hop;
    var scoped := if sameOrigin then framed else framed - CREDENTIALS - Sensitive(framed - CREDENTIALS);
    scoped - {"proxy-authorization"}
  }

  /** Some header that must not follow a request to another origin. */
  predicate HasCredentials(headers: Headers) {
    headers.Keys * CREDENTIALS != {} || Sensitive(headers) != {}
  }

  predicate Within(fewer: Headers, more: Headers) {
    forall name :: name in fewer ==> name in more && fewer[name] == more[name]
  }

  /** A redirect only removes headers; across origins no credential is left, and with the body go its headers. */
  lemma SanitizedIsSafe(headers: Headers, dropsBody: bool, sameOrigin: bool)
    ensures var kept := Sanitized(headers, dropsBody, sameOrigin);
            && Within(kept, headers)
            && kept.Keys !! HOP_BY_HOP + {"host", "proxy-authorization"} + ConnectionScoped(headers)
            && (dropsBody ==> kept.Keys !! CONTENT)
            && (!sameOrigin ==> !HasCredentials(kept))
  {
    var kept := Sanitized(headers, dropsBody, sameOrigin);
    var hop := headers - ConnectionScoped(headers) - HOP_BY_HOP - {"host"};
    var framed := if dropsBody then hop - CONTENT else hop;
    if !sameOrigin {
      forall name | name in kept
        ensures name !in CREDENTIALS && forall v: HeaderValue :: v in kept[name] ==> !v.sensitive
      {
        assert name !in Sensitive(framed - CREDENTIALS);
      }
    }
  }

  /** And nothing else is removed: every other header is kept with its values. */
  lemma SanitizedKeepsTheRest(headers: Headers, dropsBody: bool, sameOrigin: bool, name: string)
    requires name in headers
    requires name !in ConnectionScoped(headers) + HOP_BY_HOP + {"host", "proxy-authorization"}
    requires dropsBody ==> name !in CONTENT
    requires !sameOrigin ==> name !in CREDENTIALS && forall v :: v in headers[name] ==> !v.sensitive
    ensures var kept := Sanitized(headers, dropsBody, sameOrigin); name in kept && kept[name] == headers[name]
  {
    var hop := headers - ConnectionScoped(headers) - HOP_BY_HOP - {"host"};
    var framed := if dropsBody then hop - CONTENT else hop;
    assert name in framed && framed[name] == headers[name];
    assert !sameOrigin ==> name !in Sensitive(framed - CREDENTIALS);
  }

  lemma FewerHasFewerCredentials(fewer: Headers, more: Headers)
    requires Within(fewer, more) && !HasCredentials(more)
    ensures !HasCredentials(fewer)
  {
    forall name | name in fewer
      ensures name !in CREDENTIALS && forall v :: v in fewer[name] ==> !v.sensitive
    {
      assert name !in Sensitive(more);
      assert name !in more.Keys * CREDENTIALS;
    }
    assert fewer.Keys * CREDENTIALS == {};
  }
}
