/** Assembly of the URLs and form bodies the client sends: the browser
    login URL, the two token-endpoint grants (sections 4.1.3 and 6 of
    RFC 6749) and the resource-API request target. Percent-encoding is not
    modelled: keys and values appear as given. */
module Urls {
  import opened Wire

  const BaseUrl: string := "https://start.exactonline.nl/api/v1/"
  const AuthUrl: string := "https://start.exactonline.nl/api/oauth2/auth"

  /** The fixed "current user" lookup: `BASE_URL + 'current/Me?' + query`. */
  const MeUrl: string := BaseUrl + "current/Me?" + Serialize([("Select", "CurrentDivision")])

  datatype ResponseType = Code | Token

  function ResponseTypeText(rt: ResponseType): string
  {
    match rt
    case Code => "code"
    case Token => "token"
  }

  function Field(p: Param): string
  {
    p.0 + "=" + p.1
  }

  /** `URLSearchParams.toString()`: the pairs in order, joined by '&'. */
  function Serialize(ps: seq<Param>): string
  {
    if |ps| == 0 then ""
    else if |ps| == 1 then Field(ps[0])
    else Field(ps[0]) + "&" + Serialize(ps[1..])
  }

  function Keys(ps: seq<Param>): (ks: seq<string>)
    ensures |ks| == |ps|
    ensures forall i :: 0 <= i < |ps| ==> ks[i] == ps[i].0
  {
    if |ps| == 0 then [] else [ps[0].0] + Keys(ps[1..])
  }

  /** The value of the first pair with this key, as `URLSearchParams.get` gives it. */
  function Lookup(ps: seq<Param>, key: string): Option<string>
  {
    if |ps| == 0 then None
    else if ps[0].0 == key then Some(ps[0].1)
    else Lookup(ps[1..], key)
  }

  /** A key that does not occur earlier is looked up to its own value. */
  lemma {:induction false} LookupAt(ps: seq<Param>, i: nat)
    requires i < |ps|
    requires ps[i].0 !in Keys(ps)[..i]
    ensures Lookup(ps, ps[i].0) == Some(ps[i].1)
  {
    if i > 0 {
      assert Keys(ps)[0] == ps[0].0;
      assert Keys(ps[1..])[..i - 1] == Keys(ps)[1..i];
      LookupAt(ps[1..], i - 1);
    }
  }

  /** The query of the login URL, in the order the client appends it. */
  function LoginParams(clientId: string, redirectUri: string, rt: ResponseType, forceLogin: bool): (ps: seq<Param>)
    ensures Keys(ps) == ["client_id", "redirect_uri", "response_type", "force_login"]
  {
    [("client_id", clientId),
     ("redirect_uri", redirectUri),
     ("response_type", ResponseTypeText(rt)),
     ("force_login", if forceLogin then "1" else "0")]
  }

  /** Each login parameter reads back as the value it was given; `force_login` is "1" exactly when login is forced. */
  lemma LoginParamsValues(clientId: string, redirectUri: string, rt: ResponseType, forceLogin: bool)
    ensures var ps := LoginParams(clientId, redirectUri, rt, forceLogin);
      && Lookup(ps, "client_id") == Some(clientId)
      && Lookup(ps, "redirect_uri") == Some(redirectUri)
      && Lookup(ps, "response_type") == Some(ResponseTypeText(rt))
      && (Lookup(ps, "force_login") == Some("1") <==> forceLogin)
      && (Lookup(ps, "force_login") == Some("0") <==> !forceLogin)
  {
    var ps := LoginParams(clientId, redirectUri, rt, forceLogin);
    assert "client_id"[0] != "redirect_uri"[0];
    assert "client_id"[0] != "response_type"[0] && "redirect_uri"[2] != "response_type"[2];
    assert "client_id"[0] != "force_login"[0] && "redirect_uri"[0] != "force_login"[0] && "response_type"[0] != "force_login"[0];
    LookupAt(ps, 0);
    LookupAt(ps, 1);
    LookupAt(ps, 2);
    LookupAt(ps, 3);
  }

  /** `new URL(endpoint)` with the parameters appended: the query follows the endpoint after "?". */
  function LoginUrl(clientId: string, redirectUri: string, rt: ResponseType, forceLogin: bool): (url: string)
    ensures |url| > |AuthUrl| && url[..|AuthUrl| + 1] == AuthUrl + "?"
  {
    AuthUrl + "?" + Serialize(LoginParams(clientId, redirectUri, rt, forceLogin))
  }

  /** The login URL written out: `Field(k, v)` is the text "k=v". */
  lemma LoginUrlText(clientId: string, redirectUri: string, rt: ResponseType, forceLogin: bool)
    ensures LoginUrl(clientId, redirectUri, rt, forceLogin)
         == AuthUrl + "?" + (Field(("client_id", clientId)) + "&" + (Field(("redirect_uri", redirectUri)) + "&"
            + (Field(("response_type", ResponseTypeText(rt))) + "&" + Field(("force_login", if forceLogin then "1" else "0")))))
  {
    var ps := LoginParams(clientId, redirectUri, rt, forceLogin);
    assert ps[1..][1..] == ps[2..] && ps[2..][1..] == ps[3..];
    assert Serialize(ps[3..]) == Field(ps[3]);
    assert Serialize(ps[2..]) == Field(ps[2]) + "&" + Serialize(ps[3..]);
    assert Serialize(ps[1..]) == Field(ps[1]) + "&" + Serialize(ps[2..]);
  }

  /** The authorization-code grant (section 4.1.3 of RFC 6749), with the client's credentials in the body. */
  function CodeForm(code: string, clientId: string, clientSecret: string, redirectUri: string): (ps: seq<Param>)
    ensures Keys(ps) == ["code", "redirect_uri", "grant_type", "client_id", "client_secret"]
  {
    [("code", code),
     ("redirect_uri", redirectUri),
     ("grant_type", "authorization_code"),
     ("client_id", clientId),
     ("client_secret", clientSecret)]
  }

  /** The token endpoint reads the code grant's fields back as given, with grant type "authorization_code". */
  lemma CodeFormValues(code: string, clientId: string, clientSecret: string, redirectUri: string)
    ensures var ps := CodeForm(code, clientId, clientSecret, redirectUri);
      && Lookup(ps, "grant_type") == Some("authorization_code")
      && Lookup(ps, "code") == Some(code)
      && Lookup(ps, "redirect_uri") == Some(redirectUri)
      && Lookup(ps, "client_id") == Some(clientId)
      && Lookup(ps, "client_secret") == Some(clientSecret)
  {
    var ps := CodeForm(code, clientId, clientSecret, redirectUri);
    assert "code"[0] != "redirect_uri"[0] && "code"[0] != "grant_type"[0] && "redirect_uri"[0] != "grant_type"[0];
    assert "code"[1] != "client_id"[1] && "redirect_uri"[0] != "client_id"[0] && "grant_type"[0] != "client_id"[0];
    assert "code"[1] != "client_secret"[1] && "redirect_uri"[0] != "client_secret"[0] && "grant_type"[0] != "client_secret"[0];
    assert "client_id"[7] != "client_secret"[7];
    LookupAt(ps, 0);
    LookupAt(ps, 1);
    LookupAt(ps, 2);
    LookupAt(ps, 3);
    LookupAt(ps, 4);
  }

  /** The refresh grant (section 6 of RFC 6749). */
  function RefreshForm(refreshToken: string, clientId: string, clientSecret: string): (ps: seq<Param>)
    ensures Keys(ps) == ["refresh_token", "grant_type", "client_id", "client_secret"]
  {
    [("refresh_token", refreshToken),
     ("grant_type", "refresh_token"),
     ("client_id", clientId),
     ("client_secret", clientSecret)]
  }

  /** The token endpoint reads the refresh grant's fields back as given, with grant type "refresh_token". */
  lemma RefreshFormValues(refreshToken: string, clientId: string, clientSecret: string)
    ensures var ps := RefreshForm(refreshToken, clientId, clientSecret);
      && Lookup(ps, "grant_type") == Some("refresh_token")
      && Lookup(ps, "refresh_token") == Some(refreshToken)
      && Lookup(ps, "client_id") == Some(clientId)
      && Lookup(ps, "client_secret") == Some(clientSecret)
  {
    var ps := RefreshForm(refreshToken, clientId, clientSecret);
    assert "refresh_token"[0] != "grant_type"[0];
    assert "refresh_token"[0] != "client_id"[0] && "grant_type"[0] != "client_id"[0];
    assert "refresh_token"[0] != "client_secret"[0] && "grant_type"[0] != "client_secret"[0];
    assert "client_id"[7] != "client_secret"[7];
    LookupAt(ps, 0);
    LookupAt(ps, 1);
    LookupAt(ps, 2);
    LookupAt(ps, 3);
  }

  /** The target of `request`: built from the `division` ARGUMENT (an
      absent one renders as "undefined"), never from the cached division;
      the '?' appears only before a non-empty query. */
  function RequestUrl(d: Descriptor): (url: string)
    ensures |url| >= |BaseUrl| && url[..|BaseUrl|] == BaseUrl
  {
    BaseUrl + Show(d.division) + d.endpoint + (if d.query != "" then "?" + d.query else "")
  }

  /** The division and the endpoint follow the base URL; "?" and the query
      follow only when the query is non-empty. */
  lemma RequestUrlParts(d: Descriptor)
    ensures d.query == "" ==> RequestUrl(d) == BaseUrl + Show(d.division) + d.endpoint
    ensures d.query != "" ==> RequestUrl(d) == BaseUrl + Show(d.division) + d.endpoint + "?" + d.query
    ensures d.query == "" <==> '?' !in RequestUrl(d)[|BaseUrl + Show(d.division) + d.endpoint|..]
  {
    var head := BaseUrl + Show(d.division) + d.endpoint;
    if d.query != "" {
      assert RequestUrl(d)[|head|..] == "?" + d.query;
      assert RequestUrl(d)[|head|..][0] == '?';
    } else {
      assert RequestUrl(d)[|head|..] == "";
    }
  }

  /** A request made without a division argument targets a path that starts with "undefined". */
  lemma AbsentDivisionRendersUndefined(d: Descriptor)
    requires d.division.None?
    ensures RequestUrl(d)[..|BaseUrl| + 9] == BaseUrl + "undefined"
  {
  }
}
