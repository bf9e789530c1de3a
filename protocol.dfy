/** The session state machine of the `Exact` client as pure functions.
    A `Session` is the client's four fields plus what its token store
    holds; each function takes the session before a call and the network
    script and gives the session after the call, what the call returns or
    throws, and the network afterwards. The class in module Client is
    proved to behave exactly as these functions say. */
module Protocol {
  import opened Wire
  import opened Urls
  import opened Status

  datatype Config = Config(clientId: string, clientSecret: string, redirectUri: string)

  /** The two slots of the token store; a slot whose file cannot be read is None. */
  datatype Tokens = Tokens(access: Option<string>, refresh: Option<string>)

  datatype Session = Session(
    connected: bool,
    inUse: bool,
    refreshing: bool,
    currentDivision: Option<string>,
    tokens: Tokens)

  /** The end of one call: the new session, the value returned or the error thrown, the network afterwards. */
  datatype Step<+T> = Step(session: Session, result: Result<T>, net: Net)

  /** What `request` returns. `WaitAndRetry` is not a value of the source:
      it stands for the point where the call sleeps and re-enters itself with
      the same descriptor, which a single sequential caller never gets past. */
  datatype Answer = NoContent | Payload(body: Body) | WaitAndRetry(again: Descriptor)

  const NotConnected: string := "EXACT: Not connected."
  const InvalidAccessToken: string := "EXACT: Invalid access token."
  const InvalidRefreshToken: string := "EXACT: Invalid refresh token."

  /** The checks of the constructor, in order: the first missing credential is reported. */
  function CredentialError(clientId: string, clientSecret: string, redirectUri: string): (e: Option<string>)
    ensures e.None? <==> clientId != "" && clientSecret != "" && redirectUri != ""
    ensures clientId == "" ==> e == Some("EXACT: Please provide a clientId.")
    ensures clientId != "" && clientSecret == "" ==> e == Some("EXACT: Please provide a clientSecret.")
    ensures clientId != "" && clientSecret != "" && redirectUri == "" ==> e == Some("EXACT: Please provide a redirectUri.")
  {
    if clientId == "" then Some("EXACT: Please provide a clientId.")
    else if clientSecret == "" then Some("EXACT: Please provide a clientSecret.")
    else if redirectUri == "" then Some("EXACT: Please provide a redirectUri.")
    else None
  }

  /** The state right after construction, over whatever the store already holds. */
  function Initial(tokens: Tokens): (s: Session)
    ensures !s.connected && !s.inUse && !s.refreshing && s.currentDivision.None?
    ensures s.tokens == tokens
  {
    Session(false, false, false, None, tokens)
  }

  /** JavaScript's `a || b` on strings. */
  function JsOr(a: string, b: string): string
  {
    if a != "" then a else b
  }

  /** `'EXACT: ' + value || fallback`, which parses as `('EXACT: ' + value) || fallback`:
      the left operand is never empty, so the fallback text is never used. */
  function TokenErrorText(value: Option<string>, fallback: string): (m: string)
    ensures m == "EXACT: " + Show(value)
  {
    JsOr("EXACT: " + Show(value), fallback)
  }

  /** The authorization-code exchange of `connect`. */
  function ConnectSpec(cfg: Config, s: Session, code: string, n: Net): (o: Step<bool>)
    ensures o.net == n.AfterToken(TokenRequest(CodeForm(code, cfg.clientId, cfg.clientSecret, cfg.redirectUri)))
    ensures o.session.connected <==> o.result.Ok?
    ensures o.result.Ok? <==> |n.grants| > 0 && n.grants[0].Granted?
    ensures o.result.Ok? ==>
      o.result.value &&
      o.session == s.(connected := true, tokens := Tokens(Some(n.grants[0].accessToken), Some(n.grants[0].refreshToken)))
    ensures o.result.Err? ==> o.session == s.(connected := false)
    ensures |n.grants| == 0 ==> o.result == Err(NetworkFailure)
    ensures |n.grants| > 0 && n.grants[0].Rejected? ==>
      o.result == Err(Exception("EXACT: " + Show(n.grants[0].message)))
  {
    var s0 := s.(connected := false);
    var n1 := n.AfterToken(TokenRequest(CodeForm(code, cfg.clientId, cfg.clientSecret, cfg.redirectUri)));
    match n.NextGrant()
    case None => Step(s0, Err(NetworkFailure), n1)
    case Some(Rejected(m)) => Step(s0, Err(Exception(TokenErrorText(m, "Error while connecting."))), n1)
    case Some(Granted(a, r)) => Step(s0.(tokens := Tokens(Some(a), Some(r)), connected := true), Ok(true), n1)
  }

  /** `refreshTokens`. `Ok(false)` is the early return of a call that finds a
      refresh already running; `Ok(true)` a completed refresh. */
  function RefreshSpec(cfg: Config, s: Session, n: Net): (o: Step<bool>)
    ensures s.refreshing ==> o == Step(s, Ok(false), n)
    ensures !s.refreshing ==> !o.session.refreshing
    ensures o.session.(refreshing := s.refreshing, tokens := s.tokens) == s
    ensures o.net.replies == n.replies
    ensures !s.refreshing && !Truthy(s.tokens.refresh) ==> o == Step(s, Err(Exception(InvalidRefreshToken)), n)
    ensures !s.refreshing && Truthy(s.tokens.refresh) ==>
      o.net == n.AfterToken(TokenRequest(RefreshForm(s.tokens.refresh.value, cfg.clientId, cfg.clientSecret)))
    ensures o.result.Err? ==> o.session.tokens == s.tokens
    ensures o.result == Ok(true) <==> !s.refreshing && Truthy(s.tokens.refresh) && |n.grants| > 0 && n.grants[0].Granted?
    ensures o.result == Ok(true) ==>
      o.session.tokens == Tokens(Some(n.grants[0].accessToken), Some(n.grants[0].refreshToken))
    ensures !s.refreshing && Truthy(s.tokens.refresh) && |n.grants| == 0 ==> o.result == Err(NetworkFailure)
    ensures !s.refreshing && Truthy(s.tokens.refresh) && |n.grants| > 0 && n.grants[0].Rejected? ==>
      o.result == Err(Exception("EXACT: " + Show(n.grants[0].message)))
  {
    if s.refreshing then Step(s, Ok(false), n)
    else
      var s1 := s.(refreshing := true);
      var token := s.tokens.refresh;
      if !Truthy(token) then Step(s1.(refreshing := false), Err(Exception(InvalidRefreshToken)), n)
      else
        var n1 := n.AfterToken(TokenRequest(RefreshForm(token.value, cfg.clientId, cfg.clientSecret)));
        match n.NextGrant()
        case None => Step(s1.(refreshing := false), Err(NetworkFailure), n1)
        case Some(Rejected(m)) =>
          Step(s1.(refreshing := false), Err(Exception(TokenErrorText(m, "Error while refreshing tokens."))), n1)
        case Some(Granted(a, r)) =>
          Step(s1.(tokens := Tokens(Some(a), Some(r)), refreshing := false), Ok(true), n1)
  }

  /** `getCurrentDivision`: sets `inUse` without looking at it, asks the
      current-user endpoint, and on a 401 refreshes and runs again. */
  function LookupSpec(cfg: Config, s: Session, n: Net): (o: Step<Option<string>>)
    ensures !o.session.inUse
    ensures o.session.connected == s.connected && o.session.refreshing == s.refreshing
    ensures o.result.Ok? ==> o.session.currentDivision == o.result.value
    ensures o.result.Err? ==> o.session.currentDivision == s.currentDivision
    ensures n.sent <= o.net.sent && |o.net.replies| <= |n.replies|
    ensures !Truthy(s.tokens.access) ==> o == Step(s.(inUse := false), Err(Exception(InvalidAccessToken)), n)
    ensures Truthy(s.tokens.access) ==>
      |o.net.sent| > |n.sent| && o.net.sent[|n.sent|] == ApiRequest(GET, MeUrl, s.tokens.access.value)
    ensures Truthy(s.tokens.access) && |n.replies| > 0 && n.replies[0].status != 401 ==>
      o.result == ReadDivision(n.replies[0].body) && o.session.tokens == s.tokens &&
      o.net == n.AfterApi(ApiRequest(GET, MeUrl, s.tokens.access.value))
    decreases |n.replies|
  {
    var s1 := s.(inUse := true);
    var token := s.tokens.access;
    if !Truthy(token) then Step(s1.(inUse := false), Err(Exception(InvalidAccessToken)), n)
    else
      var n1 := n.AfterApi(ApiRequest(GET, MeUrl, token.value));
      match n.NextReply()
      case None => Step(s1.(inUse := false), Err(NetworkFailure), n1)
      case Some(reply) =>
        if reply.status == 401 then
          var r := RefreshSpec(cfg, s1, n1);
          if r.result.Err? then Step(r.session.(inUse := false), Err(r.result.error), r.net)
          else LookupSpec(cfg, r.session, r.net)
        else
          match ReadDivision(reply.body)
          case Err(e) => Step(s1.(inUse := false), Err(e), n1)
          case Ok(division) => Step(s1.(inUse := false, currentDivision := division), Ok(division), n1)
  }

  /** `initialize`: needs both stored tokens, then a successful lookup; it never throws. */
  function InitializeSpec(cfg: Config, s: Session, n: Net): (o: Step<bool>)
    ensures o.result.Ok?
    ensures o.result.value ==> o.session.connected
    ensures !o.result.value ==> o.session.connected == s.connected
    ensures !Truthy(s.tokens.access) || !Truthy(s.tokens.refresh) ==> o == Step(s, Ok(false), n)
    ensures Truthy(s.tokens.access) && Truthy(s.tokens.refresh) ==>
      o.result.value == LookupSpec(cfg, s, n).result.Ok? && !o.session.inUse && o.net == LookupSpec(cfg, s, n).net
    ensures Truthy(s.tokens.access) && Truthy(s.tokens.refresh) ==>
      var l := LookupSpec(cfg, s, n);
      o.session.(connected := l.session.connected) == l.session
    ensures Truthy(s.tokens.access) && Truthy(s.tokens.refresh) && LookupSpec(cfg, s, n).result.Ok? ==>
      o.session.currentDivision == LookupSpec(cfg, s, n).result.value
  {
    if !Truthy(s.tokens.access) || !Truthy(s.tokens.refresh) then Step(s, Ok(false), n)
    else
      var l := LookupSpec(cfg, s, n);
      if l.result.Ok? then Step(l.session.(connected := true), Ok(true), l.net)
      else Step(l.session, Ok(false), l.net)
  }

  /** `request`: the connection check, then the lazy division lookup, then the rest in `Dispatch`. */
  function RequestSpec(cfg: Config, s: Session, d: Descriptor, n: Net): (o: Step<Answer>)
    ensures !s.connected ==> o == Step(s.(inUse := false), Err(Exception(NotConnected)), n)
    ensures o.result.Err? ==> !o.session.inUse
    ensures o.result == Ok(NoContent) ==> o.session.inUse
    ensures o.result.Ok? && o.result.value.Payload? ==> !o.session.inUse
    ensures o.result.Ok? && o.result.value.WaitAndRetry? ==>
      o.result.value.again == d && (o.session.inUse || o.session.refreshing)
    ensures o.session.connected == s.connected && o.session.refreshing == s.refreshing
    ensures n.sent <= o.net.sent && |o.net.replies| <= |n.replies|
    ensures s.connected && !Truthy(d.division) && !Truthy(s.currentDivision) && Truthy(s.tokens.access) ==>
      |o.net.sent| > |n.sent| && o.net.sent[|n.sent|] == ApiRequest(GET, MeUrl, s.tokens.access.value)
    ensures var l := LookupSpec(cfg, s, n);
      s.connected && !Truthy(d.division) && !Truthy(s.currentDivision) && l.result.Err? ==>
      o == Step(l.session, Err(l.result.error), l.net)
    ensures (s.connected && (Truthy(d.division) || Truthy(s.currentDivision)) && !s.inUse && !s.refreshing &&
             !Truthy(s.tokens.access)) ==>
      o == Step(s, Err(Exception(InvalidAccessToken)), n)
    decreases |n.replies|, 1
  {
    if !s.connected then Step(s.(inUse := false), Err(Exception(NotConnected)), n)
    else if !Truthy(d.division) && !Truthy(s.currentDivision) then
      var l := LookupSpec(cfg, s, n);
      if l.result.Err? then Step(l.session.(inUse := false), Err(l.result.error), l.net)
      else Dispatch(cfg, l.session, d, l.net)
    else Dispatch(cfg, s, d, n)
  }

  /** The part of `request` after the lookup: the contention gate, the call,
      the 401 refresh-and-re-enter, and the reply classification. */
  function Dispatch(cfg: Config, s: Session, d: Descriptor, n: Net): (o: Step<Answer>)
    requires s.connected
    ensures s.inUse || s.refreshing ==> o == Step(s, Ok(WaitAndRetry(d)), n)
    ensures o.result.Err? ==> !o.session.inUse
    ensures o.result == Ok(NoContent) ==> o.session.inUse
    ensures o.result.Ok? && o.result.value.Payload? ==> !o.session.inUse
    ensures o.result.Ok? && o.result.value.WaitAndRetry? ==>
      o.result.value.again == d && (o.session.inUse || o.session.refreshing)
    ensures o.session.connected == s.connected && o.session.refreshing == s.refreshing
    ensures n.sent <= o.net.sent && |o.net.replies| <= |n.replies|
    ensures !s.inUse && !s.refreshing && Truthy(s.tokens.access) ==>
      |o.net.sent| > |n.sent| && o.net.sent[|n.sent|] == ApiRequest(d.verb, RequestUrl(d), s.tokens.access.value)
    ensures !s.inUse && !s.refreshing && !Truthy(s.tokens.access) ==>
      o == Step(s, Err(Exception(InvalidAccessToken)), n)
    decreases |n.replies|, 0
  {
    if s.inUse || s.refreshing then Step(s, Ok(WaitAndRetry(d)), n)
    else
      var s1 := s.(inUse := true);
      var url := RequestUrl(d);
      var token := s1.tokens.access;
      if !Truthy(token) then Step(s1.(inUse := false), Err(Exception(InvalidAccessToken)), n)
      else
        var n1 := n.AfterApi(ApiRequest(d.verb, url, token.value));
        match n.NextReply()
        case None => Step(s1.(inUse := false), Err(NetworkFailure), n1)
        case Some(reply) =>
          match Classify(reply.status, reply.body)
          case Reauthorize =>
            var r := RefreshSpec(cfg, s1, n1);
            if r.result.Err? then Step(r.session.(inUse := false), Err(r.result.error), r.net)
            else RequestSpec(cfg, r.session, d, r.net)
          case Throw(message) => Step(s1.(inUse := false), Err(Exception(message)), n1)
          case ReturnTrue => Step(s1, Ok(NoContent), n1)
          case ReturnBody => Step(s1.(inUse := false), Ok(Payload(reply.body)), n1)
          case Unreadable => Step(s1.(inUse := false), Err(MalformedBody), n1)
  }
}
