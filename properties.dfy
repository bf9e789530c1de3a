/** What the session protocol guarantees, and where it falls short, stated
    over the functions of module Protocol (which the class is proved to
    follow): the contention gate, the lazy division lookup, the URL, the
    reply classification, the state of the two flags when a call ends, the
    401 retry, the error texts of the token endpoint, the invariant that a
    connected client holds an access token, and five end-to-end runs. */
module Properties {
  import opened Wire
  import opened Urls
  import opened Status
  import opened Protocol

  /** Neither flag is set: no request and no refresh is in flight. */
  predicate Idle(s: Session)
  {
    !s.inUse && !s.refreshing
  }

  /** A request made before a connection is established throws and sends nothing. */
  lemma {:induction false} NotConnectedSendsNothing(cfg: Config, s: Session, d: Descriptor, n: Net)
    requires !s.connected
    ensures RequestSpec(cfg, s, d, n).result == Err(Exception(NotConnected))
    ensures RequestSpec(cfg, s, d, n).net == n
  {
  }

  /** A request that finds a flag set, and has a division to use, sends
      nothing in that turn, changes nothing, and asks to re-enter with the
      same descriptor. */
  lemma {:induction false} ContentionDefers(cfg: Config, s: Session, d: Descriptor, n: Net)
    requires s.connected && (s.inUse || s.refreshing)
    requires Truthy(d.division) || Truthy(s.currentDivision)
    ensures RequestSpec(cfg, s, d, n) == Step(s, Ok(WaitAndRetry(d)), n)
  {
  }

  /** With a division cached, no lookup is made, and the one call sent targets
      the URL built from the `division` argument: the cached division never
      reaches the URL, and a request without the argument goes to a path
      beginning with "undefined". */
  lemma {:induction false} CachedDivisionIsNotInTheUrl(cfg: Config, s: Session, d: Descriptor, n: Net)
    requires s.connected && Idle(s) && Truthy(s.currentDivision) && Truthy(s.tokens.access)
    ensures var o := RequestSpec(cfg, s, d, n);
      |o.net.sent| > |n.sent| && o.net.sent[|n.sent|] == ApiRequest(d.verb, RequestUrl(d), s.tokens.access.value)
    ensures d.division.None? ==> RequestUrl(d)[..|BaseUrl| + 9] == BaseUrl + "undefined"
  {
    if d.division.None? {
      AbsentDivisionRendersUndefined(d);
    }
  }

  // ---- The reply classification, from any idle session that holds a token ----
  // These hold after a lazy lookup too: `LazyLookupThenDispatch` hands the
  // request to `Dispatch` from the session the lookup leaves.

  /** A listed error status throws 'EXACT: ' and the body or the fixed
      phrase, after exactly one call, and leaves the session as it was. */
  lemma {:induction false} DispatchListedStatusThrows(cfg: Config, s: Session, d: Descriptor, n: Net)
    requires s.connected && Idle(s) && Truthy(s.tokens.access)
    requires |n.replies| > 0 && n.replies[0].status in Phrases && !n.replies[0].body.Unparsable?
    ensures var reply := n.replies[0];
      Dispatch(cfg, s, d, n)
      == Step(s, Err(Exception("EXACT: " + (if IsString(reply.body) then StringOf(reply.body) else Phrases[reply.status]))),
              n.AfterApi(ApiRequest(d.verb, RequestUrl(d), s.tokens.access.value)))
  {
  }

  /** Every other status except 401 and 204 returns the body and releases the flag. */
  lemma {:induction false} DispatchOtherStatusReturnsBody(cfg: Config, s: Session, d: Descriptor, n: Net)
    requires s.connected && Idle(s) && Truthy(s.tokens.access)
    requires |n.replies| > 0 && n.replies[0].status != 401 && n.replies[0].status != 204 && n.replies[0].status !in Phrases
    requires !n.replies[0].body.Unparsable?
    ensures Dispatch(cfg, s, d, n)
         == Step(s, Ok(Payload(n.replies[0].body)), n.AfterApi(ApiRequest(d.verb, RequestUrl(d), s.tokens.access.value)))
  {
  }

  /** A reply other than 401 served as JSON that does not parse throws and releases the flag. */
  lemma {:induction false} DispatchUnparsableReplyThrows(cfg: Config, s: Session, d: Descriptor, n: Net)
    requires s.connected && Idle(s) && Truthy(s.tokens.access)
    requires |n.replies| > 0 && n.replies[0].status != 401 && n.replies[0].body.Unparsable?
    ensures Dispatch(cfg, s, d, n)
         == Step(s, Err(MalformedBody), n.AfterApi(ApiRequest(d.verb, RequestUrl(d), s.tokens.access.value)))
  {
  }

  /** A 204 returns `true` and keeps `inUse` set. */
  lemma {:induction false} DispatchNoContentKeepsInUse(cfg: Config, s: Session, d: Descriptor, n: Net)
    requires s.connected && Idle(s) && Truthy(s.tokens.access)
    requires |n.replies| > 0 && n.replies[0].status == 204 && !n.replies[0].body.Unparsable?
    ensures Dispatch(cfg, s, d, n)
         == Step(s.(inUse := true), Ok(NoContent), n.AfterApi(ApiRequest(d.verb, RequestUrl(d), s.tokens.access.value)))
  {
  }

  // ---- The same, for a request with a division to use ----

  /** A listed error status throws 'EXACT: ' and the body or the fixed
      phrase, after exactly one call, and leaves the session as it was. */
  lemma {:induction false} ListedStatusThrows(cfg: Config, s: Session, d: Descriptor, n: Net)
    requires s.connected && Idle(s) && Truthy(s.tokens.access)
    requires Truthy(d.division) || Truthy(s.currentDivision)
    requires |n.replies| > 0 && n.replies[0].status in Phrases && !n.replies[0].body.Unparsable?
    ensures var reply := n.replies[0];
      RequestSpec(cfg, s, d, n)
      == Step(s, Err(Exception("EXACT: " + (if IsString(reply.body) then StringOf(reply.body) else Phrases[reply.status]))),
              n.AfterApi(ApiRequest(d.verb, RequestUrl(d), s.tokens.access.value)))
  {
    DispatchListedStatusThrows(cfg, s, d, n);
  }

  /** Every other status except 401 and 204, failing or not, returns the body and releases the flag. */
  lemma {:induction false} OtherStatusReturnsBody(cfg: Config, s: Session, d: Descriptor, n: Net)
    requires s.connected && Idle(s) && Truthy(s.tokens.access)
    requires Truthy(d.division) || Truthy(s.currentDivision)
    requires |n.replies| > 0 && n.replies[0].status != 401 && n.replies[0].status != 204 && n.replies[0].status !in Phrases
    requires !n.replies[0].body.Unparsable?
    ensures RequestSpec(cfg, s, d, n)
         == Step(s, Ok(Payload(n.replies[0].body)), n.AfterApi(ApiRequest(d.verb, RequestUrl(d), s.tokens.access.value)))
  {
    DispatchOtherStatusReturnsBody(cfg, s, d, n);
  }

  /** A reply other than 401 served as JSON that does not parse throws, after
      one call, whatever its status, and releases the flag. */
  lemma {:induction false} UnparsableReplyThrows(cfg: Config, s: Session, d: Descriptor, n: Net)
    requires s.connected && Idle(s) && Truthy(s.tokens.access)
    requires Truthy(d.division) || Truthy(s.currentDivision)
    requires |n.replies| > 0 && n.replies[0].status != 401 && n.replies[0].body.Unparsable?
    ensures RequestSpec(cfg, s, d, n)
         == Step(s, Err(MalformedBody), n.AfterApi(ApiRequest(d.verb, RequestUrl(d), s.tokens.access.value)))
  {
    DispatchUnparsableReplyThrows(cfg, s, d, n);
  }

  /** A 204 returns `true` but leaves `inUse` set, so from then on every
      request with a division to use waits without end. */
  lemma {:induction false} NoContentLeavesInUse(cfg: Config, s: Session, d: Descriptor, n: Net, later: Descriptor, n': Net)
    requires s.connected && Idle(s) && Truthy(s.tokens.access)
    requires Truthy(d.division) || Truthy(s.currentDivision)
    requires |n.replies| > 0 && n.replies[0].status == 204 && !n.replies[0].body.Unparsable?
    requires Truthy(later.division) || Truthy(s.currentDivision)
    ensures var o := RequestSpec(cfg, s, d, n);
      && o == Step(s.(inUse := true), Ok(NoContent), n.AfterApi(ApiRequest(d.verb, RequestUrl(d), s.tokens.access.value)))
      && RequestSpec(cfg, o.session, later, n') == Step(o.session, Ok(WaitAndRetry(later)), n')
  {
    DispatchNoContentKeepsInUse(cfg, s, d, n);
    ContentionDefers(cfg, s.(inUse := true), later, n');
  }

  /** A 401 is followed by one refresh and a re-entry, but the re-entry
      finds `inUse` still set by the first attempt and waits: one resource
      call and one token call are made, the next reply is never asked for,
      and the session stays locked. */
  lemma {:induction false} UnauthorizedRetryStalls(cfg: Config, s: Session, d: Descriptor, n: Net)
    requires s.connected && Idle(s) && Truthy(s.tokens.access) && Truthy(s.tokens.refresh)
    requires Truthy(d.division) || Truthy(s.currentDivision)
    requires |n.replies| > 0 && n.replies[0].status == 401
    requires |n.grants| > 0 && n.grants[0].Granted?
    ensures var o := RequestSpec(cfg, s, d, n);
      && o.result == Ok(WaitAndRetry(d))
      && o.session == s.(inUse := true, tokens := Tokens(Some(n.grants[0].accessToken), Some(n.grants[0].refreshToken)))
      && o.net.sent == n.sent + [ApiRequest(d.verb, RequestUrl(d), s.tokens.access.value),
                                 TokenRequest(RefreshForm(s.tokens.refresh.value, cfg.clientId, cfg.clientSecret))]
      && o.net.replies == n.replies[1..]
  {
    var n1 := n.AfterApi(ApiRequest(d.verb, RequestUrl(d), s.tokens.access.value));
    var r := RefreshSpec(cfg, s.(inUse := true), n1);
    assert RequestSpec(cfg, s, d, n) == Dispatch(cfg, s, d, n);
    assert Dispatch(cfg, s, d, n) == RequestSpec(cfg, r.session, d, r.net);
    ContentionDefers(cfg, r.session, d, r.net);
  }

  /** The lookup, on a 401 with a refresh token and a granted refresh, runs
      once more from the start with the new tokens. */
  lemma {:induction false} LookupRetriesWithNewTokens(cfg: Config, s: Session, n: Net)
    requires !s.refreshing && Truthy(s.tokens.access) && Truthy(s.tokens.refresh)
    requires |n.replies| > 0 && n.replies[0].status == 401
    requires |n.grants| > 0 && n.grants[0].Granted?
    ensures var g := n.grants[0];
      LookupSpec(cfg, s, n)
      == LookupSpec(cfg, s.(inUse := true, tokens := Tokens(Some(g.accessToken), Some(g.refreshToken))),
                    n.AfterApi(ApiRequest(GET, MeUrl, s.tokens.access.value))
                     .AfterToken(TokenRequest(RefreshForm(s.tokens.refresh.value, cfg.clientId, cfg.clientSecret))))
  {
  }

  /** Starting idle, every operation but `request` ends idle again;
      `request` does too, except when it returns 204's `true` or stalls. */
  lemma {:induction false} SequentialCallsEndIdle(cfg: Config, s: Session, code: string, d: Descriptor, n: Net)
    requires Idle(s)
    ensures Idle(ConnectSpec(cfg, s, code, n).session)
    ensures Idle(RefreshSpec(cfg, s, n).session)
    ensures Idle(LookupSpec(cfg, s, n).session)
    ensures Idle(InitializeSpec(cfg, s, n).session)
    ensures var o := RequestSpec(cfg, s, d, n);
      Idle(o.session) <==> !(o.result == Ok(NoContent) || (o.result.Ok? && o.result.value.WaitAndRetry?))
  {
  }

  /** With neither a division argument nor a cached one, the request first
      runs the lookup; if that succeeds it goes on from the session and the
      network the lookup left, whose `inUse` is clear. */
  lemma {:induction false} LazyLookupThenDispatch(cfg: Config, s: Session, d: Descriptor, n: Net)
    requires s.connected && !Truthy(d.division) && !Truthy(s.currentDivision)
    requires LookupSpec(cfg, s, n).result.Ok?
    ensures var l := LookupSpec(cfg, s, n);
      && !l.session.inUse && l.session.connected
      && RequestSpec(cfg, s, d, n) == Dispatch(cfg, l.session, d, l.net)
  {
  }

  /** The token-endpoint error text never falls back to the message after `||`. */
  lemma {:induction false} TokenErrorFallbackUnreachable(value: Option<string>)
    ensures TokenErrorText(value, "Error while connecting.") != "Error while connecting."
    ensures TokenErrorText(value, "Error while refreshing tokens.") != "Error while refreshing tokens."
  {
    assert TokenErrorText(value, "Error while connecting.")[1] == 'X';
    assert TokenErrorText(value, "Error while refreshing tokens.")[1] == 'X';
  }

  /** Neither `connect` nor `refreshTokens` can throw its fallback text:
      a rejected grant throws "EXACT: " and the message value. */
  lemma {:induction false} GrantErrorsNeverFallBack(cfg: Config, s: Session, code: string, n: Net)
    ensures ConnectSpec(cfg, s, code, n).result != Err(Exception("Error while connecting."))
    ensures RefreshSpec(cfg, s, n).result != Err(Exception("Error while refreshing tokens."))
  {
    var c := ConnectSpec(cfg, s, code, n);
    if |n.grants| > 0 && n.grants[0].Rejected? {
      assert c.result.error.message[1] == 'X';
    }
    var r := RefreshSpec(cfg, s, n);
    if r.result.Err? && r.result.error.Exception? {
      assert r.result.error.message[1] == 'X';
    }
  }

  // ---- The session invariant ----

  /** A connected client holds a usable access token. */
  predicate Inv(s: Session)
  {
    s.connected ==> Truthy(s.tokens.access)
  }

  /** Every access token the token endpoint is scripted to grant is non-empty. */
  predicate GrantsUsable(n: Net)
  {
    forall i :: 0 <= i < |n.grants| && n.grants[i].Granted? ==> n.grants[i].accessToken != ""
  }

  lemma {:induction false} AfterTokenKeepsGrantsUsable(n: Net, call: Call)
    requires GrantsUsable(n)
    ensures GrantsUsable(n.AfterToken(call))
  {
    var m := n.AfterToken(call);
    forall i | 0 <= i < |m.grants| && m.grants[i].Granted?
      ensures m.grants[i].accessToken != ""
    {
      assert m.grants[i] == n.grants[i + 1];
    }
  }

  /** A refresh never turns a usable access token into an unusable one. */
  lemma {:induction false} RefreshKeepsAccess(cfg: Config, s: Session, n: Net)
    requires GrantsUsable(n)
    ensures var o := RefreshSpec(cfg, s, n);
      && (Truthy(s.tokens.access) ==> Truthy(o.session.tokens.access))
      && GrantsUsable(o.net)
  {
    if !s.refreshing && Truthy(s.tokens.refresh) {
      AfterTokenKeepsGrantsUsable(n, TokenRequest(RefreshForm(s.tokens.refresh.value, cfg.clientId, cfg.clientSecret)));
    }
  }

  /** The lookup, with all its refreshes, never turns a usable access token into an unusable one. */
  lemma {:induction false} LookupKeepsAccess(cfg: Config, s: Session, n: Net)
    requires GrantsUsable(n)
    ensures var o := LookupSpec(cfg, s, n);
      && (Truthy(s.tokens.access) ==> Truthy(o.session.tokens.access))
      && GrantsUsable(o.net)
    decreases |n.replies|
  {
    if Truthy(s.tokens.access) && |n.replies| > 0 && n.replies[0].status == 401 {
      var n1 := n.AfterApi(ApiRequest(GET, MeUrl, s.tokens.access.value));
      var r := RefreshSpec(cfg, s.(inUse := true), n1);
      RefreshKeepsAccess(cfg, s.(inUse := true), n1);
      if r.result.Ok? {
        LookupKeepsAccess(cfg, r.session, r.net);
      }
    }
  }

  lemma {:induction false} ConnectKeepsInv(cfg: Config, s: Session, code: string, n: Net)
    requires GrantsUsable(n)
    ensures Inv(ConnectSpec(cfg, s, code, n).session)
  {
  }

  lemma {:induction false} RefreshKeepsInv(cfg: Config, s: Session, n: Net)
    requires Inv(s) && GrantsUsable(n)
    ensures Inv(RefreshSpec(cfg, s, n).session)
  {
    RefreshKeepsAccess(cfg, s, n);
  }

  lemma {:induction false} LookupKeepsInv(cfg: Config, s: Session, n: Net)
    requires Inv(s) && GrantsUsable(n)
    ensures Inv(LookupSpec(cfg, s, n).session)
  {
    LookupKeepsAccess(cfg, s, n);
  }

  /** From a session that holds the invariant, `initialize` connects only with a usable access token. */
  lemma {:induction false} InitializeKeepsInv(cfg: Config, s: Session, n: Net)
    requires Inv(s) && GrantsUsable(n)
    ensures Inv(InitializeSpec(cfg, s, n).session)
  {
    LookupKeepsAccess(cfg, s, n);
  }

  lemma {:induction false} RequestKeepsInv(cfg: Config, s: Session, d: Descriptor, n: Net)
    requires Inv(s) && GrantsUsable(n)
    ensures var o := RequestSpec(cfg, s, d, n);
      Inv(o.session) && GrantsUsable(o.net)
    decreases |n.replies|, 1
  {
    if s.connected {
      if !Truthy(d.division) && !Truthy(s.currentDivision) {
        var l := LookupSpec(cfg, s, n);
        LookupKeepsAccess(cfg, s, n);
        if l.result.Ok? {
          DispatchKeepsInv(cfg, l.session, d, l.net);
        }
      } else {
        DispatchKeepsInv(cfg, s, d, n);
      }
    }
  }

  lemma {:induction false} DispatchKeepsInv(cfg: Config, s: Session, d: Descriptor, n: Net)
    requires s.connected && Inv(s) && GrantsUsable(n)
    ensures var o := Dispatch(cfg, s, d, n);
      Inv(o.session) && GrantsUsable(o.net)
    decreases |n.replies|, 0
  {
    if !s.inUse && !s.refreshing && Truthy(s.tokens.access) && |n.replies| > 0 && n.replies[0].status == 401 {
      var n1 := n.AfterApi(ApiRequest(d.verb, RequestUrl(d), s.tokens.access.value));
      var r := RefreshSpec(cfg, s.(inUse := true), n1);
      RefreshKeepsAccess(cfg, s.(inUse := true), n1);
      if r.result.Ok? {
        RequestKeepsInv(cfg, r.session, d, r.net);
      }
    }
  }

  /** The invariant rests on the token endpoint: a granted empty access token connects a client that holds none. */
  lemma {:induction false} EmptyGrantBreaksInv(cfg: Config, s: Session, code: string, replies: seq<Reply>, sent: seq<Call>)
    ensures var o := ConnectSpec(cfg, s, code, Net(replies, [Granted("", "R")], sent));
      o.session.connected && !Inv(o.session)
  {
  }

  // ---- End-to-end runs ----

  /** A forced login for a code grant ends its URL with `response_type=code&force_login=1`. */
  lemma {:induction false} ForcedCodeLoginUrl(clientId: string, redirectUri: string)
    ensures LoginUrl(clientId, redirectUri, Code, true)
         == AuthUrl + "?" + (Field(("client_id", clientId)) + "&" + (Field(("redirect_uri", redirectUri)) + "&"
            + "response_type=code&force_login=1"))
  {
    LoginUrlText(clientId, redirectUri, Code, true);
    assert Field(("response_type", "code")) + "&" + Field(("force_login", "1")) == "response_type=code&force_login=1";
  }

  /** Exchanging code 'abc' against an endpoint granting A/R stores A and R and connects. */
  lemma {:induction false} ConnectStoresGrantedTokens(cfg: Config, tokens: Tokens)
    ensures var o := ConnectSpec(cfg, Initial(tokens), "abc", Net([], [Granted("A", "R")], []));
      && o.result == Ok(true)
      && o.session.connected
      && o.session.tokens == Tokens(Some("A"), Some("R"))
      && o.net.sent == [TokenRequest(CodeForm("abc", cfg.clientId, cfg.clientSecret, cfg.redirectUri))]
  {
  }

  /** A call answered 401 and then 200, with the refresh granted: the 200 is
      never fetched; after one resource call and one token call the request
      waits to re-enter, with `inUse` held by itself. */
  lemma {:induction false} UnauthorizedThenOkDoesNotReturnTheBody(cfg: Config, body: Body)
    ensures var s := Session(true, false, false, Some("123"), Tokens(Some("A"), Some("R")));
      var d := Descriptor("/crm/Accounts", "", GET, Some("123"));
      var o := RequestSpec(cfg, s, d, Net([Reply(401, Text("")), Reply(200, body)], [Granted("A2", "R2")], []));
      && o.result == Ok(WaitAndRetry(d))
      && o.session.inUse
      && o.net.sent == [ApiRequest(GET, RequestUrl(d), "A"), TokenRequest(RefreshForm("R", cfg.clientId, cfg.clientSecret))]
      && o.net.replies == [Reply(200, body)]
  {
    var s := Session(true, false, false, Some("123"), Tokens(Some("A"), Some("R")));
    var d := Descriptor("/crm/Accounts", "", GET, Some("123"));
    UnauthorizedRetryStalls(cfg, s, d, Net([Reply(401, Text("")), Reply(200, body)], [Granted("A2", "R2")], []));
  }

  /** A 429 with the text body "slow down" throws 'EXACT: slow down' after one call, with no retry. */
  lemma {:induction false} TooManyRequestsThrowsBodyText(cfg: Config)
    ensures var s := Session(true, false, false, Some("123"), Tokens(Some("A"), Some("R")));
      var d := Descriptor("/crm/Accounts", "", GET, Some("123"));
      var o := RequestSpec(cfg, s, d, Net([Reply(429, Text("slow down"))], [], []));
      && o.result == Err(Exception("EXACT: slow down"))
      && !o.session.inUse
      && o.net.sent == [ApiRequest(GET, RequestUrl(d), "A")]
  {
    var s := Session(true, false, false, Some("123"), Tokens(Some("A"), Some("R")));
    var d := Descriptor("/crm/Accounts", "", GET, Some("123"));
    ListedStatusThrows(cfg, s, d, Net([Reply(429, Text("slow down"))], [], []));
    assert ErrorText(Text("slow down"), Phrases[429]) == "EXACT: slow down";
  }

  /** A 401 on a request with no division to use, where the lookup finds no
      division either: the re-entry runs the lookup again, which clears
      `inUse`, so the retry is sent and its body returned, after five calls. */
  lemma {:induction false} RetryGoesThroughWhenNoDivisionIsFound(cfg: Config)
    ensures var me := Json(JDocument("{}", Some(Row(None))));
      var s := Session(true, false, false, None, Tokens(Some("A"), Some("R")));
      var d := Descriptor("/crm/Accounts", "", GET, None);
      var o := RequestSpec(cfg, s, d, Net([Reply(200, me), Reply(401, Text("")), Reply(200, me), Reply(200, Text("ok"))],
                                          [Granted("A2", "R2")], []));
      && o.result == Ok(Payload(Text("ok")))
      && !o.session.inUse
      && o.net.sent == [ApiRequest(GET, MeUrl, "A"), ApiRequest(GET, RequestUrl(d), "A"),
                        TokenRequest(RefreshForm("R", cfg.clientId, cfg.clientSecret)),
                        ApiRequest(GET, MeUrl, "A2"), ApiRequest(GET, RequestUrl(d), "A2")]
  {
    var me := Json(JDocument("{}", Some(Row(None))));
    var s := Session(true, false, false, None, Tokens(Some("A"), Some("R")));
    var d := Descriptor("/crm/Accounts", "", GET, None);
    var n := Net([Reply(200, me), Reply(401, Text("")), Reply(200, me), Reply(200, Text("ok"))], [Granted("A2", "R2")], []);
    var l1 := LookupSpec(cfg, s, n);
    assert l1 == Step(s, Ok(None), n.AfterApi(ApiRequest(GET, MeUrl, "A")));
    var n2 := l1.net.AfterApi(ApiRequest(GET, RequestUrl(d), "A"));
    var r := RefreshSpec(cfg, s.(inUse := true), n2);
    assert r.session == s.(inUse := true, tokens := Tokens(Some("A2"), Some("R2")));
    assert Dispatch(cfg, s, d, l1.net) == RequestSpec(cfg, r.session, d, r.net);
    var l2 := LookupSpec(cfg, r.session, r.net);
    assert l2 == Step(r.session.(inUse := false), Ok(None), r.net.AfterApi(ApiRequest(GET, MeUrl, "A2")));
    assert RequestSpec(cfg, r.session, d, r.net) == Dispatch(cfg, l2.session, d, l2.net);
  }

  /** A request with no division to use: the lookup runs first and caches what
      it finds, then a 429 with the text body "slow" throws "EXACT: slow"
      after two calls, with `inUse` clear. */
  lemma {:induction false} LookupThenTooManyRequests(cfg: Config)
    ensures var me := Json(JDocument("{}", Some(Row(Some("7")))));
      var s := Session(true, false, false, None, Tokens(Some("A"), Some("R")));
      var d := Descriptor("/crm/Accounts", "", GET, None);
      var o := RequestSpec(cfg, s, d, Net([Reply(200, me), Reply(429, Text("slow"))], [], []));
      && o.result == Err(Exception("EXACT: slow"))
      && o.session == s.(currentDivision := Some("7"))
      && o.net.sent == [ApiRequest(GET, MeUrl, "A"), ApiRequest(GET, RequestUrl(d), "A")]
  {
    var me := Json(JDocument("{}", Some(Row(Some("7")))));
    var s := Session(true, false, false, None, Tokens(Some("A"), Some("R")));
    var d := Descriptor("/crm/Accounts", "", GET, None);
    var n := Net([Reply(200, me), Reply(429, Text("slow"))], [], []);
    var l := LookupSpec(cfg, s, n);
    assert l == Step(s.(currentDivision := Some("7")), Ok(Some("7")), n.AfterApi(ApiRequest(GET, MeUrl, "A")));
    LazyLookupThenDispatch(cfg, s, d, n);
    DispatchListedStatusThrows(cfg, l.session, d, l.net);
    assert ErrorText(Text("slow"), Phrases[429]) == "EXACT: slow";
  }
}
