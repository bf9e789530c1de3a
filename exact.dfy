/** The `Exact` client as a class: its four state fields, the token store it
    reads and writes, and one method per operation. Every fetch of the source
    takes the next scripted answer from a `Net` value passed in and handed
    back; each method is proved to end exactly where the matching function of
    module Protocol says. */
module Client {
  import opened Wire
  import opened Urls
  import opened Status
  import opened Protocol

  /** The two token files under the system's temporary directory. They
      outlive any one client, so a store is handed to the client, not made by it. */
  class TokenStore {
    var access: Option<string>
    var refresh: Option<string>

    constructor (access: Option<string>, refresh: Option<string>)
      ensures this.access == access && this.refresh == refresh
    {
      this.access := access;
      this.refresh := refresh;
    }

    function Contents(): Tokens
      reads this
    {
      Tokens(access, refresh)
    }

    method SetAccessToken(token: string)
      modifies this
      ensures access == Some(token) && refresh == old(refresh)
    {
      access := Some(token);
    }

    method SetRefreshToken(token: string)
      modifies this
      ensures refresh == Some(token) && access == old(access)
    {
      refresh := Some(token);
    }
  }

  class Exact {
    const clientId: string
    const clientSecret: string
    const redirectUri: string
    const store: TokenStore

    var connected: bool
    var inUse: bool
    var refreshing: bool
    var currentDivision: Option<string>

    function Cfg(): Config
    {
      Config(clientId, clientSecret, redirectUri)
    }

    /** The client's state as a Protocol session. */
    function Snapshot(): Session
      reads this, store
    {
      Session(connected, inUse, refreshing, currentDivision, store.Contents())
    }

    /** The client, the value returned and the network are where step `o` says. */
    predicate Ends<T(==)>(o: Step<T>, r: Result<T>, net: Net)
      reads this, store
    {
      Snapshot() == o.session && r == o.result && net == o.net
    }

    constructor (clientId: string, clientSecret: string, redirectUri: string, store: TokenStore)
      requires CredentialError(clientId, clientSecret, redirectUri).None?
      ensures Cfg() == Config(clientId, clientSecret, redirectUri) && this.store == store
      ensures Snapshot() == Initial(store.Contents())
    {
      this.clientId := clientId;
      this.clientSecret := clientSecret;
      this.redirectUri := redirectUri;
      this.store := store;
      connected := false;
      inUse := false;
      refreshing := false;
      currentDivision := None;
    }

    /** `new Exact({clientId, clientSecret, redirectUri})`: the checks, then the initial state. */
    static method Create(clientId: string, clientSecret: string, redirectUri: string, store: TokenStore)
      returns (r: Result<Exact>)
      ensures CredentialError(clientId, clientSecret, redirectUri).Some? ==>
        r == Err(Exception(CredentialError(clientId, clientSecret, redirectUri).value))
      ensures CredentialError(clientId, clientSecret, redirectUri).None? ==>
        r.Ok? && fresh(r.value) && r.value.store == store &&
        r.value.Cfg() == Config(clientId, clientSecret, redirectUri) &&
        r.value.Snapshot() == Initial(store.Contents())
    {
      if clientId == "" { return Err(Exception("EXACT: Please provide a clientId.")); }
      if clientSecret == "" { return Err(Exception("EXACT: Please provide a clientSecret.")); }
      if redirectUri == "" { return Err(Exception("EXACT: Please provide a redirectUri.")); }
      var client := new Exact(clientId, clientSecret, redirectUri, store);
      r := Ok(client);
    }

    function GetLoginUrl(responseType: ResponseType := Code, forceLogin: bool := false): string
    {
      LoginUrl(clientId, redirectUri, responseType, forceLogin)
    }

    method Connect(code: string, net: Net) returns (r: Result<bool>, net': Net)
      modifies this, store
      ensures Ends(ConnectSpec(Cfg(), old(Snapshot()), code, net), r, net')
    {
      connected := false;
      var grant := net.NextGrant();
      net' := net.AfterToken(TokenRequest(CodeForm(code, clientId, clientSecret, redirectUri)));
      match grant {
        case None =>
          r := Err(NetworkFailure);
        case Some(Rejected(message)) =>
          r := Err(Exception(TokenErrorText(message, "Error while connecting.")));
        case Some(Granted(access, refresh)) =>
          store.SetAccessToken(access);
          store.SetRefreshToken(refresh);
          connected := true;
          r := Ok(true);
      }
    }

    method RefreshTokens(net: Net) returns (r: Result<bool>, net': Net)
      modifies this, store
      ensures Ends(RefreshSpec(Cfg(), old(Snapshot()), net), r, net')
    {
      if refreshing {
        return Ok(false), net;
      }
      refreshing := true;
      var token := store.refresh;
      if !Truthy(token) {
        refreshing := false;
        return Err(Exception(InvalidRefreshToken)), net;
      }
      var grant := net.NextGrant();
      net' := net.AfterToken(TokenRequest(RefreshForm(token.value, clientId, clientSecret)));
      match grant {
        case None =>
          refreshing := false;
          r := Err(NetworkFailure);
        case Some(Rejected(message)) =>
          refreshing := false;
          r := Err(Exception(TokenErrorText(message, "Error while refreshing tokens.")));
        case Some(Granted(access, refresh)) =>
          store.SetAccessToken(access);
          store.SetRefreshToken(refresh);
          refreshing := false;
          r := Ok(true);
      }
    }

    method GetCurrentDivision(net: Net) returns (r: Result<Option<string>>, net': Net)
      modifies this, store
      ensures Ends(LookupSpec(Cfg(), old(Snapshot()), net), r, net')
      decreases |net.replies|
    {
      inUse := true;
      var token := store.access;
      if !Truthy(token) {
        inUse := false;
        return Err(Exception(InvalidAccessToken)), net;
      }
      var reply := net.NextReply();
      net' := net.AfterApi(ApiRequest(GET, MeUrl, token.value));
      if reply.None? {
        inUse := false;
        return Err(NetworkFailure), net';
      }
      if reply.value.status == 401 {
        var refreshed;
        refreshed, net' := RefreshTokens(net');
        if refreshed.Err? {
          inUse := false;
          return Err(refreshed.error), net';
        }
        r, net' := GetCurrentDivision(net');
        return;
      }
      var division := ReadDivision(reply.value.body);
      if division.Err? {
        inUse := false;
        return Err(division.error), net';
      }
      inUse := false;
      currentDivision := division.value;
      r := Ok(division.value);
    }

    method Initialize(net: Net) returns (ok: bool, net': Net)
      modifies this, store
      ensures Ends(InitializeSpec(Cfg(), old(Snapshot()), net), Ok(ok), net')
    {
      if !Truthy(store.access) || !Truthy(store.refresh) {
        return false, net;
      }
      var division;
      division, net' := GetCurrentDivision(net);
      if division.Err? {
        return false, net';
      }
      connected := true;
      ok := true;
    }

    method Request(d: Descriptor, net: Net) returns (r: Result<Answer>, net': Net)
      modifies this, store
      ensures Ends(RequestSpec(Cfg(), old(Snapshot()), d, net), r, net')
      decreases |net.replies|
    {
      if !connected {
        inUse := false;
        return Err(Exception(NotConnected)), net;
      }
      net' := net;
      if !Truthy(d.division) && !Truthy(currentDivision) {
        var division;
        division, net' := GetCurrentDivision(net);
        if division.Err? {
          inUse := false;
          return Err(division.error), net';
        }
      }
      if inUse || refreshing {
        return Ok(WaitAndRetry(d)), net';
      }
      inUse := true;
      var url := RequestUrl(d);
      var token := store.access;
      if !Truthy(token) {
        inUse := false;
        return Err(Exception(InvalidAccessToken)), net';
      }
      var reply := net'.NextReply();
      net' := net'.AfterApi(ApiRequest(d.verb, url, token.value));
      if reply.None? {
        inUse := false;
        return Err(NetworkFailure), net';
      }
      match Classify(reply.value.status, reply.value.body) {
        case Reauthorize =>
          var refreshed;
          refreshed, net' := RefreshTokens(net');
          if refreshed.Err? {
            inUse := false;
            return Err(refreshed.error), net';
          }
          r, net' := Request(d, net');
        case Throw(message) =>
          inUse := false;
          r := Err(Exception(message));
        case ReturnTrue =>
          r := Ok(NoContent);
        case ReturnBody =>
          inUse := false;
          r := Ok(Payload(reply.value.body));
        case Unreadable =>
          inUse := false;
          r := Err(MalformedBody);
      }
    }
  }
}
