/**
 * The authenticated HTTP client: a request interceptor that attaches the
 * stored access token as a bearer credential, and a response interceptor
 * that answers a 401 by refreshing the access token once and re-issuing the
 * request once.
 *
 * The pure functions `Authorize`, `Exchange` and `Recover` state what one
 * logical request does; the class `Client` does it step by step on a
 * `Storage` object and is proved to agree with them.
 */
module ApiClient {
  import opened Wrappers
  import opened ApiRoutes

  const Authorization := "Authorization"
  const ContentType := "Content-Type"

  /** A request config as the interceptors see it; `retry` is the `_retry` mark. */
  datatype Config = Config(
    verb: Verb,
    url: string,
    data: map<string, string>,
    headers: map<string, string>,
    retry: bool)

  /** A server answer; `data` is the decoded JSON body. */
  datatype Response = Response(status: int, data: map<string, string>)

  /** What a rejected request rejects with. */
  datatype Failure =
    | HttpError(config: Config, response: Response)  // the transport's error for a non-2xx answer
    | NoRefreshToken                                 // the error thrown when no refresh token is stored
    | RefreshError(response: Response)               // the refresh call's own rejection

  datatype Outcome = Resolved(response: Response) | Rejected(failure: Failure)

  /** The two entries of persistent storage, `token` and `refreshToken`. */
  datatype Tokens = Tokens(token: Option<string>, refreshToken: Option<string>)

  /**
   * The environment and the network: the configured base address (None when
   * the variable is unset), the server's answer to a dispatched request given
   * every request dispatched so far (the current one last), and the answer to
   * a refresh call given its URL and the refresh token it carries.
   */
  datatype Network = Network(
    env: Option<string>,
    server: seq<Config> -> Response,
    refresher: (string, string) -> Response)

  const DefaultBaseUrl := "http://127.0.0.1:8000/api/v1"
  const RefreshPath := "/auth/token/refresh/"

  /** The client's base address: the configured one unless it is unset or empty. */
  function BaseUrl(env: Option<string>): string {
    if Truthy(env) then env.value else DefaultBaseUrl
  }

  /** The refresh URL as written: the configured base interpolated with no fallback. */
  function RefreshUrlAsWritten(env: Option<string>): string {
    (if env.Some? then env.value else "undefined") + RefreshPath
  }

  /** The refresh URL under the client's own base address. */
  function RefreshUrl(env: Option<string>): string {
    BaseUrl(env) + RefreshPath
  }

  /** With the base address unset, the refresh call as written goes to "undefined/auth/token/refresh/". */
  lemma RefreshUrlAsWrittenMissesDefault()
    ensures RefreshUrlAsWritten(None) == "undefined" + RefreshPath
    ensures RefreshUrlAsWritten(None) != RefreshUrl(None)
  {
  }

  /** The refresh endpoint lies under the same base address as every other request, set or not. */
  lemma RefreshUrlUnderBase(env: Option<string>)
    ensures RefreshUrl(env)[..|BaseUrl(env)|] == BaseUrl(env)
    ensures RefreshUrl(env)[|BaseUrl(env)|..] == RefreshPath
    ensures Truthy(env) ==> RefreshUrl(env) == RefreshUrlAsWritten(env)
  {
  }

  /**
   * The refresh endpoint's answer to a refresh token. The call goes to the
   * corrected refresh URL, under the client's base address.
   */
  function RefreshReply(net: Network, refreshToken: string): Response {
    net.refresher(RefreshUrl(net.env), refreshToken)
  }

  /**
   * Whenever the base address is set, the refresh call goes to the very URL
   * the client as written builds, so the model and the code get the same answer.
   */
  lemma RefreshReplyAsWrittenWhenSet(net: Network, refreshToken: string)
    requires Truthy(net.env)
    ensures RefreshReply(net, refreshToken) == net.refresher(RefreshUrlAsWritten(net.env), refreshToken)
  {
    RefreshUrlUnderBase(net.env);
  }

  /** The state one request runs in: storage, and the logs of dispatched requests and refresh calls. */
  datatype Session = Session(tokens: Tokens, sent: seq<Config>, refreshes: seq<string>)

  datatype Step = Step(outcome: Outcome, after: Session)

  /** JavaScript truthiness of a stored string: present and not empty. */
  predicate Truthy(v: Option<string>) {
    v.Some? && v.value != ""
  }

  /** The statuses the transport resolves with; every other status is rejected. */
  predicate IsSuccess(status: int) {
    200 <= status < 300
  }

  /** A field of a JSON body as storage receives it: a missing field is stored as the string "undefined". */
  function Field(data: map<string, string>, name: string): string {
    if name in data then data[name] else "undefined"
  }

  function Bearer(token: string): string {
    "Bearer " + token
  }

  /**
   * The config a service call starts from: not yet retried, carrying the call's
   * data to a slashed path, with a `Content-Type` header as its only header,
   * multipart exactly for an image upload.
   */
  function NewConfig(call: ServiceCall, data: map<string, string>): (c: Config)
    ensures !c.retry && c.verb == Route(call).verb && c.data == data
    ensures c.url == Route(call).path && Slashed(c.url)
    ensures c.headers.Keys == {ContentType}
    ensures c.headers[ContentType] == MultipartType <==> call == Crud(ProjectImages, Create)
  {
    RoutesAreSlashed(call);
    MultipartOnlyForImageUpload(call);
    var e := Route(call);
    Config(e.verb, e.path, data, map[ContentType := e.contentType], false)
  }

  /**
   * The request interceptor. With a truthy stored token the `Authorization`
   * header becomes the bearer credential and nothing else changes; without
   * one the config passes through untouched.
   */
  function Authorize(token: Option<string>, c: Config): (r: Config)
    ensures r.(headers := c.headers) == c
    ensures Truthy(token) ==> Authorization in r.headers && r.headers[Authorization] == Bearer(token.value)
    ensures Truthy(token) ==> r.headers - {Authorization} == c.headers - {Authorization}
    ensures !Truthy(token) ==> r == c
  {
    if Truthy(token) then c.(headers := c.headers[Authorization := Bearer(token.value)]) else c
  }

  /** The config that is dispatched first. */
  function Outgoing(s: Session, c: Config): Config {
    Authorize(s.tokens.token, c)
  }

  /** The server's answer to the first dispatch. */
  function FirstResponse(net: Network, s: Session, c: Config): Response {
    net.server(s.sent + [Outgoing(s, c)])
  }

  /**
   * One logical request: the request interceptor, one dispatch, and the
   * response interceptor. The log of dispatched requests and the log of
   * refresh calls only grow; at most two requests are dispatched and at most
   * one refresh call is made, none at all and one dispatch when the request
   * is already marked as retried; the refresh token is never written.
   */
  function Exchange(net: Network, s: Session, c: Config): (r: Step)
    decreases if c.retry then 0 else 1, 1
    ensures |s.sent| + 1 <= |r.after.sent| <= |s.sent| + (if c.retry then 1 else 2)
    ensures r.after.sent[..|s.sent|] == s.sent && r.after.sent[|s.sent|] == Outgoing(s, c)
    ensures |s.refreshes| <= |r.after.refreshes| <= |s.refreshes| + (if c.retry then 0 else 1)
    ensures r.after.refreshes[..|s.refreshes|] == s.refreshes
    ensures |r.after.sent| == |s.sent| + 2 ==> |r.after.refreshes| == |s.refreshes| + 1
    ensures r.after.tokens.refreshToken == s.tokens.refreshToken
  {
    var out := Outgoing(s, c);
    var s1 := s.(sent := s.sent + [out]);
    var resp := net.server(s1.sent);
    if IsSuccess(resp.status) then Step(Resolved(resp), s1)
    else
      var r := Recover(net, s1, out, resp);
      PrefixThrough(s.sent, out, r.after.sent);
      r
  }

  /** A log that starts with `log + [x]` starts with `log`, followed by `x`. */
  lemma PrefixThrough<T>(log: seq<T>, x: T, longer: seq<T>)
    requires |log| + 1 <= |longer| && longer[..|log| + 1] == log + [x]
    ensures longer[..|log|] == log && longer[|log|] == x
  {
    assert longer[..|log|] == longer[..|log| + 1][..|log|];
  }

  /**
   * The response interceptor's error branch for a request `c` that got the
   * non-2xx answer `resp`. It dispatches at most one more request, only after
   * marking it as retried and after exactly one refresh call.
   */
  function Recover(net: Network, s: Session, c: Config, resp: Response): (r: Step)
    decreases if c.retry then 0 else 1, 0
    ensures |s.sent| <= |r.after.sent| <= |s.sent| + (if c.retry then 0 else 1)
    ensures r.after.sent[..|s.sent|] == s.sent
    ensures |s.refreshes| <= |r.after.refreshes| <= |s.refreshes| + (if c.retry then 0 else 1)
    ensures r.after.refreshes[..|s.refreshes|] == s.refreshes
    ensures |r.after.sent| == |s.sent| + 1 ==> |r.after.refreshes| == |s.refreshes| + 1
    ensures r.after.tokens.refreshToken == s.tokens.refreshToken
  {
    if resp.status == 401 && !c.retry then
      var marked := c.(retry := true);
      var refreshToken := s.tokens.refreshToken;
      if !Truthy(refreshToken) then Step(Rejected(NoRefreshToken), s)
      else
        var reply := RefreshReply(net, refreshToken.value);
        var s1 := s.(refreshes := s.refreshes + [refreshToken.value]);
        if !IsSuccess(reply.status) then Step(Rejected(RefreshError(reply)), s1)
        else
          var access := Field(reply.data, "access");
          var s2 := s1.(tokens := s1.tokens.(token := Some(access)));
          Exchange(net, s2, marked.(headers := marked.headers[Authorization := Bearer(access)]))
    else
      Step(Rejected(HttpError(c, resp)), s)
  }

  /** Login: the token request, then both tokens of the answer written to storage. */
  function LoginFlow(net: Network, s: Session, username: string, password: string): (r: Step)
    ensures r.outcome == Exchange(net, s, LoginConfig(username, password)).outcome
  {
    var st := Exchange(net, s, LoginConfig(username, password));
    match st.outcome
    case Resolved(resp) =>
      var stored := Tokens(Some(Field(resp.data, "access")), Some(Field(resp.data, "refresh")));
      Step(st.outcome, st.after.(tokens := stored))
    case Rejected(_) => st
  }

  function LoginConfig(username: string, password: string): Config {
    NewConfig(Login, map["username" := username, "password" := password])
  }

  /** A 2xx answer passes through the response interceptor unchanged: one dispatch, nothing stored. */
  lemma SuccessPassesThrough(net: Network, s: Session, c: Config)
    requires IsSuccess(FirstResponse(net, s, c).status)
    ensures Exchange(net, s, c) == Step(Resolved(FirstResponse(net, s, c)), s.(sent := s.sent + [Outgoing(s, c)]))
  {
  }

  /**
   * Every non-2xx answer other than a first 401 (another status, or a 401 on
   * a request already marked as retried) is rejected with the original error:
   * no refresh call, no second dispatch, storage untouched.
   */
  lemma OtherFailuresRejected(net: Network, s: Session, c: Config)
    requires !IsSuccess(FirstResponse(net, s, c).status)
    requires FirstResponse(net, s, c).status != 401 || c.retry
    ensures Exchange(net, s, c)
         == Step(Rejected(HttpError(Outgoing(s, c), FirstResponse(net, s, c))), s.(sent := s.sent + [Outgoing(s, c)]))
  {
  }

  /** A 401 with no truthy refresh token stored fails fast: no refresh call, no retry, storage untouched. */
  lemma MissingRefreshTokenFailsFast(net: Network, s: Session, c: Config)
    requires FirstResponse(net, s, c).status == 401 && !c.retry
    requires !Truthy(s.tokens.refreshToken)
    ensures Exchange(net, s, c) == Step(Rejected(NoRefreshToken), s.(sent := s.sent + [Outgoing(s, c)]))
  {
  }

  /** When the refresh call itself fails, the request rejects with the refresh error and is not re-issued. */
  lemma RefreshFailureIsFinal(net: Network, s: Session, c: Config)
    requires FirstResponse(net, s, c).status == 401 && !c.retry
    requires Truthy(s.tokens.refreshToken)
    requires !IsSuccess(RefreshReply(net, s.tokens.refreshToken.value).status)
    ensures Exchange(net, s, c)
         == Step(Rejected(RefreshError(RefreshReply(net, s.tokens.refreshToken.value))),
                 Session(s.tokens, s.sent + [Outgoing(s, c)], s.refreshes + [s.tokens.refreshToken.value]))
  {
  }

  /**
   * A first 401 with a refresh token that the refresh endpoint accepts: one
   * refresh call with the stored refresh token, the new access token written
   * to `token` only, and exactly one more dispatch. That retry is the same
   * request marked as retried and carrying the new bearer credential, and its
   * own outcome is the result, whatever its status: a 401 on it is rejected.
   */
  lemma RefreshThenRetryOnce(net: Network, s: Session, c: Config)
    requires FirstResponse(net, s, c).status == 401 && !c.retry
    requires Truthy(s.tokens.refreshToken)
    requires IsSuccess(RefreshReply(net, s.tokens.refreshToken.value).status)
    ensures
      var r := Exchange(net, s, c);
      var access := Field(RefreshReply(net, s.tokens.refreshToken.value).data, "access");
      var first := Outgoing(s, c);
      && r.after.tokens == Tokens(Some(access), s.tokens.refreshToken)
      && r.after.refreshes == s.refreshes + [s.tokens.refreshToken.value]
      && |r.after.sent| == |s.sent| + 2
      && r.after.sent[..|s.sent| + 1] == s.sent + [first]
      && var retried := r.after.sent[|s.sent| + 1];
         && retried.retry
         && Authorization in retried.headers && retried.headers[Authorization] == Bearer(access)
         && retried.headers - {Authorization} == first.headers - {Authorization}
         && retried.(headers := first.headers, retry := false) == first
         && var answer := net.server(r.after.sent);
            r.outcome == if IsSuccess(answer.status) then Resolved(answer) else Rejected(HttpError(retried, answer))
  {
    var first := Outgoing(s, c);
    var s1 := s.(sent := s.sent + [first]);
    var rt := s.tokens.refreshToken.value;
    var access := Field(RefreshReply(net, rt).data, "access");
    var s2 := s1.(refreshes := s.refreshes + [rt]).(tokens := s.tokens.(token := Some(access)));
    var marked := first.(retry := true).(headers := first.headers[Authorization := Bearer(access)]);
    assert Recover(net, s1, first, FirstResponse(net, s, c)) == Exchange(net, s2, marked);
    var retried := Authorize(Some(access), marked);
    assert retried.headers == marked.headers;
    assert Exchange(net, s2, marked).after.sent == s2.sent + [retried];
  }

  /** A login that resolves stores both tokens of its answer; one that rejects never writes the refresh token. */
  lemma LoginStoresBothTokens(net: Network, s: Session, username: string, password: string)
    ensures
      var r := LoginFlow(net, s, username, password);
      && (r.outcome.Resolved? ==>
            r.after.tokens == Tokens(Some(Field(r.outcome.response.data, "access")),
                                     Some(Field(r.outcome.response.data, "refresh"))))
      && (r.outcome.Rejected? ==> r.after.tokens.refreshToken == s.tokens.refreshToken)
  {
  }

  /** Persistent storage: the two entries the client reads and writes. */
  class Storage {
    var token: Option<string>
    var refreshToken: Option<string>

    constructor ()
      ensures token == None && refreshToken == None
    {
      token := None;
      refreshToken := None;
    }

    function Snapshot(): Tokens
      reads this
    {
      Tokens(token, refreshToken)
    }

    method SetToken(v: string)
      modifies this
      ensures token == Some(v) && refreshToken == old(refreshToken)
    {
      token := Some(v);
    }

    method SetRefreshToken(v: string)
      modifies this
      ensures refreshToken == Some(v) && token == old(token)
    {
      refreshToken := Some(v);
    }
  }

  /** The client instance with its two interceptors, over a storage and a network. */
  class Client {
    const storage: Storage
    const net: Network
    var sent: seq<Config>
    var refreshes: seq<string>

    constructor (storage: Storage, net: Network)
      ensures this.storage == storage && this.net == net
      ensures sent == [] && refreshes == []
    {
      this.storage := storage;
      this.net := net;
      sent := [];
      refreshes := [];
    }

    function State(): Session
      reads this, storage
    {
      Session(storage.Snapshot(), sent, refreshes)
    }

    /** The request interceptor: reads the stored token and sets the `Authorization` header. */
    method OnRequest(c: Config) returns (r: Config)
      ensures r == Authorize(storage.token, c)
    {
      r := c;
      var token := storage.token;
      if token.Some? && token.value != "" {
        r := r.(headers := r.headers[Authorization := Bearer(token.value)]);
      }
    }

    /** Hands a request to the network and records it. */
    method Dispatch(c: Config) returns (resp: Response)
      modifies this
      ensures sent == old(sent) + [c] && refreshes == old(refreshes)
      ensures resp == net.server(sent)
    {
      sent := sent + [c];
      resp := net.server(sent);
    }

    /** Posts a refresh token to the refresh endpoint and records the call. */
    method PostRefresh(refreshToken: string) returns (reply: Response)
      modifies this
      ensures refreshes == old(refreshes) + [refreshToken] && sent == old(sent)
      ensures reply == RefreshReply(net, refreshToken)
    {
      refreshes := refreshes + [refreshToken];
      reply := net.refresher(RefreshUrl(net.env), refreshToken);
    }

    /** A request through the client: request interceptor, dispatch, response interceptor. */
    method Send(c: Config) returns (out: Outcome)
      modifies this, storage
      decreases if c.retry then 0 else 1, 1
      ensures Step(out, State()) == Exchange(net, old(State()), c)
    {
      var config := OnRequest(c);
      var resp := Dispatch(config);
      if IsSuccess(resp.status) {
        out := Resolved(resp);
      } else {
        out := OnResponseError(config, resp);
      }
    }

    /** The response interceptor's error handler. */
    method OnResponseError(c: Config, resp: Response) returns (out: Outcome)
      modifies this, storage
      decreases if c.retry then 0 else 1, 0
      ensures Step(out, State()) == Recover(net, old(State()), c, resp)
    {
      if resp.status == 401 && !c.retry {
        var original := c.(retry := true);
        var refreshToken := storage.refreshToken;
        if !(refreshToken.Some? && refreshToken.value != "") {
          return Rejected(NoRefreshToken);
        }
        var reply := PostRefresh(refreshToken.value);
        if !IsSuccess(reply.status) {
          return Rejected(RefreshError(reply));
        }
        var access := Field(reply.data, "access");
        storage.SetToken(access);
        original := original.(headers := original.headers[Authorization := Bearer(access)]);
        out := Send(original);
      } else {
        out := Rejected(HttpError(c, resp));
      }
    }

    /** Logs in, then stores the access token and the refresh token of the answer. */
    method Login(username: string, password: string) returns (out: Outcome)
      modifies this, storage
      ensures Step(out, State()) == LoginFlow(net, old(State()), username, password)
    {
      out := Send(LoginConfig(username, password));
      if out.Resolved? {
        storage.SetToken(Field(out.response.data, "access"));
        storage.SetRefreshToken(Field(out.response.data, "refresh"));
      }
    }

    /** Any service function other than login: its route, sent through the client. */
    method Invoke(call: ServiceCall, data: map<string, string>) returns (out: Outcome)
      requires !call.Login?
      modifies this, storage
      ensures Step(out, State()) == Exchange(net, old(State()), NewConfig(call, data))
    {
      out := Send(NewConfig(call, data));
    }
  }
}
