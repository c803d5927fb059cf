/**
 The authenticating transport of client/request/auth.go and the retry hook of
 client/request/request.go, as one goroutine executes them.

 The functions say what each operation does to the values it touches; the classes carry
 the fields the source updates in place and are proved against those functions. What
 happens when many goroutines interleave is the subject of module `RefreshProtocol`.
 */
module AuthTransport {
  import opened Basics
  import opened Strings

  datatype Mode = Basic | Bearer

  /** What no request ever changes about a transport and its credential. */
  datatype Config = Config(
    mode: Mode,
    hasCredential: bool,
    keyId: string,
    apiKey: string,
    apiEndpoint: string,
    hasManager: bool)

  /** What a caller asks for: `authorization` is a caller-supplied header, empty if there is none. */
  datatype Request = Request(
    verb: string,
    hasBody: bool,
    noRetry: bool,
    skipAuth: bool,
    authorization: string)

  datatype AuthContext = AuthContext(skipAuth: bool, explicitAuth: bool)

  datatype RefreshError = NoApiKey | NoEndpoint | PostFailure | MissingToken | SaveFailure

  /** The request a response belongs to: its Authorization header as sent, and what its context recorded. */
  datatype SentRequest = SentRequest(header: string, ctx: AuthContext)

  /** What the retry hook reports: whether to try again, and an error of the default policy or of a refresh. */
  datatype RetryError = FromPolicy(text: string) | FromRefresh(error: RefreshError)

  datatype Decision = Decision(retry: bool, error: Option<RetryError>)

  /** How the refresh endpoint answers a POST: a failure of any kind, or 200 with this `access_token`. */
  datatype PostReply = Failed | Token(raw: string)

  /** The environment of one refresh: the endpoint's reply, and whether saving the profile works. */
  datatype Environment = Environment(post: PostReply, saveWorks: bool)

  datatype Tokens = Tokens(memory: string, persisted: string)

  datatype RefreshResult = RefreshResult(tokens: Tokens, error: Option<RefreshError>)

  // ---------- headers ----------

  function BearerHeader(token: string): string {
    if token == "" then "" else "Bearer " + token
  }

  /** Base64 is left out: the pair is kept in the clear. */
  function BasicHeader(user: string, key: string): string {
    "Basic " + user + ":" + key
  }

  /** The token in an Authorization header, empty unless it has the form `Bearer <token>`. */
  function BearerToken(header: string): string {
    var parts := Fields(header);
    if |parts| != 2 || !EqualFold(parts[0], "Bearer") then "" else TrimSpace(parts[1])
  }

  /** The Authorization header a request leaves with when the credential holds `memory`. */
  function AppliedHeader(cfg: Config, skipAuth: bool, authorization: string, memory: string): string {
    if skipAuth || authorization != "" || !cfg.hasCredential then authorization
    else
      match cfg.mode
      case Bearer => BearerHeader(TrimSpace(memory))
      case Basic => if TrimSpace(cfg.keyId) == "" then "" else BasicHeader(TrimSpace(cfg.keyId), cfg.apiKey)
  }

  predicate CanRetry(req: Request) {
    !req.noRetry && req.verb in {"GET", "HEAD", "OPTIONS"} && !req.hasBody
  }

  /** A 401 answer to this request leads to a refresh. */
  predicate Refreshable(cfg: Config, ctx: AuthContext) {
    && cfg.mode == Bearer && cfg.hasCredential
    && TrimSpace(cfg.apiEndpoint) != "" && TrimSpace(cfg.apiKey) != ""
    && !ctx.skipAuth && !ctx.explicitAuth
  }

  /** A token that survives the trip through a header: no space inside. */
  ghost predicate Solid(token: string) {
    Free(token, IsSpace)
  }

  lemma {:induction false} WordPrefix(s: string)
    ensures Word(s) <= s && Free(Word(s), IsSpace)
    ensures |Word(s)| < |s| ==> IsSpace(s[|Word(s)|])
  {
    if s != "" && !IsSpace(s[0]) {
      WordPrefix(s[1..]);
    }
  }

  lemma FieldsOfTwoWords(t: string)
    requires t != "" && Trimmed(t, IsSpace) && !Solid(t)
    ensures |Fields(t)| >= 2
  {
    var w := Word(t);
    WordPrefix(t);
    var rest := t[|w|..];
    assert t == w + rest;
    assert rest == "" ==> t == w;
    FieldsHead(w, rest);
    FieldsNonEmpty(rest, |rest| - 1);
  }

  /**
   The retry hook recovers exactly the token the transport wrote if and only if
   that token has no inner space; otherwise it recovers the empty token.
   */
  lemma BearerRoundTrip(memory: string)
    ensures var t := TrimSpace(memory);
            BearerToken(BearerHeader(t)) == (if Solid(t) then t else "")
  {
    var t := TrimSpace(memory);
    var _, _ := TrimParts(memory, IsSpace);
    if t != "" {
      assert Free("Bearer", IsSpace);
      FieldsHead("Bearer", " " + t);
      assert "Bearer" + (" " + t) == "Bearer " + t;
      assert (" " + t)[1..] == t;
      if Solid(t) {
        FieldsHead(t, "");
        assert t + "" == t;
        TrimOfTrimmed(t, IsSpace);
      } else {
        FieldsOfTwoWords(t);
      }
    }
  }

  /**
   The header a request must leave with, said without `AppliedHeader`: the caller's own if
   authentication is skipped or the caller supplied one; none without a credential; in bearer
   mode the trimmed token, in basic mode key id and key, unless they are blank.
   */
  predicate LeavesWith(cfg: Config, skipAuth: bool, authorization: string, memory: string, header: string) {
    && (skipAuth ==> header == authorization)
    && (authorization != "" ==> header == authorization)
    && (!skipAuth && authorization == "" && !cfg.hasCredential ==> header == "")
    && (!skipAuth && authorization == "" && cfg.hasCredential && cfg.mode == Bearer ==>
          header == if TrimSpace(memory) == "" then "" else "Bearer " + TrimSpace(memory))
    && (!skipAuth && authorization == "" && cfg.hasCredential && cfg.mode == Basic ==>
          header == if TrimSpace(cfg.keyId) == "" then "" else "Basic " + TrimSpace(cfg.keyId) + ":" + cfg.apiKey)
  }

  lemma AppliedLeavesWith(cfg: Config, skipAuth: bool, authorization: string, memory: string, header: string)
    ensures header == AppliedHeader(cfg, skipAuth, authorization, memory)
            <==> LeavesWith(cfg, skipAuth, authorization, memory, header)
  {
  }

  lemma TwoFields(scheme: string, token: string)
    requires scheme != "" && Free(scheme, IsSpace) && token != "" && Solid(token)
    ensures Fields(scheme + " " + token) == [scheme, token]
  {
    var rest := " " + token;
    FieldsHead(scheme, rest);
    assert scheme + rest == scheme + " " + token && rest[1..] == token;
    FieldsHead(token, "");
    assert token + "" == token;
  }

  lemma LowerBearer()
    ensures ToLower("Bearer") == "bearer"
  {
    assert "Bearer"[1..] == "earer" && "earer"[1..] == "arer" && "arer"[1..] == "rer";
    assert ToLower("rer") == "rer";
  }

  lemma FoldsToBearer(scheme: string)
    ensures EqualFold(scheme, "Bearer") <==> ToLower(scheme) == "bearer"
  {
    LowerBearer();
  }

  /** The hook reads the token after a scheme in any case, and no token from any other scheme. */
  lemma BearerAnyCase(scheme: string, token: string)
    requires scheme != "" && Free(scheme, IsSpace) && token != "" && Solid(token)
    ensures BearerToken(scheme + " " + token) == if ToLower(scheme) == "bearer" then token else ""
  {
    TwoFields(scheme, token);
    FoldsToBearer(scheme);
    TrimOfTrimmed(token, IsSpace);
  }

  // ---------- refreshing ----------

  /** What one refresh does to the two places a token is kept. */
  function Refresh(cfg: Config, tokens: Tokens, env: Environment): RefreshResult {
    if cfg.mode != Bearer then RefreshResult(tokens, None)
    else if !cfg.hasCredential || cfg.apiKey == "" then RefreshResult(tokens, Some(NoApiKey))
    else if TrimSpace(cfg.apiEndpoint) == "" then RefreshResult(tokens, Some(NoEndpoint))
    else
      match env.post
      case Failed => RefreshResult(tokens, Some(PostFailure))
      case Token(raw) =>
        var issued := TrimSpace(raw);
        if issued == "" then RefreshResult(tokens, Some(MissingToken))
        else if !cfg.hasManager then RefreshResult(tokens.(memory := issued), None)
        else if env.saveWorks then RefreshResult(Tokens(issued, issued), None)
        else RefreshResult(tokens, Some(SaveFailure))
  }

  function RefreshIfCurrent(cfg: Config, tokens: Tokens, rejected: string, env: Environment): RefreshResult {
    if || cfg.mode != Bearer || !cfg.hasCredential
       || TrimSpace(cfg.apiEndpoint) == "" || TrimSpace(tokens.memory) != rejected
    then RefreshResult(tokens, None)
    else Refresh(cfg, tokens, env)
  }

  /** Which error a refresh ends with, in the order in which the reasons are looked for. */
  lemma RefreshErrors(cfg: Config, tokens: Tokens, env: Environment)
    requires cfg.mode == Bearer
    ensures var error := Refresh(cfg, tokens, env).error;
            var prepared := cfg.hasCredential && cfg.apiKey != "" && TrimSpace(cfg.apiEndpoint) != "";
            && (error == Some(NoApiKey) <==> !cfg.hasCredential || cfg.apiKey == "")
            && (error == Some(NoEndpoint) <==> cfg.hasCredential && cfg.apiKey != "" && TrimSpace(cfg.apiEndpoint) == "")
            && (error == Some(PostFailure) <==> prepared && env.post.Failed?)
            && (error == Some(MissingToken) <==> prepared && env.post.Token? && TrimSpace(env.post.raw) == "")
            && (error == Some(SaveFailure) <==>
                  prepared && env.post.Token? && TrimSpace(env.post.raw) != "" && cfg.hasManager && !env.saveWorks)
            && (error == None ==>
                  var issued := TrimSpace(env.post.raw);
                  Refresh(cfg, tokens, env).tokens == Tokens(issued, if cfg.hasManager then issued else tokens.persisted))
  {
  }

  /**
   A refresh is all or nothing: with an error both places keep their token; in every case
   memory and disk still agree if they agreed before.
   */
  lemma RefreshIsAtomic(cfg: Config, tokens: Tokens, rejected: string, env: Environment)
    ensures var r := RefreshIfCurrent(cfg, tokens, rejected, env);
            && (r.error.Some? ==> r.tokens == tokens)
            && (cfg.hasManager && tokens.memory == tokens.persisted ==> r.tokens.memory == r.tokens.persisted)
            && (r.tokens.memory != tokens.memory ==>
                  TrimSpace(tokens.memory) == rejected && env.post.Token? && r.tokens.memory == TrimSpace(env.post.raw))
  {
  }

  /**
   After a refresh without error for a refreshable transport the stored token is no longer
   the rejected one, provided the server does not hand the rejected token out again.
   */
  lemma RefreshReplaces(cfg: Config, tokens: Tokens, rejected: string, env: Environment)
    requires cfg.mode == Bearer && cfg.hasCredential && TrimSpace(cfg.apiEndpoint) != ""
    requires env.post.Token? ==> TrimSpace(env.post.raw) != rejected
    ensures var r := RefreshIfCurrent(cfg, tokens, rejected, env);
            r.error.None? ==> TrimSpace(r.tokens.memory) != rejected
  {
    if env.post.Token? {
      TrimIdempotent(env.post.raw, IsSpace);
    }
  }

  // ---------- the objects ----------

  class Credential {
    const keyId: string
    const apiKey: string
    const apiEndpoint: string
    var accessToken: string

    constructor (keyId: string, apiKey: string, apiEndpoint: string, accessToken: string)
      ensures this.keyId == keyId && this.apiKey == apiKey && this.apiEndpoint == apiEndpoint
      ensures this.accessToken == accessToken
    {
      this.keyId, this.apiKey, this.apiEndpoint, this.accessToken := keyId, apiKey, apiEndpoint, accessToken;
    }
  }

  /** The profile store: saving writes the whole profile or nothing. */
  class Manager {
    var persisted: string

    constructor (persisted: string)
      ensures this.persisted == persisted
    {
      this.persisted := persisted;
    }

    method Save(cred: Credential, works: bool) returns (ok: bool)
      modifies this
      ensures ok == works
      ensures persisted == if works then cred.accessToken else old(persisted)
    {
      if works {
        persisted := cred.accessToken;
      }
      ok := works;
    }
  }

  /** The headers of a request that matter here. */
  class Headers {
    var skipAuth: bool
    var authorization: string

    constructor (skipAuth: bool, authorization: string)
      ensures this.skipAuth == skipAuth && this.authorization == authorization
    {
      this.skipAuth, this.authorization := skipAuth, authorization;
    }
  }

  class Transport {
    const mode: Mode
    const cred: Credential?
    const manager: Manager?
    // `mu`: goroutines reading, and whether one is writing
    var readers: nat
    var writing: bool
    // `refreshMu`
    var refreshing: bool

    constructor (mode: Mode, cred: Credential?, manager: Manager?)
      ensures this.mode == mode && this.cred == cred && this.manager == manager
      ensures Unlocked()
    {
      this.mode, this.cred, this.manager := mode, cred, manager;
      readers, writing, refreshing := 0, false, false;
    }

    ghost predicate Unlocked()
      reads this
    {
      readers == 0 && !writing && !refreshing
    }

    ghost function Cfg(): Config {
      if cred == null then Config(mode, false, "", "", "", manager != null)
      else Config(mode, true, cred.keyId, cred.apiKey, cred.apiEndpoint, manager != null)
    }

    ghost function Held(): Tokens
      reads cred, manager
    {
      Tokens(if cred == null then "" else cred.accessToken, if manager == null then "" else manager.persisted)
    }

    /** Writes the Authorization header, reading the token under `mu`. */
    method Apply(h: Headers)
      requires !writing
      modifies h, this`readers
      ensures readers == old(readers)
      ensures h.authorization == AppliedHeader(Cfg(), old(h.skipAuth), old(h.authorization), Held().memory)
      ensures LeavesWith(Cfg(), old(h.skipAuth), old(h.authorization), Held().memory, h.authorization)
      ensures !h.skipAuth
    {
      if h.skipAuth {
        h.skipAuth := false;
        return;
      }
      if h.authorization != "" || cred == null {
        return;
      }
      readers := readers + 1;
      match mode {
        case Bearer =>
          var token := TrimSpace(cred.accessToken);
          if token != "" {
            h.authorization := "Bearer " + token;
          }
        case Basic =>
          var user := TrimSpace(cred.keyId);
          if user != "" {
            h.authorization := BasicHeader(user, cred.apiKey);
          }
      }
      readers := readers - 1;
    }

    /** What goes on the wire: a copy, so that the caller's request can be sent again. */
    method RoundTrip(req: Headers) returns (sent: Headers, ctx: AuthContext)
      requires !writing
      modifies this`readers
      ensures readers == old(readers)
      ensures fresh(sent) && !sent.skipAuth
      ensures sent.authorization == AppliedHeader(Cfg(), req.skipAuth, req.authorization, Held().memory)
      ensures LeavesWith(Cfg(), req.skipAuth, req.authorization, Held().memory, sent.authorization)
      ensures ctx == AuthContext(req.skipAuth, req.authorization != "")
    {
      sent := new Headers(req.skipAuth, req.authorization);
      ctx := AuthContext(req.skipAuth, req.authorization != "");
      Apply(sent);
    }

    /** Asks the endpoint for a token and stores it in both places or in neither. */
    method NewAccessToken(env: Environment) returns (error: Option<RefreshError>)
      requires readers == 0 && !writing
      modifies this`readers, this`writing, cred, manager
      ensures readers == 0 && !writing
      ensures RefreshResult(Held(), error) == Refresh(Cfg(), old(Held()), env)
    {
      if mode != Bearer {
        return None;
      }
      readers := readers + 1;
      var apiKey, apiEndpoint := "", "";
      if cred != null {
        apiKey, apiEndpoint := cred.apiKey, TrimSpace(cred.apiEndpoint);
      }
      readers := readers - 1;
      if cred == null || apiKey == "" {
        return Some(NoApiKey);
      }
      if apiEndpoint == "" {
        return Some(NoEndpoint);
      }
      assert readers == 0 && !writing; // the POST happens here, with `mu` free
      if env.post.Failed? {
        return Some(PostFailure);
      }
      if TrimSpace(env.post.raw) == "" {
        return Some(MissingToken);
      }
      writing := true;
      var previousToken := cred.accessToken;
      cred.accessToken := TrimSpace(env.post.raw);
      if manager != null {
        var saved := manager.Save(cred, env.saveWorks);
        if !saved {
          cred.accessToken := previousToken;
          writing := false;
          return Some(SaveFailure);
        }
      }
      writing := false;
      return None;
    }

    /** Refreshes unless somebody else already replaced the rejected token. */
    method RefreshCurrent(rejected: string, env: Environment) returns (error: Option<RefreshError>)
      requires Unlocked()
      modifies this, cred, manager
      ensures Unlocked()
      ensures RefreshResult(Held(), error) == RefreshIfCurrent(Cfg(), old(Held()), rejected, env)
    {
      if mode != Bearer {
        return None;
      }
      refreshing := true;
      readers := readers + 1;
      if cred == null {
        readers := readers - 1;
        refreshing := false;
        return None;
      }
      var currentToken := TrimSpace(cred.accessToken);
      var apiEndpoint := TrimSpace(cred.apiEndpoint);
      readers := readers - 1;
      if apiEndpoint == "" || currentToken != rejected {
        refreshing := false;
        return None;
      }
      error := NewAccessToken(env);
      refreshing := false;
    }

    /**
     Decides after each attempt whether it is repeated. `policy` is the default policy's
     decision; a refreshable 401 overrides it. A response may come without its request.
     */
    method CheckRetry(unauthorized: bool, request: Option<SentRequest>, policy: Decision, env: Environment)
      returns (decision: Decision)
      requires Unlocked()
      modifies this, cred, manager
      ensures Unlocked()
      ensures
        if && unauthorized && request.Some? && mode == Bearer && cred != null
           && TrimSpace(cred.apiEndpoint) != "" && TrimSpace(cred.apiKey) != ""
           && !request.value.ctx.skipAuth && !request.value.ctx.explicitAuth
        then
          var r := RefreshIfCurrent(Cfg(), old(Held()), BearerToken(request.value.header), env);
          && Held() == r.tokens
          && decision == match r.error case None => Decision(true, None)
                                       case Some(error) => Decision(false, Some(FromRefresh(error)))
        else decision == policy && Held() == old(Held())
    {
      decision := policy;
      if unauthorized {
        if mode != Bearer || cred == null || TrimSpace(cred.apiEndpoint) == "" || TrimSpace(cred.apiKey) == "" {
          return;
        }
        if request.None? {
          return;
        }
        if request.value.ctx.skipAuth || request.value.ctx.explicitAuth {
          return;
        }
        var error := RefreshCurrent(BearerToken(request.value.header), env);
        if error.Some? {
          return Decision(false, Some(FromRefresh(error.value)));
        }
        return Decision(true, None);
      }
    }
  }
}
