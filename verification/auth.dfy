/** Session login and logout (controllers/AuthController.js), and the session
    lookup every authenticated request makes. A session is the store key
    `auth_<token>` holding the user's id, set with a 24-hour lifetime. */
module Auth {
  import opened Values
  import opened Text
  import opened Db
  import opened Redis
  import opened Http

  const SessionPrefix: string := "auth_"

  /** 24 hours, in seconds. */
  const SessionTtl: nat := 24 * 3600

  /** The store key of the session a token names. */
  function SessionKey(token: string): (key: string)
    ensures |key| == |SessionPrefix| + |token|
    ensures key[..|SessionPrefix|] == SessionPrefix && key[|SessionPrefix|..] == token
  {
    SessionPrefix + token
  }

  /** Distinct tokens name distinct sessions. */
  lemma SessionKeyInjective(t1: string, t2: string)
    ensures SessionKey(t1) == SessionKey(t2) <==> t1 == t2
  {
    assert SessionKey(t1)[|SessionPrefix|..] == t1;
    assert SessionKey(t2)[|SessionPrefix|..] == t2;
  }

  /** The user id an `x-token` header resolves to: nothing when the header is
      absent or empty, when its key holds nothing, or when the id held is empty. */
  function SessionUser(xToken: Option<string>, sessions: map<string, Entry>): (r: Option<string>)
    ensures !Present(xToken) ==> r.None?
    ensures r.Some? ==>
      r.value != "" && SessionKey(xToken.value) in sessions && sessions[SessionKey(xToken.value)].value == r.value
    ensures (Present(xToken) && SessionKey(xToken.value) in sessions &&
             sessions[SessionKey(xToken.value)].value != "") ==> r.Some?
  {
    if !Present(xToken) then None
    else
      var key := SessionKey(xToken.value);
      if key in sessions && sessions[key].value != "" then Some(sessions[key].value) else None
  }

  /** The result of a handler on the session store: its response and the store after. */
  datatype Outcome = Outcome(response: Response, sessions: map<string, Entry>)

  /** `request.header('Authorization') || ''`. */
  function HeaderText(header: Option<string>): string
  {
    if header.Some? then header.value else ""
  }

  /** The email and password an Authorization header carries: its second
      space-separated word, decoded, holds `email:password`; whatever follows a
      second `:` is dropped, and an empty word, email or password is no credential. */
  function Credentials(authorization: string, decode: string -> string): (r: Option<(string, string)>)
    ensures r.Some? ==> r.value.0 != "" && ':' !in r.value.0
    ensures r.Some? ==> r.value.1 != "" && ':' !in r.value.1
  {
    var words := Split(authorization, ' ');
    if |words| < 2 || words[1] == "" then None
    else
      var fields := Split(decode(words[1]), ':');
      if fields[0] == "" || |fields| < 2 || fields[1] == "" then None
      else Some((fields[0], fields[1]))
  }

  /** `authorization` is a first word, a space, the credential `word` and then
      nothing or a space-led `tail`; `word` decodes to `email:password` followed
      by nothing or by a `:`-led `rest`. */
  ghost predicate CarriesCredentials(authorization: string, decode: string -> string,
                                     email: string, password: string,
                                     scheme: string, word: string, tail: string, rest: string)
  {
    && ' ' !in scheme && ' ' !in word && word != ""
    && (tail == [] || tail[0] == ' ')
    && email != "" && password != "" && ':' !in email && ':' !in password
    && (rest == [] || rest[0] == ':')
    && authorization == scheme + " " + word + tail
    && decode(word) == email + ":" + password + rest
  }

  /** Whatever the first word, a header of that shape yields exactly that email
      and password. */
  lemma CredentialsOfHeader(authorization: string, decode: string -> string,
                            email: string, password: string,
                            scheme: string, word: string, tail: string, rest: string)
    requires CarriesCredentials(authorization, decode, email, password, scheme, word, tail, rest)
    ensures Credentials(authorization, decode) == Some((email, password))
  {
    SplitFirstTwo(scheme, word, tail, ' ');
    SplitFirstTwo(email, password, rest, ':');
  }

  /** Conversely, every credential found comes from a header of that shape. */
  lemma CredentialsShape(authorization: string, decode: string -> string, email: string, password: string)
    requires Credentials(authorization, decode) == Some((email, password))
    ensures exists scheme, word, tail, rest ::
      CarriesCredentials(authorization, decode, email, password, scheme, word, tail, rest)
  {
    var words := Split(authorization, ' ');
    var word := words[1];
    var tail := FirstTwoOfSplit(authorization, ' ');
    var fields := Split(decode(word), ':');
    var rest := FirstTwoOfSplit(decode(word), ':');
    assert CarriesCredentials(authorization, decode, email, password, words[0], word, tail, rest);
  }

  /** The id of the user a login authenticates as: the first user whose email is
      the one supplied and whose stored digest is the digest of the password. */
  function Login(users: seq<UserDoc>, email: string, password: string,
                 hash: Json -> Digest): (r: Option<string>)
    ensures r.None? <==>
      forall i :: 0 <= i < |users| ==> !(users[i].email == Str(email) && users[i].password == hash(Str(password)))
    ensures r.Some? ==>
      exists i :: 0 <= i < |users| && users[i].id == r.value
        && users[i].email == Str(email) && users[i].password == hash(Str(password))
  {
    var matches := WithLogin(email, hash(Str(password)));
    match Find(users, matches)
    case None => None
    case Some(i) => assert matches(users[i]); Some(users[i].id)
  }

  /** `getConnect`: on valid credentials a fresh token's session key is set to the
      user's id for 24 hours and the token is returned; otherwise 401. */
  function Connect(authorization: Option<string>, users: seq<UserDoc>,
                   sessions: map<string, Entry>, decode: string -> string,
                   hash: Json -> Digest, token: string): (r: Outcome)
    ensures r.response == Unauthorized || r.response == Response(200, Token(token))
    ensures r.response == Unauthorized ==> r.sessions == sessions
    ensures r.response.status == 200 ==>
      && r.sessions.Keys == sessions.Keys + {SessionKey(token)}
      && r.sessions[SessionKey(token)].ttl == SessionTtl
      && forall k :: k in sessions && k != SessionKey(token) ==> r.sessions[k] == sessions[k]
  {
    match Credentials(HeaderText(authorization), decode)
    case None => Outcome(Unauthorized, sessions)
    case Some((email, password)) =>
      match Login(users, email, password, hash)
      case None => Outcome(Unauthorized, sessions)
      case Some(id) =>
        Outcome(Response(200, Token(token)), sessions[SessionKey(token) := Entry(id, SessionTtl)])
  }

  /** A login succeeds exactly when the header carries credentials that some
      user matches on both email and password digest. */
  lemma ConnectOutcomes(authorization: Option<string>, users: seq<UserDoc>,
                        sessions: map<string, Entry>, decode: string -> string,
                        hash: Json -> Digest, token: string)
    ensures Connect(authorization, users, sessions, decode, hash, token).response.status == 200 <==>
      var creds := Credentials(HeaderText(authorization), decode);
      creds.Some? && Login(users, creds.value.0, creds.value.1, hash).Some?
  {
  }

  /** An unknown email and a wrong password are answered alike: 401 Unauthorized,
      sessions unchanged. */
  lemma FailedLoginsAlike(authorization: Option<string>, users: seq<UserDoc>,
                          sessions: map<string, Entry>, decode: string -> string,
                          hash: Json -> Digest, token: string, email: string, password: string)
    requires Credentials(HeaderText(authorization), decode) == Some((email, password))
    requires || (forall i :: 0 <= i < |users| ==> users[i].email != Str(email))
             || (forall i :: 0 <= i < |users| && users[i].email == Str(email) ==>
                   users[i].password != hash(Str(password)))
    ensures Connect(authorization, users, sessions, decode, hash, token) == Outcome(Unauthorized, sessions)
  {
  }

  /** A successful login sets only the new token's key, to the user's id with the
      24-hour lifetime: the token then resolves to that user (unless the id is
      empty) and every other token resolves as before. */
  lemma ConnectIssuesSession(authorization: Option<string>, users: seq<UserDoc>,
                             sessions: map<string, Entry>, decode: string -> string,
                             hash: Json -> Digest, token: string, email: string,
                             password: string, id: string)
    requires Credentials(HeaderText(authorization), decode) == Some((email, password))
    requires Login(users, email, password, hash) == Some(id)
    requires token != ""
    ensures var out := Connect(authorization, users, sessions, decode, hash, token);
      && out.response == Response(200, Token(token))
      && out.sessions.Keys == sessions.Keys + {SessionKey(token)}
      && out.sessions[SessionKey(token)] == Entry(id, 86400)
      && (forall k :: k in sessions && k != SessionKey(token) ==> out.sessions[k] == sessions[k])
      && SessionUser(Some(token), out.sessions) == (if id == "" then None else Some(id))
      && forall other :: other != token ==>
           SessionUser(Some(other), out.sessions) == SessionUser(Some(other), sessions)
  {
    forall other | other != token
      ensures SessionKey(other) != SessionKey(token)
    {
      SessionKeyInjective(other, token);
    }
  }

  /** `getDisconnect`: a token that resolves to a user has its key deleted (204);
      otherwise 401 and nothing is deleted. */
  function Disconnect(xToken: Option<string>, sessions: map<string, Entry>): (r: Outcome)
    ensures r.response == Unauthorized || r.response == Response(204, NoContent)
    ensures r.response == Unauthorized ==> r.sessions == sessions
    ensures r.sessions.Keys <= sessions.Keys
    ensures forall k :: k in r.sessions ==> r.sessions[k] == sessions[k]
  {
    match SessionUser(xToken, sessions)
    case None => Outcome(Unauthorized, sessions)
    case Some(_) => Outcome(Response(204, NoContent), sessions - {SessionKey(xToken.value)})
  }

  /** Logging out a live token removes exactly its one key: every other entry is
      kept as it was, the token no longer resolves, and other tokens resolve as before. */
  lemma DisconnectRemovesOneKey(token: string, sessions: map<string, Entry>)
    requires SessionUser(Some(token), sessions).Some?
    ensures var out := Disconnect(Some(token), sessions);
      && out.response == Response(204, NoContent)
      && out.sessions.Keys == sessions.Keys - {SessionKey(token)}
      && |out.sessions| == |sessions| - 1
      && (forall k :: k in out.sessions ==> out.sessions[k] == sessions[k])
      && SessionUser(Some(token), out.sessions).None?
      && forall other :: other != token ==>
           SessionUser(Some(other), out.sessions) == SessionUser(Some(other), sessions)
  {
    var out := Disconnect(Some(token), sessions);
    assert out.sessions.Keys == sessions.Keys - {SessionKey(token)};
    assert |sessions.Keys - {SessionKey(token)}| == |sessions.Keys| - 1;
    forall other | other != token
      ensures SessionKey(other) != SessionKey(token)
    {
      SessionKeyInjective(other, token);
    }
  }

  /** A missing token or one that resolves to nothing gets 401 and deletes nothing;
      so logging out twice with one token fails the second time. */
  lemma DisconnectTwiceFails(xToken: Option<string>, sessions: map<string, Entry>)
    ensures SessionUser(xToken, sessions).None? ==>
      Disconnect(xToken, sessions) == Outcome(Unauthorized, sessions)
    ensures var first := Disconnect(xToken, sessions);
      Disconnect(xToken, first.sessions) == Outcome(Unauthorized, first.sessions)
  {
  }

  /** The login handler, step by step against the user collection and the session store. */
  method GetConnect(authorization: Option<string>, users: Collection<UserDoc>, sessions: Store,
                    decode: string -> string, hash: Json -> Digest, token: string)
    returns (res: Response)
    modifies sessions
    ensures var out := Connect(authorization, users.docs, old(sessions.entries), decode, hash, token);
      res == out.response && sessions.entries == out.sessions
  {
    var credentials := Credentials(HeaderText(authorization), decode);
    if credentials.None? {
      return Unauthorized;
    }
    var (email, password) := credentials.value;
    var user := users.FindOne(WithLogin(email, hash(Str(password))));
    if user.None? {
      return Unauthorized;
    }
    var key := SessionKey(token);
    sessions.SetEx(key, user.value.id, SessionTtl);
    return Response(200, Token(token));
  }

  /** The logout handler, step by step against the session store. */
  method GetDisconnect(xToken: Option<string>, sessions: Store) returns (res: Response)
    modifies sessions
    ensures var out := Disconnect(xToken, old(sessions.entries));
      res == out.response && sessions.entries == out.sessions
  {
    if !Present(xToken) {
      return Unauthorized;
    }
    var user := sessions.Get(SessionKey(xToken.value));
    if user.None? || user.value == "" {
      return Unauthorized;
    }
    sessions.Del(SessionKey(xToken.value));
    return Response(204, NoContent);
  }
}
