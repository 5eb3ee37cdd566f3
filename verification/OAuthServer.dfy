/** The handlers of auth/oauth.py that touch the tables, each one step on the event loop. */
module OAuthServer {
  import opened Text
  import opened Scopes
  import opened OAuthTables

  /** s256 stands for base64url(sha256(.)); resources are the accepted audiences without trailing slashes. */
  datatype Settings = Settings(requirePkce: bool, s256: string -> string, codeTtl: int, refreshTtl: int,
                               resources: set<string>)

  datatype GrantType = AuthorizationCode | RefreshToken | OtherGrant

  datatype OAuthError = InvalidClient | InvalidGrant | InvalidTarget | UnsupportedGrantType

  /** A POST to /oauth/token, with the clock reading and the random refresh token it will meet. */
  datatype TokenRequest = TokenRequest(grantType: GrantType, clientId: string, secret: string,
                                       code: string, verifier: string, redirectUri: string, resource: string,
                                       refreshToken: string, scope: string,
                                       now: real, mint: string)

  /** Issued carries the claims of the access token and the refresh token beside it. */
  datatype Response =
    | Refused(error: OAuthError)
    | Issued(client: string, subject: string, scope: string, refreshToken: string)

  datatype ResponseType = CodeResponse | OtherResponse

  datatype Action = ApproveAction | DenyAction | NoAction

  /** A POST to /oauth/authorize; redirectOk says that the callback is registered and allowed. */
  datatype Approval = Approval(clientId: string, redirectUri: string, redirectOk: bool, responseType: ResponseType,
                               challenge: string, challengeMethod: ChallengeMethod, resource: string, scope: string,
                               subject: Option<string>, action: Action, boxes: set<string>,
                               now: real, mint: string)

  predicate IsSlash(c: char) { c == '/' }

  predicate ResourceOk(s: Settings, resource: string) {
    resource == "" || TrimEnd(resource, IsSlash) in s.resources
  }

  predicate Expired(expiresAt: int, now: real) { expiresAt as real < now }

  /** The test of section 4.6 of RFC 7636, and its absence when PKCE is not required. */
  predicate PkceOk(s: Settings, row: CodeRow, verifier: string) {
    if row.challengeMethod == S256 then verifier != "" && s.s256(verifier) == row.challenge
    else if row.challengeMethod == Plain then verifier != "" && verifier == row.challenge
    else !s.requirePkce
  }

  // ---------- what each handler does to the tables ----------

  predicate Confidential(t: Tables, client: string) {
    client in t.clients && t.clients[client].Some?
  }

  /** The request names the client and carries the secret that belongs to it. */
  predicate Authenticated(t: Tables, r: TokenRequest, client: string) {
    r.clientId == client && r.secret != "" && client in t.clients && t.clients[client] == Some(Sha(r.secret))
  }

  /** Client authentication, for the named client and for the owner of a presented refresh token. */
  predicate ClientDenied(t: Tables, r: TokenRequest) {
    || (r.clientId != "" && Confidential(t, r.clientId) && !Authenticated(t, r, r.clientId))
    || (&& r.grantType == RefreshToken && Sha(r.refreshToken) in t.refresh
        && var owner := t.refresh[Sha(r.refreshToken)].client;
        && owner != "" && r.clientId != owner && Confidential(t, owner))
  }

  predicate CodeFits(s: Settings, row: CodeRow, r: TokenRequest) {
    && !Expired(row.expiresAt, r.now)
    && row.client == r.clientId
    && (r.redirectUri == "" || r.redirectUri == row.redirectUri)
    && PkceOk(s, row, r.verifier)
  }

  predicate RefreshFits(row: RefreshRow, r: TokenRequest) {
    !Expired(row.expiresAt, r.now) && (r.clientId == "" || r.clientId == row.client)
  }

  /** _issue: a new refresh row in the family, and the access token beside it. */
  function TokensIssued(s: Settings, t: Tables, r: TokenRequest, client: string, subject: string, scope: string,
                        family: Digest): (Tables, Response) {
    var row := RefreshRow(family, client, subject, scope, Seconds(r.now) + s.refreshTtl, false);
    (t.(refresh := t.refresh[Sha(r.mint) := row]), Issued(client, subject, Claimed(scope), r.mint))
  }

  function CodeGranted(s: Settings, t: Tables, r: TokenRequest): (Tables, Response) {
    match CodeTaken(t, r.code)
    case (after, First(row)) =>
      if !CodeFits(s, row, r) then (after, Refused(InvalidGrant))
      else if !ResourceOk(s, r.resource) then (after, Refused(InvalidTarget))
      else TokensIssued(s, after, r, row.client, row.subject, row.scope, Sha(r.code))
    case (after, _) => (after, Refused(InvalidGrant))
  }

  function RefreshGranted(s: Settings, t: Tables, r: TokenRequest): (Tables, Response) {
    match RefreshTaken(t, r.refreshToken)
    case (after, First(row)) =>
      if !RefreshFits(row, r) then (after, Refused(InvalidGrant))
      else TokensIssued(s, after, r, row.client, row.subject, Refreshed(r.scope, row.scope), row.family)
    case (after, _) => (after, Refused(InvalidGrant))
  }

  function TokenAnswered(s: Settings, t: Tables, r: TokenRequest): (Tables, Response) {
    if ClientDenied(t, r) then (t, Refused(InvalidClient))
    else if r.grantType == AuthorizationCode then CodeGranted(s, t, r)
    else if r.grantType == RefreshToken then RefreshGranted(s, t, r)
    else (t, Refused(UnsupportedGrantType))
  }

  /** The checks that stand before the approve branch. */
  predicate Approvable(s: Settings, t: Tables, a: Approval) {
    && a.clientId in t.clients && a.redirectUri != "" && a.redirectOk && a.responseType == CodeResponse
    && ChallengeOk(s, a)
    && ResourceOk(s, a.resource)
    && a.subject.Some? && a.action == ApproveAction
    && GrantsSomething(PickedScopes(a))
  }

  predicate ChallengeOk(s: Settings, a: Approval) {
    if s.requirePkce then a.challengeMethod == S256 && a.challenge != ""
    else a.challenge != "" ==> a.challengeMethod == S256 || a.challengeMethod == Plain
  }

  /** Something besides offline_access was ticked. */
  predicate GrantsSomething(picked: seq<string>) {
    exists w | w in picked :: w != OFFLINE
  }

  function PickedScopes(a: Approval): seq<string> {
    Picked(Norm(a.scope, SCOPES), a.boxes)
  }

  function CodeRowFor(s: Settings, a: Approval, scope: string): CodeRow
    requires a.subject.Some?
  {
    CodeRow(a.clientId, a.redirectUri, scope, a.challenge,
            if a.challenge != "" then a.challengeMethod else NoMethod,
            a.subject.value, Seconds(a.now) + s.codeTtl, false)
  }

  function Approved(s: Settings, t: Tables, a: Approval): Tables {
    if !Approvable(s, t, a) then t
    else
      t.(codes := t.codes[Sha(a.mint) := CodeRowFor(s, a, Spaced(PickedScopes(a)))])
  }

  // ---------- the server ----------

  class AuthorizationServer {
    const settings: Settings
    const store: Store

    constructor (settings: Settings, store: Store)
      ensures this.settings == settings && this.store == store
    {
      this.settings := settings;
      this.store := store;
    }

    /** The approve branch of authorize; true when a code was sent. */
    method Approve(a: Approval) returns (sent: bool)
      requires Sha(a.mint) !in store.codes
      modifies store`codes
      ensures store.Contents() == Approved(settings, old(store.Contents()), a)
      ensures sent == Approvable(settings, old(store.Contents()), a)
    {
      var client := store.GetClient(a.clientId);
      if client.None? || a.redirectUri == "" || !a.redirectOk || a.responseType != CodeResponse {
        return false;
      }
      if !ChallengeOk(settings, a) || !ResourceOk(settings, a.resource) {
        return false;
      }
      if a.subject.None? || a.action != ApproveAction {
        return false;
      }
      var picked := PickedScopes(a);
      if !GrantsSomething(picked) {
        return false;
      }
      store.PutCode(a.mint, CodeRowFor(settings, a, Spaced(picked)));
      return true;
    }

    method Token(r: TokenRequest) returns (response: Response)
      requires Sha(r.mint) !in store.refresh
      modifies store`codes, store`refresh
      ensures (store.Contents(), response) == TokenAnswered(settings, old(store.Contents()), r)
    {
      var denied := CheckClientAuth(r);
      if denied {
        return Refused(InvalidClient);
      }
      if r.grantType == AuthorizationCode {
        response := GrantCode(r);
      } else if r.grantType == RefreshToken {
        response := GrantRefresh(r);
      } else {
        response := Refused(UnsupportedGrantType);
      }
    }

    method CheckClientAuth(r: TokenRequest) returns (denied: bool)
      ensures denied == (&& r.clientId != "" && r.clientId in store.clients && store.clients[r.clientId].Some?
                         && (r.secret == "" || Sha(r.secret) != store.clients[r.clientId].value))
    {
      if r.clientId == "" {
        return false;
      }
      var client := store.GetClient(r.clientId);
      if client.None? || client.value.None? {
        return false;
      }
      return r.secret == "" || Sha(r.secret) != client.value.value;
    }

    method GrantCode(r: TokenRequest) returns (response: Response)
      requires Sha(r.mint) !in store.refresh
      modifies store`codes, store`refresh
      ensures (store.Contents(), response) == CodeGranted(settings, old(store.Contents()), r)
    {
      var taken := store.TakeCode(r.code);
      if !taken.First? {
        return Refused(InvalidGrant);
      }
      var row := taken.row;
      if Expired(row.expiresAt, r.now) || row.client != r.clientId {
        return Refused(InvalidGrant);
      }
      if r.redirectUri != "" && r.redirectUri != row.redirectUri {
        return Refused(InvalidGrant);
      }
      var verified;
      if row.challengeMethod == S256 {
        verified := r.verifier != "" && settings.s256(r.verifier) == row.challenge;
      } else if row.challengeMethod == Plain {
        verified := r.verifier != "" && r.verifier == row.challenge;
      } else {
        verified := !settings.requirePkce;
      }
      if !verified {
        return Refused(InvalidGrant);
      }
      if !ResourceOk(settings, r.resource) {
        return Refused(InvalidTarget);
      }
      response := Issue(r, r.clientId, row.subject, row.scope, Sha(r.code));
    }

    method GrantRefresh(r: TokenRequest) returns (response: Response)
      requires Sha(r.mint) !in store.refresh
      modifies store`refresh
      ensures var owner := if Sha(r.refreshToken) in old(store.refresh)
                           then old(store.refresh)[Sha(r.refreshToken)].client else "";
              (store.Contents(), response) ==
              if owner != "" && r.clientId != owner && Confidential(old(store.Contents()), owner)
              then (old(store.Contents()), Refused(InvalidClient))
              else RefreshGranted(settings, old(store.Contents()), r)
    {
      var owner := store.RefreshOwner(r.refreshToken);
      if owner.Some? && owner.value != "" && r.clientId != owner.value {
        var client := store.GetClient(owner.value);
        if client.Some? && client.value.Some? {
          return Refused(InvalidClient);
        }
      }
      var taken := store.TakeRefresh(r.refreshToken);
      if !taken.First? {
        return Refused(InvalidGrant);
      }
      var row := taken.row;
      if Expired(row.expiresAt, r.now) {
        return Refused(InvalidGrant);
      }
      if r.clientId != "" && row.client != r.clientId {
        return Refused(InvalidGrant);
      }
      response := Issue(r, row.client, row.subject, Refreshed(r.scope, row.scope), row.family);
    }

    method Issue(r: TokenRequest, client: string, subject: string, scope: string, family: Digest)
      returns (response: Response)
      requires Sha(r.mint) !in store.refresh
      modifies store`refresh
      ensures (store.Contents(), response) ==
              TokensIssued(settings, old(store.Contents()), r, client, subject, scope, family)
    {
      store.PutRefresh(r.mint, RefreshRow(family, client, subject, scope,
                                           Seconds(r.now) + settings.refreshTtl, false));
      response := Issued(client, subject, Claimed(scope), r.mint);
    }

    method Revoke(token: string)
      modifies store`refresh
      ensures store.refresh == if token == "" then old(store.refresh) else RowRevoked(old(store.refresh), Sha(token))
    {
      if token != "" {
        store.RevokeRefresh(token);
      }
    }
  }
}
