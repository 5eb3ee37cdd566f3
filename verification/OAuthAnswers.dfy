/** When the handlers say yes and what they answer, condition by condition. */
module OAuthAnswers {
  import opened Text
  import opened Scopes
  import opened OAuthTables
  import opened OAuthServer
  import opened OAuthRuns
  import opened OAuthGuarantees

  // ---------- client authentication ----------

  /** The client is stored with a secret, and the request does not carry it. */
  predicate Unproven(t: Tables, client: string, secret: string) {
    client in t.clients && t.clients[client].Some? && (secret == "" || Sha(secret) != t.clients[client].value)
  }

  /** The presented refresh token is of a client that is stored with a secret and that the request does not name. */
  predicate Unnamed(t: Tables, r: TokenRequest) {
    && r.grantType == RefreshToken && Sha(r.refreshToken) in t.refresh
    && var owner := t.refresh[Sha(r.refreshToken)].client;
    && owner != "" && owner != r.clientId && owner in t.clients && t.clients[owner].Some?
  }

  /** The answer is invalid_client in exactly two cases, and then no code or token changes. */
  lemma RefusedIff(s: Settings, t: Tables, r: TokenRequest)
    ensures TokenAnswered(s, t, r).1 == Refused(InvalidClient) <==>
            (r.clientId != "" && Unproven(t, r.clientId, r.secret)) || Unnamed(t, r)
    ensures TokenAnswered(s, t, r).1 == Refused(InvalidClient) ==> TokenAnswered(s, t, r).0 == t
  {}

  /**
   * While the record of a client with a secret is stored, tokens for it are only ever the answer to a
   * request that names it and carries the secret, whichever grant was used.
   */
  lemma SecretIsRequired(s: Settings, steps: seq<Step>, r: TokenRequest)
    requires ValidRun(s, INITIAL, steps)
    requires var w := Run(s, INITIAL, steps);
             && Answer(s, w, r).Issued? && Answer(s, w, r).client in w.tables.clients
             && w.tables.clients[Answer(s, w, r).client].Some?
    ensures var w, client := Run(s, INITIAL, steps), Answer(s, Run(s, INITIAL, steps), r).client;
            r.clientId == client && r.secret != "" && w.tables.clients[client] == Some(Sha(r.secret))
  {
    RunKeepsInv(s, INITIAL, steps);
    var w := Run(s, INITIAL, steps);
    assert "" !in w.tables.clients;
    RefusedIff(s, w.tables, r);
    if r.grantType == AuthorizationCode {
      CodeGrantNeedsLife(s, w, r);
    } else {
      RefreshNeedsLife(s, w, r);
    }
  }

  /** What a registration stores. */
  lemma RegistrationStores(s: Settings, w: World, random: string, secret: Option<string>)
    ensures var id, v := "dcr_" + random, Exec(s, w, Register(random, secret));
            && id in v.tables.clients
            && v.tables.clients[id] == (if secret.Some? then Some(Sha(secret.value)) else None)
            && v.tables.codes == w.tables.codes && v.tables.refresh == w.tables.refresh
  {}

  /** The step neither deletes the client nor registers its id anew. */
  predicate Spares(step: Step, client: string) {
    && (step.Register? ==> "dcr_" + step.random != client)
    && (step.DeleteClient? ==> step.client != client)
  }

  /** A registered secret stays what it is until the client is deleted or registered anew. */
  lemma {:induction false} SecretIsKept(s: Settings, w: World, steps: seq<Step>, client: string)
    requires ValidRun(s, w, steps) && client in w.tables.clients
    requires forall i :: 0 <= i < |steps| ==> Spares(steps[i], client)
    ensures var v := Run(s, w, steps);
            client in v.tables.clients && v.tables.clients[client] == w.tables.clients[client]
    decreases |steps|
  {
    if steps != [] {
      StepKeepsSecret(s, w, steps[0], client);
      SecretIsKept(s, Exec(s, w, steps[0]), steps[1..], client);
    }
  }

  lemma StepKeepsSecret(s: Settings, w: World, step: Step, client: string)
    requires Spares(step, client) && client in w.tables.clients
    ensures var v := Exec(s, w, step);
            client in v.tables.clients && v.tables.clients[client] == w.tables.clients[client]
  {}

  // ---------- the two grants ----------

  /** The text is empty, or an accepted audience with any number of slashes behind it. */
  predicate AcceptedAudience(s: Settings, resource: string) {
    resource == "" ||
    exists n :: 0 <= n <= |resource| && resource[..n] in s.resources
                && (n > 0 ==> resource[n - 1] != '/') && forall i :: n <= i < |resource| ==> resource[i] == '/'
  }

  lemma AudienceIff(s: Settings, resource: string)
    ensures ResourceOk(s, resource) <==> AcceptedAudience(s, resource)
  {
    var t := TrimEnd(resource, IsSlash);
    assert resource[..|t|] == t;
    forall n | 0 <= n <= |resource| && (n > 0 ==> resource[n - 1] != '/')
               && forall i :: n <= i < |resource| ==> resource[i] == '/'
      ensures resource[..n] == t
    {
      TrimEndUnique(resource, n, IsSlash);
    }
  }

  /** The verifier answers the challenge of the code; without one PKCE must not be required now. */
  predicate ChallengeMet(s: Settings, challengeMethod: ChallengeMethod, challenge: string, verifier: string) {
    match challengeMethod
    case S256 => verifier != "" && s.s256(verifier) == challenge
    case Plain => verifier != "" && verifier == challenge
    case NoMethod => !s.requirePkce
  }

  /** The code is stored and unspent, and everything about the request but its resource is in order. */
  predicate CodeRight(s: Settings, t: Tables, r: TokenRequest) {
    && Sha(r.code) in t.codes
    && var row := t.codes[Sha(r.code)];
    && !row.used && row.expiresAt as real >= r.now && row.client == r.clientId
    && (r.redirectUri == "" || r.redirectUri == row.redirectUri)
    && ChallengeMet(s, row.challengeMethod, row.challenge, r.verifier)
  }

  /** The answer to a code request that is not refused for its client: when there are tokens, and which error else. */
  lemma CodeAnswer(s: Settings, t: Tables, r: TokenRequest)
    requires r.grantType == AuthorizationCode && !(r.clientId != "" && Unproven(t, r.clientId, r.secret))
    ensures var answer := TokenAnswered(s, t, r).1;
            && (answer.Issued? <==> CodeRight(s, t, r) && AcceptedAudience(s, r.resource))
            && (answer == Refused(InvalidTarget) <==> CodeRight(s, t, r) && !AcceptedAudience(s, r.resource))
            && (answer == Refused(InvalidGrant) <==> !CodeRight(s, t, r))
  {
    RefusedIff(s, t, r);
    AudienceIff(s, r.resource);
  }

  /** The token is stored, unrevoked and in time, and the request names no other client. */
  predicate RefreshRight(t: Tables, r: TokenRequest) {
    && Sha(r.refreshToken) in t.refresh
    && var row := t.refresh[Sha(r.refreshToken)];
    && !row.revoked && row.expiresAt as real >= r.now && (r.clientId == "" || r.clientId == row.client)
  }

  /** The answer to any other request. */
  lemma OtherAnswer(s: Settings, t: Tables, r: TokenRequest)
    requires r.grantType != AuthorizationCode
    requires !(r.clientId != "" && Unproven(t, r.clientId, r.secret)) && !Unnamed(t, r)
    ensures var answer := TokenAnswered(s, t, r).1;
            if r.grantType == RefreshToken
            then (answer.Issued? <==> RefreshRight(t, r)) && (answer == Refused(InvalidGrant) <==> !RefreshRight(t, r))
            else answer == Refused(UnsupportedGrantType) && TokenAnswered(s, t, r).0 == t
  {
    RefusedIff(s, t, r);
  }

  /** What an issued answer carries, and the refresh row that is stored with it. */
  lemma IssuedCarries(s: Settings, t: Tables, r: TokenRequest)
    requires TokenAnswered(s, t, r).1.Issued?
    ensures var (after, answer) := TokenAnswered(s, t, r);
            && answer.refreshToken == r.mint && Sha(r.mint) in after.refresh
            && var row := after.refresh[Sha(r.mint)];
            && row.client == answer.client && row.subject == answer.subject && !row.revoked
            && row.expiresAt == Seconds(r.now) + s.refreshTtl
            && WordSet(answer.scope) == WordSet(row.scope) - {OFFLINE}
            && if r.grantType == AuthorizationCode then
                 && Sha(r.code) in t.codes && row.family == Sha(r.code)
                 && row.client == t.codes[Sha(r.code)].client && row.subject == t.codes[Sha(r.code)].subject
                 && row.scope == t.codes[Sha(r.code)].scope
               else
                 && Sha(r.refreshToken) in t.refresh
                 && var held := t.refresh[Sha(r.refreshToken)];
                 && row.family == held.family && row.client == held.client && row.subject == held.subject
                 && var kept := Wanted(if r.scope == "" then held.scope else r.scope) * WordSet(held.scope);
                 WordSet(row.scope) == if kept == {} then WordSet(held.scope) else kept
  {
    var row := TokenAnswered(s, t, r).0.refresh[Sha(r.mint)];
    ClaimedWords(row.scope);
    if r.grantType != AuthorizationCode {
      RefreshedWords(r.scope, t.refresh[Sha(r.refreshToken)].scope);
    }
  }

  /**
   * In terms of families: a refresh request is answered with tokens exactly when it presents the current
   * token of some family, in time, names no other client, and proves a client that has a secret.
   */
  lemma RefreshIssuesIff(s: Settings, w: World, r: TokenRequest, cur: Families)
    requires Reflects(w.tables, cur) && r.grantType == RefreshToken
    ensures var t, h := w.tables, Sha(r.refreshToken);
            Answer(s, w, r).Issued? <==>
            && h in t.refresh && h in cur.Values && t.refresh[h].expiresAt as real >= r.now
            && (r.clientId == "" || r.clientId == t.refresh[h].client)
            && !(r.clientId != "" && Unproven(t, r.clientId, r.secret)) && !Unnamed(t, r)
  {
    var t, h := w.tables, Sha(r.refreshToken);
    RefusedIff(s, t, r);
    if h in t.refresh && Live(t, h) {
      assert cur[t.refresh[h].family] == h;
    }
  }

  // ---------- the consent step ----------

  /** A known scope that was asked for, by name or by asking for nothing known, has its box ticked. */
  predicate TicksSomething(scope: string, boxes: set<string>) {
    exists w :: w in Wanted(scope) && w in boxes && w != OFFLINE
  }

  /** Everything the approve branch demands. */
  predicate ConsentRight(s: Settings, t: Tables, a: Approval) {
    && a.clientId in t.clients && a.redirectUri != "" && a.redirectOk && a.responseType == CodeResponse
    && (if s.requirePkce then a.challengeMethod == S256 && a.challenge != ""
        else a.challenge == "" || a.challengeMethod == S256 || a.challengeMethod == Plain)
    && AcceptedAudience(s, a.resource)
    && a.subject.Some? && a.action == ApproveAction
    && TicksSomething(a.scope, a.boxes)
  }

  lemma TicksIff(a: Approval)
    ensures GrantsSomething(PickedScopes(a)) <==> TicksSomething(a.scope, a.boxes)
  {
    var scope := Norm(a.scope, SCOPES);
    WantedIsNorm(a.scope);
    PickedWords(scope, a.boxes);
    FilterIsWords(Words(scope), a.boxes + {OFFLINE});
    WordsOfSpaced(PickedScopes(a));
    assert forall w :: w in PickedScopes(a) <==> w in WordSet(scope) * (a.boxes + {OFFLINE});
  }

  /** The approve branch stores a code exactly then; the code is bound to everything the user saw and ticked. */
  lemma ApprovesIff(s: Settings, t: Tables, a: Approval)
    requires Sha(a.mint) !in t.codes
    ensures Approvable(s, t, a) <==> ConsentRight(s, t, a)
    ensures var u := Approved(s, t, a);
            if !ConsentRight(s, t, a) then u == t
            else
              && u.clients == t.clients && u.refresh == t.refresh
              && u.codes.Keys == t.codes.Keys + {Sha(a.mint)} && (forall c :: c in t.codes ==> u.codes[c] == t.codes[c])
              && var row := u.codes[Sha(a.mint)];
              && row.client == a.clientId && row.redirectUri == a.redirectUri && row.subject == a.subject.value
              && row.challenge == a.challenge
              && row.challengeMethod == (if a.challenge != "" then a.challengeMethod else NoMethod)
              && row.expiresAt == Seconds(a.now) + s.codeTtl && !row.used
              && WordSet(row.scope) == Wanted(a.scope) * (a.boxes + {OFFLINE})
  {
    AudienceIff(s, a.resource);
    TicksIff(a);
    WantedIsNorm(a.scope);
    PickedWords(Norm(a.scope, SCOPES), a.boxes);
  }

  /** The consent is what this step of a run approved. */
  predicate Records(s: Settings, step: Step, c: Digest, consent: Consent) {
    && step.Approve?
    && var a := step.approval;
    && Sha(a.mint) == c && a.action == ApproveAction && a.redirectOk && a.subject == Some(consent.subject)
    && consent.client == a.clientId && consent.boxes == a.boxes && consent.redirectUri == a.redirectUri
    && consent.challenge == a.challenge
    && consent.challengeMethod == (if a.challenge != "" then a.challengeMethod else NoMethod)
    && consent.expiresAt == Seconds(a.now) + s.codeTtl
  }

  /** Every code of a run goes back to a step in which a logged-in user pressed approve for an allowed callback. */
  lemma {:induction false} ConsentsComeFromApprovals(s: Settings, w: World, steps: seq<Step>, c: Digest)
    requires ValidRun(s, w, steps) && c in Run(s, w, steps).consents && c !in w.consents
    ensures exists i :: 0 <= i < |steps| && Records(s, steps[i], c, Run(s, w, steps).consents[c])
    decreases |steps|
  {
    if steps != [] {
      var v, rest := Exec(s, w, steps[0]), steps[1..];
      if c in v.consents {
        ConsentsPersist(s, v, rest, c);
        assert Records(s, steps[0], c, v.consents[c]);
      } else {
        ConsentsComeFromApprovals(s, v, rest, c);
        var i :| 0 <= i < |rest| && Records(s, rest[i], c, Run(s, v, rest).consents[c]);
        assert steps[i + 1] == rest[i];
      }
    }
  }

  /**
   * A code is exchanged only in time, by the client it was made for, with the callback it was made for
   * when one is named, and with a verifier that answers its challenge, whichever method it carries; without
   * a challenge only while PKCE is not required.
   */
  lemma CodeIsBound(s: Settings, steps: seq<Step>, r: TokenRequest)
    requires ValidRun(s, INITIAL, steps) && r.grantType == AuthorizationCode
    requires Answer(s, Run(s, INITIAL, steps), r).Issued?
    ensures var w := Run(s, INITIAL, steps);
            Sha(r.code) in w.consents
            && var consent := w.consents[Sha(r.code)];
            && r.clientId == consent.client
            && consent.expiresAt as real >= r.now
            && (r.redirectUri == "" || r.redirectUri == consent.redirectUri)
            && ChallengeMet(s, consent.challengeMethod, consent.challenge, r.verifier)
            && (s.requirePkce ==> consent.challengeMethod == S256)
  {
    RunKeepsInv(s, INITIAL, steps);
    RunKeepsChallenged(s, INITIAL, steps);
    var w := Run(s, INITIAL, steps);
    CodeGrantNeedsLife(s, w, r);
    assert CodeConsented(w, Sha(r.code), w.tables.codes[Sha(r.code)]);
  }

  // ---------- collection ----------

  /** Collection drops codes an hour and tokens a day past their end, and nothing else. */
  lemma CollectionKeeps(t: Tables, now: real)
    ensures var u := Collected(t, now);
            && u.clients == t.clients
            && (forall c :: c in u.codes <==> c in t.codes && t.codes[c].expiresAt + 3600 >= Seconds(now))
            && (forall c :: c in u.codes ==> u.codes[c] == t.codes[c])
            && (forall h :: h in u.refresh <==> h in t.refresh && t.refresh[h].expiresAt + 86400 >= Seconds(now))
            && (forall h :: h in u.refresh ==> u.refresh[h] == t.refresh[h])
  {}
}
