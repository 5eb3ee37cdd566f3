/** Runs of the authorization server, and what every run keeps. */
module OAuthRuns {
  import opened Text
  import opened Scopes
  import opened OAuthTables
  import opened OAuthServer

  /** What the user agreed to when a code was made: for whom, which boxes, and how the code is bound. */
  datatype Consent = Consent(client: string, subject: string, boxes: set<string>,
                             redirectUri: string, challenge: string, challengeMethod: ChallengeMethod,
                             expiresAt: int)

  /** The tables with their history: every code ever made, every refresh token ever made. */
  datatype World = World(tables: Tables, consents: map<Digest, Consent>, minted: set<Digest>)

  const INITIAL := World(Tables(map[], map[], map[]), map[], {})

  datatype Step =
    | Register(random: string, secret: Option<string>)
    | Document(url: string)
    | Approve(approval: Approval)
    | Token(request: TokenRequest)
    | Revoke(token: string)
    | DeleteClient(client: string)
    | Collect(now: real)

  /** secrets.token_urlsafe never repeats a value. */
  predicate Unrepeated(w: World, step: Step) {
    match step
    case Approve(a) => Sha(a.mint) !in w.consents
    case Token(r) => Sha(r.mint) !in w.minted
    case _ => true
  }

  function Answer(s: Settings, w: World, r: TokenRequest): Response {
    TokenAnswered(s, w.tables, r).1
  }

  function ConsentOf(s: Settings, a: Approval): Consent
    requires a.subject.Some?
  {
    Consent(a.clientId, a.subject.value, a.boxes, a.redirectUri, a.challenge,
            if a.challenge != "" then a.challengeMethod else NoMethod, Seconds(a.now) + s.codeTtl)
  }

  /** The code of an approval is stored. */
  function CodePut(s: Settings, w: World, a: Approval): World
    requires a.subject.Some?
  {
    var row := CodeRowFor(s, a, Spaced(PickedScopes(a)));
    w.(tables := w.tables.(codes := w.tables.codes[Sha(a.mint) := row]),
       consents := w.consents[Sha(a.mint) := ConsentOf(s, a)])
  }

  function Exec(s: Settings, w: World, step: Step): World {
    var t := w.tables;
    match step
    case Register(random, secret) =>
      w.(tables := t.(clients := t.clients["dcr_" + random := if secret.Some? then Some(Sha(secret.value)) else None]))
    case Document(url) =>
      if "https://" <= url && url !in t.clients then w.(tables := t.(clients := t.clients[url := None])) else w
    case Approve(a) => if Approvable(s, t, a) then CodePut(s, w, a) else w
    case Token(r) =>
      var (after, response) := TokenAnswered(s, t, r);
      w.(tables := after, minted := if response.Issued? then w.minted + {Sha(r.mint)} else w.minted)
    case Revoke(token) =>
      if token == "" then w else w.(tables := t.(refresh := RowRevoked(t.refresh, Sha(token))))
    case DeleteClient(client) =>
      w.(tables := t.(clients := t.clients - {client}, refresh := ClientRevoked(t.refresh, client)))
    case Collect(now) => w.(tables := Collected(t, now))
  }

  predicate ValidRun(s: Settings, w: World, steps: seq<Step>)
    decreases |steps|
  {
    steps == [] || (Unrepeated(w, steps[0]) && ValidRun(s, Exec(s, w, steps[0]), steps[1..]))
  }

  function Run(s: Settings, w: World, steps: seq<Step>): World
    decreases |steps|
  {
    if steps == [] then w else Run(s, Exec(s, w, steps[0]), steps[1..])
  }

  // ---------- the invariant ----------

  predicate Live(t: Tables, h: Digest) {
    h in t.refresh && !t.refresh[h].revoked
  }

  ghost predicate OneLive(t: Tables) {
    forall g, h :: Live(t, g) && Live(t, h) && t.refresh[g].family == t.refresh[h].family ==> g == h
  }

  predicate HasConsent(w: World, family: Digest, client: string, subject: string, scope: string) {
    && family in w.consents
    && w.consents[family].client == client && w.consents[family].subject == subject
    && WordSet(scope) <= (w.consents[family].boxes * (set x | x in SCOPES)) + {OFFLINE}
  }

  /** No row stands in the family of an unspent code. */
  ghost predicate UnspentIsEmpty(t: Tables) {
    forall c, h :: c in t.codes && !t.codes[c].used && h in t.refresh ==> t.refresh[h].family != c
  }

  predicate CodeConsented(w: World, c: Digest, row: CodeRow) {
    && HasConsent(w, c, row.client, row.subject, row.scope)
    && row.redirectUri == w.consents[c].redirectUri && row.challenge == w.consents[c].challenge
    && row.challengeMethod == w.consents[c].challengeMethod && row.expiresAt == w.consents[c].expiresAt
  }

  predicate RowConsented(w: World, row: RefreshRow) {
    HasConsent(w, row.family, row.client, row.subject, row.scope)
  }

  ghost predicate Inv(w: World) {
    var t := w.tables;
    && "" !in t.clients
    && t.refresh.Keys <= w.minted
    && (forall c :: c in t.codes ==> CodeConsented(w, c, t.codes[c]))
    && (forall h :: h in t.refresh ==> RowConsented(w, t.refresh[h]))
    && UnspentIsEmpty(t)
    && OneLive(t)
  }

  // ---------- every step tames the tables and then inserts at most one row ----------

  /** u comes from t by spending codes, revoking tokens and dropping rows. */
  ghost predicate Tamed(t: Tables, u: Tables) {
    && (forall c :: c in u.codes ==>
          c in t.codes && (u.codes[c] == t.codes[c] || u.codes[c] == t.codes[c].(used := true)))
    && (forall h :: h in u.refresh ==>
          h in t.refresh && (u.refresh[h] == t.refresh[h] || u.refresh[h] == t.refresh[h].(revoked := true)))
  }

  /** No row of the family is live. */
  ghost predicate NoLive(t: Tables, family: Digest) {
    forall h :: Live(t, h) ==> t.refresh[h].family != family
  }

  /** The code behind the family is spent, or collected. */
  predicate Spent(t: Tables, family: Digest) {
    family in t.codes ==> t.codes[family].used
  }

  lemma TamingKeepsInv(w: World, u: Tables)
    requires Inv(w) && Tamed(w.tables, u) && "" !in u.clients
    ensures Inv(w.(tables := u))
  {}

  lemma InsertKeepsInv(w: World, h: Digest, row: RefreshRow)
    requires Inv(w) && h !in w.minted && RowConsented(w, row)
    requires NoLive(w.tables, row.family) && Spent(w.tables, row.family)
    ensures Inv(w.(tables := w.tables.(refresh := w.tables.refresh[h := row]), minted := w.minted + {h}))
  {}

  lemma CodeTakenTames(w: World, code: string)
    requires Inv(w)
    ensures var (u, taken) := CodeTaken(w.tables, code);
            && Tamed(w.tables, u) && u.clients == w.tables.clients
            && (taken.First? ==>
                  && NoLive(u, Sha(code)) && Spent(u, Sha(code))
                  && Sha(code) in w.tables.codes && w.tables.codes[Sha(code)] == taken.row)
  {}

  lemma RefreshTakenTames(w: World, token: string)
    requires Inv(w)
    ensures var (u, taken) := RefreshTaken(w.tables, token);
            && Tamed(w.tables, u) && u.clients == w.tables.clients
            && (taken.First? ==>
                  && NoLive(u, taken.row.family) && Spent(u, taken.row.family)
                  && Live(w.tables, Sha(token)) && w.tables.refresh[Sha(token)] == taken.row)
  {}

  /** after is u with the row the request was answered with, and u is a tamed t. */
  ghost predicate Inserts(w: World, u: Tables, row: RefreshRow, r: TokenRequest, after: Tables, response: Response) {
    && Tamed(w.tables, u) && u.clients == w.tables.clients
    && after == u.(refresh := u.refresh[Sha(r.mint) := row])
    && !row.revoked && NoLive(u, row.family) && Spent(u, row.family) && RowConsented(w, row)
    && response == Issued(row.client, row.subject, Claimed(row.scope), r.mint)
  }

  /** The tables after the presented code or token was taken, before anything is issued. */
  function AfterTaking(t: Tables, r: TokenRequest): Tables {
    if r.grantType == AuthorizationCode then CodeTaken(t, r.code).0 else RefreshTaken(t, r.refreshToken).0
  }

  ghost predicate TamesOrInserts(w: World, u: Tables, r: TokenRequest, after: Tables, response: Response) {
    if response.Issued? then
      Sha(r.mint) in after.refresh && Inserts(w, u, after.refresh[Sha(r.mint)], r, after, response)
    else Tamed(w.tables, after) && after.clients == w.tables.clients
  }

  lemma CodeGrantTamesOrInserts(s: Settings, w: World, r: TokenRequest)
    requires Inv(w)
    ensures var (after, response) := CodeGranted(s, w.tables, r);
            TamesOrInserts(w, CodeTaken(w.tables, r.code).0, r, after, response)
  {
    CodeTakenTames(w, r.code);
    var taken := CodeTaken(w.tables, r.code).1;
    if taken.First? {
      assert CodeConsented(w, Sha(r.code), taken.row);
    }
  }

  lemma NarrowedConsent(w: World, row: RefreshRow, scope: string, expiresAt: int)
    requires RowConsented(w, row) && WordSet(scope) <= WordSet(row.scope)
    ensures RowConsented(w, RefreshRow(row.family, row.client, row.subject, scope, expiresAt, false))
  {}

  lemma RefreshTamesOrInserts(s: Settings, w: World, r: TokenRequest)
    requires Inv(w)
    ensures var (after, response) := RefreshGranted(s, w.tables, r);
            TamesOrInserts(w, RefreshTaken(w.tables, r.refreshToken).0, r, after, response)
  {
    RefreshTakenTames(w, r.refreshToken);
    var taken := RefreshTaken(w.tables, r.refreshToken).1;
    if taken.First? {
      var row, scope := taken.row, Refreshed(r.scope, taken.row.scope);
      assert RowConsented(w, row);
      RefreshedShrinks(r.scope, row.scope);
      NarrowedConsent(w, row, scope, Seconds(r.now) + s.refreshTtl);
    }
  }

  lemma TokenTamesOrInserts(s: Settings, w: World, r: TokenRequest)
    requires Inv(w)
    ensures var (after, response) := TokenAnswered(s, w.tables, r);
            TamesOrInserts(w, AfterTaking(w.tables, r), r, after, response)
  {
    if ClientDenied(w.tables, r) {
    } else if r.grantType == AuthorizationCode {
      CodeGrantTamesOrInserts(s, w, r);
    } else if r.grantType == RefreshToken {
      RefreshTamesOrInserts(s, w, r);
    }
  }

  lemma ApprovedScope(a: Approval)
    ensures WordSet(Spaced(PickedScopes(a))) <= (a.boxes * (set x | x in SCOPES)) + {OFFLINE}
  {
    var scope := Norm(a.scope, SCOPES);
    NormOfScopes(a.scope);
    PickedWords(scope, a.boxes);
  }

  /** One step, whatever it is, keeps the invariant. */
  lemma StepKeepsInv(s: Settings, w: World, step: Step)
    requires Inv(w) && Unrepeated(w, step)
    ensures Inv(Exec(s, w, step))
  {
    match step
    case Approve(a) =>
      if Approvable(s, w.tables, a) {
        CodePutKeepsInv(s, w, a);
      }
    case Token(r) =>
      TokenTamesOrInserts(s, w, r);
      var (after, response) := TokenAnswered(s, w.tables, r);
      if response.Issued? {
        var u, row := AfterTaking(w.tables, r), after.refresh[Sha(r.mint)];
        TamingKeepsInv(w, u);
        InsertKeepsInv(w.(tables := u), Sha(r.mint), row);
      } else {
        TamingKeepsInv(w, Exec(s, w, step).tables);
      }
    case _ =>
      TamingKeepsInv(w, Exec(s, w, step).tables);
  }

  lemma CodePutKeepsInv(s: Settings, w: World, a: Approval)
    requires Inv(w) && Sha(a.mint) !in w.consents && a.subject.Some?
    ensures Inv(CodePut(s, w, a))
  {
    var v := CodePut(s, w, a);
    ApprovedScope(a);
    forall c | c in v.tables.codes ensures CodeConsented(v, c, v.tables.codes[c]) {
      assert c != Sha(a.mint) ==> CodeConsented(w, c, w.tables.codes[c]);
    }
    forall h | h in v.tables.refresh ensures RowConsented(v, v.tables.refresh[h]) {
      assert RowConsented(w, w.tables.refresh[h]);
    }
    assert forall h :: Live(v.tables, h) ==> Live(w.tables, h);
  }

  lemma {:induction false} RunKeepsInv(s: Settings, w: World, steps: seq<Step>)
    requires Inv(w) && ValidRun(s, w, steps)
    ensures Inv(Run(s, w, steps))
    decreases |steps|
  {
    if steps != [] {
      StepKeepsInv(s, w, steps[0]);
      RunKeepsInv(s, Exec(s, w, steps[0]), steps[1..]);
    }
  }
}
