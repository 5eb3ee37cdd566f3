/** What the authorization server promises over whole runs. */
module OAuthGuarantees {
  import opened Text
  import opened Scopes
  import opened OAuthTables
  import opened OAuthServer
  import opened OAuthRuns

  // ---------- one current token per family ----------

  /** In every run each family has at most one unrevoked token. */
  lemma AtMostOneLive(s: Settings, steps: seq<Step>)
    requires ValidRun(s, INITIAL, steps)
    ensures OneLive(Run(s, INITIAL, steps).tables)
  {
    RunKeepsInv(s, INITIAL, steps);
  }

  /** The simple form behind the revoked flags: each family with its one current token. */
  type Families = map<Digest, Digest>

  /** cur names exactly the live rows of t, each under its family. */
  ghost predicate Reflects(t: Tables, cur: Families) {
    && (forall f :: f in cur ==> Live(t, cur[f]) && t.refresh[cur[f]].family == f)
    && (forall h :: Live(t, h) ==> t.refresh[h].family in cur && cur[t.refresh[h].family] == h)
  }

  /** A flag table reflects some simple form exactly when no family has two live rows. */
  lemma ReflectsExists(t: Tables)
    ensures OneLive(t) <==> exists cur :: Reflects(t, cur)
  {
    if OneLive(t) {
      var cur := map h | h in t.refresh && Live(t, h) :: t.refresh[h].family := h;
      assert Reflects(t, cur);
    }
    if cur :| Reflects(t, cur) {
      forall g, h | Live(t, g) && Live(t, h) && t.refresh[g].family == t.refresh[h].family ensures g == h {
        assert cur[t.refresh[g].family] == g;
      }
    }
  }

  lemma ReflectsUnique(t: Tables, a: Families, b: Families)
    requires Reflects(t, a) && Reflects(t, b)
    ensures a == b
  {}

  /** A request against a family either moves it to a new token or ends it. */
  function Turned(cur: Families, family: Digest, answer: Response): Families {
    if answer.Issued? then cur[family := Sha(answer.refreshToken)] else cur - {family}
  }

  /** The family a token request is about. */
  function FamilyOf(t: Tables, r: TokenRequest): Option<Digest> {
    match r.grantType
    case AuthorizationCode => if Sha(r.code) in t.codes then Some(Sha(r.code)) else None
    case RefreshToken =>
      if Sha(r.refreshToken) in t.refresh then Some(t.refresh[Sha(r.refreshToken)].family) else None
    case OtherGrant => None
  }

  function WithoutToken(cur: Families, token: Digest): Families {
    map f | f in cur && cur[f] != token :: cur[f]
  }

  /** Without the families of codes that were made for the client. */
  function WithoutClient(cur: Families, consents: map<Digest, Consent>, client: string): Families {
    map f | f in cur && (f in consents ==> consents[f].client != client) :: cur[f]
  }

  function WithoutExpired(cur: Families, rows: map<Digest, RefreshRow>, limit: int): Families {
    map f | f in cur && (cur[f] in rows ==> rows[cur[f]].expiresAt >= limit) :: cur[f]
  }

  /** The step of the simple form. */
  function NextFamilies(w: World, step: Step, answer: Response, cur: Families): Families {
    match step
    case Token(r) =>
      if answer == Refused(InvalidClient) || FamilyOf(w.tables, r).None? then cur
      else Turned(cur, FamilyOf(w.tables, r).value, answer)
    case Revoke(token) => if token == "" then cur else WithoutToken(cur, Sha(token))
    case DeleteClient(client) => WithoutClient(cur, w.consents, client)
    case Collect(now) => WithoutExpired(cur, w.tables.refresh, Seconds(now) - 86400)
    case _ => cur
  }

  // Each table operation against the simple form.

  lemma EndsFamily(t: Tables, u: Tables, family: Digest, cur: Families)
    requires Reflects(t, cur) && u.refresh == FamilyRevoked(t.refresh, family)
    ensures Reflects(u, cur - {family})
  {}

  lemma EndsToken(t: Tables, u: Tables, h: Digest, cur: Families)
    requires Reflects(t, cur) && Live(t, h) && u.refresh == RowRevoked(t.refresh, h)
    ensures Reflects(u, cur - {t.refresh[h].family})
  {}

  lemma Starts(t: Tables, u: Tables, h: Digest, row: RefreshRow, cur: Families)
    requires Reflects(t, cur) && h !in t.refresh && !row.revoked && row.family !in cur
    requires u.refresh == t.refresh[h := row]
    ensures Reflects(u, cur[row.family := h])
  {}

  lemma Rotates(t: Tables, h: Digest, next: Digest, row: RefreshRow, cur: Families)
    requires Reflects(t, cur) && Live(t, h) && next !in t.refresh
    requires !row.revoked && row.family == t.refresh[h].family
    ensures Reflects(t.(refresh := RowRevoked(t.refresh, h)[next := row]), cur[row.family := next])
  {}

  lemma SameRows(t: Tables, u: Tables, cur: Families)
    requires Reflects(t, cur) && u.refresh == t.refresh
    ensures Reflects(u, cur)
  {}

  /** What a code request that takes an unspent code leaves. */
  lemma FirstCodeLeaves(s: Settings, t: Tables, r: TokenRequest)
    requires CodeTaken(t, r.code).1.First?
    ensures var (after, answer) := CodeGranted(s, t, r);
            var row := CodeTaken(t, r.code).1.row;
            if answer.Issued? then
              && answer.refreshToken == r.mint
              && after.refresh == t.refresh[Sha(r.mint) := RefreshRow(Sha(r.code), row.client, row.subject, row.scope,
                                                                      Seconds(r.now) + s.refreshTtl, false)]
            else after.refresh == t.refresh
  {}

  lemma FirstCodeRefines(s: Settings, w: World, r: TokenRequest, cur: Families)
    requires Inv(w) && Reflects(w.tables, cur) && Sha(r.mint) !in w.minted
    requires CodeTaken(w.tables, r.code).1.First?
    ensures var (after, answer) := CodeGranted(s, w.tables, r);
            Reflects(after, Turned(cur, Sha(r.code), answer))
  {
    var t, c := w.tables, Sha(r.code);
    var (after, answer) := CodeGranted(s, t, r);
    FirstCodeLeaves(s, t, r);
    assert c !in cur;
    if answer.Issued? {
      Starts(t, after, Sha(r.mint), after.refresh[Sha(r.mint)], cur);
    } else {
      SameRows(t, after, cur);
      assert cur - {c} == cur;
    }
  }

  lemma CodeRefines(s: Settings, w: World, r: TokenRequest, cur: Families)
    requires Inv(w) && Reflects(w.tables, cur) && Sha(r.mint) !in w.minted
    ensures var (after, answer) := CodeGranted(s, w.tables, r);
            Reflects(after, if Sha(r.code) in w.tables.codes then Turned(cur, Sha(r.code), answer) else cur)
  {
    var (u, taken) := CodeTaken(w.tables, r.code);
    match taken
    case Missing =>
    case Again(_) => EndsFamily(w.tables, u, Sha(r.code), cur);
    case First(_) => FirstCodeRefines(s, w, r, cur);
  }

  lemma RefreshRefines(s: Settings, w: World, r: TokenRequest, cur: Families)
    requires Inv(w) && Reflects(w.tables, cur) && Sha(r.mint) !in w.minted
    ensures var (after, answer) := RefreshGranted(s, w.tables, r);
            var h := Sha(r.refreshToken);
            Reflects(after, if h in w.tables.refresh then Turned(cur, w.tables.refresh[h].family, answer) else cur)
  {
    var t, h := w.tables, Sha(r.refreshToken);
    var (after, answer) := RefreshGranted(s, t, r);
    var (u, taken) := RefreshTaken(t, r.refreshToken);
    match taken
    case Missing =>
    case Again(row) => EndsFamily(t, u, row.family, cur);
    case First(row) =>
      assert Live(t, h);
      if answer.Issued? {
        Rotates(t, h, Sha(r.mint), after.refresh[Sha(r.mint)], cur);
        SameRows(t.(refresh := RowRevoked(t.refresh, h)[Sha(r.mint) := after.refresh[Sha(r.mint)]]), after,
                 cur[row.family := Sha(r.mint)]);
      } else {
        EndsToken(t, u, h, cur);
      }
  }

  lemma RevokeRefines(w: World, token: string, cur: Families)
    requires Reflects(w.tables, cur) && token != ""
    ensures Reflects(w.tables.(refresh := RowRevoked(w.tables.refresh, Sha(token))),
                     WithoutToken(cur, Sha(token)))
  {}

  lemma DeleteRefines(w: World, client: string, cur: Families)
    requires Inv(w) && Reflects(w.tables, cur)
    ensures Reflects(w.tables.(refresh := ClientRevoked(w.tables.refresh, client)),
                     WithoutClient(cur, w.consents, client))
  {}

  lemma CollectRefines(w: World, now: real, cur: Families)
    requires Reflects(w.tables, cur)
    ensures Reflects(Collected(w.tables, now),
                     WithoutExpired(cur, w.tables.refresh, Seconds(now) - 86400))
  {}

  lemma TokenRefines(s: Settings, w: World, r: TokenRequest, cur: Families)
    requires Inv(w) && Unrepeated(w, Token(r)) && Reflects(w.tables, cur)
    ensures Reflects(Exec(s, w, Token(r)).tables, NextFamilies(w, Token(r), Answer(s, w, r), cur))
  {
    if ClientDenied(w.tables, r) {
    } else if r.grantType == AuthorizationCode {
      CodeRefines(s, w, r, cur);
    } else if r.grantType == RefreshToken {
      RefreshRefines(s, w, r, cur);
    }
  }

  /** The flag table refines the simple form, step by step. */
  lemma StepRefines(s: Settings, w: World, step: Step, cur: Families)
    requires Inv(w) && Unrepeated(w, step) && Reflects(w.tables, cur)
    ensures var answer := if step.Token? then Answer(s, w, step.request) else Refused(InvalidGrant);
            Reflects(Exec(s, w, step).tables, NextFamilies(w, step, answer, cur))
  {
    match step
    case Token(r) =>
      TokenRefines(s, w, r, cur);
    case Revoke(token) =>
      if token != "" {
        RevokeRefines(w, token, cur);
      }
    case DeleteClient(client) =>
      DeleteRefines(w, client, cur);
      SameRows(w.tables.(refresh := ClientRevoked(w.tables.refresh, client)), Exec(s, w, step).tables,
               WithoutClient(cur, w.consents, client));
    case Collect(now) =>
      CollectRefines(w, now, cur);
    case _ =>
      SameRows(w.tables, Exec(s, w, step).tables, cur);
  }

  // ---------- the end of a family is final ----------

  /** The code behind the family is spent and no token of the family is live. */
  ghost predicate Dead(w: World, family: Digest) {
    family in w.consents && Spent(w.tables, family) && NoLive(w.tables, family)
  }

  lemma TamingKeepsDead(w: World, u: Tables, family: Digest)
    requires Dead(w, family) && Tamed(w.tables, u)
    ensures Dead(w.(tables := u), family)
  {}

  /** The family a successful request inserts into is not dead. */
  lemma CodeGrantNeedsLife(s: Settings, w: World, r: TokenRequest)
    requires Inv(w) && CodeGranted(s, w.tables, r).1.Issued?
    ensures Sha(r.code) in w.tables.codes && !Spent(w.tables, Sha(r.code))
    ensures Sha(r.mint) in CodeGranted(s, w.tables, r).0.refresh
    ensures CodeGranted(s, w.tables, r).0.refresh[Sha(r.mint)].family == Sha(r.code)
  {}

  lemma RefreshNeedsLife(s: Settings, w: World, r: TokenRequest)
    requires Inv(w) && RefreshGranted(s, w.tables, r).1.Issued?
    ensures Live(w.tables, Sha(r.refreshToken))
    ensures Sha(r.mint) in RefreshGranted(s, w.tables, r).0.refresh
    ensures RefreshGranted(s, w.tables, r).0.refresh[Sha(r.mint)].family ==
            w.tables.refresh[Sha(r.refreshToken)].family
  {}

  lemma InsertedFamily(s: Settings, w: World, r: TokenRequest, u: Tables, row: RefreshRow, family: Digest)
    requires Inv(w) && Dead(w, family)
    requires Inserts(w, u, row, r, TokenAnswered(s, w.tables, r).0, TokenAnswered(s, w.tables, r).1)
    ensures row.family != family
  {
    assert row == TokenAnswered(s, w.tables, r).0.refresh[Sha(r.mint)];
    if r.grantType == AuthorizationCode {
      CodeGrantNeedsLife(s, w, r);
    } else {
      RefreshNeedsLife(s, w, r);
    }
  }

  lemma TokenKeepsDead(s: Settings, w: World, r: TokenRequest, family: Digest)
    requires Inv(w) && Unrepeated(w, Token(r)) && Dead(w, family)
    ensures Dead(Exec(s, w, Token(r)), family)
  {
    TokenTamesOrInserts(s, w, r);
    var (after, answer) := TokenAnswered(s, w.tables, r);
    if answer.Issued? {
      var u, row := AfterTaking(w.tables, r), after.refresh[Sha(r.mint)];
      TamingKeepsDead(w, u, family);
      InsertedFamily(s, w, r, u, row, family);
      assert forall h :: Live(after, h) && h != Sha(r.mint) ==> Live(u, h);
    } else {
      TamingKeepsDead(w, after, family);
    }
  }

  lemma StepKeepsDead(s: Settings, w: World, step: Step, family: Digest)
    requires Inv(w) && Unrepeated(w, step) && Dead(w, family)
    ensures Dead(Exec(s, w, step), family)
  {
    var u := Exec(s, w, step).tables;
    match step
    case Token(r) => TokenKeepsDead(s, w, r, family);
    case Approve(a) =>
      assert forall h :: Live(u, h) ==> Live(w.tables, h) && u.refresh[h] == w.tables.refresh[h];
    case _ => TamingKeepsDead(w, u, family);
  }

  /** A family whose code is spent and which has no live token never gets one again. */
  lemma {:induction false} DeadForever(s: Settings, w: World, steps: seq<Step>, family: Digest)
    requires Inv(w) && ValidRun(s, w, steps) && Dead(w, family)
    ensures Dead(Run(s, w, steps), family)
    decreases |steps|
  {
    if steps != [] {
      StepKeepsInv(s, w, steps[0]);
      StepKeepsDead(s, w, steps[0], family);
      DeadForever(s, Exec(s, w, steps[0]), steps[1..], family);
    }
  }

  /** Replaying a code that is still stored ends its family for good. */
  lemma ReplayIsFinal(s: Settings, w: World, r: TokenRequest, steps: seq<Step>)
    requires Inv(w) && r.grantType == AuthorizationCode && !ClientDenied(w.tables, r)
    requires Sha(r.code) in w.tables.codes && w.tables.codes[Sha(r.code)].used
    requires ValidRun(s, w, [Token(r)] + steps)
    ensures !Answer(s, w, r).Issued?
    ensures NoLive(Run(s, w, [Token(r)] + steps).tables, Sha(r.code))
  {
    var v := Exec(s, w, Token(r));
    assert ([Token(r)] + steps)[1..] == steps;
    StepKeepsInv(s, w, Token(r));
    assert CodeConsented(w, Sha(r.code), w.tables.codes[Sha(r.code)]);
    assert Dead(v, Sha(r.code));
    DeadForever(s, v, steps, Sha(r.code));
  }

  /** Presenting a revoked token that is still stored ends its family for good. */
  lemma ReuseIsFinal(s: Settings, w: World, r: TokenRequest, steps: seq<Step>)
    requires Inv(w) && r.grantType == RefreshToken && !ClientDenied(w.tables, r)
    requires Sha(r.refreshToken) in w.tables.refresh && w.tables.refresh[Sha(r.refreshToken)].revoked
    requires ValidRun(s, w, [Token(r)] + steps)
    ensures !Answer(s, w, r).Issued?
    ensures NoLive(Run(s, w, [Token(r)] + steps).tables, w.tables.refresh[Sha(r.refreshToken)].family)
  {
    var v := Exec(s, w, Token(r));
    var family := w.tables.refresh[Sha(r.refreshToken)].family;
    assert ([Token(r)] + steps)[1..] == steps;
    StepKeepsInv(s, w, Token(r));
    assert RowConsented(w, w.tables.refresh[Sha(r.refreshToken)]);
    assert Dead(v, family);
    DeadForever(s, v, steps, family);
  }

  // ---------- single use ----------

  lemma ConsentsPersistStep(s: Settings, w: World, step: Step, family: Digest)
    requires Unrepeated(w, step) && family in w.consents
    ensures family in Exec(s, w, step).consents && Exec(s, w, step).consents[family] == w.consents[family]
  {}

  lemma {:induction false} ConsentsPersist(s: Settings, w: World, steps: seq<Step>, family: Digest)
    requires ValidRun(s, w, steps) && family in w.consents
    ensures var v := Run(s, w, steps); family in v.consents && v.consents[family] == w.consents[family]
    decreases |steps|
  {
    if steps != [] {
      ConsentsPersistStep(s, w, steps[0], family);
      ConsentsPersist(s, Exec(s, w, steps[0]), steps[1..], family);
    }
  }

  lemma SpentStays(s: Settings, w: World, step: Step, code: Digest)
    requires Inv(w) && Unrepeated(w, step) && code in w.consents && Spent(w.tables, code)
    ensures Spent(Exec(s, w, step).tables, code)
  {
    match step
    case Token(r) =>
      TokenTamesOrInserts(s, w, r);
      var (after, answer) := TokenAnswered(s, w.tables, r);
      if answer.Issued? {
        assert after.codes == AfterTaking(w.tables, r).codes;
      }
    case _ =>
  }

  lemma {:induction false} SpentForever(s: Settings, w: World, steps: seq<Step>, code: Digest)
    requires Inv(w) && ValidRun(s, w, steps) && code in w.consents && Spent(w.tables, code)
    ensures Spent(Run(s, w, steps).tables, code)
    decreases |steps|
  {
    if steps != [] {
      StepKeepsInv(s, w, steps[0]);
      ConsentsPersistStep(s, w, steps[0], code);
      SpentStays(s, w, steps[0], code);
      SpentForever(s, Exec(s, w, steps[0]), steps[1..], code);
    }
  }

  /** A code is good for one attempt, however that attempt went. */
  lemma CodeIsSingleUse(s: Settings, w: World, first: TokenRequest, steps: seq<Step>, second: TokenRequest)
    requires Inv(w) && ValidRun(s, w, [Token(first)] + steps)
    requires first.grantType == second.grantType == AuthorizationCode && first.code == second.code
    requires !ClientDenied(w.tables, first) && Sha(first.code) in w.tables.codes
    ensures !Answer(s, Run(s, w, [Token(first)] + steps), second).Issued?
  {
    var v, c := Exec(s, w, Token(first)), Sha(first.code);
    assert ([Token(first)] + steps)[1..] == steps;
    StepKeepsInv(s, w, Token(first));
    assert CodeConsented(w, c, w.tables.codes[c]);
    assert Spent(v.tables, c);
    SpentForever(s, v, steps, c);
    RunKeepsInv(s, v, steps);
    var z := Run(s, v, steps);
    if CodeGranted(s, z.tables, second).1.Issued? {
      CodeGrantNeedsLife(s, z, second);
    }
  }

  // ---------- codes are bound to the request that made them ----------

  /** Where PKCE is required, no stored code does without it. */
  ghost predicate AllChallenged(s: Settings, t: Tables) {
    s.requirePkce ==> forall c :: c in t.codes ==> t.codes[c].challengeMethod == S256
  }

  lemma StepKeepsChallenged(s: Settings, w: World, step: Step)
    requires Inv(w) && AllChallenged(s, w.tables)
    ensures AllChallenged(s, Exec(s, w, step).tables)
  {
    match step
    case Token(r) =>
      TokenTamesOrInserts(s, w, r);
      var (after, answer) := TokenAnswered(s, w.tables, r);
      if answer.Issued? {
        assert after.codes == AfterTaking(w.tables, r).codes;
      }
    case _ =>
  }

  lemma {:induction false} RunKeepsChallenged(s: Settings, w: World, steps: seq<Step>)
    requires Inv(w) && ValidRun(s, w, steps) && AllChallenged(s, w.tables)
    ensures AllChallenged(s, Run(s, w, steps).tables)
    decreases |steps|
  {
    if steps != [] {
      StepKeepsInv(s, w, steps[0]);
      StepKeepsChallenged(s, w, steps[0]);
      RunKeepsChallenged(s, Exec(s, w, steps[0]), steps[1..]);
    }
  }

  // ---------- what tokens carry ----------

  /** A rotation keeps family, client and subject, and narrows the scope. */
  lemma RotationCarries(s: Settings, w: World, r: TokenRequest)
    requires r.grantType == RefreshToken
    ensures Answer(s, w, r).Issued? ==>
              var after := TokenAnswered(s, w.tables, r).0;
              && Sha(r.refreshToken) in w.tables.refresh && Sha(r.mint) in after.refresh
              && Rotated(w.tables.refresh[Sha(r.refreshToken)], after.refresh[Sha(r.mint)])
              && after.refresh[Sha(r.mint)].expiresAt == Seconds(r.now) + s.refreshTtl
  {
    if Answer(s, w, r).Issued? {
      RefreshedShrinks(r.scope, w.tables.refresh[Sha(r.refreshToken)].scope);
    }
  }

  /** next carries on what was held: same family, client and subject, no more and not nothing of its scope. */
  predicate Rotated(held: RefreshRow, next: RefreshRow) {
    && next.family == held.family && next.client == held.client && next.subject == held.subject
    && WordSet(next.scope) <= WordSet(held.scope)
    && (WordSet(held.scope) != {} ==> WordSet(next.scope) != {})
    && !next.revoked
  }

  /**
   * Every access token, along any chain of rotations, is for the client and the subject of the
   * code its family began with, and names only known scopes whose boxes were ticked for that code.
   */
  lemma AccessWithinConsent(s: Settings, steps: seq<Step>, r: TokenRequest)
    requires ValidRun(s, INITIAL, steps)
    requires Answer(s, Run(s, INITIAL, steps), r).Issued?
    ensures var w := Run(s, INITIAL, steps);
            var answer := Answer(s, w, r);
            FamilyOf(w.tables, r).Some? && FamilyOf(w.tables, r).value in w.consents
            && var consent := w.consents[FamilyOf(w.tables, r).value];
            && answer.client == consent.client && answer.subject == consent.subject
            && (forall x :: x in Words(answer.scope) ==> x in consent.boxes && x in SCOPES)
  {
    RunKeepsInv(s, INITIAL, steps);
    var w := Run(s, INITIAL, steps);
    TokenTamesOrInserts(s, w, r);
    var (after, answer) := TokenAnswered(s, w.tables, r);
    var row := after.refresh[Sha(r.mint)];
    if r.grantType == AuthorizationCode {
      CodeGrantNeedsLife(s, w, r);
    } else {
      RefreshNeedsLife(s, w, r);
    }
    ClaimedWords(row.scope);
    assert forall x :: x in Words(answer.scope) ==> x in WordSet(answer.scope);
  }
}
