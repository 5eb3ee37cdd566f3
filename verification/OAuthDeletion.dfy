/** What deleting a client ends, and what it does not. */
module OAuthDeletion {
  import opened OAuthTables
  import opened OAuthServer
  import opened OAuthRuns
  import opened OAuthCommits

  // ---------- codes that are left ----------

  /** After the deletion a request for a code of the client is decided by the code alone. */
  lemma CodeSurvivesDeletion(s: Settings, w: World, client: string, r: TokenRequest)
    requires r.grantType == AuthorizationCode && r.clientId == client
    ensures Answer(s, Exec(s, w, DeleteClient(client)), r).Issued? <==>
            && Sha(r.code) in w.tables.codes && !w.tables.codes[Sha(r.code)].used
            && CodeFits(s, w.tables.codes[Sha(r.code)], r) && ResourceOk(s, r.resource)
  {}

  /**
   * A confidential client's code cannot be exchanged without the secret before the deletion, and can
   * be after it: with the record the demand for the secret is gone.
   */
  lemma DeletionDropsTheSecret(s: Settings, w: World, client: string, r: TokenRequest)
    requires r.grantType == AuthorizationCode && r.clientId == client && r.secret == ""
    requires client != "" && Confidential(w.tables, client)
    requires Sha(r.code) in w.tables.codes && !w.tables.codes[Sha(r.code)].used
    requires CodeFits(s, w.tables.codes[Sha(r.code)], r) && ResourceOk(s, r.resource)
    ensures Answer(s, w, r) == Refused(InvalidClient)
    ensures Answer(s, Exec(s, w, DeleteClient(client)), r).Issued?
  {
    CodeSurvivesDeletion(s, w, client, r);
  }

  // ---------- a deletion inside a grant or an approval ----------

  /** The deletion of a client: its record, then its tokens. */
  function Deletion(client: string): seq<Act> { [Erase(client), Cut(client)] }

  /** The four acts of a handler that decides first and writes after the deletion. */
  lemma AroundDeletion(s: Settings, p: Server, first: Act, client: string)
    requires Allowed(p, first) && !Perform(s, p, first).pending.Idle?
    requires Allowed(Perform(s, p, first), Put)
    ensures var q := Perform(s, p, first);
            var erased := Perform(s, Perform(s, q, Erase(client)), Cut(client));
            && erased.pending == q.pending
            && ValidActs(s, p, [first, Erase(client), Cut(client), Put])
            && Played(s, p, [first, Erase(client), Cut(client), Put]) == Perform(s, erased, Put)
  {
    var q := Perform(s, p, first);
    var a := Perform(s, q, Erase(client));
    var b := Perform(s, a, Cut(client));
    OneMoreAct(s, b, Put, []);
    OneMoreAct(s, a, Cut(client), [Put]);
    OneMoreAct(s, q, Erase(client), [Cut(client), Put]);
    OneMoreAct(s, p, first, [Erase(client), Cut(client), Put]);
    assert [first] + ([Erase(client)] + ([Cut(client)] + ([Put] + []))) == [first, Erase(client), Cut(client), Put];
  }

  /**
   * Any grant, by code or by refresh, that the deletion tears leaves a live token of the deleted client,
   * whether or not a code of it is left.
   */
  lemma TornGrantOutlivesDeletion(s: Settings, w: World, r: TokenRequest)
    requires Inv(w) && Unrepeated(w, Token(r)) && Answer(s, w, r).Issued?
    ensures var client := Answer(s, w, r).client;
            var acts := [Take(r)] + Deletion(client) + [Put];
            && ValidActs(s, Server(w, Idle), acts)
            && HasLive(Played(s, Server(w, Idle), acts).w.tables, client)
  {
    var client, p := Answer(s, w, r).client, Server(w, Idle);
    TokenTamesOrInserts(s, w, r);
    AroundDeletion(s, p, Take(r), client);
    var acts := [Take(r), Erase(client), Cut(client), Put];
    assert [Take(r)] + Deletion(client) + [Put] == acts;
    var v, h := Played(s, p, acts).w, Sha(r.mint);
    assert h in v.tables.refresh && Live(v.tables, h) && v.tables.refresh[h].client == client;
  }

  /** An approval that the deletion tears leaves a new code of the deleted client. */
  lemma TornApprovalOutlivesDeletion(s: Settings, w: World, a: Approval)
    requires Inv(w) && Unrepeated(w, Approve(a)) && Approvable(s, w.tables, a)
    ensures var acts := [Ask(a)] + Deletion(a.clientId) + [Put];
            && ValidActs(s, Server(w, Idle), acts)
            && var t := Played(s, Server(w, Idle), acts).w.tables;
            && a.clientId !in t.clients && Sha(a.mint) in t.codes
            && t.codes[Sha(a.mint)].client == a.clientId && !t.codes[Sha(a.mint)].used
  {
    AroundDeletion(s, Server(w, Idle), Ask(a), a.clientId);
    assert [Ask(a)] + Deletion(a.clientId) + [Put] == [Ask(a), Erase(a.clientId), Cut(a.clientId), Put];
  }

  // ---------- when deletion cuts a client off ----------

  /** Some verifier would still exchange the code at this time. */
  ghost predicate Redeemable(s: Settings, row: CodeRow, now: real) {
    !row.used && row.expiresAt as real >= now && exists verifier :: PkceOk(s, row, verifier)
  }

  ghost predicate HasRedeemable(s: Settings, t: Tables, client: string, now: real) {
    exists c :: c in t.codes && t.codes[c].client == client && Redeemable(s, t.codes[c], now)
  }

  predicate HasLive(t: Tables, client: string) {
    exists h :: h in t.refresh && Live(t, h) && t.refresh[h].client == client
  }

  /** Neither a live token of the client nor a code that could become one. */
  ghost predicate Clear(s: Settings, t: Tables, client: string, now: real) {
    !HasLive(t, client) && !HasRedeemable(s, t, client, now)
  }

  lemma TamingStaysClear(s: Settings, t: Tables, u: Tables, client: string, now: real)
    requires Clear(s, t, client, now) && Tamed(t, u)
    ensures Clear(s, u, client, now)
  {
    assert forall h :: Live(u, h) ==> Live(t, h) && u.refresh[h].client == t.refresh[h].client;
    forall c | c in u.codes && u.codes[c].client == client ensures !Redeemable(s, u.codes[c], now) {
      assert !Redeemable(s, t.codes[c], now);
    }
  }

  lemma CodeAnswersOthers(s: Settings, t: Tables, r: TokenRequest, client: string, now: real)
    requires Clear(s, t, client, now) && r.now >= now && CodeGranted(s, t, r).1.Issued?
    ensures CodeGranted(s, t, r).1.client != client
  {
    var row := t.codes[Sha(r.code)];
    assert CodeFits(s, row, r) && !row.used;
    assert Redeemable(s, row, now);
  }

  lemma RefreshAnswersOthers(s: Settings, t: Tables, r: TokenRequest, client: string, now: real)
    requires Clear(s, t, client, now) && RefreshGranted(s, t, r).1.Issued?
    ensures RefreshGranted(s, t, r).1.client != client
  {
    assert Live(t, Sha(r.refreshToken));
  }

  lemma InsertStaysClear(s: Settings, u: Tables, h: Digest, row: RefreshRow, client: string, now: real)
    requires Clear(s, u, client, now) && row.client != client
    ensures Clear(s, u.(refresh := u.refresh[h := row]), client, now)
  {
    var v := u.(refresh := u.refresh[h := row]);
    assert forall g :: Live(v, g) && g != h ==> Live(u, g) && v.refresh[g] == u.refresh[g];
  }

  /** A handler is about to write a token of the client, or a code that could become one. */
  ghost predicate InFlight(s: Settings, p: Server, client: string, now: real) {
    match p.pending
    case Idle => false
    case Approving(a) => a.clientId == client && a.subject.Some? && Redeemable(s, CodeFor(s, a), now)
    case Granting(row, _) => row.client == client
  }

  /** The code row an approval is about to store. */
  function CodeFor(s: Settings, a: Approval): CodeRow
    requires a.subject.Some?
  {
    CodePut(s, INITIAL, a).tables.codes[Sha(a.mint)]
  }

  /** The acts come no earlier than now and approve nothing for the client. */
  predicate Without(acts: seq<Act>, client: string, now: real) {
    forall i :: 0 <= i < |acts| ==> Apart(acts[i], client, now)
  }

  predicate Apart(act: Act, client: string, now: real) {
    && (act.Take? ==> act.request.now >= now)
    && (act.Ask? ==> act.approval.clientId != client)
  }

  /** Without a new approval no run from here ever has a live token of the client. */
  ghost predicate CutOff(s: Settings, p: Server, client: string, now: real) {
    forall acts :: ValidActs(s, p, acts) && Without(acts, client, now) ==> !HasLive(Played(s, p, acts).w.tables, client)
  }

  ghost predicate AllClear(s: Settings, p: Server, client: string, now: real) {
    Clear(s, p.w.tables, client, now) && !InFlight(s, p, client, now)
  }

  lemma SingleStepStaysClear(s: Settings, w: World, step: Step, client: string, now: real)
    requires Clear(s, w.tables, client, now) && !step.Approve? && !step.Token?
    ensures Clear(s, Exec(s, w, step).tables, client, now)
  {
    TamingStaysClear(s, w.tables, Exec(s, w, step).tables, client, now);
  }

  lemma TakeStaysClear(s: Settings, w: World, r: TokenRequest, client: string, now: real)
    requires Inv(w) && Clear(s, w.tables, client, now) && r.now >= now
    ensures AllClear(s, HalfGranted(s, w, r), client, now)
  {
    var (after, answer) := TokenAnswered(s, w.tables, r);
    TokenTamesOrInserts(s, w, r);
    if answer.Issued? {
      TamingStaysClear(s, w.tables, AfterTaking(w.tables, r), client, now);
      if r.grantType == AuthorizationCode {
        CodeAnswersOthers(s, w.tables, r, client, now);
      } else {
        RefreshAnswersOthers(s, w.tables, r, client, now);
      }
    } else {
      TamingStaysClear(s, w.tables, after, client, now);
    }
  }

  lemma PutStaysClear(s: Settings, p: Server, client: string, now: real)
    requires AllClear(s, p, client, now) && Allowed(p, Put)
    ensures AllClear(s, Perform(s, p, Put), client, now)
  {
    var t := p.w.tables;
    match p.pending
    case Approving(a) =>
      var u := CodePut(s, p.w, a).tables;
      assert forall h :: Live(u, h) ==> Live(t, h);
      forall c | c in u.codes && u.codes[c].client == client ensures !Redeemable(s, u.codes[c], now) {
        assert c == Sha(a.mint) || u.codes[c] == t.codes[c];
      }
    case Granting(row, mint) => InsertStaysClear(s, t, Sha(mint), row, client, now);
  }

  lemma ActStaysClear(s: Settings, p: Server, act: Act, client: string, now: real)
    requires Sound(p) && AllClear(s, p, client, now) && Allowed(p, act) && Apart(act, client, now)
    ensures AllClear(s, Perform(s, p, act), client, now)
  {
    match act
    case Do(step) => SingleStepStaysClear(s, p.w, step, client, now);
    case Ask(_) =>
    case Take(r) => TakeStaysClear(s, p.w, r, client, now);
    case Put => PutStaysClear(s, p, client, now);
    case Crash =>
    case Erase(_) => TamingStaysClear(s, p.w.tables, Perform(s, p, act).w.tables, client, now);
    case Cut(_) => TamingStaysClear(s, p.w.tables, Perform(s, p, act).w.tables, client, now);
  }

  lemma {:induction false} ActsStayClear(s: Settings, p: Server, acts: seq<Act>, client: string, now: real)
    requires Sound(p) && AllClear(s, p, client, now) && ValidActs(s, p, acts) && Without(acts, client, now)
    ensures AllClear(s, Played(s, p, acts), client, now)
    decreases |acts|
  {
    if acts != [] {
      assert Apart(acts[0], client, now);
      ActKeepsSound(s, p, acts[0]);
      ActStaysClear(s, p, acts[0], client, now);
      ActsStayClear(s, Perform(s, p, acts[0]), acts[1..], client, now);
    }
  }

  lemma ClearIsCutOff(s: Settings, p: Server, client: string, now: real)
    requires Sound(p) && AllClear(s, p, client, now)
    ensures CutOff(s, p, client, now)
  {
    forall acts | ValidActs(s, p, acts) && Without(acts, client, now)
      ensures !HasLive(Played(s, p, acts).w.tables, client)
    {
      ActsStayClear(s, p, acts, client, now);
    }
  }

  /** There is always a text that was never minted. */
  lemma {:induction false} Unminted(minted: set<Digest>) returns (text: string)
    ensures text != "" && forall d :: d in minted ==> |d.text| < |text|
  {
    text := "x";
    if minted != {} {
      var d :| d in minted;
      var rest := Unminted(minted - {d});
      text := rest + d.text;
    }
  }

  /** One act more in front keeps a client from being cut off. */
  lemma NotCutOffBefore(s: Settings, p: Server, act: Act, client: string, now: real)
    requires Allowed(p, act) && Apart(act, client, now) && !CutOff(s, Perform(s, p, act), client, now)
    ensures !CutOff(s, p, client, now)
  {
    var q := Perform(s, p, act);
    var acts :| ValidActs(s, q, acts) && Without(acts, client, now) && HasLive(Played(s, q, acts).w.tables, client);
    OneMoreAct(s, p, act, acts);
    assert Without([act] + acts, client, now);
  }

  lemma LiveIsNotCutOff(s: Settings, p: Server, client: string, now: real)
    requires HasLive(p.w.tables, client)
    ensures !CutOff(s, p, client, now)
  {
    assert Played(s, p, []) == p && ValidActs(s, p, []) && Without([], client, now);
  }

  /** The request that exchanges a code, when no secret is asked for any more. */
  lemma LeftCodeIsNotCutOff(s: Settings, p: Server, client: string, c: Digest, now: real)
    requires Sound(p) && p.pending.Idle? && !Confidential(p.w.tables, client)
    requires c in p.w.tables.codes && p.w.tables.codes[c].client == client && Redeemable(s, p.w.tables.codes[c], now)
    ensures !CutOff(s, p, client, now)
  {
    var verifier :| PkceOk(s, p.w.tables.codes[c], verifier);
    var mint := Unminted(p.w.minted);
    var r := TokenRequest(AuthorizationCode, client, "", c.text, verifier, "", "", "", "", now, mint);
    assert Sha(c.text) == c;
    assert CodeFits(s, p.w.tables.codes[c], r) && Answer(s, p.w, r).Issued? && Answer(s, p.w, r).client == client;
    TokenTamesOrInserts(s, p.w, r);
    var q := Perform(s, p, Take(r));
    var v := Perform(s, q, Put);
    assert Live(v.w.tables, Sha(mint)) && v.w.tables.refresh[Sha(mint)].client == client;
    LiveIsNotCutOff(s, v, client, now);
    NotCutOffBefore(s, q, Put, client, now);
    NotCutOffBefore(s, p, Take(r), client, now);
  }

  lemma InFlightIsNotCutOff(s: Settings, p: Server, client: string, now: real)
    requires Sound(p) && !Confidential(p.w.tables, client) && InFlight(s, p, client, now)
    ensures !CutOff(s, p, client, now)
  {
    var q := Perform(s, p, Put);
    PutKeepsSound(s, p);
    match p.pending {
      case Approving(a) => LeftCodeIsNotCutOff(s, q, client, Sha(a.mint), now);
      case Granting(row, mint) =>
        assert Live(q.w.tables, Sha(mint)) && q.w.tables.refresh[Sha(mint)].client == client;
        LiveIsNotCutOff(s, q, client, now);
    }
    NotCutOffBefore(s, p, Put, client, now);
  }

  lemma RedeemableIsNotCutOff(s: Settings, p: Server, client: string, c: Digest, now: real)
    requires Sound(p) && !Confidential(p.w.tables, client)
    requires c in p.w.tables.codes && p.w.tables.codes[c].client == client && Redeemable(s, p.w.tables.codes[c], now)
    ensures !CutOff(s, p, client, now)
  {
    if p.pending.Idle? {
      LeftCodeIsNotCutOff(s, p, client, c, now);
    } else {
      var q := Perform(s, p, Put);
      PutKeepsSound(s, p);
      assert CodeConsented(p.w, c, p.w.tables.codes[c]);
      LeftCodeIsNotCutOff(s, q, client, c, now);
      NotCutOffBefore(s, p, Put, client, now);
    }
  }

  /** The second commit of the deletion: no token of the client is live, all else is as before. */
  lemma CutClears(s: Settings, p: Server, client: string, now: real)
    ensures var d := Perform(s, p, Cut(client));
            && !HasLive(d.w.tables, client)
            && (HasRedeemable(s, d.w.tables, client, now) <==> HasRedeemable(s, p.w.tables, client, now))
            && (InFlight(s, d, client, now) <==> InFlight(s, p, client, now))
            && Confidential(d.w.tables, client) == Confidential(p.w.tables, client)
  {
    var d := Perform(s, p, Cut(client));
    assert forall h :: Live(d.w.tables, h) ==> d.w.tables.refresh[h].client != client;
  }

  /** The second commit, at a time when the record is gone. */
  lemma CutIsFinalIff(s: Settings, p: Server, client: string, now: real)
    requires Sound(p) && !Confidential(p.w.tables, client)
    ensures CutOff(s, Perform(s, p, Cut(client)), client, now) <==>
            !HasRedeemable(s, p.w.tables, client, now) && !InFlight(s, p, client, now)
  {
    var d := Perform(s, p, Cut(client));
    ActKeepsSound(s, p, Cut(client));
    CutClears(s, p, client, now);
    if InFlight(s, d, client, now) {
      InFlightIsNotCutOff(s, d, client, now);
    } else if c :| && c in d.w.tables.codes && d.w.tables.codes[c].client == client
                   && Redeemable(s, d.w.tables.codes[c], now) {
      RedeemableIsNotCutOff(s, d, client, c, now);
    } else {
      ClearIsCutOff(s, d, client, now);
    }
  }

  /** Between the two commits the record stays away, unless the same id is registered anew. */
  predicate Registers(act: Act, client: string) {
    act.Do? && act.step.Register? && "dcr_" + act.step.random == client
  }

  lemma {:induction false} ErasedStaysErased(s: Settings, p: Server, acts: seq<Act>, client: string)
    requires ValidActs(s, p, acts) && !Confidential(p.w.tables, client)
    requires forall i :: 0 <= i < |acts| ==> !Registers(acts[i], client)
    ensures !Confidential(Played(s, p, acts).w.tables, client)
    decreases |acts|
  {
    if acts != [] {
      ActLeavesErased(s, p, acts[0], client);
      ErasedStaysErased(s, Perform(s, p, acts[0]), acts[1..], client);
    }
  }

  lemma ActLeavesErased(s: Settings, p: Server, act: Act, client: string)
    requires Allowed(p, act) && !Confidential(p.w.tables, client) && !Registers(act, client)
    ensures !Confidential(Perform(s, p, act).w.tables, client)
  {}

  /**
   * Deleting a client ends its access, up to a new approval, exactly when at its second commit no code of
   * the client is left that is unspent, unexpired and has a verifier, and no handler is about to write such
   * a code or a token of the client. Anything but a new registration may come between the two commits.
   */
  lemma DeletionIsFinalIff(s: Settings, p: Server, between: seq<Act>, client: string, now: real)
    requires Sound(p) && ValidActs(s, Perform(s, p, Erase(client)), between)
    requires forall i :: 0 <= i < |between| ==> !Registers(between[i], client)
    ensures var q := Played(s, Perform(s, p, Erase(client)), between);
            CutOff(s, Perform(s, q, Cut(client)), client, now) <==>
            !HasRedeemable(s, q.w.tables, client, now) && !InFlight(s, q, client, now)
  {
    var erased := Perform(s, p, Erase(client));
    ActKeepsSound(s, p, Erase(client));
    ActsKeepSound(s, erased, between);
    ErasedStaysErased(s, erased, between, client);
    CutIsFinalIff(s, Played(s, erased, between), client, now);
  }

  /** Between requests, and where someone holds the verifiers: exactly when its stored codes are all spent or expired. */
  lemma DeletionIsFinalIffSpent(s: Settings, w: World, client: string, now: real)
    requires Inv(w)
    requires forall c :: c in w.tables.codes && w.tables.codes[c].client == client ==>
               exists verifier :: PkceOk(s, w.tables.codes[c], verifier)
    ensures CutOff(s, Perform(s, Perform(s, Server(w, Idle), Erase(client)), Cut(client)), client, now) <==>
            forall c :: c in w.tables.codes && w.tables.codes[c].client == client ==>
              w.tables.codes[c].used || (w.tables.codes[c].expiresAt as real) < now
  {
    var erased := Perform(s, Server(w, Idle), Erase(client));
    assert Played(s, erased, []) == erased;
    DeletionIsFinalIff(s, Server(w, Idle), [], client, now);
    forall c | c in w.tables.codes && w.tables.codes[c].client == client
      ensures Redeemable(s, w.tables.codes[c], now) <==>
              !w.tables.codes[c].used && w.tables.codes[c].expiresAt as real >= now
    {}
  }

  // ---------- where later tokens come from ----------

  /**
   * After the deletion any live token of the client descends from a code that had not been exchanged at
   * its second commit, made later or still unspent, or from a grant that was in flight then.
   */
  lemma DeletionCutsOff(s: Settings, p: Server, client: string, acts: seq<Act>, h: Digest)
    requires Sound(p) && ValidActs(s, p, [Cut(client)] + acts)
    requires var v := Played(s, p, [Cut(client)] + acts).w.tables; Live(v, h) && v.refresh[h].client == client
    ensures var v := Played(s, p, [Cut(client)] + acts).w.tables;
            var family := v.refresh[h].family;
            && (family !in p.w.consents
                || (family in p.w.tables.codes && !p.w.tables.codes[family].used)
                || (p.pending.Granting? && p.pending.row.family == family))
            && Spent(v, family)
  {
    var d := Perform(s, p, Cut(client));
    assert ([Cut(client)] + acts)[1..] == acts;
    ActKeepsSound(s, p, Cut(client));
    ActsKeepSound(s, d, acts);
    var v := Played(s, d, acts).w;
    var family := v.tables.refresh[h].family;
    assert RowConsented(v, v.tables.refresh[h]);
    if family in p.w.consents && Spent(p.w.tables, family)
       && !(p.pending.Granting? && p.pending.row.family == family) {
      ActsKeepConsent(s, d, acts, family);
      forall g | Live(d.w.tables, g) ensures d.w.tables.refresh[g].family != family {
        assert RowConsented(d.w, d.w.tables.refresh[g]);
      }
      assert Over(d, family);
      OverForever(s, d, acts, family);
    }
  }

  lemma ActKeepsConsent(s: Settings, p: Server, act: Act, family: Digest)
    requires Sound(p) && Allowed(p, act) && family in p.w.consents
    ensures var v := Perform(s, p, act).w; family in v.consents && v.consents[family] == p.w.consents[family]
  {}

  lemma {:induction false} ActsKeepConsent(s: Settings, p: Server, acts: seq<Act>, family: Digest)
    requires Sound(p) && ValidActs(s, p, acts) && family in p.w.consents
    ensures var v := Played(s, p, acts).w; family in v.consents && v.consents[family] == p.w.consents[family]
    decreases |acts|
  {
    if acts != [] {
      ActKeepsSound(s, p, acts[0]);
      ActKeepsConsent(s, p, acts[0], family);
      ActsKeepConsent(s, Perform(s, p, acts[0]), acts[1..], family);
    }
  }
}
