/**
 * The server beside a second process. Each statement commits by itself, so the command that deletes a
 * client can run between the two commits of a grant, or between the checks of an approval and its code.
 */
module OAuthCommits {
  import opened OAuthTables
  import opened OAuthServer
  import opened OAuthRuns
  import opened OAuthGuarantees

  /** What a handler of the server has decided to write and has not written yet. */
  datatype Pending = Idle | Approving(approval: Approval) | Granting(row: RefreshRow, mint: string)

  datatype Server = Server(w: World, pending: Pending)

  const START := Server(INITIAL, Idle)

  /**
   * Do is a step that commits once, Ask and Take go up to the last commit of an approval or a grant, Put is
   * that commit, and Crash forgets it. Erase and Cut are the two commits of the other process.
   */
  datatype Act =
    | Do(step: Step)
    | Ask(approval: Approval)
    | Take(request: TokenRequest)
    | Put
    | Crash
    | Erase(client: string)
    | Cut(client: string)

  /** Two handlers never overlap; the other process comes in at any time. */
  predicate Allowed(p: Server, act: Act) {
    match act
    case Do(step) => p.pending.Idle? && !step.Approve? && !step.Token? && !step.DeleteClient?
    case Ask(a) => p.pending.Idle? && Unrepeated(p.w, Approve(a))
    case Take(r) => p.pending.Idle? && Unrepeated(p.w, Token(r))
    case Put => !p.pending.Idle? && (p.pending.Approving? ==> p.pending.approval.subject.Some?)
    case _ => true
  }

  /** A token request up to the point where its new refresh token would be stored. */
  function HalfGranted(s: Settings, w: World, r: TokenRequest): Server {
    var (after, answer) := TokenAnswered(s, w.tables, r);
    if answer.Issued?
    then Server(w.(tables := AfterTaking(w.tables, r)), Granting(after.refresh[Sha(r.mint)], r.mint))
    else Server(w.(tables := after), Idle)
  }

  function TokenPut(w: World, row: RefreshRow, mint: string): World {
    w.(tables := w.tables.(refresh := w.tables.refresh[Sha(mint) := row]), minted := w.minted + {Sha(mint)})
  }

  function Perform(s: Settings, p: Server, act: Act): Server
    requires Allowed(p, act)
  {
    var w, t := p.w, p.w.tables;
    match act
    case Do(step) => p.(w := Exec(s, w, step))
    case Ask(a) => if Approvable(s, t, a) then p.(pending := Approving(a)) else p
    case Take(r) => HalfGranted(s, w, r)
    case Put =>
      if p.pending.Approving? then Server(CodePut(s, w, p.pending.approval), Idle)
      else Server(TokenPut(w, p.pending.row, p.pending.mint), Idle)
    case Crash => p.(pending := Idle)
    case Erase(client) => p.(w := w.(tables := t.(clients := t.clients - {client})))
    case Cut(client) => p.(w := w.(tables := t.(refresh := ClientRevoked(t.refresh, client))))
  }

  predicate ValidActs(s: Settings, p: Server, acts: seq<Act>)
    decreases |acts|
  {
    acts == [] || (Allowed(p, acts[0]) && ValidActs(s, Perform(s, p, acts[0]), acts[1..]))
  }

  function Played(s: Settings, p: Server, acts: seq<Act>): Server
    requires ValidActs(s, p, acts)
    decreases |acts|
  {
    if acts == [] then p else Played(s, Perform(s, p, acts[0]), acts[1..])
  }

  // ---------- undisturbed, the two halves are one step ----------

  lemma CodeGrantPuts(s: Settings, t: Tables, r: TokenRequest)
    requires CodeGranted(s, t, r).1.Issued?
    ensures var after, u := CodeGranted(s, t, r).0, CodeTaken(t, r.code).0;
            Sha(r.mint) in after.refresh
            && after == u.(refresh := u.refresh[Sha(r.mint) := after.refresh[Sha(r.mint)]])
  {}

  lemma RefreshGrantPuts(s: Settings, t: Tables, r: TokenRequest)
    requires RefreshGranted(s, t, r).1.Issued?
    ensures var after, u := RefreshGranted(s, t, r).0, RefreshTaken(t, r.refreshToken).0;
            Sha(r.mint) in after.refresh
            && after == u.(refresh := u.refresh[Sha(r.mint) := after.refresh[Sha(r.mint)]])
  {}

  lemma GrantPuts(s: Settings, t: Tables, r: TokenRequest)
    requires TokenAnswered(s, t, r).1.Issued?
    ensures var after, u := TokenAnswered(s, t, r).0, AfterTaking(t, r);
            Sha(r.mint) in after.refresh
            && after == u.(refresh := u.refresh[Sha(r.mint) := after.refresh[Sha(r.mint)]])
  {
    if r.grantType == AuthorizationCode {
      CodeGrantPuts(s, t, r);
    } else {
      RefreshGrantPuts(s, t, r);
    }
  }

  /** A grant whose halves follow each other does what it does as one step. */
  lemma UndisturbedGrantIsOneStep(s: Settings, w: World, r: TokenRequest)
    ensures var p := HalfGranted(s, w, r);
            if Answer(s, w, r).Issued? then
              p.pending.Granting? && Perform(s, p, Put) == Server(Exec(s, w, Token(r)), Idle)
            else p == Server(Exec(s, w, Token(r)), Idle)
  {
    if Answer(s, w, r).Issued? {
      GrantPuts(s, w.tables, r);
    }
  }

  lemma UndisturbedApprovalIsOneStep(s: Settings, w: World, a: Approval)
    requires Unrepeated(w, Approve(a))
    ensures var p := Perform(s, Server(w, Idle), Ask(a));
            if Approvable(s, w.tables, a) then Perform(s, p, Put) == Server(Exec(s, w, Approve(a)), Idle)
            else p == Server(Exec(s, w, Approve(a)), Idle)
  {}

  // ---------- what every run with a second process keeps ----------

  ghost predicate PendingOk(p: Server) {
    match p.pending
    case Idle => true
    case Approving(a) => a.subject.Some? && Sha(a.mint) !in p.w.consents
    case Granting(row, mint) =>
      && Sha(mint) !in p.w.minted && !row.revoked && RowConsented(p.w, row)
      && NoLive(p.w.tables, row.family) && Spent(p.w.tables, row.family)
  }

  ghost predicate Sound(p: Server) {
    Inv(p.w) && PendingOk(p)
  }

  lemma TamingKeepsSound(p: Server, u: Tables)
    requires Sound(p) && Tamed(p.w.tables, u) && "" !in u.clients
    ensures Sound(p.(w := p.w.(tables := u)))
  {
    TamingKeepsInv(p.w, u);
    assert forall h :: Live(u, h) ==> Live(p.w.tables, h) && u.refresh[h].family == p.w.tables.refresh[h].family;
  }

  lemma TakeKeepsSound(s: Settings, w: World, r: TokenRequest)
    requires Inv(w) && Unrepeated(w, Token(r))
    ensures Sound(HalfGranted(s, w, r))
  {
    var (after, answer) := TokenAnswered(s, w.tables, r);
    TokenTamesOrInserts(s, w, r);
    if answer.Issued? {
      TamingKeepsInv(w, AfterTaking(w.tables, r));
    } else {
      TamingKeepsInv(w, after);
    }
  }

  lemma PutKeepsSound(s: Settings, p: Server)
    requires Sound(p) && Allowed(p, Put)
    ensures Sound(Perform(s, p, Put))
  {
    match p.pending
    case Approving(a) => CodePutKeepsInv(s, p.w, a);
    case Granting(row, mint) => InsertKeepsInv(p.w, Sha(mint), row);
  }

  lemma ActKeepsSound(s: Settings, p: Server, act: Act)
    requires Sound(p) && Allowed(p, act)
    ensures Sound(Perform(s, p, act))
  {
    match act
    case Do(step) => StepKeepsInv(s, p.w, step);
    case Ask(a) =>
    case Take(r) => TakeKeepsSound(s, p.w, r);
    case Put => PutKeepsSound(s, p);
    case Crash =>
    case Erase(_) => TamingKeepsSound(p, Perform(s, p, act).w.tables);
    case Cut(_) => TamingKeepsSound(p, Perform(s, p, act).w.tables);
  }

  lemma {:induction false} ActsKeepSound(s: Settings, p: Server, acts: seq<Act>)
    requires Sound(p) && ValidActs(s, p, acts)
    ensures Sound(Played(s, p, acts))
    decreases |acts|
  {
    if acts != [] {
      ActKeepsSound(s, p, acts[0]);
      ActsKeepSound(s, Perform(s, p, acts[0]), acts[1..]);
    }
  }

  /** Wherever the other process comes in, each family has at most one live token. */
  lemma AtMostOneLiveBesideDeletion(s: Settings, acts: seq<Act>)
    requires ValidActs(s, START, acts)
    ensures OneLive(Played(s, START, acts).w.tables)
  {
    ActsKeepSound(s, START, acts);
  }

  // ---------- the end of a family ----------

  /** The family is dead and no grant is about to revive it. */
  ghost predicate Over(p: Server, family: Digest) {
    Dead(p.w, family) && (p.pending.Granting? ==> p.pending.row.family != family)
  }

  lemma TamingKeepsOver(p: Server, u: Tables, family: Digest)
    requires Over(p, family) && Tamed(p.w.tables, u)
    ensures Over(p.(w := p.w.(tables := u)), family)
  {
    TamingKeepsDead(p.w, u, family);
  }

  lemma TakeKeepsOver(s: Settings, w: World, r: TokenRequest, family: Digest)
    requires Inv(w) && Unrepeated(w, Token(r)) && Dead(w, family)
    ensures Over(HalfGranted(s, w, r), family)
  {
    var (after, answer) := TokenAnswered(s, w.tables, r);
    TokenTamesOrInserts(s, w, r);
    if answer.Issued? {
      var u := AfterTaking(w.tables, r);
      TamingKeepsDead(w, u, family);
      InsertedFamily(s, w, r, u, after.refresh[Sha(r.mint)], family);
    } else {
      TamingKeepsDead(w, after, family);
    }
  }

  lemma PutKeepsOver(s: Settings, p: Server, family: Digest)
    requires Sound(p) && Allowed(p, Put) && Over(p, family)
    ensures Over(Perform(s, p, Put), family)
  {
    var t, u := p.w.tables, Perform(s, p, Put).w.tables;
    match p.pending
    case Approving(_) =>
      assert forall h :: Live(u, h) ==> Live(t, h) && u.refresh[h] == t.refresh[h];
    case Granting(row, mint) =>
      assert forall h :: Live(u, h) && h != Sha(mint) ==> Live(t, h) && u.refresh[h] == t.refresh[h];
  }

  lemma ActKeepsOver(s: Settings, p: Server, act: Act, family: Digest)
    requires Sound(p) && Allowed(p, act) && Over(p, family)
    ensures Over(Perform(s, p, act), family)
  {
    match act
    case Do(step) => StepKeepsDead(s, p.w, step, family);
    case Ask(_) =>
    case Take(r) => TakeKeepsOver(s, p.w, r, family);
    case Put => PutKeepsOver(s, p, family);
    case Crash =>
    case Erase(_) => TamingKeepsOver(p, Perform(s, p, act).w.tables, family);
    case Cut(_) => TamingKeepsOver(p, Perform(s, p, act).w.tables, family);
  }

  /** Such a family never gets a live token again, wherever the other process comes in. */
  lemma {:induction false} OverForever(s: Settings, p: Server, acts: seq<Act>, family: Digest)
    requires Sound(p) && ValidActs(s, p, acts) && Over(p, family)
    ensures Over(Played(s, p, acts), family)
    decreases |acts|
  {
    if acts != [] {
      ActKeepsSound(s, p, acts[0]);
      ActKeepsOver(s, p, acts[0], family);
      OverForever(s, Perform(s, p, acts[0]), acts[1..], family);
    }
  }

  // ---------- composing runs ----------

  lemma OneMoreAct(s: Settings, p: Server, act: Act, rest: seq<Act>)
    requires Allowed(p, act) && ValidActs(s, Perform(s, p, act), rest)
    ensures ValidActs(s, p, [act] + rest)
    ensures Played(s, p, [act] + rest) == Played(s, Perform(s, p, act), rest)
  {
    assert ([act] + rest)[1..] == rest;
  }
}
