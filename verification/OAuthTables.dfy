/** The OAuth state: the tables of auth/store.py as values, and the class that updates them. */
module OAuthTables {
  import opened Text

  /** sha(): a digest determines the text it was made from. */
  datatype Digest = Sha(text: string)

  /** code_challenge_method; NoMethod stands for every text other than S256 and plain. */
  datatype ChallengeMethod = S256 | Plain | NoMethod

  datatype CodeRow = CodeRow(client: string, redirectUri: string, scope: string, challenge: string,
                             challengeMethod: ChallengeMethod, subject: string, expiresAt: int, used: bool)

  datatype RefreshRow = RefreshRow(family: Digest, client: string, subject: string, scope: string,
                                   expiresAt: int, revoked: bool)

  /** clients maps a client_id to the digest of its secret, if it has one. */
  datatype Tables = Tables(clients: map<string, Option<Digest>>,
                           codes: map<Digest, CodeRow>,
                           refresh: map<Digest, RefreshRow>)

  datatype Taken<+Row> = Missing | Again(row: Row) | First(row: Row)

  /** Every token of the family is revoked. */
  function FamilyRevoked(rows: map<Digest, RefreshRow>, family: Digest): (r: map<Digest, RefreshRow>)
    ensures r.Keys == rows.Keys
  {
    map h | h in rows :: if rows[h].family == family then rows[h].(revoked := true) else rows[h]
  }

  /** Every token of the client is revoked. */
  function ClientRevoked(rows: map<Digest, RefreshRow>, client: string): (r: map<Digest, RefreshRow>)
    ensures r.Keys == rows.Keys
  {
    map h | h in rows :: if rows[h].client == client then rows[h].(revoked := true) else rows[h]
  }

  /** This one token is revoked, if it is stored. */
  function RowRevoked(rows: map<Digest, RefreshRow>, h: Digest): (r: map<Digest, RefreshRow>)
    ensures r.Keys == rows.Keys
  {
    if h in rows then rows[h := rows[h].(revoked := true)] else rows
  }

  function CodeTaken(t: Tables, code: string): (Tables, Taken<CodeRow>) {
    var h := Sha(code);
    if h !in t.codes then (t, Missing)
    else if t.codes[h].used then (t.(refresh := FamilyRevoked(t.refresh, h)), Again(t.codes[h]))
    else (t.(codes := t.codes[h := t.codes[h].(used := true)]), First(t.codes[h]))
  }

  function RefreshTaken(t: Tables, token: string): (Tables, Taken<RefreshRow>) {
    var h := Sha(token);
    if h !in t.refresh then (t, Missing)
    else if t.refresh[h].revoked then
      (t.(refresh := FamilyRevoked(t.refresh, t.refresh[h].family)), Again(t.refresh[h]))
    else (t.(refresh := RowRevoked(t.refresh, h)), First(t.refresh[h]))
  }

  /** A clock reading in whole seconds. */
  function Seconds(now: real): (n: int)
    ensures n as real <= now < (n + 1) as real
  {
    now.Floor
  }

  function Collected(t: Tables, now: real): Tables {
    t.(codes := map h | h in t.codes && t.codes[h].expiresAt >= Seconds(now) - 3600 :: t.codes[h],
       refresh := map h | h in t.refresh && t.refresh[h].expiresAt >= Seconds(now) - 86400 :: t.refresh[h])
  }

  /** The Store, one method per statement group of auth/store.py. */
  class Store {
    var clients: map<string, Option<Digest>>
    var codes: map<Digest, CodeRow>
    var refresh: map<Digest, RefreshRow>

    constructor ()
      ensures Contents() == Tables(map[], map[], map[])
    {
      clients, codes, refresh := map[], map[], map[];
    }

    function Contents(): Tables
      reads this
    {
      Tables(clients, codes, refresh)
    }

    method PutClient(client: string, secret: Option<Digest>)
      modifies this`clients
      ensures clients == old(clients)[client := secret]
    {
      clients := clients[client := secret];
    }

    method GetClient(client: string) returns (found: Option<Option<Digest>>)
      ensures found == if client in clients then Some(clients[client]) else None
    {
      if client in clients {
        found := Some(clients[client]);
      } else {
        found := None;
      }
    }

    method DeleteClient(client: string)
      modifies this`clients, this`refresh
      ensures clients == old(clients) - {client}
      ensures refresh == ClientRevoked(old(refresh), client)
    {
      clients := clients - {client};
      refresh := map h | h in refresh ::
        if refresh[h].client == client then refresh[h].(revoked := true) else refresh[h];
    }

    method PutCode(code: string, row: CodeRow)
      requires Sha(code) !in codes && !row.used
      modifies this`codes
      ensures codes == old(codes)[Sha(code) := row]
    {
      codes := codes[Sha(code) := row];
    }

    /** Single use: the first taking marks the row, a later one revokes the family behind it. */
    method TakeCode(code: string) returns (taken: Taken<CodeRow>)
      modifies this`codes, this`refresh
      ensures (Contents(), taken) == CodeTaken(old(Contents()), code)
    {
      var h := Sha(code);
      if h !in codes {
        return Missing;
      }
      var row := codes[h];
      if row.used {
        RevokeFamily(h);
        return Again(row);
      }
      codes := codes[h := row.(used := true)];
      return First(row);
    }

    method PutRefresh(token: string, row: RefreshRow)
      requires Sha(token) !in refresh && !row.revoked
      modifies this`refresh
      ensures refresh == old(refresh)[Sha(token) := row]
    {
      refresh := refresh[Sha(token) := row];
    }

    method RefreshOwner(token: string) returns (owner: Option<string>)
      ensures owner == if Sha(token) in refresh then Some(refresh[Sha(token)].client) else None
    {
      if Sha(token) in refresh {
        owner := Some(refresh[Sha(token)].client);
      } else {
        owner := None;
      }
    }

    method TakeRefresh(token: string) returns (taken: Taken<RefreshRow>)
      modifies this`refresh
      ensures (Contents(), taken) == RefreshTaken(old(Contents()), token)
    {
      var h := Sha(token);
      if h !in refresh {
        return Missing;
      }
      var row := refresh[h];
      if row.revoked {
        RevokeFamily(row.family);
        return Again(row);
      }
      RevokeRefresh(token);
      return First(row);
    }

    method RevokeRefresh(token: string)
      modifies this`refresh
      ensures refresh == RowRevoked(old(refresh), Sha(token))
    {
      if Sha(token) in refresh {
        refresh := refresh[Sha(token) := refresh[Sha(token)].(revoked := true)];
      }
    }

    method RevokeFamily(family: Digest)
      modifies this`refresh
      ensures refresh == FamilyRevoked(old(refresh), family)
    {
      refresh := map h | h in refresh ::
        if refresh[h].family == family then refresh[h].(revoked := true) else refresh[h];
    }

    method Collect(now: real)
      modifies this`codes, this`refresh
      ensures Contents() == Collected(old(Contents()), now)
    {
      codes := map h | h in codes && codes[h].expiresAt >= Seconds(now) - 3600 :: codes[h];
      refresh := map h | h in refresh && refresh[h].expiresAt >= Seconds(now) - 86400 :: refresh[h];
    }
  }
}
