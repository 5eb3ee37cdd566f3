/** The host inventory: how entries become hosts, which of them survive, and how they are looked up. */
module Inventory {
  import opened Text

  /** One YAML entry, or the defaults; None is an absent field. */
  datatype Item = Item(alias: Option<string>, address: Option<string>, user: Option<string>, port: Option<int>,
                       jump: Option<string>, nodeId: Option<string>)

  datatype Host = Host(alias: string, address: string, user: string, port: int, jump: string, fixedId: string)

  datatype InventoryError = BadAlias | NoAddress | BadNodeId | Clash | JumpNotFound

  datatype Result<+T> = Ok(value: T) | Err(error: InventoryError)

  // ---------- one entry ----------

  predicate IsAlnum(c: char) { 'a' <= c <= 'z' || 'A' <= c <= 'Z' || IsDigit(c) }

  predicate IsAliasChar(c: char) { IsAlnum(c) || c == '.' || c == '_' || c == '-' }

  predicate IsAlias(s: string) {
    1 <= |s| <= 64 && IsAlnum(s[0]) && AllIn(s, IsAliasChar)
  }

  predicate IsHex(c: char) { IsDigit(c) || 'a' <= c <= 'f' }

  predicate IsNodeId(s: string) {
    12 <= |s| <= 34 && s[0] == 'n' && s[1] == '_' && AllIn(s[2..], IsHex)
  }

  /** A field of the entry, or of the defaults. */
  function Merged<T>(field: Option<T>, byDefault: Option<T>): Option<T> {
    if field.Some? then field else byDefault
  }

  function Or(field: Option<string>, fallback: string): string {
    if field.Some? && field.value != "" then field.value else fallback
  }

  /** The machine an entry is about. */
  function Machine(h: Host): (string, int, string) { (h.address, h.port, h.user) }

  /** The id of a machine that has no hand-written one: a hash in the program, any function here. */
  type Ids = ((string, int, string)) -> string

  /** Host.node_id */
  function NodeId(h: Host, computed: Ids): string {
    if h.fixedId != "" then h.fixedId else computed(Machine(h))
  }

  /** The three checks of an entry, on the stripped texts. */
  function Checked(alias: string, address: string, idGiven: bool, fixedId: string,
                   user: string, port: int, jump: string): Result<Host> {
    if !IsAlias(alias) then Err(BadAlias)
    else if address == "" then Err(NoAddress)
    else if idGiven && !IsNodeId(fixedId) then Err(BadNodeId)
    else Ok(Host(alias, address, user, port, jump, fixedId))
  }

  /** The body of the loop up to the new host; a node id is never taken from the defaults. */
  function Parsed(defaults: Item, item: Item): Result<Host> {
    var port := Merged(item.port, defaults.port);
    Checked(Strip(Or(Merged(item.alias, defaults.alias), "")), Strip(Or(Merged(item.address, defaults.address), "")),
            Or(item.nodeId, "") != "", if Or(item.nodeId, "") != "" then Strip(item.nodeId.value) else "",
            Or(Merged(item.user, defaults.user), "root"), if port.Some? && port.value != 0 then port.value else 22,
            Or(Merged(item.jump, defaults.jump), ""))
  }

  /** Both ids by hand or computed: where a host stands. */
  lemma NodeIdIs(h: Host, computed: Ids)
    ensures NodeId(h, computed) == if h.fixedId == "" then computed((h.address, h.port, h.user)) else h.fixedId
  {}

  // ---------- what a parsed host has ----------

  /** A text field: the entry's own, else the default, else nothing. */
  function Given(own: Option<string>, byDefault: Option<string>): string {
    match own
    case Some(text) => text
    case None => if byDefault.Some? then byDefault.value else ""
  }

  /** One letter or digit and at most 63 letters, digits, dots, underscores or hyphens. */
  predicate AliasText(s: string) {
    && 1 <= |s| <= 64
    && ('a' <= s[0] <= 'z' || 'A' <= s[0] <= 'Z' || '0' <= s[0] <= '9')
    && forall i :: 0 <= i < |s| ==>
         'a' <= s[i] <= 'z' || 'A' <= s[i] <= 'Z' || '0' <= s[i] <= '9' || s[i] == '.' || s[i] == '_' || s[i] == '-'
  }

  /** n_ and 10 to 32 lower-case hexadecimal digits. */
  predicate NodeIdText(s: string) {
    && 12 <= |s| <= 34 && s[0] == 'n' && s[1] == '_'
    && forall i :: 2 <= i < |s| ==> '0' <= s[i] <= '9' || 'a' <= s[i] <= 'f'
  }

  lemma AliasTextIff(s: string)
    ensures IsAlias(s) <==> AliasText(s)
  {}

  lemma NodeIdTextIff(s: string)
    ensures IsNodeId(s) <==> NodeIdText(s)
  {
    if 12 <= |s| {
      assert forall i :: 2 <= i < |s| ==> s[i] == s[2..][i - 2];
    }
  }

  /** When an entry is refused, and with which error. */
  lemma RefusedEntry(defaults: Item, item: Item)
    ensures var alias, address := Strip(Given(item.alias, defaults.alias)), Strip(Given(item.address, defaults.address));
            var id := Given(item.nodeId, None);
            var r := Parsed(defaults, item);
            && (r == Err(BadAlias) <==> !AliasText(alias))
            && (r == Err(NoAddress) <==> AliasText(alias) && address == "")
            && (r == Err(BadNodeId) <==> AliasText(alias) && address != "" && id != "" && !NodeIdText(Strip(id)))
            && (r.Ok? <==> AliasText(alias) && address != "" && (id == "" || NodeIdText(Strip(id))))
  {
    var alias, id := Strip(Given(item.alias, defaults.alias)), Given(item.nodeId, None);
    AliasTextIff(alias);
    NodeIdTextIff(Strip(id));
    OrIsGiven(item.alias, defaults.alias);
    OrIsGiven(item.address, defaults.address);
    OrIsGiven(item.nodeId, None);
  }

  lemma OrIsGiven(own: Option<string>, byDefault: Option<string>)
    ensures Or(Merged(own, byDefault), "") == Given(own, byDefault)
  {}

  /** An entry's own fields win over the defaults, field by field; a node id is only ever its own. */
  lemma ParsedFields(defaults: Item, item: Item)
    requires Parsed(defaults, item).Ok?
    ensures var h := Parsed(defaults, item).value;
            && h.alias == Strip(Given(item.alias, defaults.alias))
            && h.address == Strip(Given(item.address, defaults.address))
            && h.user == (if Given(item.user, defaults.user) == "" then "root" else Given(item.user, defaults.user))
            && h.jump == Given(item.jump, defaults.jump)
            && (item.port.Some? ==> h.port == if item.port.value == 0 then 22 else item.port.value)
            && (item.port.None? && defaults.port.Some? ==>
                  h.port == if defaults.port.value == 0 then 22 else defaults.port.value)
            && (item.port.None? && defaults.port.None? ==> h.port == 22)
            && h.fixedId == (if Given(item.nodeId, None) == "" then "" else Strip(Given(item.nodeId, None)))
  {
    OrIsGiven(item.alias, defaults.alias);
    OrIsGiven(item.address, defaults.address);
    OrIsGiven(item.jump, defaults.jump);
  }

  datatype Entry = Entry(id: string, host: Host)

  function Keyed(parsed: Result<Host>, computed: Ids): Result<Entry> {
    match parsed
    case Err(e) => Err(e)
    case Ok(h) => Ok(Entry(NodeId(h, computed), h))
  }

  /** Every entry as the loop sees it. */
  function Entries(defaults: Item, items: seq<Item>, computed: Ids): (es: seq<Result<Entry>>)
    ensures |es| == |items|
    ensures forall i :: 0 <= i < |items| ==> es[i] == Keyed(Parsed(defaults, items[i]), computed)
  {
    seq(|items|, i requires 0 <= i < |items| => Keyed(Parsed(defaults, items[i]), computed))
  }

  // ---------- the loop ----------

  type Hosts = map<string, Host>

  /** Two hand-written ids for different machines. */
  predicate Conflict(prev: Host, h: Host) {
    prev.fixedId != "" && h.fixedId != "" && Machine(prev) != Machine(h)
  }

  /** The end of the loop body. */
  function Placed(hosts: Hosts, e: Entry): Result<Hosts> {
    if e.id in hosts && Conflict(hosts[e.id], e.host) then Err(Clash) else Ok(hosts[e.id := e.host])
  }

  /** The loop over the first n entries. */
  function Filled(es: seq<Result<Entry>>, n: nat): Result<Hosts>
    requires n <= |es|
  {
    if n == 0 then Ok(map[])
    else
      var before := Filled(es, n - 1);
      if before.Err? then before
      else if es[n - 1].Err? then Err(es[n - 1].error)
      else Placed(before.value, es[n - 1].value)
  }

  predicate HasAlias(hosts: Hosts, alias: string) {
    exists id :: id in hosts && hosts[id].alias == alias
  }

  predicate JumpLoaded(hosts: Hosts, h: Host) {
    h.jump == "" || h.jump in hosts || HasAlias(hosts, h.jump)
  }

  predicate JumpsLoaded(hosts: Hosts) {
    forall id :: id in hosts ==> JumpLoaded(hosts, hosts[id])
  }

  /** What load_inventory answers. */
  function Loaded(es: seq<Result<Entry>>): Result<Hosts> {
    var filled := Filled(es, |es|);
    if filled.Ok? && !JumpsLoaded(filled.value) then Err(JumpNotFound) else filled
  }

  lemma {:induction false} FailedStays(es: seq<Result<Entry>>, i: nat, n: nat)
    requires i <= n <= |es| && Filled(es, i).Err?
    ensures Filled(es, n) == Filled(es, i)
  {
    if i < n {
      FailedStays(es, i, n - 1);
    }
  }

  method LoadInventory(defaults: Item, items: seq<Item>, computed: Ids) returns (result: Result<Hosts>)
    ensures result == Loaded(Entries(defaults, items, computed))
  {
    result := Load(Entries(defaults, items, computed));
  }

  method Load(es: seq<Result<Entry>>) returns (result: Result<Hosts>)
    ensures result == Loaded(es)
  {
    var hosts: Hosts := map[];
    for i := 0 to |es|
      invariant Filled(es, i) == Ok(hosts)
    {
      if es[i].Err? {
        FailedStays(es, i + 1, |es|);
        return Err(es[i].error);
      }
      var Entry(id, h) := es[i].value;
      if id in hosts && Conflict(hosts[id], h) {
        FailedStays(es, i + 1, |es|);
        return Err(Clash);
      }
      hosts := hosts[id := h];
    }
    var good := CheckJumps(hosts);
    result := if good then Ok(hosts) else Err(JumpNotFound);
  }

  method CheckJumps(hosts: Hosts) returns (good: bool)
    ensures good == JumpsLoaded(hosts)
  {
    var rest := hosts.Keys;
    while rest != {}
      invariant rest <= hosts.Keys
      invariant forall id :: id in hosts && id !in rest ==> JumpLoaded(hosts, hosts[id])
      decreases |rest|
    {
      var id :| id in rest;
      var jump := hosts[id].jump;
      if jump != "" && jump !in hosts {
        var named := AnyAlias(hosts, jump);
        if !named {
          return false;
        }
      }
      rest := rest - {id};
    }
    good := true;
  }

  method AnyAlias(hosts: Hosts, alias: string) returns (found: bool)
    ensures found == HasAlias(hosts, alias)
  {
    var rest := hosts.Keys;
    while rest != {}
      invariant rest <= hosts.Keys
      invariant forall id :: id in hosts && id !in rest ==> hosts[id].alias != alias
      decreases |rest|
    {
      var id :| id in rest;
      if hosts[id].alias == alias {
        return true;
      }
      rest := rest - {id};
    }
    found := false;
  }

  // ---------- look-up ----------

  datatype Lookup = Found(host: Host) | Ambiguous | Unknown

  /** Inventory.get: by id, or by an alias that only one host has. */
  method Get(hosts: Hosts, key: string) returns (r: Lookup)
    ensures key in hosts ==> r == Found(hosts[key])
    ensures key !in hosts ==> (r.Unknown? <==> !HasAlias(hosts, key))
    ensures key !in hosts && r.Found? ==>
              exists id :: id in hosts && r.host == hosts[id] && hosts[id].alias == key
                           && forall other :: other in hosts && hosts[other].alias == key ==> other == id
    ensures r.Ambiguous? ==>
              exists a, b :: a in hosts && b in hosts && a != b && hosts[a].alias == key && hosts[b].alias == key
  {
    if key in hosts {
      return Found(hosts[key]);
    }
    var rest, seen := hosts.Keys, {};
    while rest != {}
      invariant rest <= hosts.Keys && seen <= hosts.Keys && |seen| <= 1
      invariant forall id :: id in seen <==> id in hosts && id !in rest && hosts[id].alias == key
      decreases |rest|
    {
      var id :| id in rest;
      rest := rest - {id};
      if hosts[id].alias == key {
        if seen != {} {
          ghost var other :| other in seen;
          assert other != id;
          return Ambiguous;
        }
        seen := {id};
      }
    }
    if seen == {} {
      return Unknown;
    }
    var id :| id in seen;
    assert seen == {id} by { Only(seen, id); }
    r := Found(hosts[id]);
  }

  lemma Only(s: set<string>, x: string)
    requires x in s && |s| <= 1
    ensures s == {x}
  {
    assert |s - {x}| == 0;
    assert s == (s - {x}) + {x};
  }

  // ---------- which entries survive ----------

  /** The entry at i is the last of the first n with its id. */
  ghost predicate LastOfId(es: seq<Entry>, n: nat, i: nat)
    requires i < n <= |es|
  {
    forall j :: i < j < n ==> es[j].id != es[i].id
  }

  ghost predicate Survives(es: seq<Entry>, n: nat, i: nat, hosts: Hosts)
    requires i < n <= |es|
  {
    LastOfId(es, n, i) && es[i].id in hosts && hosts[es[i].id] == es[i].host
  }

  /** The table holds exactly the last entry of each id among the first n, under that id. */
  ghost predicate HoldsLast(es: seq<Entry>, n: nat, hosts: Hosts)
    requires n <= |es|
  {
    && (forall i :: 0 <= i < n && LastOfId(es, n, i) ==> Survives(es, n, i, hosts))
    && (forall id :: id in hosts ==> exists i :: 0 <= i < n && Survives(es, n, i, hosts) && es[i].id == id)
  }

  lemma PlacedHoldsLast(es: seq<Entry>, n: nat, m: nat, hosts: Hosts)
    requires n < |es| && m == n + 1 && HoldsLast(es, n, hosts)
    ensures HoldsLast(es, m, hosts[es[n].id := es[n].host])
  {
    var placed := hosts[es[n].id := es[n].host];
    forall i | 0 <= i < m && LastOfId(es, m, i) ensures Survives(es, m, i, placed) {
      if i < n {
        assert Survives(es, n, i, hosts) by { assert LastOfId(es, n, i); }
      }
    }
    forall id | id in placed ensures exists i :: 0 <= i < m && Survives(es, m, i, placed) && es[i].id == id {
      if id == es[n].id {
        assert Survives(es, m, n, placed);
      } else {
        var i :| 0 <= i < n && Survives(es, n, i, hosts) && es[i].id == id;
        assert Survives(es, m, i, placed);
      }
    }
  }

  /** Every entry is well formed, and es is what they are. */
  ghost predicate AllParsed(results: seq<Result<Entry>>, es: seq<Entry>) {
    |results| == |es| && forall i :: 0 <= i < |es| ==> results[i] == Ok(es[i])
  }

  /** What the loop accepted holds exactly the last entry per id, each under its own id. */
  lemma {:induction false} LastEntryWins(results: seq<Result<Entry>>, es: seq<Entry>, n: nat)
    requires AllParsed(results, es) && n <= |es| && Filled(results, n).Ok?
    ensures HoldsLast(es, n, Filled(results, n).value)
  {
    if n > 0 {
      LastEntryWins(results, es, n - 1);
      PlacedHoldsLast(es, n - 1, n, Filled(results, n - 1).value);
    }
  }

  /** Both ids are written by hand, and address, port or user differ. */
  predicate Differ(a: Host, b: Host) {
    a.fixedId != "" && b.fixedId != "" && (a.address != b.address || a.port != b.port || a.user != b.user)
  }

  /** An earlier and a later entry write one id for different machines, with no entry of that id in between. */
  ghost predicate Clashing(es: seq<Entry>, i: nat, j: nat)
    requires i < j < |es|
  {
    es[i].id == es[j].id && Differ(es[i].host, es[j].host) && LastOfId(es, j, i)
  }

  ghost predicate ClashBefore(es: seq<Entry>, n: nat)
    requires n <= |es|
  {
    exists i, j :: 0 <= i < j < n && Clashing(es, i, j)
  }

  /** The test of the loop finds the clashes whose later entry is the one at n. */
  lemma ConflictIsClash(es: seq<Entry>, n: nat, hosts: Hosts)
    requires n < |es| && HoldsLast(es, n, hosts)
    ensures es[n].id in hosts && Conflict(hosts[es[n].id], es[n].host) <==>
            exists i :: 0 <= i < n && Clashing(es, i, n)
  {
    if es[n].id in hosts {
      var i :| 0 <= i < n && Survives(es, n, i, hosts) && es[i].id == es[n].id;
      assert Conflict(hosts[es[n].id], es[n].host) ==> Clashing(es, i, n);
    }
    forall i | 0 <= i < n && Clashing(es, i, n) ensures es[n].id in hosts && Conflict(hosts[es[n].id], es[n].host) {
      assert LastOfId(es, n, i);
    }
  }

  /** For every list of well-formed entries: the loop refuses exactly when two entries clash. */
  lemma {:induction false} RefusedIffClash(results: seq<Result<Entry>>, es: seq<Entry>, n: nat)
    requires AllParsed(results, es) && n <= |es|
    ensures if ClashBefore(es, n) then Filled(results, n) == Err(Clash) else Filled(results, n).Ok?
  {
    if n > 0 {
      RefusedIffClash(results, es, n - 1);
      if Filled(results, n - 1).Ok? {
        LastEntryWins(results, es, n - 1);
        ConflictIsClash(es, n - 1, Filled(results, n - 1).value);
      }
    }
  }

  /** Two entries write one id for different machines, anywhere in the list. */
  ghost predicate Rivals(es: seq<Entry>, i: nat, j: nat)
    requires i < j < |es|
  {
    es[i].id == es[j].id && Differ(es[i].host, es[j].host)
  }

  /** No computed id coincides with a hand-written one. */
  ghost predicate IdsApart(es: seq<Entry>) {
    forall i, j :: 0 <= i < |es| && 0 <= j < |es| && es[i].id == es[j].id ==>
      (es[i].host.fixedId == "" <==> es[j].host.fixedId == "")
  }

  /** Between two rivals there is a clash: somewhere the machine changes. */
  lemma {:induction false} RivalsClash(es: seq<Entry>, i: nat, j: nat)
    requires IdsApart(es) && i < j < |es| && Rivals(es, i, j)
    ensures ClashBefore(es, j + 1)
    decreases j - i
  {
    if k :| i < k < j && es[k].id == es[i].id {
      if Machine(es[k].host) != Machine(es[i].host) {
        RivalsClash(es, i, k);
      } else {
        RivalsClash(es, k, j);
      }
    } else {
      assert Clashing(es, i, j);
    }
  }

  /** With ids apart, the loop refuses exactly when one hand-written id is given to different machines. */
  lemma RefusedIffRivals(results: seq<Result<Entry>>, es: seq<Entry>)
    requires AllParsed(results, es) && IdsApart(es)
    ensures Filled(results, |es|) == Err(Clash) <==> exists i, j :: 0 <= i < j < |es| && Rivals(es, i, j)
    ensures Filled(results, |es|).Err? ==> Filled(results, |es|) == Err(Clash)
  {
    RefusedIffClash(results, es, |es|);
    if i, j :| 0 <= i < j < |es| && Clashing(es, i, j) {
      assert Rivals(es, i, j);
    }
    if i, j :| 0 <= i < j < |es| && Rivals(es, i, j) {
      RivalsClash(es, i, j);
    }
  }

  // ---------- a loaded inventory ----------

  lemma {:induction false} FilledIsWhole(results: seq<Result<Entry>>, n: nat, i: nat)
    requires i < n <= |results| && Filled(results, n).Ok?
    ensures results[i].Ok?
  {
    if i < n - 1 {
      FilledIsWhole(results, n - 1, i);
    }
  }

  /** What the entries are when none of them failed. */
  ghost function Good(results: seq<Result<Entry>>): (es: seq<Entry>)
    requires forall i :: 0 <= i < |results| ==> results[i].Ok?
    ensures AllParsed(results, es)
  {
    seq(|results|, i requires 0 <= i < |results| => results[i].value)
  }

  /** There is one table that holds exactly the last entries. */
  lemma HoldsLastUnique(es: seq<Entry>, n: nat, a: Hosts, b: Hosts)
    requires n <= |es| && HoldsLast(es, n, a) && HoldsLast(es, n, b)
    ensures a == b
  {}

  lemma JumpsSpelled(hosts: Hosts)
    ensures JumpsLoaded(hosts) <==>
            forall id :: id in hosts && hosts[id].jump != "" ==>
              hosts[id].jump in hosts || exists other :: other in hosts && hosts[other].alias == hosts[id].jump
  {}

  /** What load_inventory accepts, and what it then answers: the last entry per id, nothing else. */
  lemma AcceptedIff(results: seq<Result<Entry>>, hosts: Hosts)
    ensures Loaded(results) == Ok(hosts) <==>
            && (forall i :: 0 <= i < |results| ==> results[i].Ok?)
            && !ClashBefore(Good(results), |results|)
            && HoldsLast(Good(results), |results|, hosts)
            && forall id :: id in hosts && hosts[id].jump != "" ==>
                 hosts[id].jump in hosts || exists other :: other in hosts && hosts[other].alias == hosts[id].jump
  {
    JumpsSpelled(hosts);
    var filled := Filled(results, |results|);
    if filled.Ok? {
      forall i | 0 <= i < |results| ensures results[i].Ok? {
        FilledIsWhole(results, |results|, i);
      }
    }
    if forall i :: 0 <= i < |results| ==> results[i].Ok? {
      RefusedIffClash(results, Good(results), |results|);
      if filled.Ok? {
        LastEntryWins(results, Good(results), |results|);
        if HoldsLast(Good(results), |results|, hosts) {
          HoldsLastUnique(Good(results), |results|, hosts, filled.value);
        }
      }
    }
  }

  /** Every host of a loaded inventory stands under its own node id. */
  lemma HostsStandUnderTheirIds(defaults: Item, items: seq<Item>, computed: Ids)
    ensures var loaded := Loaded(Entries(defaults, items, computed));
            loaded.Ok? ==> forall id :: id in loaded.value ==> NodeId(loaded.value[id], computed) == id
  {
    var results := Entries(defaults, items, computed);
    if Loaded(results).Ok? {
      var hosts := Loaded(results).value;
      AcceptedIff(results, hosts);
      var es := Good(results);
      forall id | id in hosts ensures NodeId(hosts[id], computed) == id {
        var i :| 0 <= i < |es| && Survives(es, |es|, i, hosts) && es[i].id == id;
        KeyedUnderItsId(Parsed(defaults, items[i]), computed);
      }
    }
  }

  lemma KeyedUnderItsId(parsed: Result<Host>, computed: Ids)
    ensures var e := Keyed(parsed, computed);
            e.Ok? ==> e.value.id == NodeId(e.value.host, computed)
  {}

  // ---------- a clash that goes unseen ----------

  const NO_DEFAULTS := Item(None, None, None, None, None, None)

  /** An entry with nothing but what identifies it. */
  function Plain(alias: string, address: string, nodeId: Option<string>): Item {
    Item(Some(alias), Some(address), None, None, None, nodeId)
  }

  function PlainHost(alias: string, address: string, fixedId: string): Host {
    Host(alias, address, "root", 22, "", fixedId)
  }

  lemma AliasIsStripped(alias: string)
    requires IsAlias(alias)
    ensures Strip(alias) == alias && alias != ""
  {
    assert IsAliasChar(alias[|alias| - 1]);
    TrimKeeps(alias, IsSpace);
  }

  lemma NodeIdIsStripped(id: string)
    requires IsNodeId(id)
    ensures Strip(id) == id && id != ""
  {
    assert IsHex(id[2..][|id| - 3]);
    TrimKeeps(id, IsSpace);
  }

  predicate IsAddress(address: string) { address != "" && Strip(address) == address }

  lemma PlainIsParsed(alias: string, address: string)
    requires IsAlias(alias) && IsAddress(address)
    ensures Parsed(NO_DEFAULTS, Plain(alias, address, None)) == Ok(PlainHost(alias, address, ""))
  {
    AliasIsStripped(alias);
  }

  lemma FixedIsParsed(alias: string, address: string, id: string)
    requires IsAlias(alias) && IsAddress(address) && IsNodeId(id)
    ensures Parsed(NO_DEFAULTS, Plain(alias, address, Some(id))) == Ok(PlainHost(alias, address, id))
  {
    AliasIsStripped(alias);
    NodeIdIsStripped(id);
  }

  lemma ThreeAreLoaded(es: seq<Result<Entry>>, id: string, a: Host, b: Host, c: Host)
    requires es == [Ok(Entry(id, a)), Ok(Entry(id, b)), Ok(Entry(id, c))]
    requires b.fixedId == "" && c.jump == ""
    ensures Loaded(es) == Ok(map[id := c])
  {
    assert Filled(es, 1) == Ok(map[id := a]);
    assert Filled(es, 2) == Ok(map[id := a][id := b]);
    assert map[id := a][id := b][id := c] == map[id := c];
  }

  /** An id between two rivals: three entries, of which the middle one computes the id of the others. */
  ghost predicate Hidden(results: seq<Result<Entry>>, id: string) {
    && |results| == 3 && (forall i :: 0 <= i < 3 ==> results[i].Ok? && results[i].value.id == id)
    && Rivals(Good(results), 0, 2) && Loaded(results) == Ok(map[id := results[2].value.host])
  }

  /** hs are the hosts the entries parse to. */
  ghost predicate Yields(defaults: Item, items: seq<Item>, hs: seq<Host>) {
    |items| == |hs| && forall i :: 0 <= i < |hs| ==> Parsed(defaults, items[i]) == Ok(hs[i])
  }

  ghost predicate KeyedAll(results: seq<Result<Entry>>, hs: seq<Host>, computed: Ids) {
    |results| == |hs| && forall i :: 0 <= i < |hs| ==> results[i] == Ok(Entry(NodeId(hs[i], computed), hs[i]))
  }

  lemma YieldsKeyed(defaults: Item, items: seq<Item>, hs: seq<Host>, computed: Ids)
    requires Yields(defaults, items, hs)
    ensures KeyedAll(Entries(defaults, items, computed), hs, computed)
  {}

  /** Any three entries like this are accepted, although one id stands for two machines. */
  lemma HiddenBetween(results: seq<Result<Entry>>, hs: seq<Host>, computed: Ids)
    requires KeyedAll(results, hs, computed) && |hs| == 3
    requires hs[0].fixedId == hs[2].fixedId == computed(Machine(hs[1])) != "" && hs[1].fixedId == ""
    requires Machine(hs[0]) != Machine(hs[2]) && hs[2].jump == ""
    ensures Hidden(results, computed(Machine(hs[1])))
  {
    ThreeAreLoaded(results, computed(Machine(hs[1])), hs[0], hs[1], hs[2]);
  }

  /** The id of one machine, computed and then written by hand for two others. */
  function Sandwich(x: string, y: string, z: string, id: string): seq<Item> {
    [Plain("a", x, Some(id)), Plain("b", y, None), Plain("c", z, Some(id))]
  }

  function SandwichHosts(x: string, y: string, z: string, id: string): seq<Host> {
    [PlainHost("a", x, id), PlainHost("b", y, ""), PlainHost("c", z, id)]
  }

  lemma OneLetter(c: char)
    requires IsAlnum(c)
    ensures IsAlias([c])
  {}

  lemma SandwichYields(x: string, y: string, z: string, id: string)
    requires IsAddress(x) && IsAddress(y) && IsAddress(z) && IsNodeId(id)
    ensures Yields(NO_DEFAULTS, Sandwich(x, y, z, id), SandwichHosts(x, y, z, id))
  {
    var items, hs := Sandwich(x, y, z, id), SandwichHosts(x, y, z, id);
    forall i | 0 <= i < 3 ensures Parsed(NO_DEFAULTS, items[i]) == Ok(hs[i]) {
      if i == 1 {
        OneLetter('b');
        PlainIsParsed("b", y);
      } else {
        OneLetter('a');
        OneLetter('c');
        FixedIsParsed(if i == 0 then "a" else "c", if i == 0 then x else z, id);
      }
    }
  }

  /**
   * Whatever the hash and the addresses: writing the computed id of one machine by hand for two others,
   * before and after it, is accepted, although that id then stands for two machines.
   */
  lemma CoincidenceHidesRivals(x: string, y: string, z: string, computed: Ids)
    requires IsAddress(x) && IsAddress(y) && IsAddress(z) && x != z
    requires IsNodeId(computed((y, 22, "root")))
    ensures var id := computed((y, 22, "root"));
            Hidden(Entries(NO_DEFAULTS, Sandwich(x, y, z, id), computed), id)
  {
    var id := computed((y, 22, "root"));
    var items, hs := Sandwich(x, y, z, id), SandwichHosts(x, y, z, id);
    SandwichYields(x, y, z, id);
    YieldsKeyed(NO_DEFAULTS, items, hs, computed);
    HiddenBetween(Entries(NO_DEFAULTS, items, computed), hs, computed);
  }
}
