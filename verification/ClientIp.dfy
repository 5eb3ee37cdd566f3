/** Which address a request is taken to come from, behind a known number of proxies. */
module ClientIp {
  import opened Text

  /** The position after the last comma before n. */
  function AfterComma(s: string, n: nat): (i: nat)
    requires n <= |s|
    ensures i <= n && (i > 0 ==> s[i - 1] == ',')
    ensures forall k :: i <= k < n ==> s[k] != ','
  {
    if n == 0 || s[n - 1] == ',' then n else AfterComma(s, n - 1)
  }

  /** The text cut at its commas. */
  function Split(s: string): (fields: seq<string>)
    ensures fields != []
    decreases |s|
  {
    var i := AfterComma(s, |s|);
    if i == 0 then [s] else Split(s[..i - 1]) + [s[i..]]
  }

  /** The fields stripped, without the blank ones. */
  function Stripped(fields: seq<string>): seq<string> {
    if fields == [] then []
    else
      var last := Strip(fields[|fields| - 1]);
      Stripped(fields[..|fields| - 1]) + if last == "" then [] else [last]
  }

  function Parts(header: string): seq<string> { Stripped(Split(header)) }

  /** client_ip; peer is the address the connection came from. */
  function ClientAddress(header: string, peer: string, hops: int): string {
    var parts := Parts(header);
    if hops > 0 && |parts| >= hops then parts[|parts| - hops] else peer
  }

  // ---------- what proxies do ----------

  /** An address as a proxy writes it. */
  predicate IsAddress(a: string) {
    a != "" && Lacks(a, |a|, ',') && !IsSpace(a[0]) && !IsSpace(a[|a| - 1])
  }

  /** One proxy adds the address of its peer to the header it received, "" standing for none. */
  function Appended(header: string, a: string): string {
    if header == "" then a else header + "," + (" " + a)
  }

  /** A row of proxies, the outermost first. */
  function Forwarded(header: string, addresses: seq<string>): string {
    if addresses == [] then header
    else Appended(Forwarded(header, addresses[..|addresses| - 1]), addresses[|addresses| - 1])
  }

  lemma AfterCommaUnique(s: string, n: nat, i: nat)
    requires i <= n <= |s| && (i > 0 ==> s[i - 1] == ',')
    requires forall k :: i <= k < n ==> s[k] != ','
    ensures AfterComma(s, n) == i
    decreases n - i
  {}

  lemma SplitLast(header: string, field: string)
    requires Lacks(field, |field|, ',')
    ensures Split(header + "," + field) == Split(header) + [field]
  {
    var s, i := header + "," + field, |header| + 1;
    assert forall k :: i <= k < |s| ==> s[k] == field[k - i];
    AfterCommaUnique(s, |s|, i);
    assert s[..i - 1] == header && s[i..] == field;
  }

  lemma SplitOne(field: string)
    requires Lacks(field, |field|, ',')
    ensures Split(field) == [field]
  {}

  lemma StrippedLast(fields: seq<string>, field: string)
    ensures Stripped(fields + [field]) == Stripped(fields) + if Strip(field) == "" then [] else [Strip(field)]
  {}

  lemma StripBlankFirst(a: string)
    requires IsAddress(a)
    ensures Strip(a) == a && Strip(" " + a) == a
  {
    assert Strip(a) == a by { TrimKeeps(a, IsSpace); }
    var s := " " + a;
    assert s[1..] == a && s[1] == a[0] && s[|s| - 1] == a[|a| - 1];
    TrimAt(s, 1, |s|, IsSpace);
  }

  /** One proxy adds one part at the right, whatever stood there before. */
  lemma AppendedParts(header: string, a: string)
    requires IsAddress(a)
    ensures Parts(Appended(header, a)) == Parts(header) + [a]
  {
    StripBlankFirst(a);
    if header == "" {
      SplitOne("");
      SplitOne(a);
      StrippedLast([], "");
      StrippedLast([], a);
      assert [] + [a] == [a] && [] + [""] == [""];
      TrimKeeps("", IsSpace);
    } else {
      SplitLast(header, " " + a);
      StrippedLast(Split(header), " " + a);
    }
  }

  predicate AllAddresses(addresses: seq<string>) {
    forall i :: 0 <= i < |addresses| ==> IsAddress(addresses[i])
  }

  lemma ForwardedLast(header: string, front: seq<string>, last: string)
    ensures Forwarded(header, front + [last]) == Appended(Forwarded(header, front), last)
  {}

  lemma Regroup(parts: seq<string>, front: seq<string>, last: string)
    ensures parts + front + [last] == parts + (front + [last])
  {}

  lemma {:induction false} ForwardedParts(header: string, addresses: seq<string>)
    requires AllAddresses(addresses)
    ensures Parts(Forwarded(header, addresses)) == Parts(header) + addresses
  {
    if addresses != [] {
      var front, last := addresses[..|addresses| - 1], addresses[|addresses| - 1];
      assert addresses == front + [last] && AllAddresses(front);
      ForwardedParts(header, front);
      ForwardedLast(header, front, last);
      AppendedParts(Forwarded(header, front), last);
      Regroup(Parts(header), front, last);
    }
  }

  /** Whatever header the caller sends, behind n proxies the answer is what the outermost of them saw. */
  lemma CallerCannotForge(header: string, addresses: seq<string>, peer: string)
    requires addresses != [] && AllAddresses(addresses)
    ensures ClientAddress(Forwarded(header, addresses), peer, |addresses|) == addresses[0]
  {
    ForwardedParts(header, addresses);
  }

  /** Behind fewer proxies than configured it falls back to the peer exactly when the caller sent too few parts. */
  lemma TooFewEntries(header: string, addresses: seq<string>, peer: string, hops: int)
    requires AllAddresses(addresses) && hops > |addresses|
    ensures ClientAddress(Forwarded(header, addresses), peer, hops) ==
            if |Parts(header)| + |addresses| < hops then peer
            else Parts(header)[|Parts(header)| + |addresses| - hops]
  {
    ForwardedParts(header, addresses);
  }

  /** The address by position: the hops-th part from the right, or the peer where there is none or no hop counts. */
  lemma AddressIs(header: string, peer: string, hops: int)
    ensures var n := |Parts(header)|;
            ClientAddress(header, peer, hops) == if 1 <= hops <= n then Parts(header)[n - hops] else peer
  {}

  /** Without trusted proxies the header changes nothing. */
  lemma HeaderIsIgnored(header: string, addresses: seq<string>, peer: string, hops: int)
    requires hops <= 0
    ensures ClientAddress(Forwarded(header, addresses), peer, hops) == peer
  {}

  /** The texts with a comma between them. */
  function Commas(fields: seq<string>): string {
    if fields == [] then ""
    else if |fields| == 1 then fields[0]
    else Commas(fields[..|fields| - 1]) + "," + fields[|fields| - 1]
  }

  /** Splitting is undone by joining, and no field has a comma: so these are the fields. */
  lemma {:induction false} SplitJoins(s: string)
    ensures Commas(Split(s)) == s
    ensures forall i :: 0 <= i < |Split(s)| ==> Lacks(Split(s)[i], |Split(s)[i]|, ',')
    decreases |s|
  {
    var i := AfterComma(s, |s|);
    if i > 0 {
      var front := Split(s[..i - 1]);
      SplitJoins(s[..i - 1]);
      assert Split(s) == front + [s[i..]] && (front + [s[i..]])[..|front|] == front;
      assert s == s[..i - 1] + "," + s[i..];
    }
  }
}
