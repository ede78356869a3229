/** Outbound targets: which addresses the network policy admits, the validation of a URL, and
    the resolver guard. Parsed URLs, address ranges and DNS answers are inputs. */
module TargetPolicy {
  import opened Options
  import opened Sequences
  import opened Text

  // ---- addresses -------------------------------------------------------------------------

  datatype Range = Loopback | LinkLocal | Private | Unspecified | Multicast | Reserved

  /** An address: its text and the ranges `ipaddress` finds it in. */
  datatype Ip = Ip(text: string, ranges: set<Range>)

  /** An IPv6 address that spells an IPv4 one carries that one. */
  datatype Address = Plain(ip: Ip) | Mapped(spelling: Ip, v4: Ip)

  datatype Reason = MetadataService | LoopbackAddress | LinkLocalAddress | PrivateNetwork | NotUnicast

  datatype Policy = Policy(allowPrivate: bool, blockedHosts: set<string>)

  const METADATA := {"169.254.169.254", "fd00:ec2::254", "100.100.100.200"}

  function Normalize(a: Address): Ip {
    if a.Mapped? then a.v4 else a.ip
  }

  function ClassifyIp(a: Address): Option<Reason> {
    var ip := Normalize(a);
    if ip.text in METADATA then Some(MetadataService)
    else if Loopback in ip.ranges then Some(LoopbackAddress)
    else if LinkLocal in ip.ranges then Some(LinkLocalAddress)
    else if Private in ip.ranges then Some(PrivateNetwork)
    else if Unspecified in ip.ranges || Multicast in ip.ranges || Reserved in ip.ranges then Some(NotUnicast)
    else None
  }

  function AddressBlockReason(a: Address, policy: Policy): Option<Reason> {
    var reason := ClassifyIp(a);
    if reason.None? then None
    else if Normalize(a).text in METADATA then reason
    else if !policy.allowPrivate then reason
    else None
  }

  predicate Allowed(a: Address, policy: Policy) {
    AddressBlockReason(a, policy).None?
  }

  /** An address is allowed iff it is not a metadata endpoint and either lies in no special
      range or the policy admits private targets; an IPv6 address that spells an IPv4 one counts
      as that one, whatever its own spelling is. */
  lemma AllowedIff(a: Address, policy: Policy)
    ensures var ip := if a.Mapped? then a.v4 else a.ip;
            Allowed(a, policy) <==>
              && ip.text != "169.254.169.254" && ip.text != "fd00:ec2::254" && ip.text != "100.100.100.200"
              && (ip.ranges == {} || policy.allowPrivate)
  {
    if Normalize(a).ranges != {} {
      var r :| r in Normalize(a).ranges;
      assert r.Loopback? || r.LinkLocal? || r.Private? || r.Unspecified? || r.Multicast? || r.Reserved?;
    }
  }

  /** Why an address is blocked: what it is, the metadata service before anything else, then
      loopback, link-local, private, and whatever else is no unicast address; the policy can waive
      any of these but the first. */
  lemma ReasonIs(a: Address, policy: Policy)
    ensures var ip, reason := if a.Mapped? then a.v4 else a.ip, AddressBlockReason(a, policy);
            var metadata := ip.text in {"169.254.169.254", "fd00:ec2::254", "100.100.100.200"};
            && (metadata ==> reason == Some(MetadataService))
            && (!metadata && policy.allowPrivate ==> reason == None)
            && (!metadata && !policy.allowPrivate ==>
                  && (Loopback in ip.ranges ==> reason == Some(LoopbackAddress))
                  && (Loopback !in ip.ranges && LinkLocal in ip.ranges ==> reason == Some(LinkLocalAddress))
                  && (ip.ranges !! {Loopback, LinkLocal} && Private in ip.ranges ==> reason == Some(PrivateNetwork))
                  && (ip.ranges !! {Loopback, LinkLocal, Private} && ip.ranges != {} ==> reason == Some(NotUnicast)))
  {
    AllowedIff(a, policy);
    var ranges := Normalize(a).ranges;
    assert ranges !! {Loopback, LinkLocal} <==> Loopback !in ranges && LinkLocal !in ranges;
    assert ranges !! {Loopback, LinkLocal, Private} <==> Loopback !in ranges && LinkLocal !in ranges && Private !in ranges;
  }

  // ---- validation ------------------------------------------------------------------------

  /** `urlparse`, as far as it is read; `port` raises on a malformed one. */
  datatype Port = NoPort | Port(n: nat) | BadPort
  datatype Url = Url(scheme: string, netloc: string, host: string, port: Port, rest: string)

  /** One `getaddrinfo` entry: `ip_address` refuses what is not an address. */
  datatype Entry = Usable(address: Address) | Unusable(text: string)

  datatype Answer = Resolved(entries: seq<Entry>) | NoSuchHost

  datatype Verdict = Passed(allowed: seq<string>) | Blocked | Malformed

  function Addresses(entries: seq<Entry>): seq<Address> {
    if entries == [] then []
    else if Last(entries).Usable? then Addresses(Init(entries)) + [Last(entries).address]
    else Addresses(Init(entries))
  }

  function Texts(addresses: seq<Address>): seq<string> {
    if addresses == [] then [] else Texts(Init(addresses)) + [Normalize(Last(addresses)).text]
  }

  predicate IsLocalhost(host: string) {
    Lower(host) == "localhost" || EndsWith(Lower(host), ".localhost")
  }

  /** The policy as a test on addresses. */
  function Admits(policy: Policy): Address -> bool {
    a => Allowed(a, policy)
  }

  predicate All(ok: Address -> bool, addresses: seq<Address>) {
    forall a :: a in addresses ==> ok(a)
  }

  predicate Permitted(u: Url, policy: Policy, answer: Answer) {
    && u.scheme in {"http", "https"} && u.host != "" && Lower(u.host) !in policy.blockedHosts
    && if IsLocalhost(u.host) then policy.allowPrivate
       else answer.Resolved? && Addresses(answer.entries) != [] && All(Admits(policy), Addresses(answer.entries))
  }

  /** What validation of a URL amounts to. */
  function Judge(u: Option<Url>, policy: Policy, answer: Answer): Verdict {
    if u.None? then Malformed
    else if !Permitted(u.value, policy, answer) then Blocked
    else if IsLocalhost(u.value.host) then Passed([])
    else Passed(Texts(Addresses(answer.entries)))
  }

  lemma {:induction false} AddressesConcat(a: seq<Entry>, b: seq<Entry>)
    ensures Addresses(a + b) == Addresses(a) + Addresses(b)
  {
    if b == [] {
      assert a + b == a;
    } else {
      InitConcat(a, b);
      AddressesConcat(a, Init(b));
      if Last(b).Usable? { Assoc(Addresses(a), Addresses(Init(b)), [Last(b).address]); }
    }
  }

  /** The usable entries of an answer, in its order: an entry that is an address comes after those
      before it and before those after it, and one that is none is left out. */
  lemma UsableInOrder(a: seq<Entry>, e: Entry, b: seq<Entry>)
    ensures Addresses(a + [e] + b) == Addresses(a) + (if e.Usable? then [e.address] else []) + Addresses(b)
  {
    AddressesConcat(a + [e], b);
    AddressesConcat(a, [e]);
    assert Init([e]) == [];
  }

  lemma {:induction false} TextsInOrder(addresses: seq<Address>, i: nat)
    requires i < |addresses|
    ensures |Texts(addresses)| == |addresses|
    ensures Texts(addresses)[i] == if addresses[i].Mapped? then addresses[i].v4.text else addresses[i].ip.text
  {
    if i < |addresses| - 1 {
      TextsInOrder(Init(addresses), i);
    } else if i > 0 {
      TextsInOrder(Init(addresses), 0);
    }
  }

  /** A URL passes iff its scheme is HTTP or HTTPS, it has a host that the operator does not
      block, and it is a localhost where private targets are admitted, or resolves to addresses
      that are all allowed; what is handed on is the text of each of them, in order, and nothing
      for a localhost. A URL that does not parse is not blocked but malformed. */
  lemma PassedIff(u: Option<Url>, policy: Policy, answer: Answer)
    ensures Judge(u, policy, answer).Malformed? <==> u.None?
    ensures Judge(u, policy, answer).Passed? <==>
              && u.Some? && (u.value.scheme == "http" || u.value.scheme == "https") && u.value.host != ""
              && Lower(u.value.host) !in policy.blockedHosts
              && if Lower(u.value.host) == "localhost" || EndsWith(Lower(u.value.host), ".localhost") then policy.allowPrivate
                 else answer.Resolved? && Addresses(answer.entries) != []
                      && forall a :: a in Addresses(answer.entries) ==> Allowed(a, policy)
    ensures Judge(u, policy, answer).Passed? ==>
              Judge(u, policy, answer).allowed
              == if Lower(u.value.host) == "localhost" || EndsWith(Lower(u.value.host), ".localhost") then []
                 else Texts(Addresses(answer.entries))
  {
    if u.Some? && answer.Resolved? {
      assert All(Admits(policy), Addresses(answer.entries))
        <==> forall a :: a in Addresses(answer.entries) ==> Allowed(a, policy);
    }
  }

  method ResolveHost(answer: Answer) returns (addresses: Option<seq<Address>>)
    ensures addresses == if answer.Resolved? && Addresses(answer.entries) != [] then Some(Addresses(answer.entries)) else None
  {
    if answer.NoSuchHost? {
      return None;
    }
    var found: seq<Address> := [];
    var i := 0;
    while i < |answer.entries|
      invariant 0 <= i <= |answer.entries|
      invariant found == Addresses(answer.entries[..i])
    {
      assert Init(answer.entries[..i + 1]) == answer.entries[..i];
      if answer.entries[i].Usable? {
        found := found + [answer.entries[i].address];
      }
      i := i + 1;
    }
    assert answer.entries[..i] == answer.entries;
    addresses := if found == [] then None else Some(found);
  }

  method ResolveAndValidate(u: Option<Url>, policy: Policy, answer: Answer) returns (verdict: Verdict)
    ensures verdict == Judge(u, policy, answer)
  {
    if u.None? {
      return Malformed;
    }
    var parsed := u.value;
    if parsed.scheme !in {"http", "https"} || parsed.host == "" {
      return Blocked;
    }
    var host := Lower(parsed.host);
    if host in policy.blockedHosts {
      return Blocked;
    }
    if host == "localhost" || EndsWith(host, ".localhost") {
      return if policy.allowPrivate then Passed([]) else Blocked;
    }
    var addresses := ResolveHost(answer);
    if addresses.None? {
      return Blocked;
    }
    var allowed := CheckAddresses(addresses.value, policy);
    verdict := if allowed.None? then Blocked else Passed(allowed.value);
  }

  /** The loop over the resolved addresses; None where it raises. */
  method CheckAddresses(ips: seq<Address>, policy: Policy) returns (allowed: Option<seq<string>>)
    ensures allowed == if All(Admits(policy), ips) then Some(Texts(ips)) else None
  {
    var texts: seq<string> := [];
    var i := 0;
    while i < |ips|
      invariant 0 <= i <= |ips|
      invariant texts == Texts(ips[..i])
      invariant All(Admits(policy), ips[..i])
    {
      if AddressBlockReason(ips[i], policy).Some? {
        assert ips[i] in ips && !Admits(policy)(ips[i]);
        return None;
      }
      assert Init(ips[..i + 1]) == ips[..i];
      texts := texts + [Normalize(ips[i]).text];
      i := i + 1;
    }
    assert ips[..i] == ips;
    allowed := Some(texts);
  }

  // ---- the resolver guard ----------------------------------------------------------------

  predicate Keeps(ok: Address -> bool, e: Entry) {
    e.Unusable? || ok(e.address)
  }

  function Kept(ok: Address -> bool, entries: seq<Entry>): seq<Entry> {
    if entries == [] then []
    else Kept(ok, Init(entries)) + if Keeps(ok, Last(entries)) then [Last(entries)] else []
  }

  /** `guarded_getaddrinfo`: None where it raises. */
  method GuardedGetaddrinfo(answer: Answer, policy: Policy) returns (r: Option<seq<Entry>>)
    ensures r == if answer.NoSuchHost? || Kept(Admits(policy), answer.entries) == [] then None
                 else Some(Kept(Admits(policy), answer.entries))
  {
    if answer.NoSuchHost? {
      return None;
    }
    var results := answer.entries;
    var allowed: seq<Entry> := [];
    var i := 0;
    while i < |results|
      invariant 0 <= i <= |results|
      invariant allowed == Kept(Admits(policy), results[..i])
    {
      assert Init(results[..i + 1]) == results[..i];
      if results[i].Unusable? {
        allowed := allowed + [results[i]];
      } else if AddressBlockReason(results[i].address, policy).None? {
        allowed := allowed + [results[i]];
      }
      i := i + 1;
    }
    assert results[..i] == results;
    r := if allowed == [] then None else Some(allowed);
  }

  /** The guard hands on exactly the allowed addresses, and what is no address. */
  lemma {:induction false} GuardKeepsTheAllowed(ok: Address -> bool, entries: seq<Entry>, e: Entry)
    ensures e in Kept(ok, entries) <==> e in entries && Keeps(ok, e)
  {
    if entries != [] {
      GuardKeepsTheAllowed(ok, Init(entries), e);
      assert entries == Init(entries) + [Last(entries)];
    }
  }

  lemma {:induction false} KeptConcat(ok: Address -> bool, a: seq<Entry>, b: seq<Entry>)
    ensures Kept(ok, a + b) == Kept(ok, a) + Kept(ok, b)
  {
    if b == [] {
      assert a + b == a;
    } else {
      InitConcat(a, b);
      KeptConcat(ok, a, Init(b));
      Assoc(Kept(ok, a), Kept(ok, Init(b)), if Keeps(ok, Last(b)) then [Last(b)] else []);
    }
  }

  /** It neither reorders nor repeats: each entry is handed on, or not, in its own place. */
  lemma GuardKeepsOrder(policy: Policy, a: seq<Entry>, e: Entry, b: seq<Entry>)
    ensures Kept(Admits(policy), a + [e] + b)
         == Kept(Admits(policy), a) + (if e.Unusable? || Allowed(e.address, policy) then [e] else []) + Kept(Admits(policy), b)
  {
    KeptConcat(Admits(policy), a + [e], b);
    KeptConcat(Admits(policy), a, [e]);
    assert Init([e]) == [];
  }

  lemma {:induction false} KeptIsAll(ok: Address -> bool, entries: seq<Entry>)
    ensures |Kept(ok, entries)| <= |entries|
    ensures Kept(ok, entries) == entries <==> All(ok, Addresses(entries))
  {
    if entries != [] {
      var init := Init(entries);
      KeptIsAll(ok, init);
      assert entries == init + [Last(entries)];
      if Keeps(ok, Last(entries)) {
        assert Init(Kept(ok, init) + [Last(entries)]) == Kept(ok, init);
      } else {
        assert Last(entries).address in Addresses(entries);
      }
    }
  }

  /** Validation before a connection and the guard during it agree: for an ordinary host,
      validation passes iff there is an address and the guard drops none. */
  lemma GuardAgreesWithValidation(u: Url, policy: Policy, entries: seq<Entry>)
    requires u.scheme in {"http", "https"} && u.host != "" && !IsLocalhost(u.host)
    requires Lower(u.host) !in policy.blockedHosts
    ensures Judge(Some(u), policy, Resolved(entries)).Passed? <==>
            Kept(Admits(policy), entries) == entries && Addresses(entries) != []
  {
    KeptIsAll(Admits(policy), entries);
  }
}
