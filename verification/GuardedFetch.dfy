/** The fetch that follows redirects by hand, validating every hop and pinning plain HTTP to
    the validated address. */
module GuardedFetch {
  import opened Options
  import opened Sequences
  import opened TargetPolicy
  import opened Text

  type Bytes = seq<bv8>

  /** What is asked of the HTTP client: the URL as it stands, or one whose authority is an
      address, with the original authority as its Host header. */
  datatype Dial = ByName(raw: string) | Pinned(url: Url, hostHeader: string)

  /** `ok` is false where `raise_for_status` raises; `broken` when the body ends in an error. */
  datatype Response =
    | Unreachable
    | Redirect(location: Option<string>)
    | Answered(ok: bool, chunks: seq<Bytes>, broken: bool)

  /** The outside: URL parsing and joining (None where they raise), and DNS and the servers,
      which may answer differently on every hop. */
  datatype World = World(
    parse: string -> Option<Url>,
    join: (string, string) -> Option<string>,
    resolve: (nat, string) -> Answer,
    serve: (nat, Dial) -> Response)

  datatype Outcome = Body(bytes: Bytes) | BlockedTarget | TooLarge | BadUrl | HttpError | TransportError

  datatype Event = Validated(url: string, allowed: seq<string>) | Connected(url: string, dial: Dial)

  datatype Step = Next(url: string) | Stop(outcome: Outcome)

  // ---- the pinned authority ----------------------------------------------------------------

  function Digits(n: nat): string {
    (if n < 10 then [] else Digits(n / 10)) + ['0' + (n % 10) as char]
  }

  function Netloc(ip: string, port: Port): string {
    var host := if ':' in ip then "[" + ip + "]" else ip;
    if port.Port? && port.n != 0 then host + ":" + Digits(port.n) else host
  }

  /** Host and port of an authority without user information: a bracketed address or everything
      up to a colon, and what follows that colon (section 3.2 of RFC 3986). */
  function HostInfo(netloc: string): (string, string) {
    if netloc != [] && netloc[0] == '[' then
      var host := Before(netloc[1..], ']');
      (host, AfterFirst(netloc[1 + |host|..], ':'))
    else (Before(netloc, ':'), AfterFirst(netloc, ':'))
  }

  function AfterFirst(s: string, c: char): string {
    if c in s then s[|Before(s, c)| + 1..] else []
  }

  /** The number a text of decimal digits stands for. */
  function Value(digits: string): nat
    requires AreDigits(digits)
  {
    if digits == [] then 0 else 10 * Value(Init(digits)) + (Last(digits) as int - '0' as int)
  }

  predicate AreDigits(s: string) {
    forall c :: c in s ==> '0' <= c <= '9'
  }

  lemma {:induction false} DigitsDenote(n: nat)
    ensures AreDigits(Digits(n)) && Value(Digits(n)) == n
    ensures n > 0 ==> Digits(n)[0] != '0'
  {
    var tens, digit := n / 10, n % 10;
    var head := if n < 10 then [] else Digits(tens);
    assert n == 10 * tens + digit && Digits(n) == head + ['0' + digit as char];
    if n >= 10 {
      DigitsDenote(tens);
    }
    DigitAfter(head, digit);
  }

  lemma DigitAfter(head: string, digit: nat)
    requires AreDigits(head) && digit < 10
    ensures var all := head + ['0' + digit as char];
            AreDigits(all) && Value(all) == 10 * Value(head) + digit && (head != [] ==> all[0] == head[0])
  {
    var last := '0' + digit as char;
    assert Init(head + [last]) == head && Last(head + [last]) == last;
    assert last as int == '0' as int + digit;
  }

  /** Reading the pinned authority back gives the validated address and the URL's own port, for
      IPv4 and IPv6 texts alike: the port is a decimal number without a leading zero, and there is
      none where the URL has none. */
  lemma PinnedAuthorityIsTheAddress(ip: string, port: Port)
    requires ip != "" && '[' !in ip && ']' !in ip
    ensures var (host, digits) := HostInfo(Netloc(ip, port));
            && host == ip && AreDigits(digits)
            && Value(digits) == (if port.Port? then port.n else 0)
            && (digits != "" <==> port.Port? && port.n != 0) && (digits != "" ==> digits[0] != '0')
  {
    var digits := if port.Port? && port.n != 0 then Some(Digits(port.n)) else None;
    if ':' in ip {
      assert Netloc(ip, port) == "[" + ip + ("]" + Suffix(digits));
      BracketedAuthority(ip, digits);
    } else {
      assert Netloc(ip, port) == ip + Suffix(digits);
      BareAuthority(ip, digits);
    }
    if digits.Some? {
      DigitsDenote(port.n);
    }
  }

  function Suffix(digits: Option<string>): string {
    if digits.Some? then ":" + digits.value else []
  }

  lemma BracketedAuthority(ip: string, digits: Option<string>)
    requires ']' !in ip
    ensures HostInfo("[" + ip + ("]" + Suffix(digits))) == (ip, digits.GetOr(""))
  {
    var suffix := "]" + Suffix(digits);
    var netloc := "[" + ip + suffix;
    assert netloc[1..] == ip + suffix;
    BeforeIs(ip, ']', suffix);
    assert netloc[1 + |ip|..] == suffix;
    PortAfter("]", digits);
  }

  lemma BareAuthority(ip: string, digits: Option<string>)
    requires ip != "" && '[' !in ip && ':' !in ip
    ensures HostInfo(ip + Suffix(digits)) == (ip, digits.GetOr(""))
  {
    BeforeIs(ip, ':', Suffix(digits));
    assert (ip + Suffix(digits))[0] == ip[0] && ip[0] in ip;
    PortAfter(ip, digits);
  }

  lemma PortAfter(head: string, digits: Option<string>)
    requires ':' !in head
    ensures AfterFirst(head + Suffix(digits), ':') == digits.GetOr("")
  {
    var s := head + Suffix(digits);
    BeforeIs(head, ':', Suffix(digits));
    if digits.Some? {
      assert s[|head|] == ':' && s[|head| + 1..] == digits.value;
    }
  }

  // ---- one hop -----------------------------------------------------------------------------

  /** None where reading the port raises. */
  function Plan(raw: string, u: Url, allowed: seq<string>): Option<Dial> {
    if allowed != [] && u.scheme == "http" then
      if u.port.BadPort? then None
      else Some(Pinned(u.(netloc := Netloc(allowed[0], u.port)), u.netloc))
    else Some(ByName(raw))
  }

  function Flatten(chunks: seq<Bytes>): Bytes {
    if chunks == [] then [] else Flatten(Init(chunks)) + Last(chunks)
  }

  function Received(chunks: seq<Bytes>, broken: bool, maxBytes: int): Outcome {
    if chunks != [] && |Flatten(chunks)| > maxBytes then TooLarge
    else if broken then TransportError
    else Body(Flatten(chunks))
  }

  function After(w: World, url: string, response: Response, maxBytes: int): Step {
    match response
    case Unreachable => Stop(TransportError)
    case Redirect(location) =>
      if location.None? || location.value == "" then Stop(BlockedTarget)
      else
        var next := w.join(url, location.value);
        if next.None? then Stop(BadUrl) else Next(next.value)
    case Answered(ok, chunks, broken) =>
      if !ok then Stop(HttpError) else Stop(Received(chunks, broken, maxBytes))
  }

  function VerdictOf(w: World, policy: Policy, hop: nat, url: string): Verdict {
    Judge(w.parse(url), policy, w.resolve(hop, url))
  }

  function Hop(w: World, policy: Policy, hop: nat, url: string, maxBytes: int): (seq<Event>, Step) {
    var verdict := VerdictOf(w, policy, hop, url);
    if verdict.Blocked? then ([], Stop(BlockedTarget))
    else if verdict.Malformed? then ([], Stop(BadUrl))
    else
      var dial := Plan(url, w.parse(url).value, verdict.allowed);
      if dial.None? then ([Validated(url, verdict.allowed)], Stop(BadUrl))
      else
        ([Validated(url, verdict.allowed), Connected(url, dial.value)],
         After(w, url, w.serve(hop, dial.value), maxBytes))
  }

  /** The whole fetch, from hop i on. */
  function Follow(w: World, policy: Policy, url: string, i: nat, hops: int, maxBytes: int): (seq<Event>, Outcome)
    decreases hops - i
  {
    if i >= hops then ([], BlockedTarget)
    else
      var (events, step) := Hop(w, policy, i, url, maxBytes);
      if step.Stop? then (events, step.outcome)
      else
        var (more, outcome) := Follow(w, policy, step.url, i + 1, hops, maxBytes);
        (events + more, outcome)
  }

  // ---- the code ----------------------------------------------------------------------------

  method ReadBody(chunks: seq<Bytes>, broken: bool, maxBytes: int) returns (outcome: Outcome)
    ensures outcome == Received(chunks, broken, maxBytes)
  {
    var read := 0;
    var body: Bytes := [];
    var i := 0;
    while i < |chunks|
      invariant 0 <= i <= |chunks|
      invariant body == Flatten(chunks[..i]) && read == |body|
      invariant i > 0 ==> read <= maxBytes
    {
      assert Init(chunks[..i + 1]) == chunks[..i];
      body := body + chunks[i];
      read := read + |chunks[i]|;
      i := i + 1;
      if read > maxBytes {
        FlattenGrows(chunks, i);
        return TooLarge;
      }
    }
    assert chunks[..i] == chunks;
    outcome := if broken then TransportError else Body(body);
  }

  lemma {:induction false} FlattenGrows(chunks: seq<Bytes>, n: nat)
    requires n <= |chunks|
    ensures |Flatten(chunks[..n])| <= |Flatten(chunks)|
  {
    if n == |chunks| {
      assert chunks[..n] == chunks;
    } else {
      FlattenGrows(Init(chunks), n);
      assert Init(chunks)[..n] == chunks[..n];
    }
  }

  /** The body of the redirect loop: validate, pin, request, and look at the answer. */
  method FetchHop(w: World, policy: Policy, i: nat, current: string, maxBytes: int)
    returns (events: seq<Event>, step: Step)
    ensures (events, step) == Hop(w, policy, i, current, maxBytes)
  {
    var parsed := w.parse(current);
    var verdict := ResolveAndValidate(parsed, policy, w.resolve(i, current));
    if verdict.Blocked? {
      return [], Stop(BlockedTarget);
    }
    if verdict.Malformed? {
      return [], Stop(BadUrl);
    }
    events := [Validated(current, verdict.allowed)];
    var dial := ByName(current);
    if verdict.allowed != [] && parsed.value.scheme == "http" {
      if parsed.value.port.BadPort? {
        return events, Stop(BadUrl);
      }
      dial := Pinned(parsed.value.(netloc := Netloc(verdict.allowed[0], parsed.value.port)), parsed.value.netloc);
    }
    events := events + [Connected(current, dial)];
    assert events == [Validated(current, verdict.allowed), Connected(current, dial)];
    step := ReadAnswer(w, current, w.serve(i, dial), maxBytes);
  }

  method ReadAnswer(w: World, current: string, response: Response, maxBytes: int) returns (step: Step)
    ensures step == After(w, current, response, maxBytes)
  {
    match response {
      case Unreachable =>
        step := Stop(TransportError);
      case Redirect(location) =>
        if location.None? || location.value == "" {
          return Stop(BlockedTarget);
        }
        var next := w.join(current, location.value);
        step := if next.None? then Stop(BadUrl) else Next(next.value);
      case Answered(ok, chunks, broken) =>
        if !ok {
          return Stop(HttpError);
        }
        var outcome := ReadBody(chunks, broken, maxBytes);
        step := Stop(outcome);
    }
  }

  method GuardedFetch(w: World, policy: Policy, url: string, maxBytes: int, maxRedirects: int)
    returns (trace: seq<Event>, outcome: Outcome)
    ensures (trace, outcome) == Follow(w, policy, url, 0, maxRedirects + 1, maxBytes)
  {
    trace := [];
    var current := url;
    var i := 0;
    ghost var whole := Follow(w, policy, url, 0, maxRedirects + 1, maxBytes);
    assert [] + whole.0 == whole.0;
    while i < maxRedirects + 1
      invariant 0 <= i
      invariant trace + Follow(w, policy, current, i, maxRedirects + 1, maxBytes).0 == whole.0
      invariant Follow(w, policy, current, i, maxRedirects + 1, maxBytes).1 == whole.1
    {
      var events, step := FetchHop(w, policy, i, current, maxBytes);
      if step.Stop? {
        return trace + events, step.outcome;
      }
      Assoc(trace, events, Follow(w, policy, step.url, i + 1, maxRedirects + 1, maxBytes).0);
      trace := trace + events;
      current := step.url;
      i := i + 1;
    }
    assert trace + [] == trace;
    outcome := BlockedTarget;
  }

  // ---- safety ------------------------------------------------------------------------------

  ghost predicate IsAllowedText(policy: Policy, text: string) {
    exists a :: Allowed(a, policy) && Normalize(a).text == text
  }

  /** c opens a connection that v vouches for: the same URL was validated immediately before,
      plain HTTP goes to the first validated address under the original Host, and only HTTPS
      or a lab-mode localhost goes by name. */
  ghost predicate Vouches(w: World, policy: Policy, v: Event, c: Event) {
    && v.Validated? && c.Connected? && v.url == c.url && w.parse(c.url).Some?
    && (forall t :: t in v.allowed ==> IsAllowedText(policy, t))
    && var u := w.parse(c.url).value;
       && u.scheme in {"http", "https"} && Lower(u.host) !in policy.blockedHosts
       && (v.allowed == [] ==> IsLocalhost(u.host) && policy.allowPrivate)
       && if c.dial.Pinned? then u.scheme == "http" && v.allowed != []
             && c.dial.url == u.(netloc := Netloc(v.allowed[0], u.port)) && c.dial.hostHeader == u.netloc
          else c.dial.raw == c.url && (u.scheme == "https" || v.allowed == [])
  }

  ghost predicate Safe(w: World, policy: Policy, trace: seq<Event>) {
    forall k :: 0 <= k < |trace| && trace[k].Connected? ==> k > 0 && Vouches(w, policy, trace[k - 1], trace[k])
  }

  function Connections(trace: seq<Event>): nat {
    if trace == [] then 0 else Connections(Init(trace)) + if Last(trace).Connected? then 1 else 0
  }

  lemma {:induction false} TextsAreAllowed(policy: Policy, addresses: seq<Address>)
    requires All(Admits(policy), addresses)
    ensures forall t :: t in Texts(addresses) ==> IsAllowedText(policy, t)
  {
    if addresses != [] {
      TextsAreAllowed(policy, Init(addresses));
      assert Admits(policy)(Last(addresses));
      assert IsAllowedText(policy, Normalize(Last(addresses)).text);
    }
  }

  /** So no policy, not even lab mode, lets a pinned connection go to a metadata endpoint. */
  lemma NeverPinnedToMetadata(w: World, policy: Policy, v: Event, c: Event)
    requires Vouches(w, policy, v, c) && c.dial.Pinned?
    requires '[' !in v.allowed[0] && ']' !in v.allowed[0] && v.allowed[0] != ""
    ensures HostInfo(c.dial.url.netloc).0 == v.allowed[0] && v.allowed[0] !in {"169.254.169.254", "fd00:ec2::254", "100.100.100.200"}
  {
    assert IsAllowedText(policy, v.allowed[0]);
    var a :| Allowed(a, policy) && Normalize(a).text == v.allowed[0];
    AllowedIff(a, policy);
    PinnedAuthorityIsTheAddress(v.allowed[0], w.parse(c.url).value.port);
  }

  lemma {:induction false} TextsEmptyIff(addresses: seq<Address>)
    ensures Texts(addresses) == [] <==> addresses == []
  {
  }

  lemma HopIsSafe(w: World, policy: Policy, hop: nat, url: string, maxBytes: int)
    ensures Safe(w, policy, Hop(w, policy, hop, url, maxBytes).0)
    ensures Connections(Hop(w, policy, hop, url, maxBytes).0) <= 1
  {
    var verdict := VerdictOf(w, policy, hop, url);
    var events := Hop(w, policy, hop, url, maxBytes).0;
    if verdict.Passed? {
      var answer := w.resolve(hop, url);
      if !IsLocalhost(w.parse(url).value.host) {
        TextsAreAllowed(policy, Addresses(answer.entries));
        TextsEmptyIff(Addresses(answer.entries));
      }
      OneConnection(events);
    }
  }

  lemma OneConnection(events: seq<Event>)
    requires 1 <= |events| <= 2 && events[0].Validated?
    ensures Connections(events) <= 1
  {
    if |events| == 2 {
      assert Init(events) == [events[0]];
    }
    assert Init([events[0]]) == [] && Connections([events[0]]) == 0;
    assert |events| == 1 ==> events == [events[0]];
  }

  lemma {:induction false} ConnectionsConcat(a: seq<Event>, b: seq<Event>)
    ensures Connections(a + b) == Connections(a) + Connections(b)
  {
    if b == [] {
      assert a + b == a;
    } else {
      assert Init(a + b) == a + Init(b);
      ConnectionsConcat(a, Init(b));
    }
  }

  lemma SafeConcat(w: World, policy: Policy, a: seq<Event>, b: seq<Event>)
    requires Safe(w, policy, a) && Safe(w, policy, b)
    ensures Safe(w, policy, a + b)
  {
    forall k | 0 <= k < |a + b| && (a + b)[k].Connected?
      ensures k > 0 && Vouches(w, policy, (a + b)[k - 1], (a + b)[k])
    {
      if k >= |a| {
        assert b[k - |a|].Connected?;
      }
    }
  }

  /** For every behaviour of DNS and of the servers, each connection is vouched for and there
      are at most as many as there are hops left. */
  lemma {:induction false} FetchIsSafe(w: World, policy: Policy, url: string, i: nat, hops: int, maxBytes: int)
    ensures Safe(w, policy, Follow(w, policy, url, i, hops, maxBytes).0)
    ensures Connections(Follow(w, policy, url, i, hops, maxBytes).0) <= (if i < hops then hops - i else 0)
    decreases hops - i
  {
    if i < hops {
      HopIsSafe(w, policy, i, url, maxBytes);
      var (events, step) := Hop(w, policy, i, url, maxBytes);
      if step.Next? {
        FetchIsSafe(w, policy, step.url, i + 1, hops, maxBytes);
        var more := Follow(w, policy, step.url, i + 1, hops, maxBytes).0;
        SafeConcat(w, policy, events, more);
        ConnectionsConcat(events, more);
      }
    }
  }

  /** And a body is within the limit. */
  lemma {:induction false} BodyIsBounded(w: World, policy: Policy, url: string, i: nat, hops: int, maxBytes: nat)
    requires Follow(w, policy, url, i, hops, maxBytes).1.Body?
    ensures |Follow(w, policy, url, i, hops, maxBytes).1.bytes| <= maxBytes
    decreases hops - i
  {
    var step := Hop(w, policy, i, url, maxBytes).1;
    if step.Next? {
      BodyIsBounded(w, policy, step.url, i + 1, hops, maxBytes);
    }
  }

  // ---- what is fetched ---------------------------------------------------------------------

  lemma {:induction false} FlattenConcat(a: seq<Bytes>, b: seq<Bytes>)
    ensures Flatten(a + b) == Flatten(a) + Flatten(b)
  {
    if b == [] {
      assert a + b == a;
    } else {
      InitConcat(a, b);
      FlattenConcat(a, Init(b));
      Assoc(Flatten(a), Flatten(Init(b)), Last(b));
    }
  }

  /** The bytes of a response are those of its chunks, each after the ones before it. */
  lemma ChunksInOrder(a: seq<Bytes>, chunk: Bytes, b: seq<Bytes>)
    ensures Flatten(a + [chunk] + b) == Flatten(a) + chunk + Flatten(b)
  {
    FlattenConcat(a + [chunk], b);
    FlattenConcat(a, [chunk]);
    assert Init([chunk]) == [] && [] + chunk == chunk;
  }

  /** The policy admits the URL on this hop: what `PassedIff` says validation comes to. */
  ghost predicate Admitted(w: World, policy: Policy, i: nat, url: string) {
    && w.parse(url).Some?
    && var u, answer := w.parse(url).value, w.resolve(i, url);
       && (u.scheme == "http" || u.scheme == "https") && u.host != "" && Lower(u.host) !in policy.blockedHosts
       && if IsLocalhost(u.host) then policy.allowPrivate
          else answer.Resolved? && Addresses(answer.entries) != []
               && forall a :: a in Addresses(answer.entries) ==> Allowed(a, policy)
  }

  /** Plain HTTP to anything but a localhost is pinned. */
  ghost predicate ToBePinned(w: World, url: string) {
    w.parse(url).Some? && w.parse(url).value.scheme == "http" && !IsLocalhost(w.parse(url).value.host)
  }

  /** An admitted URL is requested, as it stands or pinned to the first address it resolved to,
      under its own Host. */
  ghost predicate Requests(w: World, policy: Policy, i: nat, url: string, dial: Dial) {
    && Admitted(w, policy, i, url)
    && if ToBePinned(w, url) then
         var u, first := w.parse(url).value, Addresses(w.resolve(i, url).entries)[0];
         && !u.port.BadPort?
         && dial == Pinned(u.(netloc := Netloc(if first.Mapped? then first.v4.text else first.ip.text, u.port)), u.netloc)
       else dial == ByName(url)
  }

  /** The server's answer sends the fetch on to `next`. */
  ghost predicate SendsOn(w: World, url: string, answer: Response, next: string) {
    answer.Redirect? && answer.location.GetOr("") != "" && w.join(url, answer.location.value) == Some(next)
  }

  /** The server's answer ends the fetch. */
  ghost predicate EndsIt(w: World, url: string, answer: Response, maxBytes: int, outcome: Outcome) {
    match outcome
    case BlockedTarget => answer.Redirect? && answer.location.GetOr("") == ""
    case BadUrl => answer.Redirect? && answer.location.GetOr("") != "" && w.join(url, answer.location.value).None?
    case HttpError => answer.Answered? && !answer.ok
    case TooLarge => answer.Answered? && answer.ok && answer.chunks != [] && |Flatten(answer.chunks)| > maxBytes
    case TransportError =>
      || answer.Unreachable?
      || (answer.Answered? && answer.ok && answer.broken && (answer.chunks == [] || |Flatten(answer.chunks)| <= maxBytes))
    case Body(bytes) =>
      && answer.Answered? && answer.ok && !answer.broken && bytes == Flatten(answer.chunks)
      && (answer.chunks == [] || |bytes| <= maxBytes)
  }

  /** Hop i of the fetch leads from one URL to the next. */
  ghost predicate Redirects(w: World, policy: Policy, i: nat, url: string, next: string) {
    exists dial :: Requests(w, policy, i, url, dial) && SendsOn(w, url, w.serve(i, dial), next)
  }

  /** Hop i ends the fetch: without a request if the URL does not parse, is not admitted, or is to
      be pinned and has a malformed port, and otherwise by what the server answers. */
  ghost predicate Stops(w: World, policy: Policy, i: nat, url: string, maxBytes: int, outcome: Outcome) {
    || (w.parse(url).None? && outcome == BadUrl)
    || (w.parse(url).Some? && !Admitted(w, policy, i, url) && outcome == BlockedTarget)
    || (Admitted(w, policy, i, url) && ToBePinned(w, url) && w.parse(url).value.port.BadPort? && outcome == BadUrl)
    || exists dial :: Requests(w, policy, i, url, dial) && EndsIt(w, url, w.serve(i, dial), maxBytes, outcome)
  }

  lemma AdmittedIff(w: World, policy: Policy, i: nat, url: string)
    ensures VerdictOf(w, policy, i, url).Passed? <==> Admitted(w, policy, i, url)
    ensures VerdictOf(w, policy, i, url).Malformed? <==> w.parse(url).None?
    ensures Admitted(w, policy, i, url) && ToBePinned(w, url) ==>
              var first := Addresses(w.resolve(i, url).entries)[0];
              VerdictOf(w, policy, i, url).allowed != []
              && VerdictOf(w, policy, i, url).allowed[0] == if first.Mapped? then first.v4.text else first.ip.text
    ensures Admitted(w, policy, i, url) && IsLocalhost(w.parse(url).value.host) ==> VerdictOf(w, policy, i, url).allowed == []
  {
    PassedIff(w.parse(url), policy, w.resolve(i, url));
    if Admitted(w, policy, i, url) && ToBePinned(w, url) {
      TextsInOrder(Addresses(w.resolve(i, url).entries), 0);
    }
  }

  lemma PlanIsRequest(w: World, policy: Policy, i: nat, url: string, dial: Dial)
    requires Admitted(w, policy, i, url)
    ensures Plan(url, w.parse(url).value, VerdictOf(w, policy, i, url).allowed) == Some(dial)
       <==> Requests(w, policy, i, url, dial)
  {
    AdmittedIff(w, policy, i, url);
  }

  lemma AnswerMeans(w: World, url: string, answer: Response, maxBytes: int, next: string, outcome: Outcome)
    ensures After(w, url, answer, maxBytes) == Next(next) <==> SendsOn(w, url, answer, next)
    ensures After(w, url, answer, maxBytes) == Stop(outcome) <==> EndsIt(w, url, answer, maxBytes, outcome)
  {
  }

  /** What one pass of the loop comes to, for every world. */
  lemma HopMeans(w: World, policy: Policy, i: nat, url: string, maxBytes: int, next: string, outcome: Outcome)
    ensures Hop(w, policy, i, url, maxBytes).1 == Next(next) <==> Redirects(w, policy, i, url, next)
    ensures Hop(w, policy, i, url, maxBytes).1 == Stop(outcome) <==> Stops(w, policy, i, url, maxBytes, outcome)
  {
    AdmittedIff(w, policy, i, url);
    if Admitted(w, policy, i, url) {
      var plan := Plan(url, w.parse(url).value, VerdictOf(w, policy, i, url).allowed);
      forall dial ensures plan == Some(dial) <==> Requests(w, policy, i, url, dial) {
        PlanIsRequest(w, policy, i, url, dial);
      }
      if plan.Some? {
        AnswerMeans(w, url, w.serve(i, plan.value), maxBytes, next, outcome);
      }
    }
  }

  /** Each URL redirects to the next. */
  ghost predicate Leads(w: World, policy: Policy, urls: seq<string>, i: nat) {
    forall k :: 0 <= k < |urls| - 1 ==> Redirects(w, policy, i + k, urls[k], urls[k + 1])
  }

  ghost predicate Ends(w: World, policy: Policy, urls: seq<string>, i: nat, maxBytes: int, outcome: Outcome) {
    && urls != [] && Leads(w, policy, urls, i)
    && Stops(w, policy, i + |urls| - 1, Last(urls), maxBytes, outcome)
  }

  /** The outcome is the one the redirect chain ends in if that chain is short enough, and
      otherwise the fetch is blocked. */
  lemma {:induction false} OutcomeOfChain(w: World, policy: Policy, urls: seq<string>,
                                          i: nat, hops: int, maxBytes: int, outcome: Outcome)
    requires Ends(w, policy, urls, i, maxBytes, outcome)
    ensures Follow(w, policy, urls[0], i, hops, maxBytes).1 == if i + |urls| <= hops then outcome else BlockedTarget
    decreases |urls|
  {
    if |urls| == 1 {
      HopMeans(w, policy, i, urls[0], maxBytes, "", outcome);
    } else if i < hops {
      assert Redirects(w, policy, i + 0, urls[0], urls[1]);
      HopMeans(w, policy, i, urls[0], maxBytes, urls[1], outcome);
      LaterEnds(w, policy, urls, i, maxBytes, outcome);
      OutcomeOfChain(w, policy, urls[1..], i + 1, hops, maxBytes, outcome);
    }
  }

  lemma LaterEnds(w: World, policy: Policy, urls: seq<string>, i: nat, maxBytes: int, outcome: Outcome)
    requires Ends(w, policy, urls, i, maxBytes, outcome) && |urls| > 1
    ensures Ends(w, policy, urls[1..], i + 1, maxBytes, outcome)
  {
    LaterLeads(w, policy, urls, i);
    assert i + 1 + |urls[1..]| - 1 == i + |urls| - 1;
  }

  lemma LaterLeads(w: World, policy: Policy, urls: seq<string>, i: nat)
    requires Leads(w, policy, urls, i) && urls != []
    ensures Leads(w, policy, urls[1..], i + 1)
  {
    var rest := urls[1..];
    forall k | 0 <= k < |rest| - 1 ensures Redirects(w, policy, i + 1 + k, rest[k], rest[k + 1]) {
      assert Redirects(w, policy, i + (k + 1), urls[k + 1], urls[k + 2]);
    }
  }

  /** Every fetch that is let go on to its end has such a chain. */
  lemma {:induction false} OutcomeHasChain(w: World, policy: Policy, url: string, i: nat, hops: int, maxBytes: int)
    returns (urls: seq<string>)
    requires Follow(w, policy, url, i, hops, maxBytes).1 != BlockedTarget
    ensures Ends(w, policy, urls, i, maxBytes, Follow(w, policy, url, i, hops, maxBytes).1)
    ensures urls[0] == url && i + |urls| <= hops
    decreases hops - i
  {
    var step := Hop(w, policy, i, url, maxBytes).1;
    if step.Stop? {
      urls := [url];
      HopMeans(w, policy, i, url, maxBytes, "", step.outcome);
    } else {
      var rest := OutcomeHasChain(w, policy, step.url, i + 1, hops, maxBytes);
      urls := [url] + rest;
      HopMeans(w, policy, i, url, maxBytes, step.url, BlockedTarget);
      EndsOn(w, policy, url, rest, i, maxBytes, Follow(w, policy, step.url, i + 1, hops, maxBytes).1);
    }
  }

  lemma EndsOn(w: World, policy: Policy, url: string, rest: seq<string>, i: nat, maxBytes: int, outcome: Outcome)
    requires Ends(w, policy, rest, i + 1, maxBytes, outcome)
    requires Redirects(w, policy, i, url, rest[0])
    ensures Ends(w, policy, [url] + rest, i, maxBytes, outcome)
  {
    LeadsOn(w, policy, url, rest, i);
    var urls := [url] + rest;
    assert i + |urls| - 1 == i + 1 + |rest| - 1;
  }

  lemma LeadsOn(w: World, policy: Policy, url: string, rest: seq<string>, i: nat)
    requires rest != [] && Leads(w, policy, rest, i + 1)
    requires Redirects(w, policy, i, url, rest[0])
    ensures Leads(w, policy, [url] + rest, i) && Last([url] + rest) == Last(rest)
  {
    var urls := [url] + rest;
    forall k | 0 <= k < |urls| - 1 ensures Redirects(w, policy, i + k, urls[k], urls[k + 1]) {
      if k > 0 {
        assert Redirects(w, policy, i + 1 + (k - 1), rest[k - 1], rest[k]);
      }
    }
  }

  /** For every outcome but a refusal: the fetch comes to it iff some chain of at most
      maxRedirects redirects, every hop of it admitted, ends in it. */
  lemma FetchComesToIff(w: World, policy: Policy, url: string, maxRedirects: int, maxBytes: int, outcome: Outcome)
    requires outcome != BlockedTarget
    ensures Follow(w, policy, url, 0, maxRedirects + 1, maxBytes).1 == outcome <==>
            exists urls :: Ends(w, policy, urls, 0, maxBytes, outcome) && urls[0] == url && |urls| <= maxRedirects + 1
  {
    if Follow(w, policy, url, 0, maxRedirects + 1, maxBytes).1 == outcome {
      var urls := OutcomeHasChain(w, policy, url, 0, maxRedirects + 1, maxBytes);
      assert Ends(w, policy, urls, 0, maxBytes, outcome);
    }
    forall urls | Ends(w, policy, urls, 0, maxBytes, outcome) && urls[0] == url && |urls| <= maxRedirects + 1
      ensures Follow(w, policy, url, 0, maxRedirects + 1, maxBytes).1 == outcome
    {
      OutcomeOfChain(w, policy, urls, 0, maxRedirects + 1, maxBytes, outcome);
    }
  }

  lemma HopIsTraced(w: World, policy: Policy, i: nat, url: string, maxBytes: int, dial: Dial)
    ensures Connected(url, dial) in Hop(w, policy, i, url, maxBytes).0 <==> Requests(w, policy, i, url, dial)
  {
    AdmittedIff(w, policy, i, url);
    if Admitted(w, policy, i, url) {
      PlanIsRequest(w, policy, i, url, dial);
    }
  }

  /** The trace of a hop is in the trace of the fetch, and so is that of the hops after it. */
  lemma TraceHas(w: World, policy: Policy, url: string, i: nat, hops: int, maxBytes: int, e: Event)
    requires i < hops
    ensures e in Hop(w, policy, i, url, maxBytes).0 ==> e in Follow(w, policy, url, i, hops, maxBytes).0
    ensures var step := Hop(w, policy, i, url, maxBytes).1;
            step.Next? && e in Follow(w, policy, step.url, i + 1, hops, maxBytes).0 ==>
              e in Follow(w, policy, url, i, hops, maxBytes).0
  {
  }

  /** No connection goes untraced: every request that a chain of redirects calls for is in the
      trace of the fetch that follows it. */
  lemma {:induction false} RequestsAreTraced(w: World, policy: Policy, urls: seq<string>, i: nat, hops: int,
                                             maxBytes: int, k: nat, hop: nat, dial: Dial)
    requires Leads(w, policy, urls, i) && k < |urls| && hop == i + k < hops
    requires Requests(w, policy, hop, urls[k], dial)
    ensures Connected(urls[k], dial) in Follow(w, policy, urls[0], i, hops, maxBytes).0
    decreases k
  {
    if k == 0 {
      HopIsTraced(w, policy, i, urls[0], maxBytes, dial);
    } else {
      LaterLeads(w, policy, urls, i);
      FirstLeads(w, policy, urls, i, maxBytes);
      RequestsAreTraced(w, policy, urls[1..], i + 1, hops, maxBytes, k - 1, hop, dial);
    }
    TraceHas(w, policy, urls[0], i, hops, maxBytes, Connected(urls[k], dial));
  }

  lemma FirstLeads(w: World, policy: Policy, urls: seq<string>, i: nat, maxBytes: int)
    requires |urls| > 1 && Leads(w, policy, urls, i)
    ensures Hop(w, policy, i, urls[0], maxBytes).1 == Next(urls[1])
  {
    assert Redirects(w, policy, i + 0, urls[0], urls[1]);
    HopMeans(w, policy, i, urls[0], maxBytes, urls[1], BlockedTarget);
  }
}
