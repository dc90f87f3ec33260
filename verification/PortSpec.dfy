/** Published-port specifications: validation, the -p/--publish text form, its
    parser, and equality of port lists by their sorted text forms. */
module PortSpec {
  import opened Collections
  import opened TextOps
  import opened Sorting

  type Port = n: nat | n < 0x1_0000

  /** Anything but the four protocols and two modes is rejected without looking at its text. */
  datatype Protocol = ProtocolUnset | Http | Https | Tcp | Udp | UnknownProtocol
  datatype Mode = ModeUnset | Ingress | Host | UnknownMode

  datatype Addr = Addr(is6: bool, value: nat, zone: string)
  datatype HostPrefix = HostPrefix(addr: Addr, bits: nat)

  /** An address or prefix that is not set is None. */
  datatype Spec = Spec(
    hostname: string,
    hostIP: Option<Addr>,
    hostPrefix: Option<HostPrefix>,
    publishedPort: Port,
    containerPort: Port,
    protocol: Protocol,
    mode: Mode)

  /** The text form of addresses, which belongs to the address library. */
  datatype AddrText = AddrText(show: Addr -> string, parse: string -> Option<Addr>)

  datatype Problem =
    | NoContainerPort | NoProtocol | BadProtocol | NoMode | BadMode
    | IngressHostIP | IngressHostPrefix | HostnameProtocol | BadHostname
    | IPAndPrefix | NoPublishedPort | HostProtocol | HostHostname
    | TooManyAts | BadContainerPort | EmptyFirstPart | BadPublishedPort
    | NoBrackets | BadPrefix | BadIP | TooManyParts

  datatype Result<+T> = Ok(value: T) | Err(problem: Problem)

  function Validate(p: Spec): Option<Problem> {
    if p.containerPort == 0 then Some(NoContainerPort)
    else if p.protocol.ProtocolUnset? then Some(NoProtocol)
    else if p.protocol.UnknownProtocol? then Some(BadProtocol)
    else match p.mode
    case ModeUnset => Some(NoMode)
    case Ingress =>
      if p.hostIP.Some? then Some(IngressHostIP)
      else if p.hostPrefix.Some? then Some(IngressHostPrefix)
      else if p.hostname != "" && !p.protocol.Http? && !p.protocol.Https? then Some(HostnameProtocol)
      else if p.hostname != "" && '.' !in p.hostname then Some(BadHostname)
      else None
    case Host =>
      if p.hostIP.Some? && p.hostPrefix.Some? then Some(IPAndPrefix)
      else if p.publishedPort == 0 then Some(NoPublishedPort)
      else if !p.protocol.Tcp? && !p.protocol.Udp? then Some(HostProtocol)
      else if p.hostname != "" then Some(HostHostname)
      else None
    case UnknownMode => Some(BadMode)
  }

  predicate ValidSpec(p: Spec) {
    Validate(p).None?
  }

  // ---- Printing ----

  function ShowIP(t: AddrText, a: Addr): string {
    if a.is6 then "[" + t.show(a) + "]" else t.show(a)
  }

  function ShowPrefix(t: AddrText, x: HostPrefix): string {
    ShowIP(t, x.addr) + "/" + Decimal(x.bits)
  }

  function ProtocolName(p: Protocol): (s: string)
    ensures ':' !in s && '/' !in s && '@' !in s
  {
    match p
    case Http => "http"
    case Https => "https"
    case Tcp => "tcp"
    case Udp => "udp"
    case _ => ""
  }

  /** The parts before the container port. */
  function Front(t: AddrText, p: Spec): seq<string> {
    if p.mode.Host? then
      (if p.hostIP.Some? then [ShowIP(t, p.hostIP.value)] else [])
      + (if p.hostPrefix.Some? then [ShowPrefix(t, p.hostPrefix.value)] else [])
      + [Decimal(p.publishedPort)]
    else
      (if p.hostname != "" then [p.hostname] else [])
      + (if p.publishedPort != 0 then [Decimal(p.publishedPort)] else [])
  }

  /** What follows the container port. */
  function Suffix(p: Spec): string {
    "/" + ProtocolName(p.protocol) + (if p.mode.Host? then "@host" else "")
  }

  function Text(t: AddrText, p: Spec): string {
    Join(Front(t, p) + [Decimal(p.containerPort)], ':') + Suffix(p)
  }

  function Show(t: AddrText, p: Spec): Result<string> {
    if Validate(p).Some? then Err(Validate(p).value) else Ok(Text(t, p))
  }

  // ---- Parsing ----

  function ParsePort(s: string): Option<Port> {
    match ParseUint(s, 0xFFFF)
    case None => None
    case Some(n) => if n < 0x1_0000 then Some(n) else None
  }

  /** The address may itself contain colons, so everything before the last two parts is one part. */
  function SplitParts(s: string): (r: seq<string>)
    ensures 1 <= |r| <= 3
  {
    Group(Split(s, ':'))
  }

  function Group(parts: seq<string>): (r: seq<string>)
    requires parts != []
    ensures 1 <= |r| <= 3
  {
    var n := |parts|;
    if n > 3 then [Join(parts[..n - 2], ':')] + parts[n - 2..] else parts
  }

  /** What the last part says; `specified` is None if no protocol was written. */
  datatype Ending = Ending(mode: Mode, specified: Option<Protocol>, port: Port)

  function ProtocolNamed(s: string): Protocol {
    if s == "tcp" then Tcp else if s == "udp" then Udp
    else if s == "http" then Http else if s == "https" then Https else UnknownProtocol
  }

  /** A port with an optional protocol. */
  function ParseNumbered(s: string, mode: Mode): Result<Ending> {
    var j := IndexOf(s, '/');
    var protocol := if j > -1 then Some(ProtocolNamed(s[j + 1..])) else None;
    if mode.Host? && protocol.Some? && protocol != Some(Tcp) && protocol != Some(Udp) then Err(HostProtocol)
    else if protocol == Some(UnknownProtocol) then Err(BadProtocol)
    else match ParsePort(if j > -1 then s[..j] else s)
         case None => Err(BadContainerPort)
         case Some(n) => Ok(Ending(mode, protocol, n))
  }

  function ParseEnding(s: string): Result<Ending> {
    var i := IndexOf(s, '@');
    if i == -1 then ParseNumbered(s, Ingress)
    else if s[i..] != "@host" then Err(BadMode)
    else ParseNumbered(s[..i], Host)
  }

  /** A prefix is an address without a zone, a slash, and a length without sign or leading zeros. */
  function ParsePrefix(t: AddrText, s: string): Option<HostPrefix> {
    var i := LastIndexOf(s, '/');
    if i < 0 then None
    else
      match t.parse(s[..i])
      case None => None
      case Some(a) =>
        var bits := s[i + 1..];
        if a.zone != "" then None
        else if |bits| > 1 && !('1' <= bits[0] <= '9') then None
        else match ParseUint(bits, if a.is6 then 128 else 32)
             case None => None
             case Some(n) => Some(HostPrefix(a, n))
  }

  /** Removes the brackets around an IPv6 address. */
  function StripBrackets(s: string): Option<string> {
    if ':' !in s then Some(s)
    else
      var end := IndexOf(s, ']');
      if s[0] != '[' || end < 0 then None else Some(s[1..end] + s[end + 1..])
  }

  function ParseHost(t: AddrText, s: string, base: Spec): Result<Spec> {
    match StripBrackets(s)
    case None => Err(NoBrackets)
    case Some(ip) =>
      if '/' in ip then
        match ParsePrefix(t, ip)
        case None => Err(BadPrefix)
        case Some(x) => Ok(base.(hostPrefix := Some(x)))
      else
        match t.parse(ip)
        case None => Err(BadIP)
        case Some(a) => Ok(base.(hostIP := Some(a)))
  }

  function ParseFront(t: AddrText, parts: seq<string>, base: Spec): Result<Spec>
    requires 1 <= |parts| <= 3
  {
    if |parts| == 1 then Ok(base)
    else if |parts| == 2 then
      if parts[0] == "" then Err(EmptyFirstPart)
      else if ParsePort(parts[0]).Some? then Ok(base.(publishedPort := ParsePort(parts[0]).value))
      else if base.mode.Host? then Err(HostHostname)
      else Ok(base.(hostname := parts[0]))
    else
      match ParsePort(parts[1])
      case None => Err(BadPublishedPort)
      case Some(n) =>
        if base.mode.Host? then ParseHost(t, parts[0], base.(publishedPort := n))
        else Ok(base.(publishedPort := n, hostname := parts[0]))
  }

  /** The protocol of a hostname defaults to https and must be one of the web protocols. */
  function Finish(p: Spec, specified: Option<Protocol>): Result<Spec> {
    if p.hostname != "" && specified.Some? && specified != Some(Http) && specified != Some(Https)
    then Err(HostnameProtocol)
    else
      var q := if p.hostname != "" && specified.None? then p.(protocol := Https) else p;
      if Validate(q).Some? then Err(Validate(q).value) else Ok(q)
  }

  function Assemble(t: AddrText, parts: seq<string>): Result<Spec>
    requires 1 <= |parts| <= 3
  {
    match ParseEnding(parts[|parts| - 1])
    case Err(e) => Err(e)
    case Ok(end) =>
      match ParseFront(t, parts, Started(end))
      case Err(e) => Err(e)
      case Ok(p) => Finish(p, end.specified)
  }

  function Started(end: Ending): Spec {
    Spec("", None, None, 0, end.port, if end.specified.Some? then end.specified.value else Tcp, end.mode)
  }

  function Parse(t: AddrText, s: string): Result<Spec> {
    if CountChar(s, '@') > 1 then Err(TooManyAts) else Assemble(t, SplitParts(s))
  }

  // ---- Facts about addresses ----

  ghost predicate NoneOf(s: string, chars: string) {
    forall c :: c in chars ==> c !in s
  }

  /** What the address library promises of one address: it reads back what it
      prints, and the text has none of the separators beyond an IPv6 address's colons. */
  ghost predicate Printable(t: AddrText, a: Addr) {
    && t.parse(t.show(a)) == Some(a)
    && NoneOf(t.show(a), "/@[]")
    && (a.is6 <==> ':' in t.show(a))
  }

  ghost predicate AddressesPrintable(t: AddrText, p: Spec) {
    && (p.hostIP.Some? ==> Printable(t, p.hostIP.value))
    && (p.hostPrefix.Some? ==>
          var x := p.hostPrefix.value;
          Printable(t, x.addr) && x.addr.zone == "" && x.bits <= (if x.addr.is6 then 128 else 32))
  }

  /** The condition under which the text form keeps the hostname apart from the ports. */
  predicate Recoverable(p: Spec) {
    CountChar(p.hostname, '@') <= 1 && (p.publishedPort != 0 || ':' !in p.hostname)
  }

  // ---- Splitting the text ----

  lemma SplitNone(s: string)
    requires ':' !in s
    ensures Split(s, ':') == [s]
  {
  }

  lemma SplitLast(h: string, last: string)
    requires ':' !in last
    ensures Split(h + ":" + last, ':') == Split(h, ':') + [last]
  {
    SplitConcat(h, ':', last);
    SplitNone(last);
  }

  lemma SplitTail(h: string, mid: string, last: string)
    requires ':' !in mid && ':' !in last
    ensures Split(h + ":" + mid + ":" + last, ':') == Split(h, ':') + [mid, last]
    ensures Split(h + ":" + last, ':') == Split(h, ':') + [last]
  {
    SplitLast(h + ":" + mid, last);
    SplitLast(h, mid);
    SplitLast(h, last);
    assert Split(h, ':') + [mid] + [last] == Split(h, ':') + [mid, last];
  }

  lemma GroupTail(hs: seq<string>, mid: string, last: string)
    requires hs != []
    ensures Group(hs + [mid, last]) == [Join(hs, ':'), mid, last]
  {
    var parts := hs + [mid, last];
    assert parts[..|parts| - 2] == hs && parts[|parts| - 2..] == [mid, last];
    if |hs| == 1 {
      assert hs == [hs[0]];
    }
  }

  /** With a published port the first part is recovered whole, colons and all. */
  lemma ThreeParts(h: string, mid: string, last: string)
    requires ':' !in mid && ':' !in last
    ensures SplitParts(h + ":" + mid + ":" + last) == [h, mid, last]
  {
    SplitTail(h, mid, last);
    JoinSplit(h, ':');
    GroupTail(Split(h, ':'), mid, last);
  }

  lemma TwoParts(h: string, last: string)
    requires ':' !in h && ':' !in last
    ensures SplitParts(h + ":" + last) == [h, last]
  {
    SplitTail(h, "", last);
    SplitNone(h);
  }

  lemma CutLast(hs: seq<string>, last: string)
    requires |hs| >= 2
    ensures var parts := Group(hs + [last]);
            |parts| == 3 && parts[2] == last && Join(hs, ':') == parts[0] + ":" + parts[1]
  {
    var init, piece := hs[..|hs| - 1], hs[|hs| - 1];
    assert hs == init + [piece];
    assert hs + [last] == init + [piece, last];
    JoinConcat(init, ':', piece);
    GroupTail(init, piece, last);
  }

  /** Without one, a colon in the hostname cuts its last piece off. */
  lemma HostnameCut(h: string, last: string)
    requires ':' in h && ':' !in last
    ensures var parts := SplitParts(h + ":" + last);
            |parts| == 3 && parts[2] == last && h == parts[0] + ":" + parts[1]
  {
    SplitTail(h, "", last);
    JoinSplit(h, ':');
    CutLast(Split(h, ':'), last);
  }

  // ---- The text in pieces ----

  function Tail(p: Spec): string {
    Decimal(p.containerPort) + Suffix(p)
  }

  lemma NumberedText(p: Spec)
    requires ValidSpec(p)
    ensures ParseNumbered(Decimal(p.containerPort) + "/" + ProtocolName(p.protocol), p.mode)
         == Ok(Ending(p.mode, Some(p.protocol), p.containerPort))
  {
    var number, name := Decimal(p.containerPort), ProtocolName(p.protocol);
    var s := number + "/" + name;
    NoDigit(number, '/');
    assert s[..|number|] == number && s[|number| + 1..] == name && s[|number|] == '/';
    IndexOfIs(s, '/', |number|);
    ParseDecimal(p.containerPort, 0xFFFF);
  }

  lemma TailText(p: Spec)
    requires ValidSpec(p)
    ensures ParseEnding(Tail(p)) == Ok(Ending(p.mode, Some(p.protocol), p.containerPort))
  {
    NumberedText(p);
    var plain := Decimal(p.containerPort) + "/" + ProtocolName(p.protocol);
    NoDigit(Decimal(p.containerPort), '@');
    if p.mode.Host? {
      assert plain + "@host" == Tail(p);
      HostEnding(plain);
    } else {
      assert plain == Tail(p);
    }
  }

  lemma HostEnding(plain: string)
    requires '@' !in plain
    ensures ParseEnding(plain + "@host") == ParseNumbered(plain, Host)
  {
    var s := plain + "@host";
    assert s[..|plain|] == plain && s[|plain|..] == "@host" && s[|plain|] == '@';
    IndexOfIs(s, '@', |plain|);
  }

  lemma NoMarks(n: Port, name: string)
    requires ':' !in name && '@' !in name
    ensures var plain := Decimal(n) + "/" + name; ':' !in plain && '@' !in plain
  {
    NoDigit(Decimal(n), ':');
    NoDigit(Decimal(n), '@');
  }

  lemma TailMarks(p: Spec)
    requires ValidSpec(p)
    ensures ':' !in Tail(p)
    ensures CountChar(Tail(p), '@') == if p.mode.Host? then 1 else 0
  {
    var plain := Decimal(p.containerPort) + "/" + ProtocolName(p.protocol);
    NoMarks(p.containerPort, ProtocolName(p.protocol));
    CountNone(plain, '@');
    if p.mode.Host? {
      assert Tail(p) == plain + "@host";
      CountConcat(plain, "@host", '@');
      AtHost();
    } else {
      assert Tail(p) == plain;
    }
  }

  lemma AtHost()
    ensures CountChar("@host", '@') == 1
  {
    CountNone("host", '@');
    assert "@host"[1..] == "host";
  }

  /** The text is the front parts and the tail, separated by colons. */
  lemma TextIsJoined(t: AddrText, p: Spec)
    ensures Text(t, p) == if Front(t, p) == [] then Tail(p) else Join(Front(t, p), ':') + ":" + Tail(p)
  {
    var front, number := Front(t, p), Decimal(p.containerPort);
    if front == [] {
      assert front + [number] == [number];
    } else {
      JoinConcat(front, ':', number);
      assert Join(front, ':') + [':'] + number + Suffix(p) == Join(front, ':') + ":" + (number + Suffix(p));
    }
  }

  lemma JoinTwo(a: string, b: string)
    ensures Join([a, b], ':') == a + ":" + b
  {
    assert [a, b][1..] == [b];
  }

  // ---- Ingress ----

  lemma HostnameIsNoPort(h: string)
    requires '.' in h
    ensures ParsePort(h).None?
  {
    assert Digits(h) ==> '.' !in h;
  }

  /** The parts of an ingress text in the order they appear. */
  lemma IngressFront(t: AddrText, p: Spec)
    requires ValidSpec(p) && p.mode.Ingress?
    ensures Text(t, p) ==
            if p.hostname != "" && p.publishedPort != 0 then p.hostname + ":" + Decimal(p.publishedPort) + ":" + Tail(p)
            else if p.hostname != "" then p.hostname + ":" + Tail(p)
            else if p.publishedPort != 0 then Decimal(p.publishedPort) + ":" + Tail(p)
            else Tail(p)
  {
    TextIsJoined(t, p);
    JoinTwo(p.hostname, Decimal(p.publishedPort));
    assert [p.hostname] + [Decimal(p.publishedPort)] == [p.hostname, Decimal(p.publishedPort)];
  }

  lemma CountJoined(a: string, b: string)
    ensures CountChar(a + ":" + b, '@') == CountChar(a, '@') + CountChar(b, '@')
  {
    CountConcat(a + ":", b, '@');
    CountConcat(a, ":", '@');
    CountNone(":", '@');
  }

  lemma IngressAts(t: AddrText, p: Spec)
    requires ValidSpec(p) && p.mode.Ingress?
    ensures CountChar(Text(t, p), '@') == CountChar(p.hostname, '@')
  {
    IngressFront(t, p);
    TailMarks(p);
    var h, number, tail := p.hostname, Decimal(p.publishedPort), Tail(p);
    NoDigit(number, '@');
    CountNone(number, '@');
    CountJoined(h, number);
    CountJoined(h + ":" + number, tail);
    CountJoined(h, tail);
    CountJoined(number, tail);
  }

  /** The parts of an ingress text, given its number and tail. */
  function PartsOf(p: Spec, number: string, tail: string): (r: seq<string>)
    ensures 1 <= |r| <= 3
  {
    if p.hostname != "" && p.publishedPort != 0 then [p.hostname, number, tail]
    else if p.hostname != "" then [p.hostname, tail]
    else if p.publishedPort != 0 then [number, tail]
    else [tail]
  }

  /** What the parts of an ingress text assemble to. */
  lemma IngressAssembles(t: AddrText, p: Spec, number: string, tail: string)
    requires ValidSpec(p) && p.mode.Ingress?
    requires ParseEnding(tail) == Ok(Ending(Ingress, Some(p.protocol), p.containerPort))
    requires ParsePort(number) == Some(p.publishedPort) && number != ""
    requires p.hostname != "" ==> ParsePort(p.hostname).None?
    ensures Assemble(t, PartsOf(p, number, tail)) == Ok(p)
  {
    var end := Ending(Ingress, Some(p.protocol), p.containerPort);
    FrontAssembles(t, p, number, tail, Started(end));
    FinishIsStable(p);
    AssembleFrom(t, PartsOf(p, number, tail), end, p);
  }

  lemma AssembleFrom(t: AddrText, parts: seq<string>, end: Ending, p: Spec)
    requires 1 <= |parts| <= 3 && ParseEnding(parts[|parts| - 1]) == Ok(end)
    requires ParseFront(t, parts, Started(end)) == Ok(p) && Finish(p, end.specified) == Ok(p)
    ensures Assemble(t, parts) == Ok(p)
  {
  }

  lemma FrontAssembles(t: AddrText, p: Spec, number: string, tail: string, base: Spec)
    requires ValidSpec(p) && p.mode.Ingress?
    requires ParsePort(number) == Some(p.publishedPort) && number != ""
    requires p.hostname != "" ==> ParsePort(p.hostname).None?
    requires base == p.(hostname := "", publishedPort := 0)
    ensures ParseFront(t, PartsOf(p, number, tail), base) == Ok(p)
    ensures var parts := PartsOf(p, number, tail); parts[|parts| - 1] == tail
  {
  }

  lemma FinishIsStable(p: Spec)
    requires ValidSpec(p)
    ensures Finish(p, Some(p.protocol)) == Ok(p)
  {
  }

  lemma NumberText(n: Port)
    ensures ParsePort(Decimal(n)) == Some(n) && Decimal(n) != ""
    ensures ':' !in Decimal(n) && '@' !in Decimal(n)
  {
    ParseDecimal(n, 0xFFFF);
    NoDigit(Decimal(n), ':');
    NoDigit(Decimal(n), '@');
  }

  /** The parts that splitting an ingress text gives. */
  lemma IngressParts(t: AddrText, p: Spec)
    requires ValidSpec(p) && p.mode.Ingress? && (p.publishedPort != 0 || ':' !in p.hostname)
    ensures SplitParts(Text(t, p)) == PartsOf(p, Decimal(p.publishedPort), Tail(p))
  {
    IngressFront(t, p);
    TailMarks(p);
    NumberText(p.publishedPort);
    if p.hostname != "" && p.publishedPort != 0 {
      ThreeParts(p.hostname, Decimal(p.publishedPort), Tail(p));
    } else if p.hostname != "" {
      TwoParts(p.hostname, Tail(p));
    } else if p.publishedPort != 0 {
      TwoParts(Decimal(p.publishedPort), Tail(p));
    } else {
      SplitNone(Tail(p));
    }
  }

  lemma IngressReadsBack(t: AddrText, p: Spec)
    requires ValidSpec(p) && p.mode.Ingress? && (p.publishedPort != 0 || ':' !in p.hostname)
    ensures Assemble(t, SplitParts(Text(t, p))) == Ok(p)
  {
    IngressParts(t, p);
    IngressPartsAssemble(t, p);
  }

  lemma IngressPartsAssemble(t: AddrText, p: Spec)
    requires ValidSpec(p) && p.mode.Ingress?
    ensures Assemble(t, PartsOf(p, Decimal(p.publishedPort), Tail(p))) == Ok(p)
  {
    TailText(p);
    NumberText(p.publishedPort);
    if p.hostname != "" {
      HostnameIsNoPort(p.hostname);
    }
    IngressAssembles(t, p, Decimal(p.publishedPort), Tail(p));
  }

  lemma IngressCut(t: AddrText, p: Spec)
    requires ValidSpec(p) && p.mode.Ingress? && p.publishedPort == 0 && ':' in p.hostname
    ensures Assemble(t, SplitParts(Text(t, p))) != Ok(p)
  {
    IngressFront(t, p);
    TailMarks(p);
    TailText(p);
    HostnameCut(p.hostname, Tail(p));
  }

  lemma IngressRoundTrip(t: AddrText, p: Spec)
    requires ValidSpec(p) && p.mode.Ingress?
    ensures Parse(t, Text(t, p)) == Ok(p) <==> Recoverable(p)
  {
    IngressAts(t, p);
    if p.publishedPort != 0 || ':' !in p.hostname {
      IngressReadsBack(t, p);
    } else {
      IngressCut(t, p);
    }
  }

  // ---- Host ----

  lemma StripShown(t: AddrText, a: Addr, rest: string)
    requires Printable(t, a) && ':' !in rest && ']' !in rest
    ensures StripBrackets(ShowIP(t, a) + rest) == Some(t.show(a) + rest)
  {
    if a.is6 {
      Unbracket(t.show(a), rest);
      assert ShowIP(t, a) + rest == "[" + t.show(a) + "]" + rest;
    }
  }

  lemma Unbracket(ip: string, rest: string)
    requires ':' in ip && NoneOf(ip, "/@[]")
    ensures StripBrackets("[" + ip + "]" + rest) == Some(ip + rest)
  {
    var s := "[" + ip + "]" + rest;
    var end := 1 + |ip|;
    assert ']' in "/@[]";
    assert s[..end] == "[" + ip && s[1..end] == ip && s[end + 1..] == rest && s[end] == ']';
    IndexOfIs(s, ']', end);
    assert ':' in s[1..end];
  }

  lemma HostAddrText(t: AddrText, a: Addr, base: Spec)
    requires Printable(t, a)
    ensures ParseHost(t, ShowIP(t, a), base) == Ok(base.(hostIP := Some(a)))
    ensures '@' !in ShowIP(t, a)
  {
    StripShown(t, a, "");
    assert ShowIP(t, a) + "" == ShowIP(t, a) && t.show(a) + "" == t.show(a);
    assert '/' in "/@[]" && '@' in "/@[]";
  }

  lemma CutAtSlash(ip: string, bits: string)
    ensures var s := ip + ("/" + bits); s[|ip|] == '/' && s[|ip| + 1..] == bits && s[..|ip|] == ip
  {
  }

  lemma PrefixText(t: AddrText, x: HostPrefix)
    requires Printable(t, x.addr) && x.addr.zone == "" && x.bits <= (if x.addr.is6 then 128 else 32)
    ensures ParsePrefix(t, t.show(x.addr) + ("/" + Decimal(x.bits))) == Some(x)
  {
    var ip, bits := t.show(x.addr), Decimal(x.bits);
    CutAtSlash(ip, bits);
    NoDigit(bits, '/');
    LastIndexOfIs(ip + ("/" + bits), '/', |ip|);
    ParseDecimal(x.bits, if x.addr.is6 then 128 else 32);
    SingleZero(x.bits);
  }

  lemma SingleZero(n: nat)
    ensures |Decimal(n)| > 1 ==> '1' <= Decimal(n)[0] <= '9'
  {
  }

  lemma SlashedText(bits: nat)
    ensures var rest := "/" + Decimal(bits); ':' !in rest && ']' !in rest && '@' !in rest && rest[0] == '/'
  {
    NoDigit(Decimal(bits), ':');
    NoDigit(Decimal(bits), ']');
    NoDigit(Decimal(bits), '@');
  }

  lemma ShowPrefixSplits(t: AddrText, x: HostPrefix)
    ensures ShowIP(t, x.addr) + ("/" + Decimal(x.bits)) == ShowPrefix(t, x)
  {
  }

  lemma StrippedPrefix(t: AddrText, s: string, ip: string, rest: string, x: HostPrefix, base: Spec)
    requires StripBrackets(s) == Some(ip + rest) && rest != "" && rest[0] == '/' && ParsePrefix(t, ip + rest) == Some(x)
    ensures ParseHost(t, s, base) == Ok(base.(hostPrefix := Some(x)))
  {
    assert (ip + rest)[|ip|] == '/';
  }

  lemma HostPrefixText(t: AddrText, x: HostPrefix, base: Spec)
    requires Printable(t, x.addr) && x.addr.zone == "" && x.bits <= (if x.addr.is6 then 128 else 32)
    ensures ParseHost(t, ShowPrefix(t, x), base) == Ok(base.(hostPrefix := Some(x)))
  {
    var rest := "/" + Decimal(x.bits);
    SlashedText(x.bits);
    StripShown(t, x.addr, rest);
    PrefixText(t, x);
    ShowPrefixSplits(t, x);
    StrippedPrefix(t, ShowPrefix(t, x), t.show(x.addr), rest, x, base);
  }

  lemma PrefixHasNoAt(t: AddrText, x: HostPrefix)
    requires Printable(t, x.addr)
    ensures '@' !in ShowPrefix(t, x)
  {
    SlashedText(x.bits);
    assert '@' in "/@[]";
    ShowPrefixSplits(t, x);
  }

  /** The first of three parts of a host text. */
  function HostFirst(t: AddrText, p: Spec): string
    requires p.hostIP.Some? || p.hostPrefix.Some?
  {
    if p.hostIP.Some? then ShowIP(t, p.hostIP.value) else ShowPrefix(t, p.hostPrefix.value)
  }

  lemma HostFront(t: AddrText, p: Spec)
    requires ValidSpec(p) && p.mode.Host?
    ensures Text(t, p) ==
            if p.hostIP.Some? || p.hostPrefix.Some?
            then HostFirst(t, p) + ":" + Decimal(p.publishedPort) + ":" + Tail(p)
            else Decimal(p.publishedPort) + ":" + Tail(p)
  {
    TextIsJoined(t, p);
    var number := Decimal(p.publishedPort);
    if p.hostIP.Some? || p.hostPrefix.Some? {
      assert Front(t, p) == [HostFirst(t, p), number];
      JoinTwo(HostFirst(t, p), number);
    } else {
      assert Front(t, p) == [number];
    }
  }

  lemma HostFirstText(t: AddrText, p: Spec, base: Spec)
    requires ValidSpec(p) && p.mode.Host? && AddressesPrintable(t, p) && (p.hostIP.Some? || p.hostPrefix.Some?)
    requires base == p.(hostIP := None, hostPrefix := None)
    ensures ParseHost(t, HostFirst(t, p), base) == Ok(p) && '@' !in HostFirst(t, p)
  {
    if p.hostIP.Some? {
      HostAddrText(t, p.hostIP.value, base);
    } else {
      HostPrefixText(t, p.hostPrefix.value, base);
      PrefixHasNoAt(t, p.hostPrefix.value);
    }
  }

  lemma HostAts(t: AddrText, p: Spec)
    requires ValidSpec(p) && p.mode.Host? && AddressesPrintable(t, p)
    ensures CountChar(Text(t, p), '@') == 1
  {
    HostFront(t, p);
    TailMarks(p);
    var number, tail := Decimal(p.publishedPort), Tail(p);
    NoDigit(number, '@');
    CountNone(number, '@');
    if p.hostIP.None? && p.hostPrefix.None? {
      CountJoined(number, tail);
    } else {
      var first := HostFirst(t, p);
      HostFirstText(t, p, p.(hostIP := None, hostPrefix := None));
      CountNone(first, '@');
      CountJoined(first, number);
      CountJoined(first + ":" + number, tail);
    }
  }

  lemma HostAssembles(t: AddrText, p: Spec, first: string, number: string, tail: string)
    requires ValidSpec(p) && p.mode.Host? && ParsePort(number) == Some(p.publishedPort) && number != ""
    requires ParseEnding(tail) == Ok(Ending(Host, Some(p.protocol), p.containerPort))
    ensures p.hostIP.None? && p.hostPrefix.None? ==> Assemble(t, [number, tail]) == Ok(p)
    ensures ParseHost(t, first, p.(hostIP := None, hostPrefix := None)) == Ok(p) ==>
              Assemble(t, [first, number, tail]) == Ok(p)
  {
    var end := Ending(Host, Some(p.protocol), p.containerPort);
    FinishIsStable(p);
    HostFrontParts(t, p, first, number, tail, Started(end));
    if p.hostIP.None? && p.hostPrefix.None? {
      AssembleFrom(t, [number, tail], end, p);
    }
    if ParseHost(t, first, p.(hostIP := None, hostPrefix := None)) == Ok(p) {
      AssembleFrom(t, [first, number, tail], end, p);
    }
  }

  lemma HostFrontParts(t: AddrText, p: Spec, first: string, number: string, tail: string, base: Spec)
    requires ValidSpec(p) && p.mode.Host? && ParsePort(number) == Some(p.publishedPort) && number != ""
    requires base == p.(hostIP := None, hostPrefix := None, publishedPort := 0)
    ensures p.hostIP.None? && p.hostPrefix.None? ==> ParseFront(t, [number, tail], base) == Ok(p)
    ensures ParseFront(t, [first, number, tail], base) == ParseHost(t, first, base.(publishedPort := p.publishedPort))
  {
  }

  lemma HostReadsBack(t: AddrText, p: Spec)
    requires ValidSpec(p) && p.mode.Host? && AddressesPrintable(t, p)
    ensures Assemble(t, SplitParts(Text(t, p))) == Ok(p)
  {
    HostFront(t, p);
    TailMarks(p);
    TailText(p);
    NumberText(p.publishedPort);
    var number, tail := Decimal(p.publishedPort), Tail(p);
    if p.hostIP.None? && p.hostPrefix.None? {
      TwoParts(number, tail);
      HostAssembles(t, p, "", number, tail);
    } else {
      HostFirstText(t, p, p.(hostIP := None, hostPrefix := None));
      ThreeParts(HostFirst(t, p), number, tail);
      HostAssembles(t, p, HostFirst(t, p), number, tail);
    }
  }

  /** A text that reads back is one with at most one '@' whose parts assemble. */
  lemma ReadsBack(t: AddrText, s: string, p: Spec)
    ensures Parse(t, s) == Ok(p) <==> CountChar(s, '@') <= 1 && Assemble(t, SplitParts(s)) == Ok(p)
  {
  }

  lemma HostIsRecoverable(p: Spec)
    requires ValidSpec(p) && p.mode.Host?
    ensures Recoverable(p)
  {
    CountNone(p.hostname, '@');
  }

  lemma HostRoundTrip(t: AddrText, p: Spec)
    requires ValidSpec(p) && p.mode.Host? && AddressesPrintable(t, p)
    ensures Parse(t, Text(t, p)) == Ok(p) && Recoverable(p)
  {
    HostAts(t, p);
    HostReadsBack(t, p);
    HostIsRecoverable(p);
    ReadsBack(t, Text(t, p), p);
  }

  // ---- Main results ----

  /** A valid specification reads back from its own text exactly when the
      hostname has at most one '@' and, without a published port, no ':'. */
  lemma RoundTrip(t: AddrText, p: Spec)
    requires ValidSpec(p) && AddressesPrintable(t, p)
    ensures Show(t, p) == Ok(Text(t, p))
    ensures Parse(t, Text(t, p)) == Ok(p) <==> Recoverable(p)
  {
    if p.mode.Host? {
      HostRoundTrip(t, p);
    } else {
      IngressRoundTrip(t, p);
    }
  }

  /** Only the first of three parts may contain a colon. */
  ghost predicate Separated(parts: seq<string>) {
    1 <= |parts| <= 3 && (forall k :: 0 < k < |parts| ==> ':' !in parts[k]) && (|parts| < 3 ==> ':' !in parts[0])
  }

  /** A text has exactly one list of parts: the one that joins to it and has
      colons in the first of three parts only. */
  lemma PartsAreUnique(s: string, parts: seq<string>)
    ensures SplitParts(s) == parts <==> Join(parts, ':') == s && Separated(parts)
  {
    PartsRejoin(s);
    PartsSeparated(s);
    if Join(parts, ':') == s && Separated(parts) {
      if |parts| == 1 {
        SplitNone(s);
      } else if |parts| == 2 {
        assert parts == [parts[0], parts[1]];
        JoinTwo(parts[0], parts[1]);
        TwoParts(parts[0], parts[1]);
      } else {
        assert parts == [parts[0]] + [parts[1], parts[2]];
        JoinThree(parts[0], parts[1], parts[2]);
        ThreeParts(parts[0], parts[1], parts[2]);
        assert parts == [parts[0], parts[1], parts[2]];
      }
    }
  }

  lemma PartsSeparated(s: string)
    ensures Separated(SplitParts(s))
  {
    PiecesAreFree(s, ':');
    var parts := Split(s, ':');
    var n := |parts|;
    if n > 3 {
      assert SplitParts(s)[1] == parts[n - 2] && SplitParts(s)[2] == parts[n - 1];
    }
  }

  /** Regrouping the parts loses nothing. */
  lemma PartsRejoin(s: string)
    ensures Join(SplitParts(s), ':') == s
  {
    var parts := Split(s, ':');
    JoinSplit(s, ':');
    var n := |parts|;
    if n > 3 {
      var first, mid, last := parts[..n - 2], parts[n - 2], parts[n - 1];
      assert parts == first + [mid] + [last] && parts[n - 2..] == [mid, last];
      JoinConcat(first + [mid], ':', last);
      JoinConcat(first, ':', mid);
      JoinThree(Join(first, ':'), mid, last);
    }
  }

  lemma JoinThree(a: string, b: string, c: string)
    ensures Join([a] + [b, c], ':') == a + ":" + b + ":" + c
  {
    assert ([a] + [b, c])[1..] == [b, c];
    JoinTwo(b, c);
    assert a + ":" + (b + ":" + c) == a + ":" + b + ":" + c;
  }

  lemma {:induction false} CountPart(parts: seq<string>, k: nat)
    requires k < |parts|
    ensures CountChar(parts[k], '@') <= CountChar(Join(parts, ':'), '@')
  {
    if |parts| > 1 {
      CountJoined(parts[0], Join(parts[1..], ':'));
      if k > 0 {
        CountPart(parts[1..], k - 1);
      }
    }
  }

  lemma FrontHostname(t: AddrText, parts: seq<string>, base: Spec)
    requires 1 <= |parts| <= 3 && base.hostname == "" && ParseFront(t, parts, base).Ok?
    ensures var p := ParseFront(t, parts, base).value; p.hostname == "" || p.hostname == parts[0]
  {
  }

  lemma FinishValidates(p: Spec, specified: Option<Protocol>)
    requires Finish(p, specified).Ok?
    ensures ValidSpec(Finish(p, specified).value) && Finish(p, specified).value.hostname == p.hostname
  {
  }

  lemma AssembledHostname(t: AddrText, parts: seq<string>)
    requires 1 <= |parts| <= 3 && Assemble(t, parts).Ok?
    ensures var p := Assemble(t, parts).value; ValidSpec(p) && (p.hostname == "" || p.hostname == parts[0])
  {
    var end := ParseEnding(parts[|parts| - 1]).value;
    FrontHostname(t, parts, Started(end));
    FinishValidates(ParseFront(t, parts, Started(end)).value, end.specified);
  }

  lemma ParsedHostname(t: AddrText, s: string, p: Spec)
    requires Parse(t, s) == Ok(p)
    ensures ValidSpec(p) && (p.hostname == "" || p.hostname == SplitParts(s)[0])
  {
    AssembledHostname(t, SplitParts(s));
  }

  /** What the parser accepts is valid, and writing it out and reading it again
      changes nothing exactly if it has a published port or no ':' in the hostname. */
  lemma ParsedReadsBack(t: AddrText, s: string, p: Spec)
    requires Parse(t, s) == Ok(p) && AddressesPrintable(t, p)
    ensures ValidSpec(p)
    ensures Parse(t, Text(t, p)) == Ok(p) <==> p.publishedPort != 0 || ':' !in p.hostname
  {
    ParsedHostname(t, s, p);
    PartsRejoin(s);
    CountPart(SplitParts(s), 0);
    ParsedRecoverable(t, s, p);
    RoundTrip(t, p);
  }

  lemma ParsedRecoverable(t: AddrText, s: string, p: Spec)
    requires Parse(t, s) == Ok(p) && (p.hostname == "" || CountChar(p.hostname, '@') <= CountChar(s, '@'))
    ensures Recoverable(p) <==> p.publishedPort != 0 || ':' !in p.hostname
  {
    CountNone("", '@');
  }

  /** The parser reaches every one of those: with the port 0 written out the hostname is kept whole. */
  lemma ZeroPortReadsBack(t: AddrText, p: Spec)
    requires ValidSpec(p) && p.mode.Ingress? && p.publishedPort == 0 && CountChar(p.hostname, '@') <= 1
    ensures Parse(t, p.hostname + ":0:" + Tail(p)) == Ok(p)
  {
    var s := p.hostname + ":" + "0" + ":" + Tail(p);
    assert s == p.hostname + ":0:" + Tail(p);
    TailMarks(p);
    TailText(p);
    NumberText(0);
    ThreeParts(p.hostname, "0", Tail(p));
    CountJoined(p.hostname, "0");
    CountJoined(p.hostname + ":" + "0", Tail(p));
    CountNone("0", '@');
    ZeroPortAssembles(t, p, Tail(p));
    ReadsBack(t, s, p);
  }

  lemma ZeroPortAssembles(t: AddrText, p: Spec, tail: string)
    requires ValidSpec(p) && p.mode.Ingress? && p.publishedPort == 0 && ParsePort("0") == Some(0)
    requires ParseEnding(tail) == Ok(Ending(Ingress, Some(p.protocol), p.containerPort))
    ensures Assemble(t, [p.hostname, "0", tail]) == Ok(p)
  {
    FinishIsStable(p);
    AssembleFrom(t, [p.hostname, "0", tail], Ending(Ingress, Some(p.protocol), p.containerPort), p);
  }

  /** Hostname a.b:80 and no published port, which validation accepts. */
  function ColonSpec(): Spec {
    Spec("a.b:80", None, None, 0, 90, Http, Ingress)
  }

  lemma ColonSpecIsValid()
    ensures ValidSpec(ColonSpec()) && CountChar(ColonSpec().hostname, '@') <= 1 && ':' in ColonSpec().hostname
  {
    var hostname := ColonSpec().hostname;
    assert hostname[3] == ':' && hostname[1] == '.';
    CountNone(hostname, '@');
  }

  lemma ColonSpecText()
    ensures ColonSpec().hostname + ":0:" + Tail(ColonSpec()) == "a.b:80:0:90/http"
  {
    assert Decimal(90) == Decimal(9) + "0" && Decimal(9) == "9";
  }

  /** Its text form means something else. */
  lemma ColonCounterexample(t: AddrText)
    ensures ValidSpec(ColonSpec()) && Parse(t, Text(t, ColonSpec())) != Ok(ColonSpec())
  {
    ColonSpecIsValid();
    IngressRoundTrip(t, ColonSpec());
  }

  /** The parser can be given it, by writing the port 0 out, and does not get it back. */
  lemma UnstableText(t: AddrText)
    ensures Parse(t, "a.b:80:0:90/http") == Ok(ColonSpec()) && Parse(t, Text(t, ColonSpec())) != Ok(ColonSpec())
  {
    ColonSpecIsValid();
    ColonSpecText();
    ZeroPortReadsBack(t, ColonSpec());
    ColonCounterexample(t);
  }

  ghost predicate Good(t: AddrText, p: Spec) {
    ValidSpec(p) && AddressesPrintable(t, p) && Recoverable(p)
  }

  /** Recoverable specifications with the same text are the same. */
  lemma TextIsInjective(t: AddrText, p: Spec, q: Spec)
    requires Good(t, p) && Good(t, q) && Text(t, p) == Text(t, q)
    ensures p == q
  {
    RoundTrip(t, p);
    RoundTrip(t, q);
  }

  // ---- Equality of port lists ----

  /** The text of each specification that has one. */
  function Shown(t: AddrText): Spec -> Result<string> {
    p => Show(t, p)
  }

  function TextBy(show: Spec -> Result<string>): Spec -> string {
    p => match show(p) case Ok(s) => s case Err(_) => ""
  }

  ghost predicate AllShown(show: Spec -> Result<string>, ps: seq<Spec>) {
    forall k :: 0 <= k < |ps| ==> show(ps[k]).Ok?
  }

  method Serialise(show: Spec -> Result<string>, ps: seq<Spec>) returns (texts: Option<seq<string>>)
    ensures texts == if AllShown(show, ps) then Some(Map(TextBy(show), ps)) else None
  {
    var done: seq<string> := [];
    for i := 0 to |ps|
      invariant forall k :: 0 <= k < i ==> show(ps[k]).Ok?
      invariant |done| == i && forall k :: 0 <= k < i ==> done[k] == TextBy(show)(ps[k])
    {
      var x := show(ps[i]);
      if x.Err? {
        return None;
      }
      done := done + [x.value];
    }
    assert done == Map(TextBy(show), ps);
    return Some(done);
  }

  lemma SizesDiffer(x: seq<string>, y: seq<string>)
    requires |x| != |y|
    ensures multiset(x) != multiset(y)
  {
    assert |multiset(x)| != |multiset(y)|;
  }

  /** Serialise, sort, compare; an element without a text makes the lists differ. */
  method EqualBy(show: Spec -> Result<string>, a: seq<Spec>, b: seq<Spec>) returns (equal: bool)
    ensures equal <==> AllShown(show, a) && AllShown(show, b)
                       && multiset(Map(TextBy(show), a)) == multiset(Map(TextBy(show), b))
  {
    if |a| != |b| {
      SizesDiffer(Map(TextBy(show), a), Map(TextBy(show), b));
      return false;
    }
    var x := Serialise(show, a);
    if x.None? {
      return false;
    }
    var y := Serialise(show, b);
    if y.None? {
      return false;
    }
    StringSortDecides(x.value, y.value);
    equal := Sort(x.value, StringLeq) == Sort(y.value, StringLeq);
  }

  ghost predicate AllGood(t: AddrText, ps: seq<Spec>) {
    forall p :: p in ps ==> Good(t, p)
  }

  method PortsEqual(t: AddrText, a: seq<Spec>, b: seq<Spec>) returns (equal: bool)
    ensures equal <==> AllShown(Shown(t), a) && AllShown(Shown(t), b)
                       && multiset(Map(TextBy(Shown(t)), a)) == multiset(Map(TextBy(Shown(t)), b))
    ensures AllGood(t, a) && AllGood(t, b) ==> (equal <==> multiset(a) == multiset(b))
  {
    equal := EqualBy(Shown(t), a, b);
    if AllGood(t, a) && AllGood(t, b) {
      TextsDecide(t, a, b);
    }
  }

  lemma GoodIsShown(t: AddrText, p: Spec)
    requires Good(t, p)
    ensures Shown(t)(p).Ok? && TextBy(Shown(t))(p) == Text(t, p)
  {
  }

  /** Good lists have the same texts exactly when they have the same specifications, each as often. */
  lemma TextsDecide(t: AddrText, a: seq<Spec>, b: seq<Spec>)
    requires AllGood(t, a) && AllGood(t, b)
    ensures AllShown(Shown(t), a) && AllShown(Shown(t), b)
    ensures multiset(Map(TextBy(Shown(t)), a)) == multiset(Map(TextBy(Shown(t)), b)) <==> multiset(a) == multiset(b)
  {
    forall p | p in a || p in b
      ensures Shown(t)(p).Ok? && TextBy(Shown(t))(p) == Text(t, p)
    {
      GoodIsShown(t, p);
    }
    forall p, q | p in a && q in b && TextBy(Shown(t))(p) == TextBy(Shown(t))(q)
      ensures p == q
    {
      TextIsInjective(t, p, q);
    }
    MapDecides(TextBy(Shown(t)), a, b);
  }
}
