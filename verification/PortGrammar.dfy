/** The language of port specifications: which texts mean which specification,
    stated without the parser, and the parser decides exactly that. */
module PortGrammar {
  import opened Collections
  import opened TextOps
  import opened PortSpec

  // ---- The grammar ----

  /** A decimal numeral of the port number; leading zeros are allowed. */
  ghost predicate Numeral(s: string, n: Port) {
    s != "" && Digits(s) && Value(s) == n
  }

  ghost predicate IsPort(s: string) {
    exists n: Port :: Numeral(s, n)
  }

  /** The words for the four protocols. */
  ghost predicate IsWord(s: string, p: Protocol) {
    (s == "tcp" && p == Tcp) || (s == "udp" && p == Udp) || (s == "http" && p == Http) || (s == "https" && p == Https)
  }

  /** What follows the number: the protocol, if it is written. */
  ghost predicate IsProtocolPart(s: string, written: Option<Protocol>) {
    match written
    case None => s == ""
    case Some(p) => s != "" && s[0] == '/' && IsWord(s[1..], p)
  }

  /** A container port with or without a protocol. */
  ghost predicate IsNumbered(s: string, written: Option<Protocol>, n: Port) {
    exists number, rest :: s == number + rest && Numeral(number, n) && IsProtocolPart(rest, written)
  }

  /** The last part: ends in "@host" exactly in host mode, which has only two protocols. */
  ghost predicate IsEnding(s: string, mode: Mode, written: Option<Protocol>, n: Port) {
    match mode
    case Ingress => IsNumbered(s, written, n)
    case Host =>
      && (exists plain :: s == plain + "@host" && IsNumbered(plain, written, n))
      && (written.Some? ==> written.value.Tcp? || written.value.Udp?)
    case _ => false
  }

  /** Brackets around what contains a colon. */
  ghost predicate IsBracketed(s: string, inner: string) {
    if ':' !in s then inner == s
    else exists ip, rest :: s == "[" + ip + "]" + rest && ']' !in ip && inner == ip + rest
  }

  /** An address without a zone, a slash and a length without leading zeros. */
  ghost predicate IsPrefix(t: AddrText, s: string, x: HostPrefix) {
    exists ip, bits :: s == ip + "/" + bits && IsLength(bits, x) && t.parse(ip) == Some(x.addr) && x.addr.zone == ""
  }

  ghost predicate IsLength(bits: string, x: HostPrefix) {
    && bits != "" && Digits(bits) && Value(bits) == x.bits && (|bits| > 1 ==> bits[0] != '0')
    && x.bits <= if x.addr.is6 then 128 else 32
  }

  /** The address or prefix of host mode. */
  ghost predicate IsHostPart(t: AddrText, s: string, ip: Option<Addr>, prefix: Option<HostPrefix>) {
    exists inner ::
      IsBracketed(s, inner)
      && if '/' in inner then ip.None? && prefix.Some? && IsPrefix(t, inner, prefix.value)
         else prefix.None? && ip.Some? && t.parse(inner) == ip
  }

  /** The parts before the last one, in the order hostname or address, published port. */
  ghost predicate IsFront(t: AddrText, parts: seq<string>, p: Spec) {
    match |parts|
    case 0 => p.hostname == "" && p.publishedPort == 0 && p.hostIP.None? && p.hostPrefix.None?
    case 1 =>
      && p.hostIP.None? && p.hostPrefix.None? && parts[0] != ""
      && if IsPort(parts[0]) then p.hostname == "" && Numeral(parts[0], p.publishedPort)
         else p.mode.Ingress? && p.hostname == parts[0] && p.publishedPort == 0
    case 2 =>
      && Numeral(parts[1], p.publishedPort)
      && if p.mode.Host? then p.hostname == "" && IsHostPart(t, parts[0], p.hostIP, p.hostPrefix)
         else p.hostname == parts[0] && p.hostIP.None? && p.hostPrefix.None?
    case _ => false
  }

  /** The protocol that is meant when none is written. */
  function DefaultProtocol(p: Spec): Protocol {
    if p.hostname != "" then Https else Tcp
  }

  /** The parts of a text spell the specification. */
  ghost predicate Spells(t: AddrText, parts: seq<string>, p: Spec, written: Option<Protocol>) {
    && parts != [] && IsFront(t, parts[..|parts| - 1], p)
    && IsEnding(parts[|parts| - 1], p.mode, written, p.containerPort)
    && p.protocol == written.GetOr(DefaultProtocol(p))
  }

  // ---- The parser, piece by piece ----

  lemma PortExactly(s: string, n: Port)
    ensures ParsePort(s) == Some(n) <==> Numeral(s, n)
  {
  }

  lemma PortOrNot(s: string)
    ensures ParsePort(s).Some? <==> IsPort(s)
  {
    if ParsePort(s).Some? {
      PortExactly(s, ParsePort(s).value);
    }
    if IsPort(s) {
      var n: Port :| Numeral(s, n);
      PortExactly(s, n);
    }
  }

  lemma WordExactly(s: string, p: Protocol)
    ensures IsWord(s, p) <==> ProtocolNamed(s) == p && p != UnknownProtocol
  {
  }

  /** A number and what follows it are told apart by the first slash. */
  lemma NumberedParts(s: string, number: string, rest: string, written: Option<Protocol>)
    requires s == number + rest && Digits(number) && IsProtocolPart(rest, written)
    ensures IndexOf(s, '/') == if written.None? then -1 else |number|
    ensures |number| <= |s| && s[..|number|] == number
    ensures if written.None? then |s| == |number| else |number| < |s| && s[|number| + 1..] == rest[1..]
  {
    NoDigit(number, '/');
    assert s[..|number|] == number;
    if written.Some? {
      assert s[|number|] == '/' && s[|number| + 1..] == rest[1..];
      IndexOfIs(s, '/', |number|);
    } else {
      assert s == number;
    }
  }

  ghost predicate AllowedIn(mode: Mode, written: Option<Protocol>) {
    mode.Host? && written.Some? ==> written.value.Tcp? || written.value.Udp?
  }

  lemma NumberedSound(s: string, mode: Mode, end: Ending)
    requires ParseNumbered(s, mode) == Ok(end)
    ensures end.mode == mode && IsNumbered(s, end.specified, end.port) && AllowedIn(mode, end.specified)
  {
    var j := IndexOf(s, '/');
    var number, rest := if j > -1 then s[..j] else s, if j > -1 then s[j..] else "";
    assert s == number + rest;
    PortExactly(number, end.port);
    if j > -1 {
      assert rest[0] == '/' && rest[1..] == s[j + 1..];
      WordExactly(rest[1..], end.specified.value);
    }
    assert IsProtocolPart(rest, end.specified);
  }

  lemma NumberedComplete(s: string, mode: Mode, written: Option<Protocol>, n: Port)
    requires IsNumbered(s, written, n) && AllowedIn(mode, written)
    ensures ParseNumbered(s, mode) == Ok(Ending(mode, written, n))
  {
    var number, rest :| s == number + rest && Numeral(number, n) && IsProtocolPart(rest, written);
    NumberedParts(s, number, rest, written);
    PortExactly(number, n);
    CutNumber(s, mode, number, written, n);
  }

  lemma CutNumber(s: string, mode: Mode, number: string, written: Option<Protocol>, n: Port)
    requires |number| <= |s| && s[..|number|] == number && ParsePort(number) == Some(n) && AllowedIn(mode, written)
    requires IndexOf(s, '/') == if written.None? then -1 else |number|
    requires if written.None? then |s| == |number| else |number| < |s| && IsWord(s[|number| + 1..], written.value)
    ensures ParseNumbered(s, mode) == Ok(Ending(mode, written, n))
  {
    if written.Some? {
      WordExactly(s[|number| + 1..], written.value);
    } else {
      assert s == number;
    }
  }

  lemma NumberedHasNoAt(s: string, written: Option<Protocol>, n: Port)
    requires IsNumbered(s, written, n)
    ensures '@' !in s && ':' !in s
  {
    var number, rest :| s == number + rest && Numeral(number, n) && IsProtocolPart(rest, written);
    NoDigit(number, '@');
    NoDigit(number, ':');
    ProtocolPartHasNoMarks(rest, written);
  }

  lemma ProtocolPartHasNoMarks(rest: string, written: Option<Protocol>)
    requires IsProtocolPart(rest, written)
    ensures '@' !in rest && ':' !in rest
  {
    if written.Some? {
      assert rest == "/" + rest[1..];
    }
  }

  lemma EndingSound(s: string, end: Ending)
    requires ParseEnding(s) == Ok(end)
    ensures IsEnding(s, end.mode, end.specified, end.port)
  {
    var i := IndexOf(s, '@');
    if i == -1 {
      NumberedSound(s, Ingress, end);
    } else {
      NumberedSound(s[..i], Host, end);
      AtHostIsEnding(s, s[..i], end.specified, end.port);
    }
  }

  lemma AtHostIsEnding(s: string, plain: string, written: Option<Protocol>, n: Port)
    requires plain <= s && s[|plain|..] == "@host" && IsNumbered(plain, written, n) && AllowedIn(Host, written)
    ensures IsEnding(s, Host, written, n)
  {
    assert s == plain + "@host";
  }

  lemma EndingComplete(s: string, mode: Mode, written: Option<Protocol>, n: Port)
    requires IsEnding(s, mode, written, n)
    ensures ParseEnding(s) == Ok(Ending(mode, written, n))
  {
    if mode.Ingress? {
      NumberedHasNoAt(s, written, n);
      NumberedComplete(s, mode, written, n);
    } else {
      var plain :| s == plain + "@host" && IsNumbered(plain, written, n);
      NumberedHasNoAt(plain, written, n);
      NumberedComplete(plain, mode, written, n);
      HostEnding(plain);
    }
  }

  lemma BracketsExactly(s: string, inner: string)
    ensures StripBrackets(s) == Some(inner) <==> IsBracketed(s, inner)
  {
    if ':' in s && StripBrackets(s) == Some(inner) {
      var end := IndexOf(s, ']');
      OpenBrackets(s, end);
      assert IsBracketed(s, s[1..end] + s[end + 1..]);
    }
    if ':' in s && IsBracketed(s, inner) {
      var ip, rest :| s == "[" + ip + "]" + rest && ']' !in ip && inner == ip + rest;
      CloseBrackets(ip, rest);
    }
  }

  lemma OpenBrackets(s: string, end: int)
    requires 0 < end < |s| && s[0] == '[' && s[end] == ']' && ']' !in s[..end]
    ensures s == "[" + s[1..end] + "]" + s[end + 1..] && ']' !in s[1..end]
  {
    assert forall k :: 0 <= k < end - 1 ==> s[1..end][k] == s[..end][k + 1];
  }

  lemma CloseBrackets(ip: string, rest: string)
    requires ']' !in ip
    ensures var s := "[" + ip + "]" + rest;
            s[0] == '[' && IndexOf(s, ']') == 1 + |ip| && s[1..1 + |ip|] == ip && s[1 + |ip| + 1..] == rest
  {
    var s := "[" + ip + "]" + rest;
    var end := 1 + |ip|;
    assert s[..end] == "[" + ip && s[end] == ']';
    IndexOfIs(s, ']', end);
  }

  lemma PrefixSound(t: AddrText, s: string, x: HostPrefix)
    requires ParsePrefix(t, s) == Some(x)
    ensures IsPrefix(t, s, x)
  {
    var i := LastIndexOf(s, '/');
    var ip, bits := s[..i], s[i + 1..];
    assert IsLength(bits, x);
    assert s == ip + "/" + bits;
  }

  lemma PrefixComplete(t: AddrText, s: string, x: HostPrefix)
    requires IsPrefix(t, s, x)
    ensures ParsePrefix(t, s) == Some(x)
  {
    var ip, bits :| s == ip + "/" + bits && IsLength(bits, x) && t.parse(ip) == Some(x.addr) && x.addr.zone == "";
    CutLength(s, ip, bits);
    LengthReads(bits, x);
  }

  lemma LengthReads(bits: string, x: HostPrefix)
    requires IsLength(bits, x)
    ensures ParseUint(bits, if x.addr.is6 then 128 else 32) == Some(x.bits)
    ensures |bits| > 1 ==> '1' <= bits[0] <= '9'
  {
  }

  lemma CutLength(s: string, ip: string, bits: string)
    requires s == ip + "/" + bits && Digits(bits)
    ensures LastIndexOf(s, '/') == |ip| && s[..|ip|] == ip && s[|ip| + 1..] == bits
  {
    NoDigit(bits, '/');
    assert s[|ip|] == '/' && s[|ip| + 1..] == bits && s[..|ip|] == ip;
    LastIndexOfIs(s, '/', |ip|);
  }

  lemma HostSound(t: AddrText, s: string, base: Spec, p: Spec)
    requires base.hostIP.None? && base.hostPrefix.None? && ParseHost(t, s, base) == Ok(p)
    ensures p == base.(hostIP := p.hostIP, hostPrefix := p.hostPrefix) && IsHostPart(t, s, p.hostIP, p.hostPrefix)
  {
    var inner := StripBrackets(s).value;
    BracketsExactly(s, inner);
    if '/' in inner {
      PrefixSound(t, inner, p.hostPrefix.value);
    }
  }

  lemma HostComplete(t: AddrText, s: string, base: Spec, p: Spec)
    requires base == p.(hostIP := None, hostPrefix := None) && IsHostPart(t, s, p.hostIP, p.hostPrefix)
    ensures ParseHost(t, s, base) == Ok(p)
  {
    var inner :|
      IsBracketed(s, inner)
      && if '/' in inner then p.hostIP.None? && p.hostPrefix.Some? && IsPrefix(t, inner, p.hostPrefix.value)
         else p.hostPrefix.None? && p.hostIP.Some? && t.parse(inner) == p.hostIP;
    BracketsExactly(s, inner);
    if '/' in inner {
      PrefixComplete(t, inner, p.hostPrefix.value);
    }
  }

  /** What the parser starts from: nothing is known but the last part. */
  ghost predicate Bare(p: Spec) {
    p.hostname == "" && p.publishedPort == 0 && p.hostIP.None? && p.hostPrefix.None?
    && (p.mode.Ingress? || p.mode.Host?)
  }

  function Bared(p: Spec): Spec {
    p.(hostname := "", publishedPort := 0, hostIP := None, hostPrefix := None)
  }

  lemma FrontSound(t: AddrText, parts: seq<string>, base: Spec, p: Spec)
    requires 1 <= |parts| <= 3 && Bare(base) && ParseFront(t, parts, base) == Ok(p)
    ensures Bared(p) == base && IsFront(t, parts[..|parts| - 1], p)
  {
    var front := parts[..|parts| - 1];
    if |parts| == 2 {
      PortOrNot(parts[0]);
      PortExactly(parts[0], p.publishedPort);
    } else if |parts| == 3 {
      PortExactly(parts[1], p.publishedPort);
      if p.mode.Host? {
        HostSound(t, parts[0], base.(publishedPort := p.publishedPort), p);
      }
    }
  }

  lemma FrontComplete(t: AddrText, parts: seq<string>, base: Spec, p: Spec)
    requires 1 <= |parts| <= 3 && Bare(base) && Bared(p) == base && IsFront(t, parts[..|parts| - 1], p)
    ensures ParseFront(t, parts, base) == Ok(p)
  {
    var front := parts[..|parts| - 1];
    if |parts| == 2 {
      PortOrNot(parts[0]);
      PortExactly(parts[0], p.publishedPort);
    } else if |parts| == 3 {
      PortExactly(parts[1], p.publishedPort);
      if p.mode.Host? {
        HostComplete(t, parts[0], base.(publishedPort := p.publishedPort), p);
      }
    }
  }

  // ---- The parser as a whole ----

  lemma FinishExactly(p: Spec, written: Option<Protocol>, q: Spec)
    requires p.protocol == written.GetOr(Tcp)
    ensures Finish(p, written) == Ok(q)
            <==> q == p.(protocol := written.GetOr(DefaultProtocol(p))) && ValidSpec(q)
                 && (p.hostname != "" && written.Some? ==> written.value.Http? || written.value.Https?)
  {
  }

  lemma AssembleSound(t: AddrText, parts: seq<string>, p: Spec) returns (written: Option<Protocol>)
    requires 1 <= |parts| <= 3 && Assemble(t, parts) == Ok(p)
    ensures ValidSpec(p) && Spells(t, parts, p, written)
  {
    var end := ParseEnding(parts[|parts| - 1]).value;
    written := end.specified;
    EndingSound(parts[|parts| - 1], end);
    var q := ParseFront(t, parts, Started(end)).value;
    FrontSound(t, parts, Started(end), q);
    FinishExactly(q, written, p);
    SameFront(t, parts[..|parts| - 1], q, p);
  }

  /** The protocol does not matter for the front. */
  lemma SameFront(t: AddrText, front: seq<string>, p: Spec, q: Spec)
    requires q == p.(protocol := q.protocol) && IsFront(t, front, p)
    ensures IsFront(t, front, q)
  {
  }

  lemma AssembleComplete(t: AddrText, parts: seq<string>, p: Spec, written: Option<Protocol>)
    requires 1 <= |parts| <= 3 && ValidSpec(p) && Spells(t, parts, p, written)
    ensures Assemble(t, parts) == Ok(p)
  {
    EndingComplete(parts[|parts| - 1], p.mode, written, p.containerPort);
    var end := Ending(p.mode, written, p.containerPort);
    var q := p.(protocol := written.GetOr(Tcp));
    SameFront(t, parts[..|parts| - 1], p, q);
    FrontComplete(t, parts, Started(end), q);
    FinishExactly(q, written, p);
  }

  /** The parser accepts a text as a specification if and only if the text has at
      most one '@', its parts spell the specification, and that is valid. */
  lemma ParseExactly(t: AddrText, s: string, p: Spec)
    ensures Parse(t, s) == Ok(p)
            <==> CountChar(s, '@') <= 1 && ValidSpec(p) && exists written :: Spells(t, SplitParts(s), p, written)
  {
    ReadsBack(t, s, p);
    if Assemble(t, SplitParts(s)) == Ok(p) {
      var written := AssembleSound(t, SplitParts(s), p);
    }
    if ValidSpec(p) && exists written :: Spells(t, SplitParts(s), p, written) {
      var written :| Spells(t, SplitParts(s), p, written);
      AssembleComplete(t, SplitParts(s), p, written);
    }
  }

  /** What validation demands. */
  lemma ValidExactly(p: Spec)
    ensures ValidSpec(p) <==>
              && p.containerPort != 0 && p.protocol in {Http, Https, Tcp, Udp}
              && ((&& p.mode == Ingress && p.hostIP.None? && p.hostPrefix.None?
                   && (p.hostname != "" ==> p.protocol in {Http, Https} && '.' in p.hostname))
                  || (&& p.mode == Host && p.publishedPort != 0 && p.protocol in {Tcp, Udp} && p.hostname == ""
                      && (p.hostIP.None? || p.hostPrefix.None?)))
  {
  }

  // ---- The text form and the short form ----

  /** What is written before the container port. */
  function Before(t: AddrText, p: Spec): string {
    (if p.hostname != "" then p.hostname + ":"
     else if p.hostIP.Some? then ShowIP(t, p.hostIP.value) + ":"
     else if p.hostPrefix.Some? then ShowPrefix(t, p.hostPrefix.value) + ":" else "")
    + if p.publishedPort != 0 then Decimal(p.publishedPort) + ":" else ""
  }

  function ModeText(p: Spec): string {
    if p.mode.Host? then "@host" else ""
  }

  /** The text of a valid specification: hostname or address, published port,
      container port, protocol and mode, with the protocol always written. */
  lemma TextForm(t: AddrText, p: Spec) returns (word: string)
    requires ValidSpec(p)
    ensures IsWord(word, p.protocol)
    ensures Text(t, p) == Before(t, p) + (Decimal(p.containerPort) + "/" + word + ModeText(p))
  {
    word := ProtocolName(p.protocol);
    BeforeJoins(t, p, Tail(p));
    TextIsJoined(t, p);
    if Front(t, p) != [] {
      JoinConcat(Front(t, p), ':', Tail(p));
    }
    assert Tail(p) == Decimal(p.containerPort) + "/" + word + ModeText(p);
  }

  /** The short form leaves the protocol out. */
  function ShortEnding(p: Spec): string {
    Decimal(p.containerPort) + ModeText(p)
  }

  function ShortText(t: AddrText, p: Spec): string {
    Before(t, p) + ShortEnding(p)
  }

  lemma BeforeJoins(t: AddrText, p: Spec, tail: string)
    requires ValidSpec(p)
    ensures Join(Front(t, p) + [tail], ':') == Before(t, p) + tail
    ensures |Front(t, p)| <= 2
  {
    var front := Front(t, p);
    if |front| == 1 {
      assert front + [tail] == [front[0], tail];
      JoinTwo(front[0], tail);
    } else if |front| == 2 {
      assert front + [tail] == [front[0]] + [front[1], tail];
      JoinThree(front[0], front[1], tail);
      assert front[0] + ":" + front[1] + ":" + tail == front[0] + ":" + (front[1] + ":") + tail;
    } else {
      assert front + [tail] == [tail];
    }
  }

  /** The parts of such a text, if the hostname can be told from the ports. */
  lemma PartsOfForm(t: AddrText, p: Spec, tail: string)
    requires ValidSpec(p) && ':' !in tail && (p.publishedPort != 0 || ':' !in p.hostname)
    ensures SplitParts(Before(t, p) + tail) == Front(t, p) + [tail]
  {
    BeforeJoins(t, p, tail);
    NumberText(p.publishedPort);
    var parts := Front(t, p) + [tail];
    assert Separated(parts);
    PartsAreUnique(Before(t, p) + tail, parts);
  }

  lemma ShortEndingIs(p: Spec)
    requires ValidSpec(p)
    ensures IsEnding(ShortEnding(p), p.mode, None, p.containerPort)
    ensures ':' !in ShortEnding(p) && '/' !in ShortEnding(p)
    ensures CountChar(ShortEnding(p), '@') == if p.mode.Host? then 1 else 0
  {
    var number := Decimal(p.containerPort);
    DecimalValue(p.containerPort);
    NoDigit(number, ':');
    NoDigit(number, '/');
    NoDigit(number, '@');
    CountNone(number, '@');
    assert number == number + "" && IsProtocolPart("", None) && Numeral(number, p.containerPort);
    assert IsNumbered(number, None, p.containerPort);
    if p.mode.Host? {
      CountConcat(number, "@host", '@');
      AtHost();
    } else {
      assert ShortEnding(p) == number;
    }
  }

  lemma FrontIs(t: AddrText, p: Spec)
    requires ValidSpec(p) && AddressesPrintable(t, p)
    ensures IsFront(t, Front(t, p), p)
  {
    NumberText(p.publishedPort);
    PortExactly(Decimal(p.publishedPort), p.publishedPort);
    if p.mode.Host? {
      if p.hostIP.Some? || p.hostPrefix.Some? {
        var base := p.(hostIP := None, hostPrefix := None);
        HostFirstText(t, p, base);
        HostSound(t, HostFirst(t, p), base, p);
        assert Front(t, p) == [HostFirst(t, p), Decimal(p.publishedPort)];
      } else {
        assert Front(t, p) == [Decimal(p.publishedPort)];
      }
    } else {
      IngressFrontIs(t, p);
    }
  }

  lemma IngressFrontIs(t: AddrText, p: Spec)
    requires ValidSpec(p) && p.mode.Ingress? && Numeral(Decimal(p.publishedPort), p.publishedPort)
    ensures IsFront(t, Front(t, p), p)
  {
    if p.hostname != "" {
      HostnameIsNoPort(p.hostname);
      PortOrNot(p.hostname);
    }
  }

  function AtSum(parts: seq<string>): nat {
    if parts == [] then 0 else CountChar(parts[0], '@') + AtSum(parts[1..])
  }

  lemma {:induction false} CountParts(parts: seq<string>)
    requires parts != []
    ensures CountChar(Join(parts, ':'), '@') == AtSum(parts)
  {
    if |parts| > 1 {
      CountParts(parts[1..]);
      CountJoined(parts[0], Join(parts[1..], ':'));
    }
  }

  lemma FrontAts(t: AddrText, p: Spec, tail: string)
    requires ValidSpec(p) && AddressesPrintable(t, p)
    ensures AtSum(Front(t, p) + [tail]) == CountChar(p.hostname, '@') + CountChar(tail, '@')
  {
    NumberText(p.publishedPort);
    CountNone(Decimal(p.publishedPort), '@');
    CountNone("", '@');
    var parts := Front(t, p) + [tail];
    if p.mode.Host? && (p.hostIP.Some? || p.hostPrefix.Some?) {
      HostFirstText(t, p, p.(hostIP := None, hostPrefix := None));
      CountNone(HostFirst(t, p), '@');
    }
    AtSumIs(parts);
  }

  lemma AtSumIs(parts: seq<string>)
    ensures |parts| == 1 ==> AtSum(parts) == CountChar(parts[0], '@')
    ensures |parts| == 2 ==> AtSum(parts) == CountChar(parts[0], '@') + CountChar(parts[1], '@')
    ensures |parts| == 3 ==>
              AtSum(parts) == CountChar(parts[0], '@') + CountChar(parts[1], '@') + CountChar(parts[2], '@')
  {
    if |parts| == 2 {
      assert parts[1..] == [parts[1]];
    } else if |parts| == 3 {
      assert parts[1..] == [parts[1], parts[2]] && parts[1..][1..] == [parts[2]];
    }
  }

  lemma ShortAts(t: AddrText, p: Spec)
    requires ValidSpec(p) && AddressesPrintable(t, p)
    ensures CountChar(ShortText(t, p), '@') == CountChar(p.hostname, '@') + if p.mode.Host? then 1 else 0
  {
    ShortEndingIs(p);
    BeforeJoins(t, p, ShortEnding(p));
    CountParts(Front(t, p) + [ShortEnding(p)]);
    FrontAts(t, p, ShortEnding(p));
  }

  lemma ShortReadsBack(t: AddrText, p: Spec)
    requires ValidSpec(p) && AddressesPrintable(t, p) && Recoverable(p) && p.protocol == DefaultProtocol(p)
    ensures Parse(t, ShortText(t, p)) == Ok(p)
  {
    ShortEndingIs(p);
    ShortAts(t, p);
    if p.mode.Host? {
      CountNone(p.hostname, '@');
    }
    PartsOfForm(t, p, ShortEnding(p));
    ShortSpells(t, p);
    ParseExactly(t, ShortText(t, p), p);
  }

  lemma ShortSpells(t: AddrText, p: Spec)
    requires ValidSpec(p) && AddressesPrintable(t, p) && p.protocol == DefaultProtocol(p)
    ensures Spells(t, Front(t, p) + [ShortEnding(p)], p, None)
  {
    ShortEndingIs(p);
    FrontIs(t, p);
    var parts := Front(t, p) + [ShortEnding(p)];
    assert parts[..|parts| - 1] == Front(t, p);
  }

  /** Without a slash no protocol is written. */
  lemma NoSlashNoProtocol(s: string, mode: Mode, written: Option<Protocol>, n: Port)
    requires IsEnding(s, mode, written, n) && '/' !in s
    ensures written.None?
  {
    if mode.Ingress? {
      NumberedSlash(s, written, n);
    } else {
      var plain :| s == plain + "@host" && IsNumbered(plain, written, n);
      NumberedSlash(plain, written, n);
    }
  }

  lemma NumberedSlash(s: string, written: Option<Protocol>, n: Port)
    requires IsNumbered(s, written, n)
    ensures written.Some? ==> '/' in s
  {
    var number, rest :| s == number + rest && Numeral(number, n) && IsProtocolPart(rest, written);
    if written.Some? {
      assert s[|number|] == '/';
    }
  }

  lemma ShortMeansDefault(t: AddrText, p: Spec)
    requires ValidSpec(p) && AddressesPrintable(t, p) && Parse(t, ShortText(t, p)) == Ok(p)
    ensures Recoverable(p) && p.protocol == DefaultProtocol(p)
  {
    var s, tail := ShortText(t, p), ShortEnding(p);
    ShortEndingIs(p);
    ShortAts(t, p);
    ParseExactly(t, s, p);
    var written :| Spells(t, SplitParts(s), p, written);
    if p.publishedPort != 0 || ':' !in p.hostname {
      PartsOfForm(t, p, tail);
      NoSlashNoProtocol(tail, p.mode, written, p.containerPort);
    } else {
      CutIsNoFront(t, p, tail, written);
    }
  }

  /** A hostname that was cut is not the hostname. */
  lemma CutIsNoFront(t: AddrText, p: Spec, tail: string, written: Option<Protocol>)
    requires ValidSpec(p) && p.publishedPort == 0 && ':' in p.hostname && ':' !in tail
    ensures !Spells(t, SplitParts(Before(t, p) + tail), p, written)
  {
    assert Before(t, p) + tail == p.hostname + ":" + tail;
    HostnameCut(p.hostname, tail);
    var parts := SplitParts(p.hostname + ":" + tail);
    assert |parts[..2]| == 2 && p.hostname != parts[0];
  }

  /** The short form of a valid specification, with the protocol left out, means that
      specification if and only if the full form does and the protocol is the default
      one: https with a hostname, tcp without. */
  lemma ShortFormLaw(t: AddrText, p: Spec)
    requires ValidSpec(p) && AddressesPrintable(t, p)
    ensures Parse(t, ShortText(t, p)) == Ok(p) <==> Recoverable(p) && p.protocol == DefaultProtocol(p)
  {
    if Parse(t, ShortText(t, p)) == Ok(p) {
      ShortMeansDefault(t, p);
    }
    if Recoverable(p) && p.protocol == DefaultProtocol(p) {
      ShortReadsBack(t, p);
    }
  }
}
