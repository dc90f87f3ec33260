/** The generated Caddyfile: records are ordered local machine first, upstreams
    are gathered in that order, and user-defined configs are added one by one as
    long as the validator accepts the result. */
module Caddyfile {
  import opened Collections
  import opened Sorting

  datatype Protocol = Http | Https | Other

  datatype Port = Port(ingress: bool, protocol: Protocol, hostname: string, upstream: string)

  /** A container record. `ip` is None outside the cluster network, `ports` is None
      if the ports do not parse; a port's `upstream` is the container's address with that port. */
  datatype Record = Record(machine: string, service: string, created: int,
                           ip: Option<string>, ports: Option<seq<Port>>, config: string)

  type Upstreams = map<string, seq<string>>

  datatype Rendered = Rendered(text: string) | RenderError(message: string)

  /** What the generator is given: its machine, the base template, the template
      renderer, the validator (None if it accepts), all functions of their inputs,
      and the footer of a file without user-defined configs. */
  datatype Generator = Generator(
    machine: string,
    footer: string,
    base: (Upstreams, Upstreams) -> Rendered,
    render: (string, Upstreams, string) -> Rendered,
    validate: string -> Option<string>)

  const CADDY := "caddy"

  // ---- Order of records ----

  function Rank(g: Generator, r: Record): nat {
    if r.machine == g.machine then 0 else 1
  }

  /** Local machine first, then service name, then creation time. */
  predicate RecordLeq(g: Generator, a: Record, b: Record) {
    Rank(g, a) < Rank(g, b)
    || (Rank(g, a) == Rank(g, b)
        && ((a.service != b.service && StringLeq(a.service, b.service))
            || (a.service == b.service && a.created <= b.created)))
  }

  function Leq(g: Generator): (Record, Record) -> bool {
    (a, b) => RecordLeq(g, a, b)
  }

  lemma LeqIsPreorder(g: Generator)
    ensures TotalPreorder(Leq(g))
  {
    forall a, b: Record
      ensures RecordLeq(g, a, b) || RecordLeq(g, b, a)
    {
      StringOrderTotal(a.service, b.service);
    }
    forall a, b, c: Record | RecordLeq(g, a, b) && RecordLeq(g, b, c)
      ensures RecordLeq(g, a, c)
    {
      LeqTransitive(g, a, b, c);
    }
  }

  lemma LeqTransitive(g: Generator, a: Record, b: Record, c: Record)
    requires RecordLeq(g, a, b) && RecordLeq(g, b, c)
    ensures RecordLeq(g, a, c)
  {
    if StringLeq(a.service, b.service) && StringLeq(b.service, c.service) {
      StringOrderTransitive(a.service, b.service, c.service);
      StringOrderTotal(a.service, b.service);
    }
  }

  // ---- Upstreams ----

  /** A value to append under a key. */
  datatype Pair = Pair(key: string, value: string)

  /** The values of one key, in order. */
  function Picked(pairs: seq<Pair>, key: string): seq<string> {
    if pairs == [] then []
    else if pairs[|pairs| - 1].key == key then Picked(pairs[..|pairs| - 1], key) + [pairs[|pairs| - 1].value]
    else Picked(pairs[..|pairs| - 1], key)
  }

  /** The map lists, for exactly the keys that occur, their values in order. */
  ghost predicate Lists(m: Upstreams, pairs: seq<Pair>) {
    forall key :: (key in m <==> Picked(pairs, key) != []) && (key in m ==> m[key] == Picked(pairs, key))
  }

  function Append(m: Upstreams, x: Pair): Upstreams {
    m[x.key := (if x.key in m then m[x.key] else []) + [x.value]]
  }

  lemma AppendLists(m: Upstreams, pairs: seq<Pair>, x: Pair)
    requires Lists(m, pairs)
    ensures Lists(Append(m, x), pairs + [x])
  {
    assert (pairs + [x])[..|pairs|] == pairs;
  }

  lemma ListsIsUnique(a: Upstreams, b: Upstreams, pairs: seq<Pair>)
    requires Lists(a, pairs) && Lists(b, pairs)
    ensures a == b
  {
    assert forall key :: key in a <==> Picked(pairs, key) != [];
    assert forall key :: key in b <==> Picked(pairs, key) != [];
    assert a.Keys == b.Keys;
  }

  /** What the ingress ports of one container contribute to the given protocol. */
  function PortPairs(ports: seq<Port>, p: Protocol): seq<Pair> {
    if ports == [] then []
    else
      var init, x := PortPairs(ports[..|ports| - 1], p), ports[|ports| - 1];
      if x.ingress && x.protocol == p then init + [Pair(x.hostname, x.upstream)] else init
  }

  function HostPairs(p: Protocol): Record -> seq<Pair> {
    (r: Record) => if r.ip.None? || r.ports.None? then [] else PortPairs(r.ports.value, p)
  }

  function ServicePair(): Record -> seq<Pair> {
    (r: Record) => if r.ip.None? then [] else [Pair(r.service, r.ip.value)]
  }

  /** The contributions of all records, in record order. */
  function Flat(f: Record -> seq<Pair>, rs: seq<Record>): seq<Pair> {
    if rs == [] then [] else Flat(f, rs[..|rs| - 1]) + f(rs[|rs| - 1])
  }

  lemma {:induction false} FlatConcat(f: Record -> seq<Pair>, a: seq<Record>, b: seq<Record>)
    ensures Flat(f, a + b) == Flat(f, a) + Flat(f, b)
  {
    if b == [] {
      assert a + b == a && Flat(f, a) + [] == Flat(f, a);
    } else {
      var init, last := b[..|b| - 1], b[|b| - 1];
      assert (a + b)[..|a + b| - 1] == a + init && (a + b)[|a + b| - 1] == last;
      FlatConcat(f, a, init);
      assert Flat(f, a) + Flat(f, init) + f(last) == Flat(f, a) + (Flat(f, init) + f(last));
    }
  }

  lemma FlatSnoc(f: Record -> seq<Pair>, rs: seq<Record>, i: nat)
    requires i < |rs|
    ensures Flat(f, rs[..i + 1]) == Flat(f, rs[..i]) + f(rs[i])
  {
    assert rs[..i + 1][..i] == rs[..i];
  }

  method AddPorts(ports: seq<Port>, p: Protocol, m: Upstreams, ghost before: seq<Pair>) returns (m': Upstreams)
    requires Lists(m, before)
    ensures Lists(m', before + PortPairs(ports, p))
  {
    m' := m;
    assert before + PortPairs([], p) == before;
    for i := 0 to |ports|
      invariant Lists(m', before + PortPairs(ports[..i], p))
    {
      assert ports[..i + 1][..i] == ports[..i];
      if ports[i].ingress && ports[i].protocol == p {
        var x := Pair(ports[i].hostname, ports[i].upstream);
        AppendLists(m', before + PortPairs(ports[..i], p), x);
        assert before + PortPairs(ports[..i], p) + [x] == before + PortPairs(ports[..i + 1], p);
        m' := Append(m', x);
      }
    }
    assert ports[..|ports|] == ports;
  }

  method HttpUpstreamsFromPorts(rs: seq<Record>) returns (http: Upstreams, https: Upstreams)
    ensures Lists(http, Flat(HostPairs(Http), rs)) && Lists(https, Flat(HostPairs(Https), rs))
  {
    http, https := map[], map[];
    for i := 0 to |rs|
      invariant Lists(http, Flat(HostPairs(Http), rs[..i])) && Lists(https, Flat(HostPairs(Https), rs[..i]))
    {
      FlatSnoc(HostPairs(Http), rs, i);
      FlatSnoc(HostPairs(Https), rs, i);
      if rs[i].ip.Some? && rs[i].ports.Some? {
        http := AddPorts(rs[i].ports.value, Http, http, Flat(HostPairs(Http), rs[..i]));
        https := AddPorts(rs[i].ports.value, Https, https, Flat(HostPairs(Https), rs[..i]));
      } else {
        assert Flat(HostPairs(Http), rs[..i]) + [] == Flat(HostPairs(Http), rs[..i]);
        assert Flat(HostPairs(Https), rs[..i]) + [] == Flat(HostPairs(Https), rs[..i]);
      }
    }
    assert rs[..|rs|] == rs;
  }

  method ServiceUpstreams(rs: seq<Record>) returns (m: Upstreams)
    ensures Lists(m, Flat(ServicePair(), rs))
  {
    m := map[];
    for i := 0 to |rs|
      invariant Lists(m, Flat(ServicePair(), rs[..i]))
    {
      FlatSnoc(ServicePair(), rs, i);
      if rs[i].ip.Some? {
        AppendLists(m, Flat(ServicePair(), rs[..i]), Pair(rs[i].service, rs[i].ip.value));
        m := Append(m, Pair(rs[i].service, rs[i].ip.value));
      } else {
        assert Flat(ServicePair(), rs[..i]) + [] == Flat(ServicePair(), rs[..i]);
      }
    }
    assert rs[..|rs|] == rs;
  }

  // ---- Local upstreams come first ----

  lemma {:induction false} PickedConcat(a: seq<Pair>, b: seq<Pair>, key: string)
    ensures Picked(a + b, key) == Picked(a, key) + Picked(b, key)
  {
    if b == [] {
      assert a + b == a && Picked(a, key) + [] == Picked(a, key);
    } else {
      assert (a + b)[..|a + b| - 1] == a + b[..|b| - 1];
      PickedConcat(a, b[..|b| - 1], key);
    }
  }

  /** Where the local records end in a sorted list. */
  function LocalCount(g: Generator, rs: seq<Record>): (n: nat)
    ensures n <= |rs| && forall k :: 0 <= k < n ==> Rank(g, rs[k]) == 0
    ensures n < |rs| ==> Rank(g, rs[n]) != 0
  {
    if rs == [] || Rank(g, rs[0]) != 0 then 0 else 1 + LocalCount(g, rs[1..])
  }

  lemma SortedLocalFirst(g: Generator, rs: seq<Record>)
    requires Sorted(rs, Leq(g))
    ensures forall k :: 0 <= k < |rs| ==> (rs[k].machine == g.machine <==> k < LocalCount(g, rs))
  {
    var n := LocalCount(g, rs);
    forall k | n < k < |rs|
      ensures Rank(g, rs[k]) == 1
    {
      assert Leq(g)(rs[n], rs[k]);
    }
  }

  lemma PickedSplits(f: Record -> seq<Pair>, rs: seq<Record>, n: nat, key: string)
    requires n <= |rs|
    ensures Picked(Flat(f, rs), key) == Picked(Flat(f, rs[..n]), key) + Picked(Flat(f, rs[n..]), key)
  {
    assert rs == rs[..n] + rs[n..];
    FlatConcat(f, rs[..n], rs[n..]);
    PickedConcat(Flat(f, rs[..n]), Flat(f, rs[n..]), key);
  }

  /** What the key lists is what the first n records give it, then what the others do. */
  ghost predicate ListsFirst(f: Record -> seq<Pair>, rs: seq<Record>, n: nat, key: string)
    requires n <= |rs|
  {
    Picked(Flat(f, rs), key) == Picked(Flat(f, rs[..n]), key) + Picked(Flat(f, rs[n..]), key)
  }

  /** In the sorted records every hostname, and every service whose upstreams a
      user-defined config can name, lists the upstreams of the local machine, all
      of them, before any remote one. */
  lemma LocalUpstreamsFirst(g: Generator, records: seq<Record>, p: Protocol, key: string)
    ensures var rs := Sort(records, Leq(g));
            var n := LocalCount(g, rs);
            && (forall k :: 0 <= k < |rs| ==> (rs[k].machine == g.machine <==> k < n))
            && ListsFirst(HostPairs(p), rs, n, key) && ListsFirst(ServicePair(), rs, n, key)
  {
    LeqIsPreorder(g);
    SortSorts(records, Leq(g));
    var rs := Sort(records, Leq(g));
    SortedLocalFirst(g, rs);
    PickedSplits(HostPairs(p), rs, LocalCount(g, rs), key);
    PickedSplits(ServicePair(), rs, LocalCount(g, rs), key);
  }

  // ---- What is listed, and how often ----

  /** How many ingress ports of the protocol have the hostname and the upstream. */
  function PortCount(ports: seq<Port>, p: Protocol, host: string, upstream: string): nat {
    if ports == [] then 0
    else PortCount(ports[..|ports| - 1], p, host, upstream)
         + if ports[|ports| - 1] == Port(true, p, host, upstream) then 1 else 0
  }

  /** How many such ports the records on the cluster network have. */
  function HostCount(rs: seq<Record>, p: Protocol, host: string, upstream: string): nat {
    if rs == [] then 0
    else
      var x := rs[|rs| - 1];
      HostCount(rs[..|rs| - 1], p, host, upstream)
      + if x.ip.Some? && x.ports.Some? then PortCount(x.ports.value, p, host, upstream) else 0
  }

  /** How many records of the service have the address. */
  function AddressCount(rs: seq<Record>, service: string, address: string): nat {
    if rs == [] then 0
    else AddressCount(rs[..|rs| - 1], service, address)
         + if rs[|rs| - 1].service == service && rs[|rs| - 1].ip == Some(address) then 1 else 0
  }

  lemma {:induction false} PortPairsCount(ports: seq<Port>, p: Protocol, host: string, upstream: string)
    ensures multiset(Picked(PortPairs(ports, p), host))[upstream] == PortCount(ports, p, host, upstream)
  {
    if ports != [] {
      var init, x := ports[..|ports| - 1], ports[|ports| - 1];
      PortPairsCount(init, p, host, upstream);
      if x.ingress && x.protocol == p {
        PickedOneMore(PortPairs(init, p), Pair(x.hostname, x.upstream), host, upstream);
      }
    }
  }

  lemma PickedOneMore(pairs: seq<Pair>, x: Pair, key: string, value: string)
    ensures multiset(Picked(pairs + [x], key))[value]
         == multiset(Picked(pairs, key))[value] + if x == Pair(key, value) then 1 else 0
  {
    assert (pairs + [x])[..|pairs|] == pairs;
  }

  /** Every hostname lists an upstream exactly as often as an ingress port of the
      protocol with that hostname and upstream occurs among the connected records. */
  lemma {:induction false} HostsListPorts(rs: seq<Record>, p: Protocol, host: string, upstream: string)
    ensures multiset(Picked(Flat(HostPairs(p), rs), host))[upstream] == HostCount(rs, p, host, upstream)
  {
    if rs != [] {
      var init, x := rs[..|rs| - 1], rs[|rs| - 1];
      HostsListPorts(init, p, host, upstream);
      PickedConcat(Flat(HostPairs(p), init), HostPairs(p)(x), host);
      if x.ip.Some? && x.ports.Some? {
        PortPairsCount(x.ports.value, p, host, upstream);
      }
    }
  }

  /** Every service lists an address exactly as often as a connected record of it has the address. */
  lemma {:induction false} ServicesListAddresses(rs: seq<Record>, service: string, address: string)
    ensures multiset(Picked(Flat(ServicePair(), rs), service))[address] == AddressCount(rs, service, address)
  {
    if rs != [] {
      var init, x := rs[..|rs| - 1], rs[|rs| - 1];
      ServicesListAddresses(init, service, address);
      var pairs := Flat(ServicePair(), init);
      if x.ip.Some? {
        assert Flat(ServicePair(), rs) == pairs + [Pair(x.service, x.ip.value)];
        PickedOneMore(pairs, Pair(x.service, x.ip.value), service, address);
      } else {
        assert pairs + [] == pairs && Flat(ServicePair(), rs) == pairs;
      }
    }
  }

  /** Records are in order: local ones first, then by service name, then from the oldest to the newest. */
  lemma RecordsInOrder(g: Generator, records: seq<Record>, j: nat, k: nat)
    requires j < k < |Sort(records, Leq(g))|
    ensures var a, b := Sort(records, Leq(g))[j], Sort(records, Leq(g))[k];
            && (b.machine == g.machine ==> a.machine == g.machine)
            && ((a.machine == g.machine <==> b.machine == g.machine) ==> StringLeq(a.service, b.service))
            && ((a.machine == g.machine <==> b.machine == g.machine) && a.service == b.service
                ==> a.created <= b.created)
  {
    LeqIsPreorder(g);
    SortSorts(records, Leq(g));
    var rs := Sort(records, Leq(g));
    assert Leq(g)(rs[j], rs[k]);
    StringOrderTotal(rs[j].service, rs[j].service);
  }

  // ---- Latest containers ----

  /** The most recent record of a service among those that count; the earliest listed of equals. */
  function Latest(rs: seq<Record>, counts: Record -> bool): (r: Option<Record>)
    ensures r.None? <==> forall k :: 0 <= k < |rs| ==> !counts(rs[k])
    ensures r.Some? ==> r.value in rs && counts(r.value)
                        && forall k :: 0 <= k < |rs| && counts(rs[k]) ==> rs[k].created <= r.value.created
  {
    if rs == [] then None
    else
      var init, x := rs[..|rs| - 1], rs[|rs| - 1];
      assert rs == init + [x];
      var before := Latest(init, counts);
      if counts(x) && (before.None? || before.value.created < x.created) then Some(x) else before
  }

  /** Of records that were created at the same time the first listed is taken. */
  lemma {:induction false} LatestIsFirstOfEquals(rs: seq<Record>, counts: Record -> bool) returns (i: nat)
    requires Latest(rs, counts).Some?
    ensures i < |rs| && rs[i] == Latest(rs, counts).value && counts(rs[i])
    ensures forall j :: 0 <= j < i && counts(rs[j]) ==> rs[j].created < rs[i].created
    ensures forall j :: i <= j < |rs| && counts(rs[j]) ==> rs[j].created <= rs[i].created
  {
    var init, x := rs[..|rs| - 1], rs[|rs| - 1];
    var before := Latest(init, counts);
    if counts(x) && (before.None? || before.value.created < x.created) {
      i := |rs| - 1;
      assert forall j :: 0 <= j < i ==> rs[j] == init[j];
    } else {
      i := LatestIsFirstOfEquals(init, counts);
      assert forall j :: 0 <= j < |init| ==> rs[j] == init[j];
    }
  }

  function OfService(service: string): Record -> bool {
    (r: Record) => r.service == service
  }

  function LocalCaddy(g: Generator): Record -> bool {
    (r: Record) => r.machine == g.machine && r.service == CADDY
  }

  /** The container that the global config comes from is a caddy container of this
      machine, none of these is newer, and there is none only if there is no such container. */
  lemma GlobalComesFromHere(g: Generator, rs: seq<Record>)
    ensures match Latest(rs, LocalCaddy(g))
            case None => forall x :: x in rs ==> x.machine != g.machine || x.service != "caddy"
            case Some(r) =>
              && r in rs && r.machine == g.machine && r.service == "caddy"
              && forall x :: x in rs && x.machine == g.machine && x.service == "caddy" ==> x.created <= r.created
  {
  }

  /** The container that a service's config comes from is one of that service, on any machine, and none is newer. */
  lemma ConfigComesFromService(rs: seq<Record>, name: string)
    ensures match Latest(rs, OfService(name))
            case None => forall x :: x in rs ==> x.service != name
            case Some(r) =>
              r in rs && r.service == name && forall x :: x in rs && x.service == name ==> x.created <= r.created
  {
  }

  method FindLatest(rs: seq<Record>, counts: Record -> bool) returns (r: Option<Record>)
    ensures r == Latest(rs, counts)
  {
    r := None;
    for i := 0 to |rs|
      invariant r == Latest(rs[..i], counts)
    {
      assert rs[..i + 1][..i] == rs[..i];
      if counts(rs[i]) && (r.None? || rs[i].created > r.value.created) {
        r := Some(rs[i]);
      }
    }
    assert rs[..|rs|] == rs;
  }

  function At(m: map<string, Record>, name: string): Option<Record> {
    if name in m then Some(m[name]) else None
  }

  /** The map gives the most recent record of every service. */
  ghost predicate IsLatest(m: map<string, Record>, rs: seq<Record>) {
    forall name :: At(m, name) == Latest(rs, OfService(name))
  }

  lemma LatestSnoc(rs: seq<Record>, x: Record, counts: Record -> bool)
    ensures Latest(rs + [x], counts) ==
            var before := Latest(rs, counts);
            if counts(x) && (before.None? || before.value.created < x.created) then Some(x) else before
  {
    assert (rs + [x])[..|rs|] == rs;
  }

  function Newer(m: map<string, Record>, r: Record): map<string, Record> {
    if r.service !in m || r.created > m[r.service].created then m[r.service := r] else m
  }

  lemma NewerIsLatest(m: map<string, Record>, rs: seq<Record>, r: Record)
    requires IsLatest(m, rs)
    ensures IsLatest(Newer(m, r), rs + [r])
  {
    forall name
      ensures At(Newer(m, r), name) == Latest(rs + [r], OfService(name))
    {
      LatestSnoc(rs, r, OfService(name));
      assert At(m, name) == Latest(rs, OfService(name));
    }
  }

  method LatestServiceContainers(rs: seq<Record>) returns (m: map<string, Record>)
    ensures IsLatest(m, rs)
  {
    m := map[];
    for i := 0 to |rs|
      invariant IsLatest(m, rs[..i])
    {
      assert rs[..i + 1] == rs[..i] + [rs[i]];
      NewerIsLatest(m, rs[..i], rs[i]);
      if rs[i].service !in m || rs[i].created > m[rs[i].service].created {
        m := m[rs[i].service := rs[i]];
      }
    }
    assert rs[..|rs|] == rs;
  }

  // ---- Adding configs ----

  /** The text so far, what was skipped, and every candidate the validator accepted. */
  datatype Draft = Draft(text: string, errors: seq<string>, accepted: seq<string>)

  function Offer(g: Generator, d: Draft, service: string, rendered: Rendered, candidate: string -> string): Draft {
    match rendered
    case RenderError(message) =>
      d.(errors := d.errors + ["service '" + service + "': failed to render template: " + message])
    case Rendered(text) =>
      match g.validate(candidate(text))
      case None => d.(text := candidate(text), accepted := d.accepted + [candidate(text)])
      case Some(message) => d.(errors := d.errors + ["service '" + service + "': validation failed: " + message])
  }

  function Before(text: string): string -> string {
    config => "# User-defined global config from service 'caddy'.\n" + config + "\n\n" + text
  }

  function After(text: string, service: string): string -> string {
    config => text + "\n# User-defined config for service '" + service + "'.\n" + config + "\n"
  }

  function WithGlobal(g: Generator, d: Draft, ups: Upstreams, caddy: Option<Record>): Draft {
    if caddy.None? || caddy.value.config == "" then d
    else Offer(g, d, CADDY, g.render(CADDY, ups, caddy.value.config), Before(d.text))
  }

  function WithService(g: Generator, d: Draft, ups: Upstreams, name: string, r: Option<Record>): Draft {
    if name == CADDY || r.None? || r.value.config == "" then d
    else Offer(g, d, name, g.render(name, ups, r.value.config), After(d.text, name))
  }

  function WithServices(g: Generator, d: Draft, ups: Upstreams, names: seq<string>, m: map<string, Record>): Draft {
    if names == [] then d
    else WithService(g, WithServices(g, d, ups, names[..|names| - 1], m),
                     ups, names[|names| - 1], At(m, names[|names| - 1]))
  }

  /** The text is the base or the last accepted candidate, and accepted candidates were accepted. */
  ghost predicate Tracked(g: Generator, base: string, d: Draft) {
    && d.text == (if d.accepted == [] then base else d.accepted[|d.accepted| - 1])
    && forall k :: 0 <= k < |d.accepted| ==> g.validate(d.accepted[k]).None?
  }

  lemma OfferTracked(g: Generator, base: string, d: Draft, service: string,
                     rendered: Rendered, candidate: string -> string)
    requires Tracked(g, base, d)
    ensures Tracked(g, base, Offer(g, d, service, rendered, candidate))
  {
  }

  lemma {:induction false} ServicesTracked(g: Generator, base: string, d: Draft,
                                           ups: Upstreams, names: seq<string>, m: map<string, Record>)
    requires Tracked(g, base, d)
    ensures Tracked(g, base, WithServices(g, d, ups, names, m))
  {
    if names != [] {
      var init, name := names[..|names| - 1], names[|names| - 1];
      ServicesTracked(g, base, d, ups, init, m);
      var e := WithServices(g, d, ups, init, m);
      var r := At(m, name);
      if r.Some? {
        OfferTracked(g, base, e, name, g.render(name, ups, r.value.config), After(e.text, name));
      }
    }
  }

  /** What the generator produces for records that are already sorted: the maps
      are the ones that list the records' contributions. */
  ghost predicate Produces(g: Generator, rs: seq<Record>, includeCustom: bool, d: Draft) {
    exists http, https, ups, m, names ::
      IsOutput(g, rs, includeCustom, http, https, ups, m, names, d)
  }

  ghost predicate IsOutput(g: Generator, rs: seq<Record>, includeCustom: bool, http: Upstreams, https: Upstreams,
                           ups: Upstreams, m: map<string, Record>, names: seq<string>, d: Draft)
  {
    && Lists(http, Flat(HostPairs(Http), rs)) && Lists(https, Flat(HostPairs(Https), rs))
    && Lists(ups, Flat(ServicePair(), rs)) && IsLatest(m, rs)
    && Sorted(names, StringLeq) && multiset(names) == multiset(m.Keys)
    && g.base(http, https).Rendered?
    && var start := Draft(g.base(http, https).text, [], []);
       d == if includeCustom
            then WithServices(g, WithGlobal(g, start, ups, Latest(rs, LocalCaddy(g))), ups, names, m) else start
  }

  /** Whatever produces an output from the same sorted records produces the same one. */
  lemma OutputIsUnique(g: Generator, rs: seq<Record>, includeCustom: bool, d: Draft, e: Draft)
    requires Produces(g, rs, includeCustom, d) && Produces(g, rs, includeCustom, e)
    ensures d == e
  {
    var http1, https1, ups1, m1, names1 :| IsOutput(g, rs, includeCustom, http1, https1, ups1, m1, names1, d);
    var http2, https2, ups2, m2, names2 :| IsOutput(g, rs, includeCustom, http2, https2, ups2, m2, names2, e);
    ListsIsUnique(http1, http2, Flat(HostPairs(Http), rs));
    ListsIsUnique(https1, https2, Flat(HostPairs(Https), rs));
    ListsIsUnique(ups1, ups2, Flat(ServicePair(), rs));
    LatestIsUnique(m1, m2, rs);
    StringOrder();
    assert Distinguishes(names1, StringLeq);
    SortedIsUnique(names1, names2, StringLeq);
  }

  lemma LatestIsUnique(a: map<string, Record>, b: map<string, Record>, rs: seq<Record>)
    requires IsLatest(a, rs) && IsLatest(b, rs)
    ensures a == b
  {
    forall name
      ensures At(a, name) == At(b, name)
    {
      assert At(a, name) == Latest(rs, OfService(name));
      assert At(b, name) == Latest(rs, OfService(name));
    }
    assert forall name :: name in a <==> At(a, name).Some?;
    assert forall name :: name in b <==> At(b, name).Some?;
    assert forall name :: name in a ==> a[name] == At(a, name).value;
    assert forall name :: name in b ==> b[name] == At(b, name).value;
    assert a.Keys == b.Keys;
  }

  // ---- What the text is made of ----

  /** The config of a service that is offered, if it renders. */
  ghost predicate Renders(g: Generator, ups: Upstreams, name: string, r: Option<Record>, config: string) {
    r.Some? && r.value.config != "" && g.render(name, ups, r.value.config) == Rendered(config)
  }

  /** The global config with its heading, or nothing. */
  ghost predicate IsHead(g: Generator, ups: Upstreams, caddy: Option<Record>, head: string) {
    head == "" || exists config :: Renders(g, ups, CADDY, caddy, config) && head == GlobalSection(config)
  }

  function GlobalSection(config: string): string {
    "# User-defined global config from service 'caddy'.\n" + config + "\n\n"
  }

  function ServiceSection(name: string, config: string): string {
    "\n# User-defined config for service '" + name + "'.\n" + config + "\n"
  }

  /** In the order of the names, each service other than caddy contributes its section or nothing. */
  ghost predicate IsTail(g: Generator, ups: Upstreams, names: seq<string>, m: map<string, Record>, tail: string) {
    if names == [] then tail == ""
    else
      var init, name := names[..|names| - 1], names[|names| - 1];
      IsTail(g, ups, init, m, tail)
      || exists shorter, config ::
           IsTail(g, ups, init, m, shorter) && name != CADDY && Renders(g, ups, name, At(m, name), config)
           && tail == shorter + ServiceSection(name, config)
  }

  lemma GlobalIsHead(g: Generator, d: Draft, ups: Upstreams, caddy: Option<Record>) returns (head: string)
    ensures IsHead(g, ups, caddy, head) && WithGlobal(g, d, ups, caddy).text == head + d.text
  {
    head := "";
    var e := WithGlobal(g, d, ups, caddy);
    if e.text != d.text {
      var config := g.render(CADDY, ups, caddy.value.config).text;
      assert Renders(g, ups, CADDY, caddy, config);
      head := GlobalSection(config);
      assert e.text == head + d.text;
    }
  }

  lemma {:induction false} ServicesAreTail(g: Generator, d: Draft, ups: Upstreams, names: seq<string>,
                                           m: map<string, Record>)
    returns (tail: string)
    ensures IsTail(g, ups, names, m, tail) && WithServices(g, d, ups, names, m).text == d.text + tail
  {
    tail := "";
    if names != [] {
      var init, name := names[..|names| - 1], names[|names| - 1];
      var before, e := WithServices(g, d, ups, init, m), WithServices(g, d, ups, names, m);
      tail := ServicesAreTail(g, d, ups, init, m);
      if e.text != before.text {
        var config := ServiceIsAppended(g, before, ups, name, At(m, name));
        TailGrows(g, ups, names, m, tail, config, d.text);
        tail := tail + ServiceSection(name, config);
      }
    }
  }

  lemma TailGrows(g: Generator, ups: Upstreams, names: seq<string>, m: map<string, Record>,
                  tail: string, config: string, text: string)
    requires names != [] && IsTail(g, ups, names[..|names| - 1], m, tail)
    requires var name := names[|names| - 1]; name != CADDY && Renders(g, ups, name, At(m, name), config)
    ensures var longer := tail + ServiceSection(names[|names| - 1], config);
            IsTail(g, ups, names, m, longer)
            && text + longer == text + tail + ServiceSection(names[|names| - 1], config)
  {
  }

  lemma ServiceIsAppended(g: Generator, d: Draft, ups: Upstreams, name: string, r: Option<Record>)
    returns (config: string)
    requires WithService(g, d, ups, name, r).text != d.text
    ensures name != CADDY && Renders(g, ups, name, r, config)
    ensures WithService(g, d, ups, name, r).text == d.text + ServiceSection(name, config)
  {
    config := g.render(name, ups, r.value.config).text;
    assert After(d.text, name)(config) == d.text + ServiceSection(name, config);
  }

  /** The text with user-defined configs is the global config of the local caddy
      container, if it was accepted, then the base, then the accepted configs of the
      services in name order, each once. */
  lemma TextLayout(g: Generator, rs: seq<Record>, d: Draft)
    returns (ups: Upstreams, m: map<string, Record>, names: seq<string>, head: string, base: string, tail: string)
    requires Produces(g, rs, true, d)
    ensures Lists(ups, Flat(ServicePair(), rs)) && IsLatest(m, rs)
    ensures Sorted(names, StringLeq) && multiset(names) == multiset(m.Keys)
    ensures IsHead(g, ups, Latest(rs, LocalCaddy(g)), head) && IsBase(g, rs, Rendered(base))
    ensures IsTail(g, ups, names, m, tail) && d.text == head + base + tail
  {
    var http, https;
    http, https, ups, m, names :| IsOutput(g, rs, true, http, https, ups, m, names, d);
    base := g.base(http, https).text;
    var start := Draft(base, [], []);
    head := GlobalIsHead(g, start, ups, Latest(rs, LocalCaddy(g)));
    tail := ServicesAreTail(g, WithGlobal(g, start, ups, Latest(rs, LocalCaddy(g))), ups, names, m);
  }

  /** Without user-defined configs the text is the base, and nothing is offered. */
  lemma PlainText(g: Generator, rs: seq<Record>, d: Draft)
    requires Produces(g, rs, false, d)
    ensures IsBase(g, rs, Rendered(d.text)) && d.accepted == [] && d.errors == []
  {
    var http, https, ups, m, names :| IsOutput(g, rs, false, http, https, ups, m, names, d);
  }

  /** How many of the services have a config to offer. */
  function OfferCount(names: seq<string>, m: map<string, Record>): nat {
    if names == [] then 0
    else
      var name := names[|names| - 1];
      OfferCount(names[..|names| - 1], m) + if name != CADDY && name in m && m[name].config != "" then 1 else 0
  }

  /** Every config that is offered is either accepted or reported as skipped. */
  lemma {:induction false} EveryConfigIsAccountedFor(g: Generator, d: Draft, ups: Upstreams, names: seq<string>,
                                                     m: map<string, Record>)
    ensures var e := WithServices(g, d, ups, names, m);
            |e.accepted| + |e.errors| == |d.accepted| + |d.errors| + OfferCount(names, m)
  {
    if names != [] {
      EveryConfigIsAccountedFor(g, d, ups, names[..|names| - 1], m);
    }
  }

  // ---- The generator ----

  /** The keys of a map, in no particular order. */
  method KeysOf(m: map<string, Record>) returns (keys: seq<string>)
    ensures multiset(keys) == multiset(m.Keys)
  {
    keys := [];
    var rest := m.Keys;
    while rest != {}
      invariant rest <= m.Keys && multiset(keys) + multiset(rest) == multiset(m.Keys)
      decreases rest
    {
      var x :| x in rest;
      assert multiset(rest) == multiset(rest - {x}) + multiset{x};
      rest := rest - {x};
      keys := keys + [x];
    }
  }

  method AddServices(g: Generator, d: Draft, ups: Upstreams, names: seq<string>, m: map<string, Record>)
    returns (e: Draft)
    requires forall name :: name in names ==> name in m
    ensures e == WithServices(g, d, ups, names, m)
  {
    e := d;
    for i := 0 to |names|
      invariant e == WithServices(g, d, ups, names[..i], m)
    {
      assert names[..i + 1][..i] == names[..i];
      var name := names[i];
      if name == CADDY || m[name].config == "" {
        continue;
      }
      e := Offer(g, e, name, g.render(name, ups, m[name].config), After(e.text, name));
    }
    assert names[..|names|] == names;
  }

  function ErrorLines(errors: seq<string>): string {
    if errors == [] then "" else ErrorLines(errors[..|errors| - 1]) + "# - " + errors[|errors| - 1] + "\n"
  }

  /** The file after its header: the draft's text, then the footer or the list of skipped configs. */
  function Body(g: Generator, d: Draft, includeCustom: bool): string {
    if !includeCustom then d.text + "\n" + g.footer
    else if d.errors == [] then d.text
    else d.text + "\n# Skipped invalid user-defined configs:\n" + ErrorLines(d.errors)
  }

  /** The body is the text and nothing before it, then the footer if configs were
      left out, or a comment line for every config that was skipped. */
  lemma BodyTellsAll(g: Generator, d: Draft, includeCustom: bool)
    ensures d.text <= Body(g, d, includeCustom)
    ensures !includeCustom ==> Body(g, d, includeCustom)[|d.text|..] == "\n" + g.footer
    ensures includeCustom && d.errors == [] ==> Body(g, d, includeCustom) == d.text
    ensures includeCustom ==> forall e :: e in d.errors ==> HasLine(Body(g, d, includeCustom), "# - " + e)
  {
    var body := Body(g, d, includeCustom);
    if includeCustom && d.errors != [] {
      var head := d.text + "\n# Skipped invalid user-defined configs:\n";
      assert body == head + ErrorLines(d.errors);
      assert d.text <= head;
      forall e | e in d.errors
        ensures HasLine(body, "# - " + e)
      {
        ErrorIsListed(head, d.errors, e);
      }
    }
  }

  /** The line is in the text and ends there. */
  ghost predicate HasLine(text: string, line: string) {
    exists before, after :: text == before + (line + "\n") + after
  }

  lemma {:induction false} ErrorIsListed(head: string, errors: seq<string>, e: string)
    requires e in errors
    ensures HasLine(head + ErrorLines(errors), "# - " + e)
  {
    var init, last := errors[..|errors| - 1], errors[|errors| - 1];
    assert errors == init + [last];
    var line := "# - " + last + "\n";
    assert head + ErrorLines(errors) == head + ErrorLines(init) + line;
    if e in init {
      ErrorIsListed(head, init, e);
      var before, after :| head + ErrorLines(init) == before + ("# - " + e + "\n") + after;
      assert head + ErrorLines(errors) == before + ("# - " + e + "\n") + (after + line);
    } else {
      assert head + ErrorLines(errors) == (head + ErrorLines(init)) + ("# - " + e + "\n") + "";
    }
  }

  /** What the base template gives for the sorted records. */
  ghost predicate IsBase(g: Generator, rs: seq<Record>, base: Rendered) {
    exists http, https ::
      Lists(http, Flat(HostPairs(Http), rs)) && Lists(https, Flat(HostPairs(Https), rs)) && base == g.base(http, https)
  }

  ghost predicate IsBody(g: Generator, records: seq<Record>, includeCustom: bool, body: string, base: string, d: Draft)
  {
    var rs := Sort(records, Leq(g));
    && Produces(g, rs, includeCustom, d) && body == Body(g, d, includeCustom)
    && IsBase(g, rs, Rendered(base)) && Tracked(g, base, d)
  }

  /** The result is the base template's error, or the body of a draft that the sorted
      records produce, whose text is the base or the last accepted candidate. */
  ghost predicate Generates(g: Generator, records: seq<Record>, includeCustom: bool, r: Rendered) {
    match r
    case RenderError(_) => IsBase(g, Sort(records, Leq(g)), r)
    case Rendered(body) => exists base, d :: IsBody(g, records, includeCustom, body, base, d)
  }

  method Generate(g: Generator, records: seq<Record>, includeCustom: bool) returns (r: Rendered)
    ensures Generates(g, records, includeCustom, r)
  {
    var rs := Sort(records, Leq(g));
    var base, draft := DraftFor(g, rs, includeCustom);
    if base.RenderError? {
      return base;
    }
    var body := WithNotices(g, draft, includeCustom);
    assert IsBody(g, records, includeCustom, body, base.text, draft);
    return Rendered(body);
  }

  /** The footer, or the skipped configs as comments. */
  method WithNotices(g: Generator, d: Draft, includeCustom: bool) returns (body: string)
    ensures body == Body(g, d, includeCustom)
  {
    if !includeCustom {
      return d.text + "\n" + g.footer;
    }
    if d.errors == [] {
      return d.text;
    }
    var comment := "";
    for i := 0 to |d.errors|
      invariant comment == ErrorLines(d.errors[..i])
    {
      assert d.errors[..i + 1][..i] == d.errors[..i];
      comment := comment + "# - " + d.errors[i] + "\n";
    }
    assert d.errors[..|d.errors|] == d.errors;
    return d.text + "\n# Skipped invalid user-defined configs:\n" + comment;
  }

  method SortedNames(m: map<string, Record>) returns (names: seq<string>)
    ensures Sorted(names, StringLeq) && multiset(names) == multiset(m.Keys)
    ensures forall name :: name in names ==> name in m
  {
    var keys := KeysOf(m);
    StringOrder();
    SortSorts(keys, StringLeq);
    names := Sort(keys, StringLeq);
    NamesAreKeys(names, m);
  }

  /** The base file and, if asked for, the user-defined configs, for sorted records. */
  method DraftFor(g: Generator, rs: seq<Record>, includeCustom: bool) returns (base: Rendered, d: Draft)
    ensures IsBase(g, rs, base)
    ensures base.Rendered? ==> Produces(g, rs, includeCustom, d) && Tracked(g, base.text, d)
  {
    d := Draft("", [], []);
    var http, https := HttpUpstreamsFromPorts(rs);
    base := g.base(http, https);
    if base.RenderError? {
      return;
    }
    var ups := ServiceUpstreams(rs);
    var m := LatestServiceContainers(rs);
    var names := SortedNames(m);
    d := Draft(base.text, [], []);
    if includeCustom {
      d := AddCustom(g, d, rs, ups, names, m, base.text);
    }
    assert IsOutput(g, rs, includeCustom, http, https, ups, m, names, d);
  }

  /** The global config of the local caddy container, then each service's in name order. */
  method AddCustom(g: Generator, start: Draft, rs: seq<Record>, ups: Upstreams, names: seq<string>,
                   m: map<string, Record>,
                   ghost base: string)
    returns (d: Draft)
    requires Tracked(g, base, start) && forall name :: name in names ==> name in m
    ensures d == WithServices(g, WithGlobal(g, start, ups, Latest(rs, LocalCaddy(g))), ups, names, m)
    ensures Tracked(g, base, d)
  {
    d := start;
    var caddy := FindLatest(rs, LocalCaddy(g));
    if caddy.Some? && caddy.value.config != "" {
      var rendered := g.render(CADDY, ups, caddy.value.config);
      OfferTracked(g, base, d, CADDY, rendered, Before(d.text));
      d := Offer(g, d, CADDY, rendered, Before(d.text));
    }
    ServicesTracked(g, base, d, ups, names, m);
    d := AddServices(g, d, ups, names, m);
  }

  lemma NamesAreKeys(names: seq<string>, m: map<string, Record>)
    requires multiset(names) == multiset(m.Keys)
    ensures forall name :: name in names ==> name in m
  {
    forall name | name in names
      ensures name in m
    {
      assert name in multiset(names);
    }
  }

  lemma BaseIsUnique(g: Generator, rs: seq<Record>, x: Rendered, y: Rendered)
    requires IsBase(g, rs, x) && IsBase(g, rs, y)
    ensures x == y
  {
    var pairs1, pairs2 := Flat(HostPairs(Http), rs), Flat(HostPairs(Https), rs);
    var http1, https1 :| Lists(http1, pairs1) && Lists(https1, pairs2) && x == g.base(http1, https1);
    var http2, https2 :| Lists(http2, pairs1) && Lists(https2, pairs2) && y == g.base(http2, https2);
    ListsIsUnique(http1, http2, pairs1);
    ListsIsUnique(https1, https2, pairs2);
  }

  lemma GeneratedBase(g: Generator, records: seq<Record>, includeCustom: bool, r: Rendered) returns (base: Rendered)
    requires Generates(g, records, includeCustom, r)
    ensures IsBase(g, Sort(records, Leq(g)), base)
    ensures r.RenderError? <==> base.RenderError?
    ensures r.RenderError? ==> r == base
  {
    if r.RenderError? {
      base := r;
    } else {
      var text, d :| IsBody(g, records, includeCustom, r.text, text, d);
      base := Rendered(text);
    }
  }

  /** The result is the same for every order of the records, if no two records
      agree on local rank, service and creation time. */
  lemma GenerateIgnoresOrder(g: Generator, a: seq<Record>, b: seq<Record>, includeCustom: bool,
                             x: Rendered, y: Rendered)
    requires multiset(a) == multiset(b) && Distinguishes(a, Leq(g))
    requires Generates(g, a, includeCustom, x) && Generates(g, b, includeCustom, y)
    ensures x == y
  {
    LeqIsPreorder(g);
    SortIgnoresOrder(a, b, Leq(g));
    var base := GeneratedBase(g, a, includeCustom, x);
    var base' := GeneratedBase(g, b, includeCustom, y);
    BaseIsUnique(g, Sort(a, Leq(g)), base, base');
    if x.Rendered? {
      SameBody(g, a, b, includeCustom, x.text, y.text);
    }
  }

  lemma SameBody(g: Generator, a: seq<Record>, b: seq<Record>, includeCustom: bool, x: string, y: string)
    requires Sort(a, Leq(g)) == Sort(b, Leq(g))
    requires Generates(g, a, includeCustom, Rendered(x)) && Generates(g, b, includeCustom, Rendered(y))
    ensures x == y
  {
    var base, d :| IsBody(g, a, includeCustom, x, base, d);
    var base', e :| IsBody(g, b, includeCustom, y, base', e);
    OutputIsUnique(g, Sort(a, Leq(g)), includeCustom, d, e);
  }
}
