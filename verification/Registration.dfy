/** Machine registration on one store: the machine table and the two requests
    that change it. Subnets come from an allocator rebuilt from the table. */
module Registration {
  import opened Collections
  import opened Ipam

  const DEFAULT_SUBNET_BITS: nat := 24

  type Bytes = seq<int>

  datatype Machine = Machine(id: string, name: string, subnet: Prefix, managementIp: Bytes, publicKey: Bytes)

  /** `wellFormed` is the verdict of the field-by-field validation of addresses and key length. */
  datatype NetworkConfig = NetworkConfig(wellFormed: bool, endpoints: nat,
                                         managementIp: Option<Bytes>, publicKey: Bytes)

  datatype Request = Request(name: string, network: Option<NetworkConfig>, publicIpInvalid: bool)

  /** What the handler draws or derives: a machine ID, a random name and the address derived from the key. */
  datatype Generated = Generated(id: string, name: string, managementIp: Bytes)

  datatype Refusal =
    | NetworkNotSet | NetworkInvalid | EndpointsNotSet | PublicIpInvalid
    | NameTaken | ManagementIpTaken | PublicKeyTaken
    | NoIpam | NoSubnet(error: Error) | InsertFailed
    | IdNotSet | NotFound

  datatype Reply = Added(machine: Machine) | Removed | Refused(why: Refusal)

  function Subnets(table: seq<Machine>): (r: seq<Prefix>)
    ensures |r| == |table|
  {
    seq(|table|, k requires 0 <= k < |table| => table[k].subnet)
  }

  function InputRefusal(req: Request): (r: Option<Refusal>)
    ensures r.None? <==> req.network.Some? && req.network.value.wellFormed && 0 < req.network.value.endpoints
                         && !req.publicIpInvalid
    ensures r == Some(NetworkNotSet) <==> req.network.None?
    ensures r == Some(EndpointsNotSet) <==>
              req.network.Some? && req.network.value.wellFormed && req.network.value.endpoints == 0
    ensures r == Some(NetworkInvalid) <==> req.network.Some? && !req.network.value.wellFormed
    ensures r.Some? ==> r.value in {NetworkNotSet, NetworkInvalid, EndpointsNotSet, PublicIpInvalid}
  {
    if req.network.None? then Some(NetworkNotSet)
    else if !req.network.value.wellFormed then Some(NetworkInvalid)
    else if req.network.value.endpoints == 0 then Some(EndpointsNotSet)
    else if req.publicIpInvalid then Some(PublicIpInvalid)
    else None
  }

  // ---- What a request may share with a stored machine ----

  predicate SameName(req: Request, m: Machine) {
    req.name != "" && m.name == req.name
  }

  predicate SameManagementIp(req: Request, m: Machine) {
    req.network.Some? && req.network.value.managementIp == Some(m.managementIp)
  }

  predicate SameKey(req: Request, m: Machine) {
    req.network.Some? && m.publicKey == req.network.value.publicKey
  }

  predicate Shares(req: Request, m: Machine) {
    SameName(req, m) || SameManagementIp(req, m) || SameKey(req, m)
  }

  function Clash(req: Request, m: Machine): Option<Refusal>
    requires req.network.Some?
  {
    if req.name != "" && m.name == req.name then Some(NameTaken)
    else if req.network.value.managementIp == Some(m.managementIp) then Some(ManagementIpTaken)
    else if m.publicKey == req.network.value.publicKey then Some(PublicKeyTaken)
    else None
  }

  /** The first clash with a stored machine. */
  function FirstClash(req: Request, table: seq<Machine>): (r: Option<Refusal>)
    requires req.network.Some?
    ensures r.None? <==> forall k :: 0 <= k < |table| ==> !Shares(req, table[k])
    ensures r.Some? ==> r.value in {NameTaken, ManagementIpTaken, PublicKeyTaken}
  {
    if table == [] then None
    else if Clash(req, table[0]).Some? then Clash(req, table[0])
    else FirstClash(req, table[1..])
  }

  /** The refusal names what the request shares with the first machine it shares anything with. */
  lemma {:induction false} ClashNamesFirst(req: Request, table: seq<Machine>, k: nat)
    requires req.network.Some? && k < |table| && Shares(req, table[k])
    requires forall j :: 0 <= j < k ==> !Shares(req, table[j])
    ensures FirstClash(req, table)
         == Some(if SameName(req, table[k]) then NameTaken
                 else if SameManagementIp(req, table[k]) then ManagementIpTaken else PublicKeyTaken)
  {
    if k > 0 {
      assert !Shares(req, table[0]);
      ClashNamesFirst(req, table[1..], k - 1);
    }
  }

  ghost predicate IdStored(table: seq<Machine>, id: string) {
    exists k :: 0 <= k < |table| && table[k].id == id
  }

  function NewMachine(req: Request, g: Generated, subnet: Prefix): Machine
    requires req.network.Some?
  {
    Machine(g.id, if req.name == "" then g.name else req.name, subnet,
            if req.network.value.managementIp.None? then g.managementIp else req.network.value.managementIp.value,
            req.network.value.publicKey)
  }

  /** The machine has the requested name, management IP and key; what was not
      requested is drawn or derived. */
  ghost predicate AsRequested(req: Request, g: Generated, m: Machine) {
    && m.id == g.id && SameKey(req, m)
    && (if req.name == "" then m.name == g.name else SameName(req, m))
    && (req.network.Some? && req.network.value.managementIp.None? ==> m.managementIp == g.managementIp)
    && (req.network.Some? && req.network.value.managementIp.Some? ==> SameManagementIp(req, m))
  }

  /** The answer to an add request against the stored table. */
  ghost function AddReply(net: Prefix, table: seq<Machine>, req: Request, g: Generated): Reply {
    if InputRefusal(req).Some? then Refused(InputRefusal(req).value)
    else if FirstClash(req, table).Some? then Refused(FirstClash(req, table).value)
    else if !ValidPrefix(net) || net.bits == 0 ||
            !ValidPrefix(Mask(net)) || !Admissible(Mask(net), Subnets(table)) then Refused(NoIpam)
    else match FirstFit(Subnets(table), Mask(net), DEFAULT_SUBNET_BITS)
         case Err(e) => Refused(NoSubnet(e))
         case Ok(p) => if IdStored(table, g.id) then Refused(InsertFailed) else Added(NewMachine(req, g, p))
  }

  function Without(table: seq<Machine>, id: string): (r: seq<Machine>)
    ensures |r| <= |table|
    ensures forall m :: m in r <==> m in table && m.id != id
  {
    if table == [] then []
    else if table[0].id == id then Without(table[1..], id)
    else [table[0]] + Without(table[1..], id)
  }

  // ---- The invariant ----

  /** Stored subnets are masked blocks of the network, pairwise disjoint, and public keys and IDs are distinct. */
  ghost predicate TableSound(net: Prefix, table: seq<Machine>) {
    && (forall k :: 0 <= k < |table| ==> SubnetSound(net, table[k].subnet))
    && (forall j, k :: 0 <= j < k < |table| ==> Apart(table[j], table[k]))
  }

  ghost predicate SubnetSound(net: Prefix, p: Prefix) {
    ValidPrefix(net) && ValidPrefix(p) && Masked(p) && p.width == net.width
    && First(net) <= First(p) && LastOf(p) <= LastOf(net)
  }

  ghost predicate Apart(a: Machine, b: Machine) {
    && a.publicKey != b.publicKey && a.id != b.id
    && (ValidPrefix(a.subnet) && ValidPrefix(b.subnet) ==> !Overlap(a.subnet, b.subnet))
  }

  /** Rebuilding the allocator from a sound table never fails. */
  lemma SoundTableRebuilds(net: Prefix, table: seq<Machine>)
    requires ValidPrefix(net) && TableSound(net, table)
    ensures ValidPrefix(Mask(net)) && Admissible(Mask(net), Subnets(table))
  {
    MaskKeepsBlock(net);
    var ps := Subnets(table);
    assert forall k :: 0 <= k < |ps| ==> SubnetSound(net, ps[k]);
    forall k | 0 <= k < |ps|
      ensures Admitted(Mask(net), ps, k)
    {
      SoundIsFree(net, table, k);
      SubnetFits(net, ps[k]);
    }
  }

  lemma SoundIsFree(net: Prefix, table: seq<Machine>, k: nat)
    requires TableSound(net, table) && k < |table|
    ensures AllValid(Subnets(table)[..k]) && ValidPrefix(table[k].subnet) && Free(Subnets(table)[..k], table[k].subnet)
  {
    var ps := Subnets(table);
    assert SubnetSound(net, table[k].subnet);
    forall j | 0 <= j < k
      ensures ValidPrefix(ps[..k][j]) && !Overlap(ps[..k][j], ps[k])
    {
      assert Apart(table[j], table[k]) && SubnetSound(net, table[j].subnet);
    }
  }

  lemma SubnetFits(net: Prefix, p: Prefix)
    requires SubnetSound(net, p)
    ensures ValidPrefix(Mask(net)) && Contains(Mask(net), p.width, p.addr) && Contains(Mask(net), p.width, LastOf(p))
  {
    MaskKeepsBlock(net);
  }

  lemma AddKeepsSound(net: Prefix, table: seq<Machine>, req: Request, g: Generated)
    requires TableSound(net, table) && AddReply(net, table, req, g).Added?
    ensures TableSound(net, table + [AddReply(net, table, req, g).machine])
  {
    var m := AddReply(net, table, req, g).machine;
    var ps := Subnets(table);
    MaskKeepsBlock(net);
    FirstFitIsLowestFree(ps, Mask(net), DEFAULT_SUBNET_BITS);
    assert SubnetSound(net, m.subnet);
    forall k | 0 <= k < |table|
      ensures Apart(table[k], m)
    {
      assert ps[k] == table[k].subnet && !Overlap(ps[k], m.subnet);
      assert !IdStored(table, g.id);
    }
    SoundSnoc(net, table, m);
  }

  lemma SoundSnoc(net: Prefix, table: seq<Machine>, m: Machine)
    requires TableSound(net, table) && SubnetSound(net, m.subnet)
    requires forall k :: 0 <= k < |table| ==> Apart(table[k], m)
    ensures TableSound(net, table + [m])
  {
  }

  lemma SoundTail(net: Prefix, table: seq<Machine>)
    requires TableSound(net, table) && table != []
    ensures TableSound(net, table[1..]) && forall m :: m in table[1..] ==> Apart(table[0], m)
  {
    var rest := table[1..];
    forall j, k | 0 <= j < k < |rest|
      ensures Apart(rest[j], rest[k])
    {
      assert rest[j] == table[j + 1] && rest[k] == table[k + 1];
    }
    forall m | m in rest
      ensures Apart(table[0], m)
    {
      var i :| 0 <= i < |rest| && rest[i] == m;
      assert table[i + 1] == m;
    }
  }

  lemma {:induction false} RemoveKeepsSound(net: Prefix, table: seq<Machine>, id: string)
    requires TableSound(net, table)
    ensures TableSound(net, Without(table, id))
  {
    if table != [] {
      SoundTail(net, table);
      RemoveKeepsSound(net, table[1..], id);
      SoundCons(net, table[0], Without(table[1..], id));
    }
  }

  lemma SoundCons(net: Prefix, m: Machine, kept: seq<Machine>)
    requires TableSound(net, kept) && SubnetSound(net, m.subnet) && forall x :: x in kept ==> Apart(m, x)
    ensures TableSound(net, [m] + kept)
  {
    assert forall k :: 0 <= k < |kept| ==> kept[k] in kept;
  }

  // ---- The handlers ----

  class Cluster {
    const network: Prefix
    var machines: seq<Machine>

    constructor (net: Prefix)
      ensures network == net && machines == [] && TableSound(network, machines)
    {
      network, machines := net, [];
    }

    method AddMachine(req: Request, g: Generated) returns (reply: Reply)
      modifies this`machines
      ensures old(TableSound(network, machines)) ==> TableSound(network, machines)
      ensures reply == AddReply(network, old(machines), req, g)
      ensures machines == if reply.Added? then old(machines) + [reply.machine] else old(machines)
      ensures reply.Added? ==> AsRequested(req, g, reply.machine)
    {
      if req.network.None? {
        return Refused(NetworkNotSet);
      }
      if !req.network.value.wellFormed {
        return Refused(NetworkInvalid);
      }
      if req.network.value.endpoints == 0 {
        return Refused(EndpointsNotSet);
      }
      if req.publicIpInvalid {
        return Refused(PublicIpInvalid);
      }
      var clash, allocatedSubnets := ScanMachines(req);
      if clash.Some? {
        return Refused(clash.value);
      }
      var ipam := NewIPAMWithAllocated(network, allocatedSubnets);
      if ipam.Err? {
        return Refused(NoIpam);
      }
      var subnet := ipam.value.AllocateSubnetLen(DEFAULT_SUBNET_BITS);
      if subnet.Err? {
        return Refused(NoSubnet(subnet.error));
      }
      var inserted := CreateMachine(NewMachine(req, g, subnet.value));
      if !inserted {
        return Refused(InsertFailed);
      }
      if old(TableSound(network, machines)) {
        AddKeepsSound(network, old(machines), req, g);
      }
      return Added(NewMachine(req, g, subnet.value));
    }

    method ScanMachines(req: Request) returns (clash: Option<Refusal>, allocatedSubnets: seq<Prefix>)
      requires req.network.Some?
      ensures clash == FirstClash(req, machines)
      ensures clash.None? ==> allocatedSubnets == Subnets(machines)
    {
      allocatedSubnets := [];
      assert machines[0..] == machines;
      for i := 0 to |machines|
        invariant allocatedSubnets == Subnets(machines[..i])
        invariant FirstClash(req, machines) == FirstClash(req, machines[i..])
      {
        var m := machines[i];
        assert machines[i..][1..] == machines[i + 1..];
        if req.name != "" && m.name == req.name {
          return Some(NameTaken), allocatedSubnets;
        }
        if req.network.value.managementIp.Some? && req.network.value.managementIp.value == m.managementIp {
          return Some(ManagementIpTaken), allocatedSubnets;
        }
        if m.publicKey == req.network.value.publicKey {
          return Some(PublicKeyTaken), allocatedSubnets;
        }
        allocatedSubnets := allocatedSubnets + [m.subnet];
      }
      assert machines[..|machines|] == machines;
      return None, allocatedSubnets;
    }

    /** The insert statement; the ID is the table's primary key. */
    method CreateMachine(m: Machine) returns (ok: bool)
      modifies this`machines
      ensures ok <==> !IdStored(old(machines), m.id)
      ensures machines == if ok then old(machines) + [m] else old(machines)
    {
      for i := 0 to |machines|
        invariant forall k :: 0 <= k < i ==> machines[k].id != m.id
        invariant machines == old(machines)
      {
        if machines[i].id == m.id {
          return false;
        }
      }
      machines := machines + [m];
      return true;
    }

    method RemoveMachine(id: string) returns (reply: Reply)
      modifies this`machines
      ensures old(TableSound(network, machines)) ==> TableSound(network, machines)
      ensures machines == if id == "" then old(machines) else Without(old(machines), id)
      ensures reply == if id == "" then Refused(IdNotSet)
                       else if IdStored(old(machines), id) then Removed else Refused(NotFound)
    {
      if id == "" {
        return Refused(IdNotSet);
      }
      if TableSound(network, machines) {
        RemoveKeepsSound(network, machines, id);
      }
      WithoutShrinks(machines, id);
      var before := |machines|;
      machines := Without(machines, id);
      return if |machines| == before then Refused(NotFound) else Removed;
    }
  }

  lemma {:induction false} WithoutShrinks(table: seq<Machine>, id: string)
    ensures |Without(table, id)| < |table| <==> IdStored(table, id)
  {
    if table != [] {
      WithoutShrinks(table[1..], id);
      if IdStored(table[1..], id) {
        var k :| 0 <= k < |table[1..]| && table[1..][k].id == id;
        assert table[k + 1].id == id;
      }
      if IdStored(table, id) && table[0].id != id {
        var k :| 0 <= k < |table| && table[k].id == id;
        assert table[1..][k - 1].id == id;
      }
    }
  }

  // ---- Whole runs ----

  datatype Operation = Add(req: Request, g: Generated) | Remove(id: string)

  ghost function Apply(net: Prefix, table: seq<Machine>, op: Operation): seq<Machine> {
    match op
    case Add(req, g) =>
      var reply := AddReply(net, table, req, g);
      if reply.Added? then table + [reply.machine] else table
    case Remove(id) => if id == "" then table else Without(table, id)
  }

  ghost function ApplyAll(net: Prefix, ops: seq<Operation>): seq<Machine> {
    if ops == [] then [] else Apply(net, ApplyAll(net, ops[..|ops| - 1]), ops[|ops| - 1])
  }

  /** Over every run that starts empty the table stays sound, so the allocator can
      always be rebuilt. */
  lemma {:induction false} RegistrationInvariant(net: Prefix, ops: seq<Operation>)
    ensures TableSound(net, ApplyAll(net, ops))
    ensures ValidPrefix(net) ==> ValidPrefix(Mask(net)) && Admissible(Mask(net), Subnets(ApplyAll(net, ops)))
  {
    if ops != [] {
      RegistrationInvariant(net, ops[..|ops| - 1]);
      var table, op := ApplyAll(net, ops[..|ops| - 1]), ops[|ops| - 1];
      match op
      case Add(req, g) =>
        if AddReply(net, table, req, g).Added? {
          AddKeepsSound(net, table, req, g);
        }
      case Remove(id) => RemoveKeepsSound(net, table, id);
    }
    if ValidPrefix(net) {
      SoundTableRebuilds(net, ApplyAll(net, ops));
    }
  }

  /** What was added is what was asked for. */
  lemma AddedAsRequested(net: Prefix, table: seq<Machine>, req: Request, g: Generated)
    requires AddReply(net, table, req, g).Added?
    ensures AsRequested(req, g, AddReply(net, table, req, g).machine)
    ensures AddReply(net, table, req, g).machine.subnet.bits == 24
  {
  }

  ghost function TableAt(net: Prefix, ops: seq<Operation>, k: nat): seq<Machine>
    requires k <= |ops|
  {
    ApplyAll(net, ops[..k])
  }

  lemma TableNext(net: Prefix, ops: seq<Operation>, k: nat)
    requires k < |ops|
    ensures TableAt(net, ops, k + 1) == Apply(net, TableAt(net, ops, k), ops[k])
  {
    assert ops[..k + 1][..k] == ops[..k];
  }

  lemma ApplyKeeps(net: Prefix, table: seq<Machine>, op: Operation, m: Machine)
    requires m in table && op != Remove(m.id)
    ensures m in Apply(net, table, op)
  {
  }

  lemma StoredNext(net: Prefix, ops: seq<Operation>, k: nat, m: Machine)
    requires k < |ops| && m in TableAt(net, ops, k) && ops[k] != Remove(m.id)
    ensures m in TableAt(net, ops, k + 1)
  {
    TableNext(net, ops, k);
    ApplyKeeps(net, TableAt(net, ops, k), ops[k], m);
  }

  /** A stored machine stays stored until its ID is removed. */
  lemma {:induction false} StoredUntilRemoved(net: Prefix, ops: seq<Operation>, i: nat, j: nat, m: Machine)
    requires i <= j <= |ops| && m in TableAt(net, ops, i)
    requires forall k :: i <= k < j ==> ops[k] != Remove(m.id)
    ensures m in TableAt(net, ops, j)
  {
    if i < j {
      StoredUntilRemoved(net, ops, i, j - 1, m);
      StoredNext(net, ops, j - 1, m);
    }
  }

  /** The operation adds a machine. */
  ghost predicate Adds(net: Prefix, ops: seq<Operation>, i: nat, m: Machine)
    requires i < |ops|
  {
    ops[i].Add? && AddReply(net, TableAt(net, ops, i), ops[i].req, ops[i].g) == Added(m)
  }

  /** Names, management IPs and keys are reserved: over every run, from the moment a
      machine is added and until its ID is removed, an otherwise valid request that
      shares the name, the management IP or the key it was added under is refused. */
  lemma AddedIsReserved(net: Prefix, ops: seq<Operation>, i: nat, j: nat, m: Machine, req: Request, g: Generated)
    requires i < j <= |ops| && Adds(net, ops, i, m) && forall k :: i < k < j ==> ops[k] != Remove(m.id)
    requires InputRefusal(req).None?
    requires (req.name != "" && req.name == ops[i].req.name)
             || (req.network.value.managementIp.Some?
                 && req.network.value.managementIp == ops[i].req.network.value.managementIp)
             || req.network.value.publicKey == ops[i].req.network.value.publicKey
    ensures AddReply(net, TableAt(net, ops, j), req, g)
         in {Refused(NameTaken), Refused(ManagementIpTaken), Refused(PublicKeyTaken)}
  {
    AddedAsRequested(net, TableAt(net, ops, i), ops[i].req, ops[i].g);
    TableNext(net, ops, i);
    StoredUntilRemoved(net, ops, i + 1, j, m);
    var table := TableAt(net, ops, j);
    var k :| 0 <= k < |table| && table[k] == m;
    assert Shares(req, table[k]);
  }

  /** And they are free again once the ID is removed, as far as that machine is concerned. */
  lemma RemovedIsGone(net: Prefix, ops: seq<Operation>, j: nat, id: string)
    requires j < |ops| && ops[j] == Remove(id) && id != ""
    ensures !IdStored(TableAt(net, ops, j + 1), id)
  {
    TableNext(net, ops, j);
    var table := TableAt(net, ops, j + 1);
    forall k | 0 <= k < |table|
      ensures table[k].id != id
    {
      assert table[k] in table;
    }
  }

  /** No block of the required length lies inside a smaller network. */
  lemma AlignedNeedsRoom(net: Prefix, bits: nat, q: Prefix)
    requires ValidPrefix(net) && AlignedIn(net, bits, q)
    ensures net.bits <= bits
  {
    if bits < net.bits {
      Pow2Grows(net.width - net.bits, net.width - bits);
    }
  }

  /** First fit succeeds exactly when an aligned block is free. */
  lemma FitWhenFree(net: Prefix, taken: seq<Prefix>, bits: nat)
    requires ValidPrefix(net) && AllValid(taken) && bits <= net.width
    ensures FirstFit(taken, net, bits).Ok? <==> exists q: Prefix :: AlignedIn(net, bits, q) && Free(taken, q)
    ensures FirstFit(taken, net, bits).Err? ==>
              FirstFit(taken, net, bits).error == if net.bits <= bits then NoAvailableSubnet else InvalidSubnetSize
  {
    forall q: Prefix | AlignedIn(net, bits, q)
      ensures net.bits <= bits
    {
      AlignedNeedsRoom(net, bits, q);
    }
    if net.bits <= bits {
      FirstFitIsLowestFree(taken, net, bits);
      var fit := FirstFit(taken, net, bits);
      assert fit.Ok? ==> AlignedIn(net, bits, fit.value);
    }
  }

  /** An otherwise valid request lacks a subnet exactly when no aligned block of
      the required length is free in the network. */
  lemma NoSubnetOnlyWhenFull(net: Prefix, ops: seq<Operation>, req: Request, g: Generated)
    requires ValidPrefix(net) && 0 < net.bits
    requires InputRefusal(req).None? && FirstClash(req, ApplyAll(net, ops)).None?
    requires !IdStored(ApplyAll(net, ops), g.id)
    ensures var table := ApplyAll(net, ops);
            var reply := AddReply(net, table, req, g);
            && ValidPrefix(Mask(net)) && AllValid(Subnets(table))
            && (reply.Added? <==>
                  exists q: Prefix :: AlignedIn(Mask(net), DEFAULT_SUBNET_BITS, q) && Free(Subnets(table), q))
            && (!reply.Added? ==>
                  reply == Refused(NoSubnet(
                    if net.bits <= DEFAULT_SUBNET_BITS then NoAvailableSubnet else InvalidSubnetSize)))
  {
    RegistrationInvariant(net, ops);
    var table := ApplyAll(net, ops);
    FitWhenFree(Mask(net), Subnets(table), DEFAULT_SUBNET_BITS);
    AddedWhenFit(net, table, req, g);
  }

  lemma AddedWhenFit(net: Prefix, table: seq<Machine>, req: Request, g: Generated)
    requires ValidPrefix(net) && 0 < net.bits && ValidPrefix(Mask(net)) && Admissible(Mask(net), Subnets(table))
    requires InputRefusal(req).None? && FirstClash(req, table).None? && !IdStored(table, g.id)
    ensures var fit := FirstFit(Subnets(table), Mask(net), DEFAULT_SUBNET_BITS);
            AddReply(net, table, req, g) ==
              if fit.Ok? then Added(NewMachine(req, g, fit.value)) else Refused(NoSubnet(fit.error))
  {
  }
}
