/** First-fit allocation of subnets from a cluster network. Addresses are
    numbers below 2^width; a prefix is an address and a number of leading bits. */
module Ipam {
  import opened Collections

  datatype Result<+T> = Ok(value: T) | Err(error: Error)
  datatype Error = InvalidNetwork | InvalidSubnetSize | NoAvailableSubnet | NotInNetwork | Overlapping

  function Pow2(n: nat): (r: nat)
    ensures 0 < r
  {
    if n == 0 then 1 else 2 * Pow2(n - 1)
  }

  /** k times b and a divided by b, by repeated addition and subtraction. */
  function Times(k: nat, b: nat): nat {
    if k == 0 then 0 else Times(k - 1, b) + b
  }

  function Quot(a: nat, b: nat): (q: nat)
    requires 0 < b
    ensures Times(q, b) <= a < Times(q, b) + b
  {
    if a < b then 0 else 1 + Quot(a - b, b)
  }

  datatype Prefix = Prefix(width: nat, addr: nat, bits: nat)

  predicate ValidPrefix(p: Prefix) {
    (p.width == 32 || p.width == 128) && p.addr < Pow2(p.width) && p.bits <= p.width
  }

  function Size(p: Prefix): (r: nat)
    requires ValidPrefix(p)
    ensures 0 < r
  {
    Pow2(p.width - p.bits)
  }

  /** First and last address of the block that the prefix names. */
  function First(p: Prefix): nat
    requires ValidPrefix(p)
  {
    Times(Quot(p.addr, Size(p)), Size(p))
  }

  function LastOf(p: Prefix): int
    requires ValidPrefix(p)
  {
    First(p) + Size(p) - 1
  }

  predicate Masked(p: Prefix)
    requires ValidPrefix(p)
  {
    p.addr == First(p)
  }

  predicate Contains(p: Prefix, width: nat, addr: int)
    requires ValidPrefix(p)
  {
    width == p.width && First(p) <= addr <= LastOf(p)
  }

  predicate Overlap(p: Prefix, q: Prefix)
    requires ValidPrefix(p) && ValidPrefix(q)
  {
    p.width == q.width && First(p) <= LastOf(q) && First(q) <= LastOf(p)
  }

  /** Two prefixes overlap exactly when they have an address in common. */
  lemma OverlapMeansShared(p: Prefix, q: Prefix)
    requires ValidPrefix(p) && ValidPrefix(q)
    ensures Overlap(p, q) <==> exists a :: Contains(p, p.width, a) && Contains(q, p.width, a)
  {
    if Overlap(p, q) {
      var a := if First(p) <= First(q) then First(q) else First(p);
      assert Contains(p, p.width, a) && Contains(q, p.width, a);
    }
  }

  ghost predicate AllValid(ps: seq<Prefix>) {
    forall k :: 0 <= k < |ps| ==> ValidPrefix(ps[k])
  }

  ghost predicate Free(taken: seq<Prefix>, p: Prefix)
    requires AllValid(taken) && ValidPrefix(p)
  {
    forall k :: 0 <= k < |taken| ==> !Overlap(taken[k], p)
  }

  // ---- Aligned blocks ----

  predicate Fits(network: Prefix, bits: int) {
    ValidPrefix(network) && network.bits <= bits <= network.width
  }

  /** How many blocks of the given length the network has. */
  function BlockCount(network: Prefix, bits: nat): (r: nat)
    requires Fits(network, bits)
    ensures 0 < r
  {
    Pow2(bits - network.bits)
  }

  function BlockSize(network: Prefix, bits: nat): (r: nat)
    requires Fits(network, bits)
    ensures 0 < r
  {
    Pow2(network.width - bits)
  }

  function Block(network: Prefix, bits: nat, k: nat): Prefix
    requires Fits(network, bits)
  {
    Prefix(network.width, First(network) + Times(k, BlockSize(network, bits)), bits)
  }

  lemma {:induction false} TimesAdds(j: nat, k: nat, b: nat)
    ensures Times(j + k, b) == Times(j, b) + Times(k, b)
  {
    if k > 0 {
      TimesAdds(j, k - 1, b);
    }
  }

  lemma TimesGrows(j: nat, k: nat, b: nat)
    ensures j <= k ==> Times(j, b) <= Times(k, b)
    ensures j < k ==> Times(j, b) + b <= Times(k, b)
  {
    if j < k {
      TimesAdds(j + 1, k - (j + 1), b);
    }
  }

  lemma {:induction false} TimesNests(k: nat, m: nat, b: nat)
    ensures Times(k, Times(m, b)) == Times(Times(k, m), b)
  {
    if k > 0 {
      TimesNests(k - 1, m, b);
      TimesAdds(Times(k - 1, m), m, b);
    }
  }

  lemma {:induction false} TimesIsProduct(k: nat, b: nat)
    ensures Times(k, b) == k * b
  {
    if k > 0 {
      TimesIsProduct(k - 1, b);
      assert (k - 1) * b + b == k * b;
    }
  }

  lemma QuotIsUnique(a: nat, b: nat, q: nat)
    requires 0 < b && Times(q, b) <= a < Times(q, b) + b
    ensures Quot(a, b) == q
  {
    TimesGrows(q, Quot(a, b), b);
    TimesGrows(Quot(a, b), q, b);
  }

  lemma {:induction false} Pow2Adds(a: nat, b: nat)
    ensures Pow2(a + b) == Times(Pow2(a), Pow2(b))
  {
    if a == 0 {
      assert Times(1, Pow2(b)) == Times(0, Pow2(b)) + Pow2(b);
    } else {
      Pow2Adds(a - 1, b);
      TimesAdds(Pow2(a - 1), Pow2(a - 1), Pow2(b));
    }
  }

  /** The number of the network's first block, counted from address 0. */
  function FirstIndex(network: Prefix, bits: nat): nat
    requires Fits(network, bits)
  {
    Times(Quot(network.addr, Size(network)), BlockCount(network, bits))
  }

  /** The network is exactly its blocks, one after the other. */
  lemma NetworkIsBlocks(network: Prefix, bits: nat)
    requires Fits(network, bits)
    ensures Size(network) == Times(BlockCount(network, bits), BlockSize(network, bits))
    ensures First(network) == Times(FirstIndex(network, bits), BlockSize(network, bits))
    ensures LastOf(network) < Pow2(network.width)
  {
    Pow2Adds(bits - network.bits, network.width - bits);
    TimesNests(Quot(network.addr, Size(network)), BlockCount(network, bits), BlockSize(network, bits));
    EndsInSpace(network);
  }

  /** No block reaches beyond the address space. */
  lemma EndsInSpace(p: Prefix)
    requires ValidPrefix(p)
    ensures LastOf(p) < Pow2(p.width)
  {
    Pow2Adds(p.bits, p.width - p.bits);
    TimesGrows(Pow2(p.bits), Quot(p.addr, Size(p)), Size(p));
    TimesGrows(Quot(p.addr, Size(p)), Pow2(p.bits), Size(p));
  }

  /** A block is a valid, masked prefix inside the network. */
  lemma BlockIsAligned(network: Prefix, bits: nat, k: nat)
    requires Fits(network, bits) && k < BlockCount(network, bits)
    ensures ValidPrefix(Block(network, bits, k)) && Masked(Block(network, bits, k))
    ensures Size(Block(network, bits, k)) == BlockSize(network, bits)
    ensures First(network) <= First(Block(network, bits, k))
    ensures LastOf(Block(network, bits, k)) <= LastOf(network)
  {
    BlockStart(network, bits, k);
    QuotIsUnique(Block(network, bits, k).addr, BlockSize(network, bits), FirstIndex(network, bits) + k);
  }

  /** Where a block starts, and that it ends inside the network. */
  lemma BlockStart(network: Prefix, bits: nat, k: nat)
    requires Fits(network, bits) && k < BlockCount(network, bits)
    ensures var addr, b := Block(network, bits, k).addr, BlockSize(network, bits);
            addr == Times(FirstIndex(network, bits) + k, b)
            && First(network) <= addr && addr + b - 1 <= LastOf(network) < Pow2(network.width)
  {
    NetworkIsBlocks(network, bits);
    var m, b, q := BlockCount(network, bits), BlockSize(network, bits), FirstIndex(network, bits);
    TimesAdds(q, k, b);
    TimesGrows(k, m, b);
  }

  /** Different blocks do not overlap. */
  lemma BlocksDisjoint(network: Prefix, bits: nat, j: nat, k: nat)
    requires Fits(network, bits) && j < BlockCount(network, bits) && k < BlockCount(network, bits)
    ensures ValidPrefix(Block(network, bits, j)) && ValidPrefix(Block(network, bits, k))
    ensures Overlap(Block(network, bits, j), Block(network, bits, k)) <==> j == k
  {
    BlockIsAligned(network, bits, j);
    BlockIsAligned(network, bits, k);
    TimesGrows(j, k, BlockSize(network, bits));
    TimesGrows(k, j, BlockSize(network, bits));
  }

  /** Every prefix of that length that meets the network lies inside it. */
  lemma InsideWhenSmaller(network: Prefix, p: Prefix) returns (k: nat)
    requires ValidPrefix(network) && ValidPrefix(p) && network.bits <= p.bits && Contains(network, p.width, p.addr)
    ensures First(network) <= First(p) && LastOf(p) <= LastOf(network)
    ensures k < BlockCount(network, p.bits) && First(p) == Block(network, p.bits, k).addr
  {
    NetworkIsBlocks(network, p.bits);
    k := QuotBetween(p.addr, Size(p), FirstIndex(network, p.bits), BlockCount(network, p.bits));
  }

  /** A number inside a row of m blocks of size b lies in one of them, which ends inside the row. */
  lemma QuotBetween(a: nat, b: nat, q: nat, m: nat) returns (k: nat)
    requires 0 < b && Times(q, b) <= a < Times(q, b) + Times(m, b)
    ensures k < m && Times(Quot(a, b), b) == Times(q, b) + Times(k, b)
    ensures Times(Quot(a, b), b) + b <= Times(q, b) + Times(m, b)
  {
    var t := Quot(a, b);
    TimesGrows(t, q, b);
    k := t - q;
    TimesAdds(q, k, b);
    TimesGrows(m, k, b);
    TimesGrows(k, m, b);
  }

  /** Every masked prefix of that length inside the network is one of the blocks. */
  lemma EveryAlignedIsBlock(network: Prefix, p: Prefix) returns (k: nat)
    requires Fits(network, p.bits) && AlignedIn(network, p.bits, p)
    ensures k < BlockCount(network, p.bits) && p == Block(network, p.bits, k)
  {
    k := InsideWhenSmaller(network, p);
  }

  // ---- First fit ----

  ghost predicate BlockFree(taken: seq<Prefix>, network: Prefix, bits: nat, k: nat)
    requires Fits(network, bits) && AllValid(taken)
  {
    ValidPrefix(Block(network, bits, k)) && Free(taken, Block(network, bits, k))
  }

  /** The first free block from the k-th on. */
  ghost function FirstFree(taken: seq<Prefix>, network: Prefix, bits: nat, k: nat): (r: Option<nat>)
    requires Fits(network, bits) && k <= BlockCount(network, bits) && AllValid(taken)
    ensures r.Some? ==> k <= r.value < BlockCount(network, bits) && BlockFree(taken, network, bits, r.value)
    ensures forall j :: k <= j < (if r.Some? then r.value else BlockCount(network, bits)) ==>
              !BlockFree(taken, network, bits, j)
    decreases BlockCount(network, bits) - k
  {
    if k == BlockCount(network, bits) then None
    else if BlockFree(taken, network, bits, k) then Some(k)
    else FirstFree(taken, network, bits, k + 1)
  }

  lemma {:induction false} FirstFreeIs(taken: seq<Prefix>, network: Prefix, bits: nat, k: nat)
    requires Fits(network, bits) && k <= BlockCount(network, bits) && AllValid(taken)
    requires forall j :: 0 <= j < k ==> !BlockFree(taken, network, bits, j)
    requires k < BlockCount(network, bits) ==> BlockFree(taken, network, bits, k)
    ensures FirstFree(taken, network, bits, 0) == if k < BlockCount(network, bits) then Some(k) else None
  {
    var r := FirstFree(taken, network, bits, 0);
    if r.Some? {
      assert BlockFree(taken, network, bits, r.value) && k <= r.value;
    }
  }

  /** The search has come to the k-th block and found every earlier one taken. */
  ghost predicate Searched(taken: seq<Prefix>, network: Prefix, bits: nat, k: nat)
    requires Fits(network, bits) && AllValid(taken)
  {
    k <= BlockCount(network, bits) && forall j :: 0 <= j < k ==> !BlockFree(taken, network, bits, j)
  }

  /** Where the search is: at the k-th block, or beyond the address space after the last one. */
  ghost predicate SearchAt(network: Prefix, bits: nat, k: nat, addr: Option<nat>)
    requires Fits(network, bits)
  {
    if addr.Some? then addr.value == Block(network, bits, k).addr else k == BlockCount(network, bits)
  }

  lemma SearchStarts(taken: seq<Prefix>, network: Prefix, bits: nat)
    requires Fits(network, bits) && AllValid(taken) && Masked(network)
    ensures Searched(taken, network, bits, 0) && SearchAt(network, bits, 0, Some(network.addr))
  {
  }

  /** An address of the search inside the network is a block to look at. */
  lemma VisitBlock(taken: seq<Prefix>, network: Prefix, bits: nat, k: nat, subnet: Prefix)
    requires Fits(network, bits) && AllValid(taken) && Searched(taken, network, bits, k)
    requires subnet == Block(network, bits, k) && Contains(network, network.width, subnet.addr)
    ensures k < BlockCount(network, bits) && ValidPrefix(subnet)
    ensures if Free(taken, subnet) then BlockFree(taken, network, bits, k) else Searched(taken, network, bits, k + 1)
  {
    BlockStartInside(network, bits, k);
    BlockIsAligned(network, bits, k);
  }

  /** An address of the search outside the network means that every block was looked at. */
  lemma SearchIsOver(network: Prefix, bits: nat, k: nat, addr: Option<nat>)
    requires Fits(network, bits) && k <= BlockCount(network, bits) && SearchAt(network, bits, k, addr)
    requires addr.Some? ==> !Contains(network, network.width, addr.value)
    ensures k == BlockCount(network, bits)
  {
    if addr.Some? {
      BlockStartInside(network, bits, k);
    }
  }

  lemma SearchEnds(taken: seq<Prefix>, network: Prefix, bits: nat, k: nat)
    requires Fits(network, bits) && AllValid(taken) && Searched(taken, network, bits, k)
    requires k < BlockCount(network, bits) ==> BlockFree(taken, network, bits, k)
    ensures FirstFit(taken, network, bits)
         == if k < BlockCount(network, bits) then Ok(Block(network, bits, k)) else Err(NoAvailableSubnet)
  {
    FirstFreeIs(taken, network, bits, k);
  }

  /** What AllocateSubnetLen answers. */
  ghost function FirstFit(taken: seq<Prefix>, network: Prefix, bits: int): Result<Prefix>
    requires ValidPrefix(network) && AllValid(taken)
  {
    if !Fits(network, bits) then Err(InvalidSubnetSize)
    else match FirstFree(taken, network, bits, 0)
         case None => Err(NoAvailableSubnet)
         case Some(k) => Ok(Block(network, bits, k))
  }

  /** First fit is sound, lowest, and complete: it answers with a free aligned
      block that no lower free one precedes, and refuses only when every masked
      prefix of that length inside the network overlaps something allocated. */
  lemma FirstFitIsLowestFree(taken: seq<Prefix>, network: Prefix, bits: int)
    requires ValidPrefix(network) && AllValid(taken) && Fits(network, bits)
    ensures match FirstFit(taken, network, bits)
            case Ok(p) =>
              && ValidPrefix(p) && Masked(p) && p.bits == bits && p.width == network.width
              && First(network) <= First(p) && LastOf(p) <= LastOf(network)
              && Free(taken, p)
              && (forall q: Prefix :: AlignedIn(network, bits, q) && Free(taken, q) ==> p.addr <= q.addr)
            case Err(e) =>
              e == NoAvailableSubnet && forall q: Prefix :: AlignedIn(network, bits, q) ==> !Free(taken, q)
  {
    var r := FirstFree(taken, network, bits, 0);
    if r.Some? {
      BlockIsAligned(network, bits, r.value);
    }
    forall q: Prefix | AlignedIn(network, bits, q) && Free(taken, q)
      ensures r.Some? && Block(network, bits, r.value).addr <= q.addr
    {
      var k := EveryAlignedIsBlock(network, q);
      assert BlockFree(taken, network, bits, k);
      assert r.Some? && r.value <= k;
      TimesGrows(r.value, k, BlockSize(network, bits));
    }
  }

  /** A masked prefix of the given length inside the network. */
  ghost predicate AlignedIn(network: Prefix, bits: int, q: Prefix)
    requires ValidPrefix(network)
  {
    && ValidPrefix(q) && Masked(q) && q.bits == bits && q.width == network.width
    && First(network) <= First(q) && LastOf(q) <= LastOf(network)
  }

  // ---- The allocator ----

  class IPAM {
    const network: Prefix
    var taken: seq<Prefix>

    ghost predicate Valid()
      reads this
    {
      ValidPrefix(network) && Masked(network) && 0 < network.bits && AllValid(taken)
    }

    /** For a network that New accepts. */
    constructor (net: Prefix)
      requires ValidPrefix(net) && 0 < net.bits
      ensures Valid() && taken == []
      ensures network == Prefix(net.width, First(net), net.bits) && First(network) == First(net)
    {
      QuotIsUnique(First(net), Size(net), Quot(net.addr, Size(net)));
      network := Prefix(net.width, First(net), net.bits);
      taken := [];
    }

    method OverlapsPrefix(p: Prefix) returns (overlaps: bool)
      requires Valid() && ValidPrefix(p)
      ensures overlaps <==> !Free(taken, p)
    {
      for i := 0 to |taken|
        invariant forall k :: 0 <= k < i ==> !Overlap(taken[k], p)
      {
        if Overlap(taken[i], p) {
          return true;
        }
      }
      return false;
    }

    method AllocateSubnetLen(bits: int) returns (r: Result<Prefix>)
      requires Valid()
      modifies this`taken
      ensures Valid()
      ensures r == FirstFit(old(taken), network, bits)
      ensures taken == if r.Ok? then old(taken) + [r.value] else old(taken)
    {
      if bits < network.bits || bits > network.width {
        return Err(InvalidSubnetSize);
      }
      r := FindSubnet(bits);
      if r.Ok? {
        taken := taken + [r.value];
      }
    }

    /** The loop over the blocks of the network. */
    method FindSubnet(bits: nat) returns (r: Result<Prefix>)
      requires Valid() && Fits(network, bits)
      ensures r == FirstFit(taken, network, bits) && (r.Ok? ==> ValidPrefix(r.value))
    {
      ghost var k := 0;
      // None is the invalid address that follows the last one of the address space.
      var addr: Option<nat> := Some(network.addr);
      SearchStarts(taken, network, bits);
      while addr.Some? && Contains(network, network.width, addr.value)
        invariant Searched(taken, network, bits, k) && SearchAt(network, bits, k, addr)
        decreases BlockCount(network, bits) - k
      {
        var subnet := Prefix(network.width, addr.value, bits);
        VisitBlock(taken, network, bits, k, subnet);
        var overlaps := OverlapsPrefix(subnet);
        if !overlaps {
          SearchEnds(taken, network, bits, k);
          return Ok(subnet);
        }
        addr := NextAddr(subnet, k);
        k := k + 1;
      }
      SearchIsOver(network, bits, k, addr);
      SearchEnds(taken, network, bits, k);
      return Err(NoAvailableSubnet);
    }

    /** The address after the subnet, which is the start of the next block unless the address space ends there. */
    method NextAddr(subnet: Prefix, ghost k: nat) returns (addr: Option<nat>)
      requires Fits(network, subnet.bits) && k < BlockCount(network, subnet.bits)
      requires subnet == Block(network, subnet.bits, k)
      ensures SearchAt(network, subnet.bits, k + 1, addr)
    {
      NextBlock(network, subnet.bits, k);
      var last := LastOf(subnet);
      addr := if last + 1 < Pow2(subnet.width) then Some(last + 1) else None;
    }

    method AllocateSubnet(subnet: Prefix) returns (r: Result<()>)
      requires Valid()
      modifies this`taken
      ensures Valid()
      ensures r == ReserveOutcome(network, old(taken), subnet)
      ensures taken == if r.Ok? then old(taken) + [subnet] else old(taken)
    {
      if !ValidPrefix(subnet) {
        // The zero address of an invalid prefix is in no network.
        return Err(NotInNetwork);
      }
      var last := LastOf(subnet);
      if !Contains(network, subnet.width, subnet.addr) || !Contains(network, subnet.width, last) {
        return Err(NotInNetwork);
      }
      var overlaps := OverlapsPrefix(subnet);
      if overlaps {
        return Err(Overlapping);
      }
      taken := taken + [subnet];
      return Ok(());
    }
  }

  lemma BlockStartInside(network: Prefix, bits: nat, k: nat)
    requires Fits(network, bits) && k <= BlockCount(network, bits)
    ensures Contains(network, network.width, Block(network, bits, k).addr) <==> k < BlockCount(network, bits)
  {
    NetworkIsBlocks(network, bits);
    TimesGrows(k, BlockCount(network, bits), BlockSize(network, bits));
  }

  lemma NextBlock(network: Prefix, bits: nat, k: nat)
    requires Fits(network, bits) && k < BlockCount(network, bits)
    ensures ValidPrefix(Block(network, bits, k))
    ensures LastOf(Block(network, bits, k)) + 1 == First(network) + Times(k + 1, BlockSize(network, bits))
    ensures k + 1 < BlockCount(network, bits) ==> LastOf(Block(network, bits, k)) + 1 < Pow2(network.width)
  {
    BlockIsAligned(network, bits, k);
    if k + 1 < BlockCount(network, bits) {
      BlockIsAligned(network, bits, k + 1);
    }
  }

  ghost function ReserveOutcome(network: Prefix, taken: seq<Prefix>, subnet: Prefix): Result<()>
    requires ValidPrefix(network) && AllValid(taken)
  {
    if !ValidPrefix(subnet) then Err(NotInNetwork)
    else if !Contains(network, subnet.width, subnet.addr) ||
            !Contains(network, subnet.width, LastOf(subnet)) then Err(NotInNetwork)
    else if !Free(taken, subnet) then Err(Overlapping)
    else Ok(())
  }

  method NewIPAM(net: Prefix) returns (r: Result<IPAM>)
    ensures r.Ok? <==> ValidPrefix(net) && 0 < net.bits
    ensures r.Ok? ==> fresh(r.value) && r.value.Valid() && r.value.taken == []
                      && r.value.network == Prefix(net.width, First(net), net.bits)
                      && First(r.value.network) == First(net)
    ensures r.Err? ==> r.error == InvalidNetwork
  {
    if !ValidPrefix(net) || net.bits == 0 {
      return Err(InvalidNetwork);
    }
    var ipam := new IPAM(net);
    return Ok(ipam);
  }

  /** A reservation keeps a masked subnet inside the network. For a prefix that
      is not masked the two addresses looked at are not enough: the block stays
      inside exactly when it is no larger than the network. */
  lemma ReservedIsInside(network: Prefix, taken: seq<Prefix>, subnet: Prefix)
    requires ValidPrefix(network) && AllValid(taken) && ReserveOutcome(network, taken, subnet).Ok?
    ensures First(network) <= First(subnet) && LastOf(subnet) <= LastOf(network) <==> network.bits <= subnet.bits
    ensures Masked(subnet) ==> network.bits <= subnet.bits
  {
    if network.bits <= subnet.bits {
      var _ := InsideWhenSmaller(network, subnet);
    } else {
      Pow2Grows(network.width - network.bits, network.width - subnet.bits);
    }
  }

  lemma {:induction false} Pow2Grows(a: nat, b: nat)
    requires a < b
    ensures Pow2(a) < Pow2(b)
  {
    if a + 1 < b {
      Pow2Grows(a, b - 1);
    }
  }

  /** An unmasked prefix larger than the network slips through: 10.200.0.0/8 in 10.128.0.0/9. */
  lemma UnmaskedCounterexample()
    ensures var network, subnet := Prefix(32, 0x0A80_0000, 9), Prefix(32, 0x0AC8_0000, 8);
            ValidPrefix(network) && ValidPrefix(subnet)
            && ReserveOutcome(network, [], subnet).Ok? && First(subnet) < First(network)
  {
    Powers();
    TimesIsProduct(21, 0x80_0000);
    TimesIsProduct(10, 0x100_0000);
    QuotIsUnique(0x0A80_0000, 0x80_0000, 21);
    QuotIsUnique(0x0AC8_0000, 0x100_0000, 10);
  }

  lemma Powers()
    ensures Pow2(23) == 0x80_0000 && Pow2(24) == 0x100_0000 && Pow2(32) == 0x1_0000_0000
  {
    assert Pow2(8) == 256;
    Pow2Adds(8, 8);
    Pow2Adds(8, 16);
    Pow2Adds(8, 24);
    TimesIsProduct(256, 256);
    TimesIsProduct(256, 0x1_0000);
    TimesIsProduct(256, 0x100_0000);
  }

  // ---- A fresh network ----

  ghost function AllocateNext(network: Prefix, bits: nat, taken: seq<Prefix>): (r: seq<Prefix>)
    requires Fits(network, bits) && AllValid(taken)
    ensures AllValid(r)
  {
    match FirstFree(taken, network, bits, 0)
    case None => taken
    case Some(k) => taken + [Block(network, bits, k)]
  }

  /** What is allocated after n first-fit allocations from an empty network, stopping when none is left. */
  ghost function AllocateMany(network: Prefix, bits: nat, n: nat): (r: seq<Prefix>)
    requires Fits(network, bits)
    ensures AllValid(r)
  {
    if n == 0 then [] else AllocateNext(network, bits, AllocateMany(network, bits, n - 1))
  }

  /** A fresh network yields its blocks in address order, and exactly as many as fit. */
  lemma {:induction false} FreshNetworkYieldsAll(network: Prefix, bits: nat, n: nat)
    requires Fits(network, bits)
    ensures FirstBlocks(network, bits, AllocateMany(network, bits, n))
    ensures |AllocateMany(network, bits, n)| == if n < BlockCount(network, bits) then n else BlockCount(network, bits)
  {
    if n > 0 {
      FreshNetworkYieldsAll(network, bits, n - 1);
      NextOfFirst(network, bits, AllocateMany(network, bits, n - 1));
    }
  }

  /** The first so many blocks of the network, in order. */
  ghost predicate FirstBlocks(network: Prefix, bits: nat, blocks: seq<Prefix>)
    requires Fits(network, bits)
  {
    |blocks| <= BlockCount(network, bits) && forall k :: 0 <= k < |blocks| ==> blocks[k] == Block(network, bits, k)
  }

  lemma FirstBlocksTaken(network: Prefix, bits: nat, blocks: seq<Prefix>, k: nat)
    requires Fits(network, bits) && AllValid(blocks) && FirstBlocks(network, bits, blocks)
             && k < BlockCount(network, bits)
    ensures BlockFree(blocks, network, bits, k) <==> |blocks| <= k
  {
    BlockIsAligned(network, bits, k);
    forall j | 0 <= j < |blocks|
      ensures Overlap(blocks[j], Block(network, bits, k)) <==> j == k
    {
      BlocksDisjoint(network, bits, j, k);
    }
    if k < |blocks| {
      assert Overlap(blocks[k], Block(network, bits, k));
    }
  }

  lemma NextOfFirst(network: Prefix, bits: nat, blocks: seq<Prefix>)
    requires Fits(network, bits) && AllValid(blocks) && FirstBlocks(network, bits, blocks)
    ensures FirstBlocks(network, bits, AllocateNext(network, bits, blocks))
    ensures |AllocateNext(network, bits, blocks)| == |blocks| + if |blocks| < BlockCount(network, bits) then 1 else 0
  {
    FirstFreeIsNext(network, bits, blocks);
  }

  lemma FirstFreeIsNext(network: Prefix, bits: nat, blocks: seq<Prefix>)
    requires Fits(network, bits) && AllValid(blocks) && FirstBlocks(network, bits, blocks)
    ensures FirstFree(blocks, network, bits, 0) == if |blocks| < BlockCount(network, bits) then Some(|blocks|) else None
  {
    forall k | 0 <= k < BlockCount(network, bits)
      ensures BlockFree(blocks, network, bits, k) <==> |blocks| <= k
    {
      FirstBlocksTaken(network, bits, blocks, k);
    }
    FirstFreeIs(blocks, network, bits, |blocks|);
  }

  // ---- Rebuilding from stored subnets ----

  function Mask(net: Prefix): Prefix
    requires ValidPrefix(net)
  {
    Prefix(net.width, First(net), net.bits)
  }

  lemma MaskKeepsBlock(net: Prefix)
    requires ValidPrefix(net)
    ensures ValidPrefix(Mask(net)) && Masked(Mask(net))
            && First(Mask(net)) == First(net) && Size(Mask(net)) == Size(net)
  {
    QuotIsUnique(First(net), Size(net), Quot(net.addr, Size(net)));
  }

  ghost predicate Admitted(network: Prefix, subnets: seq<Prefix>, k: nat)
    requires ValidPrefix(network) && k < |subnets|
  {
    AllValid(subnets[..k]) && ReserveOutcome(network, subnets[..k], subnets[k]).Ok?
  }

  /** Each subnet can be reserved after the ones before it. */
  ghost predicate Admissible(network: Prefix, subnets: seq<Prefix>)
    requires ValidPrefix(network)
  {
    AllValid(subnets) && forall k :: 0 <= k < |subnets| ==> Admitted(network, subnets, k)
  }

  method NewIPAMWithAllocated(net: Prefix, subnets: seq<Prefix>) returns (r: Result<IPAM>)
    ensures r.Ok? <==> ValidPrefix(net) && 0 < net.bits && ValidPrefix(Mask(net)) && Admissible(Mask(net), subnets)
    ensures r.Ok? ==> fresh(r.value) && r.value.Valid() && r.value.network == Mask(net) && r.value.taken == subnets
  {
    r := NewIPAM(net);
    if r.Err? {
      return;
    }
    var ipam := r.value;
    for i := 0 to |subnets|
      invariant ipam.Valid() && ipam.taken == subnets[..i] && fresh(ipam)
      invariant forall k :: 0 <= k < i ==> Admitted(ipam.network, subnets, k)
    {
      var reserved := ipam.AllocateSubnet(subnets[i]);
      if reserved.Err? {
        assert !Admitted(ipam.network, subnets, i);
        return Err(reserved.error);
      }
      assert subnets[..i + 1] == subnets[..i] + [subnets[i]];
    }
    assert subnets[..|subnets|] == subnets;
  }
}
