/**
 Access list entries and what they say about a packet. A field of an entry whose valid flag
 is clear is None, except for the port operators and the address families, which the code
 reads whether or not the flag is set.
 */
module AclEntries {
  import opened Options
  import opened AclBits

  /** The two views of an address union. */
  datatype Address = Address(v4: bv32, v6: bv128)

  datatype Family = Inet | Inet6 | Unspecified

  /** Ranged stands for every operator other than none, equal and not equal. */
  datatype PortOp = NoOp | Eq | Neq | Ranged

  datatype Port = Port(valid: bool, op: PortOp, min: bv16)

  datatype Actions = Actions(permit: bool, deny: bool, log: bool, count: bool)

  datatype Entry = Entry(
    srcFamily: Family, srcAddr: Option<Masked<Address>>,
    dstFamily: Family, dstAddr: Option<Masked<Address>>,
    proto: Option<bv8>, tcpFlags: Option<Masked<bv16>>,
    srcPort: Port, dstPort: Port,
    icmpCode: Option<bv8>, icmpType: Option<bv8>,
    dscp: Option<Masked<bv8>>,
    srcMac: Option<Masked<bv48>>, dstMac: Option<Masked<bv48>>,
    vlan: Option<bv12>, cos: Option<bv3>, etherType: Option<bv16>,
    actions: Actions)

  /** The header fields of a packet; ICMP type and code live where the ports do. */
  datatype Fields = Fields(
    nwSrc: bv32, nwDst: bv32, ipv6Src: bv128, ipv6Dst: bv128,
    proto: bv8, tcpFlags: bv16, tpSrc: bv16, tpDst: bv16, tos: bv8,
    dlSrc: bv48, dlDst: bv48, vid: bv12, pcp: bv3, ethType: bv16)

  datatype Verdict = Permit | Drop | NoVerdict

  predicate HasActions(e: Entry) {
    e.actions.permit || e.actions.deny || e.actions.log || e.actions.count
  }

  predicate Counts(e: Entry) {
    e.actions.log || e.actions.count
  }

  predicate RangeFree(e: Entry) {
    !e.srcPort.op.Ranged? && !e.dstPort.op.Ranged?
  }

  /** Permitting wins over denying. */
  function VerdictOf(e: Entry): Verdict {
    if e.actions.permit then Permit else if e.actions.deny then Drop else NoVerdict
  }

  // ------------------------------------------------------------------ the meaning of an entry

  /** The address as an IPv4 constraint, when the family says so. */
  function AsV4(family: Family, addr: Option<Masked<Address>>): Option<Masked<bv32>> {
    if family.Inet? && addr.Some? then Some(Masked(addr.value.value.v4, addr.value.mask.v4)) else None
  }

  function AsV6(family: Family, addr: Option<Masked<Address>>): Option<Masked<bv128>> {
    if family.Inet6? && addr.Some? then Some(Masked(addr.value.value.v6, addr.value.mask.v6)) else None
  }

  predicate AddrMatches(family: Family, addr: Option<Masked<Address>>, v4: bv32, v6: bv128) {
    && (AsV4(family, addr).Some? ==> On32(v4, AsV4(family, addr).value))
    && (AsV6(family, addr).Some? ==> On128(v6, AsV6(family, addr).value))
  }

  predicate PortMatches(port: Port, p: bv16) {
    port.valid ==> (port.op.Eq? ==> p == port.min) && (port.op.Neq? ==> p != port.min)
  }

  function Widen(x: bv8): bv16 {
    x as bv16
  }

  predicate IcmpMatches(icmp: Option<bv8>, p: bv16) {
    icmp.Some? ==> p == Widen(icmp.value)
  }

  predicate NetworkMatches(e: Entry, p: Fields) {
    && AddrMatches(e.srcFamily, e.srcAddr, p.nwSrc, p.ipv6Src)
    && AddrMatches(e.dstFamily, e.dstAddr, p.nwDst, p.ipv6Dst)
    && (e.proto.Some? ==> p.proto == e.proto.value)
    && (e.dscp.Some? ==> On8(p.tos, e.dscp.value))
  }

  predicate TransportMatches(e: Entry, p: Fields) {
    && (e.tcpFlags.Some? ==> On16(p.tcpFlags, e.tcpFlags.value))
    && PortMatches(e.srcPort, p.tpSrc) && PortMatches(e.dstPort, p.tpDst)
    && IcmpMatches(e.icmpType, p.tpSrc) && IcmpMatches(e.icmpCode, p.tpDst)
  }

  predicate LinkMatches(e: Entry, p: Fields) {
    && (e.srcMac.Some? ==> On48(p.dlSrc, e.srcMac.value))
    && (e.dstMac.Some? ==> On48(p.dlDst, e.dstMac.value))
    && (e.vlan.Some? ==> p.vid == e.vlan.value)
    && (e.cos.Some? ==> p.pcp == e.cos.value)
    && (e.etherType.Some? ==> p.ethType == e.etherType.value)
  }

  /** Every valid field of the entry holds of the packet. */
  predicate EntryMatches(e: Entry, p: Fields) {
    NetworkMatches(e, p) && TransportMatches(e, p) && LinkMatches(e, p)
  }

  /** Entry k decides the packet: it is the first that matches. */
  predicate Decides(entries: seq<Entry>, k: nat, p: Fields) {
    && k < |entries| && EntryMatches(entries[k], p)
    && (forall j :: 0 <= j < k ==> !EntryMatches(entries[j], p))
  }
}
