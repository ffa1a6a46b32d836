/**
 The field converters: each one changes its own slots of a match in place. Running all
 sixteen on a catch-all match gives the closed form.
 */
module AclConverters {
  import opened Options
  import opened AclBits
  import opened AclEntries
  import opened AclTranslation

  const CATCH_ALL := Match(
    Masked(0, 0), Masked(0, 0), Masked(0, 0), Masked(0, 0), Masked(0, 0), Masked(0, 0), Masked(0, 0),
    Masked(0, 0), Masked(0, 0), Masked(0, 0), Masked(0, 0), Masked(0, 0), Masked(0, 0), Masked(0, 0))

  /** What the TP_SRC and TP_DST converters leave in a slot. */
  function AfterPort(port: Port, slot: Masked<bv16>): Masked<bv16> {
    if port.valid && (port.op.Eq? || port.op.Neq?) then PortSlot(port, None) else slot
  }

  class OfMatch {
    var slots: Match

    /** match_init_catchall */
    constructor ()
      ensures slots == CATCH_ALL
    {
      slots := CATCH_ALL;
    }

    method SrcIpv4(e: Entry)
      modifies this
      ensures slots == old(slots).(nwSrc := if AsV4(e.srcFamily, e.srcAddr).Some? then Slot32(AsV4(e.srcFamily, e.srcAddr))
                                            else old(slots).nwSrc)
    {
      if e.srcAddr.None? { return; }
      if e.srcFamily != Inet { return; }
      var a := e.srcAddr.value;
      slots := slots.(nwSrc := Masked(And32(a.value.v4, a.mask.v4), a.mask.v4));
    }

    /** Asks for the source's family. */
    method DstIpv4(e: Entry)
      modifies this
      ensures slots == old(slots).(nwDst := if AsV4(e.srcFamily, e.dstAddr).Some? then Slot32(AsV4(e.srcFamily, e.dstAddr))
                                            else old(slots).nwDst)
    {
      if e.dstAddr.None? { return; }
      if e.srcFamily != Inet { return; }
      var a := e.dstAddr.value;
      slots := slots.(nwDst := Masked(And32(a.value.v4, a.mask.v4), a.mask.v4));
    }

    method SrcIpv6(e: Entry)
      modifies this
      ensures slots == old(slots).(ipv6Src := if AsV6(e.srcFamily, e.srcAddr).Some? then Slot128(AsV6(e.srcFamily, e.srcAddr))
                                              else old(slots).ipv6Src)
    {
      if e.srcAddr.None? { return; }
      if e.srcFamily != Inet6 { return; }
      var a := e.srcAddr.value;
      slots := slots.(ipv6Src := Masked(And128(a.value.v6, a.mask.v6), a.mask.v6));
    }

    /** Asks for the source's family. */
    method DstIpv6(e: Entry)
      modifies this
      ensures slots == old(slots).(ipv6Dst := if AsV6(e.srcFamily, e.dstAddr).Some? then Slot128(AsV6(e.srcFamily, e.dstAddr))
                                              else old(slots).ipv6Dst)
    {
      if e.dstAddr.None? { return; }
      if e.srcFamily != Inet6 { return; }
      var a := e.dstAddr.value;
      slots := slots.(ipv6Dst := Masked(And128(a.value.v6, a.mask.v6), a.mask.v6));
    }

    method Protocol(e: Entry)
      modifies this
      ensures slots == old(slots).(proto := if e.proto.Some? then Exact8(e.proto) else old(slots).proto)
    {
      if e.proto.None? { return; }
      slots := slots.(proto := Masked(e.proto.value, 0xFF));
    }

    method TcpFlags(e: Entry)
      modifies this
      ensures slots == old(slots).(tcpFlags := if e.tcpFlags.Some? then Slot16(e.tcpFlags) else old(slots).tcpFlags)
    {
      if e.tcpFlags.None? { return; }
      var f := e.tcpFlags.value;
      slots := slots.(tcpFlags := Masked(And16(f.value, f.mask), f.mask));
    }

    method SrcL4Port(e: Entry)
      modifies this
      ensures slots == old(slots).(tpSrc := AfterPort(e.srcPort, old(slots).tpSrc))
    {
      hide And16, Not16;
      if !e.srcPort.valid { return; }
      if !e.srcPort.op.Eq? && !e.srcPort.op.Neq? { return; }
      var port, mask := PortAndMask(e.srcPort);
      slots := slots.(tpSrc := Masked(And16(port, mask), mask));
    }

    method DstL4Port(e: Entry)
      modifies this
      ensures slots == old(slots).(tpDst := AfterPort(e.dstPort, old(slots).tpDst))
    {
      hide And16, Not16;
      if !e.dstPort.valid { return; }
      if !e.dstPort.op.Eq? && !e.dstPort.op.Neq? { return; }
      var port, mask := PortAndMask(e.dstPort);
      slots := slots.(tpDst := Masked(And16(port, mask), mask));
    }

    /** The common tail of the port converters. */
    static method PortAndMask(p: Port) returns (port: bv16, mask: bv16)
      requires p.op.Eq? || p.op.Neq?
      ensures p.op.Eq? ==> port == p.min && mask == 0xFFFF
      ensures p.op.Neq? ==> port == 0 && mask == Not16(p.min)
      ensures And16(port, mask) == port
    {
      mask := 0xFFFF;
      port := p.min;
      And16Facts(port, mask);
      if p.op.Neq? {
        mask := Not16(port);
        port := 0;
        ZeroAnd16(mask);
      }
    }

    /** The code takes the destination port's slot. */
    method IcmpCode(e: Entry)
      modifies this
      ensures slots == old(slots).(tpDst := if e.icmpCode.Some? then PortSlot(e.dstPort, e.icmpCode) else old(slots).tpDst)
    {
      hide Widen, Not16;
      if e.icmpCode.None? { return; }
      slots := slots.(tpDst := Masked(Widen(e.icmpCode.value), 0xFFFF));
    }

    /** The type takes the source port's slot. */
    method IcmpType(e: Entry)
      modifies this
      ensures slots == old(slots).(tpSrc := if e.icmpType.Some? then PortSlot(e.srcPort, e.icmpType) else old(slots).tpSrc)
    {
      hide Widen, Not16;
      if e.icmpType.None? { return; }
      slots := slots.(tpSrc := Masked(Widen(e.icmpType.value), 0xFFFF));
    }

    /** Adds to whatever the slot held, and keeps bits of the value that its mask leaves out. */
    method Dscp(e: Entry)
      requires slots.tos == Masked(0, 0)
      modifies this
      ensures slots == old(slots).(tos := if e.dscp.Some? then e.dscp.value else old(slots).tos)
    {
      if e.dscp.None? { return; }
      var m: bv8, v: bv8 := slots.tos.mask | e.dscp.value.mask, slots.tos.value;
      v := v & !0xFC;
      v := v | e.dscp.value.value;
      ZeroOr8(e.dscp.value.mask);
      ZeroOr8(e.dscp.value.value);
      slots := slots.(tos := Masked(v, m));
    }

    method SrcMac(e: Entry)
      modifies this
      ensures slots == old(slots).(dlSrc := if e.srcMac.Some? then Slot48(e.srcMac) else old(slots).dlSrc)
    {
      if e.srcMac.None? { return; }
      var a := e.srcMac.value;
      slots := slots.(dlSrc := Masked(And48(a.value, a.mask), a.mask));
    }

    method DstMac(e: Entry)
      modifies this
      ensures slots == old(slots).(dlDst := if e.dstMac.Some? then Slot48(e.dstMac) else old(slots).dlDst)
    {
      if e.dstMac.None? { return; }
      var a := e.dstMac.value;
      slots := slots.(dlDst := Masked(And48(a.value, a.mask), a.mask));
    }

    method Vlan(e: Entry)
      modifies this
      ensures slots == old(slots).(vid := if e.vlan.Some? then Exact12(e.vlan) else old(slots).vid)
    {
      if e.vlan.None? { return; }
      slots := slots.(vid := Masked(e.vlan.value, 0xFFF));
    }

    method L2Cos(e: Entry)
      modifies this
      ensures slots == old(slots).(pcp := if e.cos.Some? then Exact3(e.cos) else old(slots).pcp)
    {
      if e.cos.None? { return; }
      slots := slots.(pcp := Masked(e.cos.value, 0x7));
    }

    method Ethertype(e: Entry)
      modifies this
      ensures slots == old(slots).(ethType := if e.etherType.Some? then Exact16(e.etherType) else old(slots).ethType)
    {
      if e.etherType.None? { return; }
      slots := slots.(ethType := Masked(e.etherType.value, 0xFFFF));
    }
  }

  lemma ZeroAnd16(m: bv16)
    ensures And16(0, m) == 0
  {
  }

  lemma ZeroOr8(x: bv8)
    ensures 0 | x == x
    ensures (0 & !0xFC) | x == x
  {
  }

  /** __acl_entry_to_classifier_rule: the converters in their order, then the actions. */
  method AclEntryToRule(ruleId: int, e: Entry) returns (rule: Rule)
    ensures rule == Translate(ruleId, e)
  {
    hide And16, And32, And48, And128, Not16, Widen;
    if !HasActions(e) {
      return Blank;
    }
    var ofmatch := new OfMatch();
    ofmatch.SrcIpv4(e);
    ofmatch.DstIpv4(e);
    ofmatch.SrcIpv6(e);
    ofmatch.DstIpv6(e);
    ofmatch.Protocol(e);
    ofmatch.TcpFlags(e);
    ofmatch.SrcL4Port(e);
    ofmatch.DstL4Port(e);
    ofmatch.IcmpCode(e);
    ofmatch.IcmpType(e);
    ofmatch.Dscp(e);
    ofmatch.SrcMac(e);
    ofmatch.DstMac(e);
    ofmatch.Vlan(e);
    ofmatch.L2Cos(e);
    ofmatch.Ethertype(e);
    var verdict, count := NoVerdict, false;
    if e.actions.deny { verdict := Drop; }
    if e.actions.permit { verdict := Permit; }
    if e.actions.log { count := true; }
    if e.actions.count { count := true; }
    rule := Rule(ofmatch.slots, RULES_PER_TABLE_MAX - ruleId, verdict, count);
  }
}
