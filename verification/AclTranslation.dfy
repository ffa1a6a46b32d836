/**
 Translating an access list entry into a prioritised match rule. The closed form of the
 match says, slot by slot, what the sixteen field converters leave there; the theorems say
 when that match means its entry and that the priorities keep the first match first.
 */
module AclTranslation {
  import opened Options
  import opened AclBits
  import opened AclEntries

  const RULES_PER_TABLE_MAX := 512

  /** A match: a slot for every header field. */
  datatype Match = Match(
    nwSrc: Masked<bv32>, nwDst: Masked<bv32>, ipv6Src: Masked<bv128>, ipv6Dst: Masked<bv128>,
    proto: Masked<bv8>, tos: Masked<bv8>,
    tcpFlags: Masked<bv16>, tpSrc: Masked<bv16>, tpDst: Masked<bv16>,
    dlSrc: Masked<bv48>, dlDst: Masked<bv48>,
    vid: Masked<bv12>, pcp: Masked<bv3>, ethType: Masked<bv16>)

  /** A rule; Blank is one left as it was allocated. */
  datatype Rule =
    | Blank
    | Rule(pattern: Match, priority: int, verdict: Verdict, count: bool)

  predicate NetworkCovers(m: Match, p: Fields) {
    && On32(p.nwSrc, m.nwSrc) && On128(p.ipv6Src, m.ipv6Src)
    && On32(p.nwDst, m.nwDst) && On128(p.ipv6Dst, m.ipv6Dst)
    && On8(p.proto, m.proto) && On8(p.tos, m.tos)
  }

  predicate TransportCovers(m: Match, p: Fields) {
    On16(p.tcpFlags, m.tcpFlags) && On16(p.tpSrc, m.tpSrc) && On16(p.tpDst, m.tpDst)
  }

  predicate LinkCovers(m: Match, p: Fields) {
    && On48(p.dlSrc, m.dlSrc) && On48(p.dlDst, m.dlDst)
    && On12(p.vid, m.vid) && On3(p.pcp, m.pcp) && On16(p.ethType, m.ethType)
  }

  /** The packet is on every slot. */
  predicate Covers(m: Match, p: Fields) {
    NetworkCovers(m, p) && TransportCovers(m, p) && LinkCovers(m, p)
  }

  // ------------------------------------------------------------------ the closed form of a match

  /** A port slot: the ICMP field has the last word, and not-equal is zero under the mask ~port. */
  function PortSlot(port: Port, icmp: Option<bv8>): Masked<bv16> {
    if icmp.Some? then Masked(Widen(icmp.value), 0xFFFF)
    else if port.valid && port.op.Eq? then Masked(port.min, 0xFFFF)
    else if port.valid && port.op.Neq? then Masked(0, Not16(port.min))
    else Masked(0, 0)
  }

  /** What the converters make of an entry. Both address pairs go by the source family. */
  function Translated(e: Entry): Match {
    Match(
      Slot32(AsV4(e.srcFamily, e.srcAddr)), Slot32(AsV4(e.srcFamily, e.dstAddr)),
      Slot128(AsV6(e.srcFamily, e.srcAddr)), Slot128(AsV6(e.srcFamily, e.dstAddr)),
      Exact8(e.proto), if e.dscp.Some? then e.dscp.value else Masked(0, 0),
      Slot16(e.tcpFlags), PortSlot(e.srcPort, e.icmpType), PortSlot(e.dstPort, e.icmpCode),
      Slot48(e.srcMac), Slot48(e.dstMac),
      Exact12(e.vlan), Exact3(e.cos), Exact16(e.etherType))
  }

  /** __acl_entry_to_classifier_rule */
  function Translate(id: int, e: Entry): Rule {
    if !HasActions(e) then Blank
    else Rule(Translated(e), RULES_PER_TABLE_MAX - id, VerdictOf(e), Counts(e))
  }

  function TranslateAll(entries: seq<Entry>): (rules: seq<Rule>)
    ensures |rules| == |entries|
  {
    seq(|entries|, i requires 0 <= i < |entries| => Translate(i, entries[i]))
  }

  // ------------------------------------------------------------------ when a match means its entry

  /** The destination constraint is the same under either family. */
  predicate DestExact(e: Entry) {
    e.dstAddr.Some? ==>
      && ((e.srcFamily.Inet? <==> e.dstFamily.Inet?) || e.dstAddr.value.mask.v4 == 0)
      && ((e.srcFamily.Inet6? <==> e.dstFamily.Inet6?) || e.dstAddr.value.mask.v6 == 0)
  }

  /** Not-equal has no encoding, and an ICMP field overwrites the port it shares a slot with. */
  predicate PortExact(port: Port, icmp: Option<bv8>) {
    port.valid ==>
      if icmp.None? then !port.op.Neq?
      else (port.op.Eq? ==> port.min == Widen(icmp.value)) && (port.op.Neq? ==> port.min != Widen(icmp.value))
  }

  predicate Exact(e: Entry) {
    DestExact(e) && PortExact(e.srcPort, e.icmpType) && PortExact(e.dstPort, e.icmpCode)
  }

  lemma PortSlotMeaning(port: Port, icmp: Option<bv8>, p: bv16)
    requires !port.op.Ranged? && PortExact(port, icmp)
    ensures On16(p, PortSlot(port, icmp)) <==> PortMatches(port, p) && IcmpMatches(icmp, p)
  {
    hide And16, Widen, Not16;
    And16Facts(p, 0);
    And16Facts(PortSlot(port, icmp).value, 0);
  }

  lemma AddrSlotMeaning(used: Family, family: Family, addr: Option<Masked<Address>>, v4: bv32, v6: bv128)
    requires addr.Some? ==>
               && ((used.Inet? <==> family.Inet?) || addr.value.mask.v4 == 0)
               && ((used.Inet6? <==> family.Inet6?) || addr.value.mask.v6 == 0)
    ensures On32(v4, Slot32(AsV4(used, addr))) && On128(v6, Slot128(AsV6(used, addr)))
            <==> AddrMatches(family, addr, v4, v6)
  {
    hide And32, And128, Slot32, Slot128;
    Slot32On(AsV4(used, addr), v4);
    Slot128On(AsV6(used, addr), v6);
    if addr.Some? {
      And32Facts(v4, 0);
      And32Facts(addr.value.value.v4, 0);
      And128Facts(v6, 0);
      And128Facts(addr.value.value.v6, 0);
    }
  }

  lemma NetworkMeaning(e: Entry, p: Fields)
    requires DestExact(e)
    ensures NetworkCovers(Translated(e), p) <==> NetworkMatches(e, p)
  {
    hide And8, On32, On128, Slot32, Slot128, Exact8, AddrMatches, PortSlot;
    AddrSlotMeaning(e.srcFamily, e.srcFamily, e.srcAddr, p.nwSrc, p.ipv6Src);
    AddrSlotMeaning(e.srcFamily, e.dstFamily, e.dstAddr, p.nwDst, p.ipv6Dst);
    Exact8On(e.proto, p.proto);
    And8Facts(p.tos, 0);
    And8Facts(0, 0);
  }

  lemma LinkMeaning(e: Entry, p: Fields)
    ensures LinkCovers(Translated(e), p) <==> LinkMatches(e, p)
  {
    hide On48, On12, On3, On16, Slot48, Exact12, Exact3, Exact16, PortSlot;
    Slot48On(e.srcMac, p.dlSrc);
    Slot48On(e.dstMac, p.dlDst);
    Exact12On(e.vlan, p.vid);
    Exact3On(e.cos, p.pcp);
    Exact16On(e.etherType, p.ethType);
  }

  lemma TransportMeaning(e: Entry, p: Fields)
    requires RangeFree(e) && PortExact(e.srcPort, e.icmpType) && PortExact(e.dstPort, e.icmpCode)
    ensures TransportCovers(Translated(e), p) <==> TransportMatches(e, p)
  {
    hide On16, Slot16, PortSlot, PortExact;
    PortSlotMeaning(e.srcPort, e.icmpType, p.tpSrc);
    PortSlotMeaning(e.dstPort, e.icmpCode, p.tpDst);
    Slot16On(e.tcpFlags, p.tcpFlags);
  }

  lemma ExactMeaning(e: Entry, p: Fields)
    requires RangeFree(e) && Exact(e)
    ensures Covers(Translated(e), p) <==> EntryMatches(e, p)
  {
    hide NetworkCovers, NetworkMatches, TransportCovers, TransportMatches, LinkCovers, LinkMatches, Translated;
    NetworkMeaning(e, p);
    TransportMeaning(e, p);
    LinkMeaning(e, p);
  }

  // ------------------------------------------------------------------ and when it does not

  /** A transport header on the port slot: under a clash the ICMP field, else the port itself. */
  function PortWitness(port: Port, icmp: Option<bv8>): bv16 {
    if icmp.Some? then Widen(icmp.value) else port.min
  }

  lemma PortWitnessOn(port: Port, icmp: Option<bv8>)
    requires !port.op.Ranged?
    ensures On16(PortWitness(port, icmp), PortSlot(port, icmp))
    ensures PortExact(port, icmp)
            <==> PortMatches(port, PortWitness(port, icmp)) && IcmpMatches(icmp, PortWitness(port, icmp))
  {
    hide And16, Widen, Not16;
    var x := PortWitness(port, icmp);
    And16Facts(x, 0);
    And16Facts(0, 0);
    ComplementAdmits(port.min);
  }

  /** The value that satisfies a constraint, or one that does not when `miss` is set. */
  function Aim32(value: bv32, mask: bv32, miss: bool): bv32 {
    if miss then value ^ mask else value
  }

  function Aim128(value: bv128, mask: bv128, miss: bool): bv128 {
    if miss then value ^ mask else value
  }

  /** Destinations both families accept, or, to split them, one that only one of them does. */
  function DestWitness(e: Entry, split: bool): (bv32, bv128) {
    if e.dstAddr.None? then (0, 0)
    else
      var a := e.dstAddr.value;
      var miss4 := split && e.srcFamily.Inet? != e.dstFamily.Inet? && a.mask.v4 != 0;
      var miss6 := split && e.srcFamily.Inet6? != e.dstFamily.Inet6? && a.mask.v6 != 0;
      (Aim32(a.value.v4, a.mask.v4, miss4), Aim128(a.value.v6, a.mask.v6, miss6 && !miss4))
  }

  predicate DestCovers(e: Entry, d: (bv32, bv128)) {
    On32(d.0, Slot32(AsV4(e.srcFamily, e.dstAddr))) && On128(d.1, Slot128(AsV6(e.srcFamily, e.dstAddr)))
  }

  lemma DestWitnessOn(e: Entry)
    ensures var d := DestWitness(e, false);
            DestCovers(e, d) && AddrMatches(e.dstFamily, e.dstAddr, d.0, d.1)
  {
    hide And32, And128, Slot32, Slot128, Aim32, Aim128;
    var d := DestWitness(e, false);
    Slot32On(AsV4(e.srcFamily, e.dstAddr), d.0);
    Slot128On(AsV6(e.srcFamily, e.dstAddr), d.1);
    if e.dstAddr.Some? {
      Aim32Facts(e.dstAddr.value.value.v4, e.dstAddr.value.mask.v4);
      Aim128Facts(e.dstAddr.value.value.v6, e.dstAddr.value.mask.v6);
    }
  }

  lemma DestWitnessSplits(e: Entry)
    requires !DestExact(e)
    ensures var d := DestWitness(e, true);
            DestCovers(e, d) <==> !AddrMatches(e.dstFamily, e.dstAddr, d.0, d.1)
  {
    hide And32, And128, Slot32, Slot128, Aim32, Aim128;
    var a := e.dstAddr.value;
    var d := DestWitness(e, true);
    Slot32On(AsV4(e.srcFamily, e.dstAddr), d.0);
    Slot128On(AsV6(e.srcFamily, e.dstAddr), d.1);
    Aim32Facts(a.value.v4, a.mask.v4);
    Aim128Facts(a.value.v6, a.mask.v6);
  }

  lemma Aim32Facts(v: bv32, m: bv32)
    ensures And32(Aim32(v, m, false), m) == And32(v, m)
    ensures m != 0 ==> And32(Aim32(v, m, true), m) != And32(v, m)
  {
    Flip32(v, m);
  }

  lemma Aim128Facts(v: bv128, m: bv128)
    ensures And128(Aim128(v, m, false), m) == And128(v, m)
    ensures m != 0 ==> And128(Aim128(v, m, true), m) != And128(v, m)
  {
    Flip128(v, m);
  }

  /** A packet on every slot of the match but perhaps the destination. */
  function Witness(e: Entry, split: bool): Fields {
    var m := Translated(e);
    var d := DestWitness(e, split);
    Fields(m.nwSrc.value, d.0, m.ipv6Src.value, d.1, m.proto.value, m.tcpFlags.value,
           PortWitness(e.srcPort, e.icmpType), PortWitness(e.dstPort, e.icmpCode), m.tos.value,
           m.dlSrc.value, m.dlDst.value, m.vid.value, m.pcp.value, m.ethType.value)
  }

  lemma WitnessLink(e: Entry, split: bool)
    ensures LinkCovers(Translated(e), Witness(e, split)) && LinkMatches(e, Witness(e, split))
  {
    hide And48, And12, And3, And16, Slot48, Exact12, Exact3, Exact16, PortSlot, PortWitness, DestWitness, LinkMatches;
    LinkMeaning(e, Witness(e, split));
  }

  lemma WitnessTransport(e: Entry, split: bool)
    requires RangeFree(e)
    ensures TransportCovers(Translated(e), Witness(e, split))
    ensures TransportMatches(e, Witness(e, split))
            <==> PortExact(e.srcPort, e.icmpType) && PortExact(e.dstPort, e.icmpCode)
  {
    hide And16, Slot16, PortSlot, PortWitness, DestWitness, PortExact, PortMatches, IcmpMatches;
    PortWitnessOn(e.srcPort, e.icmpType);
    PortWitnessOn(e.dstPort, e.icmpCode);
    Slot16On(e.tcpFlags, Slot16(e.tcpFlags).value);
  }

  lemma WitnessNetwork(e: Entry, split: bool)
    requires split ==> !DestExact(e)
    ensures var p := Witness(e, split);
            if split then NetworkCovers(Translated(e), p) <==> !NetworkMatches(e, p)
            else NetworkCovers(Translated(e), p) && NetworkMatches(e, p)
  {
    hide And8, And32, And128, Slot32, Slot128, Exact8, PortSlot, PortWitness, DestWitness, AddrMatches, DestExact;
    var p := Witness(e, split);
    if split { DestWitnessSplits(e); } else { DestWitnessOn(e); }
    AddrSlotMeaning(e.srcFamily, e.srcFamily, e.srcAddr, p.nwSrc, p.ipv6Src);
    Exact8On(e.proto, p.proto);
  }

  /** An entry that is not exact is told apart from its rule by a packet. */
  lemma InexactMeaning(e: Entry)
    requires RangeFree(e) && !Exact(e)
    ensures var p := Witness(e, PortExact(e.srcPort, e.icmpType) && PortExact(e.dstPort, e.icmpCode));
            Covers(Translated(e), p) != EntryMatches(e, p)
  {
    hide NetworkCovers, NetworkMatches, TransportCovers, TransportMatches, LinkCovers, LinkMatches,
      Translated, Witness, PortExact, DestExact;
    var split := PortExact(e.srcPort, e.icmpType) && PortExact(e.dstPort, e.icmpCode);
    WitnessNetwork(e, split);
    WitnessTransport(e, split);
    WitnessLink(e, split);
  }

  /** A rule matches the packets its entry matches iff the entry is exact. */
  lemma ExactIff(e: Entry)
    requires RangeFree(e)
    ensures Exact(e) <==> forall p :: Covers(Translated(e), p) <==> EntryMatches(e, p)
  {
    hide Covers, EntryMatches, Translated, Witness;
    if Exact(e) {
      forall p ensures Covers(Translated(e), p) <==> EntryMatches(e, p) { ExactMeaning(e, p); }
    } else {
      InexactMeaning(e);
    }
  }

  /** The destination converters ask for the family of the source: without one, they do nothing. */
  lemma DestinationIgnored(e: Entry, v4: bv32)
    requires e.srcFamily == Unspecified && e.dstFamily == Inet && e.dstAddr.Some? && e.dstAddr.value.mask.v4 != 0
    ensures On32(v4, Translated(e).nwDst) && !Exact(e)
  {
    hide And32, PortSlot, PortExact;
    And32Facts(v4, 0);
    And32Facts(0, 0);
  }

  // ------------------------------------------------------------------ what every match means

  /** What a port slot covers: the ICMP field alone if there is one; not-equal covers the ports without a bit the port lacks. */
  predicate PortCovered(port: Port, icmp: Option<bv8>, p: bv16) {
    if icmp.Some? then p == Widen(icmp.value)
    else port.valid ==> (port.op.Eq? ==> p == port.min) && (port.op.Neq? ==> And16(p, Not16(port.min)) == 0)
  }

  lemma PortSlotCovers(port: Port, icmp: Option<bv8>, p: bv16)
    ensures On16(p, PortSlot(port, icmp)) <==> PortCovered(port, icmp, p)
  {
    hide And16, Widen, Not16;
    And16Facts(p, 0);
    And16Facts(PortSlot(port, icmp).value, 0);
    ZeroUnder(Not16(port.min));
  }

  lemma ZeroUnder(m: bv16)
    ensures And16(0, m) == 0
  {
  }

  /**
   The packets a translated match covers, for any entry, exact or not: both addresses under
   the family of the source, the port slots as above, and every other field as it says.
   */
  lemma CoversMeaning(e: Entry, p: Fields)
    ensures Covers(Translated(e), p)
            <==> && AddrMatches(e.srcFamily, e.srcAddr, p.nwSrc, p.ipv6Src)
                 && AddrMatches(e.srcFamily, e.dstAddr, p.nwDst, p.ipv6Dst)
                 && (e.proto.Some? ==> p.proto == e.proto.value)
                 && (e.dscp.Some? ==> On8(p.tos, e.dscp.value))
                 && (e.tcpFlags.Some? ==> On16(p.tcpFlags, e.tcpFlags.value))
                 && PortCovered(e.srcPort, e.icmpType, p.tpSrc) && PortCovered(e.dstPort, e.icmpCode, p.tpDst)
                 && LinkMatches(e, p)
  {
    hide On8, On16, On32, On128, Slot16, Slot32, Slot128, Exact8, AddrMatches, PortSlot, PortCovered, LinkCovers, LinkMatches;
    AddrSlotMeaning(e.srcFamily, e.srcFamily, e.srcAddr, p.nwSrc, p.ipv6Src);
    AddrSlotMeaning(e.srcFamily, e.srcFamily, e.dstAddr, p.nwDst, p.ipv6Dst);
    Exact8On(e.proto, p.proto);
    OpenOn8(p.tos);
    Slot16On(e.tcpFlags, p.tcpFlags);
    PortSlotCovers(e.srcPort, e.icmpType, p.tpSrc);
    PortSlotCovers(e.dstPort, e.icmpCode, p.tpDst);
    LinkMeaning(e, p);
  }

  lemma OpenOn8(x: bv8)
    ensures On8(x, Masked(0, 0))
  {
    And8Facts(x, 0);
    And8Facts(0, 0);
  }

  /** An entry without any action is left blank; any other becomes a rule that counts iff it logs or counts. */
  lemma BlankIff(entries: seq<Entry>, k: nat)
    requires k < |entries|
    ensures var (r, a) := (TranslateAll(entries)[k], entries[k].actions);
            && (r.Blank? <==> !a.permit && !a.deny && !a.log && !a.count)
            && (r.Rule? ==> r.pattern == Translated(entries[k]) && r.priority == RULES_PER_TABLE_MAX - k
                            && (r.verdict.Permit? <==> a.permit) && (r.verdict.Drop? <==> a.deny && !a.permit)
                            && (r.count <==> a.log || a.count))
  {
    hide Translated;
  }

  // ------------------------------------------------------------------ the first match wins

  predicate RuleCovers(r: Rule, p: Fields) {
    r.Rule? && Covers(r.pattern, p)
  }

  /** Rule k decides the packet: it covers it with a higher priority than any other that does. */
  predicate Wins(rules: seq<Rule>, k: nat, p: Fields) {
    && k < |rules| && RuleCovers(rules[k], p)
    && (forall j :: 0 <= j < |rules| && j != k && RuleCovers(rules[j], p) ==> rules[j].priority < rules[k].priority)
  }

  /** A list that admission lets through and whose entries all act and translate exactly. */
  predicate ExactList(entries: seq<Entry>) {
    forall k :: 0 <= k < |entries| ==> RangeFree(entries[k]) && HasActions(entries[k]) && Exact(entries[k])
  }

  lemma RuleMeaning(entries: seq<Entry>, k: nat, p: Fields)
    requires k < |entries| && ExactList(entries)
    ensures var r := TranslateAll(entries)[k];
            && (RuleCovers(r, p) <==> EntryMatches(entries[k], p))
            && r.Rule? && r.priority == RULES_PER_TABLE_MAX - k && r.verdict == VerdictOf(entries[k])
  {
    hide Exact, Covers, EntryMatches, Translated, VerdictOf, Counts;
    ExactMeaning(entries[k], p);
  }

  /** The winning rule is the translation of the first matching entry, and gives its verdict. */
  lemma FirstMatchKept(entries: seq<Entry>, k: nat, p: Fields)
    requires ExactList(entries)
    ensures Wins(TranslateAll(entries), k, p) <==> Decides(entries, k, p)
    ensures Wins(TranslateAll(entries), k, p) ==>
              TranslateAll(entries)[k].Rule? && TranslateAll(entries)[k].verdict == VerdictOf(entries[k])
  {
    hide ExactList, EntryMatches, RuleCovers, TranslateAll, VerdictOf;
    var rules := TranslateAll(entries);
    forall j | 0 <= j < |entries|
      ensures RuleCovers(rules[j], p) <==> EntryMatches(entries[j], p)
      ensures rules[j].Rule? && rules[j].priority == RULES_PER_TABLE_MAX - j
      ensures rules[j].verdict == VerdictOf(entries[j])
    {
      RuleMeaning(entries, j, p);
    }
  }

  /** No rule wins exactly when no entry matches. */
  lemma {:induction false} NoneKept(entries: seq<Entry>, p: Fields)
    requires ExactList(entries)
    ensures (exists k :: Wins(TranslateAll(entries), k, p))
            <==> (exists k :: 0 <= k < |entries| && EntryMatches(entries[k], p))
  {
    hide ExactList, EntryMatches, Wins, TranslateAll;
    if k :| Wins(TranslateAll(entries), k, p) {
      FirstMatchKept(entries, k, p);
    }
    if k :| 0 <= k < |entries| && EntryMatches(entries[k], p) {
      var first := FirstMatch(entries, k, p);
      FirstMatchKept(entries, first, p);
    }
  }

  lemma FirstMatch(entries: seq<Entry>, k: nat, p: Fields) returns (first: nat)
    requires k < |entries| && EntryMatches(entries[k], p)
    ensures Decides(entries, first, p)
  {
    hide EntryMatches;
    first := 0;
    while !EntryMatches(entries[first], p)
      invariant first <= k && forall j :: 0 <= j < first ==> !EntryMatches(entries[j], p)
      decreases k - first
    {
      first := first + 1;
    }
  }
}
