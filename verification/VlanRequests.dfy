/**
 The VLAN table as a function of the calls: a VLAN exists in hardware iff the last call on it
 created it, and has the members that the last accepted calls gave it.
 */
module VlanRequests {
  import opened Options
  import opened VlanPort
  import opened VlanTable

  // ------------------------------------------------------------------ single calls

  /**
   Removing a VLAN takes it from every port in hardware and nothing else: other VLANs, what is
   recorded of all of them, and all attributes stay. A strict switch then refuses its members.
   */
  lemma RemoveTakesAway(t: Table, vid: Vid, id: HwId)
    ensures var t' := Apply(t, Remove(vid));
            && HwVlansOf(t', id) == HwVlansOf(t, id) - {vid}
            && PortOf(t', id) == PortOf(t, id) && t'.shadow == t.shadow
            && (forall v: Vid :: v != vid ==> Lookup(t'.hw, v) == Lookup(t.hw, v)) && vid !in t'.hw
            && forall tag, add :: PortSet(t', vid, id, tag, add).ok <==> !t.strict
  {
  }

  /** The interface call creates a VLAN that is missing, as __vlan_set does, and leaves an existing one alone. */
  lemma IntfCreateOnlyCreates(t: Table, vid: Vid, order: seq<HwId>, id: HwId)
    requires ShadowInv(t) && IsOrder(t, vid, order)
    ensures var t' := Apply(t, IntfCreate(vid, order));
            && vid in t'.hw && t'.hw[vid] == Members(t.shadow, vid) && ShadowInv(t') && t'.shadow == t.shadow
            && (forall v: Vid :: v != vid ==> Lookup(t'.hw, v) == Lookup(t.hw, v))
            && AttrsOf(t', id) == if vid in t.hw then AttrsOf(t, id)
                                  else AfterReplay(AttrsOf(t, id), Lookup(Members(t.shadow, vid), id), vid)
  {
    hide Replay;
    CreateRestores(t, vid, order);
    CreateElsewhere(t, vid, order);
  }

  /** Other VLANs are as before when one is created. */
  lemma CreateElsewhere(t: Table, vid: Vid, order: seq<HwId>)
    requires ShadowInv(t) && IsOrder(t, vid, order)
    ensures var t' := Apply(t, Create(vid, order));
            t'.strict == t.strict && forall v: Vid :: v != vid ==> Lookup(t'.hw, v) == Lookup(t.hw, v)
  {
    hide Replay;
    ReplaySteps(CreateIfMissing(t, vid), vid, order);
  }

  // ------------------------------------------------------------------ runs

  /** The last call that created or removed the VLAN created it. */
  predicate Created(ops: seq<VlanOp>, vid: Vid) {
    if ops == [] then false
    else
      match ops[|ops| - 1]
      case Create(v, _) => v == vid || Created(ops[..|ops| - 1], vid)
      case IntfCreate(v, _) => v == vid || Created(ops[..|ops| - 1], vid)
      case Remove(v) => v != vid && Created(ops[..|ops| - 1], vid)
      case SetMember(_, _, _, _) => Created(ops[..|ops| - 1], vid)
  }

  /** The tag of the last member call for the port that the switch accepted; None if that was a removal. */
  function Asked(strict: bool, ops: seq<VlanOp>, vid: Vid, id: HwId): Option<Tag> {
    if ops == [] then None
    else
      var front, last := ops[..|ops| - 1], ops[|ops| - 1];
      if last.SetMember? && last.vid == vid && last.id == id && (!strict || Created(front, vid))
      then (if last.add then Some(last.tag) else None)
      else Asked(strict, front, vid, id)
  }

  ghost predicate IsRun(strict: bool, states: seq<Table>, ops: seq<VlanOp>) {
    && |states| == |ops| + 1 && states[0] == Table(map[], map[], map[], strict)
    && forall i :: 0 <= i < |ops| ==> Enabled(states[i], ops[i]) && states[i + 1] == Apply(states[i], ops[i])
  }

  lemma ApplyKeys(t: Table, op: VlanOp)
    requires ShadowInv(t) && Enabled(t, op)
    ensures var t' := Apply(t, op);
            && t'.strict == t.strict
            && t'.hw.Keys == (match op
                              case Create(v, _) => t.hw.Keys + {v}
                              case IntfCreate(v, _) => t.hw.Keys + {v}
                              case Remove(v) => t.hw.Keys - {v}
                              case SetMember(_, _, _, _) => t.hw.Keys)
  {
    hide Replay;
    match op
    case Create(vid, order) => CreateRestores(t, vid, order); CreateElsewhere(t, vid, order);
    case IntfCreate(vid, order) => CreateRestores(t, vid, order); CreateElsewhere(t, vid, order);
    case Remove(_) =>
    case SetMember(vid, id, tag, add) => PortSetInv(t, vid, id, tag, add);
  }

  lemma ApplyMembers(t: Table, op: VlanOp, vid: Vid, id: HwId)
    requires ShadowInv(t) && Enabled(t, op)
    ensures Lookup(Members(Apply(t, op).shadow, vid), id)
            == if op.SetMember? && op.vid == vid && op.id == id && Accepts(t, vid)
               then (if op.add then Some(op.tag) else None)
               else Lookup(Members(t.shadow, vid), id)
  {
    hide Replay, ShadowInv;
    match op
    case Create(v, order) => CreateRestores(t, v, order);
    case IntfCreate(v, order) => CreateRestores(t, v, order);
    case Remove(_) =>
    case SetMember(v, x, tag, add) =>
  }

  /** What a call asks for is what the table has, in every state of every run. */
  lemma {:induction false} TableIsRequested(strict: bool, states: seq<Table>, ops: seq<VlanOp>, n: nat, vid: Vid, id: HwId)
    requires IsRun(strict, states, ops) && n < |states|
    ensures states[n].strict == strict && (vid in states[n].hw <==> Created(ops[..n], vid))
    ensures Lookup(PortOf(states[n], id).vlans, vid) == Asked(strict, ops[..n], vid, id)
  {
    MemberIff(states[n], vid, id);
    hide Apply, Enabled, PortOf, Created, Asked, Members, ShadowInv;
    if n == 0 {
      NothingAsked(strict, states[0], ops[..0], vid, id);
    } else {
      var t, op := states[n - 1], ops[n - 1];
      TableIsRequested(strict, states, ops, n - 1, vid, id);
      MemberIff(t, vid, id);
      ShadowOverRuns(states, ops, n - 1);
      ApplyKeys(t, op);
      ApplyMembers(t, op, vid, id);
      assert ops[..n] == ops[..n - 1] + [op];
      AskedMore(strict, ops[..n - 1], op, vid, id);
    }
  }

  lemma NothingAsked(strict: bool, t: Table, ops: seq<VlanOp>, vid: Vid, id: HwId)
    requires ops == [] && t == Table(map[], map[], map[], strict)
    ensures !Created(ops, vid) && Asked(strict, ops, vid, id) == None && PortOf(t, id).vlans == map[]
  {
  }

  /** One more call. */
  lemma {:induction false} AskedMore(strict: bool, ops: seq<VlanOp>, op: VlanOp, vid: Vid, id: HwId)
    ensures Created(ops + [op], vid) <==>
            if (op.Create? || op.IntfCreate?) && op.vid == vid then true
            else if op.Remove? && op.vid == vid then false
            else Created(ops, vid)
    ensures Asked(strict, ops + [op], vid, id)
            == if op.SetMember? && op.vid == vid && op.id == id && (!strict || Created(ops, vid))
               then (if op.add then Some(op.tag) else None)
               else Asked(strict, ops, vid, id)
  {
    assert (ops + [op])[..|ops|] == ops;
  }

  /** And in hardware a port is in a VLAN iff the VLAN was created last and the port is wanted in it. */
  lemma HardwareIsRequested(strict: bool, states: seq<Table>, ops: seq<VlanOp>, n: nat, vid: Vid, id: HwId)
    requires IsRun(strict, states, ops) && n < |states|
    ensures Lookup(HwVlansOf(states[n], id), vid)
            == if Created(ops[..n], vid) then Asked(strict, ops[..n], vid, id) else None
  {
    hide Apply, Enabled, PortOf, Created, Asked;
    TableIsRequested(strict, states, ops, n, vid, id);
    ShadowOverRuns(states, ops, n);
    HardwareIsRecorded(states[n], id);
  }
}
