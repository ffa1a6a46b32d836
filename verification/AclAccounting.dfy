/**
 Does the accounting describe the tables? Indexes can be shared, because the first table to
 be written takes every free slot. The usage of an index is then what its tables need only
 as long as no table goes while another with rules shares its index.
 */
module AclAccounting {
  import opened Options
  import opened AclEntries
  import opened AclTranslation
  import opened AclResources
  import opened AclTheorems

  // ------------------------------------------------------------------ index assignment

  /** The assigned index is the last free slot, and slot 0 when there is none. */
  lemma {:induction false} AssignedIndex(slots: seq<Option<ListId>>)
    requires slots != []
    ensures LastFree(slots) < |slots|
    ensures if exists k :: 0 <= k < |slots| && slots[k].None?
            then slots[LastFree(slots)].None? && forall k :: LastFree(slots) < k < |slots| ==> slots[k].Some?
            else LastFree(slots) == 0
  {
    var n := |slots| - 1;
    if slots[n].Some? && n > 0 {
      AssignedIndex(slots[..n]);
      if k :| 0 <= k < |slots| && slots[k].None? {
        assert slots[..n][k].None?;
      }
      forall k | LastFree(slots) < k < |slots| && (exists j :: 0 <= j < n && slots[..n][j].None?)
        ensures slots[k].Some?
      {
        assert k < n ==> slots[..n][k].Some?;
      }
    }
  }

  /** Two tables written one after the other: the second has index 0. */
  lemma NextTableGetsZero(db: Db, a: ListId, b: ListId, first: seq<Entry>, second: seq<Entry>, p: Usage, q: Usage)
    requires Shaped(db)
    ensures Install(Install(db, a, first, p), b, second, q).tables[b].index == 0
  {
    var slots := Install(db, a, first, p).slots;
    AssignedIndex(slots);
  }

  // ------------------------------------------------------------------ what one call undoes

  /** Applying a new list to a port and removing it again restores the usage iff its index was unused. */
  lemma ApplyThenRemove(db: Db, id: ListId, entries: seq<Entry>, i: Interface, dir: Direction, hw: Hw)
    requires Inv(db) && id !in db.tables && Binds(i) && hw == Hw(true, true, true)
    requires Apply(db, id, entries, i, dir, hw).status == Success
    ensures Shaped(db) && LastFree(db.slots) < TABLES_MAX
    ensures var r := Remove(Apply(db, id, entries, i, dir, hw).db, id, i, hw);
            && r.status == Success && r.db.tables == db.tables
            && (r.db.perTable == db.perTable && r.db.global == db.global <==> db.perTable[LastFree(db.slots)] == NOTHING)
  {
    hide CheckList, Need, TranslateAll, Fill, LastFree, Inv, Install, Rebound, DestroyIfUnbound;
    InvLimits(db);
    LastFreeInRange(db.slots);
    AdmittedIff(db.global, dir, entries, NOTHING);
    assert Plus(NOTHING, Need(entries)) == Need(entries);
    var installed := Install(db, id, entries, Need(entries));
    InstallTables(db, id, entries);
    assert Apply(db, id, entries, i, dir, hw).db == Rebound(installed, id, 1);
    ReboundBack(installed, id);
    InstalledThenDestroyed(db, id, entries);
  }

  lemma ReboundBack(db: Db, id: ListId)
    requires Shaped(db) && id in db.tables
    ensures id in Rebound(db, id, 1).tables && Rebound(Rebound(db, id, 1), id, -1) == db
  {
    assert db.tables[id := db.tables[id]] == db.tables;
  }

  lemma InstalledThenDestroyed(db: Db, id: ListId, entries: seq<Entry>)
    requires Shaped(db) && id !in db.tables
    ensures id in Install(db, id, entries, Need(entries)).tables
    ensures var r := DestroyIfUnbound(Install(db, id, entries, Need(entries)), id);
            var j := LastFree(db.slots);
            && r.tables == db.tables && j < TABLES_MAX
            && (r.perTable == db.perTable && r.global == db.global <==> db.perTable[j] == NOTHING)
  {
    hide Need, TranslateAll, Fill, LastFree;
    LastFreeInRange(db.slots);
    var j := LastFree(db.slots);
    var r := DestroyIfUnbound(Install(db, id, entries, Need(entries)), id);
    assert r.perTable == db.perTable[j := NOTHING];
    assert r.perTable[j] == NOTHING;
  }

  /** For a list that is installed, applying and removing cancel iff some interface held it before. */
  lemma RebindThenRemove(db: Db, id: ListId, entries: seq<Entry>, i: Interface, dir: Direction, hw: Hw)
    requires Shaped(db) && id in db.tables && Binds(i) && hw == Hw(true, true, true)
    ensures Remove(Apply(db, id, entries, i, dir, hw).db, id, i, hw).db == db <==> db.tables[id].bound != 0
  {
    hide CheckList;
    var once := Apply(db, id, entries, i, dir, hw).db;
    assert once.tables[id := once.tables[id].(bound := db.tables[id].bound)] == db.tables;
    if db.tables[id].bound == 0 {
      assert id !in Remove(once, id, i, hw).db.tables;
    }
  }

  // ------------------------------------------------------------------ what the tables need

  function CountingRules(rules: seq<Rule>): nat {
    if rules == [] then 0
    else
      var r := rules[|rules| - 1];
      CountingRules(rules[..|rules| - 1]) + if r.Rule? && r.count then 1 else 0
  }

  function TableNeed(rules: seq<Rule>): Usage {
    Usage(|rules|, 0, CountingRules(rules))
  }

  lemma RuleCounts(id: int, e: Entry)
    ensures var r := Translate(id, e);
            EntryNeed(e).counters == (if r.Rule? && r.count then 1 else 0) && EntryNeed(e).rules == 1
            && EntryNeed(e).range >= 0
  {
  }

  lemma TranslateAllLast(entries: seq<Entry>)
    requires entries != []
    ensures var n := |entries| - 1;
            TranslateAll(entries)[..n] == TranslateAll(entries[..n]) && TranslateAll(entries)[n] == Translate(n, entries[n])
  {
    hide Translate;
  }

  /** A written table needs what its list was admitted for. */
  lemma {:induction false} TableNeedOfList(entries: seq<Entry>)
    requires Need(entries).range == 0
    ensures TableNeed(TranslateAll(entries)) == Need(entries)
  {
    hide Need, Translate, EntryNeed, TranslateAll;
    if entries == [] {
      assert Need(entries) == NOTHING by { NeedOfNone(); }
    } else {
      var n := |entries| - 1;
      NeedLast(entries);
      RuleCounts(n, entries[n]);
      TableNeedOfList(entries[..n]);
      TranslateAllLast(entries);
    }
  }

  lemma NeedOfNone()
    ensures Need([]) == NOTHING
  {
  }

  /** What the tables with index i need together. */
  ghost function Charges(tables: map<ListId, Table>, i: nat): (u: Usage)
    ensures NonNegative(u) && u.range == 0
    decreases |tables|
  {
    if tables == map[] then NOTHING
    else
      var id :| id in tables;
      Plus(Charges(tables - {id}, i), Charge(tables[id], i))
  }

  ghost function Charge(t: Table, i: nat): (u: Usage)
    ensures NonNegative(u) && u.range == 0
  {
    if t.index == i then TableNeed(t.rules) else NOTHING
  }

  lemma {:induction false} ChargesTake(tables: map<ListId, Table>, id: ListId, i: nat)
    requires id in tables
    ensures Charges(tables, i) == Plus(Charges(tables - {id}, i), Charge(tables[id], i))
    decreases |tables|
  {
    hide Charge;
    var x: ListId :| x in tables && Charges(tables, i) == Plus(Charges(tables - {x}, i), Charge(tables[x], i));
    if x != id {
      ChargesTake(tables - {x}, id, i);
      ChargesTake(tables - {id}, x, i);
      assert tables - {x} - {id} == tables - {id} - {x};
      assert Charges(tables, i) == Plus(Charges(tables - {x}, i), Charge(tables[x], i));
    } else {
      assert tables - {x} == tables - {id};
    }
  }

  lemma ChargesPut(tables: map<ListId, Table>, id: ListId, t: Table, i: nat)
    ensures Charges(tables[id := t], i) == Plus(Charges(tables - {id}, i), Charge(t, i))
  {
    hide Charge, Charges;
    ChargesTake(tables[id := t], id, i);
    assert tables[id := t] - {id} == tables - {id};
  }

  lemma ChargeNothingIff(t: Table, i: nat)
    ensures Charge(t, i) == NOTHING <==> (t.index == i ==> t.rules == [])
  {
  }

  /** Tables need nothing at an index iff none of them there has a rule. */
  lemma {:induction false} ChargesNothingIff(tables: map<ListId, Table>, i: nat)
    ensures Charges(tables, i) == NOTHING <==> forall id :: id in tables && tables[id].index == i ==> tables[id].rules == []
    decreases |tables|
  {
    hide Charge, Charges;
    if tables == map[] {
      ChargesOfNone(i);
    } else {
      var x :| x in tables;
      var rest := tables - {x};
      ChargesTake(tables, x, i);
      ChargesNothingIff(rest, i);
      ChargeNothingIff(tables[x], i);
      assert forall id :: id in tables && id != x ==> id in rest && rest[id] == tables[id];
      assert forall id :: id in rest ==> id in tables && rest[id] == tables[id];
    }
  }

  lemma ChargesOfNone(i: nat)
    ensures Charges(map[], i) == NOTHING
  {
  }

  /** Every index is charged with what its tables need. */
  ghost predicate Faithful(db: Db)
    requires Shaped(db)
  {
    forall i :: 0 <= i < TABLES_MAX ==> db.perTable[i] == Charges(db.tables, i)
  }

  /** Another table with rules has the same index. */
  predicate Shares(db: Db, id: ListId)
    requires id in db.tables
  {
    exists other :: other in db.tables && other != id && db.tables[other].index == db.tables[id].index
                    && db.tables[other].rules != []
  }

  lemma ReboundCharges(db: Db, id: ListId, delta: int, i: nat)
    requires Shaped(db) && id in db.tables
    ensures Charges(Rebound(db, id, delta).tables, i) == Charges(db.tables, i)
  {
    hide Charges;
    ChargesTake(db.tables, id, i);
    ChargesPut(db.tables, id, db.tables[id].(bound := db.tables[id].bound + delta), i);
  }

  lemma ReboundFaithful(db: Db, id: ListId, delta: int)
    requires Shaped(db) && id in db.tables
    ensures Faithful(Rebound(db, id, delta)) <==> Faithful(db)
  {
    hide Charges;
    forall i: nat ensures Charges(Rebound(db, id, delta).tables, i) == Charges(db.tables, i) {
      ReboundCharges(db, id, delta, i);
    }
  }

  lemma ReboundShares(db: Db, id: ListId, delta: int)
    requires Shaped(db) && id in db.tables
    ensures Shares(Rebound(db, id, delta), id) <==> Shares(db, id)
  {
    var r := Rebound(db, id, delta);
    assert forall t :: t in db.tables ==> r.tables[t].index == db.tables[t].index && r.tables[t].rules == db.tables[t].rules;
    if other :| other in db.tables && other != id && db.tables[other].index == db.tables[id].index
                && db.tables[other].rules != [] {
      assert other in r.tables;
    }
  }

  /** Destroying a table clears the usage of its index: right iff no other table there has rules. */
  lemma DestroyFaithfulIff(db: Db, id: ListId)
    requires Shaped(db) && Faithful(db) && id in db.tables && db.tables[id].bound == 0
    ensures Faithful(DestroyIfUnbound(db, id)) <==> !Shares(db, id)
  {
    hide Charges, Charge;
    var i := db.tables[id].index;
    var r := DestroyIfUnbound(db, id);
    forall k: nat | k < TABLES_MAX && k != i ensures r.perTable[k] == Charges(r.tables, k) {
      ChargesTake(db.tables, id, k);
      ChargeElsewhere(db.tables[id], k);
    }
    ChargesNothingIff(r.tables, i);
    assert Faithful(r) <==> Charges(r.tables, i) == NOTHING;
    if Shares(db, id) {
      var other :| other in db.tables && other != id && db.tables[other].index == i && db.tables[other].rules != [];
      assert other in r.tables && r.tables[other].rules != [];
    }
  }

  lemma ChargeElsewhere(t: Table, k: nat)
    requires t.index != k
    ensures Charge(t, k) == NOTHING
  {
  }

  lemma InstallFaithful(db: Db, id: ListId, entries: seq<Entry>)
    requires Shaped(db) && id !in db.tables && Need(entries).range == 0
    ensures Faithful(Install(db, id, entries, Need(entries))) <==> Faithful(db)
  {
    hide Charges, Need, TranslateAll, TableNeed, LastFree, Fill;
    LastFreeInRange(db.slots);
    var j := LastFree(db.slots);
    var r := Install(db, id, entries, Need(entries));
    TableNeedOfList(entries);
    assert db.tables - {id} == db.tables;
    forall k: nat | k < TABLES_MAX
      ensures r.perTable[k] == Charges(r.tables, k) <==> db.perTable[k] == Charges(db.tables, k)
    {
      ChargesPut(db.tables, id, Table(j, 0, TranslateAll(entries)), k);
    }
  }

  /** The table an operation takes away. */
  function Destroys(db: Db, op: Op): Option<ListId>
    requires Shaped(db)
  {
    match op
    case OpApply(_, _, _, _, _) => None
    case OpRemove(id, i, hw) => Leaves(db, id, i, hw)
    case OpReplace(orig, id, entries, i, dir, hw) =>
      if orig in db.tables && FirstPass(db, orig, id, entries, dir).Admitted? then Leaves(db, orig, i, hw) else None
  }

  function Leaves(db: Db, id: ListId, i: Interface, hw: Hw): Option<ListId> {
    if id in db.tables && (Binds(i) ==> hw.unbind) && db.tables[id].bound == (if Binds(i) then 1 else 0)
    then Some(id) else None
  }

  lemma DetachFaithfulIff(db: Db, id: ListId, i: Interface, hw: Hw)
    requires Shaped(db) && Faithful(db) && id in db.tables
    ensures Faithful(Detach(db, id, i, hw.unbind).db) <==> !(Leaves(db, id, i, hw).Some? && Shares(db, id))
  {
    hide Faithful, Shares;
    ReboundFaithful(db, id, -1);
    ReboundShares(db, id, -1);
    if Leaves(db, id, i, hw).Some? {
      DestroyFaithfulIff(if Binds(i) then Rebound(db, id, -1) else db, id);
    }
  }

  lemma BindFaithful(db: Db, id: ListId, i: Interface, ok: bool)
    requires Shaped(db) && id in db.tables
    ensures Faithful(Bind(db, id, i, ok).db) <==> Faithful(db)
  {
    hide Faithful, Shares;
    ReboundFaithful(db, id, 1);
  }

  lemma AttachFaithful(db: Db, id: ListId, entries: seq<Entry>, i: Interface, dir: Direction, hw: Hw)
    requires Inv(db)
    ensures Shaped(db) && (Faithful(Attach(db, id, entries, i, dir, hw).db) <==> Faithful(db))
  {
    hide Inv, Faithful, Fits, Install, Bind, CheckList, Need, Sum;
    ShapedInv(db);
    if id in db.tables {
      BindFaithful(db, id, i, hw.bind);
    } else {
      WriteFailsFaithful(db, id);
      AdmittedIff(db.global, dir, entries, NOTHING);
      if CheckList(db.global, dir, entries, NOTHING).Admitted? {
        AdmittedHasNoRange(db, dir, entries);
        assert Plus(NOTHING, Need(entries)) == Need(entries);
        InstallFaithful(db, id, entries);
        InstallTables(db, id, entries);
        BindFaithful(Install(db, id, entries, Need(entries)), id, i, hw.bind);
      }
    }
  }

  lemma AdmittedHasNoRange(db: Db, dir: Direction, entries: seq<Entry>)
    requires Inv(db) && Fits(db.global, dir, entries, NOTHING)
    ensures Need(entries).range == 0
  {
    hide Translates, Sum;
    NoRangeInUse(db, 0);
    NeedRange(entries);
  }

  lemma WriteFailsFaithful(db: Db, id: ListId)
    requires Shaped(db)
    ensures Faithful(WriteFails(db, id)) <==> Faithful(db)
  {
  }

  /** The operation destroys no table that shares its index. */
  ghost predicate SparesSharers(db: Db, op: Op)
    requires Shaped(db)
  {
    Destroys(db, op).Some? ==> Destroys(db, op).value in db.tables && !Shares(db, Destroys(db, op).value)
  }

  /** One operation keeps the accounting faithful iff it does not destroy a table that shares its index. */
  lemma StepFaithfulIff(db: Db, op: Op)
    requires Inv(db) && Shaped(db) && Faithful(db)
    ensures Faithful(Step(db, op).db) <==> SparesSharers(db, op)
  {
    hide Inv, Faithful, Shares, Attach, Apply, Detach, CheckList;
    match op
    case OpApply(id, entries, i, dir, hw) =>
      AttachFaithful(db, id, entries, i, dir, hw);
      ApplyIsAttach(db, id, entries, i, dir, hw);
    case OpRemove(id, i, hw) =>
      if id in db.tables {
        DetachFaithfulIff(db, id, i, hw);
      }
    case OpReplace(orig, id, entries, i, dir, hw) =>
      if orig in db.tables && FirstPass(db, orig, id, entries, dir).Admitted? {
        DetachFaithfulIff(db, orig, i, hw);
        DetachInv(db, orig, i, hw.unbind);
        DetachOutcome(db, orig, i, hw.unbind);
        AttachFaithful(Detach(db, orig, i, hw.unbind).db, id, entries, i, dir, hw);
      }
  }

  /** No operation of a run from db destroys a table that shares its index. */
  ghost predicate NeverShares(db: Db, ops: seq<Op>)
    requires Shaped(db)
  {
    ops != [] ==>
      && NeverShares(db, ops[..|ops| - 1])
      && SparesSharers(Run(db, ops[..|ops| - 1]), ops[|ops| - 1])
  }

  lemma {:induction false} FaithfulRun(db: Db, ops: seq<Op>)
    requires db == EMPTY && NeverShares(db, ops)
    ensures Faithful(Run(db, ops))
  {
    if ops != [] {
      var n := |ops| - 1;
      FaithfulRun(db, ops[..n]);
      RunInv(ops[..n]);
      hide Faithful, Inv, Step, SparesSharers;
      StepFaithfulIff(Run(db, ops[..n]), ops[n]);
    }
  }

  // ------------------------------------------------------------------ the limit on installed rules

  /** What all tables need together. */
  ghost function Total(tables: map<ListId, Table>): Usage
    decreases |tables|
  {
    if tables == map[] then NOTHING
    else
      var id :| id in tables;
      Plus(Total(tables - {id}), TableNeed(tables[id].rules))
  }

  lemma {:induction false} ChargesSum(tables: map<ListId, Table>, use: seq<Usage>)
    requires forall id :: id in tables ==> tables[id].index < |use|
    requires forall i :: 0 <= i < |use| ==> use[i] == Charges(tables, i)
    ensures Sum(use) == Total(tables)
    decreases |tables|
  {
    hide Charges, TableNeed;
    if tables == map[] {
      forall i | 0 <= i < |use| ensures use[i] == NOTHING { ChargesOfNone(i); }
      SumZero(|use|, use);
    } else {
      var x: ListId :| x in tables && Total(tables) == Plus(Total(tables - {x}), TableNeed(tables[x].rules));
      var j := tables[x].index;
      var rest := use[j := Minus(use[j], TableNeed(tables[x].rules))];
      forall i | 0 <= i < |use| ensures rest[i] == Charges(tables - {x}, i) {
        ChargesTake(tables, x, i);
      }
      ChargesSum(tables - {x}, rest);
      SumUpdate(use, j, rest[j]);
      ChargesTake(tables, x, j);
      assert Total(tables) == Plus(Total(tables - {x}), TableNeed(tables[x].rules));
    }
  }

  /** While the accounting is faithful, no more counting rules are installed than the switch has counters. */
  lemma CountersSuffice(db: Db)
    requires Inv(db) && Shaped(db) && Faithful(db)
    ensures Total(db.tables) == db.global && Total(db.tables).counters <= COUNTERS_MAX
  {
    ChargesSum(db.tables, db.perTable);
  }

  // ------------------------------------------------------------------ the two failures, concretely

  /** Entries that all need the same, with or without a counter. */
  lemma {:induction false} NeedOfAlike(entries: seq<Entry>, counted: bool)
    requires forall k :: 0 <= k < |entries| ==> EntryNeed(entries[k]) == Usage(1, 0, if counted then 1 else 0)
    ensures Need(entries) == Usage(|entries|, 0, if counted then |entries| else 0)
  {
    hide EntryNeed;
    if entries != [] {
      NeedOfAlike(entries[..|entries| - 1], counted);
    }
  }

  /** Applying a list to a port on a switch that does what it is asked. */
  function ToPort(id: ListId, entries: seq<Entry>): Op {
    OpApply(id, entries, Interface(true, false), In, Hw(true, true, true))
  }

  lemma AppliedToPort(db: Db, id: ListId, entries: seq<Entry>)
    requires Inv(db) && Shaped(db) && id !in db.tables && Fits(db.global, In, entries, NOTHING)
    ensures var r := Step(db, ToPort(id, entries)).db;
            && r.tables == db.tables[id := Table(LastFree(db.slots), 1, TranslateAll(entries))]
            && r.slots == Fill(db.slots, id) && LastFree(db.slots) < TABLES_MAX
            && r.global == Plus(db.global, Need(entries))
            && r.perTable == db.perTable[LastFree(db.slots) := Plus(db.perTable[LastFree(db.slots)], Need(entries))]
    ensures Inv(Step(db, ToPort(id, entries)).db) && (Faithful(db) ==> Faithful(Step(db, ToPort(id, entries)).db))
  {
    var op := ToPort(id, entries);
    hide Faithful, Inv, Step, Install, Rebound, LastFree, Fill, TranslateAll, Need, Fits;
    ToPortInstalls(db, id, entries);
    BoundOnce(db, id, entries);
    StepInv(db, op);
    if Faithful(db) { StepFaithfulIff(db, op); }
  }

  lemma ToPortInstalls(db: Db, id: ListId, entries: seq<Entry>)
    requires Inv(db) && Shaped(db) && id !in db.tables && Fits(db.global, In, entries, NOTHING)
    ensures id in Install(db, id, entries, Need(entries)).tables
    ensures Step(db, ToPort(id, entries)).db == Rebound(Install(db, id, entries, Need(entries)), id, 1)
  {
    hide Inv, Apply, Install, Rebound, Need, Fits;
    AppliedNew(db, id, entries, Interface(true, false), In, Hw(true, true, true));
  }

  lemma BoundOnce(db: Db, id: ListId, entries: seq<Entry>)
    requires Shaped(db)
    ensures id in Install(db, id, entries, Need(entries)).tables && LastFree(db.slots) < TABLES_MAX
    ensures var r := Rebound(Install(db, id, entries, Need(entries)), id, 1);
            && r.tables == db.tables[id := Table(LastFree(db.slots), 1, TranslateAll(entries))]
            && r.slots == Fill(db.slots, id)
            && r.global == Plus(db.global, Need(entries))
            && r.perTable == db.perTable[LastFree(db.slots) := Plus(db.perTable[LastFree(db.slots)], Need(entries))]
  {
    hide LastFree, Fill, TranslateAll, Need;
    LastFreeInRange(db.slots);
  }

  /** A list of one plain entry applied to a port. */
  function PlainApply(id: ListId, e: Entry): Op {
    ToPort(id, [e])
  }

  lemma PlainApplied(db: Db, id: ListId, e: Entry)
    requires Inv(db) && Shaped(db) && id !in db.tables && EntryNeed(e) == Usage(1, 0, 0)
    ensures var r := Step(db, PlainApply(id, e)).db;
            && r.tables == db.tables[id := Table(LastFree(db.slots), 1, TranslateAll([e]))]
            && r.slots == Fill(db.slots, id) && LastFree(db.slots) < TABLES_MAX
            && r.global == Plus(db.global, Usage(1, 0, 0))
            && r.perTable == db.perTable[LastFree(db.slots) := Plus(db.perTable[LastFree(db.slots)], Usage(1, 0, 0))]
    ensures Inv(Step(db, PlainApply(id, e)).db) && (Faithful(db) ==> Faithful(Step(db, PlainApply(id, e)).db))
  {
    hide Faithful, Inv, LastFree, Fill, TranslateAll, Step;
    NeedOfAlike([e], false);
    InvLimits(db);
    AppliedToPort(db, id, [e]);
  }

  lemma InvLimits(db: Db)
    requires Inv(db)
    ensures Shaped(db) && db.global.counters <= COUNTERS_MAX
  {
  }

  lemma FilledSlots(slots: seq<Option<ListId>>, id: ListId)
    requires slots != []
    ensures LastFree(Fill(slots, id)) == 0
  {
    AssignedIndex(Fill(slots, id));
  }

  lemma ThreeApplied(db: Db, e: Entry, d3: Db)
    requires db == EMPTY && EntryNeed(e) == Usage(1, 0, 0)
    requires d3 == Step(Step(Step(db, PlainApply(0, e)).db, PlainApply(1, e)).db, PlainApply(2, e)).db
    ensures Inv(d3) && Faithful(d3) && d3.tables.Keys == {0, 1, 2}
    ensures d3.tables[1] == Table(0, 1, TranslateAll([e])) && d3.tables[2] == Table(0, 1, TranslateAll([e]))
  {
    hide Faithful, Inv, LastFree, Fill, TranslateAll, EntryNeed, Step;
    EmptyInv();
    EmptyFaithful(db);
    var d1 := Step(db, PlainApply(0, e)).db;
    var d2 := Step(d1, PlainApply(1, e)).db;
    PlainApplied(db, 0, e);
    PlainApplied(d1, 1, e);
    PlainApplied(d2, 2, e);
    FilledSlots(db.slots, 0);
    FilledSlots(d1.slots, 1);
  }

  lemma RemoveShared(db: Db, a: ListId, b: ListId)
    requires Inv(db) && Shaped(db) && Faithful(db) && a in db.tables && b in db.tables && a != b
    requires db.tables[a].bound == 1 && db.tables[b].index == db.tables[a].index && db.tables[b].rules != []
    ensures var r := Step(db, OpRemove(a, Interface(true, false), Hw(true, true, true))).db;
            !Faithful(r) && b in r.tables && r.tables[b] == db.tables[b] && r.perTable[r.tables[b].index] == NOTHING
  {
    hide Faithful, Inv;
    assert Shares(db, a);
    StepFaithfulIff(db, OpRemove(a, Interface(true, false), Hw(true, true, true)));
  }

  /** Three lists of one rule, and the second is removed: the third is installed and charged nothing. */
  lemma SharedIndexLosesCharge(db: Db, e: Entry)
    requires db == EMPTY && EntryNeed(e) == Usage(1, 0, 0)
    ensures var ops := [PlainApply(0, e), PlainApply(1, e), PlainApply(2, e), OpRemove(1, Interface(true, false), Hw(true, true, true))];
            var r := Run(db, ops);
            !Faithful(r) && 2 in r.tables && |r.tables[2].rules| == 1 && r.perTable[r.tables[2].index] == NOTHING
  {
    hide Faithful, Inv, EntryNeed, Step, PlainApply, Run, Shaped;
    var remove := OpRemove(1, Interface(true, false), Hw(true, true, true));
    var ops := [PlainApply(0, e), PlainApply(1, e), PlainApply(2, e), remove];
    EmptyFaithful(db);
    var d3 := Step(Step(Step(db, PlainApply(0, e)).db, PlainApply(1, e)).db, PlainApply(2, e)).db;
    ThreeApplied(db, e, d3);
    RemoveShared(d3, 1, 2);
    RunOfFour(db, ops);
  }

  lemma EmptyFaithful(db: Db)
    requires db == EMPTY
    ensures Shaped(db) && Faithful(db)
  {
    forall i | 0 <= i < TABLES_MAX ensures db.perTable[i] == Charges(db.tables, i) { ChargesOfNone(i); }
  }

  lemma RunOfFour(db: Db, ops: seq<Op>)
    requires Shaped(db) && |ops| == 4
    ensures Run(db, ops) == Step(Step(Step(Step(db, ops[0]).db, ops[1]).db, ops[2]).db, ops[3]).db
  {
    hide Step;
    assert ops[..3][..2] == ops[..2] && ops[..2][..1] == ops[..1] && ops[..1][..0] == [];
    assert Run(db, ops[..1]) == Step(db, ops[0]).db;
    assert Run(db, ops[..2]) == Step(Run(db, ops[..1]), ops[1]).db;
    assert Run(db, ops[..3]) == Step(Run(db, ops[..2]), ops[2]).db;
  }

  /** A table of one rule is torn down for a list of 513, which is then refused. */
  lemma LongListTearsDown(db: Db, e: Entry, entries: seq<Entry>)
    requires db == EMPTY && EntryNeed(e) == Usage(1, 0, 0)
    requires |entries| == RULES_PER_TABLE_MAX + 1 && forall k :: 0 <= k < |entries| ==> entries[k] == e
    ensures var first := Step(db, PlainApply(0, e)).db;
            var r := Replace(first, 0, 1, entries, Interface(true, false), In, Hw(true, true, true));
            0 in first.tables && r.status == NoResourcesLate && 0 !in r.db.tables && 1 !in r.db.tables
  {
    hide Faithful, Inv, LastFree, Fill, TranslateAll, EntryNeed, Replace, Detach;
    var first := Step(db, PlainApply(0, e)).db;
    EmptyInv();
    PlainApplied(db, 0, e);
    NeedOfAlike(entries, false);
    TornDownIff(first, 0, 1, entries, Interface(true, false), In, Hw(true, true, true));
    LateLeavesDetached(first, 0, 1, entries, Interface(true, false), In, Hw(true, true, true));
    DetachKeepsAbsent(first, 0, 1, Interface(true, false), true);
  }

  lemma CountingApplied(db: Db, e: Entry, entries: seq<Entry>)
    requires db == EMPTY && EntryNeed(e) == Usage(1, 0, 1)
    requires |entries| == RULES_PER_TABLE_MAX && forall k :: 0 <= k < |entries| ==> entries[k] == e
    ensures var r := Step(db, ToPort(0, entries));
            && r.status == Success && Inv(r.db) && r.db.tables.Keys == {0}
            && r.db.tables[0].bound == 1 && r.db.tables[0].index < TABLES_MAX
            && r.db.global == r.db.perTable[r.db.tables[0].index] == Need(entries)
  {
    hide Faithful, Inv, LastFree, Fill, TranslateAll, EntryNeed, Need, CheckList, Sum;
    NeedOfAlike(entries, true);
    EmptyInv();
    AdmittedIff(db.global, In, entries, NOTHING);
    AppliedToPort(db, 0, entries);
    assert Plus(NOTHING, Need(entries)) == Need(entries);
  }

  /** A list that needs as many counters as the table it replaces, when both together need too many. */
  lemma VainCredit(db: Db, entries: seq<Entry>)
    requires Inv(db) && Shaped(db) && db.tables.Keys == {0} && db.tables[0].bound == 1
    requires db.global == db.perTable[db.tables[0].index] == Need(entries) == Usage(512, 0, 512)
    ensures var r := Replace(db, 0, 1, entries, Interface(true, true), In, Hw(true, true, true));
            r.status == NoResourcesLate && r.db == db
  {
    RefusedLateIff(db, 0, 1, entries, Interface(true, true), In, Hw(true, true, true));
    LateLeavesDetached(db, 0, 1, entries, Interface(true, true), In, Hw(true, true, true));
    hide Inv, Need, Replace;
  }

  /**
   A table of 512 counting rules is replaced, on an L3-only interface, by as many: the first
   pass credits the old table, the second finds it still there and refuses.
   */
  lemma CreditedInVain(db: Db, e: Entry, entries: seq<Entry>)
    requires db == EMPTY && EntryNeed(e) == Usage(1, 0, 1)
    requires |entries| == RULES_PER_TABLE_MAX && forall k :: 0 <= k < |entries| ==> entries[k] == e
    ensures var first := Step(db, ToPort(0, entries));
            var r := Replace(first.db, 0, 1, entries, Interface(true, true), In, Hw(true, true, true));
            first.status == Success && 0 in first.db.tables && r.status == NoResourcesLate && r.db == first.db
  {
    hide Inv, EntryNeed, Need, Replace, Step;
    NeedOfAlike(entries, true);
    CountingApplied(db, e, entries);
    VainCredit(Step(db, ToPort(0, entries)).db, entries);
  }
}
