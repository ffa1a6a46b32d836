/**
 The imperative classifier: the slot loop without a break, the admission loops with their
 early exit, the usage counters updated in place, and apply, remove and replace over them.
 */
module AclManager {
  import opened Options
  import opened AclEntries
  import opened AclTranslation
  import opened AclConverters
  import opened AclResources
  import opened AclTheorems

  lemma FillStep(slots: seq<Option<ListId>>, i: nat, id: ListId)
    requires i < |slots|
    ensures Fill(slots[..i + 1], id) == Fill(slots[..i], id) + [if slots[i].None? then Some(id) else slots[i]]
    ensures LastFree(slots[..i + 1]) == if slots[i].None? then i else LastFree(slots[..i])
  {
    assert slots[..i + 1][..i] == slots[..i];
  }

  lemma {:induction false} RefusedStays(global: Usage, dir: Direction, entries: seq<Entry>, planned: Usage, k: nat)
    requires k <= |entries| && CheckList(global, dir, entries[..k], planned).Refused?
    ensures CheckList(global, dir, entries, planned) == CheckList(global, dir, entries[..k], planned)
  {
    if k < |entries| {
      assert entries[..|entries| - 1][..k] == entries[..k];
      RefusedStays(global, dir, entries[..|entries| - 1], planned, k);
    } else {
      assert entries[..k] == entries;
    }
  }

  class Classifier {
    const existingTables: array<Option<ListId>>
    const perTableUse: array<Usage>
    var globalUse: Usage
    var tables: map<ListId, Table>

    ghost function D(): Db
      reads this, existingTables, perTableUse
    {
      Db(existingTables[..], globalUse, perTableUse[..], tables)
    }

    constructor ()
      ensures D() == EMPTY && Inv(D())
      ensures fresh(existingTables) && fresh(perTableUse)
    {
      existingTables := new Option<ListId>[TABLES_MAX](_ => None);
      perTableUse := new Usage[TABLES_MAX](_ => NOTHING);
      globalUse, tables := NOTHING, map[];
      new;
      assert D() == EMPTY;
      EmptyInv();
    }

    /** __table_assign_index */
    method TableAssignIndex(id: ListId) returns (index: nat)
      modifies existingTables
      ensures existingTables[..] == Fill(old(existingTables[..]), id)
      ensures index == LastFree(old(existingTables[..]))
    {
      ghost var slots := existingTables[..];
      index := 0;
      var i := 0;
      while i < existingTables.Length
        invariant i <= existingTables.Length
        invariant existingTables[..i] == Fill(slots[..i], id) && existingTables[i..] == slots[i..]
        invariant index == LastFree(slots[..i])
      {
        FillStep(slots, i, id);
        assert existingTables[i] == slots[i];
        if existingTables[i] == None {
          existingTables[i] := Some(id);
          index := i;
        }
        i := i + 1;
      }
      assert slots[..i] == slots;
    }

    /** __check_rule_resources_available */
    method CheckRuleResources(e: Entry, dir: Direction, planned: Usage) returns (r: Option<Usage>)
      ensures r == CheckRule(globalUse, dir, e, planned)
    {
      if dir != In { return None; }
      var use := planned;
      use := use.(rules := use.rules + 1);
      if use.rules > RULES_PER_TABLE_MAX { return None; }
      if e.actions.log || e.actions.count {
        use := use.(counters := use.counters + 1);
        if globalUse.counters + use.counters > COUNTERS_MAX { return None; }
      }
      if !e.dstPort.op.NoOp? && !e.dstPort.op.Eq? && !e.dstPort.op.Neq? {
        use := use.(range := use.range + 1);
        if globalUse.range + use.range > L4_RANGE_MAX { return None; }
      }
      if !e.srcPort.op.NoOp? && !e.srcPort.op.Eq? && !e.srcPort.op.Neq? {
        use := use.(range := use.range + 1);
        if globalUse.range + use.range > L4_RANGE_MAX { return None; }
      }
      r := Some(use);
    }

    /** The admission loop of __apply and both passes of __replace. */
    method CheckResources(dir: Direction, entries: seq<Entry>, planned: Usage) returns (r: Admission)
      ensures r == CheckList(globalUse, dir, entries, planned)
    {
      hide CheckRule;
      var use := planned;
      for id := 0 to |entries|
        invariant CheckList(globalUse, dir, entries[..id], planned) == Admitted(use)
      {
        assert entries[..id + 1][..id] == entries[..id];
        var checked := CheckRuleResources(entries[id], dir, use);
        if checked.None? {
          RefusedStays(globalUse, dir, entries, planned, id + 1);
          return Refused(id);
        }
        use := checked.value;
      }
      assert entries[..|entries|] == entries;
      r := Admitted(use);
    }

    /** __update_resource_usage */
    method UpdateResourceUsage(index: nat, additional: Usage)
      requires index < perTableUse.Length
      modifies `globalUse, perTableUse
      ensures globalUse == Plus(old(globalUse), additional)
      ensures perTableUse[..] == old(perTableUse[..])[index := Plus(old(perTableUse[index]), additional)]
    {
      globalUse := Usage(globalUse.rules + additional.rules, globalUse.range + additional.range,
                         globalUse.counters + additional.counters);
      var use := perTableUse[index];
      perTableUse[index] := Usage(use.rules + additional.rules, use.range + additional.range,
                                  use.counters + additional.counters);
    }

    /** __clear_table_resources */
    method ClearTableResources(index: nat)
      requires index < perTableUse.Length
      modifies `globalUse, perTableUse
      ensures globalUse == Minus(old(globalUse), old(perTableUse[index]))
      ensures perTableUse[..] == old(perTableUse[..])[index := NOTHING]
    {
      var use := perTableUse[index];
      globalUse := Usage(globalUse.rules - use.rules, globalUse.range - use.range, globalUse.counters - use.counters);
      perTableUse[index] := NOTHING;
    }

    /** __write_table; `ok` is what the calls into the switch answer. */
    method WriteTable(id: ListId, entries: seq<Entry>, ok: bool) returns (written: Option<Table>)
      requires Shaped(D())
      modifies existingTables
      ensures if ok then written == Some(Table(LastFree(old(existingTables[..])), 0, TranslateAll(entries)))
                         && existingTables[..] == Fill(old(existingTables[..]), id)
              else written == None && D() == WriteFails(old(D()), id)
    {
      hide Translate, Fill, LastFree;
      LastFreeInRange(existingTables[..]);
      var index := TableAssignIndex(id);
      var rules := [];
      for ruleId := 0 to |entries|
        invariant existingTables[..] == Fill(old(existingTables[..]), id)
        invariant |rules| == ruleId && forall k :: 0 <= k < ruleId ==> rules[k] == Translate(k, entries[k])
      {
        var rule := AclEntryToRule(ruleId, entries[ruleId]);
        rules := rules + [rule];
      }
      assert rules == TranslateAll(entries);
      if !ok {
        existingTables[index] := None;
        assert existingTables[..] == Fill(old(existingTables[..]), id)[index := None];
        return None;
      }
      written := Some(Table(index, 0, rules));
    }

    /** __table_destroy_if_needed */
    method TableDestroyIfNeeded(id: ListId)
      requires Shaped(D()) && id in tables
      modifies this, existingTables, perTableUse
      ensures D() == DestroyIfUnbound(old(D()), id)
    {
      var index := tables[id].index;
      if tables[id].bound == 0 {
        ClearTableResources(index);
        tables := tables - {id};
        existingTables[index] := None;
      }
    }

    method BindToPort(id: ListId, i: Interface, ok: bool) returns (status: Status)
      requires Shaped(D()) && id in tables
      modifies `tables
      ensures Result(D(), status) == Bind(old(D()), id, i, ok)
    {
      if i.port && !i.l3Only {
        if !ok { return BindFailed; }
        tables := tables[id := tables[id].(bound := tables[id].bound + 1)];
      }
      status := Success;
    }

    method UnbindFromPort(id: ListId, i: Interface, ok: bool) returns (status: Status)
      requires Shaped(D()) && id in tables
      modifies this, existingTables, perTableUse
      ensures Result(D(), status) == Detach(old(D()), id, i, ok)
    {
      hide DestroyIfUnbound;
      if i.port && !i.l3Only {
        if !ok { return BindFailed; }
        tables := tables[id := tables[id].(bound := tables[id].bound - 1)];
        assert D() == Rebound(old(D()), id, -1);
      }
      TableDestroyIfNeeded(id);
      status := Success;
    }

    /** What __apply and the end of __replace do with an admitted list. */
    method InstallAndBind(id: ListId, entries: seq<Entry>, planned: Usage, i: Interface, hw: Hw) returns (status: Status)
      requires Shaped(D()) && id !in tables
      modifies this, existingTables, perTableUse
      ensures Result(D(), status)
              == if !hw.write then Result(WriteFails(old(D()), id), WriteFailed)
                 else Bind(Install(old(D()), id, entries, planned), id, i, hw.bind)
    {
      hide Fill, LastFree, TranslateAll;
      ghost var db := D();
      LastFreeInRange(db.slots);
      var written := WriteTable(id, entries, hw.write);
      if written.None? { return WriteFailed; }
      UpdateResourceUsage(written.value.index, planned);
      tables := tables[id := written.value];
      assert D() == Install(db, id, entries, planned);
      status := BindToPort(id, i, hw.bind);
    }

    /** __apply */
    method ApplyList(id: ListId, entries: seq<Entry>, i: Interface, dir: Direction, hw: Hw) returns (status: Status)
      requires Inv(D())
      modifies this, existingTables, perTableUse
      ensures Result(D(), status) == Apply(old(D()), id, entries, i, dir, hw) && Inv(D())
    {
      hide Inv, Bind, Install, WriteFails, CheckList;
      StepInv(D(), OpApply(id, entries, i, dir, hw));
      ShapedInv(D());
      if id in tables {
        status := BindToPort(id, i, hw.bind);
      } else {
        var checked := CheckResources(dir, entries, NOTHING);
        match checked
        case Refused(k) => status := NoResources(k);
        case Admitted(planned) => status := InstallAndBind(id, entries, planned, i, hw);
      }
    }

    /** __remove */
    method RemoveList(id: ListId, i: Interface, hw: Hw) returns (status: Status)
      requires Inv(D())
      modifies this, existingTables, perTableUse
      ensures Result(D(), status) == Remove(old(D()), id, i, hw) && Inv(D())
    {
      hide Inv, Detach;
      StepInv(D(), OpRemove(id, i, hw));
      ShapedInv(D());
      if id !in tables { return NotFound; }
      status := UnbindFromPort(id, i, hw.unbind);
    }

    /** The part of __replace after the old table left. */
    method AttachList(id: ListId, entries: seq<Entry>, i: Interface, dir: Direction, hw: Hw) returns (status: Status)
      requires Shaped(D())
      modifies this, existingTables, perTableUse
      ensures Result(D(), status) == Attach(old(D()), id, entries, i, dir, hw)
    {
      hide Bind, Install, WriteFails, CheckList;
      if id in tables {
        status := BindToPort(id, i, hw.bind);
      } else {
        var second := CheckResources(dir, entries, NOTHING);
        match second
        case Refused(_) => status := NoResourcesLate;
        case Admitted(planned) => status := InstallAndBind(id, entries, planned, i, hw);
      }
    }

    /** __replace */
    method ReplaceList(orig: ListId, id: ListId, entries: seq<Entry>, i: Interface, dir: Direction, hw: Hw)
      returns (status: Status)
      requires Inv(D())
      modifies this, existingTables, perTableUse
      ensures Result(D(), status) == Replace(old(D()), orig, id, entries, i, dir, hw) && Inv(D())
    {
      hide Inv, Detach, Attach, CheckList;
      ghost var db := D();
      StepInv(db, OpReplace(orig, id, entries, i, dir, hw));
      ShapedInv(db);
      if orig !in tables { return NotFound; }
      var use := NOTHING;
      if tables[orig].bound == 1 {
        var credited := perTableUse[tables[orig].index];
        use := Usage(-1 * credited.rules, -1 * credited.range, -1 * credited.counters);
      }
      assert use == Credit(db, orig);
      if id !in tables {
        var first := CheckResources(dir, entries, use);
        if first.Refused? { return NoResources(first.entry); }
      }
      status := UnbindFromPort(orig, i, hw.unbind);
      if status != Success { return; }
      status := AttachList(id, entries, i, dir, hw);
    }
  }
}
