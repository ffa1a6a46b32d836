/**
 The slots that hand out table indexes, and what an operation leaves alone: which index a
 removal frees, who gets it next, and that only the tables named by a call change.
 */
module AclIndexes {
  import opened Options
  import opened AclEntries
  import opened AclTranslation
  import opened AclResources
  import opened AclTheorems
  import opened AclAccounting

  // ------------------------------------------------------------------ slots

  predicate NoneFree(slots: seq<Option<ListId>>) {
    forall k :: 0 <= k < |slots| ==> slots[k].Some?
  }

  /** The slots, with index i given back. */
  ghost predicate Freed(slots: seq<Option<ListId>>, slots': seq<Option<ListId>>, i: nat) {
    && |slots'| == |slots| && i < |slots'| && slots'[i].None?
    && forall k :: 0 <= k < |slots| && k != i ==> slots'[k] == slots[k]
  }

  /** An index given back is the next one assigned iff no higher one is free. */
  lemma NextIsFreedIff(slots: seq<Option<ListId>>, slots': seq<Option<ListId>>, i: nat)
    requires Freed(slots, slots', i)
    ensures LastFree(slots') == i <==> forall k :: i < k < |slots| ==> slots[k].Some?
  {
    AssignedIndex(slots');
  }

  /**
   A removal that destroys a table gives its index back and touches no other slot; one that
   does not, touches none.
   */
  lemma RemovedFreesIndex(db: Db, id: ListId, i: Interface, hw: Hw)
    requires Shaped(db) && id in db.tables
    ensures var r := Remove(db, id, i, hw).db;
            if id in r.tables then r.slots == db.slots else Freed(db.slots, r.slots, db.tables[id].index)
  {
  }

  /** A table that was written holds every slot that was free, and none is free any more. */
  lemma InstallFillsSlots(db: Db, id: ListId, entries: seq<Entry>, planned: Usage)
    requires Shaped(db)
    ensures var r := Install(db, id, entries, planned);
            && NoneFree(r.slots) && LastFree(db.slots) < TABLES_MAX
            && forall k :: 0 <= k < TABLES_MAX ==> r.slots[k] == if db.slots[k].None? then Some(id) else db.slots[k]
  {
    LastFreeInRange(db.slots);
  }

  /**
   A write that fails gives back the index it was assigned, which is therefore assigned next;
   every other slot that was free stays taken by the table that is gone.
   */
  lemma FailedWriteLeaves(db: Db, id: ListId, entries: seq<Entry>, i: Interface, dir: Direction, hw: Hw)
    requires Shaped(db) && id !in db.tables && Apply(db, id, entries, i, dir, hw).status == WriteFailed
    ensures var r := Apply(db, id, entries, i, dir, hw).db;
            && LastFree(r.slots) == LastFree(db.slots) < TABLES_MAX && r.slots[LastFree(db.slots)].None?
            && (forall k :: 0 <= k < TABLES_MAX && k != LastFree(db.slots) ==>
                  r.slots[k] == if db.slots[k].None? then Some(id) else db.slots[k])
            && r.tables == db.tables && r.perTable == db.perTable && r.global == db.global
  {
    hide CheckList;
    LastFreeInRange(db.slots);
    AssignedIndex(db.slots);
    var slots := WriteFails(db, id).slots;
    assert slots[LastFree(db.slots)].None?;
    AssignedIndex(slots);
  }

  /** Applying a list that is not installed yet: it gets the index the slots give. */
  lemma AppliedGetsIndex(db: Db, id: ListId, entries: seq<Entry>, i: Interface, dir: Direction, hw: Hw)
    requires Shaped(db) && id !in db.tables && id in Apply(db, id, entries, i, dir, hw).db.tables
    ensures var r := Apply(db, id, entries, i, dir, hw).db;
            r.tables[id].index == LastFree(db.slots) < TABLES_MAX && NoneFree(r.slots)
  {
    hide CheckList, TranslateAll, Fill, LastFree;
    if CheckList(db.global, dir, entries, NOTHING).Admitted? && hw.write {
      InstallFillsSlots(db, id, entries, CheckList(db.global, dir, entries, NOTHING).planned);
    }
  }

  /** A list applied where another was applied and removed gets the index the other had. */
  lemma RemovedIndexIsReused(db: Db, a: ListId, first: seq<Entry>, b: ListId, second: seq<Entry>,
                             i: Interface, dir: Direction, hw: Hw)
    requires Shaped(db) && a !in db.tables && b !in db.tables && a != b
    requires a in Apply(db, a, first, i, dir, hw).db.tables
    requires var gone := Remove(Apply(db, a, first, i, dir, hw).db, a, i, hw).db;
             a !in gone.tables && b !in gone.tables && b in Apply(gone, b, second, i, dir, hw).db.tables
    ensures var applied := Apply(db, a, first, i, dir, hw).db;
            var gone := Remove(applied, a, i, hw).db;
            Apply(gone, b, second, i, dir, hw).db.tables[b].index == applied.tables[a].index
  {
    hide Apply, Remove;
    AppliedGetsIndex(db, a, first, i, dir, hw);
    var applied := Apply(db, a, first, i, dir, hw).db;
    var gone := Remove(applied, a, i, hw).db;
    RemovedFreesIndex(applied, a, i, hw);
    NextIsFreedIff(applied.slots, gone.slots, applied.tables[a].index);
    AppliedGetsIndex(gone, b, second, i, dir, hw);
  }

  // ------------------------------------------------------------------ what an operation is about

  predicate Names(op: Op, id: ListId) {
    match op
    case OpApply(x, _, _, _, _) => x == id
    case OpRemove(x, _, _) => x == id
    case OpReplace(x, y, _, _, _, _) => x == id || y == id
  }

  lemma DestroyElsewhere(db: Db, id: ListId, x: ListId)
    requires Shaped(db) && id in db.tables && x != id
    ensures Lookup(DestroyIfUnbound(db, id).tables, x) == Lookup(db.tables, x)
  {
  }

  lemma AttachElsewhere(db: Db, id: ListId, entries: seq<Entry>, i: Interface, dir: Direction, hw: Hw, x: ListId)
    requires Shaped(db) && x != id
    ensures Lookup(Attach(db, id, entries, i, dir, hw).db.tables, x) == Lookup(db.tables, x)
  {
    hide CheckList, TranslateAll, Fill, LastFree;
  }

  lemma DetachElsewhere(db: Db, id: ListId, i: Interface, ok: bool, x: ListId)
    requires Shaped(db) && id in db.tables && x != id
    ensures Lookup(Detach(db, id, i, ok).db.tables, x) == Lookup(db.tables, x)
  {
    hide DestroyIfUnbound;
    DestroyElsewhere(db, id, x);
    DestroyElsewhere(Rebound(db, id, -1), id, x);
  }

  /** Whatever happens, a table that the operation does not name stays exactly as it is. */
  lemma OnlyNamedChange(db: Db, op: Op, x: ListId)
    requires Shaped(db) && !Names(op, x)
    ensures Lookup(Step(db, op).db.tables, x) == Lookup(db.tables, x)
  {
    hide Attach, Apply, Detach, FirstPass;
    match op
    case OpApply(id, entries, i, dir, hw) =>
      AttachElsewhere(db, id, entries, i, dir, hw, x);
      ApplyIsAttach(db, id, entries, i, dir, hw);
    case OpRemove(id, i, hw) =>
      if id in db.tables {
        DetachElsewhere(db, id, i, hw.unbind, x);
      }
    case OpReplace(orig, id, entries, i, dir, hw) =>
      if orig in db.tables {
        DetachElsewhere(db, orig, i, hw.unbind, x);
        AttachElsewhere(Detach(db, orig, i, hw.unbind).db, id, entries, i, dir, hw, x);
      }
  }

  /** The table once the operation has bound it to one interface more, or one less; unbound it is gone. */
  function Unbound(t: Table, i: Interface): Option<Table> {
    var bound := if Binds(i) then t.bound - 1 else t.bound;
    if bound == 0 then None else Some(t.(bound := bound))
  }

  /** A removal succeeds iff the list is installed and can leave the interface, and takes one binding from its table. */
  lemma RemoveEffect(db: Db, id: ListId, i: Interface, hw: Hw)
    requires Shaped(db)
    ensures var r := Remove(db, id, i, hw);
            && (r.status == Success <==> id in db.tables && (Binds(i) ==> hw.unbind))
            && (r.status == Success ==> Lookup(r.db.tables, id) == Unbound(db.tables[id], i))
            && (r.status != Success ==> r.db == db)
  {
  }

  /** The table of a list after applying it has one binding more, if the interface binds and the switch agrees. */
  lemma ApplyEffect(db: Db, id: ListId, entries: seq<Entry>, i: Interface, dir: Direction, hw: Hw)
    requires Inv(db)
    ensures Shaped(db)
    ensures var r := Apply(db, id, entries, i, dir, hw);
            var installs := id !in db.tables && Fits(db.global, dir, entries, NOTHING) && hw.write;
            && (r.status == Success <==> (id in db.tables || installs) && (Binds(i) ==> hw.bind))
            && (id in r.db.tables <==> id in db.tables || installs)
            && (id in r.db.tables ==>
                  var before := if id in db.tables then db.tables[id] else Table(LastFree(db.slots), 0, TranslateAll(entries));
                  r.db.tables[id] == before.(bound := before.bound + if Binds(i) && hw.bind then 1 else 0))
  {
    ShapedInv(db);
    if id !in db.tables {
      AppliedNew(db, id, entries, i, dir, hw);
      InstallTables(db, id, entries);
      hide Apply;
      hide Inv, Install, Need, TranslateAll, LastFree, Fits;
    } else {
      hide Inv, Install, Need, TranslateAll, LastFree, Fits, CheckList;
    }
  }

  /**
   A replacement that succeeds takes one binding from the old table and leaves the new list
   installed, with its own rules and one binding more.
   */
  lemma ReplaceEffect(db: Db, orig: ListId, id: ListId, entries: seq<Entry>, i: Interface, dir: Direction, hw: Hw)
    requires Inv(db) && orig != id && Replace(db, orig, id, entries, i, dir, hw).status == Success
    ensures Shaped(db) && orig in db.tables
    ensures var r := Replace(db, orig, id, entries, i, dir, hw).db;
            && Lookup(r.tables, orig) == Unbound(db.tables[orig], i)
            && id in r.tables
            && r.tables[id].rules == (if id in db.tables then db.tables[id].rules else TranslateAll(entries))
            && r.tables[id].bound == (if id in db.tables then db.tables[id].bound else 0) + (if Binds(i) then 1 else 0)
  {
    ShapedInv(db);
    hide CheckList, TranslateAll, Fill, LastFree, Inv, FirstPass, Detach, Attach;
    DetachElsewhere(db, orig, i, hw.unbind, id);
    RemoveEffect(db, orig, i, hw);
    var left := Detach(db, orig, i, hw.unbind).db;
    AttachElsewhere(left, id, entries, i, dir, hw, orig);
    AttachInstalls(left, id, entries, i, dir, hw);
  }

  lemma AttachInstalls(db: Db, id: ListId, entries: seq<Entry>, i: Interface, dir: Direction, hw: Hw)
    requires Shaped(db) && Attach(db, id, entries, i, dir, hw).status == Success
    ensures var r := Attach(db, id, entries, i, dir, hw).db;
            && id in r.tables
            && r.tables[id].rules == (if id in db.tables then db.tables[id].rules else TranslateAll(entries))
            && r.tables[id].bound == (if id in db.tables then db.tables[id].bound else 0) + (if Binds(i) then 1 else 0)
  {
    hide CheckList, TranslateAll, Fill, LastFree;
  }
}
