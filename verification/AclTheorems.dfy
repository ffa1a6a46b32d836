/**
 What admission amounts to, what every run conserves, when a replacement can be refused
 after its predecessor is gone, and when the accounting stops describing the tables.
 */
module AclTheorems {
  import opened Options
  import opened AclEntries
  import opened AclTranslation
  import opened AclResources

  // ------------------------------------------------------------------ admission in closed form

  /** The list fits on top of the global use and the planned credit. */
  predicate Fits(global: Usage, dir: Direction, entries: seq<Entry>, planned: Usage) {
    var n := Need(entries);
    && (entries == [] || dir == In)
    && planned.rules + n.rules <= RULES_PER_TABLE_MAX
    && (n.counters == 0 || global.counters + planned.counters + n.counters <= COUNTERS_MAX)
    && (n.range == 0 || global.range + planned.range + n.range <= L4_RANGE_MAX)
  }

  lemma NeedLast(entries: seq<Entry>)
    requires entries != []
    ensures var n := |entries| - 1;
            && Need(entries) == Plus(Need(entries[..n]), EntryNeed(entries[n]))
            && NonNegative(Need(entries[..n])) && NonNegative(EntryNeed(entries[n])) && EntryNeed(entries[n]).rules == 1
  {
  }

  lemma CheckRuleMeaning(global: Usage, dir: Direction, e: Entry, p: Usage)
    ensures var n := EntryNeed(e);
            && (CheckRule(global, dir, e, p).Some?
                <==> && dir == In && p.rules + 1 <= RULES_PER_TABLE_MAX
                     && (n.counters == 0 || global.counters + p.counters + n.counters <= COUNTERS_MAX)
                     && (n.range == 0 || global.range + p.range + n.range <= L4_RANGE_MAX))
            && (CheckRule(global, dir, e, p).Some? ==> CheckRule(global, dir, e, p) == Some(Plus(p, n)))
  {
  }

  lemma CheckRuleIff(global: Usage, dir: Direction, entries: seq<Entry>, planned: Usage)
    requires entries != []
    ensures var n := |entries| - 1;
            var p := Plus(planned, Need(entries[..n]));
            && (Fits(global, dir, entries, planned)
                <==> Fits(global, dir, entries[..n], planned) && CheckRule(global, dir, entries[n], p).Some?)
            && (CheckRule(global, dir, entries[n], p).Some? ==>
                  CheckRule(global, dir, entries[n], p) == Some(Plus(planned, Need(entries))))
  {
    hide Need, EntryNeed, CheckRule;
    NeedLast(entries);
    var n := |entries| - 1;
    CheckRuleMeaning(global, dir, entries[n], Plus(planned, Need(entries[..n])));
  }

  /** The entry-by-entry check accepts a list iff the whole list fits, and plans exactly its need. */
  lemma {:induction false} AdmittedIff(global: Usage, dir: Direction, entries: seq<Entry>, planned: Usage)
    requires planned.rules <= RULES_PER_TABLE_MAX
    ensures CheckList(global, dir, entries, planned).Admitted? <==> Fits(global, dir, entries, planned)
    ensures CheckList(global, dir, entries, planned).Admitted? ==>
              CheckList(global, dir, entries, planned) == Admitted(Plus(planned, Need(entries)))
  {
    if entries != [] {
      AdmittedIff(global, dir, entries[..|entries| - 1], planned);
      CheckRuleIff(global, dir, entries, planned);
    }
  }

  /** The entry a refusal names is the first that does not fit. */
  lemma {:induction false} RefusedIsFirst(global: Usage, dir: Direction, entries: seq<Entry>, planned: Usage, k: nat)
    requires planned.rules <= RULES_PER_TABLE_MAX
    ensures CheckList(global, dir, entries, planned) == Refused(k)
            <==> k < |entries| && Fits(global, dir, entries[..k], planned) && !Fits(global, dir, entries[..k + 1], planned)
  {
    hide Fits, CheckRule;
    if entries != [] {
      var n := |entries| - 1;
      RefusedIsFirst(global, dir, entries[..n], planned, k);
      AdmittedIff(global, dir, entries[..n], planned);
      AdmittedIff(global, dir, entries, planned);
      if k < n {
        assert entries[..n][..k] == entries[..k] && entries[..n][..k + 1] == entries[..k + 1];
        if Fits(global, dir, entries[..n], planned) {
          FitsPrefix(global, dir, entries[..n], planned, k + 1);
        }
      } else {
        assert entries[..n + 1] == entries;
      }
    }
  }

  lemma {:induction false} FitsPrefix(global: Usage, dir: Direction, entries: seq<Entry>, planned: Usage, k: nat)
    requires Fits(global, dir, entries, planned) && k <= |entries|
    ensures Fits(global, dir, entries[..k], planned)
  {
    if k < |entries| {
      CheckRuleIff(global, dir, entries, planned);
      assert entries[..|entries| - 1][..k] == entries[..k];
      FitsPrefix(global, dir, entries[..|entries| - 1], planned, k);
    } else {
      assert entries[..k] == entries;
    }
  }

  // ------------------------------------------------------------------ sums over indexes

  lemma {:induction false} SumUpdate(use: seq<Usage>, i: nat, u: Usage)
    requires i < |use|
    ensures Sum(use[i := u]) == Plus(Minus(Sum(use), use[i]), u)
  {
    var n := |use| - 1;
    if i == n {
      assert use[i := u][..n] == use[..n];
    } else {
      SumUpdate(use[..n], i, u);
      assert use[i := u][..n] == use[..n][i := u];
    }
  }

  ghost predicate NonNegative(u: Usage) {
    u.rules >= 0 && u.range >= 0 && u.counters >= 0
  }

  lemma {:induction false} SumBounds(use: seq<Usage>, i: nat)
    requires i < |use| && forall k :: 0 <= k < |use| ==> NonNegative(use[k])
    ensures NonNegative(Sum(use)) && NonNegative(Minus(Sum(use), use[i]))
  {
    var n := |use| - 1;
    if n > 0 {
      SumBounds(use[..n], if i < n then i else 0);
    }
  }

  lemma {:induction false} SumZero(n: nat, use: seq<Usage>)
    requires |use| == n && forall k :: 0 <= k < n ==> use[k] == NOTHING
    ensures Sum(use) == NOTHING
  {
    if n > 0 {
      SumZero(n - 1, use[..n - 1]);
    }
  }

  // ------------------------------------------------------------------ conservation

  /** The table holds the translation of a list that admission let through. */
  ghost predicate Translates(rules: seq<Rule>) {
    exists entries: seq<Entry> ::
      && |entries| <= RULES_PER_TABLE_MAX && Need(entries).range == 0
      && rules == TranslateAll(entries)
  }

  /**
   Each global field is the sum over all indexes, nothing is negative, the limits hold, and
   every table is the translation of an admitted list.
   */
  ghost predicate Inv(db: Db) {
    && Shaped(db)
    && db.global == Sum(db.perTable)
    && (forall k :: 0 <= k < TABLES_MAX ==> NonNegative(db.perTable[k]))
    && db.global.counters <= COUNTERS_MAX && db.global.range <= L4_RANGE_MAX
    && (forall id :: id in db.tables ==> Translates(db.tables[id].rules))
  }

  lemma EmptyInv()
    ensures Inv(EMPTY)
  {
    SumZero(TABLES_MAX, EMPTY.perTable);
  }

  lemma NoRangeInUse(db: Db, i: nat)
    requires Inv(db) && i < TABLES_MAX
    ensures NonNegative(db.global) && db.global.range == 0 && db.perTable[i].range == 0
    ensures NonNegative(Minus(db.global, db.perTable[i]))
  {
    SumBounds(db.perTable, i);
  }

  lemma InstallInv(db: Db, id: ListId, dir: Direction, entries: seq<Entry>)
    requires Inv(db) && id !in db.tables && Fits(db.global, dir, entries, NOTHING)
    ensures Inv(Install(db, id, entries, Need(entries)))
  {
    hide Need, TranslateAll, Fill, LastFree;
    LastFreeInRange(db.slots);
    var i := LastFree(db.slots);
    var r := Install(db, id, entries, Need(entries));
    NoRangeInUse(db, i);
    NeedRange(entries);
    SumUpdate(db.perTable, i, Plus(db.perTable[i], Need(entries)));
    assert Translates(TranslateAll(entries));
    forall k | 0 <= k < TABLES_MAX ensures NonNegative(r.perTable[k]) {
      assert NonNegative(db.perTable[k]);
    }
    forall t | t in r.tables ensures Translates(r.tables[t].rules) {
      assert t != id ==> r.tables[t] == db.tables[t];
    }
  }

  lemma NeedRange(entries: seq<Entry>)
    ensures NonNegative(Need(entries)) && Need(entries).rules == |entries|
  {
  }

  lemma DestroyInv(db: Db, id: ListId)
    requires Inv(db) && id in db.tables
    ensures Inv(DestroyIfUnbound(db, id))
  {
    hide Translates;
    var i := db.tables[id].index;
    NoRangeInUse(db, i);
    SumUpdate(db.perTable, i, NOTHING);
  }

  lemma ReboundInv(db: Db, id: ListId, delta: int)
    requires Inv(db) && id in db.tables
    ensures Inv(Rebound(db, id, delta))
  {
    hide Translates;
  }

  lemma DetachInv(db: Db, id: ListId, i: Interface, ok: bool)
    requires Inv(db) && id in db.tables
    ensures Inv(Detach(db, id, i, ok).db)
  {
    hide Inv, DestroyIfUnbound;
    ShapedInv(db);
    ReboundInv(db, id, -1);
    DestroyInv(db, id);
    DestroyInv(Rebound(db, id, -1), id);
  }

  lemma BindInv(db: Db, id: ListId, i: Interface, ok: bool)
    requires Inv(db) && id in db.tables
    ensures Inv(Bind(db, id, i, ok).db)
  {
    hide Inv;
    ReboundInv(db, id, 1);
  }

  lemma WriteFailsInv(db: Db, id: ListId)
    requires Inv(db)
    ensures Inv(WriteFails(db, id))
  {
  }

  /** Both __apply and the end of __replace. */
  lemma AttachInv(db: Db, id: ListId, entries: seq<Entry>, i: Interface, dir: Direction, hw: Hw)
    requires Inv(db)
    ensures Inv(Attach(db, id, entries, i, dir, hw).db)
  {
    hide Inv, Fits, Install, WriteFails, Bind, CheckList, Need;
    ShapedInv(db);
    if id in db.tables {
      BindInv(db, id, i, hw.bind);
    } else {
      WriteFailsInv(db, id);
      AdmittedIff(db.global, dir, entries, NOTHING);
      if CheckList(db.global, dir, entries, NOTHING).Admitted? {
        InstallInv(db, id, dir, entries);
        InstallTables(db, id, entries);
        assert Plus(NOTHING, Need(entries)) == Need(entries);
        BindInv(Install(db, id, entries, Need(entries)), id, i, hw.bind);
      }
    }
  }

  lemma InstallTables(db: Db, id: ListId, entries: seq<Entry>)
    requires Shaped(db)
    ensures var r := Install(db, id, entries, Need(entries));
            r.tables == db.tables[id := Table(LastFree(db.slots), 0, TranslateAll(entries))]
  {
  }

  lemma ApplyIsAttach(db: Db, id: ListId, entries: seq<Entry>, i: Interface, dir: Direction, hw: Hw)
    requires Shaped(db)
    ensures Apply(db, id, entries, i, dir, hw).db == Attach(db, id, entries, i, dir, hw).db
  {
  }

  /** Every operation conserves, whatever the switch answers and whatever is refused. */
  lemma StepInv(db: Db, op: Op)
    requires Inv(db)
    ensures Inv(Step(db, op).db)
  {
    hide Inv, Attach, Apply, Detach, CheckList, FirstPass;
    ShapedInv(db);
    match op
    case OpApply(id, entries, i, dir, hw) =>
      AttachInv(db, id, entries, i, dir, hw);
      ApplyIsAttach(db, id, entries, i, dir, hw);
    case OpRemove(id, i, hw) =>
      if id in db.tables {
        DetachInv(db, id, i, hw.unbind);
      }
    case OpReplace(orig, id, entries, i, dir, hw) =>
      if orig in db.tables {
        DetachInv(db, orig, i, hw.unbind);
        AttachInv(Detach(db, orig, i, hw.unbind).db, id, entries, i, dir, hw);
      }
  }

  /** Conservation over every run from the empty classifier. */
  lemma {:induction false} RunInv(ops: seq<Op>)
    ensures Inv(Run(EMPTY, ops))
  {
    hide Inv, Step;
    if ops == [] {
      EmptyInv();
    } else {
      RunInv(ops[..|ops| - 1]);
      StepInv(Run(EMPTY, ops[..|ops| - 1]), ops[|ops| - 1]);
    }
  }

  // ------------------------------------------------------------------ refusals

  /** A first-pass refusal, a missing table or an interface that cannot be unbound changes nothing. */
  lemma RefusalChangesNothing(db: Db, op: Op)
    requires Shaped(db)
    ensures var r := Step(db, op);
            r.status.NoResources? || r.status.NotFound? || (r.status.BindFailed? && op.OpRemove?) ==> r.db == db
    ensures op.OpReplace? && Binds(op.i) && !op.hw.unbind ==> Step(db, op).db == db
  {
    hide CheckList, Install, DestroyIfUnbound;
  }

  /** The caller's condition under which an accepted first pass carries over to the second. */
  predicate CarriesOver(db: Db, orig: ListId, entries: seq<Entry>, i: Interface)
    requires Shaped(db) && orig in db.tables
  {
    && |entries| <= RULES_PER_TABLE_MAX
    && (Binds(i) || db.tables[orig].bound != 1 || Need(entries).counters == 0
        || db.global.counters + Need(entries).counters <= COUNTERS_MAX)
  }

  /** Global use once the old table has left the interface. */
  lemma DetachedGlobal(db: Db, orig: ListId, i: Interface)
    requires Inv(db) && orig in db.tables
    ensures var t := db.tables[orig];
            var gone := t.bound == (if Binds(i) then 1 else 0);
            && (orig in Detach(db, orig, i, true).db.tables <==> !gone)
            && Detach(db, orig, i, true).db.global == (if gone then Minus(db.global, db.perTable[t.index]) else db.global)
  {
    hide Inv;
    assert Shaped(db) by { ShapedInv(db); }
  }

  lemma ShapedInv(db: Db)
    requires Inv(db)
    ensures Shaped(db)
  {
  }

  /** The second pass of a replacement that the first pass accepted succeeds iff this condition holds. */
  lemma SecondPassIff(db: Db, orig: ListId, id: ListId, entries: seq<Entry>, i: Interface, dir: Direction)
    requires Inv(db) && orig in db.tables && id !in db.tables && FirstPass(db, orig, id, entries, dir).Admitted?
    ensures CheckList(Detach(db, orig, i, true).db.global, dir, entries, NOTHING).Admitted?
            <==> CarriesOver(db, orig, entries, i)
  {
    hide CheckList, Detach, Need, Sum, Translates;
    var t := db.tables[orig];
    NoRangeInUse(db, t.index);
    NeedRange(entries);
    DetachedGlobal(db, orig, i);
    AdmittedIff(db.global, dir, entries, Credit(db, orig));
    AdmittedIff(Detach(db, orig, i, true).db.global, dir, entries, NOTHING);
  }

  /** A replacement is refused late iff its list is too long, or an L3-only interface was credited in vain. */
  lemma RefusedLateIff(db: Db, orig: ListId, id: ListId, entries: seq<Entry>, i: Interface, dir: Direction, hw: Hw)
    requires Inv(db) && id !in db.tables
    ensures Replace(db, orig, id, entries, i, dir, hw).status == NoResourcesLate
            <==> && orig in db.tables && (Binds(i) ==> hw.unbind)
                 && Fits(db.global, dir, entries, Credit(db, orig)) && !CarriesOver(db, orig, entries, i)
  {
    hide CheckList, Install, WriteFails, Inv, CarriesOver, Fits, Rebound, DestroyIfUnbound;
    ShapedInv(db);
    if orig in db.tables {
      CreditSmall(db, orig);
      AdmittedIff(db.global, dir, entries, Credit(db, orig));
      if FirstPass(db, orig, id, entries, dir).Admitted? {
        SecondPassIff(db, orig, id, entries, i, dir);
        DetachKeepsAbsent(db, orig, id, i, hw.unbind);
        DetachOutcome(db, orig, i, hw.unbind);
      }
    }
  }

  lemma CreditSmall(db: Db, orig: ListId)
    requires Inv(db) && orig in db.tables
    ensures Credit(db, orig).rules <= 0 && Credit(db, orig).counters <= 0
  {
    assert NonNegative(db.perTable[db.tables[orig].index]);
  }

  lemma DetachKeepsAbsent(db: Db, orig: ListId, id: ListId, i: Interface, ok: bool)
    requires Shaped(db) && orig in db.tables && id !in db.tables
    ensures id !in Detach(db, orig, i, ok).db.tables
  {
  }

  lemma DetachOutcome(db: Db, orig: ListId, i: Interface, ok: bool)
    requires Shaped(db) && orig in db.tables
    ensures Detach(db, orig, i, ok) == (if Binds(i) && !ok then Result(db, BindFailed) else Detach(db, orig, i, true))
    ensures Detach(db, orig, i, true).status == Success
  {
  }

  /** For a list that is installed already there is no first pass: only replacing a table by itself can be refused late. */
  lemma RefusedLateInstalledIff(db: Db, orig: ListId, id: ListId, entries: seq<Entry>, i: Interface, dir: Direction, hw: Hw)
    requires Inv(db) && id in db.tables
    ensures Replace(db, orig, id, entries, i, dir, hw).status == NoResourcesLate
            <==> && orig == id && (Binds(i) ==> hw.unbind) && db.tables[id].bound == (if Binds(i) then 1 else 0)
                 && !Fits(Minus(db.global, db.perTable[db.tables[id].index]), dir, entries, NOTHING)
  {
    hide CheckList, Install, WriteFails, Inv, Fits, Rebound, DestroyIfUnbound;
    ShapedInv(db);
    if orig in db.tables {
      DetachedGlobal(db, orig, i);
      DetachOutcome(db, orig, i, hw.unbind);
      DetachKeepsOthers(db, orig, id, i, hw.unbind);
      AdmittedIff(Detach(db, orig, i, true).db.global, dir, entries, NOTHING);
    }
  }

  lemma DetachKeepsOthers(db: Db, orig: ListId, id: ListId, i: Interface, ok: bool)
    requires Shaped(db) && orig in db.tables && id in db.tables
    ensures id != orig ==> id in Detach(db, orig, i, ok).db.tables
  {
  }

  /**
   When the switch does what it is asked, replacing a table by a new list succeeds iff the
   list fits into what is left once the old table is gone, or beside it when it stays.
   */
  lemma ReplaceSucceedsIff(db: Db, orig: ListId, id: ListId, entries: seq<Entry>, i: Interface, dir: Direction, hw: Hw)
    requires Inv(db) && orig in db.tables && id !in db.tables && hw == Hw(true, true, true)
    ensures var t := db.tables[orig];
            var left := if Binds(i) && t.bound == 1 then Minus(db.global, db.perTable[t.index]) else db.global;
            Replace(db, orig, id, entries, i, dir, hw).status == Success <==> Fits(left, dir, entries, NOTHING)
  {
    hide CheckList, Install, WriteFails, Inv, Rebound, DestroyIfUnbound, Need, Sum;
    ShapedInv(db);
    NeedRange(entries);
    CreditSmall(db, orig);
    NoRangeInUse(db, db.tables[orig].index);
    AdmittedIff(db.global, dir, entries, Credit(db, orig));
    DetachOutcome(db, orig, i, true);
    DetachKeepsAbsent(db, orig, id, i, true);
    if FirstPass(db, orig, id, entries, dir).Admitted? {
      SecondPassIff(db, orig, id, entries, i, dir);
    }
  }

  /** A replacement of at most 512 entries on a port is never torn down and then refused. */
  lemma ReplaceAdmissionSuffices(db: Db, orig: ListId, id: ListId, entries: seq<Entry>, i: Interface, dir: Direction, hw: Hw)
    requires Inv(db) && id !in db.tables && |entries| <= RULES_PER_TABLE_MAX && Binds(i)
    ensures Replace(db, orig, id, entries, i, dir, hw).status != NoResourcesLate
  {
    hide Replace, Fits, Inv, Need;
    ShapedInv(db);
    RefusedLateIff(db, orig, id, entries, i, dir, hw);
  }

  /** The old table is torn down for a list that is then refused exactly in the one case the credit lets through. */
  lemma TornDownIff(db: Db, orig: ListId, id: ListId, entries: seq<Entry>, i: Interface, dir: Direction, hw: Hw)
    requires Inv(db) && id !in db.tables && orig in db.tables
    ensures var r := Replace(db, orig, id, entries, i, dir, hw);
            r.status == NoResourcesLate && orig !in r.db.tables
            <==> && Binds(i) && hw.unbind && db.tables[orig].bound == 1 && |entries| > RULES_PER_TABLE_MAX
                 && Fits(db.global, dir, entries, Credit(db, orig))
  {
    hide CheckList, Inv, Install, WriteFails, Bind, Detach;
    ShapedInv(db);
    RefusedLateIff(db, orig, id, entries, i, dir, hw);
    DetachedGlobal(db, orig, i);
    DetachOutcome(db, orig, i, hw.unbind);
    DetachKeepsAbsent(db, orig, id, i, hw.unbind);
    NeedRange(entries);
    LateLeavesDetached(db, orig, id, entries, i, dir, hw);
    hide Replace, Need;
  }

  lemma LateLeavesDetached(db: Db, orig: ListId, id: ListId, entries: seq<Entry>, i: Interface, dir: Direction, hw: Hw)
    requires Shaped(db) && orig in db.tables && id !in db.tables
    ensures var r := Replace(db, orig, id, entries, i, dir, hw);
            r.status == NoResourcesLate ==> r.db == Detach(db, orig, i, hw.unbind).db
  {
    hide CheckList, Install, WriteFails, Detach;
    DetachKeepsAbsent(db, orig, id, i, hw.unbind);
  }

  // ------------------------------------------------------------------ an installed list keeps its meaning

  lemma RangeFreeEntry(e: Entry)
    ensures EntryNeed(e).range == 0 <==> RangeFree(e)
  {
  }

  lemma {:induction false} RangeFreeIff(entries: seq<Entry>)
    ensures Need(entries).range == 0 <==> forall k :: 0 <= k < |entries| ==> RangeFree(entries[k])
  {
    hide RangeFree, EntryNeed;
    if entries != [] {
      var n := |entries| - 1;
      RangeFreeIff(entries[..n]);
      NeedLast(entries);
      RangeFreeEntry(entries[n]);
      if forall k :: 0 <= k < n ==> RangeFree(entries[..n][k]) {
        assert forall k :: 0 <= k < n ==> RangeFree(entries[k]);
      } else {
        var k :| 0 <= k < n && !RangeFree(entries[..n][k]);
        assert !RangeFree(entries[k]);
      }
    }
  }

  /** Applying a list that is not installed, case by case. */
  lemma AppliedNew(db: Db, id: ListId, entries: seq<Entry>, i: Interface, dir: Direction, hw: Hw)
    requires Inv(db) && id !in db.tables
    ensures Shaped(db) && id in Install(db, id, entries, Need(entries)).tables
    ensures var r := Apply(db, id, entries, i, dir, hw);
            if !Fits(db.global, dir, entries, NOTHING) then r.status.NoResources? && r.db == db
            else if !hw.write then r == Result(WriteFails(db, id), WriteFailed)
            else r == Bind(Install(db, id, entries, Need(entries)), id, i, hw.bind)
  {
    ShapedInv(db);
    InstallTables(db, id, entries);
    hide Inv, Fits, CheckList, Install, WriteFails, Bind, Need;
    AdmittedIff(db.global, dir, entries, NOTHING);
    assert Plus(NOTHING, Need(entries)) == Need(entries) by { NothingMore(Need(entries)); }
  }

  lemma NothingMore(u: Usage)
    ensures Plus(NOTHING, u) == u
  {
  }

  /** Applying a list that is not installed either installs its rules or leaves the tables alone. */
  lemma AppliedRules(db: Db, id: ListId, entries: seq<Entry>, i: Interface, dir: Direction, hw: Hw)
    requires Inv(db) && id !in db.tables
    ensures var t := Apply(db, id, entries, i, dir, hw).db.tables;
            && (id in t <==> Fits(db.global, dir, entries, NOTHING) && hw.write)
            && (id in t ==> t[id].rules == TranslateAll(entries) && t == db.tables[id := t[id]])
            && (id !in t ==> t == db.tables)
  {
    hide Fits, Inv, CheckList, Need, TranslateAll, Fill, LastFree;
    ShapedInv(db);
    AdmittedIff(db.global, dir, entries, NOTHING);
  }

  /** The rules that applying a list installs give every packet the verdict of its first matching entry. */
  lemma AppliedListKeepsFirstMatch(db: Db, id: ListId, entries: seq<Entry>, i: Interface, dir: Direction, hw: Hw,
                                   k: nat, p: Fields)
    requires Inv(db) && id !in db.tables && id in Apply(db, id, entries, i, dir, hw).db.tables
    requires forall j :: 0 <= j < |entries| ==> HasActions(entries[j]) && Exact(entries[j])
    ensures var rules := Apply(db, id, entries, i, dir, hw).db.tables[id].rules;
            && |rules| <= RULES_PER_TABLE_MAX
            && (Wins(rules, k, p) <==> Decides(entries, k, p))
            && (Wins(rules, k, p) ==> rules[k].Rule? && rules[k].verdict == VerdictOf(entries[k]))
  {
    hide Inv, Apply, Exact, HasActions, Need, TranslateAll, EntryMatches, RuleCovers, VerdictOf, RangeFree;
    AppliedRules(db, id, entries, i, dir, hw);
    NoRangeInUse(db, 0);
    NeedRange(entries);
    RangeFreeIff(entries);
    FirstMatchKept(entries, k, p);
  }
}
