/**
 The classifier's tables and its resource accounting: a global usage, a usage per table
 index, and the slots that hand indexes out. Every step is the one the code takes, with the
 outcome of each call into the switch as a parameter.
 */
module AclResources {
  import opened Options
  import opened AclEntries
  import opened AclTranslation

  type ListId = nat

  const COUNTERS_MAX := 1000
  const L4_RANGE_MAX := 0
  const TABLES_MAX := 128

  datatype Usage = Usage(rules: int, range: int, counters: int)

  const NOTHING := Usage(0, 0, 0)

  function Plus(a: Usage, b: Usage): Usage {
    Usage(a.rules + b.rules, a.range + b.range, a.counters + b.counters)
  }

  function Minus(a: Usage, b: Usage): Usage {
    Usage(a.rules - b.rules, a.range - b.range, a.counters - b.counters)
  }

  datatype Table = Table(index: nat, bound: int, rules: seq<Rule>)

  datatype Db = Db(slots: seq<Option<ListId>>, global: Usage, perTable: seq<Usage>, tables: map<ListId, Table>)

  function Sum(use: seq<Usage>): Usage {
    if use == [] then NOTHING else Plus(Sum(use[..|use| - 1]), use[|use| - 1])
  }

  // ------------------------------------------------------------------ admission

  datatype Direction = In | Out

  /** __check_rule_resources_available: the planned usage with the rule added, None when refused. */
  function CheckRule(global: Usage, dir: Direction, e: Entry, planned: Usage): Option<Usage> {
    if dir != In then None else
    var p := planned.(rules := planned.rules + 1);
    if p.rules > RULES_PER_TABLE_MAX then None else
    var q := if Counts(e) then p.(counters := p.counters + 1) else p;
    if Counts(e) && global.counters + q.counters > COUNTERS_MAX then None else
    var r := if e.dstPort.op.Ranged? then q.(range := q.range + 1) else q;
    if e.dstPort.op.Ranged? && global.range + r.range > L4_RANGE_MAX then None else
    var t := if e.srcPort.op.Ranged? then r.(range := r.range + 1) else r;
    if e.srcPort.op.Ranged? && global.range + t.range > L4_RANGE_MAX then None else
    Some(t)
  }

  datatype Admission = Admitted(planned: Usage) | Refused(entry: nat)

  /** The admission loop over a list; a refusal names the entry. */
  function CheckList(global: Usage, dir: Direction, entries: seq<Entry>, planned: Usage): Admission {
    if entries == [] then Admitted(planned)
    else
      var n := |entries| - 1;
      match CheckList(global, dir, entries[..n], planned)
      case Refused(k) => Refused(k)
      case Admitted(p) =>
        match CheckRule(global, dir, entries[n], p)
        case None => Refused(n)
        case Some(q) => Admitted(q)
  }

  function EntryNeed(e: Entry): Usage {
    Usage(1, (if e.srcPort.op.Ranged? then 1 else 0) + (if e.dstPort.op.Ranged? then 1 else 0),
          if Counts(e) then 1 else 0)
  }

  /** What a list needs. */
  function Need(entries: seq<Entry>): (u: Usage)
    ensures u.rules == |entries| && u.range >= 0 && u.counters >= 0
  {
    if entries == [] then NOTHING else Plus(Need(entries[..|entries| - 1]), EntryNeed(entries[|entries| - 1]))
  }

  // ------------------------------------------------------------------ table indexes

  function LastFree(slots: seq<Option<ListId>>): nat {
    if slots == [] then 0
    else if slots[|slots| - 1].None? then |slots| - 1
    else LastFree(slots[..|slots| - 1])
  }

  /** __table_assign_index has no break: the table takes every free slot, and the last is its index. */
  function Fill(slots: seq<Option<ListId>>, id: ListId): (r: seq<Option<ListId>>)
    ensures |r| == |slots|
  {
    seq(|slots|, i requires 0 <= i < |slots| => if slots[i].None? then Some(id) else slots[i])
  }

  // ------------------------------------------------------------------ writing and destroying tables

  /** Outcomes of the calls into the switch. */
  datatype Hw = Hw(unbind: bool, write: bool, bind: bool)

  datatype Interface = Interface(port: bool, l3Only: bool)

  predicate Binds(i: Interface) {
    i.port && !i.l3Only
  }

  predicate Shaped(db: Db) {
    && |db.slots| == TABLES_MAX && |db.perTable| == TABLES_MAX
    && (forall id :: id in db.tables ==> db.tables[id].index < TABLES_MAX)
  }

  lemma LastFreeInRange(slots: seq<Option<ListId>>)
    ensures slots != [] ==> LastFree(slots) < |slots|
  {
  }

  /** __write_table succeeds, then __update_resource_usage and __tables_db_add. */
  function Install(db: Db, id: ListId, entries: seq<Entry>, planned: Usage): (r: Db)
    requires Shaped(db)
    ensures Shaped(r)
  {
    LastFreeInRange(db.slots);
    var i := LastFree(db.slots);
    Db(Fill(db.slots, id), Plus(db.global, planned), db.perTable[i := Plus(db.perTable[i], planned)],
       db.tables[id := Table(i, 0, TranslateAll(entries))])
  }

  /** __write_table fails and rolls back: the table gives its index up, and only that. */
  function WriteFails(db: Db, id: ListId): (r: Db)
    requires Shaped(db)
    ensures Shaped(r)
  {
    LastFreeInRange(db.slots);
    db.(slots := Fill(db.slots, id)[LastFree(db.slots) := None])
  }

  /** __table_destroy_if_needed */
  function DestroyIfUnbound(db: Db, id: ListId): (r: Db)
    requires Shaped(db) && id in db.tables
    ensures Shaped(r)
  {
    var i := db.tables[id].index;
    if db.tables[id].bound != 0 then db
    else Db(db.slots[i := None], Minus(db.global, db.perTable[i]), db.perTable[i := NOTHING], db.tables - {id})
  }

  function Rebound(db: Db, id: ListId, delta: int): (r: Db)
    requires Shaped(db) && id in db.tables
    ensures Shaped(r)
  {
    db.(tables := db.tables[id := db.tables[id].(bound := db.tables[id].bound + delta)])
  }

  // ------------------------------------------------------------------ apply, remove, replace

  /** NoResources carries the entry reported; NoResourcesLate is the second pass, which reports none. */
  datatype Status = Success | NotFound | NoResources(entry: nat) | NoResourcesLate | WriteFailed | BindFailed

  datatype Result = Result(db: Db, status: Status)

  function Bind(db: Db, id: ListId, i: Interface, ok: bool): (r: Result)
    requires Shaped(db) && id in db.tables
    ensures Shaped(r.db)
  {
    if !Binds(i) then Result(db, Success)
    else if !ok then Result(db, BindFailed)
    else Result(Rebound(db, id, 1), Success)
  }

  /** __apply */
  function Apply(db: Db, id: ListId, entries: seq<Entry>, i: Interface, dir: Direction, hw: Hw): (r: Result)
    requires Shaped(db)
    ensures Shaped(r.db)
  {
    if id in db.tables then Bind(db, id, i, hw.bind)
    else
      match CheckList(db.global, dir, entries, NOTHING)
      case Refused(k) => Result(db, NoResources(k))
      case Admitted(planned) =>
        if !hw.write then Result(WriteFails(db, id), WriteFailed)
        else Bind(Install(db, id, entries, planned), id, i, hw.bind)
  }

  /** The old table leaves the interface and goes when it was the last; BindFailed when it cannot leave. */
  function Detach(db: Db, id: ListId, i: Interface, ok: bool): (r: Result)
    requires Shaped(db) && id in db.tables
    ensures Shaped(r.db) && (r.status == Success || r == Result(db, BindFailed))
  {
    if !Binds(i) then Result(DestroyIfUnbound(db, id), Success)
    else if !ok then Result(db, BindFailed)
    else Result(DestroyIfUnbound(Rebound(db, id, -1), id), Success)
  }

  /** __remove */
  function Remove(db: Db, id: ListId, i: Interface, hw: Hw): (r: Result)
    requires Shaped(db)
    ensures Shaped(r.db)
  {
    if id !in db.tables then Result(db, NotFound) else Detach(db, id, i, hw.unbind)
  }

  /** A table that only this interface uses is credited against its replacement. */
  function Credit(db: Db, id: ListId): Usage
    requires Shaped(db) && id in db.tables
  {
    if db.tables[id].bound == 1 then Minus(NOTHING, db.perTable[db.tables[id].index]) else NOTHING
  }

  /** The first pass of __replace, skipped when the new list is installed already. */
  function FirstPass(db: Db, orig: ListId, id: ListId, entries: seq<Entry>, dir: Direction): Admission
    requires Shaped(db) && orig in db.tables
  {
    if id in db.tables then Admitted(Credit(db, orig))
    else CheckList(db.global, dir, entries, Credit(db, orig))
  }

  /** The rest of __replace, after the old table left: the second pass starts from nothing. */
  function Attach(db: Db, id: ListId, entries: seq<Entry>, i: Interface, dir: Direction, hw: Hw): (r: Result)
    requires Shaped(db)
    ensures Shaped(r.db)
  {
    if id in db.tables then Bind(db, id, i, hw.bind)
    else
      match CheckList(db.global, dir, entries, NOTHING)
      case Refused(_) => Result(db, NoResourcesLate)
      case Admitted(planned) =>
        if !hw.write then Result(WriteFails(db, id), WriteFailed)
        else Bind(Install(db, id, entries, planned), id, i, hw.bind)
  }

  /** __replace */
  function Replace(db: Db, orig: ListId, id: ListId, entries: seq<Entry>, i: Interface, dir: Direction, hw: Hw): (r: Result)
    requires Shaped(db)
    ensures Shaped(r.db)
  {
    if orig !in db.tables then Result(db, NotFound)
    else
      match FirstPass(db, orig, id, entries, dir)
      case Refused(k) => Result(db, NoResources(k))
      case Admitted(_) =>
        var left := Detach(db, orig, i, hw.unbind);
        if left.status != Success then left else Attach(left.db, id, entries, i, dir, hw)
  }

  datatype Op =
    | OpApply(id: ListId, entries: seq<Entry>, i: Interface, dir: Direction, hw: Hw)
    | OpRemove(id: ListId, i: Interface, hw: Hw)
    | OpReplace(orig: ListId, id: ListId, entries: seq<Entry>, i: Interface, dir: Direction, hw: Hw)

  function Step(db: Db, op: Op): (r: Result)
    requires Shaped(db)
    ensures Shaped(r.db)
  {
    match op
    case OpApply(id, entries, i, dir, hw) => Apply(db, id, entries, i, dir, hw)
    case OpRemove(id, i, hw) => Remove(db, id, i, hw)
    case OpReplace(orig, id, entries, i, dir, hw) => Replace(db, orig, id, entries, i, dir, hw)
  }

  function Run(db: Db, ops: seq<Op>): (r: Db)
    requires Shaped(db)
    ensures Shaped(r)
  {
    if ops == [] then db else Step(Run(db, ops[..|ops| - 1]), ops[|ops| - 1]).db
  }

  const EMPTY := Db(seq(TABLES_MAX, _ => None), NOTHING, seq(TABLES_MAX, _ => NOTHING), map[])
}
