/**
 The ring of MAC-learning buffers as a concurrent protocol. Every section under
 mlearn_mutex is one atomic step, and so is the read outside the lock with which the ASIC
 callback decides whether to rotate; the callback, the timer, the flush path and the
 consumer interleave freely. The ghost part of the state records what the switch's FDB
 was whenever a buffer was opened and published, so that "the consumer saw everything,
 once, in order" can be stated over whole runs.
 */
module MacRing {
  import opened Options
  import opened MacCoalescing

  const MAX_BUFFERS := 20

  // ------------------------------------------------------------------ the ring itself

  /** all_macs_learnt, current_hmap_in_use and cur_read_hmap_in_use. */
  datatype Ring = Ring(slots: seq<seq<Node>>, current: nat, read: nat)

  predicate RingValid(r: Ring) {
    |r.slots| == MAX_BUFFERS && r.current < MAX_BUFFERS && r.read < MAX_BUFFERS
  }

  function NextIndex(index: nat): nat {
    (index + 1) % MAX_BUFFERS
  }

  predicate IsFull(r: Ring) {
    NextIndex(r.current) == r.read
  }

  predicate IsEmpty(r: Ring) {
    r.read == r.current
  }

  predicate SlotFull(r: Ring, size: nat)
    requires RingValid(r)
  {
    |r.slots[r.current]| == size
  }

  /** One event recorded in the current buffer. */
  function Record(r: Ring, size: nat, e: Event): Ring
    requires RingValid(r)
  {
    r.(slots := r.slots[r.current := Absorb(r.slots[r.current], size, e)])
  }

  predicate Rotates(r: Ring, plugin: bool)
    requires RingValid(r)
  {
    plugin && r.slots[r.current] != [] && !IsFull(r)
  }

  /** sai_mac_learning_run: publish a non-empty current buffer if the ring has room. */
  function Rotate(r: Ring, plugin: bool): Ring
    requires RingValid(r)
  {
    if Rotates(r, plugin)
    then Ring(r.slots[NextIndex(r.current) := []], NextIndex(r.current), r.read)
    else r
  }

  /** sai_mac_learning_get_hmap: hand out the oldest published buffer, if any. */
  function Fetch(r: Ring): Ring {
    if IsEmpty(r) then r else r.(read := NextIndex(r.read))
  }

  /** The callback's loop over a notification, when no other thread runs in between. */
  function Deliver(r: Ring, size: nat, plugin: bool, data: seq<Event>): (r': Ring)
    requires RingValid(r)
    ensures RingValid(r')
  {
    if data == [] then r
    else
      var n := |data| - 1;
      var recorded := Record(Deliver(r, size, plugin, data[..n]), size, data[n]);
      if SlotFull(recorded, size) then Rotate(recorded, plugin) else recorded
  }

  // ------------------------------------------------------------------ the whole system

  /** Where the ASIC callback thread is between two events. */
  datatype CallbackPc = Waiting | Checking | Notifying

  /** A published buffer, with the FDB when it was opened and when it was published. */
  datatype Batch = Batch(nodes: seq<Node>, before: Fdb, after: Fdb)

  datatype System = System(
    ring: Ring,
    pc: CallbackPc,
    fdb: Fdb,               // the switch's forwarding database
    openedAt: Fdb,            // the FDB when the current buffer was opened
    published: seq<Batch>,  // every buffer published so far, oldest first
    fetched: nat,           // how many of them the consumer has been handed
    clean: bool,            // every event so far was benign and recorded
    lost: nat,              // events dropped
    consumer: Fdb           // what the consumer has built from the buffers handed to it
  )

  datatype Config = Config(size: nat, plugin: bool)

  datatype Action =
    | Notify(e: Event)          // callback: the locked section for one event
    | CheckFull                 // callback: the unlocked test of the current buffer
    | CallbackRun               // callback: sai_mac_learning_run after a positive test
    | BackgroundRun             // timer or flush path: sai_mac_learning_run
    | Consume(order: seq<Node>) // consumer: get_hmap, then apply the nodes in that order

  /** After init, which flushes every FDB entry. */
  function Init(): System {
    System(Ring(seq(MAX_BUFFERS, _ => []), 0, 0), Waiting, NO_ENTRIES, NO_ENTRIES, [], 0, true, 0, NO_ENTRIES)
  }

  ghost predicate Enabled(s: System, a: Action) {
    match a
    case Notify(_) => s.pc.Waiting?
    case CheckFull => s.pc.Checking?
    case CallbackRun => s.pc.Notifying?
    case BackgroundRun => true
    case Consume(order) =>
      && RingValid(s.ring)
      && (IsEmpty(s.ring) || multiset(order) == multiset(s.ring.slots[s.ring.read]))
  }

  /** A rotation publishes the current buffer and opens the next one. */
  function RunStep(c: Config, s: System): System
    requires RingValid(s.ring)
  {
    if Rotates(s.ring, c.plugin) then
      s.(ring := Rotate(s.ring, c.plugin),
         published := s.published + [Batch(s.ring.slots[s.ring.current], s.openedAt, s.fdb)],
         openedAt := s.fdb)
    else s
  }

  function Step(c: Config, s: System, a: Action): System
    requires RingValid(s.ring)
  {
    match a
    case Notify(e) =>
      var nodes := s.ring.slots[s.ring.current];
      var dropped := Dropped(nodes, c.size, e);
      s.(ring := Record(s.ring, c.size, e),
         pc := Checking,
         fdb := ApplyEvent(e, s.fdb),
         clean := s.clean && !dropped && Benign(e, s.openedAt, s.fdb),
         lost := if dropped then s.lost + 1 else s.lost)
    case CheckFull => s.(pc := if SlotFull(s.ring, c.size) then Notifying else Waiting)
    case CallbackRun => RunStep(c, s).(pc := Waiting)
    case BackgroundRun => RunStep(c, s)
    case Consume(order) =>
      if IsEmpty(s.ring) then s
      else s.(ring := Fetch(s.ring),
              fetched := s.fetched + 1,
              consumer := Replay(order, s.consumer))
  }

  // ------------------------------------------------------------------ the invariant

  /** The FDB once init has flushed it. */
  const NO_ENTRIES: Fdb := map[]

  /**
   Positions of the writer and the reader are the published and fetched counts modulo the
   ring size, and the last MAX_BUFFERS - 1 published buffers are still intact in it.
   */
  ghost predicate RingInv(c: Config, s: System) {
    && RingValid(s.ring)
    && s.ring.current == |s.published| % MAX_BUFFERS
    && s.ring.read == s.fetched % MAX_BUFFERS
    && s.fetched <= |s.published| < s.fetched + MAX_BUFFERS
    && (forall i :: 0 <= i < |s.published| && |s.published| < i + MAX_BUFFERS ==>
          s.ring.slots[i % MAX_BUFFERS] == s.published[i].nodes)
    && (forall i :: 0 <= i < |s.published| ==> s.published[i].nodes != [])
    && (forall i :: 0 <= i < |s.published| ==> |s.published[i].nodes| <= c.size)
    && |s.ring.slots[s.ring.current]| <= c.size
  }

  /** The FDB when buffer number i was opened: as the buffer before it was published. */
  function OpenedAt(published: seq<Batch>, i: nat): Fdb
    requires i <= |published|
  {
    if i == 0 then NO_ENTRIES else published[i - 1].after
  }

  /** Published buffers form a chain of FDB states that reaches the current buffer. */
  ghost predicate ChainInv(published: seq<Batch>, openedAt: Fdb) {
    && (forall i {:trigger OpenedAt(published, i)} :: 0 <= i < |published| ==>
          published[i].before == OpenedAt(published, i))
    && openedAt == OpenedAt(published, |published|)
  }

  /** Every published buffer is the minimal diff between its two FDB states. */
  ghost predicate ExactBatches(published: seq<Batch>) {
    forall i :: 0 <= i < |published| ==>
      Exact(published[i].nodes, published[i].before, published[i].after)
  }

  ghost predicate Inv(c: Config, s: System) {
    && RingInv(c, s)
    && ChainInv(s.published, s.openedAt)
    && (s.clean ==>
          && ExactBatches(s.published)
          && Exact(s.ring.slots[s.ring.current], s.openedAt, s.fdb)
          && s.consumer == OpenedAt(s.published, s.fetched))
  }

  lemma InitInv(c: Config)
    ensures Inv(c, Init())
  {
    assert forall k :: Live([], k) == Diff(NO_ENTRIES, NO_ENTRIES, k);
  }

  lemma NextMod(n: nat)
    ensures NextIndex(n % MAX_BUFFERS) == (n + 1) % MAX_BUFFERS
  {
  }

  lemma FullTurnMod(f: nat)
    ensures (f + MAX_BUFFERS) % MAX_BUFFERS == f % MAX_BUFFERS
  {
  }

  lemma CountsMod(n: nat, f: nat)
    requires f <= n < f + MAX_BUFFERS
    ensures f % MAX_BUFFERS == n % MAX_BUFFERS <==> n == f
    ensures NextIndex(n % MAX_BUFFERS) == f % MAX_BUFFERS <==> n == f + MAX_BUFFERS - 1
  {
    hide NextIndex;
    NextMod(n);
    if n > f {
      DistinctMod(f, n);
    }
    if n == f + MAX_BUFFERS - 1 {
      FullTurnMod(f);
    } else {
      DistinctMod(f, n + 1);
    }
  }

  lemma DistinctMod(i: nat, n: nat)
    requires i < n < i + MAX_BUFFERS
    ensures i % MAX_BUFFERS != n % MAX_BUFFERS
  {
  }

  /** The macros agree with the counts: empty means nothing unread, full means 19 unread. */
  lemma FullAndEmpty(c: Config, s: System)
    requires RingInv(c, s)
    ensures IsEmpty(s.ring) <==> |s.published| == s.fetched
    ensures IsFull(s.ring) <==> |s.published| == s.fetched + MAX_BUFFERS - 1
  {
    CountsMod(|s.published|, s.fetched);
  }

  lemma AbsorbFits(nodes: seq<Node>, size: nat, e: Event)
    requires |nodes| <= size
    ensures |Absorb(nodes, size, e)| <= size
  {
  }

  lemma NotifyInv(c: Config, s: System, e: Event)
    requires Inv(c, s)
    ensures Inv(c, Step(c, s, Notify(e)))
  {
    var s' := Step(c, s, Notify(e));
    var nodes := s.ring.slots[s.ring.current];
    AbsorbFits(nodes, c.size, e);
    forall i | 0 <= i < |s.published| && |s.published| < i + MAX_BUFFERS
      ensures s'.ring.slots[i % MAX_BUFFERS] == s.published[i].nodes
    {
      DistinctMod(i, |s.published|);
    }
    if s'.clean {
      AbsorbExactIff(nodes, c.size, e, s.openedAt, s.fdb);
    }
  }

  lemma RunStepRingInv(c: Config, s: System)
    requires RingInv(c, s) && Rotates(s.ring, c.plugin)
    ensures RingInv(c, RunStep(c, s))
  {
    var s' := RunStep(c, s);
    FullAndEmpty(c, s);
    NextMod(|s.published|);
    assert s.published == s'.published[..|s.published|];
    forall i | 0 <= i < |s'.published| && |s'.published| < i + MAX_BUFFERS
      ensures s'.ring.slots[i % MAX_BUFFERS] == s'.published[i].nodes
    {
      DistinctMod(i, |s'.published|);
    }
  }

  lemma RunStepChainInv(c: Config, s: System)
    requires Inv(c, s) && Rotates(s.ring, c.plugin)
    ensures var s' := RunStep(c, s);
            && ChainInv(s'.published, s'.openedAt)
            && (s.clean ==> ExactBatches(s'.published) && Exact([], s'.openedAt, s'.fdb))
  {
    var s' := RunStep(c, s);
    assert forall i :: 0 <= i <= |s.published| ==> OpenedAt(s'.published, i) == OpenedAt(s.published, i);
    assert Exact([], s.fdb, s.fdb);
  }

  lemma RunStepInv(c: Config, s: System)
    requires Inv(c, s)
    ensures Inv(c, RunStep(c, s))
  {
    if Rotates(s.ring, c.plugin) {
      RunStepRingInv(c, s);
      RunStepChainInv(c, s);
    }
  }

  /** The consumer is handed the next published buffer, and replaying it takes it there. */
  lemma ConsumeYields(c: Config, s: System, order: seq<Node>)
    requires Inv(c, s) && Enabled(s, Consume(order)) && !IsEmpty(s.ring)
    ensures s.fetched < |s.published|
    ensures s.ring.slots[s.ring.read] == s.published[s.fetched].nodes != []
    ensures s.clean ==> Replay(order, s.consumer) == s.published[s.fetched].after
  {
    FullAndEmpty(c, s);
    var b := s.published[s.fetched];
    assert s.ring.slots[s.fetched % MAX_BUFFERS] == b.nodes;
    if s.clean {
      ReplayIsExact(b.nodes, order, b.before, b.after);
    }
  }

  lemma ConsumeRingInv(c: Config, s: System, order: seq<Node>)
    requires RingInv(c, s) && !IsEmpty(s.ring) && s.fetched < |s.published|
    ensures RingInv(c, Step(c, s, Consume(order)))
  {
    NextMod(s.fetched);
  }

  lemma ConsumeInv(c: Config, s: System, order: seq<Node>)
    requires Inv(c, s) && Enabled(s, Consume(order))
    ensures Inv(c, Step(c, s, Consume(order)))
  {
    if !IsEmpty(s.ring) {
      ConsumeYields(c, s, order);
      ConsumeRingInv(c, s, order);
      assert OpenedAt(s.published, s.fetched + 1) == s.published[s.fetched].after;
    }
  }

  lemma StepInv(c: Config, s: System, a: Action)
    requires Inv(c, s) && Enabled(s, a)
    ensures Inv(c, Step(c, s, a))
  {
    match a
    case Notify(e) => NotifyInv(c, s, e);
    case CheckFull =>
    case CallbackRun => RunStepInv(c, s);
    case BackgroundRun => RunStepInv(c, s);
    case Consume(order) => ConsumeInv(c, s, order);
  }

  // ------------------------------------------------------------------ runs

  /** `states` is a run of the system under `actions`, one state more than actions. */
  ghost predicate IsRun(c: Config, states: seq<System>, actions: seq<Action>) {
    && |states| == |actions| + 1
    && (forall i :: 0 <= i < |states| ==> RingValid(states[i].ring))
    && (forall i :: 0 <= i < |actions| ==>
          Enabled(states[i], actions[i]) && states[i + 1] == Step(c, states[i], actions[i]))
  }

  lemma {:induction false} RunInv(c: Config, states: seq<System>, actions: seq<Action>, n: nat)
    requires IsRun(c, states, actions) && Inv(c, states[0]) && n < |states|
    ensures Inv(c, states[n])
  {
    if n > 0 {
      RunInv(c, states, actions, n - 1);
      StepInv(c, states[n - 1], actions[n - 1]);
    }
  }

  // ------------------------------------------------------------------ no event is lost

  /** The event's port resolves, and if it fills the buffer the ring can still rotate. */
  predicate Roomy(c: Config, s: System, a: Action)
    requires RingValid(s.ring)
  {
    match a
    case Notify(e) =>
      && (e.eventType.Flushed? || e.port != "")
      && (SlotFull(Record(s.ring, c.size, e), c.size) ==> !IsFull(s.ring))
    case _ => true
  }

  /** Between two events of the callback the current buffer has room, or is about to rotate. */
  predicate RoomInv(c: Config, s: System)
    requires RingValid(s.ring)
  {
    && s.lost == 0
    && (SlotFull(s.ring, c.size) ==> !s.pc.Waiting? && !IsFull(s.ring))
  }

  lemma RoomStep(c: Config, s: System, a: Action)
    requires c.plugin && c.size > 0
    requires RingInv(c, s) && Enabled(s, a) && RoomInv(c, s) && Roomy(c, s, a)
    ensures RingValid(Step(c, s, a).ring) && RoomInv(c, Step(c, s, a))
  {
    hide RingInv, Replay, AnyMerges, Benign;
    assert RingValid(s.ring) && |s.ring.slots[s.ring.current]| <= c.size by { RingBounds(c, s); }
    if a.Consume? && !IsEmpty(s.ring) {
      DistinctNext(s.ring.current, s.ring.read);
    }
  }

  lemma RingBounds(c: Config, s: System)
    requires RingInv(c, s)
    ensures RingValid(s.ring) && |s.ring.slots[s.ring.current]| <= c.size
  {
  }

  lemma DistinctNext(i: nat, j: nat)
    requires i < MAX_BUFFERS && j < MAX_BUFFERS && i != j
    ensures NextIndex(i) != NextIndex(j)
  {
  }

  /**
   Bounded loss over runs: with the plugin registered and the ring never full at the moment
   a buffer fills, no event with a resolvable port is lost, however the background threads
   and the consumer interleave with the callback's unlocked test.
   */
  lemma {:induction false} NoEventIsLost(c: Config, states: seq<System>, actions: seq<Action>, n: nat)
    requires c.plugin && c.size > 0
    requires IsRun(c, states, actions) && states[0] == Init() && n < |states|
    requires forall i :: 0 <= i < n ==> Roomy(c, states[i], actions[i])
    ensures RoomInv(c, states[n])
  {
    if n > 0 {
      NoEventIsLost(c, states, actions, n - 1);
      InitInv(c);
      RunInv(c, states, actions, n - 1);
      RoomStep(c, states[n - 1], actions[n - 1]);
    }
  }

  /** The first n actions lose nothing and report only well-formed events. */
  ghost predicate WellBehaved(c: Config, states: seq<System>, actions: seq<Action>, n: nat)
    requires IsRun(c, states, actions) && n <= |actions|
  {
    && c.plugin && c.size > 0
    && forall i :: 0 <= i < n ==>
         Roomy(c, states[i], actions[i]) && (actions[i].Notify? ==> WellFormed(actions[i].e, states[i].fdb))
  }

  /** Then every event was benign and recorded. */
  lemma {:induction false} WellBehavedIsClean(c: Config, states: seq<System>, actions: seq<Action>, n: nat)
    requires IsRun(c, states, actions) && states[0] == Init() && n <= |actions| && WellBehaved(c, states, actions, n)
    ensures states[n].clean && states[n].lost == 0
  {
    hide Roomy, WellFormed, Dropped;
    NoEventIsLost(c, states, actions, n);
    if n > 0 {
      WellBehavedIsClean(c, states, actions, n - 1);
      if actions[n - 1].Notify? {
        WellFormedIsBenign(actions[n - 1].e, states[n - 1].openedAt, states[n - 1].fdb);
      }
    }
  }

  lemma WellFormedIsBenign(e: Event, base: Fdb, cur: Fdb)
    requires WellFormed(e, cur)
    ensures Benign(e, base, cur)
  {
  }

  // ------------------------------------------------------------------ what the consumer gets

  lemma {:induction false} PublishedGrows(c: Config, states: seq<System>, actions: seq<Action>, m: nat, n: nat)
    requires IsRun(c, states, actions) && m <= n < |states|
    ensures states[m].published <= states[n].published
    ensures states[m].fetched <= states[n].fetched
    decreases n
  {
    if m < n {
      PublishedGrows(c, states, actions, m, n - 1);
    }
  }

  /**
   End-to-end replay. On every interleaving from power-up, the step at which the consumer
   is handed something hands out exactly the next published buffer, unchanged since it was
   published; and if the events so far were well formed and the ring had room for them, or
   more generally if each was benign and recorded, the consumer then holds the FDB of that
   moment.
   */
  lemma EndToEndReplay(c: Config, states: seq<System>, actions: seq<Action>, n: nat)
    requires IsRun(c, states, actions) && states[0] == Init() && n < |actions|
    requires actions[n].Consume? && !IsEmpty(states[n].ring)
    ensures var (s, s') := (states[n], states[n + 1]);
            && s.fetched < |s.published|
            && s.ring.slots[s.ring.read] == s.published[s.fetched].nodes != []
            && s'.fetched == s.fetched + 1 && s'.published == s.published
            && (WellBehaved(c, states, actions, n) || s.clean ==> s'.consumer == s.published[s.fetched].after)
  {
    if WellBehaved(c, states, actions, n) {
      WellBehavedIsClean(c, states, actions, n);
    }
    InitInv(c);
    RunInv(c, states, actions, n);
    ConsumeYields(c, states[n], actions[n].order);
  }

  /** Nothing is withheld: an empty ring means the consumer is up to the last publication. */
  lemma DrainedConsumerIsCurrent(c: Config, states: seq<System>, actions: seq<Action>, n: nat)
    requires IsRun(c, states, actions) && states[0] == Init() && n < |states|
    requires (WellBehaved(c, states, actions, n) || states[n].clean) && IsEmpty(states[n].ring)
    ensures states[n].consumer == states[n].openedAt
    ensures states[n].ring.slots[states[n].ring.current] == [] ==> states[n].consumer == states[n].fdb
  {
    if WellBehaved(c, states, actions, n) {
      WellBehavedIsClean(c, states, actions, n);
    }
    InitInv(c);
    RunInv(c, states, actions, n);
    FullAndEmpty(c, states[n]);
    var s := states[n];
    if s.ring.slots[s.ring.current] == [] {
      assert Exact([], s.openedAt, s.fdb);
      forall k ensures Lookup(s.openedAt, k) == Lookup(s.fdb, k) {
        assert Live([], k) == Diff(s.openedAt, s.fdb, k);
      }
      SameLookups(s.openedAt, s.fdb);
    }
  }

  /** Ring safety: never more than MAX_BUFFERS - 1 unread buffers, each non-empty and intact. */
  lemma RingSafety(c: Config, states: seq<System>, actions: seq<Action>, n: nat)
    requires IsRun(c, states, actions) && states[0] == Init() && n < |states|
    ensures var s := states[n];
            && s.fetched <= |s.published| <= s.fetched + MAX_BUFFERS - 1
            && forall i :: s.fetched <= i < |s.published| ==>
                 s.ring.slots[i % MAX_BUFFERS] == s.published[i].nodes != []
  {
    InitInv(c);
    RunInv(c, states, actions, n);
  }

  /** A published buffer stays in its slot until MAX_BUFFERS - 1 later ones are published. */
  lemma IntactWhileRecent(c: Config, s: System, s': System, f: nat)
    requires RingInv(c, s) && RingInv(c, s') && s.published <= s'.published
    requires f < |s.published| < f + MAX_BUFFERS
    ensures |s'.published| < f + MAX_BUFFERS ==>
              s'.ring.slots[f % MAX_BUFFERS] == s.ring.slots[f % MAX_BUFFERS]
    ensures |s'.published| == f + MAX_BUFFERS ==> s'.ring.current == f % MAX_BUFFERS
  {
    assert s'.published[f] == s.published[f];
    if |s'.published| == f + MAX_BUFFERS {
      FullTurnMod(f);
    }
  }

  /**
   How long a consumer may keep reading a buffer it was handed when d buffers were unread:
   it is untouched for MAX_BUFFERS - 1 - d further rotations, and the rotation after those
   makes it the writer's current buffer.
   */
  lemma HandoutSurvives(c: Config, states: seq<System>, actions: seq<Action>, m: nat, n: nat)
    requires IsRun(c, states, actions) && states[0] == Init()
    requires m < n < |states| && actions[m].Consume? && !IsEmpty(states[m].ring)
    ensures var (s, s') := (states[m], states[n]);
            var d := |s.published| - s.fetched;
            var rotations := |s'.published| - |s.published|;
            && 0 < d && 0 <= rotations
            && (rotations <= MAX_BUFFERS - 1 - d ==>
                  s'.ring.slots[s.ring.read] == s.ring.slots[s.ring.read])
            && (rotations == MAX_BUFFERS - d ==> s'.ring.current == s.ring.read)
  {
    InitInv(c);
    RunInv(c, states, actions, m);
    RunInv(c, states, actions, n);
    PublishedGrows(c, states, actions, m, n);
    FullAndEmpty(c, states[m]);
    IntactWhileRecent(c, states[m], states[n], states[m].fetched);
  }

  /** The bound is tight: the rotation after the last safe one clears the buffer. */
  lemma RotationClears(c: Config, s: System)
    requires RingInv(c, s) && Rotates(s.ring, c.plugin)
    ensures var s' := RunStep(c, s);
            && s'.ring.slots[s'.ring.current] == []
            && (|s.published| + 1 >= MAX_BUFFERS ==>
                  s'.ring.current == (|s.published| + 1 - MAX_BUFFERS) % MAX_BUFFERS)
  {
    NextMod(|s.published|);
    if |s.published| + 1 >= MAX_BUFFERS {
      FullTurnMod(|s.published| + 1 - MAX_BUFFERS);
    }
  }

  /** The steps of the background threads and of the consumer are the calls they make. */
  lemma RunAndConsumeAreCalls(c: Config, s: System, order: seq<Node>)
    requires RingValid(s.ring)
    ensures Step(c, s, BackgroundRun).ring == Rotate(s.ring, c.plugin)
    ensures Step(c, s, Consume(order)).ring == Fetch(s.ring)
    ensures IsEmpty(s.ring) ==> Fetch(s.ring) == s.ring
  {
  }

  /** The callback's own three steps for one event, uninterrupted, are one turn of its loop. */
  lemma CallbackTurnIsDeliver(c: Config, s: System, e: Event)
    requires RingValid(s.ring) && s.pc.Waiting?
    ensures var tested := Step(c, Step(c, s, Notify(e)), CheckFull);
            var s' := if tested.pc.Notifying? then Step(c, tested, CallbackRun) else tested;
            s'.pc.Waiting? && s'.ring == Deliver(s.ring, c.size, c.plugin, [e])
  {
    assert [e][..0] == [];
    assert Deliver(s.ring, c.size, c.plugin, [e][..0]) == s.ring;
  }

  /**
   A flush is not passed on: a key is learnt, published and consumed, then the switch drops
   it. Everything published has been consumed and nothing is pending, but the consumer
   still holds the key.
   */
  lemma FlushIsNotSeen(k: Key, port: string) returns (states: seq<System>, actions: seq<Action>)
    requires port != ""
    ensures var c := Config(2, true);
            && actions == [Notify(Event(Learned, k, port)), CheckFull, BackgroundRun, Consume([Node(k, Add, port)]),
                           Notify(Event(Flushed, k, port))]
            && IsRun(c, states, actions) && states[0] == Init()
            && (forall i :: 0 <= i < 5 ==> Roomy(c, states[i], actions[i]))
    ensures var s := states[5];
            && IsEmpty(s.ring) && s.ring.slots[s.ring.current] == [] && s.lost == 0
            && s.consumer == map[k := port] && s.fdb == map[] && !s.clean
  {
    var c, n := Config(2, true), Node(k, Add, port);
    actions := [Notify(Event(Learned, k, port)), CheckFull, BackgroundRun, Consume([n]), Notify(Event(Flushed, k, port))];
    var s1 := Step(c, Init(), actions[0]);
    assert s1.ring.slots[0] == [n];
    var s2 := Step(c, s1, actions[1]);
    var s3 := Step(c, s2, actions[2]);
    assert s3.ring.slots[0] == [n] && s3.ring.current == 1 && s3.ring.read == 0;
    var s4 := Step(c, s3, actions[3]);
    ReplayOne(n, NO_ENTRIES);
    var s5 := Step(c, s4, actions[4]);
    states := [Init(), s1, s2, s3, s4, s5];
    forall i | 0 <= i < 5
      ensures Enabled(states[i], actions[i]) && states[i + 1] == Step(c, states[i], actions[i]) && Roomy(c, states[i], actions[i])
    {
      assert i == 0 || i == 1 || i == 2 || i == 3 || i == 4;
    }
  }

  /** Without the plugin nothing ever rotates, so a full buffer drops what does not merge. */
  lemma WithoutPluginEventsAreLost(k: Key, k': Key)
    requires k != k'
    ensures var c := Config(1, false);
            var s1 := Step(c, Init(), Notify(Event(Learned, k, "1")));
            var s2 := Step(c, Step(c, s1, CheckFull), CallbackRun);
            var s3 := Step(c, s2, Notify(Event(Learned, k', "1")));
            s3.lost == 1 && s3.ring.slots[0] == [Node(k, Add, "1")]
  {
  }
}
