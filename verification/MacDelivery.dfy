/**
 A whole notification: the callback's loop as a sequence of its atomic steps, event by event,
 and how many events the ring can take before the consumer has to read.
 */
module MacDelivery {
  import opened Options
  import opened MacCoalescing
  import opened MacRing

  /** The steps for one event: the locked section, the unlocked test, and the rotation it asks for. */
  function Turn(c: Config, s: System, e: Event): (s': System)
    requires RingValid(s.ring)
    ensures RingValid(s'.ring)
  {
    var tested := Step(c, Step(c, s, Notify(e)), CheckFull);
    if tested.pc.Notifying? then Step(c, tested, CallbackRun) else tested
  }

  /** The same for every event of a notification in turn. */
  function Turns(c: Config, s: System, data: seq<Event>): (s': System)
    requires RingValid(s.ring)
    ensures RingValid(s'.ring)
    decreases |data|
  {
    if data == [] then s else Turns(c, Turn(c, s, data[0]), data[1..])
  }

  /** Delivering a notification in two parts is delivering it at once. */
  lemma {:induction false} DeliverAppend(r: Ring, size: nat, plugin: bool, a: seq<Event>, b: seq<Event>)
    requires RingValid(r)
    ensures Deliver(r, size, plugin, a + b) == Deliver(Deliver(r, size, plugin, a), size, plugin, b)
  {
    hide Record, Rotate, SlotFull;
    if b == [] {
      assert a + b == a;
    } else {
      var n := |b| - 1;
      DeliverAppend(r, size, plugin, a, b[..n]);
      assert (a + b)[..|a + b| - 1] == a + b[..n] && (a + b)[|a + b| - 1] == b[n];
    }
  }

  /** The callback, uninterrupted, does to the ring what delivering the notification means. */
  lemma {:induction false} NotificationIsDeliver(c: Config, s: System, data: seq<Event>)
    requires RingValid(s.ring) && s.pc.Waiting?
    ensures var s' := Turns(c, s, data);
            s'.pc.Waiting? && s'.ring == Deliver(s.ring, c.size, c.plugin, data)
    decreases |data|
  {
    hide Step, Turn;
    if data != [] {
      var s1 := Turn(c, s, data[0]);
      TurnIsDeliver(c, s, data[0]);
      NotificationIsDeliver(c, s1, data[1..]);
      DeliverAppend(s.ring, c.size, c.plugin, [data[0]], data[1..]);
      assert [data[0]] + data[1..] == data;
    }
  }

  lemma TurnIsDeliver(c: Config, s: System, e: Event)
    requires RingValid(s.ring) && s.pc.Waiting?
    ensures Turn(c, s, e).pc.Waiting? && Turn(c, s, e).ring == Deliver(s.ring, c.size, c.plugin, [e])
  {
    CallbackTurnIsDeliver(c, s, e);
  }

  // ------------------------------------------------------------------ how much the ring takes

  predicate Resolved(e: Event) {
    e.eventType.Flushed? || e.port != ""
  }

  /** Nodes that fit into a buffer of the given size and use, unless it is full, and into the free ones. */
  function Places(size: nat, used: nat, free: nat): nat
    requires used <= size
  {
    if used == size then 0 else (size - used) + free * size
  }

  /** Buffers that the ring can still rotate into. */
  function Free(c: Config, s: System): nat
    requires RingInv(c, s)
  {
    MAX_BUFFERS - 1 - (|s.published| - s.fetched)
  }

  /** Nodes that fit into the current buffer and those. */
  function Room(c: Config, s: System): nat
    requires RingInv(c, s)
  {
    Places(c.size, |s.ring.slots[s.ring.current]|, Free(c, s))
  }

  lemma InvIsRing(c: Config, s: System)
    requires Inv(c, s)
    ensures RingInv(c, s)
  {
  }

  lemma TurnInv(c: Config, s: System, e: Event)
    requires Inv(c, s) && s.pc.Waiting?
    ensures Inv(c, Turn(c, s, e)) && Turn(c, s, e).pc.Waiting?
  {
    hide Inv, Step;
    InvIsRing(c, s);
    RingBounds(c, s);
    TurnPc(c, s, e);
    var s1 := Step(c, s, Notify(e));
    StepInv(c, s, Notify(e));
    InvIsRing(c, s1);
    RingBounds(c, s1);
    StepInv(c, s1, CheckFull);
    var s2 := Step(c, s1, CheckFull);
    if s2.pc.Notifying? {
      StepInv(c, s2, CallbackRun);
    }
  }

  lemma TurnPc(c: Config, s: System, e: Event)
    requires RingValid(s.ring) && s.pc.Waiting?
    ensures Step(c, s, Notify(e)).pc.Checking? && Turn(c, s, e).pc.Waiting?
  {
    hide Absorb, Benign, Dropped;
  }

  /** What one event does to the counts: it may take a place, and may make the ring rotate when it took the last. */
  lemma TurnCounts(c: Config, s: System, e: Event)
    requires RingInv(c, s) && s.pc.Waiting? && c.plugin && Resolved(e) && |s.ring.slots[s.ring.current]| < c.size
    ensures var s' := Turn(c, s, e);
            var (k, k') := (|s.ring.slots[s.ring.current]|, |s'.ring.slots[s'.ring.current]|);
            && s'.lost == s.lost && s'.fetched == s.fetched
            && if |s'.published| == |s.published| then k <= k' <= k + 1 && (k' < c.size || Free(c, s) == 0)
               else |s'.published| == |s.published| + 1 && k' == 0 && k + 1 == c.size && Free(c, s) > 0
  {
    FullAndEmpty(c, s);
    RingBounds(c, s);
    FetchedInRange(c, s);
    hide RingInv, AnyMerges, Benign;
  }

  lemma FetchedInRange(c: Config, s: System)
    requires RingInv(c, s)
    ensures s.fetched <= |s.published| < s.fetched + MAX_BUFFERS
  {
  }

  lemma OneBufferLess(size: nat, free: nat)
    requires free > 0
    ensures Places(size, 0, free - 1) <= free * size && (size > 0 ==> Places(size, 0, free - 1) == free * size)
  {
  }

  /** One event takes at most one place. */
  lemma TurnRoom(c: Config, s: System, e: Event)
    requires Inv(c, s) && RingInv(c, s) && s.pc.Waiting? && c.plugin && Resolved(e) && Room(c, s) > 0
    ensures var s' := Turn(c, s, e);
            Inv(c, s') && RingInv(c, s') && s'.lost == s.lost && Room(c, s') + 1 >= Room(c, s)
  {
    RingBounds(c, s);
    TurnInv(c, s, e);
    var s' := Turn(c, s, e);
    InvIsRing(c, s');
    RingBounds(c, s');
    TurnCounts(c, s, e);
    hide Inv, RingInv, Turn;
    if Free(c, s) > 0 {
      OneBufferLess(c.size, Free(c, s));
    }
  }

  /**
   A notification of no more events than there is room for loses none, and the room shrinks by
   no more than one place for each.
   */
  lemma {:induction false} NotificationLosesNothing(c: Config, s: System, data: seq<Event>)
    requires Inv(c, s) && RingInv(c, s) && s.pc.Waiting? && c.plugin
    requires |data| <= Room(c, s) && forall i :: 0 <= i < |data| ==> Resolved(data[i])
    ensures var s' := Turns(c, s, data);
            Inv(c, s') && RingInv(c, s') && s'.pc.Waiting? && s'.lost == s.lost && Room(c, s') + |data| >= Room(c, s)
    decreases |data|
  {
    RingBounds(c, s);
    hide Inv, RingInv, Turn, Room;
    if data != [] {
      TurnRoom(c, s, data[0]);
      TurnInv(c, s, data[0]);
      NotificationLosesNothing(c, Turn(c, s, data[0]), data[1..]);
    }
  }
}
