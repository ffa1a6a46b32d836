/**
 One buffer of MAC-learning events (struct mlearn_hmap). A buffer is a diff between two
 states of the switch's forwarding database (FDB): a node ADD says that a key is now at a
 port, a node DEL that it is no longer at a port, and two events that cancel leave a
 tombstone behind. This module says what merging an event into a buffer does, and proves
 exactly when the buffer stays the minimal diff.
 */
module MacCoalescing {
  import opened Options

  datatype Oper = Add | Del | Undefined

  /** What the code compares nodes by: MAC address and VLAN. */
  datatype Key = Key(mac: nat, vlan: nat)

  datatype Node = Node(key: Key, oper: Oper, port: string)

  /** SAI_FDB_EVENT_LEARNED, SAI_FDB_EVENT_AGED, and SAI_FDB_EVENT_FLUSHED, which the callback ignores. */
  datatype EventType = Learned | Aged | Flushed

  /** An event whose port handle is already resolved; an unknown handle gives the empty name. */
  datatype Event = Event(eventType: EventType, key: Key, port: string)

  /** The forwarding database: which port each key was learnt on. */
  type Fdb = map<Key, string>

  /** The VLAN id written into a tombstone. */
  const TOMBSTONE_VLAN := 4096

  // ------------------------------------------------------------------ merging an event

  function OperOf(e: Event): Oper {
    if e.eventType.Learned? then Add else Del
  }

  /** The node cancels against the event: opposite operations on the same port. */
  predicate Cancels(n: Node, e: Event) {
    && n.key == e.key
    && n.port == e.port
    && ((n.oper.Del? && OperOf(e).Add?) || (n.oper.Add? && OperOf(e).Del?))
  }

  /** The node is an ADD that a further ADD just moves to the new port. */
  predicate Overwrites(n: Node, e: Event) {
    n.key == e.key && n.oper.Add? && OperOf(e).Add?
  }

  predicate Merges(n: Node, e: Event) {
    Cancels(n, e) || Overwrites(n, e)
  }

  function Tombstone(n: Node): Node {
    n.(oper := Undefined, key := n.key.(vlan := TOMBSTONE_VLAN))
  }

  function Merge(n: Node, e: Event): Node {
    if Cancels(n, e) then Tombstone(n)
    else if Overwrites(n, e) then n.(port := e.port)
    else n
  }

  function MergeAll(nodes: seq<Node>, e: Event): (r: seq<Node>)
    ensures |r| == |nodes|
    ensures forall i :: 0 <= i < |nodes| ==> r[i] == Merge(nodes[i], e)
  {
    seq(|nodes|, i requires 0 <= i < |nodes| => Merge(nodes[i], e))
  }

  predicate AnyMerges(nodes: seq<Node>, e: Event) {
    exists i :: 0 <= i < |nodes| && Merges(nodes[i], e)
  }

  /** The buffer after an event: merged into the nodes it meets, else appended if there is room. */
  function Absorb(nodes: seq<Node>, size: nat, e: Event): seq<Node> {
    if e.eventType.Flushed? || e.port == "" then nodes
    else if AnyMerges(nodes, e) then MergeAll(nodes, e)
    else if |nodes| < size then nodes + [Node(e.key, OperOf(e), e.port)]
    else nodes
  }

  /** The event reaches the buffer but finds it full with nothing to merge with. */
  predicate Dropped(nodes: seq<Node>, size: nat, e: Event) {
    && !e.eventType.Flushed?
    && (e.port == "" || (!AnyMerges(nodes, e) && |nodes| >= size))
  }

  // ------------------------------------------------------------------ live nodes of one key

  predicate LiveAt(n: Node, k: Key) {
    !n.oper.Undefined? && n.key == k
  }

  /** The nodes of the buffer that still say something about key k, in buffer order. */
  function Live(nodes: seq<Node>, k: Key): seq<Node> {
    if nodes == [] then []
    else
      var front, last := nodes[..|nodes| - 1], nodes[|nodes| - 1];
      if LiveAt(last, k) then Live(front, k) + [last] else Live(front, k)
  }

  /** The smallest set of changes that takes the FDB `base` to `cur` at key k. */
  function Diff(base: Fdb, cur: Fdb, k: Key): seq<Node> {
    match (Lookup(base, k), Lookup(cur, k))
    case (None, None) => []
    case (None, Some(q)) => [Node(k, Add, q)]
    case (Some(p), None) => [Node(k, Del, p)]
    case (Some(p), Some(q)) => if p == q then [] else [Node(k, Del, p), Node(k, Add, q)]
  }

  /** The live nodes of the buffer are the minimal diff from `base` to `cur`, at every key. */
  ghost predicate Exact(nodes: seq<Node>, base: Fdb, cur: Fdb) {
    forall k :: Live(nodes, k) == Diff(base, cur, k)
  }

  // ------------------------------------------------------------------ coalescing is exact

  /** What the event does to the FDB itself. */
  function ApplyEvent(e: Event, fdb: Fdb): Fdb {
    match e.eventType
    case Learned => fdb[e.key := e.port]
    case Aged => fdb - {e.key}
    case Flushed => fdb - {e.key}
  }

  /**
   LEARNED reports a key that was absent; AGED reports the port the key was at. The callback
   ignores FLUSHED, so only the flush of a key that is absent anyway is harmless.
   */
  predicate WellFormed(e: Event, cur: Fdb) {
    match e.eventType
    case Learned => e.key !in cur
    case Aged => Lookup(cur, e.key) == Some(e.port)
    case Flushed => e.key !in cur
  }

  /**
   The events that coalescing survives. Beyond the well-formed ones these are the moves of
   a key that the buffer already holds as added, to a port other than the one it had when
   the buffer was opened.
   */
  predicate Benign(e: Event, base: Fdb, cur: Fdb) {
    || WellFormed(e, cur)
    || (e.eventType.Learned? && Lookup(base, e.key) != Lookup(cur, e.key)
        && Lookup(base, e.key) != Some(e.port))
  }

  /** Keeps the live nodes of `live` that survive the merge. */
  function MergeLive(live: seq<Node>, e: Event): seq<Node> {
    if live == [] then []
    else
      var front, last := live[..|live| - 1], live[|live| - 1];
      if Cancels(last, e) then MergeLive(front, e) else MergeLive(front, e) + [Merge(last, e)]
  }

  lemma {:induction false} LiveAppend(nodes: seq<Node>, n: Node, k: Key)
    ensures Live(nodes + [n], k) == if LiveAt(n, k) then Live(nodes, k) + [n] else Live(nodes, k)
  {
    assert (nodes + [n])[..|nodes|] == nodes;
  }

  lemma MergeLiveAppend(live: seq<Node>, n: Node, e: Event)
    ensures MergeLive(live + [n], e)
            == if Cancels(n, e) then MergeLive(live, e) else MergeLive(live, e) + [Merge(n, e)]
  {
    assert (live + [n])[..|live|] == live;
  }

  lemma {:induction false} LiveMergeAll(nodes: seq<Node>, e: Event, k: Key)
    ensures Live(MergeAll(nodes, e), k)
            == if k == e.key then MergeLive(Live(nodes, k), e) else Live(nodes, k)
  {
    if nodes != [] {
      var front, last := nodes[..|nodes| - 1], nodes[|nodes| - 1];
      LiveMergeAll(front, e, k);
      assert nodes == front + [last];
      assert MergeAll(nodes, e) == MergeAll(front, e) + [Merge(last, e)];
      LiveAppend(MergeAll(front, e), Merge(last, e), k);
      LiveAppend(front, last, k);
      MergeLiveAppend(Live(front, k), last, e);
    }
  }

  /** A node merges exactly when it is live at the event's key and merges there. */
  lemma {:induction false} MergesAreLive(nodes: seq<Node>, e: Event)
    ensures AnyMerges(nodes, e) <==> AnyMerges(Live(nodes, e.key), e)
  {
    if nodes != [] {
      var front, last := nodes[..|nodes| - 1], nodes[|nodes| - 1];
      MergesAreLive(front, e);
      var fl := Live(front, e.key);
      AnyMergesAppend(front, last, e);
      assert nodes == front + [last];
      LiveAppend(front, last, e.key);
      AnyMergesAppend(fl, last, e);
    }
  }

  lemma AnyMergesAppend(nodes: seq<Node>, n: Node, e: Event)
    ensures AnyMerges(nodes + [n], e) <==> AnyMerges(nodes, e) || Merges(n, e)
  {
    var all := nodes + [n];
    if AnyMerges(nodes, e) {
      var i :| 0 <= i < |nodes| && Merges(nodes[i], e);
      assert all[i] == nodes[i];
    }
    if Merges(n, e) {
      assert all[|nodes|] == n;
    }
    if AnyMerges(all, e) {
      var i :| 0 <= i < |all| && Merges(all[i], e);
      assert i < |nodes| ==> nodes[i] == all[i];
    }
  }

  /** A tombstone's VLAN is one that no event has, so nothing matches it even by key alone. */
  lemma TombstoneIsInert(n: Node, e: Event)
    requires e.key.vlan < TOMBSTONE_VLAN
    ensures Tombstone(n).key != e.key && Tombstone(n).key.mac == n.key.mac && Tombstone(n).oper.Undefined?
    ensures !Merges(Tombstone(n), e) && forall fdb :: Patch(Tombstone(n), fdb) == fdb
  {
  }

  /** What the live nodes of the event's own key become. */
  function AbsorbLive(live: seq<Node>, e: Event): seq<Node> {
    if AnyMerges(live, e) then MergeLive(live, e)
    else live + [Node(e.key, OperOf(e), e.port)]
  }

  lemma LiveAbsorb(nodes: seq<Node>, size: nat, e: Event, k: Key)
    requires !e.eventType.Flushed? && !Dropped(nodes, size, e)
    ensures Live(Absorb(nodes, size, e), k)
            == if k == e.key then AbsorbLive(Live(nodes, k), e) else Live(nodes, k)
  {
    MergesAreLive(nodes, e);
    LiveMergeAll(nodes, e, k);
    LiveAppend(nodes, Node(e.key, OperOf(e), e.port), k);
  }

  lemma AbsorbOne(n: Node, e: Event)
    ensures AbsorbLive([n], e)
            == if Cancels(n, e) then []
               else if Overwrites(n, e) then [n.(port := e.port)]
               else [n, Node(e.key, OperOf(e), e.port)]
  {
    AnyMergesAppend([], n, e);
    MergeLiveAppend([], n, e);
    assert [] + [n] == [n];
  }

  lemma AbsorbTwo(n: Node, n': Node, e: Event)
    requires Merges(n, e) || Merges(n', e)
    ensures AbsorbLive([n, n'], e)
            == if Cancels(n, e) && Cancels(n', e) then []
               else if Cancels(n, e) then [Merge(n', e)]
               else if Cancels(n', e) then [Merge(n, e)]
               else [Merge(n, e), Merge(n', e)]
  {
    AnyMergesAppend([], n, e);
    AnyMergesAppend([n], n', e);
    MergeLiveAppend([], n, e);
    MergeLiveAppend([n], n', e);
    assert [] + [n] == [n] && [n] + [n'] == [n, n'];
  }

  /** Without a match the event is a third node, and no minimal diff has three. */
  lemma AbsorbTwoUnmerged(n: Node, n': Node, e: Event)
    requires !Merges(n, e) && !Merges(n', e)
    ensures |AbsorbLive([n, n'], e)| == 3
  {
    AnyMergesAppend([], n, e);
    AnyMergesAppend([n], n', e);
    assert [] + [n] == [n] && [n] + [n'] == [n, n'];
  }

  /** The one-key core: at most two live nodes, so merging is a finite case analysis. */
  lemma AbsorbLiveExactIff(e: Event, base: Fdb, cur: Fdb)
    requires !e.eventType.Flushed?
    ensures AbsorbLive(Diff(base, cur, e.key), e) == Diff(base, ApplyEvent(e, cur), e.key)
            <==> Benign(e, base, cur)
  {
    var k := e.key;
    var live := Diff(base, cur, k);
    var port' := if e.eventType.Learned? then Some(e.port) else None;
    assert Lookup(ApplyEvent(e, cur), k) == port';
    match (Lookup(base, k), Lookup(cur, k))
    case (None, None) =>
      assert AbsorbLive([], e) == [Node(k, OperOf(e), e.port)];
    case (None, Some(q)) =>
      AbsorbOne(Node(k, Add, q), e);
    case (Some(p), None) =>
      AbsorbOne(Node(k, Del, p), e);
    case (Some(p), Some(q)) =>
      var del, add := Node(k, Del, p), Node(k, Add, q);
      if p == q {
        assert AbsorbLive([], e) == [Node(k, OperOf(e), e.port)];
      } else if Merges(del, e) || Merges(add, e) {
        AbsorbTwo(del, add, e);
      } else {
        AbsorbTwoUnmerged(del, add, e);
      }
  }

  /**
   Coalescing is exact, and exactly when: from a buffer that is the minimal diff from
   `base` to `cur`, an event that is not dropped leaves the minimal diff to the new FDB
   if and only if the event is benign.
   */
  lemma AbsorbExactIff(nodes: seq<Node>, size: nat, e: Event, base: Fdb, cur: Fdb)
    requires Exact(nodes, base, cur)
    requires !Dropped(nodes, size, e)
    ensures Exact(Absorb(nodes, size, e), base, ApplyEvent(e, cur)) <==> Benign(e, base, cur)
  {
    hide Live, Diff, AbsorbLive, Absorb, ApplyEvent, Benign, Dropped;
    if e.eventType.Flushed? {
      FlushExactIff(nodes, size, e, base, cur);
    } else {
      var after, cur' := Absorb(nodes, size, e), ApplyEvent(e, cur);
      forall k ensures Live(after, k)
                       == if k == e.key then AbsorbLive(Diff(base, cur, k), e) else Diff(base, cur, k)
      {
        LiveAbsorb(nodes, size, e, k);
      }
      AbsorbLiveExactIff(e, base, cur);
      forall k | k != e.key ensures Diff(base, cur', k) == Diff(base, cur, k) {
        DiffElsewhere(e, base, cur, k);
      }
      if Benign(e, base, cur) {
        assert Exact(after, base, cur');
      } else {
        assert Live(after, e.key) != Diff(base, cur', e.key);
      }
    }
  }

  /** A flush leaves no record, so the buffer stays the minimal diff iff the flushed key was absent. */
  lemma FlushExactIff(nodes: seq<Node>, size: nat, e: Event, base: Fdb, cur: Fdb)
    requires Exact(nodes, base, cur) && e.eventType.Flushed?
    ensures Absorb(nodes, size, e) == nodes
    ensures Exact(nodes, base, ApplyEvent(e, cur)) <==> e.key !in cur
    ensures Benign(e, base, cur) <==> e.key !in cur
  {
    if e.key in cur {
      assert Live(nodes, e.key) == Diff(base, cur, e.key) != Diff(base, ApplyEvent(e, cur), e.key);
    } else {
      assert ApplyEvent(e, cur) == cur;
    }
  }

  /**
   A dropped event, whether its port does not resolve or the buffer is full, leaves the buffer
   alone, so the buffer stays the minimal diff iff the event changed nothing.
   */
  lemma DroppedExactIff(nodes: seq<Node>, size: nat, e: Event, base: Fdb, cur: Fdb)
    requires Exact(nodes, base, cur) && Dropped(nodes, size, e)
    ensures Absorb(nodes, size, e) == nodes
    ensures Exact(nodes, base, ApplyEvent(e, cur)) <==> ApplyEvent(e, cur) == cur
  {
    var cur' := ApplyEvent(e, cur);
    if Lookup(cur', e.key) == Lookup(cur, e.key) {
      assert cur' == cur;
    } else {
      assert Live(nodes, e.key) == Diff(base, cur, e.key) != Diff(base, cur', e.key);
    }
  }

  lemma DiffElsewhere(e: Event, base: Fdb, cur: Fdb, k: Key)
    requires k != e.key
    ensures Diff(base, ApplyEvent(e, cur), k) == Diff(base, cur, k)
  {
  }

  /** Every well-formed stream is coalesced exactly, as long as nothing is dropped. */
  function AbsorbStream(nodes: seq<Node>, size: nat, events: seq<Event>): seq<Node> {
    if events == [] then nodes
    else
      var n := |events| - 1;
      Absorb(AbsorbStream(nodes, size, events[..n]), size, events[n])
  }

  function FdbAfter(cur: Fdb, events: seq<Event>): Fdb {
    if events == [] then cur
    else
      var n := |events| - 1;
      ApplyEvent(events[n], FdbAfter(cur, events[..n]))
  }

  ghost predicate CleanStream(nodes: seq<Node>, size: nat, events: seq<Event>, cur: Fdb) {
    forall n :: 0 <= n < |events| ==>
      && WellFormed(events[n], FdbAfter(cur, events[..n]))
      && !Dropped(AbsorbStream(nodes, size, events[..n]), size, events[n])
  }

  lemma {:induction false} StreamIsExact(size: nat, events: seq<Event>, base: Fdb)
    requires CleanStream([], size, events, base)
    ensures Exact(AbsorbStream([], size, events), base, FdbAfter(base, events))
  {
    if events != [] {
      var n := |events| - 1;
      var init := events[..n];
      assert forall i :: 0 <= i < n ==> init[..i] == events[..i];
      StreamIsExact(size, init, base);
      AbsorbExactIff(AbsorbStream([], size, init), size, events[n], base, FdbAfter(base, init));
    }
  }

  /** A move reported without an age event is lost: key at "1" moves to "2", then ages out. */
  lemma MoveWithoutAgeIsNotExact(k: Key)
    ensures var base: Fdb := map[k := "1"];
            var moved := Event(Learned, k, "2");
            var aged := Event(Aged, k, "2");
            && Absorb(Absorb([], 2, moved), 2, aged) != []
            && Live(Absorb(Absorb([], 2, moved), 2, aged), k) == []
            && Diff(base, ApplyEvent(aged, ApplyEvent(moved, base)), k) == [Node(k, Del, "1")]
  {
    var moved, aged := Event(Learned, k, "2"), Event(Aged, k, "2");
    var one := Absorb([], 2, moved);
    assert one == [Node(k, Add, "2")];
    assert Merges(one[0], aged);
    assert Absorb(one, 2, aged) == [Tombstone(one[0])];
    assert [Tombstone(one[0])][..0] == [];
  }

  /** Every node that merges is an ADD that already says what the event says. */
  predicate RepeatsAdd(nodes: seq<Node>, e: Event) {
    && AnyMerges(nodes, e)
    && forall i :: 0 <= i < |nodes| && Merges(nodes[i], e) ==>
         Overwrites(nodes[i], e) && nodes[i].port == e.port
  }

  /**
   Bounded loss, one event: an event with a resolvable port leaves no trace in the buffer
   exactly when the buffer is full and nothing merges, or it repeats an ADD already held.
   */
  lemma NoTraceIff(nodes: seq<Node>, size: nat, e: Event)
    requires !e.eventType.Flushed? && e.port != ""
    ensures Absorb(nodes, size, e) == nodes
            <==> (|nodes| >= size && !AnyMerges(nodes, e)) || RepeatsAdd(nodes, e)
  {
    if AnyMerges(nodes, e) {
      if RepeatsAdd(nodes, e) {
        assert MergeAll(nodes, e) == nodes;
      } else {
        var i :| 0 <= i < |nodes| && Merges(nodes[i], e)
                 && !(Overwrites(nodes[i], e) && nodes[i].port == e.port);
        assert MergeAll(nodes, e)[i] != nodes[i];
      }
    }
  }

  // ------------------------------------------------------------------ replaying a buffer

  /** The consumer's reading of one node. A DEL removes the key only from the port it names. */
  function Patch(n: Node, fdb: Fdb): Fdb {
    match n.oper
    case Add => fdb[n.key := n.port]
    case Del => if Lookup(fdb, n.key) == Some(n.port) then fdb - {n.key} else fdb
    case Undefined => fdb
  }

  function Replay(order: seq<Node>, fdb: Fdb): Fdb {
    if order == [] then fdb
    else Patch(order[|order| - 1], Replay(order[..|order| - 1], fdb))
  }

  lemma ReplayAppend(order: seq<Node>, n: Node, fdb: Fdb)
    ensures Replay(order + [n], fdb) == Patch(n, Replay(order, fdb))
  {
    assert (order + [n])[..|order|] == order;
  }

  /** Key k only sees the nodes of key k. */
  lemma {:induction false} ReplayAtKey(order: seq<Node>, fdb: Fdb, k: Key)
    ensures Lookup(Replay(order, fdb), k) == Lookup(Replay(Live(order, k), fdb), k)
  {
    if order != [] {
      hide Live, Patch, LiveAt;
      var front, last := order[..|order| - 1], order[|order| - 1];
      ReplayAtKey(front, fdb, k);
      assert order == front + [last];
      LiveAppend(front, last, k);
      ReplayAppend(front, last, fdb);
      ReplayAppend(Live(front, k), last, fdb);
      PatchAtKey(last, Replay(front, fdb), Replay(Live(front, k), fdb), k);
    }
  }

  lemma PatchAtKey(n: Node, f: Fdb, g: Fdb, k: Key)
    requires Lookup(f, k) == Lookup(g, k)
    ensures Lookup(Patch(n, f), k) == if LiveAt(n, k) then Lookup(Patch(n, g), k) else Lookup(g, k)
  {
  }

  lemma {:induction false} LiveCount(nodes: seq<Node>, k: Key, n: Node)
    ensures multiset(Live(nodes, k))[n] == if LiveAt(n, k) then multiset(nodes)[n] else 0
  {
    if nodes != [] {
      var front, last := nodes[..|nodes| - 1], nodes[|nodes| - 1];
      LiveCount(front, k, n);
      assert nodes == front + [last];
    }
  }

  lemma LivePermutation(a: seq<Node>, b: seq<Node>, k: Key)
    requires multiset(a) == multiset(b)
    ensures multiset(Live(a, k)) == multiset(Live(b, k))
  {
    forall n ensures multiset(Live(a, k))[n] == multiset(Live(b, k))[n] {
      LiveCount(a, k, n);
      LiveCount(b, k, n);
    }
  }

  /** A permutation of a minimal diff of one key does the same whichever node comes first. */
  lemma ReplayDiff(live: seq<Node>, base: Fdb, cur: Fdb, k: Key)
    requires multiset(live) == multiset(Diff(base, cur, k))
    ensures Lookup(Replay(live, base), k) == Lookup(cur, k)
  {
    var d := Diff(base, cur, k);
    SmallPermutation(live, d);
    ReplayDiffEitherWay(base, cur, k);
  }

  lemma ReplayDiffEitherWay(base: Fdb, cur: Fdb, k: Key)
    ensures var d := Diff(base, cur, k);
            && Lookup(Replay(d, base), k) == Lookup(cur, k)
            && (|d| == 2 ==> Lookup(Replay([d[1], d[0]], base), k) == Lookup(cur, k))
  {
    match (Lookup(base, k), Lookup(cur, k))
    case (None, None) =>
    case (None, Some(q)) =>
      ReplayOne(Node(k, Add, q), base);
    case (Some(p), None) =>
      ReplayOne(Node(k, Del, p), base);
    case (Some(p), Some(q)) =>
      ReplayTwo(Node(k, Del, p), Node(k, Add, q), base);
      ReplayTwo(Node(k, Add, q), Node(k, Del, p), base);
  }

  lemma SmallPermutation<T>(a: seq<T>, b: seq<T>)
    requires multiset(a) == multiset(b) && |b| <= 2
    ensures a == b || (|b| == 2 && a == [b[1], b[0]])
  {
    assert |a| == |multiset(a)| == |b|;
    if |b| == 2 {
      TwoInAnyOrder(a, b);
    } else if |b| == 1 {
      assert a[0] in multiset(b);
    }
  }

  lemma ReplayOne(n: Node, fdb: Fdb)
    ensures Replay([n], fdb) == Patch(n, fdb)
  {
    ReplayAppend([], n, fdb);
    assert [] + [n] == [n];
  }

  lemma ReplayTwo(n: Node, n': Node, fdb: Fdb)
    ensures Replay([n, n'], fdb) == Patch(n', Patch(n, fdb))
  {
    ReplayOne(n, fdb);
    ReplayAppend([n], n', fdb);
    assert [n] + [n'] == [n, n'];
  }

  lemma TwoInAnyOrder<T>(a: seq<T>, b: seq<T>)
    requires |a| == |b| == 2 && multiset(a) == multiset(b)
    ensures a == [b[0], b[1]] || a == [b[1], b[0]]
  {
    assert a == [a[0], a[1]] && b == [b[0], b[1]];
    assert multiset(a) - multiset{a[0]} == multiset{a[1]};
    assert a[0] in multiset(b);
    if a[0] == b[0] {
      assert multiset(b) - multiset{b[0]} == multiset{b[1]};
      assert a[1] in multiset{b[1]};
    } else {
      assert multiset(b) - multiset{b[1]} == multiset{b[0]};
      assert a[1] in multiset{b[0]};
    }
  }

  /**
   A buffer that is the minimal diff, read back in any order (the hash table gives no
   order), takes the FDB at the time the buffer was opened to the FDB it was closed at.
   */
  lemma ReplayIsExact(nodes: seq<Node>, order: seq<Node>, base: Fdb, cur: Fdb)
    requires Exact(nodes, base, cur)
    requires multiset(order) == multiset(nodes)
    ensures Replay(order, base) == cur
  {
    var got := Replay(order, base);
    forall k ensures Lookup(got, k) == Lookup(cur, k) {
      ReplayAtKey(order, base, k);
      LivePermutation(order, nodes, k);
      ReplayDiff(Live(order, k), base, cur, k);
    }
    SameLookups(got, cur);
  }
}
