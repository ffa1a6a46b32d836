/**
 The imperative MAC-learning code: buffers of nodes edited in place, a hash table of node
 positions, and the ring indices. Every method is proved against the functions of
 MacCoalescing and MacRing, whose properties are proved there.
 */
module MacLearner {
  import opened Options
  import opened MacCoalescing
  import opened MacRing

  /** struct mlearn_hmap: a fixed buffer of nodes and a hash table that links those in use. */
  class MlearnHmap {
    const nodes: array<Node>
    var actualSize: nat
    var table: seq<nat>  // buffer positions of the nodes linked into the hash table

    /** The hash table links exactly the buffer positions in use. */
    ghost predicate Valid()
      reads this
    {
      && actualSize <= nodes.Length
      && table == seq(actualSize, i => i)
    }

    ghost function Contents(): (s: seq<Node>)
      requires Valid()
      reads this, nodes
    {
      nodes[..actualSize]
    }

    constructor (size: nat)
      ensures Valid() && fresh(this.nodes) && this.nodes.Length == size && Contents() == []
    {
      nodes := new Node[size](_ => Node(Key(0, 0), Add, ""));
      actualSize := 0;
      table := [];
    }

    /** sai_mac_learning_clear_hmap */
    method Clear()
      requires Valid()
      modifies this
      ensures Valid() && Contents() == []
    {
      actualSize := 0;
      table := [];
    }

    /** sai_mac_learning_entry_add, its event and port name already looked up. */
    method EntryAdd(e: Event)
      requires Valid() && !e.eventType.Flushed?
      modifies this, nodes
      ensures Valid()
      ensures Contents() == Absorb(old(Contents()), nodes.Length, e)
      ensures |table| == |Contents()| <= nodes.Length
    {
      if e.port == "" {
        return;
      }
      var found := false;
      ghost var before := Contents();
      for i := 0 to |table|
        invariant Valid() && actualSize == |before| == |table|
        invariant forall j :: 0 <= j < i ==> nodes[j] == Merge(before[j], e)
        invariant forall j :: i <= j < actualSize ==> nodes[j] == before[j]
        invariant found <==> exists j :: 0 <= j < i && Merges(before[j], e)
      {
        var p := table[i];
        var entry := nodes[p];
        if entry.key == e.key {
          if e.eventType.Learned? && entry.oper.Del? {
            if e.port == entry.port {
              nodes[p] := entry.(oper := Undefined, key := entry.key.(vlan := TOMBSTONE_VLAN));
              found := true;
            }
          } else if e.eventType.Aged? && entry.oper.Add? {
            if e.port == entry.port {
              nodes[p] := entry.(oper := Undefined, key := entry.key.(vlan := TOMBSTONE_VLAN));
              found := true;
            }
          } else if e.eventType.Learned? && entry.oper.Add? {
            nodes[p] := entry.(port := e.port);
            found := true;
          }
        }
      }
      assert Contents() == MergeAll(before, e);
      if !found {
        assert Contents() == before;
        if actualSize < nodes.Length {
          nodes[actualSize] := Node(e.key, if e.eventType.Learned? then Add else Del, e.port);
          table := table + [actualSize];
          actualSize := actualSize + 1;
          assert Contents() == before + [Node(e.key, OperOf(e), e.port)];
        }
      }
    }
  }

  /** The file's globals: all_macs_learnt, the two indices, and whether the plugin is there. */
  class MacLearning {
    const hmaps: seq<MlearnHmap>
    const size: nat
    var current: nat
    var read: nat
    var plugin: bool

    ghost const Repr: set<object>

    ghost predicate Valid()
      reads this, Repr
    {
      && |hmaps| == MAX_BUFFERS && current < MAX_BUFFERS && read < MAX_BUFFERS
      && this !in Repr
      && (forall i :: 0 <= i < MAX_BUFFERS ==>
            hmaps[i] in Repr && hmaps[i].nodes in Repr
            && hmaps[i].nodes.Length == size && hmaps[i].Valid())
      && (forall i, j :: 0 <= i < j < MAX_BUFFERS ==>
            hmaps[i] != hmaps[j] && hmaps[i].nodes != hmaps[j].nodes)
    }

    ghost function Abs(): (r: Ring)
      requires Valid()
      reads this, Repr
      ensures RingValid(r)
    {
      Ring(seq(MAX_BUFFERS, i requires 0 <= i < MAX_BUFFERS reads this, Repr requires Valid() => hmaps[i].Contents()),
           current, read)
    }

    /** sai_mac_learning_init */
    constructor (size: nat, plugin: bool)
      ensures Valid() && fresh(Repr) && this.size == size && this.plugin == plugin
      ensures Abs() == Init().ring
    {
      this.size, this.plugin, current, read := size, plugin, 0, 0;
      var hs: seq<MlearnHmap> := [];
      ghost var repr: set<object> := {};
      while |hs| < MAX_BUFFERS
        invariant |hs| <= MAX_BUFFERS
        invariant fresh(repr)
        invariant forall i :: 0 <= i < |hs| ==>
          hs[i] in repr && hs[i].nodes in repr
          && hs[i].nodes.Length == size && hs[i].Valid() && hs[i].Contents() == []
        invariant forall i, j :: 0 <= i < j < |hs| ==> hs[i] != hs[j] && hs[i].nodes != hs[j].nodes
      {
        var h := new MlearnHmap(size);
        hs := hs + [h];
        repr := repr + {h, h.nodes};
      }
      hmaps := hs;
      Repr := repr;
    }

    /** sai_mac_learning_run */
    method Run()
      requires Valid()
      modifies this, Repr
      ensures Valid() && plugin == old(plugin)
      ensures Abs() == Rotate(old(Abs()), plugin)
    {
      ghost var before := Abs();
      if plugin {
        if |hmaps[current].table| != 0 {
          assert before.slots[current] != [];
          if (current + 1) % MAX_BUFFERS != read {
            current := (current + 1) % MAX_BUFFERS;
            hmaps[current].Clear();
            assert Abs().slots == before.slots[current := []];
          }
        }
      }
    }

    /** The locked section of the callback for one event. */
    method RecordEvent(e: Event)
      requires Valid()
      modifies this, Repr
      ensures Valid() && plugin == old(plugin)
      ensures Abs() == Record(old(Abs()), size, e)
    {
      ghost var before := Abs();
      if !e.eventType.Flushed? {
        hmaps[current].EntryAdd(e);
      }
      assert Abs().slots == before.slots[current := Absorb(before.slots[current], size, e)];
    }

    /** sai_mac_learning_fdb_event_cb, when no other thread runs in between. */
    method FdbEventCb(data: seq<Event>)
      requires Valid()
      modifies this, Repr
      ensures Valid() && plugin == old(plugin)
      ensures Abs() == Deliver(old(Abs()), size, plugin, data)
    {
      for i := 0 to |data|
        invariant Valid() && plugin == old(plugin)
        invariant Abs() == Deliver(old(Abs()), size, plugin, data[..i])
      {
        assert data[..i + 1][..i] == data[..i];
        RecordEvent(data[i]);
        if hmaps[current].actualSize == size {
          Run();
        }
      }
      assert data[..|data|] == data;
    }

    /** sai_mac_learning_get_hmap; a NULL out-pointer is None. */
    method GetHmap() returns (mhmap: Option<MlearnHmap>)
      requires Valid()
      modifies this
      ensures Valid() && plugin == old(plugin)
      ensures Abs() == MacRing.Fetch(old(Abs()))
      ensures mhmap.Some? <==> !IsEmpty(old(Abs())) && old(Abs()).slots[old(read)] != []
      ensures mhmap.Some? ==> mhmap.value == hmaps[old(read)]
      ensures mhmap.Some? ==> mhmap.value.Valid() && mhmap.value.Contents() == old(Abs()).slots[old(read)]
    {
      mhmap := None;
      if read == current {
        return;
      }
      if |hmaps[read].table| != 0 {
        mhmap := Some(hmaps[read]);
      }
      read := (read + 1) % MAX_BUFFERS;
    }
  }
}
