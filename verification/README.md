# OpenSwitch SAI plugin: state that must agree with the switch

The plugin turns OpenSwitch configuration into SAI calls. Most of it passes values on, but in
four places it keeps software state of its own that has to agree, step by step, with something
simpler: the forwarding database, the hardware routes, the declared VLANs, the access lists.
This project models those four places and proves the agreement, or says exactly when the code
loses it.

Each part has a specification on values, lemmas about it, and a class (`MacLearner`,
`RouteTables`, `VlanManager`, `BundleManager`, `MirrorManager`, `AclConverters`, `AclManager`)
whose methods follow the C functions branch by branch, loop by loop, updating fields in place,
and are proved against the specification. SAI is a small abstract switch: maps and sets of what
has been created. Its calls succeed with handles never used before, except where a failure is a
parameter (VLAN calls on a VLAN that does not exist when the switch is `strict`; writing,
binding and unbinding an access list, `Hw`).

**MAC learning** (`MacCoalescing`, `MacRing`, `MacDelivery`, `MacLearner`). A buffer of learn and age events is
a diff between two states of the forwarding database. An event that undoes a recorded one leaves
a tombstone, an add over an add moves it, anything else is appended while there is room. The
buffers form a ring of twenty, shared by the ASIC callback, a timer, the flush path and a
consumer. Each section under the mutex, and the callback's test outside it, is one atomic step
of a transition system, and the theorems are about every interleaving.

**Routes, next hops, neighbors** (`RouteState`, `RouteProofs`, `RouteTheorems`, `RouteLeaks`,
`RouteOrigins`, `RouteRequests`, `RouteExamples`, `RouteTables`). A route record overlays
interface references and remote next hops; next hops are shared with neighbors by reference
count; a prefix moves between an interface, one next hop and an ECMP group. A step is a relation between states,
because handles are fresh and a local record's `rstate` and `nh_ecmp` start uninitialised. Callers owe what `Legal` says: distinct next hops,
non-empty additions, and counts that fit in `uint8_t`. `Tidy` is the exact condition under which
such an operation keeps the invariant, and `IsRun` a run of legal, tidy ones (`IsTrace` only
legal).

**VLANs, bundles, mirrors** (`VlanPort`, `VlanTable`, `VlanRequests`, `VlanBundle`,
`VlanRefusals`, `PortVlans`, `BundlePorts`, `BundleFlushes`, `BundleFailures`, `MirrorState`,
`MirrorProofs`, `MirrorEffects` and the managers). `Declared` says which VLANs, and with which
tagging, a port should have under its settings; reconfiguration works incrementally with bitmap
algebra and per-port calls and must arrive there. `WellFormed` settings name a VLAN in every
mode but trunk, and give access mode no trunks.

**Access lists** (`AclBits`, `AclEntries`, `AclTranslation`, `AclConverters`, `AclResources`,
`AclTheorems`, `AclAccounting`, `AclIndexes`, `AclManager`). Sixteen converters mutate one match; rules get
descending priorities; tables are admitted against a global resource count, with a credit for
the table being replaced.

## What the code does not keep

Where a property fails the exact condition is given, and an input or a run from the initial
state wherever the condition alone does not show one.

- A move reported as a second learn, without the age event between, is mishandled by
  cancellation when the key was known before the buffer was opened (`MoveWithoutAgeIsNotExact`,
  `AbsorbExactIff`).
- The callback ignores FLUSHED events, although the plugin itself asks for flushes: a key that
  the switch dropped in one stays with the consumer (`FlushExactIff`, `FlushIsNotSeen`).
- An addition that overlaps a route's next hops without being contained in them leaves the early
  exit with the record changed and the hardware not (`CoherentIffTidy`, `OverlapRun`). A
  withdrawal also releases next hops the route does not have, from under whoever has them
  (`CoherentIffTidy`, `ForeignWithdrawalRun`).
- Withdrawing the last next hops of a route no interface refers to returns before the release
  loop, and creating a neighbor the hardware already has takes a reference that no removal gives
  back: either way references leak (`ExactIffNoLeak`, `EarlyReturnRun`, `RepeatedNeighborRun`).
  Withdrawing a whole ECMP set at once leaves its hardware group behind (`GroupsIffNoLeak`,
  `GroupRun`).
- An interface route whose overlay is withdrawn goes to the default interface, not to the one it
  was added with (`InterfaceIff`, `RestoredInterfaceRun`).
- Removing a trunk resets the PVID and its untagging even when the native VLAN stays (`PvidIff`,
  `PvidUntagIff`, `BundlePvidIff`); a port that enters a trunk keeps whatever PVID it had
  (`EnterBundlePvidIff`, `AttachPvidIff`).
- A port that enters a bundle gets the filters of its mode, as reconfiguration gives them, only
  if the trunk bitmap is there or not as the mode needs it: an access port with a bitmap, even an
  empty one, does not drop tagged frames, a native-untagged port without one drops them, and a
  trunk port without one keeps its old filters (`EnterBundleFiltersIff`, `AttachFiltersIff`).
- Not every port that loses a VLAN has what was learnt on it flushed. A call that fails skips the
  flushing, a port that leaves the bundle is itself never flushed, and when a LAG loses only
  trunks its member ports are flushed, while its addresses are learnt under the handle of the LAG
  (`LossFlushedIff`, `LossCoveredIff`, `FailureIsNotFlushed`, `DepartureIsNotFlushed`,
  `LagTrunkIsNotFlushed`). A stolen port is flushed only on its way from a bundle that is no LAG
  into one that is (`StolenCoveredIff`).
- A port that joins a native-untagged bundle whose native VLAN is among the trunks ends with it
  tagged (`EnterBundleIff`), and a refused native-tagged VLAN is reported as success
  (`AttachGenuineIff`, `RefusedNativeIsNotReported`).
- A port is taken from its old bundle without a look at the outcome: a reconciliation reports
  success although VLANs of the old bundle were refused and stay recorded on the port
  (`ReconciliationIff`, `CleanStealsIff`, `DirtyStealIsNotReported`). When such a VLAN is created
  again, the port is put into it and its PVID overridden (`StaleVlanReturns`); creating a VLAN
  makes it the PVID of every untagged member recorded for it (`CreateSetsPvid`).
- Destroying a bundle whose configuration is cached skips the mirror cleanup, so whatever still
  referred to the bundle dangles (`DestroyBundleIff`, `CachedDestroyRun`).
- `__table_assign_index` has no `break`: the first table takes every slot, later ones share
  index 0, and destroying one of them clears the charge of the others (`StepFaithfulIff`,
  `SharedIndexLosesCharge`). Its comment promises one index per table. A write that fails gives
  back one slot and keeps the others it took (`FailedWriteLeaves`).
- A reconfiguration that is refused while adding has taken the old VLANs from every port of the
  bundle, which keeps its old settings (`RefusedReconfiguration`, `RefusedKeepsSettings`).
- The credit of `__replace` also lowers the rule count, so a list of more than 512 entries can
  pass the first check and be refused after the old table is gone (`TornDownIff`,
  `LongListTearsDown`); on an L3-only interface the credit is given although nothing is freed
  (`RefusedLateIff`, `CreditedInVain`).
- The destination address converters test the family of the source; an ICMP field overwrites the
  port it shares a slot with; not-equal is written as zero under the mask `~port`, which matches
  the port itself (`ExactIff`, `DestinationIgnored`).

## Model

| member | source | states |
|---|---|---|
| MacCoalescing.AbsorbLiveExactIff | src/sai-mac-learning.c:170-247 | At the event's own key, merging into the minimal diff gives the minimal diff to the new FDB iff the event is benign |
| MacCoalescing.AbsorbExactIff | src/sai-mac-learning.c:135-248 | A buffer that is the minimal diff stays the minimal diff at every key after an event that is not dropped, iff the event is benign; the flush of a key that is there is not |
| MacCoalescing.FlushExactIff | src/sai-mac-learning.c:350-352 | A flush leaves no record, so the buffer stays the minimal diff iff the flushed key was absent |
| MacCoalescing.DroppedExactIff | src/sai-mac-learning.c:154-162 | An event whose port does not resolve, or that finds the buffer full, leaves the buffer alone, so it stays the minimal diff iff the event changed nothing |
| MacCoalescing.TombstoneIsInert | src/sai-mac-learning.c:176-200 | A tombstone has a VLAN no event has, so nothing matches it even by key, and replaying it does nothing |
| MacCoalescing.StreamIsExact | src/sai-mac-learning.c:135-248 | After every well-formed event stream without a drop the live nodes are the minimal diff between the FDB at opening and now |
| MacCoalescing.MoveWithoutAgeIsNotExact | src/sai-mac-learning.c:170-198 | A move without an age event followed by an age event leaves nothing, although the key is gone from its first port |
| MacCoalescing.NoTraceIff | src/sai-mac-learning.c:226-247 | An event with a resolvable port leaves no trace iff the buffer is full and nothing merges, or it repeats an ADD already held |
| MacCoalescing.MergesAreLive | src/sai-mac-learning.c:170-224 | An event merges with some node iff it merges with a live node of its own key; tombstones never match |
| MacCoalescing.ReplayIsExact | src/sai-mac-learning.c:420-448 | Applying a minimal diff in any order takes the FDB at opening to the FDB at closing |
| MacRing.StepInv | src/sai-mac-learning.c:281-362 | Every atomic step of callback, timer, flush path and consumer keeps the ring and diff invariants |
| MacRing.FullAndEmpty | src/sai-mac-learning.c:58-60 | The macros agree with the counts: empty means nothing unread, full means MAX_BUFFERS - 1 unread |
| MacRing.EndToEndReplay | src/sai-mac-learning.c:281-448 | On every interleaving each hand-out is the next published buffer, once and unchanged; after well-formed events for which the ring had room, or any that were all benign and recorded, the consumer then holds the FDB of its publication |
| MacRing.DrainedConsumerIsCurrent | src/sai-mac-learning.c:420-448 | On an empty ring, under the same condition, the consumer holds the FDB of the last publication, and the present FDB when nothing is pending |
| MacRing.RingSafety | src/sai-mac-learning.c:281-306 | In every run at most MAX_BUFFERS - 1 buffers are unread, each non-empty and unchanged since publication |
| MacRing.HandoutSurvives | src/sai-mac-learning.c:420-448 | A buffer handed out with d unread is intact for MAX_BUFFERS - 1 - d more rotations, and the next one makes it current |
| MacRing.RotationClears | src/sai-mac-learning.c:281-306 | The bound is tight: that rotation clears the slot |
| MacRing.NoEventIsLost | src/sai-mac-learning.c:313-362 | With the plugin present and the ring never full when a buffer fills, no event with a resolvable port is lost on any interleaving |
| MacRing.WellBehavedIsClean | src/sai-mac-learning.c:313-362 | With the plugin, room in the ring and well-formed events, so no flush of a present key, every event of the run was benign and recorded |
| MacRing.CallbackTurnIsDeliver | src/sai-mac-learning.c:322-361 | The callback's three atomic steps, uninterrupted, are one turn of its loop |
| MacRing.RunAndConsumeAreCalls | src/sai-mac-learning.c:281-448 | The steps of timer, flush path and consumer are the run and hand-out calls; on an empty ring a hand-out moves nothing |
| MacDelivery.NotificationIsDeliver | src/sai-mac-learning.c:313-362 | For a whole notification, the callback taking its steps for each event in turn ends waiting, with the ring as delivering the notification leaves it |
| MacDelivery.DeliverAppend | src/sai-mac-learning.c:322-361 | Delivering a notification in two parts is delivering it at once, fullness being tested after every event |
| MacDelivery.NotificationLosesNothing | src/sai-mac-learning.c:313-362 | A notification of at most as many events as places are left in the current buffer and the buffers the ring can rotate into loses none |
| MacRing.WithoutPluginEventsAreLost | src/sai-mac-learning.c:283-305 | Without the plugin nothing rotates and a full buffer drops what does not merge |
| MacRing.FlushIsNotSeen | src/sai-mac-learning.c:313-362 | A key is learnt, published, consumed and flushed: nothing is unread or pending, and the consumer still holds it |
| MacLearner.MlearnHmap.Clear | src/sai-mac-learning.c:256-263 | The buffer is empty afterwards and stays well formed |
| MacLearner.MlearnHmap.EntryAdd | src/sai-mac-learning.c:135-248 | The in-place merge loop does what absorbing an event means, and actual_size stays the hash count, at most size |
| MacLearner.MacLearning.constructor | src/sai-mac-learning.c:462-487 | An empty ring |
| MacLearner.MacLearning.Run | src/sai-mac-learning.c:281-306 | Publishes a non-empty current buffer iff the plugin is there and the ring has room |
| MacLearner.MacLearning.RecordEvent | src/sai-mac-learning.c:324-353 | Absorbs the event into the current buffer and no other |
| MacLearner.MacLearning.FdbEventCb | src/sai-mac-learning.c:313-362 | The loop over a notification is the recorded deliveries with a rotation after each one that fills the buffer |
| MacLearner.MacLearning.GetHmap | src/sai-mac-learning.c:420-448 | Hands out the oldest published buffer by reference, with its contents, and advances by one |
| RouteTheorems.StepInv | src/sai-route.c:930-1379 | Every legal, tidy operation keeps table, reference, group and route invariants together |
| RouteTheorems.CoherentIffTidy | src/sai-route.c:1084-1182 | Records and hardware stay coherent iff an addition's next hops are all new to the route or all held already, and a withdrawal that reaches its release loop releases no reference that others count on |
| RouteTheorems.OverlapBreaks | src/sai-route.c:1084-1090 | A partly overlapping addition leaves the record with a next hop its hardware target lacks |
| RouteTheorems.HardwareRefinesRoutes | src/sai-route.c:930-1379 | In every state of every run the hardware prefixes are the records, each to an interface (which one InterfaceIff says), its next hop, or its own group of exactly its next hops |
| RouteTheorems.NoDanglingNextHop | src/sai-route.c:80-124 | In every run each next hop a route or neighbor uses is in the table, counted at least that often, and live in hardware under its handle |
| RouteTheorems.RemovedNextHopIsUnused | src/sai-route.c:251-320 | A hardware next hop that an operation removes is used by no route and no neighbor afterwards |
| RouteTheorems.StableHandle | src/sai-route.c:80-124 | A next hop that stays in the table keeps its handle |
| RouteLeaks.ExactIffNoLeak | src/sai-route.c:1159-1182 | Counts stay equal to the routes and hardware neighbors that use each next hop iff the early return of a withdrawal is not taken and no neighbor is created that the hardware already has |
| RouteLeaks.ExactCounts | src/sai-route.c:1159-1182 | On runs that do neither every count is exact |
| RouteLeaks.GroupsIffNoLeak | src/sai-route.c:1134-1182 | No hardware group is left ownerless iff no withdrawal takes a whole ECMP set at once |
| RouteLeaks.ExactGroups | src/sai-route.c:616-690 | On runs without such withdrawals every hardware group is some route's |
| RouteLeaks.CreatesExactIff | src/sai-route.c:1159-1182 | Counts stay equal to holders plus neighbor creates not undone iff the early return is not taken |
| RouteLeaks.NoRepeatsIff | src/sai-neighbor.c:37-157 | Each create not undone keeps its own hardware neighbor iff no neighbor is created that is there |
| RouteOrigins.InterfaceOf | src/sai-route.c:930-1182 | In every run a record without next hops goes to the interface of the addition that made it, or to the default one once a withdrawal has emptied it |
| RouteOrigins.InterfaceIff | src/sai-route.c:1153-1158 | An interface route goes to the interface it was added with iff it was never emptied by a withdrawal, or that interface is the default one |
| RouteExamples.OverlapRun | src/sai-route.c:1084-1090 | Adding a, then a and b: the record has both, the hardware forwards to a alone, and b is unknown |
| RouteExamples.EarlyReturnRun | src/sai-route.c:1159-1164 | Adding and withdrawing one next hop leaves it counted and in hardware, used by nobody |
| RouteExamples.GroupRun | src/sai-route.c:1134-1164 | Adding two next hops and withdrawing them together leaves their group in hardware |
| RouteExamples.RepeatedNeighborRun | src/sai-neighbor.c:83-100 | A neighbor created twice and removed once leaves a counted next hop that no further removal releases |
| RouteExamples.ForeignWithdrawalRun | src/sai-route.c:1172-1182 | A route that withdraws the next hop of another takes it out of table and hardware while the other still forwards to it |
| RouteExamples.RestoredInterfaceRun | src/sai-route.c:1153-1158 | An interface route overlaid and uncovered again goes to the default interface |
| RouteTheorems.RunInv | src/sai-route.c:930-1379 | The invariants hold in every state of every run mixing routes and neighbors |
| RouteRequests.StepServes | src/sai-route.c:930-1379 | Every legal call, tidy or not, changes next hops, interface references and neighbors to exactly what was asked, and no other record or hardware prefix |
| RouteRequests.TableIsRequested | src/sai-route.c:930-1379 | On every trace the route table and the hardware neighbors are a function of the calls |
| RouteRequests.HardwareIsRequested | src/sai-route.c:930-1379 | On every run the hardware forwards exactly the prefixes asked for, each to exactly the next hops asked for, or to an interface when there are none |
| RouteProofs.RemoteAddInv | src/sai-route.c:972-1127 | Adding next hops, to nothing, to an interface route or to a remote one, keeps the invariants |
| RouteProofs.RemoteNhRemoveInv | src/sai-route.c:1128-1182 | Withdrawing next hops, down to one or to none, held by the route or not, keeps the invariants when no reference of others is released |
| RouteProofs.ShrunkHeld | src/sai-route.c:1134-1158 | On record and hardware a withdrawal acts as if only the next hops the route has were listed |
| RouteProofs.ForeignRelease | src/sai-route.c:1172-1182 | Releasing a next hop of others that is not counted more often than it is used breaks the reference invariant |
| RouteProofs.RouteRemoveInv | src/sai-route.c:1341-1379 | Removing a reference or the whole record keeps the invariants |
| RouteProofs.LocalAddInv | src/sai-route.c:1234-1259 | Adding an interface reference keeps the invariants |
| RouteProofs.NeighborCreateInv | src/sai-neighbor.c:37-101 | Creating a neighbor keeps the invariants |
| RouteProofs.NeighborRemoveInv | src/sai-neighbor.c:113-157 | Removing a neighbor, present or not, keeps the invariants |
| RouteProofs.HandlesMinus | src/sai-route.c:709-725 | Removing the members of withdrawn next hops leaves exactly the handles of the others |
| RouteTables.Tables.NexthopAdd | src/sai-route.c:80-102 | Counts a known next hop once more, or enters a new one with count one |
| RouteTables.Tables.AcquireHop | src/sai-route.c:994-1005 | One more reference on the next hop, created in hardware only when it was missing |
| RouteTables.Tables.ReleaseHop | src/sai-route.c:1172-1182 | One reference less; the last one removes the hardware next hop and only then |
| RouteTables.Tables.GroupAdd | src/sai-route.c:616-672 | A fresh group whose members are exactly the handles of the route's next hops, which fit the array of SAI_NEXT_HOP_MAX handles that is filled |
| RouteTables.Tables.GroupAddMembers | src/sai-route.c:693-706 | The group gains exactly the handles of the added next hops |
| RouteTables.Tables.GroupDelMembers | src/sai-route.c:709-725 | The group loses exactly the handles of the withdrawn next hops |
| RouteTables.Tables.RecordAdd | src/sai-route.c:446-472 | The record gains the next hops it lacked, counted modulo the width of n_nexthops, and reports whether any was there |
| RouteTables.Tables.RecordDelete | src/sai-route.c:446-472 | The record loses the next hops and the count goes down by as many |
| RouteTables.Tables.SettleRecord | src/sai-route.c:1210-1216 | The ECMP state follows the count, and a record with at most one next hop forgets its group |
| RouteTables.Tables.InstallHops | src/sai-route.c:1036-1082 | First next hops become the hardware target, directly or through a new group |
| RouteTables.Tables.GrowHops | src/sai-route.c:1092-1125 | More next hops turn a single one into a new group or enter the existing group |
| RouteTables.Tables.RemoteAdd | src/sai-route.c:1273-1301 | Takes the specified addition step on records, references and hardware, and keeps the invariant iff the addition is tidy |
| RouteTables.Tables.RetargetToOnly | src/sai-route.c:1136-1152 | The one next hop left becomes the target and the group the route had is deleted |
| RouteTables.Tables.Withdraw | src/sai-route.c:1134-1170 | For any list, held or not, returns early iff no next hop and no interface is left; otherwise record and hardware shrink as specified |
| RouteTables.Tables.RemoteNhRemove | src/sai-route.c:1315-1327 | Takes the specified withdrawal step: target, group members and references shrink together, or the early return; the invariant is kept iff the withdrawal is tidy |
| RouteTables.Tables.RouteRemove | src/sai-route.c:1341-1379 | Drops an interface reference, or the record with its prefix, group and next-hop references; the invariant is kept |
| RouteTables.Tables.LocalAdd | src/sai-route.c:1234-1259 | Counts one more interface reference, or installs an interface route; the invariant is kept |
| RouteTables.Tables.NeighborCreate | src/sai-neighbor.c:37-101 | Takes a reference on the shared next hop and records the hardware neighbor; the invariant is kept |
| RouteTables.Tables.NeighborRemove | src/sai-neighbor.c:113-157 | Gives the reference back, or changes nothing when the hardware neighbor is not there; the invariant is kept |
| VlanPort.ReconfigureDeclares | src/sai-ofproto-provider.c:1165-1337 | For all sixteen mode pairs, any VLANs and bitmaps, a port with the old declared VLANs ends with the new ones |
| VlanPort.ReconfigureMatches | src/sai-ofproto-provider.c:1165-1337 | So do its ingress and acceptance filters |
| VlanPort.RemovedTrunksMeaning | src/sai-ofproto-provider.c:1176-1209 | The bitmap algebra yields the old trunks that are no longer trunks, without the old native VLAN |
| VlanPort.AddedTrunksMeaning | src/sai-ofproto-provider.c:1176-1209 | The bitmap algebra yields the new trunks that were not trunks, and the old native VLAN if it is one now, without the new native VLAN |
| VlanPort.PvidIff | src/sai-vlan.c:311-320 | The PVID is the declared one iff no trunk was lost under an unchanged native VLAN other than the default |
| VlanPort.PvidUntagIff | src/sai-vlan.c:346-352 | The PVID untagging is the declared one iff no trunk was lost under unchanged native-tagged settings |
| VlanPort.LostVlanIsFlushed | src/sai-ofproto-provider.c:1316-1329 | A VLAN is lost only under the code's condition for flushing |
| VlanPort.EnterBundleIff | src/sai-ofproto-provider.c:875-931 | A joining port gets exactly the declared VLANs unless a native-untagged VLAN is also a trunk |
| VlanPort.EnterBundlePvidIff | src/sai-ofproto-provider.c:875-931 | A joining port gets the PVID of the settings iff they name a VLAN or it had the default one, and likewise the untagging |
| VlanPort.EnterBundleFiltersIff | src/sai-ofproto-provider.c:875-931 | A joining port gets the filters of its mode iff an access bundle has no trunk bitmap, a native-untagged one has one, and a trunk one has one or the filters were right before |
| VlanPort.ExitBundleLeavesNothing | src/sai-ofproto-provider.c:937-997 | A leaving port keeps no VLAN of the bundle and gets the default PVID back |
| VlanPort.ExitBundleResets | src/sai-ofproto-provider.c:937-997 | Leaving opens the filters and resets PVID and untagging when the settings have anything to remove, and changes no attribute otherwise |
| VlanTable.AccessPort | src/sai-vlan.c:127-178 | Access calls act on one port only, succeed iff the switch accepts the VLAN, and keep the shadow |
| VlanTable.TrunksPort | src/sai-vlan.c:187-232 | Trunk calls do the same over a bitmap, and succeed iff every trunk is accepted |
| VlanTable.NativeTaggedPort | src/sai-ofproto-provider.c:1140-1158 | The native-tagged call does the same |
| VlanTable.TrunkSetReaches | src/sai-vlan.c:335-357 | A trunk loop adds or removes exactly the trunks before the first one refused |
| VlanTable.TrunkSetOk | src/sai-vlan.c:335-357 | The bitmap loop succeeds iff the switch accepts every trunk in it |
| VlanTable.RefusedCall | src/sai-vlan.c:127-178 | A refused access or native-tagged call changes nothing |
| VlanTable.CreateRestores | src/sai-vlan.c:241-269 | Creating a VLAN by replay, in any order, gives it exactly its recorded members, and makes it the PVID of the untagged ones |
| VlanTable.CreateSetsPvid | src/sai-vlan.c:260-320 | Creation overrides the PVID of exactly the recorded untagged members, whatever it is by then, and no other attribute |
| VlanTable.CreateJoinsRecorded | src/sai-vlan.c:260-265 | Creation puts a port recorded as a member into the VLAN in hardware, with the recorded tagging, and into no other |
| VlanTable.HardwareIsRecorded | src/sai-vlan.c:281-324 | While the shadow is right a port has in hardware exactly the recorded VLANs that exist there |
| VlanTable.RemoveThenCreate | src/sai-vlan.c:241-269 | Removing a VLAN and creating it again restores hardware and record, and all attributes but the PVID of untagged members, which becomes the VLAN |
| VlanTable.ShadowOverRuns | src/sai-vlan.c:241-324 | After every sequence of VLAN and member operations each hardware VLAN has exactly the recorded members |
| VlanRequests.RemoveTakesAway | src/sai-vlan.c:241-269 | Removal takes the VLAN from every port in hardware, leaves records, attributes and other VLANs alone, and a strict switch then refuses its members |
| VlanRequests.IntfCreateOnlyCreates | src/sai-vlan.c:88-109 | The interface call creates and replays a missing VLAN, and does nothing to one that exists |
| VlanRequests.TableIsRequested | src/sai-vlan.c:241-324 | In every run a VLAN exists iff the last call that created or removed it created it, and records for each port what the last accepted call asked |
| VlanRequests.HardwareIsRequested | src/sai-vlan.c:241-324 | So the VLANs a port has in hardware are a function of the calls |
| VlanBundle.VlanReconfigurePort | src/sai-ofproto-provider.c:1165-1337 | Reconfiguration of a bundle takes each of its ports to the one-port reconfiguration, so to the new declared VLANs, and touches no other; the shadow holds even on failure |
| VlanBundle.BundlePvidIff | src/sai-vlan.c:311-352 | On every port of the bundle PVID and untagging are the declared ones iff no trunk was lost under an unchanged native VLAN |
| VlanBundle.LeavePortsOkIff | src/sai-ofproto-provider.c:1211-1260 | The removal phase succeeds iff there is no port or the switch accepts the old VLAN, when it goes, and every removed trunk |
| VlanBundle.JoinPortsOkIff | src/sai-ofproto-provider.c:1262-1314 | The addition phase succeeds iff there is no port or the switch accepts the new VLAN, when it comes, and every added trunk |
| VlanBundle.VlanReconfigureOkIff | src/sai-ofproto-provider.c:1165-1337 | The reconfiguration succeeds iff there is no port or both hold |
| VlanRefusals.RefusedReconfiguration | src/sai-ofproto-provider.c:1165-1337 | A refused reconfiguration stops at the first port: while removing, no other port has changed; while adding, all have left and no other has joined |
| VlanRefusals.LeaveOneAt | src/sai-ofproto-provider.c:1211-1260 | Which VLANs a port has after its removal calls, refused or not |
| VlanRefusals.JoinOneAt | src/sai-ofproto-provider.c:1262-1314 | Which VLANs a port has after its addition calls, refused or not |
| VlanBundle.LossFlushedIff | src/sai-ofproto-provider.c:1165-1337 | When a reconfiguration, failed or not, takes a VLAN from a port, what was learnt there is flushed iff every call was accepted and, for a LAG, mode or VLAN changed |
| PortVlans.DetachPort | src/sai-ofproto-provider.c:937-997 | Removing a port's VLANs does what leaving the bundle means, to that port only |
| PortVlans.DetachOkIff | src/sai-ofproto-provider.c:937-997 | Removing a port's VLANs succeeds iff the switch accepts every VLAN the settings declare |
| PortVlans.DetachLeaves | src/sai-ofproto-provider.c:937-997 | Whatever the outcome, a port with the declared VLANs keeps all of them when the native or access VLAN is refused, else the trunks from the first refused one on |
| PortVlans.NothingLeftIff | src/sai-ofproto-provider.c:937-997 | It keeps none iff none of them is refused |
| PortVlans.DetachConfined | src/sai-ofproto-provider.c:937-997 | No other port changes, even on failure |
| PortVlans.AttachPort | src/sai-ofproto-provider.c:875-931 | Adding a port's VLANs does what entering means, provided an unreported native refusal did not happen |
| PortVlans.AttachConfined | src/sai-ofproto-provider.c:875-931 | No other port changes, even on failure |
| PortVlans.AttachGenuineIff | src/sai-ofproto-provider.c:895-913 | A reported success means that the port entered the bundle iff the native-tagged VLAN was not refused or was on the port already |
| PortVlans.AttachDeclaresIff | src/sai-ofproto-provider.c:875-931 | After a reported success the port has the declared VLANs iff what it had before fits |
| PortVlans.AttachPvidIff | src/sai-ofproto-provider.c:895-931 | After a reported success the PVID is the declared one iff an accepted VLAN set it or it was that before |
| PortVlans.AttachFiltersIff | src/sai-ofproto-provider.c:895-931 | The same of the filters after a reported success, refused native VLANs included |
| PortVlans.AttachOkIff | src/sai-ofproto-provider.c:895-931 | Adding a port succeeds iff the switch accepts every VLAN, except a native-tagged one whose status a trunk call overwrites |
| PortVlans.AttachLeavesAt | src/sai-ofproto-provider.c:895-913 | Which VLANs a port has after joining, whether that succeeded, failed, or only said so |
| PortVlans.FitsWhenAccepted | src/sai-ofproto-provider.c:875-931 | When no VLAN of the settings is refused, what was left fits iff nothing was left and no native-untagged VLAN is a trunk |
| PortVlans.RefusedNativeIsNotReported | src/sai-ofproto-provider.c:895-913 | On a switch without VLAN 5, joining with native-tagged 5 is reported as success and leaves the port without it |
| BundlePorts.PortDelFrees | src/sai-ofproto-provider.c:937-997 | A cleanly removed port has no VLAN left and nobody else changed |
| BundlePorts.PortAddReconciledIff | src/sai-ofproto-provider.c:875-931 | After a reported success every port, this one stolen or not, is at its bundle's declared VLANs iff what its old bundle left on it fits |
| BundlePorts.BundleRemoveIff | src/sai-ofproto-provider.c:2372-2396 | Taking a port out of its bundle, and the bundle with its last port, succeeds, and leaves every port right, iff no VLAN of the bundle is refused |
| BundlePorts.ReconfigureKeepsLinks | src/sai-ofproto-provider.c:1340-1401 | Whatever call fails, port lists and owners agree and the shadow holds |
| BundlePorts.SlavesAreMembers | src/sai-ofproto-provider.c:1340-1401 | After success the bundle's ports are exactly the slaves and departed ports are free |
| BundlePorts.ReconciliationIff | src/sai-ofproto-provider.c:1340-1401 | After a reported success every port is at its bundle's declared VLANs iff what taking the new slaves from other bundles leaves on them fits; then slaves have the new ones and departed ports none |
| BundlePorts.CleanStealsIff | src/sai-ofproto-provider.c:884-887 | With settings the switch accepts, that is: iff it accepts every VLAN of the bundles that slaves are taken from and nobody joins with its native-untagged VLAN among the trunks |
| BundlePorts.LenientReconciliation | src/sai-ofproto-provider.c:1340-1401 | On a switch that refuses nothing a reconciliation always succeeds and is right, that clash apart |
| BundlePorts.DirtyStealIsNotReported | src/sai-ofproto-provider.c:884-887 | A port of an Access 5 bundle joins an Access 7 bundle on a switch without VLAN 5: success is reported with both VLANs recorded on the port |
| BundlePorts.StaleVlanReturns | src/sai-vlan.c:241-269 | That port is in VLAN 7 alone in hardware; once VLAN 5 is created it is in both and its PVID goes from 7 to 5 |
| BundlePorts.HardwareReconciled | src/sai-ofproto-provider.c:1340-1401 | In a reconciled net every port has in hardware its bundle's VLANs as far as they exist there |
| BundleFailures.ReconciliationOkIff | src/sai-ofproto-provider.c:1340-1401 | A reconciliation succeeds iff it gets through the first two stages and, if a port arrives, the new settings are accepted but for a status that is overwritten |
| BundleFailures.DepartureStops | src/sai-ofproto-provider.c:1354-1368 | A failed first loop has removed exactly the first port that departs |
| BundleFailures.ArrivalStops | src/sai-ofproto-provider.c:1373-1391 | A failed last loop has added exactly the first slave that was missing |
| BundleFailures.RefusedKeepsSettings | src/sai-ofproto-provider.c:1165-1337 | A refused reconfiguration leaves settings, membership and flushes alone |
| BundleFailures.EmptiedBundleGoes | src/sai-ofproto-provider.c:2372-2396 | A bundle is destroyed with its last port, and else keeps settings, LAG and its other ports |
| BundleFlushes.LossCoveredIff | src/sai-ofproto-provider.c:1340-1401 | When a reconciliation, failed or not, takes a VLAN from a port of the bundle, what was learnt there is flushed iff it got through the reconfiguration and mode or VLAN of the LAG changed or, without a LAG, the port stays |
| BundleFlushes.ReconciliationFlushes | src/sai-ofproto-provider.c:1316-1391 | Which addresses of the bundle a reconciliation has flushed when it ends, in terms of settings, ports, slaves and accepted VLANs alone |
| BundleFlushes.DelDepartedOkIff | src/sai-ofproto-provider.c:1354-1368 | The first loop succeeds iff no port departs or the switch accepts every VLAN of the bundle, and it flushes nothing |
| BundleFlushes.StolenCoveredIff | src/sai-ofproto-provider.c:884-927 | What was learnt on a stolen port is flushed iff its old bundle is no LAG, its new one is, and the calls that end the addition were accepted |
| BundleFlushes.FailureIsNotFlushed | src/sai-ofproto-provider.c:1262-1333 | Access 5 to Access 7 on a switch without VLAN 7: failure, VLAN 5 off the port, nothing flushed |
| BundleFlushes.DepartureIsNotFlushed | src/sai-ofproto-provider.c:937-997 | A port leaves an Access 5 bundle: success, VLAN 5 off the port, nothing flushed |
| BundleFlushes.LagTrunkIsNotFlushed | src/sai-ofproto-provider.c:1325-1329 | A LAG loses one of two trunks: success, and no flush of the LAG |
| VlanManager.Vlans.constructor | src/sai-vlan.c:76-85 | No VLAN, no member, shadow in agreement |
| VlanManager.Vlans.FindCreate | src/sai-vlan.c:34-62 | Finds the port's one entry, or adds one when asked to, leaving all other VLANs alone |
| VlanManager.Vlans.RecordMember | src/sai-vlan.c:299-309 | The list edit is the update of the recorded member map, with one entry per port |
| VlanManager.Vlans.VlanPortSet | src/sai-vlan.c:281-324 | Shadow, hardware membership and PVID change as specified, and the status is the switch's |
| VlanManager.Vlans.TrunksPortSet | src/sai-vlan.c:335-357 | The bit-by-bit loop is the specified one, stopping at the first failure |
| VlanManager.Vlans.AccessPortAdd | src/sai-vlan.c:127-144 | The imperative call equals the specified one, which AccessPort shows to make the VLAN untagged on this port only |
| VlanManager.Vlans.AccessPortDel | src/sai-vlan.c:153-178 | The imperative call equals the specified one: this port alone loses the VLAN and gets the default PVID back |
| VlanManager.Vlans.TrunksPortAdd | src/sai-vlan.c:187-205 | The bitmap loop and the filters after it equal the specified call: every trunk tagged on this port, or a failure |
| VlanManager.Vlans.TrunksPortDel | src/sai-vlan.c:214-232 | The same for removal, with the filters opened again |
| VlanManager.Vlans.NativeTaggedVlanSet | src/sai-ofproto-provider.c:1140-1158 | A one-bit bitmap goes through the trunk calls and the PVID follows, as NativeTaggedPort shows |
| VlanManager.Vlans.ReplayMembers | src/sai-vlan.c:260-265 | Replays every recorded member, each exactly once, in some order |
| VlanManager.Vlans.VlanSet | src/sai-vlan.c:241-269 | Creation replays the record, removal takes the VLAN out of hardware and keeps the record, and the shadow holds either way |
| VlanManager.Vlans.VlanIntfUpdate | src/sai-vlan.c:88-109 | Only ever creates, and then as VlanSet does |
| BundleManager.Bundles.TrunkBitmaps | src/sai-ofproto-provider.c:1176-1209 | The edits of the static bitmaps leave the specified removed and added trunks |
| BundleManager.Bundles.LeavePort | src/sai-ofproto-provider.c:1211-1260 | For each old mode the calls on one port equal the specified removal, so the port keeps only VLANs common to both settings |
| BundleManager.Bundles.JoinPort | src/sai-ofproto-provider.c:1262-1314 | For each new mode the calls on one port equal the specified addition, native taking precedence over trunk |
| BundleManager.Bundles.VlanReconfigureBundle | src/sai-ofproto-provider.c:1165-1337 | Loops, early exits, stored settings and the flushes issued equal the specified reconfiguration |
| BundleManager.Bundles.DelPort | src/sai-ofproto-provider.c:937-997 | The port leaves list and owner even when a VLAN call fails, and the failure is returned |
| BundleManager.Bundles.RemoveFromBundle | src/sai-ofproto-provider.c:2372-2396 | The same, and a bundle left without ports is destroyed |
| BundleManager.Bundles.AddPort | src/sai-ofproto-provider.c:875-931 | The port is taken from the bundle it was in, listed, and given the VLAN calls of the mode; the status hides what the code hides |
| BundleManager.Bundles.RemoveDeparted | src/sai-ofproto-provider.c:1354-1368 | The first loop removes exactly the ports that are no slaves, until a call fails |
| BundleManager.Bundles.AddSlaves | src/sai-ofproto-provider.c:1373-1391 | The last loop adds exactly the slaves that are missing, until a call fails |
| BundleManager.Bundles.ReconfigurePorts | src/sai-ofproto-provider.c:1340-1401 | Departures, reconfiguration and arrivals in this order, each stopping the rest on failure |
| MirrorProofs.ListedIffOwned | src/sai-ofproto-provider.c:3279-3483 | A bundle is in a mirror's list in a direction iff the mirror is its owner there |
| MirrorProofs.AddSourcesMeaning | src/sai-ofproto-provider.c:3443-3480 | A source loop succeeds iff every source is free or already this mirror's, and then owns exactly those besides what it owned |
| MirrorProofs.SetMirrorMeaning | src/sai-ofproto-provider.c:3400-3483 | Setting a mirror succeeds iff every source is available in its direction, and then output and sources are exactly the requested ones |
| MirrorProofs.SetMirrorInv | src/sai-ofproto-provider.c:3400-3483 | Ownership survives setting a mirror, an EBUSY return included |
| MirrorProofs.DestroyMirrorsInv | src/sai-ofproto-provider.c:3325-3376 | Destroying mirrors leaves no owner or list node behind |
| MirrorProofs.DestroyBundleIff | src/sai-ofproto-provider.c:2024-2117 | Destroying a bundle leaves nothing dangling iff it is not cached, or not freed, or unreferenced |
| MirrorEffects.DestroyBundleEffect | src/sai-ofproto-provider.c:2024-2117 | A mirror goes iff it sends to a bundle with the same aux; survivors lose only this bundle, and other bundles keep their owner iff it survives |
| MirrorEffects.DestroyCachedEffect | src/sai-ofproto-provider.c:2035-2117 | With a cached configuration only the bundle itself may go |
| MirrorEffects.DisableThenEnable | src/sai-ofproto-provider.c:322-411 | A disabled bundle is referred to by nothing and caches; enabling undoes only the caching |
| MirrorEffects.DestroyMirrorEffect | src/sai-ofproto-provider.c:3325-3376 | Destroying a mirror frees exactly its sources and leaves the other mirrors as they are |
| MirrorEffects.SetMirrorOthers | src/sai-ofproto-provider.c:3400-3483 | Setting a mirror, refused or not, leaves every other mirror as it is |
| MirrorEffects.AddSourcesStops | src/sai-ofproto-provider.c:3443-3480 | A refused source loop has linked exactly the sources before the first that was not available |
| MirrorEffects.AddSourcesAppends | src/sai-ofproto-provider.c:3443-3480 | A source loop only appends to the list |
| MirrorProofs.CachedDestroyRun | src/sai-ofproto-provider.c:2024-2117 | A bundle is created, disabled, made a mirror output and destroyed: the output dangles |
| MirrorProofs.OwnershipOverRuns | src/sai-ofproto-provider.c:322-3483 | Ownership holds after every sequence of mirror and bundle operations, caching turned on and off included, that destroys no cached bundle still referred to |
| MirrorProofs.WithCacheInv | src/sai-ofproto-provider.c:354-407 | Turning the cache flag on or off does not touch ownership |
| MirrorManager.Mirrors.OfmirrorLookup | src/sai-ofproto-provider.c:3382-3397 | Finds the one mirror of the bridge with that aux, or none when there is none |
| MirrorManager.Mirrors.OfmirrorCreate | src/sai-ofproto-provider.c:3279-3319 | A new mirror with empty lists |
| MirrorManager.Mirrors.OfmirrorDestroy | src/sai-ofproto-provider.c:3325-3376 | Frees exactly what the mirror owned, and the mirror itself when asked to |
| MirrorManager.Mirrors.TakeSources | src/sai-ofproto-provider.c:3443-3480 | The loop with its EBUSY exit keeps the links made before the refusal |
| MirrorManager.Mirrors.MirrorSet | src/sai-ofproto-provider.c:3400-3483 | Lookup, replacement or clearing, and both source loops, as specified, with ownership kept |
| MirrorManager.Mirrors.BundleDestroy | src/sai-ofproto-provider.c:2048-2078 | The bundle leaves both lists and every mirror sending to it goes; ownership holds iff the cached case does not bite |
| MirrorManager.Mirrors.BundleDisable | src/sai-ofproto-provider.c:381-411 | Clears the configuration as destruction does, then sets the cache flag; the bundle stays and ownership holds |
| MirrorManager.Mirrors.BundleEnable | src/sai-ofproto-provider.c:322-371 | Clears the cache flag and nothing else of what mirrors see |
| MirrorManager.Mirrors.SweepMirrors | src/sai-ofproto-provider.c:2072-2078 | The sweep over every bridge destroys exactly the mirrors that send to a bundle with that aux |
| AclTranslation.ExactIff | src/sai-classifier.c:146-404 | A translated match covers the packets its entry matches iff families agree where it matters and port and ICMP operators do not clash |
| AclTranslation.InexactMeaning | src/sai-classifier.c:146-404 | Every other range-free entry is told apart from its rule by a packet that is given |
| AclTranslation.DestinationIgnored | src/sai-classifier.c:165-182 | With no source family an IPv4 destination constrains nothing |
| AclTranslation.CoversMeaning | src/sai-classifier.c:146-404 | For any entry, exact or not, the packets its match covers: both addresses by the source family, ICMP over port, not-equal as the ports without a foreign bit |
| AclTranslation.BlankIff | src/sai-classifier.c:538-592 | An entry without actions is left blank; any other has its verdict, and counts iff it logs or counts |
| AclTranslation.RuleMeaning | src/sai-classifier.c:538-592 | Rule k covers what entry k matches, with priority 512 - k and the entry's verdict, permit over deny |
| AclTranslation.FirstMatchKept | src/sai-classifier.c:538-592 | The covering rule of highest priority is the translation of the first matching entry and gives its verdict |
| AclTranslation.NoneKept | src/sai-classifier.c:538-592 | Some rule wins iff some entry matches |
| AclConverters.OfMatch.SrcIpv4 | src/sai-classifier.c:146-163 | Writes the IPv4 source slot iff the flag is set and the source family is IPv4 |
| AclConverters.OfMatch.DstIpv4 | src/sai-classifier.c:165-182 | Writes the IPv4 destination slot by the source's family |
| AclConverters.OfMatch.SrcIpv6 | src/sai-classifier.c:184-201 | Writes the IPv6 source slot iff the flag is set and the source family is IPv6 |
| AclConverters.OfMatch.DstIpv6 | src/sai-classifier.c:203-220 | Writes the IPv6 destination slot by the source's family |
| AclConverters.OfMatch.SrcL4Port | src/sai-classifier.c:249-272 | Equal and not-equal operators write the source port slot, others leave it |
| AclConverters.OfMatch.DstL4Port | src/sai-classifier.c:274-297 | Equal and not-equal operators write the destination port slot, others leave it |
| AclConverters.OfMatch.IcmpCode | src/sai-classifier.c:237-247 | Overwrites the destination port slot |
| AclConverters.OfMatch.IcmpType | src/sai-classifier.c:299-309 | Overwrites the source port slot |
| AclConverters.OfMatch.Dscp | src/sai-classifier.c:311-325 | On an open slot the bitwise edits leave exactly the entry's value and mask |
| AclConverters.AclEntryToRule | src/sai-classifier.c:538-592 | The sixteen converters in order and the action flags produce the closed form of the rule |
| AclTheorems.AdmittedIff | src/sai-classifier.c:605-656 | The entry-by-entry check accepts a list iff the whole list fits the limits, and plans exactly its need |
| AclTheorems.RefusedIsFirst | src/sai-classifier.c:826-837 | The entry a refusal reports is the first one with which the list no longer fits |
| AclTheorems.StepInv | src/sai-classifier.c:802-1025 | Apply, remove and replace conserve: each global field is the sum over all indexes, nothing negative, limits kept, whatever fails |
| AclTheorems.RunInv | src/sai-classifier.c:802-1025 | Conservation in every state of every run |
| AclTheorems.RefusalChangesNothing | src/sai-classifier.c:826-1025 | A refusal in the first pass, an unknown list and a failed unbinding, in a removal or a replacement, change nothing |
| AclTheorems.SecondPassIff | src/sai-classifier.c:945-1000 | After an accepted first pass the second accepts iff the list has at most 512 entries and the credit was really freed, given or not needed |
| AclTheorems.RefusedLateIff | src/sai-classifier.c:912-1025 | When a replacement by a list not yet installed is refused after unbinding, in terms of the state before |
| AclTheorems.RefusedLateInstalledIff | src/sai-classifier.c:945-1000 | For an installed list only replacing a table by itself can be refused late, and exactly when |
| AclTheorems.ReplaceSucceedsIff | src/sai-classifier.c:912-1025 | On a switch that does what it is asked a replacement succeeds iff the list fits once the old table is gone, or beside it when it stays |
| AclTheorems.ReplaceAdmissionSuffices | src/sai-classifier.c:945-1000 | At most 512 entries on a port that is not L3-only: never refused after the first pass accepted |
| AclTheorems.TornDownIff | src/sai-classifier.c:912-1025 | The old table is destroyed for a list then refused iff its last interface unbinds and the list exceeds 512 within the credit |
| AclTheorems.AppliedRules | src/sai-classifier.c:802-864 | Applying a new list installs exactly its translation iff it fits and writing succeeds, and otherwise leaves all tables alone |
| AclTheorems.AppliedListKeepsFirstMatch | src/sai-classifier.c:802-864 | The rules installed by an apply give every packet the verdict of the first matching entry |
| AclAccounting.AssignedIndex | src/sai-classifier.c:410-434 | The index assigned is the last free slot, and 0 when there is none |
| AclAccounting.NextTableGetsZero | src/sai-classifier.c:410-434 | Of two tables written one after the other the second has index 0 |
| AclAccounting.ApplyThenRemove | src/sai-classifier.c:802-910 | Removing a list just applied restores the tables, and the usage iff its index was unused before |
| AclAccounting.RebindThenRemove | src/sai-classifier.c:802-910 | For an installed list applying and removing cancel iff some interface held it before |
| AclIndexes.RemovedFreesIndex | src/sai-classifier.c:436-687 | A removal that destroys a table frees its index and touches no other slot |
| AclIndexes.NextIsFreedIff | src/sai-classifier.c:410-434 | A freed index is assigned next iff no higher one is free |
| AclIndexes.RemovedIndexIsReused | src/sai-classifier.c:802-910 | A list applied after another was applied and removed gets the index that one had |
| AclIndexes.FailedWriteLeaves | src/sai-classifier.c:731-800 | A failed write frees the index it was assigned, which is next, and leaves every other slot it took |
| AclIndexes.OnlyNamedChange | src/sai-classifier.c:802-1025 | Whatever happens, tables an operation does not name stay as they are |
| AclIndexes.ApplyEffect | src/sai-classifier.c:802-864 | When applying succeeds, which table is then there, and its bindings |
| AclIndexes.RemoveEffect | src/sai-classifier.c:866-910 | When removing succeeds, one binding less, and the table gone when it was the last |
| AclIndexes.ReplaceEffect | src/sai-classifier.c:912-1025 | A successful replacement takes one binding from the old table and leaves the new list installed with one more |
| AclAccounting.TableNeedOfList | src/sai-classifier.c:689-702 | What an installed table needs is what its list was charged |
| AclAccounting.DestroyFaithfulIff | src/sai-classifier.c:658-687 | Clearing an index leaves the charges right iff no other table with rules has it |
| AclAccounting.StepFaithfulIff | src/sai-classifier.c:802-1025 | One operation keeps every index charged with its tables' needs iff it destroys no table that shares its index |
| AclAccounting.FaithfulRun | src/sai-classifier.c:802-1025 | Charges are right over every run that never does |
| AclAccounting.CountersSuffice | src/sai-classifier.c:624-631 | While they are, installed counting rules number at most ACL_COUNTERS_MAX |
| AclAccounting.SharedIndexLosesCharge | src/sai-classifier.c:410-445 | Three applies and a removal leave a table installed and charged nothing |
| AclAccounting.LongListTearsDown | src/sai-classifier.c:912-1025 | A list of 513 replaces a table of one rule by nothing |
| AclAccounting.CreditedInVain | src/sai-classifier.c:912-1025 | On an L3-only interface a full table is replaced by as full a list: credited, found still there, refused late |
| AclManager.Classifier.TableAssignIndex | src/sai-classifier.c:410-434 | The loop without a break fills every free slot and returns the last |
| AclManager.Classifier.CheckRuleResources | src/sai-classifier.c:605-656 | The increments with their four early returns equal the specified check, None standing for refusal |
| AclManager.Classifier.CheckResources | src/sai-classifier.c:826-837 | The loop plans the need of the list, or stops at the entry that RefusedIsFirst characterises |
| AclManager.Classifier.UpdateResourceUsage | src/sai-classifier.c:689-702 | Global use and the index's use grow by the same amount, other indexes not |
| AclManager.Classifier.ClearTableResources | src/sai-classifier.c:658-668 | Global use falls by the index's use, which becomes zero |
| AclManager.Classifier.WriteTable | src/sai-classifier.c:731-800 | A written table holds the translation of its list; a failed write gives back only its index |
| AclManager.Classifier.TableDestroyIfNeeded | src/sai-classifier.c:670-687 | An unbound table goes with its index's usage, a bound one stays |
| AclManager.Classifier.ApplyList | src/sai-classifier.c:802-864 | Database and status are those of the specified apply, whatever the switch answers, and conservation is kept |
| AclManager.Classifier.RemoveList | src/sai-classifier.c:866-910 | Database and status are those of the specified remove, and conservation is kept |
| AclManager.Classifier.ReplaceList | src/sai-classifier.c:912-1025 | Credit, first pass, detaching and second pass give the specified database and status, and conservation is kept |

## Left out

- Calls into SAI, OVS and the plugin registry, logging, sysfs and dumps; only the abstract effects named above remain.
- Hash functions and hash-node layout: hash maps are maps, sets or sequences keyed as the code compares keys. A mirror's node is kept as far as "links to itself".
- MAC learning: the buffer size is a parameter (mac-learning-plugin.h is not part of this model); a flush of many entries is one FLUSHED event for each; the timer's delay computation and its reads of a buffer's fill level, which only choose a sleep; the registration trigger; the consumer's own code, for which applying the nodes as a diff stands in.
- MacRing.EndToEndReplay: the consumer's reading of a buffer is one step with its hand-out; how long a slower reader is safe is what HandoutSurvives says.
- Routes: one virtual router, parsed prefixes, the ip-to-me /32 entries, the router interface a next hop is created on, and the flag that a route was hit.
- Routes: the reference count of a next hop is unbounded where the code has an unsigned integer, and a NULL list of next hops is modelled only where route removal passes it.
- Neighbors: caching of MAC addresses, IPv6 refusal and hit bits.
- Bundles: LAG membership, transmit LAG lists, sFlow, router interfaces, IP addresses, renaming and the cached copy of a configuration.
- Mirrors: the source sets and statistics of the hardware mirror session. `__mirror_set` uses the looked-up source bundle unchecked, so sources are given resolved. Enabling a bundle also restores its cached configuration, which is left out with the rest of `__bundle_set`.
- Classifier: `__list_update`, statistics, the log callback; each table's own bridge object is the `Hw` parameter.
- AclTranslation.ExactIff: entries whose port operator is a range, which admission refuses, are excluded; the metadata annotations and cookie of a rule are not kept; VLAN ids are twelve bits wide and the special value for untagged packets is not modelled; the library's match setters are taken to write the value under its mask.
- AclTranslation.FirstMatchKept: entries without any action become rules as they were allocated, and what the switch does with those is not modelled.
- Thin wrappers and small allocators: ports, host interfaces, policers, STP, LAG and hash settings.
