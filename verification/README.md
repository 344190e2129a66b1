# Models of the user manager, init, and the intrusive lists

A Dafny model of four parts of the repository, with proofs about them.

**The user manager (`app/umd`).** A client is a user in state none, bind, fake, auth
or block, with LAN and WAN byte counters, quotas, idle aging and online-time limits.
`UmdModel` gives each transition of `user.c` and `flow.c` as a function on an account:
the user record and the log of its events and charged packets so far. `UmdTable` is
the program's own form: user nodes with mutable fields, in two arrays of buckets,
with every command, packet and timer visit as a method proved to do to its MAC what
the model says. `UmdHistory` reads a log without looking at the transitions;
`UmdSafety` has the invariant and its preservation by every step, `UmdRuns`,
`UmdQuota` and `UmdTimer` what follows for all runs. `UmdManual` is a second account of
the same steps, a table of what each does to what shows of a user, which events it
tells and why; `UmdTold` has that all steps and runs keep to it, and `UmdClocks` which
limits and times a command sets.
`UmdFlow` is the pipeline of packet stages with its counters, and the table by which
each direction of traffic is charged.

**The action list of busybox init (`busybox/init/init.c`).** `InitModel` has reload as
an operation on a sequence of entries, with its closed form for lines that fit their
buffers. `InitReload`, `InitQueue` and `InitClosed` treat any lines: the entries of a
key are a queue, which gives what a reload leaves, in which order, with which processes,
when a key is left twice, and when the closed form holds. `InitList` is the singly
linked list edited through a pointer to a link, proved against it. `InitRun` is the
supervisor: forks, waits, `run_actions` and the events of the main loop, with the
kernel as environment; `InitForks` says which entries a run starts and waits for;
`InitDaemon` are the loops of `init_main` over the list.

**The intrusive lists (`app/natlog/hash_list.h`).** `ListHead` are the circular lists:
a ring is a head, a sequence of nodes, and next and prev pointers that lead once
around and back. `Hlist` are the hash chains, whose nodes hold the address of the
cell that holds them.

**Their clients.** `NatlogModel` and `Natlog` are natlog: records in memory, the hash
over their bytes, the two readers and the loop that lists what the first file does not
have. `Sinetd` is the registry of running processes of sinetd, a list that refines a
map from pid to start time.

## What turned out otherwise

- LAN quota: an auth loads LAN maxima without restarting the LAN counters, so it can
  leave an authorised user over a LAN maximum (`LanQuotaBrokenByAuth`), over an up or
  down maximum until its next packet in that direction, which alone tests it; exactly
  when is `LanQuotaAtAuth`, and `LanQuotaKept` shows that no other step does it. The WAN quota is safe in every reachable state.
- Warning before cut-off: the threshold `max * numerator / denominator` wraps in its
  unsigned type. `ThresholdInRange` says when it lies in 1..max. For every other choice
  of numbers, for up, down or all, there is a run that is cut off without a warning:
  `UnfitQuotaHasRun` gives it in frames that fit the receive buffer,
  `UnfitTimeCutsUnwarned` in online time.
- init: a fork that fails leaves -1 in the pid, which no later run takes for idle, so
  that the entry is not started again until a reload drops it (`FailedForever`, and
  `RefusedOnce` for a history from the start). After `run_actions` all entries to be
  respawned have a child exactly when no such failure is left and the kernel has a pid
  for each that is idle (`AllRunning`).
- init: a reload that drops a key forgets its process (`ProcAfterReload`). Strings
  longer than their buffers are stored cut short and never match again
  (`OnlyFittingLinesMatch`): such a line always adds an entry, so that one given twice
  is there twice if its type lives (`CutLineTwice`), and loading it again forgets its process and starts
  it a second time (`CutLineRestarts`). A reload leaves no key twice exactly when for
  each key at most one lives of the last kinds it was given, as many as it has entries
  (`ReloadDistinct`), and keeps the processes whose places have a kind that lives
  (`ReloadProcs`). The closed form of a reload holds for exactly the tables where of
  these kinds only the last lives, in the place of the process (`ReloadIsClosed`).
- umd: a frame from the LAN to a user is given the direction from the LAN to the device
  (`app/umd/flow.c:343-344`), so that it goes to a device counter and is charged to
  nobody (`LanToUserIsLost`); the handler for LAN to user is never reached.
- natlog: the arguments of the two `memset` calls are the wrong way round
  (`natlog.c:260` and `:324` fill zero bytes), so the bytes behind the texts are what
  `malloc` returned and the hash depends on them. `OutputIsDifference` says exactly
  when the output is the difference, and `ZeroFilledDifference` that zero-filled memory
  is enough. The output is right whatever the memory held exactly when no shared record
  leaves a byte of one of its arrays unused (`RightForAllMemory`).
- `list_cut_position` on an empty list returns before it makes the other list empty,
  although its comment promises a new list; `ListCutPosition` states it so.
- `hlist_move_list` from a head to itself loses the list (`HlistMoveList`).

## Assumptions

- The hash library, which is not part of this model, puts a node into the bucket its
  key selects when it is added, takes it from the same bucket, and scans the bucket of
  a query. A bucket is a set, so the order of a chain is not known.
- Clocks, the answer of the address script, which MACs are the device's, the kernel's
  pids and failed forks, the order of the waits, and the bytes in allocated memory are
  parameters, and every statement is for all of them. So is whether there is memory for
  a new user; without it a step that needs a new user does nothing.
- The connection table of umd is off, as it is by default (`app/umd/umd.h:30-32`).

## Model

| member | source | states |
|---|---|---|
| UmdHistory.BytesSplit | app/umd/flow.c:883-896 | in any log the bytes counted for both directions together are those counted up plus those counted down |
| UmdHistory.WanWithinLan | app/umd/flow.c:883-896 | in any log the WAN bytes since their last reset are at most the LAN bytes since theirs, for each direction, because WAN restarts whenever LAN does |
| UmdSafety.CreateGood | app/umd/user.c:612-633 | a new user satisfies the whole invariant |
| UmdSafety.DeauthCore | app/umd/user.c:636-657 | a deauth keeps log, counters, address and group in agreement |
| UmdSafety.UnfakeCore | app/umd/user.c:660-680 | an unfake keeps log, counters, address and group in agreement |
| UmdSafety.UnbindGood | app/umd/user.c:683-709 | an unbind from any bound state ends in none through the right events, and restores the whole invariant from its core even halfway through another step |
| UmdSafety.BlockGood | app/umd/user.c:712-735 | a block ends in block from every state, with the invariant intact |
| UmdSafety.UnblockGood | app/umd/user.c:738-756 | an unblock keeps the invariant; that it unblocks is `UmdEffects.UnblockFrees` |
| UmdSafety.BindGood | app/umd/user.c:759-793 | a bind keeps the invariant and leaves every user bound that is not blocked, also when it must first leave another address; that it is the given address is `UmdEffects.BindAddress` |
| UmdSafety.FakeGood | app/umd/user.c:796-825 | a fake keeps the invariant, also with a new address |
| UmdSafety.ReauthGood | app/umd/user.c:828-847 | a reauth, which only logs, keeps the invariant |
| UmdSafety.AuthGood | app/umd/user.c:850-891 | an auth keeps the invariant, also from none through a bind; the new WAN maxima hold because the WAN counters restart after they are loaded |
| UmdSafety.CutWanGood | app/umd/flow.c:868-880 | checking only the packet's own direction and all is enough to keep every WAN quota |
| UmdSafety.ChargeGood | app/umd/flow.c:899-931 | charging, warning, cutting off and renewing the aging keep the invariant |
| UmdSafety.AgeGood | app/umd/user.c:1528-1541 | aging keeps 0 < aging <= idle or unbinds |
| UmdSafety.TickGood | app/umd/user.c:1777-1799 | a timer visit keeps the invariant, deletion included |
| UmdSafety.ApplyGood | app/umd/user.c:1071-1117 | every command, packet and timer visit keeps the invariant of a MAC |
| UmdSafety.RunGood | app/umd/user.c:594-891 | the invariant holds after every sequence of steps |
| UmdTold.StepKeeps | app/umd/user.c:594-1117 | every command, packet and timer visit leaves the state, address and group that the table says, and tells the script and the accounting exactly the entries of the table, in order, each with the face it shows and the reason it gives |
| UmdTold.RunKeeps | app/umd/user.c:594-1117 | the whole log of any run is the table's telling of it, step by step |
| UmdManual.BindKeeps | app/umd/user.c:759-793 | a bind from any state but block ends in bind at the given address, through the end of an old binding at another; at the address already held nothing happens |
| UmdManual.FakeKeeps | app/umd/user.c:796-825 | a fake from any state but block ends in fake at the given address, through the end of an old binding at another; at the address already held nothing happens |
| UmdManual.AuthKeeps | app/umd/user.c:850-891 | an auth ends authorised in the command's group, at the address of the binding or, from none, at that of the script |
| UmdManual.BlockKeeps | app/umd/user.c:712-735 | a block ends in block at no address, through the end of a binding, and gives blocking as the reason throughout |
| UmdTold.UnblockReturns | app/umd/user.c:738-756 | after any run that ends blocked an unblock ends in none, and a bind after that ends bound at its address |
| UmdClocks.CommandTimes | app/umd/user.c:352-433 | every command sets the times of a user, of making, fake, last use and of both types' ups and downs, as the table says, and no others |
| UmdClocks.PacketRenews | app/umd/flow.c:899-931 | a packet marks the time of its user, and renews the aging of both types for a user that it leaves bound |
| UmdClocks.AuthFollows | app/umd/user.c:122-135 | an authorisation starts with every limit of its command and full aging, WAN from zero and LAN from what it has counted |
| UmdClocks.BindRestarts | app/umd/user.c:352-378 | a bind or fake from none starts both types from zero, with the configured idle time and full aging |
| UmdEffects.BindAddress | app/umd/user.c:759-793 | for every account that is not blocked a bind leaves the user at the given address, changing nothing if it is bound there already |
| UmdEffects.FakeAddress | app/umd/user.c:796-825 | for every account that is not blocked a fake leaves the user at the given address, changing nothing if it is bound there already |
| UmdEffects.AuthAddress | app/umd/user.c:850-891 | for every account an auth ends authorised in the command's group at the right address, or changes nothing |
| UmdEffects.UnblockFrees | app/umd/user.c:738-756 | for every account an unblock takes block to none, tells that once, and changes nothing else |
| UmdRuns.LogDeterminesState | app/umd/user.c:594-891 | replaying the events of any run gives exactly the user's state, and no event was out of turn in the state left by the earlier ones |
| UmdRuns.WanQuotaSafe | app/umd/flow.c:841-931 | in every reachable state an authorised user is within each non-zero WAN maximum, for up, down and all |
| UmdRuns.BytesConserved | app/umd/flow.c:882-931 | in every reachable state each counter is the bytes charged since its last reset, all is up plus down, and WAN is within LAN |
| UmdRuns.StateCoherent | app/umd/user.c:635-891 | in runs whose bind and fake addresses are not zero the address is zero exactly in none and block, and a group means auth |
| UmdRuns.CoherentUnlessBoundToZero | app/umd/user.c:759-825 | in any run the address tells the state exactly unless a user is bound to address zero |
| UmdRuns.LanQuotaAfterPacket | app/umd/flow.c:860-880 | after a packet a bound user is in none or within the LAN maxima for the packet's direction and all |
| UmdRuns.LanQuotaKept | app/umd/flow.c:899-931 | no step but an auth takes a bound user over a LAN maximum |
| UmdRuns.LanQuotaAtAuth | app/umd/user.c:850-891 | for any user or none and any answer of the address script, an auth leaves it within its LAN maxima exactly when it had no binding before or the new maxima cover what is counted already |
| UmdRuns.LanQuotaBrokenByAuth | app/umd/user.c:850-891 | a run that ends authorised and over a LAN maximum |
| UmdQuota.ThresholdInRange | app/umd/umd.h:296-307 | the threshold lies in 1..max exactly when the numbers fit: a numerator, and a wrapped product between denominator and (max+1)*denominator |
| UmdQuota.FractionFits | app/umd/umd.h:296-307 | a fraction of at most one, not too small for the maximum and without wrap-around, fits |
| UmdQuota.WrapLosesWarning | app/umd/umd.h:296-307 | 2^31 seconds at two thirds wraps to no threshold at all |
| UmdQuota.QuotaWarnsFirst | app/umd/flow.c:804-821 | a quota warns at every count that is over its maximum exactly when its numbers fit |
| UmdQuota.FlowCutIsWarned | app/umd/flow.c:918-926 | with reauth on and quotas that fit, a packet that cuts an authorisation logs the charge, the reauth and the deauth one after the other |
| UmdQuota.UnfitQuotaCutsUnwarned | app/umd/flow.c:831-880 | for an up, down or all maximum whose numbers do not fit, frames of whatever lengths that come to one byte more than it end in a cut-off without any warning |
| UmdQuota.UnfitQuotaHasRun | app/umd/flow.c:624-643 | for every such maximum there are frames, none larger than the receive buffer and none shorter than an Ethernet frame unless the maximum is, that end in a cut-off without any warning |
| UmdQuota.OnlineWarnsFirst | app/umd/user.c:1633-1649 | the online-time warning comes at every time past the maximum exactly when the numbers fit |
| UmdQuota.TimeCutIsWarned | app/umd/user.c:1779-1783 | a timer visit that ends an authorisation for online time has logged a reauth just before |
| UmdQuota.UnfitTimeCutsUnwarned | app/umd/user.c:1595-1670 | for any numbers that do not fit, of WAN or of LAN, a run ends in a cut-off for online time without any warning |
| UmdTimer.TickAges | app/umd/user.c:1544-1552 | a timer visit keeps a binding exactly when each idle time has more than a tick left, and takes one tick from each |
| UmdTimer.IdleExactly | app/umd/user.c:1527-1552 | without packets and commands a user is still bound after k visits exactly when k ticks are less than its remaining aging for both types |
| UmdTimer.IdleEnds | app/umd/user.c:351-378 | without packets and commands a user is unbound after at most ceil(idle/ticks) visits |
| UmdTimer.TimedExactly | app/umd/user.c:1595-1695 | without packets and commands a user is still fake or authorised exactly when no visit found its time up and both idle times last |
| UmdTimer.AuthLasts | app/umd/user.c:850-891 | an authorisation lasts exactly as long as its command's limits say, counted from the auth for WAN and from the bind for LAN |
| UmdTimer.FakeLasts | app/umd/user.c:796-825 | a fake user stays one exactly as long as the configured fake and idle times say, counted from the fake |
| UmdTimer.UnusedLasts | app/umd/user.c:1555-1592 | an unbound user is collected by the first visit more than the configured time after the unbind, and by none before |
| UmdTimer.TickQuiet | app/umd/user.c:1777-1799 | after a visit the user is gone, or neither fake past the limit, nor authorised past its time, nor unused past collection |
| UmdTimer.TickDeletes | app/umd/user.c:1555-1592 | a visit deletes exactly the users that came to it in none and unused too long and, under a clock set back by more than that, those it unbinds itself; under any other clock never a bound or blocked one |
| UmdTimer.SweepQuiets | app/umd/user.c:1802-1814 | in whatever order and however often a sweep visits, it leaves every visited user quiet, a deleted one deleted and an unvisited one untouched |
| UmdTable.UserNode.ChargeFlow | app/umd/flow.c:883-896 | the counters in memory change as the model charges, WAN in LAN too |
| UmdTable.UserNode.FlowReset | app/umd/user.c:342-349 | the loop clears the three counters of one type and nothing else |
| UmdTable.UserNode.GoLanOnline | app/umd/user.c:352-378 | LAN goes online as in the model: all counters restart, idle comes from the configuration |
| UmdTable.UserNode.GoWanOnline | app/umd/user.c:381-400 | WAN goes online as in the model: only WAN counters restart |
| UmdTable.UserNode.DeauthUser | app/umd/user.c:636-657 | a deauth changes the node and its log as in the model: the reason, the event, then state, group and WAN times |
| UmdTable.UserNode.UnfakeUser | app/umd/user.c:660-680 | an unfake changes the node and its log as in the model: the reason, the event, then the state and WAN times |
| UmdTable.UserNode.ReauthUser | app/umd/user.c:828-847 | a reauth logs one event, and succeeds exactly for an authorised user |
| UmdTable.UserNode.UnblockUser | app/umd/user.c:738-756 | an unblock of a blocked user ends in none with one event more, and is refused for any other, which stays as it is |
| UmdTable.UserNode.LoadLimits | app/umd/user.c:122-135 | field by field, an auth command's limits are loaded; all counts, aging and times stay, so that a counter is over its new maximum exactly when the command's maximum is not zero and less than what is counted already |
| UmdTable.UserNode.ChargeAndCut | app/umd/flow.c:918-926 | charging a packet counts it, warns and cuts off WAN, in this order |
| UmdTable.UserNode.HandleTimeouts | app/umd/user.c:1777-1799 | a timer visit tests the fake limit, the online warning and the online limit, in this order |
| UmdTable.UserTable.Remove | app/umd/user.c:435-456 | a node leaves the buckets of its present MAC and address, and every other node stays where its keys say |
| UmdTable.UserTable.Insert | app/umd/user.c:459-483 | a node is in the buckets of its present keys and in no others, also when it was in the table before |
| UmdTable.UserTable.SetUserIp | app/umd/user.c:526-542 | only the address changes, and both indexes agree with all keys again |
| UmdTable.UserTable.Get | app/umd/user.c:910-925 | looking up a MAC finds its user exactly when there is one |
| UmdTable.UserTable.GetByIp | app/umd/user.c:1137-1152 | looking up an address finds a user that has it, and none only when no user has it |
| UmdTable.UserTable.UnbindUser | app/umd/user.c:683-709 | refines the model's unbind and keeps both indexes |
| UmdTable.UserTable.BlockUser | app/umd/user.c:712-735 | refines the model's block and keeps both indexes |
| UmdTable.UserTable.BindUser | app/umd/user.c:759-793 | refines the model's bind and keeps both indexes; a user that is bound afterwards is so at the given address |
| UmdTable.UserTable.FakeUser | app/umd/user.c:796-825 | refines the model's fake and keeps both indexes; a user that it accepts has the given address |
| UmdTable.UserTable.AuthUser | app/umd/user.c:850-891 | refines the model's auth and keeps both indexes |
| UmdTable.UserTable.HandleFlow | app/umd/flow.c:899-931 | refines the model's packet, through the deauth and unbind chain |
| UmdTable.UserTable.CreateUser | app/umd/user.c:612-633 | a new node is the only user of its MAC; without memory there is none and nothing changes |
| UmdTable.UserTable.DeleteUser | app/umd/user.c:595-609 | the user leaves table and indexes, and its log ends with the deletion |
| UmdTable.UserTable.RequestBlock | app/umd/user.c:1071-1074 | a block command creates the user if need be, and fails exactly for a user blocked before and for want of memory, when nothing changes |
| UmdTable.UserTable.RequestBind | app/umd/user.c:1082-1085 | a bind command creates the user if need be, and fails exactly for a user blocked before and for want of memory, when nothing changes; otherwise its user is bound at the given address |
| UmdTable.UserTable.RequestFake | app/umd/user.c:1093-1096 | a fake command creates the user if need be, and fails exactly for a user blocked before and for want of memory, when nothing changes; otherwise its user has the given address |
| UmdTable.UserTable.RequestAuth | app/umd/user.c:1104-1107 | an auth command creates the user if need be, changes nothing for want of memory, and returns a user exactly when there is one and it is authorised, in the command's group |
| UmdTable.UserTable.RequestUnbind | app/umd/user.c:1087-1090 | an unbind command unbinds a known user and leaves an unknown MAC alone |
| UmdTable.UserTable.RequestDeauth | app/umd/user.c:1109-1112 | a deauth without a reason or a user is refused |
| UmdTable.UserTable.RequestDelete | app/umd/user.c:1029-1032 | the command deletes a known user |
| UmdTable.UserTable.RequestGc | app/umd/user.c:1555-1564 | the command deletes exactly an unused user |
| UmdTable.UserTable.FindOrMake | app/umd/flow.c:899-916 | a packet finds its user, or makes it bound or fake when the configuration and memory allow; otherwise nothing changes |
| UmdTable.UserTable.TickNode | app/umd/user.c:1777-1799 | a visit runs all handlers on a user, and the collector last, which alone may delete; no other MAC is touched |
| UmdTable.UserTable.Execute | app/umd/user.c:1071-1117 | any step, with or without memory for a new user, does to its MAC what the model says and to no other MAC anything |
| UmdTable.UserTable.Serve | app/umd/user.c:1071-1117 | for any sequence of attempts, some with and some without memory, the table holds for every MAC what the model's steps come to |
| UmdTable.UserTable.UserTimer | app/umd/user.c:1802-1814 | the walk over all buckets visits every user, does to each what the model says, and leaves no user with anything left to do |
| UmdTable.UserTable.DeleteByIp | app/umd/user.c:1154-1157 | a user with the address is deleted and every other record stays, or there is no such user and nothing changes |
| UmdTable.ServedIsRun | app/umd/user.c:1071-1117 | whatever was served, a MAC's record is that of a run, so that all that holds of runs holds of the table |
| UmdFlow.OneCharge | app/umd/flow.c:899-931 | a packet leaves one charge at a bound user and none at another, whatever warnings and cut-offs it sets off |
| UmdFlow.FrameTolls | app/umd/flow.c:363-562 | a frame of any direction is charged up to its source and down to its destination as the table of directions says, WAN only between user and WAN, to users with a binding or made for it, and to nobody else |
| UmdFlow.FrameTouches | app/umd/flow.c:899-916 | a frame touches only its source and destination, and a user that it makes has its own address in the frame |
| UmdFlow.LanToUserIsLost | app/umd/flow.c:340-346 | no frame has the direction LAN to user; one that goes there counts as LAN to device and is charged to nobody |
| UmdFlow.DirectionSays | app/umd/flow.c:317-360 | every other direction says which end is the device's, a user's, the LAN's or the WAN's |
| UmdFlow.FrameCharges | app/umd/flow.c:422-531 | any frame is charged in full, in order, for each of its steps that finds a binding, and to nobody else; whose and what they are is `UmdFlow.FrameTolls` |
| UmdFlow.UserToUserCharges | app/umd/flow.c:432-461 | a frame between two users is charged down to the receiver, then up to the sender, once each, to those that have or get a binding, and to nobody else; also from a user to itself |
| UmdFlow.Flower.EthHandle | app/umd/flow.c:658-709 | the Ethernet stage counts a frame once as all and once as good or bad, by its type and addresses |
| UmdFlow.Flower.VlanHandle | app/umd/flow.c:712-735 | the VLAN stage counts a tagged frame once as all and once as good or bad; others pass uncounted |
| UmdFlow.Flower.ChargeUsers | app/umd/flow.c:422-531 | the frame is handed to its users in order, and refused when the user of a share cannot be reached; by direction that is `UmdFlow.FrameTolls` |
| UmdFlow.Flower.IpHandle | app/umd/flow.c:738-802 | the IP stage counts a frame as good or bad by header, device directions and users; a frame of a device direction is bad |
| UmdFlow.BalanceKept | app/umd/flow.c:658-802 | counting one frame, good or bad at each stage, keeps the balance of the stages and of the device counters |
| UmdFlow.Flower.Flow | app/umd/flow.c:990-1011 | a frame is accepted exactly when it is well-formed IPv4 with a plain header from the ingress, of a direction with users, and they are there or can be made; each MAC's charges grow by the table of directions; every stage counts it once with its length as all and as good or bad, and each device counter by its direction; and the balance eth good = ip all + vlan bad is kept |
| InitReload.ParseClosed | busybox/init/init.c:560-603 | parsing leaves the entries the table does not name, in order, then its keys as stored by last occurrence, each with the process it had, for exactly the tables that store no overlong line under a key that is there |
| InitReload.ParseClean | busybox/init/init.c:560-603 | parsing leaves no key twice exactly when none was there twice and the table stores no overlong line under a key that is there |
| InitQueue.ParseOrder | busybox/init/init.c:560-603 | for any list and any table, what parsing leaves and in which order: of the old entries and the lines, each that is among the last of its key, as many as there are |
| InitClosed.ReloadIsClosed | busybox/init/init.c:861-915 | in a list without duplicates a reload leaves the static entries not named, then the named keys as stored by last occurrence with their last type and their process, without those of type sysinit, exactly when of the kinds left to each key only the last may live, and that in the place of the process |
| InitModel.ReloadLeaves | busybox/init/init.c:899-909 | for any list and any table, a reload leaves exactly those of the parsed entries whose kind is neither 0 nor 0x01 |
| InitModel.EmptyReload | busybox/init/init.c:867-872 | a reload of an empty table leaves exactly the entries with bit 0x100 |
| InitClosed.KeyStays | busybox/init/init.c:861-915 | for any list and any table, a key is left exactly when it is left a kind other than 0 and 0x01 |
| InitClosed.KeyAfterReload | busybox/init/init.c:861-915 | in a reload in closed form a key of the table is left exactly unless its last type is 0 or 0x01, and any other exactly if its entry has bit 0x100 |
| InitReload.StoredMeans | busybox/init/init.c:599-600 | a line is stored with at most 255 characters of its command and 31 of its terminal |
| InitQueue.ReloadOrder | busybox/init/init.c:861-915 | for any list and any table, what a reload leaves and in which order: of the old entries, made stale, and the lines, each that is among the last of its key, as many as there are, and lives |
| InitQueue.ReloadProcs | busybox/init/init.c:861-915 | for any list and any table, a key has a process after a reload exactly when an entry of this key had it and the kind lives that is left to the place of that entry |
| InitQueue.ReloadDistinct | busybox/init/init.c:861-915 | for any list and any table, a reload leaves no key twice exactly when of the kinds left to each key at most one lives |
| InitQueue.TurnedKinds | busybox/init/init.c:560-603 | the kinds left to a key are the last of those its entries had and its lines give, one more for every line cut short |
| InitQueue.CutLineTwice | busybox/init/init.c:595-599 | a line that does not fit, of a type that lives, given twice leaves its key twice |
| InitClosed.FittingHarmless | busybox/init/init.c:861-915 | tables whose strings fit are such tables, at the first reload and at the next |
| InitClosed.ReloadAgain | busybox/init/init.c:861-915 | after a reload in closed form, reloading the same table once more changes nothing exactly when that has its closed form, too |
| InitModel.OnlyFittingLinesMatch | busybox/init/init.c:595-599 | parsing a line given twice makes one entry exactly when its strings fit the buffers |
| InitClosed.ProcAfterReload | busybox/init/init.c:861-915 | in a reload in closed form a key keeps its process exactly when its last line is not a sysinit one, or it has none and a static entry; otherwise the process is forgotten |
| InitReload.CutLineRestarts | busybox/init/init.c:595-599 | a line that does not fit, loaded a second time, drops the entry of the first with its process and puts an idle one there |
| InitModel.ReloadPure | busybox/init/init.c:861-915 | reloads keep the kinds apart that are respawned and those that are run once |
| InitList.ActionList.Unlink | busybox/init/init.c:576-590 | overwriting a link takes out exactly the entry it led to |
| InitList.ActionList.NewInitAction | busybox/init/init.c:560-603 | the matching node itself moves to the end, or a new node is put there, and is filled in |
| InitList.ActionList.DisableOld | busybox/init/init.c:867-872 | all entries but the static ones get kind 0, in place |
| InitList.ActionList.ParseInittab | busybox/init/init.c:612-676 | the list in memory is the model's parsing of the lines, one after the other; a node in it keeps its key and process |
| InitList.ActionList.SweepStale | busybox/init/init.c:899-909 | exactly the entries of kind 0 or 0x01 go, with their nodes, and the others keep their order |
| InitList.LineKeeps | busybox/init/init.c:560-603 | whatever line is added, cut short or not, every node in the list stays in it with its key and its process |
| InitList.NodesKeep | busybox/init/init.c:861-915 | for any list and any table, a node that a reload leaves in the list has the key and the process that it had |
| InitList.ActionList.ReloadInittab | busybox/init/init.c:861-915 | the list in memory is the reload of the list before; its nodes are those that were parsed, each with its key and process, but for those swept; and if nothing is there twice, a key that is still there has the node that had it |
| InitList.ActionList.MarkTerminated | busybox/init/init.c:496-509 | the first entry with the pid, and only that, loses it |
| InitRun.WaitSupervised | busybox/init/init.c:511-528 | whatever other children end while one is waited for, entries and children still belong together |
| InitRun.RunSupervised | busybox/init/init.c:531-558 | a run of any kinds of action keeps supervision |
| InitForks.KindsMean | busybox/init/init.c:531-558 | an entry is picked by a common bit, for a run with bit 0x100 only if its kind is the wanted one; 0x01, 0x02, 0x04, 0x20 and 0x40 are run each time, all of these but 0x04 waited for, 0x08 and 0x10 respawned |
| InitForks.RunForks | busybox/init/init.c:531-558 | a run that is not stuck makes exactly one fork for each picked entry that is run each time, and one for each respawned one that is idle when reached |
| InitForks.RunWaits | busybox/init/init.c:511-548 | when a run goes on past a picked entry that is waited for, the child forked for it is reaped, and stays so |
| InitForks.OnceGoesOn | busybox/init/init.c:544-548 | an entry of kind 0x04 is forked and not waited for |
| InitForks.WaitMeans | busybox/init/init.c:511-528 | a wait reaps the ends up to that of its child, and does not end exactly when the child does not |
| InitForks.InterruptRuns | busybox/init/init.c:934-935 | SIGINT is a run of kind 0x20 |
| InitForks.BootIs | busybox/init/init.c:1088-1100 | init starts with the runs 0x01, 0x02, 0x108 and 0x04 in this order |
| InitForks.BootAt | busybox/init/init.c:1088-1100 | delayed signals are handled after the first and after the second of these runs |
| InitForks.BootStarts | busybox/init/init.c:1088-1100 | whatever comes meanwhile, before the main loop only entries of kind 0x108 have a process recorded |
| InitForks.TurnIs | busybox/init/init.c:1104-1149 | a turn of the main loop handles all its signals in order, runs 0x18 once, and takes the ends up to the first wait that returns none |
| InitForks.TurnAt | busybox/init/init.c:1110-1113 | the run of a turn comes right after its first signals |
| InitRun.ReloadSupervised | busybox/init/init.c:861-915 | a reload of any lines keeps supervision |
| InitRun.HistorySupervised | busybox/init/init.c:1104-1149 | in every history an entry with a pid has a live child, the one it started last, an entry without one started none that is left, and no child has two entries |
| InitRun.PidsDistinct | busybox/init/init.c:496-558 | positive pids in the list are pairwise distinct in every history |
| InitRun.NeverTwice | busybox/init/init.c:531-558 | in every history with reloads in between, a run comes to an entry's respawn branch, after the waits and starts before it, and starts it only when its last child is reaped; a pid means a child that is not |
| InitRun.AllRunning | busybox/init/init.c:1110-1113 | after the respawn run every such entry has a pid exactly when none had failed before and the kernel's coming offers, one for each idle such entry, are pids that are neither unreaped nor repeated |
| InitRun.AlwaysRunning | busybox/init/init.c:1110-1113 | in every history without failed forks, every such entry has a live child after each respawn run |
| InitRun.FailedForever | busybox/init/init.c:550-556 | in any list, an entry whose fork failed stays that way through any history until a reload drops it |
| InitRun.FailedEvent | busybox/init/init.c:550-556 | one event takes a failed entry away exactly when it is a reload that leaves its place a kind that does not live |
| InitRun.RefusedOnce | busybox/init/init.c:550-556 | from the start, one refused fork leaves an entry unstarted through every history that does not drop it, although every later fork would succeed |
| InitRun.EndedIsRestarted | busybox/init/init.c:1125-1148 | when an entry's child ends, the next respawn run starts another for it, from a new fork, unless a fork fails, and that is unless an offer is not good |
| InitRun.StuckStays | busybox/init/init.c:511-528 | the events after a wait that never ends change nothing |
| InitDaemon.Init.WaitFor | busybox/init/init.c:511-528 | the loop reaps what ends until the child waited for has |
| InitDaemon.Init.StartIfIdle | busybox/init/init.c:550-556 | only an entry with pid 0 is started |
| InitDaemon.Init.RunActions | busybox/init/init.c:531-558 | the walk over the list in memory is the model's run, whose forks and waits are those of `InitForks.RunForks` and `InitForks.RunWaits` |
| InitDaemon.Init.CheckSignals | busybox/init/init.c:918-936 | the delayed signals are handled in their order |
| InitDaemon.Init.TakeTurn | busybox/init/init.c:1104-1149 | one turn of the endless loop is its events in order |
| InitDaemon.Init.MainLoop | busybox/init/init.c:1104-1149 | any number of turns is the history of their events |
| InitDaemon.Init.Boot | busybox/init/init.c:1088-1100 | the runs before the endless loop are the history of their events |
| ListHead.AddBetween | app/natlog/hash_list.h:38-46 | a node put between neighbours at any place is at that place of a ring again |
| ListHead.ListAdd | app/natlog/hash_list.h:56-59 | the node added comes first in the ring |
| ListHead.ListAddTail | app/natlog/hash_list.h:70-73 | the node added comes last |
| ListHead.DelBetween | app/natlog/hash_list.h:82-86 | joining the neighbours takes out exactly the node between |
| ListHead.ListDel | app/natlog/hash_list.h:99-104 | the node goes, wherever it is, and its pointers are null |
| ListHead.ListDelInit | app/natlog/hash_list.h:133-137 | the node goes and is an empty list |
| ListHead.ListReplace | app/natlog/hash_list.h:113-120 | the new node takes the old one's place in the ring |
| ListHead.ListReplaceInit | app/natlog/hash_list.h:122-127 | the new node takes the old one's place, and the old one is an empty list |
| ListHead.ReplaceEntry | app/natlog/hash_list.h:113-120 | seen from the head, the entry at the same index is replaced |
| ListHead.RotateRing | app/natlog/hash_list.h:8-20 | a ring is a ring from each of its nodes, with the sequence rotated |
| ListHead.ListMove | app/natlog/hash_list.h:144-148 | the entry comes first in another list or in its own |
| ListHead.ListMoveTail | app/natlog/hash_list.h:155-160 | the entry comes last in another list or in its own |
| ListHead.TestsTell | app/natlog/hash_list.h:167-222 | the tests for empty, single and last entry, on two or three pointers, are true exactly of such lists |
| ListHead.ListRotateLeft | app/natlog/hash_list.h:205-213 | the first entry becomes the last |
| ListHead.CutBetween | app/natlog/hash_list.h:224-234 | the entries up to the cut make one ring, the others another |
| ListHead.ListCutPosition | app/natlog/hash_list.h:250-262 | the list is cut after any of its entries or its head; an empty list, or a list of one cut at a foreign entry, changes nothing at all |
| ListHead.ListSplice | app/natlog/hash_list.h:283-288 | the entries of one list come in front of the other's |
| ListHead.ListSpliceTail | app/natlog/hash_list.h:295-300 | the entries of one list come behind the other's |
| ListHead.ListSpliceInit | app/natlog/hash_list.h:309-316 | the entries of one list come in front of the other's, and the first list is empty |
| ListHead.ListSpliceTailInit | app/natlog/hash_list.h:326-333 | the entries of one list come behind the other's, and the first list is empty |
| ListHead.CutAndSplice | app/natlog/hash_list.h:250-316 | cutting at any point into an empty list and splicing back restores both lists |
| Hlist.ChainAll | app/natlog/hash_list.h:579-592 | a chain is one exactly when every node names the one cell that holds it |
| Hlist.Unhook | app/natlog/hash_list.h:613-620 | a node goes from any position of a chain, without its head |
| Hlist.HlistDel | app/natlog/hash_list.h:622-627 | a node goes from any position of a chain, and forgets its place |
| Hlist.HlistDelInit | app/natlog/hash_list.h:629-635 | a node goes from any position of a chain and is unhashed; one that is on no list is left alone |
| Hlist.Hashed | app/natlog/hash_list.h:603-611 | a head's first is null exactly for an empty chain, and a node on a chain is never unhashed |
| Hlist.HlistAddHead | app/natlog/hash_list.h:637-645 | the node added comes first in its chain |
| Hlist.HlistAddBefore | app/natlog/hash_list.h:648-655 | the node added comes before the given one, also when that is the first |
| Hlist.HlistAddAfter | app/natlog/hash_list.h:657-666 | the node added comes after the given one, also when that is the last |
| Hlist.HlistAddFake | app/natlog/hash_list.h:669-672 | a fake node counts as being on a list |
| Hlist.DelFake | app/natlog/hash_list.h:622-627 | deleting a fake node unhashes it, and touches no other but the one it led to |
| Hlist.HlistMoveList | app/natlog/hash_list.h:678-685 | the whole sequence is at the new head and the old is empty; moved to its own head it is lost |
| NatlogModel.ReadBack | app/natlog/natlog.c:105-197 | the texts written into a record are read back, whatever was in its memory |
| NatlogModel.EqualIsEqual | app/natlog/natlog.c:209-226 | two records compare equal exactly when their texts are |
| NatlogModel.ByteMatters | app/natlog/natlog.c:200-205 | a byte changed from even to odd or back, wherever it is, changes the bucket |
| NatlogModel.HashIsNumber | app/natlog/natlog.c:57-76 | the hash of bytes is the number they write to the base 31, modulo 2^32 |
| NatlogModel.BucketIs | app/natlog/natlog.c:200-205 | the bucket is the hash of all 92 bytes of the seven arrays, modulo 100000 |
| NatlogModel.ReadingEnds | app/natlog/natlog.c:246-275 | what is read is what stands before the first broken line |
| NatlogModel.ReadingConcat | app/natlog/natlog.c:246-275 | the records of lines one after the other are read one after the other |
| NatlogModel.DifferenceConcat | app/natlog/natlog.c:408-417 | the difference is taken record by record, in order |
| NatlogModel.FoundMeets | app/natlog/natlog.c:229-242 | the lookup in one bucket succeeds exactly when an equal record lies in the same bucket |
| NatlogModel.NothingMissed | app/natlog/natlog.c:408-417 | the output never has fewer records than the difference, and as many only when each shared record meets itself in a bucket |
| NatlogModel.OutputIsDifference | app/natlog/natlog.c:408-417 | for any files the output is the ordered difference, with repeats, exactly when each record of both lies in one bucket for both |
| NatlogModel.ZeroFilledDifference | app/natlog/natlog.c:199-242 | with zero-filled memory the output is always the difference |
| NatlogModel.RightForAllMemory | app/natlog/natlog.c:246-343 | for any two files the output is the difference whatever the memory held exactly when no record that they share leaves a byte of one of its seven arrays unused |
| NatlogModel.SharedButListed | app/natlog/natlog.c:260-269 | any record that leaves a byte unused can be listed although both files have it |
| Natlog.Table.GetHead | app/natlog/natlog.c:63-76 | the loop over the bytes computes the bucket |
| Natlog.Table.GetItem | app/natlog/natlog.c:229-242 | the walk along one chain finds an equal record exactly when the model does |
| Natlog.Table.Hang | app/natlog/natlog.c:268-269 | a node comes first in its bucket and every other bucket stays a chain |
| Natlog.Table.FreeBucket | app/natlog/natlog.c:294-297 | deleting while walking empties one chain |
| Natlog.Table.FreeAll | app/natlog/natlog.c:286-307 | all heads are null afterwards |
| Natlog.Program.ReadList | app/natlog/natlog.c:311-343 | the list holds the records before the first broken line, in order, and an error is returned exactly when there is one or no file |
| Natlog.Program.ReadHash | app/natlog/natlog.c:246-275 | the table holds the records before the first broken line, and an error is returned exactly when there is one or no file |
| Natlog.Program.FreeList | app/natlog/natlog.c:345-355 | deleting while walking empties the list |
| Natlog.Program.ListDifference | app/natlog/natlog.c:408-414 | what is written is the model's output, and the list is empty |
| Natlog.Program.Natlog | app/natlog/natlog.c:374-420 | on every path both structures end empty; without an error the output is the model's, otherwise nothing |
| Sinetd.StartsMaps | app/sinetd/sinetd.c:61-76 | the entries of a registry are exactly the items of its map from pid to start time |
| Sinetd.CreateRefines | app/sinetd/sinetd.c:148-155 | adding an unknown pid adds it to the map and keeps the pids distinct |
| Sinetd.DeleteRefines | app/sinetd/sinetd.c:158-175 | deleting takes exactly this pid from the map |
| Sinetd.TimeoutRefines | app/sinetd/sinetd.c:178-197 | the timeout leaves exactly the pids not older than 300 seconds, with their times |
| Sinetd.KilledExpired | app/sinetd/sinetd.c:178-197 | the timeout kills exactly the pids older than the limit |
| Sinetd.EndedMeans | app/sinetd/sinetd.c:200-209 | the pids waited for are exactly those returned before the first that is none |
| Sinetd.Registry.FindApp | app/sinetd/sinetd.c:127-145 | finds the first entry with the pid or none |
| Sinetd.Registry.Create | app/sinetd/sinetd.c:148-155 | a known pid and a lack of memory are the errors -17 and -22 that change nothing; otherwise the pid comes last, with its time |
| Sinetd.Registry.Remove | app/sinetd/sinetd.c:98-108 | one entry goes, and the count is the length again |
| Sinetd.Registry.Delete | app/sinetd/sinetd.c:158-175 | the one entry of the pid goes, the others keep their order |
| Sinetd.Registry.Timeout | app/sinetd/sinetd.c:178-197 | keeps exactly the entries not too old, in order, and kills the others in order, while deleting as it walks |
| Sinetd.Registry.Wait | app/sinetd/sinetd.c:200-209 | takes out exactly the pids returned before the first that is none |

## Left out

- The sync and associate commands of umd: sync overwrites state, MAC and address in place without indexing again (`app/umd/user.c:1301-1316`), and associate always makes a new user (`:1047-1055`), so the claims about indexes and MACs do not hold with them.
- The connection table of umd and its own garbage collection.
- The direction of a frame is an input of the stages; `UmdFlow.DirectionOf` computes it from the ends and the nets, but not which MACs are the device's.
- The chains inside the buckets of umd's hash tables; a bucket is a set of nodes.
- Tags, rates and the JSON form of users; the limits an auth command carries are a record.
- Deleting users by a filter on MAC and address masks (`app/umd/user.c:1481-1511`).
- The bridge statistics of the OpenWrt build (`app/umd/user.c:1697-1775`).
- The widths of byte counters, aging counts and times, which are unbounded here; only the product of the reauth threshold wraps.
- UmdTable.UserTable.UserTimer: does not say in which order the users of a bucket are visited, because the order in a bucket is not known.
- One step reads one clock value, where the code may read the time several times.
- UmdTable.UserTable.GetByIp: does not say which user of an address is found, because the order in a bucket is not known.
- init: splitting inittab lines into fields, terminals, exec, the environment, shutdown and reboot, the stop handler, and killing removed entries, which is a build option.
- InitReload.ParseClosed: takes a list without duplicates; `InitQueue.ParseOrder` covers the others.
- InitClosed.ReloadIsClosed: takes a list without duplicates; `InitQueue.ReloadOrder` and `InitQueue.ReloadProcs` say what becomes of any list.
- InitClosed.ReloadAgain: takes a first reload in closed form of a list without duplicates; after another the second is again that of `InitQueue.ReloadOrder` and `InitQueue.ReloadProcs`.
- InitClosed.ProcAfterReload: takes a reload in closed form of a list without duplicates; `InitQueue.ReloadProcs` is for any.
- InitList.ActionList.ReloadInittab: that a key keeps its node is stated where nothing is there twice, as a key held twice has no one node; that a node keeps its key and process, for all.
- InitQueue.ReloadOrder: takes entries whose strings are in their buffers, as all stored ones are.
- InitRun.AllRunning: is stated for entries that are not both respawned and run once or waited for; the parser makes no others.
- InitRun.StuckStays: signals that act at once, without being delayed, are not modelled, neither during a wait that never ends nor elsewhere.
- A run of init is given by finite lists of events and waits; a wait that outlives its list counts as one that never ends.
- The iteration macros of `hash_list.h`, which are the loops of natlog and sinetd here, and `container_of`: a link holds its entry.
- NatlogModel.ReadBack: takes texts that fit their arrays; the program copies longer ones past their end.
- Parsing a conntrack line (`app/natlog/natlog.c:88-197`): a line is skipped, broken, or seven texts that fit their arrays.
- Opening, reading and writing files; a write error is not modelled, as the code ignores it.
- The unused `ntlg_hash_head_init`.
- The sockets, forks and delays of sinetd around its registry.
- The other programs of the repository: rsha, nsqa, tmd, smd, jlogd, guard and the clients, which are input and output or depend on libraries that are not part of this model.
