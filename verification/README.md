# Verification of the ebpf-assist MicroVM pool and daemon

ebpf-assist loads eBPF programs on behalf of users, either through a privileged daemon or inside
Firecracker MicroVMs that a pool hands out. This project models, in Dafny, the two parts of it that carry
state, and proves what they promise over every run.

**The pool and the host/guest channel.** From the bottom up:

- `Framing` (the length-prefixed byte stream), `Protocol` (the messages and the contract of their JSON codec),
  `CodecExists` (a codec that meets the contract).
- `GuestLoader` and `GuestAgent`: the agent's program table, its command handler and its connection loop.
  `GuestTable` says what each command does, field by field.
- `HostLink` and `MicroVms`: the host's client, and its record of one VM with a mirror of the guest's table.
  `TypedCalls` says when each call on a VM succeeds; `MirrorLost` and `ReadsForever` are runs in which host and guest
  part ways.
- `Pool`: `MicroVmManager` as a step machine. A task stops at every `.await`; every lock has an explicit owner;
  a boot, an exchange with a guest and a new call are moves of the environment. `PoolSafety`, `PoolBounds`,
  `PoolDrain`, `PoolLocks` and `PoolTheorems` hold what is proved of all its interleavings, `PoolRuns` the runs that
  reach the bounds; `PoolManager` is the manager as an object, whose methods are schedules of the machine.

**The daemon.** `Caps` (raising capabilities), `Auth` (the authorisation cache over polkit), `DaemonLoader` (the
program table) and `DaemonPolicy` (which programs may be loaded and attached, by aya's variants), `ErrorText` (codes
found by searching messages), `Daemon` (the request handler with its two lock scopes) and `Privileges` (which stored
answer every executed load and attach goes back to), `Numbers` and `MapText` (map keys and values as text).

Code that works on fields is written as classes (`ProgramLoader`, `CommandHandler`, `Connection`, `GuestClient`,
`MicroVm`, `MicroVmManager`, `Process`, `AuthManager`, `Loader`, `Server`, `HashMapFile`, `ArrayFile`). Each method
is tied to a function on values, and the properties are proved of those functions. The kernel, aya, polkit, the
clock and the operating system's treatment of an exchange are parameters. `dafny verify dfyconfig.toml` checks
everything.

## Where the code and its documentation disagree

The model follows the code. Each of these has its exact condition or bound, and where that takes one, a run or an
input that shows it.

- `max_total` is documented as the maximum number of VMs (crates/ebpf-assist-vm/src/config.rs:83-84). The check and
  the insertion are in different lock scopes, so K concurrent tasks reach max_total + K - 1, and no more
  (`BoundedOvershoot`, `OvershootReached`); `warm_up` looks at no limit (`WarmUpIgnoresLimits`). With the VMs that
  `shutdown_all` is about to shut down, K max_total + K (K - 1) / 2 run at once, and no more (`RunningBound`,
  `RunningReached`).
- `max_warm` is documented as the maximum number of warm VMs (config.rs:80-81). K overlapping releases reach
  min(max_warm, max_total) + K - 1, and no more (`WarmWithinBoth`, `WarmBoundReached`).
- `acquire` takes the pool lock before the active lock in one place and after it in another. Two calls of
  `acquire` deadlock (`DeadlockReached`, `CrossedForever`), and `DeadlockIff` and `DeadlockAnyhowIff` say in which
  configurations; with one order no such state is reachable (`OneOrderIsLive`).
- "Run unlock first" (crates/ebpf-assistd/src/handler.rs:293): unlocking stores its answer under another action than
  load and attach look up, so for the same polkit answers the daemon's own cache carries nothing from unlock to load
  or attach (`UnlocksNeverMatter`). It works through polkit alone, whose shipped policy lets MANAGE imply both
  (polkit/org.ebpf-assist.policy:12-22), and then exactly if no live stored answer refuses (`UnlocksEnableIff`). The
  refusal that gives the advice is one, until it expires (`ChallengeOutlivesUnlock`).
- Locking is meant for one user, but the client's uid is never set, so it forgets every user's answers
  (`LockForgetsAll`).
- Detaching changes the record and leaves the program on its hook until it is unloaded (`DetachLeavesHook`,
  `HookedUntilUnload`).
- The capability guard removes what was raised instead of restoring what was there (`RestoredIff`,
  `StillEffectiveIff`).
- Map keys are documented as hexadecimal (crates/ebpf-assist-common/src/lib.rs:215-218) but are read as decimal
  without a prefix, which the dump does not print: a dumped key names itself exactly below 10 (`BareKeyIff`).
- Error codes come from searching the message. Attaching twice is reported as AlreadyAttached exactly when the
  first attach point has none of the words searched for earlier (`AlreadyAttachedIff`, with `VerifierProbe` as an
  example), and a file that cannot be read or parsed is always Internal (`LoadFailedText`).
- The mirror of a VM's programs is as good as the channel. The first reply over the limit freezes it for as many
  calls as the reply's bytes last: loads, unloads and resets alike happen in the guest and are not recorded
  (`MirrorSurvivesIff`, `UnchangedIff`, and the run `MissedLoad`). If 4 divides the length of that reply, every later
  call gets the reply to an earlier one (`LateForever`, `MirrorAfterWindow`); if not, a call may wait for ever with the
  active lock held (`ReadingReached`).

## Model

| member | source | states |
|---|---|---|
| `Framing.LeRoundTrip` | crates/ebpf-assist-vm/src/vsock_client.rs:64-65 | the length prefix is a bijection between u32 and four bytes |
| `Framing.ParseLossless` | crates/ebpf-assist-agent/src/main.rs:71-94 | every byte stream is its items followed by an incomplete tail, with no byte lost or invented |
| `Framing.ParseUnparse` | crates/ebpf-assist-agent/src/main.rs:71-94 | ... and those are the only items: reading what was written gives it back |
| `Framing.FeedIsParse` | crates/ebpf-assist-agent/src/main.rs:71-94 | a reader that gets the stream in chunks, cut anywhere, sees the same items as one that gets it at once |
| `Framing.FramingRoundTrip` | crates/ebpf-assist-vm/src/vsock_client.rs:64-87 | decoding concatenated frames yields exactly their payloads, however the bytes are chunked |
| `Framing.PrintableNeverParses` | crates/ebpf-assist-vm/src/protocol.rs:166 | N printable bytes where lengths are expected are N/4 over-limit lengths and a tail of N mod 4 bytes, never a payload |
| `Framing.LimitExact` | crates/ebpf-assist-vm/src/protocol.rs:166 | the limit is 16,777,216 bytes: a message of that length is read, of every greater length only the prefix |
| `Framing.LowByteFirst` | crates/ebpf-assist-vm/src/vsock_client.rs:64-65 | the length prefix has its low byte first |
| `Protocol.FramesConcat` | crates/ebpf-assist-agent/src/main.rs:128-140 | the bytes of replies sent one after the other are the concatenated frames |
| `CodecExists.ValidCodecExists` | crates/ebpf-assist-vm/src/protocol.rs:9-138 | an encoding of all commands and replies exists that meets every clause of the codec contract, so the contract is not empty |
| `GuestLoader.AttachKeepsCoherent` | crates/ebpf-assist-agent/src/loader.rs:130-197 | attaching keeps the two copies of id, attached flag and attach point equal, and only attaches a program with an attachable part |
| `GuestLoader.LoadWithin` | crates/ebpf-assist-agent/src/loader.rs:65-102 | a load keeps the table coherent and all its ids below the counter |
| `GuestLoader.ProgramLoader.Load` | crates/ebpf-assist-agent/src/loader.rs:65-102 | the new table and the result are those of the specification; a failed load takes no id |
| `GuestLoader.ProgramLoader.Attach` | crates/ebpf-assist-agent/src/loader.rs:130-197 | the search loop attaches the first attachable program of the object, or changes nothing and says why |
| `GuestLoader.ProgramLoader.Detach` | crates/ebpf-assist-agent/src/loader.rs:200-215 | clears both copies of the attachment, or fails on an unknown id |
| `GuestLoader.ProgramLoader.Unload` | crates/ebpf-assist-agent/src/loader.rs:218-225 | removes exactly this program, or fails on an unknown id |
| `GuestLoader.ProgramLoader.UnloadAll` | crates/ebpf-assist-agent/src/loader.rs:228-233 | empties the table, returns its size, and leaves the id counter alone |
| `GuestAgent.AnswerAllConcat` | crates/ebpf-assist-agent/src/main.rs:71-125 | answering two batches one after the other is answering them as one |
| `GuestAgent.OversizeCommand` | crates/ebpf-assist-agent/src/main.rs:83-90 | an over-limit command of n bytes changes nothing, draws exactly 1 + n/4 error replies, and leaves the loop aligned iff 4 divides n |
| `GuestAgent.AnswerIds` | crates/ebpf-assist-agent/src/loader.rs:65-102 | one turn hands out the counter's value and steps it, or hands out nothing and leaves it alone |
| `GuestAgent.IdsIncrease` | crates/ebpf-assist-agent/src/loader.rs:65-102 | within 2^32 - 1 loads, every run of any commands hands out consecutive increasing ids across Unload, UnloadAll, Reset and failed loads |
| `GuestAgent.StaleIdsAreDead` | crates/ebpf-assist-agent/src/handler.rs:120-124 | an id handed out before a Reset is in no guest table after it, whatever is loaded later |
| `GuestAgent.IdsWrap` | crates/ebpf-assist-agent/src/loader.rs:65-102 | the bound is sharp: the load with the last id wraps the counter and ids 0 and 1 follow |
| `GuestAgent.CommandHandler.Handle` | crates/ebpf-assist-agent/src/handler.rs:33-131 | the handler's new state and reply are those of the specification, for every command |
| `GuestAgent.Connection.ReadMessage` | crates/ebpf-assist-agent/src/main.rs:71-94 | takes the first item off the stream and leaves the rest to be parsed, or waits and takes nothing |
| `GuestAgent.Connection.HandleConnection` | crates/ebpf-assist-agent/src/main.rs:67-125 | the loop answers all items of the stream in order, sends one frame each, stops at Shutdown, and leaves the incomplete tail |
| `GuestTable.DetectFirst` | crates/ebpf-assist-agent/src/loader.rs:105-127 | an object is known exactly if it has a program of a known variant, and its type is that of the first such program |
| `GuestTable.LoadMeans` | crates/ebpf-assist-agent/src/loader.rs:65-102 | a load succeeds iff the object parses and has a program of a known variant; then exactly that record is added under the counter's id, and otherwise nothing changes |
| `GuestTable.AttachMeans` | crates/ebpf-assist-agent/src/loader.rs:130-197 | an attach is answered Attached iff the program is known and attached already, or its first attachable part has a target of the right form and the kernel loads and attaches it; both copies of the attachment then name the target, and nothing else changes |
| `GuestTable.DetachMeans` | crates/ebpf-assist-agent/src/loader.rs:200-215 | a detach of a known id is answered Detached; both copies say unattached with no attach point, every other field and every other id is as before |
| `GuestTable.UnloadMeans` | crates/ebpf-assist-agent/src/loader.rs:218-225 | an unload is answered Unloaded iff the id is known, and then exactly this program goes |
| `GuestTable.UnknownId` | crates/ebpf-assist-agent/src/handler.rs:49-84 | whatever is asked of an unknown id is answered by an error that names it, and changes nothing |
| `GuestTable.DetachThenAttach` | crates/ebpf-assist-agent/src/loader.rs:130-215 | a detach and then an attach that the kernel accepts leave the new target in both copies, whatever was there before; without the detach the new target is ignored |
| `GuestTable.AsksMean` | crates/ebpf-assist-agent/src/handler.rs:33-131 | the commands that only ask change nothing, and list, status and trigger are answered from the table and the kernel |
| `GuestTable.EmptyingMeans` | crates/ebpf-assist-agent/src/handler.rs:115-129 | UnloadAll and Reset empty the table, leave the counter and, for UnloadAll, the trace buffer alone, and count what they remove; Shutdown changes nothing but the flag |
| `GuestTable.BadMessage` | crates/ebpf-assist-agent/src/main.rs:83-105 | what is too long or no command draws one error and changes nothing |
| `GuestTable.ShutdownIsLast` | crates/ebpf-assist-agent/src/main.rs:107-122 | nothing behind a Shutdown is answered |
| `HostLink.ExchangeOne` | crates/ebpf-assist-vm/src/vsock_client.rs:46-94 | on an aligned connection one exchange returns the guest's own answer and leaves both directions empty |
| `HostLink.Pairing` | crates/ebpf-assist-vm/src/vsock_client.rs:46-94 | in every run of within-limit messages the k-th reply answers the k-th message, unparsable ones included, and both directions are empty at every boundary |
| `HostLink.OversizeReply` | crates/ebpf-assist-vm/src/vsock_client.rs:75-83 | after an unread reply of N bytes this and the next N/4 exchanges fail, although the guest carries out every command (on a stream that takes what is written) |
| `HostLink.JunkFailsAll` | crates/ebpf-assist-vm/src/vsock_client.rs:75-83 | while printable bytes are unread, every exchange fails and four of them are consumed, and the guest carries out the command (on a stream that takes what is written) |
| `HostLink.LateReplies` | crates/ebpf-assist-vm/src/vsock_client.rs:72-90 | with whole replies waiting to be read, every exchange of a run returns the oldest of them instead of its own |
| `HostLink.LateForever` | crates/ebpf-assist-vm/src/vsock_client.rs:75-83 | after an unread reply of N bytes, 4 dividing N, and the N/4 failing exchanges, every later exchange returns the reply to the message sent N/4 exchanges before its own |
| `HostLink.ReadTooLong` | crates/ebpf-assist-vm/src/vsock_client.rs:72-90 | a reply over the limit, of any length, is never delivered, even when its length wraps |
| `HostLink.OnlyGenuineReplies` | crates/ebpf-assist-vm/src/vsock_client.rs:72-90 | wherever in the bytes of the replies the reader has ended up, it returns a reply only by reading the whole frame of one that was sent; nothing is made up from misaligned bytes |
| `HostLink.NewReplyIsGenuine` | crates/ebpf-assist-vm/src/vsock_client.rs:72-90 | a reply that was not among the earlier ones is read off its own frame, which leaves nothing unread |
| `HostLink.GuestClient.SendCommand` | crates/ebpf-assist-vm/src/vsock_client.rs:46-94 | both ends of the connection and the result are those of the specification, also when write or read breaks; a read that never returns is told apart, as StillWaiting |
| `MicroVms.NoteAgrees` | crates/ebpf-assist-vm/src/manager.rs:163-337 | what a command does to the guest table, its reply does to the mirror |
| `MicroVms.MirrorAgreement` | crates/ebpf-assist-vm/src/manager.rs:163-337 | over every sequence of calls and resets, guest errors included, mirror and guest table have the same ids, names, types and paths |
| `MicroVms.MirrorSurvivesIff` | crates/ebpf-assist-vm/src/manager.rs:163-337 | over runs: from the first over-limit reply of N bytes on, in that call and the next N/4, the host records nothing and the guest carries out everything; the mirror agrees afterwards iff the guest table has the ids, names, types and paths it had before |
| `MicroVms.SameIdsSuffice` | crates/ebpf-assist-agent/src/loader.rs:65-102 | within the counter's period that is the case iff the guest table has the same ids |
| `MicroVms.UnchangedIff` | crates/ebpf-assist-agent/src/loader.rs:65-102 | and, in terms of the commands, iff no program from before was unloaded or reset and every one loaded meanwhile was |
| `MicroVms.MirrorAfterWindow` | crates/ebpf-assist-vm/src/manager.rs:163-337 | if 4 divides N, the mirror after those calls is what comes of noting, for every later call, the reply to the command sent N/4 calls before |
| `MirrorLost.LoadMissed` | crates/ebpf-assist-vm/src/manager.rs:163-186 | for every codec: once the list does not fit a reply, a list call and then a load that the guest accepts leave the host without the program, with every other message within the limit |
| `MirrorLost.MissedLoad` | crates/ebpf-assist-vm/src/manager.rs:163-186 | a run from a clean VM that does it: two loads under long printable names, a list, and a third load that the guest has and the host does not know of |
| `MicroVms.CallKeepsUsable` | crates/ebpf-assist-vm/src/manager.rs:163-316 | whatever a user does and however exchanges break, the unread bytes hold no reply to a reset |
| `MicroVms.ResetCleans` | crates/ebpf-assist-vm/src/manager.rs:318-337 | a reset that reports success, from any state a user can leave, has emptied both tables and re-aligned the connection |
| `MicroVms.ResetWorks` | crates/ebpf-assist-vm/src/manager.rs:318-337 | on an aligned, working connection a reset succeeds |
| `MicroVms.PingAnswered` | crates/ebpf-assist-vm/src/manager.rs:117-153 | a ping on a new connection is answered by Pong iff the connection holds, and changes nothing a user could see |
| `MicroVms.MicroVm.Connect` | crates/ebpf-assist-vm/src/manager.rs:117-153 | the retry loop succeeds iff one of ten attempts does, and then the VM is clean |
| `MicroVms.MicroVm.LoadProgram` | crates/ebpf-assist-vm/src/manager.rs:163-186 | session and verdict are those of the specification: the mirror changes only on a Loaded reply |
| `MicroVms.MicroVm.UnloadProgram` | crates/ebpf-assist-vm/src/manager.rs:189-209 | the mirror loses the id only on an Unloaded reply |
| `MicroVms.MicroVm.Query` | crates/ebpf-assist-vm/src/manager.rs:212-316 | the other calls leave the mirror alone, and turn unexpected replies into errors |
| `MicroVms.MicroVm.ResetVm` | crates/ebpf-assist-vm/src/manager.rs:319-337 | the mirror is emptied only on a ResetComplete reply |
| `TypedCalls.VerdictMeans` | crates/ebpf-assist-vm/src/manager.rs:163-337 | whatever reply the host has read: Ok iff it is of the call's own kind, the guest's message if it is an error, "unexpected" otherwise; and the mirror notes only Loaded, Unloaded and ResetComplete, to their own calls |
| `TypedCalls.TypedCall` | crates/ebpf-assist-vm/src/manager.rs:163-337 | on an aligned connection and with messages that fit, each typed call is Ok with the guest's own reply iff the guest did not refuse, and otherwise has exactly the guest's message |
| `TypedCalls.WhenCallsSucceed` | crates/ebpf-assist-vm/src/manager.rs:163-337 | when each call is Ok in terms of the guest's table and kernel, and what the host then records |
| `TypedCalls.LateVerdict` | crates/ebpf-assist-vm/src/manager.rs:163-337 | a call that gets an earlier reply takes it for its own only if it is of its kind |
| `TypedCalls.BrokenCalls` | crates/ebpf-assist-vm/src/vsock_client.rs:46-94 | too long: nothing changes; a write that breaks before the frame is complete: the guest has not acted; after that, or when the read breaks: it has; the host records nothing in either case |
| `TypedCalls.ClosedCalls` | crates/ebpf-assist-vm/src/vsock_client.rs:46-94 | a call on a closed connection fails and changes nothing |
| `Pool.ExecConcat` | crates/ebpf-assist-vm/src/manager.rs:428-592 | schedules compose |
| `PoolSafety.LocksStep` | crates/ebpf-assist-vm/src/manager.rs:428-592 | after every step a task owns exactly the locks of the point at which it stands |
| `PoolSafety.CopiesStep` | crates/ebpf-assist-vm/src/manager.rs:428-592 | no step loses or duplicates a VM |
| `PoolSafety.ContentsStep` | crates/ebpf-assist-vm/src/manager.rs:428-592 | every step keeps warm VMs and those about to be handed out clean, and the others usable |
| `PoolSafety.ReachableIsSafe` | crates/ebpf-assist-vm/src/manager.rs:428-592 | the whole invariant holds in every state of every interleaving of any number of tasks |
| `PoolTheorems.CleanHandOut` | crates/ebpf-assist-vm/src/manager.rs:428-460 | when acquire returns an id, its VM has an empty host table, an empty guest table and no bytes in flight, overwrites no live VM, and no other VM changes |
| `PoolTheorems.WarmIsClean` | crates/ebpf-assist-vm/src/manager.rs:463-493 | every VM in the warm pool is clean, whoever used it before |
| `PoolTheorems.OnePlaceEach` | crates/ebpf-assist-vm/src/manager.rs:428-592 | every VM ever created is in exactly one of active, warm, one task's hands or shut down, and filed under its own id |
| `PoolTheorems.ShutdownAllEmpties` | crates/ebpf-assist-vm/src/manager.rs:569-592 | a shutdown_all with nothing beside it leaves both containers empty and every VM ever created shut down |
| `PoolBounds.BoundedOvershoot` | crates/ebpf-assist-vm/src/manager.rs:442-456 | without warm_up, K tasks never have more than max_total + K - 1 VMs active, warm, held or being created, and none if max_total is 0 |
| `PoolRuns.OvershootReached` | crates/ebpf-assist-vm/src/manager.rs:442-456 | for every K >= 1 and max_total >= 1 a run has max_total + K - 1 active VMs |
| `PoolRuns.WarmUpIgnoresLimits` | crates/ebpf-assist-vm/src/manager.rs:552-566 | for every n and any limits, a run of one warm_up leaves n warm VMs |
| `PoolBounds.WarmBound` | crates/ebpf-assist-vm/src/manager.rs:469-484 | without warm_up and with at most r releases at a time, warm VMs and those about to be pushed stay within max_warm + r - 1, and there are none if max_warm is 0 |
| `PoolBounds.WarmWithinBoth` | crates/ebpf-assist-vm/src/manager.rs:442-484 | without warm_up, K tasks keep them within min(max_warm, max_total) + K - 1, and have none if that minimum is 0 |
| `PoolRuns.WarmBoundReached` | crates/ebpf-assist-vm/src/manager.rs:469-484 | for every K >= 1 and all limits of at least 1 a run of K tasks has min(max_warm, max_total) + K - 1 warm VMs |
| `PoolDrain.RunningBound` | crates/ebpf-assist-vm/src/manager.rs:569-592 | with shutdown_all at any time, the VMs that run, drained ones included, never exceed K max_total + K (K - 1) / 2, and none run if max_total is 0 |
| `PoolDrain.RunningReached` | crates/ebpf-assist-vm/src/manager.rs:569-592 | for every K and max_total >= 1 a run has exactly that many |
| `PoolLocks.StuckOnlyWhenCrossed` | crates/ebpf-assist-vm/src/manager.rs:431-444 | an unfinished task means that some unfinished task advances, or that two have crossed on the two locks and all others wait, which takes the source's order, or that a task waits in a read that never returns |
| `PoolLocks.DeadEndIff` | crates/ebpf-assist-vm/src/manager.rs:431-444 | every unfinished task waits for a held lock iff two have crossed and every other one waits too |
| `PoolLocks.NobodyReads` | crates/ebpf-assist-vm/src/manager.rs:521-532 | while every guest reply fits the limit, no task of any interleaving waits in a read that never returns |
| `PoolLocks.ActiveIsGuarded` | crates/ebpf-assist-vm/src/manager.rs:428-592 | a step without the active lock does the same whatever VMs are active, and leaves them alone |
| `PoolLocks.WarmIsGuarded` | crates/ebpf-assist-vm/src/manager.rs:428-592 | likewise for the pool lock and the warm VMs |
| `PoolLocks.SlowWithoutLocks` | crates/ebpf-assist-vm/src/manager.rs:428-592 | boots, resets and shutdowns go on without a lock; only a user's call keeps one, and besides that one is kept only while the other is awaited |
| `ReadsForever.WaitReached` | crates/ebpf-assist-vm/src/vsock_client.rs:72-87 | for every codec: after an unread reply of 4m + 1 bytes and with a command that keeps drawing replies of 175 bytes, all ending in a brace, repeating that command ends in a call that waits for bytes that never come |
| `ReadsForever.ReadingReached` | crates/ebpf-assist-vm/src/manager.rs:521-532 | a reachable state of the pool in which a task waits so with the active lock in its hands |
| `PoolLocks.CrossedForever` | crates/ebpf-assist-vm/src/manager.rs:431-444 | once crossed, neither task moves again in any continuation |
| `PoolLocks.DeadlockReached` | crates/ebpf-assist-vm/src/manager.rs:431-444 | for every K >= 2 and limits of at least 1, two tasks that only acquire and release reach the crossing |
| `PoolLocks.DeadlockIff` | crates/ebpf-assist-vm/src/manager.rs:431-444 | K tasks can deadlock without warm_up iff the order is the source's, K >= 2, max_total >= 1 and max_warm >= 1 |
| `PoolLocks.DeadlockAnyhowIff` | crates/ebpf-assist-vm/src/manager.rs:431-444 | with warm_up allowed, iff the order is the source's and K >= 2 |
| `PoolLocks.OneOrderIsLive` | crates/ebpf-assist-vm/src/manager.rs:431-434 | with the pool lock always first, in every reachable state some unfinished task advances unless one waits in a read that never returns, and while every reply fits none does |
| `PoolManager.Promised` | crates/ebpf-assist-vm/src/manager.rs:428-460 | what acquire is about to hand out is clean and not active |
| `PoolManager.MicroVmManager.constructor` | crates/ebpf-assist-vm/src/manager.rs:414-420 | starts in the machine's initial state |
| `PoolManager.MicroVmManager.Acquire` | crates/ebpf-assist-vm/src/manager.rs:428-460 | the last warm VM, or an error that changes nothing, or the created VM; always a schedule of the machine, and what is handed out is clean |
| `PoolManager.MicroVmManager.Release` | crates/ebpf-assist-vm/src/manager.rs:463-493 | the VM is warm again iff there was room and its reset succeeded, and shut down otherwise |
| `PoolManager.MicroVmManager.Use` | crates/ebpf-assist-vm/src/manager.rs:521-532 | only the named VM changes, by one call |
| `PoolManager.MicroVmManager.Stats` | crates/ebpf-assist-vm/src/manager.rs:541-549 | counts both containers and changes neither |
| `PoolManager.MicroVmManager.WarmUp` | crates/ebpf-assist-vm/src/manager.rs:552-566 | the pool grows by the VMs that booted before the first failure, up to the count asked for |
| `PoolManager.BootedMeans` | crates/ebpf-assist-vm/src/manager.rs:552-566 | these are all boots before the first that fails, and no others |
| `PoolManager.MicroVmManager.ShutdownAll` | crates/ebpf-assist-vm/src/manager.rs:569-592 | both containers are empty and exactly their VMs have been shut down |
| `Caps.Bracketing` | crates/ebpf-assistd/src/caps.rs:91-97 | for any tree of calls: what a closure asked for is effective when it starts, effective stays within permitted, and the final set is the first minus all that was raised |
| `Caps.RestoredIff` | crates/ebpf-assistd/src/caps.rs:15-25 | the effective set comes back iff nothing effective before is raised inside |
| `Caps.StillEffectiveIff` | crates/ebpf-assistd/src/caps.rs:15-25 | inside a closure a requested capability is still effective iff no inner call raised it too |
| `Caps.ScopeStarts` | crates/ebpf-assistd/src/caps.rs:91-97 | a call whose capabilities are all permitted starts its closure with them and what was effective before; any other runs nothing and changes nothing |
| `Caps.ScopesInOrder` | crates/ebpf-assistd/src/caps.rs:91-97 | of two calls one after the other the second starts with what the first left |
| `Caps.Process.RaiseCaps` | crates/ebpf-assistd/src/caps.rs:29-50 | succeeds iff all are permitted; then all are effective, and otherwise nothing changes |
| `Caps.Process.DropCaps` | crates/ebpf-assistd/src/caps.rs:53-65 | removes exactly these from the effective set |
| `Caps.Process.WithCapsCall` | crates/ebpf-assistd/src/caps.rs:91-97 | a nested run of calls has the effect and the closure entries of the specification |
| `Auth.CheckRefinesHistory` | crates/ebpf-assistd/src/auth.rs:83-123 | an answer is the latest stored one for this user and action if stored less than the cache duration ago and not cleared since, and polkit's own otherwise |
| `Auth.RecordRefines` | crates/ebpf-assistd/src/auth.rs:106-116 | the cache holds for each key exactly the latest stored answer not cleared since, after every store and clear |
| `Auth.RequestAndClearRefine` | crates/ebpf-assistd/src/auth.rs:126-158 | interactive requests and clears keep that refinement |
| `Auth.ExpiredIsDead` | crates/ebpf-assistd/src/auth.rs:90-101 | expired entries that stay in the map never affect an answer: dropping them leaves all answers of any later run of calls as they are |
| `Auth.OtherKeysKeep` | crates/ebpf-assistd/src/auth.rs:106-158 | operations on another user or another action do not change an answer |
| `Auth.ChallengeOutlivesUnlock` | crates/ebpf-assistd/src/auth.rs:106-116 | after a Challenge was stored and whatever an unlock brings, the next check answers Challenge exactly until the entry expires, and polkit's own answer from then on |
| `Auth.AuthManager.CheckAuthorization` | crates/ebpf-assistd/src/auth.rs:83-123 | state and answer are those of the specification, and the refinement is kept |
| `Auth.AuthManager.RequestAuthorization` | crates/ebpf-assistd/src/auth.rs:126-146 | only success is stored |
| `Auth.AuthManager.ClearCache` | crates/ebpf-assistd/src/auth.rs:149-158 | forgets one user's answers, or all |
| `ErrorText.OnlyBetweenQuotes` | crates/ebpf-assistd/src/handler.rs:312-339 | a word that does not touch the quotes occurs in a quoting message iff it occurs in the quoted text |
| `ErrorText.AlreadyAttachedIff` | crates/ebpf-assistd/src/handler.rs:312-339 | "already attached to ..." is coded AlreadyAttached iff the attach point has none of the words searched for earlier |
| `ErrorText.VerifierProbe` | crates/ebpf-assistd/src/handler.rs:328-331 | a kernel function for which it is coded VerifierError |
| `ErrorText.ProgramNotFoundText` | crates/ebpf-assistd/src/handler.rs:322-323 | the loader's missing-program message is coded ProgramNotFound |
| `ErrorText.NotAttachedText` | crates/ebpf-assistd/src/handler.rs:332-333 | the loader's not-attached message is coded NotAttached, past ten other searches |
| `ErrorText.LoadFailedText` | crates/ebpf-assistd/src/handler.rs:312-339 | the context message of a file that cannot be read or parsed has none of the words searched for, so its code is Internal |
| `ErrorText.EscapedIff` | crates/ebpf-assistd/src/loader.rs:174-176 | the quoting of the attach point neither hides nor makes an occurrence of a word without quotes and backslashes |
| `ErrorText.PolicyText` | crates/ebpf-assistd/src/handler.rs:314-315 | a denial is coded PolicyViolation whatever follows |
| `ErrorText.MapNotFoundText` | crates/ebpf-assistd/src/handler.rs:316-317 | the message of a missing map is coded MapNotFound |
| `ErrorText.HexKeyText` | crates/ebpf-assistd/src/handler.rs:318-319 | that of a bad hexadecimal key is coded InvalidKey |
| `ErrorText.KeyText` | crates/ebpf-assistd/src/handler.rs:318-319 | so is that of a bad decimal key |
| `ErrorText.HexValueText` | crates/ebpf-assistd/src/handler.rs:320-321 | that of a bad hexadecimal value is coded InvalidValue |
| `ErrorText.ValueText` | crates/ebpf-assistd/src/handler.rs:320-321 | so is that of a bad decimal value |
| `ErrorText.NoFileText` | crates/ebpf-assistd/src/handler.rs:324-325 | the text of a missing file is coded NotFound |
| `ErrorText.PermissionText` | crates/ebpf-assistd/src/handler.rs:326-327 | that of a denied permission CapabilityError |
| `ErrorText.EscapeRoundTrip` | crates/ebpf-assistd/src/loader.rs:174-176 | the quoted text can be read back, so it never ends before its closing quote |
| `DaemonLoader.LoadKeepsOk` | crates/ebpf-assistd/src/loader.rs:53-111 | a load keeps the table invariant: no denied type, ids as keys, nothing attached without an attach point |
| `DaemonLoader.AttachKeepsOk` | crates/ebpf-assistd/src/loader.rs:170-220 | an attach keeps it: only KProbe, TracePoint and Xdp are ever attached |
| `DaemonLoader.DetachRefines` | crates/ebpf-assistd/src/loader.rs:223-238 | ProgramNotFound iff absent, NotAttached iff present and unattached, success iff attached, on the abstract table |
| `DaemonLoader.UnloadRefines` | crates/ebpf-assistd/src/loader.rs:241-248 | ProgramNotFound iff absent; otherwise exactly this program goes |
| `DaemonLoader.AttachTwice` | crates/ebpf-assistd/src/loader.rs:172-178 | a second attach changes nothing and is coded AlreadyAttached iff the target of the first, as its caller wrote it, has none of the words searched for earlier |
| `DaemonLoader.DoStep` | crates/ebpf-assistd/src/loader.rs:53-248 | only a successful load adds an id, the counter's own and unused; only an unload removes one |
| `DaemonLoader.TableOverRuns` | crates/ebpf-assistd/src/loader.rs:53-248 | after any run the invariant holds, the count is successful loads minus successful unloads, and ids count successful loads |
| `DaemonLoader.DeadIdsStayDead` | crates/ebpf-assistd/src/loader.rs:89-108 | within 2^32 loads an id that has left the table names no later program |
| `DaemonLoader.HookedUntilUnload` | crates/ebpf-assistd/src/loader.rs:232-235 | in every run a program once attached keeps its kernel link until it is unloaded |
| `DaemonLoader.DetachLeavesHook` | crates/ebpf-assistd/src/loader.rs:232-235 | after a successful detach the record says detached and the link is still there |
| `DaemonPolicy.SelectIff` | crates/ebpf-assistd/src/loader.rs:113-167 | a program is selected iff the object has one of the requested name, or a single one and no name is requested, and then it is the first such |
| `DaemonPolicy.LoadMeans` | crates/ebpf-assistd/src/loader.rs:53-111 | by aya's variants: a load of CgroupSkb, Lsm or one not listed is answered PolicyViolation and leaves table and counter alone; any other adds exactly its record, with a warning iff it is Xdp, SchedClassifier or SocketFilter |
| `DaemonPolicy.LoadFails` | crates/ebpf-assistd/src/loader.rs:53-86 | without one of the two capabilities, a parsed object or a selected program a load fails and changes nothing |
| `DaemonPolicy.NoRefusedRecord` | crates/ebpf-assist-common/src/lib.rs:49-73 | after any run no record names a CgroupSkb, Lsm or unlisted program, each has its program's own type, and only KProbe, TracePoint and Xdp programs are attached |
| `DaemonPolicy.AttachMeans` | crates/ebpf-assistd/src/loader.rs:170-220 | an attach succeeds iff the kernel loads and attaches the program and it is a KProbe, an Xdp, or a TracePoint with exactly one colon in its target; then only its own record says so |
| `DaemonPolicy.AttachRefusals` | crates/ebpf-assistd/src/loader.rs:170-185 | an unknown program is answered ProgramNotFound, a missing capability CapabilityError, and an attached program is refused; nothing changes |
| `DaemonPolicy.DetachAndUnloadMean` | crates/ebpf-assistd/src/loader.rs:223-248 | they touch no record but their own, and a detach nothing of it but attached flag and attach point |
| `DaemonLoader.Loader.Load` | crates/ebpf-assistd/src/loader.rs:53-111 | table and result are those of the specification; the process has lost the raised capabilities |
| `DaemonLoader.Loader.Attach` | crates/ebpf-assistd/src/loader.rs:170-220 | as specified; capabilities are raised only for a known, unattached program |
| `DaemonLoader.Loader.Detach` | crates/ebpf-assistd/src/loader.rs:223-238 | for an attached program, attached flag and attach point are cleared and nothing else changes; otherwise nothing changes and the message says which of the two is wrong |
| `DaemonLoader.Loader.Unload` | crates/ebpf-assistd/src/loader.rs:241-248 | exactly this program leaves the table and the counter stays, or the id is unknown and nothing changes |
| `Daemon.PendingWasChecked` | crates/ebpf-assistd/src/handler.rs:281-309 | every request that was let through had its own granted check, and its client has done nothing since |
| `Daemon.AuthorisedRuns` | crates/ebpf-assistd/src/handler.rs:56-62 | in every interleaving each executed load or attach is preceded by its own granted check, and is the request that was checked |
| `Daemon.TableIsLoaderRun` | crates/ebpf-assistd/src/handler.rs:52-133 | over every interleaving the table is what the executed loader operations make of it |
| `Daemon.DaemonTable` | crates/ebpf-assistd/src/handler.rs:52-133 | hence the invariant and the count hold for every interleaving of clients |
| `Daemon.LoadFailureCodes` | crates/ebpf-assistd/src/handler.rs:62-83 | every load without the capabilities is answered CapabilityError, every one whose file does not parse Internal, every one of a denied type PolicyViolation, and every other one with a selected program succeeds |
| `Daemon.OnlyActsGrow` | crates/ebpf-assistd/src/handler.rs:86-133 | nothing but an authorised load or attach adds or attaches a program |
| `Daemon.UnlocksNeverMatter` | crates/ebpf-assistd/src/handler.rs:154-189 | for the same polkit answers: the daemon's own cache carries nothing from unlock to load or attach; with all unlocks taken out of any run, the same programs are loaded and attached and every other step gets the same response |
| `Daemon.UnlocksEnableIff` | crates/ebpf-assistd/src/handler.rs:281-309 | after any run with unlocks in it, a check for load or attach is let through iff it would be granted without them; if polkit grants it by then, as the shipped policy does after an unlock, iff no live stored answer to that user and action refuses |
| `Daemon.PassedIff` | crates/ebpf-assistd/src/handler.rs:281-309 | a check is let through iff authorisation is off, the live stored answer is Authorized, or there is none and polkit grants or fails |
| `Daemon.LockForgetsAll` | crates/ebpf-assistd/src/handler.rs:191-197 | after a lock from any client the next check asks polkit |
| `Privileges.ExecutedWasPermitted` | crates/ebpf-assistd/src/handler.rs:56-118 | in every interleaving with authorisation on and polkit reachable, an executed load was let through by its own check, which found or stored an Authorized for the user and org.ebpf-assist.load, live and not cleared; an executed attach likewise for org.ebpf-assist.attach |
| `Privileges.NoLoadUnpermitted` | crates/ebpf-assistd/src/handler.rs:56-84 | a run in which no Authorized is stored for the user and org.ebpf-assist.load adds no program |
| `Privileges.NoAttachUnpermitted` | crates/ebpf-assistd/src/handler.rs:101-118 | a run in which none is stored for org.ebpf-assist.attach puts no program on a hook |
| `Privileges.PassedIsStored` | crates/ebpf-assistd/src/auth.rs:83-123 | a check that lets a request through leaves a live, uncleared Authorized under the request's own key |
| `Privileges.CheckResponse` | crates/ebpf-assistd/src/handler.rs:281-309 | without a live stored answer: let through if polkit grants or fails, AuthRequired if it asks for interaction, AuthDenied if not |
| `Privileges.CachedResponse` | crates/ebpf-assistd/src/handler.rs:281-309 | with one: by that answer, without asking polkit and without storing |
| `Privileges.CheckDisabled` | crates/ebpf-assistd/src/auth.rs:84-87 | with authorisation off every check lets through and stores nothing |
| `Privileges.UnlockResponds` | crates/ebpf-assistd/src/handler.rs:154-189 | an unlock is granted iff polkit says so, denied otherwise, Internal if polkit fails; only a granted one is stored, under org.ebpf-assist.manage |
| `Privileges.UnlockDisabled` | crates/ebpf-assistd/src/auth.rs:127-130 | with authorisation off an unlock is granted and nothing is stored |
| `Privileges.OtherResponses` | crates/ebpf-assistd/src/handler.rs:86-133 | unload and detach are answered by which programs there are and which are attached, and ask for no authorisation; an act is answered by what the loader did |
| `Privileges.LockClears` | crates/ebpf-assistd/src/handler.rs:191-197 | a lock keeps the answers of other users iff the client's is known |
| `Daemon.Server.CheckAuth` | crates/ebpf-assistd/src/handler.rs:281-309 | refuses exactly on NotAuthorized and Challenge; an error of polkit lets the request through |
| `Daemon.Server.Execute` | crates/ebpf-assistd/src/handler.rs:62-83 | the second lock scope of load and attach; capabilities never grow by it |
| `Daemon.Server.HandleLoad` | crates/ebpf-assistd/src/handler.rs:56-84 | a load is checked under org.ebpf-assist.load; refused, it changes nothing but the cache; let through, the loader acts |
| `Daemon.Server.HandleAttach` | crates/ebpf-assistd/src/handler.rs:101-118 | an attach is checked under org.ebpf-assist.attach, likewise |
| `Daemon.Server.Unlock` | crates/ebpf-assistd/src/handler.rs:154-189 | asks for MANAGE and answers accordingly |
| `Daemon.Server.Lock` | crates/ebpf-assistd/src/handler.rs:191-197 | clears for the client's uid, or for all |
| `Numbers.AccumulateValue` | crates/ebpf-assistd/src/loader.rs:443-449 | the checked multiply-and-add loop fails iff there is a non-digit or the value overflows, and computes the value otherwise |
| `Numbers.ParseIff` | crates/ebpf-assistd/src/loader.rs:490-496 | exactly an optional plus and digits whose value fits the width are accepted |
| `Numbers.WritesIff` | crates/ebpf-assistd/src/loader.rs:443-449 | what is accepted, by the digits 0-9, a-f and A-F themselves |
| `Numbers.ParseKeyIff` | crates/ebpf-assistd/src/loader.rs:443-449 | a key is read as v iff v < 2^32 and it is "0x" or "0X" before a base-16 numeral of v, or has no such prefix and is a base-10 numeral of v |
| `Numbers.ParseValueIff` | crates/ebpf-assistd/src/loader.rs:490-496 | a value likewise, with v < 2^64 |
| `Numbers.ParseIndexIff` | crates/ebpf-assistd/src/loader.rs:468-470 | an array index is decimal and below 2^32 |
| `Numbers.HexRoundTrip` | crates/ebpf-assistd/src/loader.rs:415-416 | parsing "0x" and the fixed-width text returns the number, for every u32 and u64 |
| `Numbers.DecimalRoundTrip` | crates/ebpf-assistd/src/loader.rs:368-375 | an array index survives printing and parsing |
| `Numbers.DecimalIsRead` | crates/ebpf-assistd/src/loader.rs:443-496 | decimal texts are read back as key and as value |
| `Numbers.HexIsLower` | crates/ebpf-assistd/src/loader.rs:415-416 | fixed-width texts have exactly that width and are lower case |
| `Numbers.DecimalHasNoZero` | crates/ebpf-assistd/src/loader.rs:368-375 | decimal texts have no leading zero |
| `Numbers.BareKeyIff` | crates/ebpf-assistd/src/loader.rs:443-449 | a dumped key without prefix names the same key iff it is below 10 |
| `MapText.HashDumpReplay` | crates/ebpf-assistd/src/loader.rs:396-440 | replaying a quiescent dump with the prefix into an empty map with room rebuilds the first 100 entries, and the whole map iff it has at most 100 |
| `MapText.ArrayDumpReplay` | crates/ebpf-assistd/src/loader.rs:380-391 | replaying an array dump sets the dumped cells and no others |
| `MapText.WriteHashIff` | crates/ebpf-assistd/src/loader.rs:475-482 | a write goes through iff both texts are numbers in range and the key is present or there is room; exactly this key is set, replacing what was there |
| `MapText.WriteDecimal` | crates/ebpf-assistd/src/loader.rs:475-482 | writing k and v in decimal makes m[k := v], for a new key and a present one |
| `MapText.WriteArrayIff` | crates/ebpf-assistd/src/loader.rs:465-474 | an array write goes through iff the index is decimal and in range and the value is a number in range; exactly its cell is set |
| `MapText.HashEntryMeans` | crates/ebpf-assistd/src/loader.rs:410-437 | an entry's texts, behind the prefix, and its number are the pair, with 8 and 16 digits |
| `MapText.CellEntryMeans` | crates/ebpf-assistd/src/loader.rs:368-391 | an array entry names its index in decimal, and its value as text and number |
| `MapText.DumpLimit` | crates/ebpf-assistd/src/loader.rs:420-437 | a dump has 100 entries, or all if there are fewer |
| `MapText.FailedReadsSkipped` | crates/ebpf-assistd/src/loader.rs:420-437 | a read that fails makes no difference to a dump, wherever it happens |
| `MapText.HashMapFile.Dump` | crates/ebpf-assistd/src/loader.rs:420-437 | the loop delivers the first 100 readable entries, skipping failed reads without counting them |
| `MapText.HashMapFile.Read` | crates/ebpf-assistd/src/loader.rs:410-419 | an entry iff the key parses and is present |
| `MapText.HashMapFile.Write` | crates/ebpf-assistd/src/loader.rs:475-482 | sets exactly the parsed key to the parsed value if both parse and the key is present or there is room, and changes nothing otherwise |
| `MapText.HashMapFile.Delete` | crates/ebpf-assistd/src/loader.rs:506-512 | removes exactly the parsed key, if it parses and is present |
| `MapText.ArrayFile.Dump` | crates/ebpf-assistd/src/loader.rs:379-391 | the first min(length, 100) cells in order |
| `MapText.ArrayFile.Write` | crates/ebpf-assistd/src/loader.rs:465-474 | sets one cell if index and value parse and the index is in range |

## Left out

- Cancelled futures, `send_command_timeout` and arbitrary closures given to `with_vm` and `with_vm_async`: they can
  stop an exchange halfway, and no protocol property survives that. Users of a VM make `MicroVm`'s typed calls.
- The interleaved `MicroVmManager` is a step machine on values: the model of interleaving has no heap. `PoolManager` is
  the object for one task; in it a VM is the value of a `MicroVm` object rather than the object itself.
- `HostLink.OversizeReply`: assumes that the stream takes what is written. The agent blocks in `write_all` while a reply
  that does not fit the stream's buffers is unread, so the commands that it carries out in the model are carried out
  when the host has read on.
- `HostLink.JunkFailsAll`: the same.
- `HostLink.LateForever`: the same.
- `MicroVms.MirrorSurvivesIff`: the same, and it says nothing about the calls after the N/4-th. If 4 divides N,
  `MirrorAfterWindow` does; if not, a length is put together from the last bytes of one reply and the first of the
  next, and what follows depends on all lengths (`WaitReached` is one case).
- `MicroVms.MirrorAfterWindow`: the same assumption on the stream.
- `ReadsForever.WaitReached`: the same.
- `HostLink.GuestClient.SendCommand`: a read that never returns is a result, StillWaiting, which leaves the connection
  unusable; `PoolLocks` treats a task that would get it as one that does not advance.
- VM ids are fresh by assumption (they are random UUIDs), and a booted VM is clean, which `MicroVm.Connect` proves of a
  new agent.
- JSON: the codec is a parameter with a contract that serde_json and compact JSON objects meet. The text of a parse
  error in `Invalid command` replies is not modelled.
- The order of lists collected from hash maps: `List` and `MapList` replies hold sets.
- The trigger executors and the trace reader (their text is a parameter), `list_active`, health checks and crash
  reports: they keep no state of their own.
- Firecracker, its HTTP API, the CONNECT handshake and KVM checks: a boot or a connection attempt succeeds or fails.
- The guest's counter wraps, as in a release build; a debug build would stop instead.
- `Caps.Process.RaiseCaps`: does not model failures of capget and capset other than the kernel's subset rule.
- The daemon's messages about capabilities, denied types and program selection are shortened; `{:?}` escapes quotes and
  backslashes only, so control characters in an attach point are not modelled.
- Map types other than u32-to-u64 hash maps and arrays of u64, the choice of the map by program and name, and failed reads
  of single array cells.
- `check_permitted_caps`, `List`, `Status`, `Ping` and `AuthStatus` of the daemon are steps that change nothing; their
  replies are not modelled.
