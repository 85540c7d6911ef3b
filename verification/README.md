# sdwan: verified model of the overlay network

This project models the core of an SD-WAN: a controller that registers nodes and hands out virtual
addresses, the nodes' packet path, the election of peer-to-peer transports, the relay, and the STUN
codec the transports speak. It states, and proves with Dafny 4.11, what these parts keep over every run.

`dafny verify dfyconfig.toml` checks everything.

| file | what it models |
|---|---|
| `ControllerProtocol.dfy` | the session registry, VIP allocation from the local configuration and what clients are told, as interleaved steps |
| `NodeManager.dfy` | a link and the client's node table behind it |
| `ControllerServer.dfy` | the controller server as a class, and the runs that lose an entry |
| `NodeService.dfy` | VIP allocation over the database: reuse pool and index counter |
| `RelayServer.dfy` | the relay's two maps and their sweep |
| `TransportTable.dfy` | a node's transports, elections and heartbeats over AsyncTask |
| `Election.dfy` | offers, answers and key agreement between node sessions |
| `VirtualRouter.dfy` | VNAT with its reverse cache, rules and route choice |
| `RouteRule.dfy` | rule sorting, filtering and matching, and the diagnostic simulator |
| `CheckSum.dfy`, `IpLayerPacket.dfy`, `PacketCodecs.dfy`, `PingPacketProcessor.dfy` | checksums, in-place packet editing, the packet codecs, the ping stamps |
| `Cidr.dfy`, `IPUtil.dfy` | address blocks and address text |
| `Stun.dfy` | the STUN message codec |
| `Bytes.dfy`, `Names.dfy`, `Wrappers.dfy` | octets and Java integers, identifiers, results |

## How the model is built

The protocols are transition systems. A step is one map operation, one database statement or one message;
steps of different channels, requests or nodes interleave in any order, and a theorem about `Run(steps)`
holds for every sequence of steps. Each class of the source that updates fields is a class here: its
methods perform the source's statements in order, and their contracts tie the new state to the steps, so
what is proved of all runs holds of every sequence of calls.

Java's arithmetic is explicit: 32-bit sums wrap (`Int32`), `readByte` is signed, `writeShort` keeps 16
bits. An exception is an `Err`, a `None` or a false result, and the state is the one the code leaves.

Where the code and its evident intent differ, the model follows the code and the difference is a result:

- The odd trailing octet of a checksummed buffer is read signed (`CheckSum.AgreesWithRfc1071`).
- The header checksum covers 20 octets whatever the header length (`IpLayerPacket.RebuiltHeaderVerifies`).
- The pseudo-header's length is that of the octets behind the header in the buffer, not the one the total length
  field announces (`IpLayerPacket.Prefix`, `PacketCodecs.LengthMatches`).
- The pool guard looks at the index before the increment (`NodeService.FreshIsFirst`, `TwoBeyondThePool`,
  `CounterBound`).
- Closing a channel removes the VIP's entry in the channel space, and pushes it offline, whoever holds it by
  then (`ControllerProtocol.RunAgreesIff`, `RunReplicatesIff`, `ControllerServer.InterruptedCloseHappens`,
  `CloseKeepsOthersIff`).
- The loop over the pool does not look back, so NotEnough can come with a VIP free
  (`ControllerProtocol.RefusalsAreJustified`, `ControllerServer.ReleasedBehindHappens`).
- A push can overtake an entry of the node list, at the controller or at the client, and the older entry stays
  (`NodeManager.ExactUnlessOvertaken`, `ControllerServer.OvertakenEntryHappens`).
- Overlapping requests on one node can leak a VIP or give it away twice (`NodeService.RunIsExactIff`,
  `DeleteDuringRegistrationLeaks`, `OverlappingDeletesShareVip`).
- An offer delivered after its node has restarted leaves a key nobody else has (`Election.EndsAgreeIff`,
  `StaleOfferAfterRestart`).
- A bind answered during a sweep may be answered a token about to go (`RelayServer.RenewalHoldsIff`).
- The mask address is wrong at prefix lengths 0 and 32 (`Cidr.MaskAddressBoundary`).
- `XorMappedAddress` is written unmasked and read masked, `OtherAddress` comes back as `ChangedAddress`
  (`Stun.RoundTrip`).
- `Math.abs` leaves the smallest int negative, so one source hash has no nexthop (`VirtualRouter.PickFails`).
- A heartbeat timeout removes a VIP's entry even if it is a newer transport
  (`TransportTable.TimeoutDropsOtherIff`, `LateHeartbeatDropsNewTransport`).
- A destination pool also catches replies of hosts in it that were addressed directly
  (`VirtualRouter.UntranslatedIffOutsidePools`).

## Assumptions

- In the controller every access to shared state is a step of its own: a compare-and-set, an entry in the
  channel space, the registry entry, the reading of one node's entry for a list, one push, each close listener.
  A channel's messages and its close listeners do not overlap, since they run on one event loop. A loop over
  the registered channels visits each channel that stays registered, and possibly newcomers, once.
- In the transport table a computeIfAbsent with its function is one step.
- Every database statement is atomic and every request commits. Locks are not used, so the results hold
  with and without the tenant lock of `assignNodeInfo`.
- Generated ids and tokens are new. Clocks and time stamps are parameters. Timeouts that are due fire before
  the clock moves on, and the relay's sweep takes no time, though requests run between its statements.
- Cache expiry is removal at any moment. Packets that are neither TCP, UDP nor ICMP get a random cache key,
  under which nothing is ever found.
- Diffie-Hellman is a function with the commutation law, the cipher a pair of functions one of which undoes
  the other; every session keeps one VIP and one key pair from its start on.
- One tenant. Two channels or nodes never share an identity.
- Packets have at least the 20 octets of the fixed header; on shorter ones every read throws. Buffers are
  the octets from reader index 0.

## Model

| member | source | states |
|---|---|---|
| ControllerProtocol.ReplicasConverge | sdwan-core/src/main/java/io/jaspercloud/sdwan/tranport/ControllerServer.java:216-274 | after any run of registrations, re-registrations, address updates, closes and deliveries, interleaved access by access, that has come to rest and in which every offline push was safe, each registered client has been told exactly the registered VIPs, each with the addresses its channel claimed last, as the step list alone says; and with everything arrived and put, the client's node table is just that if and only if no push overtook an entry of a node list on its way into the table |
| ControllerProtocol.RunStores | sdwan-core/src/main/java/io/jaspercloud/sdwan/tranport/ControllerServer.java:236-238 | in every state of a run a channel's stored addresses are those of its last update, or of the registration message that came last to storing its own |
| ControllerProtocol.RunReplicatesIff | sdwan-core/src/main/java/io/jaspercloud/sdwan/tranport/ControllerServer.java:335-363 | what the clients have been told matches the registry in every state of a run, if and only if no close in it pushes offline to a client that has been told of the VIP's next holder already |
| ControllerProtocol.ReplicatedIff | sdwan-core/src/main/java/io/jaspercloud/sdwan/tranport/ControllerServer.java:350-363 | the same for one step, from any state with the invariant |
| ControllerProtocol.RunAgreesIff | sdwan-core/src/main/java/io/jaspercloud/sdwan/tranport/ChannelSpace.java:26-34 | the channel space leads to every registered channel in every state of a run, if and only if no close in it clears an entry whose VIP another channel is using by then |
| ControllerProtocol.AgreeIff | sdwan-core/src/main/java/io/jaspercloud/sdwan/tranport/ChannelSpace.java:26-34 | the same for one step, from any state with the invariant |
| ControllerProtocol.UnsafeNeedsRebinding | sdwan-core/src/main/java/io/jaspercloud/sdwan/tranport/service/LocalConfigSdWanDataService.java:163-170 | such an unsafe step comes only when another channel has bound the closing channel's VIP again |
| ControllerProtocol.WonSince | sdwan-core/src/main/java/io/jaspercloud/sdwan/tranport/service/LocalConfigSdWanDataService.java:153-170 | a VIP that is bound now and was not bound after the first i steps of a run was won in between by a compare-and-set |
| ControllerProtocol.RunInvariant | sdwan-core/src/main/java/io/jaspercloud/sdwan/tranport/ControllerServer.java:216-274 | in every reachable state channels holding a VIP and bound VIPs of the pool are one bijection; an entry of the channel space belongs to the VIP's holder or to a channel about to clear it; a registration has found every VIP it passed taken, save those released behind it; every link accounts for what its client will know |
| ControllerProtocol.ForwardingReachesHolder | sdwan-core/src/main/java/io/jaspercloud/sdwan/tranport/ControllerServer.java:182-214 | in every reachable state a message forwarded to a VIP goes to its one holder or to a channel about to clear the entry, and, as long as no close clears an entry in use, to the registered channel |
| ControllerProtocol.RefusalsAreJustified | sdwan-core/src/main/java/io/jaspercloud/sdwan/tranport/service/LocalConfigSdWanDataService.java:142-161 | when a registration fails with NotEnough, the pool VIPs not bound are exactly those released behind its loop and not bound since; VipBound exactly when the fixed VIP of the MAC address is bound, SysError exactly when it is outside the pool |
| NodeManager.ExactUnlessOvertaken | sdwan-node/src/main/java/io/jaspercloud/sdwan/node/VirtualRouter.java:272-329 | a client at rest knows exactly what it was told, if and only if no push about a VIP fell between the reading and the putting of a different entry for it, or another push about it came later |
| NodeManager.FrontFirst | sdwan-node/src/main/java/io/jaspercloud/sdwan/node/NodeManager.java:16-22 | taking a link's messages one by one from the front leads to the same knowledge as the whole backlog |
| NodeManager.NodeManager.AddAll | sdwan-node/src/main/java/io/jaspercloud/sdwan/node/VirtualRouter.java:327-329 | the loop of the start-up thread, undisturbed, puts every listed node over the table |
| ControllerServer.ReleasedBehindTheLoop | sdwan-core/src/main/java/io/jaspercloud/sdwan/tranport/service/LocalConfigSdWanDataService.java:153-160 | from every state reached safely with a full pool: a VIP released behind a registration's loop is not tried again, and NotEnough is about to be raised with that VIP free |
| ControllerServer.ReleasedBehindHappens | sdwan-core/src/main/java/io/jaspercloud/sdwan/tranport/service/LocalConfigSdWanDataService.java:153-160 | such a run from the start, with a pool of one VIP |
| ControllerServer.InterruptedCloseLosesSuccessor | sdwan-core/src/main/java/io/jaspercloud/sdwan/tranport/ChannelSpace.java:26-34 | from every reachable state: a node that reconnects with its fixed VIP between two listeners of its old channel's close ends registered, but not in the channel space and known to no client |
| ControllerServer.InterruptedCloseHappens | sdwan-core/src/main/java/io/jaspercloud/sdwan/tranport/ChannelSpace.java:26-34 | such a run from the start |
| ControllerServer.CloseKeepsOthersIff | sdwan-core/src/main/java/io/jaspercloud/sdwan/tranport/ChannelSpace.java:26-34 | after an uninterrupted close another registered channel keeps its space entry, and a client the entry for that channel's VIP, if and only if the two channels' VIPs differ; the database service lets them be equal on a fast reconnect |
| ControllerServer.OvertakenEntryStays | sdwan-node/src/main/java/io/jaspercloud/sdwan/node/VirtualRouter.java:272-329 | from every state reached safely in which a client holds an entry not yet put: if the entry's node goes offline first, the client ends, everything arrived and put, with a node that is not registered |
| ControllerServer.OvertakenEntryHappens | sdwan-node/src/main/java/io/jaspercloud/sdwan/node/VirtualRouter.java:272-329 | such a run from the start, with two nodes |
| ControllerServer.LeaveAt | sdwan-core/src/main/java/io/jaspercloud/sdwan/tranport/ControllerServer.java:268-274 | the offline listeners of a close, however many, take its VIP from what every registered client has been told, and nothing else |
| ControllerServer.SettleLoop | sdwan-core/src/main/java/io/jaspercloud/sdwan/tranport/service/LocalConfigSdWanDataService.java:153-160 | the loop over the pool binds its first free VIP, or fails with NotEnough when there is none |
| ControllerServer.RegistrationIsReachable | sdwan-core/src/main/java/io/jaspercloud/sdwan/tranport/ControllerServer.java:216-274 | a registration handled without interruption is a run of the interleaved steps |
| ControllerServer.NodeUpdateIsReachable | sdwan-core/src/main/java/io/jaspercloud/sdwan/tranport/ControllerServer.java:133-151 | an address update handled without interruption is a run of the interleaved steps |
| ControllerServer.CloseIsReachable | sdwan-core/src/main/java/io/jaspercloud/sdwan/tranport/ControllerServer.java:350-363 | a close handled without interruption is a run of the interleaved steps, and a safe one: the VIP it clears and pushes offline is not bound again before it is through |
| ControllerServer.SafelyReachable | sdwan-core/src/main/java/io/jaspercloud/sdwan/tranport/ControllerServer.java:216-363 | after a run all of whose clearings and pushes were safe, such as every sequence of uninterrupted messages and closes, the space leads to every registered channel and the clients have been told the registry |
| ControllerServer.ControllerServer.AssignVip | sdwan-core/src/main/java/io/jaspercloud/sdwan/tranport/service/LocalConfigSdWanDataService.java:142-161 | the fixed VIP of the MAC, or the first free VIP of the pool; refused with SysError, VipBound or NotEnough exactly in their cases, and then nothing is bound |
| ControllerServer.ControllerServer.Assign | sdwan-core/src/main/java/io/jaspercloud/sdwan/tranport/ControllerServer.java:224-235 | a registered channel keeps its VIP and changes no map; otherwise the chosen VIP is bound, entered in the channel space and the registry, or the maps stay and nothing but the refusal is sent |
| ControllerServer.ControllerServer.NodeInfoList | sdwan-core/src/main/java/io/jaspercloud/sdwan/tranport/ControllerServer.java:239-248 | the node list built channel by channel is the registry: every registered VIP with its holder's addresses |
| ControllerServer.ControllerServer.FinishSession | sdwan-core/src/main/java/io/jaspercloud/sdwan/tranport/ControllerServer.java:236-274 | the request's addresses are the channel's; it is sent a node list of the registry and its own NodeOnline, every other registered channel just the NodeOnline with these addresses, no other channel anything, and no other addresses change; one more offline listener |
| ControllerServer.ControllerServer.ProcessRegist | sdwan-core/src/main/java/io/jaspercloud/sdwan/tranport/ControllerServer.java:216-287 | a registered channel keeps its VIP, another gets the one assignVip chooses, in all three maps; then the request's addresses are stored, announced to every registered channel and answered with the registry; or nothing changes but that the refusal is sent; and all of it is a safe run |
| ControllerServer.ControllerServer.ProcessUpdateNodeInfo | sdwan-core/src/main/java/io/jaspercloud/sdwan/tranport/ControllerServer.java:133-151 | the channel's addresses are the request's, registered or not; a registered channel's VIP goes with them to every registered channel and to no other; without a VIP only SysError is answered |
| ControllerServer.ControllerServer.PushAll | sdwan-core/src/main/java/io/jaspercloud/sdwan/tranport/ControllerServer.java:335-348 | exactly the registered channels get the message, at the end of their links |
| ControllerServer.ControllerServer.Close | sdwan-core/src/main/java/io/jaspercloud/sdwan/tranport/ControllerServer.java:350-363 | the close listeners in registration order: heartbeat entry, registry entry, VIP and channel space entry go, the three maps otherwise staying, and of what each remaining client has been told exactly the VIP |
| ControllerServer.ControllerServer.GetChannel | sdwan-core/src/main/java/io/jaspercloud/sdwan/tranport/ChannelSpace.java:21-24 | between uninterrupted messages: finds the channel registered with the VIP, or else only its holder or a channel about to clear the entry; with nothing under way it finds exactly the registered channel |
| ControllerServer.ControllerServer.Connect | sdwan-core/src/main/java/io/jaspercloud/sdwan/tranport/ControllerServer.java:430-442 | a new connection has the time of its connecting |
| ControllerServer.ControllerServer.Heart | sdwan-core/src/main/java/io/jaspercloud/sdwan/tranport/ControllerServer.java:101-109 | a heartbeat renews the time of a connected channel and of no other |
| ControllerServer.ControllerServer.Sweep | sdwan-core/src/main/java/io/jaspercloud/sdwan/tranport/ControllerServer.java:485-502 | at any time, the sweep calls close on exactly the channels silent for longer than the timeout and forgets exactly them |
| NodeService.RunIsDistinct | sdwan-controller/src/main/java/io/jaspercloud/sdwan/server/service/impl/NodeServiceImpl.java:315-366 | under any interleaving of statements, even of requests on one node, pool rows hold distinct VIPs not beyond the counter, and no two requests claim one index |
| NodeService.StepIsMonotonic | sdwan-controller/src/main/java/io/jaspercloud/sdwan/server/service/impl/TenantServiceImpl.java:166-172 | the counter never decreases and rows keep their VIPs |
| NodeService.RunIsExactIff | sdwan-controller/src/main/java/io/jaspercloud/sdwan/server/service/impl/NodeServiceImpl.java:142-366 | under any interleaving of statements, requests on one node overlapping in any way: the VIPs owned by nodes and by requests under way are in every state of a run exactly the used rows, each with one owner, if and only if every store finds its node's record there and without a VIP, and every release finds the VIP it has read still the node's, or nobody's |
| NodeService.ExactIff | sdwan-controller/src/main/java/io/jaspercloud/sdwan/server/service/impl/NodeServiceImpl.java:142-366 | the same for one statement, from any state in which it holds |
| NodeService.RunIsExact | sdwan-controller/src/main/java/io/jaspercloud/sdwan/server/service/impl/NodeServiceImpl.java:315-355 | in particular it holds whenever requests on one node do not overlap |
| NodeService.OverlappingDeletesShareVip | sdwan-controller/src/main/java/io/jaspercloud/sdwan/server/service/impl/NodeServiceImpl.java:150-155 | a run from the start in which two overlapping deletes of one node give its VIP back twice, and two requests end up holding it |
| NodeService.DeleteDuringRegistrationLeaks | sdwan-controller/src/main/java/io/jaspercloud/sdwan/server/service/impl/NodeServiceImpl.java:284-291 | a run from the start in which a node is deleted while its registration holds a VIP not yet stored; it ends with a used row that nobody owns |
| NodeService.CounterBound | sdwan-controller/src/main/java/io/jaspercloud/sdwan/server/service/impl/NodeServiceImpl.java:322-327 | with at most m requests at once the counter and every index handed out stay at or below count + m |
| NodeService.FreshIsFirst | sdwan-controller/src/main/java/io/jaspercloud/sdwan/server/service/impl/NodeServiceImpl.java:320-328 | undisturbed, a request takes the first usable index above the counter; it fails exactly when none is left up to count + 1; the VIP lies in the pool exactly when a usable index of the pool was left |
| NodeService.TwoBeyondThePool | sdwan-controller/src/main/java/io/jaspercloud/sdwan/server/service/impl/NodeServiceImpl.java:323-324 | with the pool used up, the indexes count and count + 1 are handed out, both outside the block, and then NotEnough is raised |
| NodeService.GuardedFreshIsExact | sdwan-controller/src/main/java/io/jaspercloud/sdwan/server/service/impl/NodeServiceImpl.java:323-324 | a guard on the next index instead gives up exactly the indexes outside the pool |
| NodeService.PoolMatchesList | sdwan-common/src/main/java/io/jaspercloud/sdwan/support/Cidr.java:71-78 | inside the block the allocator accepts an index exactly when its address is in the list of available addresses the local configuration starts from |
| NodeService.IndexNamesVip | sdwan-common/src/main/java/io/jaspercloud/sdwan/support/Cidr.java:162-166 | indexes below 2^32 name different addresses, inside the block exactly when below count |
| NodeService.NodeServiceImpl.ReuseIp | sdwan-controller/src/main/java/io/jaspercloud/sdwan/server/service/impl/NodeServiceImpl.java:337-355 | claims one unused row, and finds none only when all are used |
| NodeService.NodeServiceImpl.SelectIdx | sdwan-controller/src/main/java/io/jaspercloud/sdwan/server/service/impl/NodeServiceImpl.java:357-366 | terminates and takes the index after the stored counter, however far the local one lags behind |
| NodeService.NodeServiceImpl.AssignIp | sdwan-controller/src/main/java/io/jaspercloud/sdwan/server/service/impl/NodeServiceImpl.java:315-335 | reuses a row while there is one; otherwise the counter decides, by the value seen when the request began |
| NodeService.NodeServiceImpl.FreshIp | sdwan-controller/src/main/java/io/jaspercloud/sdwan/server/service/impl/NodeServiceImpl.java:320-335 | the loop over the counter with its guard: the index taken, the row inserted and where the counter then stands |
| NodeService.NodeServiceImpl.AssignNodeInfo | sdwan-controller/src/main/java/io/jaspercloud/sdwan/server/service/impl/NodeServiceImpl.java:256-291 | a node with a VIP keeps it and touches nothing; any other node gets an unused row's VIP if there is one, else the first usable index above the counter with a new row, and none exactly when all rows are used and no index up to count + 1 is usable; the VIP belongs to no other node, save one whose record is about to go |
| NodeService.NodeServiceImpl.Del | sdwan-controller/src/main/java/io/jaspercloud/sdwan/server/service/impl/NodeServiceImpl.java:142-158 | frees the rows of the node's VIP and removes the record, leaving a reachable state |
| RelayServer.MapsAreInverse | sdwan-core/src/main/java/io/jaspercloud/sdwan/tranport/RelayServer.java:42-59 | for every run of binds and sweeps, interleaved map operation by map operation, token to address and address to token are inverse outside the two removals of one entry, and a token leads only where it was issued |
| RelayServer.ExpiresWithinThreeTimeouts | sdwan-core/src/main/java/io/jaspercloud/sdwan/tranport/RelayServer.java:156-170 | with a sweep every two timeouts no entry outlives its last heartbeat by more than three timeouts |
| RelayServer.KeepsToken | sdwan-core/src/main/java/io/jaspercloud/sdwan/tranport/RelayServer.java:42-53 | a client that goes on binding at least once per timeout keeps the token of its first bind |
| RelayServer.IssuedForGood | sdwan-core/src/main/java/io/jaspercloud/sdwan/tranport/RelayServer.java:45-52 | a token once issued keeps its address for good, so it never delivers to another client |
| RelayServer.RenewalHoldsIff | sdwan-core/src/main/java/io/jaspercloud/sdwan/tranport/RelayServer.java:42-59 | the token answered to a bind leads back to the client however requests and sweep go on at that time, if and only if the sweep has not judged the address expired already |
| RelayServer.RenewedTooLate | sdwan-core/src/main/java/io/jaspercloud/sdwan/tranport/RelayServer.java:161-168 | a run from the start in which it has: the client is answered its old token and loses it to the same sweep |
| RelayServer.RelayServer.ProcessBindRelayRequest | sdwan-core/src/main/java/io/jaspercloud/sdwan/tranport/RelayServer.java:42-59 | a known address gets its old token and a heartbeat of now, a new one the generated token, which leads back to the address; nothing else changes in the two maps |
| RelayServer.RelayServer.Forward | sdwan-core/src/main/java/io/jaspercloud/sdwan/tranport/RelayServer.java:84-94 | a token is forwarded to exactly the client that holds it |
| RelayServer.RelayServer.RunSweep | sdwan-core/src/main/java/io/jaspercloud/sdwan/tranport/RelayServer.java:156-170 | exactly the clients silent for longer than the timeout go, and with them exactly their tokens; who stays is unchanged |
| CheckSum.CalcTcpUdp | sdwan-tun/src/main/java/io/jaspercloud/sdwan/tun/CheckSum.java:11-26 | the loops compute the word sum with a signed trailing octet, in Java int arithmetic |
| CheckSum.CalcHighLow | sdwan-tun/src/main/java/io/jaspercloud/sdwan/tun/CheckSum.java:28-36 | the fold loop ends and gives the complement of the end-around sum for every int, negative ones included |
| CheckSum.CalcIp | sdwan-tun/src/main/java/io/jaspercloud/sdwan/tun/CheckSum.java:38-54 | sum and fold of one buffer |
| CheckSum.FoldRemainder | sdwan-tun/src/main/java/io/jaspercloud/sdwan/tun/CheckSum.java:29-34 | folding preserves the sum modulo 0xffff |
| CheckSum.AccumulatorFits | sdwan-tun/src/main/java/io/jaspercloud/sdwan/tun/CheckSum.java:11-26 | for every datagram of at most 65535 octets the accumulator with the pseudo-header never overflows |
| CheckSum.OnesSumIsFold | sdwan-tun/src/main/java/io/jaspercloud/sdwan/tun/CheckSum.java:28-36 | folding the plain word sum is one's complement addition as section 1 of RFC 1071 defines it |
| CheckSum.AgreesWithRfc1071 | sdwan-tun/src/main/java/io/jaspercloud/sdwan/tun/CheckSum.java:11-36 | the result is the RFC 1071 checksum of pseudo-header and segment if and only if not (odd length, last octet at least 0x80, true sum at least 65536) |
| CheckSum.Rfc1071Example | sdwan-tun/src/main/java/io/jaspercloud/sdwan/tun/CheckSum.java:11-36 | the worked example in section 3 of RFC 1071: sum 2ddf0, folded ddf2, and the checksum 220d |
| CheckSum.StoredChecksumVerifies | sdwan-tun/src/main/java/io/jaspercloud/sdwan/tun/CheckSum.java:11-36 | zero the field, sum, store: a receiver's check succeeds if and only if the sum did not deviate |
| IPUtil.Ip2LongLoop | sdwan-common/src/main/java/io/jaspercloud/sdwan/util/IPUtil.java:9-19 | the shift loop gives the big-endian value of the four fields |
| IPUtil.Ip2BytesLoop | sdwan-common/src/main/java/io/jaspercloud/sdwan/util/IPUtil.java:39-46 | the loop gives the four octets |
| IPUtil.Int2IpOctets | sdwan-common/src/main/java/io/jaspercloud/sdwan/util/IPUtil.java:21-28 | the text of a long, negative or beyond 32 bits included, is its four low octets in dotted form |
| IPUtil.BytesRoundTrip | sdwan-common/src/main/java/io/jaspercloud/sdwan/util/IPUtil.java:30-46 | octets written as text read back as themselves |
| IPUtil.DottedExample | sdwan-common/src/main/java/io/jaspercloud/sdwan/util/IPUtil.java:30-37 | the octets 10, 5, 0, 254 are written 10.5.0.254 |
| IPUtil.TextRoundTrip | sdwan-common/src/main/java/io/jaspercloud/sdwan/util/IPUtil.java:30-46 | text read and written again is itself exactly when no field has a leading zero |
| IPUtil.LongRoundTrip | sdwan-common/src/main/java/io/jaspercloud/sdwan/util/IPUtil.java:9-28 | int2ip and ip2long undo each other modulo 2^32 |
| Cidr.ParseIsValid | sdwan-common/src/main/java/io/jaspercloud/sdwan/support/Cidr.java:39-63 | parsing succeeds for exactly the prefix lengths 0 to 32 and gives a block that contains the address |
| Cidr.BlockInSpace | sdwan-common/src/main/java/io/jaspercloud/sdwan/support/Cidr.java:93-96 | a block contains its address, is aligned and lies within the 32-bit space |
| Cidr.ContainsIsPrefixEquality | sdwan-common/src/main/java/io/jaspercloud/sdwan/support/Cidr.java:147-154 | the interval test is equality of the leading bits |
| Cidr.StaticAgreesWithInstance | sdwan-common/src/main/java/io/jaspercloud/sdwan/support/Cidr.java:134-154 | the static and the instance test agree for prefix lengths 1 to 32; the static one refuses all others |
| Cidr.TransformIsBijection | sdwan-common/src/main/java/io/jaspercloud/sdwan/support/Cidr.java:184-194 | transform succeeds exactly inside the source block with equal prefix lengths, keeps the offset, lands in the target block and is undone by swapping the blocks |
| Cidr.MaskAddressBoundary | sdwan-common/src/main/java/io/jaspercloud/sdwan/support/Cidr.java:118-122 | the mask address is the netmask exactly for prefix lengths 1 to 31 |
| Cidr.BlockTexts | sdwan-common/src/main/java/io/jaspercloud/sdwan/support/Cidr.java:39-63 | a parsed block's texts are its first address (the address less its remainder modulo the count), its last, the one after the first, and the netmask, 127.255.255.255 at prefix lengths 0 and 32 |
| Cidr.CountFitsInt | sdwan-common/src/main/java/io/jaspercloud/sdwan/support/Cidr.java:82-89 | the address count fits the int loop counter exactly for prefix lengths of 2 and more |
| Cidr.AllIpList | sdwan-common/src/main/java/io/jaspercloud/sdwan/support/Cidr.java:65-91 | the loop lists the consecutive addresses of the block |
| Cidr.AllIpsExact | sdwan-common/src/main/java/io/jaspercloud/sdwan/support/Cidr.java:65-91 | the list has no duplicates, 2^(32 - maskBits) entries, and contains exactly the addresses of the block |
| Cidr.AvailableIpList | sdwan-common/src/main/java/io/jaspercloud/sdwan/support/Cidr.java:71-78 | the four in-place removals leave, in order, exactly the addresses of the block that are none of its four texts |
| Cidr.AvailableIsFilter | sdwan-common/src/main/java/io/jaspercloud/sdwan/support/Cidr.java:168-182 | removing the four reserved texts one after the other is filtering by isAvailableIp, on any duplicate-free list |
| IpLayerPacket.IpLayerPacket.SetSrcIP | sdwan-tun/src/main/java/io/jaspercloud/sdwan/tun/IpLayerPacket.java:20-23 | overwrites the four source octets and nothing else; marks the packet changed |
| IpLayerPacket.IpLayerPacket.SetDstIP | sdwan-tun/src/main/java/io/jaspercloud/sdwan/tun/IpLayerPacket.java:25-28 | overwrites the four destination octets and nothing else; marks the packet changed |
| IpLayerPacket.IpLayerPacket.GetPayload | sdwan-tun/src/main/java/io/jaspercloud/sdwan/tun/IpLayerPacket.java:117-129 | the slice behind the header, options included in the header |
| IpLayerPacket.IpLayerPacket.SetPayload | sdwan-tun/src/main/java/io/jaspercloud/sdwan/tun/IpLayerPacket.java:131-145 | replaces what follows the header and stores the new total length |
| IpLayerPacket.IpLayerPacket.ReCalcSegment | sdwan-tun/src/main/java/io/jaspercloud/sdwan/tun/IpLayerPacket.java:218-287 | the TCP, UDP and ICMP recalculators: field zeroed, prefix and segment summed, complement stored, all else untouched |
| IpLayerPacket.IpLayerPacket.ReCalcIpCheckSum | sdwan-tun/src/main/java/io/jaspercloud/sdwan/tun/IpLayerPacket.java:289-305 | the first 20 octets are summed, whatever the header length, and the field stored |
| IpLayerPacket.IpLayerPacket.Rebuild | sdwan-tun/src/main/java/io/jaspercloud/sdwan/tun/IpLayerPacket.java:180-216 | an unchanged packet is left alone; otherwise both checksums are recomputed, or the index exception comes before anything is written; what is rebuilt a receiver accepts exactly unless the signed octet interferes |
| IpLayerPacket.PrefixSum | sdwan-tun/src/main/java/io/jaspercloud/sdwan/tun/IpLayerPacket.java:236-243 | the words of the pseudo-header built are those of the addresses, the protocol and the segment's length without the IP header |
| IpLayerPacket.RebuildFrame | sdwan-tun/src/main/java/io/jaspercloud/sdwan/tun/IpLayerPacket.java:180-216 | rebuild changes no octet outside the checksum fields |
| IpLayerPacket.RebuildIdempotent | sdwan-tun/src/main/java/io/jaspercloud/sdwan/tun/IpLayerPacket.java:180-216 | rebuilding twice is rebuilding once |
| IpLayerPacket.RebuiltTransportVerifies | sdwan-tun/src/main/java/io/jaspercloud/sdwan/tun/IpLayerPacket.java:218-287 | after rebuild the two addresses, the protocol, the length behind the IP header and the words of the segment sum to 0xffff (for ICMP the segment alone) if and only if not: odd length, last octet at least 0x80, true sum at least 65536; for every datagram up to 65535 octets |
| IpLayerPacket.RebuiltHeaderVerifies | sdwan-tun/src/main/java/io/jaspercloud/sdwan/tun/IpLayerPacket.java:289-305 | after rebuild the words of the header sum to 0xffff if and only if the option words fold to nothing; without options they always do |
| IpLayerPacket.PayloadReadsBack | sdwan-tun/src/main/java/io/jaspercloud/sdwan/tun/IpLayerPacket.java:131-145 | the new payload is found behind the header, the total length announces it, and the rest of the header stays |
| IpLayerPacket.RebuildAfterEdits | sdwan-tun/src/main/java/io/jaspercloud/sdwan/tun/IpLayerPacket.java:180-216 | after any sequence of address and payload edits of a packet without options: after rebuilding a receiver accepts the header, and the transport checksum over addresses, protocol, length and segment unless the signed octet interferes; no other octet changes, and once is enough |
| PacketCodecs.TcpPacket.Encode | sdwan-tun/src/main/java/io/jaspercloud/sdwan/tun/TcpPacket.java:257-313 | the segment is written field by field; the checksum is computed with the pseudo-header or taken as it is, kept in the object, and throws when checked and different; a receiver accepts a computed one, over addresses, protocol, carried length and segment, exactly unless the signed octet interferes |
| PacketCodecs.UdpPacket.Encode | sdwan-tun/src/main/java/io/jaspercloud/sdwan/tun/UdpPacket.java:85-126 | the same for UDP, whose checksum is always computed |
| PacketCodecs.IcmpPacket.Encode | sdwan-tun/src/main/java/io/jaspercloud/sdwan/tun/IcmpPacket.java:106-147 | the same for ICMP, whose words are summed alone; zero when not computed; writing consumes the payload |
| PacketCodecs.Ipv4Packet.Encode | sdwan-tun/src/main/java/io/jaspercloud/sdwan/tun/Ipv4Packet.java:188-241 | a wrong stored checksum throws when checked; otherwise the header and the payload, decoded and encoded again, are written and kept in the object; a computed header checksum always verifies |
| PacketCodecs.TcpAccepted | sdwan-tun/src/main/java/io/jaspercloud/sdwan/tun/TcpPacket.java:257-313 | the encoded segment with the words of addresses, protocol and carried length sums to 0xffff exactly unless the signed octet interferes |
| PacketCodecs.UdpAccepted | sdwan-tun/src/main/java/io/jaspercloud/sdwan/tun/UdpPacket.java:85-126 | the same for UDP |
| PacketCodecs.TcpLayout | sdwan-tun/src/main/java/io/jaspercloud/sdwan/tun/TcpPacket.java:257-280 | where each field of a written segment stands: ports, numbers, flag word, window, checksum, urgent pointer, options, payload |
| PacketCodecs.UdpLayout | sdwan-tun/src/main/java/io/jaspercloud/sdwan/tun/UdpPacket.java:85-98 | where each field of a written UDP segment stands |
| PacketCodecs.IcmpLayout | sdwan-tun/src/main/java/io/jaspercloud/sdwan/tun/IcmpPacket.java:106-126 | where each field of a written ICMP message stands |
| PacketCodecs.Ipv4Layout | sdwan-tun/src/main/java/io/jaspercloud/sdwan/tun/Ipv4Packet.java:188-212 | where each field of a written header stands |
| PacketCodecs.TcpPacket.Decode | sdwan-tun/src/main/java/io/jaspercloud/sdwan/tun/TcpPacket.java:207-251 | reading the buffer field by field loses nothing: writing the fields with the stored checksum gives the buffer back |
| PacketCodecs.UdpPacket.Decode | sdwan-tun/src/main/java/io/jaspercloud/sdwan/tun/UdpPacket.java:65-79 | writing the fields read gives back as much of the buffer as the length field announces |
| PacketCodecs.IcmpPacket.Decode | sdwan-tun/src/main/java/io/jaspercloud/sdwan/tun/IcmpPacket.java:83-100 | writing the fields read, the 8-octet timestamp among them, gives the buffer back |
| PacketCodecs.Ipv4Packet.Decode | sdwan-tun/src/main/java/io/jaspercloud/sdwan/tun/Ipv4Packet.java:151-182 | writing the header from the fields read, with the payload behind it, gives the packet back when it has no options and tells its length truly |
| PacketCodecs.TcpReassembles | sdwan-tun/src/main/java/io/jaspercloud/sdwan/tun/TcpPacket.java:207-280 | decoding and writing back changes nothing but the checksum field |
| PacketCodecs.UdpReassembles | sdwan-tun/src/main/java/io/jaspercloud/sdwan/tun/UdpPacket.java:65-98 | the same for UDP when the length field is the segment's length |
| PacketCodecs.IcmpReassembles | sdwan-tun/src/main/java/io/jaspercloud/sdwan/tun/IcmpPacket.java:83-126 | the same for ICMP |
| PacketCodecs.TwoEncodersAgree | sdwan-tun/src/main/java/io/jaspercloud/sdwan/tun/Ipv4Packet.java:151-241 | decoding and encoding a well-formed packet without options gives the octets of the in-place rebuild if and only if its ICMP checksum, when it has one, was right |
| PacketCodecs.RebuildReproduces | sdwan-tun/src/main/java/io/jaspercloud/sdwan/tun/IpLayerPacket.java:180-216 | rebuild gives the packet back exactly when its stored checksums are the computed ones |
| PacketCodecs.CodecReproduces | sdwan-tun/src/main/java/io/jaspercloud/sdwan/tun/Ipv4Packet.java:151-241 | decoding and encoding give the packet back exactly when its stored checksums are the computed ones |
| PingPacketProcessor.Ping | sdwan-node/src/main/java/io/jaspercloud/sdwan/node/processor/PingPacketProcessor.java:14-49 | an echo gets a stamp pushed, a reply one popped, other packets pass; a truncated message throws and leaves the packet as it was |
| PingPacketProcessor.PingStepEdits | sdwan-node/src/main/java/io/jaspercloud/sdwan/node/processor/PingPacketProcessor.java:14-49 | what one pass changes: an echo request gets the time as 8 octets behind its 16 fixed ones, a reply loses the 8 octets there, total length and ICMP checksum follow and every other octet stays; everything else passes, and only messages too short throw |
| PingPacketProcessor.StampsAreAStack | sdwan-node/src/main/java/io/jaspercloud/sdwan/node/processor/PingPacketProcessor.java:14-49 | any number of pushes of any stamps, the flip to a reply and as many pops restore the ICMP message up to its checksum |
| PingPacketProcessor.PingRestores | sdwan-node/src/main/java/io/jaspercloud/sdwan/node/processor/PingPacketProcessor.java:14-49 | n echo passes, the flip and n reply passes of whole packets never throw, restore length, header and ICMP payload, and rebuild to the flipped original |
| VirtualRouter.FaithfulIffDisjointTargets | sdwan-node/src/main/java/io/jaspercloud/sdwan/node/VirtualRouter.java:178-216 | with checked VNATs, every cached reply is restored to the address its flow was sent to whenever the destination pools are disjoint, and, for disjoint source pools, only then; cache entries may vanish at any time |
| VirtualRouter.CachedReplyInverts | sdwan-node/src/main/java/io/jaspercloud/sdwan/node/VirtualRouter.java:178-197 | whatever the VNATs, a cached TCP, UDP or ICMP reply is given a source whose translation is the reply's own source |
| VirtualRouter.UntranslatedIff | sdwan-node/src/main/java/io/jaspercloud/sdwan/node/VirtualRouter.java:178-197 | replies to a packet that left untranslated pass unchanged and without an exception after every run, if and only if no address is translated to that packet's destination |
| VirtualRouter.UntranslatedIffOutsidePools | sdwan-node/src/main/java/io/jaspercloud/sdwan/node/VirtualRouter.java:178-216 | with checked VNATs and disjoint source pools, if and only if the destination lies in no destination pool |
| VirtualRouter.FaithfulIsInjective | sdwan-node/src/main/java/io/jaspercloud/sdwan/node/VirtualRouter.java:185-197 | if two addresses have one translation, some reply is given back to the wrong one |
| VirtualRouter.RunIsSound | sdwan-node/src/main/java/io/jaspercloud/sdwan/node/VirtualRouter.java:185-197 | every cache entry maps a flow key to an address whose translation is the far end named in the key |
| VirtualRouter.KeysNameFlows | sdwan-tun/src/main/java/io/jaspercloud/sdwan/tun/IpLayerPacket.java:80-115 | the exchanged key of a sent packet equals the key of an incoming one exactly when it answers it: same protocol, ends, ports or identifier |
| VirtualRouter.NatIpIsBijection | sdwan-node/src/main/java/io/jaspercloud/sdwan/node/VirtualRouter.java:199-204 | a checked VNAT translates exactly the addresses of its source block, into its destination block, and back |
| VirtualRouter.DisjointTargetsAreInjective | sdwan-controller/src/main/java/io/jaspercloud/sdwan/server/service/impl/VNATServiceImpl.java:60-66 | VNATs that pass the stored-VNAT check and have disjoint destination pools translate no two addresses alike |
| VirtualRouter.FirstRouteDecides | sdwan-node/src/main/java/io/jaspercloud/sdwan/node/VirtualRouter.java:218-235 | the first route containing the address decides; a malformed destination matters only before it |
| VirtualRouter.RouteDecides | sdwan-node/src/main/java/io/jaspercloud/sdwan/node/VirtualRouter.java:218-235 | the route search throws exactly when a malformed destination comes before the first covering one or at that route the smallest hash meets a count that does not divide 2^31; otherwise it gives the nexthop at the hash's absolute value modulo their number, or none without a route or nexthops |
| VirtualRouter.VnatOutOkIff | sdwan-node/src/main/java/io/jaspercloud/sdwan/node/VirtualRouter.java:185-216 | sending throws exactly when a malformed prefix comes before the first covering one, or that VNAT cannot translate the address, or the packet is too short for its flow key |
| VirtualRouter.Translated | sdwan-tun/src/main/java/io/jaspercloud/sdwan/tun/IpLayerPacket.java:20-28 | an address that was set reads back as itself, and the other address stays |
| VirtualRouter.PickFails | sdwan-node/src/main/java/io/jaspercloud/sdwan/node/VirtualRouter.java:225-233 | a route with nexthops gives one of them, except that the pick throws exactly when the source's hash is the smallest int and the number of nexthops does not divide 2^31 |
| VirtualRouter.PickFailsForSomeSource | sdwan-node/src/main/java/io/jaspercloud/sdwan/node/VirtualRouter.java:226-227 | the source 52.13.35.254 has that hash, so with three nexthops its packets get no route |
| VirtualRouter.VirtualRouter.ProcessVnatOut | sdwan-node/src/main/java/io/jaspercloud/sdwan/node/VirtualRouter.java:185-197 | the first VNAT covering the destination translates it, and the exchanged key of the translated packet remembers the original destination; it throws exactly in the cases of VnatOutOkIff |
| VirtualRouter.VirtualRouter.ProcessVnatIn | sdwan-node/src/main/java/io/jaspercloud/sdwan/node/VirtualRouter.java:178-183 | a cached key restores the remembered address as the source; other packets pass unchanged; only packets too short for a flow key throw |
| VirtualRouter.VirtualRouter.RouteIn | sdwan-node/src/main/java/io/jaspercloud/sdwan/node/VirtualRouter.java:148-157 | rules judge the destination of the packet as it arrived; a refused packet is not touched, an allowed one is restored; it throws exactly for an allowed packet too short for a flow key |
| VirtualRouter.VirtualRouter.RouteOut | sdwan-node/src/main/java/io/jaspercloud/sdwan/node/VirtualRouter.java:159-176 | it throws exactly when translating does, or, for a packet whose translated destination the rules allow, when the VIP prefix is malformed or the route search throws; a refused packet has no VIP, a destination in the VIP block is its own, another one has the first route's nexthop or none |
| VirtualRouter.VirtualRouter.FindRouteLoop | sdwan-node/src/main/java/io/jaspercloud/sdwan/node/VirtualRouter.java:218-235 | the loop over the routes computes that decision |
| RouteRule.LivePipelineDecides | sdwan-node/src/main/java/io/jaspercloud/sdwan/node/VirtualRouter.java:332-336 | controller sort, node sort, direction filter and first match allow an address exactly when the earliest lowest-level matching rule exists and allows; the second sort changes nothing |
| RouteRule.SortedDecides | sdwan-core/src/main/java/io/jaspercloud/sdwan/tranport/rule/RouteRulePredicateProcessor.java:23-42 | the first match in any stable sort by level is that reference decision |
| RouteRule.StableSortIsStable | sdwan-core/src/main/java/io/jaspercloud/sdwan/tranport/ControllerServer.java:320-333 | sorting by level is ascending and keeps the order within a level |
| RouteRule.StableSortUnique | sdwan-core/src/main/java/io/jaspercloud/sdwan/tranport/rule/RouteRulePredicateChain.java:52-54 | a stable sort has one result, so the library's algorithm does not matter |
| RouteRule.ProcessIsFirstOf | sdwan-node/src/main/java/io/jaspercloud/sdwan/node/VirtualRouter.java:334-335 | filtering by direction before matching is skipping by direction while matching |
| RouteRule.TestRuleIff | sdwan-core/src/main/java/io/jaspercloud/sdwan/tranport/rule/RouteRulePredicateChain.java:35-38 | a rule accepts an address exactly when one of its predicates is this text, a range the address lies in, or a block with the same leading bits |
| RouteRule.IpRouteTest.TestRules | sdwan-controller/src/main/java/io/jaspercloud/sdwan/server/entity/dto/IpRouteTest.java:160-197 | the diagnostic simulator logs the same decision; a refusal finishes it without a pass |
| Stun.RoundTrip | sdwan-common/src/main/java/io/jaspercloud/sdwan/stun/StunEncoder.java:23-43 | decoding any iteration order of the encoding gives the message back if and only if it carries neither XorMappedAddress nor OtherAddress |
| Stun.StreamRoundTrip | sdwan-common/src/main/java/io/jaspercloud/sdwan/stun/StunDecoder.java:31-43 | the same with unknown type-length-value entries interleaved anywhere |
| Stun.DecodeReadsStream | sdwan-common/src/main/java/io/jaspercloud/sdwan/stun/StunDecoder.java:31-43 | the parser reads any stream of entries, known and unknown, into the map they describe |
| Stun.ValueRoundTrip | sdwan-common/src/main/java/io/jaspercloud/sdwan/stun/StunDecoder.java:36-42 | one written attribute decodes to itself, except that OtherAddress arrives as ChangedAddress and XorMappedAddress is unmasked though it was never masked |
| Stun.XDecodeInvertsStandard | sdwan-common/src/main/java/io/jaspercloud/sdwan/stun/AddressAttr.java:59-69 | the XOR decoder undoes the encoding of section 15.2 of RFC 5389 |
| Stun.ValueOfInvertsCode | sdwan-common/src/main/java/io/jaspercloud/sdwan/stun/AttrType.java:48-54 | looking up a code finds exactly the type with that code |
| Stun.MessageTypeOf | sdwan-common/src/main/java/io/jaspercloud/sdwan/stun/MessageType.java:25-32 | finds the type of a code, or null outside the table |
| Stun.Encode | sdwan-common/src/main/java/io/jaspercloud/sdwan/stun/StunEncoder.java:17-49 | the loop writes type code, length, the magic cookie, the id and one entry per attribute in iteration order |
| Stun.HeaderOctets | sdwan-common/src/main/java/io/jaspercloud/sdwan/stun/StunEncoder.java:17-49 | the header's octets: type, length, cookie 21 12 a4 42, id, as section 6 of RFC 5389 has them |
| Stun.EntryOctets | sdwan-common/src/main/java/io/jaspercloud/sdwan/stun/StunEncoder.java:23-43 | an attribute is its type code, its length and its value |
| Stun.Codes | sdwan-common/src/main/java/io/jaspercloud/sdwan/stun/AttrType.java:5-19 | the attribute and message codes of RFC 5389 and RFC 5780 and the program's own |
| Stun.Decode | sdwan-common/src/main/java/io/jaspercloud/sdwan/stun/StunDecoder.java:20-46 | the loop consumes the attribute section and fills the map, or throws on short input |
| Stun.WriteAddress | sdwan-common/src/main/java/io/jaspercloud/sdwan/stun/AddressAttr.java:38-43 | reserved octet, family 1 or 2, port and address |
| Stun.WriteChangeRequest | sdwan-common/src/main/java/io/jaspercloud/sdwan/stun/ChangeRequestAttr.java:23-32 | the flag word: 4 for the address, 2 for the port, and their sum |
| Stun.LongRoundTrip8 | sdwan-common/src/main/java/io/jaspercloud/sdwan/stun/LongAttr.java:18-28 | a Java long survives the wire, negative ones included |
| TransportTable.NoStuckElection | sdwan-node/src/main/java/io/jaspercloud/sdwan/node/P2pTransportManager.java:44-51 | in every reachable state an empty reference has its offer pending and is at most three election timeouts old, whatever deletes, answers and heartbeat timeouts interleave |
| TransportTable.SettlesOnce | sdwan-common/src/main/java/io/jaspercloud/sdwan/support/AsyncTask.java:38-62 | a future that has settled stays out of futureMap for good, so each settles at most once |
| TransportTable.SettledOfferLeavesNoReference | sdwan-node/src/main/java/io/jaspercloud/sdwan/node/IceClient.java:73-93 | as soon as an offer settles, no empty reference of that offer is left |
| TransportTable.LeadsIff | sdwan-node/src/main/java/io/jaspercloud/sdwan/node/IceClient.java:73-100 | in every reachable state a VIP has a transport to an address if and only if the last step of the run that replaced its entry was the VIP's own election, or an answer to its offer, won by that address |
| TransportTable.TimeoutDropsOtherIff | sdwan-node/src/main/java/io/jaspercloud/sdwan/node/P2pTransportManager.java:83-96 | a ping's timeout removes the entry its VIP has by then and no other; a transport other than the pinged one goes if and only if it has replaced it |
| TransportTable.ReplacedSince | sdwan-node/src/main/java/io/jaspercloud/sdwan/node/P2pTransportManager.java:83-96 | a pending ping's transport that is no longer its VIP's was replaced or dropped by a step since: an election, an answer, a failed offer, an offline push or another timeout |
| TransportTable.LateHeartbeatDropsNewTransport | sdwan-node/src/main/java/io/jaspercloud/sdwan/node/P2pTransportManager.java:83-96 | a run from the start in which a heartbeat timeout removes the transport that has replaced the pinged one |
| TransportTable.P2pTransportManager.SendNode | sdwan-node/src/main/java/io/jaspercloud/sdwan/node/IceClient.java:73-93 | sends over the transport if there is one; otherwise an election is pending, a new one, with three election timeouts to go, only if there was no entry |
| TransportTable.P2pTransportManager.AddTransport | sdwan-node/src/main/java/io/jaspercloud/sdwan/node/P2pTransportManager.java:53-56 | the VIP's entry becomes this transport |
| TransportTable.P2pTransportManager.DeleteTransport | sdwan-node/src/main/java/io/jaspercloud/sdwan/node/P2pTransportManager.java:58-61 | the VIP's entry goes |
| TransportTable.P2pTransportManager.CompleteTask | sdwan-common/src/main/java/io/jaspercloud/sdwan/support/AsyncTask.java:50-55 | settles a pending future and runs its callback, in one step: an elected transport becomes its VIP's entry, a failed election removes the entry, a ping's answer forgets the ping and leaves every entry; an unknown id changes nothing |
| TransportTable.P2pTransportManager.CompleteExceptionallyTask | sdwan-common/src/main/java/io/jaspercloud/sdwan/support/AsyncTask.java:57-62 | a timed-out offer removes its VIP's entry, a timed-out ping the entry of the VIP it was sent for and the remembered ping, and nothing else |
| TransportTable.P2pTransportManager.RunHeartbeat | sdwan-node/src/main/java/io/jaspercloud/sdwan/node/P2pTransportManager.java:68-104 | afterwards every transport's address has a ping pending, pings already pending are kept, no other future is added or touched, and each transport is pinged with its address's id |
| Election.EndsAgree | sdwan-core/src/main/java/io/jaspercloud/sdwan/tranport/ICEElectionProtocol.java:80-111 | after any run with lost, repeated and reordered offers and answers, with nodes restarting and VIPs changing hands, two sessions that agreed their keys with each other carry one key; one sends the data enciphered under the key of its private and the other's public key, and the other deciphers it |
| Election.EndsAgreeIff | sdwan-core/src/main/java/io/jaspercloud/sdwan/tranport/ICEElectionProtocol.java:80-171 | when the key function tells pairs of sessions apart, as some do (Election.SeparatingKeys), two sessions linked to each other's VIPs carry one key if and only if each agreed its key with the other and not with an earlier or later holder of that VIP |
| Election.LinkedArePartners | sdwan-core/src/main/java/io/jaspercloud/sdwan/tranport/ICEElectionProtocol.java:80-171 | without restarts and reassigned VIPs, linked sessions always agreed with each other |
| Election.RunInvariant | sdwan-core/src/main/java/io/jaspercloud/sdwan/tranport/ICEElectionProtocol.java:152-171 | every offer is its maker's, an answer with id r comes from a session with the VIP offer r was made to, and every transport's key was agreed with a session that has its VIP |
| Election.StaleOfferAfterRestart | sdwan-node/src/main/java/io/jaspercloud/sdwan/node/IceClient.java:95-100 | a run from the start in which a session's offer is delivered after the node has restarted and been elected anew: both ends are linked, one of them to the old session, and their keys differ |
| Election.ICEElectionProtocol.CreateOffer | sdwan-core/src/main/java/io/jaspercloud/sdwan/tranport/ICEElectionProtocol.java:80-94 | the offer carries the session's VIP, the target's and the public key, and becomes pending for the target |
| Election.ICEElectionProtocol.CreateAnswer | sdwan-core/src/main/java/io/jaspercloud/sdwan/tranport/ICEElectionProtocol.java:115-171 | the key of the session's private and the offer's public key is installed for the offer's source; source and destination change places in the answer |
| Election.ICEElectionProtocol.AcceptAnswer | sdwan-core/src/main/java/io/jaspercloud/sdwan/tranport/ICEElectionProtocol.java:92-111 | an answer to a pending offer installs the key of the session's private and the answer's public key for the offer's target; any other is ignored |

## Left out

- Sockets, event loops, Netty buffers' reference counts and capacities, protobuf framing, TUN devices, operating system routes and ICS: foreign calls around the modelled logic.
- SQL, transactions, rollback and lock timing: statements are atomic map updates here.
- ECDH and AES: only their laws are used.
- Address text beyond dotted decimals, the regular expressions that check it, `AddressUri` and the parsing of rule texts: library behaviour; rules and prefixes are given parsed.
- The character sets of STUN texts and transaction ids: texts are their octets.
- The TCP flag word's single flags: the word is kept whole.
- `VirtualRouter.send` and `recv` around the packet path: multicast, broadcast and the ICS source fix only add cases without state.
- `P2pClient.parseNatAddress`: the STUN server ignores the change request, so there is nothing to hold its answers against.
- The rest of `IpRouteTest`: it tests rules on other addresses than the live router, so only the rule test is comparable.
- Which of several transports an election picks, and pings inside it: any transport may win, and an election may fail at any time.
- The index counter's 32-bit overflow, which needs a pool of more than 2^30 addresses.
- Grants and disabled nodes in `assignNodeInfo`, and the groups, routes and rules it collects: they add refusals and lists around the assigned VIP.
- Several tenants sharing one registry of channels.
- Groups, routes, roles, user interface, updater and storage: they would only add easy members.
- NodeService.TwoBeyondThePool: needs a pool of at least four addresses whose mask address is not one of the two, since a reserved text is skipped wherever it lies.
