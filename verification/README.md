# Gerbil, modelled and verified in Dafny

Gerbil is a tunnel server: a router that forwards HTTP to WireGuard peers, a UDP relay for WireGuard
packets, and an SNI proxy. This project models the parts of it whose correctness is not visible from any
one function, and proves what they keep over all inputs and all runs.

Check it with `dafny verify dfyconfig.toml`.

## The modules and their main results

**Router destinations** (`PrefixCover`, `RouterNetworks`, `RouterTrie`, `RouterAccess`). The router admits an
address if a WireGuard peer's allowed network contains it, after blocking networks that together would admit
a whole address family. The blocking loop builds a binary trie, tests whether it covers the family, marks the
shallowest cover, and repeats. `UnrestrictedRouterNetworks` is that loop, on a linked trie built in place. Its
result has a closed form without tries: let K be the least number of distinct listed prefixes that match an
address of the family; a network is blocked exactly when fewer than K listed prefixes properly contain its own,
and `RouterIPAllowed` lets an address through exactly when more than K listed prefixes match it. The result
therefore does not depend on list order, repetitions or map iteration order, and always leaves a gap in the trie.
Blocking is not monotone; `AddingCanUnblock` gives the example. IPv4 addresses count as such in their 16-byte form
too. An IPv4-mapped network sits in the IPv6 trie and contains IPv4 addresses, so the closed form has a second part
for such networks; `NoMapped` says that it is empty without them, and `MappedDefaultAdmitsAll` shows that it matters.

**Endpoint cache and deduplication** (`EndpointCache`, `Dedup`). The cache is bounded and never yields an expired
entry; erasing all sweeps from a run changes no load; while the keys fit, a load yields exactly the last entry
stored. A suppressed notification repeats, in all six fields, one accepted less than a time to live earlier.

**Rate limiter** (`RateLimiter`, `RateLimiterAccounts`, `RateLimiterRuns`, `RateLimiterBounds`, `RateLimiterReached`,
`RateLimiterSweeps`).
Stamps, table operations, locked sections, the ticker and the sweeper's pass are separate steps. Over every
interleaving, one entry admits at most two packets per started second and two more. One address can get more than
that, because the sweeper deletes an entry some time after it saw it stale: two more for every delete in the
interval of an entry refreshed in between, one more if there was any, and one for every packet in flight with a deleted
entry. The ticker allows one delete per started thirty seconds and two more, so a second admits at most eleven packets
and those in flight; for each number of deletes a second can have, up to three, a run reaches the bound. What happened
before the interval does not matter, and an interval without such deletes and packets meets the plain bound.
With stamps that equal the clock under the lock, or are a second older, the excess is smaller, and sweeps that hit
no refreshed or held entry change no decision; `SweepHarmlessIff` says that no other stamps will do.

**Connection pool** (`ConnectionKey`, `ConnectionPool`, `ConnectionRuns`). `connectionCount` is meant to mirror the
table's size, but the idle sweep subtracts its removals twice. Over every interleaving the count is the table's size
minus all removals of finished sweeps, so the mirror holds exactly while there are none, the table exceeds its cap by
at most their number, and for every number some run exceeds it by that much. The gauge stays right between sweeps. A
connection's last-used time is when the run last handed it out; hence the sweep takes it for idle exactly when that
was more than five minutes before the sweep started, and an eviction takes the least recently handed out of the sample
unless its victim is handed out during the eviction itself. A connection handed out after the sweep saw it idle is
removed all the same. Clearing a peer's IPv4 address removes its connections and no textual neighbour's; IPv6 keys are
written in brackets and are never found.

**Sessions** (`Patterns`, `Sessions`, `SessionRelay`, `SessionPatterns`, `SessionEffects`, `SessionGauge`). Over every run, transport
data sent over the fast path goes to a destination that had answered a handshake with that index before this packet
came, or whose communication pattern with some client had made a rebuild with that index due. Conversely, an answered
handshake and a due pattern do store a session and its index, floods included; what is sent for each packet, where and
in which order, is stated exactly; an index once known is never flooded again; and data keeps its session from being
swept for fifteen minutes. Every communication
pattern is the summary of the packets since it was created. With handlers one at a time, every session in the
table can be found by its sender index, so its data is never flooded; the converse fails, because sweeps leave the
index alone. When handlers, sweeps and clears interleave map operation by map operation, data for a
session in the table is flooded only while a handler is between its two stores (and never once the handler that was to
store the index has come to rest), and `FloodedWhileStored` is such a
run; every index still leads to a destination that answered a handshake with it or had data in both directions with
some client; and the session gauge can drift, as `GaugeExactIff` states exactly.

**SNI proxy** (`Admission`, `TunnelRegistry`, `Text`, `ProxyProtocol`). In every interleaving of the accept loop with
handler exits the global and per-counter caps hold, counters equal the handlers holding them, and nothing is left
behind once all handlers are gone. The per-address cap can be exceeded: an address has at most its cap of live
connections, and the cap again for every delete that hit a counter in use, and for every number of such deletes
some run reaches that. The tunnel registry lists exactly the current connections, in order. A PROXY v1 header that is read
back yields family, addresses, ports and exactly the payload, whatever the size of the first read, and a chain of
proxies preserves the client. Bytes read together with `PROXY UNKNOWN` are lost, and only those.

**Bandwidth** (`Bandwidth`). Reported bytes are conserved up to counter resets and samples at the same clock
reading, and batches concatenate to the report.

## How the source is represented

- Objects that are updated in place are classes with their fields; maps and lists they hold are fields of map
  and sequence type. The trie is a linked structure of node objects. Where two tables share an object, or a
  delete compares pointers, objects are numbers and their contents a table, so that a state is a value and
  a run a sequence of steps.
- Concurrency is a state machine: each mutex-guarded section and each atomic or concurrent-map operation is one
  step, except where `## Left out` names a larger one. A step that is not possible leaves the state as it is, so
  every sequence of steps is a run.
- Clocks are integers in nanoseconds that do not run backwards. Dialing, writing, name resolution and the
  server's answers are inputs.
- Map iteration picks elements in any order.
- Where code and comments disagree the code is followed: the comment on `connectionCount` promises a mirror of the
  table (relay/relay.go:291), the comment on the rate limit promises two packets per second
  (relay/relay.go:508), and the comment on the per-address delete promises that only one connection escapes the
  limit (proxy/proxy.go:574-580).

## Model

| member | source | states |
|---|---|---|
| PrefixCover.LongestMatch | main.go:196-204 | among the listed prefixes matching an address, the longest has all the others as proper prefixes, so its depth is their number less one |
| PrefixCover.MinimalIsLevel | main.go:206-215 | after k rounds, the shallowest surviving prefixes are exactly those with k listed proper prefixes, and dropping them leaves those with more |
| PrefixCover.SurvivingMatch | main.go:206-260 | an address still has a match after k rounds exactly when more than k listed prefixes match it |
| PrefixCover.CoversAfter | main.go:196-204 | the cover test after k rounds is decided by match counts alone |
| PrefixCover.LeastMatchUnique | main.go:217-260 | the least match count of a family is unique |
| PrefixCover.NodeCoveredIff | main.go:196-204 | the recursive trie test at a node holds exactly when every address below it has an inserted prefix, including the full-depth and the empty case |
| PrefixCover.RootCoveredIff | main.go:196-204 | the test at the root decides whether every address of the family is covered |
| PrefixCover.MarkedMembers | main.go:206-215 | below any node, marking stops at exactly the shallowest prefixes |
| PrefixCover.MarkedCode | main.go:206-215 | below any node, the marked prefixes are pairwise incomparable and their sizes add up to the subtree |
| PrefixCover.MarkedIsCompleteCode | main.go:206-215 | a firing round marks a complete prefix code: the shallowest prefixes, no two comparable, every address below exactly one, total size two to the width |
| PrefixCover.LeastMatchGrows | main.go:217-260 | listing one more prefix raises the least match count by zero or one |
| PrefixCover.AddingCanUnblock | main.go:217-260 | blocking is not monotone: listing the other half of the space unblocks its two quarters |
| RouterNetworks.MaskedBytesAgree | main.go:268 | two bytes agree under a mask byte exactly when their leading bits agree |
| RouterNetworks.AgreesIsPrefix | main.go:268 | comparing bytes under the network's mask is prefix matching on bits |
| RouterNetworks.ContainsIsPrefix | main.go:268 | membership is prefix matching on bits, with IPv4 addresses in 4 or 16 bytes the same, in the network and in the address |
| RouterNetworks.UnmappedForms | main.go:268 | ten zero bytes, two bytes of ones and four more are compared as those four; every other address as it is |
| RouterNetworks.ComparedIsMapped | main.go:268 | an IPv4-mapped network contains an IPv4 address exactly when its own prefix matches the address's sixteen-byte form |
| RouterTrie.ListsKeys | main.go:224-247 | after inserting any number of networks a node exists exactly on the way to an inserted prefix of its width, and at the two roots |
| RouterTrie.ListsAt | main.go:224-247 | a node lists exactly the inserted networks whose prefix ends there |
| RouterTrie.Descend | main.go:240-244 | one step down creates the child exactly when it is missing and changes no index list |
| RouterTrie.Walk | main.go:238-245 | walking along a prefix creates exactly the missing nodes of its path and ends at the prefix |
| RouterTrie.Insert | main.go:238-246 | inserting a network appends its index at the end of its path and changes no other list |
| RouterTrie.BuildTries | main.go:220-247 | the linked tries hold exactly the networks that are neither blocked nor of another width |
| RouterTrie.RouterCIDRCovered | main.go:196-204 | the recursion over the linked trie computes the cover test, stopping at missing children and at listed prefixes |
| RouterAccess.MarkRouterCIDRCover | main.go:206-215 | blocks exactly the networks listed at marked prefixes in addition to those blocked before, and never runs into a missing child |
| RouterAccess.MarkedAreShallowest | main.go:206-215 | the indexes marked from the root are exactly the active networks with no active proper prefix |
| RouterAccess.ProbeRoot | main.go:250-255 | a root fires exactly when its family is covered, and then adds exactly its shallowest networks |
| RouterAccess.RoundBlocksLevel | main.go:249-255 | a firing round blocks exactly one more level of the listed prefixes |
| RouterAccess.RoundProgress | main.go:249-258 | a firing round blocks a network that was not blocked before |
| RouterAccess.Round | main.go:219-258 | one round adds what each family fires, in whichever order the two roots are visited |
| RouterAccess.RoundShrinks | main.go:256-259 | a changing round leaves strictly fewer networks unblocked, so the loop ends |
| RouterAccess.UnrestrictedRouterNetworks | main.go:217-260 | the closed form: per family, blocked are exactly the networks with fewer listed proper prefixes than the least match count, and nothing of another width |
| RouterAccess.OrderIndependent | main.go:217-260 | lists with the same prefixes, in any order and with any repetitions, block the same prefixes |
| RouterAccess.LeavesGap | main.go:217-273 | for each width at least one address is matched by no prefix of a network still consulted |
| RouterAccess.AdmittedIsMatched | main.go:266-272 | an unblocked network contains an address through its own prefix, or as an IPv4-mapped network |
| RouterAccess.AllowedIff | main.go:266-272 | an unblocked network's own prefix matches an address exactly when more listed prefixes match it than the least match count |
| RouterAccess.MappedExactly | main.go:266-272 | an unblocked IPv4-mapped network matches an IPv4 address exactly when some listed one matches it and has at least the least IPv6 match count of listed proper prefixes |
| RouterAccess.NoMapped | main.go:266-272 | without IPv4-mapped networks only the first part of the closed form remains |
| RouterAccess.MappedDefaultAdmitsAll | main.go:217-273 | the gap is one of the tries: the IPv4-mapped form of all IPv4 addresses, listed alone, lets every one of them through |
| RouterAccess.RouterIPAllowed | main.go:262-273 | allowed exactly when the address is global unicast and, taken as its last four bytes if it is IPv4 in sixteen bytes and as it is otherwise, matched by more listed prefixes than the least-matched address of its family or by an unblocked IPv4-mapped network; never for other lengths |
| EndpointCache.Cache.constructor | relay/relay.go:218-224 | a new cache is empty with the given bounds |
| EndpointCache.Cache.Load | relay/relay.go:226-236 | yields the entry under the key only while fresh, and drops it when expired |
| EndpointCache.Cache.FindOldest | relay/relay.go:246-255 | the scan finds a key whose entry is as old as any |
| EndpointCache.Cache.Store | relay/relay.go:238-261 | stores the entry, evicting one of the oldest when the key is new and the cache full, and nothing when it has no capacity |
| EndpointCache.Cache.DeleteExpired | relay/relay.go:263-272 | keeps exactly the fresh entries |
| EndpointCache.StoreBounded | relay/relay.go:238-261 | a store never exceeds the capacity, however it breaks ties |
| EndpointCache.EvictionSparesFresh | relay/relay.go:245-259 | a store never drops a fresh entry of another key while an expired one remains |
| EndpointCache.EveryRunBounded | relay/relay.go:226-272 | over every run the cache holds at most its capacity |
| EndpointCache.StoreAgrees | relay/relay.go:238-261 | caches with the same fresh part have the same fresh part after the same store |
| EndpointCache.SweepsInvisible | relay/relay.go:226-272 | erasing all sweeps from a run leaves every load result unchanged |
| EndpointCache.ExactWithinCapacity | relay/relay.go:226-272 | while the stored keys fit, the fresh part is exactly the fresh part of the last stores |
| Dedup.SuppressNotification | relay/relay.go:584-603 | suppresses exactly when the cache yields a fresh entry with an identical state |
| Dedup.RecordAccepted | relay/relay.go:1313-1326 | an accepted endpoint is stored under its own key with its stamp |
| Dedup.EntriesWereAccepted | relay/relay.go:1313-1326 | over every run, every cached entry was accepted by the server and sits under its own key |
| Dedup.SuppressionIsSafe | relay/relay.go:584-603 | over every run, a suppressed notification repeats in all six fields one accepted less than a time to live earlier |
| Dedup.SuppressedIff | relay/relay.go:584-603 | while the accepted identifiers fit the cache, a punch is suppressed exactly when the last endpoint accepted under its two identifiers joined by a colon is identical and fresh |
| Dedup.SuppressedPairIff | relay/relay.go:584-603 | without colons in client identifiers, exactly when the last endpoint accepted for its own client and site is identical and fresh |
| Dedup.KeysCollideIff | relay/relay.go:584 | two identity pairs share a cache key exactly when a colon moves from one identifier to the other |
| RateLimiter.RateLimitEntry.Admit | relay/relay.go:514-522 | under the entry's lock, counts the packet into its window or a new one and admits the first two |
| RateLimiter.RateLimitEntry.IsStale | relay/relay.go:1642-1644 | under the entry's lock, tells whether its window started more than ten seconds before the sweep |
| RateLimiter.Limiter.LoadOrStore | relay/relay.go:510-513 | yields the stored entry, or stores a new one with no packets and the given stamp |
| RateLimiter.Limiter.Allow | relay/relay.go:510-522 | both steps of a worker without interruption: the decision and the entry's new window, other entries untouched |
| RateLimiter.Limiter.Sweep | relay/relay.go:1639-1649 | a sweep without interruption removes exactly the stale entries |
| RateLimiterRuns.KeepsShape | relay/relay.go:1634-1649 | every step keeps that stamps and readings are not in the future, that what was seen stale stays stale, and that a refreshed entry has counted a packet |
| RateLimiterAccounts.CountEntry | relay/relay.go:514-522 | one more packet through the table's entry keeps the account of an interval and its bound, whether the entry is new, in use, seen stale or refreshed |
| RateLimiterBounds.EarlyLedger | relay/relay.go:509-528 | whatever happened before the interval, its account starts empty |
| RateLimiterBounds.LedgerStep | relay/relay.go:510-522 | every step keeps the account of what an interval has admitted through the table's entry |
| RateLimiterBounds.StraysStep | relay/relay.go:1642-1647 | every step keeps that packets admitted outside the table, and those still to come, were stranded by deletes |
| RateLimiterBounds.AdmittedByEntryAtMost | relay/relay.go:509-528 | over every interleaving one entry admits at most two packets per started second and two more |
| RateLimiterBounds.AdmittedAtMost | relay/relay.go:509-528 | over every interleaving any half-open interval admits at most two packets per started second and two more; and two for every delete in it of an entry refreshed since its stale check, one if there was any, and one for every packet in flight with a deleted entry; less when stamps are settled or prompt |
| RateLimiterBounds.DeletedAtMost | relay/relay.go:1634-1649 | an interval has at most one delete of an address's entry per started thirty seconds and two more: the pass under way, the waiting tick, and the ticks to come |
| RateLimiterBounds.AdmittedAbsolutely | relay/relay.go:509-528 | so whatever the interleaving and the stamps, a second admits at most eleven packets besides those in flight with a deleted entry |
| RateLimiterReached.BoundReached | relay/relay.go:1634-1649 | for each number of deletes of refreshed entries a second can have a run reaches the bound, in a second that starts anywhere: four, seven, nine and eleven packets; three, five, seven and nine with settled stamps; three and five with prompt ones |
| RateLimiterReached.StrandedReached | relay/relay.go:510-514 | packets in flight count on top: with two of them stranded a second admits six |
| RateLimiterSweeps.SweepsHarmless | relay/relay.go:1633-1654 | with stamps that equal the clock under the lock or are a second older, and no delete of an entry refreshed since its stale check or held by a packet in flight, erasing the sweeper from a run changes no decision |
| RateLimiter.SweepHarmlessIff | relay/relay.go:509-522 | removing a stale entry before a packet changes no later decision exactly when the new stamp equals the clock under the lock or is a second older |
| ConnectionKey.ContainsIP | relay/relay.go:1444-1471 | the scan decides whether "ip:" starts the key or what follows its first dash |
| ConnectionKey.MentionsIff | relay/relay.go:1444-1471 | on any key, an address without colons is found exactly when it is the text of an IPv4 destination or remote |
| ConnectionKey.MentionsIPv4Iff | relay/relay.go:1444-1471 | on IPv4 keys the scan is equality with the destination or the remote address |
| ConnectionKey.IPv6NeverMentioned | relay/relay.go:1444-1471 | a key between IPv6 addresses is found for no address written without brackets |
| ConnectionPool.Connections.RemoveConnection | relay/relay.go:1082-1096 | removes, closes and counts down only if the target is still what the key holds |
| ConnectionPool.Connections.FindOldest | relay/relay.go:1103-1118 | finds the least recently used of a sample as large as the limit or the table |
| ConnectionPool.Connections.EvictLRUConnection | relay/relay.go:1102-1124 | removes that one and lowers the gauge; an empty table is left alone |
| ConnectionPool.Connections.GetOrCreateConnection | relay/relay.go:1026-1077 | reuses a stored socket, or evicts at the cap and stores the dialed one; a failed dial stores nothing |
| ConnectionPool.Connections.CleanupIdleConnections | relay/relay.go:1186-1201 | removes exactly the idle connections, lowering the gauge by their number and the count by twice that |
| ConnectionPool.Connections.ClearConnectionsForWGIP | relay/relay.go:1363-1384 | removes exactly the connections whose key mentions the address, lowering count and gauge by their number |
| ConnectionPool.ClearIsExact | relay/relay.go:1363-1384 | on IPv4 keys a clear removes a connection exactly when its destination or remote is that address |
| ConnectionRuns.StepKeeps | relay/relay.go:1026-1124 | every critical section keeps the counter laws and the match of open and stored sockets |
| ConnectionRuns.EveryRunLawful | relay/relay.go:1026-1201 | over every interleaving: count is size minus removals of finished sweeps and within the cap, gauge is size plus what sweeps and clears have not reported, open sockets are exactly the stored ones |
| ConnectionRuns.MirrorIff | relay/relay.go:1189-1201 | the count mirrors the size exactly while no finished sweep has removed anything; the size exceeds the cap by at most those removals; the gauge is exact between sweeps and clears |
| ConnectionRuns.CapExceededBy | relay/relay.go:1189-1201 | for every cap and every number of removals of sockets idle for five minutes some run exceeds the cap by exactly that number, with connections of any one client to any one destination |
| ConnectionRuns.AloneIsAcquired | relay/relay.go:1037-1077 | the creating section without interruption reuses and marks as used, or stores below the cap, as the method says |
| ConnectionRuns.AloneAtCap | relay/relay.go:1050-1077 | so it does at the cap, once the sample is read |
| ConnectionRuns.LastUsedIsLastHanded | relay/relay.go:1030-1062 | over every interleaving a stored connection's last-used time is when the run last handed it out, reused or new |
| ConnectionRuns.SeenIdleIff | relay/relay.go:1189-1193 | over every interleaving the sweep takes a connection for idle exactly when it was last handed out more than five minutes before the sweep started |
| ConnectionRuns.RemovedOnlyIdle | relay/relay.go:1189-1195 | over every interleaving a connection the sweep removes was idle in that sense, or was handed out again only after the sweep saw it idle |
| ConnectionRuns.UsedIsRemoved | relay/relay.go:1189-1195 | the latter happens: a connection handed out at this moment is removed |
| ConnectionRuns.EvictsLeastRecent | relay/relay.go:1102-1124 | over every interleaving an eviction reads a sample of 64 or the whole table, and its victim was handed out no later than any other of the sample, or during the creating section |
| Patterns.RecordIsSummary | relay/relay.go:1534-1574 | over every run a pattern is the summary of the packets since its creation: first non-zero indices, last times, number of packets |
| Patterns.FirstNonZeroStays | relay/relay.go:1538-1547 | an index that is known never changes during a pattern's life |
| Patterns.FirstNonZeroIff | relay/relay.go:1538-1547 | an index is known exactly when a non-zero one was seen in its direction, and is the first such |
| Patterns.RebuildableIff | relay/relay.go:1578-1591 | a rebuild is possible exactly after indexed data in both directions, four packets and less than thirty seconds between the directions |
| Sessions.ExtractEncoded | relay/relay.go:769-791 | reading the indices of an encoded message gives the message back |
| Sessions.ExtractedIff | relay/relay.go:769-791 | reading yields a message exactly on the packets of twelve bytes or more that encode it, whatever is in the reserved bytes and after the indices |
| Sessions.StoreGood | relay/relay.go:895-907 | storing a session for an entitled destination keeps index agreement, gauge and provenance |
| Sessions.RebuildGood | relay/relay.go:1578-1629 | refreshing or rebuilding a session from a pattern keeps them too |
| Sessions.TrackGood | relay/relay.go:1515-1575 | so does tracking one data packet |
| Sessions.ClientPacketGood | relay/relay.go:831-994 | handling any client packet keeps them and sends over the fast path only what was justified before this packet |
| Sessions.ReplyGood | relay/relay.go:1137-1161 | handling any packet from a destination keeps them |
| Sessions.EveryRunJustified | relay/relay.go:886-965 | over every run: fast-path sends are justified by what came before their packet, the gauge is the number of sessions, every session is indexed by its sender index |
| Sessions.LiveSessionNeverFlooded | relay/relay.go:937-965 | over every run, data for a session in the table goes to one justified destination only |
| Sessions.ResponseDirectsData | relay/relay.go:1140-1156 | after a destination's handshake response, data with its sender index is sent to that destination |
| Sessions.IndexOutlivesSession | relay/relay.go:1387-1413 | the converse of the index agreement fails: after a clear the table is empty and the index still leads to the destination |
| SessionRelay.Relay.StoreSession | relay/relay.go:895-907 | one new object, its key and its index, counted if the key is new |
| SessionRelay.Relay.TryRebuildSession | relay/relay.go:1578-1629 | refreshes a matching session or stores a rebuilt one, as the rebuild function says |
| SessionRelay.Relay.TrackCommunicationPattern | relay/relay.go:1515-1575 | updates or creates the pattern and considers a rebuild only for an existing one |
| SessionRelay.Relay.ForwardToAll | relay/relay.go:966-994 | floods every destination that resolves and connects, in order |
| SessionRelay.Relay.ForwardHandshake | relay/relay.go:860-883 | hands a handshake message to every destination that can be reached, in order |
| SessionRelay.Relay.HandleWireGuardPacket | relay/relay.go:831-994 | the handler for client packets computes the packet function, in tables and history |
| SessionRelay.Relay.HandleReply | relay/relay.go:1137-1161 | the handler for packets from destinations computes the reply function |
| SessionRelay.Relay.CleanupIdleSessions | relay/relay.go:1217-1229 | deletes exactly the sessions idle for fifteen minutes and lowers the gauge by their number; the index is untouched |
| SessionRelay.Relay.ClearSessionsForIP | relay/relay.go:1387-1413 | deletes exactly the sessions whose destination has the address and lowers the gauge by their number; the index is untouched |
| SessionRelay.Relay.CleanupIdleCommunicationPatterns | relay/relay.go:1675-1694 | deletes exactly the patterns without activity for twenty minutes |
| SessionPatterns.EveryRunReplays | relay/relay.go:1515-1575 | over every run of the relay, every pattern is the replay of the history between its client and destination |
| SessionPatterns.TrackWell | relay/relay.go:1515-1629 | tracking a packet at any point of a run, also inside a flood, stores a session or an index entry only when the pattern's life is due with the same indices |
| SessionPatterns.EverySessionDue | relay/relay.go:1578-1629 | over every run: every session was stored for a handshake its destination answered or when a pattern with its two indices was due, every index leads to a destination entitled so, and every fast-path send was entitled before its packet |
| SessionEffects.HistoryExactly | relay/relay.go:831-994 | what is sent and noted for every input: data with a known index goes to its one destination and nowhere else, other data to every reachable destination, handshakes to all, and what a destination sends is noted |
| SessionEffects.FloodedHistory | relay/relay.go:966-994 | a flood hands the data to each connected destination and sends it to each that can be written to, in order, as the outcomes alone say |
| SessionEffects.RelayedJoin | relay/relay.go:860-883 | a forwarded handshake goes to exactly the destinations that could be written to, in order |
| SessionEffects.ResponseStores | relay/relay.go:886-907 | a handshake response from a client or a destination stores its session under its key and index and nothing else; data with that index then goes to where the response came from |
| SessionEffects.TrackRebuilds | relay/relay.go:1578-1629 | at any point of a run, a data packet that makes its pattern due leaves the session in the table, seen now, and its index known; with no matching session before, the index leads to it |
| SessionEffects.TrackLeaves | relay/relay.go:1578-1591 | a packet that does not make its pattern due changes no session and no index entry |
| SessionEffects.ReplyRebuilds | relay/relay.go:1158-1161 | over every run, data from a destination that makes its pattern due rebuilds the session |
| SessionEffects.KnownDataRebuilds | relay/relay.go:947-956 | so does client data with a known index |
| SessionEffects.FloodRebuilds | relay/relay.go:970-983 | so does every hop of a flood, as soon as its destination is handed the data |
| SessionEffects.NeverFloodedAgain | relay/relay.go:937-965 | over every run, once an index is known, data with it goes to one destination, whatever sweeps and clears come between |
| SessionEffects.DataIsSeen | relay/relay.go:938-942 | data with a known index marks the session it leads to as seen |
| SessionEffects.UsedSessionKept | relay/relay.go:1217-1229 | over every run, no sweep within fifteen minutes of data to a session removes it |
| SessionEffects.SweepExactly | relay/relay.go:1217-1229 | a sweep drops exactly the sessions not seen for fifteen minutes; all others, the index and the patterns stay |
| SessionEffects.ClearExactly | relay/relay.go:1387-1413 | a clear drops exactly the sessions that lead to the address; all others, the index and the patterns stay |
| SessionGauge.EveryRunBalanced | relay/relay.go:1219-1229 | over every interleaving of single map operations, the gauge is the number of keys less the losses plus what running tasks still owe |
| SessionGauge.GaugeExactIff | relay/relay.go:1403-1410 | with nothing running, the gauge is exact if and only if no store met a key deleted since its lookup and no delete met a key already gone |
| SessionGauge.SweepDuringStore | relay/relay.go:901-905 | a sweep between a handler's two table operations leaves a stored session uncounted |
| SessionGauge.EveryRunFindable | relay/relay.go:901-907 | over every interleaving each session in the table is indexed or its storing handler is between its two stores |
| SessionGauge.FloodedOnlyWhilePublishing | relay/relay.go:937-965 | over every interleaving data for a session in the table is flooded only while a handler has stored that index in the table and not yet in the index |
| SessionGauge.FloodedIff | relay/relay.go:937-965 | over every interleaving an index is flooded exactly until its first store in the index is completed; sweeps and clears do not bring that back |
| SessionGauge.FloodedWhileStored | relay/relay.go:901-907 | the window exists: a session in the table whose data is flooded |
| SessionGauge.ObligationMet | relay/relay.go:1578-1625 | over every interleaving, once a handshake was answered or a pattern allowed a rebuild and its handler has come to rest, the index is stored and data with it is not flooded |
| SessionGauge.EveryRunEntitled | relay/relay.go:1515-1625 | over every interleaving, rebuilds and index repairs included, an index leads only to a destination that answered a handshake with it, or towards which data with it went for a client to which the destination also sent data |
| Admission.KeepsGlobal | proxy/proxy.go:546-569 | every step keeps the global counter equal to the serving handlers and within its cap |
| Admission.KeepsPerSource | proxy/proxy.go:558-573 | every step keeps each per-source counter equal to its holders and within its cap |
| Admission.KeepsZeroesPending | proxy/proxy.go:572-583 | every step keeps a deleter or taker pending for each entry whose counter is zero |
| Admission.EveryRunSafe | proxy/proxy.go:533-587 | all three hold in every interleaving of the accept loop with handler exits |
| Admission.DrainedIsEmpty | proxy/proxy.go:572-583 | once all handlers are gone and the accept loop is idle, the count is zero and the map empty |
| Admission.CapPerSource | proxy/proxy.go:558-583 | over every run an address has at most its cap of live connections, and the cap again for every delete that hit a counter in use |
| Admission.CapExceededBy | proxy/proxy.go:572-583 | for every cap and every number of such deletes, if the global cap allows it, some run reaches exactly that |
| TunnelRegistry.Registry.Enter | proxy/proxy.go:746-753 | appends the connection to its hostname's list |
| TunnelRegistry.Registry.Leave | proxy/proxy.go:755-772 | removes it from the list, and the list when it becomes empty |
| TunnelRegistry.Registry.ReplaceLocalSNIs | proxy/proxy.go:1097-1113 | installs the new hostnames and yields those no longer local |
| TunnelRegistry.Registry.CloseRemoved | proxy/proxy.go:1118-1130 | closes exactly the connections listed under removed hostnames and forgets those lists |
| TunnelRegistry.EveryRunExact | proxy/proxy.go:746-772 | after every step of every run, each list is exactly the current connections in the order they entered, and no list is empty |
| TunnelRegistry.ListedIff | proxy/proxy.go:746-772 | a connection is listed exactly while its handler pipes and no update has removed its hostname since; once all handlers left nothing is listed |
| TunnelRegistry.UpdateCloses | proxy/proxy.go:1118-1130 | an update closes every connection piping under a removed hostname, and no other |
| TunnelRegistry.PendingWasRemoved | proxy/proxy.go:1097-1113 | over every run, the names an update waits to close are those that were local before it and are not in it |
| TunnelRegistry.UpdateCarriedThrough | proxy/proxy.go:1096-1131 | an update carried through at once closes exactly the connections piping under names that stopped being local, and leaves the lists of all others |
| ProxyProtocol.ParseProxyProtocolHeader | proxy/proxy.go:172-295 | one read is replayed, dropped, rejected or parsed as classified; what the connection yields next is everything the client sent, or everything after the header's line, except what was read together with an unknown header |
| ProxyProtocol.FamiliesAgree | proxy/proxy.go:337-364 | TCP4 is declared exactly when both addresses are IPv4, both printed addresses belong to the declared family, and each denotes its original |
| ProxyProtocol.DenotesOne | proxy/proxy.go:359-364 | no printed text denotes two addresses |
| ProxyProtocol.RoundTrip | proxy/proxy.go:206-295 | for any payload and any size of the first read: with the whole header in it, everything is recovered and exactly the payload is left; otherwise every byte is replayed |
| ProxyProtocol.Conserved | proxy/proxy.go:206-278 | a read that is no header is replayed byte for byte; after a header, its line and what is yielded make up the input; after an unknown header exactly when nothing was read behind its line |
| ProxyProtocol.LineOutcome | proxy/proxy.go:206-278 | what a line of any tokens is: six with PROXY first are a header if the last two are numbers and malformed if not, PROXY UNKNOWN is the fallback, every other line is no header |
| ProxyProtocol.AtoiSigned | proxy/proxy.go:257-264 | a port reads as the number written, with or without a sign, within 64 bits |
| ProxyProtocol.AtoiRejects | proxy/proxy.go:257-264 | anything else is no number |
| ProxyProtocol.FallbackIsUnknown | proxy/proxy.go:308-334 | without TCP addresses on both sides, or a readable source, what is written reads as the fallback |
| ProxyProtocol.UnknownDropsPayload | proxy/proxy.go:233-235 | whatever is read together with the fallback header is lost |
| ProxyProtocol.HopPreservesClient | proxy/proxy.go:308-334 | a proxy that received a header writes exactly what it would write for the original client, for any next TCP target |
| Bandwidth.Meter.CalculatePeerBandwidth | main.go:1939-2031 | reports each peer against its last reading and keeps the readings of exactly the peers present |
| Bandwidth.ReadingsAreDevicePeers | main.go:2024-2028 | after a sample the readings' keys are exactly the device's peers |
| Bandwidth.SampleOf | main.go:1957-2021 | with each peer listed once, a peer's report carries its key and depends on its own last reading only |
| Bandwidth.BytesConserved | main.go:1968-2020 | over any run of samples with the peer present, reported bytes plus those between samples at one clock reading are last minus first counter plus the reading before each reset |
| Bandwidth.NothingSkipped | main.go:1971-1972 | with an advancing clock nothing is skipped |
| Bandwidth.SendBatches | main.go:2063-2076 | the batches are non-empty, within the size, as many as the rounded-up quotient, concatenate to the report, and a failing one stops no other |

## Left out

- RouterAccess.RouterIPAllowed: masks are contiguous and host bits are cleared, as parsing and the device deliver networks.
- RateLimiter.Limiter.Allow: a worker's two steps without interruption; `RateLimiterRuns` interleaves them.
- RateLimiter.Limiter.Sweep: the sweeper's steps without interruption; `RateLimiterRuns` interleaves them.
- RateLimiterBounds.AdmittedAtMost: one address, whose entries are independent of other addresses'; ticks come on schedule.
- Forwarding of other message types (relay/relay.go:996-1022): the reading of indices before it rejects them, so a cookie reply changes nothing.
- ConnectionRuns.EveryRunLawful: reading the clock and storing it as last-used time are one step.
- Sessions.StoreGood: the stores in table and index are one step here; `SessionGauge` interleaves single map operations.
- Sessions.LiveSessionNeverFlooded: packets are handled one at a time here; `SessionGauge.FloodedOnlyWhilePublishing` covers every interleaving.
- Patterns.RecordIsSummary: when two first packets race, the one that loses the load-or-store is not recorded, so the count is then a lower bound; races on a record's fields, which the source writes without a lock, are not modelled, here or in `SessionGauge`.
- Dedup.SuppressionIsSafe: the acceptance time is the stamp taken just before the endpoint is stored, not the arrival of the server's answer.
- ProxyProtocol.ParseProxyProtocolHeader: white space outside ASCII in a header line, and addresses that are missing, are not modelled; IPv6 addresses are their canonical text.
- Bandwidth.BytesConserved: whole bytes; the conversion to megabytes is not modelled.
- Sockets, DNS, dialing, TLS ClientHello parsing, HTTP handlers and JSON: I/O around the core, represented by inputs.
- Decryption, signatures and token hashing: opaque library calls.
- Proxy mappings, their idle sweep and the resolved-address cache: only easy members.
- Route lookup and endpoint stickiness in the SNI proxy: routes are cached by hostname, so stickiness per client is not a property of the lookup.
- Start, Stop, channels and goroutine shutdown: process life cycle.
- Traffic shaping, firewall rules, netlink, key files, metrics back ends, logging and configuration.
