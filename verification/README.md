# A verified model of qoqtun's stateful cores

qoqtun is a reverse tunnel: a server accepts public connections and datagrams
and relays them to clients behind NAT. This project models the small stateful
cores around its sockets and proves what holds over whole runs of each of them.

| module | what it is about |
|---|---|
| UdpSessions, UdpSessionRuns | the per-tunnel UDP session table: two maps and a recency list behave as one LRU list |
| Framing | length-prefixed UDP and control frames over a reader that delivers bytes in any pieces |
| UdpReturnPath | one UDP tunnel end to end: forwarding, return frames, channel replacement |
| PortPolicy | the two parsers of allowed port ranges |
| TunnelManager, TunnelRuns, TunnelFates | tunnel registration, pending public connections and their claims; what becomes of each |
| AtomicFile, TokenStore, TokenRuns, TokenOutcomes | one-time enrolment tokens across failed saves, crashes and restarts; what each operation answers |
| ClientRpc, ClientExceptions | synchronous calls and the read loop of one control session, against the server's frame order; the sessions in which a tunnel is not known |
| Splice | two copiers with half-close, teardown and one result |
| FloodGuard | the log flood guard |
| RateWindow | the sliding 60-second rate ring |
| Base62 | the fixed-width token encoder |
| HostNames, HttpSniff, HttpRequests, Vhost | host normalisation, the HTTP head sniffer, requests as clients write them, and longest-suffix routing |
| Reconnect | error classification, the reconnect loop and its backoff |
| Collections, GoStrings | shared vocabulary; the parts of Go's `strings` and `strconv` that are used |

## How to read it

Code that changes state is a class. Each method's contract equates its new state
(and result) with a function of the old one, and the theorems about runs are
stated on those functions: `UdpTable.SessionFor` is tied to `Admit`,
`Manager.ClaimData` to `AfterClaim`, `TokenStore.Consume` to `AfterConsume`,
`Sampler.Handle` to `AfterHandle`, `Rates.Advance` to `AfterAdvance`. Code that
runs as concurrent goroutines (the client session, splice, the UDP return path)
is a transition function over atomic steps, and its theorems quantify over every
sequence of steps. What a theorem says of the past (who a session id was drawn
for, which channels were bound, what a connection was opened with, which bytes
were credited) is computed from the steps alone. Clock readings, random identifiers and operating-system
outcomes are parameters of the steps.

Iteration over a Go map is modelled by picking keys in an arbitrary order, so a
method's contract holds for every order.

## Assumptions

- `NewSessionID`, `NewConnID` and tokens are fresh: the random source does not
  repeat, and token hashes do not collide (`FreshIds`, `Possible`, `Fits`).
- A clock does not go back where a theorem says `Clocked`. Times are integers
  (nanoseconds, or seconds in RateWindow); Go's zero time is 0.
- JSON is an exact round trip: `Exact` in Framing; records are stored as such in
  TokenStore.
- A rename is atomic, and a temporary file's name is new. A crash is the death of
  the process: `Write` does not sync the directory, so a power loss may undo a
  rename after a consumption or a revocation was reported, and what is said about
  runs of the token store does not cover that.
- One process at a time writes the token file.
- Each manager, table and store method runs under its lock as one step.
- Text is ASCII; bytes of an HTTP head are modelled as characters.

## Where the code and its documentation differ

- `internal/logging/sample.go:10-12` says identical messages are logged at most
  `maxPerWindow` times within the window. The code counts from a message's first
  record and prunes lazily, so a window can see up to `2*max - 1` records:
  `AtMostTwiceMaxPerWindow` is the bound, and `WorstCaseOccurs` attains it within
  one tick of the clock. `DocumentedBoundIff`: the documented bound holds of every
  run if and only if the maximum is one or the window is not positive.
- `docs/conn-manager-state.md` draws Online and Draining states; the loop only
  ever enters Connecting, Disconnected and Stopped.
- `docs/udp-semantics.md` section 4 says packets are dropped when the session
  table is full; the code evicts the least recently active session instead.
- `internal/clientcore/client.go:401-405` says a tunnel is known by the time its
  open_connection is processed. `KnownIffNotExcused` gives the exact condition, at
  every moment from the tunnel's making on and so whenever the goroutine that
  handles the frame looks it up: the tunnel is known if and only if its response
  was read, and its register call had not given up, it was not stopped, the local
  registry was not replaced, and neither was the pending table its call had
  entered. This needs the server to issue no id that the registry kept from the
  session before holds; it issues none while it lives, since it never drops a
  client's manager (`internal/control/server.go:657-686`), and `ReissuedIdIsKnown`
  shows what a restarted server can cause. For a UDP tunnel the response is always
  read before the open_connection. For a TCP or HTTP tunnel it need not be, as its
  listener accepts before the response is written (`internal/tunnel/server.go:129-131`,
  `internal/control/server.go:554-568`): `EarlyOpenIsUnknown` is a first session
  without any other trouble. The registry and the pending table are replaced on a
  reconnect although nothing timed out: `setupTunnels` replaces the tunnel client
  after calls are already possible (`SetupCanLoseTunnel`), and a call can enter the
  pending table just before `runSession` replaces it and then write on the new
  connection (`ReplacementCanOrphan`).
- An `allowed_ports` entry with surrounding space is accepted at start-up and
  then opens no port at all (`AcceptedEntryAdmits`, `SpacedEntryOpensNothing`).

## Model

| member | source | states |
|---|---|---|
| UdpSessions.HexID | internal/tunnel/udp_server.go:225-233 | the buffer-filling loop yields the two-digits-per-byte text |
| UdpSessions.HexInjective | internal/tunnel/udp_server.go:225-233 | different session ids never share a byID key |
| UdpSessions.KeyOfId | internal/tunnel/udp_server.go:134-139 | with the maps in agreement, byID under the hex key answers exactly what a search of the recency list by raw id answers |
| UdpSessions.ExpireIsKeep | internal/tunnel/udp_server.go:167-179 | dropping the peers collected as idle is dropping the idle entries |
| UdpSessions.UdpTable.constructor | internal/tunnel/udp_server.go:60-88 | the table starts empty, with defaults for limits out of range |
| UdpSessions.UdpTable.SpliceOut | internal/tunnel/udp_server.go:141-149 | the scan and splice removes exactly the key and keeps the order of the rest |
| UdpSessions.UdpTable.EvictLRU | internal/tunnel/udp_server.go:151-161 | eviction drops the head of the recency list from all three structures |
| UdpSessions.UdpTable.SessionFor | internal/tunnel/udp_server.go:110-132 | the table becomes the LRU list's admission of the peer; None exactly when the id source fails for an unknown peer, possibly after an eviction |
| UdpSessions.UdpTable.SessionByID | internal/tunnel/udp_server.go:134-139 | the session a return frame's id belongs to, or none |
| UdpSessions.UdpTable.ExpireIdle | internal/tunnel/udp_server.go:163-181 | whatever the map order, the table becomes the list without its idle entries, and the count returned is the number removed |
| UdpSessions.UdpTable.Close | internal/tunnel/udp_server.go:199-207 | all sessions are gone from all three structures |
| UdpSessionRuns.RunsStaySound | internal/tunnel/udp_server.go:110-190 | over every run with fresh ids the size stays within maxSessions and no peer or id is listed twice, also when id generation fails after an eviction |
| UdpSessionRuns.RunsStayInOrder | internal/tunnel/udp_server.go:110-181 | with a non-decreasing clock the recency list stays sorted by last activity over every run |
| UdpSessionRuns.SweepCutsPrefix | internal/tunnel/udp_server.go:163-181 | on a sorted list a sweep removes exactly a prefix: everything before the cut is idle, nothing after it is, and the rest stays in place |
| UdpSessionRuns.EvictedIsOldest | internal/tunnel/udp_server.go:119-122 | the evicted session has minimal last activity |
| UdpSessionRuns.AdmitServesPeerSparesOthers | internal/tunnel/udp_server.go:110-132 | a packet that gets a session makes its peer the most recent one, under its old id if it had one, and no other session is changed or lost except the oldest one of a full table |
| UdpSessionRuns.Drive | internal/tunnel/udp_server.go:110-207 | any run of calls on the table itself goes through the states of the list, so the capacity, uniqueness and order results hold of it |
| Framing.U32OfPut | internal/tunnel/udp_frame.go:36-38 | a big-endian length reads back as the number written |
| Framing.PutOfU32 | internal/tunnel/udp_frame.go:52 | re-writing the length read restores its four bytes |
| Framing.LengthIsBigEndian | internal/tunnel/udp_frame.go:36-38 | the four bytes of a length, most significant first |
| Framing.UdpLayout | internal/tunnel/udp_frame.go:29-42 | when a datagram can be framed, and the bytes of its frame |
| Framing.Reader.ReadFull | internal/tunnel/udp_frame.go:47-59 | a full read depends on the bytes only, not on how they arrive, and succeeds exactly when enough remain |
| Framing.ReadUdpFrame | internal/tunnel/udp_frame.go:44-61 | the reader loop agrees with parsing the whole stream and leaves exactly the unread bytes |
| Framing.UdpOutcome | internal/tunnel/udp_frame.go:44-61 | for any bytes, whether the reader waits, refuses, or takes a frame, and which id and payload it takes |
| Framing.UdpReadsBack | internal/tunnel/udp_frame.go:29-61 | an encoded frame followed by anything reads back as itself exactly when the reader's limit admits its payload, and is refused otherwise |
| Framing.UdpReencodes | internal/tunnel/udp_frame.go:29-61 | an accepted frame re-encodes to the bytes consumed exactly when its payload is within the encoder's 65507-byte limit |
| Framing.UdpStreamReadsBack | internal/tunnel/udp_frame.go:29-61 | any list of sendable frames, concatenated, reads back as that list and leaves only an incomplete tail |
| Framing.ReadFrame | internal/protocol/protocol.go:119-134 | the control reader agrees with parsing the whole stream and leaves exactly the unread bytes |
| Framing.CtlLayout | internal/protocol/protocol.go:79-96 | when a message can be framed, and the bytes of its frame |
| Framing.CtlOutcome | internal/protocol/protocol.go:97-134 | for any bytes, whether the reader waits, refuses, or takes a message |
| Framing.CtlReadsBack | internal/protocol/protocol.go:54-134 | an encoded control message reads back as itself exactly when its type and its JSON are not empty |
| Framing.CtlStreamReadsBack | internal/protocol/protocol.go:54-134 | any list of control messages within the limits reads back as that list with nothing lost |
| UdpReturnPath.ReturnPathSafety | internal/tunnel/server.go:181-223 | over every run, told by its events alone, each datagram written back went to the peer its session id was drawn for, frames are written only on channels that were bound, and the channel is the one bound last exactly until that one's own loop stops, so an exiting loop never clears a newer channel |
| UdpReturnPath.LoopsRunUntilStopped | internal/tunnel/server.go:195-222 | a read loop runs from its channel's binding exactly until reading fails or a frame is malformed |
| UdpReturnPath.PacketForwardedIff | internal/tunnel/server.go:142-179 | with any steps of the other goroutines between look-up, choice of channel and write, a public packet is forwarded exactly when size, rate, session, channel and write allow, on the channel chosen and as one frame that decodes to its session's id and payload |
| UdpReturnPath.AnswerReachesSender | internal/tunnel/server.go:139-213 | a client's answer that quotes a forwarded frame's session id goes to exactly the peer that frame came from if the session lives when the answer is read, even if it ends before the write, and nowhere otherwise |
| PortPolicy.PortAllowed | internal/tunnel/server.go:263-284 | the scan accepts a port exactly when some entry admits it |
| PortPolicy.RangesAvoidListeners | internal/config/validate.go:254-267 | start-up accepts the list exactly when every entry parses and avoids the control and enroll ports |
| PortPolicy.AcceptedEntryAdmits | internal/config/validate.go:106-122 | an entry accepted at start-up admits at registration exactly its range if it has no surrounding space, and no port otherwise |
| PortPolicy.PortRange | internal/config/validate.go:106-122 | "LO-HI" is accepted exactly for 1 <= LO <= HI <= 65535, and opens exactly that range |
| PortPolicy.SinglePort | internal/tunnel/server.go:263-284 | "N" is accepted exactly for a port number, and opens that port |
| PortPolicy.AcceptedRange | internal/config/validate.go:254-267 | a range is accepted exactly if it is one and avoids the control and enroll ports |
| PortPolicy.DefaultPorts | internal/config/validate.go:179-181 | without a configured list exactly 20000 to 29999 can be claimed |
| PortPolicy.SpacedEntryOpensNothing | internal/config/validate.go:106-122 | " 80" is such an entry: accepted as port 80, it opens no port |
| PortPolicy.ListenersNeverAdmitted | internal/config/validate.go:254-267 | the scan over an accepted configuration, defaults included, never admits the control port or a configured enroll port |
| TunnelManager.TunnelNameInjective | internal/tunnel/server.go:103-104 | tunnel ids made from different numbers differ |
| TunnelManager.Manager.Register | internal/tunnel/server.go:82-137 | checks in order (limit, range, policy, port in use), then number, listener and both maps; a failed listener uses up a number only |
| TunnelManager.Manager.AddVhostTunnel | internal/tunnel/server.go:423-442 | a vhost tunnel takes a number and a slot and leaves the ports alone |
| TunnelManager.Manager.Unregister | internal/tunnel/server.go:286-302 | removes the tunnel and its port and closes exactly its pending connections, whatever the map order |
| TunnelManager.Manager.OpenConnection | internal/tunnel/server.go:366-384 | enters the connection under its conn id with a deadline, ten seconds by default; a failed id source changes nothing |
| TunnelManager.Manager.ClaimData | internal/tunnel/server.go:386-408 | the four outcomes of a claim: unknown, too late, tunnel gone, handed over; every known conn id leaves the table |
| TunnelManager.Manager.CleanupExpired | internal/tunnel/server.go:410-421 | closes exactly the pending connections past their deadline, whatever the map order |
| TunnelRuns.EveryConnectionLeavesOnce | internal/tunnel/server.go:366-421 | in every reachable state each opened conn id is pending or has left exactly once, with its own connection, and a hand-over was no later than its deadline and went to the tunnel it was opened for |
| TunnelRuns.ClaimsAreExclusive | internal/tunnel/server.go:386-408 | a successful claim yields a registered tunnel, the one the connection was opened for, and that conn id is never claimable again in any continuation |
| TunnelRuns.RegistryHolds | internal/tunnel/server.go:96-127 | ports and the dedicated-port tunnels are mutually inverse in every reachable state, and vhost tunnels do not disturb them |
| TunnelRuns.RegistrationIsFresh | internal/tunnel/server.go:103-127 | a registration that succeeds takes a free port and an id that no tunnel ever had |
| TunnelRuns.LimitHolds | internal/tunnel/server.go:87-89 | with one positive limit throughout, serialised registrations never exceed it |
| TunnelFates.FateIsDecided | internal/tunnel/server.go:366-421 | the operations after a connection was opened alone decide what becomes of it: the first claim in time with its tunnel there gets the connection itself, a late claim, a clean-up past the deadline or the end of its tunnel closes it, and nothing else touches it |
| TunnelFates.ClaimAnswers | internal/tunnel/server.go:386-408 | what a claim answers after any operations: the connection and its tunnel, too late, tunnel gone, or unknown |
| TunnelFates.RegisterOutcome | internal/tunnel/server.go:82-137 | a registration succeeds exactly below a positive limit, for a valid port that the policy admits, that is free and that can be listened on; and what it changes |
| TunnelFates.TunnelLivesUntilUnregistered | internal/tunnel/server.go:286-302 | a registered tunnel is there, unchanged and with its port, exactly until it is unregistered |
| TunnelFates.UnregisterFreesPort | internal/tunnel/server.go:286-302 | un-registering frees the tunnel's port and no other |
| TunnelFates.ListenersNeverClaimed | internal/config/validate.go:254-267 | over every run under a configuration accepted at start-up, no client ever holds the control port or a configured enroll port |
| AtomicFile.Disk.Write | internal/platform/atomicfile/atomicfile.go:11-49 | whatever call fails and wherever the process dies, the target holds its old content or the whole new content, and only the temporary file is touched besides |
| TokenStore.RecordsOf | internal/auth/store.go:224-228 | the records of a map, in any order, read back as that map |
| TokenStore.ReplaceFrom | internal/auth/store.go:63-77 | the loop fills the map with the records, later ones over earlier ones and without those that have no id |
| TokenStore.LastRecordIsKept | internal/auth/store.go:63-77 | the last record with an id is the one kept under it |
| TokenStore.TokenStore.constructor | internal/auth/store.go:39-61 | a new process starts from the file, or empty if there is none |
| TokenStore.TokenStore.ReloadIfChanged | internal/auth/store.go:79-99 | memory is replaced exactly when the file is readable and its stamp changed |
| TokenStore.TokenStore.SaveLocked | internal/auth/store.go:222-240 | memory is unchanged, and the file becomes memory's records exactly when the rename happened |
| TokenStore.TokenStore.PurgeExpired | internal/auth/store.go:213-220 | removes exactly the expired records that were not used |
| TokenStore.TokenStore.Create | internal/auth/store.go:101-125 | the TTL and field checks, then the record in memory and the save |
| TokenStore.TokenStore.Consume | internal/auth/store.go:127-174 | reload, look-up by hash, then the checks in order; success only after the mark is saved |
| TokenStore.TokenStore.Revoke | internal/auth/store.go:176-187 | marks the record and reports the save |
| TokenRuns.ConsumedAtMostOnce | internal/auth/store.go:127-174 | over every run of creations, consumptions, revocations, reloads, failed saves, crashes and restarts, no token is consumed twice |
| TokenRuns.SpentOrRevokedIsDead | internal/auth/store.go:131-187 | once a token was consumed or its revocation succeeded, no later consumption of it succeeds, whatever the disk and the clock do |
| TokenRuns.UntouchedTokenWorks | internal/auth/store.go:103-240 | a token whose creation was saved stays good over every run that does not touch it, with restarts, failed saves, reloads and other tokens in between: it can be consumed exactly until it expires and as long as the mark is saved |
| TokenOutcomes.ConsumeOutcome | internal/auth/store.go:127-174 | which of unknown, revoked, expired, used, not saved and success a consumption answers, and what it changes |
| TokenOutcomes.RevokeOutcome | internal/auth/store.go:176-187 | a revocation is refused exactly for an unknown id and otherwise marks that record and no other |
| TokenOutcomes.CreateOutcome | internal/auth/store.go:101-125 | when a token is created, and that no other record changes |
| TokenOutcomes.PurgeOutcome | internal/auth/store.go:213-220 | exactly the records that are expired and unused go |
| TokenOutcomes.RevocationKills | internal/auth/store.go:127-187 | a saved revocation of a known token is reported, and no consumption of it succeeds in any continuation |
| TokenOutcomes.UntouchedTokenCanBeRevoked | internal/auth/store.go:101-187 | a created token that nothing touched is revoked by a saved revocation, and dead from then on |
| ClientRpc.EachCallAnsweredOnce | internal/clientcore/client.go:453-499 | in every interleaving, and even against arbitrary server frames, a call gets at most one reply, with its own number; once over it leaves nothing pending, and a waiter whose entry is gone has its reply unless the table it had entered was replaced |
| ClientRpc.CallGoesOut | internal/clientcore/client.go:464-480 | a call takes a number no call ever had, enters the table with what it asks for, and its request goes out |
| ClientRpc.GivingUp | internal/clientcore/client.go:476-491 | a call that times out or cannot be written gives up and takes its entry along |
| ClientRpc.StoppedIsForgotten | internal/clientcore/client.go:310-337 | an answered stop removes its tunnel from the local registry, and no other |
| ClientRpc.StraysGetNothing | internal/clientcore/client.go:146-149 | the calls whose entries the new session's empty table drops are exactly those that had entered the old one, and nothing is ever delivered to them |
| ClientRpc.ResponseIsDelivered | internal/clientcore/client.go:399-421 | in every run a response belongs to an unanswered call; if that is still waiting in this session's table the read loop hands it over, and a granted tunnel is registered before the call returns |
| ClientRpc.TunnelKnownWhenOpened | internal/clientcore/client.go:397-443 | in every session, also with calls begun before it, and at any time after the read loop read an open_connection, its tunnel is in the local registry, unless its register call had given up, it was stopped, the registry was replaced, its call's pending table was, or it is no UDP tunnel and its response is not read yet |
| ClientRpc.KnownIffNotExcused | internal/control/server.go:513-587 | in every session whose tunnel ids the kept registry does not hold, and at every moment, a tunnel the server made is known to the client if and only if its response was read and none of the four other reasons applies; for a UDP tunnel the response is read before any open_connection |
| ClientRpc.FirstSessionKnownIff | internal/control/server.go:513-587 | the same in a first session, with no condition on the ids |
| ClientRpc.AbandonedByItsCall | internal/clientcore/client.go:481-491 | an abandoned tunnel is one whose register call timed out or failed to send |
| ClientRpc.OrphanedByReplacement | internal/clientcore/client.go:146-149 | an orphaned tunnel is one that a register call from before the session asked for, and that call never gets the answer |
| ClientRpc.FirstSessionAlwaysKnown | internal/control/server.go:566-587 | without timeouts, failed writes or stops, a first session knows a tunnel from the moment its response is read, and a UDP tunnel whenever an open_connection for it was read |
| ClientExceptions.EarlyOpenIsUnknown | internal/tunnel/server.go:129-131 | the open_connection of a TCP tunnel can overtake its response: in a first session with no other trouble the client is asked for a tunnel it does not know |
| ClientExceptions.SetupCanLoseTunnel | internal/clientcore/client.go:203-215 | a reconnecting client can lose a tunnel registered before its tunnel client is replaced, although nothing timed out |
| ClientExceptions.ReplacementCanOrphan | internal/clientcore/client.go:146-149 | a call can be granted a tunnel the client never learns of, and still be waiting, because the pending table it had entered was replaced |
| ClientExceptions.ReissuedIdIsKnown | internal/clientcore/client.go:84-93 | the condition on ids is needed: an entry kept from the session before can answer for a re-issued id |
| Splice.DeliversPrefixes | internal/tunnel/splice.go:48-62 | under every interleaving, error and close, each peer has received a prefix of what the other sent |
| Splice.DeliversWhatWasSent | internal/tunnel/splice.go:48-62 | the same of the bytes sent, as the peers' events alone tell |
| Splice.WholeStreamBeforeHalfClose | internal/tunnel/splice.go:22-28 | without errors or outside closes, a connection is half-closed or closed only after its peer received everything the other sent |
| Splice.PublishesOnceAtTheEnd | internal/tunnel/splice.go:67-72 | at most one result, only after both copiers finished and both ends are closed, counting exactly what was delivered |
| Splice.DeliveryIsFinal | internal/tunnel/splice.go:67-72 | nothing after the result changes what was delivered |
| Splice.FinishedHasHalfClosed | internal/tunnel/splice.go:55-57 | a copier that is through has half-closed its destination wherever that is supported |
| Splice.FatalClosesBoth | internal/tunnel/splice.go:58-61 | a fatal failure closes both connections before its copier is through |
| Splice.OpenUntilBothFinished | internal/tunnel/splice.go:50-69 | without a fatal failure or an outside close both connections stay open until both copiers are through |
| Splice.CleanDirectionIsWhole | internal/tunnel/splice.go:48-62 | whatever errors and closes happen in the other direction, a copier that stopped at end of stream has delivered everything sent its way and counted it |
| Splice.CanAlwaysComplete | internal/tunnel/splice.go:29-81 | from every state reached without errors or outside closes the splice can still deliver everything sent, close and publish both lengths |
| Splice.EveryScheduleEnds | internal/tunnel/splice.go:29-81 | once both peers ended their streams, every undisturbed schedule takes a bounded number of effective steps, and where none is left everything was delivered and both lengths published |
| FloodGuard.Sampler.Prune | internal/logging/sample.go:80-90 | no prune within a window of the last one; otherwise exactly the counts older than the window go, whatever the map order |
| FloodGuard.Sampler.Handle | internal/logging/sample.go:46-70 | prune, count, then pass, summarise or drop |
| FloodGuard.AtMostTwiceMaxPerWindow | internal/logging/sample.go:46-90 | over every run on a non-decreasing clock, an interval no longer than the window passes at most 2*max - 1 records of one message |
| FloodGuard.WorstCaseOccurs | internal/logging/sample.go:46-90 | for every positive window and every maximum above one there is a run in which 2*max - 1 records pass within one tick of the clock |
| FloodGuard.DocumentedBoundIff | internal/logging/sample.go:10-12 | the documented bound of max records per window holds of every run if and only if the maximum is one or the window is not positive |
| FloodGuard.SurvivorsAreYoung | internal/logging/sample.go:80-90 | after a prune every surviving count started less than two windows ago |
| FloodGuard.EachRecordRightly | internal/logging/sample.go:46-70 | between prunes the n-th record of a message passes for n up to max, and the k-th one after that is reported as k suppressed ones exactly when the summary interval divides k, and dropped otherwise, whatever other messages come in between |
| RateWindow.Rates.Advance | internal/metrics/rate.go:31-43 | the loop advances the ring second by second, clearing each slot it reuses |
| RateWindow.Rates.Add | internal/metrics/rate.go:23-29 | bytes go to the newest slot after advancing |
| RateWindow.Rates.Rate | internal/metrics/rate.go:45-60 | reports the newest slot and a sixtieth of the ring's sum, truncated |
| RateWindow.AddRing | internal/metrics/rate.go:23-43 | after an add each slot still holds exactly what its second was credited in the full history |
| RateWindow.RingSum | internal/metrics/rate.go:55-58 | the ring's sum is the history's sum over the last sixty seconds |
| RateWindow.RatesAreTrue | internal/metrics/rate.go:23-60 | after every run of adds and reads, also with a clock that steps back, the newest slot and the ring's sum are those of the full history, which the operations alone determine |
| RateWindow.LongGapClears | internal/metrics/rate.go:38-42 | after a gap of sixty seconds or more the ring is empty |
| Base62.Encode | internal/auth/token.go:46-70 | the division, padding and reversal loops compute the padded base-62 text |
| Base62.DecodesToNumber | internal/auth/token.go:48-70 | a base-62 decoder recovers the number from the text, for inputs of any length |
| Base62.NumberIsBigEndian | internal/auth/token.go:49 | the bytes are read most significant first |
| Base62.DigitsWidth | internal/auth/token.go:55-58 | n digits suffice exactly for the numbers below 62 to the n |
| Base62.Powers | internal/auth/token.go:59-62 | 62^42 < 256^32 < 62^43 |
| Base62.FixedWidth | internal/auth/token.go:59-62 | every 32-byte input encodes to exactly 43 characters |
| Base62.WidthIsTight | internal/auth/token.go:59-62 | 32-byte inputs need at most 43 digits, and all 43 exactly from 62^42 on |
| Base62.EncodingInjective | internal/auth/token.go:46-70 | different inputs of one length encode differently |
| HostNames.ConfigIsProtocol | internal/config/validate.go:16-25 | the configuration's hostname pattern and the protocol's label loop accept the same labels |
| HostNames.AcceptedNormalisesToLower | internal/protocol/validate.go:218-234 | every name either check accepts normalises to its lower-case form |
| HostNames.NormalizeIdempotent | internal/tunnel/http_sniff.go:157-176 | normalising twice is normalising once |
| HostNames.SpellingsNormalise | internal/tunnel/http_sniff.go:157-176 | every spelling of an acceptable name, in either case, with or without a port and a final dot, normalises to the lower-case name |
| HostNames.AcceptedLabel | internal/protocol/validate.go:218-234 | a label is 1 to 63 letters, digits and hyphens with no hyphen at either end (section 2.1 of RFC 1123) |
| HostNames.NameOfLabels | internal/protocol/validate.go:218-234 | a name is acceptable exactly if it is at most 253 characters long and each label is acceptable |
| HttpSniff.ReadSniffLine | internal/tunnel/http_sniff.go:97-124 | one terminated line within buffer and budget, or the right error; nothing is lost |
| HttpSniff.SniffHost | internal/tunnel/http_sniff.go:40-95 | the loop computes the sniffing function, and on acceptance prefix and unread rest are the original stream, the prefix within the budget |
| HttpSniff.AcceptanceIsSound | internal/tunnel/http_sniff.go:40-95 | an accepted prefix is a request line and header lines ending at the blank line or at the first Host header, and the host is that header's value, or the absolute-form authority at the blank line, normalised |
| HttpSniff.AcceptanceIsComplete | internal/tunnel/http_sniff.go:40-95 | conversely every stream that starts with such a head within the budget is accepted with that head as prefix, whatever follows |
| HttpSniff.SettledHasNoFolds | internal/tunnel/http_sniff.go:72-75 | no accepted head holds a folded line (section 5.2 of RFC 9112) |
| HttpRequests.FieldIsJudged | internal/tunnel/http_sniff.go:80-83 | a field line names the host exactly if its name is "host" in any case, and by its value without the surrounding space |
| HttpRequests.HostFieldRoutes | internal/tunnel/http_sniff.go:40-95 | a request whose first Host field spells an acceptable name is accepted as that name in lower case, whatever its request line, its other fields and what follows |
| HttpRequests.AbsoluteTargetRoutes | internal/tunnel/http_sniff.go:134-155 | so is one without a Host field by the authority of its absolute-form target |
| HttpRequests.NoHostIsRefused | internal/tunnel/http_sniff.go:86-88 | an origin-form request without a Host field has no usable host |
| HttpRequests.BadLineIsRefused | internal/tunnel/http_sniff.go:72-79 | a folded line, and one without a name or a colon, make the head malformed |
| HttpRequests.BadHostValuesAreRefused | internal/tunnel/http_sniff.go:86-92 | an empty Host value and one that starts like an IPv6 literal are refused |
| HttpRequests.LongHeadIsRefused | internal/tunnel/http_sniff.go:114-116 | a head that outgrows the budget is refused, however it would go on |
| Vhost.VhostTable.Register | internal/tunnel/vhost.go:27-37 | a duplicate host is refused and the table unchanged |
| Vhost.VhostTable.UnregisterTunnel | internal/tunnel/vhost.go:39-48 | removes exactly the hosts bound to the tunnel |
| Vhost.VhostTable.Lookup | internal/tunnel/vhost.go:57-73 | the exact rule if there is one, else the longest covering rule, else none |
| Vhost.RouteUnique | internal/tunnel/vhost.go:65-71 | the answer is the same for every iteration order |
| Vhost.CoversIffSubdomain | internal/tunnel/vhost.go:67 | a rule covers exactly the hosts made of a prefix, a dot and the rule |
| Vhost.NewRuleTakesItsSubdomains | internal/tunnel/vhost.go:57-73 | adding a rule reroutes exactly its subdomains that no longer rule covers |
| Vhost.UnregisteredNeverRoutes | internal/tunnel/vhost.go:39-48 | no host routes to a tunnel that was unregistered |
| Reconnect.ClassifyIdempotent | internal/clientcore/errors.go:44-50 | classifying twice is classifying once |
| Reconnect.Manager.OneTurn | internal/clientcore/manager.go:94-129 | one pass of the loop: the states entered, the session counted, and the result if it returns |
| Reconnect.Manager.Run | internal/clientcore/manager.go:81-131 | the loop over any script of outcomes enters the states, starts the sessions and returns the result of its reference trace |
| Reconnect.TraceShape | internal/clientcore/manager.go:92-130 | every trace is (Connecting Disconnected)* Connecting? Stopped, and a session starts only after temporary errors and no stop request |
| Reconnect.RunsWhileRetried | internal/clientcore/manager.go:92-130 | the loop goes on exactly as long as every turn ends in a temporary error and no stop is seen |
| Reconnect.ErrorIsFromLastSession | internal/clientcore/manager.go:104-113 | an error returned is the last session's, classified permanent, and has no graceful shutdown in its chain |
| Reconnect.FirstEndingDecides | internal/clientcore/manager.go:92-130 | the first turn that is not retried decides the whole trace: the states, the number of sessions and the result |
| Reconnect.GracefulReturnsNil | internal/clientcore/errors.go:30-39 | a graceful shutdown, however wrapped, makes the loop return without an error |
| Reconnect.ChainMeans | internal/clientcore/errors.go:30-39 | graceful, permanent and temporary mean that such an error is somewhere in the wrap chain |
| Reconnect.UnmarkedErrorByText | internal/clientcore/errors.go:41-73 | an unmarked error is permanent exactly if its text holds a permanent marker in any case, or a fatal code |
| Reconnect.CertificateErrorIsPermanent | internal/clientcore/errors.go:52-73 | an unmarked error that mentions a certificate anywhere in its chain is permanent |
| Reconnect.BackoffFor | internal/clientcore/manager.go:133-163 | the doubling loop yields min(initial*2^(n-1), max), then jitter, floor and cap; the delay never exceeds the maximum whatever the jitter, and stays within the jitter of the schedule |
| Reconnect.DoubledIsPower | internal/clientcore/manager.go:133-137 | n doublings multiply by 2^n |
| Reconnect.ScheduleGrows | internal/clientcore/manager.go:134-144 | the schedule starts at the smaller of the initial delay and the maximum, never shrinks, doubles up to half the maximum and ends at the maximum |

## Left out

- UdpSessions.UdpTable.SessionFor: the session object both maps share is a value stored under both keys, so a touch writes it twice; the model does not capture later changes through a pointer kept by a caller, and none are made.
- UdpSessions.UdpTable.constructor: when the port cannot be bound there is no table.
- UdpSessions.UdpTable.ExpireIdle: `time.Sub` is exact integer subtraction; saturation at 292 years is not modelled.
- TunnelManager.Manager.Register: registrations are serialised; two overlapping calls could both pass the limit check, which takes the lock separately from the insertion.
- TunnelManager.Manager.AddVhostTunnel: serialised like Register.
- TunnelManager.Manager.OpenConnection: the deadline set on the public connection itself is not part of this model, only the pending entry's.
- TunnelManager.Manager.Unregister: closing the listener and the UDP channel after the maps are updated is not part of this model.
- TunnelManager.TunnelNameInjective: the 64-bit wrap-around of the sequence number is not modelled.
- RateWindow.Rates.Add: byte counts are unbounded integers.
- TokenStore.TokenStore.constructor: a file that exists but cannot be read or parsed refuses to start; there is then no store to speak of.
- Reconnect.BackoffFor: durations are unbounded integers; with a maximum below 2^62 ns no doubling exceeds 64 bits. The random jitter is any amount either way.
- Reconnect.Manager.Run: driven by a finite script of outcomes, since the loop itself need not end.
- HttpSniff.SniffHost: non-ASCII case folding and white space, read deadlines, and the exact error when a stream ends on the very byte that fills the buffer.
- ClientRpc.TunnelKnownWhenOpened: the pending table, channels and goroutines are a transition system rather than a class; a step that goes through the tunnel client's pointer counts as taken when it reads the pointer; the read loop of the session before has ended; frames for tunnels of an earlier session are not covered.
- Splice.DeliversPrefixes: the goroutines are a transition system rather than a class; the idle timeout is not modelled, nor that the scheduler runs a goroutine that can move.
- Per-peer packet rates, bandwidth buckets, IP gates and quota semaphores: library behaviour or one-counter facts.
- Metrics counters: sums of independent additions.
- The vhost listener's reference count and the replay connection's plumbing.
- TLS, certificates, signing, key storage, enrolment networking, the command line, IPC and the desktop application.
- Several processes writing the token file at once, which the operations manual excludes.
