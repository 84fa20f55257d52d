# LwyV-Net, modelled and proved

LwyV-Net is a self-hosted VPN: clients reach a server over TCP, every connection is encrypted with keys
that rotate on the way, the server leases virtual addresses, and it forwards IPv4 packets between
clients and a gateway device. This project models its state machines in Dafny and proves what they are
for: that payloads arrive in order and once, that no number is accepted twice, that a nonce is never
reused, that the lease tables stay inverse and exact, that a bound client has its lease, and that
packets reach the peers that they are meant for.

How the files fit together, from the bottom up:

| files | what they model |
|---|---|
| `Bytes.dfy`, `Ipv4.dfy`, `Subnet.dfy` | big-endian fields, addresses and their text, masks, network and broadcast addresses |
| `Crypto.dfy`, `Handshake.dfy`, `Auth.dfy`, `SessionKeys.dfy` | HKDF, the two handshake sides, the client's proof of identity; what the keys are and that they differ |
| `Frame.dfy`, `Protocol.dfy` | framing over a segmented TCP stream; the innermost type byte |
| `Replay.dfy` | the 64-bit sliding window, against the set of accepted numbers |
| `SecureSpec.dfy`, `SecureConn.dfy` | one encrypted connection: what sealing, rotating and receiving do; the object with its mutable key states |
| `Delivery.dfy`, `Nonces.dfy`, `WriteSteps.dfy`, `Rotation.dfy`, `ReadSteps.dfy`, `Pongs.dfy`, `OldKeys.dfy`, `Torn.dfy`, `EndToEnd.dfy` | one direction as a step system over a FIFO stream: writers, rotations, failures and the reader interleaved; the object's writes and reads as its steps; when keys are replaced; what becomes of pings, of frames under old keys, and of a frame that is cut short |
| `AtMostOnce.dfy` | the receiver alone, over a channel that drops, duplicates, reorders and forges |
| `Leases.dfy`, `Manager.dfy`, `Configured.dfy` | the lease pool as a value, the manager object that implements it, and runs of a configured manager |
| `Registry.dfy`, `RegistryRuns.dfy`, `ServerSteps.dfy`, `VpnServer.dfy` | the peer registry and its runs; the server as a step system over all connections; the server object, each of whose handlers does those steps |
| `RegistryBacked.dfy`, `LeaseBacked.dfy`, `ServerRegistry.dfy`, `Waiting.dfy`, `Passing.dfy`, `Forwarding.dfy`, `Addressing.dfy` | properties of all runs of the server |
| `Reconnect.dfy`, `Rediscovery.dfy`, `SelfSend.dfy` | the runs that break plainer claims |
| `Client.dfy`, `Session.dfy`, `ClientSteps.dfy`, `Joint.dfy`, `GettingReady.dfy` | the client's session; client and server handlers over FIFO channels; the object's handlers as its steps; the client together with the whole server |

Cryptography is a parameter, `Crypto.Primitives`, of which `Correct()` asks four things: hashes are 32
bytes, public keys are 32 bytes, opening undoes sealing, and the key exchange commutes. Clocks, random
bytes, write failures and TCP segmentation are parameters or steps chosen by the environment; locks
become atomic steps.

Where a plain claim about the code is false, the code is kept as it is, the failing input is a lemma, and
the exact condition is proved:

- `cleanupPeer` marks a lease offline by client ID without asking whether another connection has taken
  the identity over. `Reconnect.TakeoverLeavesLeaseOffline` is the run that breaks "each binding of the
  registry has an online lease of the bound peer for exactly that address".
  `RegistryBacked.BindingsBackedExactly` says that a run keeps the claim in all its states if and only if
  no step marks an identity offline while the registry leads to a peer of it, and none binds an address
  whose lease has gone offline or away. `LeaseBacked.BackedExactly` is the same kind of result for a
  wider notion: every address that a peer holds, from the moment it is granted, and also while the peer
  has been evicted and not yet cleaned up.
- `bindIP` leaves a peer's earlier address in the registry. `RegistryRuns.StaleAddress` is the run of the
  registry, `Rediscovery.AskingAgainLeavesStaleAddress` a run of the server that comes to it.
  `RegistryRuns.ReachableExactly`, and for the server `ServerRegistry.RemovedReachableExactly`, says that
  after any run a removed peer is still reachable if and only if some address last bound to it is not the
  address it had in the end.
- `enqueue` waits for room in a queue as long as its peer is not closed. `SelfSend.FloodJams` is the run in
  which a client's handler waits for room in the client's own queue, whose send loop has ended, so that it
  is never cleaned up. `Waiting.StuckForever` says that connections that wait for each other so are not
  cleaned up in any run without an eviction of one of them, and `Waiting.OthersCanLeave` that every
  connection outside such a set can be cleaned up.
- A payload whose write was cut short and reported as failed is read all the same if the next frame
  happens to begin with the missing bytes: `Torn.FailedWriteExample` is the input. `Torn.TornTakenExactly`
  says that the reader takes something for such a frame if and only if that is so.
- `writeFrame` cuts the payload's length to 32 bits before it compares it with the bound.
  `Frames.OversizedPayloadSlipsThrough` is the payload, and `Frames.WrittenFrameSurvives` gives the
  condition: a frame that the writer lets through survives if and only if its length is below 2^32.
- A 64-bit sequence number that wraps to 0 is refused by every receiver
  (`Delivery.WrappedCounterRefused`); the delivery theorem therefore assumes that no key seals 2^64 - 1
  frames. Key ids do wrap around, and the theorem covers that.
- A refused write consumes a sequence number. Numbers on the wire increase strictly but need not be
  consecutive, and no theorem here says that they are.

## Model

| member | source | states |
|---|---|---|
| Replay.ReplayWindow.constructor | tcpx/replay.go:9-14 | a new window has accepted nothing; sizes 0 and above 64 mean 64 |
| Replay.ReplayWindow.Accept | tcpx/replay.go:16-45 | true iff the number is nonzero, not accepted before, and above the maximum or less than the window size behind it; the bitmap stays exact (bit d stands for maxSeq - d) and maxSeq stays the largest accepted number |
| Replay.FullAcceptanceFrom | tcpx/replay.go:16-45 | from any set of accepted numbers: a run is accepted in full iff each number is acceptable, they are distinct, and none comes after one larger by the window size or more |
| Replay.FullAcceptance | tcpx/replay.go:16-45 | on a fresh window, for every size: accepted in full iff nonzero, distinct and reordered by less than the size |
| Replay.NeverTwice | tcpx/replay.go:16-45 | equal numbers in a run are never both accepted |
| Words.MaskTestsBit | tcpx/replay.go:38-42 | testing a one-bit mask against the word tells exactly that bit |
| Frames.PutUint | tcpx/frame.go:69-73 | a big-endian field is stored in place and the other bytes of the buffer stay |
| Frames.Conn.ReadFull | tcpx/frame.go:35-61 | however the stream is segmented: the buffer gets exactly the next bytes and they are consumed, or the error tells an empty stream from a cut one |
| Frames.ReadFrame | tcpx/frame.go:34-62 | reading a frame from any segmentation is parsing the concatenated stream: same result, same rest |
| Frames.WriteFrame | tcpx/frame.go:64-79 | the writer's refusals, and the exact bytes that reach the transport, also when it fails midway |
| Frames.HeaderFields | tcpx/frame.go:69-73 | where magic, version, type, length and payload stand in the bytes |
| Frames.ParseOfEncode | tcpx/frame.go:34-79 | a frame within the bound is read back whole, whatever follows, and exactly its 11 + length bytes are consumed |
| Frames.EncodeOfParse | tcpx/frame.go:34-62 | whatever parses is the encoding of its result followed by the rest, within the same bound |
| Frames.EncodeUnique | tcpx/frame.go:34-79 | the encoding is uniquely decodable even with bytes behind it |
| Frames.ParseAllOfEncodeAll | tcpx/frame.go:34-79 | any list of written frames is read back as exactly that list, followed by a clean end of stream |
| Frames.TornFrame | tcpx/frame.go:34-62 | no proper prefix of a frame is taken for a frame |
| Frames.WrittenFrameSurvives | tcpx/frame.go:64-79 | a frame that the writer lets through is read back iff its length is below 2^32 |
| Frames.OversizedPayloadSlipsThrough | tcpx/frame.go:64-67 | a payload of 2^32 bytes is let through and read as an empty frame followed by stray bytes |
| Protocol.UnpackExactly | vlan/protocol.go:14-32 | Unpack returns a type and a payload iff the input is Pack of them and the type is known |
| Crypto.HkdfExpand | tcpx/hkdf.go:17-31 | the loop returns the first L octets of the blocks T(1), T(2) and so on put together |
| Crypto.OutputOctet | tcpx/hkdf.go:17-31 | up to 255 blocks: octet j is octet j mod 32 of the block j / 32 + 1 that section 2.3 of RFC 5869 defines, counter octet included |
| Crypto.OutputPrefix | tcpx/hkdf.go:17-31 | shorter outputs are prefixes of longer ones |
| Crypto.HkdfKeyIsExpand | tcpx/hkdf.go:33-35 | the protocol's keys are the first 32 octets of extract-then-expand |
| Crypto.RotatedKeyLength | tcpx/secure_conn.go:285-287 | a rotated key is again 32 bytes |
| Handshakes.ClientHandshake | tcpx/handshake.go:18-56 | the client's bytes out, bytes consumed and verdict, on every outcome of the stream and of the write |
| Handshakes.ServerHandshake | tcpx/handshake.go:58-99 | the same for the server |
| Handshakes.HandshakeAgrees | tcpx/handshake.go:18-118 | the server's reply to the client's hello is accepted, with mirrored 32-byte keys; the server fails only when the client does |
| Handshakes.HandshakeOverStreams | tcpx/handshake.go:18-118 | the same over segmented streams, leaving what follows each frame unread |
| EndToEnd.HandshakeOpensChannels | tcpx/handshake.go:101-118 | a completed handshake establishes the channel invariant in both directions |
| SessionKeys.SessionKeysAreHkdf | tcpx/handshake.go:113-118 | each direction's key is 32 octets of HKDF over the shared secret, salted with the transcript, each with its own info string |
| SessionKeys.RotatedKeyIsHkdf | tcpx/secure_conn.go:285-287 | a rotated key is 32 octets of HKDF over the fresh salt, salted with the old key |
| SessionKeys.EqualKeysCollide | tcpx/handshake.go:113-118 | if both directions got one key, two different short messages would have one HMAC |
| SessionKeys.DirectionsDiffer | tcpx/handshake.go:58-118 | so a completed handshake gives different keys for sending and receiving, if short messages do not collide |
| SessionKeys.DirectionsShareNoNonce | tcpx/handshake.go:58-118 | and the seals under the first keys of the two directions never share key and nonce, over any two runs |
| SessionKeys.TranscriptInjective | tcpx/handshake.go:101-111 | the transcript determines magic, version and both public keys |
| SessionKeys.HelloAnsweredExactly | tcpx/handshake.go:58-84 | which hellos the server answers |
| SessionKeys.ReplyAcceptedExactly | tcpx/handshake.go:30-56 | the client accepts a reply iff it opens, under the server-to-client key and the transcript, to a text of 24 bytes that begins with the tag; with those keys |
| Auth.HexRoundTrip | vlan/auth.go:22-98 | hexadecimal decodes to what was encoded |
| Auth.HexInjective | vlan/auth.go:22-98 | distinct public keys give distinct client IDs |
| Auth.AuthRoundTrip | vlan/auth.go:22-98 | the server accepts every payload that a client makes for it, as that client's nonempty ID |
| Auth.VerifiedExactly | vlan/auth.go:54-85 | the server returns an ID iff the payload is version, key, nonce and the MAC under the secret shared with that key, and the ID is the key in hexadecimal |
| Auth.VerifiedProvesKey | vlan/auth.go:54-85 | which bytes of an accepted payload are the key and the nonce |
| Auth.ProvenKeyVerifies | vlan/auth.go:54-85 | every payload with a right MAC is accepted |
| Auth.MacInputUnique | vlan/auth.go:87-98 | the MAC covers keys and nonce unambiguously |
| SessionKeys.MacBinds | vlan/auth.go:87-98 | equal MACs of different keys or nonces are a collision of the HMAC |
| SecureSpec.SeqNonceInjective | tcpx/secure_conn.go:269-273 | distinct numbers have distinct nonces |
| SecureSpec.EncryptedAADInjective | tcpx/secure_conn.go:275-283 | the associated data determines magic, version, key id and number |
| SecureConns.SecureConn.constructor | tcpx/secure_conn.go:38-55 | both keys start at id 1 with nothing sealed and nothing accepted |
| SecureConns.SecureConn.Close | tcpx/secure_conn.go:60-65 | the connection and its transport are closed, and nothing more can be read |
| SecureConns.SecureConn.EncryptAndWriteLockedNoRotate | tcpx/secure_conn.go:129-159 | one seal: the counter moves even when the write is refused or fails; the exact bytes out |
| SecureConns.SecureConn.RotateSendKeyIfNeededLocked | tcpx/secure_conn.go:105-123 | a due rotation writes a key update under the old key and only then installs the next key; a failure leaves the old one |
| SecureConns.SecureConn.WriteInner | tcpx/secure_conn.go:95-103 | rotation and frame as one write |
| SecureConns.SecureConn.Write | tcpx/secure_conn.go:67-69 | the sender's new state, the bytes out and the error of a data write; the key is replaced on success iff it has reached the configured age; the receiver is untouched |
| SecureConns.SecureConn.SendPong | tcpx/secure_conn.go:72-72 | the same for a pong |
| SecureConns.SecureConn.Lookup | tcpx/secure_conn.go:217-228 | the current key, the old key until it expires, or none |
| SecureConns.SecureConn.MarkReplayOK | tcpx/secure_conn.go:230-240 | the replay window of the named key alone decides and remembers |
| SecureConns.SecureConn.InstallRecvKey | tcpx/secure_conn.go:242-259 | only the current key can be superseded; it is demoted together with its window |
| SecureConns.SecureConn.HandleFrame | tcpx/secure_conn.go:161-215 | what one frame does to the receiver, on every branch, as the specification Receive says |
| SecureConns.SecureConn.ReadInner | tcpx/secure_conn.go:161-215 | frames are taken until one is not a key update; the bytes consumed |
| SecureConns.SecureConn.Read | tcpx/secure_conn.go:74-93 | the payload or error of a read, with pings answered and pongs dropped, and both key states and both streams after it |
| Delivery.ReceiveInOrder | tcpx/secure_conn.go:161-259 | a frame sealed under the receiver's current key, with a higher number, is always accepted, at any clock reading |
| Delivery.TransmitLinks | tcpx/secure_conn.go:129-159 | sealing and sending keep "replaying the frames in flight leads from the receiver's key to the sender's" |
| Delivery.TransmitConserves | tcpx/secure_conn.go:129-159 | delivered plus in flight stays what was written with success |
| Delivery.TakeNextKeeps | tcpx/secure_conn.go:161-215 | the reader's step keeps the channel invariant |
| Delivery.NextKeeps | tcpx/secure_conn.go:95-259 | every step of writers, rotation, transport and reader keeps the channel invariant |
| Delivery.RunKeeps | tcpx/secure_conn.go:95-259 | so does every run |
| Delivery.InOrderDelivery | tcpx/secure_conn.go:67-259 | over every interleaving and rotation schedule, as long as no write is cut short: delivered payloads are a prefix of those written with success, the reader reports no error and nothing is lost; behind a write that is cut short the prefix claim holds on the premise that the reader fails there, which `Torn.TornTakenExactly` makes exact |
| Delivery.DrainedKeysAgree | tcpx/secure_conn.go:105-123 | once the stream is drained and no rotation is under way, both sides hold the same key id and key |
| Delivery.WrappedCounterRefused | tcpx/secure_conn.go:136-141 | a frame numbered 0 is refused in every state |
| Nonces.NextOrders | tcpx/secure_conn.go:95-159 | every step keeps the seals strictly increasing in (key index, number) |
| Nonces.RunOrders | tcpx/secure_conn.go:95-159 | so does every run |
| Nonces.NoncesNeverRepeat | tcpx/secure_conn.go:95-159 | no two seals of a direction share key index and nonce, counting pings, key updates, refused and failed writes and retried rotations (the requirement of section 8 of NIST SP 800-38D, for the frames of a connection) |
| Rotation.WriteRotatesExactly | tcpx/secure_conn.go:95-159 | a successful write puts out a key update under the old key and the payload under the next iff the key has reached the configured age; else the payload alone under the same key; with the exact keys and bytes |
| Rotation.FailedWriteRotates | tcpx/secure_conn.go:95-159 | a failing write replaces no young key, and puts nothing but a key update out under an old one |
| Rotation.NextKeeps | tcpx/secure_conn.go:95-159 | every step keeps keys and seals in line with the rotation checks made |
| Rotation.RotatedExactlyWhenOld | tcpx/secure_conn.go:105-123 | over every run: no key younger than the interval is replaced, and nothing but a key update is sealed under a key that had reached it at the write's check |
| OldKeys.OldKeyTakenExactly | tcpx/secure_conn.go:217-259 | a frame under a superseded key is taken iff the grace period is not over at either look at the clock and that key's own window accepts its number |
| OldKeys.OldKeyCannotUpdate | tcpx/secure_conn.go:196-259 | a key update under a superseded key is refused |
| OldKeys.KeyForgotten | tcpx/secure_conn.go:242-259 | after two key updates the first key is unknown |
| WriteSteps.TransmitIsSeal | tcpx/secure_conn.go:129-159 | one seal and write, refused, cut short or whole, is the step system's |
| WriteSteps.WriteIsSteps | tcpx/secure_conn.go:95-159 | a whole write, on every outcome, is a run of the step system: same key state, items that stand for the same bytes, and counted as written exactly on success |
| ReadSteps.ReadStreamIsSteps | tcpx/secure_conn.go:161-215 | taking frames off a wire's bytes, up to the first that is no key update, is a run of the system's read steps |
| ReadSteps.ReadIsSteps | tcpx/secure_conn.go:74-93 | a whole Read, on every outcome, is a run of the read steps: same receiver, same bytes left, the payload it returns delivered, and the reader's error |
| Torn.TornTakenExactly | tcpx/secure_conn.go:142-215 | a frame cut short behind its number is taken by the reader iff the bytes that follow begin with the missing ones, and then for what it is, if nobody forges and its number is its own |
| Torn.TakenIsSealed | tcpx/secure_conn.go:161-215 | on any damaged stream, what the reader opens and nobody forged is a frame that the sender sealed, with its content |
| Torn.FailedWriteIsRead | tcpx/secure_conn.go:129-215 | a write that failed is read if the next frame begins with the bytes it lacks |
| Torn.FailedWriteExample | tcpx/secure_conn.go:129-215 | an input for that |
| EndToEnd.ReadStreamInOrder | tcpx/secure_conn.go:161-215 | from the bytes of a linked wire, a read takes the first frame that is no key update and follows the updates before it |
| EndToEnd.ReadReturnsFirstPending | tcpx/secure_conn.go:74-93 | Read returns the first payload in flight, end of stream only if there is none, and leaves a linked wire |
| Pongs.OnePongPerPing | tcpx/secure_conn.go:74-93 | one Read puts out exactly one pong for each ping before the payload, with the sender's next numbers |
| EndToEnd.WriteIsLinked | tcpx/secure_conn.go:95-159 | a successful Write is the bytes of a linked wire that carries exactly its payload, rotation included |
| EndToEnd.PackedPayloadArrives | tcpx/secure_conn.go:67-259 | packed, sealed, framed, segmented, reassembled, opened and unpacked, a payload is what it was |
| AtMostOnce.ArriveKeeps | tcpx/secure_conn.go:161-259 | every arrival, forged ones included, keeps the two windows exact for their keys |
| AtMostOnce.InstalledKeeps | tcpx/secure_conn.go:242-259 | a key change keeps that, because the demoted key keeps its own window |
| AtMostOnce.RunKeeps | tcpx/secure_conn.go:161-259 | so does every run of arrivals |
| AtMostOnce.AcceptedAtMostOnce | tcpx/secure_conn.go:161-259 | over any arrivals, times, rotations and grace periods, no number is accepted twice under one receive key |
| AtMostOnce.EntryOrigin | tcpx/secure_conn.go:161-240 | every acceptance goes back to an arrival that opened under the logged key |
| AtMostOnce.SealedFrameAcceptedAtMostOnce | tcpx/secure_conn.go:161-259 | a sealed frame that is duplicated, delayed or reordered is accepted at most once, if keys differ and it opens under no key but its own |
| Ipv4.BytesRoundTrip | vdhcp/manager.go:221-228 | numbers and four-byte addresses convert into each other without loss |
| Ipv4.TextInjective | vdhcp/manager.go:226-228 | distinct addresses have distinct dotted texts, so maps keyed by text are maps keyed by address |
| Ipv4.TextSpells | vdhcp/manager.go:226-228 | the text is the four bytes in decimal, most significant first, without leading zeros |
| LeaseManager.NewManager | vdhcp/manager.go:45-97 | each error in the source's order, or a fresh manager with an empty, valid pool |
| LeaseManager.NormalizeDNSServers | vdhcp/manager.go:230-240 | the loop keeps all but blank texts, in order |
| LeaseManager.Manager.constructor | vdhcp/manager.go:74-96 | a configuration without a problem makes an empty, valid pool |
| LeaseManager.ValidatedConfigBuilds | config/config.go:116-144 | every configuration that the loader lets through makes a manager; and the loader lets through exactly those without blank DNS texts that make one and whose mask is 2^32 - 2^(32-p) |
| Configured.LeasesInRange | vdhcp/manager.go:45-214 | in every run of a configured manager every lease is for an address between the configured ends, and none for the gateway's |
| Configured.FailsExactly | vdhcp/manager.go:45-132 | after every run, acquiring without a lease fails iff after the sweep the leases number endIP - startIP + 1, less one if the gateway lies between them |
| Configured.FirstGrant | vdhcp/manager.go:45-132 | the first grant is the first address from startIP that is not the gateway's |
| Configured.LeaseRunsItsTime | vdhcp/manager.go:98-158 | over every run a lease is online iff its last touch was an acquire, runs the configured lease or grace time (24 hours or 5 minutes by default) from there, and is swept iff offline and over it |
| Configured.AcquireGives | vdhcp/manager.go:98-132 | every field of the lease that acquiring gives, and that no other lease changes but by the sweep |
| Configured.EmptyIDRefused | vdhcp/manager.go:98-101 | an empty identity is refused and changes nothing |
| LeaseManager.Manager.Acquire | vdhcp/manager.go:98-132 | the new tables and the result are those of the pool's Acquire; the returned lease is a fresh copy, apart from all that the manager holds |
| LeaseManager.Manager.RenewLocked | vdhcp/manager.go:104-111 | an existing lease is put online with a new expiry, and nothing else changes |
| LeaseManager.Manager.GrantLocked | vdhcp/manager.go:113-131 | a new lease is entered in both tables |
| LeaseManager.Manager.MarkOffline | vdhcp/manager.go:134-146 | the named lease goes offline with its grace period; no other lease is touched |
| LeaseManager.Manager.Release | vdhcp/manager.go:148-152 | the lease leaves both tables |
| LeaseManager.Manager.ReleaseLocked | vdhcp/manager.go:207-214 | both tables lose exactly that client |
| LeaseManager.Manager.SweepExpired | vdhcp/manager.go:154-158 | exactly the offline expired leases go |
| LeaseManager.Manager.SweepExpiredLocked | vdhcp/manager.go:196-205 | the same, in whatever order the map yields its keys while they are deleted |
| LeaseManager.Manager.AllocateIPLocked | vdhcp/manager.go:171-186 | the loop finds the first free address in cyclic order and moves the cursor past it, or finds none in one turn and ends where it began; its counter does not overflow |
| LeaseManager.Manager.AdvanceNextLocked | vdhcp/manager.go:188-194 | the cursor moves one on and wraps at the end without overflowing |
| LeaseManager.Manager.Snapshot | vdhcp/manager.go:160-169 | each lease exactly once, as fresh copies |
| LeasePool.AtStep | vdhcp/manager.go:188-194 | advancing the cursor is one step of the cycle |
| LeasePool.AtCovers | vdhcp/manager.go:171-194 | any poolSize consecutive positions visit every address |
| LeasePool.ApplyKeeps | vdhcp/manager.go:98-214 | Acquire, MarkOffline, Release and sweep keep the tables inverse, inside the pool, and off the reserved addresses |
| LeasePool.RunKeeps | vdhcp/manager.go:98-214 | so does every run |
| LeasePool.NoSharedAddress | vdhcp/manager.go:98-214 | in every run no two clients hold one address |
| LeasePool.FullExactly | vdhcp/manager.go:171-186 | the scan finds nothing iff there are as many leases as addresses that are not reserved |
| LeasePool.AcquireFailsExactly | vdhcp/manager.go:98-132 | acquiring without a lease fails after the sweep iff the leases number the pool size, less one if the gateway lies in the pool |
| LeasePool.AcquireTakesFirstFree | vdhcp/manager.go:171-186 | the granted address is the first free one from the cursor; the cursor ends just behind it, or does not move |
| LeasePool.LeaseSurvivesExactly | vdhcp/manager.go:98-214 | an operation ends a lease iff it is the client's release or a sweep that finds it offline and expired |
| LeasePool.Sticky | vdhcp/manager.go:98-132 | over any run without such an operation the client keeps its address, and acquiring again returns it |
| LeasePool.OnlineIsNeverSwept | vdhcp/manager.go:196-205 | an online lease survives every run of the others at every clock value |
| LeasePool.AllocationIsGrant | vdhcp/manager.go:98-132 | in the trace of examined addresses, an allocation is the last exam of a successful acquire |
| LeasePool.TraceIsCyclic | vdhcp/manager.go:171-194 | the addresses examined over a run are the cycle from the cursor, without a gap |
| LeasePool.FairCursor | vdhcp/manager.go:171-214 | between two allocations of one address the cursor examines every other address of the pool |
| Registry.ClientPeer.SetIdentity | vlan/peer.go:41-49 | an identity, once set, never changes |
| Registry.ClientPeer.Enqueue | vlan/peer.go:95-104 | a packet is appended, or refused because the peer is closed, or the call waits because the queue of an open peer is full |
| Registry.ClientPeer.Close | vlan/peer.go:106-113 | the peer is done and its connection closed |
| Registry.PeerRegistry.AddPeer | vlan/peer.go:130-134 | the connection leads to the peer |
| Registry.PeerRegistry.Bind | vlan/peer.go:136-147 | address and identity lead to the peer, and the result is whom the address led to before |
| Registry.PeerRegistry.RemovePeer | vlan/peer.go:149-165 | each of the peer's own keys is dropped only where it still leads to the peer |
| Registry.PeerRegistry.ByIP | vlan/peer.go:173-177 | the peer that the address leads to, if any |
| Registry.PeerRegistry.ByConn | vlan/peer.go:167-171 | the peer of the connection, if any |
| Registry.RemoveSparesOthers | vlan/peer.go:149-165 | removing a peer leaves every other peer's entries as they were, so a superseded peer never takes its successor's binding |
| Registry.ReachableAfterRemove | vlan/peer.go:149-165 | a removed peer stays reachable exactly through entries under keys that are no longer its own |
| RegistryRuns.RunKeeps | vlan/peer.go:115-165 | over every run: connections and identities lead to peers that are not removed, and each address to the peer last bound to it, unless that peer was removed with the address as its own |
| RegistryRuns.IdentitiesLead | vlan/peer.go:136-165 | over every run each identity leads to the peer last bound under it, until that one is removed |
| RegistryRuns.ReachableExactly | vlan/peer.go:115-165 | after any run, a removed peer is reachable iff some address last bound to it is not its final address |
| RegistryRuns.RemovedIsUnreachable | vlan/peer.go:115-165 | over every run with one address per peer, removed peers are reachable through none of the maps |
| RegistryRuns.StaleAddress | vlan/peer.go:136-147 | a peer bound to two addresses leaves the first behind |
| Rediscovery.OtherLease | vdhcp/manager.go:171-194 | once a lease is lost, the next one is for another address if two were free |
| Rediscovery.AskingAgainLeavesStaleAddress | vlan/server.go:275-305 | a run of the server that ends with a removed peer still bound: in every pool with nothing leased and two addresses free |
| VpnServer.VPNServer.constructor | vlan/server.go:113-130 | a new server shows the starting state |
| VpnServer.VPNServer.OnTCPConnect | vlan/server.go:175-184 | the handler, run alone, is the system's Connect step |
| VpnServer.VPNServer.HandleClientAuth | vlan/server.go:239-260 | the handler is the Authenticate step |
| VpnServer.VPNServer.HandleVDHCP | vlan/server.go:214-273 | an unauthenticated peer is closed, a message that is undecodable or no discover changes nothing, and a discover is answered |
| VpnServer.VPNServer.HandleDHCPDiscover | vlan/server.go:275-305 | the handler is the steps Discover, WriteOffer, Bind and Evict in turn, on every outcome; the reply |
| VpnServer.VPNServer.OfferAddress | vlan/server.go:286-293 | a failed write of the offer makes the handler leave; a successful one binds |
| VpnServer.VPNServer.BindAddress | vlan/server.go:290-293 | the address leads to the peer and the peer that it led to, if another, is closed |
| VpnServer.VPNServer.HandleIPPacket | vlan/server.go:221-328 | the handler is the steps HandleIP and Enqueue, and waits exactly when they leave it with the packet in its hands; the gateway device gets the packet exactly when it is the sender's own, not filtered, and addressed to no peer |
| VpnServer.VPNServer.SendOne | vlan/server.go:330-343 | one turn of the send loop, the steps SendNext and SendDone, takes the first packet off the queue |
| VpnServer.VPNServer.PassOn | vlan/server.go:320-327 | on the queues themselves: the peer that the destination leads to gets the packet last, if it has room, and no other queue changes; without such a peer the gateway's device gets it |
| VpnServer.VPNServer.EnqueueAt | vlan/peer.go:95-104 | the queue gets the packet, or refuses it, or the caller waits |
| VpnServer.VPNServer.TunToClients | vlan/server.go:358-377 | one turn of the gateway pump is the steps ReadTun and EnqueueTun; on the queues themselves: the peer that the destination leads to gets the packet last, if it has room, and no other queue changes |
| Passing.TunPasses | vlan/server.go:358-377 | one turn of the pump: the packet becomes the last of the target's queue and of all routes, or waits because the queue of an open peer is full, or is dropped; nothing else changes |
| Passing.TunHolds | vlan/server.go:358-377 | the pump reads nothing while it holds a packet |
| Passing.PeerPasses | vlan/server.go:307-323 | the same for a client's packet that may pass |
| Passing.PeerDoesNotPass | vlan/server.go:307-328 | a packet that may not pass goes nowhere; one for nobody goes to the gateway's device if there is one |
| Passing.SendLoop | vlan/server.go:330-343 | when the send loop takes a packet, counts it as sent, and ends |
| Passing.LoopOnlyBy | vlan/server.go:330-343 | nothing else starts or ends it |
| VpnServer.VPNServer.DestinationFiltered | vlan/server.go:314-318 | the verdict of the three tests on a destination |
| VpnServer.VPNServer.CleanupPeer | vlan/server.go:345-356 | the cleanup is the steps that close, remove and mark offline |
| VpnServer.VPNServer.SweepLeases | vlan/server.go:379-393 | the sweeper's turn is the SweepStep |
| VpnServer.DiscoverStepsAnswer | vlan/server.go:275-305 | what the four steps of a discover come to |
| VpnServer.PacketStepsEffect | vlan/server.go:307-328 | what the two steps of a packet come to |
| VpnServer.SendStepsEffect | vlan/server.go:330-343 | what a turn of the send loop comes to |
| VpnServer.CleanupStepsEffect | vlan/server.go:345-356 | what the three steps of a cleanup come to |
| ServerRegistry.RunProjects | vlan/server.go:175-356 | every run of the server is a run of its registry's operations |
| ServerRegistry.RemovedReachableExactly | vlan/server.go:275-356 | after any run of the server, a removed peer is reachable iff some address last bound to it is not its final address |
| Waiting.StuckStays | vlan/peer.go:95-104 | connections whose handlers each wait for room in a full queue of one of them that is not closed and that no send loop takes from stay so under every step but an eviction of one of them |
| Waiting.StuckForever | vlan/server.go:307-356 | so no run without such an eviction cleans one of them up |
| Waiting.OthersCanLeave | vlan/server.go:307-356 | every connection that is in no such set can be brought to the end of its cleanup |
| Waiting.RunWired | vlan/server.go:203-377 | in every run, whatever leads to a peer leads to one that exists, queues are bounded, and a peer being cleaned up is closed |
| SelfSend.FloodJams | vlan/server.go:307-343 | the run that comes to it: a client floods its own address while its send loop is held up in a write, which then fails |
| RegistryBacked.StepExactly | vlan/server.go:203-393 | from a state in which every binding is backed, a step leads to such a state iff it neither marks an identity offline that the registry leads to nor binds an address whose lease is offline or gone |
| RegistryBacked.BindingsBackedExactly | vlan/server.go:275-393 | over whole runs and every interleaving: every binding has an online lease of the bound peer for exactly that address, in all states, iff no step does either |
| LeaseBacked.NextKeeps | vlan/server.go:203-393 | every step of every connection and of the sweeper keeps held addresses backed by online leases, if it does not mark an identity offline that another connection uses |
| LeaseBacked.OfflineBreaks | vlan/server.go:345-350 | such a step always breaks it |
| LeaseBacked.BackedExactly | vlan/server.go:275-393 | over whole runs: every address that a peer holds, bound, granted or evicted and not yet cleaned up, is backed by an online lease of its holder in all states iff no step marks an identity offline that another connection uses |
| LeaseBacked.ExclusiveIdentities | vlan/server.go:275-393 | with one live connection per identity: every binding has its online lease, distinct bindings belong to distinct identities, and no bind evicts another peer |
| Reconnect.TakeoverLeavesLeaseOffline | vlan/server.go:345-350 | a reconnect that overtakes the old connection's cleanup ends bound and open with its lease offline, for every pool with an address to give |
| Forwarding.NextKeeps | vlan/server.go:203-377 | every step keeps routes genuine, ordered per source and equal to what the queues hold and held |
| Forwarding.RunKeeps | vlan/server.go:203-377 | so does every run |
| Forwarding.ForwardedOnce | vlan/server.go:307-328 | every packet passed on is byte for byte one that its source handed in; if the source is a connection, it was authenticated, the packet's source was its own address when the packet was handled, and that was leased to its identity; no packet is passed on twice |
| Forwarding.ReceivedInOrder | vlan/server.go:330-343 | a connection is sent a prefix of the routes to it, and the packets of one source in their order |
| Addressing.NextKeeps | vlan/server.go:275-377 | every step keeps bindings and packets in hand addressed to identities that were leased the address |
| Addressing.NoMisdelivery | vlan/server.go:307-377 | over every run a packet queued for a connection is addressed to an address leased to that connection's identity |
| ClientSession.Client.OnTCPConnect | vlan/client.go:150-186 | the session that a new connection starts, not ready; what is sent, in order; and that any failure closes the connection |
| ClientSession.Client.OnTCPDisconnect | vlan/client.go:188-192 | a disconnect ends the session |
| ClientSession.Client.HandleVDHCP | vlan/client.go:237-287 | an offer is accepted iff it is one for the session's own request with every field in order, the device can be configured and the client is not ready yet; then, on the session's own connection, the client is ready with the offered address, mask, gateway and DNS servers |
| ClientSession.Client.IsReadyConn | vlan/client.go:342-346 | ready, and on this connection |
| ClientSteps.GreetStepsGreet | vlan/client.go:150-186 | the greeting, run alone, is the steps Connect, SendAuth and SendDiscover, on every outcome |
| ClientSteps.OfferStepsHandle | vlan/client.go:200-287 | handling a message, run alone, is the steps Receive, CheckOffer and Configure, on every outcome |
| ClientSteps.StaleMessage | vlan/client.go:200-203 | a message on a connection that is not the session's is passed over |
| ClientSession.OfferInOrderExactly | vdhcp/dhcp.go:81-107 | an offer is in order iff each of its fields is |
| Sessions.LinkNextKeeps | vlan/server.go:203-328 | every step of the server's handler keeps offers in line with what is bound |
| Sessions.ClientNextKeeps | vlan/client.go:150-334 | every step of the client's loop and pump keeps the order of its messages and sends packets only when ready |
| Sessions.RunKeeps | vlan/client.go:150-355 | so does every run |
| Sessions.ReadyMeansBound | vlan/client.go:237-334 | every packet of a ready client that the server handles finds an authenticated peer bound to the address of the offer that made the client ready, though the offer is written before it is bound |
| Sessions.PacketsFindTheirPeer | vlan/server.go:221-227 | no packet of such a client closes its connection |
| Joint.ServerNextAgrees | vlan/server.go:203-393 | every step of the whole server leaves the client's view of its handlers right, as one step of that view or none |
| Joint.RunAgrees | vlan/server.go:203-393 | so does every run, which is a run of the client and its handlers |
| Joint.ReadyMeansBoundOnServer | vlan/client.go:237-334 | the same result with the real lease pool, registry, evictions, cleanups, sweeps and other connections behind the handlers |
| GettingReady.ClientsGetReady | vlan/client.go:150-287 | from every state in which a client may connect and the server has an address for it, the run that greets, answers with a well-formed offer, handles it and binds ends with the client ready on that address and the server leading it to the connection |
| Subnet.BytewiseIsBitwise | vlan/state.go:32-36 | working byte by byte is working on the 32-bit number |
| Subnet.MaskToPrefixExactly | config/config.go:210-220 | a mask has prefix p iff it is p ones followed by zeros |
| Subnet.IsSubnetBroadcast | vlan/state.go:22-39 | the loop's verdict, with unparsable addresses refused |
| Subnet.MaskedAddress | tunSetup/server_gateway.go:181-188 | AND and OR with a mask give the first and the last address of the block |
| Subnet.SubnetBroadcastExactly | vlan/state.go:22-39 | for every mask with prefix p: broadcast iff network address + 2^(32-p) - 1, that is, the last address of the gateway's block (section 3.2.1.3 of RFC 1122) |
| Subnet.FilteredInBlock | vlan/state.go:9-46 | of the addresses that are not multicast, exactly the limited broadcast address and the last one of the gateway's block are filtered, in both forms of an address |
| Subnet.MulticastExactly | vlan/state.go:42-50 | the 4-byte form is recognised iff the address begins with the bits 1110, the 16-byte form never |
| Subnet.To4Exactly | vlan/state.go:22-30 | exactly the 4-byte and the mapped 16-byte forms stand for an IPv4 address |
| Subnet.FilteredExactly | vlan/state.go:9-50 | which destinations are filtered, for each form of an address |
| Subnet.NetworkAddrStartsBlock | tunSetup/server_gateway.go:181-188 | the network address is the text of the first address of the block |

## Left out

- SessionKeys.DirectionsDiffer: rests on the premise that short messages of one length do not collide under HMAC.
- Real cryptography: AES-GCM, X25519, SHA-256 and random bytes are parameters; nothing probabilistic is claimed. That distinct salts give distinct keys is a premise wherever it is needed.
- The server's handshake proof is sealed under the server-to-client key with a random nonce (tcpx/handshake.go:86-94), so the nonce theorem speaks of the frames of a connection only.
- Delivery.InOrderDelivery: once a write has been cut short by the transport, or a frame is longer than its length field can say, the step system lets the reader fail at that point of the stream. `Torn` shows when it does; behind a frame that is cut before its number is out, `Torn.TakenIsSealed` is all that is shown.
- EndToEnd.PackedPayloadArrives: the same limit as the next line, for the same reason.
- EndToEnd.WriteIsLinked: assumes that sealed frames stay below 2^32 bytes; beyond that `Frames.WrittenFrameSurvives` shows that they do not survive.
- Replay.ReplayWindow.Accept: the 64-bit word is a sequence of 64 bits with shift, or and and defined on it, not a machine word.
- Addresses in configuration, JSON messages and key texts are taken as parsed; the parsers are libraries. `Auth` models hexadecimal only.
- IPv4 header parsing is a library's: a packet's source, and its destination as a text and as bytes, are inputs, not tied to each other. Whether a library hands an address over in 4 or 16 bytes decides whether it can be recognised as multicast; nothing is claimed about that.
- VpnServer.VPNServer.HandleIPPacket: ends where the call starts to wait for room in a queue; going on once there is room is a step of the step system.
- VpnServer.VPNServer.TunToClients: ends, like the handler of packets, where the call starts to wait.
- Once another handler has closed a connection, its own handler may go on with the message it has already read; the step systems let it go on with any number of messages.
- Sessions.ReadyMeansBound: the server's lease decisions are arbitrary there (`Joint.ReadyMeansBoundOnServer` has the real ones); of the server's frames only the address protocol's are kept.
- The client's packet pump and connection loop are steps of a system, not methods with loops, because their point is how they interleave.
- Heartbeats, deadlines, reconnect back-off and jitter: time is whatever the environment reads off its clocks.
- Device creation, routes, DNS, firewall commands and their rollback: effects of the operating system.
- The mobile client, which repeats the codec and session logic around callbacks.
- The management API, event list, logging, configuration files and traffic rates: plumbing, easy bounds or floating point.
