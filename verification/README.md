# Verified models of the hard core of gsi_openssh

This project models, in Dafny, the parts of the gsi_openssh source tree with the
most state, branching and arithmetic, and proves what they are for.

- **Threaded ChaCha20-Poly1305** (`Bits`, `StreamCipher`, `Chacha`, `ChachaPoly`,
  `ChachaPolyMt`). The stream cipher on bits, the serial packet cipher, and the
  threaded cipher as a state machine of main, manager and worker steps over two
  keystream batches. Every interleaving answers as the serial cipher does.
- **Channel flow control** (`ChannelWindow`). Two endpoints run the window
  handlers of section 5.2 of RFC 4254 over first-in first-out links, with 32-bit
  counters. Safety of the window, conservation, faithful byte streams, and
  delivery under any scheduling.
- **Mux proxying** (`Wire`, `MuxProxy`). The channel table that renames channel ids
  for mux clients, from the bytes of their packets to the bytes sent up, follows
  CLOSE messages (section 5.3 of RFC 4254) and keeps forwarding permissions.
- **Binn serializer** (`Octets`, `BinnFormat`, `BinnReader`, `BinnRoundTrip`,
  `BinnInts`, `BinnWriter`). Container values, their bytes, the in-place writer,
  the validator, and all readers, shown to be inverse.
- **Multi-step authentication** (`MethodLists`, `UserAuth`, `AuthMonitor`). The
  state machine of sections 5 and 5.1 of RFC 4252, the string editing beneath it,
  and the privileged monitor that keeps lists of its own: a connection succeeds
  when both processes do.
- **Bitmap, address arithmetic, CBC, key options, atomic I/O** (`Bitmap`, `Addr`,
  `Cbc`, `AuthOptions`, `AtomicIo`, on `Options` and `Wire`).

Bytes and words of the ciphers, the bitmap and the addresses are lists of bits,
least significant first; the serializers use numbers below 256. Objects the
source updates in place are classes whose methods are proved against functions
of their abstract value; protocols are state machines with theorems over every
valid run. Block ciphers, Poly1305, thread scheduling, the operating system and
the outcome of an authentication method are parameters or steps.

Where the code and its comments or the standards differ, the model follows the
code:

- The comment at `gsi_openssh/source/cipher-chachapoly-libcrypto-mt.c` gives a
  keystream of 32768 bytes; the constant comes to 32896, which is the limit here.
- Section 5 of RFC 4252 asks a server to start over when the user name changes.
  The context of `gsi_openssh/source/auth2.c` sets up its method lists at the
  first attempt only and reports success when two users finish one list
  (`TwoUsersFinishOneList`, `OneUserExactly`). The monitor of
  `gsi_openssh/source/monitor.c` sets its own lists up again at each account
  lookup and stops that run (`MonitorStopsTwoUsers`); success in both processes
  needs one user to finish a list since the lookup (`BothSucceedOneUser`).
- `binn_is_valid_ex2` does not ask that the last value end within the container:
  `AcceptedButUnreadable` is such an input, and `AcceptedReads` says exactly what
  of an accepted container can be read.
- The id INT_MIN is stored as a negative zero: it reads back as 0, and
  `FoundUnderOwnKey` says that it alone is not found again.
- `bitmap_set_bit` takes bit 2^24, `bitmap_from_string` does not (`TopBitLost`,
  `ExportImport`).
- The mux proxy drops a zero byte at the end of a channel type
  (`TrailingZeroDropped`, `OpenOnWire`).

Limits that the code sets and the contracts carry: starting packets for which the
fill loops stay in range (`FillIndexExact`), payloads up to the keystream length
and headers up to 64 bytes for the threaded cipher; channels of type OPEN without
datagrams or filters; binn contents below 2^30 bytes, and a header only where the
buffer has space for it (`Binn.Create` says where); MaxAuthTries of at least 1 and
method and device names without commas.

`dafny verify dfyconfig.toml` checks the whole project.

## Model

| member | source | states |
|---|---|---|
| `ChachaPolyMt.ErrorFreeRunIsSerial` | gsi_openssh/source/cipher-chachapoly-libcrypto-mt.c:533-704 | In every interleaving of main, manager and worker steps without a thread failure, the cipher never stops and every packet and every length call gets exactly the bytes, tag and return code of the serial cipher for its sequence number |
| `ChachaPolyMt.EveryRunIsSerial` | gsi_openssh/source/cipher-chachapoly-libcrypto-mt.c:533-658 | With thread failures allowed: every answer is the serial one for the next unused sequence number, or the internal error, which is then the last answer of the run and ends it; sequence numbers count the successful packets from the start |
| `ChachaPolyMt.NoInterference` | gsi_openssh/source/cipher-chachapoly-libcrypto-mt.c:450-560 | In every state of every run: the main thread reads and hands over a slot only while no manager owns it, a thread is joined once, a refilling thread works only on the slot not in use, and the manager's batch check never fires |
| `ChachaPolyMt.ManagersJoinedOnce` | gsi_openssh/source/cipher-chachapoly-libcrypto-mt.c:226-297 | Over any run that ends in free, every manager thread ever spawned was joined exactly once |
| `ChachaPolyMt.JoinReturns` | gsi_openssh/source/cipher-chachapoly-libcrypto-mt.c:226-248 | A main thread waiting for a manager is never stuck: the manager can act, and each of its actions brings its end nearer |
| `ChachaPolyMt.StepKeeps` | gsi_openssh/source/cipher-chachapoly-libcrypto-mt.c:450-658 | Each step of each thread keeps the pipeline invariant: the slot of batch b holds, or is being filled with, the streams of packets 64b to 64b+63, threads are accounted for, and the log is serial |
| `ChachaPolyMt.NewContextInv` | gsi_openssh/source/cipher-chachapoly-libcrypto-mt.c:300-421 | The new context satisfies the invariant for every starting packet for which its fill loops stay within their batches |
| `ChachaPolyMt.FillIndexExact` | gsi_openssh/source/cipher-chachapoly-libcrypto-mt.c:366-376 | Those are exactly the starting packets that are not of the last batch before the 32-bit wrap: there the loop index of the second batch starts below zero |
| `ChachaPolyMt.GeneratedMatchesSerial` | gsi_openssh/source/cipher-chachapoly-libcrypto-mt.c:137-162 | Encrypting zeros in advance and combining later gives, for every packet and every length call, the serial result |
| `ChachaPolyMt.ContextMt.constructor` | gsi_openssh/source/cipher-chachapoly-libcrypto-mt.c:300-421 | Fills both batches from the starting packet on, in the slot each batch number selects, with the 32-bit loop index |
| `ChachaPolyMt.ContextMt.CryptMt` | gsi_openssh/source/cipher-chachapoly-libcrypto-mt.c:533-658 | Joins the manager of the current slot, answers as the serial cipher would, counts the packet and hands a used-up slot to a new manager: exactly one Enter and one Finish step |
| `ChachaPolyMt.ContextMt.GetLengthMt` | gsi_openssh/source/cipher-chachapoly-libcrypto-mt.c:661-704 | Answers with the serial packet length, or incomplete for fewer than four bytes, without using up a sequence number |
| `ChachaPolyMt.ContextMt.JoinManager` | gsi_openssh/source/cipher-chachapoly-libcrypto-mt.c:226-248 | Waits for a returned manager, records it as joined, and reports whether it succeeded |
| `ChachaPolyMt.ContextMt.WorkerThread` | gsi_openssh/source/cipher-chachapoly-libcrypto-mt.c:199-223 | Leaves in the slot the streams of all 64 packets of the batch two further on, or, when one cannot be generated, those before it with the others unchanged, and reports which; touches nothing else, and is a valid run of this slot's worker steps |
| `ChachaPolyMt.ContextMt.ManagerThread` | gsi_openssh/source/cipher-chachapoly-libcrypto-mt.c:450-530 | Refuses a slot of a foreign batch; with a worker that does not start or fails it keeps the old batch number and reports failure; otherwise publishes the slot for the batch two further on with all its streams right; in each case by a valid run of this slot's manager and worker steps |
| `ChachaPolyMt.ContextMt.FreeMt` | gsi_openssh/source/cipher-chachapoly-libcrypto-mt.c:250-297 | Joins the managers there are, whatever they report: exactly the free step |
| `ChachaPoly.ChachapolyCrypt` | gsi_openssh/source/cipher-chachapoly-libcrypto.c:105-165 | The written buffer and return code are those of the packet function, also when source and destination are one buffer; a bad tag changes nothing |
| `ChachaPoly.ChachapolyGetLength` | gsi_openssh/source/cipher-chachapoly-libcrypto.c:169-184 | The four decrypted bytes read one by one give the 32-bit big-endian length of the packet function; fewer than four bytes are incomplete |
| `ChachaPoly.PeekU32Bytes` | gsi_openssh/source/cipher-chachapoly-libcrypto.c:169-184 | Reading four bytes most significant first gives the number they make up, below 2^32 |
| `ChachaPoly.SerialRoundTrip` | gsi_openssh/source/cipher-chachapoly-libcrypto.c:105-165 | Decrypting an encrypted packet under its sequence number succeeds and restores header and payload |
| `ChachaPoly.LengthOfEncrypted` | gsi_openssh/source/cipher-chachapoly-libcrypto.c:169-184 | The receiver reads from an encrypted packet the length its sender put in clear |
| `ChachaPoly.FastXor` | gsi_openssh/source/cipher-chachapoly-libcrypto-mt.c:427-447 | The word-at-a-time loop with its tail is the byte-wise exclusive or of the range and leaves every other byte alone, also in place |
| `ChachaPoly.ChachaStream` | gsi_openssh/source/cipher-chachapoly.c:45-135 | Key set-up, nonce and counter set-up and chacha_encrypt_bytes, run on buffers as the packet cipher runs them, combine the data with the keystream of key, sequence number and counter, in place or not, and touch nothing beyond |
| `Chacha.ChachaCtx.EncryptBytes` | gsi_openssh/source/chacha.c:89-218 | For every length, in place or not: the output is the message combined with the keystream fixed by key, nonce and counter, bytes beyond are untouched, and the 64-bit counter advances by the number of blocks with carry and nothing else changes |
| `Chacha.SplitCalls` | gsi_openssh/source/chacha.c:89-218 | One call equals two consecutive calls split at any multiple of 64 bytes |
| `StreamCipher.CryptTwice` | gsi_openssh/source/chacha.c:89-218 | Encryption is its own inverse from the same state |
| `Chacha.AdvanceByBlocks` | gsi_openssh/source/chacha.c:183-211 | After n blocks the two counter words hold the old counter plus n modulo 2^64 and the other words are unchanged |
| `Chacha.NextWordsIncrements` | gsi_openssh/source/chacha.c:183-187 | The two-word increment with its carry is the 64-bit increment, wrap-around included |
| `Chacha.EncryptBlockIsStream` | gsi_openssh/source/chacha.c:149-204 | Combining word by word and storing is combining the message bytes with the serialized keystream block |
| `Chacha.Rounds` | gsi_openssh/source/chacha.c:139-148 | The loop over double rounds, run for every block that is encrypted, applies the scheduled quarter rounds, four for each round, in order |
| `Chacha.CryptBlock` | gsi_openssh/source/chacha.c:121-204 | One turn of the block loop, rounds, additions, combination and stores, gives the message block combined with the keystream block |
| `Chacha.PlusIsModular` | gsi_openssh/source/chacha.c:42-42 | Word addition is addition modulo 2^32 |
| `Chacha.RotateMovesBits` | gsi_openssh/source/chacha.c:40-40 | Rotation moves every bit up by its count, the top ones to the bottom |
| `Chacha.ChachaCtx.KeySetup` | gsi_openssh/source/chacha.c:55-77 | Words 4 to 11 hold the key byte for byte, a 128-bit key twice, words 0 to 3 the constants of its size as numbers, and the others are kept |
| `Chacha.KeyBytesKept` | gsi_openssh/source/chacha.c:55-77 | Every byte of a 256-bit or 128-bit key can be read back from the keyed words, and the constants are there |
| `Chacha.ChachaCtx.IvSetup` | gsi_openssh/source/chacha.c:80-86 | Nonce words are set, the counter is the given one or zero, and key words are kept |
| `Chacha.Bulk` | gsi_openssh/source/chacha.c:105-218 | The block loop with a short last block, over the rounds as they are run, equals the one-shot stream, in place or not, and leaves the state that continues it |
| `ChannelWindow.WindowRespected` | gsi_openssh/source/channels.c:3567-3635 | In every run of two endpoints over first-in first-out links, no message in flight exceeds its receiver's window or largest packet and no adjust overflows 32 bits, so the too-much-data, big-packet and overflow branches are unreachable and nobody disconnects |
| `ChannelWindow.WindowConserved` | gsi_openssh/source/channels.c:2511-2547 | In every run granted window plus buffered data plus data not yet granted again is the maximum window, and the granted window equals what the sender may still send plus data in flight plus adjusts in flight plus what was dropped, through dynamic growth |
| `ChannelWindow.WrittenIsPrefix` | gsi_openssh/source/channels.c:2344-2461 | In every run, while the output is open, what one side read is what the other has written out, then what it buffers, then what is in flight, then what is still to be sent; after any close what was written is still a prefix; so for the main and the extended stream |
| `ChannelWindow.EverythingArrives` | gsi_openssh/source/channels.c:2511-2547 | From any state of any run, with both ends open and windows of at least two bytes: however the ends are scheduled, moving data and window along stops within a bound known at the start, and when nothing can move every byte read on either side has been written out on the other |
| `ChannelWindow.AdjustDue` | gsi_openssh/source/channels.c:2511-2547 | With the window used up and the buffers drained, the next check sends an adjust if and only if the window lost to dropped data is below half the maximum or leaves more than three packets: always, when nothing is dropped and the maximum is at least two |
| `ChannelWindow.OneByteWindowStalls` | gsi_openssh/source/channels.c:2511-2547 | With a one-byte maximum and a useful packet size no adjust is ever sent, so the lower bound of two is needed |
| `ChannelWindow.StepKeeps` | gsi_openssh/source/channels.c:3116-3217 | Every handler of either end keeps both directions' window accounting, packet bounds and stream equations |
| `ChannelWindow.ReceiveFits` | gsi_openssh/source/channels.c:3638-3688 | A message at the head of a link always fits its receiver |
| `ChannelWindow.GrantFits` | gsi_openssh/source/channels.c:2511-2547 | Window, maximum and adjust computed by the check do not wrap 32 bits, also when the window grows |
| `ChannelWindow.ReadFillsWindow` | gsi_openssh/source/channels.c:2250-2266 | A read takes as much as the peer's window, the buffer and the read size allow, and not a byte more |
| `ChannelWindow.Channel.constructor` | gsi_openssh/source/channels.c:512-580 | A new channel has granted its whole window and consumed nothing |
| `ChannelWindow.Channel.HandleRfd` | gsi_openssh/source/channels.c:2234-2277 | Appends to the input exactly what the limits admit |
| `ChannelWindow.Channel.OutputPollInput` | gsi_openssh/source/channels.c:3116-3181 | The packet and the remaining input make up the old input, the packet is the largest the window and packet size allow, and the window shrinks by it |
| `ChannelWindow.Channel.OutputPollExtended` | gsi_openssh/source/channels.c:3188-3217 | The same for the extended stream, on the same window |
| `ChannelWindow.Channel.HandleWfd` | gsi_openssh/source/channels.c:2424-2431 | What is written leaves the buffer and counts as consumed |
| `ChannelWindow.Channel.ReceiveData` | gsi_openssh/source/channels.c:3567-3635 | The new counters and buffer in every branch: closed output, big packet, excess within and beyond the grace, and ordinary data; refusal exactly beyond the grace |
| `ChannelWindow.Channel.ReceiveExtended` | gsi_openssh/source/channels.c:3638-3688 | Extended data is buffered against the window or dropped without touching it |
| `ChannelWindow.Channel.ReceiveAdjust` | gsi_openssh/source/channels.c:3824-3851 | The wrapped comparison detects exactly the sums that overflow 32 bits |
| `ChannelWindow.Channel.CheckAndAdjust` | gsi_openssh/source/channels.c:2511-2547 | When an adjust is sent, its size, and the new window state with growth to the TCP buffer |
| `MuxProxy.FreedExactlyWhenClosedBothWays` | gsi_openssh/source/channels.c:3412-3422 | From the moment a proxied channel has its server id, over every run in which the server's live ids stay distinct and its client stays: the channel is gone if and only if CLOSE has passed in both directions, in either order |
| `MuxProxy.UpstreamReachesOpener` | gsi_openssh/source/channels.c:3455-3530 | In every run a server message for a proxied channel goes, unchanged but for the id, to the very client that last opened that id, which is still there, under the id the client used |
| `MuxProxy.OpeningIsRecorded` | gsi_openssh/source/channels.c:3332-3383 | An open or confirmation is forwarded with only its id replaced, by one no live channel has, and replies to that id lead back to the client and its id |
| `MuxProxy.PermitsLeadToClients` | gsi_openssh/source/channels.c:748-776 | In every run a forwarding permission that is not cleared leads to the very client that asked for it, and that client is still there |
| `MuxProxy.OpenOnWire` | gsi_openssh/source/channels.c:3332-3354 | The packet sent up for an open is the client's packet with its four id bytes replaced and no other changed, if and only if the channel type does not end in a zero byte |
| `MuxProxy.TrailingZeroDropped` | gsi_openssh/source/channels.c:3332-3354 | The failing input: an open whose type is one zero byte goes up one byte shorter |
| `MuxProxy.ConfirmationOnWire` | gsi_openssh/source/channels.c:3355-3383 | The packet sent up for a confirmation is the client's packet with its four id bytes replaced and no other changed |
| `MuxProxy.PassedUnchanged` | gsi_openssh/source/channels.c:3384-3446 | Every other packet that is not refused goes up byte for byte |
| `MuxProxy.IdsAreIndices` | gsi_openssh/source/channels.c:512-580 | In every run the id of a live channel is its table index, so ids are distinct |
| `MuxProxy.CloseGoesToFirst` | gsi_openssh/source/channels.c:270-281 | Why distinctness is needed: a client's CLOSE marks a channel if and only if no earlier live channel has the same server id |
| `MuxProxy.HandshakeStep` | gsi_openssh/source/channels.c:3455-3530 | One step of any kind changes a channel's handshake by exactly the CLOSE it carries, and frees it when both have passed |
| `MuxProxy.StepKeeps` | gsi_openssh/source/channels.c:780-843 | Opening, forwarding, closing and freeing clients keep ids, client references and the record of openings right |
| `MuxProxy.Channels.New` | gsi_openssh/source/channels.c:512-580 | The first free slot, or the first of ten new ones, receives the channel; failure only above the channel limit |
| `MuxProxy.Channels.ByRemoteId` | gsi_openssh/source/channels.c:270-281 | The first live channel with that server id, or none |
| `MuxProxy.Channels.Remove` | gsi_openssh/source/channels.c:780-843 | The slot is freed; for a client, its proxied channels are detached and its permissions cleared; all else is kept |
| `MuxProxy.Channels.RemoveForwardings` | gsi_openssh/source/channels.c:748-776 | Clears exactly the permissions of that client |
| `MuxProxy.Channels.ProxyDownstream` | gsi_openssh/source/channels.c:3302-3446 | For every packet: table, permissions and forwarded message are those of the step for the packet as parsed, the invariant is kept, and a packet that is short, does not parse, or asks for another request or a port above 65535 gives an error and changes nothing |
| `MuxProxy.Channels.ProxyUpstream` | gsi_openssh/source/channels.c:3455-3530 | Table and delivered message are those of the step, and the invariant is kept |
| `BinnRoundTrip.WrittenIsValid` | gsi_openssh/source/binn.c:1366-1447 | The validator accepts every written list, map or object, nested to any depth, followed by anything, and reports its kind, count and size |
| `BinnRoundTrip.AcceptedReads` | gsi_openssh/source/binn.c:1366-1447 | The other way: in anything the validator accepts, every item is found, nested containers are themselves accepted, and an item can be read if and only if it is not the last, or is a container, or ends within the container but for the zero after a string |
| `BinnRoundTrip.AcceptedListReads` | gsi_openssh/source/binn.c:1688-1715 | For an accepted list: a position is read if and only if it is in range and, when it is the last, a container or ending within the list |
| `BinnRoundTrip.AcceptedButUnreadable` | gsi_openssh/source/binn.c:1366-1447 | The failing input: the four bytes E0 04 01 20 are accepted and their one value cannot be read |
| `BinnRoundTrip.EndedValueReads` | gsi_openssh/source/binn.c:1488-1604 | A value that is not a container can be read if and only if it ends within the limit but for the zero after a string |
| `BinnRoundTrip.ListReadsBack` | gsi_openssh/source/binn.c:1688-1715 | A written list read at a position gives the value added there, and nothing outside 1 to the count |
| `BinnRoundTrip.PairsReadBack` | gsi_openssh/source/binn.c:1721-1778 | A written map or object read at a position gives the key and value added there, the id INT_MIN as 0, and nothing elsewhere |
| `BinnRoundTrip.KeysReadBack` | gsi_openssh/source/binn.c:1638-1684 | Lookup by id, or by name in any letter case, gives the first value stored under it, and nothing if there is none |
| `BinnRoundTrip.FoundUnderOwnKey` | gsi_openssh/source/binn.c:1638-1684 | A written map or object is a finite map: every item is found under its own key, if and only if that key is not the id INT_MIN, under which nothing is found |
| `BinnRoundTrip.IsValid` | gsi_openssh/source/binn.c:1366-1447 | The validator's loop and recursion compute the acceptance function for every byte string, with the kind and count its caller may already know, and terminate |
| `BinnRoundTrip.ListGetValue` | gsi_openssh/source/binn.c:1688-1715 | The positional loop computes the list lookup for every byte string |
| `BinnReader.ReadValue` | gsi_openssh/source/binn.c:1488-1604 | Every written value is stepped over exactly and read back with its type and contents |
| `BinnReader.ReadId` | gsi_openssh/source/binn.c:620-668 | Every map id is read back from its one to five bytes if a value follows, but for INT_MIN, which reads as 0 |
| `BinnReader.HeadAt` | gsi_openssh/source/binn.c:1192-1254 | The header of every written container is read back: kind, count, size and its own length |
| `BinnReader.Advance` | gsi_openssh/source/binn.c:542-602 | Stepping over a value never moves backward and needs its type byte within the limit |
| `BinnInts.CompressionKeepsValue` | gsi_openssh/source/binn.c:851-935 | For all eight integer types and all their values: the stored type holds the number, is never wider, no narrower type of its signedness would do, and reading gives the number back in the type it was added as |
| `BinnInts.CopyIntExact` | gsi_openssh/source/binn.c:2307-2392 | Conversion between integer types succeeds if and only if the target holds the number, and then keeps it |
| `BinnInts.IntValueGood` | gsi_openssh/source/binn.c:941-1071 | Every integer in range, compressed or not, is a storable value |
| `BinnInts.NumberOf` | gsi_openssh/source/binn.c:941-961 | Every payload of an integer type is that of exactly one number in its range |
| `BinnInts.StoredInt` | gsi_openssh/source/binn.c:941-961 | What AddValue stores for a number is that number in the shortest type, or in its own type with compression off |
| `BinnWriter.IntegersReadBack` | gsi_openssh/source/binn.c:2653-2712 | An integer of a list, map or object, compressed or not, reads back as that number in the type it was added as: by position with its key, and under its key unless that is INT_MIN |
| `BinnWriter.AddAndReadInt` | gsi_openssh/source/binn.h:597-734 | A number added through the functions for lists, maps or objects is read back from the bytes handed out by position, by iterator, and by key unless that is INT_MIN; with an allocated buffer it is added exactly if the key is right for the container and new |
| `BinnWriter.Binn.ListAddInt` | gsi_openssh/source/binn.h:597-620 | The number is appended in its compressed form, exactly if this is a list and a caller's buffer has room for the compressed width |
| `BinnWriter.Binn.MapSetInt` | gsi_openssh/source/binn.h:654-677 | The same for a map, exactly if also the id is new |
| `BinnWriter.Binn.ObjectSetInt` | gsi_openssh/source/binn.h:711-734 | The same for an object, exactly if also the name is short enough and new |
| `BinnWriter.LastByIterator` | gsi_openssh/source/binn.c:1867-1945 | An iterator run to its end gives the last item |
| `BinnWriter.Binn.Create` | gsi_openssh/source/binn.c:261-306 | For every size, with a caller's buffer or none: refused exactly for a negative size or a caller's buffer below three bytes; otherwise empty, and the header space is within the buffer exactly unless the size is from 3 to 8 |
| `BinnWriter.Binn.constructor` | gsi_openssh/source/binn.c:280-302 | The new container is empty, in the buffer given or a new one of that size |
| `BinnWriter.CalcAllocation` | gsi_openssh/source/binn.c:484-494 | The grown size suffices, never shrinks, and is below twice the need |
| `BinnWriter.Binn.CheckAllocation` | gsi_openssh/source/binn.c:498-513 | Fails exactly for a caller's buffer without room; otherwise there is room and the contents are kept |
| `BinnWriter.Binn.AddValue` | gsi_openssh/source/binn.c:941-1071 | Appends the bytes of the value, numbers compressed first unless that is off, field by field, within what was reserved for the form stored; on failure the contents are unchanged |
| `BinnWriter.Binn.ListAdd` | gsi_openssh/source/binn.c:740-752 | Adds the value as stored at the end, exactly if the container is a list and there is room; otherwise the contents are unchanged |
| `BinnWriter.Binn.MapSet` | gsi_openssh/source/binn.c:795-847 | Adds the pair, for every 32-bit id, exactly if a search does not find the id and there is room; a refused set leaves the contents unchanged |
| `BinnWriter.Binn.ObjectSet` | gsi_openssh/source/binn.c:756-791 | Adds the pair exactly if the name is short enough, new in any letter case, and there is room; a refused set leaves the contents unchanged |
| `BinnWriter.Binn.AppendId` | gsi_openssh/source/binn.c:795-847 | The bytes written for every 32-bit id are its encoding, with the negation of INT_MIN wrapping |
| `BinnWriter.SearchFor` | gsi_openssh/source/binn.c:672-732 | The search loop computes the keyed search for every byte string |
| `BinnWriter.Binn.SaveHeader` | gsi_openssh/source/binn.c:1075-1142 | With the header space in the buffer, the header is written right before the items, so that header and items are the encoding of the contents |
| `BinnWriter.Binn.Ptr` | gsi_openssh/source/binn.c:1291-1307 | The bytes handed out are the encoding of the contents and the validator accepts them |
| `BinnWriter.BinnIter.Init` | gsi_openssh/source/binn.c:1867-1887 | Succeeds exactly for the expected kind and stands before the first item |
| `BinnWriter.BinnIter.Next` | gsi_openssh/source/binn.c:1891-1945 | Gives each key, as a reader sees it, and value once, in the order added, then nothing at every further call |
| `UserAuth.SuccessOnlyByCompletedList` | gsi_openssh/source/auth2.c:434-537 | In every run of the auth2.c context: success only for a valid user whose own success is the last one and, with AuthenticationMethods set, only when the successes answer one enabled configured list in order and the last one finishes it; while it goes on, failures stay below the limit, attempts are at most 1024, and no enabled list is answered in full |
| `UserAuth.TwoUsersFinishOneList` | gsi_openssh/source/auth2.c:330-397 | The auth2.c context alone does not start over when the user name changes, as section 5 of RFC 4252 asks: it reports success when one user answers the first method of a list and another the second; the monitor stops this run (MonitorStopsTwoUsers) |
| `UserAuth.OneUserExactly` | gsi_openssh/source/auth2.c:330-397 | When that context does keep to one user: over every run, while its successes are of one user, a further one keeps them so if and only if it is the first or the request's name cut at its colon, or the name a later reply brings to a context without one, is that user |
| `UserAuth.OneNameOneUser` | gsi_openssh/source/auth2.c:330-397 | In every run whose events all name one user, every success is that user's |
| `AuthMonitor.BothSucceedOneUser` | gsi_openssh/source/monitor.c:339-411 | In every run of the unprivileged process and the monitor in which both succeed: they agree on the user, who is valid, the successes since that user's last account lookup are all that user's and, with AuthenticationMethods set, these alone answer one enabled list in order, the last finishing it |
| `AuthMonitor.BothSucceedExactly` | gsi_openssh/source/monitor.c:339-411 | At any point of any run in which the monitor verifies just what the child accepts: an accepted success makes both processes succeed if and only if, with it, the successes since the last lookup finish an enabled list |
| `AuthMonitor.MonitorNeedsOneUser` | gsi_openssh/source/monitor.c:339-411 | Whatever requests the unprivileged process makes, in any order: the monitor lets a user in only if the successes it verified since the last lookup are all of the user looked up and finish an enabled list |
| `AuthMonitor.MonitorStopsTwoUsers` | gsi_openssh/source/monitor.c:942-1043 | In the run in which auth2.c lets two users finish one list, the monitor has set its lists up again for the second user and ends |
| `AuthMonitor.UpdateBehind` | gsi_openssh/source/auth2.c:734-756 | Updating lists that are not ahead of the successes keeps them so, and completes one only if it is finished, also after a completed list was refused for root |
| `AuthMonitor.TurnKeeps` | gsi_openssh/source/monitor.c:339-411 | Every lookup and every decided method keeps the monitor's lists, user and successes in agreement |
| `AuthMonitor.ServedKeeps` | gsi_openssh/source/monitor.c:339-411 | Every packet keeps both processes' invariants, and a child that takes its user for valid has that user looked up in the monitor |
| `AuthMonitor.Preauth.constructor` | gsi_openssh/source/monitor.c:316-338 | The monitor starts with an empty context |
| `AuthMonitor.Preauth.AnswerPwnamallow` | gsi_openssh/source/monitor.c:942-1043 | A lookup sets the user and the lists up again; a failed one does not take validity away |
| `AuthMonitor.Preauth.TakeAnswer` | gsi_openssh/source/monitor.c:351-411 | A decision updates the lists, then checks for root, counts failures and ends the loop as specified |
| `UserAuth.CompletedListSucceeds` | gsi_openssh/source/auth2.c:734-756 | At any point of any run, an accepted success ends the authentication if and only if it completes an enabled configured list |
| `UserAuth.EagerIsEnough` | gsi_openssh/source/auth2.c:734-756 | Striking off the first entry at each success loses nothing: a prefix of a list is struck off exactly when it occurs in the successes in order |
| `UserAuth.UpdateTracks` | gsi_openssh/source/auth2.c:734-756 | Updating the strings keeps each one the join of the entries of its list that are not answered, and reports completion exactly |
| `UserAuth.SetupTracks` | gsi_openssh/source/auth2.c:637-673 | After set-up the lists are the enabled configured ones with nothing struck off |
| `UserAuth.StepKeeps` | gsi_openssh/source/auth2.c:278-431 | Every request and every later reply keeps limits, list state and the meaning of success |
| `UserAuth.Authctxt.InputUserauthRequest` | gsi_openssh/source/auth2.c:278-431 | A request sets up or resets the user, checks the service and limits, runs an allowed method and finishes as specified |
| `UserAuth.Authctxt.InputReply` | gsi_openssh/source/auth2-gss.c:313-379 | A later reply names the user of a context without one, valid if the account exists, and finishes as specified |
| `UserAuth.Authctxt.SetupUser` | gsi_openssh/source/auth2.c:330-397 | User, service, validity and, at the first attempt only, the method lists are set; other services end the connection |
| `UserAuth.Authctxt.UserauthFinish` | gsi_openssh/source/auth2.c:434-537 | Success, partial success, failure, postponement and the fatal cases each lead to the specified state |
| `UserAuth.Authctxt.SetupMethodsLists` | gsi_openssh/source/auth2.c:637-673 | Keeps exactly the configured lists without disabled methods; fails if none is left; a lone "any" means no lists |
| `UserAuth.Authctxt.UpdateMethodsLists` | gsi_openssh/source/auth2.c:734-756 | Removes the method from the front of the lists up to the first one it completes |
| `UserAuth.Authctxt.MethodAllowed` | gsi_openssh/source/auth2.c:545-562 | A method is allowed if no lists are configured or some list starts with it |
| `UserAuth.Authctxt.MethodLookup` | gsi_openssh/source/auth2.c:610-627 | A method runs only if known by name or synonym, enabled and allowed |
| `UserAuth.Authctxt.KeyAlreadyUsed` | gsi_openssh/source/auth2.c:820-837 | True exactly for a key accepted before |
| `UserAuth.Authctxt.TryKey` | gsi_openssh/source/auth2.c:791-837 | No public key is accepted twice on a connection |
| `MethodLists.RemoveFirstEntry` | gsi_openssh/source/auth2.c:708-725 | On any list string, remove_method succeeds exactly when the method answers the first entry, and leaves exactly the join of the other entries |
| `MethodLists.StartsWithFirstEntry` | gsi_openssh/source/auth2.c:676-700 | list_starts_with depends only on the first method and submethod entry |
| `MethodLists.LeftoverEmpty` | gsi_openssh/source/auth2.c:748-751 | For lists without empty entries the remaining string is empty only when no entry is left |
| `MethodLists.EntriesJoin` | gsi_openssh/source/auth2-methods.c:111-134 | Splitting at commas undoes joining |
| `MethodLists.MethodsValid` | gsi_openssh/source/auth2-methods.c:99-140 | The list is valid exactly if it is not empty and every entry, cut at its colon, names a method of the table, enabled if asked |
| `Bitmap.Bitmap.constructor` | gsi_openssh/source/bitmap.c:38-51 | The new bitmap is the empty set |
| `Bitmap.Bitmap.Clear` | gsi_openssh/source/bitmap.c:65-69 | Zeroing gives the empty set |
| `Bitmap.Bitmap.TestBit` | gsi_openssh/source/bitmap.c:72-79 | Tests membership, also beyond the words |
| `Bitmap.Bitmap.Reserve` | gsi_openssh/source/bitmap.c:82-98 | Grows with zero words, or refuses numbers above 2^24 |
| `Bitmap.Bitmap.SetBit` | gsi_openssh/source/bitmap.c:101-113 | Adds exactly that number to the set, or refuses it above 2^24 |
| `Bitmap.Bitmap.ClearBit` | gsi_openssh/source/bitmap.c:126-138 | Removes exactly that number from the set |
| `Bitmap.Bitmap.Retop` | gsi_openssh/source/bitmap.c:117-123 | Words above the top stay zero and the top word is not, unless it is the first |
| `Bitmap.Bitmap.NBits` | gsi_openssh/source/bitmap.c:141-159 | One more than the largest member, or 0 for the empty set |
| `Bitmap.MsbShift` | gsi_openssh/source/bitmap.c:153-157 | The shifts counted lead to the highest one bit of the word |
| `Bitmap.Bitmap.NBytes` | gsi_openssh/source/bitmap.c:162-165 | The bytes the largest member needs |
| `Bitmap.Bitmap.ToString` | gsi_openssh/source/bitmap.c:168-186 | The exported big-endian string has exactly the bits of the set and the length its largest member needs; the rest of the buffer is untouched |
| `Bitmap.Bitmap.FromString` | gsi_openssh/source/bitmap.c:189-214 | After import the set is exactly the bits of the string; longer strings are refused and change nothing |
| `Bitmap.ExportImport` | gsi_openssh/source/bitmap.c:168-214 | For any two bitmaps, or one and itself: the export of the first is imported into the second if and only if all its members are below 2^24; then the second has the same members, and otherwise it keeps its own; the first stays as it was |
| `Bitmap.TopBitLost` | gsi_openssh/source/bitmap.c:189-198 | The failing input: bit 2^24 is taken by a bitmap whose export is then refused |
| `Bitmap.ImportExport` | gsi_openssh/source/bitmap.c:168-214 | A string of at most 2^21 bytes, imported and exported again, comes back without its leading zero bytes and otherwise the same; longer ones are refused |
| `Bitmap.StrippedExport` | gsi_openssh/source/bitmap.c:168-186 | A string with the same bits and no longer than its largest one needs is the stripped string |
| `Addr.NetmatchIsRange` | gsi_openssh/source/addr.c:498-510 | For a host and a prefix of one family and scope, the prefix with zero host bits, addr_netmatch answers 0 if and only if the host lies, in addr_cmp order, between the network and the network with its host bits set |
| `Addr.MatchIsRange` | gsi_openssh/source/addr.c:209-229 | The same for the numbers: masking gives the network exactly for the addresses in the range |
| `Addr.CompareIsOrder` | gsi_openssh/source/addr.c:254-284 | addr_cmp orders addresses of one family and scope as their numbers, and is 0 only for equal ones |
| `Addr.IncrementAddsOne` | gsi_openssh/source/addr.c:306-325 | addr_increment is plus one modulo 2^32 or 2^128 |
| `Addr.WalkVisitsOnce` | gsi_openssh/source/addr.c:306-325 | Repeated increments from one address to another visit every address between them, each at exactly one step |
| `Addr.Xaddr.Netmask` | gsi_openssh/source/addr.c:168-194 | Ones in exactly the leading bits, for every valid length of both families; other lengths fail |
| `Addr.Xaddr.Invert` | gsi_openssh/source/addr.c:142-160 | Every bit is inverted |
| `Addr.Xaddr.Hostmask` | gsi_openssh/source/addr.c:197-202 | Ones in exactly the host bits |
| `Addr.Xaddr.Combine` | gsi_openssh/source/addr.c:209-251 | Word-wise and, or or, keeping the scope of the first address, for any aliasing of the three addresses; fails exactly for different families |
| `Addr.Xaddr.Cmp` | gsi_openssh/source/addr.c:254-284 | Family first, then number, then scope |
| `Addr.Xaddr.IsAll0s` | gsi_openssh/source/addr.c:287-302 | True exactly for the zero address |
| `Addr.Xaddr.Increment` | gsi_openssh/source/addr.c:306-325 | The carry loop computes the increment of the whole address |
| `Addr.Xaddr.HostIsAll0s` | gsi_openssh/source/addr.c:334-344 | True exactly if the length is valid and the host bits are zero |
| `Addr.Xaddr.HostToAll1s` | gsi_openssh/source/addr.c:361-370 | Sets exactly the host bits |
| `Addr.Xaddr.Netmatch` | gsi_openssh/source/addr.c:498-510 | Compares the masked host with the network |
| `Cbc.DecryptEncrypt` | gsi_openssh/source/cipher-aes.c:71-114 | Decryption undoes encryption for any number of blocks and any block cipher whose decryption inverts its encryption |
| `Cbc.EncryptSplit` | gsi_openssh/source/cipher-aes.c:87-97 | Two calls, the second from the saved chaining value, encrypt as one call does, for any split at a block boundary |
| `Cbc.DecryptSplit` | gsi_openssh/source/cipher-aes.c:98-112 | The same for decryption |
| `Cbc.RijndaelCtx.constructor` | gsi_openssh/source/cipher-aes.c:50-68 | Cipher and chaining value are set |
| `Cbc.RijndaelCtx.EncryptInPlace` | gsi_openssh/source/cipher-aes.c:87-97 | The forward loop encrypts into the same or another buffer and saves the last ciphertext block |
| `Cbc.RijndaelCtx.DecryptInPlace` | gsi_openssh/source/cipher-aes.c:98-112 | The backward loop decrypts into the same or another buffer, reading each ciphertext block before it is overwritten, and saves the last one |
| `Cbc.RijndaelCtx.CbcCrypt` | gsi_openssh/source/cipher-aes.c:71-114 | Whole blocks are chained, the empty buffer is left alone, other lengths are refused, and no byte beyond the length changes |
| `AuthOptions.RoundTripExactly` | gsi_openssh/source/auth-options.c:796-910 | Deserialising a serialised record followed by any bytes returns the record and leaves those bytes if and only if every flag fits a byte and the tunnel number is -1 or more |
| `AuthOptions.NotCarried` | gsi_openssh/source/auth-options.c:796-910 | The failing inputs: a flag of 256 and a tunnel number of -2 both read back as 0 |
| `AuthOptions.DecodeEncode` | gsi_openssh/source/auth-options.c:796-910 | In general it returns the record with flags modulo 256 and tunnel numbers below -1 as 0, and leaves exactly the bytes that followed: null and empty strings stay apart and the arrays keep their strings |
| `AuthOptions.Pass` | gsi_openssh/source/auth-options.c:796-910 | A record written to an empty buffer and read from it: refused exactly if its encoding exceeds the buffer limit, and otherwise it arrives as what the wire carries of what is sent |
| `AuthOptions.EncodedFits` | gsi_openssh/source/auth-options.c:796-845 | A record whose encoding a buffer can hold meets every limit of its readers |
| `AuthOptions.GetListBack` | gsi_openssh/source/auth-options.c:731-769 | An array is read back with its count and strings, and what follows it is left |
| `AuthOptions.GetNullableBack` | gsi_openssh/source/auth-options.c:783-793 | Null and every string, the empty one included, are read back |
| `Wire.GetCStringBack` | gsi_openssh/source/sshbuf-getput-basic.c:269-301 | A string without a zero byte is read back |
| `AuthOptions.Sshbuf.Put` | gsi_openssh/source/sshbuf.c:352-365 | Appends the bytes, or refuses exactly when the buffer would exceed its largest size |
| `AuthOptions.Sshbuf.PutString` | gsi_openssh/source/sshbuf-getput-basic.c:512-527 | Appends length and bytes, or refuses exactly when the buffer would exceed its largest size, and then changes nothing |
| `AuthOptions.Sshbuf.GetBlob` | gsi_openssh/source/sshbuf-getput-basic.c:238-266 | Reads a string that is whole and not too long, and consumes exactly it |
| `AuthOptions.Sshbuf.GetText` | gsi_openssh/source/sshbuf-getput-basic.c:269-301 | Accepts a zero byte only at the end |
| `AuthOptions.Sshbuf.GetInteger` | gsi_openssh/source/sshbuf-getput-basic.c:46-95 | Reads a big-endian number and consumes exactly it |
| `AuthOptions.Sshbuf.SerialiseArray` | gsi_openssh/source/auth-options.c:704-728 | Appends the array, or fails exactly if the buffer cannot hold it |
| `AuthOptions.Sshbuf.DeserialiseArray` | gsi_openssh/source/auth-options.c:731-769 | Reads the array or fails exactly where the format does |
| `AuthOptions.Sshbuf.SerialiseNullable` | gsi_openssh/source/auth-options.c:772-780 | Appends flag and string, or fails exactly if the buffer cannot hold them |
| `AuthOptions.Sshbuf.DeserialiseNullable` | gsi_openssh/source/auth-options.c:783-793 | Reads flag and string, giving null for a set flag |
| `AuthOptions.Sshbuf.Serialise` | gsi_openssh/source/auth-options.c:796-845 | Appends the record in wire order, redacted for an untrusted receiver, and fails exactly if the buffer cannot hold it |
| `AuthOptions.Sshbuf.Deserialise` | gsi_openssh/source/auth-options.c:848-910 | Reads a record from the front of the buffer or fails exactly where the format does |
| `AtomicIo.Atomiciov6` | gsi_openssh/source/atomicio.c:99-166 | For any pattern of partial transfers, interrupts and retries: what has moved is exactly a prefix of the segments' bytes and the remaining vector the rest; a normal end with a non-empty first segment returns the full total; every call that moves data brings that end nearer |
| `AtomicIo.AdvanceVector` | gsi_openssh/source/atomicio.c:141-158 | Dropping completed entries and shortening the next leaves exactly the remaining bytes, and the case answered with EFAULT never arises |
| `AtomicIo.Atomicio6` | gsi_openssh/source/atomicio.c:45-87 | For one buffer and any pattern of partial transfers, interrupts and retries: the bytes moved are, in order and once each, those before the position returned; a normal end has moved them all; every call that moves data brings that end nearer |

## Left out

- Threaded cipher: process forks, the SAFETY re-checks and the clean-up of a failed set-up in `chachapoly_new_mt` are resource handling; data races inside one slot are excluded by the ownership results, not modelled byte by byte.
- Poly1305, the EVP layer and the AES block functions are parameters; nothing is claimed about their strength.
- Channel windows: datagram, filtered, X11 and SOCKS channels, end-of-file messages and the half-close states of nchan.c; leaving the open output state, closing the extended descriptor and starting to close are single steps.
- Channel windows: buffer allocation failures and the overall size limit of the output and extended buffers.
- ChachaPolyMt.NewContextInv: starting packets of the last batch before the 32-bit wrap are excluded, because `chachapoly_new_mt` then writes in front of its second batch (`FillIndexExact`).
- ChachaPolyMt.ContextMt.constructor: excludes the same starting packets.
- Mux proxying: the parsing of server messages, the cancel requests sent for a freed client, and permissions other than those of mux clients.
- BinnWriter.Binn.SaveHeader: an empty container in a buffer of 3 to 8 bytes is excluded, because `binn_save_header` then writes past its end.
- BinnWriter.Binn.Ptr: excludes the same containers.
- BinnWriter.Binn.MapSet: contents of 2^30 bytes or more are excluded, and so they are in the other adding functions.
- Binn: conversions to and from strings, floats and booleans by value, `binn_copy`, JSON, and addresses that wrap around; a container header that runs past the modelled bytes reads as a failure.
- Authentication: what the methods themselves do, PAM, banners, delays, logging, SELinux roles, and the user name gssapi-keyex takes from its context before the request is handled.
- Monitor: which requests are permitted when, so that its theorems cover more orders of requests than it admits; Match blocks, so that the configuration is one for all users; the connection refused by configuration; and how a handler verifies a method, beyond that it does so only in a valid context.
- AuthMonitor.BothSucceedExactly: is about runs in which the monitor verifies just what the child accepts, because a success that is refused for root, or named differently by the monitor (an empty first password counts as the method none), is struck off by one process only; `BothSucceedOneUser` covers those runs too.
- UserAuth.Authctxt.TryKey: signature checking is a parameter, and keys are compared as values.
- Addr: parsing and printing of addresses, and scope ids other than by comparison.
- AuthOptions.Sshbuf.Serialise: what a refused call leaves behind in the buffer is not stated.
- AuthOptions: parsing of authorized_keys options and certificates, and merging of options.
- AtomicIo: polling and errno values; a script of events stands for the calls, so a transfer that is interrupted for ever is one whose script never ends.
- The rest of the repository (GridFTP, GSI libraries, MyProxy, X11 and socket code, packaging) is glue around platform libraries.
