# Networking components, modelled and proved

A model in Dafny of seven components of a kernel's `net/` directory, with proofs of what they keep over
whole runs, of round trips, and of the refinement of in-place code by simple definitions. Code that works
by updating state is a class or a method with loops, proved against a definition on values; what the
component is for is then proved of that definition.

- **9P client.** `P9Codec` is the format-driven encoding, `P9Pdu` the writer and reader on a fixed buffer,
  `P9Mux` the transport as a state machine over partial reads, partial writes, requests, cancels and
  errors, `P9Replies` what its runs come to for the client, `P9Conn` its work functions in place.
- **PPPoATM flow control.** `PppoAtm` is the interleaving of sender, pop handler, socket owner and tasklet,
  one atomic step at a time.
- **GARP applicant** (clause 12 of IEEE 802.1D-2004). `GarpApplicant` is the state table and the attribute
  tree over whole runs, `GarpPdu` the PDU builder and parser.
- **32-bit control messages.** `CompatCmsg` is the two-pass relayout.
- **AppleTalk DDP** (chapter 4 of Inside AppleTalk, 2nd edition). `Ddp` is the checksum over fragmented
  buffers, and sending, receiving and forwarding.
- **802.1Q.** `VlanVid` is the reference-counted id list with its unwinding, `VlanDev` the references VLAN
  devices hold on the real device, `VlanQos` the priority maps (clause 9.6 of IEEE 802.1Q-2011).
- **ATM.** `AtmCi` is the search for a free VPI/VCI pair; `MpoaCache` and `MpoaClient` are the ingress cache
  of an MPOA client, a doubly linked list of counted entries in an explicit memory, so that following a
  pointer to a freed entry cannot be written down.

`Bytes` holds little-endian numbers, splices and memcpy, `Common` an option type and two small functions.

Properties that do not hold of the code are stated with the exact condition under which they do, beside an
input for which they fail:

- a second cancel changes nothing: `P9Replies.CancelOnce`, `P9Replies.EofCancelsTwice`;
- the read position stays in the frame: `P9Replies.ShortFrame`, `P9Replies.ShortFrameTaken`;
- written values come back unchanged: `P9Codec.NormId`, `P9Codec.Wraps`;
- the announced stat size is right: `P9Codec.StatSizeExact`, `P9Codec.LongName`;
- a refused packet has a wakeup due: `PppoAtm.WakeupIffFits`, `PppoAtm.OversizeStalls`;
- queued attributes parse back: `GarpPdu.QueueRoundTrip`, `GarpPdu.EmptyDataLost`;
- one changed byte is noticed: `Ddp.OneByteCaught`, `Ddp.OneByteMissed`;
- the real device's accounts are exact: `VlanDev.RealDevice.Do`, `VlanDev.LostReference`;
- only loosely bound VLANs are up on a down device: `VlanDev.RunBound`, `VlanDev.FlagCleared`;
- a pair found for any VPI is in range: `AtmCi.InRangeIff`, `AtmCi.StrayVpi`;
- a reply never finds the state called impossible: `MpoaCache.CircuitUsable`, `MpoaClient.RefreshedInUse`;
- a closed circuit is used by no entry: `MpoaCache.VccGone`, `MpoaCache.VccStays`.

What the files do not contain is passed in: results of reads, writes, allocations and driver calls, the
clock, routing and interface lookups, and the order in which concurrent steps happen.

## Model

| member | source | states |
|---|---|---|
| P9Codec.RoundTrip | net/9p/protocol.c:97-332 | For every format over the shared letters with D last, every argument list that fits it, either protocol dialect and any bytes after it: reading what was written returns the (normalised) values, and without D the reader stops exactly at the end of the encoding |
| P9Codec.OneRoundTrip | net/9p/protocol.c:334-498 | The same for a single letter, nested S and Q formats included; D alone leaves the offset where its data starts |
| P9Codec.StrRoundTrip | net/9p/protocol.c:367-379 | A string of any length comes back cut to 65535 bytes |
| P9Codec.NormId | net/9p/protocol.c:97-332 | Outside legacy mode the values come back unchanged if and only if every number, count and string is in the range of its letter |
| P9Codec.Wraps | net/9p/protocol.c:349-354 | A number out of range: 0x10007 under the letter w comes back as 7 |
| P9Codec.StatSizeExact | net/9p/client.c:1783-1810 | p9_client_statsize + 2 is the number of bytes the S letter emits if and only if no string that is sent is longer than 65535 bytes; legacy mode drops exactly the optional part |
| P9Codec.LongName | net/9p/client.c:1783-1810 | A name of 65536 bytes: the announced size is one byte more than what the S letter emits |
| P9Pdu.WroteMeans | net/9p/protocol.c:63-69 | Appending copies the longest prefix that fits, changes no other byte of the buffer, and reports an error if and only if the whole does not fit |
| P9Pdu.Fcall.PduWrite | net/9p/protocol.c:63-69 | The in-place append meets that specification and returns the number of bytes left over |
| P9Pdu.Fcall.WriteOne | net/9p/protocol.c:343-490 | One letter of the format switch appends exactly the encoding of its argument, or the prefix that fits |
| P9Pdu.Fcall.WriteF | net/9p/protocol.c:334-498 | The writer appends the encoding of the whole format; it succeeds exactly when that fits and never alters earlier bytes |
| P9Pdu.Fcall.PduRead | net/9p/protocol.c:55-61 | The reader takes the first min(left, n) unread bytes and advances past them |
| P9Pdu.Fcall.ReadOne | net/9p/protocol.c:106-322 | One letter of the read switch returns what the decoder says of the unread bytes and stops where it stops, errors included |
| P9Pdu.Fcall.ReadF | net/9p/protocol.c:97-332 | The reader returns, for any buffer, what the decoder says of the unread bytes, with its error code and stopping point |
| P9Pdu.Fcall.Prepare | net/9p/protocol.c:545-549 | The header goes in with size zero |
| P9Pdu.Fcall.Finalize | net/9p/protocol.c:551-565 | The final size overwrites the first four bytes, or as many as the buffer has, and then the result is -EFAULT; size and every other byte stay |
| P9Pdu.Fcall.Marshal | net/9p/client.c:681-720 | For a buffer of any capacity: marshalling succeeds if and only if the arguments fit behind the header or what of it fits, and the buffer then holds header with total size, type and tag, followed by the encoding, cut at the capacity; otherwise -EFAULT |
| P9Pdu.Fcall.ParseHeader | net/9p/client.c:427-464 | Size, type and tag are read from the first seven bytes, exactly when that many are there, else -EFAULT with the fields unchanged; rewind restores the offset. It reads past the buffer exactly for a size of 0 in a buffer of fewer than seven bytes |
| P9Pdu.HeaderRoundTrip | net/9p/client.c:427-464 | A header read back gives total size, type (mod 256) and tag (mod 65536), and leaves the body as it is |
| P9Pdu.MessageRoundTrip | net/9p/protocol.c:545-565 | A finished message read back: total size, type, tag, and the values of the format |
| P9Mux.StepKeeps | net/9p/trans_fd.c:294-516 | Every step of the transport (read, write, new request, cancel, flush, connection cancel, recycling) keeps the joint invariant of lists, write side and read side |
| P9Mux.ListsAlways | net/9p/trans_fd.c:661-706 | Over every run a request is on unsent_req_list exactly when it is UNSENT, on req_list only when SENT or FLSH, and on no list twice |
| P9Mux.WireAlways | net/9p/trans_fd.c:442-511 | Over every run, whatever the partial writes: bytes on the wire plus the rest of the current buffer are the whole buffers of the started requests in submission order |
| P9Mux.RunFates | net/9p/trans_fd.c:442-511 | A submission that was started, withdrawn or failed never changes again, in any run |
| P9Mux.WithdrawnForGood | net/9p/trans_fd.c:688-706 | A request cancelled while UNSENT stays withdrawn in every continuation, so none of its bytes reaches the wire |
| P9Replies.CutOnce | net/9p/trans_fd.c:325-364 | A reply stream can be cut into frames in one way only |
| P9Replies.DeliveredAlways | net/9p/trans_fd.c:294-400 | Over every run and for every cut of the reply stream into chunks: the deliveries are the first frames of the stream, in order, each once and to the request its tag names; while the connection is up no complete frame waits and 0 <= rpos <= rsize |
| P9Replies.ReadKeepsUp | net/9p/trans_fd.c:315-350 | A read of data leaves the connection up if and only if a header it completes, short or not, announces less than msize and names a request that is SENT or FLSH |
| P9Replies.PeaceKeepsUp | net/9p/trans_fd.c:294-400 | A run whose reads are all of that kind, without end of file, fault or poll error, stays up |
| P9Replies.AllDelivered | net/9p/trans_fd.c:294-400 | For every such run: when a stream of frames has arrived, in whatever chunks, every frame has been handed to the request its tag names, once and in order |
| P9Replies.CalledOnce | net/9p/trans_fd.c:190-226 | Over every run an accepted submission is called back at most once before the request is submitted again, and never once it has been withdrawn |
| P9Replies.FirstCancel | net/9p/trans_fd.c:190-226 | The first connection cancel empties both lists, gives each listed request ERROR and one callback, and keeps an earlier t_err |
| P9Replies.CancelOnce | net/9p/trans_fd.c:190-203 | Later cancels change nothing if and only if an error code was left behind |
| P9Replies.EofCancelsTwice | net/9p/trans_fd.c:315-323 | End of file is the failing case: the connection is cancelled with code 0, and the next call cancels it again |
| P9Replies.ShortFrame | net/9p/trans_fd.c:327-364 | After a read of an expected reply, the read position is within the frame if and only if the size of a header it completed covers the header |
| P9Replies.ShortFrameTaken | net/9p/trans_fd.c:327-364 | A run from any initial state that sends a request, after which a header announcing size 0 is expected, is taken, and leaves rpos 7 past rsize 0 |
| P9Conn.Conn.constructor | net/9p/trans_fd.c:575-607 | A new connection over a tag table of distinct requests represents an initial state of the model |
| P9Conn.Conn.Abort | net/9p/trans_fd.c:190-226 | p9_conn_cancel on the fields, with its two list loops and the callbacks, is the cancel step of the state they represent |
| P9Conn.Conn.FailSent | net/9p/trans_fd.c:207-212 | The loop over req_list marks every request of it ERROR, keeps earlier t_err, and collects them in reverse order |
| P9Conn.Conn.FailUnsent | net/9p/trans_fd.c:213-218 | The loop over unsent_req_list likewise, in front of those already collected |
| P9Conn.Conn.Submit | net/9p/trans_fd.c:661-686 | The fields and the request's own still represent the state of the model, and its invariant is kept for an allocated request; it fails with the connection's error |
| P9Conn.Conn.CancelReq | net/9p/trans_fd.c:688-706 | Likewise for every request; it returns 0 exactly for one that is UNSENT |
| P9Conn.Conn.Flush | net/9p/trans_fd.c:442-516 | For every result of the write: the fields represent the state after the write step, and the invariant is kept |
| P9Conn.Conn.Receive | net/9p/trans_fd.c:294-400 | For every result of the read: the fields, tmp_buf and the reply buffers represent the state after the read step, and the invariant is kept |
| P9Conn.Conn.Fill | net/9p/trans_fd.c:315-325 | Bytes copied through rbuf land in tmp_buf or in the reply buffer of m->req, and in no other request's buffer |
| P9Conn.Conn.MoveOver | net/9p/trans_fd.c:361-363 | rbuf moves to the reply buffer, which holds the header first; tmp_buf and all other buffers stay |
| P9Conn.Conn.Do | net/9p/trans_fd.c:294-706 | Every entry point keeps fields, arrays and the model state in step, and keeps the invariant |
| P9Conn.Conn.Play | net/9p/trans_fd.c:294-706 | Any sequence of calls is a run of the model, so what holds of every run holds of the fields |
| PppoAtm.StepCounted | net/atm/pppoatm.c:135-162 | Every atomic step of sender, pop handler, socket owner and tasklet keeps inflight + 2 equal to the number of admitted packets |
| PppoAtm.StepWake | net/atm/pppoatm.c:237-281 | Every atomic step keeps the no-lost-wakeup invariant |
| PppoAtm.InflightCounts | net/atm/pppoatm.c:237-281 | In every interleaving inflight + 2 counts the admitted packets and stays within 0..2 |
| PppoAtm.WakeupNotLost | net/atm/pppoatm.c:237-281 | In every interleaving a refused packet that would fit an empty queue has the tasklet running, scheduled or about to be scheduled by a handler that has cleared BLOCKED, or BLOCKED is set and a pop or the socket owner has still to test it |
| PppoAtm.DrainShrinks | net/atm/pppoatm.c:112-162 | Pops, the release callback and the tasklet can only take a bounded number of steps |
| PppoAtm.DrainedWakes | net/atm/pppoatm.c:107-129 | When none of them is left, the wakeup itself is enabled |
| PppoAtm.StalledIsWoken | net/atm/pppoatm.c:292-371 | However these steps are scheduled, a stalled sender is woken after at most Work(s) of them |
| PppoAtm.OversizeStalls | net/atm/pppoatm.c:237-281 | For every packet size that does not fit an empty queue there is an interleaving after which the packet has been refused and no wakeup is due |
| PppoAtm.WakeupIffFits | net/atm/pppoatm.c:237-281 | So for a packet size it is true of every interleaving that a refusal leaves a wakeup due, if and only if the size fits an empty queue |
| GarpApplicant.TableFacts | net/802/garp.c:29-138 | The 10 by 8 table: JOIN_IN only on transmit and at the cost of one remaining join, LEAVE_EMPTY only from LA, announced states only from announced ones |
| GarpApplicant.DeclaredIffWanted | net/802/garp.c:313-381 | Over every run an attribute is in VA, AA, QA, VP, AP or QP exactly when its latest effective request was a join |
| GarpApplicant.LeaveAfterJoinOnce | net/802/garp.c:313-342 | Over every run a LEAVE_EMPTY follows a JOIN_IN of the same attribute lifetime and is sent at most once in it |
| GarpApplicant.JoinsBounded | net/802/garp.c:29-138 | At most two JOIN_INs per request or received message, over every run |
| GarpApplicant.QuietJoins | net/802/garp.c:29-138 | With no request and nothing received for an attribute, at most two JOIN_INs follow, however often the timer fires |
| GarpApplicant.Applicant.Fire | net/802/garp.c:313-342 | After an event the attribute is declared exactly as a join, a leave or neither asks, no other attribute changes in that, nothing but a transmission sends, and the messages sent so far stay in order: a leave after its join, once |
| GarpApplicant.Applicant.RequestJoin | net/802/garp.c:344-361 | A join declares the attribute unless a new one finds no memory, changes no other declaration and sends nothing by itself |
| GarpApplicant.Applicant.RequestLeave | net/802/garp.c:364-380 | After a leave the attribute is not declared, known or not; no other declaration changes and nothing is sent by itself |
| GarpApplicant.Applicant.TransmitAll | net/802/garp.c:383-394 | The tree walk transmits every attribute once, though attributes may vanish on the way, and changes no declaration |
| GarpPdu.PduRoundTrip | net/802/garp.c:417-533 | A finished PDU, whichever end marks or empty trailing message were cut, parses back to its attributes up to one that makes the parser give up |
| GarpPdu.AcceptedAll | net/802/garp.c:428-479 | All attributes are accepted if and only if none is of that kind |
| GarpPdu.QueueRoundTrip | net/802/garp.c:209-311 | Parsing the queued PDUs in order gives back the (type, event, data) sequence if and only if no attribute makes the parser give up |
| GarpPdu.EmptyDataLost | net/802/garp.c:428-479 | An attribute without data makes the parser give up, and what follows it in the PDU is lost |
| GarpPdu.Closed | net/802/garp.c:231-255 | Whatever a failed append left behind and however many of the two end marks found room, the PDU is a finished one, of which PduRoundTrip speaks |
| GarpPdu.Builder.OpenMsg | net/802/garp.c:265-290 | A message of the wanted type is open afterwards, closing another one first, or what was added is at most one end mark; with no message open and a byte of room it never fails |
| GarpPdu.Builder.QueuePdu | net/802/garp.c:239-255 | The PDU leaves with up to two end marks; what was taken stays taken, in order |
| GarpPdu.Builder.TryAppend | net/802/garp.c:277-304 | One round: the attribute is appended whole, or the PDU is left such that it can be queued; a fresh PDU takes it if and only if it has the room |
| GarpPdu.Builder.AppendAttr | net/802/garp.c:277-311 | The retry loop ends, given the room that TryAppend shows is needed for that, and every attribute ends up in exactly one PDU, in order; it fails only without memory |
| GarpPdu.Builder.Finish | net/802/garp.c:404-415 | At the end of the timer every attribute taken is in a queued PDU |
| GarpPdu.ParseMsg | net/802/garp.c:481-499 | The message loop returns what the grammar says, with its rest and its failure |
| GarpPdu.ParsePdu | net/802/garp.c:501-533 | The PDU loop logs exactly the attributes the grammar finds |
| CompatCmsg.AlignDivides | net/compat.c:107-108 | Alignment by repeated addition is alignment by division |
| CompatCmsg.LayoutWalk | net/compat.c:184-206 | Walking a 64-bit layout by 64-bit rules gives back its messages |
| CompatCmsg.CopyIsWalk | net/compat.c:182-206 | What the copying pass writes is the message list that the 32-bit rules find in the memory it read, and it fits the room |
| CompatCmsg.SecondPassFits | net/compat.c:184-206 | With stable memory the second pass never fails the space check and ends exactly at the measured length |
| CompatCmsg.NoFault | net/compat.c:184-206 | It does not fault where the first pass did not |
| CompatCmsg.MeasuredIsConverted | net/compat.c:142-218 | For every control buffer that the measuring pass accepts: the result, walked by 64-bit rules, is the (level, type, payload) list of the 32-bit input |
| CompatCmsg.Measure | net/compat.c:151-170 | The measuring loop ends and returns the sum of the 64-bit sizes, or the error of the first bad header |
| CompatCmsg.CopyOne | net/compat.c:185-205 | One turn of the copying loop writes one entry behind those already there, or fails without leaving the buffer |
| CompatCmsg.CopyAll | net/compat.c:182-206 | For any memory the second pass sees, even a changed one, the loop ends inside the buffer with the outcome the specification gives |
| CompatCmsg.FromUser | net/compat.c:142-218 | Both passes together: with stable memory the conversion succeeds exactly when a buffer is to be had, and preserves the messages; error codes otherwise |
| Ddp.SumPartial | net/appletalk/ddp.c:921-930 | The byte loop computes the rotating sum of the range |
| Ddp.SumSkb | net/appletalk/ddp.c:933-996 | For every tree of linear head, page fragments and nested buffers, every offset and length: the sum over the pieces is the sum over the flattened bytes |
| Ddp.SumFrags | net/appletalk/ddp.c:952-973 | The fragment loop, with its early exit, accounts for exactly the part of the range that lies in the fragments |
| Ddp.SumList | net/appletalk/ddp.c:975-993 | The loop over the fragment list does so by recursion, and nothing is left at its end |
| Ddp.ChecksumSkb | net/appletalk/ddp.c:998-1007 | The checksum is that of the flattened bytes and is never zero |
| Ddp.SentPasses | net/appletalk/ddp.c:1658-1678 | A datagram as sent passes the receiver's own test |
| Ddp.Hop | net/appletalk/ddp.c:1440-1464 | One hop of a datagram sent k hops ago, with any padding: delivered unchanged, forwarded with hop count k + 1 while k < 15, or dropped, exactly as the node's state says |
| Ddp.TravelFrom | net/appletalk/ddp.c:1317-1368 | The same for any chain of nodes |
| Ddp.SendTravel | net/appletalk/ddp.c:1317-1368 | Along any chain a sent datagram is forwarded at most 15 times, every copy differs in the hop count alone, the checksum never causes a loss, and the addressed node gets names and data as sent |
| Ddp.SumInjective | net/appletalk/ddp.c:921-930 | Different sums stay different over any further bytes |
| Ddp.OneByteCaught | net/appletalk/ddp.c:998-1007 | One changed byte changes the checksum, unless the two sums are 0 and 0xFFFF; exactly then it does not |
| Ddp.OneByteMissed | net/appletalk/ddp.c:998-1007 | Two datagrams for which that happens |
| Ddp.Packet.Send | net/appletalk/ddp.c:1658-1678 | Header, data and then the checksum over both, built in place, give the datagram of the model |
| Ddp.Packet.SendMsg | net/appletalk/ddp.c:1586-1587 | A payload above the limit is refused |
| Ddp.Packet.Receive | net/appletalk/ddp.c:1440-1476 | Trimming, size test, checksum test and dispatch in place give the outcome and the bytes of the model |
| Ddp.Packet.Onward | net/appletalk/ddp.c:1317-1403 | Routing rewrites the length word in place, or drops |
| VlanVid.AddGood | net/8021q/vlan_core.c:237-270 | An added reference keeps the list good (ids distinct, counts positive, nr_vids its length, vlan_info present iff non-empty) and adds one to the multiset |
| VlanVid.DelGood | net/8021q/vlan_core.c:294-316 | A deleted one takes one from the multiset; an id not held is ignored |
| VlanVid.DelAdd | net/8021q/vlan_core.c:294-316 | A delete undoes an add exactly, list order and vlan_info pointer included |
| VlanVid.DelComm | net/8021q/vlan_core.c:294-316 | Deletes commute exactly |
| VlanVid.RunRefines | net/8021q/vlan_core.c:237-316 | After any run the list stands for the multiset the same operations give, and vlan_info is gone exactly when that is empty |
| VlanVid.DelAllAddAll | net/8021q/vlan_core.c:350-364 | Deleting another device's ids in list order undoes adding them, exactly |
| VlanVid.Device.Find | net/8021q/vlan_core.c:187-197 | The first entry with the id, or none |
| VlanVid.Device.VidAdd | net/8021q/vlan_core.c:237-270 | Success adds the reference (and programs the filter for a new id); a failure, with its error code, changes nothing |
| VlanVid.Device.VidDel | net/8021q/vlan_core.c:294-316 | The reference goes; the filter follows unless the driver fails, and stays exact if it was |
| VlanVid.DropKeeps | net/8021q/vlan_core.c:273-292 | Taking one reference away unlinks the entry exactly when it was the last one, shortens the list by one exactly then, and keeps all other ids, each still listed once |
| VlanVid.Device.AddByDev | net/8021q/vlan_core.c:319-347 | All of another device's ids are added, or, with the first error, the device is exactly as before; the filter stays exact if no kill fails |
| VlanVid.Device.Unwind | net/8021q/vlan_core.c:339-344 | The reverse loop takes back exactly what the forward loop added |
| VlanVid.Device.DelByDev | net/8021q/vlan_core.c:350-364 | The ids go one by one |
| VlanDev.GoodMeans | net/8021q/vlan_dev.c:283-347 | When the accounts are exact, the real device's references to an address are those of others plus one for every VLAN that is up with that address while the real device has another |
| VlanDev.OneLedger | net/8021q/vlan_dev.c:283-347 | Exact accounts are determined by the configuration |
| VlanDev.ReplaceGood | net/8021q/vlan_dev.c:283-373 | Replacing one VLAN together with its references keeps the accounts of all exact |
| VlanDev.FlagsGood | net/8021q/vlan_dev.c:485-495 | A change of flags keeps the accounts exact if and only if no ignored increment failed |
| VlanDev.SyncShort | net/8021q/vlan.c:264-286 | When a VLAN catches up with a new real address, references follow; each ignored failure leaves one reference to the old address missing |
| VlanDev.ShortMeans | net/8021q/vlan.c:264-286 | The accounts are exact if and only if none is missing |
| VlanDev.LostReference | net/8021q/vlan.c:264-286 | A configuration with exact accounts and an address change in which dev_uc_add fails: the VLAN stays up, and the real device has no reference to its address |
| VlanDev.RealDevice.Open | net/8021q/vlan_dev.c:283-328 | Opening takes everything due or, with the error of the first failing call, nothing at all |
| VlanDev.RealDevice.Acquire | net/8021q/vlan_dev.c:283-328 | The three calls and their unwinding restore the real device exactly on failure |
| VlanDev.RealDevice.Stop | net/8021q/vlan_dev.c:330-347 | Stopping gives back everything due |
| VlanDev.RealDevice.SetMac | net/8021q/vlan_dev.c:349-373 | A new address replaces the reference, whatever the two addresses are; on failure nothing changes |
| VlanDev.RealDevice.SetFlags | net/8021q/vlan_dev.c:485-495 | Counters follow the flags, exactly if and only if no ignored increment failed |
| VlanDev.RealDevice.SetLoose | net/8021q/vlan_dev.c:258-276 | The loose-binding flag changes at any time with exact accounts; only loosely bound VLANs stay up on a down device if and only if the real device is up, the VLAN is down, or the flag is set |
| VlanDev.RealDevice.SyncSlot | net/8021q/vlan.c:264-286 | One turn of the loop: the VLAN has seen the new address, and one more reference to the old one is missing exactly if it was up with the old address and dev_uc_add failed |
| VlanDev.RealDevice.ChangeAddr | net/8021q/vlan.c:366-379 | After a change of the real address: the exact number of missing references, and exact accounts if and only if it is zero |
| VlanDev.RealDevice.Down | net/8021q/vlan.c:406-425 | When the real device goes down every VLAN not loosely bound goes down too, with exact accounts |
| VlanDev.RealDevice.ComeUp | net/8021q/vlan.c:427-443 | When it comes up they come up, as far as opening succeeds |
| VlanDev.RealDevice.Do | net/8021q/vlan.c:324-486 | Any operation keeps the accounts exact if and only if no call whose failure is ignored failed, and keeps loosely bound VLANs the only ones up on a down device if and only if it does not clear the flag of such a VLAN |
| VlanDev.RealDevice.Play | net/8021q/vlan.c:324-486 | Over every run without such a failure the accounts of all VLANs are exact |
| VlanDev.StepBound | net/8021q/vlan_dev.c:258-276 | Each operation keeps loosely bound VLANs the only ones up on a down device, if and only if it does not clear the flag of such a VLAN |
| VlanDev.RunBound | net/8021q/vlan_dev.c:258-276 | Over every run this holds throughout if and only if no operation of the run does so |
| VlanDev.FlagCleared | net/8021q/vlan_dev.c:258-276 | Calls that do: a loosely bound VLAN is opened on a down device and its flag is cleared; the accounts are exact, the VLAN is up and not loosely bound |
| VlanQos.SetMeans | net/8021q/vlan_dev.c:220-255 | Setting a mapping changes the answer for that priority alone, keeps one node per priority in its own bucket, and moves the count of non-zero mappings accordingly |
| VlanQos.LikeMap | net/8021q/vlan_dev.c:220-255 | After any settings the 16-bucket map answers what a plain map would |
| VlanQos.LastDump | net/8021q/vlan_netlink.c:195-214 | The message holds as many egress entries as there are non-zero mappings, and says of every priority what the map says |
| VlanQos.EgressRoundTrip | net/8021q/vlan_netlink.c:78-103 | Writing the map to a message and applying the message to a fresh device gives the same answers |
| VlanQos.IngressRoundTrip | net/8021q/vlan_netlink.c:177-193 | Likewise, and exactly, for the ingress table |
| VlanQos.TagBits | net/8021q/vlan_dev.c:97-112 | On 16-bit words, id and shifted priority joined by | are their sum, and both can be masked and shifted out again |
| VlanQos.TagDecodes | net/8021q/vlan.h:150-156 | A tag decodes to the id and the three priority bits it was made of |
| VlanQos.EndToEnd | net/8021q/vlan_dev.c:97-112 | From a packet's priority through sender's map, tag and receiver's table to the priority on arrival |
| VlanQos.PrioMaps.GetEgress | net/8021q/vlan_dev.c:71-86 | The chain walk answers what the map says |
| VlanQos.PrioMaps.SetEgress | net/8021q/vlan_dev.c:220-255 | In place: overwrite, new node in front, or ENOBUFS; the counter keeps equal to the non-zero mappings |
| VlanQos.PrioMaps.SetIngress | net/8021q/vlan_dev.c:207-218 | In place, with its counter |
| VlanQos.PrioMaps.FillInfo | net/8021q/vlan_netlink.c:177-214 | The loops write exactly the non-zero mappings, as many as the counters say; a table is omitted only if it is empty |
| VlanQos.PrioMaps.ChangeLink | net/8021q/vlan_netlink.c:78-103 | Every entry is applied in order; one that finds no memory is skipped |
| VlanQos.PrioMaps.Clone | net/8021q/vlan_netlink.c:78-103 | A device set up from another's message maps every packet as the other does, with valid counters |
| AtmCi.InsertApart | net/atm/common.c:42-48 | Adding a connection under a pair that check_ci accepts leaves no two connections of a device that are marked as addressed colliding in a direction; the mark is set by the driver, after insertion |
| AtmCi.NotYetMarked | net/atm/common.c:317-341 | A connection in the table but not yet marked is overlooked: a second one gets the same pair, and once both are marked they collide |
| AtmCi.OdometerStep | net/atm/common.c:372-382 | One step of the odometer passes over no candidate and is back at the start only after the last |
| AtmCi.EndsIff | net/atm/common.c:356-383 | The odometer of a free VPI returns to its start if and only if the cached VPI was not negative |
| AtmCi.HaltsIff | net/atm/common.c:364-384 | The loop ends if and only if it started from a VPI that is not negative or some pair on its way is free |
| AtmCi.InRangeIff | net/atm/common.c:343-385 | With a free VPI, what find_ci returns is in range for every table if and only if the cached VPI is not negative |
| AtmCi.StrayVpi | net/atm/common.c:343-385 | Two calls that do it: a search with VPI -2 and a free VCI leaves -2 behind, and the next search for any VPI returns it |
| AtmCi.Table.ScanUp | net/atm/common.c:364-384 | From a negative position, where the loop ends at all, it returns the first free pair on its way, in range or not |
| AtmCi.Table.CheckCi | net/atm/common.c:317-341 | One hash bucket decides for the whole table whether the pair collides |
| AtmCi.Table.Scan | net/atm/common.c:364-384 | The loop ends; it returns the first free candidate in scan order, or every candidate is taken and the cache is where it was |
| AtmCi.Table.FindCi | net/atm/common.c:343-385 | For every combination of fixed and free halves: a free pair that respects the fixed ones, or EADDRINUSE if and only if every candidate collides; from a negative cached VPI, the first free pair on the way |
| AtmCi.Table.Connect | net/atm/common.c:387-412 | Range test, search and insertion keep the table hashed and its marked connections apart, or change nothing; the cached VPI becomes negative exactly by a request for VPI -2 with a free VCI |
| MpoaCache.IncSound | net/atm/mpoa_caches.c:34-52 | Taking a handle keeps links and counts |
| MpoaCache.DecSound | net/atm/mpoa_caches.c:179-185 | Putting one keeps them and frees the entry exactly when neither the list nor a handle refers to it |
| MpoaCache.UnlinkedLinked | net/atm/mpoa_caches.c:200-205 | Unlinking any entry leaves a properly doubly linked list of the others |
| MpoaCache.FrontedSound | net/atm/mpoa_caches.c:108-124 | A new entry in front is linked both ways and counted twice, for the list and for the caller |
| MpoaCache.DetachSound | net/atm/mpoa_caches.c:190-206 | Removal drops the list's reference and frees the entry exactly when no handle is out |
| MpoaCache.PurgeExact | net/atm/mpc.c:1208-1229 | A purge removes exactly the entries that match under the mask, keeps the rest in order and unchanged, and leaves no handle behind |
| MpoaCache.ClearExact | net/atm/mpoa_caches.c:226-247 | One pass drops exactly the expired entries, keeps the others in order, and zeroes their counts |
| MpoaCache.RefreshExact | net/atm/mpoa_caches.c:299-323 | One pass of refresh_entries ages each listed entry once (RESOLVED becomes REFRESHING when two thirds of the holding time have passed) and changes nothing else |
| MpoaCache.DestroyEmpties | net/atm/mpoa_caches.c:325-331 | Nothing is left but entries on which a handle is out |
| MpoaCache.VccGone | net/atm/mpc.c:654-673 | Closing a circuit leaves no entry over it if and only if at most one entry used it |
| MpoaCache.VccStays | net/atm/mpc.c:654-673 | Two destinations over one circuit: after the close the second entry still uses it |
| MpoaCache.StepSteady | net/atm/mpc.c:605-1229 | Every handler, attaching a circuit and the refresh timer included, keeps links, counts and one entry per destination, and returns with as many handles out as before |
| MpoaCache.RunSteady | net/atm/mpc.c:491-1229 | So does every run; with no handle out, memory holds the listed entries and no other, each with one reference |
| MpoaCache.CircuitUsable | net/atm/mpc.c:1186-1197 | Over every run from an empty cache a packet finds a circuit usable if and only if the entry has one; and the state the reply handler calls impossible is exactly that of a REFRESHING entry with a circuit |
| MpoaClient.Client.Find | net/atm/mpoa_caches.c:34-94 | The walk returns the first match |
| MpoaClient.Client.Get | net/atm/mpoa_caches.c:34-94 | All three lookups: a handle on the first match, or NULL |
| MpoaClient.Client.Put | net/atm/mpoa_caches.c:179-185 | Links and counts stay exact, and the entry is freed exactly when neither the list nor another handle refers to it |
| MpoaClient.Client.Add | net/atm/mpoa_caches.c:96-130 | The new entry is the first of a properly linked list, with one handle out for the caller; every other entry is where it was and says what it said |
| MpoaClient.Client.Remove | net/atm/mpoa_caches.c:190-222 | Unlinking, put, the stop notice for an empty cache and the release of a circuit nobody uses |
| MpoaClient.Client.CacheHit | net/atm/mpoa_caches.c:132-177 | The branches come to this: a circuit is usable unless the entry is INVALID, and a request goes out when the count passes the limit of an INVALID or REFRESHING entry |
| MpoaClient.Client.SendViaShortcut | net/atm/mpc.c:491-565 | Balanced handler: sent if and only if the destination has a usable circuit and ttl allows; a new destination gets an entry |
| MpoaClient.Client.Trigger | net/atm/mpc.c:1083-1113 | Balanced handler: an absent or INVALID entry becomes RESOLVING with one request; it faults exactly when the entry is absent and there is no memory for one |
| MpoaClient.Client.Reply | net/atm/mpc.c:1158-1206 | Balanced handler: contents, circuit and state after the answer |
| MpoaClient.Client.VccClose | net/atm/mpc.c:654-673 | Balanced handler: the first entry over the circuit loses it |
| MpoaClient.Client.Attach | net/atm/mpc.c:605-646 | Balanced handler: the first entry for the address gets the circuit, and it succeeds, if and only if there is one that is RESOLVED or REFRESHING |
| MpoaClient.Client.RefreshEntries | net/atm/mpoa_caches.c:299-323 | The loop is the refresh pass of the model |
| MpoaClient.Client.Purge | net/atm/mpc.c:1208-1229 | The loop ends and is the purge of the model |
| MpoaClient.Client.ClearCountAndExpired | net/atm/mpoa_caches.c:226-247 | The loop, which notes the successor first, is the pass of the model |
| MpoaClient.Client.DestroyCache | net/atm/mpoa_caches.c:325-331 | The loop ends and is the destruction of the model |
| MpoaClient.Client.Do | net/atm/mpc.c:491-565 | Any handler is a step of the model |
| MpoaClient.Client.Serve | net/atm/mpc.c:491-1229 | Any handler keeps links, counts and one entry per destination in the client's own fields |
| MpoaClient.RefreshedInUse | net/atm/mpc.c:1191-1196 | Three calls that lead there: an entry is resolved over a circuit and its refresh falls due before the next answer |

## Left out

Assumptions on headers that are not part of this model:

- The order of the `REQ_STATUS` values (IDLE, ALLOC, UNSENT, SENT, FLSH, RCVD, FLSHD, ERROR) is taken from use.
- `atm_may_send` is taken as `size + wmem < sndbuf`, with a socket's own count of 1 for an empty queue.
- The GARP event codes on the wire are those of IEEE 802.1D; `DDP_MAXSZ` is 587; control message sizes and
  alignments are those of a little-endian 64-bit kernel, with control lengths below 2^31 - 3.
- Drivers that filter VLAN ids offer both the add and the kill operation.

Not modelled:

- 9P: the format letters A, I, U of other transports, growth of the tag table, frames announced with fewer
  than 7 bytes beyond `ShortFrame`, other steps in the middle of one work function, poll and work scheduling bits;
  reply buffers are there from the start, so the late allocation in `p9_read_work` does not occur.
- `list_del` of a request that is on no list is taken to change nothing; the client recycles a request only
  when it is on no list and is neither being read nor written.
- PPPoATM: the header handling of `pppoatm_send`, and its undo of a compressed protocol field.
- GARP: which stored attribute a received PDU finds (the lookup length is computed with its operands
  reversed), rb-tree balancing, timers.
- `net/compat.c` beyond control messages: `iov_from_user_compat_to_kern` and the system call shims.
- DDP: routing and interface tables, LocalTalk short headers, IP over DDP, sockets; a received buffer in
  pieces is handled by the checksum, while trimming and header rewriting work on a linear one.
- 802.1Q: address lists synced by `vlan_dev_set_rx_mode`, carrier and GVRP calls, the other two VLAN flags, registration order, id 0,
  room for attributes in a netlink message.
- ATM: drivers set `ATM_VF_ADDR` after insertion, outside the code modelled, so that `AtmCi.Table.Connect`
  speaks of connections already marked; `p` is a 16-bit value, so `vpi_bits` is taken to be at most 14; the capability and removal tests of `__vcc_connect`.
- MPOA: the egress cache (its circuits and emptiness are parameters), the retry timer, headers put
  on packets; a handler that faults on a failed allocation is taken to leave the client as it was.
- Locking, RCU and memory ordering: regions under one lock and atomic operations are single steps; handlers
  of the MPOA and VLAN models do not interleave.
- AtmCi.Table.FindCi: from a negative cached VPI with a free VPI, some pair on the way must be free; `AtmCi.HaltsIff` shows that otherwise the scan does not end.
- AtmCi.Table.ScanUp: the same.
- AtmCi.Table.Connect: the same.
- P9Conn.Conn.Receive: the reply buffers of all requests are allocated with the table, and no two requests share one.
- VlanVid.Device.AddByDev: the two devices are assumed distinct, since the list must not change while it is walked.
- GarpPdu.Builder.AppendAttr: assumes room for one attribute in a fresh PDU; with less, as `GarpPdu.Builder.TryAppend` shows, no round succeeds and the retry loop does not end.
- System call plumbing, other 9P transports, `lec`, `clip`, `br2684`, AARP, AX.25, proc and sysfs files: not modelled.
