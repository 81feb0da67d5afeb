# A model of the lib_tsn AVB stack

This project models the parts of lib_tsn, an Audio Video Bridging stack, that keep state from one
packet to the next, and proves what they promise over whole runs.

- **Reservations.** `MrpWire`, `MrpParser` and `MrpSender` are the PDUs of the Multiple Registration
  Protocol (MRP) with its applications MSRP and MVRP: the bytes, the receive parser, and the send
  buffer that the encoder edits in place. `MrpState` holds the applicant and registrar machines of
  one attribute (section 10.7 of IEEE 802.1Q), `MrpHistory` what they amount to over a run, `MrpLink`
  two of them on one LAN, `MrpFormat` the format in numbers and the way of a declaration from the
  sender's machine over the wire to the receiver's. `AttrList` is the linked list of attributes that a join
  timer tick reorders, `JoinTick` is the whole tick from the machines to the wire, and `StreamTable` is
  the reservation table that attributes point into.
- **Audio.** `Talker` packs frames into 1722 packets, `Listener` finds out channel count and rate and
  delivers the samples, `OutputFifo` is the ring between the 1722 thread and the audio thread.
  `AudioPath` proves what holds across all three.
- **Control.** `FlashPages` re-blocks firmware writes into flash pages, `AcmpTable` is the table of
  connected listeners of a talker stream.

## How to read it

Code that changes state is a class whose methods carry the source's branches and loops. Each method
is proved against a function on values, and the lemmas about that function say what it means. A
protocol run is a list of operations folded over that function, so a lemma about a run covers every
order of events.

The main results:

- `MrpSender.PduRoundTrip`, `MrpSender.SendBuffer.DoTx` and `MrpSender.SendBuffer.ForceSend`:
  whatever is transmitted, and wherever in the buffer it is merged, the receivers' parser hears
  exactly the declared values. For MVRP this includes taking the length fields out in place.
- `OutputFifo.QueueCorrect` and `OutputFifo.MarkerCorrect`: the ring is a queue under every
  interleaving of the two threads and with stale pointer reads, and a recorded playout time belongs
  to the stamped sample.
- `AttrList.AttributeList.SortAttrs` and `JoinTick.Tick`: the list surgery is a permutation for any
  comparator, hence in a tick each attribute in use gets one transmit event, and the receivers hear
  each answer once and nothing else.
- `AudioPath.EndToEnd`, `AudioPath.StampDelivered`, `AudioPath.PlayoutOfFrame` and
  `AudioPath.LocksOntoTalker`: samples, time stamps, playout times and stream format reach the other
  end.
- `MrpState.DeclarationSafety`, `MrpState.Announcement`, `MrpHistory.QuietExactly`,
  `MrpHistory.RegisteredIff`, `MrpHistory.IndicationsConserved`: the machines over whole runs, as
  functions of the requests and messages they have seen.
- `MrpLink.CalmIsRegistered` and `MrpLink.RequestsArrive`: two machines on one LAN, in any run. A
  participant that has gone quiet is registered at the other, and a request is registered there after
  three undisturbed ticks.
- `MrpFormat.HeardInNumbers` and `MrpFormat.SpokenToRegistrar`: what is heard, in numbers, and what it
  does to the registrar at the other end.
- `StreamTable.NoDangling`: no attribute in use is left pointing at a cleared reservation.

## Where a promise does not hold

Each of these is stated as an if-and-only-if over all inputs, with an input that shows the failure.

- One call of `sort_attrs` does not sort (`AttrList.SortPassNotASort`) and, because `compare_attr`
  has ties, can unsort a sorted list (`AttrList.SortPassUnsorts`). `AttrList.SortPassSorts` says
  exactly when it sorts.
- The sample accumulator loses a carry exactly when the fraction is above one half
  (`Talker.AccumulatorExactIff`), which of the supported rates only 44.1 kHz has
  (`AudioPath.LocksAtTalkerRate`).
- The listener's rate table has no entry for 176.4 kHz, which the talker accepts, so the lock does
  not end at the talker's rate exactly there (`AudioPath.LocksAtTalkerRate`).
- A merged talker declaration keeps its interval, TSpec and latency only if the message already has
  the same (`MrpWire.MergedTalkerFields`, `MrpWire.LatencyLost`), because the merge check compares
  other fields.
- The margin that `send` keeps free is enough for every value but a talker's (`MrpSender.MarginIff`,
  `MrpSender.MarginShort`).
- A firmware write that makes up less than a page with the bytes carried over writes a page with
  bytes from beyond the message (`FlashPages.FaithfulIff`, `FlashPages.UpgradeCorrect`,
  `FlashPages.ShortWrite`).
- A zero GUID, which the ACMP table does not refuse, upsets the counter exactly under the conditions
  of `AcmpTable.AddKeepsIff` and `AcmpTable.RemoveKeepsIff` (`AcmpTable.ZeroGuidCounted`,
  `AcmpTable.NobodyDisconnected`).
- A notification of the clock recovery at sample count zero reads as none, so that the next one need
  not wait 250 samples (`OutputFifo.NotifiedAgainIff`).
- A zero stream id is taken for a free entry (`StreamTable.AddKeepsIff`, `StreamTable.ZeroIdLost`).
- A time stamp set for a position a lap or more ahead is recorded for another sample
  (`OutputFifo.StampIsExact`, `OutputFifo.StampTooFar`).
- A playout time is recorded for another sample exactly if a new stamp is set while the audio thread
  is between its comparison of the marker and its store (`OutputFifo.MarkerCorrect`,
  `OutputFifo.RecordedLate`).

## Where code and documentation differ

The model follows the code.

- The received JoinIn, In, JoinMt and Mt cases of the applicant run into each other
  (lib_tsn/src/srp/avb_mrp.c:599-638), so the net effect is not the table of IEEE 802.1Q.
- The comment on `sort_attrs` speaks of sorting; one call is one pass.
- `mrp_attribute_init` gives `memset` a zero length (lib_tsn/src/srp/avb_mrp.c:796), so a reused
  attribute keeps its old registrar state until Begin.
- The send-buffer margin (lib_tsn/src/srp/avb_mrp.c:22) leaves out the vector header and the longer
  Talker Failed value. Room for one message is therefore a precondition of the encoding methods.

## Model

| member | source | states |
|---|---|---|
| MrpWire.UnpackThree | lib_tsn/src/srp/avb_mrp.c:1401-1406 | unpacking any packed vector gives back every three-packed event, and no byte falls in the range the parser rejects |
| MrpWire.UnpackFour | lib_tsn/src/srp/avb_mrp.c:1408-1413 | unpacking any packed vector gives back every four-packed event |
| MrpWire.AppendThree | lib_tsn/src/srp/avb_mrp.c:316-352 | appending an event changes the packed bytes by one added byte or one digit of the last byte, and nothing else |
| MrpWire.AppendFour | lib_tsn/src/srp/avb_mrp.c:355-392 | the same for four-packed events |
| MrpWire.TransmitAt | lib_tsn/src/srp/avb_mrp.c:439-486 | a transmission changes exactly the first message that can take it, or adds one at the end |
| MrpWire.FirstValueKey | lib_tsn/src/srp/avb_srp.c:889-945 | a freshly written first value stands for the declared stream, domain or VLAN |
| MrpWire.MergeMeaning | lib_tsn/src/srp/avb_srp.c:1024-1168 | merging appends the declared value to what the message means and leaves all values before it |
| MrpWire.NewMessageMeaning | lib_tsn/src/srp/avb_mrp.c:397-437 | a new message means the one declared value |
| MrpWire.TransmitMeaning | lib_tsn/src/srp/avb_mrp.c:439-486 | every transmission inserts exactly one value, the declared one, into the meaning of the PDU; the others keep content and order |
| MrpWire.MergedTalkerFields | lib_tsn/src/srp/avb_srp.c:1024-1168 | exactly when the talker fields that the merge check ignores reach the receiver |
| MrpWire.LatencyLost | lib_tsn/src/srp/avb_srp.c:1024-1077 | two consecutive streams with different latency: the second is merged and heard with the latency of the first |
| MrpParser.ProcessValues | lib_tsn/src/srp/avb_mrp.c:1469-1518 | the value loop raises the events of the vector up to the first byte in the unused range |
| MrpParser.ProcessVector | lib_tsn/src/srp/avb_mrp.c:1464-1518 | leave-all event first if flagged, then the values |
| MrpParser.ProcessVectors | lib_tsn/src/srp/avb_mrp.c:1442-1520 | the vector loop with its length checks, end mark and abandoned packets |
| MrpParser.ProcessPacket | lib_tsn/src/srp/avb_mrp.c:1415-1525 | the parser computes the scan that the round trip is proved about, for any bytes |
| MrpParser.ScanBody | lib_tsn/src/srp/avb_mrp.c:1437-1521 | a message body is read as its meaning and the scan stops on its end mark |
| MrpParser.ScanReadsPdu | lib_tsn/src/srp/avb_mrp.c:1415-1525 | round trip: any PDU followed by an end mark is read back as its meaning, with and without length fields |
| MrpParser.ForeignPassedOver | lib_tsn/src/srp/avb_mrp.c:1422-1453 | a message of an unknown type, of up to 8191 values, ends a packet of version 0 and is passed over in a packet of any other; all known messages before it, and then those behind it, are heard |
| MrpParser.OverlongEnds | lib_tsn/src/srp/avb_mrp.c:1455-1462 | a vector longer than its list length or the frame ends the packet, and exactly the messages before it are heard |
| MrpSender.EncodePacked3 | lib_tsn/src/srp/avb_mrp.c:316-322 | adds the event's digit to a three-packed byte |
| MrpSender.EncodePacked4 | lib_tsn/src/srp/avb_mrp.c:355-361 | adds the event's digit to a four-packed byte |
| MrpSender.SendBuffer.GrowVector | lib_tsn/src/srp/avb_mrp.c:337-348 | the shift by one byte keeps everything before and behind the new byte and steps length field and end |
| MrpSender.SendBuffer.EncodeThree | lib_tsn/src/srp/avb_mrp.c:324-352 | the message in the middle of the buffer has one more three-packed event; the bytes around it only move |
| MrpSender.SendBuffer.EncodeFour | lib_tsn/src/srp/avb_mrp.c:363-392 | the same for the four-packed event |
| MrpSender.SendBuffer.CheckTalkerMerge | lib_tsn/src/srp/avb_srp.c:1024-1077 | true exactly if id, destination address, VLAN and frame size continue the vector |
| MrpSender.SendBuffer.CheckListenerMerge | lib_tsn/src/srp/avb_srp.c:861-886 | true exactly if the stream id continues the vector |
| MrpSender.SendBuffer.AppendValue | lib_tsn/src/srp/avb_srp.c:1079-1168 | first value if new, packed events and count: the message becomes its merge with the declaration |
| MrpSender.SendBuffer.EncodeMessage | lib_tsn/src/srp/avb_mrp.c:421-437 | merges if the message can take the value and otherwise leaves every byte alone |
| MrpSender.SendBuffer.TryMerge | lib_tsn/src/srp/avb_mrp.c:443-455 | the walk over the messages merges into the first that can take the value, or stops behind the last |
| MrpSender.SendBuffer.CreateEmpty | lib_tsn/src/srp/avb_mrp.c:397-418 | the bytes of an empty message behind those in use |
| MrpSender.SendBuffer.StripMessage | lib_tsn/src/srp/avb_mrp.c:134-150 | one round turns the next message into its form without length field and leaves zeros behind the end |
| MrpSender.SendBuffer.Strip | lib_tsn/src/srp/avb_mrp.c:134-150 | the buffer holds the same messages without length fields, and all bytes up to the old end are zero |
| MrpSender.SendBuffer.constructor | lib_tsn/src/srp/avb_mrp.c:38-55 | an empty buffer in which nobody has heard anything |
| MrpSender.SendBuffer.Configure | lib_tsn/src/srp/avb_mrp.c:116-122 | changing the protocol of an empty buffer changes nothing that was heard |
| MrpSender.SendBuffer.Pad | lib_tsn/src/srp/avb_mrp.c:155-177 | zero bytes up to the minimum frame size and no others |
| MrpSender.SendBuffer.Emit | lib_tsn/src/srp/avb_mrp.c:155-177 | a frame that ends at the old end pointer is heard as the messages in the buffer |
| MrpSender.SendBuffer.ForceSend | lib_tsn/src/srp/avb_mrp.c:155-177 | the frame put on the wire is heard as the messages of the buffer, an empty buffer sends none, and the total heard stays the same |
| MrpSender.SendBuffer.Send | lib_tsn/src/srp/avb_mrp.c:182-188 | keeps what receivers hear, and sends exactly when the buffer is within the margin of its end |
| MrpSender.MarginIff | lib_tsn/src/srp/avb_mrp.c:182-188 | the margin of `send` leaves room for the next value if and only if it is not a talker |
| MrpSender.MarginShort | lib_tsn/src/srp/avb_mrp.c:22-27 | a buffer of 500 bytes in which `send` waits and a Talker Failed value does not fit |
| MrpSender.NeedExact | lib_tsn/src/srp/avb_mrp.c:397-437 | the room reckoned for a value is that of a message of its own and the padding |
| MrpSender.SendBuffer.AddMessage | lib_tsn/src/srp/avb_mrp.c:459-465 | a value that no message took becomes a new last message |
| MrpSender.SendBuffer.Encode | lib_tsn/src/srp/avb_mrp.c:439-465 | the buffer holds the messages after the transmission, which mean one value more |
| MrpSender.SendBuffer.DoTx | lib_tsn/src/srp/avb_mrp.c:439-486 | receivers will hear exactly one more value, the declared one |
| MrpSender.SendBuffer.AddLeaveAll | lib_tsn/src/srp/avb_mrp.c:1111-1131 | receivers will hear exactly one more leave-all event |
| MrpSender.RunOfTransmits | lib_tsn/src/srp/avb_mrp.c:439-486 | after any run of transmissions in which each vector has room for its value, the messages are well formed and mean the transmitted multiset |
| MrpSender.ShortRunsHold | lib_tsn/src/srp/avb_mrp.c:439-486 | fewer than 256 transmissions always have that room |
| MrpSender.FrameHeard | lib_tsn/src/srp/avb_mrp.c:1415-1525 | a frame with header, PDU and padding is heard as the PDU's meaning, whatever lies behind it |
| MrpSender.PduRoundTrip | lib_tsn/src/srp/avb_mrp.c:324-486 | any run of transmissions, encoded, framed and parsed, gives exactly the transmitted values |
| MrpFormat.ListenerFormat | lib_tsn/src/srp/avb_srp.c:889-945 | the bytes of a listener declaration in numbers: type 3, lengths 8 and 14, one value, 36 times the event, 128 if ready and 64 if asking failed |
| MrpFormat.TalkerFormat | lib_tsn/src/srp/avb_srp.c:1079-1168 | the bytes of a talker declaration in numbers: types 1 and 2, lengths 25 and 34, every field in its place |
| MrpFormat.DomainFormat | lib_tsn/src/srp/avb_srp.c:984-1021 | the bytes of a domain declaration: class 6 and priority 3 |
| MrpFormat.VidFormat | lib_tsn/src/srp/avb_mvrp.c:85-117 | the bytes of an MVRP declaration, without list length |
| MrpFormat.LeaveAllFormat | lib_tsn/src/srp/avb_mrp.c:397-418 | the bytes of a leave-all message |
| MrpFormat.PackedFormat | lib_tsn/src/srp/avb_mrp.c:316-392 | three and four events to a byte, the first in the highest place |
| MrpFormat.HeardInNumbers | lib_tsn/src/srp/avb_mrp.c:324-486 | any run of transmissions, framed and parsed, is heard as the declared streams, classes and VLANs, a ready listener with 2 and one asking failed with 1 |
| MrpFormat.CodeDecoded | lib_tsn/src/srp/avb_mrp.c:1203-1226 | each message is heard as the event of the same name; the codes in numbers |
| MrpFormat.ConcernsItsOwn | lib_tsn/src/srp/avb_srp.c:347-470 | a declaration is matched to exactly the attributes of its kind about the same stream, domain or VLAN, and to no others |
| MrpFormat.SpokenToRegistrar | lib_tsn/src/srp/avb_mrp.c:1203-1226 | from the sender's machine over the wire: a declaring sender leaves the receiver's registrar IN, a withdrawing one ends the registration, any other leaves it alone |
| MrpFormat.ReadyIsIndicated | lib_tsn/src/srp/avb_mrp.c:490-547 | a registrar that has recorded asking failed gets a join indication from the next join heard if and only if the listener is ready |
| MrpSender.StripNext | lib_tsn/src/srp/avb_mrp.c:134-150 | what one round of the strip loop finds and leaves, on the bytes |
| MrpSender.LeaveAllMeaning | lib_tsn/src/srp/avb_mrp.c:397-418 | an empty message with the leave-all flag means one leave-all event |
| MrpState.Attribute.UpdateRegistrar | lib_tsn/src/srp/avb_mrp.c:490-547 | the registrar switch, indications and per-port leave-all flags |
| MrpState.Attribute.ReceiveFallThrough | lib_tsn/src/srp/avb_mrp.c:599-638 | the net effect of the cases that run into each other |
| MrpState.Attribute.MakeTxEvent | lib_tsn/src/srp/avb_mrp.c:191-255 | the message of each applicant and registrar state |
| MrpState.Attribute.SendEvent | lib_tsn/src/srp/avb_mrp.c:675-734 | which states send, and the removal after the last message |
| MrpState.Attribute.Settle | lib_tsn/src/srp/avb_mrp.c:693-753 | the applicant state after a transmission |
| MrpState.Attribute.UpdateApplicant | lib_tsn/src/srp/avb_mrp.c:550-674 | the other applicant cases |
| MrpState.Attribute.UpdateState | lib_tsn/src/srp/avb_mrp.c:488-759 | the code takes the step of the machine that the run lemmas are about, message included |
| MrpState.DeclarationSafety | lib_tsn/src/srp/avb_mrp.c:550-758 | in every run, up to a removal, the applicant declares if and only if the last local request was New or Join |
| MrpState.DeclaredFromBegin | lib_tsn/src/srp/avb_mrp.c:805-846 | the same for the whole history of an attribute from its Begin on |
| MrpState.Announcement | lib_tsn/src/srp/avb_mrp.c:675-755 | after New two NEW messages go out before the applicant leaves the announcing states, unless withdrawn, restarted or removed |
| MrpState.LeavingIsAnnounced | lib_tsn/src/srp/avb_mrp.c:191-255 | the leaving state ends only with a Lv message, a new declaration or Begin |
| MrpState.RankFalls | lib_tsn/src/srp/avb_mrp.c:675-755 | with no other event, a transmission sends if and only if messages are due, and then fewer are due |
| MrpState.Quiescence | lib_tsn/src/srp/avb_mrp.c:675-755 | left alone, at most three messages are sent before the attribute is quiet |
| MrpState.TimerSafety | lib_tsn/src/srp/avb_mrp.c:490-547 | in every run the leave timer is active if and only if the registrar is leaving |
| MrpState.RegistrationEnds | lib_tsn/src/srp/avb_mrp.c:1191-1196 | a registration is lost only by Begin or an expired leave timer, which queues a leave indication |
| MrpState.LeaveIndication | lib_tsn/src/srp/avb_mrp.c:490-547 | a leave indication is queued only by losing a registration |
| MrpState.RejoinCancels | lib_tsn/src/srp/avb_mrp.c:490-547 | a rejoin while leaving stops the timer and queues no leave |
| MrpState.RegistrationSafety | lib_tsn/src/srp/avb_mrp.c:490-547 | over any run, a registration gone at the end was ended for good by a Begin, or by a leave timer that expired in LV and left a leave indication pending |
| MrpState.QueuedByLoss | lib_tsn/src/srp/avb_mrp.c:490-547 | over any run, only an expired leave timer that ends a registration makes a leave indication pending, so a rejoin in LV never does |
| MrpHistory.RegisteredIff | lib_tsn/src/srp/avb_mrp.c:490-547 | over any run of an attribute in use, the registrar is IN if and only if the last of the received joins, the leaves and the restarts was a join, and LV if and only if a leave has followed a join unanswered |
| MrpHistory.RegistrarFields | lib_tsn/src/srp/avb_mrp.c:490-547 | the registrar after each event, event by event |
| MrpHistory.IndicationStep | lib_tsn/src/srp/avb_mrp.c:1141-1156 | an indication is pending exactly if it was called for, or was pending and not yet told: New by each New, a join where there was no registration or a listener has become ready, a leave by the expired timer |
| MrpHistory.IndicatedFour | lib_tsn/src/srp/avb_mrp.c:490-547 | the listener parameter kept is that of the message that called for the last join, and zero after a leave |
| MrpHistory.IndicationsConserved | lib_tsn/src/srp/avb_mrp.c:1141-1156 | over any run, every join, new and leave indication queued is told to the application once or still pending |
| MrpHistory.RegistrationBegins | lib_tsn/src/srp/avb_mrp.c:490-547 | a registration there at the end of a run was begun by a received join that put the registrar to IN and left a join indication pending |
| MrpHistory.AnswerMeaning | lib_tsn/src/srp/avb_mrp.c:191-255 | a transmission says New exactly in VN and AN, Lv exactly in LA, and otherwise JoinIn or In if and only if the attribute is registered, JoinIn or JoinMt if and only if it is declared and not VP under leave-all |
| MrpHistory.QuietExactly | lib_tsn/src/srp/avb_mrp.c:675-755 | left alone, an attribute sends exactly the number of messages its state calls for |
| MrpHistory.NewsExactly | lib_tsn/src/srp/avb_mrp.c:675-755 | of the messages left to themselves exactly two after a New, and one in AN, are NEW |
| MrpHistory.RequestLetters | lib_tsn/src/srp/avb_mrp.c:553-598 | the local requests, in terms of role and level of a state |
| MrpHistory.HeardLetters | lib_tsn/src/srp/avb_mrp.c:599-668 | the messages heard: the four that run into each other all wake a calm participant and end an observer's departure, and nothing else |
| MrpHistory.SentLetters | lib_tsn/src/srp/avb_mrp.c:675-755 | the messages sent: each declaration makes a participant active and a level calmer |
| MrpHistory.NeverPassivelyCalm | lib_tsn/src/srp/avb_mrp.c:599-638 | in no run from Begin on is a passive or observing participant calm or merely anxious, because of the cases that run into each other |
| MrpLink.CalmIsRegistered | lib_tsn/src/srp/avb_mrp.c:488-759 | in every run of two participants, with whatever a third says, one that is calm about its declaration is registered at the other |
| MrpLink.DeclarationsArrive | lib_tsn/src/srp/avb_mrp.c:675-755 | whatever has happened before, three undisturbed ticks make the other participant register a declared attribute |
| MrpLink.WithdrawalsArrive | lib_tsn/src/srp/avb_mrp.c:1191-1196 | the tick after a withdrawal ends the registration, and the expired timer reports it |
| MrpLink.RequestsArrive | lib_tsn/src/srp/avb_mrp.c:805-846 | from the request of the application to the registration at the other participant |
| AttrList.SortPassPermutes | lib_tsn/src/srp/avb_mrp.c:938-993 | one pass is a permutation for any comparator whatever |
| AttrList.SortPassOrdered | lib_tsn/src/srp/avb_mrp.c:938-993 | an ordered list comes out unchanged |
| AttrList.SortPassSorts | lib_tsn/src/srp/avb_mrp.c:938-993 | for every comparator whose ties are transitive, one pass sorts if and only if the kept elements are sorted and each one put back fits: it ties with none already there, or none there is above it |
| AttrList.SortPassDistinct | lib_tsn/src/srp/avb_mrp.c:938-993 | without ties only the kept elements matter |
| AttrList.SortPassUnsorts | lib_tsn/src/srp/avb_mrp.c:938-993 | a sorted list of four with a tie that one pass unsorts |
| AttrList.CompareAttrWeak | lib_tsn/src/srp/avb_mrp.c:885-925 | the ties of `compare_attr` are transitive, so the above speaks about it |
| AttrList.CompareAttrTies | lib_tsn/src/srp/avb_srp.c:1199-1222 | which attributes `compare_attr` cannot tell apart: talkers with one source number, listeners of one stream |
| AttrList.ListenersById | lib_tsn/src/srp/avb_srp.c:1208-1222 | listeners in use are compared by their 64-bit stream ids |
| AttrList.SortPassNotASort | lib_tsn/src/srp/avb_mrp.c:938-993 | a list of three that one pass does not sort |
| AttrList.PlaceSorted | lib_tsn/src/srp/avb_mrp.c:977-988 | placing an element gives a sorted list if and only if the list was sorted and the element fits |
| AttrList.AttributeList.Init | lib_tsn/src/srp/avb_mrp.c:855-862 | all attributes unused, linked in array order, each once |
| AttrList.AttributeList.Extract | lib_tsn/src/srp/avb_mrp.c:947-965 | the chain is split into the kept nodes and the stack of the others, no node lost or shared |
| AttrList.AttributeList.Walk | lib_tsn/src/srp/avb_mrp.c:977-988 | the node is linked in exactly once, at its place |
| AttrList.AttributeList.Reinsert | lib_tsn/src/srp/avb_mrp.c:967-990 | all nodes of the stack are back in the chain |
| AttrList.AttributeList.SortAttrs | lib_tsn/src/srp/avb_mrp.c:938-993 | terminates with an acyclic chain of the same nodes, each once, for any comparator |
| AttrList.AttributeList.Visit | lib_tsn/src/srp/avb_mrp.c:1013-1026 | an attribute in use of the type takes the step of its machine and gives the message; any other is left alone |
| AttrList.TickCounts | lib_tsn/src/srp/avb_mrp.c:1106-1134 | over the five types every attribute in use is visited exactly once |
| JoinTick.Perform | lib_tsn/src/srp/avb_mrp.c:439-486 | one leave-all or declaration into the buffer: receivers will hear exactly it in addition |
| JoinTick.TypeEvent | lib_tsn/src/srp/avb_mrp.c:1013-1026 | one walk gives the event to each attribute in use of the type, once and to no other, and receivers will hear exactly their answers in addition |
| JoinTick.MsrpTypesEvent | lib_tsn/src/srp/avb_mrp.c:1070-1075 | the four MSRP walks, each finding its attributes as they were before the others |
| JoinTick.MvrpHalf | lib_tsn/src/srp/avb_mrp.c:1111-1119 | the MVRP PDU: leave-all if due, answers, sent and nothing left in the buffer |
| JoinTick.MsrpHalf | lib_tsn/src/srp/avb_mrp.c:1121-1133 | the MSRP PDUs likewise |
| JoinTick.Tick | lib_tsn/src/srp/avb_mrp.c:1106-1134 | a whole tick: each attribute in use gets exactly one transmit event and takes exactly one step, and what receivers hear in addition is exactly the leave-alls due and one answer of each attribute that sends |
| JoinTick.TickMeans | lib_tsn/src/srp/avb_mrp.c:1106-1134 | the items of both PDUs, type by type, are the answers attribute by attribute |
| JoinTick.SmallItemsFit | lib_tsn/src/srp/avb_mrp.c:182-188 | with no talker to announce, any list of fewer than 255 items fits the buffer with the margin that `send` keeps |
| OutputFifo.QueueCorrect | lib_tsn/src/audio_buffering/audio_output_fifo.c:149-206 | under any interleaving, with stale pointer reads, and starting anywhere in a pull, pulled samples are a prefix in order of the accepted ones and at most N-1 are outstanding |
| OutputFifo.MarkerCorrect | lib_tsn/src/audio_buffering/audio_output_fifo.h:161-178 | with the comparison of the marker, the test and the store of `local_ts` as separate steps: a playout time recorded for a stamp less than a lap ahead is that of the stamped position if and only if the marker was compared after the stamp |
| OutputFifo.MarkerPrompt | lib_tsn/src/audio_buffering/audio_output_fifo.h:161-178 | if no stamp is set between the comparison and the store, a recorded time is always that of the stamped position |
| OutputFifo.RecordedLate | lib_tsn/src/audio_buffering/audio_output_fifo.h:161-178 | a run in which the store of an older pull counts for a newer stamp |
| OutputFifo.PlayoutOfSample | lib_tsn/src/audio_buffering/audio_output_fifo.c:149-206 | a stamp and the push after it, with room up to the stamped sample: a time recorded in time, whatever else happens, is that of the pull of that very sample |
| OutputFifo.StampIsExact | lib_tsn/src/audio_buffering/audio_output_fifo.c:63-79 | the marked cell means the stamped position if and only if fill plus sample number is below N |
| OutputFifo.StampTooFar | lib_tsn/src/audio_buffering/audio_output_fifo.c:63-79 | four cells, three samples waiting, the sample after next stamped: the pull of position 0 is recorded for position 4 |
| OutputFifo.StampedStored | lib_tsn/src/audio_buffering/audio_output_fifo.c:149-206 | without pulls the stamped sample is stored if and only if fill plus index is below N - 1 |
| OutputFifo.NoStaleAudio | lib_tsn/src/audio_buffering/audio_output_fifo.c:106-126 | in every reachable zeroing state a zero at the marker means that every cell is zero |
| OutputFifo.LockingStartsSilent | lib_tsn/src/audio_buffering/audio_output_fifo.c:106-126 | locking starts with exactly half a buffer of zero samples |
| OutputFifo.AdjustFillMoves | lib_tsn/src/audio_buffering/audio_output_fifo.c:241-263 | an adjustment changes the fill by exactly its amount, keeps the other samples, and leaves the FIFO locked, unmuted and without a marker |
| OutputFifo.SoundsIff | lib_tsn/src/audio_buffering/audio_output_fifo.c:33-59 | over any run, a FIFO is unmuted and locked if and only if a fill adjustment is later than every enable, disable and reset; otherwise every pull gives silence |
| OutputFifo.EnableStarts | lib_tsn/src/audio_buffering/audio_output_fifo.c:42-59 | an enabled FIFO is empty, muted and unmarked, counts from zero and is announced once by the next maintenance |
| OutputFifo.NotifiedAgainIff | lib_tsn/src/audio_buffering/audio_output_fifo.c:126-143 | over any run without an enable, up to 250 pushed samples after a notification another is raised if and only if the first was at sample count zero |
| OutputFifo.PushContents | lib_tsn/src/audio_buffering/audio_output_fifo.c:149-206 | a push appends its samples from the first on until the ring is full |
| OutputFifo.PullContents | lib_tsn/src/audio_buffering/audio_output_fifo.h:153-184 | a pull takes the oldest sample; an empty ring gives zero and stays as it is |
| OutputFifo.PullIsSteps | lib_tsn/src/audio_buffering/audio_output_fifo.h:153-184 | a pull without interference is the consumer's steps of the concurrent model |
| OutputFifo.PushIsSteps | lib_tsn/src/audio_buffering/audio_output_fifo.c:149-206 | a push without interference is the producer's steps of the concurrent model |
| OutputFifo.AudioFifo.constructor | lib_tsn/src/audio_buffering/audio_output_fifo.c:19-31 | a disabled, empty FIFO |
| OutputFifo.AudioFifo.EnableFifo | lib_tsn/src/audio_buffering/audio_output_fifo.c:42-59 | zeroing begins with the marker in the last cell |
| OutputFifo.AudioFifo.DisableFifo | lib_tsn/src/audio_buffering/audio_output_fifo.c:33-40 | disabled and muted |
| OutputFifo.AudioFifo.SetPtpTimestamp | lib_tsn/src/audio_buffering/audio_output_fifo.c:63-79 | the first stamp since the marker was freed marks the cell of its sample |
| OutputFifo.AudioFifo.PullSample | lib_tsn/src/audio_buffering/audio_output_fifo.h:153-184 | result and new state of a pull |
| OutputFifo.AudioFifo.StridedPush | lib_tsn/src/audio_buffering/audio_output_fifo.c:148-206 | the strided words of a packet, in order, pushed until the ring is full |
| OutputFifo.AudioFifo.BeginLocking | lib_tsn/src/audio_buffering/audio_output_fifo.c:106-126 | once the marker cell is zero the write pointer goes half a buffer ahead of the reader |
| OutputFifo.AudioFifo.Maintain | lib_tsn/src/audio_buffering/audio_output_fifo.c:87-145 | the state machine of the maintenance call and when the clock recovery is notified |
| OutputFifo.AudioFifo.AdjustFillBy | lib_tsn/src/audio_buffering/audio_output_fifo.c:241-263 | the write pointer moves back round the ring, locked and unmuted |
| OutputFifo.AudioFifo.ResetFifo | lib_tsn/src/audio_buffering/audio_output_fifo.c:264-274 | zeroing begins at any write position with the marker in the cell before it |
| OutputFifo.AudioFifo.ReportInfo | lib_tsn/src/audio_buffering/audio_output_fifo.c:221-233 | the answer, and the freed marker |
| Talker.AccumulatorBounds | lib_tsn/src/1722/avb_1722_talker_support_audio.c:177-182 | for any fraction the accumulator stays below two, packets have base or base plus one samples and two oversize packets never meet |
| Talker.AccumulatorExactIff | lib_tsn/src/1722/avb_1722_talker_support_audio.c:206-210 | the fractions add up to oversize packets and accumulator for ever if and only if the fraction is at most one half |
| Talker.OversizeAtMostHalf | lib_tsn/src/1722/avb_1722_talker_support_audio.c:206-210 | at most every other packet is oversize |
| Talker.SampleRoundTrip | lib_tsn/src/1722/avb_1722_talker_support_audio.c:187-192 | label, shift and byte order cancel but for the low eight bits |
| Talker.TalkerStream.constructor | lib_tsn/src/1722/avb_1722_talker_support_audio.c:74-148 | an empty packet with the static header and the label of the sample type in place |
| Talker.TalkerStream.PutFrame | lib_tsn/src/1722/avb_1722_talker_support_audio.c:187-192 | the mapped samples of a frame, labelled, in channel order, and no other byte |
| Talker.TalkerStream.PutHeader | lib_tsn/src/1722/avb_1722_talker_support_audio.c:26-68 | the header fields, with the payload untouched |
| Talker.TalkerStream.ClosePacket | lib_tsn/src/1722/avb_1722_talker_support_audio.c:206-233 | the finished packet carries exactly the pending frames and the time of the last stamped one |
| Talker.TalkerStream.AddFrame | lib_tsn/src/1722/avb_1722_talker_support_audio.c:184-202 | one frame more in the packet, and its time if its data block is one to be stamped |
| Talker.TalkerStream.CreatePacket | lib_tsn/src/1722/avb_1722_talker_support_audio.c:150-241 | a packet is returned exactly when the frame completes it, with all its frames |
| Listener.AcceptableIff | lib_tsn/src/1722/avb_1722_listener_support_audio.c:42-58 | which frames are used, in numbers, with a VLAN tag and without |
| Listener.UntaggedSame | lib_tsn/src/1722/avb_1722_listener_support_audio.c:32-35 | a frame means the same with its VLAN tag and without |
| Listener.LocksAfter17 | lib_tsn/src/1722/avb_1722_listener_support_audio.c:68-123 | fed any packets of base and base plus one samples, the listener locks with the seventeenth and not before, onto the true channel count and the table rate |
| Listener.MeanIsBase | lib_tsn/src/1722/avb_1722_listener_support_audio.c:104-119 | the mean of sixteen packets is the base size although some are oversize |
| Listener.ListenerStream.constructor | lib_tsn/src/1722/avb_1722_listener.xc:25-51 | an unlocked stream |
| Listener.ListenerStream.EnableAll | lib_tsn/src/1722/avb_1722_listener.xc:35-43 | the loop that enables the FIFOs of a stream |
| Listener.EnabledExactly | lib_tsn/src/1722/avb_1722_listener.xc:35-43 | every FIFO named in the map begins to zero and no other is touched |
| Listener.ListenerStream.UpdateLock | lib_tsn/src/1722/avb_1722_listener_support_audio.c:68-123 | one packet of the lock machine |
| Listener.ListenerStream.StampAll | lib_tsn/src/1722/avb_1722_listener_support_audio.c:125-155 | every connected FIFO gets the stamp |
| Listener.ListenerStream.MaintainAll | lib_tsn/src/1722/avb_1722_listener_support_audio.c:157-163 | every connected FIFO is maintained, with at most one notification passed on |
| Listener.ListenerStream.PushAllChannels | lib_tsn/src/1722/avb_1722_listener_support_audio.c:166-188 | every connected FIFO gets its own channel of the payload |
| Listener.ListenerStream.ProcessPacket | lib_tsn/src/1722/avb_1722_listener_support_audio.c:19-191 | an unacceptable packet changes nothing, one before the lock only moves the lock, any other is delivered |
| AudioPath.TimestampAgreement | lib_tsn/src/1722/avb_1722_listener_support_audio.c:125-155 | a packet has a stamped data block if and only if the index computed from the 8-bit counter falls inside it, and it is the one at that index, across every wrap |
| AudioPath.StampReachesItsFrame | lib_tsn/src/1722/avb_1722_talker_support_audio.c:194-233 | the packet is marked valid exactly when the listener's index lies in it, and carries the time of exactly that frame |
| AudioPath.IntervalsAgree | lib_tsn/src/1722/avb_1722_talker.xc:58-70 | talker and listener have the same SYT interval for every rate, in numbers, and none for any other |
| AudioPath.ClosedPacket | lib_tsn/src/1722/avb_1722_talker_support_audio.c:150-241 | a closed packet is read back complete, with its counters and stream id, if and only if its samples fit the 16-bit length field |
| AudioPath.StampDelivered | lib_tsn/src/1722/avb_1722_listener_support_audio.c:125-155 | a frame whose data block number is a multiple of the interval marks in every connected, unmarked FIFO the cell as far behind the write pointer as the frame is into the packet, with that frame's presentation time |
| AudioPath.NoStampDelivered | lib_tsn/src/1722/avb_1722_listener_support_audio.c:125-155 | a packet without such a frame, an unconnected FIFO or one already marked: no stamp changes |
| AudioPath.StampedExactly | lib_tsn/src/1722/avb_1722_listener_support_audio.c:147-154 | every connected FIFO is stamped once, also if channels share it, and no other |
| AudioPath.PayloadWordAt | lib_tsn/src/1722/avb_1722_talker_support_audio.c:187-192 | frame k, channel c is word k * channels + c of the payload |
| AudioPath.StridedReadsChannel | lib_tsn/src/audio_buffering/audio_output_fifo.c:168-206 | the strided read gives one channel's samples in order, to 24 bits |
| AudioPath.ChannelArrives | lib_tsn/src/audio_buffering/audio_output_fifo.c:168-206 | a FIFO that is not zeroing and has room holds the channel's samples behind what it held |
| AudioPath.EndToEnd | lib_tsn/src/1722/avb_1722_listener_support_audio.c:166-188 | on a locked stream each FIFO that is not zeroing and has room gets exactly the samples of the channels mapped to it, channel by channel |
| AudioPath.OnlyChannel | lib_tsn/src/1722/avb_1722_listener_support_audio.c:180-188 | if one channel is mapped to a FIFO, that is its channel's samples |
| AudioPath.PlayoutOfFrame | lib_tsn/src/1722/avb_1722_listener_support_audio.c:125-188 | the playout time recorded beside a presentation time is that of exactly the talker's frame that has this presentation time |
| AudioPath.SizesAreTalkerSizes | lib_tsn/src/1722/avb_1722_talker_support_audio.c:177-182 | the packet sizes of any talker are ones the listener locks onto |
| AudioPath.LocksOntoTalker | lib_tsn/src/1722/avb_1722_listener_support_audio.c:68-123 | for any fraction and wherever the listener joins, seventeen packets lock it onto the talker |
| AudioPath.LocksAtTalkerRate | lib_tsn/src/1722/avb_1722_talker.xc:58-74 | for the accepted rates, the lock ends at the talker's rate exactly unless it is 176.4 kHz, and a carry is lost exactly at 44.1 kHz |
| Talker.NominalSizes | lib_tsn/src/1722/avb_1722_talker.xc:72-74 | base packet size and fraction of every rate in numbers |
| Talker.PacketFitsInterval | lib_tsn/src/1722/avb_1722_talker.xc:58-74 | at every rate no packet of a run holds more frames than one SYT interval |
| Talker.HeaderFormat | lib_tsn/src/1722/avb_1722_talker_support_audio.c:74-148 | the header of every packet in numbers |
| Talker.LabelNumbers | lib_tsn/src/1722/avb_1722_talker_support_audio.c:86-105 | the sample labels in numbers; an unknown sample type counts as 24 bits |
| FlashPages.FaithfulIff | lib_tsn/src/1722_1/avb_1722_1_aecp.c:880-920 | an accepted write extends the image by its data, and the address stays in step, if and only if carried bytes and length make up a page |
| FlashPages.ShortWrite | lib_tsn/src/1722_1/avb_1722_1_aecp.c:884-891 | ten bytes to a fresh device write a page and put the address out of step |
| FlashPages.UpgradeCorrect | lib_tsn/src/1722_1/avb_1722_1_aecp.c:872-920 | over any run of commands, flash and carry buffer are the accepted data in order if and only if every accepted write made up a page |
| FlashPages.Refusals | lib_tsn/src/1722_1/avb_1722_1_aecp.c:872-880 | a command that is not a single write, or not to the expected address, gets the status for that and changes nothing; any other is accepted |
| FlashPages.AcceptsInOrder | lib_tsn/src/1722_1/avb_1722_1_aecp.c:872-916 | over any run, the data accepted is that of the single writes that each begin where the ones before end |
| FlashPages.AcceptedIff | lib_tsn/src/1722_1/avb_1722_1_aecp.c:875-879 | in any run from a fresh device a single write is accepted if and only if its address is the number of bytes accepted before it |
| FlashPages.UpgradeInOrder | lib_tsn/src/1722_1/avb_1722_1_aecp.c:872-916 | flash and carry buffer hold exactly the data of the writes in order if and only if each of them makes up a page with what was carried over |
| FlashPages.AddressInStep | lib_tsn/src/1722_1/avb_1722_1_aecp.c:919-920 | in such a run the expected address is the number of bytes received and whole pages are in the flash |
| FlashPages.Upgrade.WritePage | lib_tsn/src/1722_1/avb_1722_1_aecp.c:887-890 | pages go to consecutive addresses |
| FlashPages.Upgrade.Round | lib_tsn/src/1722_1/avb_1722_1_aecp.c:884-917 | one round of the loop moves bytes of the message behind those already held, and comes nearer to the end |
| FlashPages.Upgrade.Reblock | lib_tsn/src/1722_1/avb_1722_1_aecp.c:881-917 | the loop ends with the message consumed and less than a page carried over |
| FlashPages.Upgrade.AddressAccess | lib_tsn/src/1722_1/avb_1722_1_aecp.c:856-932 | status and new state of every command, whatever its length field; a refused one changes nothing |
| AcmpTable.AddIsInsert | lib_tsn/src/1722_1/avb_1722_1_acmp.c:545-571 | connecting is insertion into a bounded set: idempotent, ignored when full |
| AcmpTable.RemoveIsDelete | lib_tsn/src/1722_1/avb_1722_1_acmp.c:573-593 | disconnecting is removal from that set |
| AcmpTable.TableIsSet | lib_tsn/src/1722_1/avb_1722_1_acmp.c:545-593 | over any run the table is the bounded set and the counter its size, between zero and the maximum |
| AcmpTable.AddKeepsIff | lib_tsn/src/1722_1/avb_1722_1_acmp.c:561-570 | with any GUID, connecting keeps table and counter consistent exactly unless a zero GUID with non-zero unique id meets a free slot |
| AcmpTable.ZeroGuidCounted | lib_tsn/src/1722_1/avb_1722_1_acmp.c:561-570 | connecting a zero GUID to an empty table counts one and occupies no slot |
| AcmpTable.RemoveKeepsIff | lib_tsn/src/1722_1/avb_1722_1_acmp.c:578-592 | disconnecting exactly unless both ids are zero and there is a free slot |
| AcmpTable.NobodyDisconnected | lib_tsn/src/1722_1/avb_1722_1_acmp.c:578-592 | disconnecting the zero pair from an empty table counts below zero |
| AcmpTable.OneIndex | lib_tsn/src/1722_1/avb_1722_1_acmp.c:520-543 | each connected listener answers at exactly one index |
| AcmpTable.TalkerConnections.constructor | lib_tsn/src/1722_1/avb_1722_1_acmp_pdu.h:81-86 | a table without listeners |
| AcmpTable.TalkerConnections.AddListener | lib_tsn/src/1722_1/avb_1722_1_acmp.c:545-571 | both scans, against the table function |
| AcmpTable.TalkerConnections.RemoveListener | lib_tsn/src/1722_1/avb_1722_1_acmp.c:573-593 | the scan, against the table function |
| AcmpTable.TalkerConnections.GetConnection | lib_tsn/src/1722_1/avb_1722_1_acmp.c:520-543 | succeeds exactly on occupied slots, with a connected listener |
| StreamTable.AddIdKeeps | lib_tsn/src/srp/avb_srp.c:125-140 | adding keeps non-zero ids unique and changes one entry, free or with that id |
| StreamTable.AddReservationKeeps | lib_tsn/src/srp/avb_srp.c:142-163 | the same for a full reservation |
| StreamTable.RemoveKeeps | lib_tsn/src/srp/avb_srp.c:165-175 | removing an id that is there does not trap, takes exactly it out and keeps ids unique |
| StreamTable.SearchesCover | lib_tsn/src/srp/avb_srp.c:188-198 | the four searches succeed if and only if a talker or listener attribute on any port, disabled or not, carries the id |
| StreamTable.CleanupSafe | lib_tsn/src/srp/avb_srp.c:177-210 | cleanup does not trap, leaves every live attribute on its own id, and leaves the id in the table if and only if it is still carried |
| StreamTable.NoDangling | lib_tsn/src/srp/avb_srp.c:109-210 | no run traps, and after any run each talker or listener attribute in use reads the id it was made for |
| StreamTable.ReservationStored | lib_tsn/src/srp/avb_srp.c:142-163 | a talker's reservation stores its details, keeps listener and failure, and touches no other stream; it fails exactly if the stream is new and the table full |
| StreamTable.ListenerStored | lib_tsn/src/srp/avb_srp.c:126-140 | a listener's wish keeps what a talker said and forgets anything else |
| StreamTable.ReservationRemoved | lib_tsn/src/srp/avb_srp.c:165-175 | a removal forgets exactly one stream |
| StreamTable.StepTable | lib_tsn/src/srp/avb_srp.c:126-211 | every step of every run on the table as a map from stream ids: what is known of a stream changes only by additions for it, its talker's type and the cleanup of its last attribute |
| StreamTable.RetiresWhat | lib_tsn/src/srp/avb_srp.c:177-187 | which attributes a cleanup makes unused, by owner, kind and number of ports |
| StreamTable.KindsSplit | lib_tsn/src/srp/avb_srp.c:189-195 | the searches for a counterpart and for the same kind divide the stream attributes between them |
| StreamTable.AddKeepsIff | lib_tsn/src/srp/avb_srp.c:109-163 | with zero ids allowed, adding for a listener or a talker keeps all attributes on their ids exactly unless it takes a free entry that one still points at |
| StreamTable.ZeroIdLost | lib_tsn/src/srp/avb_srp.c:109-140 | a listener made for stream id 0 reads stream id 5 after the next is made |
| StreamTable.RemovalRetires | lib_tsn/src/srp/avb_mrp.c:482-485 | the removal at the end of a transmission is the retirement of the cleanup |
| StreamTable.ReservationTable.constructor | lib_tsn/src/srp/avb_srp.c:25-33 | an empty table with unused attributes |
| StreamTable.ReservationTable.MatchEntry | lib_tsn/src/srp/avb_srp.c:109-123 | the first entry with the id, else the last free one, else -1 |
| StreamTable.ReservationTable.AddStreamIdOnly | lib_tsn/src/srp/avb_srp.c:125-140 | the entry and the table after it, or none when full |
| StreamTable.ReservationTable.AddReservationEntry | lib_tsn/src/srp/avb_srp.c:142-163 | the entry and the table after it, or none when full |
| StreamTable.ReservationTable.RemoveReservationEntry | lib_tsn/src/srp/avb_srp.c:165-175 | clears the entry; traps exactly if there is none and none is free |
| StreamTable.ReservationTable.MatchPair | lib_tsn/src/srp/avb_mrp.c:1328-1357 | finds an attribute of the opposite kind exactly if there is one |
| StreamTable.ReservationTable.MatchSame | lib_tsn/src/srp/avb_mrp.c:1265-1292 | finds an attribute of the same kind exactly if there is one |
| StreamTable.ReservationTable.CleanupEntry | lib_tsn/src/srp/avb_srp.c:177-210 | the code against the cleanup function, with its trap cases and result, for one and two ports |

## Left out

- MMRP attributes, the propagation between two ports (`avb_srp_map_join`, `avb_srp_map_leave`) and
  port bandwidth: with the shipped port count none of it is reached.
- The order of pending indications in `mrp_periodic`, and what the join and leave indications do
  beyond the attribute: they call into other components.
- Ethernet addresses, VLAN id and the periodic timers' lengths: a timer is an active flag, sending
  appends to a list of frames.
- MrpSender.SendBuffer.DoTx: takes room for the value in a new message, and fewer than 255 values in
  the vector it joins, as preconditions; the code does not check them.
- MrpSender.SendBuffer.Encode: the same preconditions.
- MrpSender.SendBuffer.AddLeaveAll: takes room for the message as a precondition.
- JoinTick.Tick: takes it that each message of the tick has room in the buffer when its turn comes,
  which `JoinTick.SmallItemsFit` shows for ticks without talkers.
- MrpLink.CalmIsRegistered: takes it that no frame is lost and that the other participant is not
  restarted.
- MrpFormat.ConcernsItsOwn: what a match stores in the attribute besides (reservation details, failure)
  is not modelled.
- MrpParser.ProcessPacket: takes the receive buffer to extend 34 bytes beyond the frame, so that
  reads of a truncated message stay inside it.
- Listener.ListenerStream.ProcessPacket: takes the memory it is given to reach as far as the length
  field says, which the code compares with nothing.
- AttrList.AttributeList.SortAttrs: takes the comparator as a fixed function; in the code it reads
  attribute fields that the reordering leaves alone.
- The volume control of the FIFO, an optional build.
- The conversion from local time to PTP time is a parameter of `Talker.TalkerStream.CreatePacket`.
- The SYT interval is used as a divisor; for the powers of two that are configured this is the
  source's bit mask.
- OutputFifo.QueueCorrect: the steps of the two threads are sequentially consistent but for the
  pointer loads, which may be old. Enabling a FIFO while a pull is in progress is not covered, as it
  moves the read pointer under the audio thread.
- OutputFifo.MarkerCorrect: setting a stamp and freeing the marker are single steps.
- Failures of the flash library and the response packets of AECP.
- ACMP's state machines, AECP beyond address access, ADP, MAAP, gPTP and the media clock: they are
  tasks around I/O, or need a model of outside hardware.
