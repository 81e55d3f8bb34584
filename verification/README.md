# Fleetspeak bookkeeping

Fleetspeak moves messages between clients and servers at least once, over connections that may die at any
point. This project models the bookkeeping that makes this safe, and proves what it guarantees over every
run, for every interleaving and every point of failure.

| file | component |
|---|---|
| `Relentless.dfy` | RelentlessChannel and RelentlessAcknowledger over failing channels |
| `Framing.dfy` | the wire format of the channels beneath them |
| `RetryLoop.dfy` | the client's bounded retry loop |
| `Ledger.dfy` | the contract of MessageInfo: exactly one Ack or Nack |
| `StreamClient.dfy`, `StreamConnection.dfy` | the streaming communicator: as a state machine, and its connection object in place |
| `StreamWire.dfy` | batches and acks between the streaming client and the concurrent server |
| `StreamSession.dfy` | both together, over any number of connections |
| `ClientDelivery.dfy` | the retry loop, the SortLoop and the streaming communicator together, up to Client.Stop |
| `Polling.dfy`, `PollFlush.dfy` | the polling communicator; its Flush and Reset |
| `FlowControl.dfy`, `MessageTokens.dfy` | message tokens end to end for one service, and the token maps of client and server |
| `Broadcasts.dfy` | broadcast limits, allocations and sent counts |
| `MessageStore.dfy`, `MessageLife.dfy` | the message tables: operations, and the life cycle over runs |
| `ContactHistory.dfy`, `HistorySummary.dfy` | contact history analysis: what the counters mean, and the code that computes them |
| `Xfcc.dfy` | the X-Forwarded-Client-Cert parser |
| `Sums.dfy`, `Sequences.dfy`, `Options.dfy`, `Thresholds.dfy` | sums, sequences without repetition, optional values, limits of the communicators |

`dafny verify dfyconfig.toml` checks everything.

Concurrent code is a state machine: a step is what one goroutine does between two channel or lock
operations, `Enabled` says when it can happen, and a run is any sequence of enabled steps (`Valid`, `Run`).
Code that updates an object in place is a class whose methods are proved against the steps or against
specification functions. What the network, the clock and the scheduler do is a parameter or a free choice.
Where a property that one might expect fails, there is a witness run and the exact condition under which it
holds.

Where the code and its documentation or evident intent differ, the model follows the code:

- The message limit L of a broadcast is not a cap. The allocation uses the larger of `allocated` and `sent`,
  while a cleanup moves counts from one to the other, so up to 2L-1 clients can be reached
  (`Broadcasts.ReachBound`, `BoundIsTight`, `CapKeptIff`, `GuardedReach`).
- A streaming ack does not mean that the batch acked was processed. The client ignores the value of
  AckIndex, the server sends nothing for a failed batch, and the goroutine that will send AckIndex n
  processes whichever batch is first in the queue (`StreamWire.FailedBatchIsAcked`,
  `AckIndexNamesAnotherBatch`; `AckedProcessedIff` and `AcksExactIff` give the exact conditions). What an ack does
  guarantee is that a server read the batch in full (`StreamSession.AckedWasRead`).
- The Ack of a service's message means that a server read it, but for one case: Client.Stop acks whatever has not
  been taken by the communicator (`ClientDelivery.AckMeansRead`, `DrainedUnread`, `AckMeansReadIff`). And its
  draining does not reach messages that are still in a retry loop's nack queue when the loop returns
  (`NackedLeftBehind`, `FinishedAcks`).
- Flush of the polling communicator can return nil although messages that were waiting were not delivered
  (`PollFlush.NilUndelivered`, `FlushNil`), and a Reset can leave it waiting for a channel that nobody closes
  (`ResetOrphans`, `FlushReturnsIff`).
- RelentlessChannel forgets a pending message when another one is accepted under the same id
  (`Relentless.SameIdLoses`, `NothingLostIff`).
- Contact histories with a sent nonce 0 before the last contact can have more splits than skips
  (`ContactHistory.ZeroNonceSplits`, `NonzeroNoncesExactly`).
- The first token grant of a connection is right only because no inbox put is under way then
  (`FlowControl.FirstGrantExactly`), and the server's token sums only keep what was there if they do not wrap
  around, which holds for every client that grants as the model's client does
  (`MessageTokens.PlusKeepsIff`, `FlowControl.NoWrap`).
- Summarize takes timestamps that lie a multiple of 2^64 ns apart for duplicates, because UnixNano wraps around
  (`ContactHistory.NanosWrap`, `DistinctNanosIff`, `DistinctInRange`).
- extractField does not stop at the end of the first certificate: `,` and `;` are treated alike
  (`Xfcc.SecondCertFound`, `FirstCertIff`).

## Model

| member | source | states |
|---|---|---|
| Relentless.AckedOrPending | fleetspeak/src/client/channel/relentless.go:79-198 | In every run, with any number of channel failures: a message accepted is pending, was acked exactly once, or was overwritten while pending, and only one of these. |
| Relentless.NothingLostIff | fleetspeak/src/client/channel/relentless.go:108-116 | Every message accepted is pending or acked exactly when no message is accepted with the id of one that is pending at that moment. |
| Relentless.LostExactly | fleetspeak/src/client/channel/relentless.go:112-112 | A step loses a message exactly when it accepts another one under the id of that pending message. |
| Relentless.SameIdLoses | fleetspeak/src/client/channel/relentless.go:112-112 | Witness: a run in which a message accepted under a pending id replaces it, so that its Ack can never be called. |
| Relentless.DistinctLosesNothing | fleetspeak/src/client/channel/relentless.go:79-198 | With distinct source ids every message accepted is pending or acked once. |
| Relentless.AckedAfterFarAck | fleetspeak/src/client/channel/relentless.go:174-198 | Ack runs on a message only after Ack ran for its id on the far side, which had received the id from this side (or from a predecessor process). |
| Relentless.OldBeforeNew | fleetspeak/src/client/channel/relentless.go:91-116 | When a newly accepted message is about to be sent, every message that was pending when the channel was built has been acked or sent again on this channel, and so has every other pending message. |
| Relentless.SentOnChannel | fleetspeak/src/client/channel/relentless.go:155-172 | What counts as sent on a channel is on it or has been received over it, and nothing else. |
| Relentless.EndedIff | fleetspeak/src/client/channel/relentless.go:83-104 | The loop has ended exactly if the builder returned nothing or the output was closed. |
| Relentless.DrainedEpoch | fleetspeak/src/client/channel/relentless.go:235-303 | With distinct ids, once no ack is under way on a channel, every message that the far side acked over it has been acked here exactly once. |
| Relentless.CanAckAll | fleetspeak/src/client/channel/relentless.go:79-303 | From every reachable state in which the loop has not ended, whatever has failed so far, it can still happen that every message accepted and not overwritten is acked and the loop is ready for new ones. |
| Relentless.CanDeliver | fleetspeak/src/client/channel/relentless.go:79-303 | ... and that a new message is accepted, sent and acked, and the loop shut down. |
| Relentless.StepPipe | fleetspeak/src/client/channel/relentless.go:235-303 | Every step keeps the balance of acks: called on the far side = queued + gathered + in LocalAck messages under way + handled, as multisets. |
| Relentless.StepEpoch | fleetspeak/src/client/channel/relentless.go:83-117 | Every step keeps: what is pending has been sent on this channel or is still to be sent by the resend loop. |
| Relentless.RunInv | fleetspeak/src/client/channel/relentless.go:79-303 | All invariants of both sides hold after every run. |
| Relentless.ProcessEffect | fleetspeak/src/client/channel/relentless.go:174-198 | processAck removes exactly the listed ids from pending and calls Ack once on exactly the messages removed, whatever duplicates or unknown ids the list has. |
| Relentless.RelentlessChannel.ProcessAck | fleetspeak/src/client/channel/relentless.go:183-196 | The loop over the ids computes the specified new pending map and sequence of Ack calls. |
| Relentless.RelentlessChannel.SendOne | fleetspeak/src/client/channel/relentless.go:155-172 | Handles exactly the acks that arrive before the channel takes the message, writes the message once, and gives up exactly when the channel fails first. |
| Relentless.RelentlessChannel.Resend | fleetspeak/src/client/channel/relentless.go:91-97 | Handles exactly the acks that arrive meanwhile and writes each message at most once, in whatever order the map is visited; unless the channel fails before, everything still pending at the end has been written, and it fails only with a message unwritten. |
| Relentless.RelentlessChannel.SendAccepted | fleetspeak/src/client/channel/relentless.go:100-116 | A message accepted is recorded under its id before it is sent, with the acks that arrive meanwhile handled. |
| Relentless.RelentlessAcknowledger.Flush | fleetspeak/src/client/channel/relentless.go:235-260 | Sends the gathered ids as one message and never an empty one; when stopped first it keeps them; nothing is lost either way. |
| Relentless.RelentlessAcknowledger.AcknowledgeLoop | fleetspeak/src/client/channel/relentless.go:262-303 | Over any sequence of signals, the ids sent, gathered and queued are the Ack calls made, in order; only those are left queued that the loop has not come to, and the last flush keeps ids only if it is stopped. |
| Framing.Le32Inverse | fleetspeak/src/client/channel/channel.go:34-51 | Decoding a little-endian uint32 undoes encoding it. |
| Framing.FromLe32Inverse | fleetspeak/src/client/channel/channel.go:34-51 | ... and the converse, for all four-byte strings. |
| Framing.LeastFirst | fleetspeak/src/client/channel/channel.go:34-51 | The least significant byte comes first. |
| Framing.WriteLoop | fleetspeak/src/client/channel/channel.go:205-243 | The bytes written are a magic number and, for each message that fits, its size, its bytes and another magic number; overlarge messages are left out. |
| Framing.ReadLoop | fleetspeak/src/client/channel/channel.go:146-203 | The loop yields the messages and the error that the recursive reader specifies; the write loop is released exactly when the input starts with the magic number. |
| Framing.ReadTurn | fleetspeak/src/client/channel/channel.go:156-202 | One turn of the loop: either it stops with the specified error, or it consumes exactly one frame. |
| Framing.ReadOneSound | fleetspeak/src/client/channel/channel.go:156-202 | A turn yields a message only from exactly its frame, and stops without an error exactly when nothing follows the magic number. |
| Framing.ReadOneComplete | fleetspeak/src/client/channel/channel.go:156-202 | Every frame of a message that fits and parses is read as that message. |
| Framing.RoundTrip | fleetspeak/src/client/channel/channel.go:146-243 | Reading what was written yields exactly the messages of size at most maxSize, in order, without an error. |
| Framing.ReadIsSound | fleetspeak/src/client/channel/channel.go:146-203 | For arbitrary bytes, whatever is read fits and parses, and without an error the bytes are the stream of what was read. |
| Framing.CleanIffStream | fleetspeak/src/client/channel/channel.go:146-243 | The inputs read without an error are exactly the streams the writer produces. |
| Framing.CutYieldsPrefix | fleetspeak/src/client/channel/channel.go:146-203 | Cutting any input short only loses messages at the end. |
| Framing.Truncation | fleetspeak/src/client/channel/channel.go:146-243 | A truncated stream yields a prefix of the messages, and no error exactly when the cut falls right after a magic number. |
| StreamClient.ExactlyOnce | fleetspeak/src/client/comms/comms.go:59-67 | Over every interleaving of connect, writeLoop, readLoop and teardown and any number of connections: a message taken is held and uncalled, or exactly one of Ack and Nack has been called, once; between connections that is so for all messages. |
| StreamClient.HeldOrSettled | fleetspeak/src/client/comms/comms.go:59-67 | A message is in one of the client's lists exactly when neither call was made, and never were both. |
| StreamClient.CleanShutdown | fleetspeak/src/client/https/streaming.go:642-678 | When readLoop returned having seen writingDone and an empty pending map, the teardown has nothing to nack and every message has been settled. |
| StreamClient.OrderlyShutdown | fleetspeak/src/client/https/streaming.go:642-678 | As long as nothing fails and nobody ends the connection, no message is given back, and once writing is done readLoop returns exactly when nothing is pending. |
| StreamClient.BothReturn | fleetspeak/src/client/https/streaming.go:533-545 | When one of the two loops has returned the connection has ended, and the other one can return without waiting for the server. |
| StreamClient.CanDeliver | fleetspeak/src/client/https/streaming.go:533-687 | From every reachable state it can still happen that every message taken is settled and another one is taken, sent and acked. |
| StreamClient.CanShutDown | fleetspeak/src/client/https/streaming.go:642-678 | From every reachable state it can still happen that DoneSending arrives while a batch is under way, the batch is acked all the same, and the connection ends with nothing given back. |
| StreamClient.BatchesFit | fleetspeak/src/client/https/streaming.go:486-531 | No batch has more messages than a contact may carry. |
| StreamClient.StepBooks | fleetspeak/src/client/https/streaming.go:533-687 | Every step keeps the ledger: each message is in exactly one of toSend, the group, one pending batch, the hand of readLoop, acked, nacked. |
| StreamClient.StepControl | fleetspeak/src/client/https/streaming.go:533-687 | Every step keeps the control invariant: pending keys below the write counter, writingDone seen only when closed, nothing held between connections. |
| StreamClient.RunInv | fleetspeak/src/client/https/streaming.go:260-270 | Both hold in every reachable state. |
| StreamConnection.Threshold | fleetspeak/src/client/https/streaming.go:510-518 | The byte threshold is half the general one, or the ten-second rate clamped between the minimum and that. |
| StreamConnection.Connection.constructor | fleetspeak/src/client/https/streaming.go:439-451 | A connection starts with the messages of the initial exchange acked, nothing pending and both counters at 1. |
| StreamConnection.Connection.GroupMessages | fleetspeak/src/client/https/streaming.go:486-531 | Takes the shortest nonempty prefix of what arrives that fills a group by bytes or count, or everything if none does. |
| StreamConnection.Connection.RecordGroup | fleetspeak/src/client/https/streaming.go:546-565 | A nonempty group is recorded under the next number before it is written; a beacon uses up a number with nothing pending. |
| StreamConnection.Connection.PopBatch | fleetspeak/src/client/https/streaming.go:658-663 | An ack removes the batch that readLoop's own counter names, whatever its AckIndex says. |
| StreamConnection.Connection.HandleAck | fleetspeak/src/client/https/streaming.go:658-678 | Acks exactly the messages of that batch and returns exactly when writing is done and nothing is pending any more. |
| StreamConnection.Connection.Teardown | fleetspeak/src/client/https/streaming.go:266-270 | After nacking what is pending, every message taken has had exactly one call. |
| StreamWire.AckAccounting | fleetspeak/src/server/https/streaming_message_server.go:300-346 | Always: acks received by the client <= different batches processed <= batches read <= batches written; and the acks received stand for different batches, all of them processed. |
| StreamWire.OneStage | fleetspeak/src/server/https/streaming_message_server.go:300-346 | Every batch read is in exactly one stage, once: in the queue, with one worker, failed, or processed. |
| StreamWire.DrainedAcksAll | fleetspeak/src/server/https/streaming_message_server.go:333-342 | When nothing is under way, each batch was either processed or failed, and all but as many as failed have been acked; without failures, all. |
| StreamWire.StepInv | fleetspeak/src/server/https/streaming_message_server.go:300-346 | Every step keeps every batch in exactly one stage, every worker with its own number and every ack backed by a processed batch of its own. |
| StreamWire.RunInv | fleetspeak/src/server/https/streaming_message_server.go:300-346 | ... in every reachable state. |
| StreamWire.AckedProcessedIff | fleetspeak/src/client/https/streaming.go:658-673 | Every batch that the client acks was processed, at every moment and whenever the acks sent arrive, exactly when the server sends no ack while one of the batches up to the number of that ack is queued, in work or failed. |
| StreamWire.IndexIsCounterIff | fleetspeak/src/server/https/streaming_message_server.go:325-342 | AckIndex always equals the client's counter exactly when the acks are sent in order, however far the server reads ahead. |
| StreamWire.IndexNamesBatchIff | fleetspeak/src/server/https/streaming_message_server.go:333-342 | AckIndex always names the batch processed exactly when every sender took the batch that it was started for. |
| StreamWire.AcksExactIff | fleetspeak/src/server/https/streaming_message_server.go:333-342 | The k-th ack is that of worker k for batch k, for all k, exactly when both hold. |
| StreamWire.InOrderIsExact | fleetspeak/src/server/https/streaming_message_server.go:304-342 | In-order, failure-free processing (workers take their own batches, finish when no earlier one is queued or in work, and the first that has finished sends; side by side and with read-ahead) puts the acks in order: every AckIndex equals the client's counter and names the batch processed, and every batch acked was processed. |
| StreamWire.AloneIsInOrder | fleetspeak/src/server/https/streaming_message_server.go:333-342 | Processing one batch at a time without failures is in-order processing. |
| StreamWire.OutOfOrderYetProcessed | fleetspeak/src/server/https/streaming_message_server.go:333-342 | Witness: the ack for batch 2 is sent first, and yet every batch acked was processed. |
| StreamWire.FailedBatchIsAcked | fleetspeak/src/server/https/streaming_message_server.go:336-341 | Witness: batch 1 fails, batch 2 succeeds, and the client acks batch 1. |
| StreamWire.AckIndexNamesAnotherBatch | fleetspeak/src/server/https/streaming_message_server.go:325-342 | Witness: the goroutine started for batch 2 processes batch 1 and acks it as 2. |
| StreamSession.RunInv | fleetspeak/src/server/https/streaming_message_server.go:300-346 | Client and server together: in every reachable state both sides count the same batches, pending holds what was numbered, and what was acked had been read, whichever side of the connection breaks. |
| StreamSession.AckedWasRead | fleetspeak/src/client/https/streaming.go:658-673 | A message is acked only after a server has read the contact that carries it in full, and has then had exactly one call. |
| StreamSession.NothingLost | fleetspeak/src/client/comms/comms.go:59-67 | Every message taken was read by a server, or given back to the retry loop, or is still held. |
| StreamSession.BatchAckedIff | fleetspeak/src/client/https/streaming.go:658-673 | The messages of a batch are acked exactly when as many acks have arrived as its number; the others are pending until both loops have returned, and then given back. |
| StreamSession.BatchReadIff | fleetspeak/src/server/https/streaming_message_server.go:310-328 | The messages of a batch count as read exactly when the server has read as many batches, so that an ack before that cannot be explained away. |
| StreamSession.EndToEnd | fleetspeak/src/server/https/streaming_message_server.go:300-346 | A run in which a message is taken, written, read, processed and acked, and DoneSending arrives. |
| StreamSession.NeverRefused | fleetspeak/src/server/https/streaming_message_server.go:441-539 | In every reachable state the two sides agree on what can happen next; DoneSending arrives at most once per connection, so that readLoop never closes serverDone twice. |
| ClientDelivery.AckMeansRead | fleetspeak/src/client/comms/comms.go:59-67 | Retry loop, SortLoop and streaming communicator together, through any number of retries and connections and a shutdown at any point: the Ack of a message given to the client runs at most once, and only after a server has read a contact that carries it in full, or because Client.Stop drained it, which happens only once the communicator is stopped; until then the message is on offer, given away or waiting to be offered again. |
| ClientDelivery.AckMeansReadIff | fleetspeak/src/client/client.go:275-298 | At every moment an Ack means that a server has read the message, exactly when Client.Stop drains only messages that a server has read before. |
| ClientDelivery.DrainedUnread | fleetspeak/src/client/client.go:288-298 | Witness: a message that waits in the SortLoop when the client is stopped is acked although no server has read it. |
| ClientDelivery.ShutdownBound | fleetspeak/src/client/client.go:275-315 | After the input was closed the client takes at most a number of steps that can be read off its state, however they are chosen. |
| ClientDelivery.NeverStuck | fleetspeak/src/client/client.go:275-315 | ... and some step is always possible until the retry loop has returned and the SortLoop is empty, even if the loop is full when its input is closed; so the shutdown ends. |
| ClientDelivery.FinishedAcks | fleetspeak/src/client/client.go:303-315 | Then every message that the loop has read was acked, except exactly those left in its nack queue when it returned. |
| ClientDelivery.NackedLeftBehind | fleetspeak/src/client/internal/message/retry.go:68-78 | Witness: a nacked message that the loop, returning, does not offer again, so that its Ack is never called. |
| ClientDelivery.NeverRefused | fleetspeak/src/client/internal/message/retry.go:45-57 | Whenever the communicator or Client.Stop decides for a callback, the retry loop is prepared for it. |
| ClientDelivery.RunInv | fleetspeak/src/client/internal/message/sort.go:26-120 | In every reachable state what the retry loop has given away is in the SortLoop, or with the communicator and not called back. |
| RetryLoop.ExactlyOnePlace | fleetspeak/src/client/internal/message/retry.go:39-86 | In every reachable state a message read is in exactly one of: on offer, held by the communicator, ack queue, nack queue, released; its Ack ran at most once, exactly when it is in the ack queue or released. |
| RetryLoop.Accounting | fleetspeak/src/client/internal/message/retry.go:59-85 | count and size are the number and total size of the messages in those places, and count never exceeds maxCount. |
| RetryLoop.SizeBound | fleetspeak/src/client/internal/message/retry.go:62-66 | size exceeds maxSize by less than the largest message. |
| RetryLoop.CallbacksNeverBlock | fleetspeak/src/client/internal/message/retry.go:40-57 | Whenever an Ack or Nack callback can run, both queues have room. |
| RetryLoop.DrainedLoopReads | fleetspeak/src/client/internal/message/retry.go:61-66 | Once nothing is pending, the loop reads input again. |
| RetryLoop.CanAckAll | fleetspeak/src/client/internal/message/retry.go:39-86 | From every reachable state in which the loop has not returned it can still happen that every message read is acked and released, and another one is read, nacked, offered again and acked. |
| RetryLoop.RunInv | fleetspeak/src/client/internal/message/retry.go:39-86 | The conservation invariant holds after every run. |
| RetryLoop.Loop.OptIn | fleetspeak/src/client/internal/message/retry.go:59-66 | Input is looked at exactly while fewer than maxCount messages with less than maxSize bytes in all are pending. |
| RetryLoop.Loop.SelectLoop | fleetspeak/src/client/internal/message/retry.go:39-86 | For every sequence of things that can happen, the loop ends in the state that the specification gives. |
| RetryLoop.Loop.SelectIn | fleetspeak/src/client/internal/message/retry.go:75-83 | Reading a message accounts for it and offers it. |
| RetryLoop.Loop.SelectAck | fleetspeak/src/client/internal/message/retry.go:69-71 | An ack releases the message's size and count. |
| RetryLoop.Loop.SelectNack | fleetspeak/src/client/internal/message/retry.go:72-74 | A nack offers the message again and releases nothing. |
| RetryLoop.Loop.Ack | fleetspeak/src/client/internal/message/retry.go:48-54 | The callback finds room in its queue and moves the message there. |
| RetryLoop.Loop.Nack | fleetspeak/src/client/internal/message/retry.go:55-55 | Likewise. |
| Polling.ExactlyOnce | fleetspeak/src/client/https/polling.go:187-276 | In every reachable state a message taken waits in toSend uncalled or has had exactly one call: Ack if a poll delivered it, otherwise Nack; once the loop has returned, all have. |
| Polling.CalledIff | fleetspeak/src/client/https/polling.go:206-276 | Ack is called on a message exactly when a poll that succeeded carried it, Nack exactly when one that failed did or the loop was stopped while it waited; an arriving message is polled exactly when a threshold is reached, and what waits at a shutdown meets the outcome of one last poll. |
| Polling.Ready | fleetspeak/src/client/https/polling.go:278-345 | The loop can always poll or be stopped, waits for messages exactly below both thresholds, and a poll that succeeds settles everything taken. |
| Polling.Gathered | fleetspeak/src/client/https/polling.go:315-366 | toSend holds the latest messages in order, its size is the sum of their sizes plus two each, and it exceeds neither the count threshold nor the byte threshold by more than its last message. |
| Polling.ResetsKeep | fleetspeak/src/client/https/polling.go:234-241 | However many polls in a row a reset cancels, nothing is called and no message is dropped or reordered. |
| Polling.RunInv | fleetspeak/src/client/https/polling.go:187-276 | The calls made and the messages gathered are, together, the messages taken, in order, after every run. |
| Polling.Communicator.DoPoll | fleetspeak/src/client/https/polling.go:206-276 | A poll that succeeds acks, one that fails nacks, and one that was reset keeps the messages. |
| Polling.Communicator.Receive | fleetspeak/src/client/https/polling.go:346-366 | A message is appended, and polled at once when a threshold is reached. |
| Polling.Communicator.ProcessingLoop | fleetspeak/src/client/https/polling.go:187-368 | For every sequence of choices the loop ends in the state that the specification gives. |
| PollFlush.FlushNil | fleetspeak/src/client/https/polling.go:156-180 | When Flush returns nil, every message that was waiting when it was called has been settled, and all of them were delivered exactly when no poll that carried one of them failed meanwhile. |
| PollFlush.FlushDecides | fleetspeak/src/client/https/polling.go:169-177 | A Flush that wakes up returns nil, returns an error or waits again; it returns an error only while no other poll is under way. |
| PollFlush.FlushReturnsIff | fleetspeak/src/client/https/polling.go:140-180 | While the loop runs, a Flush can still return nil exactly if its channel is closed already, or is the current one, or the poll under way will close it. |
| PollFlush.ResetOrphans | fleetspeak/src/client/https/polling.go:140-154 | Witness: Reset after Flush, while no poll is under way, leaves Flush waiting until it is given up. |
| PollFlush.FlushOfNothing | fleetspeak/src/client/https/polling.go:72-74 | With nothing taken so far Flush returns nil at once. |
| PollFlush.NilUndelivered | fleetspeak/src/client/https/polling.go:165-177 | Witness: the poll that Flush waits for fails, another one succeeds before Flush wakes up, and Flush returns nil. |
| PollFlush.ClosesOnce | fleetspeak/src/client/https/polling.go:206-226 | A poll never closes a channel that is closed already, with Reset replacing pollDone at any point. |
| PollFlush.RunInv | fleetspeak/src/client/https/polling.go:206-226 | In every reachable state pollDone is open while messages wait and the last poll did not fail. |
| FlowControl.NeverOvercommitted | fleetspeak/src/client/comms.go:56-64 | In every reachable state of a connection: server tokens + grants under way + messages under way + messages accepted and not processed <= inboxSize, with lost and reordered contacts and any number of connections. |
| FlowControl.DeliveryNeverBlocks | fleetspeak/src/client/services.go:47-66 | The inbox has room for all charged messages under way: delivering one never blocks. |
| FlowControl.NeverFatal | fleetspeak/src/server/comms/comms.go:102-114 | What the server spends after reading its tokens it still has, with grants added in between. |
| FlowControl.NoWrap | fleetspeak/src/server/comms/comms.go:97-99 | No grant exceeds inboxSize and adding it does not wrap around. |
| FlowControl.TokensComeBack | fleetspeak/src/client/comms.go:56-64 | When nothing is under way or lost, the server holds a token for every place that the client has reported free. |
| FlowControl.CanFillInbox | fleetspeak/src/client/comms.go:56-64 | From every reachable state, whatever was lost, a new connection can be made on which the client grants its whole inbox, the server spends all these tokens, and the messages fill the inbox. |
| FlowControl.FirstGrantExactly | fleetspeak/src/client/comms.go:59-61 | The first grant is the number of free places exactly when every message put into the inbox has been counted; otherwise it is one too many. |
| FlowControl.SubExact | fleetspeak/src/client/comms.go:60-62 | Differences of uint64 counters are exact across wrap-around. |
| FlowControl.StepInv | fleetspeak/src/client/services.go:187-201 | Every step conserves the tokens of the connection. |
| FlowControl.RunInv | fleetspeak/src/client/services.go:295-302 | ... in every reachable state, with putting, taking and counting as separate steps. |
| MessageTokens.ConnectionInfo.MessageTokens | fleetspeak/src/server/comms/comms.go:71-85 | The copy equals the current tokens, or says that there never were any. |
| MessageTokens.ConnectionInfo.AddMessageTokens | fleetspeak/src/server/comms/comms.go:87-100 | Adds to every service its grant, modulo 2^64. |
| MessageTokens.ConnectionInfo.SubtractMessageTokens | fleetspeak/src/server/comms/comms.go:102-114 | It is fatal exactly when some service has too few tokens; otherwise every service pays what is asked. |
| MessageTokens.ConnectionInfo.FindMessages | fleetspeak/src/server/comms.go:283-309 | With the message store's hand-out and any grants added meanwhile: spending is fatal exactly when these leave some service with too few tokens, never if no sum wraps around, and otherwise the tokens of each service drop by exactly the charged messages found. |
| MessageTokens.CountCharged | fleetspeak/src/server/comms.go:298-304 | Counts the messages per service, leaving out Die messages to the system service. |
| MessageTokens.ChargedAtMost | fleetspeak/src/server/comms.go:276-304 | No service is charged for more than was handed out to it. |
| MessageTokens.ChargedExactly | fleetspeak/src/server/comms.go:276-304 | Exactly Die messages to the system service are free; all others are charged. |
| MessageTokens.Affordable | fleetspeak/src/server/comms.go:289-305 | What the tokens allowed when they were read they still allow after any grants that fit. |
| MessageTokens.PlusKeepsIff | fleetspeak/src/server/comms/comms.go:97-99 | Adding grants leaves every service at least what it had exactly when no sum wraps around. |
| MessageTokens.PerService | fleetspeak/src/server/comms/comms.go:87-114 | Adding and subtracting maps does to each service what the end-to-end state machine does to its one service. |
| MessageTokens.WrapTakesAway | fleetspeak/src/server/comms/comms.go:97-112 | Witness: after a sum that wraps around, a charge that was covered is no longer. |
| MessageTokens.ServiceConfiguration.Counts | fleetspeak/src/client/services.go:185-201 | Both counters of every service. |
| MessageTokens.ServiceConfiguration.MakeContactData | fleetspeak/src/client/comms.go:56-64 | Grants every installed service its free places in the first contact and what it processed since in later ones, and returns the counts to continue from. |
| Broadcasts.ComputeAllocation | fleetspeak/src/server/db/store.go:292-314 | For a finite limit: nothing is allocated exactly when sent or allocated has reached it, and otherwise neither passes it; whatever the float32 product is. |
| Broadcasts.ComputeCleanup | fleetspeak/src/server/db/store.go:320-328 | It fails exactly when a finite allocation is larger than what is allocated, and otherwise takes a finite one off. |
| Broadcasts.ReachBound | fleetspeak/src/server/db/store.go:292-314 | For a finite limit L, in every reachable state allocated <= L and sent + allocated <= 2L-1, and at most 2L-1 clients are reached. |
| Broadcasts.ReachedIff | fleetspeak/src/server/sqlite/broadcaststore.go:260-284 | Over any run a client is reached exactly when a message for it was saved from a live, unexpired allocation with room. |
| Broadcasts.BoundIsTight | fleetspeak/src/server/db/store.go:292-314 | For every finite L some run reaches 2L-1 clients. |
| Broadcasts.CapKeptIff | fleetspeak/src/server/db/store.go:298-312 | An allocation keeps sent + allocated <= L for every fraction asked for exactly when nothing was sent yet or nothing is allocated. |
| Broadcasts.GuardedReach | fleetspeak/src/server/sqlite/broadcaststore.go:404-451 | Runs in which every allocation is made so never exceed L. |
| Broadcasts.Conservation | fleetspeak/src/server/sqlite/broadcaststore.go:229-286 | After any run with honest cleanups, sent plus the counts of live allocations is the number of clients reached, and allocated is the sum of live limits. |
| Broadcasts.NoAccountingError | fleetspeak/src/server/db/store.go:320-328 | Neither the cleanup error nor the saturating branch of disable is reachable. |
| Broadcasts.CleanupBalanced | fleetspeak/src/server/sqlite/broadcaststore.go:453-491 | A cleanup keeps the accounts exactly when it reports the allocation's own count. |
| Broadcasts.DisableBalanced | fleetspeak/src/server/sqlite/broadcaststore.go:181-227 | Disabling moves every live count to the broadcast and leaves nothing allocated. |
| Broadcasts.DisableSaturates | fleetspeak/src/server/sqlite/broadcaststore.go:215-222 | Whatever the tables say, disabling adds the live counts, clears the limit and the allocations and takes allocated down by their limits, not below zero. |
| Broadcasts.DisabledForGood | fleetspeak/src/server/sqlite/broadcaststore.go:181-227 | After a disable no step, including a late cleanup, changes anything: no client is added and nothing is counted twice. |
| Broadcasts.DisabledRefusesUnallocated | fleetspeak/src/server/sqlite/broadcaststore.go:242-253 | A save without an allocation is refused once the broadcast is disabled. |
| Broadcasts.DisableTwice | fleetspeak/src/server/sqlite/broadcaststore.go:182-225 | Disabling twice is disabling once. |
| Broadcasts.CreateBalanced | fleetspeak/src/server/sqlite/broadcaststore.go:404-451 | A new allocation keeps the accounts. |
| Broadcasts.SaveBalanced | fleetspeak/src/server/sqlite/broadcaststore.go:260-284 | A save, refused or not, keeps the accounts. |
| Broadcasts.RunInv | fleetspeak/src/server/sqlite/broadcaststore.go:170-286 | The accounts and the bound hold after every honest run. |
| Broadcasts.Datastore.CreateBroadcast | fleetspeak/src/server/sqlite/broadcaststore.go:108-156 | Inserts a row with nothing sent or allocated, or fails for a known id. |
| Broadcasts.Datastore.NewAllocation | fleetspeak/src/server/sqlite/broadcaststore.go:404-451 | Creates the computed allocation, or leaves the tables alone. |
| Broadcasts.Datastore.SaveBroadcastMessage | fleetspeak/src/server/sqlite/broadcaststore.go:229-286 | Refuses exactly a missing broadcast or allocation, then a full allocation, then an expired one, then a client already reached, and changes nothing then; otherwise records the client and charges the allocation, and nothing else. |
| Broadcasts.Datastore.Cleanup | fleetspeak/src/server/sqlite/broadcaststore.go:453-491 | Folds an allocation into its broadcast; in a balanced state it succeeds. |
| Broadcasts.Datastore.SumAllocations | fleetspeak/src/server/sqlite/broadcaststore.go:183-196 | The loop computes the totals of the live allocations. |
| Broadcasts.Datastore.DisableBroadcasts | fleetspeak/src/server/sqlite/broadcaststore.go:170-227 | Disables exactly the listed broadcasts that exist, however often they are listed. |
| MessageLife.LifeCycle | fleetspeak/src/server/sqlite/messagestore.go:668-752 | After any run: a message has a pending row exactly when its row has no result; it is not handed out again before the clock has passed the retry time of clients, or that of the server for the number of tries so far; its retry count is the number of its hand-outs. |
| MessageLife.RowsKept | fleetspeak/src/server/sqlite/messagestore.go:321-395 | Over every run the destination, the service and, while it is pending, the data of a message are those it was first stored with, and until its first hand-out it is due when it was stored, or one retry time later for broadcasts and on the server. |
| MessageLife.StoreSucceedsIff | fleetspeak/src/server/sqlite/messagestore.go:244-300 | A call succeeds exactly when every message has its creation time or needs no row and is no success; then there are rows for exactly its messages and those there were. |
| MessageLife.DeleteExactly | fleetspeak/src/server/sqlite/messagestore.go:509-544 | Exactly the pending messages of the listed clients get a failed result and lose their pending row; everybody else's stay as they are. |
| MessageLife.ResultIsFinal | fleetspeak/src/server/db/store.go:124-134 | Once a message has a result it keeps one and is never handed out again, in every continuation. |
| MessageLife.RankJoin | fleetspeak/src/server/sqlite/messagestore.go:262-299 | Storing a batch is a join on none < failed < success: the rank of each message becomes the maximum of its rank and those stored for it. |
| MessageLife.RankOrderIndependent | fleetspeak/src/server/sqlite/messagestore.go:262-299 | Within a call the final ranks do not depend on the order of the messages or the time. |
| MessageLife.RankOfCalls | fleetspeak/src/server/sqlite/messagestore.go:244-319 | Over any sequence of calls at their own times the final rank is the maximum of all ranks stored, and no call lowers a rank. |
| MessageLife.CallsOrderIndependent | fleetspeak/src/server/sqlite/messagestore.go:244-319 | The final ranks do not depend on the order of the calls, their grouping or their times. |
| MessageLife.StoreIdempotent | fleetspeak/src/server/db/store.go:124-134 | Storing a batch again, at any time, changes nothing at all. |
| MessageLife.StoreAllView | fleetspeak/src/server/sqlite/messagestore.go:244-319 | The effect of a batch on one message is that of its own entries, whatever else is in the batch. |
| MessageLife.StoreAllConsistent | fleetspeak/src/server/sqlite/messagestore.go:244-319 | Storing keeps pending rows and missing results in step and never removes a result. |
| MessageLife.StepInv | fleetspeak/src/server/sqlite/messagestore.go:509-544 | Every operation keeps the life-cycle invariant and every result. |
| MessageLife.HandOutSpaced | fleetspeak/src/server/sqlite/messagestore.go:728-735 | A hand-out keeps the distance between hand-outs of the same message. |
| MessageLife.HandOutCounts | fleetspeak/src/server/sqlite/messagestore.go:728-735 | A hand-out keeps retry counts equal to the number of hand-outs. |
| MessageStore.Datastore.TrySetMessageResult | fleetspeak/src/server/sqlite/messagestore.go:71-88 | Sets the result and deletes the pending row. |
| MessageStore.Datastore.TryStoreMessage | fleetspeak/src/server/sqlite/messagestore.go:321-395 | Inserts the row and, without a result, the pending row with its first due time; fails without a creation time. |
| MessageStore.Datastore.StoreMessages | fleetspeak/src/server/sqlite/messagestore.go:244-319 | Stores all messages, or none if one fails. |
| MessageStore.Datastore.DeletePendingMessages | fleetspeak/src/server/sqlite/messagestore.go:509-544 | Gives every pending message of the clients a failed result and deletes its pending row, and nothing else. |
| MessageStore.Datastore.MessagesForProcessing | fleetspeak/src/server/sqlite/messagestore.go:668-752 | Returns different due messages only, at most lim and at most the given number per service, leaves a due one behind only when a limit was reached, and reschedules exactly those returned. |
| ContactHistory.SplitsAtMostSkips | fleetspeak/src/admin/history/history.go:173-201 | For accepted histories with nonzero nonces, Splits <= Skips. |
| ContactHistory.SplitsExactly | fleetspeak/src/admin/history/history.go:173-201 | Splits is Skips without those to a nonce that nothing referenced before. |
| ContactHistory.SplitPointsAtMostSplits | fleetspeak/src/admin/history/history.go:173-191 | SplitPoints <= Splits. |
| ContactHistory.NonzeroNoncesExactly | fleetspeak/src/admin/history/history.go:173-201 | For given sent nonces, no client behaviour has more splits than skips exactly when none but possibly the last nonce is 0. |
| ContactHistory.ZeroNonceSplits | fleetspeak/src/admin/history/history.go:176-183 | An earlier nonce 0 gives even a faithful client a split without a skip. |
| ContactHistory.OneMachineCounts | fleetspeak/src/admin/history/history.go:34-51 | One machine with r restores to known nonces, each followed by a contact, has Splits = Skips = r, and as many SplitPoints as images that it was restored from. |
| ContactHistory.SplitPointPerImage | fleetspeak/src/admin/history/history.go:39-46 | The targets referenced more than once are those of the images restored from, one each. |
| ContactHistory.MachineAccepted | fleetspeak/src/admin/history/history.go:106-150 | Every history of one machine meets the conditions on nonces, order and references, and between 1677 and 2262 is accepted. |
| ContactHistory.TsLessIsNanos | fleetspeak/src/admin/history/history.go:69-71 | On valid timestamps the order is that of the nanoseconds since 1970, which differ for different timestamps. |
| ContactHistory.UnixNanoEqualIff | fleetspeak/src/admin/history/history.go:116-118 | The int64 of UnixNano is the same for two timestamps exactly when they lie a multiple of 2^64 ns apart. |
| ContactHistory.DistinctNanosIff | fleetspeak/src/admin/history/history.go:116-121 | No timestamp is taken for a duplicate exactly when no two lie a multiple of 2^64 ns apart. |
| ContactHistory.DistinctInRange | fleetspeak/src/admin/history/history.go:116-121 | Between 1677 and 2262 different timestamps are never taken for duplicates. |
| ContactHistory.NanosWrap | fleetspeak/src/admin/history/history.go:116-120 | Witness: two valid, different timestamps that are taken for duplicates. |
| HistorySummary.Validate | fleetspeak/src/admin/history/history.go:106-132 | Passes exactly the histories with valid timestamps, distinct even as wrapped int64 nanoseconds, and distinct sent nonces. |
| HistorySummary.NonceMap | fleetspeak/src/admin/history/history.go:165-171 | Maps exactly the sent nonces to their contacts. |
| HistorySummary.ValidateTime | fleetspeak/src/admin/history/history.go:134-150 | Passes exactly the histories in which no contact references a nonce sent at its own time or later. |
| HistorySummary.CountSplits | fleetspeak/src/admin/history/history.go:173-191 | The summing loop yields contacts minus distinct targets, and the number of targets referenced more than once. |
| HistorySummary.CountSkips | fleetspeak/src/admin/history/history.go:193-201 | Counts the contacts that do not reference their predecessor. |
| HistorySummary.SortUnique | fleetspeak/src/admin/history/history.go:82-82 | Distinct timestamps leave only one sorted order. |
| HistorySummary.CountIPs | fleetspeak/src/admin/history/history.go:152-163 | Counts the different hosts, ignoring addresses that cannot be parsed. |
| HistorySummary.Summarize | fleetspeak/src/admin/history/history.go:73-104 | Sorts in place, accepts exactly the valid histories, and reports first and last time, count, hosts, splits, split points and skips. |
| Xfcc.XfccParser.Next | fleetspeak/src/server/https/client_certificate.go:132-186 | The in-place loop yields the element and the remaining header that the automaton specifies, for every header. |
| Xfcc.ExtractField | fleetspeak/src/server/https/client_certificate.go:191-204 | Terminates on every header and returns the value of the first element with the key. |
| Xfcc.NextElement | fleetspeak/src/server/https/client_certificate.go:132-186 | An element with a nonempty key shortens the header. |
| Xfcc.NextOfPrinted | fleetspeak/src/server/https/client_certificate.go:132-186 | Next undoes the printing of one element, quoted or bare, before a separator or the end. |
| Xfcc.ParseOfPrint | fleetspeak/src/server/https/client_certificate.go:191-204 | Parsing undoes printing for any values, separators and quoting. |
| Xfcc.ExtractOfPrint | fleetspeak/src/server/https/client_certificate.go:191-204 | On a printed header extractField finds the first value with the key. |
| Xfcc.LookupFirst | fleetspeak/src/server/https/client_certificate.go:195-203 | First means at the least index. |
| Xfcc.LookupAbsent | fleetspeak/src/server/https/client_certificate.go:197-199 | Without the key the result is empty. |
| Xfcc.FirstCertIff | fleetspeak/src/server/https/client_certificate.go:188-204 | The result is that of the first certificate exactly when this one has the field, or the others have none or an empty one. |
| Xfcc.SecondCertFound | fleetspeak/src/server/https/client_certificate.go:154-158 | Witness: in Hash=a,Cert=b the Cert found is that of the second certificate. |

## Left out

- TLS, certificates, HTTP, compression, protobuf encoding and signatures: messages are opaque values with a size, and marshalling is a function with an inverse.
- SQL text, drivers and the retry of transactions: tables are maps, a transaction is one step and is rolled back on error.
- The MySQL and Spanner stores: they repeat the logic of the sqlite store.
- SetBroadcastLimit: its statement is not a valid UPDATE, so a limit stays fixed until the broadcast is disabled.
- Unlimited broadcasts and saves without an allocation, except that these are refused once the limit is 0: their count is kept by the broadcast manager, which is not part of this model.
- Service restarts, messages a client sends to itself and the system service's own inbox: they are outside the token discipline.
- Broadcast, rekey and Die messages in the token model: they are not charged.
- LinkMessagesToContact and contact records: they only attach ids.
- MessageLife.RankJoin: is about StoreMessages only; SetMessageResult overwrites a result unconditionally by design.
- MessageStore.Datastore.MessagesForProcessing: the order in which the database returns the rows is arbitrary, and the clock is read once per call.
- HistorySummary.Summarize: the sorting library is replaced by an insertion sort, which by HistorySummary.SortUnique yields the same array, and the parsing of an address is given with the contact.
- Broadcasts.ComputeAllocation: the truncated float32 product is an arbitrary number.
- ClientDelivery.RunInv: the SortLoop is the queue of one priority; which priority goes first, and the flow filter, are free choices.
- ClientDelivery.AckMeansRead: is about the streaming communicator; with the polling one, an Ack means that a poll succeeded (Polling.ExactlyOnce).
- StreamClient.ExactlyOnce: a server that sends DoneSending twice in a connection is left out, because readLoop then panics; StreamSession.NeverRefused shows that Fleetspeak's server does not.
- StreamConnection.Connection.GroupMessages: the rate estimate is an arbitrary number of bytes, if there is one.
- Polling.Communicator.ProcessingLoop: deadlines, jitter and wake-ups are the choices that it is given; pollDone and lastPollErr are in PollFlush.
- Framing.ReadLoop: timeouts and write errors are left out, and the pipe is its whole contents.
- Timers, backoff, watchdogs, statistics and logging.
- Liveness: nothing is said about messages that the scheduler never lets through, only that loops over finite input end.
- Configuration, key management, the admin command line, gRPC wrappers, the Windows and Python parts and the sandboxes.
