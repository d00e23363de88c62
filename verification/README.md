# RO-Proxy: the way of the bytes, proved

RO-Proxy relays game connections and mirrors every byte it relays to a second process, the Analyzer, which takes the
streams apart into packets. This project models that pipeline and proves what each stage keeps, and that together they
deliver what the design promises.

| file | what it models |
|---|---|
| `Common.dfy`, `Packets.dfy` | little-endian integers, hex, in-order subsequences; packet specifications and parsed packets |
| `Proxy.dfy`, `RelayCode.dfy` | connection handlers and relays, interleaved at will, and the frames they send; the relay loop |
| `Ring.dfy`, `Sender.dfy` | the drop-oldest ring with put-back, as code; its producers and its one sender, interleaved at will |
| `Frame.dfy`, `FrameCode.dfy` | the frame format, one frame and streams of them; the encoder and decoder as code |
| `Server.dfy` | decoding a stream into a bounded channel |
| `Processor.dfy`, `Routing.dfy`, `ProcessorCode.dfy` | frames into workers, channels and map entries, interleaved with the workers; what reaches each channel; the handlers as code |
| `Lifecycle.dfy` | what the discipline of the Proxy spares the Processor |
| `Parser.dfy`, `Worker.dfy` | the incremental parser as a function of the buffered bytes; the worker's loops as code |
| `Pipeline.dfy`, `Example.dfy` | all stages together; a run of them all |
| `PendingMap.dfy`, `VendorItems.dfy`, `SystemChat.dfy`, `ApiQueue.dfy` | four stateful or format-heavy cores of the Analyzer |

Where the original changes things in place, there is a method or a class in the same shape, proved equal to a function
of its inputs or old state; what the system promises is then proved about those functions. What happens concurrently is
a state machine whose events may come in any order, and the theorems are about every run of it.

## Findings

The code does not always do what one would expect of it. Each of these is a theorem with its exact condition.

* Client to server, how the stream is cut into chunks can change the packets: the guess for the optional checksum byte
  looks at where the buffer ends. `Parser.ChunkIndependence` says precisely when it does; `Parser.ClientChunksMatter`
  shows it with two Map Loaded packets (`internal/packets/send/send_packets.go:16`), cut after the third byte. Server to
  client it never does, for any packet table.
* A parse panics or loops for ever on some input exactly when the table has a fixed entry of size below one
  (`Parser.SafeTableIff`). `internal/packets/receive/receive_packets.go:200` has one, of size -1.
* A worker that panics starts its loop again with empty buffers and goes on finding packets, some of which no parse of all
  the bytes finds (`Workers.FoundAfterPanic`, with that entry). But every loop that ends calls Done on a WaitGroup to
  which only one was added, so the second loop crashes the process when it ends: the worker comes to its end without a
  crash exactly when both directions parse without a panic or an endless loop (`Workers.Worker.ConsumeChunks`).
* A frame comes back from the wire exactly when its addresses have at most 255 bytes and its body less than 2^32
  (`Frames.RoundTrip`); the encoder cuts the lengths without a word otherwise.
* A stream cut inside a frame reads as a clean end of file exactly when it is cut right behind the header
  (`Frames.DecodePrefix`, `Frames.CutError`).
* Order and accounting of the frames hold all along a run exactly when no frame is put back on a full ring
  (`Senders.OrderlyIff`). When one is, it overwrites the newest frame, and the next frame sent overtakes all the others
  (`Rings.PushFrontFull`, `Rings.Overtaken`): there is a run that ends at rest with a frame neither delivered nor counted
  as dropped (`Senders.Vanished`) and one that delivers frames out of order (`Senders.OutOfOrder`). That can be the Close
  of a connection before its Open, and then the Processor keeps a worker for a connection that is gone
  (`Example.PutBackHarms`); without such a put-back no loss does this harm (`Pipeline.LossesDoNoHarm`). Alignment of
  head, tail and count holds in any case.
* An operation on the pending maps changes the answer for a place exactly when the entry that answers is the first of the
  connection it sets, with another map, or the last of the connection it clears, with another answer behind it
  (`PendingMaps.HitStays`). With connection and character numbers other than 0 that never happens
  (`PendingMaps.Sticky`). It does happen with connection number 0 (`PendingMaps.ZeroOverwrites`), which the Proxy never
  gives out (`Proxies.NumbersFromOne`), and after a login with character number 0, which binds all places to the
  connection of the login: when that connection closes, an answer is gone (`PendingMaps.CharacterZeroCuts`). Rebinding
  to a number keeps places and connections apart exactly when the character is not 0 or there is no place
  (`PendingMaps.RebindInv`).
* Clearing a connection removes the last of its entries only (`PendingMaps.ClearGet`); rebinding a character keeps
  connections unique exactly when it finds one entry at most and no other has the new number
  (`PendingMaps.RebindUnique`, `PendingMaps.UniqueRun`).
* The comment at `internal/common/api.go:21-22` promises that no request is ever lost. Once everything is settled, the
  requests that were rejected a hundred times have been given up, those that cannot be marshalled have been lost, and
  exactly the others have been delivered (`ApiQueue.Settlement`); `ApiQueue.LostRejected` and `ApiQueue.LostUnmarshalled`
  are runs that lose a request.
* A system chat packet is indexed out of range exactly when it is empty (`SystemChat.Deserialize`), and a vendor list
  exactly when it has the opcode of the long form and at most 12 bytes (`VendorItems.Deserialize`).

## Model

| member | source | states |
|---|---|---|
| Pipeline.EndToEnd | internal/analyzer/worker.go:59-131 | With nothing dropped, no frame put back on a full ring, one connection between the processes and no drain timeout: however handlers, producers, frames and workers interleave, the server-to-client packets a connection's worker finds are those of one parse of all bytes the Proxy relayed server to client on it, as long as the worker stays in its first loop; with safe tables it always does. |
| Pipeline.Always | internal/analyzer/worker.go:59-131 | At every moment of a run without drops and without a put-back on a full ring, over at most one connection, with any tables: the server-to-client packets a worker has found are those of one parse of a first stretch of its chunks and, after a panic, of one parse of a stretch behind it; the former are the first of those one parse finds in all bytes relayed server to client on its connection so far, and with safe tables they are all. |
| Pipeline.HandledFirst | internal/analyzer/processor.go:80-112 | Without drops and without a put-back on a full ring, over at most one connection, the frames the Processor has handled are the first of those the Proxy sent. |
| Pipeline.TakenFirst | internal/analyzer/worker.go:73-86 | Under the same conditions the chunks a worker has taken are the first of its connection's data frames. |
| Example.Happens | internal/ipc/client.go:92-106 | Such runs exist, for any data a relay passes on: relayed, put back once, delivered, handled, and taken by the worker while it drains. |
| Pipeline.LossesDoNoHarm | internal/analyzer/processor.go:100-198 | Frames lost by a ring that drops the oldest but takes none back when it is full, on any number of connections one after the other, each cut anywhere and with a disconnect or not, and by a full channel: no worker is displaced, none lives after its Close was handled, every channel ever made serves a connection or is closed. |
| Example.PutBackHarms | internal/ipc/client.go:99-103 | A run of Proxy, ring and Processor in which a put-back on a full ring leaves a worker alive after its Close was handled. |
| Pipeline.ArrivingLost | internal/ipc/server.go:96-112 | What the server enqueues of a cut stream of encoded frames is an in-order subsequence of the frames delivered. |
| Pipeline.DeliveredLost | internal/ipc/client.go:92-106 | While no frame is put back on a full ring, what the sender delivered is an in-order subsequence of what was sent. |
| Pipeline.NothingLost | internal/ipc/client.go:92-106 | A ring at rest that dropped nothing and had no frame put back on it when full, a whole wire and a channel with room hand over exactly the frames sent. |
| Pipeline.StreamBytes | internal/ipc/frame.go:81-88 | The data of a connection's chunks of one direction, put together, are the bytes of its data frames of that direction. |
| Parser.IndexFrom | internal/analyzer/worker.go:344-351 | Finds the first blank line at or after a place, or none if there is none. |
| Parser.Conservation | internal/analyzer/worker.go:204-309 | Skipped bytes, packets and checksum bytes in order, and then what is left, are exactly the bytes that were in the buffer. |
| Parser.TakenIsFramed | internal/analyzer/worker.go:227-260 | A packet taken from the buffer has the length its table entry calls for: the fixed size, the indicated size but at least 2, or up to and including the first blank line. |
| Parser.TakesIff | internal/analyzer/worker.go:208-260 | A turn takes n bytes exactly when the opcode is known, its entry calls for n bytes (its size, the little-endian number in bytes 3 and 4 but at least 2, or the end of the first blank line), and 0 < n and n bytes are there. |
| Parser.StopsIff | internal/analyzer/worker.go:208-260 | It waits exactly when less than an opcode is there, or less than the packet that a known opcode calls for; it panics or loops exactly when that packet has a negative size, or none. |
| Parser.GuessIff | internal/analyzer/worker.go:262-283 | A byte is taken for a checksum exactly from the client, when it is the only one left, or starts no known opcode and is followed by one. |
| Parser.RightIff | internal/analyzer/worker.go:208-301 | What a turn consumes is right, in every field of the packet, and nothing else would be: unknown opcodes and entries of unknown type skip one byte. |
| Parser.ParseIff | internal/analyzer/worker.go:204-309 | For every table, direction and buffer, a run of the loop is the one and only run in which each step is what the format says of the bytes from there on, and which stops where the format says so. |
| Parser.FirstTaken | internal/analyzer/worker.go:227-283 | A buffer that starts with what a known entry calls for yields just that packet, then its checksum if the guess says so, and then what the rest yields; an indicated size below 2 takes 2 bytes. |
| Parser.WholeTaken | internal/analyzer/worker.go:227-260 | A packet whose entry calls for its own length is the first one parsed, whatever follows it. |
| Parser.ServerRoundTrip | internal/analyzer/worker.go:204-309 | Any whole packets of the server laid end to end are parsed into these packets, with nothing left. |
| Parser.Faithful | internal/analyzer/worker.go:204-309 | Every packet is framed by the entry of its own opcode, carries what follows its 2- or 4-byte header (or nothing), and a checksum only from the client; a buffer is left waiting only when it holds no whole packet. |
| Parser.Consume | internal/analyzer/worker.go:222-283 | A turn of the loop that does not return shrinks the buffer. |
| Parser.HttpStable | internal/analyzer/worker.go:344-355 | The first blank line stays the first when more bytes arrive. |
| Parser.DecideStable | internal/analyzer/worker.go:208-257 | Once a turn does more than wait, no later bytes change what it decides, for every size type. |
| Parser.ConsumeMore | internal/analyzer/worker.go:222-283 | Of what a turn consumes, later bytes can change the checksum guess and nothing else; if they do, the packet differs. |
| Parser.LaterPacket | internal/analyzer/worker.go:262-283 | A guess that later bytes could change is followed by no further packet, panic or endless loop in the buffer. |
| Parser.Resume | internal/analyzer/worker.go:204-309 | If the guess after the last packet stands, parsing a chunk and then the rest with the next chunk is parsing both at once. |
| Parser.BadStopStable | internal/analyzer/worker.go:259-260 | A panic or endless loop does not depend on the bytes that follow. |
| Parser.Diverge | internal/analyzer/worker.go:262-283 | If the guess does not stand, the packets differ from those of the whole, whatever is parsed afterwards. |
| Parser.ChunkIndependence | internal/analyzer/worker.go:90-104 | For any table, buffer and chunks: feeding them one by one gives the same steps and leftover as parsing the whole exactly when the guess stands at every cut; otherwise the packets differ. |
| Parser.ServerChunkIndependence | internal/analyzer/worker.go:97-103 | Server to client, packets and leftover bytes never depend on the chunks, for any table. |
| Parser.ServerMore | internal/analyzer/worker.go:204-309 | Server to client, more bytes only ever add packets, whatever the table. |
| Parser.ClientChunksMatter | internal/analyzer/worker.go:262-283 | For any table with the Map Loaded entry: four bytes that are two packets at once and one packet when cut after the third. |
| Parser.SafeTableIff | internal/analyzer/worker.go:230-260 | Every parse ends waiting exactly when all fixed entries have positive size. |
| Parser.FirstItem | internal/analyzer/worker.go:259-283 | Of printed items, the first is parsed as printed, or with another checksum exactly when its checksum byte and the next byte form a known opcode. |
| Parser.ClientRoundTrip | internal/analyzer/worker.go:204-309 | Any client packets, each as long as its entry calls for, laid end to end with optional checksums, come back, packets and checksums, with an empty buffer, exactly when no checksum byte forms a known opcode with the byte after it. |
| Workers.OneDirection | internal/analyzer/worker.go:90-104 | Chunks of the other direction in between change neither buffer nor packets of a direction, as long as the loop goes on. |
| Workers.DirectionsIndependent | internal/analyzer/worker.go:59-104 | However chunks of both directions interleave, each is parsed as if alone; a loop goes on exactly as long as both parses do. |
| Workers.ServerPackets | internal/analyzer/worker.go:97-103 | The server packets of a worker in its first loop are those of one parse of all server bytes. |
| Workers.ServerPrefix | internal/analyzer/worker.go:90-104 | The packets in a worker's first server chunks are the first of those in all of them. |
| Workers.Lifetime | internal/analyzer/worker.go:59-88 | Panic by panic: what a worker emits is what fresh workers emit in the stretches of chunks between those that end a loop, and which loop is at work after them. |
| Workers.ServerLifetime | internal/analyzer/worker.go:59-104 | Server to client, that is one parse of the bytes of each stretch. |
| Workers.FoundAfterPanic | internal/analyzer/worker.go:63-68 | With the Identify entries of the table: a packet is found after a panic which no parse of all bytes finds. |
| Workers.SafeWorker | internal/analyzer/worker.go:73-86 | With safe tables a worker stays in its first loop, whatever chunks it gets. |
| Workers.Buffer.Next | internal/analyzer/worker.go:223-260 | Takes up to n bytes from the front of the buffer and leaves the others. |
| Workers.Worker.TryParsePackets | internal/analyzer/worker.go:204-309 | Returns the packets of the one right run of the buffer and leaves in the buffer what it leaves, or does not return where the original panics or loops. |
| Workers.Worker.ReadChecksum | internal/analyzer/worker.go:262-283 | From the client, takes the byte after a packet if it is the only one left, or starts no known opcode and is followed by one; otherwise leaves everything. |
| Workers.Worker.ProcessChunk | internal/analyzer/worker.go:90-104 | Appends to the buffer of the chunk's direction, parses it and leaves the other buffer alone; or ends the loop, losing the packets of this call. |
| Workers.Worker.ConsumeChunks | internal/analyzer/worker.go:41-131 | Looping, restarting after a panic, and draining emit what processing the chunks in order emits; the calls of Done crash the process when a loop that followed a panic ends; the worker ends well exactly when both directions parse without a panic or endless loop. |
| Rings.EnqueueAligned | internal/ipc/client.go:54-68 | Sending keeps tail at head + count modulo the size; the count grows by one unless the ring is full. |
| Rings.PopAligned | internal/ipc/client.go:109-123 | So does taking a frame, and the count shrinks by one unless the ring is empty. |
| Rings.PushFrontAligned | internal/ipc/client.go:126-134 | So does putting a frame back, on a full ring too. |
| Rings.EnqueueQueue | internal/ipc/client.go:54-68 | As a queue: the oldest frame is dropped if the ring is full, and the new one comes last. |
| Rings.PopQueue | internal/ipc/client.go:109-123 | As a queue: the oldest frame is returned and removed. |
| Rings.PushFrontQueue | internal/ipc/client.go:126-134 | As a queue, if there is room: the frame comes first again and nothing else changes. |
| Rings.PushFrontFull | internal/ipc/client.go:126-134 | On a full ring the frame overwrites the newest one and the count exceeds the size. |
| Rings.Overtaken | internal/ipc/client.go:126-134 | After that the next frame sent is the first to be taken, and the one put back is the last. |
| Rings.Client.Send | internal/ipc/client.go:54-75 | The array code enqueues as above and leaves the signal set. |
| Rings.Client.PopFrame | internal/ipc/client.go:109-123 | The array code pops as above. |
| Rings.Client.PutBack | internal/ipc/client.go:126-134 | The array code puts back as above. |
| Rings.Client.SendOldest | internal/ipc/client.go:93-104 | One turn sends the oldest frame, or puts it back where it was. |
| Rings.Client.ProcessBuffer | internal/ipc/client.go:92-106 | Undisturbed, a round moves frames from the ring to the wire in order up to the first write that fails, fails exactly when one does, and loses none. |
| Rings.Wire.Send | internal/ipc/client.go:137-149 | A frame is delivered whole or not at all. |
| Senders.Alignment | internal/ipc/client.go:54-134 | In every run of any producers and one sender: tail is head + count modulo the size, count is at most size + 1, and at most size while a frame is in flight. |
| Senders.OrderedNext | internal/ipc/client.go:54-188 | Each step that puts no frame back on a full ring keeps the order of frames, the accounting and the wakeup. |
| Senders.RefinesQueue | internal/ipc/client.go:54-134 | In every such run the ring is a suffix of what was sent; delivered, in flight and queued together are an in-order subsequence of it; sent = delivered + in flight + queued + dropped. |
| Senders.ConnectedFirst | internal/ipc/client.go:78-188 | In every run nothing is delivered before a connection was made, and the sender stops only when the client is closed. |
| Senders.NeverStranded | internal/ipc/client.go:70-106 | In every such run an idle sender that is not closed and has frames queued finds a signal set or a producer about to set it. |
| Senders.AtRest | internal/ipc/client.go:78-106 | At rest every frame was delivered or dropped; if none was dropped all were delivered in order. |
| Senders.OverfullIff | internal/ipc/client.go:126-134 | The ring counts more frames than it has slots at some point of a run exactly when a frame was put back on a full ring. |
| Senders.OrderlyIff | internal/ipc/client.go:54-134 | The ring is a suffix of what was sent, everything is in order and accounted for at all points of a run exactly when no frame was put back on a full ring. |
| Senders.Vanished | internal/ipc/client.go:126-134 | A run that ends at rest with two frames sent, one delivered and none counted as dropped. |
| Senders.OutOfOrder | internal/ipc/client.go:126-134 | A run that delivers the fourth frame before the first. |
| Frames.Encode | internal/ipc/frame.go:96-102 | The length of an encoding: 7 bytes of header, 24 fixed ones, addresses and data. |
| Frames.LayoutOfEncode | internal/ipc/frame.go:91-156 | Every byte of an encoding: 4F 52 01, the length of the body, type, connection, timestamp in two's complement, direction, both addresses behind a length byte, the data behind a 32-bit length; all numbers little-endian, lengths cut to their width. |
| Frames.HeaderRoundTrip | internal/ipc/frame.go:104-116 | A header with the right magic, version and a body length below 2^32 reads back as that length. |
| Frames.FixedRoundTrip | internal/ipc/frame.go:118-136 | Type, connection, timestamp with its sign and direction read back, whatever follows. |
| Frames.AddressRoundTrip | internal/ipc/frame.go:138-148 | An address of at most 255 bytes reads back, whatever follows. |
| Frames.DataRoundTrip | internal/ipc/frame.go:150-153 | Data of less than 2^32 bytes read back. |
| Frames.DecodedIsEncodable | internal/ipc/frame.go:159-234 | Whatever is decoded has addresses of at most 255 bytes and fits a body below 2^32. |
| Frames.DecodeMeans | internal/ipc/frame.go:159-234 | Of any bytes at all: which of them are refused, and with which error in which order, when a body is indexed out of range, and otherwise each field at its place, with what is behind the body left over. |
| Frames.RoundTrip | internal/ipc/frame.go:91-234 | An encoded frame, followed by anything, decodes to itself with the rest untouched exactly when it is encodable. |
| Frames.DecodePrefix | internal/ipc/frame.go:159-182 | Decoding reads nothing behind the frame, and no proper prefix of it decodes: which error a cut gives depends on its place only. |
| Frames.CutStream | internal/ipc/frame.go:91-234 | However a stream of encodings is cut short, exactly the frames whole in it are decoded, in order, and then the stream ends, cleanly if the cut is at a frame or right behind a header. |
| Frames.StreamRoundTrip | internal/ipc/frame.go:91-234 | Any list of encodable frames comes back with nothing left over. |
| FrameCode.Put | internal/ipc/frame.go:107-153 | Writing at an offset extends what is written so far. |
| FrameCode.PutHeader | internal/ipc/frame.go:104-116 | Writes the header of the format. |
| FrameCode.PutFixed | internal/ipc/frame.go:118-136 | Writes type, connection, timestamp and direction of the format. |
| FrameCode.PutAddress | internal/ipc/frame.go:138-148 | Writes a length byte and the address. |
| FrameCode.PutData | internal/ipc/frame.go:150-153 | Writes a 32-bit length and the data. |
| FrameCode.EncodeFrame | internal/ipc/frame.go:91-156 | Fills an array of exactly the right size with the encoding of the format, byte by byte as laid out. |
| FrameCode.Reader.ReadFull | internal/ipc/frame.go:161-182 | Reads n bytes, or fails having consumed what was left. |
| FrameCode.Slice | internal/ipc/frame.go:186-223 | A piece of the body at the offset, or nothing where the original indexes out of range. |
| FrameCode.DecodeFrame | internal/ipc/frame.go:159-234 | Decodes as the format says, errors and out-of-range panics included, and leaves the reader behind the frame. |
| FrameCode.DecodeFields | internal/ipc/frame.go:184-234 | Advances an offset through the body exactly as the format lays it out. |
| Servers.AdmittedLost | internal/ipc/server.go:107-112 | A full channel only ever loses frames. |
| Servers.AdmittedLast | internal/ipc/server.go:107-112 | A frame is admitted behind those before it exactly if there is room for it. |
| Servers.AllAdmitted | internal/ipc/server.go:107-112 | With room at all times none is lost. |
| Servers.FrameChannel.Offer | internal/ipc/server.go:107-112 | The frame is appended if there is room, and dropped if not. |
| Servers.HandleConnection | internal/ipc/server.go:83-114 | The channel gets the frames of the stream in order, less those it had no room for, then a disconnect if it has room; a malformed body crashes. |
| Processors.SentOfOffered | internal/analyzer/processor.go:232-237 | What a channel accepted is an in-order subsequence of what it was offered. |
| Processors.SentIsOffered | internal/analyzer/processor.go:232-237 | And all of it if nothing was dropped. |
| Processors.HandleInv | internal/analyzer/processor.go:101-238 | Any frame at all keeps: equal keys of workers and connections, own open channels, no use after closing, routing, and the exact account of channels forgotten open. |
| Processors.DataMeans | internal/analyzer/processor.go:201-238 | In full: a data frame gets a worker with an empty channel and its connection's addresses if there is none; its chunk is accepted behind those queued exactly if fewer than the capacity are; nothing else changes. |
| Processors.OpenMeans | internal/analyzer/processor.go:115-140 | In full: an Open makes a new, empty, open channel and both map entries, with the addresses of the frame. |
| Processors.CloseMeans | internal/analyzer/processor.go:143-198 | In full: a Close closes and cancels its worker and removes its entries; a disconnect does that for every connection with a worker; any other frame does nothing. |
| Processors.CleanUpMeans | internal/analyzer/processor.go:260-275 | In full: the first clean-up closes and cancels every worker and leaves the connections; later ones do nothing. |
| Processors.PhaseMeans | internal/analyzer/worker.go:73-131 | A worker drains only when cancelled or at the end of a closed channel, is done only at that end or when draining timed out, and takes chunks one by one from the front. |
| Processors.CancelMeans | internal/analyzer/processor.go:150-156 | A worker is cancelled exactly when its channel is closed, or with all others, and for good. |
| Processors.NextInv | internal/analyzer/processor.go:80-275 | So does every other step: clean-up, cancellation, and the steps of the workers. |
| Processors.EveryRun | internal/analyzer/processor.go:80-275 | In every run: until clean-up workers and connections have the same keys; distinct connections own distinct open channels; no channel is closed twice or sent to after closing; some channel is forgotten open exactly when an Open displaced a live worker. |
| Routing.HandleRouted | internal/analyzer/processor.go:101-238 | Handling any frame keeps the account below for all channels. |
| Routing.EveryChannel | internal/analyzer/processor.go:115-238 | For every channel ever made, live or closed: it serves its connection from the frame it was made for up to the first Close or Open of it, or disconnect; it accepted an in-order subsequence of the data frames of its connection in between, all of them if it never filled; its worker has taken the first of these. |
| Routing.NothingDroppedIff | internal/analyzer/processor.go:232-237 | In every run a channel drops nothing exactly if fewer chunks than its capacity were queued at every data frame of its service; then it accepted all of these, in order. |
| Processors.Drained | internal/analyzer/worker.go:73-131 | A worker done without a timeout has taken all its channel accepted, in order, and the channel is closed, whether it saw cancellation or closing first. |
| ProcessorCode.Handle.TrySend | internal/analyzer/processor.go:232-237 | On an open channel: the chunk is appended if fewer than capacity chunks are queued, and otherwise neither queue nor accepted chunks change. |
| ProcessorCode.Handle.Stop | internal/analyzer/processor.go:150-152 | On an open channel: it is closed and its worker cancelled. |
| ProcessorCode.Processor.MakeWorker | internal/analyzer/processor.go:121-137 | A new channel with a new worker, and both map entries. |
| ProcessorCode.Processor.OnConnOpen | internal/analyzer/processor.go:115-140 | Both maps get the connection's entry, with the addresses of the frame and a fresh, empty, open channel; the model's Open, displacing a live worker if there is one. |
| ProcessorCode.Processor.OnConnClose | internal/analyzer/processor.go:143-156 | Both entries are removed, and the channel is closed and its worker cancelled; the model's Close, and no closed channel is closed again. |
| ProcessorCode.Processor.OnData | internal/analyzer/processor.go:201-238 | The connection has a worker afterwards, a fresh one with the addresses of the frame if it had none, and its queue ends with the chunk if fewer than capacity were queued; nothing is sent on a closed channel. |
| ProcessorCode.Processor.Dispatch | internal/analyzer/processor.go:232-237 | The chunk is appended to the queue of the frame's connection if there is room; no other channel changes. |
| ProcessorCode.Processor.ShutEach | internal/analyzer/processor.go:175-193 | The loop over the workers closes each of their channels once, no other, and removes their entries. |
| ProcessorCode.Processor.OnIPCDisconnect | internal/analyzer/processor.go:171-195 | Every channel in the map is closed and its worker cancelled, and both maps lose their entries. |
| ProcessorCode.Processor.CleanupAllWorkers | internal/analyzer/processor.go:260-275 | The same once, for the workers only; a second time nothing. |
| ProcessorCode.Processor.OnFrame | internal/analyzer/processor.go:101-112 | The frame is handled as the model says, by its type, and the invariant is kept. |
| ProcessorCode.Processor.ProcessLoop | internal/analyzer/processor.go:80-98 | All frames are handled in order and then all workers are cleaned up, with the invariant kept. |
| Proxies.EveryRun | internal/proxy/proxy.go:74-112 | However handlers and relays interleave: each connection number is used once and sends a part of Open, Data*, Close; it has sent Close exactly when its handler is finished; what was sent in a direction and is pending for it is all its relay wrote; every frame is encodable. |
| Proxies.NumbersFromOne | internal/proxy/proxy.go:74-76 | Every frame of every run has a connection number from 1. |
| Proxies.NextInv | internal/proxy/connection.go:47-146 | Each step of a handler or relay keeps that, for its own connection and all others. |
| Proxies.RelayedChange | internal/proxy/connection.go:98-145 | What was sent and what is pending are all a relay wrote, before and after each step. |
| Proxies.SendsMeans | internal/ipc/frame.go:48-78 | The frame each step sends, in all its fields: Open and data with number, time, direction and addresses of their connection, Close without addresses. |
| Proxies.FramesAddressed | internal/ipc/frame.go:48-78 | In every run each frame belongs to a connection and carries its addresses, or none in a Close; only data frames carry bytes. |
| RelayCode.RelayLoop | internal/proxy/connection.go:98-146 | Of the chunks read before the context ends, or a read or write fails, each is written and sent in one frame, in order, with its own bytes although the buffer is used again, its own time and the connection's addresses; nothing else is. |
| RelayCode.PassedMeans | internal/proxy/connection.go:104-123 | What is passed on are all chunks before the first turn that ends the relay; a read timeout is none. |
| RelayCode.TimeoutsDoNotMatter | internal/proxy/connection.go:111-117 | A read timeout anywhere changes neither frames nor bytes. |
| RelayCode.RelayIsRun | internal/proxy/connection.go:98-146 | What the loop sends and writes is a run of the state machine above. |
| Lifecycle.LivesDisciplined | internal/proxy/proxy.go:98-111 | If each connection sends a part of Open, Data*, Close, no frame of a connection precedes its Open or follows its Close in the whole trace. |
| Lifecycle.DisturbedDisciplined | internal/ipc/server.go:96-112 | Losing any frames and inserting disconnects anywhere keeps that. |
| Lifecycle.NextProtected | internal/analyzer/processor.go:115-198 | Under that discipline every step keeps: no worker displaced, every live worker heard of and not hung up. |
| Lifecycle.ProxyProtects | internal/analyzer/processor.go:115-198 | The frames of any run of the Proxy, any of them lost and disconnects anywhere: no worker is ever displaced, none lives after its Close was handled, every channel ever made serves a connection or is closed. |
| Lifecycle.OneWorkerEach | internal/analyzer/processor.go:115-238 | Without disconnects each connection heard of has one channel ever, offered all its data frames. |
| PendingMaps.EveryRun | internal/packets/context.go:26-165 | With connection numbers, character numbers and addresses that are not zero or empty: in every run each entry is of one kind, and keys of places with their map are distinct. |
| PendingMaps.RebindInv | internal/packets/context.go:138-148 | Rebinding keeps the kinds apart exactly when it gives numbers to connections and 0 to places only: with a number, exactly when the character is not 0 or there is no place. |
| PendingMaps.HitStays | internal/packets/context.go:26-165 | In any list, a place that is found goes on being found with the same map exactly when the operation does not meet the entry that answers: as the first of the connection set, with another map, or as the last of the connection cleared, with another answer behind it. |
| PendingMaps.StaysFound | internal/packets/context.go:26-165 | From any list, the answer for a place stays the same all along a run exactly when no operation of it does that. |
| PendingMaps.Sticky | internal/packets/context.go:88-136 | Once a position or destination is found, the same map is found for it in every later state. |
| PendingMaps.SetPlaceGet | internal/packets/context.go:65-136 | In any list, setting a place gives it the new map unless it was found before, and changes the answer for no other place with an address and for no connection. |
| PendingMaps.MissStays | internal/packets/context.go:30-165 | In any list, a place with an address that is not found is not found after any operation but setting it. |
| PendingMaps.PlaceRun | internal/packets/context.go:65-136 | Over every proper run, a place is found with the map it had at first, or else with the map of the first operation that sets it, or not at all if there is none. |
| PendingMaps.ZeroOverwrites | internal/packets/context.go:30-50 | For any position entry: number 0 gives it another map, or cuts it out. |
| PendingMaps.CharacterZeroCuts | internal/packets/context.go:138-165 | For any position: rebinding character 0 and clearing that connection loses its answer. |
| PendingMaps.SetGet | internal/packets/context.go:30-63 | Setting a connection's map changes the answer for that connection, to the new map, and for no other, in any list. |
| PendingMaps.ClearGet | internal/packets/context.go:150-165 | Clearing changes no other connection's answer, and removes the connection exactly when it had at most one entry. |
| PendingMaps.RebindUnique | internal/packets/context.go:138-148 | In any list, rebinding to a number keeps connections unique exactly when it finds at most one entry and no other has the number. |
| PendingMaps.RebindMoves | internal/packets/context.go:138-148 | Then it is a move of the key. |
| PendingMaps.SetAndClearUnique | internal/packets/context.go:30-165 | Setting and clearing keep connections unique. |
| PendingMaps.UniqueRun | internal/packets/context.go:26-165 | At no point of a run does a connection have two entries exactly when all its rebindings are like that. |
| PendingMaps.NextAccounts | internal/packets/context.go:30-165 | Each proper operation whose rebinding is alone does to the list what it does to a finite map from connections to character and map. |
| PendingMaps.AccountRun | internal/packets/context.go:30-165 | Over every such run connections are answered as that finite map says. |
| PendingMaps.First | internal/packets/context.go:56-60 | The first entry that fits a query, or the end. |
| PendingMaps.Last | internal/packets/context.go:154-159 | The last entry that fits, or -1. |
| PendingMaps.PendingMap.SetConnectionMapChar | internal/packets/context.go:30-50 | The loop updates the connection's first entry or appends one; the connection then has this map. |
| PendingMaps.PendingMap.GetConnectionMap | internal/packets/context.go:52-63 | The loop answers as the map from connections does. |
| PendingMaps.PendingMap.SetPendingMapChange | internal/packets/context.go:65-86 | The loop appends a position unless it is there with that map; it is then found, with the map it had or else this one. |
| PendingMaps.PendingMap.GetPendingMapChange | internal/packets/context.go:88-101 | The loop answers with the first entry of the position. |
| PendingMaps.PendingMap.SetPendingMapByDestination | internal/packets/context.go:103-122 | The loop appends a destination unless it is there with that map; it is then found, with the map it had or else this one. |
| PendingMaps.PendingMap.GetPendingMapByDestination | internal/packets/context.go:124-136 | The loop answers with the first entry of the destination. |
| PendingMaps.PendingMap.SetPendingMapByCharId | internal/packets/context.go:138-148 | The loop gives the number to every entry of the character and to no other. |
| PendingMaps.PendingMap.ClearConnectionMap | internal/packets/context.go:150-165 | The loop cuts the last entry of the connection out. |
| VendorItems.ItemCount | internal/packets/receive/vender_items_lists.go:62-105 | The item count is (bytes from the item start + 1) / 64, rounded down; a last record of 63 bytes has refine 0. |
| VendorItems.ItemsMean | internal/packets/receive/vender_items_lists.go:62-105 | Item k is read from the 64 bytes at 64 * k of the item part, each field at its place, little-endian. |
| VendorItems.DeserializedMeans | internal/packets/receive/vender_items_lists.go:41-105 | Of any opcode and payload: no list, a panic, or a list with header and items at their places, numbers cut short by the end read as zero, and as many items as there are records. |
| VendorItems.RecordRoundTrip | internal/packets/receive/vender_items_lists.go:66-102 | A 64-byte record reads back as its item, whatever follows. |
| VendorItems.ItemsRoundTrip | internal/packets/receive/vender_items_lists.go:62-105 | Any list of items reads back. |
| VendorItems.ListRoundTrip | internal/packets/receive/vender_items_lists.go:48-105 | A valid header of either opcode and any list of items read back. |
| VendorItems.ReadItem | internal/packets/receive/vender_items_lists.go:65-105 | A turn of the loop, with its own offsets, reads the record at i within bounds and moves on by 64. |
| VendorItems.ReadCards | internal/packets/receive/vender_items_lists.go:74-78 | The four card slots of a record. |
| VendorItems.ReadEnchants | internal/packets/receive/vender_items_lists.go:80-88 | The four enchants of a record, with 24-bit values. |
| VendorItems.Deserialize | internal/packets/receive/vender_items_lists.go:41-105 | Reads header and items at their places, nothing for other opcodes, and panics exactly on a long list without its flag byte. |
| SystemChat.SplitJoin | internal/packets/receive/system_chat.go:41 | The parts of a split hold no separator and give everything back when joined. |
| SystemChat.JoinSplit | internal/packets/receive/system_chat.go:41 | Parts without separators, joined, split into themselves. |
| SystemChat.LastParameter | internal/packets/receive/system_chat.go:23-33 | A start byte ends the last parameter. |
| SystemChat.AnotherParameter | internal/packets/receive/system_chat.go:23-34 | A separator ends a parameter and the others follow. |
| SystemChat.RenderParse | internal/packets/receive/system_chat.go:17-39 | Any non-empty list of parameters without delimiters is read back, in hex, whatever follows. |
| SystemChat.PartsAreRuns | internal/packets/receive/system_chat.go:41-48 | The non-empty parts between zeros are the maximal zero-free runs, all of them, in order. |
| SystemChat.MessagesAreRuns | internal/packets/receive/system_chat.go:40-51 | So the messages are their hex. |
| SystemChat.ReadParameters | internal/packets/receive/system_chat.go:17-35 | The loop returns the pieces up to the next start byte, or all but the last if there is none. |
| SystemChat.Deserialize | internal/packets/receive/system_chat.go:13-52 | Parameters exactly after a start byte 1C, messages otherwise, and a panic exactly on an empty packet. |
| Hex.Injective | internal/common/base.go:64-70 | Hex loses nothing: different bytes have different hex. |
| Hex.DigitsOf | internal/common/base.go:64-70 | Byte i becomes two characters, its high and its low digit, 0 to 9 and then a to f. |
| ApiQueue.NextInv | internal/common/api.go:37-195 | Every step keeps each request in one place, its retries equal to its rejections, and both at most 100. |
| ApiQueue.EveryRun | internal/common/api.go:37-195 | In every run each request pushed is in exactly one of queued, in hand, delivered, abandoned, not marshalled; no queued request has more than 100 retries, and none gets more than 100 responses that are not 2xx. |
| ApiQueue.Accounted | internal/common/api.go:141-195 | In every run: what was abandoned was rejected exactly 100 times, what was delivered less often, and what was not marshalled cannot be and was never rejected. |
| ApiQueue.CodesRecorded | internal/common/api.go:164-195 | In every run a request counts as rejected once for each response outside of 200 to 299, and as delivered once for each other. |
| ApiQueue.FirstTriesInOrder | internal/common/api.go:37-55 | In every run requests are first tried in the order in which they were pushed. |
| ApiQueue.Settlement | internal/common/api.go:141-195 | Once everything is settled: abandoned are exactly the requests that got 100 responses outside of 200 to 299, lost unmarshalled exactly those that cannot be marshalled, delivered exactly the others, which are those that got a response in 200 to 299. |
| ApiQueue.LostUnmarshalled | internal/common/api.go:158-162 | A run that loses a request that cannot be marshalled. |
| ApiQueue.LostRejected | internal/common/api.go:147-148 | A run that gives a request up after a hundred responses. |
| ApiQueue.NextWork | internal/common/api.go:141-195 | Each pop, and each step that is no transport error, uses up work that is left. |
| ApiQueue.Drains | internal/common/api.go:141-195 | Without new pushes the queue is popped at most the sum of 101 - retries times, with at most three steps each besides transport errors, and the consumer is stuck only when everything is settled. |
| ApiQueue.UnboundedAPIQueue.Push | internal/common/api.go:37-42 | Appends. |
| ApiQueue.UnboundedAPIQueue.Pop | internal/common/api.go:44-55 | Takes the first. |
| ApiQueue.ConsumeOne | internal/common/api.go:141-195 | The first request is abandoned from 100 retries on, lost if it does not marshal, delivered and gone if the first response it gets is in 200 to 299, put at the end with one retry more if that is any other, and still being sent if it gets none. |
| ApiQueue.ConsumeIsRun | internal/common/api.go:141-195 | That is a run of the state machine, with the status code that came back, which moves the request to the one place its fate names and changes nothing else. |

## Left out

- Connection number, timestamp and addresses of a parsed packet: copied, and dropped from packet equality.
- What other routines still do in the moment in which a crash takes the process down, and that the crash of one worker
  ends all the others.
- Workers.Worker.TryParsePackets: where the original loops for ever on a fixed entry of size zero, the method stops and
  says so.
- Undefined values of packet directions and size types: the code never makes them.
- The literal packet tables: data; every theorem is about any table.
- Sockets, dialling, deadlines, original destinations, recording, signals, screens, logging, notifications, statistics
  and configuration: input and output.
- A missing IPC client in the Proxy: nothing would be sent at all.
- Proxies.EveryRun: the 64-bit connection counter does not wrap, and an address has at most 255 bytes, as host and port
  have.
- RelayCode.RelayLoop: a write to the destination that delivers part of a chunk and then fails is a write that failed; the
  receiver then has bytes that the Analyzer never gets.
- Rings.Wire.Send: a write that delivers part of a frame is not modelled; the receiver's view of a cut is
  `Frames.CutStream`.
- ProcessorCode.Processor.ProcessLoop: no worker takes chunks while the loop runs, so queues only grow in it; workers
  and handlers interleave in `Processors` and `Routing`.
- Rings.Client.ProcessBuffer: proved without producers in between; with them the theorems are those of `Senders`.
- Senders.RefinesQueue: says nothing about runs in which a frame is put back on a full ring, because order and
  accounting fail there (`Senders.OrderlyIff`).
- Overlapping connections between Proxy and Analyzer: two server routines may then interleave their frames, so
  `Pipeline.Always` and `Pipeline.EndToEnd` are about runs in which at most one connection was made, and
  `Pipeline.LossesDoNoHarm` about one after the other.
- The early exits of the server when it is closed: they only end the stream sooner.
- Servers.HandleConnection: how much room the channel has is told as a script, because the Processor empties it meanwhile.
- `Processor.Stop` beside a running frame loop: it closes channels and leaves them in the map.
- Waiting for workers in the clean-up, and for deserializers: only their end could be observed.
- Real time: timeouts and retry pauses are steps that may happen at any moment, and the start time of a connection is not
  kept.
- The deserializer routines, their semaphore and reflection: they run unordered; packets are stated as the parser
  returns them.
- VendorItems.Deserialize: ends before the question for the connection's map and the request to the API, which decide
  only whether the list is sent.
- ApiQueue.UnboundedAPIQueue.Pop: waiting on an empty queue is the precondition that it is not empty; in the
  state machine the step is not enabled then.
- ApiQueue.ConsumeOne: a send that gets no response in the given attempts is reported as still going on.
- The single-record deserializers: constant offsets.
