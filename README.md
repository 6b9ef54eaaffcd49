# scream-reader-rs: a Dafny model of the receive loop and playback callback

scream-reader-rs plays Scream network audio: it receives datagrams on a
multicast group, reads a five-byte header (sample rate selector, sample
width, channel count, channel map), converts the PCM payload to
floating-point samples, and pushes them into a ring buffer of
16 * 1024 samples. An audio output stream, built once from the first
datagram that carries a header, drains that buffer from its output
callback, filling each device block frame by frame and playing silence
when the buffer runs dry.

This project models that core in Dafny and proves its properties:

- `Frame` (frame.dfy): the header decoder, with an encoder as its partner
  and round trips in both directions (decoding loses only the seven
  reserved bits of byte 0).
- `Samples` (samples.dfy): reading the payload as little-endian
  two's-complement 16-bit or 32-bit values (trailing partial groups are
  never read), the sign-dependent scaling of 32-bit values, and the width
  dispatch; the partner is a little-endian encoder, with round trips.
- `SampleQueue` (queue.dfy): the ring buffer as a class over an array of
  one slot more than the capacity, with a read and a write index (push,
  batch push, pop), the specification functions of a batch push
  (`Offer`: the longest prefix that fits is kept, in order) and of a
  callback block (`Block`: buffered samples, then silence), each proved
  equal to its one-at-a-time counterpart.
- `Playback` (playback.dfy): the output callback as a nested loop over
  frames and slots.
- `Receiver` (receiver.dfy): the receive loop as a specification (`Step`,
  `Replay`) over an explicit state (the built stream's configuration, whether
  the loop still holds the buffer's consumer side, the buffered samples) and
  as a class whose methods are proved against it; lemmas show the stream is
  built at most once, from the first datagram longer than the header, and
  that a run of datagrams with no callback block between them buffers
  exactly what one batch push of all its samples keeps. Datagrams
  interleaved with callback blocks (`Simulate`; a block takes samples only
  once a stream exists) keep the buffer first in,
  first out: the samples played followed by the samples still buffered are
  exactly the samples the buffer accepted, in arrival order.

src/main.rs builds the output stream once, from the first datagram longer
than the header, starts it at once and never rebuilds it, whatever rate,
channel count or channel map later datagrams carry; there is no prebuffer
threshold. Its 32-bit conversion divides non-negative samples by
`i32::MAX`, so `i32::MAX` maps to exactly 1.0.

The audio library's work is received as parameters: `opens` says whether
building and starting an output stream with a given configuration
succeeds, and `from16` is the library's 16-bit sample conversion.

## Model

| member | source | states |
|---|---|---|
| Frame.RateOf | src/main.rs:53 | the rate is 44100 exactly when the high bit of byte 0 is set and 48000 otherwise |
| Frame.RateIgnoresLowBits | src/main.rs:53 | bytes that agree on the high bit select the same rate, whatever their low 7 bits |
| Frame.ChannelMap | src/main.rs:56 | the map is below 65536, its high byte is byte 3 and its low byte is byte 4 |
| Frame.Decode | src/main.rs:47-97 | a datagram is skipped exactly when it has at most 5 bytes; otherwise the header is well formed and the payload has length len - 5 |
| Frame.DecodeEncode | src/main.rs:53-56 | decoding an encoded header and non-empty payload gives back both unchanged |
| Frame.EncodeDecode | src/main.rs:49-56 | re-encoding a decoded datagram gives the datagram back with only the low 7 bits of byte 0 cleared |
| Frame.HeaderDependsOnlyOnHeaderBytes | src/main.rs:53-56 | the header depends only on bytes 1-4 and the high bit of byte 0 |
| Samples.Le16 | src/main.rs:101-106 | a 16-bit value is in the i16 range and congruent modulo 2^16 to the little-endian unsigned reading of its two bytes |
| Samples.Le32 | src/main.rs:117-122 | a 32-bit value is in the i32 range and congruent modulo 2^32 to the little-endian unsigned reading of its four bytes |
| Samples.Le16ToLe16 | src/main.rs:101-106 | every i16 value survives a little-endian write and read |
| Samples.ToLe16Le16 | src/main.rs:101-106 | every byte pair survives a read and a write |
| Samples.Le32ToLe32 | src/main.rs:117-122 | every i32 value survives a little-endian write and read |
| Samples.ToLe32Le32 | src/main.rs:117-122 | every four bytes survive a read and a write |
| Samples.I16s | src/main.rs:101-106 | a payload of length L yields floor(L/2) values, value i read from bytes 2i and 2i+1 |
| Samples.I32s | src/main.rs:117-122 | a payload of length L yields floor(L/4) values, value i read from bytes 4i to 4i+3 |
| Samples.I16sEncodeI16s | src/main.rs:101-106 | reading a little-endian stream of i16 values gives back exactly those values, in order |
| Samples.I32sEncodeI32s | src/main.rs:117-122 | reading a little-endian stream of i32 values gives back exactly those values, in order |
| Samples.I16sIgnoresTail | src/main.rs:104 | a trailing odd byte does not change the values read |
| Samples.I32sIgnoresTail | src/main.rs:120 | up to three trailing bytes do not change the values read |
| Samples.Normalize32 | src/main.rs:124-130 | the scaled value lies in [-1, 1], keeps the sign and zero, and is -1 exactly for the minimum and 1 exactly for the maximum |
| Samples.Normalize32Monotonic | src/main.rs:124-130 | scaling keeps the order of samples |
| Samples.Decode | src/main.rs:99-141 | width 16 yields floor(L/2) converted values and width 32 floor(L/4) scaled values, in payload order; any other width yields none |
| Samples.DecodeEncodeI16s | src/main.rs:114 | a sender's 16-bit values reach the buffer converted one for one, in order |
| Samples.DecodeEncodeI32s | src/main.rs:138 | a sender's 32-bit values reach the buffer scaled one for one, in order |
| SampleQueue.Offer | src/main.rs:138 | a batch push keeps the queue within capacity and appends the longest prefix of the offered samples that fits, in order |
| SampleQueue.OfferIsOfferEach | src/main.rs:114 | a batch push equals pushing each offered sample in turn |
| SampleQueue.OfferConcat | src/main.rs:138 | two batch pushes keep exactly what one push of both batches keeps |
| SampleQueue.PopEachIsBlock | src/main.rs:157 | n pops with default 0.0 give the buffered samples in order followed by 0.0 in every remaining slot, and remove exactly min(n, buffered) samples from the front |
| SampleQueue.Queue.constructor | src/main.rs:32-33 | a new buffer is empty with the requested capacity |
| SampleQueue.Queue.Push | src/main.rs:114 | a push succeeds exactly when the buffer is not full and then appends the sample |
| SampleQueue.Queue.PushAll | src/main.rs:114 | the buffer becomes `Offer` of its old contents; the count returned is the number appended |
| SampleQueue.Queue.Pop | src/main.rs:157 | an empty buffer yields nothing; otherwise the oldest sample is removed and returned |
| Playback.FillFrame | src/main.rs:156-158 | the slots of one frame receive, in order, the samples at their positions in the block's queue or 0.0 past its end; the queue loses exactly those samples and no other slot changes |
| Playback.NextSample | src/main.rs:157 | one pop with default: an empty buffer yields 0.0 and stays empty; otherwise the oldest sample is removed and returned |
| Playback.FillBlock | src/main.rs:154-159 | with channels > 0 every slot gets, in order, the next buffered sample or 0.0, and exactly min(block length, buffered) samples are removed; with channels == 0 nothing is written or removed |
| Receiver.SamplesOf | src/main.rs:97-141 | a skipped datagram contributes no samples |
| Receiver.Step | src/main.rs:45-141 | the buffer stays within capacity; a skipped datagram changes nothing; an existing stream and consumer handle are never changed; only building the first stream can fail |
| Receiver.Replay | src/main.rs:45-142 | a run keeps the buffer within capacity |
| Receiver.ShortDatagramIgnored | src/main.rs:49-51 | a datagram of at most 5 bytes leaves stream, consumer and buffer unchanged |
| Receiver.StepQueue | src/main.rs:97-141 | a datagram the loop gets past has all its samples offered to the buffer, with or without a stream |
| Receiver.StreamNeverRebuilt | src/main.rs:58 | once a stream exists, no sequence of datagrams rebuilds it or takes the consumer again |
| Receiver.StreamFromFirstFrame | src/main.rs:58-95 | the first datagram longer than 5 bytes either builds the stream from its channels and rate or ends the loop with the consumer moved out |
| Receiver.BuiltOnceFromFirstFrame | src/main.rs:58-95 | after a run from the start, a stream exists exactly when some datagram was longer than 5 bytes, exactly when the consumer has been moved, and it is built from the first such datagram |
| Receiver.ReplayQueue | src/main.rs:45-141 | a run of datagrams with no callback block between them buffers exactly the longest prefix of all the datagrams' samples, in arrival order, that fits |
| Receiver.Taken | src/main.rs:154-158 | a callback block takes at most its length and at most what is buffered, and takes less than both only when no stream exists or the channel count is zero |
| Receiver.Advance | src/main.rs:45-159 | a datagram moves the state as `Step` does and plays nothing; a callback block removes exactly the samples it takes from the front of the buffer and accepts nothing |
| Receiver.AdvanceIsFifo | src/main.rs:114-157 | for one event, the samples taken followed by the samples left are the samples there before followed by the samples accepted |
| Receiver.Simulate | src/main.rs:45-159 | datagrams interleaved with callback blocks keep the buffer within capacity |
| Receiver.SimulateIsFifo | src/main.rs:45-159 | under any interleaving, the samples played followed by the samples still buffered are the samples buffered at the start followed by every sample accepted, in order |
| Receiver.PlayedThenBufferedIsAccepted | src/main.rs:30-159 | from the start of the program, the samples played followed by the samples still buffered are exactly the accepted samples, so the callback plays them in arrival order with none skipped or repeated |
| Receiver.SimulateKeepsStream | src/main.rs:58-159 | once a stream exists, neither datagrams nor callback blocks rebuild it or take the consumer again |
| Receiver.SimulateReceives | src/main.rs:45-142 | without callback blocks the event run ends as `Replay` does, plays nothing, and the buffer grows by exactly the accepted samples |
| Receiver.UnknownWidthStillBuildsStream | src/main.rs:58-141 | a first datagram of unrecognised width builds the stream but buffers nothing |
| Receiver.StereoExample | src/main.rs:49-114 | a 48000 Hz 16-bit stereo datagram with samples 100, -100, 200, -200 builds a 2-channel 48000 Hz stream and buffers those four samples in order |
| Receiver.Receiver.constructor | src/main.rs:30-34 | the loop starts without a stream, holding the consumer, with an empty buffer of 16 * 1024 samples |
| Receiver.Receiver.OnDatagram | src/main.rs:46-141 | handling a datagram moves the state as `Step` does, failing exactly when `Step` does |
| Receiver.Receiver.Render | src/main.rs:150-159 | the built stream's callback fills the block from the buffer in frames of the stream's channel count, and panics without effect when that count, byte 2 of the first datagram longer than 5 bytes, is zero |
| Receiver.Receiver.Run | src/main.rs:45-142 | handling datagrams in order moves the state as `Replay` does, stopping at the first failure |
| Receiver.Receiver.OnCallback | src/main.rs:150-159 | a callback block, once a stream exists, removes from the front of the buffer exactly the samples `Taken` says and changes nothing else |
| Receiver.Receiver.OnEvent | src/main.rs:45-159 | handling one event moves the state as `Advance` does, failing exactly when it does |
| Receiver.Receiver.Serve | src/main.rs:45-159 | handling datagrams and callback blocks in order moves the state as `Simulate` does, stopping at the first failure |

## Left out

- Socket setup, the multicast join and the blocking receive (src/main.rs:36-46): network I/O; datagrams are a given sequence of byte sequences, datagrams over 16 KiB are not modelled (the receive fails on Windows).
- Audio host, device and output-configuration discovery (src/main.rs:15-27): foreign library calls. The device buffer size placed in the stream configuration is not modelled.
- Building and starting the stream (src/main.rs:89-90, 152): foreign library calls, modelled by the `opens` parameter; either failing ends the loop with an error.
- Samples.Decode: the 16-bit conversion is the audio library's `Sample::from`, whose code is not part of this model; it is the parameter `from16`.
- Samples.Normalize32: exact real division by 2^31 (negative) or 2^31 - 1 (otherwise), not the f32 arithmetic of the Rust code, where the conversion to f32 rounds and `i32::MAX as f32` is 2^31, so values near the maximum also become 1.0, and values within 64 of `i32::MIN` also become -1.0.
- Playback.FillBlock: writes the real-valued samples; the conversion to the device sample type is the identity for the f32 stream that is built.
- Receiver.ReplayQueue: covers only runs with no callback block between datagrams, where nothing is popped; interleaved callback blocks are covered by Receiver.SimulateIsFifo, which states the first-in-first-out order of everything accepted; which samples a full buffer refuses is stated per datagram, by Receiver.Step and Receiver.StepQueue.
- Concurrency: the network loop and the real-time callback use the ring buffer from two threads without locks; the model runs pushes and pops as sequential calls on one object.
- The commented-out downmixing and sample-format selection (src/main.rs:64-72, 75, 82-88, 108-112, 132-136): dead code.
- Diagnostic output (src/main.rs:20, 27, 59-62, 91, 161-163).
- Pointer alignment and unsafety of the slice reinterpretation (src/main.rs:101-106, 117-122): modelled only as little-endian byte decoding.
